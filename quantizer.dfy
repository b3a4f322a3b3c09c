/** Nearest-neighbour quantisation of a voltage onto the tuning table
    (`XenQnt::getPitch`). */
module Quantizer {
  import opened Tuning

  function Abs(x: real): real {
    if x < 0.0 then -x else x
  }

  /** Binary search over `s[lo..hi]` for the first entry not below `v`, given
      that everything before `lo` is below `v` and nothing from `hi` on is. */
  function LowerBoundIn(s: seq<real>, v: real, lo: nat, hi: nat): (r: nat)
    requires lo <= hi <= |s| && Ascending(s)
    requires forall j :: 0 <= j < lo ==> s[j] < v
    requires forall j :: hi <= j < |s| ==> v <= s[j]
    ensures lo <= r <= hi
    ensures forall j :: 0 <= j < r ==> s[j] < v
    ensures forall j :: r <= j < |s| ==> v <= s[j]
    decreases hi - lo
  {
    if lo == hi then lo
    else
      var mid := lo + (hi - lo) / 2;
      if s[mid] < v then LowerBoundIn(s, v, mid + 1, hi) else LowerBoundIn(s, v, lo, mid)
  }

  /** `std::lower_bound`: the index of the first entry of an ascending
      sequence that is not below `v` (`|s|` when there is none). */
  function LowerBound(s: seq<real>, v: real): (r: nat)
    requires Ascending(s)
    ensures r <= |s|
    ensures forall j :: 0 <= j < r ==> s[j] < v
    ensures forall j :: r <= j < |s| ==> v <= s[j]
  {
    LowerBoundIn(s, v, 0, |s|)
  }

  /** The table entry `v` is quantised to: clamped at both ends, otherwise the
      nearer of the two neighbours around `v`, the upper one on a tie. */
  function GetPitch(pitches: seq<real>, v: real): (r: real)
    requires |pitches| > 0 && Ascending(pitches)
    ensures r in pitches
    ensures v <= pitches[0] ==> r == pitches[0]
    ensures v > Last(pitches) ==> r == Last(pitches)
  {
    var ceil := LowerBound(pitches, v);
    if ceil == 0 then pitches[ceil]
    else if ceil == |pitches| then pitches[ceil - 1]
    else
      var floor := ceil - 1;
      if pitches[ceil] - v > v - pitches[floor] then pitches[floor] else pitches[ceil]
  }

  /** The result is a nearest table entry, and the greatest of the nearest
      ones: no entry is closer to `v`, and an entry just as close is not above it. */
  lemma GetPitchNearest(pitches: seq<real>, v: real)
    requires |pitches| > 0 && Ascending(pitches)
    ensures forall p :: p in pitches ==> Abs(GetPitch(pitches, v) - v) <= Abs(p - v)
    ensures forall p :: p in pitches && Abs(p - v) == Abs(GetPitch(pitches, v) - v) ==>
                          p <= GetPitch(pitches, v)
  {
    var r := GetPitch(pitches, v);
    var c := LowerBound(pitches, v);
    forall p | p in pitches
      ensures Abs(r - v) <= Abs(p - v)
      ensures Abs(p - v) == Abs(r - v) ==> p <= r
    {
      var z :| 0 <= z < |pitches| && pitches[z] == p;
      if z < c {
        assert p <= pitches[c - 1];
      } else {
        assert pitches[c] <= p;
      }
    }
  }

  /** Tie-break: halfway between two neighbouring entries, the upper one wins. */
  lemma GetPitchTieGoesUp(pitches: seq<real>, i: nat, v: real)
    requires Ascending(pitches) && 0 < i < |pitches|
    requires pitches[i - 1] < pitches[i] && v - pitches[i - 1] == pitches[i] - v
    ensures GetPitch(pitches, v) == pitches[i]
  {
    GetPitchNearest(pitches, v);
    var r := GetPitch(pitches, v);
    assert pitches[i - 1] in pitches && pitches[i] in pitches;
    var z :| 0 <= z < |pitches| && pitches[z] == r;
    if z > i {
      assert pitches[i] <= r;
    }
  }

  /** A voltage that is already a table entry is left where it is. */
  lemma GetPitchFixedPoint(pitches: seq<real>, v: real)
    requires |pitches| > 0 && Ascending(pitches) && v in pitches
    ensures GetPitch(pitches, v) == v
  {
    GetPitchNearest(pitches, v);
    assert Abs(v - v) == 0.0;
  }

  /** Quantising twice is quantising once. */
  lemma GetPitchIdempotent(pitches: seq<real>, v: real)
    requires |pitches| > 0 && Ascending(pitches)
    ensures GetPitch(pitches, GetPitch(pitches, v)) == GetPitch(pitches, v)
  {
    GetPitchFixedPoint(pitches, GetPitch(pitches, v));
  }
}
