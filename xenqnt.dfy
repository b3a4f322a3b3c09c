/** The XenQnt module's tuning state and its per-sample quantiser. */
module XenQntModule {
  import opened Tuning
  import opened Quantizer

  class XenQnt {
    /** Every allowed voltage of the tuning, ascending. */
    var pitches: seq<real>
    /** The tuning in cents; the last entry is the period. */
    var scale: seq<real>

    /** The table is the lattice of a well-formed scale. */
    ghost predicate Valid()
      reads this
    {
      WellFormed(scale) && IsLatticeOf(pitches, scale)
    }

    /** A module starts out in the 12-tone equal default. */
    constructor()
      ensures Valid()
      ensures scale == TwelveTone() && pitches == DefaultTable()
    {
      pitches := [];
      scale := [];
      new;
      OnReset();
    }

    /** Quantise every channel of the pitch input; the output has as many
        channels as the input. The host's ports are the two sequences. */
    method Process(input: seq<real>) returns (output: seq<real>)
      requires |pitches| > 0 && Ascending(pitches)
      ensures |output| == |input|
      ensures forall i :: 0 <= i < |input| ==> output[i] == GetPitch(pitches, input[i])
      ensures forall i :: 0 <= i < |input| ==> output[i] in pitches
    {
      var numChannels := |input|;
      output := [];
      for i := 0 to numChannels
        invariant |output| == i
        invariant forall c :: 0 <= c < i ==> output[c] == GetPitch(pitches, input[c])
      {
        output := output + [GetPitch(pitches, input[i])];
      }
    }

    /** Rebuild the table from a scale: an upward walk from 0 V adding one
        period per pass, a downward walk over the scale with the period
        dropped and 0 put in front, then both fields replaced. */
    method UpdateTuning(centVals: seq<real>)
      requires |centVals| > 0 && Last(centVals) > 0.0
      modifies this
      ensures scale == centVals
      ensures forall x :: x in pitches ==> OnLattice(centVals, x)
      ensures WellFormed(centVals) ==> IsLatticeOf(pitches, centVals) && Valid()
    {
      var n := |centVals|;
      var upward;
      ghost var ku, iu;
      upward, ku, iu := UpwardPass(centVals);
      var voltages;
      ghost var kd, rd;
      voltages, kd, rd := DownwardPass(centVals, upward);

      // Replace both fields: the table by the assembled walks, the scale by its argument.
      pitches := [];
      for t := 0 to |voltages|
        invariant pitches == voltages[..t]
      {
        pitches := pitches + [voltages[t]];
      }
      scale := [];
      for t := 0 to n
        invariant scale == centVals[..t]
        invariant pitches == voltages
      {
        scale := scale + [centVals[t]];
      }
      assert pitches == Assembled(centVals, ku, iu, kd, rd);
      UpsOnLattice(centVals, ku, iu);
      LowsOnLattice(centVals, kd, rd);
      assert OnLattice(centVals, 0.0) by {
        assert IsOffset(centVals, 0.0) && 0.0 == Point(Last(centVals), 0, 0.0);
      }
      if WellFormed(centVals) {
        BuiltTableIsLattice(centVals, ku, iu, kd, rd);
      }
    }

    /** Install the 12-tone equal default: the table from MIN_VOLT upward in
        steps of 1/12 V while at most MAX_VOLT, the scale 100, 200, ..., 1200. */
    method OnReset()
      modifies this
      ensures scale == TwelveTone() && pitches == DefaultTable()
      ensures Valid()
    {
      pitches := [];
      scale := [];
      var voltage := MIN_VOLT;
      ghost var t: nat := 0;
      while voltage <= MAX_VOLT
        invariant t <= 121 && voltage == MIN_VOLT + t as real / 12.0
        invariant pitches == DefaultTable()[..t] && scale == []
        decreases 121 - t
      {
        pitches := pitches + [voltage];
        voltage := voltage + 1.0 / 12.0;
        t := t + 1;
      }
      for i := 1 to 13
        invariant scale == TwelveTone()[..i - 1] && pitches == DefaultTable()
      {
        scale := scale + [i as real * 100.0];
      }
      DefaultTableIsLattice();
    }

    /** A valid table is something `GetPitch` can search: non-empty and ascending. */
    lemma ValidTable()
      requires Valid()
      ensures |pitches| > 0 && Ascending(pitches)
    {
      ZeroExactlyOnce(pitches, scale);
    }
  }

  /** The upward walk of `updateTuning`: from 0 V, pass after pass over the
      scale, each pass one period higher, appending every voltage up to the
      first one above MAX_VOLT. The result starts with the 0 V tonic. */
  method UpwardPass(centVals: seq<real>) returns (voltages: seq<real>, ghost ku: nat, ghost iu: nat)
    requires |centVals| > 0 && Last(centVals) > 0.0
    ensures |voltages| > 0 && voltages[0] == 0.0
    ensures forall x :: x in voltages ==> x <= MAX_VOLT && OnLattice(centVals, x)
    ensures WellFormed(centVals) ==> StrictlyAscending(voltages)
    ensures WellFormed(centVals) ==>
              forall j: nat, i: nat :: i < |centVals| && Up(centVals, j, i) <= MAX_VOLT ==> Up(centVals, j, i) in voltages
    ensures iu < |centVals| && Up(centVals, ku, iu) > MAX_VOLT
    ensures voltages == [0.0] + Ups(centVals, ku, iu)
    ensures forall x :: x in Ups(centVals, ku, iu) ==> x <= MAX_VOLT
  {
    var n := |centVals|;
    ghost var P := Last(centVals);
    voltages := [0.0];
    var voltage := 0.0;
    // the offset of the period (e.g. octave) the walk is in
    var periodOffset := 0.0;
    var done := false;
    ku, iu := 0, 0;
    while !done
      invariant iu < n && ku <= (MAX_VOLT * 1200.0 / P).Floor
      invariant !done ==> iu == 0
      invariant voltages == [0.0] + Ups(centVals, ku, iu)
      invariant !done ==> periodOffset == Point(P, ku, 0.0) <= MAX_VOLT
      invariant done ==> Up(centVals, ku, iu) > MAX_VOLT
      invariant forall x :: x in Ups(centVals, ku, iu) ==> x <= MAX_VOLT
      decreases (if done then 0 else 1), (MAX_VOLT * 1200.0 / P).Floor - ku
    {
      var i := 0;
      while i < n
        invariant 0 <= i <= n && !done
        invariant voltages == [0.0] + Ups(centVals, ku, i)
        invariant periodOffset == Point(P, ku, 0.0)
        invariant 0 < i ==> voltage == Up(centVals, ku, i - 1) <= MAX_VOLT
        invariant forall x :: x in Ups(centVals, ku, i) ==> x <= MAX_VOLT
      {
        voltage := periodOffset + centVals[i] / 1200.0;
        if voltage <= MAX_VOLT {
          voltages := voltages + [voltage];
        } else {
          done := true;
          iu := i;
          break;
        }
        i := i + 1;
      }
      periodOffset := voltage;
      if !done {
        UpPassDone(centVals, ku);
        ku := ku + 1;
      }
    }
    UpsOnLattice(centVals, ku, iu);
    assert OnLattice(centVals, 0.0) by {
      assert IsOffset(centVals, 0.0) && 0.0 == Point(P, 0, 0.0);
    }
    if WellFormed(centVals) {
      UpsAscending(centVals, ku, iu);
      PrependAscending(0.0, Ups(centVals, ku, iu));
      UpsComplete(centVals, ku, iu);
    }
  }

  /** The downward walk of `updateTuning`: over a copy of the scale with the
      period dropped and 0 put in front, read from its end, pass after pass,
      each pass one period lower, prepending every voltage down to the first
      one below MIN_VOLT. */
  method DownwardPass(centVals: seq<real>, upward: seq<real>) returns (voltages: seq<real>, ghost kd: nat, ghost rd: nat)
    requires |centVals| > 0 && Last(centVals) > 0.0
    ensures |upward| <= |voltages| && voltages[|voltages| - |upward|..] == upward
    ensures forall x :: x in voltages[..|voltages| - |upward|] ==> MIN_VOLT <= x && OnLattice(centVals, x)
    ensures WellFormed(centVals) ==>
              && StrictlyAscending(voltages[..|voltages| - |upward|])
              && forall t :: 0 <= t < |voltages| - |upward| ==> voltages[t] < 0.0
    ensures WellFormed(centVals) ==>
              forall j: nat, r: nat :: r < |centVals| && MIN_VOLT <= Down(centVals, j, r) ==>
                Down(centVals, j, r) in voltages[..|voltages| - |upward|]
    ensures rd < |centVals| && Down(centVals, kd, rd) < MIN_VOLT
    ensures voltages == Lows(centVals, kd, rd) + upward
    ensures forall x :: x in Lows(centVals, kd, rd) ==> MIN_VOLT <= x
  {
    var n := |centVals|;
    ghost var P := Last(centVals);
    voltages := upward;
    var copyCentVals := centVals;
    var voltage := 0.0;
    var periodOffset := 0.0;
    var period := copyCentVals[|copyCentVals| - 1];
    copyCentVals := copyCentVals[..|copyCentVals| - 1];
    copyCentVals := [0.0] + copyCentVals;
    var done := false;
    kd, rd := 0, 0;
    while !done
      invariant copyCentVals == Rotated(centVals) && period == P
      invariant rd < n && kd <= (-MIN_VOLT * 1200.0 / P).Floor
      invariant !done ==> rd == 0
      invariant voltages == Lows(centVals, kd, rd) + upward
      invariant !done ==> periodOffset == Point(P, -(kd as int), 0.0) >= MIN_VOLT
      invariant done ==> Down(centVals, kd, rd) < MIN_VOLT
      invariant forall x :: x in Lows(centVals, kd, rd) ==> MIN_VOLT <= x
      decreases (if done then 0 else 1), (-MIN_VOLT * 1200.0 / P).Floor - kd
    {
      var j := |copyCentVals|;
      ghost var r: nat := 0;
      while j > 0
        invariant 0 <= j <= n && r == n - j && !done
        invariant voltages == Lows(centVals, kd, r) + upward
        invariant periodOffset == Point(P, -(kd as int), 0.0)
        invariant 0 < r ==> voltage == Down(centVals, kd, r - 1) >= MIN_VOLT
        invariant forall x :: x in Lows(centVals, kd, r) ==> MIN_VOLT <= x
      {
        var tone := copyCentVals[j - 1];
        voltage := periodOffset + (tone - period) / 1200.0;
        DownFromOffset(centVals, kd, r);
        if voltage >= MIN_VOLT {
          voltages := [voltage] + voltages;
        } else {
          done := true;
          rd := r;
          break;
        }
        j := j - 1;
        r := r + 1;
      }
      periodOffset := voltage;
      if !done {
        DownPassDone(centVals, kd);
        kd := kd + 1;
      }
    }
    var lows := Lows(centVals, kd, rd);
    assert voltages[..|voltages| - |upward|] == lows;
    LowsOnLattice(centVals, kd, rd);
    if WellFormed(centVals) {
      LowsAscending(centVals, kd, rd);
      assert forall t :: 0 <= t < |lows| ==> lows[t] in lows;
      LowsComplete(centVals, kd, rd);
    }
  }
}
