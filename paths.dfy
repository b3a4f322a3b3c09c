/** Splitting a file path at its last separator (`getBaseName` and
    `getParentDir` of the plugin's utilities). Strings are sequences of
    characters; `std::string` positions are 64-bit `size_t` values. */
module Paths {

  datatype Option<T> = None | Some(value: T)

  /** `std::string::npos`, the largest 64-bit `size_t`. */
  const NPOS: nat := 0xFFFF_FFFF_FFFF_FFFF
  /** `size_t` arithmetic wraps modulo 2^64. */
  const SIZE_MODULUS: nat := 0x1_0000_0000_0000_0000

  /** The characters `find_last_of("/\\")` looks for. */
  predicate IsSeparator(ch: char) {
    ch == '/' || ch == '\\'
  }

  predicate HasSeparator(s: string) {
    exists j :: 0 <= j < |s| && IsSeparator(s[j])
  }

  function Min(a: nat, b: nat): nat {
    if a < b then a else b
  }

  /** `s.find_last_of("/\\")`: the position of the last separator, or NPOS
      when there is none. */
  function FindLastSeparator(s: string): (r: nat)
    requires |s| < NPOS
    ensures r == NPOS <==> !HasSeparator(s)
    ensures r != NPOS ==> r < |s| && IsSeparator(s[r])
    ensures r != NPOS ==> forall j :: r < j < |s| ==> !IsSeparator(s[j])
  {
    if |s| == 0 then NPOS
    else if IsSeparator(s[|s| - 1]) then |s| - 1
    else FindLastSeparator(s[..|s| - 1])
  }

  /** `s.substr(pos, count)` for a position inside the string: at most
      `count` characters from `pos`, fewer when the string ends first. */
  function Substr(s: string, pos: nat, count: nat): (r: string)
    requires pos <= |s|
    ensures |r| == Min(count, |s| - pos)
    ensures forall j :: 0 <= j < |r| ==> r[j] == s[pos + j]
  {
    s[pos..pos + Min(count, |s| - pos)]
  }

  /** The file name after the last separator; `npos + 1` wraps to 0, so a
      path without separator is its own base name. */
  function GetBaseName(fileName: string): (r: string)
    requires |fileName| < NPOS
    ensures !HasSeparator(r)
    ensures !HasSeparator(fileName) ==> r == fileName
    ensures |r| <= |fileName| && r == fileName[|fileName| - |r|..]
    ensures HasSeparator(fileName) ==> |r| == |fileName| - FindLastSeparator(fileName) - 1
  {
    Substr(fileName, (FindLastSeparator(fileName) + 1) % SIZE_MODULUS, NPOS)
  }

  /** The directory `getParentDir` tries: everything before the last
      separator, or the whole path (`substr(0, npos)`) when there is none. */
  function ParentCandidate(fileName: string): (r: string)
    requires |fileName| < NPOS
    ensures !HasSeparator(fileName) ==> r == fileName
    ensures HasSeparator(fileName) ==>
              && |r| < |fileName|
              && r == fileName[..|r|]
              && IsSeparator(fileName[|r|])
              && !HasSeparator(fileName[|r| + 1..])
  {
    Substr(fileName, 0, FindLastSeparator(fileName))
  }

  /** The candidate parent, the separator after it and the base name put
      back together give the path again. */
  lemma SplitRoundTrip(fileName: string)
    requires |fileName| < NPOS && HasSeparator(fileName)
    ensures |ParentCandidate(fileName)| < |fileName|
    ensures IsSeparator(fileName[|ParentCandidate(fileName)|])
    ensures ParentCandidate(fileName) + [fileName[|ParentCandidate(fileName)|]] + GetBaseName(fileName)
            == fileName
  {
    var c, b := ParentCandidate(fileName), GetBaseName(fileName);
    var k := FindLastSeparator(fileName);
    assert |c| == k;
    assert |b| == |fileName| - k - 1;
    assert fileName == fileName[..k] + [fileName[k]] + fileName[k + 1..];
  }

  /** `getParentDir`: the candidate parent when the directory check accepts
      it. Otherwise the source returns NULL into a `std::string`, which is
      undefined behaviour; the model answers None. The directory check
      (`exists`, a `stat` call) is the oracle `dirExists`. */
  function GetParentDir(fileName: string, dirExists: string -> bool): (r: Option<string>)
    requires |fileName| < NPOS
    ensures r.Some? <==> dirExists(ParentCandidate(fileName))
    ensures r.Some? ==> r.value == ParentCandidate(fileName)
    ensures r.Some? && HasSeparator(fileName) ==>
              |r.value| < |fileName| && r.value + [fileName[|r.value|]] + GetBaseName(fileName) == fileName
  {
    var candidate := ParentCandidate(fileName);
    if dirExists(candidate) then
      Some(candidate)
    else
      None
  }
}
