/** Whitespace trimming as done by JavaScript's `String.prototype.trim`. */
module Text {

  /** The characters `trim` removes: the ECMAScript WhiteSpace characters
      (tab, vertical tab, form feed, space, no-break space, byte order mark
      and the Unicode space separators) and the LineTerminator characters.
      Each of them is a single UTF-16 code unit; the zero-width space and the
      next-line character are not among them. */
  function IsWs(c: char): (b: bool)
    ensures b ==> (c as int) < 0x1_0000
    ensures c == ' ' || c == '\t' || c == '\n' || c == '\r' ==> b
    ensures c == '\U{200B}' || c == '\U{0085}' ==> !b
  {
    || c == '\t' || c == '\U{000B}' || c == '\U{000C}' || c == ' '
    || c == '\U{00A0}' || c == '\U{FEFF}' || c == '\U{1680}'
    || ('\U{2000}' <= c <= '\U{200A}')
    || c == '\U{202F}' || c == '\U{205F}' || c == '\U{3000}'
    || c == '\n' || c == '\r' || c == '\U{2028}' || c == '\U{2029}'
  }

  /** A string with no whitespace at either end. */
  predicate IsTrimmed(r: string) {
    r == [] || (!IsWs(r[0]) && !IsWs(r[|r| - 1]))
  }

  /** `r` is `s` with its leading and trailing whitespace cut off, where the
      leading run has length `lo`. */
  ghost predicate TrimmedAt(r: string, s: string, lo: int) {
    && 0 <= lo && lo + |r| <= |s|
    && r == s[lo..lo + |r|]
    && (forall i :: 0 <= i < lo ==> IsWs(s[i]))
    && (forall i :: lo + |r| <= i < |s| ==> IsWs(s[i]))
    && IsTrimmed(r)
  }

  /** The reference definition of trimming: some cut of `s` with only
      whitespace outside it and no whitespace at its ends. */
  ghost predicate IsTrimOf(r: string, s: string) {
    exists lo :: TrimmedAt(r, s, lo)
  }

  /** The end of the whitespace run that starts at `i`. */
  function SkipForward(s: string, i: nat): (n: nat)
    requires i <= |s|
    ensures i <= n <= |s|
    ensures forall k :: i <= k < n ==> IsWs(s[k])
    ensures n < |s| ==> !IsWs(s[n])
    decreases |s| - i
  {
    if i < |s| && IsWs(s[i]) then SkipForward(s, i + 1) else i
  }

  /** The start of the whitespace run that ends at `j`, going no lower than `lo`. */
  function SkipBackward(s: string, lo: nat, j: nat): (n: nat)
    requires lo <= j <= |s|
    ensures lo <= n <= j
    ensures forall k :: n <= k < j ==> IsWs(s[k])
    ensures n > lo ==> !IsWs(s[n - 1])
    decreases j
  {
    if j > lo && IsWs(s[j - 1]) then SkipBackward(s, lo, j - 1) else j
  }

  /** A cut meeting the reference definition is empty exactly when the
      whole string is whitespace. */
  lemma TrimmedAtEmpty(r: string, s: string, lo: int)
    requires TrimmedAt(r, s, lo)
    ensures r == [] <==> forall i :: 0 <= i < |s| ==> IsWs(s[i])
  {
    if r != [] {
      assert s[lo] == r[0];
      assert !IsWs(s[lo]);
    }
  }

  /** `s.trim()`: the result meets the reference definition, and it is empty
      exactly when `s` is all whitespace. */
  function Trim(s: string): (r: string)
    ensures IsTrimOf(r, s)
    ensures r == [] <==> forall i :: 0 <= i < |s| ==> IsWs(s[i])
  {
    var lo := SkipForward(s, 0);
    var hi := SkipBackward(s, lo, |s|);
    var r := s[lo..hi];
    assert r != [] ==> r[0] == s[lo] && r[|r| - 1] == s[hi - 1];
    assert TrimmedAt(r, s, lo);
    TrimmedAtEmpty(r, s, lo);
    r
  }

  /** At most one string meets the reference definition of trimming. */
  lemma {:induction false} TrimOfUnique(r1: string, r2: string, s: string)
    requires IsTrimOf(r1, s) && IsTrimOf(r2, s)
    ensures r1 == r2
  {
    var lo1 :| TrimmedAt(r1, s, lo1);
    var lo2 :| TrimmedAt(r2, s, lo2);
    TrimmedAtEmpty(r1, s, lo1);
    TrimmedAtEmpty(r2, s, lo2);
    if r1 != [] && r2 != [] {
      assert s[lo1] == r1[0] && s[lo2] == r2[0];
      assert lo1 == lo2;
      var hi1, hi2 := lo1 + |r1|, lo2 + |r2|;
      assert s[hi1 - 1] == r1[|r1| - 1] && s[hi2 - 1] == r2[|r2| - 1];
      assert hi1 == hi2;
    }
  }

  /** Trimming twice is trimming once. */
  lemma TrimIdempotent(s: string)
    ensures Trim(Trim(s)) == Trim(s)
  {
    var r := Trim(s);
    var lo :| TrimmedAt(r, s, lo);
    assert TrimmedAt(r, r, 0);
    TrimOfUnique(Trim(r), r, r);
  }

  /** A string already free of whitespace at both ends is its own trim. */
  lemma TrimOfTrimmed(s: string)
    requires IsTrimmed(s)
    ensures Trim(s) == s
  {
    assert TrimmedAt(s, s, 0);
    TrimOfUnique(Trim(s), s, s);
  }
}
