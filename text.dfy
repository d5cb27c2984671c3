/** Python's `str.strip()` with no argument, as `df['username'].str.strip()` applies it to
    every cell, and the substring test `str.contains('@')`. */
module Text {
  import opened Wrappers

  /** The characters Python's `str.isspace` accepts, which are the ones `str.strip()`
      removes: the ASCII controls TAB..CR and FS..US, SPACE, NEL, NO-BREAK SPACE, and the
      Unicode space separators and line/paragraph separators. */
  predicate IsSpace(c: char) {
    var n := c as int;
    || (0x09 <= n <= 0x0D)
    || (0x1C <= n <= 0x20)
    || n == 0x85 || n == 0xA0 || n == 0x1680
    || (0x2000 <= n <= 0x200A)
    || n == 0x2028 || n == 0x2029 || n == 0x202F || n == 0x205F || n == 0x3000
  }

  /** Neither end of `s` is whitespace. */
  predicate IsStripped(s: string) {
    s == [] || (!IsSpace(s[0]) && !IsSpace(s[|s| - 1]))
  }

  /** Drops the leading whitespace: the result is a suffix of `s` that does not start with
      whitespace, and everything dropped was whitespace. */
  function TrimStart(s: string): (r: string)
    ensures |r| <= |s| && r == s[|s| - |r|..]
    ensures r == [] || !IsSpace(r[0])
    ensures forall i :: 0 <= i < |s| - |r| ==> IsSpace(s[i])
  {
    if s != [] && IsSpace(s[0]) then TrimStart(s[1..]) else s
  }

  /** Drops the trailing whitespace: the result is a prefix of `s` that does not end with
      whitespace, and everything dropped was whitespace. */
  function TrimEnd(s: string): (r: string)
    ensures |r| <= |s| && r == s[..|r|]
    ensures r == [] || !IsSpace(r[|r| - 1])
    ensures forall i :: |r| <= i < |s| ==> IsSpace(s[i])
  {
    if s != [] && IsSpace(s[|s| - 1]) then TrimEnd(s[..|s| - 1]) else s
  }

  /** `str.strip()`. */
  function Strip(s: string): (r: string) {
    TrimEnd(TrimStart(s))
  }

  /** The stripped text is the slice `s[lo..hi]` obtained by cutting whitespace only, and it
      has no whitespace at either end. */
  lemma StripIsTrimmedSlice(s: string)
    ensures IsStripped(Strip(s))
    ensures exists lo, hi :: 0 <= lo <= hi <= |s| && Strip(s) == s[lo..hi]
              && (forall i :: 0 <= i < lo ==> IsSpace(s[i]))
              && (forall i :: hi <= i < |s| ==> IsSpace(s[i]))
  {
    var t := TrimStart(s);
    var r := TrimEnd(t);
    var lo := |s| - |t|;
    var hi := lo + |r|;
    assert r == s[lo..hi];
    forall i | hi <= i < |s|
      ensures IsSpace(s[i])
    {
      assert s[i] == t[i - lo];
    }
    if r != [] {
      assert r[0] == t[0];
    }
  }

  /** Text without whitespace at its ends is left alone, so stripping twice is stripping
      once. */
  lemma StripIdempotent(s: string)
    ensures IsStripped(s) ==> Strip(s) == s
    ensures Strip(Strip(s)) == Strip(s)
  {
    StripIsTrimmedSlice(s);
  }

  /** `Series.str.strip()`: a missing cell stays missing, a present one is stripped. */
  function StripCell(cell: Option<string>): (r: Option<string>)
    ensures r.None? <==> cell.None?
    ensures r.Some? ==> IsStripped(r.value)
    ensures cell.Some? ==> r == Some(Strip(cell.value))
  {
    match cell
    case None => None
    case Some(s) => StripIsTrimmedSlice(s); Some(Strip(s))
  }
}
