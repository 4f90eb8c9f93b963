/**
 * The JavaScript string primitives the two handlers rely on, written out:
 * `String.prototype.trim`, the first piece of `split(',')`, a case-insensitive
 * regular-expression search for a fixed phrase, and `Buffer.toString('hex')`.
 */
module Text {
  import opened Common

  // ---------------------------------------------------------------- trimming

  /** The code points JavaScript counts as WhiteSpace or LineTerminator, which `trim` removes. */
  const JsSpaces: set<int> :=
    {0x09, 0x0A, 0x0B, 0x0C, 0x0D, 0x20, 0xA0, 0x1680,
     0x2000, 0x2001, 0x2002, 0x2003, 0x2004, 0x2005, 0x2006, 0x2007, 0x2008, 0x2009, 0x200A,
     0x2028, 0x2029, 0x202F, 0x205F, 0x3000, 0xFEFF}

  predicate IsJsSpace(c: char) {
    c as int in JsSpaces
  }

  predicate Blank(s: string) {
    forall i :: 0 <= i < |s| ==> IsJsSpace(s[i])
  }

  /** `r` is the slice `[i, j)` of `s`, only spaces lie outside it, and it neither starts nor ends with a space. */
  ghost predicate TrimAt(r: string, s: string, i: int, j: int) {
    && 0 <= i <= j <= |s| && r == s[i..j]
    && (forall k :: 0 <= k < i ==> IsJsSpace(s[k]))
    && (forall k :: j <= k < |s| ==> IsJsSpace(s[k]))
    && (i < j ==> !IsJsSpace(s[i]) && !IsJsSpace(s[j - 1]))
  }

  /** What `s.trim()` must return: a slice of `s` that only spaces surround and that has no space at either end. */
  ghost predicate IsTrimOf(r: string, s: string) {
    exists i, j :: TrimAt(r, s, i, j)
  }

  /** The index of the first non-space at or after `i`, or `|s|` when there is none. */
  function SkipSpaces(s: string, i: nat): (k: nat)
    requires i <= |s|
    ensures i <= k <= |s|
    ensures forall m :: i <= m < k ==> IsJsSpace(s[m])
    ensures k < |s| ==> !IsJsSpace(s[k])
    decreases |s| - i
  {
    if i < |s| && IsJsSpace(s[i]) then SkipSpaces(s, i + 1) else i
  }

  /** The end of the slice `[lo, j)` once its trailing spaces are dropped. */
  function SkipSpacesBack(s: string, lo: nat, j: nat): (k: nat)
    requires lo <= j <= |s|
    ensures lo <= k <= j
    ensures forall m :: k <= m < j ==> IsJsSpace(s[m])
    ensures lo < k ==> !IsJsSpace(s[k - 1])
  {
    if lo < j && IsJsSpace(s[j - 1]) then SkipSpacesBack(s, lo, j - 1) else j
  }

  /** `String.prototype.trim`. */
  function Trim(s: string): (r: string)
    ensures IsTrimOf(r, s)
    ensures r == [] <==> Blank(s)
  {
    var i := SkipSpaces(s, 0);
    var j := SkipSpacesBack(s, i, |s|);
    assert TrimAt(s[i..j], s, i, j);
    s[i..j]
  }

  /** There is only one trim of a string, so `Trim` is determined by `IsTrimOf`. */
  lemma TrimOfUnique(a: string, b: string, s: string)
    requires IsTrimOf(a, s) && IsTrimOf(b, s)
    ensures a == b
  {
    var i1, j1 :| TrimAt(a, s, i1, j1);
    var i2, j2 :| TrimAt(b, s, i2, j2);
    // a non-space end of one trim cannot sit in the blank margin of the other
    assert a != [] && b != [] ==> i1 == i2 && j1 == j2;
  }

  // ---------------------------------------------------------------- splitting

  /** `s.split(sep)[0]`: the text before the first `sep`, or all of `s` when there is none. */
  function FirstSegment(s: string, sep: char): (r: string)
    ensures r <= s && sep !in r
    ensures |r| < |s| ==> s[|r|] == sep
  {
    if s == [] || s[0] == sep then [] else [s[0]] + FirstSegment(s[1..], sep)
  }

  /** Whatever follows the first separator does not matter. */
  lemma {:induction false} FirstSegmentOfJoin(a: string, b: string, sep: char)
    ensures FirstSegment(a + [sep] + b, sep) == FirstSegment(a, sep)
  {
    if a != [] && a[0] != sep {
      assert (a + [sep] + b)[1..] == a[1..] + [sep] + b;
      FirstSegmentOfJoin(a[1..], b, sep);
    }
  }

  // ---------------------------------------------------------------- case-insensitive search

  /**
   * Folds an ASCII upper-case letter to lower case. A regular expression with the `i`
   * flag and without `u` matches a character against an ASCII letter only when the two
   * are ASCII case variants (it never maps a non-ASCII character onto an ASCII one), so
   * this folding is exact for ASCII patterns.
   */
  function FoldCase(c: char): char {
    if 'A' <= c <= 'Z' then (c as int + 32) as char else c
  }

  /** `p` occurs in `h` at index `i`, ignoring case. */
  predicate MatchesAt(h: string, i: int, p: string) {
    0 <= i && i + |p| <= |h| && forall k :: 0 <= k < |p| ==> FoldCase(h[i + k]) == FoldCase(p[k])
  }

  /** `p` occurs somewhere in `h`, ignoring case. */
  ghost predicate Occurs(h: string, p: string) {
    exists j :: MatchesAt(h, j, p)
  }

  function ContainsFrom(h: string, p: string, i: nat): (b: bool)
    ensures b <==> exists j :: i <= j && MatchesAt(h, j, p)
    decreases |h| - i
  {
    if i + |p| > |h| then false
    else MatchesAt(h, i, p) || ContainsFrom(h, p, i + 1)
  }

  /** `/p/i.test(h)` for a pattern `p` made of ASCII characters without metacharacters. */
  function ContainsIgnoringCase(h: string, p: string): (b: bool)
    ensures b <==> Occurs(h, p)
  {
    ContainsFrom(h, p, 0)
  }

  // ---------------------------------------------------------------- hex

  type byte = b: int | 0 <= b < 256

  predicate IsLowerHexDigit(c: char) {
    '0' <= c <= '9' || 'a' <= c <= 'f'
  }

  predicate IsLowerHex(s: string) {
    forall i :: 0 <= i < |s| ==> IsLowerHexDigit(s[i])
  }

  function HexDigit(n: int): char
    requires 0 <= n < 16
  {
    if n < 10 then ('0' as int + n) as char else ('a' as int + n - 10) as char
  }

  /** `Buffer.toString('hex')`: two lower-case digits per byte, high nibble first. */
  function HexEncode(bs: seq<byte>): (s: string)
    ensures |s| == 2 * |bs| && IsLowerHex(s)
  {
    if bs == [] then [] else [HexDigit(bs[0] / 16), HexDigit(bs[0] % 16)] + HexEncode(bs[1..])
  }

  function HexValue(c: char): Option<int> {
    if '0' <= c <= '9' then Some(c as int - '0' as int)
    else if 'a' <= c <= 'f' then Some(c as int - 'a' as int + 10)
    else None
  }

  /** Reads back what `HexEncode` writes; any other text is refused. */
  function HexDecode(s: string): Option<seq<byte>> {
    if s == [] then Some([])
    else if |s| == 1 then None
    else
      match (HexValue(s[0]), HexValue(s[1]), HexDecode(s[2..]))
      case (Some(hi), Some(lo), Some(rest)) => Some([hi * 16 + lo] + rest)
      case _ => None
  }

  /** Hex encoding loses nothing: decoding gives back the bytes. */
  lemma {:induction false} HexRoundTrip(bs: seq<byte>)
    ensures HexDecode(HexEncode(bs)) == Some(bs)
  {
    if bs != [] {
      var s := HexEncode(bs);
      assert s[2..] == HexEncode(bs[1..]);
      HexRoundTrip(bs[1..]);
      assert [bs[0]] + bs[1..] == bs;
    }
  }

  /** Distinct byte strings give distinct hex strings. */
  lemma HexEncodeInjective(a: seq<byte>, b: seq<byte>)
    requires HexEncode(a) == HexEncode(b)
    ensures a == b
  {
    HexRoundTrip(a);
    HexRoundTrip(b);
  }
}
