/** The JavaScript string built-ins the repository's decision logic relies
    on, `String.prototype.indexOf` for a single character and
    `String.prototype.trim`, and the backward scan for the last separator that
    Node's `path.basename` performs. Strings are `seq<char>`, one element per Unicode
    scalar value; JavaScript counts UTF-16 code units instead, so positions
    differ for characters outside the Basic Multilingual Plane, while the
    slices taken name the same text. */
module JsString {

  /** `c` belongs to JavaScript's WhiteSpace or LineTerminator productions,
      the characters that `trim` removes (ECMAScript 2015, section 21.1.3.25). */
  predicate IsSpace(c: char) {
    c == '\U{0009}' || c == '\U{000A}' || c == '\U{000B}' || c == '\U{000C}' ||
    c == '\U{000D}' || c == '\U{0020}' || c == '\U{00A0}' || c == '\U{1680}' ||
    ('\U{2000}' <= c <= '\U{200A}') ||
    c == '\U{2028}' || c == '\U{2029}' || c == '\U{202F}' || c == '\U{205F}' ||
    c == '\U{3000}' || c == '\U{FEFF}'
  }

  /** Every character of `s` is white space (true of the empty string). */
  predicate AllSpace(s: string) {
    forall k :: 0 <= k < |s| ==> IsSpace(s[k])
  }

  /** `s` neither starts nor ends with white space. */
  predicate IsTrimmed(s: string) {
    s == [] || (!IsSpace(s[0]) && !IsSpace(s[|s| - 1]))
  }

  /** `r` is the slice of `s` starting at `i`, and all of `s` before and
      after that slice is white space. */
  predicate SpaceAround(s: string, i: int, r: string) {
    0 <= i <= |s| - |r| && r == s[i..i + |r|] && AllSpace(s[..i]) && AllSpace(s[i + |r|..])
  }

  /** `s.indexOf(c)`: the position of the first `c` in `s`, or -1 when `s`
      has none. */
  function IndexOf(s: string, c: char): (i: int)
    ensures -1 <= i < |s|
    ensures i == -1 <==> c !in s
    ensures 0 <= i ==> s[i] == c && c !in s[..i]
  {
    if s == [] then -1
    else if s[0] == c then 0
    else
      var j := IndexOf(s[1..], c);
      assert s[1..][..if j < 0 then 0 else j] == s[1..1 + if j < 0 then 0 else j];
      if j < 0 then -1 else j + 1
  }

  /** The first `c` of `a + [c] + b` is the one after `a` when `a` has
      none. */
  lemma IndexOfJoin(a: string, c: char, b: string)
    requires c !in a
    ensures IndexOf(a + [c] + b, c) == |a|
  {
    var s := a + [c] + b;
    assert s[|a|] == c && s[..|a|] == a;
  }

  /** The position of the last `c` in `s`, or -1 when `s` has none: the
      backward scan `path.basename` makes for the last separator. */
  function LastIndexOf(s: string, c: char): (i: int)
    ensures -1 <= i < |s|
    ensures i == -1 <==> c !in s
    ensures 0 <= i ==> s[i] == c && c !in s[i + 1..]
  {
    if s == [] then -1
    else if s[|s| - 1] == c then |s| - 1
    else
      var j := LastIndexOf(s[..|s| - 1], c);
      assert j >= 0 ==> s[j + 1..] == s[..|s| - 1][j + 1..] + [s[|s| - 1]];
      assert s == s[..|s| - 1] + [s[|s| - 1]];
      j
  }

  /** The characters left once the leading white space is removed: a suffix
      of `s` that does not start with white space, and what was cut off is all
      white space. */
  function TrimStart(s: string): (r: string)
    ensures |r| <= |s| && r == s[|s| - |r|..]
    ensures r == [] || !IsSpace(r[0])
    ensures AllSpace(s[..|s| - |r|])
  {
    if s != [] && IsSpace(s[0]) then
      var t := TrimStart(s[1..]);
      assert s[..|s| - |t|] == [s[0]] + s[1..][..|s| - 1 - |t|];
      t
    else s
  }

  /** The characters left once the trailing white space is removed: a prefix
      of `s` that does not end with white space, and what was cut off is all
      white space. */
  function TrimEnd(s: string): (r: string)
    ensures |r| <= |s| && r == s[..|r|]
    ensures r == [] || !IsSpace(r[|r| - 1])
    ensures AllSpace(s[|r|..])
  {
    if s != [] && IsSpace(s[|s| - 1]) then
      var t := TrimEnd(s[..|s| - 1]);
      assert s[|t|..] == s[..|s| - 1][|t|..] + [s[|s| - 1]];
      t
    else s
  }

  /** `s.trim()`: `s` without its leading and trailing white space. The
      result is a slice of `s` that neither starts nor ends with white space,
      and everything cut off on either side is white space. */
  function Trim(s: string): (r: string)
    ensures IsTrimmed(r)
    ensures |r| <= |s|
    ensures exists i :: SpaceAround(s, i, r)
  {
    TrimBothEnds(s);
    TrimEnd(TrimStart(s))
  }

  /** Cutting the leading, then the trailing white space leaves a trimmed
      slice with only white space around it. */
  lemma TrimBothEnds(s: string)
    ensures IsTrimmed(TrimEnd(TrimStart(s)))
    ensures SpaceAround(s, |s| - |TrimStart(s)|, TrimEnd(TrimStart(s)))
  {
    var t := TrimStart(s);
    SuffixThenPrefix(s, t, TrimEnd(t));
  }

  /** A suffix `t` of `s` with only white space cut off and not starting with
      white space, then a prefix `r` of `t` with only white space cut off and
      not ending with white space, is a trimmed slice of `s` with only white
      space around it. */
  lemma SuffixThenPrefix(s: string, t: string, r: string)
    requires |t| <= |s| && t == s[|s| - |t|..] && AllSpace(s[..|s| - |t|]) && (t == [] || !IsSpace(t[0]))
    requires |r| <= |t| && r == t[..|r|] && AllSpace(t[|r|..]) && (r == [] || !IsSpace(r[|r| - 1]))
    ensures IsTrimmed(r) && SpaceAround(s, |s| - |t|, r)
  {
    var i := |s| - |t|;
    assert r == s[i..i + |r|];
    assert s[i + |r|..] == t[|r|..];
    // r is a prefix of t, so its first character is t's, which is not white space
    assert r != [] ==> r[0] == t[0];
  }

  /** Trimming has a unique answer: any way of writing `s` as white space,
      then a part that neither starts nor ends with white space, then white
      space, names exactly `Trim(s)` as the middle part. */
  lemma TrimUnique(s: string, i: nat, j: nat)
    requires i <= j <= |s|
    requires AllSpace(s[..i]) && AllSpace(s[j..]) && IsTrimmed(s[i..j])
    ensures Trim(s) == s[i..j]
  {
    var r := Trim(s);
    var i' :| SpaceAround(s, i', r);
    SpaceAroundUnique(s, i', r, i, s[i..j]);
  }

  /** Two ways of cutting white space off both ends of `s` that leave
      trimmed middles leave the same middle. */
  lemma {:induction false} SpaceAroundUnique(s: string, i: int, r: string, i': int, r': string)
    requires SpaceAround(s, i, r) && IsTrimmed(r)
    requires SpaceAround(s, i', r') && IsTrimmed(r')
    ensures r == r'
  {
    var j, j' := i + |r|, i' + |r'|;
    assert s[..i] == s[0..i] && s[..i'] == s[0..i'] && s[j..] == s[j..|s|] && s[j'..] == s[j'..|s|];
    assert r != [] ==> r[0] == s[i] && r[|r| - 1] == s[j - 1];
    assert r' != [] ==> r'[0] == s[i'] && r'[|r'| - 1] == s[j' - 1];
    // A character that is not white space lies inside both slices.
    if r' != [] {
      SpaceAt(s, 0, i, i');
      SpaceAt(s, j, |s|, j' - 1);
      assert i <= i' && j' <= j;
      SpaceAt(s, 0, i', i);
      SpaceAt(s, j', |s|, j - 1);
    } else {
      SpaceAt(s, 0, i', i);
      SpaceAt(s, j', |s|, i);
      assert r == [];
    }
  }

  /** Inside an all-white-space slice every character is white space. */
  lemma SpaceAt(s: string, lo: nat, hi: nat, k: int)
    requires lo <= hi <= |s|
    requires AllSpace(s[lo..hi])
    ensures lo <= k < hi ==> IsSpace(s[k])
  {
    if lo <= k < hi {
      assert s[lo..hi][k - lo] == s[k];
    }
  }

  /** Trimming twice changes nothing. */
  lemma TrimIdempotent(s: string)
    ensures Trim(Trim(s)) == Trim(s)
  {
    var r := Trim(s);
    assert r[..0] == [] && r[|r|..] == [] && r[0..|r|] == r;
    TrimUnique(r, 0, |r|);
  }

  /** A string of white space only, the empty string among them, trims to the
      empty string. */
  lemma TrimAllSpace(s: string)
    requires AllSpace(s)
    ensures Trim(s) == ""
  {
    assert s[..0] == [] && s[0..0] == [];
    TrimUnique(s, 0, 0);
  }

  /** Two all-white-space pieces make an all-white-space whole. */
  lemma AllSpaceJoin(s: string, i: nat)
    requires i <= |s|
    requires AllSpace(s[..i]) && AllSpace(s[i..])
    ensures AllSpace(s)
  {
    forall k | 0 <= k < |s| ensures IsSpace(s[k]) {
      if k < i { assert s[..i][k] == s[k]; } else { assert s[i..][k - i] == s[k]; }
    }
  }

  /** Trimming leaves nothing exactly when there was nothing but white space. */
  lemma TrimEmptyIff(s: string)
    ensures Trim(s) == "" <==> AllSpace(s)
  {
    if AllSpace(s) {
      TrimAllSpace(s);
    } else if Trim(s) == "" {
      var i :| SpaceAround(s, i, "");
      AllSpaceJoin(s, i);
    }
  }
}
