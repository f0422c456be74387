/** The few JavaScript string and array primitives the app relies on:
    `indexOf`, `String.prototype.replace` with a string pattern,
    and `String.prototype.trim`. */
module JsText {

  /** `Array.prototype.indexOf`: the first position of `x` in `s`, or -1. */
  function IndexOf<T(==)>(s: seq<T>, x: T): (r: int)
    ensures -1 <= r < |s|
    ensures r == -1 <==> x !in s
    ensures 0 <= r ==> s[r] == x && x !in s[..r]
  {
    if s == [] then -1
    else if s[0] == x then 0
    else
      var k := IndexOf(s[1..], x);
      assert s[1..][..if k < 0 then 0 else k] == s[1..if k < 0 then 1 else k + 1];
      if k < 0 then -1 else k + 1
  }

  /** `s.replace(from, to)` with a one-character string pattern: JavaScript
      replaces the FIRST occurrence only. */
  function ReplaceFirst(s: string, from: char, to: char): (r: string)
    ensures |r| == |s|
    ensures from !in s ==> r == s
  {
    if s == [] then []
    else if s[0] == from then [to] + s[1..]
    else [s[0]] + ReplaceFirst(s[1..], from, to)
  }

  /** When the pattern occurs, the result is the input with exactly its
      first occurrence replaced. */
  lemma {:induction false} ReplaceFirstAtIndex(s: string, from: char, to: char)
    requires from in s
    ensures var k := IndexOf(s, from);
      ReplaceFirst(s, from, to) == s[..k] + [to] + s[k + 1..]
  {
    if s[0] != from {
      assert from in s[1..];
      ReplaceFirstAtIndex(s[1..], from, to);
      SpliceCons(s, IndexOf(s[1..], from), to);
    }
  }

  /** Putting the head back in front of a splice of the tail at `k` is the
      splice of the whole at `k + 1`. */
  lemma SpliceCons<T>(s: seq<T>, k: int, to: T)
    requires 0 <= k < |s| - 1
    ensures [s[0]] + (s[1..][..k] + [to] + s[1..][k + 1..]) == s[..k + 1] + [to] + s[k + 2..]
  {
    assert [s[0]] + s[1..][..k] == s[..k + 1];
    assert s[1..][k + 1..] == s[k + 2..];
  }

  /** After the replacement the pattern occurs exactly once less often:
      a second occurrence is left in place. */
  lemma {:induction false} ReplaceFirstRemovesOne(s: string, from: char, to: char)
    requires from != to
    ensures from in s ==> multiset(ReplaceFirst(s, from, to))[from] == multiset(s)[from] - 1
    ensures from !in s ==> multiset(ReplaceFirst(s, from, to))[from] == 0
  {
    if s != [] {
      assert s == [s[0]] + s[1..];
      if s[0] == from {
        assert ReplaceFirst(s, from, to) == [to] + s[1..];
      } else {
        ReplaceFirstRemovesOne(s[1..], from, to);
        assert ReplaceFirst(s, from, to) == [s[0]] + ReplaceFirst(s[1..], from, to);
        assert from in s <==> from in s[1..];
      }
    }
  }

  /** The characters `String.prototype.trim` strips: ECMAScript WhiteSpace
      (tab, vertical tab, form feed, space, no-break space, byte order mark
      and the Unicode "Zs" space separators) and LineTerminator (line feed,
      carriage return, line and paragraph separators). */
  predicate IsJsWhitespace(c: char)
  {
    c == '\t' || c == '\U{000B}' || c == '\U{000C}' || c == ' ' || c == '\U{00A0}' || c == '\U{FEFF}'
    || c == '\U{1680}' || ('\U{2000}' <= c <= '\U{200A}') || c == '\U{202F}' || c == '\U{205F}' || c == '\U{3000}'
    || c == '\n' || c == '\r' || c == '\U{2028}' || c == '\U{2029}'
  }

  /** True of a string made only of whitespace (the empty string included). */
  predicate IsBlank(s: string)
  {
    forall i :: 0 <= i < |s| ==> IsJsWhitespace(s[i])
  }

  /** Drops leading whitespace. */
  function TrimStart(s: string): (r: string)
    ensures |r| <= |s| && r == s[|s| - |r|..]
    ensures IsBlank(s[..|s| - |r|])
    ensures r == [] || !IsJsWhitespace(r[0])
  {
    if s != [] && IsJsWhitespace(s[0]) then
      var t := TrimStart(s[1..]);
      assert s[..|s| - |t|] == [s[0]] + s[1..][..|s[1..]| - |t|];
      t
    else s
  }

  /** Drops trailing whitespace. */
  function TrimEnd(s: string): (r: string)
    ensures |r| <= |s| && r == s[..|r|]
    ensures IsBlank(s[|r|..])
    ensures r == [] || !IsJsWhitespace(r[|r| - 1])
  {
    if s != [] && IsJsWhitespace(s[|s| - 1]) then
      var t := TrimEnd(s[..|s| - 1]);
      assert s[|t|..] == s[..|s| - 1][|t|..] + [s[|s| - 1]];
      t
    else s
  }

  /** `String.prototype.trim`. */
  function Trim(s: string): (r: string)
  {
    TrimEnd(TrimStart(s))
  }

  /** What trim means: the result is a contiguous piece of the input, only
      whitespace was cut on either side, and it neither starts nor ends with
      whitespace; it is empty exactly when the input is blank. */
  lemma TrimSpec(s: string)
    ensures exists i, j :: (0 <= i <= j <= |s| && Trim(s) == s[i..j]
                            && IsBlank(s[..i]) && IsBlank(s[j..]))
    ensures Trim(s) == [] || (!IsJsWhitespace(Trim(s)[0]) && !IsJsWhitespace(Trim(s)[|Trim(s)| - 1]))
    ensures Trim(s) == [] <==> IsBlank(s)
  {
    TrimCutsBlanks(s);
    TrimEdges(s);
    TrimEmptyIffBlank(s);
  }

  /** Trim keeps a slice `s[i..j]` and cuts only whitespace around it. */
  lemma TrimCutsBlanks(s: string)
    ensures exists i, j :: (0 <= i <= j <= |s| && Trim(s) == s[i..j]
                            && IsBlank(s[..i]) && IsBlank(s[j..]))
  {
    var u := TrimStart(s);
    var r := TrimEnd(u);
    var i := |s| - |u|;
    var j := i + |r|;
    SliceOfSuffix(s, i, |r|);
    assert Trim(s) == s[i..j] && IsBlank(s[..i]) && IsBlank(s[j..]);
  }

  /** Slicing a suffix `s[i..]` at `n` is slicing `s` at `i + n`. */
  lemma SliceOfSuffix<T>(s: seq<T>, i: int, n: int)
    requires 0 <= i <= |s| && 0 <= n <= |s| - i
    ensures s[i..][..n] == s[i..i + n] && s[i..][n..] == s[i + n..]
  {
  }

  /** The trimmed string neither starts nor ends with whitespace. */
  lemma TrimEdges(s: string)
    ensures Trim(s) == [] || (!IsJsWhitespace(Trim(s)[0]) && !IsJsWhitespace(Trim(s)[|Trim(s)| - 1]))
  {
    var u := TrimStart(s);
    var r := TrimEnd(u);
    if r != [] {
      assert u[0] == r[0];
    }
  }

  /** Trim gives the empty string exactly for blank input. */
  lemma TrimEmptyIffBlank(s: string)
    ensures Trim(s) == [] <==> IsBlank(s)
  {
    var u := TrimStart(s);
    var i := |s| - |u|;
    assert u == s[i..];
    if TrimEnd(u) == [] {
      assert IsBlank(u[0..]);
      assert s == s[..i] + u;
    }
  }

  /** Trimming twice is trimming once. */
  lemma TrimIdempotent(s: string)
    ensures Trim(Trim(s)) == Trim(s)
  {
    TrimSpec(s);
    var r := Trim(s);
    if r != [] {
      assert TrimStart(r) == r;
      assert TrimEnd(r) == r;
    }
  }
}
