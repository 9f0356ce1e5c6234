/** The few functions of Go's `strings` package that the log converter uses,
    on strings modelled as sequences of characters. */
module Text {

  /** strings.HasPrefix: `s` begins with `p`, compared character by character. */
  predicate HasPrefix(s: string, p: string)
  {
    |p| <= |s| && s[..|p|] == p
  }

  /** `s` begins with `p` exactly when `s` is `p` followed by some text; in
      particular every string begins with the empty prefix. */
  lemma PrefixOfConcat(s: string, p: string)
    ensures HasPrefix(s, p) <==> exists t :: s == p + t
    ensures HasPrefix(s, "")
  {
    if HasPrefix(s, p) {
      assert s == p + s[|p|..];
    }
    if t :| s == p + t {
      assert s[..|p|] == p;
    }
  }

  /** ASCII upper-case letters become lower-case; every other character is kept. */
  function LowerChar(c: char): char
  {
    if 'A' <= c <= 'Z' then (c as int + 32) as char else c
  }

  /** No ASCII upper-case letter occurs in `s`. */
  predicate IsLower(s: string)
  {
    forall i :: 0 <= i < |s| ==> !('A' <= s[i] <= 'Z')
  }

  /** strings.ToLower, restricted to ASCII letters. */
  function ToLower(s: string): (r: string)
    ensures |r| == |s| && IsLower(r)
    ensures forall i :: 0 <= i < |s| ==> r[i] == LowerChar(s[i])
    ensures IsLower(s) ==> r == s
  {
    seq(|s|, i requires 0 <= i < |s| => LowerChar(s[i]))
  }

  /** The white-space characters of the Latin-1 range, as unicode.IsSpace has them. */
  predicate IsSpace(c: char)
  {
    c == ' ' || c == '\t' || c == '\n' || c == '\r' ||
    c == '\U{000B}' || c == '\U{000C}' || c == '\U{0085}' || c == '\U{00A0}'
  }

  lemma DigitIsNotSpace(c: char)
    requires '0' <= c <= '9'
    ensures !IsSpace(c)
  {
  }

  /** Every character of `s` is white space. */
  predicate AllSpace(s: string)
  {
    forall k :: 0 <= k < |s| ==> IsSpace(s[k])
  }

  /** `s` without its leading white space. */
  function TrimLeft(s: string): (r: string)
    ensures |r| <= |s| && r == s[|s| - |r|..]
    ensures AllSpace(s[..|s| - |r|])
    ensures |r| > 0 ==> !IsSpace(r[0])
    decreases |s|
  {
    if |s| > 0 && IsSpace(s[0]) then
      var r := TrimLeft(s[1..]);
      assert s[..|s| - |r|] == [s[0]] + s[1..][..|s| - 1 - |r|];
      r
    else s
  }

  /** `s` without its trailing white space. */
  function TrimRight(s: string): (r: string)
    ensures |r| <= |s| && r == s[..|r|]
    ensures AllSpace(s[|r|..])
    ensures |r| > 0 ==> !IsSpace(r[|r| - 1])
    decreases |s|
  {
    if |s| > 0 && IsSpace(s[|s| - 1]) then
      var r := TrimRight(s[..|s| - 1]);
      assert s[|r|..] == s[..|s| - 1][|r|..] + [s[|s| - 1]];
      r
    else s
  }

  /** `r` is the slice of `s` that starts at `i`, and only white space lies around it. */
  predicate IsTrimOf(s: string, r: string, i: int)
  {
    && 0 <= i <= |s| - |r|
    && r == s[i..i + |r|]
    && AllSpace(s[..i])
    && AllSpace(s[i + |r|..])
  }

  /** strings.TrimSpace: `s` with white space cut from both ends. */
  function TrimSpace(s: string): (r: string)
    ensures |r| <= |s|
    ensures |r| > 0 ==> !IsSpace(r[0]) && !IsSpace(r[|r| - 1])
    ensures |s| > 0 && !IsSpace(s[0]) && !IsSpace(s[|s| - 1]) ==> r == s
  {
    TrimRight(TrimLeft(s))
  }

  /** What TrimSpace keeps is a slice of its input with only white space around it. */
  lemma TrimSpaceIsSlice(s: string)
    ensures exists i :: IsTrimOf(s, TrimSpace(s), i)
  {
    var l := TrimLeft(s);
    var i := |s| - |l|;
    var r := TrimRight(l);
    assert r == s[i..i + |r|];
    assert s[i + |r|..] == l[|r|..];
    assert r == TrimSpace(s);
    assert IsTrimOf(s, r, i);
  }

  /** The first position of character `c` in `s`, or -1 (strings.Index on a
      one-character separator, counted in characters rather than bytes). */
  function IndexOf(s: string, c: char): (i: int)
    ensures -1 <= i < |s|
    ensures i == -1 <==> c !in s
    ensures 0 <= i ==> s[i] == c && c !in s[..i]
    decreases |s|
  {
    if |s| == 0 then -1
    else if s[0] == c then 0
    else
      var j := IndexOf(s[1..], c);
      if j == -1 then -1
      else
        assert s[..j + 1] == [s[0]] + s[1..][..j];
        j + 1
  }

  /** The text before the first `sep`, or all of `s` when there is none:
      element 0 of strings.SplitN(s, sep, 2). */
  function BeforeFirst(s: string, sep: char): (r: string)
    ensures HasPrefix(s, r) && sep !in r
    ensures |r| < |s| ==> s[|r|] == sep
    ensures sep !in s ==> r == s
  {
    var i := IndexOf(s, sep);
    if i < 0 then s else s[..i]
  }

  /** The text before the first `sep` of `a`, `sep`, `b` is `a` when `a` has no `sep`. */
  lemma BeforeFirstOfJoin(a: string, sep: char, b: string)
    requires sep !in a
    ensures IndexOf(a + [sep] + b, sep) == |a|
    ensures BeforeFirst(a + [sep] + b, sep) == a
  {
    var s := a + [sep] + b;
    assert s[|a|] == sep;
    assert s[..|a|] == a;
  }

  /** The total length of the strings in `fs`. */
  function TotalLength(fs: seq<string>): nat
    decreases |fs|
  {
    if |fs| == 0 then 0 else |fs[0]| + TotalLength(fs[1..])
  }

  /** strings.Join: the elements of `fs` with `sep` between each adjacent pair,
      so the result is as long as the elements plus one separator per gap, and
      begins with the first element. */
  function Join(fs: seq<string>, sep: string): (r: string)
    ensures |fs| == 0 ==> r == ""
    ensures |fs| >= 1 ==> |r| == TotalLength(fs) + (|fs| - 1) * |sep| && HasPrefix(r, fs[0])
    decreases |fs|
  {
    if |fs| == 0 then ""
    else if |fs| == 1 then fs[0]
    else fs[0] + sep + Join(fs[1..], sep)
  }

  /** strings.Split on a one-character separator: the pieces between the
      occurrences of `sep`; there is always at least one. */
  function Split(s: string, sep: char): (r: seq<string>)
    ensures |r| >= 1
    ensures forall k :: 0 <= k < |r| ==> sep !in r[k]
    decreases |s|
  {
    var i := IndexOf(s, sep);
    if i < 0 then [s] else [s[..i]] + Split(s[i + 1..], sep)
  }

  /** Joining pieces that are free of `c` with `c` and splitting the result on
      `c` gives the pieces back. */
  lemma {:induction false} SplitJoin(fs: seq<string>, c: char)
    requires |fs| >= 1
    requires forall k :: 0 <= k < |fs| ==> c !in fs[k]
    ensures Split(Join(fs, [c]), c) == fs
    decreases |fs|
  {
    if |fs| > 1 {
      var a, rest := fs[0], Join(fs[1..], [c]);
      var s := a + [c] + rest;
      assert Join(fs, [c]) == s;
      BeforeFirstOfJoin(a, c, rest);
      assert s[|a| + 1..] == rest;
      SplitJoin(fs[1..], c);
    }
  }

  /** A character absent from every piece and from the separator is absent from the join. */
  lemma {:induction false} JoinExcludes(fs: seq<string>, sep: string, c: char)
    requires c !in sep
    requires forall k :: 0 <= k < |fs| ==> c !in fs[k]
    ensures c !in Join(fs, sep)
    decreases |fs|
  {
    if |fs| > 1 {
      JoinExcludes(fs[1..], sep, c);
    }
  }
}
