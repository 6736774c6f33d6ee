/** The string operations of the standard library that the model relies on: splitting
    at every occurrence of a separator, splitting once at the first occurrence, and
    trimming a character from both ends. Strings are sequences of characters. */
module Strings {
  import opened Options

  /** The position of the first `c` in `s`. */
  function IndexOf(s: string, c: char): (i: nat)
    requires c in s
    ensures i < |s| && s[i] == c && c !in s[..i]
  {
    if s[0] == c then 0 else 1 + IndexOf(s[1..], c)
  }

  /** The pieces of `s` between the occurrences of `sep`; there is always one more
      piece than there are separators, and pieces may be empty. */
  function Split(s: string, sep: char): (parts: seq<string>)
    ensures |parts| >= 1
    ensures forall k :: 0 <= k < |parts| ==> sep !in parts[k]
    decreases |s|
  {
    if sep !in s then [s]
    else
      var i := IndexOf(s, sep);
      [s[..i]] + Split(s[i + 1..], sep)
  }

  /** The pieces put back together with one `sep` between neighbours. */
  function Join(parts: seq<string>, sep: char): string
    requires |parts| >= 1
  {
    if |parts| == 1 then parts[0] else parts[0] + [sep] + Join(parts[1..], sep)
  }

  /** Splitting loses nothing: joining the pieces gives the string back. */
  lemma {:induction false} JoinSplit(s: string, sep: char)
    ensures Join(Split(s, sep), sep) == s
    decreases |s|
  {
    if sep in s {
      var i := IndexOf(s, sep);
      JoinSplit(s[i + 1..], sep);
      assert Split(s, sep)[1..] == Split(s[i + 1..], sep);
      assert s == s[..i] + [sep] + s[i + 1..];
    }
  }

  /** The first occurrence of `c` is the only position holding `c` with no `c` before it. */
  lemma IndexOfUnique(s: string, c: char, i: nat)
    requires i < |s| && s[i] == c && c !in s[..i]
    ensures IndexOf(s, c) == i
  {
    var j := IndexOf(s, c);
    assert s[..j + 1][j] == c;
    assert s[..i + 1][i] == c;
  }

  /** Splitting at a position holding the first separator. */
  lemma SplitAt(s: string, sep: char, i: nat)
    requires i < |s| && s[i] == sep && sep !in s[..i]
    ensures Split(s, sep) == [s[..i]] + Split(s[i + 1..], sep)
  {
    IndexOfUnique(s, sep, i);
  }

  /** Splitting a string at a separator splits each side of it separately. */
  lemma {:induction false} SplitAppend(a: string, b: string, sep: char)
    ensures Split(a + [sep] + b, sep) == Split(a, sep) + Split(b, sep)
    decreases |a|
  {
    if sep !in a {
      var s := a + [sep] + b;
      assert s[..|a|] == a && s[|a| + 1..] == b;
      SplitAt(s, sep, |a|);
    } else {
      var i := IndexOf(a, sep);
      SplitAppend(a[i + 1..], b, sep);
      SplitPastFirst(a, b, sep, i);
      SplitAt(a, sep, i);
      ConcatAssoc([a[..i]], Split(a[i + 1..], sep), Split(b, sep));
    }
  }

  /** When `a` holds the separator, the first piece of `a + [sep] + b` is the first
      piece of `a`. */
  lemma SplitPastFirst(a: string, b: string, sep: char, i: nat)
    requires i < |a| && a[i] == sep && sep !in a[..i]
    ensures Split(a + [sep] + b, sep) == [a[..i]] + Split(a[i + 1..] + [sep] + b, sep)
  {
    var s := a + [sep] + b;
    assert s[..i] == a[..i] && s[i + 1..] == a[i + 1..] + [sep] + b;
    SplitAt(s, sep, i);
  }

  /** Concatenation is associative. */
  lemma ConcatAssoc<T>(a: seq<T>, b: seq<T>, c: seq<T>)
    ensures a + (b + c) == (a + b) + c
  {
  }

  /** The text before and after the first `c`, if `s` holds one. */
  function SplitOnce(s: string, c: char): (r: Option<(string, string)>)
    ensures r.None? <==> c !in s
    ensures r.Some? ==> r.value.0 + [c] + r.value.1 == s && c !in r.value.0
  {
    if c in s then
      var i := IndexOf(s, c);
      assert s == s[..i] + [c] + s[i + 1..];
      Some((s[..i], s[i + 1..]))
    else None
  }

  /** `s` without the run of `c` it starts with. */
  function TrimStart(s: string, c: char): (r: string)
    ensures |r| <= |s| && r == s[|s| - |r|..]
    ensures r == [] || r[0] != c
    ensures forall j :: 0 <= j < |s| - |r| ==> s[j] == c
  {
    if s != [] && s[0] == c then TrimStart(s[1..], c) else s
  }

  /** `s` without the run of `c` it ends with. */
  function TrimEnd(s: string, c: char): (r: string)
    ensures |r| <= |s| && r == s[..|r|]
    ensures r == [] || r[|r| - 1] != c
    ensures forall j :: |r| <= j < |s| ==> s[j] == c
  {
    if s != [] && s[|s| - 1] == c then TrimEnd(s[..|s| - 1], c) else s
  }

  /** A character absent from a string is absent from every slice of it. */
  lemma NotInSlice(s: string, c: char, i: nat, j: nat)
    requires c !in s && i <= j <= |s|
    ensures c !in s[i..j]
  {
    forall k | 0 <= k < j - i
      ensures s[i..j][k] != c
    {
      assert s[i..j][k] == s[i + k];
    }
  }

  /** Trimming never brings in a character the string did not hold. */
  lemma TrimKeepsAbsent(s: string, c: char, d: char)
    requires d !in s
    ensures d !in TrimStart(s, c) && d !in TrimEnd(s, c)
  {
    var u, t := TrimStart(s, c), TrimEnd(s, c);
    NotInSlice(s, d, |s| - |u|, |s|);
    assert u == s[|s| - |u|..|s|];
    NotInSlice(s, d, 0, |t|);
    assert t == s[0..|t|];
  }

  /** `s` without the runs of `c` at either end. */
  function TrimMatches(s: string, c: char): string {
    TrimEnd(TrimStart(s, c), c)
  }

  /** What trimming keeps neither starts nor ends with `c`, so trimming again changes nothing. */
  lemma TrimMatchesClean(s: string, c: char)
    ensures var t := TrimMatches(s, c); t == [] || (t[0] != c && t[|t| - 1] != c)
    ensures TrimMatches(TrimMatches(s, c), c) == TrimMatches(s, c)
  {
    var u := TrimStart(s, c);
    var t := TrimEnd(u, c);
    if t != [] {
      assert t[0] == u[0];
      assert TrimStart(t, c) == t;
    }
  }
}
