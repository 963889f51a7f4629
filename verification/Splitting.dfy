/** Cutting strings at a separator, shared by paths (slashes) and log files (newlines). */
module Splitting {

  /** The pieces of `s` between its separators. */
  function Split(s: string, sep: char): (r: seq<string>)
    ensures |r| >= 1
    ensures forall k :: 0 <= k < |r| ==> sep !in r[k]
  {
    if s == "" then [""]
    else
      var t := Split(s[1..], sep);
      if s[0] == sep then [""] + t else [[s[0]] + t[0]] + t[1..]
  }

  lemma SplitCons(c: char, s: string, sep: char)
    ensures var t := Split(s, sep);
            Split([c] + s, sep) == if c == sep then [""] + t else [[c] + t[0]] + t[1..]
  {
  }

  lemma GrowFirst(c: char, t: seq<string>, u: seq<string>)
    requires t != []
    ensures [[c] + (t + u)[0]] + (t + u)[1..] == [[c] + t[0]] + t[1..] + u
    ensures [""] + (t + u) == [""] + t + u
  {
  }

  lemma {:induction false} SplitConcat(a: string, b: string, sep: char)
    ensures Split(a + [sep] + b, sep) == Split(a, sep) + Split(b, sep)
  {
    if a == "" {
      assert a + [sep] + b == [sep] + b;
      SplitCons(sep, b, sep);
    } else {
      var c, rest := a[0], a[1..];
      var whole := rest + [sep] + b;
      assert a + [sep] + b == [c] + whole;
      SplitCons(c, whole, sep);
      SplitConcat(rest, b, sep);
      GrowFirst(c, Split(rest, sep), Split(b, sep));
    }
  }

  lemma {:induction false} SplitNone(s: string, sep: char)
    requires sep !in s
    ensures Split(s, sep) == [s]
  {
    if s != "" {
      SplitNone(s[1..], sep);
      assert s == [s[0]] + s[1..];
    }
  }

  /** Length of `s` up to and including its last separator. */
  function Through(s: string, sep: char): (n: nat)
    ensures n <= |s|
    ensures n > 0 ==> s[n - 1] == sep
    ensures forall k :: n <= k < |s| ==> s[k] != sep
  {
    if s == "" then 0
    else if s[|s| - 1] == sep then |s|
    else Through(s[..|s| - 1], sep)
  }

}
