/** The two glob languages a rule's directory pattern is read in: Go's path.Match and SQLite's GLOB,
    and what a pattern whose only star is its last character means to each. */
module Globs {
  import opened Options

  predicate NoSlash(s: string) {
    '/' !in s
  }

  // ---------- bracketed classes ----------

  datatype Class = Class(negated: bool, ranges: seq<(char, char)>)

  predicate InClass(cl: Class, c: char) {
    cl.negated != exists r :: r in cl.ranges && r.0 <= c <= r.1
  }

  /** One character of a path.Match class at `i`, quoted or not, with more to follow; '-' and ']' need
      quotes. Second comes the index after it. */
  function ClassChar(p: string, i: nat): (r: Option<(char, nat)>)
    ensures r.Some? ==> i < r.value.1 < |p|
  {
    if i + 1 >= |p| || p[i] == '-' || p[i] == ']' then None
    else if p[i] != '\\' then Some((p[i], i + 1))
    else if i + 2 >= |p| then None
    else Some((p[i + 1], i + 2))
  }

  /** The ranges from `i` to a closing bracket, and the index after that. */
  function LiveRanges(p: string, i: nat, acc: seq<(char, char)>): (r: Option<(seq<(char, char)>, nat)>)
    ensures r.Some? ==> i < r.value.1 <= |p| && p[r.value.1 - 1] == ']'
    decreases |p| - i
  {
    if i < |p| && p[i] == ']' && acc != [] then Some((acc, i + 1))
    else
      match ClassChar(p, i)
      case None => None
      case Some((lo, k)) =>
        if p[k] != '-' then LiveRanges(p, k, acc + [(lo, lo)])
        else
          match ClassChar(p, k + 1)
          case None => None
          case Some((hi, m)) => LiveRanges(p, m, acc + [(lo, hi)])
  }

  predicate Negated(p: string) {
    |p| > 1 && p[1] == '^'
  }

  /** The class that starts `p` with its bracket, and the index after it; absent when it is malformed. */
  function LiveClass(p: string): (r: Option<(Class, nat)>)
    ensures r.Some? ==> 1 < r.value.1 <= |p| && p[r.value.1 - 1] == ']'
  {
    match LiveRanges(p, if Negated(p) then 2 else 1, [])
    case None => None
    case Some((ranges, n)) => Some((Class(Negated(p), ranges), n))
  }

  /** A GLOB class has no quotes; `prior` is the character a '-' would extend to a range. */
  function SqlRanges(p: string, i: nat, prior: Option<char>, acc: seq<(char, char)>)
    : (r: Option<(seq<(char, char)>, nat)>)
    ensures r.Some? ==> i < r.value.1 <= |p| && p[r.value.1 - 1] == ']'
    decreases |p| - i
  {
    if i >= |p| then None
    else if p[i] == ']' then Some((acc, i + 1))
    else if p[i] == '-' && i + 1 < |p| && p[i + 1] != ']' && prior.Some? then
      SqlRanges(p, i + 2, None, acc + [(prior.value, p[i + 1])])
    else SqlRanges(p, i + 1, Some(p[i]), acc + [(p[i], p[i])])
  }

  /** A closing bracket that comes first is a member. */
  function SqlClass(p: string): (r: Option<(Class, nat)>)
    ensures r.Some? ==> 1 < r.value.1 <= |p| && p[r.value.1 - 1] == ']'
  {
    var i := if Negated(p) then 2 else 1;
    var first := i < |p| && p[i] == ']';
    match SqlRanges(p, if first then i + 1 else i, None, if first then [(']', ']')] else [])
    case None => None
    case Some((ranges, n)) => Some((Class(Negated(p), ranges), n))
  }

  // ---------- the two languages ----------

  /** path.Match: '*' and '?' never cross a slash, a class may; '\' quotes; malformed patterns match nothing. */
  predicate PathMatch(p: string, s: string)
    decreases |p| + |s|
  {
    if p == "" then s == ""
    else if p[0] == '*' then PathMatch(p[1..], s) || (s != "" && s[0] != '/' && PathMatch(p, s[1..]))
    else if p[0] == '?' then s != "" && s[0] != '/' && PathMatch(p[1..], s[1..])
    else if p[0] == '\\' then |p| > 1 && s != "" && s[0] == p[1] && PathMatch(p[2..], s[1..])
    else if p[0] == '[' then
      match LiveClass(p)
      case None => false
      case Some((cl, n)) => s != "" && InClass(cl, s[0]) && PathMatch(p[n..], s[1..])
    else s != "" && s[0] == p[0] && PathMatch(p[1..], s[1..])
  }

  /** SQLite GLOB: '*' and '?' match any character, a slash too; '\' is an ordinary character. */
  predicate Glob(p: string, s: string)
    decreases |p| + |s|
  {
    if p == "" then s == ""
    else if p[0] == '*' then Glob(p[1..], s) || (s != "" && Glob(p, s[1..]))
    else if p[0] == '?' then s != "" && Glob(p[1..], s[1..])
    else if p[0] == '[' then
      match SqlClass(p)
      case None => false
      case Some((cl, n)) => s != "" && InClass(cl, s[0]) && Glob(p[n..], s[1..])
    else s != "" && s[0] == p[0] && Glob(p[1..], s[1..])
  }

  // ---------- patterns whose only star comes last ----------

  datatype Token = Exactly(c: char) | NotSlash | AnyChar | OneOf(cl: Class)

  predicate TokenFits(t: Token, c: char) {
    match t
    case Exactly(x) => c == x
    case NotSlash => c != '/'
    case AnyChar => true
    case OneOf(cl) => InClass(cl, c)
  }

  /** The tokens fit the start of `s`, one character each. */
  predicate Fits(ts: seq<Token>, s: string) {
    |ts| <= |s| && forall k :: 0 <= k < |ts| ==> TokenFits(ts[k], s[k])
  }

  /** A pattern read to its end: `open` if a star ends it, absent if it is malformed. */
  datatype Reading = Reading(tokens: seq<Token>, open: bool)

  function Then(t: Token, r: Option<Reading>): Option<Reading> {
    match r case None => None case Some(x) => Some(Reading([t] + x.tokens, x.open))
  }

  function LiveReading(p: string): Option<Reading>
    decreases |p|
  {
    if p == "" then Some(Reading([], false))
    else if p[0] == '*' then Some(Reading([], true))
    else if p[0] == '?' then Then(NotSlash, LiveReading(p[1..]))
    else if p[0] == '\\' then if |p| == 1 then None else Then(Exactly(p[1]), LiveReading(p[2..]))
    else if p[0] == '[' then
      match LiveClass(p)
      case None => None
      case Some((cl, n)) => Then(OneOf(cl), LiveReading(p[n..]))
    else Then(Exactly(p[0]), LiveReading(p[1..]))
  }

  function SqlReading(p: string): Option<Reading>
    decreases |p|
  {
    if p == "" then Some(Reading([], false))
    else if p[0] == '*' then Some(Reading([], true))
    else if p[0] == '?' then Then(AnyChar, SqlReading(p[1..]))
    else if p[0] == '[' then
      match SqlClass(p)
      case None => None
      case Some((cl, n)) => Then(OneOf(cl), SqlReading(p[n..]))
    else Then(Exactly(p[0]), SqlReading(p[1..]))
  }

  /** No star but possibly the last character. */
  predicate StarLast(p: string) {
    p == "" || '*' !in p[..|p| - 1]
  }

  lemma StarLastSuffix(p: string, rest: string)
    requires StarLast(p) && |rest| < |p| && p[|p| - |rest|..] == rest
    ensures StarLast(rest)
    ensures p[0] == '*' ==> p == "*" && rest == ""
  {
    var d := |p| - |rest|;
    if rest != "" {
      assert rest[..|rest| - 1] == p[..|p| - 1][d..];
      assert p[..|p| - 1][0] == p[0];
    } else if |p| > 1 {
      assert p[..|p| - 1][0] == p[0];
    }
  }

  lemma {:induction false} LoneStar(s: string)
    ensures PathMatch("*", s) <==> NoSlash(s)
    ensures Glob("*", s)
  {
    assert "*"[1..] == "";
    if s != "" { LoneStar(s[1..]); assert s == [s[0]] + s[1..]; }
  }

  /** The live matcher accepts `s` itself. */
  predicate LiveAccepts(p: string, s: string) {
    match LiveReading(p)
    case None => false
    case Some(Reading(ts, open)) => Fits(ts, s) && if open then NoSlash(s[|ts|..]) else |s| == |ts|
  }

  /** GLOB accepts `s`. */
  predicate SqlAccepts(p: string, s: string) {
    match SqlReading(p)
    case None => false
    case Some(Reading(ts, open)) => Fits(ts, s) && (open || |s| == |ts|)
  }

  lemma FitsStep(t: Token, ts: seq<Token>, s: string)
    ensures Fits([t] + ts, s) <==> s != "" && TokenFits(t, s[0]) && Fits(ts, s[1..])
    ensures Fits([t] + ts, s) ==> s[|[t] + ts|..] == s[1..][|ts|..]
  {
    var all := [t] + ts;
    if s != "" && |all| <= |s| {
      assert forall k :: 0 <= k < |ts| ==> s[1..][k] == s[k + 1] && ts[k] == all[k + 1];
      assert forall k :: 1 <= k < |all| ==> all[k] == ts[k - 1] && s[k] == s[1..][k - 1];
    }
  }

  lemma LiveAcceptsStep(p: string, t: Token, rest: string, s: string)
    requires LiveReading(p) == Then(t, LiveReading(rest))
    ensures LiveAccepts(p, s) <==> s != "" && TokenFits(t, s[0]) && LiveAccepts(rest, s[1..])
  {
    match LiveReading(rest)
    case None =>
    case Some(x) => FitsStep(t, x.tokens, s);
  }

  lemma SqlAcceptsStep(p: string, t: Token, rest: string, s: string)
    requires SqlReading(p) == Then(t, SqlReading(rest))
    ensures SqlAccepts(p, s) <==> s != "" && TokenFits(t, s[0]) && SqlAccepts(rest, s[1..])
  {
    match SqlReading(rest)
    case None =>
    case Some(x) => FitsStep(t, x.tokens, s);
  }

  /** The first token of a live pattern and what follows it, unless it is a star or malformed. */
  function LiveHead(p: string): (r: Option<(Token, string)>)
    requires p != "" && p[0] != '*'
    ensures r.Some? ==> |r.value.1| < |p| && p[|p| - |r.value.1|..] == r.value.1
    ensures LiveReading(p) == match r case None => None case Some((t, rest)) => Then(t, LiveReading(rest))
  {
    if p[0] == '?' then Some((NotSlash, p[1..]))
    else if p[0] == '\\' then if |p| == 1 then None else Some((Exactly(p[1]), p[2..]))
    else if p[0] == '[' then
      match LiveClass(p) case None => None case Some((cl, n)) => Some((OneOf(cl), p[n..]))
    else Some((Exactly(p[0]), p[1..]))
  }

  function SqlHead(p: string): (r: Option<(Token, string)>)
    requires p != "" && p[0] != '*'
    ensures r.Some? ==> |r.value.1| < |p| && p[|p| - |r.value.1|..] == r.value.1
    ensures SqlReading(p) == match r case None => None case Some((t, rest)) => Then(t, SqlReading(rest))
  {
    if p[0] == '?' then Some((AnyChar, p[1..]))
    else if p[0] == '[' then
      match SqlClass(p) case None => None case Some((cl, n)) => Some((OneOf(cl), p[n..]))
    else Some((Exactly(p[0]), p[1..]))
  }

  /** path.Match of a pattern whose star is last: its tokens fit one by one, and then nothing is left,
      or after a star nothing with a slash. */
  lemma {:induction false} LiveStarFinal(p: string, s: string)
    requires StarLast(p)
    ensures PathMatch(p, s) <==> LiveAccepts(p, s)
    decreases |p|
  {
    if p == "" {
    } else if p[0] == '*' {
      StarLastSuffix(p, p[1..]);
      assert s[0..] == s;
      LoneStar(s);
    } else {
      match LiveHead(p)
      case None =>
      case Some((t, rest)) =>
        StarLastSuffix(p, rest);
        LiveAcceptsStep(p, t, rest, s);
        if s != "" { LiveStarFinal(rest, s[1..]); }
    }
  }

  /** GLOB of the same: its tokens fit one by one, and then nothing is left, or after a star anything. */
  lemma {:induction false} SqlStarFinal(p: string, s: string)
    requires StarLast(p)
    ensures Glob(p, s) <==> SqlAccepts(p, s)
    decreases |p|
  {
    if p == "" {
    } else if p[0] == '*' {
      StarLastSuffix(p, p[1..]);
      LoneStar(s);
    } else {
      match SqlHead(p)
      case None =>
      case Some((t, rest)) =>
        StarLastSuffix(p, rest);
        SqlAcceptsStep(p, t, rest, s);
        if s != "" { SqlStarFinal(rest, s[1..]); }
    }
  }

  // ---------- more pattern after the star ----------

  lemma {:induction false} SqlRangesExtend(p: string, more: string, i: nat, prior: Option<char>, acc: seq<(char, char)>)
    requires ']' !in more && i <= |p|
    ensures SqlRanges(p + more, i, prior, acc) == SqlRanges(p, i, prior, acc)
    decreases |p| - i
  {
    if i < |p| {
      assert (p + more)[i] == p[i];
      if p[i] != ']' {
        if i + 1 == |p| {
          assert SqlRanges(p, i + 1, Some(p[i]), acc + [(p[i], p[i])]) == None;
          NoCloseNoClass(p + more, i, prior, acc);
        } else if p[i] == '-' && p[i + 1] != ']' && prior.Some? {
          SqlRangesExtend(p, more, i + 2, None, acc + [(prior.value, p[i + 1])]);
        } else {
          SqlRangesExtend(p, more, i + 1, Some(p[i]), acc + [(p[i], p[i])]);
        }
      }
    } else {
      NoCloseNoClass(p + more, i, prior, acc);
    }
  }

  lemma {:induction false} NoCloseNoClass(p: string, i: nat, prior: Option<char>, acc: seq<(char, char)>)
    requires forall k :: i <= k < |p| ==> p[k] != ']'
    ensures SqlRanges(p, i, prior, acc) == None
  {
  }

  lemma SqlClassExtends(p: string, more: string)
    requires ']' !in more && p != "" && (|p| == 1 ==> more == "" || more[0] != '^')
    ensures SqlClass(p + more) == SqlClass(p)
  {
    var i := if Negated(p) then 2 else 1;
    assert Negated(p + more) == Negated(p);
    if i < |p| && p[i] == ']' {
      SqlRangesExtend(p, more, i + 1, None, [(']', ']')]);
    } else {
      SqlRangesExtend(p, more, i, None, []);
    }
  }

  lemma GlobByHead(p: string, s: string)
    requires p != "" && p[0] != '*'
    ensures Glob(p, s) <==>
            match SqlHead(p)
            case None => false
            case Some((t, rest)) => s != "" && TokenFits(t, s[0]) && Glob(rest, s[1..])
  {
  }

  lemma HeadExtends(p: string, more: string)
    requires |p| > 1 && p[0] != '*' && ']' !in more
    ensures (p + more)[0] == p[0]
    ensures SqlHead(p + more) == match SqlHead(p) case None => None case Some((t, rest)) => Some((t, rest + more))
  {
    assert (p + more)[1..] == p[1..] + more;
    if p[0] == '[' {
      SqlClassExtends(p, more);
      var c := SqlClass(p);
      assert c.Some? ==> (p + more)[c.value.1..] == p[c.value.1..] + more;
    }
  }

  /** What a pattern with a last star accepts with more after the star it accepts without it. */
  lemma {:induction false} GlobMore(p: string, more: string, s: string)
    requires StarLast(p) && p != "" && p[|p| - 1] == '*' && ']' !in more && Glob(p + more, s)
    ensures SqlAccepts(p, s)
    decreases |p|
  {
    if p[0] == '*' {
      StarLastSuffix(p, p[1..]);
    } else {
      HeadExtends(p, more);
      GlobByHead(p + more, s);
      var h := SqlHead(p).value;
      StarLastSuffix(p, h.1);
      HeadLeavesStar(p);
      GlobMore(h.1, more, s[1..]);
      SqlAcceptsStep(p, h.0, h.1, s);
    }
  }

  lemma HeadLeavesStar(p: string)
    requires p != "" && p[0] != '*' && p[|p| - 1] == '*' && SqlHead(p).Some?
    ensures var rest := SqlHead(p).value.1; rest != "" && rest[|rest| - 1] == '*'
  {
    if p[0] == '[' { assert p[SqlClass(p).value.1 - 1] == ']'; }
  }
}
