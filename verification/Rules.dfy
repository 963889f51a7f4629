/** Attribution of one signal to a project: the rule matcher, the prefilter the
    collectors build from the rules, and the retroactive sweep. */
module Rules {
  import opened Options
  import opened Paths
  import opened CwdPattern
  import opened Splitting

  datatype Source = Focus | Agent | Transcript

  /** One signal; as a stored observation the same six fields are its identity. */
  datatype Signal = Signal(source: Source, bundle: string, title: string, binary: string, cwd: string, space: string)

  datatype Rule = Rule(id: int, project: int, priority: int, bundle: Option<string>, title: Option<string>,
                       binary: Option<string>, cwd: Option<string>, space: Option<string>)

  // ---------- the live matcher ----------

  predicate Contains(s: string, sub: string) {
    sub <= s || (s != "" && Contains(s[1..], sub))
  }

  predicate MatchOne(sig: Signal, r: Rule) {
    && (r.bundle.Some? ==> sig.bundle == r.bundle.value)
    && (r.title.Some? ==> Contains(sig.title, r.title.value))
    && (r.binary.Some? ==> sig.binary == r.binary.value)
    && (r.cwd.Some? ==> LiveCwd(r.cwd.value, sig.cwd))
    && (r.space.Some? ==> sig.space == r.space.value)
  }

  predicate Before(a: Rule, b: Rule) {
    a.priority < b.priority || (a.priority == b.priority && a.id < b.id)
  }

  predicate Ordered(rules: seq<Rule>) {
    forall i, j :: 0 <= i < j < |rules| ==> !Before(rules[j], rules[i])
  }

  function InsertRule(r: Rule, sorted: seq<Rule>): (s: seq<Rule>)
    requires Ordered(sorted)
    ensures Ordered(s) && multiset(s) == multiset(sorted) + multiset{r}
  {
    if sorted == [] || Before(r, sorted[0]) then [r] + sorted
    else
      var t := InsertRule(r, sorted[1..]);
      assert sorted == [sorted[0]] + sorted[1..];
      InsertKeepsHead(r, sorted, t);
      [sorted[0]] + t
  }

  lemma InsertKeepsHead(r: Rule, sorted: seq<Rule>, t: seq<Rule>)
    requires sorted != [] && Ordered(sorted) && Ordered(t) && !Before(r, sorted[0])
    requires multiset(t) == multiset(sorted[1..]) + multiset{r}
    ensures Ordered([sorted[0]] + t)
  {
    forall j | 0 <= j < |t| ensures !Before(t[j], sorted[0]) {
      assert t[j] in multiset(t);
      if t[j] != r { assert t[j] in sorted[1..]; }
    }
  }

  /** The stable sort by (priority, id) of the copied rules. */
  function SortRules(rules: seq<Rule>): (s: seq<Rule>)
    ensures Ordered(s) && multiset(s) == multiset(rules)
  {
    if rules == [] then []
    else
      assert rules == rules[..|rules| - 1] + [rules[|rules| - 1]];
      InsertRule(rules[|rules| - 1], SortRules(rules[..|rules| - 1]))
  }

  function FirstMatch(sig: Signal, rules: seq<Rule>): Option<Rule> {
    if rules == [] then None
    else if MatchOne(sig, rules[0]) then Some(rules[0])
    else FirstMatch(sig, rules[1..])
  }

  function Winner(sig: Signal, rules: seq<Rule>): Option<Rule> {
    SortedMembers(rules);
    FirstMatch(sig, SortRules(rules))
  }

  lemma SortedMembers(rules: seq<Rule>)
    ensures forall r :: r in SortRules(rules) <==> r in rules
  {
    forall r ensures r in SortRules(rules) <==> r in rules {
      assert r in multiset(SortRules(rules)) <==> r in multiset(rules);
    }
  }

  method MatchRules(sig: Signal, rules: seq<Rule>) returns (project: Option<int>)
    ensures project == match Winner(sig, rules) case None => None case Some(r) => Some(r.project)
  {
    SortedMembers(rules);
    var sorted := SortRules(rules);
    var i := 0;
    while i < |sorted|
      invariant 0 <= i <= |sorted|
      invariant Winner(sig, rules) == FirstMatch(sig, sorted[i..])
    {
      if MatchOne(sig, sorted[i]) { return Some(sorted[i].project); }
      i := i + 1;
    }
    return None;
  }

  lemma {:induction false} FirstMatchIsFirst(sig: Signal, rules: seq<Rule>)
    requires Ordered(rules)
    ensures var w := FirstMatch(sig, rules);
            if w.None? then forall r :: r in rules ==> !MatchOne(sig, r)
            else w.value in rules && MatchOne(sig, w.value)
                 && forall r :: r in rules && MatchOne(sig, r) ==> !Before(r, w.value)
  {
    if rules != [] && !MatchOne(sig, rules[0]) {
      FirstMatchIsFirst(sig, rules[1..]);
      forall r | r in rules && r != rules[0] ensures r in rules[1..] {}
    }
  }

  /** The winner matches, and no matching rule has a smaller priority, nor the same and a smaller id. */
  lemma WinnerIsLeast(sig: Signal, rules: seq<Rule>)
    ensures Winner(sig, rules).None? <==> forall r :: r in rules ==> !MatchOne(sig, r)
    ensures Winner(sig, rules).Some? ==>
              var w := Winner(sig, rules).value;
              w in rules && MatchOne(sig, w)
              && forall r :: r in rules && MatchOne(sig, r) ==>
                   w.priority < r.priority || (w.priority == r.priority && w.id <= r.id)
  {
    SortedMembers(rules);
    FirstMatchIsFirst(sig, SortRules(rules));
  }

  predicate DistinctIds(rules: seq<Rule>) {
    forall a, b :: a in rules && b in rules && a.id == b.id ==> a == b
  }

  /** Attribution does not depend on the order in which the rules are listed. */
  lemma OrderIrrelevant(sig: Signal, rules: seq<Rule>, others: seq<Rule>)
    requires DistinctIds(rules)
    requires forall r :: r in rules <==> r in others
    ensures Winner(sig, rules) == Winner(sig, others)
  {
    WinnerIsLeast(sig, rules);
    WinnerIsLeast(sig, others);
  }

  // ---------- the collectors' prefilter ----------

  ghost predicate IsPrefilter(rules: seq<Rule>, patterns: seq<string>, spaces: set<string>) {
    && (forall p :: p in patterns <==> p != "" && exists r :: r in rules && r.cwd == Some(p))
    && (forall s :: s in spaces <==> s != "" && exists r :: r in rules && r.space == Some(s))
  }

  /** The two loops of ReloadCache that derive the tracked patterns and bound spaces. */
  method DerivePrefilter(rules: seq<Rule>) returns (patterns: seq<string>, spaces: set<string>)
    ensures IsPrefilter(rules, patterns, spaces)
    ensures forall i, j :: 0 <= i < j < |patterns| ==> patterns[i] != patterns[j]
  {
    patterns, spaces := [], {};
    for i := 0 to |rules|
      invariant forall p :: p in patterns <==> p != "" && exists r :: r in rules[..i] && r.cwd == Some(p)
      invariant forall i, j :: 0 <= i < j < |patterns| ==> patterns[i] != patterns[j]
    {
      assert rules[..i + 1] == rules[..i] + [rules[i]];
      if rules[i].cwd.Some? && rules[i].cwd.value != "" && rules[i].cwd.value !in patterns {
        patterns := patterns + [rules[i].cwd.value];
      }
    }
    for i := 0 to |rules|
      invariant forall s :: s in spaces <==> s != "" && exists r :: r in rules[..i] && r.space == Some(s)
    {
      assert rules[..i + 1] == rules[..i] + [rules[i]];
      if rules[i].space.Some? && rules[i].space.value != "" {
        spaces := spaces + {rules[i].space.value};
      }
    }
    assert rules[..|rules|] == rules;
  }

  /** cwdMatchesAnyPattern, or a bound space. */
  predicate Admits(patterns: seq<string>, spaces: set<string>, cwd: string, space: string) {
    (exists p :: p in patterns && LiveCwd(p, cwd)) || (space != "" && space in spaces)
  }

  /** What nullStr stores: never an empty space. */
  predicate StoredByRuleAdd(rules: seq<Rule>) {
    forall r :: r in rules ==> r.space != Some("")
  }

  /** No signal that a rule would place by directory or space is filtered out upstream. */
  lemma PrefilterMissesNothing(sig: Signal, rules: seq<Rule>, r: Rule, patterns: seq<string>, spaces: set<string>)
    requires IsPrefilter(rules, patterns, spaces) && StoredByRuleAdd(rules)
    requires r in rules && MatchOne(sig, r) && (r.cwd.Some? || r.space.Some?)
    ensures Admits(patterns, spaces, sig.cwd, sig.space)
  {
  }

  /** A rule whose space is the empty string, which RuleAdd never stores, would slip past it. */
  lemma EmptySpaceRuleSlipsPast(sig: Signal, r: Rule)
    requires r == Rule(1, 7, 100, None, None, None, None, Some("")) && sig.space == ""
    ensures MatchOne(sig, r) && IsPrefilter([r], [], {}) && !Admits([], {}, sig.cwd, sig.space)
  {
  }

  // ---------- the retroactive sweep ----------

  function LowerAscii(c: char): char {
    if 'A' <= c <= 'Z' then c + 32 as char else c
  }

  /** SQLite LIKE: '%' any run, '_' any character, ASCII letters in either case. */
  predicate Like(p: string, s: string)
    decreases |p| + |s|
  {
    if p == "" then s == ""
    else if p[0] == '%' then Like(p[1..], s) || (s != "" && Like(p, s[1..]))
    else s != "" && (p[0] == '_' || LowerAscii(s[0]) == LowerAscii(p[0])) && Like(p[1..], s[1..])
  }

  /** The WHERE clause of ApplyRuleRetroactivelyCounted as TagSignature binds it: the space
      is the tagged observation's, empty for "don't care". */
  predicate SweepSelects(r: Rule, taggedSpace: string, o: Signal) {
    && (r.bundle.Some? ==> o.bundle == r.bundle.value)
    && (r.title.Some? ==> Like("%" + r.title.value + "%", o.title))
    && (r.binary.Some? ==> o.binary == r.binary.value)
    && (taggedSpace != "" ==> o.space == taggedSpace)
    && (r.cwd.Some? ==> SqlCwd(r.cwd.value, o.cwd))
  }

  function Scoped(r: Rule, taggedSpace: string): Rule {
    r.(space := if taggedSpace == "" then None else Some(taggedSpace))
  }

  // ---------- what the LIKE of a title clause reaches ----------

  lemma {:induction false} LikeEverything(s: string)
    ensures Like("%", s)
  {
    assert "%"[1..] == "";
    if s != "" { LikeEverything(s[1..]); }
  }

  lemma {:induction false} LikeAnyRun(q: string, s: string)
    ensures Like("%" + q, s) <==> exists i :: 0 <= i <= |s| && Like(q, s[i..])
  {
    assert ("%" + q)[1..] == q && s[0..] == s;
    if s != "" {
      LikeAnyRun(q, s[1..]);
      assert forall i :: 0 <= i <= |s| - 1 ==> s[1..][i..] == s[i + 1..];
      if i :| 0 <= i <= |s| && Like(q, s[i..]) {
        if i > 0 { assert Like(q, s[1..][i - 1..]); }
      }
      if i :| 0 <= i <= |s| - 1 && Like(q, s[1..][i..]) { assert Like(q, s[i + 1..]); }
    }
  }

  /** `u` letter by letter in either case at the start of `s`, '_' standing for any character. */
  predicate FitsAt(u: string, s: string) {
    |u| <= |s| && forall k :: 0 <= k < |u| ==> u[k] == '_' || LowerAscii(s[k]) == LowerAscii(u[k])
  }

  lemma {:induction false} LikeLiteral(u: string, q: string, s: string)
    requires '%' !in u
    ensures Like(u + q, s) <==> FitsAt(u, s) && Like(q, s[|u|..])
  {
    if u == "" {
      assert u + q == q && s[0..] == s;
    } else {
      assert (u + q)[1..] == u[1..] + q;
      if s != "" {
        LikeLiteral(u[1..], q, s[1..]);
        if |u| <= |s| { assert s[1..][|u| - 1..] == s[|u|..]; }
        assert FitsAt(u, s) <==> (u[0] == '_' || LowerAscii(s[0]) == LowerAscii(u[0])) && FitsAt(u[1..], s[1..]) by {
          assert forall k :: 0 <= k < |u| - 1 ==> u[1..][k] == u[k + 1];
          assert |u| <= |s| ==> forall k :: 1 <= k < |u| ==> u[k] == u[1..][k - 1] && s[k] == s[1..][k - 1];
        }
      }
    }
  }

  /** The parts occur in `s` one after the other, without overlap. */
  ghost predicate Occurs(parts: seq<string>, s: string)
    decreases |parts|
  {
    parts == []
    || exists i :: 0 <= i <= |s| && FitsAt(parts[0], s[i..]) && Occurs(parts[1..], s[i..][|parts[0]|..])
  }

  lemma {:induction false} SplitHead(t: string, sep: char) returns (u: string, rest: string)
    requires sep in t
    ensures t == u + [sep] + rest && sep !in u && Split(t, sep) == [u] + Split(rest, sep)
  {
    if t[0] == sep {
      u, rest := "", t[1..];
    } else {
      u, rest := SplitHead(t[1..], sep);
      u := [t[0]] + u;
    }
  }

  lemma OccursUnfold(u: string, parts: seq<string>, s: string)
    ensures Occurs([u] + parts, s) <==>
            exists i :: 0 <= i <= |s| && FitsAt(u, s[i..]) && Occurs(parts, s[i..][|u|..])
  {
    assert ([u] + parts)[1..] == parts;
  }

  lemma LikeFromHead(u: string, q: string, s: string)
    requires '%' !in u
    ensures Like("%" + (u + q), s) <==> exists i :: 0 <= i <= |s| && FitsAt(u, s[i..]) && Like(q, s[i..][|u|..])
  {
    LikeAnyRun(u + q, s);
    forall i | 0 <= i <= |s| ensures Like(u + q, s[i..]) <==> FitsAt(u, s[i..]) && Like(q, s[i..][|u|..]) {
      LikeLiteral(u, q, s[i..]);
    }
  }

  lemma LikeLastPart(t: string, s: string)
    requires '%' !in t
    ensures Like("%" + (t + "%"), s) <==> Occurs([t], s)
  {
    LikeFromHead(t, "%", s);
    assert [t] == [t] + [];
    OccursUnfold(t, [], s);
    forall i | 0 <= i <= |s| && FitsAt(t, s[i..]) ensures Like("%", s[i..][|t|..]) { LikeEverything(s[i..][|t|..]); }
  }

  /** For every title text, wildcards included: the clause selects exactly the titles in which the
      pieces between its '%' occur in order, in either case. */
  lemma {:induction false} LikeIsOccurrence(t: string, s: string)
    ensures Like("%" + (t + "%"), s) <==> Occurs(Split(t, '%'), s)
    decreases |t|
  {
    if '%' !in t {
      SplitNone(t, '%');
      LikeLastPart(t, s);
    } else {
      var u, rest := SplitHead(t, '%');
      var q := "%" + (rest + "%");
      assert t + "%" == u + q;
      LikeFromHead(u, q, s);
      OccursUnfold(u, Split(rest, '%'), s);
      forall i | 0 <= i <= |s| && FitsAt(u, s[i..])
        ensures Like(q, s[i..][|u|..]) <==> Occurs(Split(rest, '%'), s[i..][|u|..])
      {
        LikeIsOccurrence(rest, s[i..][|u|..]);
      }
    }
  }

  function LowerAll(s: string): string {
    seq(|s|, i requires 0 <= i < |s| => LowerAscii(s[i]))
  }

  lemma {:induction false} ContainsAt(s: string, sub: string)
    ensures Contains(s, sub) <==> exists i :: 0 <= i <= |s| && sub <= s[i..]
  {
    assert s[0..] == s;
    if s != "" {
      ContainsAt(s[1..], sub);
      assert forall i :: 0 <= i <= |s| - 1 ==> s[1..][i..] == s[i + 1..];
      if i :| 0 <= i <= |s| && sub <= s[i..] { if i > 0 { assert sub <= s[1..][i - 1..]; } }
      if i :| 0 <= i <= |s| - 1 && sub <= s[1..][i..] { assert sub <= s[i + 1..]; }
    }
  }

  lemma FitsAtFolds(t: string, s: string)
    requires '_' !in t
    ensures FitsAt(t, s) <==> LowerAll(t) <= LowerAll(s)
  {
    if |t| <= |s| {
      assert forall k :: 0 <= k < |t| ==>
               LowerAll(t)[k] == LowerAscii(t[k]) && LowerAll(s)[k] == LowerAscii(s[k]) && t[k] != '_';
      assert LowerAll(t) <= LowerAll(s) <==> forall k :: 0 <= k < |t| ==> LowerAll(t)[k] == LowerAll(s)[k];
    }
  }

  /** Without wildcards that is containment with ASCII case ignored. */
  lemma LikeFoldsCase(t: string, s: string)
    requires '%' !in t && '_' !in t
    ensures Like("%" + t + "%", s) <==> Contains(LowerAll(s), LowerAll(t))
  {
    assert "%" + t + "%" == "%" + (t + "%");
    LikeLastPart(t, s);
    OccursUnfold(t, [], s);
    assert [t] == [t] + [];
    ContainsAt(LowerAll(s), LowerAll(t));
    forall i | 0 <= i <= |s| ensures FitsAt(t, s[i..]) <==> LowerAll(t) <= LowerAll(s)[i..] {
      FitsAtFolds(t, s[i..]);
      assert LowerAll(s)[i..] == LowerAll(s[i..]);
    }
  }

  /** Whatever the text holds, what contains it is selected. */
  lemma ContainsImpliesLike(s: string, t: string)
    requires Contains(s, t)
    ensures Like("%" + t + "%", s)
  {
    assert "%" + t + "%" == "%" + (t + "%");
    LikeAnyRun(t + "%", s);
    ContainsAt(s, t);
    var i :| 0 <= i <= |s| && t <= s[i..];
    assert s[i..] == t + s[i..][|t|..];
    LikeItself(t, s[i..][|t|..]);
  }

  lemma {:induction false} LikeItself(t: string, u: string)
    ensures Like(t + "%", t + u)
  {
    if t == "" {
      assert t + "%" == "%" && t + u == u;
      LikeEverything(u);
    } else {
      assert (t + "%")[1..] == t[1..] + "%";
      assert (t + u)[1..] == t[1..] + u;
      LikeItself(t[1..], u);
      if t[0] == '%' {
        assert Like((t + "%")[1..], (t + u)[1..]);
        assert Like(t + "%", (t + u)[1..]);
      }
    }
  }

  // ---------- sweep against live match ----------

  /** The sweep reaches the title by case or by a wildcard only. */
  predicate TitleOverreach(r: Rule, o: Signal) {
    r.title.Some? && Like("%" + r.title.value + "%", o.title) && !Contains(o.title, r.title.value)
  }

  /** It reaches the directory by a slash that a '*' or '?' crosses, or the like. */
  predicate CwdOverreach(r: Rule, o: Signal) {
    r.cwd.Some? && SqlCwd(r.cwd.value, o.cwd) && !LiveCwd(r.cwd.value, o.cwd)
  }

  predicate CwdMissed(r: Rule, o: Signal) {
    r.cwd.Some? && LiveCwd(r.cwd.value, o.cwd) && !SqlCwd(r.cwd.value, o.cwd)
  }

  /** The rule matches but for a title or a directory, and overreaches there. */
  predicate Overreaches(r: Rule, taggedSpace: string, o: Signal) {
    && (TitleOverreach(r, o) || CwdOverreach(r, o))
    && MatchOne(o, Scoped(r.(title := if TitleOverreach(r, o) then None else r.title,
                             cwd := if CwdOverreach(r, o) then None else r.cwd), taggedSpace))
  }

  /** For every rule: what it matches live in the tagged space the sweep selects unless it misses the
      directory; what it selects besides are exactly the rows it overreaches to. */
  lemma SweepAgreesWithLive(r: Rule, taggedSpace: string, o: Signal)
    ensures MatchOne(o, Scoped(r, taggedSpace)) ==> (SweepSelects(r, taggedSpace, o) <==> !CwdMissed(r, o))
    ensures !MatchOne(o, Scoped(r, taggedSpace)) ==>
              (SweepSelects(r, taggedSpace, o) <==> Overreaches(r, taggedSpace, o) && !CwdMissed(r, o))
  {
    if r.title.Some? && Contains(o.title, r.title.value) { ContainsImpliesLike(o.title, r.title.value); }
  }

  /** A plain pattern neither misses nor overreaches to a directory with a clean parent; without quotes
      and classes it overreaches iff a '?' stands over a slash. */
  lemma PlainClausesAgree(r: Rule, o: Signal)
    requires r.cwd.Some? && Storable(r.cwd.value) && PlainParent(o.cwd)
    requires '*' in r.cwd.value ==> Quoteless(r.cwd.value)
    ensures !CwdMissed(r, o)
    ensures CwdOverreach(r, o) <==>
            SqlCwd(r.cwd.value, o.cwd) && '*' in r.cwd.value && QuestionOverSlash(r.cwd.value, o.cwd)
  {
    ParityOnPlainParents(r.cwd.value, o.cwd);
  }

  /** A title text without wildcards overreaches iff it is there in another case only. */
  lemma TitleSweepReachesFurther(r: Rule, o: Signal)
    requires r.title.Some? && '%' !in r.title.value && '_' !in r.title.value
    ensures TitleOverreach(r, o) <==>
            Contains(LowerAll(o.title), LowerAll(r.title.value)) && !Contains(o.title, r.title.value)
  {
    LikeFoldsCase(r.title.value, o.title);
  }

  type Ticks = map<(int, Signal), Option<int>>

  function Sweep(ticks: Ticks, r: Rule, taggedSpace: string, project: int): Ticks {
    map k | k in ticks :: if ticks[k] == None && SweepSelects(r, taggedSpace, k.1) then Some(project) else ticks[k]
  }

  /** For every rule the sweep moves no row, takes none from a project, and changes nothing when
      it runs again. */
  lemma SweepConserves(ticks: Ticks, r: Rule, taggedSpace: string, project: int)
    ensures var after := Sweep(ticks, r, taggedSpace, project);
            && after.Keys == ticks.Keys
            && (forall k :: k in ticks && ticks[k].Some? ==> after[k] == ticks[k])
            && Sweep(after, r, taggedSpace, project) == after
  {
  }

  /** An unassigned row is credited iff the rule matches it live in the tagged space or overreaches to
      it, and does not miss its directory. */
  lemma SweepCredits(ticks: Ticks, r: Rule, taggedSpace: string, project: int, k: (int, Signal))
    requires k in ticks && ticks[k].None?
    ensures Sweep(ticks, r, taggedSpace, project)[k] == Some(project) <==>
            !CwdMissed(r, k.1) && (MatchOne(k.1, Scoped(r, taggedSpace)) || Overreaches(r, taggedSpace, k.1))
  {
    SweepAgreesWithLive(r, taggedSpace, k.1);
  }
}
