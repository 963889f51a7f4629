/** The retroactive sweep of a new rule against what the daemon credits live: the sweep looks at
    one rule, the daemon at the first of all matching rules and at the ignored observations. */
module Retagging {
  import opened Options
  import opened Rules
  import opened SnapshotCache
  import opened Pipeline
  import opened PipelineRuns

  /** Some rule of the project matches before every matching rule of another project. */
  ghost predicate ClaimedFirst(sig: Signal, rules: seq<Rule>, p: int) {
    exists w :: w in rules && MatchOne(sig, w) && w.project == p
                && forall q :: q in rules && MatchOne(sig, q) && q.project != p ==> !Before(q, w)
  }

  lemma AttributedIff(sig: Signal, rules: seq<Rule>, p: int)
    requires DistinctIds(rules)
    ensures Attributed(sig, rules) == Some(p) <==> ClaimedFirst(sig, rules, p)
  {
    WinnerIsLeast(sig, rules);
    if ClaimedFirst(sig, rules, p) {
      var w :| w in rules && MatchOne(sig, w) && w.project == p
               && forall q :: q in rules && MatchOne(sig, q) && q.project != p ==> !Before(q, w);
      assert !Before(w, Winner(sig, rules).value);
    }
  }

  const ALL_WELL := Outcome(true, true, true, true)

  /** The tick in its present state would credit a signal from this source to `p`. */
  predicate GateOpen(e: Env, w: World, sc: Scratch, source: Source, p: int) {
    if p in e.snap.paused then source == Transcript && p !in sc.ticked
    else if source == Agent && p in e.snap.armed && p !in sc.disarmed then
      p !in sc.counted && e.present && e.n > 0 && Count(w.streak, p) + 1 >= e.n
    else source == Transcript ==> p !in sc.ticked
  }

  /** What the daemon would write for the signal now. */
  function LiveCredit(e: Env, w: World, sc: Scratch, sig: Signal): Option<int> {
    var ticks := Gate(e, w, sc, sig, ALL_WELL).0.db.ticks;
    if (e.now, sig) in ticks then ticks[(e.now, sig)] else None
  }

  lemma LiveCreditIs(e: Env, w: World, sc: Scratch, sig: Signal, p: int)
    requires (e.now, sig) !in w.db.ticks
    ensures LiveCredit(e, w, sc, sig) == Some(p) <==>
            sig !in w.db.ignored && Attributed(sig, e.snap.rules) == Some(p) && GateOpen(e, w, sc, sig.source, p)
  {
    GateView(e, w, sc, sig, ALL_WELL, p);
    var after := Gate(e, w, sc, sig, ALL_WELL).0.db;
    assert (e.now, sig) !in RowsOf(w.db, p);
    assert (e.now, sig) in RowsOf(after, p) <==> LiveCredit(e, w, sc, sig) == Some(p);
  }

  /** The sweep of rule `r` gives an unassigned row it selects the project the daemon would give it
      live iff its observation is not ignored, a rule of that project comes first, and the project's gate
      is open. */
  lemma SweepIsLiveCreditIff(e: Env, w: World, sc: Scratch, r: Rule, taggedSpace: string, k: (int, Signal))
    requires DistinctIds(e.snap.rules)
    requires (e.now, k.1) !in w.db.ticks
    requires k in w.db.ticks && w.db.ticks[k].None? && SweepSelects(r, taggedSpace, k.1)
    ensures Sweep(w.db.ticks, r, taggedSpace, r.project)[k] == LiveCredit(e, w, sc, k.1)
            <==> k.1 !in w.db.ignored && ClaimedFirst(k.1, e.snap.rules, r.project)
                 && GateOpen(e, w, sc, k.1.source, r.project)
  {
    LiveCreditIs(e, w, sc, k.1, r.project);
    AttributedIff(k.1, e.snap.rules, r.project);
  }

  /** Two rules on one bundle: the sweep of the later one takes rows the earlier one would win. */
  lemma SweepIgnoresPriority(sig: Signal)
    ensures var q := Rule(1, 10, 1, Some(sig.bundle), None, None, None, None);
            var r := Rule(2, 20, 100, Some(sig.bundle), None, None, None, None);
            && Sweep(map[(0, sig) := None], r, "", r.project)[(0, sig)] == Some(20)
            && Attributed(sig, [q, r]) == Some(10)
  {
    var q := Rule(1, 10, 1, Some(sig.bundle), None, None, None, None);
    var r := Rule(2, 20, 100, Some(sig.bundle), None, None, None, None);
    WinnerIsLeast(sig, [q, r]);
    assert q in [q, r];
  }
}
