/** What one poll can do to one project. */
module PipelineRuns {
  import opened Options
  import opened Rules
  import opened SnapshotCache
  import opened Pipeline

  /** Everything the gate reads or writes about one project. */
  datatype View = View(paused: bool, dbPaused: bool, armed: bool, suppressed: nat, streak: nat,
                       disarmed: bool, counted: bool, ticked: bool)

  function ViewOf(w: World, sc: Scratch, p: int): View {
    View(p in w.snapshot.paused, p in w.db.paused, p in w.snapshot.armed, Count(w.suppressed, p), Count(w.streak, p),
         p in sc.disarmed, p in sc.counted, p in sc.ticked)
  }

  /** The operation may change whether `p` is paused or armed. */
  predicate Touches(op: Op, p: int) {
    Arms(op, p) || Disarms(op, p) || op == MarkActive(p) || op.Reload?
  }

  function RowsOf(db: Db, p: int): set<(int, Signal)> {
    set k | k in db.ticks && db.ticks[k] == Some(p)
  }

  /** The signal gets past the observation table and is attributed to `p`. */
  predicate Reaches(e: Env, ignored: set<Signal>, sig: Signal, out: Outcome, p: int) {
    out.upsertOk && out.lookupOk && sig !in ignored && Attributed(sig, e.snap.rules) == Some(p)
  }

  // ---------- the gate, seen by one project ----------

  function ViewDisarmed(v: View): View {
    v.(armed := false, suppressed := if v.armed then 0 else v.suppressed, streak := 0, disarmed := true)
  }

  function ViewTally(v: View, source: Source, out: Outcome): (View, bool) {
    if (source == Transcript && v.ticked) || !out.insertOk then (v, false) else (v.(ticked := true), true)
  }

  /** The new view, and whether the signal was credited; `paused0`/`armed0` are the start-of-tick flags. */
  function ViewStep(e: Env, paused0: bool, armed0: bool, v: View, source: Source, out: Outcome): (View, bool) {
    var v1 := if source == Agent then v else ViewDisarmed(v);
    if paused0 then
      if source == Focus || !out.resumeOk || (source == Agent && !e.present) then (v1, false)
      else
        var v2 := v1.(paused := false, dbPaused := false, streak := 0);
        if source == Transcript then ViewTally(v2, source, out)
        else (v2.(armed := true, suppressed := if v2.armed then v2.suppressed else 0), false)
    else if source == Agent && armed0 && !v1.disarmed then
      if v1.counted then (v1, false)
      else if e.present && e.n > 0 && v1.streak + 1 >= e.n then
        ViewTally(ViewDisarmed(v1).(counted := true), source, out)
      else (v1.(counted := true, suppressed := v1.suppressed + 1,
                streak := if e.present && e.n > 0 then v1.streak + 1 else v1.streak), false)
    else ViewTally(v1, source, out)
  }

  lemma DisarmedView(w: World, sc: Scratch, q: int, p: int)
    ensures var v, v' := ViewOf(w, sc, p), ViewOf(Disarmed(w, q), sc.(disarmed := sc.disarmed + {q}), p);
            v' == if q == p then ViewDisarmed(v) else v
  {
  }

  lemma ResumedView(w: World, sc: Scratch, q: int, p: int)
    ensures var v, v' := ViewOf(w, sc, p), ViewOf(Resumed(w, q), sc, p);
            v' == if q == p then v.(paused := false, dbPaused := false, streak := 0) else v
  {
  }

  lemma ArmedView(w: World, sc: Scratch, q: int, p: int)
    ensures var v, v' := ViewOf(w, sc, p), ViewOf(WithCache(w, Arm(q)), sc, p);
            v' == if q == p then v.(armed := true, suppressed := if v.armed then v.suppressed else 0) else v
  {
  }

  lemma TallyView(e: Env, w: World, sc: Scratch, sig: Signal, q: int, out: Outcome, p: int)
    ensures var (w', sc') := Tally(e, w, sc, sig, q, out);
            ViewOf(w', sc', p) == if q == p then ViewTally(ViewOf(w, sc, p), sig.source, out).0 else ViewOf(w, sc, p)
  {
  }

  lemma ArmedGateView(e: Env, w: World, sc: Scratch, sig: Signal, q: int, out: Outcome, p: int)
    requires sig.source == Agent && q !in sc.disarmed
    ensures var (w', sc') := ArmedGate(e, w, sc, sig, q, out);
            ViewOf(w', sc', p) == if q == p then ViewStep(e, false, true, ViewOf(w, sc, p), Agent, out).0
                                  else ViewOf(w, sc, p)
  {
    if q !in sc.counted {
      var sc1 := sc.(counted := sc.counted + {q});
      if e.present && e.n > 0 && Count(w.streak, q) + 1 >= e.n {
        DisarmedView(w, sc1, q, p);
        TallyView(e, Disarmed(w, q), sc1.(disarmed := sc1.disarmed + {q}), sig, q, out, p);
      }
    }
  }

  /** Signals of other projects leave `p` alone; its own move it by ViewStep. */
  lemma GateProjectView(e: Env, w: World, sc: Scratch, sig: Signal, q: int, out: Outcome, p: int)
    ensures var (w', sc') := GateProject(e, w, sc, sig, q, out);
            ViewOf(w', sc', p) ==
              if q == p then ViewStep(e, p in e.snap.paused, p in e.snap.armed, ViewOf(w, sc, p), sig.source, out).0
              else ViewOf(w, sc, p)
  {
    var w1 := if sig.source == Agent then w else Disarmed(w, q);
    var sc1 := if sig.source == Agent then sc else sc.(disarmed := sc.disarmed + {q});
    DisarmedView(w, sc, q, p);
    ResumedView(w1, sc1, q, p);
    TallyView(e, Resumed(w1, q), sc1, sig, q, out, p);
    TallyView(e, w1, sc1, sig, q, out, p);
    ArmedView(Resumed(w1, q), sc1, q, p);
    if q !in e.snap.paused && sig.source == Agent && q in e.snap.armed && q !in sc1.disarmed {
      ArmedGateView(e, w1, sc1, sig, q, out, p);
    }
  }

  /** The row a credited signal adds: none if the table has one for it. */
  function NewRow(db: Db, now: int, sig: Signal, credited: bool): set<(int, Signal)> {
    if credited && (now, sig) !in db.ticks then {(now, sig)} else {}
  }

  lemma InsertTickRows(db: Db, now: int, sig: Signal, q: Option<int>, p: int)
    ensures RowsOf(InsertTick(db, now, sig, q), p) == RowsOf(db, p) + NewRow(db, now, sig, q == Some(p))
  {
  }

  lemma TallyRows(e: Env, w: World, sc: Scratch, sig: Signal, q: int, out: Outcome, p: int)
    ensures RowsOf(Tally(e, w, sc, sig, q, out).0.db, p) ==
            RowsOf(w.db, p) + NewRow(w.db, e.now, sig, q == p && ViewTally(ViewOf(w, sc, p), sig.source, out).1)
  {
    InsertTickRows(w.db, e.now, sig, Some(q), p);
  }

  lemma ArmedGateRows(e: Env, w: World, sc: Scratch, sig: Signal, q: int, out: Outcome, p: int)
    requires sig.source == Agent && q !in sc.disarmed
    ensures RowsOf(ArmedGate(e, w, sc, sig, q, out).0.db, p) ==
            RowsOf(w.db, p)
            + NewRow(w.db, e.now, sig, q == p && ViewStep(e, false, true, ViewOf(w, sc, p), Agent, out).1)
  {
    var sc1 := sc.(counted := sc.counted + {q});
    var sc2 := sc1.(disarmed := sc1.disarmed + {q});
    DisarmedView(w, sc1, q, p);
    TallyRows(e, Disarmed(w, q), sc2, sig, q, out, p);
  }

  lemma PausedGateRows(e: Env, w: World, sc: Scratch, sig: Signal, q: int, out: Outcome, p: int)
    requires q in e.snap.paused
    ensures RowsOf(GateProject(e, w, sc, sig, q, out).0.db, p) ==
            RowsOf(w.db, p)
            + NewRow(w.db, e.now, sig,
                     q == p && ViewStep(e, true, p in e.snap.armed, ViewOf(w, sc, p), sig.source, out).1)
  {
    if sig.source == Transcript {
      var w1, sc1 := Disarmed(w, q), sc.(disarmed := sc.disarmed + {q});
      DisarmedView(w, sc, q, p);
      ResumedView(w1, sc1, q, p);
      TallyRows(e, Resumed(w1, q), sc1, sig, q, out, p);
    }
  }

  lemma OpenGateRows(e: Env, w: World, sc: Scratch, sig: Signal, q: int, out: Outcome, p: int)
    requires q !in e.snap.paused
    ensures RowsOf(GateProject(e, w, sc, sig, q, out).0.db, p) ==
            RowsOf(w.db, p)
            + NewRow(w.db, e.now, sig,
                     q == p && ViewStep(e, false, p in e.snap.armed, ViewOf(w, sc, p), sig.source, out).1)
  {
    if sig.source == Agent {
      if q in e.snap.armed && q !in sc.disarmed { ArmedGateRows(e, w, sc, sig, q, out, p); }
      else { TallyRows(e, w, sc, sig, q, out, p); }
    } else {
      DisarmedView(w, sc, q, p);
      TallyRows(e, Disarmed(w, q), sc.(disarmed := sc.disarmed + {q}), sig, q, out, p);
    }
  }

  lemma GateProjectRows(e: Env, w: World, sc: Scratch, sig: Signal, q: int, out: Outcome, p: int)
    ensures RowsOf(GateProject(e, w, sc, sig, q, out).0.db, p) ==
            RowsOf(w.db, p)
            + NewRow(w.db, e.now, sig,
                     q == p && ViewStep(e, p in e.snap.paused, p in e.snap.armed, ViewOf(w, sc, p), sig.source, out).1)
  {
    if q in e.snap.paused { PausedGateRows(e, w, sc, sig, q, out, p); } else { OpenGateRows(e, w, sc, sig, q, out, p); }
  }

  /** What no signal changes, and the one row it may add. */
  predicate Framed(e: Env, w: World, w': World, sig: Signal, q: int) {
    && w'.db.ignored == w.db.ignored && w'.db.observations == w.db.observations
    && (w'.db.ticks == w.db.ticks || w'.db.ticks == InsertTick(w.db, e.now, sig, Some(q)).ticks)
  }

  lemma TallyFrame(e: Env, w: World, sc: Scratch, sig: Signal, q: int, out: Outcome)
    ensures Framed(e, w, Tally(e, w, sc, sig, q, out).0, sig, q)
  {
  }

  lemma ArmedGateFrame(e: Env, w: World, sc: Scratch, sig: Signal, q: int, out: Outcome)
    ensures Framed(e, w, ArmedGate(e, w, sc, sig, q, out).0, sig, q)
  {
    TallyFrame(e, Disarmed(w, q), sc.(counted := sc.counted + {q}, disarmed := sc.disarmed + {q}), sig, q, out);
  }

  lemma GateProjectFrame(e: Env, w: World, sc: Scratch, sig: Signal, q: int, out: Outcome)
    ensures Framed(e, w, GateProject(e, w, sc, sig, q, out).0, sig, q)
  {
    var w1 := if sig.source == Agent then w else Disarmed(w, q);
    var sc1 := if sig.source == Agent then sc else sc.(disarmed := sc.disarmed + {q});
    TallyFrame(e, Resumed(w1, q), sc1, sig, q, out);
    TallyFrame(e, w1, sc1, sig, q, out);
    ArmedGateFrame(e, w1, sc1, sig, q, out);
  }

  /** Old rows stay; a new one is this tick's and carries the project its signal is attributed to. */
  ghost predicate HonestSince(e: Env, before: Db, after: Db) {
    && (forall k :: k in before.ticks ==> k in after.ticks && after.ticks[k] == before.ticks[k])
    && (forall s :: (e.now, s) in after.ticks && (e.now, s) !in before.ticks ==>
          after.ticks[(e.now, s)] == Attributed(s, e.snap.rules))
  }

  predicate Credits(e: Env, ignored: set<Signal>, v: View, sig: Signal, out: Outcome, p: int) {
    Reaches(e, ignored, sig, out, p) && ViewStep(e, p in e.snap.paused, p in e.snap.armed, v, sig.source, out).1
  }

  lemma GateView(e: Env, w: World, sc: Scratch, sig: Signal, out: Outcome, p: int)
    ensures var (w', sc') := Gate(e, w, sc, sig, out);
            && ViewOf(w', sc', p) == (if Reaches(e, w.db.ignored, sig, out, p)
                 then ViewStep(e, p in e.snap.paused, p in e.snap.armed, ViewOf(w, sc, p), sig.source, out).0
                 else ViewOf(w, sc, p))
            && RowsOf(w'.db, p) == RowsOf(w.db, p) +
                 NewRow(w.db, e.now, sig, Credits(e, w.db.ignored, ViewOf(w, sc, p), sig, out, p))
  {
    var seen := w.(db := w.db.(observations := w.db.observations + {sig}));
    assert ViewOf(seen, sc, p) == ViewOf(w, sc, p) && RowsOf(seen.db, p) == RowsOf(w.db, p);
    if out.upsertOk && out.lookupOk && sig !in w.db.ignored {
      match Attributed(sig, e.snap.rules)
      case None => InsertTickRows(seen.db, e.now, sig, None, p);
      case Some(q) =>
        GateProjectView(e, seen, sc, sig, q, out, p);
        GateProjectRows(e, seen, sc, sig, q, out, p);
    }
  }

  lemma GateHonest(e: Env, w: World, sc: Scratch, sig: Signal, out: Outcome, before: Db)
    requires HonestSince(e, before, w.db)
    ensures var w' := Gate(e, w, sc, sig, out).0; w'.db.ignored == w.db.ignored && HonestSince(e, before, w'.db)
  {
    var seen := w.(db := w.db.(observations := w.db.observations + {sig}));
    match Attributed(sig, e.snap.rules)
    case None =>
    case Some(q) => GateProjectFrame(e, seen, sc, sig, q, out);
  }

  // ---------- one tick, seen by one project ----------

  predicate ReachesAt(cfg: Config, w: World, poll: Poll, j: nat, p: int)
    requires j < |Signals(poll, cfg.idleThreshold)|
  {
    Reaches(EnvOf(cfg, w, poll), w.db.ignored, Signals(poll, cfg.idleThreshold)[j], OutcomeOf(poll, j), p)
  }

  function SourceAt(cfg: Config, poll: Poll, j: nat): Source
    requires j < |Signals(poll, cfg.idleThreshold)|
  {
    Signals(poll, cfg.idleThreshold)[j].source
  }

  function ViewAt(cfg: Config, w: World, poll: Poll, k: nat, p: int): View
    requires k <= |Signals(poll, cfg.idleThreshold)|
  {
    if k == 0 then ViewOf(w, Scratch({}, {}, {}), p)
    else
      var v := ViewAt(cfg, w, poll, k - 1, p);
      if ReachesAt(cfg, w, poll, k - 1, p) then
        ViewStep(EnvOf(cfg, w, poll), p in w.snapshot.paused, p in w.snapshot.armed, v,
                 SourceAt(cfg, poll, k - 1), OutcomeOf(poll, k - 1)).0
      else v
  }

  predicate CreditedAt(cfg: Config, w: World, poll: Poll, j: nat, p: int)
    requires j < |Signals(poll, cfg.idleThreshold)|
  {
    Credits(EnvOf(cfg, w, poll), w.db.ignored, ViewAt(cfg, w, poll, j, p),
            Signals(poll, cfg.idleThreshold)[j], OutcomeOf(poll, j), p)
  }

  function CreditedRows(cfg: Config, w: World, poll: Poll, k: nat, p: int): set<(int, Signal)>
    requires k <= |Signals(poll, cfg.idleThreshold)|
  {
    set j | 0 <= j < k && CreditedAt(cfg, w, poll, j, p) :: (poll.now, Signals(poll, cfg.idleThreshold)[j])
  }

  lemma CreditedRowsNext(cfg: Config, w: World, poll: Poll, k: nat, p: int)
    requires k < |Signals(poll, cfg.idleThreshold)|
    ensures CreditedRows(cfg, w, poll, k + 1, p) == CreditedRows(cfg, w, poll, k, p)
              + if CreditedAt(cfg, w, poll, k, p) then {(poll.now, Signals(poll, cfg.idleThreshold)[k])} else {}
  {
    hide CreditedAt, Signals;
  }

  /** The world and scratch after `k` signals look to `p` as ViewAt and CreditedRows say; rows the
      table had before are not written again. */
  ghost predicate SeenBy(cfg: Config, w: World, poll: Poll, k: nat, p: int, w': World, sc': Scratch)
    requires k <= |Signals(poll, cfg.idleThreshold)|
  {
    && ViewOf(w', sc', p) == ViewAt(cfg, w, poll, k, p)
    && RowsOf(w'.db, p) == RowsOf(w.db, p) + (CreditedRows(cfg, w, poll, k, p) - w.db.ticks.Keys)
    && w'.db.ignored == w.db.ignored && HonestSince(EnvOf(cfg, w, poll), w.db, w'.db)
  }

  lemma NewRowAccumulates(e: Env, before: Db, now': Db, sig: Signal, credited: bool, p: int, sofar: set<(int, Signal)>)
    requires HonestSince(e, before, now') && RowsOf(now', p) == RowsOf(before, p) + (sofar - before.ticks.Keys)
    requires credited ==> Attributed(sig, e.snap.rules) == Some(p)
    ensures RowsOf(now', p) + NewRow(now', e.now, sig, credited) ==
            RowsOf(before, p) + ((sofar + if credited then {(e.now, sig)} else {}) - before.ticks.Keys)
  {
    if credited && (e.now, sig) in now'.ticks && (e.now, sig) !in before.ticks {
      assert (e.now, sig) in RowsOf(now', p);
    }
  }

  lemma SeenByStep(cfg: Config, w: World, poll: Poll, k: nat, p: int, w': World, sc': Scratch)
    requires k < |Signals(poll, cfg.idleThreshold)|
    requires SeenBy(cfg, w, poll, k, p, w', sc')
    ensures var after := Gate(EnvOf(cfg, w, poll), w', sc', Signals(poll, cfg.idleThreshold)[k], OutcomeOf(poll, k));
            SeenBy(cfg, w, poll, k + 1, p, after.0, after.1)
  {
    var e, sig := EnvOf(cfg, w, poll), Signals(poll, cfg.idleThreshold)[k];
    GateView(e, w', sc', sig, OutcomeOf(poll, k), p);
    GateHonest(e, w', sc', sig, OutcomeOf(poll, k), w.db);
    CreditedRowsNext(cfg, w, poll, k, p);
    NewRowAccumulates(e, w.db, w'.db, sig, CreditedAt(cfg, w, poll, k, p), p, CreditedRows(cfg, w, poll, k, p));
  }

  lemma SeenByNone(cfg: Config, w: World, poll: Poll, p: int)
    ensures SeenBy(cfg, w, poll, 0, p, w, Scratch({}, {}, {}))
  {
    assert CreditedRows(cfg, w, poll, 0, p) == {};
  }

  lemma {:induction false} SignalsSeenBy(cfg: Config, w: World, poll: Poll, k: nat, p: int)
    requires k <= |Signals(poll, cfg.idleThreshold)|
    ensures var after := AfterSignals(cfg, w, poll, k); SeenBy(cfg, w, poll, k, p, after.0, after.1)
  {
    hide SeenBy, Gate;
    SeenByNone(cfg, w, poll, p);
    if k > 0 {
      SignalsSeenBy(cfg, w, poll, k - 1, p);
      var before := AfterSignals(cfg, w, poll, k - 1);
      SeenByStep(cfg, w, poll, k - 1, p, before.0, before.1);
    }
  }

  /** What one whole tick does to `p`. */
  lemma TickSeenBy(cfg: Config, w: World, poll: Poll, p: int)
    ensures var k, w' := |Signals(poll, cfg.idleThreshold)|, Ticked(cfg, w, poll);
            var v := ViewAt(cfg, w, poll, k, p);
            && (p in w'.snapshot.paused <==> v.paused) && (p in w'.db.paused <==> v.dbPaused)
            && (p in w'.snapshot.armed <==> v.armed)
            && Count(w'.suppressed, p) == v.suppressed && Count(w'.streak, p) == v.streak
            && RowsOf(w'.db, p) == RowsOf(w.db, p) + (CreditedRows(cfg, w, poll, k, p) - w.db.ticks.Keys)
  {
    SignalsSeenBy(cfg, w, poll, |Signals(poll, cfg.idleThreshold)|, p);
  }

  lemma StepOpensAndTicks(e: Env, paused0: bool, armed0: bool, v: View, source: Source, out: Outcome)
    ensures var (v', credited) := ViewStep(e, paused0, armed0, v, source, out);
            (v.disarmed ==> v'.disarmed) && (v'.ticked <==> v.ticked || credited)
  {
  }

  lemma TickedNext(cfg: Config, w: World, poll: Poll, k: nat, p: int)
    requires k < |Signals(poll, cfg.idleThreshold)|
    ensures ViewAt(cfg, w, poll, k + 1, p).ticked
            <==> ViewAt(cfg, w, poll, k, p).ticked || CreditedAt(cfg, w, poll, k, p)
  {
    StepOpensAndTicks(EnvOf(cfg, w, poll), p in w.snapshot.paused, p in w.snapshot.armed,
                      ViewAt(cfg, w, poll, k, p), SourceAt(cfg, poll, k), OutcomeOf(poll, k));
  }

  lemma {:induction false} TickedWasCredited(cfg: Config, w: World, poll: Poll, k: nat, p: int)
    requires k <= |Signals(poll, cfg.idleThreshold)|
    ensures ViewAt(cfg, w, poll, k, p).ticked <==> CreditedRows(cfg, w, poll, k, p) != {}
  {
    hide CreditedAt, ViewStep, Signals;
    if k > 0 {
      TickedWasCredited(cfg, w, poll, k - 1, p);
      CreditedRowsNext(cfg, w, poll, k - 1, p);
      TickedNext(cfg, w, poll, k - 1, p);
    }
  }

  /** Every signal of the poll that reaches `p` comes from an allowed source. */
  ghost predicate OnlyFrom(cfg: Config, w: World, poll: Poll, p: int, allowed: set<Source>) {
    forall j :: 0 <= j < |Signals(poll, cfg.idleThreshold)| && ReachesAt(cfg, w, poll, j, p)
                ==> SourceAt(cfg, poll, j) in allowed
  }

  lemma {:induction false} PausedIdleAt(cfg: Config, w: World, poll: Poll, k: nat, p: int)
    requires k <= |Signals(poll, cfg.idleThreshold)|
    requires !UserPresent(poll, cfg.idleThreshold) && OnlyFrom(cfg, w, poll, p, {Agent})
    requires p in w.snapshot.paused
    ensures ViewAt(cfg, w, poll, k, p) == ViewAt(cfg, w, poll, 0, p)
    ensures CreditedRows(cfg, w, poll, k, p) == {}
  {
    if k > 0 {
      PausedIdleAt(cfg, w, poll, k - 1, p);
      CreditedRowsNext(cfg, w, poll, k - 1, p);
    }
  }

  ghost predicate ReachedBy(cfg: Config, w: World, poll: Poll, k: nat, p: int)
    requires k <= |Signals(poll, cfg.idleThreshold)|
  {
    exists j :: 0 <= j < k && ReachesAt(cfg, w, poll, j, p)
  }

  /** An agent signal of this poll would be the N-th counted one. */
  predicate Fires(cfg: Config, w: World, poll: Poll, p: int) {
    UserPresent(poll, cfg.idleThreshold) && cfg.autoDisarm > 0 && Count(w.streak, p) + 1 >= cfg.autoDisarm
  }

  predicate Counting(cfg: Config, poll: Poll) {
    UserPresent(poll, cfg.idleThreshold) && cfg.autoDisarm > 0
  }

  /** Where agent signals alone take an armed project within one tick, given how it started. */
  function ArmedClosed(v0: View, reached: bool, fires: bool, counting: bool, ticked: bool): View {
    if !reached then v0
    else if fires then
      v0.(armed := false, suppressed := 0, streak := 0, disarmed := true, counted := true, ticked := ticked)
    else v0.(counted := true, suppressed := v0.suppressed + 1, streak := v0.streak + if counting then 1 else 0)
  }

  lemma ArmedAgentStep(e: Env, v0: View, reached: bool, ticked: bool, out: Outcome)
    requires v0.armed && !v0.disarmed && !v0.counted && !v0.ticked && (!reached ==> !ticked)
    ensures var counting := e.present && e.n > 0;
            var fires := counting && v0.streak + 1 >= e.n;
            ViewStep(e, false, true, ArmedClosed(v0, reached, fires, counting, ticked), Agent, out)
            == (ArmedClosed(v0, true, fires, counting, ticked || out.insertOk), fires && out.insertOk)
  {
  }

  lemma ReachedByNext(cfg: Config, w: World, poll: Poll, k: nat, p: int)
    requires k < |Signals(poll, cfg.idleThreshold)|
    ensures ReachedBy(cfg, w, poll, k + 1, p) <==> ReachedBy(cfg, w, poll, k, p) || ReachesAt(cfg, w, poll, k, p)
  {
  }

  ghost predicate ArmedForm(cfg: Config, w: World, poll: Poll, k: nat, p: int)
    requires k <= |Signals(poll, cfg.idleThreshold)|
  {
    var v0, v := ViewOf(w, Scratch({}, {}, {}), p), ViewAt(cfg, w, poll, k, p);
    && v == ArmedClosed(v0, ReachedBy(cfg, w, poll, k, p), Fires(cfg, w, poll, p), Counting(cfg, poll), v.ticked)
    && (!ReachedBy(cfg, w, poll, k, p) ==> !v.ticked)
  }

  lemma ArmedFormNext(cfg: Config, w: World, poll: Poll, k: nat, p: int)
    requires k < |Signals(poll, cfg.idleThreshold)|
    requires ReachesAt(cfg, w, poll, k, p) ==> SourceAt(cfg, poll, k) == Agent
    requires p !in w.snapshot.paused && p in w.snapshot.armed && ArmedForm(cfg, w, poll, k, p)
    ensures ArmedForm(cfg, w, poll, k + 1, p)
  {
    var v0, v := ViewOf(w, Scratch({}, {}, {}), p), ViewAt(cfg, w, poll, k, p);
    ReachedByNext(cfg, w, poll, k, p);
    ArmedAgentStep(EnvOf(cfg, w, poll), v0, ReachedBy(cfg, w, poll, k, p), v.ticked, OutcomeOf(poll, k));
  }

  lemma {:induction false} ArmedAgentsAt(cfg: Config, w: World, poll: Poll, k: nat, p: int)
    requires k <= |Signals(poll, cfg.idleThreshold)|
    requires OnlyFrom(cfg, w, poll, p, {Agent})
    requires p !in w.snapshot.paused && p in w.snapshot.armed
    ensures ArmedForm(cfg, w, poll, k, p)
  {
    if k > 0 {
      ArmedAgentsAt(cfg, w, poll, k - 1, p);
      ArmedFormNext(cfg, w, poll, k - 1, p);
    }
  }

  lemma UnfiredCreditsNothing(cfg: Config, w: World, poll: Poll, k: nat, p: int)
    requires k <= |Signals(poll, cfg.idleThreshold)|
    requires OnlyFrom(cfg, w, poll, p, {Agent})
    requires p !in w.snapshot.paused && p in w.snapshot.armed
    requires !Fires(cfg, w, poll, p) || !ReachedBy(cfg, w, poll, k, p)
    ensures CreditedRows(cfg, w, poll, k, p) == {}
  {
    ArmedAgentsAt(cfg, w, poll, k, p);
    TickedWasCredited(cfg, w, poll, k, p);
  }

  /** On the tick that fires, every agent signal that reaches `p` is credited. */
  lemma FiringCredits(cfg: Config, w: World, poll: Poll, j: nat, p: int)
    requires j < |Signals(poll, cfg.idleThreshold)|
    requires OnlyFrom(cfg, w, poll, p, {Agent})
    requires p !in w.snapshot.paused && p in w.snapshot.armed && Fires(cfg, w, poll, p)
    requires ReachesAt(cfg, w, poll, j, p) && OutcomeOf(poll, j).insertOk
    ensures CreditedAt(cfg, w, poll, j, p)
  {
    ArmedAgentsAt(cfg, w, poll, j, p);
    var v0, v := ViewAt(cfg, w, poll, 0, p), ViewAt(cfg, w, poll, j, p);
    ArmedAgentStep(EnvOf(cfg, w, poll), v0, ReachedBy(cfg, w, poll, j, p), v.ticked, OutcomeOf(poll, j));
  }

  // ---------- every credited tick is justified ----------

  lemma StepNeverPauses(e: Env, paused0: bool, armed0: bool, v: View, source: Source, out: Outcome)
    ensures var v' := ViewStep(e, paused0, armed0, v, source, out).0;
            (!v.paused ==> !v'.paused) && (!v.dbPaused ==> !v'.dbPaused) && (!paused0 && !v.armed ==> !v'.armed)
            && (e.n > 0 && v.streak < e.n ==> v'.streak < e.n)
  {
  }

  lemma {:induction false} ResumedStaysResumed(cfg: Config, w: World, poll: Poll, j: nat, k: nat, p: int)
    requires j <= k <= |Signals(poll, cfg.idleThreshold)|
    ensures var a, b := ViewAt(cfg, w, poll, j, p), ViewAt(cfg, w, poll, k, p);
            (!a.paused ==> !b.paused) && (!a.dbPaused ==> !b.dbPaused)
            && (p !in w.snapshot.paused && !a.armed ==> !b.armed)
  {
    if j < k {
      ResumedStaysResumed(cfg, w, poll, j, k - 1, p);
      StepNeverPauses(EnvOf(cfg, w, poll), p in w.snapshot.paused, p in w.snapshot.armed,
                      ViewAt(cfg, w, poll, k - 1, p), SourceAt(cfg, poll, k - 1), OutcomeOf(poll, k - 1));
    }
  }

  lemma GateOpensStep(e: Env, v: View, streak0: nat, source: Source, out: Outcome)
    requires (v.disarmed ==> !v.armed) && (!v.disarmed && !v.counted ==> v.streak == streak0)
    ensures var v' := ViewStep(e, false, true, v, source, out).0;
            && (v'.disarmed ==> !v'.armed) && (!v'.disarmed && !v'.counted ==> v'.streak == streak0)
            && (v'.disarmed && !v.disarmed && source == Agent ==> e.present && e.n > 0 && streak0 + 1 >= e.n)
  {
  }

  /** While `p` is unpaused and was armed: the gate opens only after a focus or transcript
      signal, or on the N-th counted agent tick, and then the project is disarmed. */
  lemma {:induction false} GateOpensForAReason(cfg: Config, w: World, poll: Poll, k: nat, p: int)
    requires k <= |Signals(poll, cfg.idleThreshold)|
    requires p !in w.snapshot.paused && p in w.snapshot.armed
    ensures var v := ViewAt(cfg, w, poll, k, p);
            && (v.disarmed ==> !v.armed)
            && (v.disarmed && !Fires(cfg, w, poll, p) ==>
                  exists i :: 0 <= i < k && ReachesAt(cfg, w, poll, i, p) && SourceAt(cfg, poll, i) != Agent)
            && (!v.disarmed && !v.counted ==> v.streak == Count(w.streak, p))
  {
    if k > 0 {
      GateOpensForAReason(cfg, w, poll, k - 1, p);
      GateOpensStep(EnvOf(cfg, w, poll), ViewAt(cfg, w, poll, k - 1, p), Count(w.streak, p),
                    SourceAt(cfg, poll, k - 1), OutcomeOf(poll, k - 1));
    }
  }

  lemma SignalOrder(cfg: Config, poll: Poll, i: nat, j: nat)
    requires WellSourced(poll) && i < j < |Signals(poll, cfg.idleThreshold)|
    requires SourceAt(cfg, poll, j) == Agent
    ensures SourceAt(cfg, poll, i) != Transcript
  {
  }

  lemma PausedCreditStep(e: Env, armed0: bool, v: View, source: Source, out: Outcome)
    requires ViewStep(e, true, armed0, v, source, out).1
    ensures source == Transcript
    ensures var v' := ViewStep(e, true, armed0, v, source, out).0; !v'.paused && !v'.dbPaused
  {
  }

  lemma PausedCreditIsTranscript(cfg: Config, w: World, poll: Poll, j: nat, p: int)
    requires j < |Signals(poll, cfg.idleThreshold)|
    requires p in w.snapshot.paused && CreditedAt(cfg, w, poll, j, p)
    ensures SourceAt(cfg, poll, j) == Transcript
    ensures var v := ViewAt(cfg, w, poll, |Signals(poll, cfg.idleThreshold)|, p); !v.paused && !v.dbPaused
  {
    PausedCreditStep(EnvOf(cfg, w, poll), p in w.snapshot.armed, ViewAt(cfg, w, poll, j, p), SourceAt(cfg, poll, j),
                     OutcomeOf(poll, j));
    ResumedStaysResumed(cfg, w, poll, j + 1, |Signals(poll, cfg.idleThreshold)|, p);
  }

  lemma CreditOpensGate(e: Env, v: View, source: Source, out: Outcome)
    requires ViewStep(e, false, true, v, source, out).1
    ensures ViewStep(e, false, true, v, source, out).0.disarmed
  {
  }

  lemma ArmedCreditDisarms(cfg: Config, w: World, poll: Poll, j: nat, p: int)
    requires j < |Signals(poll, cfg.idleThreshold)|
    requires p !in w.snapshot.paused && p in w.snapshot.armed && CreditedAt(cfg, w, poll, j, p)
    ensures ViewAt(cfg, w, poll, j + 1, p).disarmed
    ensures !ViewAt(cfg, w, poll, |Signals(poll, cfg.idleThreshold)|, p).armed
  {
    CreditOpensGate(EnvOf(cfg, w, poll), ViewAt(cfg, w, poll, j, p), SourceAt(cfg, poll, j), OutcomeOf(poll, j));
    GateOpensForAReason(cfg, w, poll, j + 1, p);
    ResumedStaysResumed(cfg, w, poll, j + 1, |Signals(poll, cfg.idleThreshold)|, p);
  }

  /** A focus signal among the first `k` signals reached `p`. */
  ghost predicate FocusedBy(cfg: Config, w: World, poll: Poll, k: nat, p: int)
    requires k <= |Signals(poll, cfg.idleThreshold)|
  {
    exists i :: 0 <= i < k && ReachesAt(cfg, w, poll, i, p) && SourceAt(cfg, poll, i) == Focus
  }

  /** Among the signals before an agent signal the only other source is focus. */
  lemma EarlierIsFocus(cfg: Config, w: World, poll: Poll, j: nat, p: int)
    requires WellSourced(poll) && j < |Signals(poll, cfg.idleThreshold)|
    requires SourceAt(cfg, poll, j) == Agent
    requires exists i :: 0 <= i < j + 1 && ReachesAt(cfg, w, poll, i, p) && SourceAt(cfg, poll, i) != Agent
    ensures FocusedBy(cfg, w, poll, j, p)
  {
    var i :| 0 <= i < j + 1 && ReachesAt(cfg, w, poll, i, p) && SourceAt(cfg, poll, i) != Agent;
    SignalOrder(cfg, poll, i, j);
  }

  lemma AgentCreditNeedsFocus(cfg: Config, w: World, poll: Poll, j: nat, p: int)
    requires WellSourced(poll) && j < |Signals(poll, cfg.idleThreshold)|
    requires p !in w.snapshot.paused && p in w.snapshot.armed && CreditedAt(cfg, w, poll, j, p)
    requires SourceAt(cfg, poll, j) == Agent && !Fires(cfg, w, poll, p)
    ensures FocusedBy(cfg, w, poll, j, p)
  {
    ArmedCreditDisarms(cfg, w, poll, j, p);
    GateOpensForAReason(cfg, w, poll, j + 1, p);
    EarlierIsFocus(cfg, w, poll, j, p);
  }

  /** Every new tick row of `p` is this poll's, from a signal that earned it: for a project
      paused at the start only a transcript, and the project ends unpaused; for an armed one
      an agent signal only after a focus signal or as the N-th counted agent tick, and the
      project ends disarmed. */
  lemma CreditIsJustified(cfg: Config, w: World, poll: Poll, p: int, row: (int, Signal)) returns (j: nat)
    requires WellSourced(poll)
    requires var w' := Ticked(cfg, w, poll); row in RowsOf(w'.db, p) - RowsOf(w.db, p)
    ensures j < |Signals(poll, cfg.idleThreshold)| && row == (poll.now, Signals(poll, cfg.idleThreshold)[j])
    ensures row.1 !in w.db.ignored && Attributed(row.1, w.snapshot.rules) == Some(p)
    ensures var w' := Ticked(cfg, w, poll);
            && (p in w.snapshot.paused ==>
                  row.1.source == Transcript && p !in w'.snapshot.paused && p !in w'.db.paused)
            && (p !in w.snapshot.paused && p in w.snapshot.armed ==> p !in w'.snapshot.armed)
            && (p !in w.snapshot.paused && p in w.snapshot.armed && row.1.source == Agent ==>
                  Fires(cfg, w, poll, p) || FocusedBy(cfg, w, poll, j, p))
  {
    TickSeenBy(cfg, w, poll, p);
    j :| j < |Signals(poll, cfg.idleThreshold)| && CreditedAt(cfg, w, poll, j, p)
         && row == (poll.now, Signals(poll, cfg.idleThreshold)[j]);
    if p in w.snapshot.paused {
      PausedCreditIsTranscript(cfg, w, poll, j, p);
    } else if p in w.snapshot.armed {
      ArmedCreditDisarms(cfg, w, poll, j, p);
      if row.1.source == Agent && !Fires(cfg, w, poll, p) { AgentCreditNeedsFocus(cfg, w, poll, j, p); }
    }
  }

  // ---------- what does bring a project back ----------

  ghost predicate ResumedBy(cfg: Config, w: World, poll: Poll, k: nat, p: int)
    requires k <= |Signals(poll, cfg.idleThreshold)|
  {
    exists j :: 0 <= j < k && ReachesAt(cfg, w, poll, j, p) && OutcomeOf(poll, j).resumeOk
  }

  /** Where agent signals alone take a paused project within one tick, the user being present. */
  function ResumedArmed(v0: View, resumed: bool): View {
    if !resumed then v0
    else v0.(paused := false, dbPaused := false, armed := true, streak := 0,
             suppressed := if v0.armed then v0.suppressed else 0)
  }

  lemma PausedAgentStep(e: Env, armed0: bool, v0: View, resumed: bool, out: Outcome)
    requires e.present
    ensures ViewStep(e, true, armed0, ResumedArmed(v0, resumed), Agent, out)
            == (ResumedArmed(v0, resumed || out.resumeOk), false)
  {
  }

  lemma ResumedByNext(cfg: Config, w: World, poll: Poll, k: nat, p: int)
    requires k < |Signals(poll, cfg.idleThreshold)|
    ensures ResumedBy(cfg, w, poll, k + 1, p) <==>
            ResumedBy(cfg, w, poll, k, p) || (ReachesAt(cfg, w, poll, k, p) && OutcomeOf(poll, k).resumeOk)
  {
  }

  lemma {:induction false} PausedAgentsAt(cfg: Config, w: World, poll: Poll, k: nat, p: int)
    requires k <= |Signals(poll, cfg.idleThreshold)|
    requires UserPresent(poll, cfg.idleThreshold) && OnlyFrom(cfg, w, poll, p, {Agent})
    requires p in w.snapshot.paused
    ensures ViewAt(cfg, w, poll, k, p) == ResumedArmed(ViewAt(cfg, w, poll, 0, p), ResumedBy(cfg, w, poll, k, p))
  {
    if k > 0 {
      PausedAgentsAt(cfg, w, poll, k - 1, p);
      ResumedByNext(cfg, w, poll, k - 1, p);
      PausedAgentStep(EnvOf(cfg, w, poll), p in w.snapshot.armed, ViewAt(cfg, w, poll, 0, p),
                      ResumedBy(cfg, w, poll, k - 1, p), OutcomeOf(poll, k - 1));
    }
  }

  /** Agent work with the user present resumes a paused project, in cache and table, and arms
      it; the tick itself is not credited. */
  lemma PresentAgentResumesAndArms(cfg: Config, w: World, poll: Poll, p: int)
    requires UserPresent(poll, cfg.idleThreshold) && OnlyFrom(cfg, w, poll, p, {Agent})
    requires p in w.snapshot.paused && ResumedBy(cfg, w, poll, |Signals(poll, cfg.idleThreshold)|, p)
    ensures var w' := Ticked(cfg, w, poll);
            && p !in w'.snapshot.paused && p !in w'.db.paused && p in w'.snapshot.armed
            && Count(w'.streak, p) == 0 && RowsOf(w'.db, p) == RowsOf(w.db, p)
  {
    TickSeenBy(cfg, w, poll, p);
    PausedAgentsAt(cfg, w, poll, |Signals(poll, cfg.idleThreshold)|, p);
    TickedWasCredited(cfg, w, poll, |Signals(poll, cfg.idleThreshold)|, p);
  }

  /** Once the gate is open it stays open. */
  lemma {:induction false} OpenStaysOpen(cfg: Config, w: World, poll: Poll, j: nat, k: nat, p: int)
    requires j <= k <= |Signals(poll, cfg.idleThreshold)|
    ensures ViewAt(cfg, w, poll, j, p).disarmed ==> ViewAt(cfg, w, poll, k, p).disarmed
  {
    if j < k {
      OpenStaysOpen(cfg, w, poll, j, k - 1, p);
      StepOpensAndTicks(EnvOf(cfg, w, poll), p in w.snapshot.paused, p in w.snapshot.armed,
                        ViewAt(cfg, w, poll, k - 1, p), SourceAt(cfg, poll, k - 1), OutcomeOf(poll, k - 1));
    }
  }

  lemma TranscriptStep(e: Env, armed0: bool, v: View, out: Outcome)
    requires out.resumeOk && out.insertOk
    ensures var v' := ViewStep(e, true, armed0, v, Transcript, out).0; !v'.paused && !v'.dbPaused && v'.ticked
  {
  }

  /** A transcript signal resumes a paused project, in cache and table, and the second counts
      at once, unless the table has a row for it. */
  lemma TranscriptResumesAndCounts(cfg: Config, w: World, poll: Poll, j: nat, p: int)
    requires j < |Signals(poll, cfg.idleThreshold)| && p in w.snapshot.paused
    requires ReachesAt(cfg, w, poll, j, p) && SourceAt(cfg, poll, j) == Transcript
    requires OutcomeOf(poll, j).resumeOk && OutcomeOf(poll, j).insertOk
    ensures var w' := Ticked(cfg, w, poll);
            && p !in w'.snapshot.paused && p !in w'.db.paused
            && exists sig :: (poll.now, sig) in RowsOf(w'.db, p) || (poll.now, sig) in w.db.ticks
  {
    var k := |Signals(poll, cfg.idleThreshold)|;
    TickSeenBy(cfg, w, poll, p);
    ResumedStaysResumed(cfg, w, poll, j + 1, k, p);
    TranscriptStep(EnvOf(cfg, w, poll), p in w.snapshot.armed, ViewAt(cfg, w, poll, j, p), OutcomeOf(poll, j));
    TickedWasCredited(cfg, w, poll, j + 1, p);
    var row :| row in CreditedRows(cfg, w, poll, j + 1, p);
    assert row in CreditedRows(cfg, w, poll, k, p) && row == (poll.now, row.1);
  }

  lemma OpenStep(e: Env, v: View, source: Source, out: Outcome)
    requires source == Focus || (source == Agent && v.disarmed)
    ensures var (v', credited) := ViewStep(e, false, true, v, source, out);
            v'.disarmed && (source == Focus ==> !v'.armed) && (out.insertOk ==> credited)
  {
  }

  lemma OpenGateCredits(cfg: Config, w: World, poll: Poll, j: nat, p: int)
    requires j < |Signals(poll, cfg.idleThreshold)| && p !in w.snapshot.paused && p in w.snapshot.armed
    requires ReachesAt(cfg, w, poll, j, p) && SourceAt(cfg, poll, j) != Transcript
    requires SourceAt(cfg, poll, j) == Focus || ViewAt(cfg, w, poll, j, p).disarmed
    ensures OutcomeOf(poll, j).insertOk ==> CreditedAt(cfg, w, poll, j, p)
    ensures ViewAt(cfg, w, poll, j + 1, p).disarmed
    ensures SourceAt(cfg, poll, j) == Focus ==> !ViewAt(cfg, w, poll, j + 1, p).armed
  {
    OpenStep(EnvOf(cfg, w, poll), ViewAt(cfg, w, poll, j, p), SourceAt(cfg, poll, j), OutcomeOf(poll, j));
  }

  lemma FocusCredits(cfg: Config, w: World, poll: Poll, i: nat, j: nat, p: int)
    requires i <= j < |Signals(poll, cfg.idleThreshold)|
    requires p !in w.snapshot.paused && p in w.snapshot.armed
    requires ReachesAt(cfg, w, poll, i, p) && SourceAt(cfg, poll, i) == Focus
    requires ReachesAt(cfg, w, poll, j, p) && SourceAt(cfg, poll, j) != Transcript && OutcomeOf(poll, j).insertOk
    ensures CreditedAt(cfg, w, poll, j, p)
  {
    hide *;
    OpenGateCredits(cfg, w, poll, i, p);
    if i < j {
      OpenStaysOpen(cfg, w, poll, i + 1, j, p);
      OpenGateCredits(cfg, w, poll, j, p);
    }
  }

  /** A focus signal opens an armed project's gate: it is credited itself, so is every agent
      signal after it in the same tick, and the project ends disarmed. */
  lemma FocusOpensGate(cfg: Config, w: World, poll: Poll, i: nat, j: nat, p: int)
    requires i <= j < |Signals(poll, cfg.idleThreshold)|
    requires p !in w.snapshot.paused && p in w.snapshot.armed
    requires ReachesAt(cfg, w, poll, i, p) && SourceAt(cfg, poll, i) == Focus
    requires ReachesAt(cfg, w, poll, j, p) && SourceAt(cfg, poll, j) != Transcript && OutcomeOf(poll, j).insertOk
    ensures var w' := Ticked(cfg, w, poll);
            && p !in w'.snapshot.armed
            && (poll.now, Signals(poll, cfg.idleThreshold)[j]) in RowsOf(w'.db, p) + w.db.ticks.Keys
  {
    hide CreditedAt, ReachesAt, ViewAt, Signals, Ticked;
    FocusCredits(cfg, w, poll, i, j, p);
    OpenGateCredits(cfg, w, poll, i, p);
    ResumedStaysResumed(cfg, w, poll, i + 1, |Signals(poll, cfg.idleThreshold)|, p);
    TickSeenBy(cfg, w, poll, p);
  }
}
