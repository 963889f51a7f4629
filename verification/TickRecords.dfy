/** What one whole poll leaves in the tables: every row, with a project or without. */
module TickRecords {
  import opened Options
  import opened Rules
  import opened SnapshotCache
  import opened Pipeline
  import opened PipelineRuns

  // ---------- which signals there are ----------

  /** The poll's signals: the focused window while the user is present, then every agent signal,
      then every transcript signal. */
  lemma SignalsAre(cfg: Config, poll: Poll)
    ensures var sigs := Signals(poll, cfg.idleThreshold);
            var f := if poll.focus.Some? && (poll.idle.None? || poll.idle.value < cfg.idleThreshold) then 1 else 0;
            && |sigs| == f + |poll.agents| + |poll.transcripts|
            && (f == 1 ==> sigs[0] == poll.focus.value)
            && (forall i :: 0 <= i < |poll.agents| ==> sigs[f + i] == poll.agents[i])
            && (forall i :: 0 <= i < |poll.transcripts| ==> sigs[f + |poll.agents| + i] == poll.transcripts[i])
  {
    var focus := if UserPresent(poll, cfg.idleThreshold) && poll.focus.Some? then [poll.focus.value] else [];
    assert Signals(poll, cfg.idleThreshold) == focus + poll.agents + poll.transcripts;
    hide Signals;
    InTurn(focus, poll.agents, poll.transcripts);
  }

  lemma InTurn(a: seq<Signal>, b: seq<Signal>, c: seq<Signal>)
    ensures var all := a + b + c;
            && |all| == |a| + |b| + |c|
            && (forall i :: 0 <= i < |a| ==> all[i] == a[i])
            && (forall i :: 0 <= i < |b| ==> all[|a| + i] == b[i])
            && (forall i :: 0 <= i < |c| ==> all[|a| + |b| + i] == c[i])
  {
  }

  // ---------- which rows they leave ----------

  /** The signal is stored and not ignored, and its row is wanted: it has no project, or is credited. */
  predicate LandsAt(cfg: Config, w: World, poll: Poll, j: nat)
    requires j < |Signals(poll, cfg.idleThreshold)|
  {
    var sig, out := Signals(poll, cfg.idleThreshold)[j], OutcomeOf(poll, j);
    match Attributed(sig, w.snapshot.rules)
    case None => out.upsertOk && out.lookupOk && sig !in w.db.ignored && out.insertOk
    case Some(p) => CreditedAt(cfg, w, poll, j, p)
  }

  function Landed(cfg: Config, w: World, poll: Poll, k: nat): set<(int, Signal)>
    requires k <= |Signals(poll, cfg.idleThreshold)|
  {
    set j | 0 <= j < k && LandsAt(cfg, w, poll, j) :: (poll.now, Signals(poll, cfg.idleThreshold)[j])
  }

  function Observed(cfg: Config, poll: Poll, k: nat): set<Signal>
    requires k <= |Signals(poll, cfg.idleThreshold)|
  {
    set j | 0 <= j < k && OutcomeOf(poll, j).upsertOk :: Signals(poll, cfg.idleThreshold)[j]
  }

  lemma GateStores(e: Env, w: World, sc: Scratch, sig: Signal, out: Outcome)
    ensures Gate(e, w, sc, sig, out).0.db.observations == w.db.observations + if out.upsertOk then {sig} else {}
  {
    var seen := w.(db := w.db.(observations := w.db.observations + {sig}));
    match Attributed(sig, e.snap.rules)
    case None =>
    case Some(q) => GateProjectFrame(e, seen, sc, sig, q, out);
  }

  lemma UntaggedGate(e: Env, w: World, sc: Scratch, sig: Signal, out: Outcome)
    requires Attributed(sig, e.snap.rules) == None
    ensures Gate(e, w, sc, sig, out).0.db.ticks.Keys == w.db.ticks.Keys +
              if out.upsertOk && out.lookupOk && sig !in w.db.ignored && out.insertOk then {(e.now, sig)} else {}
  {
  }

  lemma GateAddsOne(e: Env, w: World, sc: Scratch, sig: Signal, out: Outcome)
    ensures var db := Gate(e, w, sc, sig, out).0.db;
            db.ticks == w.db.ticks || db.ticks == InsertTick(w.db, e.now, sig, Attributed(sig, e.snap.rules)).ticks
  {
    var seen := w.(db := w.db.(observations := w.db.observations + {sig}));
    match Attributed(sig, e.snap.rules)
    case None =>
    case Some(q) => GateProjectFrame(e, seen, sc, sig, q, out);
  }

  lemma ProjectGate(e: Env, w: World, sc: Scratch, sig: Signal, out: Outcome, p: int)
    requires Attributed(sig, e.snap.rules) == Some(p)
    ensures Gate(e, w, sc, sig, out).0.db.ticks.Keys == w.db.ticks.Keys +
              if Credits(e, w.db.ignored, ViewOf(w, sc, p), sig, out, p) then {(e.now, sig)} else {}
  {
    GateView(e, w, sc, sig, out, p);
    GateAddsOne(e, w, sc, sig, out);
    hide Gate, Credits, Attributed;
    var after := Gate(e, w, sc, sig, out).0.db;
    assert (e.now, sig) in RowsOf(after, p) <==> (e.now, sig) in after.ticks && after.ticks[(e.now, sig)] == Some(p);
    assert (e.now, sig) in RowsOf(w.db, p) ==> (e.now, sig) in w.db.ticks;
  }

  lemma LandedNext(cfg: Config, w: World, poll: Poll, k: nat)
    requires k < |Signals(poll, cfg.idleThreshold)|
    ensures Landed(cfg, w, poll, k + 1) == Landed(cfg, w, poll, k)
              + if LandsAt(cfg, w, poll, k) then {(poll.now, Signals(poll, cfg.idleThreshold)[k])} else {}
    ensures Observed(cfg, poll, k + 1) == Observed(cfg, poll, k)
              + if OutcomeOf(poll, k).upsertOk then {Signals(poll, cfg.idleThreshold)[k]} else {}
  {
    hide LandsAt, Signals, OutcomeOf;
  }

  /** The tables after `k` signals. */
  predicate Recorded(cfg: Config, w: World, poll: Poll, k: nat, db: Db)
    requires k <= |Signals(poll, cfg.idleThreshold)|
  {
    && db.ticks.Keys == w.db.ticks.Keys + Landed(cfg, w, poll, k)
    && db.observations == w.db.observations + Observed(cfg, poll, k)
  }

  lemma GateRecords(cfg: Config, w: World, poll: Poll, k: nat, x: World, sc: Scratch)
    requires k < |Signals(poll, cfg.idleThreshold)|
    requires x.db.ignored == w.db.ignored && forall p :: ViewOf(x, sc, p) == ViewAt(cfg, w, poll, k, p)
    ensures var sig := Signals(poll, cfg.idleThreshold)[k];
            Gate(EnvOf(cfg, w, poll), x, sc, sig, OutcomeOf(poll, k)).0.db.ticks.Keys ==
            x.db.ticks.Keys + if LandsAt(cfg, w, poll, k) then {(poll.now, sig)} else {}
  {
    var e, sig, out := EnvOf(cfg, w, poll), Signals(poll, cfg.idleThreshold)[k], OutcomeOf(poll, k);
    hide Gate, ViewAt, Signals, Attributed;
    match Attributed(sig, w.snapshot.rules)
    case None => UntaggedGate(e, x, sc, sig, out);
    case Some(p) => ProjectGate(e, x, sc, sig, out, p);
  }

  lemma RecordedNext(cfg: Config, w: World, poll: Poll, k: nat)
    requires k < |Signals(poll, cfg.idleThreshold)|
    requires Recorded(cfg, w, poll, k, AfterSignals(cfg, w, poll, k).0.db)
    ensures Recorded(cfg, w, poll, k + 1, AfterSignals(cfg, w, poll, k + 1).0.db)
  {
    hide Gate, ViewAt, LandsAt, Landed, Observed, Signals, OutcomeOf, EnvOf;
    var (x, sc) := AfterSignals(cfg, w, poll, k);
    forall p ensures x.db.ignored == w.db.ignored && ViewOf(x, sc, p) == ViewAt(cfg, w, poll, k, p) {
      SignalsSeenBy(cfg, w, poll, k, p);
    }
    assert x.db.ignored == w.db.ignored by { SignalsSeenBy(cfg, w, poll, k, 0); }
    GateStores(EnvOf(cfg, w, poll), x, sc, Signals(poll, cfg.idleThreshold)[k], OutcomeOf(poll, k));
    GateRecords(cfg, w, poll, k, x, sc);
    LandedNext(cfg, w, poll, k);
  }

  lemma NothingRecorded(cfg: Config, w: World, poll: Poll)
    ensures Recorded(cfg, w, poll, 0, w.db)
  {
    assert Landed(cfg, w, poll, 0) == {} && Observed(cfg, poll, 0) == {};
  }

  lemma {:induction false} SignalsRecorded(cfg: Config, w: World, poll: Poll, k: nat)
    requires k <= |Signals(poll, cfg.idleThreshold)|
    ensures Recorded(cfg, w, poll, k, AfterSignals(cfg, w, poll, k).0.db)
  {
    hide Recorded, Gate, Signals;
    NothingRecorded(cfg, w, poll);
    if k > 0 {
      SignalsRecorded(cfg, w, poll, k - 1);
      RecordedNext(cfg, w, poll, k - 1);
    }
  }

  /** The tables after a poll: old rows as they were, one new row for every signal that lands and no
      other, with the project its signal is attributed to or none; and every stored observation. */
  lemma TickTable(cfg: Config, w: World, poll: Poll)
    ensures var k, db := |Signals(poll, cfg.idleThreshold)|, Ticked(cfg, w, poll).db;
            && db.ticks.Keys == w.db.ticks.Keys + Landed(cfg, w, poll, k)
            && (forall row :: row in w.db.ticks ==> db.ticks[row] == w.db.ticks[row])
            && (forall row :: row in db.ticks && row !in w.db.ticks ==>
                  row.0 == poll.now && db.ticks[row] == Attributed(row.1, w.snapshot.rules))
            && db.observations == w.db.observations + Observed(cfg, poll, k) && db.ignored == w.db.ignored
  {
    var k := |Signals(poll, cfg.idleThreshold)|;
    SignalsRecorded(cfg, w, poll, k);
    SignalsSeenBy(cfg, w, poll, k, 0);
    hide LandsAt, Signals, AfterSignals, Recorded;
    assert Recorded(cfg, w, poll, k, Ticked(cfg, w, poll).db);
    assert forall row :: row in Landed(cfg, w, poll, k) ==> row.0 == poll.now;
  }

  /** Work that no rule matches is kept: its observation is stored and its row is in the table, with no
      project if the poll put it there. */
  lemma UntaggedWorkIsKept(cfg: Config, w: World, poll: Poll, j: nat)
    requires j < |Signals(poll, cfg.idleThreshold)|
    requires var out := OutcomeOf(poll, j); out.upsertOk && out.lookupOk && out.insertOk
    requires var sig := Signals(poll, cfg.idleThreshold)[j];
             sig !in w.db.ignored && forall r :: r in w.snapshot.rules ==> !MatchOne(sig, r)
    ensures var sig, db := Signals(poll, cfg.idleThreshold)[j], Ticked(cfg, w, poll).db;
            && sig in db.observations && (poll.now, sig) in db.ticks
            && ((poll.now, sig) !in w.db.ticks ==> db.ticks[(poll.now, sig)] == None)
  {
    var sig, k := Signals(poll, cfg.idleThreshold)[j], |Signals(poll, cfg.idleThreshold)|;
    WinnerIsLeast(sig, w.snapshot.rules);
    TickTable(cfg, w, poll);
    assert LandsAt(cfg, w, poll, j);
    hide LandsAt, Signals, Ticked;
    assert (poll.now, sig) in Landed(cfg, w, poll, k) && sig in Observed(cfg, poll, k);
  }

  /** So nothing is lost for good: a rule made later sweeps it into its project. */
  lemma UntaggedWorkIsSwept(cfg: Config, w: World, poll: Poll, j: nat, r: Rule, taggedSpace: string)
    requires j < |Signals(poll, cfg.idleThreshold)|
    requires var out := OutcomeOf(poll, j); out.upsertOk && out.lookupOk && out.insertOk
    requires var sig := Signals(poll, cfg.idleThreshold)[j];
             && sig !in w.db.ignored && (forall q :: q in w.snapshot.rules ==> !MatchOne(sig, q))
             && (poll.now, sig) !in w.db.ticks && SweepSelects(r, taggedSpace, sig)
    ensures var sig, swept := Signals(poll, cfg.idleThreshold)[j],
                              Sweep(Ticked(cfg, w, poll).db.ticks, r, taggedSpace, r.project);
            (poll.now, sig) in swept && swept[(poll.now, sig)] == Some(r.project)
  {
    UntaggedWorkIsKept(cfg, w, poll, j);
    hide Signals, Ticked, SweepSelects;
  }

  /** A project that is neither paused nor armed when the tick begins gets every focus and agent signal
      that reaches it, and of the transcript signals the first if nothing was credited before. */
  lemma OpenProjectIsCredited(cfg: Config, w: World, poll: Poll, j: nat, p: int)
    requires j < |Signals(poll, cfg.idleThreshold)| && p !in w.snapshot.paused && p !in w.snapshot.armed
    ensures CreditedAt(cfg, w, poll, j, p) <==>
            ReachesAt(cfg, w, poll, j, p) && OutcomeOf(poll, j).insertOk
            && (SourceAt(cfg, poll, j) == Transcript ==> CreditedRows(cfg, w, poll, j, p) == {})
    ensures CreditedAt(cfg, w, poll, j, p) ==>
              (poll.now, Signals(poll, cfg.idleThreshold)[j]) in RowsOf(Ticked(cfg, w, poll).db, p) + w.db.ticks.Keys
  {
    TickedWasCredited(cfg, w, poll, j, p);
    TickSeenBy(cfg, w, poll, p);
    OpenCredits(EnvOf(cfg, w, poll), ViewAt(cfg, w, poll, j, p), SourceAt(cfg, poll, j), OutcomeOf(poll, j));
    hide ViewAt, ViewStep, Signals, Ticked, RowsOf;
  }

  lemma OpenCredits(e: Env, v: View, source: Source, out: Outcome)
    ensures ViewStep(e, false, false, v, source, out).1 <==> out.insertOk && (source == Transcript ==> !v.ticked)
  {
  }
}
