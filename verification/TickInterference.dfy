/** Handlers that run while a tick is under way: what they can change about it, and what it leaves
    of what they did. */
module TickInterference {
  import opened Options
  import opened Rules
  import opened SnapshotCache
  import opened Pipeline
  import opened PipelineRuns

  /** A handler's cache operation, or its write of a project's paused column. */
  datatype Act = Cached(op: Op) | Stored(id: int, paused: bool)

  function Acted(w: World, act: Act): World {
    match act
    case Cached(op) => WithCache(w, op)
    case Stored(id, paused) =>
      w.(db := w.db.(paused := if paused then w.db.paused + {id} else w.db.paused - {id}))
  }

  function AllActed(w: World, acts: seq<Act>): World {
    if acts == [] then w else Acted(AllActed(w, acts[..|acts| - 1]), acts[|acts| - 1])
  }

  /** The tick's first `k` signals, with the handlers' acts `acts(i)` landing right before signal `i`. */
  function AfterDisturbed(cfg: Config, w: World, poll: Poll, acts: nat -> seq<Act>, k: nat): (World, Scratch)
    requires k <= |Signals(poll, cfg.idleThreshold)|
  {
    if k == 0 then (w, Scratch({}, {}, {}))
    else
      var (w', sc) := AfterDisturbed(cfg, w, poll, acts, k - 1);
      Gate(EnvOf(cfg, w, poll), AllActed(w', acts(k - 1)), sc, Signals(poll, cfg.idleThreshold)[k - 1],
           OutcomeOf(poll, k - 1))
  }

  /** The world right before signal `k` is gated. */
  function Before(cfg: Config, w: World, poll: Poll, acts: nat -> seq<Act>, k: nat): World
    requires k <= |Signals(poll, cfg.idleThreshold)|
  {
    AllActed(AfterDisturbed(cfg, w, poll, acts, k).0, acts(k))
  }

  // ---------- what they cannot change ----------

  /** What no handler writes: streaks, observations, ignored observations and ticks. */
  predicate SameOwn(a: World, b: World) {
    a.streak == b.streak && a.db.(paused := b.db.paused) == b.db
  }

  lemma {:induction false} ActsKeepOwn(w: World, acts: seq<Act>)
    ensures SameOwn(AllActed(w, acts), w)
  {
    if acts != [] { ActsKeepOwn(w, acts[..|acts| - 1]); }
  }

  lemma ArmedGateKeepsOwn(e: Env, a: World, b: World, sc: Scratch, sig: Signal, p: int, out: Outcome)
    requires SameOwn(a, b)
    ensures var (x, sx), (y, sy) := ArmedGate(e, a, sc, sig, p, out), ArmedGate(e, b, sc, sig, p, out);
            SameOwn(x, y) && sx == sy
  {
  }

  lemma GateProjectKeepsOwn(e: Env, a: World, b: World, sc: Scratch, sig: Signal, p: int, out: Outcome)
    requires SameOwn(a, b)
    ensures var (x, sx), (y, sy) := GateProject(e, a, sc, sig, p, out), GateProject(e, b, sc, sig, p, out);
            SameOwn(x, y) && sx == sy
  {
    var a1, b1 := if sig.source == Agent then a else Disarmed(a, p), if sig.source == Agent then b else Disarmed(b, p);
    ArmedGateKeepsOwn(e, a1, b1, if sig.source == Agent then sc else sc.(disarmed := sc.disarmed + {p}), sig, p, out);
  }

  lemma GateKeepsOwn(e: Env, a: World, b: World, sc: Scratch, sig: Signal, out: Outcome)
    requires SameOwn(a, b)
    ensures var (x, sx), (y, sy) := Gate(e, a, sc, sig, out), Gate(e, b, sc, sig, out); SameOwn(x, y) && sx == sy
  {
    var observed := a.db.observations + {sig};
    match Attributed(sig, e.snap.rules)
    case None =>
    case Some(p) =>
      GateProjectKeepsOwn(e, a.(db := a.db.(observations := observed)), b.(db := b.db.(observations := observed)),
                          sc, sig, p, out);
  }

  /** Whatever handlers do to cache and paused column while it runs, a tick credits the same rows,
      counts the same streaks and stores the same observations as if they had kept still. */
  lemma {:induction false} HandlersChangeNoCredit(cfg: Config, w: World, poll: Poll, acts: nat -> seq<Act>, k: nat)
    requires k <= |Signals(poll, cfg.idleThreshold)|
    ensures var (x, sx), (y, sy) := AfterDisturbed(cfg, w, poll, acts, k), AfterSignals(cfg, w, poll, k);
            SameOwn(x, y) && sx == sy
  {
    hide Gate, Signals;
    if k > 0 {
      var before := AfterDisturbed(cfg, w, poll, acts, k - 1);
      HandlersChangeNoCredit(cfg, w, poll, acts, k - 1);
      ActsKeepOwn(before.0, acts(k - 1));
      GateKeepsOwn(EnvOf(cfg, w, poll), AllActed(before.0, acts(k - 1)), AfterSignals(cfg, w, poll, k - 1).0,
                   before.1, Signals(poll, cfg.idleThreshold)[k - 1], OutcomeOf(poll, k - 1));
    }
  }

  // ---------- what it leaves of what they did ----------

  /** The signal clears the project's pause. */
  predicate Resumes(e: Env, paused0: bool, source: Source, out: Outcome) {
    paused0 && source != Focus && out.resumeOk && (source == Agent ==> e.present)
  }

  /** What the signal says about the project being armed, if anything. */
  function ArmWord(e: Env, paused0: bool, armed0: bool, v: View, source: Source, out: Outcome): Option<bool> {
    if source != Agent then Some(false)
    else if paused0 then if Resumes(e, paused0, source, out) then Some(true) else None
    else if armed0 && !v.disarmed && !v.counted && e.present && e.n > 0 && v.streak + 1 >= e.n then Some(false)
    else None
  }

  lemma PausedStepResumes(e: Env, armed0: bool, v: View, source: Source, out: Outcome)
    ensures var v', resumed := ViewStep(e, true, armed0, v, source, out).0, Resumes(e, true, source, out);
            v'.paused == (v.paused && !resumed) && v'.dbPaused == (v.dbPaused && !resumed)
  {
  }

  lemma PausedStepArms(e: Env, armed0: bool, v: View, source: Source, out: Outcome)
    ensures ViewStep(e, true, armed0, v, source, out).0.armed
            == match ArmWord(e, true, armed0, v, source, out) case Some(b) => b case None => v.armed
  {
  }

  lemma OpenStepKeepsPauses(e: Env, armed0: bool, v: View, source: Source, out: Outcome)
    ensures var v' := ViewStep(e, false, armed0, v, source, out).0; v'.paused == v.paused && v'.dbPaused == v.dbPaused
  {
  }

  lemma OpenStepArms(e: Env, armed0: bool, v: View, source: Source, out: Outcome)
    ensures ViewStep(e, false, armed0, v, source, out).0.armed
            == match ArmWord(e, false, armed0, v, source, out) case Some(b) => b case None => v.armed
  {
  }

  lemma StepSays(e: Env, paused0: bool, armed0: bool, v: View, source: Source, out: Outcome)
    ensures var v', resumed := ViewStep(e, paused0, armed0, v, source, out).0, Resumes(e, paused0, source, out);
            && v'.paused == (v.paused && !resumed) && v'.dbPaused == (v.dbPaused && !resumed)
            && v'.armed == match ArmWord(e, paused0, armed0, v, source, out) case Some(b) => b case None => v.armed
  {
    hide ViewStep, ArmWord;
    if paused0 {
      PausedStepResumes(e, armed0, v, source, out);
      PausedStepArms(e, armed0, v, source, out);
    } else {
      OpenStepKeepsPauses(e, armed0, v, source, out);
      OpenStepArms(e, armed0, v, source, out);
    }
  }

  predicate ResumesAt(cfg: Config, w: World, poll: Poll, j: nat, p: int)
    requires j < |Signals(poll, cfg.idleThreshold)|
  {
    ReachesAt(cfg, w, poll, j, p)
    && Resumes(EnvOf(cfg, w, poll), p in w.snapshot.paused, SourceAt(cfg, poll, j), OutcomeOf(poll, j))
  }

  /** What signal `j` says about `p` being armed, read off the undisturbed tick. */
  function ArmWordAt(cfg: Config, w: World, poll: Poll, j: nat, p: int): Option<bool>
    requires j < |Signals(poll, cfg.idleThreshold)|
  {
    if !ReachesAt(cfg, w, poll, j, p) then None
    else ArmWord(EnvOf(cfg, w, poll), p in w.snapshot.paused, p in w.snapshot.armed,
                 ViewAt(cfg, w, poll, j, p), SourceAt(cfg, poll, j), OutcomeOf(poll, j))
  }

  /** Before each signal the disturbed tick shows `p` the same private part as the undisturbed one. */
  lemma SameWord(cfg: Config, w: World, poll: Poll, acts: nat -> seq<Act>, k: nat, p: int)
    requires k < |Signals(poll, cfg.idleThreshold)|
    ensures var v := ViewOf(Before(cfg, w, poll, acts, k), AfterDisturbed(cfg, w, poll, acts, k).1, p);
            var u := ViewAt(cfg, w, poll, k, p);
            v.disarmed == u.disarmed && v.counted == u.counted && v.streak == u.streak
    ensures Before(cfg, w, poll, acts, k).db.ignored == w.db.ignored
  {
    hide Gate, Signals;
    HandlersChangeNoCredit(cfg, w, poll, acts, k);
    ActsKeepOwn(AfterDisturbed(cfg, w, poll, acts, k).0, acts(k));
    SignalsSeenBy(cfg, w, poll, k, p);
  }

  /** Each signal moves the three flags of `p` by its words, whatever the handlers left there. */
  lemma SignalSays(cfg: Config, w: World, poll: Poll, acts: nat -> seq<Act>, k: nat, p: int)
    requires k < |Signals(poll, cfg.idleThreshold)|
    ensures var a, b := Before(cfg, w, poll, acts, k), AfterDisturbed(cfg, w, poll, acts, k + 1).0;
            var said := ArmWordAt(cfg, w, poll, k, p);
            && (p in b.snapshot.paused <==> p in a.snapshot.paused && !ResumesAt(cfg, w, poll, k, p))
            && (p in b.db.paused <==> p in a.db.paused && !ResumesAt(cfg, w, poll, k, p))
            && (p in b.snapshot.armed <==> if said.Some? then said.value else p in a.snapshot.armed)
  {
    hide Gate, Signals;
    var a, sc := Before(cfg, w, poll, acts, k), AfterDisturbed(cfg, w, poll, acts, k).1;
    var e, sig, out := EnvOf(cfg, w, poll), Signals(poll, cfg.idleThreshold)[k], OutcomeOf(poll, k);
    SameWord(cfg, w, poll, acts, k, p);
    GateView(e, a, sc, sig, out, p);
    StepSays(e, p in w.snapshot.paused, p in w.snapshot.armed, ViewOf(a, sc, p), sig.source, out);
  }

  predicate About(act: Act, p: int) {
    match act
    case Cached(op) => Touches(op, p)
    case Stored(id, _) => id == p
  }

  /** Nothing the handlers do is about `p`. */
  predicate NotAbout(acts: seq<Act>, p: int) {
    forall act :: act in acts ==> !About(act, p)
  }

  lemma {:induction false} ActsLeave(w: World, acts: seq<Act>, p: int)
    requires NotAbout(acts, p)
    ensures var w' := AllActed(w, acts);
            && (p in w'.snapshot.paused <==> p in w.snapshot.paused) && (p in w'.db.paused <==> p in w.db.paused)
            && (p in w'.snapshot.armed <==> p in w.snapshot.armed)
  {
    if acts != [] {
      assert acts[|acts| - 1] in acts;
      assert forall act :: act in acts[..|acts| - 1] ==> act in acts;
      ActsLeave(w, acts[..|acts| - 1], p);
    }
  }

  ghost predicate ResumedFrom(cfg: Config, w: World, poll: Poll, i: nat, k: nat, p: int)
    requires k <= |Signals(poll, cfg.idleThreshold)|
  {
    exists j :: i <= j < k && ResumesAt(cfg, w, poll, j, p)
  }

  /** The last word on arming from signal `i` on. */
  function LastArmWord(cfg: Config, w: World, poll: Poll, i: nat, k: nat, p: int): Option<bool>
    requires k <= |Signals(poll, cfg.idleThreshold)|
  {
    if k <= i then None
    else if ArmWordAt(cfg, w, poll, k - 1, p).Some? then ArmWordAt(cfg, w, poll, k - 1, p)
    else LastArmWord(cfg, w, poll, i, k - 1, p)
  }

  /** When the handlers' last act about `p` lands before signal `i`: a pause then in cache or table is
      still there after the signals up to `k` iff `p` was not paused when the tick began or none of them
      resumes it; and `p` is armed as the last of them says, or else as the handlers left it. */
  lemma {:induction false} LandedBefore(cfg: Config, w: World, poll: Poll, acts: nat -> seq<Act>, i: nat, k: nat,
                                        p: int)
    requires i < k <= |Signals(poll, cfg.idleThreshold)|
    requires forall j :: i < j < k ==> NotAbout(acts(j), p)
    ensures var a, b := Before(cfg, w, poll, acts, i), AfterDisturbed(cfg, w, poll, acts, k).0;
            var said := LastArmWord(cfg, w, poll, i, k, p);
            && (p in b.snapshot.paused <==> p in a.snapshot.paused && !ResumedFrom(cfg, w, poll, i, k, p))
            && (p in b.db.paused <==> p in a.db.paused && !ResumedFrom(cfg, w, poll, i, k, p))
            && (p in b.snapshot.armed <==> if said.Some? then said.value else p in a.snapshot.armed)
  {
    hide AfterDisturbed, ArmWordAt, ResumesAt, Signals;
    SignalSays(cfg, w, poll, acts, k - 1, p);
    if i < k - 1 {
      LandedBefore(cfg, w, poll, acts, i, k - 1, p);
      ActsLeave(AfterDisturbed(cfg, w, poll, acts, k - 1).0, acts(k - 1), p);
      assert ResumedFrom(cfg, w, poll, i, k, p) <==>
             ResumedFrom(cfg, w, poll, i, k - 1, p) || ResumesAt(cfg, w, poll, k - 1, p);
    }
  }

  /** So a pause that lands on an unpaused project during a tick takes effect from the next tick on: it
      is there when this one ends, which credits what it would have credited without it. */
  lemma PauseWaitsForNextTick(cfg: Config, w: World, poll: Poll, acts: nat -> seq<Act>, i: nat, p: int)
    requires i < |Signals(poll, cfg.idleThreshold)| && p !in w.snapshot.paused
    requires forall j :: i < j < |Signals(poll, cfg.idleThreshold)| ==> NotAbout(acts(j), p)
    requires var a := Before(cfg, w, poll, acts, i); p in a.snapshot.paused && p in a.db.paused
    ensures var b := AfterDisturbed(cfg, w, poll, acts, |Signals(poll, cfg.idleThreshold)|).0;
            p in b.snapshot.paused && p in b.db.paused && RowsOf(b.db, p) == RowsOf(Ticked(cfg, w, poll).db, p)
  {
    hide AfterDisturbed, AfterSignals, ReachesAt, Signals;
    LandedBefore(cfg, w, poll, acts, i, |Signals(poll, cfg.idleThreshold)|, p);
    HandlersChangeNoCredit(cfg, w, poll, acts, |Signals(poll, cfg.idleThreshold)|);
  }
}
