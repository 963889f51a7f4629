/** One poll of the daemon: which signals become ticks, and what happens to paused and
    armed projects. Runs are sequences of polls with reconfigurations between them. */
module Pipeline {
  import opened Options
  import opened Rules
  import opened SnapshotCache

  /** The tables a poll touches. A stored observation is its signal. */
  datatype Db = Db(observations: set<Signal>, ignored: set<Signal>, paused: set<int>, ticks: Ticks)

  /** Which of the statements issued for one signal succeed. */
  datatype Outcome = Outcome(upsertOk: bool, lookupOk: bool, resumeOk: bool, insertOk: bool)

  datatype World = World(snapshot: Snapshot, suppressed: Counters, streak: Counters, db: Db)

  /** The maps that live for one tick only. */
  datatype Scratch = Scratch(disarmed: set<int>, counted: set<int>, ticked: set<int>)

  /** Fixed for one tick: its time, the snapshot taken at its start, user presence, and
      the auto-disarm threshold (0 switches auto-disarm off). */
  datatype Env = Env(now: int, snap: Snapshot, present: bool, n: nat)

  function Attributed(sig: Signal, rules: seq<Rule>): Option<int> {
    match Winner(sig, rules) case None => None case Some(r) => Some(r.project)
  }

  // ---------- one signal ----------

  function InsertTick(db: Db, now: int, sig: Signal, project: Option<int>): Db {
    if (now, sig) in db.ticks then db else db.(ticks := db.ticks[(now, sig) := project])
  }

  function WithCache(w: World, op: Op): World {
    w.(snapshot := Effect(op, w.snapshot), suppressed := CountersAfter(op, w.snapshot, w.suppressed))
  }

  function Disarmed(w: World, p: int): World {
    WithCache(w, Disarm(p)).(streak := w.streak - {p})
  }

  function Resumed(w: World, p: int): World {
    WithCache(w, MarkActive(p)).(db := w.db.(paused := w.db.paused - {p}), streak := w.streak - {p})
  }

  function Suppress(w: World, p: int): World {
    w.(suppressed := w.suppressed[p := Count(w.suppressed, p) + 1])
  }

  function Tally(e: Env, w: World, sc: Scratch, sig: Signal, p: int, out: Outcome): (World, Scratch) {
    if sig.source == Transcript && p in sc.ticked then (w, sc)
    else if !out.insertOk then (w, sc)
    else (w.(db := InsertTick(w.db, e.now, sig, Some(p))), sc.(ticked := sc.ticked + {p}))
  }

  /** The arming gate, for an agent signal of a project armed at the start of the tick. */
  function ArmedGate(e: Env, w: World, sc: Scratch, sig: Signal, p: int, out: Outcome): (World, Scratch) {
    if p in sc.counted then (w, sc)
    else
      var sc' := sc.(counted := sc.counted + {p});
      if !(e.present && e.n > 0) then (Suppress(w, p), sc')
      else
        var streak := Count(w.streak, p) + 1;
        if streak >= e.n then
          Tally(e, Disarmed(w, p), sc'.(disarmed := sc'.disarmed + {p}), sig, p, out)
        else (Suppress(w, p).(streak := w.streak[p := streak]), sc')
  }

  function GateProject(e: Env, w: World, sc: Scratch, sig: Signal, p: int, out: Outcome): (World, Scratch) {
    var w1 := if sig.source == Agent then w else Disarmed(w, p);
    var sc1 := if sig.source == Agent then sc else sc.(disarmed := sc.disarmed + {p});
    if p in e.snap.paused then
      if sig.source == Transcript then
        if !out.resumeOk then (w1, sc1) else Tally(e, Resumed(w1, p), sc1, sig, p, out)
      else if sig.source == Agent && e.present then
        if !out.resumeOk then (w1, sc1) else (WithCache(Resumed(w1, p), Arm(p)), sc1)
      else (w1, sc1)
    else if sig.source == Agent && p in e.snap.armed && p !in sc1.disarmed then
      ArmedGate(e, w1, sc1, sig, p, out)
    else Tally(e, w1, sc1, sig, p, out)
  }

  function Gate(e: Env, w: World, sc: Scratch, sig: Signal, out: Outcome): (World, Scratch) {
    if !out.upsertOk then (w, sc)
    else
      var seen := w.(db := w.db.(observations := w.db.observations + {sig}));
      if !out.lookupOk || sig in w.db.ignored then (seen, sc)
      else
        match Attributed(sig, e.snap.rules)
        case None =>
          (if out.insertOk then seen.(db := InsertTick(seen.db, e.now, sig, None)) else seen, sc)
        case Some(p) => GateProject(e, seen, sc, sig, p, out)
  }

  // ---------- one tick ----------

  /** What one poll observed: `idle` is absent when idle detection failed. */
  datatype Poll = Poll(now: int, idle: Option<int>, focus: Option<Signal>, agents: seq<Signal>,
                       transcripts: seq<Signal>, outcomes: seq<Outcome>)

  predicate UserPresent(poll: Poll, idleThreshold: int) {
    poll.idle.Some? ==> poll.idle.value < idleThreshold
  }

  /** Focus is collected only while the user is present; transcripts come last. */
  function Signals(poll: Poll, idleThreshold: int): seq<Signal> {
    (if UserPresent(poll, idleThreshold) && poll.focus.Some? then [poll.focus.value] else [])
    + poll.agents + poll.transcripts
  }

  predicate WellSourced(poll: Poll) {
    && (poll.focus.Some? ==> poll.focus.value.source == Focus)
    && (forall s :: s in poll.agents ==> s.source == Agent)
    && (forall s :: s in poll.transcripts ==> s.source == Transcript)
  }

  function OutcomeOf(poll: Poll, i: nat): Outcome {
    if i < |poll.outcomes| then poll.outcomes[i] else Outcome(true, true, true, true)
  }

  datatype Config = Config(idleThreshold: int, autoDisarm: nat)

  function EnvOf(cfg: Config, w: World, poll: Poll): Env {
    Env(poll.now, w.snapshot, UserPresent(poll, cfg.idleThreshold), cfg.autoDisarm)
  }

  /** The world and the scratch maps after the first `k` signals of the poll. */
  function AfterSignals(cfg: Config, w: World, poll: Poll, k: nat): (World, Scratch)
    requires k <= |Signals(poll, cfg.idleThreshold)|
  {
    if k == 0 then (w, Scratch({}, {}, {}))
    else
      var (w', sc) := AfterSignals(cfg, w, poll, k - 1);
      Gate(EnvOf(cfg, w, poll), w', sc, Signals(poll, cfg.idleThreshold)[k - 1], OutcomeOf(poll, k - 1))
  }

  function Ticked(cfg: Config, w: World, poll: Poll): World {
    AfterSignals(cfg, w, poll, |Signals(poll, cfg.idleThreshold)|).0
  }

  class Pipeline {
    const cfg: Config
    const cache: Cache
    var streak: Counters
    var db: Db

    constructor (cfg: Config, cache: Cache, db: Db)
      ensures this.cfg == cfg && this.cache == cache && this.db == db && streak == map[]
    {
      this.cfg, this.cache, this.db, streak := cfg, cache, db, map[];
    }

    ghost function Abs(): World
      reads this, cache
    {
      World(cache.snapshot, cache.suppressed, streak, db)
    }

    method RunTick(poll: Poll)
      modifies this, cache
      ensures Abs() == Ticked(cfg, old(Abs()), poll)
    {
      var snap := cache.snapshot;
      var present := UserPresent(poll, cfg.idleThreshold);
      var signals: seq<Signal> := [];
      if present && poll.focus.Some? { signals := signals + [poll.focus.value]; }
      signals := signals + poll.agents;
      signals := signals + poll.transcripts;

      var disarmed: set<int>, counted: set<int>, ticked: set<int> := {}, {}, {};
      var i := 0;
      while i < |signals|
        invariant 0 <= i <= |signals| && signals == Signals(poll, cfg.idleThreshold)
        invariant (Abs(), Scratch(disarmed, counted, ticked)) == AfterSignals(cfg, old(Abs()), poll, i)
      {
        var sig, out := signals[i], OutcomeOf(poll, i);
        i := i + 1;
        if !out.upsertOk { continue; }
        db := db.(observations := db.observations + {sig});
        if !out.lookupOk || sig in db.ignored { continue; }

        var pid := MatchRules(sig, snap.rules);
        if pid.None? {
          if out.insertOk { db := InsertTick(db, poll.now, sig, None); }
          continue;
        }
        var p := pid.value;
        disarmed, counted, ticked := GateSignal(poll.now, snap, present, sig, p, out, disarmed, counted, ticked);
      }
    }

    /** The body of the loop from the point where the signal has a project. */
    method GateSignal(now: int, snap: Snapshot, present: bool, sig: Signal, p: int, out: Outcome,
                      disarmed0: set<int>, counted0: set<int>, ticked0: set<int>)
      returns (disarmed: set<int>, counted: set<int>, ticked: set<int>)
      modifies this, cache
      ensures (Abs(), Scratch(disarmed, counted, ticked))
              == GateProject(Env(now, snap, present, cfg.autoDisarm), old(Abs()),
                             Scratch(disarmed0, counted0, ticked0), sig, p, out)
    {
      disarmed, counted, ticked := disarmed0, counted0, ticked0;
      if sig.source == Focus || sig.source == Transcript {
        cache.DisarmProject(p);
        streak := streak - {p};
        disarmed := disarmed + {p};
      }
      if p in snap.paused {
        if sig.source == Transcript {
          if !out.resumeOk { return; }
          db := db.(paused := db.paused - {p});
          cache.MarkProjectActive(p);
          streak := streak - {p};
        } else if sig.source == Agent && present {
          if !out.resumeOk { return; }
          db := db.(paused := db.paused - {p});
          cache.MarkProjectActive(p);
          cache.ArmProject(p);
          streak := streak - {p};
          return;
        } else {
          return;
        }
      }
      if sig.source == Agent && p in snap.armed && p !in disarmed {
        if p in counted { return; }
        counted := counted + {p};
        if present && cfg.autoDisarm > 0 {
          streak := streak[p := Count(streak, p) + 1];
          if streak[p] >= cfg.autoDisarm {
            cache.DisarmProject(p);
            streak := streak - {p};
            assert streak == old(streak) - {p};
            disarmed := disarmed + {p};
          } else {
            var _ := cache.AddSuppressed(p);
            return;
          }
        } else {
          var _ := cache.AddSuppressed(p);
          return;
        }
      }
      if sig.source == Transcript && p in ticked { return; }
      if !out.insertOk { return; }
      db := InsertTick(db, now, sig, Some(p));
      ticked := ticked + {p};
    }
  }
}
