/** What whole runs of polls, reloads and handlers can do to one project. */
module DaemonRuns {
  import opened Options
  import opened Rules
  import opened SnapshotCache
  import opened Pipeline
  import opened PipelineRuns

  /** Between polls, ReloadCache may bring new rules and a new paused set from the database, and
      a handler may run one of the other cache operations. */
  datatype Event = Polled(poll: Poll) | Reloaded(rules: seq<Rule>, paused: set<int>) | Ran(op: Op)

  function Happen(cfg: Config, w: World, ev: Event): World {
    match ev
    case Polled(poll) => Ticked(cfg, w, poll)
    case Reloaded(rules, paused) =>
      WithCache(w, Reload(Snapshot(rules, paused, {}))).(db := w.db.(paused := paused))
    case Ran(op) => WithCache(w, op)
  }

  function After(cfg: Config, w: World, evs: seq<Event>): World {
    if evs == [] then w else Happen(cfg, After(cfg, w, evs[..|evs| - 1]), evs[|evs| - 1])
  }

  lemma UntouchedView(w: World, op: Op, p: int)
    requires !Touches(op, p)
    ensures var w' := WithCache(w, op);
            ViewOf(w', Scratch({}, {}, {}), p) == ViewOf(w, Scratch({}, {}, {}), p) && w'.db == w.db
  {
  }

  /** The run so far gives `p` no signal but from `allowed`, never reloads `p` into another paused
      state, and no handler arms, disarms or resumes it. */
  ghost predicate Quiet(cfg: Config, w: World, evs: seq<Event>, p: int, allowed: set<Source>, idleOnly: bool,
                        paused: bool)
  {
    evs != [] ==>
      var front, last := evs[..|evs| - 1], evs[|evs| - 1];
      && Quiet(cfg, w, front, p, allowed, idleOnly, paused)
      && match last
         case Polled(poll) =>
           var v := After(cfg, w, front);
           OnlyFrom(cfg, v, poll, p, allowed) && (idleOnly ==> !UserPresent(poll, cfg.idleThreshold))
         case Reloaded(_, ids) => (p in ids) == paused
         case Ran(op) => !Touches(op, p)
  }

  /** However long the machine works unattended, a paused project stays paused and gains nothing. */
  lemma {:induction false} PausedSurvivesIdleRuns(cfg: Config, w: World, evs: seq<Event>, p: int)
    requires p in w.snapshot.paused && p in w.db.paused
    requires Quiet(cfg, w, evs, p, {Agent}, true, true)
    ensures var w' := After(cfg, w, evs);
            p in w'.snapshot.paused && p in w'.db.paused && RowsOf(w'.db, p) == RowsOf(w.db, p)
  {
    if evs != [] {
      var front := evs[..|evs| - 1];
      PausedSurvivesIdleRuns(cfg, w, front, p);
      if evs[|evs| - 1].Polled? {
        var v, poll := After(cfg, w, front), evs[|evs| - 1].poll;
        var k := |Signals(poll, cfg.idleThreshold)|;
        TickSeenBy(cfg, v, poll, p);
        PausedIdleAt(cfg, v, poll, k, p);
      } else if evs[|evs| - 1].Ran? {
        UntouchedView(After(cfg, w, front), evs[|evs| - 1].op, p);
      }
    }
  }

  /** Polls of the run in which some agent signal reached `p`, and those of them that count
      towards auto-disarm. */
  ghost function Busy(cfg: Config, w: World, evs: seq<Event>, p: int, countingOnly: bool): nat {
    if evs == [] then 0
    else
      var front, last := evs[..|evs| - 1], evs[|evs| - 1];
      Busy(cfg, w, front, p, countingOnly)
      + if last.Polled?
           && ReachedBy(cfg, After(cfg, w, front), last.poll, |Signals(last.poll, cfg.idleThreshold)|, p)
           && (countingOnly ==> Counting(cfg, last.poll))
        then 1 else 0
  }

  /** An armed project under agent signals alone: until the N-th user-present agent tick it
      stays armed, gains nothing, and every poll with a matching agent signal adds exactly
      one suppressed tick. */
  lemma {:induction false} ArmedRunSuppresses(cfg: Config, w: World, evs: seq<Event>, p: int)
    requires p in w.snapshot.armed && p !in w.snapshot.paused
    requires Quiet(cfg, w, evs, p, {Agent}, false, false)
    requires cfg.autoDisarm > 0 ==> Count(w.streak, p) + Busy(cfg, w, evs, p, true) < cfg.autoDisarm
    ensures var w' := After(cfg, w, evs);
            && p in w'.snapshot.armed && p !in w'.snapshot.paused && RowsOf(w'.db, p) == RowsOf(w.db, p)
            && Count(w'.suppressed, p) == Count(w.suppressed, p) + Busy(cfg, w, evs, p, false)
            && Count(w'.streak, p) == Count(w.streak, p) + Busy(cfg, w, evs, p, true)
  {
    if evs != [] {
      var front := evs[..|evs| - 1];
      ArmedRunSuppresses(cfg, w, front, p);
      if evs[|evs| - 1].Polled? {
        var v, poll := After(cfg, w, front), evs[|evs| - 1].poll;
        var k := |Signals(poll, cfg.idleThreshold)|;
        TickSeenBy(cfg, v, poll, p);
        ArmedAgentsAt(cfg, v, poll, k, p);
        if !Fires(cfg, v, poll, p) || !ReachedBy(cfg, v, poll, k, p) { UnfiredCreditsNothing(cfg, v, poll, k, p); }
      } else if evs[|evs| - 1].Ran? {
        UntouchedView(After(cfg, w, front), evs[|evs| - 1].op, p);
      }
    }
  }

  /** With the user away nothing counts towards auto-disarm. */
  lemma {:induction false} IdleRunsNeverCount(cfg: Config, w: World, evs: seq<Event>, p: int)
    requires Quiet(cfg, w, evs, p, {Agent}, true, false)
    ensures Busy(cfg, w, evs, p, true) == 0 && Quiet(cfg, w, evs, p, {Agent}, false, false)
  {
    if evs != [] { IdleRunsNeverCount(cfg, w, evs[..|evs| - 1], p); }
  }

  /** So an unattended armed project stays armed for ever, whatever N is. */
  lemma ArmedSurvivesIdleRuns(cfg: Config, w: World, evs: seq<Event>, p: int)
    requires p in w.snapshot.armed && p !in w.snapshot.paused
    requires cfg.autoDisarm > 0 ==> Count(w.streak, p) < cfg.autoDisarm
    requires Quiet(cfg, w, evs, p, {Agent}, true, false)
    ensures var w' := After(cfg, w, evs);
            && p in w'.snapshot.armed && p !in w'.snapshot.paused && RowsOf(w'.db, p) == RowsOf(w.db, p)
            && Count(w'.suppressed, p) == Count(w.suppressed, p) + Busy(cfg, w, evs, p, false)
  {
    IdleRunsNeverCount(cfg, w, evs, p);
    ArmedRunSuppresses(cfg, w, evs, p);
  }

  /** The N-th user-present agent tick disarms, zeroes both counters, and is itself credited, unless
      the table has a row for it. */
  lemma NthAgentTickDisarms(cfg: Config, w: World, evs: seq<Event>, poll: Poll, p: int)
    requires p in w.snapshot.armed && p !in w.snapshot.paused
    requires Quiet(cfg, w, evs + [Polled(poll)], p, {Agent}, false, false)
    requires cfg.autoDisarm > 0 && Count(w.streak, p) + Busy(cfg, w, evs, p, true) == cfg.autoDisarm - 1
    requires Counting(cfg, poll)
    requires var v := After(cfg, w, evs); ReachedBy(cfg, v, poll, |Signals(poll, cfg.idleThreshold)|, p)
    ensures var v := After(cfg, w, evs);
            var w' := Ticked(cfg, v, poll);
            && p !in w'.snapshot.armed && Count(w'.suppressed, p) == 0 && Count(w'.streak, p) == 0
            && forall j :: 0 <= j < |Signals(poll, cfg.idleThreshold)| && ReachesAt(cfg, v, poll, j, p)
                           && OutcomeOf(poll, j).insertOk
                 ==> (poll.now, Signals(poll, cfg.idleThreshold)[j]) in RowsOf(w'.db, p) + v.db.ticks.Keys
  {
    var v, k := After(cfg, w, evs), |Signals(poll, cfg.idleThreshold)|;
    assert (evs + [Polled(poll)])[..|evs|] == evs;
    ArmedRunSuppresses(cfg, w, evs, p);
    TickSeenBy(cfg, v, poll, p);
    ArmedAgentsAt(cfg, v, poll, k, p);
    forall j | 0 <= j < k && ReachesAt(cfg, v, poll, j, p) && OutcomeOf(poll, j).insertOk
      ensures (poll.now, Signals(poll, cfg.idleThreshold)[j]) in CreditedRows(cfg, v, poll, k, p)
    {
      FiringCredits(cfg, v, poll, j, p);
    }
  }

  // ---------- how long an arming lasts ----------

  lemma {:induction false} QuietStaysUnpaused(cfg: Config, w: World, evs: seq<Event>, p: int)
    requires p !in w.snapshot.paused && Quiet(cfg, w, evs, p, {Agent}, false, false)
    ensures p !in After(cfg, w, evs).snapshot.paused
  {
    if evs != [] {
      var front := evs[..|evs| - 1];
      QuietStaysUnpaused(cfg, w, front, p);
      if evs[|evs| - 1].Polled? {
        var v, poll := After(cfg, w, front), evs[|evs| - 1].poll;
        TickSeenBy(cfg, v, poll, p);
        ResumedStaysResumed(cfg, v, poll, 0, |Signals(poll, cfg.idleThreshold)|, p);
      } else if evs[|evs| - 1].Ran? {
        UntouchedView(After(cfg, w, front), evs[|evs| - 1].op, p);
      }
    }
  }

  lemma EventKeepsDisarmed(cfg: Config, v: World, ev: Event, p: int)
    requires p !in v.snapshot.paused && p !in v.snapshot.armed && (ev.Ran? ==> !Touches(ev.op, p))
    ensures p !in Happen(cfg, v, ev).snapshot.armed
  {
    if ev.Polled? {
      TickSeenBy(cfg, v, ev.poll, p);
      ResumedStaysResumed(cfg, v, ev.poll, 0, |Signals(ev.poll, cfg.idleThreshold)|, p);
    } else if ev.Ran? {
      UntouchedView(v, ev.op, p);
    }
  }

  lemma AfterLast(cfg: Config, w: World, front: seq<Event>, ev: Event)
    ensures After(cfg, w, front + [ev]) == Happen(cfg, After(cfg, w, front), ev)
  {
    assert (front + [ev])[..|front|] == front;
  }

  /** The event that makes the count reach N is a counted poll, and disarms. */
  lemma DisarmsAtN(cfg: Config, w: World, front: seq<Event>, ev: Event, p: int)
    requires p in w.snapshot.armed && p !in w.snapshot.paused && cfg.autoDisarm > 0
    requires Quiet(cfg, w, front + [ev], p, {Agent}, false, false)
    requires Count(w.streak, p) + Busy(cfg, w, front, p, true) < cfg.autoDisarm
    requires Count(w.streak, p) + Busy(cfg, w, front + [ev], p, true) >= cfg.autoDisarm
    ensures p !in After(cfg, w, front + [ev]).snapshot.armed
  {
    assert (front + [ev])[..|front|] == front;
    AfterLast(cfg, w, front, ev);
    NthAgentTickDisarms(cfg, w, front, ev.poll, p);
  }

  /** Under agent signals alone an armed project is armed at the end iff the counted polls, with those
      already in its streak, have not reached N. */
  lemma {:induction false} ArmedIffBelowN(cfg: Config, w: World, evs: seq<Event>, p: int)
    requires p in w.snapshot.armed && p !in w.snapshot.paused
    requires cfg.autoDisarm > 0 ==> Count(w.streak, p) < cfg.autoDisarm
    requires Quiet(cfg, w, evs, p, {Agent}, false, false)
    ensures p in After(cfg, w, evs).snapshot.armed <==>
            cfg.autoDisarm == 0 || Count(w.streak, p) + Busy(cfg, w, evs, p, true) < cfg.autoDisarm
  {
    if cfg.autoDisarm == 0 || Count(w.streak, p) + Busy(cfg, w, evs, p, true) < cfg.autoDisarm {
      ArmedRunSuppresses(cfg, w, evs, p);
    } else {
      var front, last := evs[..|evs| - 1], evs[|evs| - 1];
      assert front + [last] == evs;
      if Count(w.streak, p) + Busy(cfg, w, front, p, true) < cfg.autoDisarm {
        DisarmsAtN(cfg, w, front, last, p);
      } else {
        ArmedIffBelowN(cfg, w, front, p);
        QuietStaysUnpaused(cfg, w, front, p);
        EventKeepsDisarmed(cfg, After(cfg, w, front), last, p);
      }
    }
  }

  /** ProjectResumeAll: the table is cleared and reloaded, then everything is armed. */
  function ResumeAll(rules: seq<Rule>, ids: seq<int>): seq<Event> {
    [Reloaded(rules, {}), Ran(ArmAll(ids))]
  }

  lemma ResumeAllLeaves(cfg: Config, w: World, rules: seq<Rule>, ids: seq<int>, p: int)
    requires p in ids
    ensures var v := After(cfg, w, ResumeAll(rules, ids));
            && p in v.snapshot.armed && p !in v.snapshot.paused && p !in v.db.paused
            && Count(v.suppressed, p) == 0 && v.streak == w.streak
            && v.snapshot.rules == rules && v.db.ignored == w.db.ignored
  {
    var evs := ResumeAll(rules, ids);
    assert evs[..1] == [Reloaded(rules, {})] && evs[..1][..0] == [];
    assert After(cfg, w, evs[..1]) == Happen(cfg, w, Reloaded(rules, {}));
  }

  /** Resuming all projects zeroes the suppressed count and not the streak: the new episode lasts for N
      counted polls less what the streak holds, so it is given all of them iff the streak is 0. */
  lemma ResumeAllKeepsStreak(cfg: Config, w: World, rules: seq<Rule>, ids: seq<int>, evs: seq<Event>, p: int)
    requires p in ids && cfg.autoDisarm > 0 && Count(w.streak, p) < cfg.autoDisarm
    requires Quiet(cfg, After(cfg, w, ResumeAll(rules, ids)), evs, p, {Agent}, false, false)
    ensures var v := After(cfg, w, ResumeAll(rules, ids));
            var counted := Busy(cfg, v, evs, p, true);
            && Count(v.suppressed, p) == 0 && Count(v.streak, p) == Count(w.streak, p)
            && (p in After(cfg, v, evs).snapshot.armed <==> Count(w.streak, p) + counted < cfg.autoDisarm)
            && (counted == cfg.autoDisarm - 1 ==> (p in After(cfg, v, evs).snapshot.armed <==> Count(w.streak, p) == 0))
  {
    ResumeAllLeaves(cfg, w, rules, ids, p);
    ArmedIffBelowN(cfg, After(cfg, w, ResumeAll(rules, ids)), evs, p);
  }

  // One rule, one agent process at work, the user present, N = 2.

  const TWO_TICKS := Config(60, 2)
  const WORK := Signal(Agent, "", "", "x", "/w", "")

  function WorkRules(p: int): seq<Rule> {
    [Rule(1, p, 100, None, None, Some("x"), None, None)]
  }

  function AtWork(now: int): Poll {
    Poll(now, Some(0), None, [WORK], [], [])
  }

  function NewlyArmed(p: int): World {
    World(Snapshot(WorkRules(p), {}, {p}), map[], map[], Db({}, {}, {}, map[]))
  }

  lemma WorkReaches(w: World, now: int, p: int)
    requires w.snapshot.rules == WorkRules(p) && w.db.ignored == {}
    ensures var evs := [Polled(AtWork(now))];
            Quiet(TWO_TICKS, w, evs, p, {Agent}, false, false) && Busy(TWO_TICKS, w, evs, p, true) == 1
  {
    var evs := [Polled(AtWork(now))];
    assert evs[..0] == [] && After(TWO_TICKS, w, []) == w;
    assert Signals(AtWork(now), 60) == [WORK];
    WinnerIsLeast(WORK, WorkRules(p));
    assert WorkRules(p)[0] in WorkRules(p);
    assert ReachesAt(TWO_TICKS, w, AtWork(now), 0, p);
  }

  lemma TickKeepsIgnored(cfg: Config, w: World, poll: Poll, p: int)
    ensures Ticked(cfg, w, poll).db.ignored == w.db.ignored
  {
    SignalsSeenBy(cfg, w, poll, |Signals(poll, cfg.idleThreshold)|, p);
  }

  /** From a streak of 0: one counted poll, a resume of all projects, and one more counted poll disarms,
      where a new episode should have had two. */
  lemma StreakSurvivesResume(p: int)
    ensures var w := After(TWO_TICKS, NewlyArmed(p), [Polled(AtWork(1))]);
            var v := After(TWO_TICKS, w, ResumeAll(WorkRules(p), [p]));
            && p in v.snapshot.armed && Count(v.streak, p) == 1
            && p !in After(TWO_TICKS, v, [Polled(AtWork(2))]).snapshot.armed
  {
    var w0, first := NewlyArmed(p), [Polled(AtWork(1))];
    WorkReaches(w0, 1, p);
    ArmedRunSuppresses(TWO_TICKS, w0, first, p);
    assert first[..0] == [] && After(TWO_TICKS, w0, []) == w0;
    TickKeepsIgnored(TWO_TICKS, w0, AtWork(1), p);
    var w := After(TWO_TICKS, w0, first);
    ResumeAllLeaves(TWO_TICKS, w, WorkRules(p), [p], p);
    WorkReaches(After(TWO_TICKS, w, ResumeAll(WorkRules(p), [p])), 2, p);
    ResumeAllKeepsStreak(TWO_TICKS, w, WorkRules(p), [p], [Polled(AtWork(2))], p);
  }

  lemma {:induction false} SignalsKeepStreaksBelow(cfg: Config, w: World, poll: Poll, k: nat, p: int)
    requires k <= |Signals(poll, cfg.idleThreshold)|
    requires cfg.autoDisarm > 0 && Count(w.streak, p) < cfg.autoDisarm
    ensures ViewAt(cfg, w, poll, k, p).streak < cfg.autoDisarm
  {
    if k > 0 {
      SignalsKeepStreaksBelow(cfg, w, poll, k - 1, p);
      StepNeverPauses(EnvOf(cfg, w, poll), p in w.snapshot.paused, p in w.snapshot.armed,
                      ViewAt(cfg, w, poll, k - 1, p), SourceAt(cfg, poll, k - 1), OutcomeOf(poll, k - 1));
    }
  }

  /** In every run, whatever the signals, no project's streak ever reaches N. */
  lemma {:induction false} StreaksStayBelow(cfg: Config, w: World, evs: seq<Event>, p: int)
    requires cfg.autoDisarm > 0 && Count(w.streak, p) < cfg.autoDisarm
    ensures Count(After(cfg, w, evs).streak, p) < cfg.autoDisarm
  {
    if evs != [] {
      var front := evs[..|evs| - 1];
      StreaksStayBelow(cfg, w, front, p);
      if evs[|evs| - 1].Polled? {
        var v, poll := After(cfg, w, front), evs[|evs| - 1].poll;
        var k := |Signals(poll, cfg.idleThreshold)|;
        TickSeenBy(cfg, v, poll, p);
        SignalsKeepStreaksBelow(cfg, v, poll, k, p);
      }
    }
  }
}
