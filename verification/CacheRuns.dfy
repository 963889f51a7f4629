/** What any interleaving leaves of the two things the snapshot does not decide alone: the paused
    set, which mirrors a table column, and the suppressed counters behind their own mutex. */
module CacheRuns {
  import opened Options
  import opened SnapshotCache

  // ---------- the paused set against its table ----------

  /** What the operation says about whether `p` is paused, if anything. */
  function Word(op: Op, p: int): Option<bool> {
    match op
    case Reload(fromDb) => Some(p in fromDb.paused)
    case MarkActive(id) => if id == p then Some(false) else None
    case _ => None
  }

  /** `p` is paused in the cache iff the last logged word about it is a reload that read it as
      paused, or it was at the start and there is no word. */
  lemma {:induction false} LastWordDecidesPaused(s: Snapshot, log: seq<(int, Op)>, p: int)
    ensures p in Replay(s, log).paused <==>
            ((exists k :: 0 <= k < |log| && Word(log[k].1, p) == Some(true)
                          && forall j :: k < j < |log| ==> Word(log[j].1, p) != Some(false))
             || (p in s.paused && forall j :: 0 <= j < |log| ==> Word(log[j].1, p) != Some(false)))
  {
    if log != [] {
      var last := |log| - 1;
      var front := log[..last];
      LastWordDecidesPaused(s, front, p);
      assert forall j :: 0 <= j < last ==> front[j] == log[j];
      if Word(log[last].1, p) == None {
        if k :| 0 <= k < |log| && Word(log[k].1, p) == Some(true)
                && forall j :: k < j < |log| ==> Word(log[j].1, p) != Some(false)
        {
          assert Word(front[k].1, p) == Some(true);
        }
      }
    }
  }

  predicate CachedPaused(m: Machine, p: int)
    requires WellFormed(m)
  {
    p in m.heap[m.ptr].paused
  }

  predicate Agrees(m: Machine, p: int)
    requires WellFormed(m)
  {
    CachedPaused(m, p) <==> p in m.table
  }

  /** The thread is on its way to saying something about `p`. */
  function Underway(th: Thread, p: int): Option<bool> {
    if th.Idle? || th.Clearing? then None else Word(th.op, p)
  }

  /** Cache and table agree about `p`, and no thread is on its way to say otherwise. */
  predicate Settled(m: Machine, p: int)
    requires WellFormed(m)
  {
    Agrees(m, p) && forall t :: t in m.threads && Underway(m.threads[t], p).Some? ==>
                                (Underway(m.threads[t], p).value <==> p in m.table)
  }

  /** Nobody pauses or resumes `p` in this step: its column is not written and no resume called.
      Reloads may start and everything already under way may go on. */
  predicate LeavesAlone(step: Step, p: int) {
    !(step.Write? && step.id == p) && !(step.Call? && step.op == MarkActive(p))
  }

  /** Between `m` and `n` the thread moved on without a word, or finished and had its say. */
  predicate Progressed(m: Machine, n: Machine, t: int, p: int)
    requires WellFormed(m) && WellFormed(n) && t in m.threads
  {
    && n.table == m.table && n.threads.Keys == m.threads.Keys
    && (forall u :: u in m.threads && u != t ==> n.threads[u] == m.threads[u])
    && if n.threads[t].Idle? || n.threads[t].Clearing? then
         CachedPaused(n, p) == (match Underway(m.threads[t], p) case Some(b) => b case None => CachedPaused(m, p))
       else CachedPaused(n, p) == CachedPaused(m, p) && Underway(n.threads[t], p) == Underway(m.threads[t], p)
  }

  lemma LoadProgresses(m: Machine, t: int, p: int)
    requires WellFormed(m) && t in m.threads
    ensures WellFormed(Next(m, Load(t))) && Progressed(m, Next(m, Load(t)), t, p)
  {
  }

  lemma BuildProgresses(m: Machine, t: int, p: int)
    requires WellFormed(m) && t in m.threads && Owned(m.threads[t]) != Some(m.ptr)
    ensures WellFormed(Next(m, Build(t))) && Progressed(m, Next(m, Build(t)), t, p)
  {
  }

  lemma SwapProgresses(m: Machine, t: int, p: int)
    requires WellFormed(m) && t in m.threads
    requires var th := m.threads[t]; th.Built? ==> th.cur < |m.heap| && th.next < |m.heap|
                                                   && m.heap[th.next] == Effect(th.op, m.heap[th.cur])
    ensures WellFormed(Next(m, Swap(t))) && Progressed(m, Next(m, Swap(t)), t, p)
  {
  }

  lemma Progresses(m: Machine, t: int, step: Step, p: int, init: Snapshot)
    requires Inv(m, init) && t in m.threads && step in {Load(t), Build(t), Swap(t)}
    ensures WellFormed(Next(m, step)) && Progressed(m, Next(m, step), t, p)
  {
    assert ThreadInv(m, t);
    match step
    case Load(_) => LoadProgresses(m, t, p);
    case Build(_) => BuildProgresses(m, t, p);
    case Swap(_) => SwapProgresses(m, t, p);
  }

  lemma CallSettles(m: Machine, t: int, op: Op, p: int)
    requires WellFormed(m) && t in m.threads && Settled(m, p) && op != MarkActive(p)
    ensures WellFormed(Next(m, Call(t, op))) && Settled(Next(m, Call(t, op)), p)
  {
    var n := Next(m, Call(t, op));
    assert CachedPaused(n, p) == CachedPaused(m, p) && n.table == m.table;
  }

  lemma StepStaysSettled(m: Machine, step: Step, p: int, init: Snapshot)
    requires Inv(m, init) && Settled(m, p) && LeavesAlone(step, p)
    ensures WellFormed(Next(m, step)) && Settled(Next(m, step), p)
  {
    if !step.Write? && !step.Add? && step.t in m.threads {
      match step
      case Call(t, op) => CallSettles(m, t, op, p);
      case Clear(t) =>
      case Load(t) => Progresses(m, t, step, p, init);
      case Build(t) => Progresses(m, t, step, p, init);
      case Swap(t) => Progresses(m, t, step, p, init);
    }
  }

  lemma {:induction false} RunStaysSettled(m: Machine, steps: seq<Step>, p: int, init: Snapshot)
    requires Inv(m, init) && Settled(m, p) && forall s :: s in steps ==> LeavesAlone(s, p)
    ensures WellFormed(Run(m, steps)) && Settled(Run(m, steps), p)
    decreases |steps|
  {
    if steps != [] {
      assert steps[0] in steps;
      StepKeepsInv(m, steps[0], init);
      StepStaysSettled(m, steps[0], p, init);
      RunStaysSettled(Next(m, steps[0]), steps[1..], p, init);
    }
  }

  /** Enough steps for a thread to finish when nobody interferes, wherever it stands. */
  function Finish(t: int): seq<Step> {
    [Build(t), Swap(t), Load(t), Build(t), Swap(t)]
  }

  lemma {:induction false} RunSplit(m: Machine, a: seq<Step>, b: seq<Step>, init: Snapshot)
    requires Inv(m, init)
    ensures Inv(Run(m, a), init) && Run(m, a + b) == Run(Run(m, a), b)
    decreases |a|
  {
    if a == [] {
      assert a + b == b;
    } else {
      StepKeepsInv(m, a[0], init);
      assert (a + b)[1..] == a[1..] + b;
      RunSplit(Next(m, a[0]), a[1..], b, init);
    }
  }

  lemma RunCons(m: Machine, step: Step, rest: seq<Step>, init: Snapshot)
    requires Inv(m, init)
    ensures Inv(Next(m, step), init) && Run(m, [step] + rest) == Run(Next(m, step), rest)
  {
    StepKeepsInv(m, step, init);
    assert ([step] + rest)[1..] == rest;
  }

  lemma RunNone(m: Machine, init: Snapshot)
    requires Inv(m, init)
    ensures Run(m, []) == m
  {
  }

  lemma RunFive(m: Machine, t: int, init: Snapshot)
    requires Inv(m, init)
    ensures var a := Next(m, Build(t));
            Inv(a, init) && var b := Next(a, Swap(t));
            Inv(b, init) && var c := Next(b, Load(t));
            Inv(c, init) && var d := Next(c, Build(t));
            Inv(d, init) && Run(m, Finish(t)) == Next(d, Swap(t)) && Inv(Next(d, Swap(t)), init)
  {
    assert Finish(t) == [Build(t)] + ([Swap(t)] + ([Load(t)] + ([Build(t)] + ([Swap(t)] + []))));
    RunCons(m, Build(t), [Swap(t)] + ([Load(t)] + ([Build(t)] + ([Swap(t)] + []))), init);
    var a := Next(m, Build(t));
    RunCons(a, Swap(t), [Load(t)] + ([Build(t)] + ([Swap(t)] + [])), init);
    var b := Next(a, Swap(t));
    RunCons(b, Load(t), [Build(t)] + ([Swap(t)] + []), init);
    var c := Next(b, Load(t));
    RunCons(c, Build(t), [Swap(t)] + [], init);
    var d := Next(c, Build(t));
    RunCons(d, Swap(t), [], init);
    RunNone(Next(d, Swap(t)), init);
  }

  predicate Done(th: Thread) {
    th.Idle? || th.Clearing?
  }

  lemma LoadBuildSwapEnds(m: Machine, t: int)
    requires WellFormed(m) && t in m.threads && (Done(m.threads[t]) || m.threads[t].Starting?)
    ensures var a := Next(m, Load(t));
            WellFormed(a) && var b := Next(a, Build(t));
            WellFormed(b) && var c := Next(b, Swap(t));
            t in c.threads && Done(c.threads[t])
  {
  }

  lemma BuildSwapEndsOrStarts(m: Machine, t: int)
    requires WellFormed(m) && t in m.threads
    ensures var a := Next(m, Build(t));
            WellFormed(a) && var b := Next(a, Swap(t));
            t in b.threads && (Done(b.threads[t]) || b.threads[t].Starting?)
  {
  }

  /** The thread will say `b` about `p`, or has said it and nothing was said since. */
  predicate Says(m: Machine, t: int, p: int, b: bool)
    requires WellFormed(m) && t in m.threads
  {
    if Done(m.threads[t]) then CachedPaused(m, p) == b else Underway(m.threads[t], p) == Some(b)
  }

  lemma StepSays(m: Machine, t: int, step: Step, p: int, b: bool, init: Snapshot)
    requires Inv(m, init) && t in m.threads && Says(m, t, p, b) && step in {Load(t), Build(t), Swap(t)}
    ensures var n := Next(m, step); Inv(n, init) && t in n.threads && n.table == m.table && Says(n, t, p, b)
  {
    StepKeepsInv(m, step, init);
    Progresses(m, t, step, p, init);
  }

  lemma FinishSays(m: Machine, t: int, p: int, init: Snapshot)
    requires Inv(m, init) && t in m.threads && Underway(m.threads[t], p).Some?
    ensures var n := Run(m, Finish(t));
            Inv(n, init) && n.table == m.table && (CachedPaused(n, p) <==> Underway(m.threads[t], p).value)
  {
    var w := Underway(m.threads[t], p).value;
    RunFive(m, t, init);
    StepSays(m, t, Build(t), p, w, init);
    var a := Next(m, Build(t));
    StepSays(a, t, Swap(t), p, w, init);
    var b := Next(a, Swap(t));
    StepSays(b, t, Load(t), p, w, init);
    var c := Next(b, Load(t));
    StepSays(c, t, Build(t), p, w, init);
    StepSays(Next(c, Build(t)), t, Swap(t), p, w, init);
    BuildSwapEndsOrStarts(m, t);
    LoadBuildSwapEnds(b, t);
  }

  /** Cache and table agree about `p` however the machine goes on, as long as nobody pauses or
      resumes it, iff they agree now and no thread holds a different answer. */
  lemma AgreementLastsIffSettled(m: Machine, p: int, init: Snapshot)
    requires Inv(m, init)
    ensures Settled(m, p) <==>
            forall steps: seq<Step> :: (forall s :: s in steps ==> LeavesAlone(s, p)) ==>
              WellFormed(Run(m, steps)) && Agrees(Run(m, steps), p)
  {
    forall steps: seq<Step> | Settled(m, p) && forall s :: s in steps ==> LeavesAlone(s, p)
      ensures WellFormed(Run(m, steps)) && Agrees(Run(m, steps), p)
    {
      RunStaysSettled(m, steps, p, init);
    }
    if !Settled(m, p) {
      if !Agrees(m, p) {
        var none: seq<Step> := [];
        assert Run(m, none) == m && forall s :: s in none ==> LeavesAlone(s, p);
      } else {
        var t :| t in m.threads && Underway(m.threads[t], p).Some? && Underway(m.threads[t], p).value != (p in m.table);
        FinishSays(m, t, p, init);
        assert forall s :: s in Finish(t) ==> LeavesAlone(s, p);
      }
    }
  }

  // ---------- a pause that comes back ----------

  /** A reload reads the table, a resume writes it and is swapped in, and then the reload is. */
  const RELOADER := 1
  const RESUMER := 0

  function ResumeDuringReload(p: int, s: Snapshot): seq<Step> {
    [Call(RELOADER, Reload(s)), Write(p, false), Call(RESUMER, MarkActive(p))]
  }

  lemma CallBegins(m: Machine, t: int, op: Op, p: int)
    requires WellFormed(m) && t in m.threads && m.threads[t].Idle?
    ensures var n := Next(m, Call(t, op));
            && n.table == m.table && n.threads.Keys == m.threads.Keys
            && Underway(n.threads[t], p) == Word(Captured(m, op), p)
            && forall u :: u in m.threads && u != t ==> n.threads[u] == m.threads[u]
  {
  }

  lemma ResumeOvertakesReload(s: Snapshot, p: int)
    requires p in s.paused
    ensures var n := Run(Start(s, {RESUMER, RELOADER}, {p}), ResumeDuringReload(p, s));
            && Inv(n, s) && p !in n.table && n.threads.Keys == {RESUMER, RELOADER}
            && Underway(n.threads[RELOADER], p) == Some(true) && Underway(n.threads[RESUMER], p) == Some(false)
  {
    var m := Start(s, {RESUMER, RELOADER}, {p});
    var x, y, z := Call(RELOADER, Reload(s)), Write(p, false), Call(RESUMER, MarkActive(p));
    assert ResumeDuringReload(p, s) == [x] + ([y] + ([z] + []));
    RunCons(m, x, [y] + ([z] + []), s);
    CallBegins(m, RELOADER, Reload(s), p);
    var a := Next(m, x);
    RunCons(a, y, [z] + [], s);
    var b := Next(a, y);
    RunCons(b, z, [], s);
    CallBegins(b, RESUMER, MarkActive(p), p);
    RunNone(Next(b, z), s);
  }

  lemma StepLeavesOthers(m: Machine, t: int, u: int, step: Step)
    requires WellFormed(m) && t in m.threads && u in m.threads && u != t && step in {Load(t), Build(t), Swap(t)}
    ensures var n := Next(m, step); n.threads.Keys == m.threads.Keys && n.threads[u] == m.threads[u]
  {
  }

  lemma FinishLeavesOthers(m: Machine, t: int, u: int, init: Snapshot)
    requires Inv(m, init) && t in m.threads && u in m.threads && u != t
    ensures var n := Run(m, Finish(t)); u in n.threads && n.threads[u] == m.threads[u]
  {
    RunFive(m, t, init);
    var a := Next(m, Build(t));
    var b := Next(a, Swap(t));
    var c := Next(b, Load(t));
    StepLeavesOthers(m, t, u, Build(t));
    StepLeavesOthers(a, t, u, Swap(t));
    StepLeavesOthers(b, t, u, Load(t));
    StepLeavesOthers(c, t, u, Build(t));
    StepLeavesOthers(Next(c, Build(t)), t, u, Swap(t));
  }

  lemma ReloadRestoresStalePause(s: Snapshot, p: int)
    requires p in s.paused
    ensures var n := Run(Start(s, {RESUMER, RELOADER}, {p}),
                         ResumeDuringReload(p, s) + (Finish(RESUMER) + Finish(RELOADER)));
            WellFormed(n) && CachedPaused(n, p) && p !in n.table
  {
    var m := Start(s, {RESUMER, RELOADER}, {p});
    RunSplit(m, ResumeDuringReload(p, s), Finish(RESUMER) + Finish(RELOADER), s);
    ResumeOvertakesReload(s, p);
    var a := Run(m, ResumeDuringReload(p, s));
    RunSplit(a, Finish(RESUMER), Finish(RELOADER), s);
    FinishSays(a, RESUMER, p, s);
    FinishLeavesOthers(a, RESUMER, RELOADER, s);
    FinishSays(Run(a, Finish(RESUMER)), RELOADER, p, s);
  }

  // ---------- the suppressed counters ----------

  lemma AloneBuilds(m: Machine, t: int)
    requires WellFormed(m) && t in m.threads && m.threads[t].Loaded? && m.threads[t].cur == m.ptr
    requires m.threads[t].own != Some(m.ptr)
    ensures var n := Next(m, Build(t));
            && WellFormed(n) && n.ptr == m.ptr && n.counters == m.counters && t in n.threads
            && n.threads[t].Built? && n.threads[t].op == m.threads[t].op && n.threads[t].cur == m.ptr
            && n.threads[t].next < |n.heap| && n.heap[n.threads[t].next] == Effect(m.threads[t].op, m.heap[m.ptr])
  {
  }

  lemma AloneSwapsAndClears(m: Machine, t: int)
    requires WellFormed(m) && t in m.threads && m.threads[t].Built? && m.threads[t].cur == m.ptr
    requires m.threads[t].next < |m.heap|
    ensures var n := Next(m, Swap(t));
            WellFormed(n) && var d := Next(n, Clear(t));
            && WellFormed(d) && d.heap[d.ptr] == m.heap[m.threads[t].next]
            && d.counters == Cleared(m.counters, m.threads[t].op) && t in d.threads && d.threads[t].Idle?
  {
  }

  lemma DoneStaysDone(m: Machine, t: int)
    requires WellFormed(m) && t in m.threads && m.threads[t].Idle?
    ensures Next(m, Build(t)) == m && Next(m, Swap(t)) == m && Next(m, Clear(t)) == m
  {
  }

  /** Run by one thread alone, the four steps are the operation: its effect on the snapshot and on
      the counters, both. */
  lemma AloneIsAtomic(m: Machine, t: int)
    requires WellFormed(m) && t in m.threads && m.threads[t].Starting? && m.threads[t].own != Some(m.ptr)
    ensures var op, s := m.threads[t].op, m.heap[m.ptr];
            var a := Next(m, Load(t));
            WellFormed(a) && var b := Next(a, Build(t));
            WellFormed(b) && var c := Next(b, Swap(t));
            WellFormed(c) && var d := Next(c, Clear(t));
            && WellFormed(d) && d.heap[d.ptr] == Effect(op, s) && d.counters == CountersAfter(op, s, m.counters)
            && t in d.threads && d.threads[t].Idle?
  {
    var op, s := m.threads[t].op, m.heap[m.ptr];
    var a := Next(m, Load(t));
    if ReturnsEarly(op, s) {
      EarlyReturnChangesNothing(op, s);
      DoneStaysDone(a, t);
    } else {
      assert a == m.(threads := m.threads[t := Loaded(op, m.threads[t].own, m.ptr)]);
      AloneBuilds(a, t);
      AloneSwapsAndClears(Next(a, Build(t)), t);
    }
  }

  predicate ClearsOf(op: Op, p: int) {
    op.ArmAll? || ((op.Arm? || op.Disarm?) && op.id == p)
  }

  function Adds(steps: seq<Step>, p: int): nat {
    if steps == [] then 0 else Adds(steps[1..], p) + if steps[0] == Add(p) then 1 else 0
  }

  lemma StepCounts(m: Machine, step: Step, p: int)
    requires WellFormed(m)
    ensures Count(Next(m, step).counters, p) <= Count(m.counters, p) + if step == Add(p) then 1 else 0
    ensures !step.Clear? ==> Count(Next(m, step).counters, p) == Count(m.counters, p) + if step == Add(p) then 1 else 0
  {
  }

  lemma {:induction false} RunCounts(m: Machine, steps: seq<Step>, p: int, init: Snapshot)
    requires Inv(m, init)
    ensures var n := Run(m, steps); Count(n.counters, p) <= Count(m.counters, p) + Adds(steps, p)
    ensures (forall s :: s in steps ==> !s.Clear?) ==>
              Count(Run(m, steps).counters, p) == Count(m.counters, p) + Adds(steps, p)
    decreases |steps|
  {
    if steps != [] {
      assert steps[0] in steps;
      StepKeepsInv(m, steps[0], init);
      StepCounts(m, steps[0], p);
      RunCounts(Next(m, steps[0]), steps[1..], p, init);
    }
  }

  lemma {:induction false} AddsAppend(a: seq<Step>, b: seq<Step>, p: int)
    ensures Adds(a + b, p) == Adds(a, p) + Adds(b, p)
  {
    if a == [] {
      assert a + b == b;
    } else {
      AddsAppend(a[1..], b, p);
      assert (a + b)[1..] == a[1..] + b;
    }
  }

  lemma StepStaysClearing(m: Machine, t: int, step: Step)
    requires WellFormed(m) && t in m.threads && m.threads[t].Clearing? && step != Clear(t)
    ensures var n := Next(m, step); t in n.threads && n.threads[t] == m.threads[t]
  {
  }

  lemma {:induction false} StaysClearing(m: Machine, t: int, window: seq<Step>, init: Snapshot)
    requires Inv(m, init) && t in m.threads && m.threads[t].Clearing? && Clear(t) !in window
    ensures var n := Run(m, window); t in n.threads && n.threads[t] == m.threads[t]
    decreases |window|
  {
    if window != [] {
      assert window[0] in window;
      StepKeepsInv(m, window[0], init);
      StepStaysClearing(m, t, window[0]);
      assert Clear(t) !in window[1..];
      StaysClearing(Next(m, window[0]), t, window[1..], init);
    }
  }

  /** The swap of an arm or disarm and the clearing of its counters are two steps. What is added in the
      window between them is lost, a later episode's counts too; what is added after shows. So with
      nothing cleared later the counter shows all that was suppressed since the swap iff nothing was
      added in the window. */
  lemma CounterShowsAllIff(m: Machine, t: int, window: seq<Step>, later: seq<Step>, p: int, init: Snapshot)
    requires Inv(m, init) && t in m.threads && m.threads[t].Clearing? && ClearsOf(m.threads[t].op, p)
    requires Clear(t) !in window
    ensures var shown := Count(Run(m, window + ([Clear(t)] + later)).counters, p);
            shown <= Adds(later, p)
            && ((forall s :: s in later ==> !s.Clear?) ==>
                  shown == Adds(later, p) && (shown == Adds(window + later, p) <==> Adds(window, p) == 0))
  {
    StaysClearing(m, t, window, init);
    RunSplit(m, window, [Clear(t)] + later, init);
    var n := Run(m, window);
    RunCons(n, Clear(t), later, init);
    assert Count(Next(n, Clear(t)).counters, p) == 0;
    RunCounts(Next(n, Clear(t)), later, p, init);
    AddsAppend(window, later, p);
  }

  const ARMER := 0

  /** An arm-all up to its swap. */
  function ArmingUntilSwap(p: int): seq<Step> {
    [Call(ARMER, ArmAll([p])), Load(ARMER), Build(ARMER), Swap(ARMER)]
  }

  lemma RunFour(m: Machine, t: int, op: Op, init: Snapshot)
    requires Inv(m, init)
    ensures var a := Next(m, Call(t, op));
            Inv(a, init) && var b := Next(a, Load(t));
            Inv(b, init) && var c := Next(b, Build(t));
            Inv(c, init) && Inv(Next(c, Swap(t)), init)
            && Run(m, [Call(t, op), Load(t), Build(t), Swap(t)]) == Next(c, Swap(t))
  {
    assert [Call(t, op), Load(t), Build(t), Swap(t)] == [Call(t, op)] + ([Load(t)] + ([Build(t)] + ([Swap(t)] + [])));
    RunCons(m, Call(t, op), [Load(t)] + ([Build(t)] + ([Swap(t)] + [])), init);
    var a := Next(m, Call(t, op));
    RunCons(a, Load(t), [Build(t)] + ([Swap(t)] + []), init);
    var b := Next(a, Load(t));
    RunCons(b, Build(t), [Swap(t)] + [], init);
    var c := Next(b, Build(t));
    RunCons(c, Swap(t), [], init);
    RunNone(Next(c, Swap(t)), init);
  }

  lemma ArmAllLoads(m: Machine, t: int, p: int)
    requires WellFormed(m) && t in m.threads && m.threads[t].Idle?
    ensures var a := Next(m, Call(t, ArmAll([p])));
            WellFormed(a) && Next(a, Load(t)).threads == m.threads[t := Loaded(ArmAll([p]), None, m.ptr)]
            && Next(a, Load(t)).heap == m.heap && Next(a, Load(t)).ptr == m.ptr
  {
  }

  lemma ArmAllSwaps(m: Machine, t: int, p: int)
    requires WellFormed(m) && t in m.threads && m.threads[t] == Loaded(ArmAll([p]), None, m.ptr)
    ensures var n := Next(m, Build(t));
            WellFormed(n) && var d := Next(n, Swap(t));
            WellFormed(d) && d.threads == m.threads[t := Clearing(ArmAll([p]))] && d.heap[d.ptr].armed == {p}
  {
    assert Effect(ArmAll([p]), m.heap[m.ptr]).armed == {p};
  }

  lemma ArmedButNotCleared(s: Snapshot, table: set<int>, p: int)
    ensures var n := Run(Start(s, {ARMER}, table), ArmingUntilSwap(p));
            && Inv(n, s) && ARMER in n.threads && n.threads[ARMER] == Clearing(ArmAll([p]))
            && n.heap[n.ptr].armed == {p}
  {
    var m, op := Start(s, {ARMER}, table), ArmAll([p]);
    RunFour(m, ARMER, op, s);
    ArmAllLoads(m, ARMER, p);
    ArmAllSwaps(Next(Next(m, Call(ARMER, op)), Load(ARMER)), ARMER, p);
  }

  /** A handler's arm-all, with a tick that suppresses between its swap and its clearing: the project is
      armed and has suppressed one tick, and its counter shows none. */
  lemma ArmDropsCount(s: Snapshot, table: set<int>, p: int)
    ensures var n := Run(Start(s, {ARMER}, table), ArmingUntilSwap(p) + ([Add(p)] + ([Clear(ARMER)] + [])));
            WellFormed(n) && p in n.heap[n.ptr].armed && Count(n.counters, p) == 0
  {
    var m := Start(s, {ARMER}, table);
    ArmedButNotCleared(s, table, p);
    RunSplit(m, ArmingUntilSwap(p), [Add(p)] + ([Clear(ARMER)] + []), s);
    var n := Run(m, ArmingUntilSwap(p));
    CounterShowsAllIff(n, ARMER, [Add(p)], [], p, s);
    RunCons(n, Add(p), [Clear(ARMER)] + [], s);
    RunCons(Next(n, Add(p)), Clear(ARMER), [], s);
    RunNone(Next(Next(n, Add(p)), Clear(ARMER)), s);
  }
}
