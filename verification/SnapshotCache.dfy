/** The snapshot cache: its operations one at a time, then any number of threads running
    them as load / build / compare-and-swap steps. */
module SnapshotCache {
  import opened Options
  import opened Rules

  /** `rules` stands for everything ReloadCache derives from the rule and allowlist tables. */
  datatype Snapshot = Snapshot(rules: seq<Rule>, paused: set<int>, armed: set<int>)

  datatype Op = Arm(id: int) | ArmAll(ids: seq<int>) | Disarm(id: int) | MarkActive(id: int) | Reload(fromDb: Snapshot)

  /** The operation's whole effect, were it alone. */
  function Effect(op: Op, s: Snapshot): Snapshot {
    match op
    case Arm(id) => s.(armed := s.armed + {id})
    case ArmAll(ids) => if ids == [] then s else s.(armed := set i | i in ids)
    case Disarm(id) => s.(armed := s.armed - {id})
    case MarkActive(id) => s.(paused := s.paused - {id})
    case Reload(fromDb) => fromDb.(armed := s.armed)
  }

  /** Operations that return right after loading, without a swap. */
  predicate ReturnsEarly(op: Op, s: Snapshot) {
    match op
    case Arm(id) => id in s.armed
    case ArmAll(ids) => ids == []
    case Disarm(id) => id !in s.armed
    case MarkActive(id) => id !in s.paused
    case Reload(_) => false
  }

  lemma EarlyReturnChangesNothing(op: Op, s: Snapshot)
    requires ReturnsEarly(op, s)
    ensures Effect(op, s) == s
  {
  }

  type Counters = map<int, nat>

  function Count(c: Counters, id: int): nat {
    if id in c then c[id] else 0
  }

  /** What a completed operation does to the suppressed counters. */
  function CountersAfter(op: Op, s: Snapshot, c: Counters): Counters {
    if ReturnsEarly(op, s) then c
    else match op
      case Arm(id) => c - {id}
      case ArmAll(_) => map[]
      case Disarm(id) => c - {id}
      case _ => c
  }

  /** A counter is cleared iff its project is newly armed, was armed and is disarmed, or everything is
      armed anew; otherwise it stays. */
  lemma CounterIsClearedIff(op: Op, s: Snapshot, c: Counters, p: int)
    ensures Count(CountersAfter(op, s, c), p) ==
            if (op == Arm(p) && p !in s.armed) || (op == Disarm(p) && p in s.armed) || (op.ArmAll? && op.ids != [])
            then 0 else Count(c, p)
  {
  }

  class Cache {
    var snapshot: Snapshot
    var suppressed: Counters

    constructor ()
      ensures snapshot == Snapshot([], {}, {}) && suppressed == map[]
    {
      snapshot, suppressed := Snapshot([], {}, {}), map[];
    }

    method AddSuppressed(id: int) returns (n: nat)
      modifies this`suppressed
      ensures n == Count(old(suppressed), id) + 1 && suppressed == old(suppressed)[id := n]
    {
      n := Count(suppressed, id) + 1;
      suppressed := suppressed[id := n];
    }

    method MarkProjectActive(id: int)
      modifies this
      ensures snapshot == Effect(MarkActive(id), old(snapshot)) && suppressed == old(suppressed)
    {
      if id !in snapshot.paused {
        EarlyReturnChangesNothing(MarkActive(id), snapshot);
        return;
      }
      snapshot := snapshot.(paused := snapshot.paused - {id});
    }

    method ArmAllProjects(ids: seq<int>)
      modifies this
      ensures snapshot == Effect(ArmAll(ids), old(snapshot))
      ensures suppressed == CountersAfter(ArmAll(ids), old(snapshot), old(suppressed))
    {
      if ids == [] { return; }
      snapshot := snapshot.(armed := set i | i in ids);
      suppressed := map[];
    }

    method ArmProject(id: int)
      modifies this
      ensures snapshot == Effect(Arm(id), old(snapshot))
      ensures suppressed == CountersAfter(Arm(id), old(snapshot), old(suppressed))
    {
      if id in snapshot.armed {
        EarlyReturnChangesNothing(Arm(id), snapshot);
        return;
      }
      snapshot := snapshot.(armed := snapshot.armed + {id});
      suppressed := suppressed - {id};
    }

    method DisarmProject(id: int)
      modifies this
      ensures snapshot == Effect(Disarm(id), old(snapshot))
      ensures suppressed == CountersAfter(Disarm(id), old(snapshot), old(suppressed))
    {
      if id !in snapshot.armed {
        EarlyReturnChangesNothing(Disarm(id), snapshot);
        return;
      }
      snapshot := snapshot.(armed := snapshot.armed - {id});
      suppressed := suppressed - {id};
    }

    method StorePreservingRuntime(next: Snapshot)
      modifies this
      ensures snapshot == Effect(Reload(next), old(snapshot)) && suppressed == old(suppressed)
    {
      snapshot := next.(armed := snapshot.armed);
    }
  }

  // ---------- many threads ----------

  /** Where one thread stands inside an operation. A reload owns its cell from the start and
      rewrites it on every retry; the other operations allocate one when they build. */
  datatype Thread =
    | Idle
    | Starting(op: Op, own: Option<nat>)
    | Loaded(op: Op, own: Option<nat>, cur: nat)
    | Built(op: Op, next: nat, cur: nat)
    | Clearing(op: Op)

  /** `heap` holds every snapshot ever allocated, `ptr` is the atomic pointer, `table` the paused
      projects of the database, `counters` the mutex-guarded suppressed counts. `published`,
      `calls` and `log` are history: cells that have been installed, operations each thread has
      called, and operations in the order in which they took effect. */
  datatype Machine = Machine(heap: seq<Snapshot>, ptr: nat, threads: map<int, Thread>, table: set<int>,
                             counters: Counters, published: set<nat>, calls: map<int, seq<Op>>, log: seq<(int, Op)>)

  /** `Write` is a handler's or the pipeline's update of a project's paused column, `Add` an
      AddSuppressed, `Clear` what follows the swap of an arming operation. */
  datatype Step =
    | Call(t: int, op: Op) | Load(t: int) | Build(t: int) | Swap(t: int) | Clear(t: int)
    | Write(id: int, paused: bool) | Add(id: int)

  predicate WellFormed(m: Machine) {
    && m.ptr < |m.heap|
    && m.threads.Keys == m.calls.Keys
    && forall t :: t in m.threads && m.threads[t].Loaded? ==> m.threads[t].cur < |m.heap|
  }

  function Allocate(m: Machine, t: int, th: Thread, s: Snapshot): Machine {
    m.(heap := m.heap + [s], threads := m.threads[t := th])
  }

  /** A reload reads the table when it is called. */
  function Captured(m: Machine, op: Op): Op {
    if op.Reload? then Reload(op.fromDb.(paused := m.table)) else op
  }

  predicate ClearsCounters(op: Op) {
    op.Arm? || op.ArmAll? || op.Disarm?
  }

  function Cleared(c: Counters, op: Op): Counters {
    match op
    case Arm(id) => c - {id}
    case Disarm(id) => c - {id}
    case ArmAll(_) => map[]
    case _ => c
  }

  /** One atomic step; a step its thread cannot take changes nothing. */
  function Next(m: Machine, step: Step): Machine
    requires WellFormed(m)
  {
    match step
    case Write(id, paused) => m.(table := if paused then m.table + {id} else m.table - {id})
    case Add(id) => m.(counters := m.counters[id := Count(m.counters, id) + 1])
    case _ => if step.t in m.threads then ThreadStep(m, step.t, step) else m
  }

  function ThreadStep(m: Machine, t: int, step: Step): Machine
    requires WellFormed(m) && t in m.threads && !step.Write? && !step.Add?
  {
    match step
    case Call(_, op0) =>
      if !m.threads[t].Idle? then m
      else
        var op := Captured(m, op0);
        var called := m.(calls := m.calls[t := m.calls[t] + [op]]);
        if op.Reload? then Allocate(called, t, Starting(op, Some(|m.heap|)), op.fromDb)
        else called.(threads := m.threads[t := Starting(op, None)])
    case Load(_) =>
      if !m.threads[t].Starting? then m
      else
        var op := m.threads[t].op;
        if ReturnsEarly(op, m.heap[m.ptr]) then m.(threads := m.threads[t := Idle], log := m.log + [(t, op)])
        else m.(threads := m.threads[t := Loaded(op, m.threads[t].own, m.ptr)])
    case Build(_) =>
      if !m.threads[t].Loaded? then m
      else
        var Loaded(op, own, cur) := m.threads[t];
        var built := Effect(op, m.heap[cur]);
        if own.Some? && own.value < |m.heap| then
          m.(heap := m.heap[own.value := built], threads := m.threads[t := Built(op, own.value, cur)])
        else Allocate(m, t, Built(op, |m.heap|, cur), built)
    case Swap(_) =>
      if !m.threads[t].Built? then m
      else
        var Built(op, next, cur) := m.threads[t];
        if m.ptr == cur then
          m.(ptr := next, published := m.published + {next}, log := m.log + [(t, op)],
             threads := m.threads[t := if ClearsCounters(op) then Clearing(op) else Idle])
        else
          m.(threads := m.threads[t := Starting(op, if op.Reload? then Some(next) else None)])
    case Clear(_) =>
      if !m.threads[t].Clearing? then m
      else m.(threads := m.threads[t := Idle], counters := Cleared(m.counters, m.threads[t].op))
  }

  function Replay(s: Snapshot, log: seq<(int, Op)>): Snapshot {
    if log == [] then s
    else Effect(log[|log| - 1].1, Replay(s, log[..|log| - 1]))
  }

  function OpsOf(log: seq<(int, Op)>, t: int): seq<Op> {
    if log == [] then []
    else OpsOf(log[..|log| - 1], t) + (if log[|log| - 1].0 == t then [log[|log| - 1].1] else [])
  }

  function Pending(th: Thread): seq<Op> {
    if th.Idle? || th.Clearing? then [] else [th.op]
  }

  function Owned(th: Thread): Option<nat> {
    match th
    case Idle => None
    case Clearing(_) => None
    case Starting(_, own) => own
    case Loaded(_, own, _) => own
    case Built(_, next, _) => Some(next)
  }

  ghost predicate OwnsPrivately(m: Machine, t: int)
    requires t in m.threads
  {
    var own := Owned(m.threads[t]);
    own.Some? ==> own.value < |m.heap| && own.value !in m.published
                  && forall u :: u in m.threads && u != t ==> Owned(m.threads[u]) != own
  }

  /** What the thread has loaded was published, and what it has built is the effect on that. */
  predicate BuiltFromLoaded(m: Machine, th: Thread) {
    && (th.Loaded? || th.Built? ==> th.cur in m.published)
    && (th.Built? ==> th.cur < |m.heap| && th.next < |m.heap| && m.heap[th.next] == Effect(th.op, m.heap[th.cur]))
  }

  /** Its calls are those that took effect, in their order, and the one under way. */
  predicate Accounted(m: Machine, t: int)
    requires t in m.threads && t in m.calls
  {
    OpsOf(m.log, t) + Pending(m.threads[t]) == m.calls[t]
  }

  ghost predicate ThreadInv(m: Machine, t: int)
    requires t in m.threads && t in m.calls
  {
    OwnsPrivately(m, t) && BuiltFromLoaded(m, m.threads[t]) && Accounted(m, t)
  }

  ghost predicate Inv(m: Machine, init: Snapshot) {
    && WellFormed(m)
    && m.ptr in m.published
    && (forall c :: c in m.published ==> c < |m.heap|)
    && m.heap[m.ptr] == Replay(init, m.log)
    && forall t :: t in m.threads ==> ThreadInv(m, t)
  }

  /** Published cells keep their content, and stay published. */
  ghost predicate Immutable(a: Machine, b: Machine) {
    && |a.heap| <= |b.heap| && a.published <= b.published
    && forall c :: c in a.published && c < |a.heap| ==> b.heap[c] == a.heap[c]
  }

  lemma LogStep(init: Snapshot, log: seq<(int, Op)>, t: int, op: Op)
    ensures Replay(init, log + [(t, op)]) == Effect(op, Replay(init, log))
  {
  }

  lemma LogStepOps(log: seq<(int, Op)>, t: int, op: Op, u: int)
    ensures OpsOf(log + [(t, op)], u) == if u == t then OpsOf(log, u) + [op] else OpsOf(log, u)
  {
  }

  /** What a step of thread `t` leaves to the others: their places, and every cell it does not own. */
  ghost predicate OthersKept(m: Machine, n: Machine, t: int)
    requires t in m.threads && t in n.threads
  {
    var own, own' := Owned(m.threads[t]), Owned(n.threads[t]);
    && n.threads.Keys == m.threads.Keys && n.calls.Keys == m.calls.Keys
    && (forall u :: u in m.threads && u != t ==> n.threads[u] == m.threads[u])
    && (forall u :: u in m.calls && u != t ==> n.calls[u] == m.calls[u] && OpsOf(n.log, u) == OpsOf(m.log, u))
    && (own'.Some? ==> own' == own || own'.value >= |m.heap|)
    && m.published <= n.published && (forall c :: c in n.published ==> c in m.published || own == Some(c))
    && |m.heap| <= |n.heap| && (forall c :: 0 <= c < |m.heap| && own != Some(c) ==> n.heap[c] == m.heap[c])
  }

  lemma OthersStayPrivate(m: Machine, n: Machine, t: int, u: int)
    requires t in m.threads && t in n.threads && OthersKept(m, n, t) && u in m.threads && u != t
    requires OwnsPrivately(m, u)
    ensures OwnsPrivately(n, u)
  {
  }

  lemma OthersStayBuilt(m: Machine, n: Machine, t: int, u: int)
    requires t in m.threads && t in n.threads && OthersKept(m, n, t) && u in m.threads && u != t
    requires OwnsPrivately(m, t) && OwnsPrivately(m, u) && BuiltFromLoaded(m, m.threads[u])
    ensures BuiltFromLoaded(n, n.threads[u])
  {
    assert Owned(m.threads[u]).Some? ==> Owned(m.threads[t]) != Owned(m.threads[u]);
  }

  lemma OthersStayOk(m: Machine, n: Machine, t: int)
    requires t in m.threads && t in n.threads && OthersKept(m, n, t) && m.threads.Keys == m.calls.Keys
    requires forall u :: u in m.threads ==> ThreadInv(m, u)
    ensures forall u :: u in n.threads && u != t ==> ThreadInv(n, u)
  {
    forall u | u in n.threads && u != t ensures ThreadInv(n, u) {
      assert ThreadInv(m, u) && ThreadInv(m, t);
      OthersStayPrivate(m, n, t, u);
      OthersStayBuilt(m, n, t, u);
    }
  }

  lemma CallKeepsSelf(m: Machine, t: int, op: Op)
    requires WellFormed(m) && t in m.threads && m.threads[t].Idle? && ThreadInv(m, t)
    requires forall c :: c in m.published ==> c < |m.heap|
    requires forall u :: u in m.threads ==> OwnsPrivately(m, u)
    ensures ThreadInv(Next(m, Call(t, op)), t) && OthersKept(m, Next(m, Call(t, op)), t)
  {
  }

  lemma CallKeepsInv(m: Machine, t: int, op: Op, init: Snapshot)
    requires Inv(m, init) && t in m.threads && m.threads[t].Idle?
    ensures var n := Next(m, Call(t, op)); Inv(n, init) && Immutable(m, n)
  {
    var n := Next(m, Call(t, op));
    forall u | u in m.threads ensures OwnsPrivately(m, u) { assert ThreadInv(m, u); }
    assert ThreadInv(m, t);
    CallKeepsSelf(m, t, op);
    OthersStayOk(m, n, t);
  }

  lemma LoadKeepsSelf(m: Machine, t: int)
    requires WellFormed(m) && t in m.threads && m.threads[t].Starting? && ThreadInv(m, t) && m.ptr in m.published
    ensures ThreadInv(Next(m, Load(t)), t)
  {
    hide OpsOf, Effect;
    LogStepOps(m.log, t, m.threads[t].op, t);
  }

  lemma LoadKeepsOthers(m: Machine, t: int)
    requires WellFormed(m) && t in m.threads && m.threads[t].Starting?
    ensures OthersKept(m, Next(m, Load(t)), t)
  {
    forall u | u in m.calls && u != t ensures OpsOf(Next(m, Load(t)).log, u) == OpsOf(m.log, u) {
      LogStepOps(m.log, t, m.threads[t].op, u);
    }
  }

  lemma LoadKeepsLog(m: Machine, t: int, init: Snapshot)
    requires WellFormed(m) && m.ptr in m.published && m.heap[m.ptr] == Replay(init, m.log)
    requires t in m.threads && m.threads[t].Starting?
    ensures var n := Next(m, Load(t));
            WellFormed(n) && n.ptr in n.published && n.heap[n.ptr] == Replay(init, n.log) && Immutable(m, n)
            && n.published == m.published && n.heap == m.heap
  {
    var op := m.threads[t].op;
    LogStep(init, m.log, t, op);
    if ReturnsEarly(op, m.heap[m.ptr]) { EarlyReturnChangesNothing(op, m.heap[m.ptr]); }
  }

  lemma LoadKeepsInv(m: Machine, t: int, init: Snapshot)
    requires Inv(m, init) && t in m.threads && m.threads[t].Starting?
    ensures var n := Next(m, Load(t)); Inv(n, init) && Immutable(m, n)
  {
    assert ThreadInv(m, t);
    LoadKeepsLog(m, t, init);
    LoadKeepsSelf(m, t);
    LoadKeepsOthers(m, t);
    OthersStayOk(m, Next(m, Load(t)), t);
  }

  lemma BuildKeepsSelf(m: Machine, t: int)
    requires WellFormed(m) && t in m.threads && m.threads[t].Loaded? && ThreadInv(m, t)
    requires forall c :: c in m.published ==> c < |m.heap|
    requires forall u :: u in m.threads ==> OwnsPrivately(m, u)
    ensures ThreadInv(Next(m, Build(t)), t) && Next(m, Build(t)).threads[t].next !in m.published
  {
  }

  lemma BuildKeepsOthers(m: Machine, t: int)
    requires WellFormed(m) && t in m.threads && m.threads[t].Loaded?
    ensures OthersKept(m, Next(m, Build(t)), t)
  {
  }

  lemma BuildKeepsInv(m: Machine, t: int, init: Snapshot)
    requires Inv(m, init) && t in m.threads && m.threads[t].Loaded?
    ensures var n := Next(m, Build(t)); Inv(n, init) && Immutable(m, n)
  {
    var n := Next(m, Build(t));
    assert ThreadInv(m, t);
    forall u | u in m.threads ensures OwnsPrivately(m, u) { assert ThreadInv(m, u); }
    BuildKeepsSelf(m, t);
    BuildKeepsOthers(m, t);
    OthersStayOk(m, n, t);
  }

  lemma SwapKeepsSelf(m: Machine, t: int)
    requires WellFormed(m) && t in m.threads && m.threads[t].Built? && ThreadInv(m, t)
    ensures ThreadInv(Next(m, Swap(t)), t)
  {
    hide OpsOf, Effect;
    LogStepOps(m.log, t, m.threads[t].op, t);
  }

  lemma SwapKeepsOps(m: Machine, t: int, u: int)
    requires WellFormed(m) && t in m.threads && m.threads[t].Built? && u != t
    ensures OpsOf(Next(m, Swap(t)).log, u) == OpsOf(m.log, u)
  {
    LogStepOps(m.log, t, m.threads[t].op, u);
  }

  lemma SwapKeepsOthers(m: Machine, t: int)
    requires WellFormed(m) && t in m.threads && m.threads[t].Built?
    ensures OthersKept(m, Next(m, Swap(t)), t)
  {
    hide OpsOf, Effect;
    forall u | u in m.calls && u != t ensures OpsOf(Next(m, Swap(t)).log, u) == OpsOf(m.log, u) {
      SwapKeepsOps(m, t, u);
    }
  }

  lemma SwapKeepsLog(m: Machine, t: int, init: Snapshot)
    requires WellFormed(m) && m.ptr in m.published && m.heap[m.ptr] == Replay(init, m.log)
    requires t in m.threads && m.threads[t].Built? && BuiltFromLoaded(m, m.threads[t])
    ensures var n := Next(m, Swap(t));
            WellFormed(n) && n.ptr in n.published && n.heap[n.ptr] == Replay(init, n.log)
  {
    LogStep(init, m.log, t, m.threads[t].op);
  }

  lemma SwapPublishes(m: Machine, t: int)
    requires WellFormed(m) && t in m.threads && m.threads[t].Built?
    ensures var n := Next(m, Swap(t));
            m.published <= n.published <= m.published + {m.threads[t].next} && n.heap == m.heap
  {
  }

  lemma SwapKeepsInv(m: Machine, t: int, init: Snapshot)
    requires Inv(m, init) && t in m.threads && m.threads[t].Built?
    ensures var n := Next(m, Swap(t)); Inv(n, init) && Immutable(m, n)
  {
    assert ThreadInv(m, t);
    SwapKeepsLog(m, t, init);
    SwapPublishes(m, t);
    SwapKeepsSelf(m, t);
    SwapKeepsOthers(m, t);
    OthersStayOk(m, Next(m, Swap(t)), t);
  }

  lemma SideStepKeepsInv(m: Machine, step: Step, init: Snapshot)
    requires Inv(m, init) && (step.Write? || step.Add? || step.Clear?)
    ensures Inv(Next(m, step), init) && Immutable(m, Next(m, step))
  {
    var n := Next(m, step);
    forall u | u in n.threads ensures ThreadInv(n, u) { assert ThreadInv(m, u); }
  }

  lemma StepKeepsInv(m: Machine, step: Step, init: Snapshot)
    requires Inv(m, init)
    ensures Inv(Next(m, step), init) && Immutable(m, Next(m, step))
  {
    if step.Write? || step.Add? || step.Clear? {
      SideStepKeepsInv(m, step, init);
    } else if step.t in m.threads {
      var t := step.t;
      match step
      case Call(_, op) => if m.threads[t].Idle? { CallKeepsInv(m, t, op, init); }
      case Load(_) => if m.threads[t].Starting? { LoadKeepsInv(m, t, init); }
      case Build(_) => if m.threads[t].Loaded? { BuildKeepsInv(m, t, init); }
      case Swap(_) => if m.threads[t].Built? { SwapKeepsInv(m, t, init); }
    }
  }

  function Run(m: Machine, steps: seq<Step>): Machine
    requires exists init :: Inv(m, init)
    decreases |steps|
  {
    if steps == [] then m
    else
      assert exists init :: Inv(Next(m, steps[0]), init) by {
        var init :| Inv(m, init);
        StepKeepsInv(m, steps[0], init);
      }
      Run(Next(m, steps[0]), steps[1..])
  }

  function Start(init: Snapshot, threads: set<int>, table: set<int>): (m: Machine)
    ensures Inv(m, init)
  {
    Machine([init], 0, map t | t in threads :: Idle, table, map[], {0}, map t | t in threads :: [], [])
  }

  lemma ImmutableTrans(a: Machine, b: Machine, c: Machine)
    requires Immutable(a, b) && Immutable(b, c)
    ensures Immutable(a, c)
  {
  }

  lemma StepKeepsThreads(m: Machine, step: Step)
    requires WellFormed(m)
    ensures Next(m, step).threads.Keys == m.threads.Keys
  {
  }

  lemma {:induction false} RunKeepsInv(m: Machine, steps: seq<Step>, init: Snapshot)
    requires Inv(m, init)
    ensures var n := Run(m, steps); Inv(n, init) && Immutable(m, n) && n.threads.Keys == m.threads.Keys
    decreases |steps|
  {
    if steps != [] {
      StepKeepsInv(m, steps[0], init);
      StepKeepsThreads(m, steps[0]);
      RunKeepsInv(Next(m, steps[0]), steps[1..], init);
      ImmutableTrans(m, Next(m, steps[0]), Run(m, steps));
    }
  }

  /** Every interleaving: what readers see is the operations run one after the other in log
      order, each thread's completed operations are in the log once and in its own order, and
      no published snapshot is ever written again. */
  lemma EveryInterleavingIsSequential(m: Machine, steps: seq<Step>, init: Snapshot)
    requires Inv(m, init)
    ensures var n := Run(m, steps);
            && Inv(n, init) && Immutable(m, n)
            && n.heap[n.ptr] == Replay(init, n.log)
            && n.threads.Keys == m.threads.Keys == n.calls.Keys
            && forall t :: t in n.threads ==> OpsOf(n.log, t) + Pending(n.threads[t]) == n.calls[t]
  {
    RunKeepsInv(m, steps, init);
    var n := Run(m, steps);
    forall t | t in n.threads ensures OpsOf(n.log, t) + Pending(n.threads[t]) == n.calls[t] {
      assert ThreadInv(n, t);
    }
  }

  predicate Arms(op: Op, p: int) {
    (op.Arm? && op.id == p) || (op.ArmAll? && p in op.ids)
  }

  /** Disarm(p), or an arm-all that leaves `p` out. */
  predicate Disarms(op: Op, p: int) {
    (op.Disarm? && op.id == p) || (op.ArmAll? && op.ids != [] && p !in op.ids)
  }

  /** No arm and no disarm is lost: `p` is armed iff the last logged operation about it armed it.
      Reloads and resumes have no say. */
  lemma {:induction false} LastWordDecidesArmed(s: Snapshot, log: seq<(int, Op)>, p: int)
    ensures p in Replay(s, log).armed <==>
            ((exists k :: 0 <= k < |log| && Arms(log[k].1, p) && forall j :: k < j < |log| ==> !Disarms(log[j].1, p))
             || (p in s.armed && forall j :: 0 <= j < |log| ==> !Disarms(log[j].1, p)))
  {
    if log != [] {
      var last := |log| - 1;
      var front := log[..last];
      LastWordDecidesArmed(s, front, p);
      var op := log[last].1;
      assert forall j :: 0 <= j < last ==> front[j] == log[j];
      if Arms(op, p) {
        assert !Disarms(op, p);
      } else if !Disarms(op, p) {
        assert p in Replay(s, log).armed <==> p in Replay(s, front).armed;
        if k :| 0 <= k < |log| && Arms(log[k].1, p) && forall j :: k < j < |log| ==> !Disarms(log[j].1, p) {
          assert Arms(front[k].1, p);
        }
      }
    }
  }
}
