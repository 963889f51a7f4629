/** The agent collector: the busy/idle hysteresis of a process, and the cached decision
    whether the process is tracked at all. */
module Agents {
  import opened Options
  import opened CwdPattern
  import opened Rules

  // ---------- hysteresis ----------

  datatype Activity = Activity(working: bool, above: nat, below: nat)

  const IDLE := Activity(false, 0, 0)

  function ActivityStep(a: Activity, above: bool, rise: nat, fall: nat): Activity {
    if above then Activity(a.working || a.above + 1 >= rise, a.above + 1, 0)
    else Activity(a.working && a.below + 1 < fall, 0, a.below + 1)
  }

  /** The classifier after a history of above-bar (true) and below-bar ticks. */
  function Observed(h: seq<bool>, rise: nat, fall: nat): Activity {
    if h == [] then IDLE else ActivityStep(Observed(h[..|h| - 1], rise, fall), h[|h| - 1], rise, fall)
  }

  /** The `len` ticks before position `i` all read `v`. */
  ghost predicate RunEnds(h: seq<bool>, i: int, len: nat, v: bool) {
    len <= i <= |h| && forall k :: i - len <= k < i ==> h[k] == v
  }

  lemma {:induction false} StreaksMeasureRuns(h: seq<bool>, rise: nat, fall: nat, len: nat)
    requires len >= 1
    ensures var a := Observed(h, rise, fall);
            (a.above >= len <==> RunEnds(h, |h|, len, true)) && (a.below >= len <==> RunEnds(h, |h|, len, false))
  {
    if h != [] {
      var front := h[..|h| - 1];
      if len > 1 { StreaksMeasureRuns(front, rise, fall, len - 1); }
      assert forall v :: RunEnds(h, |h|, len, v) <==> h[|h| - 1] == v && RunEnds(front, |front|, len - 1, v);
    }
  }

  /** A rise run has completed, and no fall run since. */
  ghost predicate LastRunWasRise(h: seq<bool>, rise: nat, fall: nat) {
    exists i :: RunEnds(h, i, rise, true) && forall j :: i < j <= |h| ==> !RunEnds(h, j, fall, false)
  }

  lemma RunEndsInFront(h: seq<bool>, i: int, len: nat, v: bool)
    requires h != [] && i < |h|
    ensures RunEnds(h, i, len, v) <==> RunEnds(h[..|h| - 1], i, len, v)
  {
  }

  lemma LastRunStep(h: seq<bool>, rise: nat, fall: nat)
    requires h != [] && rise >= 1 && fall >= 1
    ensures LastRunWasRise(h, rise, fall) <==>
            RunEnds(h, |h|, rise, true)
            || (LastRunWasRise(h[..|h| - 1], rise, fall) && !RunEnds(h, |h|, fall, false))
  {
    var front := h[..|h| - 1];
    if LastRunWasRise(front, rise, fall) && !RunEnds(h, |h|, fall, false) {
      var i :| RunEnds(front, i, rise, true) && forall j :: i < j <= |front| ==> !RunEnds(front, j, fall, false);
      RunEndsInFront(h, i, rise, true);
      forall j | i < j <= |h| ensures !RunEnds(h, j, fall, false) {
        if j < |h| { RunEndsInFront(h, j, fall, false); }
      }
    }
    if LastRunWasRise(h, rise, fall) && !RunEnds(h, |h|, rise, true) {
      var i :| RunEnds(h, i, rise, true) && forall j :: i < j <= |h| ==> !RunEnds(h, j, fall, false);
      RunEndsInFront(h, i, rise, true);
      forall j | i < j <= |front| ensures !RunEnds(front, j, fall, false) { RunEndsInFront(h, j, fall, false); }
    }
  }

  /** Working iff the most recent completed run was a rise run. */
  lemma {:induction false} WorkingMeansLastRunWasRise(h: seq<bool>, rise: nat, fall: nat)
    requires rise >= 1 && fall >= 1
    ensures Observed(h, rise, fall).working <==> LastRunWasRise(h, rise, fall)
  {
    if h != [] {
      var front := h[..|h| - 1];
      WorkingMeansLastRunWasRise(front, rise, fall);
      LastRunStep(h, rise, fall);
      StreaksMeasureRuns(h, rise, fall, rise);
      StreaksMeasureRuns(h, rise, fall, fall);
      RiseImpliesWorking(front, rise, fall);
    }
  }

  lemma {:induction false} RiseImpliesWorking(h: seq<bool>, rise: nat, fall: nat)
    requires rise >= 1 && fall >= 1
    ensures var a := Observed(h, rise, fall); (a.above >= rise ==> a.working) && (a.working ==> a.below < fall)
  {
  }

  function AboveTicks(h: seq<bool>): nat {
    if h == [] then 0 else AboveTicks(h[..|h| - 1]) + if h[|h| - 1] then 1 else 0
  }

  /** Ticks on which the process emits, were it tracked. */
  function WorkingTicks(h: seq<bool>, rise: nat, fall: nat): nat {
    if h == [] then 0 else WorkingTicks(h[..|h| - 1], rise, fall) + if Observed(h, rise, fall).working then 1 else 0
  }

  /** Credit still to come if the process fell silent now. */
  function Tail(a: Activity, fall: nat): int {
    if a.working then fall - 1 - a.below else 0
  }

  lemma {:induction false} WorkIsPaidFor(h: seq<bool>, rise: nat, fall: nat)
    requires rise >= 1 && fall >= 1
    ensures WorkingTicks(h, rise, fall) + Tail(Observed(h, rise, fall), fall) <= fall * AboveTicks(h)
  {
    if h != [] {
      var front := h[..|h| - 1];
      WorkIsPaidFor(front, rise, fall);
      RiseImpliesWorking(front, rise, fall);
      var paid := fall * AboveTicks(front);
      assert fall * (AboveTicks(front) + 1) == paid + fall;
      assert fall * AboveTicks(h) == paid + if h[|h| - 1] then fall else 0;
    }
  }

  /** Every above-bar tick buys at most `fall` billed ticks, and a history in which the bar was
      never held for `rise` ticks in a row bills nothing. */
  lemma WorkingTicksBounded(h: seq<bool>, rise: nat, fall: nat)
    requires rise >= 1 && fall >= 1
    ensures WorkingTicks(h, rise, fall) <= fall * AboveTicks(h)
    ensures (forall i :: !RunEnds(h, i, rise, true)) ==> WorkingTicks(h, rise, fall) == 0
  {
    WorkIsPaidFor(h, rise, fall);
    RiseImpliesWorking(h, rise, fall);
    if forall i :: !RunEnds(h, i, rise, true) { NoRiseNoWork(h, rise, fall); }
  }

  lemma {:induction false} NoRiseNoWork(h: seq<bool>, rise: nat, fall: nat)
    requires rise >= 1 && fall >= 1 && forall i :: !RunEnds(h, i, rise, true)
    ensures WorkingTicks(h, rise, fall) == 0
  {
    if h != [] {
      var front := h[..|h| - 1];
      forall i ensures !RunEnds(front, i, rise, true) {
        if i < |h| { RunEndsInFront(h, i, rise, true); }
      }
      NoRiseNoWork(front, rise, fall);
      WorkingMeansLastRunWasRise(h, rise, fall);
    }
  }

  // ---------- one process, one tick ----------

  datatype ProcClass = ProcClass(name: string, cwd: string, track: bool, final: bool)

  /** What the four side maps hold for one PID. */
  datatype PidState = PidState(prev: Option<nat>, cls: Option<ProcClass>, act: Option<Activity>, pane: Option<string>)

  const BLANK := PidState(None, None, None, None)

  /** A listed process, with what its probes would answer: an absent `env` or `cwd` is a failed probe. */
  datatype Sighting = Sighting(name: string, cpu: nat, env: Option<string>, cwd: Option<string>)

  /** What one tick fixes for every process; `spaces` is what herdr currently knows, empty in an outage. */
  datatype Ctx = Ctx(threshold: nat, riseTicks: int, fallTicks: int, binaries: set<string>,
                     patterns: seq<string>, bound: set<string>, spaces: set<string>)

  function AtLeastOne(n: int): nat {
    if n < 1 then 1 else n
  }

  /** The workspace id in a pane id such as "wN:p1". */
  function Workspace(pane: string): string {
    if pane == "" || pane[0] == ':' then "" else [pane[0]] + Workspace(pane[1..])
  }

  lemma {:induction false} WorkspaceIsBeforeColon(id: string, rest: string)
    requires ':' !in id
    ensures Workspace(id + ":" + rest) == id && Workspace(id) == id
  {
    if id == "" {
      assert "" + ":" + rest == ":" + rest;
    } else {
      assert (id + ":" + rest)[1..] == id[1..] + ":" + rest && id == [id[0]] + id[1..];
      WorkspaceIsBeforeColon(id[1..], rest);
    }
  }

  function SpaceForPane(spaces: set<string>, pane: string): Option<string> {
    if pane != "" && Workspace(pane) != "" && Workspace(pane) in spaces then Some(Workspace(pane)) else None
  }

  predicate TrackWithoutSpace(ctx: Ctx, name: string, cwd: string) {
    name in ctx.binaries || exists p :: p in ctx.patterns && LiveCwd(p, cwd)
  }

  /** Recompute a verdict that is not final yet. */
  function Classify(ctx: Ctx, c: ProcClass, pane: Option<string>, space: Option<string>): ProcClass {
    if c.final then c
    else
      var plain := TrackWithoutSpace(ctx, c.name, c.cwd);
      c.(track := plain || (space.Some? && space.value in ctx.bound),
         final := plain || space.Some? || pane == Some(""))
  }

  function Forget(s: PidState): PidState {
    s.(cls := None, act := None, pane := None)
  }

  /** The part of the loop body after the process was found working. */
  function Attribute(ctx: Ctx, s: PidState, sight: Sighting): (PidState, Option<Signal>) {
    var pane := if s.pane.Some? then s.pane else sight.env;
    var space := if pane.Some? then SpaceForPane(ctx.spaces, pane.value) else None;
    var s1 := s.(pane := pane);
    if s.cls.None? && GetOr(sight.cwd, "") == "" then (s1, None)
    else
      var c := Classify(ctx, GetOr(s.cls, ProcClass(sight.name, GetOr(sight.cwd, ""), false, false)), pane, space);
      (s1.(cls := Some(c)),
       if c.track then Some(Signal(Agent, "", "", sight.name, c.cwd, GetOr(space, ""))) else None)
  }

  function PidStep(ctx: Ctx, s: PidState, sight: Sighting): (PidState, Option<Signal>) {
    var seen := s.(prev := Some(sight.cpu));
    if s.prev.None? then (seen, None)
    else
      var s1 := if s.cls.Some? && s.cls.value.name != sight.name then Forget(seen) else seen;
      if sight.cpu < s.prev.value then (Forget(s1), None)
      else
        var act := ActivityStep(GetOr(s1.act, IDLE), sight.cpu - s.prev.value >= ctx.threshold,
                                AtLeastOne(ctx.riseTicks), AtLeastOne(ctx.fallTicks));
        var s2 := s1.(act := Some(act));
        if !act.working then (s2, None) else Attribute(ctx, s2, sight)
  }

  // ---------- the collector ----------

  function Lookup<T>(m: map<int, T>, pid: int): Option<T> {
    if pid in m then Some(m[pid]) else None
  }

  /** Where a listing takes one PID that starts in `s`: a step for every time it is listed. */
  function StateAfter(ctx: Ctx, s: PidState, procs: seq<(int, Sighting)>, pid: int): PidState {
    if procs == [] then s
    else
      var last := procs[|procs| - 1];
      var t := StateAfter(ctx, s, procs[..|procs| - 1], pid);
      if last.0 == pid then PidStep(ctx, t, last.1).0 else t
  }

  /** The signals of a listing, in its order. */
  function Emitted(ctx: Ctx, before: int -> PidState, procs: seq<(int, Sighting)>): seq<Signal> {
    if procs == [] then []
    else
      var front, (pid, sight) := procs[..|procs| - 1], procs[|procs| - 1];
      Emitted(ctx, before, front)
      + match PidStep(ctx, StateAfter(ctx, before(pid), front, pid), sight).1 case None => [] case Some(sig) => [sig]
  }

  lemma ListingNext(ctx: Ctx, before: int -> PidState, procs: seq<(int, Sighting)>, i: nat)
    requires i < |procs|
    ensures var (pid, sight) := procs[i];
            var (s, emit) := PidStep(ctx, StateAfter(ctx, before(pid), procs[..i], pid), sight);
            && Emitted(ctx, before, procs[..i + 1]) ==
                 Emitted(ctx, before, procs[..i]) + (match emit case None => [] case Some(sig) => [sig])
            && forall q :: StateAfter(ctx, before(q), procs[..i + 1], q) ==
                             if q == pid then s else StateAfter(ctx, before(q), procs[..i], q)
  {
    assert procs[..i + 1][..i] == procs[..i];
  }

  predicate Listed(procs: seq<(int, Sighting)>, pid: int) {
    exists i :: 0 <= i < |procs| && procs[i].0 == pid
  }

  lemma ListedNext(procs: seq<(int, Sighting)>, i: nat)
    requires i < |procs|
    ensures forall pid :: Listed(procs[..i + 1], pid) <==> Listed(procs[..i], pid) || pid == procs[i].0
  {
    forall pid ensures Listed(procs[..i + 1], pid) <==> Listed(procs[..i], pid) || pid == procs[i].0 {
      if Listed(procs[..i], pid) {
        var k :| 0 <= k < i && procs[..i][k].0 == pid;
        assert procs[..i + 1][k].0 == pid;
      }
      assert procs[..i + 1][i] == procs[i];
    }
  }

  class Collector {
    var prevCPU: map<int, nat>
    var procClass: map<int, ProcClass>
    var procActivity: map<int, Activity>
    var procPane: map<int, string>

    constructor ()
      ensures forall pid :: At(pid) == BLANK
    {
      prevCPU, procClass, procActivity, procPane := map[], map[], map[], map[];
    }

    function At(pid: int): PidState
      reads this
    {
      PidState(Lookup(prevCPU, pid), Lookup(procClass, pid), Lookup(procActivity, pid), Lookup(procPane, pid))
    }

    method ForgetPid(pid: int)
      modifies this
      ensures At(pid) == Forget(old(At(pid))) && forall q :: q != pid ==> At(q) == old(At(q))
    {
      procClass, procActivity, procPane := procClass - {pid}, procActivity - {pid}, procPane - {pid};
    }

    method Observe(ctx: Ctx, pid: int, sight: Sighting) returns (emit: Option<Signal>)
      modifies this
      ensures (At(pid), emit) == PidStep(ctx, old(At(pid)), sight)
      ensures forall q :: q != pid ==> At(q) == old(At(q))
    {
      var prev := Lookup(prevCPU, pid);
      prevCPU := prevCPU[pid := sight.cpu];
      if prev.None? { return None; }
      if pid in procClass && procClass[pid].name != sight.name { ForgetPid(pid); }
      assert forall q :: q != pid ==> At(q) == old(At(q));
      if sight.cpu < prev.value {
        ForgetPid(pid);
        return None;
      }
      var st := ActivityStep(GetOr(Lookup(procActivity, pid), IDLE), sight.cpu - prev.value >= ctx.threshold,
                             AtLeastOne(ctx.riseTicks), AtLeastOne(ctx.fallTicks));
      procActivity := procActivity[pid := st];
      assert forall q :: q != pid ==> At(q) == old(At(q));
      if !st.working { return None; }
      emit := AttributePid(ctx, pid, sight);
    }

    method AttributePid(ctx: Ctx, pid: int, sight: Sighting) returns (emit: Option<Signal>)
      modifies this
      ensures (At(pid), emit) == Attribute(ctx, old(At(pid)), sight)
      ensures forall q :: q != pid ==> At(q) == old(At(q))
    {
      if pid !in procPane && sight.env.Some? { procPane := procPane[pid := sight.env.value]; }
      var pane := Lookup(procPane, pid);
      var space := if pane.Some? then SpaceForPane(ctx.spaces, pane.value) else None;
      var cached;
      if pid in procClass {
        cached := procClass[pid];
      } else {
        if sight.cwd.None? || sight.cwd.value == "" { return None; }
        cached := ProcClass(sight.name, sight.cwd.value, false, false);
      }
      if !cached.final {
        cached := Classify(ctx, cached, pane, space);
        procClass := procClass[pid := cached];
      }
      return if cached.track then Some(Signal(Agent, "", "", sight.name, cached.cwd, GetOr(space, ""))) else None;
    }

    method ObserveAll(ctx: Ctx, ps: seq<(int, Sighting)>, ghost before: int -> PidState)
      returns (out: seq<Signal>, live: set<int>)
      requires forall pid :: before(pid) == At(pid)
      modifies this
      ensures forall pid :: At(pid) == StateAfter(ctx, before(pid), ps, pid)
      ensures forall pid :: pid in live <==> Listed(ps, pid)
      ensures out == Emitted(ctx, before, ps)
    {
      out, live := [], {};
      for i := 0 to |ps|
        invariant forall pid :: At(pid) == StateAfter(ctx, before(pid), ps[..i], pid)
        invariant forall pid :: pid in live <==> Listed(ps[..i], pid)
        invariant out == Emitted(ctx, before, ps[..i])
      {
        ListingNext(ctx, before, ps, i);
        live := live + {ps[i].0};
        ListedNext(ps, i);
        var emit := Observe(ctx, ps[i].0, ps[i].1);
        if emit.Some? { out := out + [emit.value]; }
      }
      assert ps[..|ps|] == ps;
    }

    /** Drops everything remembered about PIDs that are not live. */
    method Prune(live: set<int>)
      modifies this
      ensures forall pid :: At(pid) == if pid in live then old(At(pid)) else BLANK
    {
      prevCPU := map pid | pid in prevCPU && pid in live :: prevCPU[pid];
      procClass := map pid | pid in procClass && pid in live :: procClass[pid];
      procActivity := map pid | pid in procActivity && pid in live :: procActivity[pid];
      procPane := map pid | pid in procPane && pid in live :: procPane[pid];
    }

    /** One pass over `ps`, absent when `ps` failed. Each listed PID takes its own steps, the
        signals come out in listing order, and no other PID keeps any state. */
    method CollectAgentSignals(ctx: Ctx, procs: Option<seq<(int, Sighting)>>, ghost before: int -> PidState)
      returns (out: seq<Signal>)
      requires forall pid :: before(pid) == At(pid)
      modifies this
      ensures procs.None? ==> out == [] && forall pid :: At(pid) == BLANK
      ensures procs.Some? ==> out == Emitted(ctx, before, procs.value)
      ensures procs.Some? ==> forall pid ::
                At(pid) == if Listed(procs.value, pid) then StateAfter(ctx, before(pid), procs.value, pid) else BLANK
    {
      var live := {};
      out := [];
      if procs.Some? { out, live := ObserveAll(ctx, procs.value, before); }
      Prune(live);
    }
  }
}
