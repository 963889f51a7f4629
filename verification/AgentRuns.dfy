/** What the collector remembers about one process over a whole run of ticks. */
module AgentRuns {
  import opened Options
  import opened CwdPattern
  import opened Rules
  import opened Agents

  /** One tick as one PID sees it: was the rule snapshot swapped just before, and was the PID listed. */
  datatype Moment = Moment(ctx: Ctx, swapped: bool, sight: Option<Sighting>)

  /** RunTick clears the classifications when the snapshot pointer changed; unlisted PIDs are pruned. */
  function Carried(s: PidState, m: Moment): PidState {
    if m.swapped then s.(cls := None) else s
  }

  function Live(s: PidState, m: Moment): PidState {
    if m.sight.None? then BLANK else PidStep(m.ctx, Carried(s, m), m.sight.value).0
  }

  function Emission(s: PidState, m: Moment): Option<Signal> {
    if m.sight.None? then None else PidStep(m.ctx, Carried(s, m), m.sight.value).1
  }

  function State(run: seq<Moment>): PidState {
    if run == [] then BLANK else Live(State(run[..|run| - 1]), run[|run| - 1])
  }

  // ---------- the process behind the PID ----------

  datatype Process = Process(name: string, cwd: string, pane: string)

  /** Probes may fail or find nothing yet, but never lie. */
  predicate Honest(proc: Process, s: Sighting) {
    s.name == proc.name && (s.env.Some? ==> s.env.value == proc.pane)
    && (s.cwd.Some? && s.cwd.value != "" ==> s.cwd.value == proc.cwd)
  }

  /** The verdict with every input known: allowlisted, or in a tracked directory, or in a bound space. */
  predicate Verdict(ctx: Ctx, proc: Process) {
    proc.name in ctx.binaries || (exists p :: p in ctx.patterns && LiveCwd(p, proc.cwd))
    || (Workspace(proc.pane) != "" && Workspace(proc.pane) in ctx.bound)
  }

  predicate SameConfig(a: Ctx, b: Ctx) {
    a.binaries == b.binaries && a.patterns == b.patterns && a.bound == b.bound
  }

  /** The rules change only when the snapshot is swapped. */
  predicate ConfigSwaps(run: seq<Moment>) {
    forall i :: 0 < i < |run| && !run[i].swapped ==> SameConfig(run[i - 1].ctx, run[i].ctx)
  }

  predicate Sound(ctx: Ctx, proc: Process, s: PidState) {
    && (s.pane.Some? ==> s.pane.value == proc.pane)
    && (s.cls.Some? ==>
          var c := s.cls.value;
          && c.name == proc.name && c.cwd == proc.cwd
          && (c.track ==> c.final && Verdict(ctx, proc))
          && (c.final ==> (c.track <==> Verdict(ctx, proc))))
  }

  lemma SoundCarriesOver(a: Ctx, b: Ctx, proc: Process, s: PidState)
    requires SameConfig(a, b)
    ensures Sound(a, proc, s) <==> Sound(b, proc, s)
  {
  }

  /** What every run keeps whoever owns the PID. */
  predicate Shaped(s: PidState) {
    && (s.prev.None? ==> s == BLANK)
    && (s.cls.Some? && s.cls.value.track ==> s.cls.value.final)
    && (s.cls.Some? ==> s.act.Some?)
  }

  lemma StepShapes(ctx: Ctx, s: PidState, sight: Sighting)
    requires Shaped(s)
    ensures Shaped(PidStep(ctx, s, sight).0)
  {
  }

  lemma {:induction false} RunShapes(run: seq<Moment>)
    ensures Shaped(State(run))
  {
    if run != [] {
      var front, m := run[..|run| - 1], run[|run| - 1];
      RunShapes(front);
      if m.sight.Some? { StepShapes(m.ctx, Carried(State(front), m), m.sight.value); }
    }
  }

  /** What a step still remembers once the reuse checks have run. */
  function Kept(s: PidState, sight: Sighting): PidState {
    if s.prev.Some? && (sight.cpu < s.prev.value || (s.cls.Some? && s.cls.value.name != sight.name)) then Forget(s)
    else s
  }

  /** A step neither repairs nor spoils: its result is sound for the process seen iff what it
      remembered was. */
  lemma StepSoundIff(ctx: Ctx, proc: Process, s: PidState, sight: Sighting)
    requires Shaped(s) && Honest(proc, sight)
    ensures Sound(ctx, proc, PidStep(ctx, s, sight).0) <==> Sound(ctx, proc, Kept(s, sight))
  {
  }

  /** The space the process works in, as far as herdr knows it. */
  function OwnSpace(ctx: Ctx, proc: Process): string {
    if Workspace(proc.pane) != "" && Workspace(proc.pane) in ctx.spaces then Workspace(proc.pane) else ""
  }

  predicate PaneKnown(s: PidState, sight: Sighting) {
    s.pane.Some? || sight.env.Some?
  }

  /** A signal is the owner's own in every field; its space is there whenever its pane is known. */
  predicate Truthful(ctx: Ctx, proc: Process, paneKnown: bool, emit: Option<Signal>) {
    emit.Some? ==>
      Verdict(ctx, proc)
      && emit.value == Signal(Agent, "", "", proc.name, proc.cwd, if paneKnown then OwnSpace(ctx, proc) else "")
  }

  lemma SoundStepEmitsTruth(ctx: Ctx, proc: Process, s: PidState, sight: Sighting)
    requires Sound(ctx, proc, Kept(s, sight)) && Honest(proc, sight)
    ensures Truthful(ctx, proc, PaneKnown(Kept(s, sight), sight), PidStep(ctx, s, sight).1)
  {
  }

  /** So it matches exactly the rules for the owner's program, directory and listed workspace, and no
      space rule outside one. */
  lemma EmissionMatchesIff(ctx: Ctx, proc: Process, emit: Signal, r: Rule)
    requires Truthful(ctx, proc, true, Some(emit))
    ensures MatchOne(emit, r) <==>
            && GetOr(r.bundle, "") == "" && GetOr(r.title, "") == "" && (r.binary.None? || r.binary.value == proc.name)
            && (r.cwd.None? || LiveCwd(r.cwd.value, proc.cwd))
            && (r.space.None?
                || r.space.value == if SpaceForPane(ctx.spaces, proc.pane).Some? then Workspace(proc.pane) else "")
  {
  }

  // ---------- whoever owns the PID ----------

  /** `owners[i]` is the process behind the PID at moment `i`; the PID may pass to another. */
  predicate Tenanted(run: seq<Moment>, owners: seq<Process>) {
    |owners| == |run| && forall i :: 0 <= i < |run| && run[i].sight.Some? ==> Honest(owners[i], run[i].sight.value)
  }

  predicate NewTenant(run: seq<Moment>, owners: seq<Process>, i: int)
    requires |owners| == |run|
  {
    0 < i < |run| && run[i].sight.Some? && owners[i] != owners[i - 1]
  }

  /** What the step at moment `i` remembers. */
  function KeptAt(run: seq<Moment>, i: nat): PidState
    requires i < |run| && run[i].sight.Some?
  {
    Kept(Carried(State(run[..i]), run[i]), run[i].sight.value)
  }

  predicate SoundAt(run: seq<Moment>, owners: seq<Process>, n: nat)
    requires |owners| == |run| && 0 < n <= |run|
  {
    Sound(run[n - 1].ctx, owners[n - 1], State(run[..n]))
  }

  /** Wherever the PID passes to another process, what is remembered happens to be true of it. */
  ghost predicate HandoversAgree(run: seq<Moment>, owners: seq<Process>)
    requires |owners| == |run|
  {
    forall i :: NewTenant(run, owners, i) ==>
      Sound(run[i].ctx, owners[i], KeptAt(run, i))
  }

  lemma SoundStep(run: seq<Moment>, owners: seq<Process>, n: nat)
    requires ConfigSwaps(run) && Tenanted(run, owners) && 0 < n <= |run|
    requires n > 1 ==> SoundAt(run, owners, n - 1)
    ensures run[n - 1].sight.Some? ==>
              (SoundAt(run, owners, n) <==> Sound(run[n - 1].ctx, owners[n - 1], KeptAt(run, n - 1)))
    ensures run[n - 1].sight.None? || !NewTenant(run, owners, n - 1) ==> SoundAt(run, owners, n)
  {
    var i := n - 1;
    var m := run[i];
    assert run[..n][..i] == run[..i];
    RunShapes(run[..i]);
    if m.sight.Some? {
      StepSoundIff(m.ctx, owners[i], Carried(State(run[..i]), m), m.sight.value);
      if i > 0 && !m.swapped { SoundCarriesOver(run[i - 1].ctx, m.ctx, owners[i], State(run[..i])); }
    }
  }

  lemma {:induction false} AgreeingRunIsSound(run: seq<Moment>, owners: seq<Process>, n: nat)
    requires ConfigSwaps(run) && Tenanted(run, owners) && HandoversAgree(run, owners)
    requires 0 < n <= |run|
    ensures SoundAt(run, owners, n)
  {
    if n > 1 { AgreeingRunIsSound(run, owners, n - 1); }
    SoundStep(run, owners, n);
  }

  /** Whatever probes fail, herdr outages happen and processes the PID passes through: the cached
      state is true of the current owner at every moment iff at each handover what is still
      remembered is true of the new one. */
  lemma SoundIffHandoversAgree(run: seq<Moment>, owners: seq<Process>)
    requires ConfigSwaps(run) && Tenanted(run, owners)
    ensures (forall n :: 0 < n <= |run| ==> SoundAt(run, owners, n)) <==> HandoversAgree(run, owners)
  {
    if HandoversAgree(run, owners) {
      forall n | 0 < n <= |run| ensures SoundAt(run, owners, n) { AgreeingRunIsSound(run, owners, n); }
    }
    if forall n :: 0 < n <= |run| ==> SoundAt(run, owners, n) {
      forall i | NewTenant(run, owners, i) ensures Sound(run[i].ctx, owners[i], KeptAt(run, i)) {
        assert SoundAt(run, owners, i) && SoundAt(run, owners, i + 1);
        SoundStep(run, owners, i + 1);
      }
    }
  }

  /** Nothing of an earlier owner is left to be wrong about: the PID was not there, its counter fell,
      its name changed, or neither class nor pane is held. Known before the step. */
  predicate Unremembered(s: PidState, name: string, cpu: nat) {
    s.prev.None? || cpu < s.prev.value || (s.cls.Some? && s.cls.value.name != name) || (s.cls.None? && s.pane.None?)
  }

  predicate SafeFor(ctx: Ctx, s: PidState, proc: Process, sight: Sighting) {
    Honest(proc, sight) ==> Sound(ctx, proc, PidStep(ctx, s, sight).0)
  }

  /** Exactly then the step is sound whoever the process seen may be. */
  lemma SafeForAnyoneIff(ctx: Ctx, s: PidState, name: string, cpu: nat)
    requires Shaped(s)
    ensures (forall proc: Process, sight: Sighting ::
               sight.name == name && sight.cpu == cpu ==> SafeFor(ctx, s, proc, sight))
            <==> Unremembered(s, name, cpu)
  {
    if Unremembered(s, name, cpu) {
      forall proc: Process, sight: Sighting | sight.name == name && sight.cpu == cpu
        ensures SafeFor(ctx, s, proc, sight)
      {
        if Honest(proc, sight) { StepSoundIff(ctx, proc, s, sight); }
      }
    } else {
      var sight := Sighting(name, cpu, None, None);
      var stranger := Process(name, if s.cls.Some? then s.cls.value.cwd + "x" else "", GetOr(s.pane, "") + "x");
      StepSoundIff(ctx, stranger, s, sight);
      if s.cls.Some? { assert |stranger.cwd| != |s.cls.value.cwd|; }
      if s.pane.Some? { assert |stranger.pane| != |s.pane.value|; }
      assert !SafeFor(ctx, s, stranger, sight);
    }
  }

  ghost predicate HandoversNoticed(run: seq<Moment>, owners: seq<Process>)
    requires |owners| == |run|
  {
    forall i :: NewTenant(run, owners, i) ==>
      Unremembered(Carried(State(run[..i]), run[i]), run[i].sight.value.name, run[i].sight.value.cpu)
  }

  lemma NoticedHandoversAgree(run: seq<Moment>, owners: seq<Process>)
    requires Tenanted(run, owners) && HandoversNoticed(run, owners)
    ensures HandoversAgree(run, owners)
  {
    forall i | NewTenant(run, owners, i) ensures Sound(run[i].ctx, owners[i], KeptAt(run, i)) {
      RunShapes(run[..i]);
    }
  }

  /** So over every run in which each handover is noticed: the cached verdict is never true unless
      the full verdict on the current owner is, equals it once final, and every signal emitted is the
      owner's own, with its space as soon as its pane is known. */
  lemma {:induction false} CacheRefinesVerdict(run: seq<Moment>, owners: seq<Process>)
    requires run != [] && ConfigSwaps(run) && Tenanted(run, owners)
    requires HandoversNoticed(run, owners)
    ensures var last, owner := run[|run| - 1], owners[|run| - 1];
            && Sound(last.ctx, owner, State(run))
            && (last.sight.Some? ==> Truthful(last.ctx, owner, PaneKnown(KeptAt(run, |run| - 1), last.sight.value),
                                              Emission(State(run[..|run| - 1]), last)))
  {
    var n := |run|;
    var last := run[n - 1];
    assert run[..n] == run;
    NoticedHandoversAgree(run, owners);
    AgreeingRunIsSound(run, owners, n);
    if n > 1 { AgreeingRunIsSound(run, owners, n - 1); }
    if last.sight.Some? {
      SoundStep(run, owners, n);
      SoundStepEmitsTruth(last.ctx, owners[n - 1], Carried(State(run[..n - 1]), last), last.sight.value);
    }
  }

  /** Whoever owns the PID: between swaps a final verdict is kept exactly as long as the PID is
      listed under the same name with a counter that does not fall. */
  lemma FinalNeverReverts(run: seq<Moment>, m: Moment)
    requires State(run).cls.Some? && State(run).cls.value.final && !m.swapped
    ensures State(run).prev.Some?
    ensures State(run + [m]).cls == State(run).cls <==>
            m.sight.Some? && m.sight.value.name == State(run).cls.value.name
            && m.sight.value.cpu >= State(run).prev.value
  {
    assert (run + [m])[..|run|] == run && m in run + [m];
    RunShapes(run);
  }

  /** One working tick on which the probes answer and herdr knows the pane settles the verdict. */
  lemma CompleteInputsSettle(ctx: Ctx, s: PidState, sight: Sighting, proc: Process)
    requires Sound(ctx, proc, s) && Honest(proc, sight)
    requires s.prev.Some? && sight.cpu >= s.prev.value
    requires var s' := PidStep(ctx, s, sight).0; s'.act.Some? && s'.act.value.working
    requires s.pane.Some? || sight.env.Some?
    requires s.cls.Some? || GetOr(sight.cwd, "") != ""
    requires proc.pane == "" || SpaceForPane(ctx.spaces, proc.pane).Some?
    ensures var (s', emit) := PidStep(ctx, s, sight);
            && s'.cls.Some? && s'.cls.value.final && (s'.cls.value.track <==> Verdict(ctx, proc))
            && emit == if Verdict(ctx, proc) then Some(Signal(Agent, "", "", proc.name, proc.cwd, OwnSpace(ctx, proc)))
                       else None
  {
  }

  /** A process tracked by its program or directory emits on every working tick, whatever becomes of the
      pane probe and of herdr. */
  lemma PlainTrackNeedsNoPane(ctx: Ctx, s: PidState, sight: Sighting, proc: Process)
    requires Sound(ctx, proc, s) && Honest(proc, sight)
    requires s.prev.Some? && sight.cpu >= s.prev.value
    requires var s' := PidStep(ctx, s, sight).0; s'.act.Some? && s'.act.value.working
    requires s.cls.Some? || GetOr(sight.cwd, "") != ""
    requires proc.name in ctx.binaries || exists p :: p in ctx.patterns && LiveCwd(p, proc.cwd)
    ensures PidStep(ctx, s, sight).1 ==
            Some(Signal(Agent, "", "", proc.name, proc.cwd, if PaneKnown(s, sight) then OwnSpace(ctx, proc) else ""))
  {
  }

  /** The signal the process would give, were everything about it known. */
  function OwnSignal(ctx: Ctx, proc: Process): Signal {
    Signal(Agent, "", "", proc.name, proc.cwd, OwnSpace(ctx, proc))
  }

  /** No rule misses its work: with the patterns and spaces derived from the rules, a working process that
      some rule would place by directory or space emits the signal that rule matches. */
  lemma RuleMatchedWorkIsEmitted(ctx: Ctx, s: PidState, sight: Sighting, proc: Process, rules: seq<Rule>, r: Rule)
    requires Sound(ctx, proc, s) && Honest(proc, sight)
    requires s.prev.Some? && sight.cpu >= s.prev.value
    requires var s' := PidStep(ctx, s, sight).0; s'.act.Some? && s'.act.value.working
    requires s.pane.Some? || sight.env.Some?
    requires s.cls.Some? || GetOr(sight.cwd, "") != ""
    requires proc.pane == "" || SpaceForPane(ctx.spaces, proc.pane).Some?
    requires IsPrefilter(rules, ctx.patterns, ctx.bound) && StoredByRuleAdd(rules)
    requires r in rules && MatchOne(OwnSignal(ctx, proc), r) && (r.cwd.Some? || r.space.Some?)
    ensures PidStep(ctx, s, sight).1 == Some(OwnSignal(ctx, proc))
  {
    CompleteInputsSettle(ctx, s, sight, proc);
    PrefilterMissesNothing(OwnSignal(ctx, proc), rules, r, ctx.patterns, ctx.bound);
  }

  /** One answered pane probe is enough: from the tick that needed it on the pane is remembered, without
      another probe, until the PID is gone or found reused. */
  lemma PaneIsRemembered(run: seq<Moment>, m: Moment)
    requires m.sight.Some?
    ensures var s, s', sight := Carried(State(run), m), State(run + [m]), m.sight.value;
            var worked := s.prev.Some? && sight.cpu >= s.prev.value && s'.act.Some? && s'.act.value.working;
            s'.pane == if Kept(s, sight).pane.Some? then Kept(s, sight).pane else if worked then sight.env else None
  {
    assert (run + [m])[..|run|] == run;
  }

  // ---------- hysteresis along the run ----------

  /** What one tick makes of the history, given what the PID carries into it. */
  function NextHistory(h: seq<bool>, s: PidState, m: Moment): seq<bool> {
    if m.sight.None? || s.prev.None? || m.sight.value.cpu < s.prev.value then []
    else
      (if s.cls.Some? && s.cls.value.name != m.sight.value.name then [] else h)
      + [m.sight.value.cpu - s.prev.value >= m.ctx.threshold]
  }

  /** The above/below history since the last time the PID was (re)started: it begins with the
      second sighting and restarts when the counter falls or the name no longer fits. */
  function History(run: seq<Moment>): seq<bool> {
    if run == [] then []
    else
      var front, m := run[..|run| - 1], run[|run| - 1];
      NextHistory(History(front), Carried(State(front), m), m)
  }

  /** The configured number of ticks, or one if that is less. */
  predicate BarFor(configured: int, bar: nat) {
    bar >= 1 && (configured == bar || (configured < 1 && bar == 1))
  }

  lemma BarIsAtLeastOne(configured: int, bar: nat)
    requires BarFor(configured, bar)
    ensures AtLeastOne(configured) == bar
  {
  }

  predicate FixedBars(run: seq<Moment>, rise: nat, fall: nat) {
    forall m :: m in run ==> BarFor(m.ctx.riseTicks, rise) && BarFor(m.ctx.fallTicks, fall)
  }

  lemma ActivityAfterStep(ctx: Ctx, s: PidState, sight: Sighting)
    ensures var s' := PidStep(ctx, s, sight).0;
            s'.act == if s.prev.None? then s.act
                      else if sight.cpu < s.prev.value then None
                      else Some(ActivityStep(if s.cls.Some? && s.cls.value.name != sight.name then IDLE
                                             else GetOr(s.act, IDLE),
                                             sight.cpu - s.prev.value >= ctx.threshold,
                                             AtLeastOne(ctx.riseTicks), AtLeastOne(ctx.fallTicks)))
    ensures PidStep(ctx, s, sight).0.prev == Some(sight.cpu)
  {
  }

  predicate Follows(s: PidState, h: seq<bool>, rise: nat, fall: nat) {
    GetOr(s.act, IDLE) == Observed(h, rise, fall) && (s.prev.None? ==> s == BLANK)
  }

  lemma ObservedNext(h: seq<bool>, above: bool, rise: nat, fall: nat)
    ensures Observed(h + [above], rise, fall) == ActivityStep(Observed(h, rise, fall), above, rise, fall)
  {
    assert (h + [above])[..|h|] == h;
  }

  lemma StepFollows(s0: PidState, h: seq<bool>, m: Moment, rise: nat, fall: nat)
    requires Follows(s0, h, rise, fall) && m.sight.Some?
    requires BarFor(m.ctx.riseTicks, rise) && BarFor(m.ctx.fallTicks, fall)
    ensures Follows(Live(s0, m), NextHistory(h, Carried(s0, m), m), rise, fall)
  {
    var s, sight := Carried(s0, m), m.sight.value;
    NothingObserved(rise, fall);
    BarIsAtLeastOne(m.ctx.riseTicks, rise);
    BarIsAtLeastOne(m.ctx.fallTicks, fall);
    ActivityAfterStep(m.ctx, s, sight);
    hide PidStep, ActivityStep, Observed, AtLeastOne, BarFor;
    var kept := if s.cls.Some? && s.cls.value.name != sight.name then [] else h;
    if s.prev.Some? { ObservedNext(kept, sight.cpu - s.prev.value >= m.ctx.threshold, rise, fall); }
  }

  lemma NothingObserved(rise: nat, fall: nat)
    ensures Observed([], rise, fall) == IDLE
  {
  }

  /** In every run the stored activity is the classifier run over that history; so the process
      emits only while the last completed run of ticks was a rise run. */
  lemma {:induction false} ActivityFollowsHistory(run: seq<Moment>, rise: nat, fall: nat)
    requires FixedBars(run, rise, fall)
    ensures Follows(State(run), History(run), rise, fall)
  {
    NothingObserved(rise, fall);
    if run != [] {
      var front, m := run[..|run| - 1], run[|run| - 1];
      assert m in run && forall x :: x in front ==> x in run;
      ActivityFollowsHistory(front, rise, fall);
      if m.sight.Some? { StepFollows(State(front), History(front), m, rise, fall); }
    }
  }

  lemma EmitsOnlyWhenWorking(ctx: Ctx, s: PidState, sight: Sighting)
    requires PidStep(ctx, s, sight).1.Some?
    ensures GetOr(PidStep(ctx, s, sight).0.act, IDLE).working
  {
  }

  lemma EmissionMeansSustainedWork(run: seq<Moment>, rise: nat, fall: nat)
    requires run != [] && FixedBars(run, rise, fall)
    requires Emission(State(run[..|run| - 1]), run[|run| - 1]).Some?
    ensures LastRunWasRise(History(run), rise, fall)
  {
    var m := run[|run| - 1];
    assert m in run;
    ActivityFollowsHistory(run, rise, fall);
    EmitsOnlyWhenWorking(m.ctx, Carried(State(run[..|run| - 1]), m), m.sight.value);
    WorkingMeansLastRunWasRise(History(run), rise, fall);
  }

  // ---------- PID reuse ----------

  /** A detected reuse leaves nothing of the old process behind. */
  lemma DetectedReuseStartsAfresh(ctx: Ctx, s: PidState, sight: Sighting)
    requires s.prev.Some?
    requires sight.cpu < s.prev.value || (s.cls.Some? && s.cls.value.name != sight.name)
    ensures PidStep(ctx, s, sight) == PidStep(ctx, PidState(s.prev, None, None, None), sight)
  {
  }

  // A process in a bound pane works for three ticks; the rules are reloaded; its PID is already
  // another's, outside any pane, with a larger counter.

  const BOUND_W := Ctx(0, 1, 1, {}, [], {"w"}, {"w"})
  const OLD_PROCESS := Process("old", "/a", "w")
  const NEW_PROCESS := Process("new", "/b", "")

  function Listed(swapped: bool, p: Process, cpu: nat): Moment {
    Moment(BOUND_W, swapped, Some(Sighting(p.name, cpu, Some(p.pane), Some(p.cwd))))
  }

  const REUSED_RUN := [Listed(false, OLD_PROCESS, 5), Listed(false, OLD_PROCESS, 6), Listed(true, NEW_PROCESS, 7)]

  lemma WorkspaceOfW()
    ensures Workspace("w") == "w"
  {
    assert Workspace("w"[1..]) == "" && ['w'] + "" == "w";
  }

  lemma AfterTwoTicks()
    ensures var s := State(REUSED_RUN[..2]);
            s == PidState(Some(6), Some(ProcClass("old", "/a", true, true)), Some(Activity(true, 1, 0)), Some("w"))
  {
    WorkspaceOfW();
    var two := REUSED_RUN[..2];
    assert two == [Listed(false, OLD_PROCESS, 5), Listed(false, OLD_PROCESS, 6)];
    assert two[..1] == [Listed(false, OLD_PROCESS, 5)] && two[..1][..0] == [];
    assert State(two[..1]) == PidState(Some(5), None, None, None);
  }

  /** Detection by name needs a classification to compare with, and a snapshot swap drops it. In
      this run, honest throughout, the new process is tracked and emits for the old one's pane. */
  lemma ReuseAfterSwapGoesUnseen()
    ensures ConfigSwaps(REUSED_RUN)
    ensures Tenanted(REUSED_RUN, [OLD_PROCESS, OLD_PROCESS, NEW_PROCESS])
    ensures !Verdict(BOUND_W, NEW_PROCESS) && !Sound(BOUND_W, NEW_PROCESS, State(REUSED_RUN))
    ensures Emission(State(REUSED_RUN[..2]), REUSED_RUN[2]) == Some(Signal(Agent, "", "", "new", "/b", "w"))
  {
    AfterTwoTicks();
    WorkspaceOfW();
    assert REUSED_RUN[..|REUSED_RUN| - 1] == REUSED_RUN[..2];
  }
}
