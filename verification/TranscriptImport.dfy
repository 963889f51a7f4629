/** Importing old transcripts: stitching turns into blocks, and laying a tick grid over the
    blocks next to whatever grid is already there. */
module TranscriptImport {
  import opened Options
  import opened Rules

  // ---------- blocks ----------

  datatype Block = Block(start: int, end: int)

  function AddStamp(bs: seq<Block>, s: int, grace: int): seq<Block> {
    if bs == [] || s - bs[|bs| - 1].end > grace then bs + [Block(s, s)]
    else bs[..|bs| - 1] + [Block(bs[|bs| - 1].start, s)]
  }

  function BlocksOf(stamps: seq<int>, grace: int): seq<Block> {
    if stamps == [] then []
    else AddStamp(BlocksOf(stamps[..|stamps| - 1], grace), stamps[|stamps| - 1], grace)
  }

  method SplitBlocks(stamps: seq<int>, grace: int) returns (blocks: seq<Block>)
    ensures blocks == BlocksOf(stamps, grace)
  {
    blocks := [];
    if stamps == [] { return; }
    var start, prev := stamps[0], stamps[0];
    assert stamps[..1] == [stamps[0]] && stamps[..1][..0] == [];
    for i := 1 to |stamps|
      invariant BlocksOf(stamps[..i], grace) == blocks + [Block(start, prev)]
    {
      assert stamps[..i + 1][..i] == stamps[..i];
      var s := stamps[i];
      if s - prev > grace {
        blocks := blocks + [Block(start, prev)];
        start := s;
      }
      prev := s;
    }
    assert stamps[..|stamps|] == stamps;
    blocks := blocks + [Block(start, prev)];
  }

  predicate Sorted(stamps: seq<int>) {
    forall i, j :: 0 <= i < j < |stamps| ==> stamps[i] <= stamps[j]
  }

  /** The live gate: some turn at or before `t` is less than `grace` old. */
  ghost predicate GateOpen(stamps: seq<int>, grace: int, t: int) {
    exists s :: s in stamps && s <= t && t - s < grace
  }

  ghost predicate Covers(bs: seq<Block>, grace: int, t: int) {
    exists b :: b in bs && b.start <= t < b.end + grace
  }

  /** Non-empty blocks between stamps, each more than `grace` after the one before. */
  ghost predicate Shape(bs: seq<Block>, stamps: seq<int>, grace: int) {
    && (forall i :: 0 <= i < |bs| ==> bs[i].start in stamps && bs[i].end in stamps && bs[i].start <= bs[i].end)
    && (forall i :: 0 < i < |bs| ==> bs[i].start - bs[i - 1].end > grace)
  }

  lemma ShapeStep(bs: seq<Block>, front: seq<int>, s: int, grace: int)
    requires Shape(bs, front, grace) && grace >= 0
    requires bs != [] ==> bs[|bs| - 1].end <= s
    ensures Shape(AddStamp(bs, s, grace), front + [s], grace)
  {
    var all, bs' := front + [s], AddStamp(bs, s, grace);
    assert s in all;
    forall i | 0 <= i < |bs'| ensures bs'[i].start in all && bs'[i].end in all && bs'[i].start <= bs'[i].end {
      if i < |bs| { assert bs[i].start in front && bs[i].end in front; }
    }
  }

  lemma {:induction false} LastBlock(stamps: seq<int>, grace: int)
    requires Sorted(stamps) && stamps != [] && grace >= 0
    ensures var bs := BlocksOf(stamps, grace);
            bs != [] && bs[|bs| - 1].start <= bs[|bs| - 1].end == stamps[|stamps| - 1]
  {
    var front := stamps[..|stamps| - 1];
    if front != [] {
      LastBlock(front, grace);
      assert front[|front| - 1] <= stamps[|stamps| - 1];
    }
  }

  /** The blocks partition the sorted stamps into maximal runs. */
  lemma {:induction false} BlocksShape(stamps: seq<int>, grace: int)
    requires Sorted(stamps) && grace >= 0
    ensures Shape(BlocksOf(stamps, grace), stamps, grace)
  {
    if stamps != [] {
      var front, s := stamps[..|stamps| - 1], stamps[|stamps| - 1];
      BlocksShape(front, grace);
      if front != [] { LastBlock(front, grace); }
      ShapeStep(BlocksOf(front, grace), front, s, grace);
      assert stamps == front + [s];
    }
  }

  ghost predicate SameBlock(bs: seq<Block>, x: int, y: int) {
    exists b :: b in bs && b.start <= x && y <= b.end
  }

  lemma SameBlockSnoc(bs: seq<Block>, b: Block, x: int, y: int)
    ensures SameBlock(bs + [b], x, y) <==> SameBlock(bs, x, y) || (b.start <= x && y <= b.end)
  {
    assert forall c :: c in bs + [b] <==> c in bs || c == b;
  }

  lemma AddStampJoins(bs: seq<Block>, s: int, grace: int, x: int, y: int)
    requires bs != [] && grace >= 0 && bs[|bs| - 1].start <= bs[|bs| - 1].end <= s
    ensures y <= bs[|bs| - 1].end ==> (SameBlock(AddStamp(bs, s, grace), x, y) <==>
                                         SameBlock(bs, x, y) || (s <= x && s - bs[|bs| - 1].end > grace))
    ensures SameBlock(AddStamp(bs, s, grace), s, s)
    ensures s - bs[|bs| - 1].end <= grace ==> SameBlock(AddStamp(bs, s, grace), bs[|bs| - 1].end, s)
  {
    var front, last := bs[..|bs| - 1], bs[|bs| - 1];
    assert bs == front + [last];
    SameBlockSnoc(front, last, x, y);
    SameBlockSnoc(bs, Block(s, s), x, y);
    SameBlockSnoc(front, Block(last.start, s), x, y);
    SameBlockSnoc(bs, Block(s, s), s, s);
    SameBlockSnoc(front, Block(last.start, s), s, s);
    SameBlockSnoc(front, Block(last.start, s), last.end, s);
  }

  lemma EndsBeforeLast(bs: seq<Block>, stamps: seq<int>, grace: int, b: Block)
    requires Shape(bs, stamps, grace) && Sorted(stamps) && stamps != [] && b in bs
    ensures b.end <= stamps[|stamps| - 1]
  {
    var k :| 0 <= k < |bs| && bs[k] == b;
  }

  lemma FarStampStandsAlone(front: seq<int>, s: int, grace: int)
    requires Sorted(front) && front != [] && grace >= 0 && s - front[|front| - 1] > grace
    ensures !SameBlock(AddStamp(BlocksOf(front, grace), s, grace), front[|front| - 1], s)
  {
    var bs, prev := BlocksOf(front, grace), front[|front| - 1];
    LastBlock(front, grace);
    BlocksShape(front, grace);
    SameBlockSnoc(bs, Block(s, s), prev, s);
    forall b | b in bs ensures b.end < s { EndsBeforeLast(bs, front, grace, b); }
  }

  /** Every stamp lies in a block, and two neighbours share one iff their gap is at most the grace. */
  lemma {:induction false} BlocksAreMaximalRuns(stamps: seq<int>, grace: int, i: nat)
    requires Sorted(stamps) && grace >= 0 && i < |stamps|
    ensures SameBlock(BlocksOf(stamps, grace), stamps[i], stamps[i])
    ensures i > 0 ==>
              (SameBlock(BlocksOf(stamps, grace), stamps[i - 1], stamps[i]) <==> stamps[i] - stamps[i - 1] <= grace)
  {
    var front, s := stamps[..|stamps| - 1], stamps[|stamps| - 1];
    if front == [] {
      assert Block(s, s) in BlocksOf(stamps, grace);
    } else {
      var bs := BlocksOf(front, grace);
      LastBlock(front, grace);
      assert front[|front| - 1] <= s;
      if i < |front| {
        assert stamps[i] == front[i] <= front[|front| - 1];
        BlocksAreMaximalRuns(front, grace, i);
        AddStampJoins(bs, s, grace, stamps[i], stamps[i]);
        if i > 0 { AddStampJoins(bs, s, grace, stamps[i - 1], stamps[i]); }
      } else {
        AddStampJoins(bs, s, grace, s, s);
        if s - front[|front| - 1] > grace { FarStampStandsAlone(front, s, grace); }
      }
    }
  }

  /** The blocks are exactly the live gate: it is open at `t` iff `t` lies in a block or less
      than `grace` after its end. */
  lemma {:induction false} BlocksAreTheGate(stamps: seq<int>, grace: int, t: int)
    requires Sorted(stamps) && grace >= 1
    ensures GateOpen(stamps, grace, t) <==> Covers(BlocksOf(stamps, grace), grace, t)
  {
    if stamps != [] {
      var front, s := stamps[..|stamps| - 1], stamps[|stamps| - 1];
      BlocksAreTheGate(front, grace, t);
      if front != [] { LastBlock(front, grace); }
      CoverStep(BlocksOf(front, grace), s, grace, t);
      GateStep(front, s, grace, t);
      assert stamps == front + [s];
    }
  }

  lemma GateStep(front: seq<int>, s: int, grace: int, t: int)
    ensures GateOpen(front + [s], grace, t) <==> GateOpen(front, grace, t) || s <= t < s + grace
  {
    var all := front + [s];
    if GateOpen(front, grace, t) {
      var x :| x in front && x <= t && t - x < grace;
      assert x in all;
    }
    if s <= t < s + grace { assert s in all; }
  }

  lemma CoverStep(bs: seq<Block>, s: int, grace: int, t: int)
    requires bs != [] ==> bs[|bs| - 1].start <= bs[|bs| - 1].end <= s
    ensures Covers(AddStamp(bs, s, grace), grace, t) <==> Covers(bs, grace, t) || s <= t < s + grace
  {
  }

  // ---------- the grid ----------

  /** One candidate tick: an observation, its project and a time. */
  datatype Slot = Slot(obs: Signal, project: int, ts: int)

  /** A transcript file as read: its directory, its session, its sorted turns in the range imported,
      and whether its observation can be stored. */
  datatype File = File(cwd: string, session: string, stamps: seq<int>, stored: bool)

  /** A file attributed to a project. */
  datatype Log = Log(obs: Signal, project: int, stamps: seq<int>)

  /** The project a transcript is imported for: its directory alone decides. */
  function Importee(cwd: string, rules: seq<Rule>): Option<Rule> {
    Winner(Signal(Transcript, "", "", "", cwd, ""), rules)
  }

  /** Files without turns, without a project or without an observation are passed over. */
  function LogOf(f: File, rules: seq<Rule>): Option<Log> {
    var rule := Importee(f.cwd, rules);
    if f.stamps == [] || rule.None? || !f.stored then None
    else Some(Log(Signal(Transcript, "", f.session, "", f.cwd, ""), rule.value.project, f.stamps))
  }

  function LogsOf(files: seq<File>, rules: seq<Rule>): seq<Log> {
    if files == [] then []
    else
      var logs := LogsOf(files[..|files| - 1], rules);
      match LogOf(files[|files| - 1], rules) case None => logs case Some(l) => logs + [l]
  }

  method AttributeFile(f: File, rules: seq<Rule>) returns (l: Option<Log>)
    ensures l == LogOf(f, rules)
  {
    if f.stamps == [] { return None; }
    var pid := MatchRules(Signal(Transcript, "", "", "", f.cwd, ""), rules);
    if pid.None? || !f.stored { return None; }
    return Some(Log(Signal(Transcript, "", f.session, "", f.cwd, ""), pid.value, f.stamps));
  }

  predicate Near(ticks: Ticks, p: int, t: int, win: int) {
    exists k :: k in ticks && ticks[k] == Some(p) && t - win <= k.0 <= t + win
  }

  function Insert(ticks: Ticks, s: Slot): Ticks {
    if (s.ts, s.obs) in ticks then ticks else ticks[(s.ts, s.obs) := Some(s.project)]
  }

  /** An import under way: the tick table, how many insertions it has counted, how many more will
      succeed (all of them if absent), and whether one has failed, which ends the import. */
  datatype Progress = Progress(ticks: Ticks, inserted: nat, budget: Option<nat>, failed: bool)

  function Fresh(ticks: Ticks, budget: Option<nat>): Progress {
    Progress(ticks, 0, budget, false)
  }

  /** One slot: skipped next to a tick of the project, else inserted and counted, or failing. */
  function Place(g: Progress, s: Slot, interval: int): Progress {
    if g.failed || Near(g.ticks, s.project, s.ts, interval - 1) then g
    else if g.budget == Some(0) then g.(failed := true)
    else Progress(Insert(g.ticks, s), g.inserted + 1, if g.budget.Some? then Some(g.budget.value - 1) else None, false)
  }

  function PlaceAll(g: Progress, slots: seq<Slot>, interval: int): Progress {
    if slots == [] then g
    else Place(PlaceAll(g, slots[..|slots| - 1], interval), slots[|slots| - 1], interval)
  }

  function Grid(obs: Signal, project: int, ts: int, end: int, interval: int): seq<Slot>
    requires interval >= 1
    decreases end - ts
  {
    if ts > end then [] else [Slot(obs, project, ts)] + Grid(obs, project, ts + interval, end, interval)
  }

  function BlockSlots(obs: Signal, project: int, blocks: seq<Block>, interval: int): seq<Slot>
    requires interval >= 1
  {
    if blocks == [] then []
    else
      var b := blocks[|blocks| - 1];
      BlockSlots(obs, project, blocks[..|blocks| - 1], interval) + Grid(obs, project, b.start, b.end, interval)
  }

  /** Every candidate of a whole import, in the order in which it is tried. */
  function SlotsOf(logs: seq<Log>, grace: int, interval: int): seq<Slot>
    requires interval >= 1
  {
    if logs == [] then []
    else
      var l := logs[|logs| - 1];
      SlotsOf(logs[..|logs| - 1], grace, interval) + BlockSlots(l.obs, l.project, BlocksOf(l.stamps, grace), interval)
  }

  lemma {:induction false} PlaceAllSplit(g: Progress, a: seq<Slot>, b: seq<Slot>, interval: int)
    ensures PlaceAll(g, a + b, interval) == PlaceAll(PlaceAll(g, a, interval), b, interval)
  {
    if b == [] {
      assert a + b == a;
    } else {
      PlaceAllSplit(g, a, b[..|b| - 1], interval);
      assert (a + b)[..|a + b| - 1] == a + b[..|b| - 1];
    }
  }

  lemma PlaceOne(g: Progress, s: Slot, rest: seq<Slot>, interval: int)
    ensures PlaceAll(g, [s] + rest, interval) == PlaceAll(Place(g, s, interval), rest, interval)
  {
    PlaceAllSplit(g, [s], rest, interval);
    assert [s][..0] == [];
    assert PlaceAll(g, [s][..0], interval) == g;
  }

  lemma {:induction false} FailedStays(g: Progress, slots: seq<Slot>, interval: int)
    requires g.failed
    ensures PlaceAll(g, slots, interval) == g
  {
    if slots != [] { FailedStays(g, slots[..|slots| - 1], interval); }
  }

  lemma PlaceLast(g: Progress, done: seq<Slot>, s: Slot, interval: int)
    ensures PlaceAll(g, done + [s], interval) == Place(PlaceAll(g, done, interval), s, interval)
  {
  }

  /** A loop that stops at a failure has done what the whole list does. */
  lemma StopsEarly(g: Progress, done: seq<Slot>, rest: seq<Slot>, interval: int)
    requires rest == [] || PlaceAll(g, done, interval).failed
    ensures PlaceAll(g, done + rest, interval) == PlaceAll(g, done, interval)
  {
    PlaceAllSplit(g, done, rest, interval);
    if rest != [] { FailedStays(PlaceAll(g, done, interval), rest, interval); }
  }

  lemma NextLog(g: Progress, logs: seq<Log>, l: Log, grace: int, interval: int)
    requires interval >= 1
    ensures PlaceAll(g, SlotsOf(logs + [l], grace, interval), interval) ==
            PlaceAll(PlaceAll(g, SlotsOf(logs, grace, interval), interval),
                     BlockSlots(l.obs, l.project, BlocksOf(l.stamps, grace), interval), interval)
  {
    assert (logs + [l])[..|logs|] == logs;
    PlaceAllSplit(g, SlotsOf(logs, grace, interval),
                  BlockSlots(l.obs, l.project, BlocksOf(l.stamps, grace), interval), interval);
  }

  class Importer {
    var ticks: Ticks
    var inserted: nat
    var budget: Option<nat>
    var failed: bool

    constructor (ticks: Ticks, budget: Option<nat>)
      ensures Abs() == Fresh(ticks, budget)
    {
      this.ticks, inserted, this.budget, failed := ticks, 0, budget, false;
    }

    function Abs(): Progress
      reads this
    {
      Progress(ticks, inserted, budget, failed)
    }

    method Offer(s: Slot, interval: int)
      requires !failed
      modifies this
      ensures Abs() == Place(old(Abs()), s, interval)
    {
      if Near(ticks, s.project, s.ts, interval - 1) { return; }
      if budget == Some(0) {
        failed := true;
        return;
      }
      if budget.Some? { budget := Some(budget.value - 1); }
      ticks := Insert(ticks, s);
      inserted := inserted + 1;
    }

    method FillBlock(obs: Signal, project: int, blk: Block, interval: int)
      requires interval >= 1 && !failed
      modifies this
      ensures Abs() == PlaceAll(old(Abs()), Grid(obs, project, blk.start, blk.end, interval), interval)
    {
      var ts := blk.start;
      ghost var done: seq<Slot> := [];
      while ts <= blk.end && !failed
        invariant done + Grid(obs, project, ts, blk.end, interval) == Grid(obs, project, blk.start, blk.end, interval)
        invariant Abs() == PlaceAll(old(Abs()), done, interval)
        decreases blk.end - ts
      {
        ghost var s := Slot(obs, project, ts);
        ghost var rest := Grid(obs, project, ts + interval, blk.end, interval);
        assert done + ([s] + rest) == done + [s] + rest;
        PlaceLast(old(Abs()), done, s, interval);
        Offer(Slot(obs, project, ts), interval);
        done := done + [s];
        ts := ts + interval;
      }
      StopsEarly(old(Abs()), done, Grid(obs, project, ts, blk.end, interval), interval);
    }

    method FillLog(l: Log, grace: int, interval: int)
      requires interval >= 1 && !failed
      modifies this
      ensures Abs() == PlaceAll(old(Abs()), BlockSlots(l.obs, l.project, BlocksOf(l.stamps, grace), interval), interval)
    {
      var blocks := SplitBlocks(l.stamps, grace);
      for i := 0 to |blocks|
        invariant Abs() == PlaceAll(old(Abs()), BlockSlots(l.obs, l.project, blocks[..i], interval), interval)
      {
        assert blocks[..i + 1][..i] == blocks[..i];
        ghost var grid := Grid(l.obs, l.project, blocks[i].start, blocks[i].end, interval);
        PlaceAllSplit(old(Abs()), BlockSlots(l.obs, l.project, blocks[..i], interval), grid, interval);
        if failed { FailedStays(Abs(), grid, interval); } else { FillBlock(l.obs, l.project, blocks[i], interval); }
      }
      assert blocks[..|blocks|] == blocks;
    }

    method ImportTranscripts(files: seq<File>, rules: seq<Rule>, grace: int, interval: int)
      requires interval >= 1 && !failed
      modifies this
      ensures Abs() == PlaceAll(old(Abs()), SlotsOf(LogsOf(files, rules), grace, interval), interval)
    {
      for i := 0 to |files|
        invariant Abs() == PlaceAll(old(Abs()), SlotsOf(LogsOf(files[..i], rules), grace, interval), interval)
      {
        assert files[..i + 1][..i] == files[..i];
        var log := AttributeFile(files[i], rules);
        if log.None? { continue; }
        var l := log.value;
        NextLog(old(Abs()), LogsOf(files[..i], rules), l, grace, interval);
        if failed {
          FailedStays(Abs(), BlockSlots(l.obs, l.project, BlocksOf(l.stamps, grace), interval), interval);
        } else {
          FillLog(l, grace, interval);
        }
      }
      assert files[..|files|] == files;
    }
  }

  // ---------- which slots there are ----------

  function GridTime(start: int, k: nat, interval: int): int {
    start + k * interval
  }

  /** `t` is a whole number of intervals after `start`. */
  ghost predicate OnGrid(start: int, interval: int, t: int) {
    exists k: nat :: GridTime(start, k, interval) == t
  }

  lemma NextGridTime(start: int, k: nat, interval: int)
    ensures GridTime(start, k + 1, interval) == GridTime(start + interval, k, interval)
    ensures GridTime(start, 0, interval) == start && (interval >= 1 ==> GridTime(start, k, interval) >= start)
  {
    assert (k + 1) * interval == k * interval + interval;
  }

  lemma OnGridStep(start: int, interval: int, t: int)
    requires interval >= 1
    ensures OnGrid(start, interval, t) ==> t >= start
    ensures OnGrid(start, interval, t) <==> t == start || OnGrid(start + interval, interval, t)
  {
    if k: nat :| GridTime(start, k, interval) == t {
      NextGridTime(start, k, interval);
      if k > 0 { NextGridTime(start, k - 1, interval); }
    }
    if t == start { NextGridTime(start, 0, interval); }
    var next := start + interval;
    if k: nat :| GridTime(next, k, interval) == t { NextGridTime(start, k, interval); }
  }

  /** The grid over one block: every whole number of intervals from its start that is not past its end. */
  lemma {:induction false} GridIff(obs: Signal, p: int, ts: int, end: int, interval: int, s: Slot)
    requires interval >= 1
    ensures s in Grid(obs, p, ts, end, interval) <==>
            s.obs == obs && s.project == p && s.ts <= end && OnGrid(ts, interval, s.ts)
    decreases end - ts
  {
    OnGridStep(ts, interval, s.ts);
    if ts <= end { GridIff(obs, p, ts + interval, end, interval, s); }
  }

  lemma {:induction false} GridReaches(start: int, interval: int, t: int) returns (g: int)
    requires interval >= 1 && start <= t
    ensures OnGrid(start, interval, g) && g <= t < g + interval
    decreases t - start
  {
    if t < start + interval {
      g := start;
      NextGridTime(start, 0, interval);
    } else {
      g := GridReaches(start + interval, interval, t);
      OnGridStep(start, interval, g);
    }
  }

  lemma {:induction false} BlockSlotsIff(obs: Signal, p: int, blocks: seq<Block>, interval: int, s: Slot)
    requires interval >= 1
    ensures s in BlockSlots(obs, p, blocks, interval) <==>
            s.obs == obs && s.project == p
            && exists b :: b in blocks && s.ts <= b.end && OnGrid(b.start, interval, s.ts)
  {
    if blocks != [] {
      var front, b := blocks[..|blocks| - 1], blocks[|blocks| - 1];
      BlockSlotsIff(obs, p, front, interval, s);
      GridIff(obs, p, b.start, b.end, interval, s);
      assert forall x :: x in blocks <==> x in front || x == b;
    }
  }

  /** The log asks for the slot. */
  ghost predicate Wants(l: Log, grace: int, interval: int, s: Slot) {
    s.obs == l.obs && s.project == l.project
    && exists b :: b in BlocksOf(l.stamps, grace) && s.ts <= b.end && OnGrid(b.start, interval, s.ts)
  }

  lemma {:induction false} SlotsIff(logs: seq<Log>, grace: int, interval: int, s: Slot)
    requires interval >= 1
    ensures s in SlotsOf(logs, grace, interval) <==> exists l :: l in logs && Wants(l, grace, interval, s)
  {
    if logs != [] {
      var front, l := logs[..|logs| - 1], logs[|logs| - 1];
      BlockSlotsIff(l.obs, l.project, BlocksOf(l.stamps, grace), interval, s);
      assert s in BlockSlots(l.obs, l.project, BlocksOf(l.stamps, grace), interval) <==> Wants(l, grace, interval, s);
      hide Wants, BlockSlots, BlocksOf;
      SlotsIff(front, grace, interval, s);
      assert forall x :: x in logs <==> x in front || x == l;
    }
  }

  lemma {:induction false} LogsIff(files: seq<File>, rules: seq<Rule>, l: Log)
    ensures l in LogsOf(files, rules) <==> exists f :: f in files && LogOf(f, rules) == Some(l)
  {
    if files != [] {
      var front, f := files[..|files| - 1], files[|files| - 1];
      LogsIff(front, rules, l);
      assert forall x :: x in files <==> x in front || x == f;
    }
  }

  /** The file has turns, its observation can be stored, and its directory's first rule is the project's. */
  predicate ImportedFor(f: File, rules: seq<Rule>, p: int) {
    f.stamps != [] && f.stored
    && var w := Winner(Signal(Transcript, "", "", "", f.cwd, ""), rules); w.Some? && w.value.project == p
  }

  /** The slot is the file's own, for its session and directory, on the grid of one of its blocks. */
  ghost predicate FileWants(f: File, rules: seq<Rule>, grace: int, interval: int, s: Slot) {
    && ImportedFor(f, rules, s.project) && s.obs == Signal(Transcript, "", f.session, "", f.cwd, "")
    && exists b :: b in BlocksOf(f.stamps, grace) && s.ts <= b.end && OnGrid(b.start, interval, s.ts)
  }

  lemma FileWantsItsLog(f: File, rules: seq<Rule>, grace: int, interval: int, s: Slot)
    ensures FileWants(f, rules, grace, interval, s) <==>
            LogOf(f, rules).Some? && Wants(LogOf(f, rules).value, grace, interval, s)
  {
  }

  /** The slots of an import are those of the grids over the blocks of its attributed files, and only
      those. */
  lemma ImportSlotsIff(files: seq<File>, rules: seq<Rule>, grace: int, interval: int, s: Slot)
    requires interval >= 1
    ensures s in SlotsOf(LogsOf(files, rules), grace, interval) <==>
            exists f :: f in files && FileWants(f, rules, grace, interval, s)
  {
    SlotsIff(LogsOf(files, rules), grace, interval, s);
    hide FileWants, Wants, LogOf;
    if l :| l in LogsOf(files, rules) && Wants(l, grace, interval, s) {
      LogsIff(files, rules, l);
      var f :| f in files && LogOf(f, rules) == Some(l);
      FileWantsItsLog(f, rules, grace, interval, s);
    }
    if f :| f in files && FileWants(f, rules, grace, interval, s) {
      FileWantsItsLog(f, rules, grace, interval, s);
      LogsIff(files, rules, LogOf(f, rules).value);
    }
  }

  /** Every instant of every block of every attributed file has a slot at most an interval before it. */
  lemma SlotsCoverBlocks(files: seq<File>, rules: seq<Rule>, grace: int, interval: int, f: File, p: int, b: Block,
                         t: int) returns (s: Slot)
    requires interval >= 1 && f in files && ImportedFor(f, rules, p)
    requires b in BlocksOf(f.stamps, grace) && b.start <= t <= b.end
    ensures s in SlotsOf(LogsOf(files, rules), grace, interval)
    ensures s.obs == Signal(Transcript, "", f.session, "", f.cwd, "") && s.project == p
    ensures s.ts <= t < s.ts + interval
  {
    var g := GridReaches(b.start, interval, t);
    s := Slot(Signal(Transcript, "", f.session, "", f.cwd, ""), p, g);
    assert FileWants(f, rules, grace, interval, s);
    ImportSlotsIff(files, rules, grace, interval, s);
  }

  /** The tick table after an import that starts from `ticks`, and its insertion count. */
  function Imported(ticks: Ticks, slots: seq<Slot>, interval: int): Ticks {
    PlaceAll(Fresh(ticks, None), slots, interval).ticks
  }

  function InsertedBy(ticks: Ticks, slots: seq<Slot>, interval: int): nat {
    PlaceAll(Fresh(ticks, None), slots, interval).inserted
  }

  lemma {:induction false} NeverFails(ticks: Ticks, slots: seq<Slot>, interval: int)
    ensures var g := PlaceAll(Fresh(ticks, None), slots, interval); !g.failed && g.budget == None
  {
    if slots != [] { NeverFails(ticks, slots[..|slots| - 1], interval); }
  }

  /** Before it fails an import is the unlimited one. */
  predicate InStep(g: Progress, h: Progress, n: nat) {
    !g.failed && g.ticks == h.ticks && g.inserted == h.inserted <= n && g.budget == Some(n - g.inserted)
  }

  lemma PlaceInStep(g: Progress, h: Progress, s: Slot, interval: int, n: nat)
    requires InStep(g, h, n) && !h.failed && h.budget == None
    ensures var g' := Place(g, s, interval);
            if g'.failed then g' == g.(failed := true) && g.inserted == n else InStep(g', Place(h, s, interval), n)
  {
  }

  /** An import whose insertion number n + 1 fails has done exactly a prefix of the slots, so what is
      said of whole imports below holds of it for that prefix. */
  lemma {:induction false} FailedImportIsPrefix(ticks: Ticks, slots: seq<Slot>, interval: int, n: nat) returns (k: nat)
    ensures k <= |slots|
    ensures var g := PlaceAll(Fresh(ticks, Some(n)), slots, interval);
            && g.ticks == Imported(ticks, slots[..k], interval) && g.inserted == InsertedBy(ticks, slots[..k], interval)
            && (if g.failed then g.inserted == n
                else k == |slots| && InStep(g, PlaceAll(Fresh(ticks, None), slots, interval), n))
  {
    k := |slots|;
    assert slots[..k] == slots;
    if slots != [] {
      var front := slots[..k - 1];
      var k0 := FailedImportIsPrefix(ticks, front, interval, n);
      assert front[..k0] == slots[..k0];
      var g, h := PlaceAll(Fresh(ticks, Some(n)), front, interval), PlaceAll(Fresh(ticks, None), front, interval);
      if g.failed {
        k := k0;
      } else {
        NeverFails(ticks, front, interval);
        PlaceInStep(g, h, slots[k - 1], interval, n);
        if Place(g, slots[k - 1], interval).failed { k := k0; }
      }
    }
  }

  // ---------- no double counting ----------

  predicate Apart(a: int, b: int, interval: int) {
    a - b >= interval || b - a >= interval
  }

  /** Rows of `p` at different times are at least one interval apart. */
  ghost predicate Separated(ticks: Ticks, p: int, interval: int) {
    forall j, k :: j in ticks && k in ticks && ticks[j] == Some(p) && ticks[k] == Some(p) && j.0 != k.0
                   ==> Apart(j.0, k.0, interval)
  }

  /** Rows are only ever added, and an added row keeps its distance from every other of its project. */
  ghost predicate GrownApart(before: Ticks, after: Ticks, interval: int) {
    && (forall k :: k in before ==> k in after && after[k] == before[k])
    && (forall k :: k in after && k !in before ==> after[k].Some?)
    && (forall j, k :: j in after && k in after && j !in before && j != k && after[j] == after[k]
                       ==> Apart(j.0, k.0, interval))
  }

  lemma PlaceKeepsDistance(before: Ticks, g: Progress, s: Slot, interval: int)
    requires interval >= 1 && GrownApart(before, g.ticks, interval)
    ensures GrownApart(before, Place(g, s, interval).ticks, interval)
  {
  }

  lemma {:induction false} ImportKeepsDistance(ticks: Ticks, slots: seq<Slot>, interval: int)
    requires interval >= 1
    ensures GrownApart(ticks, Imported(ticks, slots, interval), interval)
  {
    if slots != [] {
      ImportKeepsDistance(ticks, slots[..|slots| - 1], interval);
      var g := PlaceAll(Fresh(ticks, None), slots[..|slots| - 1], interval);
      PlaceKeepsDistance(ticks, g, slots[|slots| - 1], interval);
    }
  }

  /** A grid of whole intervals stays one after an import. */
  lemma SeparationSurvives(ticks: Ticks, slots: seq<Slot>, p: int, interval: int)
    requires interval >= 1 && Separated(ticks, p, interval)
    ensures Separated(Imported(ticks, slots, interval), p, interval)
  {
    ImportKeepsDistance(ticks, slots, interval);
  }

  // ---------- coverage, and running it again ----------

  /** The slot's row is taken by another project, or by none. */
  predicate ForeignRow(ticks: Ticks, s: Slot) {
    (s.ts, s.obs) in ticks && ticks[(s.ts, s.obs)] != Some(s.project)
  }

  predicate Covered(ticks: Ticks, s: Slot, interval: int) {
    Near(ticks, s.project, s.ts, interval - 1)
  }

  /** An observation belongs to one project throughout an import. */
  predicate OneProjectPerObs(slots: seq<Slot>) {
    forall a, b :: a in slots && b in slots && a.obs == b.obs ==> a.project == b.project
  }

  lemma PlaceCovers(g: Progress, s: Slot, interval: int)
    requires interval >= 1 && !g.failed && g.budget == None
    ensures var t2 := Place(g, s, interval).ticks; Covered(t2, s, interval) || ForeignRow(g.ticks, s)
  {
  }

  lemma PlaceKeepsCovered(g: Progress, x: Slot, s: Slot, interval: int)
    requires Covered(g.ticks, s, interval)
    ensures Covered(Place(g, x, interval).ticks, s, interval)
  {
  }

  /** Rows an import adds belong to the project of a slot of the same observation. */
  lemma {:induction false} NewRowsAreOwn(ticks: Ticks, slots: seq<Slot>, interval: int, s: Slot)
    requires OneProjectPerObs(slots + [s])
    ensures ForeignRow(Imported(ticks, slots, interval), s) <==> ForeignRow(ticks, s)
  {
    if slots != [] {
      var front, last := slots[..|slots| - 1], slots[|slots| - 1];
      assert forall x :: x in front + [s] ==> x in slots + [s];
      NewRowsAreOwn(ticks, front, interval, s);
      assert last in slots + [s] && s in slots + [s];
    }
  }

  /** After an import every slot has a tick of its project within interval - 1, unless its row
      was taken from the start. */
  lemma {:induction false} ImportCovers(ticks: Ticks, slots: seq<Slot>, interval: int, s: Slot)
    requires interval >= 1 && OneProjectPerObs(slots) && s in slots
    ensures Covered(Imported(ticks, slots, interval), s, interval) || ForeignRow(ticks, s)
  {
    var front, last := slots[..|slots| - 1], slots[|slots| - 1];
    var g := PlaceAll(Fresh(ticks, None), front, interval);
    assert forall x :: x in front ==> x in slots;
    if s in front {
      ImportCovers(ticks, front, interval, s);
      if Covered(g.ticks, s, interval) { PlaceKeepsCovered(g, last, s, interval); }
    } else {
      assert s == last && front + [s] == slots;
      NeverFails(ticks, front, interval);
      PlaceCovers(g, s, interval);
      NewRowsAreOwn(ticks, front, interval, s);
    }
  }

  lemma SilentStep(g: Progress, s: Slot, interval: int)
    requires !g.failed && g.budget == None
    ensures var n := Place(g, s, interval);
            if Covered(g.ticks, s, interval) then n == g else n.inserted == g.inserted + 1
  {
  }

  lemma {:induction false} SilentIffCovered(ticks: Ticks, slots: seq<Slot>, interval: int)
    ensures InsertedBy(ticks, slots, interval) == 0 <==> forall s :: s in slots ==> Covered(ticks, s, interval)
    ensures InsertedBy(ticks, slots, interval) == 0 ==> Imported(ticks, slots, interval) == ticks
  {
    if slots != [] {
      var front, last := slots[..|slots| - 1], slots[|slots| - 1];
      SilentIffCovered(ticks, front, interval);
      NeverFails(ticks, front, interval);
      SilentStep(PlaceAll(Fresh(ticks, None), front, interval), last, interval);
      assert forall s :: s in slots <==> s in front || s == last;
    }
  }

  /** Running the import again inserts nothing iff every slot whose row was taken from the
      start ended up near some other tick of its project. */
  lemma SecondRunSilent(ticks: Ticks, slots: seq<Slot>, interval: int)
    requires interval >= 1 && OneProjectPerObs(slots)
    ensures var after := Imported(ticks, slots, interval);
            InsertedBy(after, slots, interval) == 0 <==>
            forall s :: s in slots && ForeignRow(ticks, s) ==> Covered(after, s, interval)
  {
    var after := Imported(ticks, slots, interval);
    SilentIffCovered(after, slots, interval);
    forall s | s in slots && !ForeignRow(ticks, s) ensures Covered(after, s, interval) {
      ImportCovers(ticks, slots, interval, s);
    }
  }

  /** In particular an import is re-runnable when no slot's row was taken. */
  lemma ImportIsRerunnable(ticks: Ticks, slots: seq<Slot>, interval: int)
    requires interval >= 1 && OneProjectPerObs(slots)
    requires forall s :: s in slots ==> !ForeignRow(ticks, s)
    ensures var after := Imported(ticks, slots, interval);
            InsertedBy(after, slots, interval) == 0 && Imported(after, slots, interval) == after
  {
    SecondRunSilent(ticks, slots, interval);
    SilentIffCovered(Imported(ticks, slots, interval), slots, interval);
  }

  /** A row the observation holds for another project is counted as inserted on every run. */
  lemma TakenRowIsCountedAgain(obs: Signal, p: int, q: int)
    requires p != q
    ensures var ticks: Ticks := map[(100, obs) := Some(q)];
            Imported(ticks, [Slot(obs, p, 100)], 5) == ticks && InsertedBy(ticks, [Slot(obs, p, 100)], 5) == 1
  {
    var ticks: Ticks := map[(100, obs) := Some(q)];
    PlaceOne(Fresh(ticks, None), Slot(obs, p, 100), [], 5);
    assert [Slot(obs, p, 100)] + [] == [Slot(obs, p, 100)];
    assert !Near(ticks, p, 100, 4);
  }

  lemma {:induction false} LogsAttributed(files: seq<File>, rules: seq<Rule>)
    ensures forall l :: l in LogsOf(files, rules) ==>
              Importee(l.obs.cwd, rules).Some? && Importee(l.obs.cwd, rules).value.project == l.project
  {
    if files != [] { LogsAttributed(files[..|files| - 1], rules); }
  }

  /** An import never gives one observation to two projects. */
  lemma RulesGiveOneProject(files: seq<File>, rules: seq<Rule>, grace: int, interval: int)
    requires interval >= 1
    ensures OneProjectPerObs(SlotsOf(LogsOf(files, rules), grace, interval))
  {
    var logs := LogsOf(files, rules);
    var slots := SlotsOf(logs, grace, interval);
    LogsAttributed(files, rules);
    forall a, b | a in slots && b in slots && a.obs == b.obs ensures a.project == b.project {
      SlotsIff(logs, grace, interval, a);
      SlotsIff(logs, grace, interval, b);
    }
  }

  /** So after an import every instant of every block has a tick of the file's project less than two
      intervals before it or less than one after, unless its slot's row was taken. */
  lemma WorkedInstantIsTicked(ticks: Ticks, files: seq<File>, rules: seq<Rule>, grace: int, interval: int,
                              f: File, p: int, b: Block, t: int) returns (s: Slot)
    requires interval >= 1 && f in files && ImportedFor(f, rules, p)
    requires b in BlocksOf(f.stamps, grace) && b.start <= t <= b.end
    ensures s.obs == Signal(Transcript, "", f.session, "", f.cwd, "") && s.project == p && s.ts <= t < s.ts + interval
    ensures var after := Imported(ticks, SlotsOf(LogsOf(files, rules), grace, interval), interval);
            ForeignRow(ticks, s)
            || exists k :: k in after && after[k] == Some(p) && t - 2 * interval < k.0 < t + interval
  {
    s := SlotsCoverBlocks(files, rules, grace, interval, f, p, b, t);
    RulesGiveOneProject(files, rules, grace, interval);
    ImportCovers(ticks, SlotsOf(LogsOf(files, rules), grace, interval), interval, s);
  }

  // ---------- what the project is billed ----------

  function Times(ticks: Ticks, p: int, lo: int, hi: int): set<int> {
    set k | k in ticks && ticks[k] == Some(p) && lo <= k.0 <= hi :: k.0
  }

  lemma {:induction false} SpreadBound(times: set<int>, lo: int, hi: int, interval: int)
    requires interval >= 1 && lo - interval <= hi
    requires forall t :: t in times ==> lo <= t <= hi
    requires forall a, b :: a in times && b in times && a != b ==> Apart(a, b, interval)
    ensures |times| * interval <= hi - lo + interval
    decreases hi - lo + interval
  {
    if hi < lo {
      assert times <= (set t | t in times && lo <= t <= hi) == {};
    } else if hi in times {
      var rest := times - {hi};
      forall t | t in rest ensures lo <= t <= hi - interval { assert Apart(t, hi, interval); }
      SpreadBound(rest, lo, hi - interval, interval);
      assert |times| == |rest| + 1;
      assert (|rest| + 1) * interval == |rest| * interval + interval;
    } else {
      SpreadBound(times, lo, hi - 1, interval);
    }
  }

  /** So the seconds billed for a stretch of time never exceed it by more than one interval,
      before the import or after it. */
  lemma ImportNeverOverbills(ticks: Ticks, slots: seq<Slot>, p: int, lo: int, hi: int, interval: int)
    requires interval >= 1 && lo <= hi && Separated(ticks, p, interval)
    ensures |Times(Imported(ticks, slots, interval), p, lo, hi)| * interval <= hi - lo + interval
  {
    SeparationSurvives(ticks, slots, p, interval);
    SpreadBound(Times(Imported(ticks, slots, interval), p, lo, hi), lo, hi, interval);
  }
}
