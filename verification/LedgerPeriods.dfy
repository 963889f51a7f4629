/** Which seconds the hourly invoices of one company bill, over every run of generates and advances
    with default periods, however their steps interleave. */
module LedgerPeriods {
  import opened Options
  import opened Rules
  import opened LineItem
  import opened Ledger
  import opened LedgerRuns

  /** Every second credited to a project of the company, paused or not. */
  function CompanySeconds(env: Env, c: int): set<int> {
    set k | k in env.ticks && env.ticks[k].Some? && env.ticks[k].value in env.projects
            && env.projects[env.ticks[k].value].company == Some(c) :: k.0
  }

  function Between(d: set<int>, lo: int, hi: int): set<int> {
    set t | t in d && lo <= t < hi
  }

  // ---------- one count ----------

  /** The company's seconds in the period that stand on paused projects only, which no count sees. */
  function PausedOnly(env: Env, c: int, lo: int, hi: int): set<int> {
    Between(CompanySeconds(env, c), lo, hi) - BillableSeconds(env, c, lo, hi)
  }

  /** One count takes every distinct second of the company but those. */
  lemma PausedSecondsAreSkipped(env: Env, c: int, lo: int, hi: int)
    ensures BillableSeconds(env, c, lo, hi) <= Between(CompanySeconds(env, c), lo, hi)
    ensures |BillableSeconds(env, c, lo, hi)| + |PausedOnly(env, c, lo, hi)|
            == |Between(CompanySeconds(env, c), lo, hi)|
  {
    var b, worked := BillableSeconds(env, c, lo, hi), Between(CompanySeconds(env, c), lo, hi);
    forall t | t in b ensures t in worked {
      var k :| k in env.ticks && env.ticks[k].Some? && env.ticks[k].value in env.projects
               && env.projects[env.ticks[k].value].company == Some(c) && lo <= k.0 < hi && k.0 == t;
      assert t in CompanySeconds(env, c);
    }
    assert worked == b + PausedOnly(env, c, lo, hi);
  }

  lemma BetweenSplits(d: set<int>, lo: int, mid: int, hi: int)
    requires lo <= mid <= hi
    ensures |Between(d, lo, hi)| == |Between(d, lo, mid)| + |Between(d, mid, hi)|
  {
    assert Between(d, lo, hi) == Between(d, lo, mid) + Between(d, mid, hi);
    assert Between(d, lo, mid) !! Between(d, mid, hi);
  }

  // ---------- the anchor ----------

  /** Where the next default period starts. */
  function Frontier(invoices: seq<Invoice>, c: int, created: int): int {
    if LastSent(invoices, c) > 0 then LastSent(invoices, c) else created
  }

  function BilledTicks(invoices: seq<Invoice>, c: int): nat {
    if invoices == [] then 0
    else BilledTicks(invoices[..|invoices| - 1], c)
         + if Bills(invoices[|invoices| - 1], c) then invoices[|invoices| - 1].ticks else 0
  }

  /** Each hourly period starts where the one before ended, the first at the company's creation,
      and ends when the invoice was issued. */
  predicate Tiles(invoices: seq<Invoice>, c: int, created: int) {
    invoices == []
    || (var front, i := invoices[..|invoices| - 1], invoices[|invoices| - 1];
        Tiles(front, c, created)
        && (Bills(i, c) ==> i.lo == Frontier(front, c, created) && i.hi == i.sentAt && i.sentAt > 0))
  }

  lemma {:induction false} UnbilledHasNoAnchor(invoices: seq<Invoice>, c: int)
    requires !HasBilled(invoices, c)
    ensures LastSent(invoices, c) == 0
  {
    if invoices != [] {
      assert forall x :: x in invoices[..|invoices| - 1] ==> x in invoices;
      assert invoices[|invoices| - 1] in invoices;
      UnbilledHasNoAnchor(invoices[..|invoices| - 1], c);
    }
  }

  lemma LastSentSnoc(invoices: seq<Invoice>, i: Invoice, c: int)
    requires Bills(i, c) ==> i.sentAt > 0
    ensures LastSent(invoices + [i], c) ==
            if Bills(i, c) && i.sentAt >= LastSent(invoices, c) then i.sentAt else LastSent(invoices, c)
  {
    assert (invoices + [i])[..|invoices|] == invoices;
    if !HasBilled(invoices, c) { UnbilledHasNoAnchor(invoices, c); }
  }

  lemma SnocTiles(invoices: seq<Invoice>, i: Invoice, c: int, created: int)
    ensures Tiles(invoices + [i], c, created) <==>
            Tiles(invoices, c, created)
            && (Bills(i, c) ==> i.lo == Frontier(invoices, c, created) && i.hi == i.sentAt && i.sentAt > 0)
    ensures BilledTicks(invoices + [i], c) == BilledTicks(invoices, c) + if Bills(i, c) then i.ticks else 0
    ensures BilledRows(invoices + [i], c) == BilledRows(invoices, c) + if Bills(i, c) then 1 else 0
  {
    assert (invoices + [i])[..|invoices|] == invoices;
  }

  // ---------- orderly runs ----------

  /** The latest time at which a generate for the company read, at first its creation. */
  function Clock(ops: seq<Op>, c: int, created: int): int {
    if ops == [] then created
    else
      var op := ops[|ops| - 1];
      if op.Starts? && op.g.company == c then op.g.now else Clock(ops[..|ops| - 1], c, created)
  }

  /** The company's work up to `now`, as the request finds it, is `d`. */
  predicate SeesWork(env: Env, c: int, now: int, d: set<int>) {
    forall t :: t in CompanySeconds(env, c) + d && t < now ==> (t in CompanySeconds(env, c) <==> t in d)
  }

  /** A request for the company: billed hourly since `created`, default period, at a time not
      before the last one; `d` is the company's work, fixed up to the present. */
  predicate Orderly(env: Env, g: GenerateReq, c: int, created: int, clock: int, d: set<int>) {
    && (c in env.companies ==> env.companies[c].mode.Hourly? && env.companies[c].createdAt == created)
    && g.fromUnix <= 0 && g.toUnix <= 0 && g.now > 0 && g.now >= clock
    && SeesWork(env, c, g.now, d)
  }

  /** Generates and advances only, in any interleaving; any of them may fail or crash. */
  predicate OrderlyRun(ops: seq<Op>, c: int, created: int, d: set<int>) {
    ops == []
    || (var front, op := ops[..|ops| - 1], ops[|ops| - 1];
        && OrderlyRun(front, c, created, d)
        && !op.Sends? && !op.Deletes?
        && (op.Starts? && op.g.company == c ==> Orderly(op.env, op.g, c, created, Clock(front, c, created), d)))
  }

  /** The step commits an hourly invoice of the company. */
  predicate CommitsBill(s: System, op: Op, c: int) {
    op.Transacts? && op.t in s.open && s.open[op.t].job.Bill? && s.open[op.t].job.g.company == c
    && Passes(op.stop, Committing) && RowFor(s.world.db, s.open[op.t].env, s.open[op.t].job).Some?
  }

  function Min(a: int, b: int): int { if a < b then a else b }

  /** The worked seconds a committing invoice bills although the anchor has passed them: known before
      the commit from its period and the anchor. */
  function ReachedBack(s: System, op: Op, c: int, created: int, d: set<int>): set<int> {
    if CommitsBill(s, op, c) then
      var draft := s.open[op.t].job.draft;
      Between(d, draft.lo, Min(draft.hi, Frontier(s.world.db.invoices, c, created)))
    else {}
  }

  /** The seconds it passes over, standing on paused projects only when it was counted. */
  function Missed(s: System, op: Op, c: int): set<int> {
    if CommitsBill(s, op, c) then
      var q := s.open[op.t];
      PausedOnly(q.env, c, q.job.draft.lo, q.job.draft.hi)
    else {}
  }

  /** The seconds its count takes. */
  function Counted(s: System, op: Op, c: int): set<int> {
    if CommitsBill(s, op, c) then
      var q := s.open[op.t];
      BillableSeconds(q.env, c, q.job.draft.lo, q.job.draft.hi)
    else {}
  }

  /** Over a run: how many seconds were billed again, and how many were passed over. */
  function Rebilled(ops: seq<Op>, c: int, created: int, d: set<int>): nat {
    if ops == [] then 0
    else Rebilled(ops[..|ops| - 1], c, created, d)
         + |ReachedBack(After(ops[..|ops| - 1]), ops[|ops| - 1], c, created, d)|
  }

  function Skipped(ops: seq<Op>, c: int): nat {
    if ops == [] then 0
    else Skipped(ops[..|ops| - 1], c) + |Missed(After(ops[..|ops| - 1]), ops[|ops| - 1], c)|
  }

  function One(b: bool): nat { if b then 1 else 0 }

  /** Over a run: how many invoices took the second `t`, reached back over it, or passed over it. */
  datatype Tally = Tally(taken: nat, again: nat, missed: nat)

  function SecondTally(ops: seq<Op>, c: int, created: int, d: set<int>, t: int): Tally {
    if ops == [] then Tally(0, 0, 0)
    else
      var s, op := After(ops[..|ops| - 1]), ops[|ops| - 1];
      var n := SecondTally(ops[..|ops| - 1], c, created, d, t);
      Tally(n.taken + One(t in Counted(s, op, c)),
            n.again + One(t in ReachedBack(s, op, c, created, d)),
            n.missed + One(t in Missed(s, op, c)))
  }

  /** No committing invoice reached back over a worked second. */
  predicate NoReachBack(ops: seq<Op>, c: int, created: int, d: set<int>) {
    ops == []
    || (NoReachBack(ops[..|ops| - 1], c, created, d)
        && ReachedBack(After(ops[..|ops| - 1]), ops[|ops| - 1], c, created, d) == {})
  }

  /** None of them passed over one. */
  predicate AllCounted(ops: seq<Op>, c: int) {
    ops == []
    || (AllCounted(ops[..|ops| - 1], c) && Missed(After(ops[..|ops| - 1]), ops[|ops| - 1], c) == {})
  }

  /** No other invoice of the company committed between a request's reads and its own commit. */
  predicate NoOverlap(ops: seq<Op>, c: int) {
    ops == []
    || (var s, op := After(ops[..|ops| - 1]), ops[|ops| - 1];
        NoOverlap(ops[..|ops| - 1], c)
        && (CommitsBill(s, op, c) ==> s.open[op.t].marks == BilledRows(s.world.db.invoices, c)))
  }

  // ---------- what an orderly run keeps ----------

  /** An open request of the company has read its draft from an anchor that only moves on, and still
      stands where it read it while nobody else has billed. */
  predicate RequestOk(q: Request, invoices: seq<Invoice>, c: int, created: int, clock: int, d: set<int>) {
    q.job.Bill? && q.job.g.company == c ==>
      var g, draft := q.job.g, q.job.draft;
      && 0 < g.now <= clock && draft.hi == g.now && created <= draft.lo <= g.now
      && draft.ticks == |BillableSeconds(q.env, c, draft.lo, draft.hi)|
      && SeesWork(q.env, c, g.now, d)
      && q.marks <= BilledRows(invoices, c)
      && draft.lo <= Frontier(invoices, c, created)
      && (q.marks == BilledRows(invoices, c) ==> draft.lo == Frontier(invoices, c, created))
  }

  ghost predicate Kept(s: System, c: int, created: int, clock: int, d: set<int>) {
    var invoices := s.world.db.invoices;
    && LastSent(invoices, c) >= 0 && created <= Frontier(invoices, c, created) <= clock
    && forall t :: t in s.open ==> RequestOk(s.open[t], invoices, c, created, clock, d)
  }

  lemma RequestStaysOk(q: Request, invoices: seq<Invoice>, i: Invoice, c: int, created: int, clock: int, d: set<int>)
    requires RequestOk(q, invoices, c, created, clock, d) && (Bills(i, c) ==> i.sentAt > 0 && i.sentAt >= created)
    ensures RequestOk(q, invoices + [i], c, created, clock, d)
  {
    SnocTiles(invoices, i, c, created);
    LastSentSnoc(invoices, i, c);
  }

  lemma FreshRequestOk(s: System, env: Env, g: GenerateReq, c: int, created: int, clock: int, d: set<int>)
    requires Kept(s, c, created, clock, d) && g.company == c && Orderly(env, g, c, created, clock, d)
    requires DraftFor(s.world.db.invoices, env, g).Some?
    ensures var invoices := s.world.db.invoices;
            var q := Request(env, Bill(g, DraftFor(invoices, env, g).value), BilledRows(invoices, c));
            RequestOk(q, invoices, c, created, g.now, d)
  {
  }

  lemma StartKeeps(s: System, op: Op, c: int, created: int, clock: int, d: set<int>)
    requires Kept(s, c, created, clock, d) && op.Starts?
    requires op.g.company == c ==> Orderly(op.env, op.g, c, created, clock, d)
    ensures Kept(Do(s, op), c, created, if op.g.company == c then op.g.now else clock, d)
  {
    var later := if op.g.company == c then op.g.now else clock;
    forall t | t in s.open ensures RequestOk(s.open[t], s.world.db.invoices, c, created, later, d) {}
    if op.g.company == c && DraftFor(s.world.db.invoices, op.env, op.g).Some? {
      FreshRequestOk(s, op.env, op.g, c, created, clock, d);
    }
  }

  /** The row an open request would commit. */
  lemma RowOfRequest(q: Request, db: Db, c: int)
    requires RowFor(db, q.env, q.job).Some?
    ensures var row := RowFor(db, q.env, q.job).value;
            (Bills(row, c) <==> q.job.Bill? && q.job.g.company == c)
            && (Bills(row, c) ==> row.sentAt == q.job.g.now && row.lo == q.job.draft.lo && row.hi == q.job.draft.hi
                                  && row.ticks == q.job.draft.ticks)
  {
  }

  lemma RowKeeps(s: System, q: Request, row: Invoice, open: map<int, Request>,
                 c: int, created: int, clock: int, d: set<int>)
    requires Kept(s, c, created, clock, d) && RequestOk(q, s.world.db.invoices, c, created, clock, d)
    requires RowFor(s.world.db, q.env, q.job) == Some(row)
    requires forall t :: t in open ==> t in s.open && open[t] == s.open[t]
    ensures forall w: World :: w.db.invoices == s.world.db.invoices + [row] ==>
              Kept(System(w, open), c, created, clock, d)
  {
    RowOfRequest(q, s.world.db, c);
    LastSentSnoc(s.world.db.invoices, row, c);
    forall t | t in open ensures RequestOk(open[t], s.world.db.invoices + [row], c, created, clock, d) {
      RequestStaysOk(open[t], s.world.db.invoices, row, c, created, clock, d);
    }
  }

  lemma TransactInvoices(w: World, env: Env, job: Job, stop: Option<Stop>)
    ensures Transact(w, env, job, stop).db.invoices ==
            if Passes(stop, Committing) && RowFor(w.db, env, job).Some?
            then w.db.invoices + [RowFor(w.db, env, job).value] else w.db.invoices
  {
  }

  lemma TransactKeepsRun(s: System, t: int, stop: Option<Stop>, c: int, created: int, clock: int, d: set<int>)
    requires Kept(s, c, created, clock, d) && t in s.open
    ensures Kept(Do(s, Transacts(t, stop)), c, created, clock, d)
  {
    var q := s.open[t];
    TransactInvoices(s.world, q.env, q.job, stop);
    var n := Do(s, Transacts(t, stop));
    if Passes(stop, Committing) && RowFor(s.world.db, q.env, q.job).Some? {
      RowKeeps(s, q, RowFor(s.world.db, q.env, q.job).value, n.open, c, created, clock, d);
    }
  }

  lemma {:induction false} OrderlyRunKeeps(ops: seq<Op>, c: int, created: int, d: set<int>)
    requires OrderlyRun(ops, c, created, d)
    ensures Kept(After(ops), c, created, Clock(ops, c, created), d)
  {
    if ops != [] {
      var front, op := ops[..|ops| - 1], ops[|ops| - 1];
      OrderlyRunKeeps(front, c, created, d);
      match op
      case Starts(_, _, _) => StartKeeps(After(front), op, c, created, Clock(front, c, created), d);
      case StartsAdvance(_, _, _) =>
      case Seeds(_) =>
      case Transacts(t, stop) =>
        if t in After(front).open { TransactKeepsRun(After(front), t, stop, c, created, Clock(front, c, created), d); }
    }
  }

  // ---------- tiling ----------

  lemma InvoicesMove(s: System, op: Op, c: int)
    requires !op.Sends? && !op.Deletes?
    ensures CommitsBill(s, op, c) ==>
              Do(s, op).world.db.invoices ==
              s.world.db.invoices + [RowFor(s.world.db, s.open[op.t].env, s.open[op.t].job).value]
    ensures !CommitsBill(s, op, c) ==>
              Do(s, op).world.db.invoices == s.world.db.invoices
              || exists i :: !Bills(i, c) && Do(s, op).world.db.invoices == s.world.db.invoices + [i]
  {
    if op.Transacts? && op.t in s.open {
      var q := s.open[op.t];
      TransactInvoices(s.world, q.env, q.job, op.stop);
      if RowFor(s.world.db, q.env, q.job).Some? { RowOfRequest(q, s.world.db, c); }
    }
  }

  /** What the last step does to the periods, the billed ticks and the anchor. */
  lemma StepMeasures(s: System, op: Op, c: int, created: int, clock: int, d: set<int>)
    requires Kept(s, c, created, clock, d) && !op.Sends? && !op.Deletes?
    ensures var a, b := s.world.db.invoices, Do(s, op).world.db.invoices;
            var f, f' := Frontier(a, c, created), Frontier(b, c, created);
            if CommitsBill(s, op, c) then
              var draft := s.open[op.t].job.draft;
              && (Tiles(b, c, created) <==> Tiles(a, c, created) && draft.lo == f)
              && BilledTicks(b, c) == BilledTicks(a, c) + draft.ticks && f' == if draft.hi > f then draft.hi else f
            else (Tiles(b, c, created) <==> Tiles(a, c, created)) && BilledTicks(b, c) == BilledTicks(a, c) && f' == f
  {
    var a, b := s.world.db.invoices, Do(s, op).world.db.invoices;
    InvoicesMove(s, op, c);
    if CommitsBill(s, op, c) {
      var q := s.open[op.t];
      var row := RowFor(s.world.db, q.env, q.job).value;
      RowOfRequest(q, s.world.db, c);
      assert RequestOk(q, a, c, created, clock, d);
      SnocTiles(a, row, c, created);
      LastSentSnoc(a, row, c);
    } else if b != a {
      var i :| !Bills(i, c) && b == a + [i];
      SnocTiles(a, i, c, created);
      LastSentSnoc(a, i, c);
    }
  }

  lemma BetweenSeen(env: Env, c: int, now: int, d: set<int>, lo: int)
    requires SeesWork(env, c, now, d)
    ensures Between(CompanySeconds(env, c), lo, now) == Between(d, lo, now)
  {
    forall t | t in Between(CompanySeconds(env, c), lo, now) ensures t in d { assert t in CompanySeconds(env, c) + d; }
    forall t | t in Between(d, lo, now) ensures t in CompanySeconds(env, c) { assert t in CompanySeconds(env, c) + d; }
  }

  // ---------- every second ----------

  /** A period from at or before the anchor adds the seconds it moves the anchor over, and takes those
      before the anchor again. */
  lemma PeriodAdds(d: set<int>, created: int, f: int, lo: int, hi: int)
    requires created <= lo <= f && lo <= hi
    ensures var f' := if hi > f then hi else f;
            |Between(d, created, f)| + |Between(d, lo, hi)| == |Between(d, created, f')| + |Between(d, lo, Min(hi, f))|
  {
    if hi > f {
      BetweenSplits(d, created, f, hi);
      BetweenSplits(d, lo, f, hi);
    }
  }

  /** What one commit takes and passes over are the worked seconds of its period. */
  lemma CommitTakes(s: System, op: Op, c: int, created: int, clock: int, d: set<int>)
    requires Kept(s, c, created, clock, d) && CommitsBill(s, op, c)
    ensures var draft := s.open[op.t].job.draft;
            && draft.ticks + |Missed(s, op, c)| == |Between(d, draft.lo, draft.hi)|
            && Counted(s, op, c) + Missed(s, op, c) == Between(d, draft.lo, draft.hi)
            && Counted(s, op, c) !! Missed(s, op, c)
            && created <= draft.lo <= Frontier(s.world.db.invoices, c, created) && draft.lo <= draft.hi
  {
    var q := s.open[op.t];
    assert RequestOk(q, s.world.db.invoices, c, created, clock, d);
    PausedSecondsAreSkipped(q.env, c, q.job.draft.lo, q.job.draft.hi);
    BetweenSeen(q.env, c, q.job.draft.hi, d, q.job.draft.lo);
  }

  /** Over every orderly run the ticks billed, with the seconds passed over, are the distinct seconds
      worked from the company's creation to the anchor, with the seconds billed again. */
  lemma {:induction false} TicksAccountedFor(ops: seq<Op>, c: int, created: int, d: set<int>)
    requires OrderlyRun(ops, c, created, d)
    ensures var invoices := After(ops).world.db.invoices;
            BilledTicks(invoices, c) + Skipped(ops, c)
            == |Between(d, created, Frontier(invoices, c, created))| + Rebilled(ops, c, created, d)
  {
    if ops == [] {
      assert Between(d, created, created) == {};
    } else {
      var front, op := ops[..|ops| - 1], ops[|ops| - 1];
      var s, clock := After(front), Clock(front, c, created);
      TicksAccountedFor(front, c, created, d);
      OrderlyRunKeeps(front, c, created, d);
      StepMeasures(s, op, c, created, clock, d);
      if CommitsBill(s, op, c) {
        var draft := s.open[op.t].job.draft;
        CommitTakes(s, op, c, created, clock, d);
        PeriodAdds(d, created, Frontier(s.world.db.invoices, c, created), draft.lo, draft.hi);
      }
    }
  }

  lemma {:induction false} SumsVanish(ops: seq<Op>, c: int, created: int, d: set<int>)
    ensures Rebilled(ops, c, created, d) == 0 <==> NoReachBack(ops, c, created, d)
    ensures Skipped(ops, c) == 0 <==> AllCounted(ops, c)
  {
    if ops != [] { SumsVanish(ops[..|ops| - 1], c, created, d); }
  }

  /** So when no count passes over a second, the billed ticks are the distinct worked seconds iff no
      committing invoice reaches back over one, and more than those otherwise. */
  lemma BillsOnceIff(ops: seq<Op>, c: int, created: int, d: set<int>)
    requires OrderlyRun(ops, c, created, d) && AllCounted(ops, c)
    ensures var invoices := After(ops).world.db.invoices;
            var billed, worked := BilledTicks(invoices, c), |Between(d, created, Frontier(invoices, c, created))|;
            billed >= worked && (billed == worked <==> NoReachBack(ops, c, created, d))
  {
    TicksAccountedFor(ops, c, created, d);
    SumsVanish(ops, c, created, d);
  }

  lemma PeriodTakes(d: set<int>, created: int, f: int, lo: int, hi: int, t: int)
    requires created <= lo <= f && lo <= hi
    ensures var f' := if hi > f then hi else f;
            One(t in Between(d, created, f)) + One(t in Between(d, lo, hi))
            == One(t in Between(d, created, f')) + One(t in Between(d, lo, Min(hi, f)))
  {
  }

  lemma StepTakes(s: System, op: Op, c: int, created: int, clock: int, d: set<int>, t: int)
    requires Kept(s, c, created, clock, d) && !op.Sends? && !op.Deletes?
    ensures var a, b := s.world.db.invoices, Do(s, op).world.db.invoices;
            One(t in Counted(s, op, c)) + One(t in Missed(s, op, c))
            + One(t in Between(d, created, Frontier(a, c, created)))
            == One(t in ReachedBack(s, op, c, created, d)) + One(t in Between(d, created, Frontier(b, c, created)))
  {
    StepMeasures(s, op, c, created, clock, d);
    if CommitsBill(s, op, c) {
      CommitTakes(s, op, c, created, clock, d);
      var draft, f := s.open[op.t].job.draft, Frontier(s.world.db.invoices, c, created);
      assert ReachedBack(s, op, c, created, d) == Between(d, draft.lo, Min(draft.hi, f));
      hide Counted, Missed, ReachedBack, Between, Frontier, Do, Kept, CommitsBill, Tiles;
      PeriodTakes(d, created, f, draft.lo, draft.hi, t);
      assert t in Between(d, draft.lo, draft.hi) <==> t in Counted(s, op, c) + Missed(s, op, c);
    }
  }

  /** Second by second: what stands before the anchor is billed once, once more for every invoice that
      reaches back over it and once less for every one that passes over it; the rest is never billed. */
  lemma {:induction false} EachSecondAccountedFor(ops: seq<Op>, c: int, created: int, d: set<int>, t: int)
    requires OrderlyRun(ops, c, created, d)
    ensures var n := SecondTally(ops, c, created, d, t);
            n.taken + n.missed ==
            n.again + One(t in Between(d, created, Frontier(After(ops).world.db.invoices, c, created)))
  {
    if ops != [] {
      var front, op := ops[..|ops| - 1], ops[|ops| - 1];
      var s, clock := After(front), Clock(front, c, created);
      EachSecondAccountedFor(front, c, created, d, t);
      OrderlyRunKeeps(front, c, created, d);
      StepTakes(s, op, c, created, clock, d, t);
    }
  }

  /** When no two generates of the company overlap in a commit its periods tile the time from its
      creation to the anchor, and none reaches back. */
  lemma {:induction false} LoneGeneratesTile(ops: seq<Op>, c: int, created: int, d: set<int>)
    requires OrderlyRun(ops, c, created, d) && NoOverlap(ops, c)
    ensures Tiles(After(ops).world.db.invoices, c, created) && NoReachBack(ops, c, created, d)
  {
    if ops != [] {
      var front, op := ops[..|ops| - 1], ops[|ops| - 1];
      var s, clock := After(front), Clock(front, c, created);
      LoneGeneratesTile(front, c, created, d);
      OrderlyRunKeeps(front, c, created, d);
      StepMeasures(s, op, c, created, clock, d);
      if CommitsBill(s, op, c) {
        assert RequestOk(s.open[op.t], s.world.db.invoices, c, created, clock, d);
      }
    }
  }

  /** An advance in between moves neither the anchor nor what has been billed. */
  lemma AdvanceKeepsAnchor(w: World, env: Env, a: AdvanceReq, stop: Option<Stop>, c: int)
    ensures var w' := Transact(w, env, Prepay(a), stop);
            LastSent(w'.db.invoices, c) == LastSent(w.db.invoices, c)
            && BilledTicks(w'.db.invoices, c) == BilledTicks(w.db.invoices, c)
  {
    TransactInvoices(w, env, Prepay(a), stop);
    var row := RowFor(w.db, env, Prepay(a));
    if row.Some? {
      LastSentSnoc(w.db.invoices, row.value, c);
      SnocTiles(w.db.invoices, row.value, c, 0);
    }
  }

  // ---------- two runs in which the count is off ----------

  /** One second of work, at 5, for a company billed hourly since 0; its project is paused or not. */
  function OneSecond(sig: Signal, paused: bool): Env {
    Env(map[7 := Company(Hourly, Some("EUR"), 100, Some("s"), 0)], map["s" := Sender(1, {"EUR"})],
        map[1 := Project(Some(7), paused)], map[(5, sig) := Some(1)], 5, (0, 10))
  }

  const AT_TEN := GenerateReq(7, 10, 0, 0, false, false, 0, true)

  lemma OneSecondCounts(sig: Signal, paused: bool)
    ensures var env := OneSecond(sig, paused);
            && CompanySeconds(env, 7) == {5} && BillableSeconds(env, 7, 0, 10) == (if paused then {} else {5})
            && DraftFor([], env, AT_TEN) == Some(Draft(0, 10, if paused then 0 else 1))
            && Between(CompanySeconds(env, 7), 0, 10) == {5}
  {
    var env := OneSecond(sig, paused);
    assert (5, sig) in env.ticks;
    assert BillableSeconds(env, 7, 0, 10) == if paused then {} else {5};
  }

  /** Any document of the company is for nothing here, and is accepted. */
  lemma RowIsCommitted(db: Db, sig: Signal, paused: bool, ticks: nat)
    requires "s" in db.next && Balance(db.invoices, 7, Some("EUR")) == 0 && ticks <= 1
    ensures var env, job := OneSecond(sig, paused), Bill(AT_TEN, Draft(0, 10, ticks));
            var row := RowFor(db, env, job);
            && row.Some? && row.value.sentAt == 10 && Bills(row.value, 7) && row.value.ticks == ticks
            && row.value.company == 7 && CreditOf(row.value) == 0
  {
    var env := OneSecond(sig, paused);
    assert RoundHalfEven(ticks * 5 * 100, 3600) == 0;
    assert LineTotal(env, env.companies[7], Draft(0, 10, ticks)) == 0;
  }

  lemma ReadingOpens(s: System, t: int, env: Env, g: GenerateReq, d: Draft)
    requires s.world.db.invoices == [] && t !in s.open && DraftFor([], env, g) == Some(d) && !g.dryRun
    ensures Do(s, Starts(t, env, g)) == s.(open := s.open[t := Request(env, Bill(g, d), 0)])
  {
  }

  /** One or two requests have read an empty ledger, and the first has seeded the sender. */
  lemma OneHasRead(env: Env, g: GenerateReq, d: Draft)
    requires DraftFor([], env, g) == Some(d) && !g.dryRun
    ensures var s := After([Starts(1, env, g), Seeds(1)]);
            s.open == map[1 := Request(env, Bill(g, d), 0)] && s.world == SeedStep(After([]).world, env, g.company)
  {
    assert [Starts(1, env, g), Seeds(1)] == [] + [Starts(1, env, g)] + [Seeds(1)];
    AfterSnoc([], Starts(1, env, g));
    ReadingOpens(After([]), 1, env, g, d);
    AfterSnoc([] + [Starts(1, env, g)], Seeds(1));
  }

  lemma BothHaveRead(env: Env, g: GenerateReq, d: Draft)
    requires DraftFor([], env, g) == Some(d) && !g.dryRun
    ensures var s, q := After([Starts(1, env, g), Starts(2, env, g), Seeds(1)]), Request(env, Bill(g, d), 0);
            s.open == map[1 := q, 2 := q] && s.world == SeedStep(After([]).world, env, g.company)
  {
    var x, y, z := Starts(1, env, g), Starts(2, env, g), Seeds(1);
    assert [x, y, z] == [] + [x] + [y] + [z];
    AfterSnoc([], x);
    ReadingOpens(After([]), 1, env, g, d);
    AfterSnoc([] + [x], y);
    ReadingOpens(After([] + [x]), 2, env, g, d);
    AfterSnoc([] + [x] + [y], z);
  }

  lemma SenderSeeded(sig: Signal, paused: bool)
    ensures var w := SeedStep(After([]).world, OneSecond(sig, paused), 7); w.db.invoices == [] && "s" in w.db.next
  {
  }

  lemma CommitCounts(s: System, t: int, row: Invoice)
    requires t in s.open && RowFor(s.world.db, s.open[t].env, s.open[t].job) == Some(row)
    requires Bills(row, 7) && row.sentAt == 10 && CreditOf(row) == 0 && LastSent(s.world.db.invoices, 7) <= 10
    ensures var a, n := s.world.db.invoices, Do(s, Transacts(t, None));
            var b := n.world.db.invoices;
            && n.world.db.next.Keys >= s.world.db.next.Keys && n.open == s.open - {t}
            && LastSent(b, 7) == 10 && BilledTicks(b, 7) == BilledTicks(a, 7) + row.ticks
            && Balance(b, 7, Some("EUR")) == Balance(a, 7, Some("EUR"))
  {
    var a := s.world.db.invoices;
    TransactInvoices(s.world, s.open[t].env, s.open[t].job, None);
    LastSentSnoc(a, row, 7);
    SnocTiles(a, row, 7, 0);
    BalanceSnoc(a, row, 7, Some("EUR"));
  }

  /** The project was paused when its only invoice was generated: the anchor passes its second, which
      is never billed. */
  lemma PausedRunLosesSecond(sig: Signal)
    ensures var env := OneSecond(sig, true);
            var invoices := After([Starts(1, env, AT_TEN), Seeds(1)] + [Transacts(1, None)]).world.db.invoices;
            && Frontier(invoices, 7, 0) == 10 && BilledTicks(invoices, 7) == 0
            && Between(CompanySeconds(env, 7), 0, 10) == {5}
  {
    var read := [Starts(1, OneSecond(sig, true), AT_TEN), Seeds(1)];
    OneSecondCounts(sig, true);
    OneHasRead(OneSecond(sig, true), AT_TEN, Draft(0, 10, 0));
    SenderSeeded(sig, true);
    AfterSnoc(read, Transacts(1, None));
    var s := After(read);
    RowIsCommitted(s.world.db, sig, true, 0);
    CommitCounts(s, 1, RowFor(s.world.db, s.open[1].env, s.open[1].job).value);
  }

  lemma FirstRowCommits(s: System, sig: Signal)
    requires s.world.db.invoices == [] && "s" in s.world.db.next
    requires 1 in s.open && s.open[1] == Request(OneSecond(sig, false), Bill(AT_TEN, Draft(0, 10, 1)), 0)
    ensures var n := Do(s, Transacts(1, None));
            && n.open == s.open - {1} && "s" in n.world.db.next
            && LastSent(n.world.db.invoices, 7) == 10 && BilledTicks(n.world.db.invoices, 7) == 1
            && Balance(n.world.db.invoices, 7, Some("EUR")) == 0
  {
    RowIsCommitted(s.world.db, sig, false, 1);
    hide RowFor, Do, Bills, CreditOf, OneSecond;
    CommitCounts(s, 1, RowFor(s.world.db, s.open[1].env, s.open[1].job).value);
  }

  lemma OneHasCommitted(sig: Signal)
    ensures var env := OneSecond(sig, false);
            var n := After([Starts(1, env, AT_TEN), Starts(2, env, AT_TEN), Seeds(1)] + [Transacts(1, None)]);
            && n.open == map[2 := Request(env, Bill(AT_TEN, Draft(0, 10, 1)), 0)] && "s" in n.world.db.next
            && LastSent(n.world.db.invoices, 7) == 10 && BilledTicks(n.world.db.invoices, 7) == 1
            && Balance(n.world.db.invoices, 7, Some("EUR")) == 0
  {
    assert !AT_TEN.dryRun && AT_TEN.company == 7;
    hide *;
    var first := [Starts(1, OneSecond(sig, false), AT_TEN), Starts(2, OneSecond(sig, false), AT_TEN), Seeds(1)];
    OneSecondCounts(sig, false);
    BothHaveRead(OneSecond(sig, false), AT_TEN, Draft(0, 10, 1));
    SenderSeeded(sig, false);
    AfterSnoc(first, Transacts(1, None));
    FirstRowCommits(After(first), sig);
  }

  lemma NothingIsOrderly(c: int, created: int, d: set<int>)
    ensures OrderlyRun([], c, created, d) && Clock([], c, created) == created
  {
  }

  lemma OrderlySnoc(ops: seq<Op>, op: Op, c: int, created: int, d: set<int>)
    requires OrderlyRun(ops, c, created, d) && !op.Sends? && !op.Deletes?
    requires op.Starts? && op.g.company == c ==> Orderly(op.env, op.g, c, created, Clock(ops, c, created), d)
    ensures OrderlyRun(ops + [op], c, created, d)
    ensures Clock(ops + [op], c, created) ==
            if op.Starts? && op.g.company == c then op.g.now else Clock(ops, c, created)
  {
    assert (ops + [op])[..|ops|] == ops;
  }

  lemma OverlapIsOrderly(sig: Signal)
    ensures var env := OneSecond(sig, false);
            var ops := [Starts(1, env, AT_TEN), Starts(2, env, AT_TEN), Seeds(1)] + [Transacts(1, None)];
            OrderlyRun(ops + [Transacts(2, None)], 7, 0, {5})
  {
    var env := OneSecond(sig, false);
    var x, y, z := Starts(1, env, AT_TEN), Starts(2, env, AT_TEN), Seeds(1);
    OneSecondCounts(sig, false);
    assert Orderly(env, AT_TEN, 7, 0, 0, {5}) && Orderly(env, AT_TEN, 7, 0, 10, {5});
    hide Orderly, OrderlyRun;
    NothingIsOrderly(7, 0, {5});
    OrderlySnoc([], x, 7, 0, {5});
    OrderlySnoc([] + [x], y, 7, 0, {5});
    OrderlySnoc([] + [x] + [y], z, 7, 0, {5});
    OrderlySnoc([] + [x] + [y] + [z], Transacts(1, None), 7, 0, {5});
    OrderlySnoc([] + [x] + [y] + [z] + [Transacts(1, None)], Transacts(2, None), 7, 0, {5});
    assert [] + [x] + [y] + [z] == [x, y, z];
  }

  /** Two generates read before either commits: both bill the one second, the second reaching back. */
  lemma OverlapBillsTwice(sig: Signal)
    ensures var env := OneSecond(sig, false);
            var ops := [Starts(1, env, AT_TEN), Starts(2, env, AT_TEN), Seeds(1)] + [Transacts(1, None)];
            var run := ops + [Transacts(2, None)];
            var invoices := After(run).world.db.invoices;
            && Frontier(invoices, 7, 0) == 10 && BilledTicks(invoices, 7) == 2
            && Between(CompanySeconds(env, 7), 0, 10) == {5}
            && OrderlyRun(run, 7, 0, {5}) && Rebilled(run, 7, 0, {5}) > 0
  {
    var env := OneSecond(sig, false);
    var ops := [Starts(1, env, AT_TEN), Starts(2, env, AT_TEN), Seeds(1)] + [Transacts(1, None)];
    OneSecondCounts(sig, false);
    OneHasCommitted(sig);
    AfterSnoc(ops, Transacts(2, None));
    var n := After(ops);
    RowIsCommitted(n.world.db, sig, false, 1);
    CommitCounts(n, 2, RowFor(n.world.db, n.open[2].env, n.open[2].job).value);
    OverlapIsOrderly(sig);
    TicksAccountedFor(ops + [Transacts(2, None)], 7, 0, {5});
    assert Between({5}, 0, 10) == {5};
  }
}
