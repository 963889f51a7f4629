/** What holds of the ledger after any run of requests, however their steps interleave and fail. */
module LedgerRuns {
  import opened Options
  import opened Credit
  import opened InvoiceFormat
  import opened Ledger
  import opened LineItem

  // ---------- requests in flight ----------

  /** A request between its reads and its transaction. `marks` is history: how many billing rows
      the company had when the request read. */
  datatype Request = Request(env: Env, job: Job, marks: nat)

  /** The ledger, and the open requests of the connections. */
  datatype System = System(world: World, open: map<int, Request>)

  /** A connection starts a request by reading, seeds the sender, runs its transaction; the
      connections take their steps in any order. Cutoffs and deletes are single statements. */
  datatype Op =
    | Starts(t: int, env: Env, g: GenerateReq)
    | StartsAdvance(t: int, env: Env, a: AdvanceReq)
    | Seeds(t: int)
    | Transacts(t: int, stop: Option<Stop>)
    | Sends(company: int, sentAt: int)
    | Deletes(id: nat, force: bool)

  predicate Bills(i: Invoice, c: int) {
    i.company == c && !i.advance
  }

  function BilledRows(invoices: seq<Invoice>, c: int): nat {
    if invoices == [] then 0
    else BilledRows(invoices[..|invoices| - 1], c) + if Bills(invoices[|invoices| - 1], c) then 1 else 0
  }

  function Opened(s: System, t: int, q: Request): System {
    if t in s.open then s else s.(open := s.open[t := q])
  }

  /** A dry run and a request turned down leave nothing behind; a crash drops every open request. */
  function Do(s: System, op: Op): System {
    match op
    case Starts(t, env, g) =>
      var d := DraftFor(s.world.db.invoices, env, g);
      if d.None? || g.dryRun then s
      else Opened(s, t, Request(env, Bill(g, d.value), BilledRows(s.world.db.invoices, g.company)))
    case StartsAdvance(t, env, a) =>
      if !Advanceable(env, a) || a.dryRun then s
      else Opened(s, t, Request(env, Prepay(a), BilledRows(s.world.db.invoices, a.company)))
    case Seeds(t) =>
      if t !in s.open then s
      else s.(world := SeedStep(s.world, s.open[t].env, CompanyOf(s.open[t].job)))
    case Transacts(t, stop) =>
      if t !in s.open then s
      else System(Transact(s.world, s.open[t].env, s.open[t].job, stop),
                  if stop.Some? && stop.value.crash then map[] else s.open - {t})
    case Sends(c, sentAt) => s.(world := Send(s.world, c, sentAt))
    case Deletes(id, force) => s.(world := Delete(s.world, id, force))
  }

  function After(ops: seq<Op>): System {
    if ops == [] then System(World(Db([], map[], [], map[]), Disk({}, {})), map[])
    else Do(After(ops[..|ops| - 1]), ops[|ops| - 1])
  }

  /** Taken by one connection alone the three steps are the whole request. */
  lemma AloneIsWhole(s: System, t: int, env: Env, g: GenerateReq, a: AdvanceReq, stop: Option<Stop>)
    requires t !in s.open && Passes(stop, Seeding)
    ensures Do(Do(Do(s, Starts(t, env, g)), Seeds(t)), Transacts(t, stop)).world == Generate(s.world, env, g, stop)
    ensures Do(Do(Do(s, StartsAdvance(t, env, a)), Seeds(t)), Transacts(t, stop)).world
            == Advance(s.world, env, a, stop)
  {
  }

  // ---------- numbers and files ----------

  function Range(a: nat, b: nat): seq<nat> {
    if a >= b then [] else Range(a, b - 1) + [b - 1]
  }

  function NumbersOf(issued: seq<(string, nat)>, s: string): seq<nat> {
    if issued == [] then []
    else
      var last := issued[|issued| - 1];
      NumbersOf(issued[..|issued| - 1], s) + if last.0 == s then [last.1] else []
  }

  /** The sender's committed numbers, in commit order, are its seed up to the counter, no gaps. */
  predicate GaplessFor(db: Db, s: string)
    requires db.next.Keys == db.seeds.Keys
  {
    if s in db.next then db.seeds[s] <= db.next[s] && NumbersOf(db.issued, s) == Range(db.seeds[s], db.next[s])
    else NumbersOf(db.issued, s) == []
  }

  ghost predicate Gapless(db: Db) {
    db.next.Keys == db.seeds.Keys && forall s :: GaplessFor(db, s)
  }

  /** Within a sender later numbers are larger, so none is used twice. */
  ghost predicate Increasing(db: Db) {
    && (forall k :: 0 <= k < |db.issued| ==>
          db.issued[k].0 in db.next && db.issued[k].1 < db.next[db.issued[k].0])
    && (forall j, k :: 0 <= j < k < |db.issued| && db.issued[j].0 == db.issued[k].0 ==> db.issued[j].1 < db.issued[k].1)
  }

  /** A final file's number has committed; so has every numbered row's. */
  ghost predicate FilesBacked(w: World) {
    && (forall f :: f in w.disk.finals ==> f in w.db.issued)
    && (forall i :: i in w.db.invoices && i.number.Some? ==> (i.sender, i.number.value) in w.db.issued)
  }

  lemma SeededKeeps(w: World, s: string, n: nat)
    requires Gapless(w.db) && Increasing(w.db) && FilesBacked(w)
    ensures var w' := w.(db := Seeded(w.db, s, n)); Gapless(w'.db) && Increasing(w'.db) && FilesBacked(w')
  {
    forall t ensures GaplessFor(Seeded(w.db, s, n), t) { assert GaplessFor(w.db, t); }
  }

  lemma RowsDoNotNumber(db: Db, invoices: seq<Invoice>)
    requires Gapless(db)
    ensures Gapless(db.(invoices := invoices))
  {
    forall s ensures GaplessFor(db.(invoices := invoices), s) { assert GaplessFor(db, s); }
  }

  lemma RecordedGapless(db: Db, row: Invoice, s: string)
    requires Gapless(db) && row.sender in db.next && row.number == Some(db.next[row.sender])
    ensures var db' := Recorded(db, row); db'.next.Keys == db'.seeds.Keys && GaplessFor(db', s)
  {
    assert GaplessFor(db, s) && GaplessFor(db, row.sender);
  }

  lemma RecordedIncreasing(db: Db, row: Invoice)
    requires Increasing(db) && row.sender in db.next && row.number == Some(db.next[row.sender])
    ensures Increasing(Recorded(db, row))
  {
  }

  lemma RecordedKeeps(db: Db, row: Invoice)
    requires Gapless(db) && Increasing(db)
    requires row.sender in db.next && row.number == Some(db.next[row.sender])
    ensures Gapless(Recorded(db, row)) && Increasing(Recorded(db, row))
  {
    RecordedIncreasing(db, row);
    RecordedGapless(db, row, row.sender);
    forall s ensures GaplessFor(Recorded(db, row), s) { RecordedGapless(db, row, s); }
  }

  lemma IssueBacked(w: World, row: Invoice, stop: Option<Stop>)
    requires FilesBacked(w) && row.number.Some?
    ensures FilesBacked(Issue(w, row, stop))
  {
  }

  lemma IssueKeeps(w: World, row: Invoice, stop: Option<Stop>)
    requires Gapless(w.db) && Increasing(w.db)
    requires row.sender in w.db.next && row.number == Some(w.db.next[row.sender])
    ensures var w' := Issue(w, row, stop); Gapless(w'.db) && Increasing(w'.db)
  {
    if Passes(stop, Committing) { RecordedKeeps(w.db, row); }
  }

  lemma {:induction false} WithoutMembers(invoices: seq<Invoice>, id: nat)
    ensures forall i :: i in Without(invoices, id) <==> i in invoices && i.id != id
  {
    if invoices != [] {
      WithoutMembers(invoices[..|invoices| - 1], id);
      assert invoices == invoices[..|invoices| - 1] + [invoices[|invoices| - 1]];
    }
  }

  lemma SeedStepKeeps(w: World, env: Env, c: int)
    requires Gapless(w.db) && Increasing(w.db) && FilesBacked(w)
    ensures var w' := SeedStep(w, env, c); Gapless(w'.db) && Increasing(w'.db) && FilesBacked(w')
  {
    var found := BillingCompany(env, c);
    if found.Some? {
      var s := found.value.billedFrom.value;
      SeededKeeps(w, s, env.senders[s].nextNumber);
    }
  }

  lemma TransactKeeps(w: World, env: Env, job: Job, stop: Option<Stop>)
    requires Gapless(w.db) && Increasing(w.db) && FilesBacked(w)
    ensures var w' := Transact(w, env, job, stop); Gapless(w'.db) && Increasing(w'.db) && FilesBacked(w')
  {
    var row := RowFor(w.db, env, job);
    if row.Some? {
      IssueKeeps(w, row.value, stop);
      IssueBacked(w, row.value, stop);
    }
  }

  /** After every run, however its requests interleave, fail or crash: numbers are gapless and in
      commit order, none is used twice, and a PDF at a final path has its number committed. */
  lemma {:induction false} NumbersAndFiles(ops: seq<Op>)
    ensures var w := After(ops).world; Gapless(w.db) && Increasing(w.db) && FilesBacked(w)
  {
    if ops != [] {
      var s, op := After(ops[..|ops| - 1]), ops[|ops| - 1];
      var w := s.world;
      NumbersAndFiles(ops[..|ops| - 1]);
      match op
      case Starts(_, _, _) =>
      case StartsAdvance(_, _, _) =>
      case Seeds(t) => if t in s.open { SeedStepKeeps(w, s.open[t].env, CompanyOf(s.open[t].job)); }
      case Transacts(t, stop) => if t in s.open { TransactKeeps(w, s.open[t].env, s.open[t].job, stop); }
      case Sends(c, sentAt) => RowsDoNotNumber(w.db, w.db.invoices + [CutoffRow(w.db.invoices, c, sentAt)]);
      case Deletes(id, force) =>
        WithoutMembers(w.db.invoices, id);
        RowsDoNotNumber(w.db, Without(w.db.invoices, id));
    }
  }

  /** Under one prefix a sender's committed numbers print as distinct strings, padded alike or not. */
  lemma PrintedNumbersDistinct(ops: seq<Op>, prefix: string, padJ: int, padK: int, j: nat, k: nat)
    requires var issued := After(ops).world.db.issued; j < k < |issued| && issued[j].0 == issued[k].0
    ensures var issued := After(ops).world.db.issued;
            FormatInvoiceNumber(prefix, padJ, issued[j].1) != FormatInvoiceNumber(prefix, padK, issued[k].1)
  {
    NumbersAndFiles(ops);
    var issued := After(ops).world.db.issued;
    NumberReadsBack(prefix, padJ, issued[j].1);
    NumberReadsBack(prefix, padK, issued[k].1);
  }

  /** A dry run, and a request that stops before its commit, consume no number and no credit;
      neither do the steps before the transaction. */
  lemma NoCommitNoTrace(s: System, op: Op)
    requires !op.Sends? && !op.Deletes? && (op.Transacts? ==> !Passes(op.stop, Committing))
    ensures var w, w' := s.world, Do(s, op).world;
            w'.db.invoices == w.db.invoices && w'.db.issued == w.db.issued && w'.disk.finals == w.disk.finals
            && forall x :: x in w.db.next ==> x in w'.db.next && w'.db.next[x] == w.db.next[x]
    ensures (op.Starts? && op.g.dryRun) || (op.StartsAdvance? && op.a.dryRun) ==> Do(s, op) == s
  {
  }

  // ---------- credit ----------

  predicate RowOk(i: Invoice) {
    && i.applied >= 0
    && (i.advance ==> i.number.Some? && i.total > 0 && i.applied == 0 && i.discount == 0 && i.total == i.lineTotal)
    && (!i.advance && i.number.Some? ==>
          i.total >= 0 && i.discount >= 0 && i.total + i.applied + i.discount == i.lineTotal)
  }

  ghost predicate RowsOk(invoices: seq<Invoice>) {
    forall i :: i in invoices ==> RowOk(i)
  }

  /** No balance is negative now, nor was after any earlier row. */
  ghost predicate Solvent(invoices: seq<Invoice>) {
    invoices == [] || (Solvent(invoices[..|invoices| - 1]) && forall c, cur :: Balance(invoices, c, cur) >= 0)
  }

  lemma BalanceSnoc(invoices: seq<Invoice>, i: Invoice, c: int, cur: Option<string>)
    ensures Balance(invoices + [i], c, cur) == Balance(invoices, c, cur)
              + if cur.Some? && i.company == c && i.currency == cur then CreditOf(i) else 0
  {
  }

  lemma SolventNow(invoices: seq<Invoice>, c: int, cur: Option<string>)
    requires Solvent(invoices)
    ensures Balance(invoices, c, cur) >= 0
  {
  }

  lemma SolventSnoc(invoices: seq<Invoice>, i: Invoice)
    requires Solvent(invoices) && RowsOk(invoices) && RowOk(i)
    requires i.advance || i.applied == 0 || (i.currency.Some? && i.applied <= Balance(invoices, i.company, i.currency))
    ensures Solvent(invoices + [i]) && RowsOk(invoices + [i])
  {
  }

  lemma {:induction false} WithoutKeepsBalance(invoices: seq<Invoice>, id: nat, c: int, cur: Option<string>)
    requires RowsOk(invoices) && forall i :: i in invoices && i.id == id ==> !CarriesCredit(i)
    ensures Balance(Without(invoices, id), c, cur) == Balance(invoices, c, cur)
  {
    if invoices != [] {
      var front, i := invoices[..|invoices| - 1], invoices[|invoices| - 1];
      assert i in invoices && forall x :: x in front ==> x in invoices;
      WithoutKeepsBalance(front, id, c, cur);
      BalanceSnoc(Without(front, id), i, c, cur);
    }
  }

  lemma {:induction false} WithoutKeepsSolvent(invoices: seq<Invoice>, id: nat)
    requires Solvent(invoices) && RowsOk(invoices) && forall i :: i in invoices && i.id == id ==> !CarriesCredit(i)
    ensures Solvent(Without(invoices, id))
  {
    if invoices != [] {
      var front, i := invoices[..|invoices| - 1], invoices[|invoices| - 1];
      assert i in invoices && forall x :: x in front ==> x in invoices;
      WithoutKeepsSolvent(front, id);
      if i.id != id {
        var rest := Without(front, id);
        assert (rest + [i])[..|rest|] == rest;
        forall c, cur ensures Balance(rest + [i], c, cur) >= 0 {
          WithoutKeepsBalance(invoices, id, c, cur);
        }
      }
    }
  }

  /** The row a transaction inserts draws no more than there is, and adds up. */
  lemma RowForOk(db: Db, env: Env, job: Job)
    requires Solvent(db.invoices) && (job.Prepay? ==> job.a.amount > 0) && RowFor(db, env, job).Some?
    ensures var row := RowFor(db, env, job).value;
            && RowOk(row)
            && (row.advance || row.applied == 0
                || (row.currency.Some? && row.applied <= Balance(db.invoices, row.company, row.currency)))
  {
    SolventNow(db.invoices, CompanyOf(job), BillingCompany(env, CompanyOf(job)).value.currency);
  }

  ghost predicate Sound(s: System) {
    Solvent(s.world.db.invoices) && RowsOk(s.world.db.invoices)
    && forall t :: t in s.open && s.open[t].job.Prepay? ==> s.open[t].job.a.amount > 0
  }

  lemma TransactKeepsSolvent(w: World, env: Env, job: Job, stop: Option<Stop>)
    requires Solvent(w.db.invoices) && RowsOk(w.db.invoices) && (job.Prepay? ==> job.a.amount > 0)
    ensures var w' := Transact(w, env, job, stop); Solvent(w'.db.invoices) && RowsOk(w'.db.invoices)
  {
    var row := RowFor(w.db, env, job);
    if row.Some? {
      RowForOk(w.db, env, job);
      SolventSnoc(w.db.invoices, row.value);
    }
  }

  lemma StepKeepsSound(s: System, op: Op)
    requires Sound(s) && (op.Deletes? ==> !op.force)
    ensures Sound(Do(s, op))
  {
    var w := s.world;
    match op
    case Starts(_, _, _) =>
    case StartsAdvance(_, _, _) =>
    case Seeds(t) =>
    case Transacts(t, stop) => if t in s.open { TransactKeepsSolvent(w, s.open[t].env, s.open[t].job, stop); }
    case Sends(c, sentAt) => SolventSnoc(w.db.invoices, CutoffRow(w.db.invoices, c, sentAt));
    case Deletes(id, force) =>
      WithoutMembers(w.db.invoices, id);
      if Do(s, op) != s { WithoutKeepsSolvent(w.db.invoices, id); }
  }

  /** After every run without forced deletes, requests interleaved at will: every balance is and
      always was non-negative, and every issued invoice's due, credit and discount are non-negative
      and add up to its line total. */
  lemma {:induction false} BalancesStaySolvent(ops: seq<Op>)
    requires forall op :: op in ops && op.Deletes? ==> !op.force
    ensures Sound(After(ops))
  {
    if ops != [] {
      var front, op := ops[..|ops| - 1], ops[|ops| - 1];
      assert op in ops && forall x :: x in front ==> x in ops;
      BalancesStaySolvent(front);
      StepKeepsSound(After(front), op);
    }
  }

  /** An unforced delete moves no balance. */
  lemma UnforcedDeleteKeepsBalance(w: World, id: nat, c: int, cur: Option<string>)
    requires RowsOk(w.db.invoices)
    ensures Balance(Delete(w, id, false).db.invoices, c, cur) == Balance(w.db.invoices, c, cur)
  {
    if Delete(w, id, false) != w { WithoutKeepsBalance(w.db.invoices, id, c, cur); }
  }

  // ---------- forced deletes ----------

  /** What the rows of one id add to a balance. */
  function CreditIn(invoices: seq<Invoice>, id: nat, c: int, cur: Option<string>): int {
    if invoices == [] || cur.None? then 0
    else
      var i := invoices[|invoices| - 1];
      CreditIn(invoices[..|invoices| - 1], id, c, cur)
      + if i.id == id && i.company == c && i.currency == cur then CreditOf(i) else 0
  }

  lemma {:induction false} WithoutBalance(invoices: seq<Invoice>, id: nat, c: int, cur: Option<string>)
    ensures Balance(Without(invoices, id), c, cur) == Balance(invoices, c, cur) - CreditIn(invoices, id, c, cur)
  {
    if invoices != [] {
      var front, i := invoices[..|invoices| - 1], invoices[|invoices| - 1];
      WithoutBalance(front, id, c, cur);
      BalanceSnoc(Without(front, id), i, c, cur);
    }
  }

  /** A forced delete takes the rows' credit off the balance, so it leaves a non-negative one iff they
      brought no more than there is; otherwise no invoice draws credit until it is made good. */
  lemma ForcedDeleteOverdraws(w: World, id: nat, c: int, cur: Option<string>)
    ensures var after := Balance(Delete(w, id, true).db.invoices, c, cur);
            && (after >= 0 <==> CreditIn(w.db.invoices, id, c, cur) <= Balance(w.db.invoices, c, cur))
            && (after < 0 ==> forall total, goodwill :: ApplyCredit(after, total, goodwill) == 0)
  {
    WithoutBalance(w.db.invoices, id, c, cur);
  }

  lemma AfterSnoc(ops: seq<Op>, op: Op)
    ensures After(ops + [op]) == Do(After(ops), op)
  {
    assert (ops + [op])[..|ops|] == ops;
  }

  /** One connection's three steps, at the end of a run. */
  lemma AfterWhole(ops: seq<Op>, t: int, env: Env, g: GenerateReq)
    requires t !in After(ops).open
    ensures After(ops + [Starts(t, env, g), Seeds(t), Transacts(t, None)]).world
            == Generate(After(ops).world, env, g, None)
  {
    AloneIsWhole(After(ops), t, env, g, AdvanceReq(0, 0, 0, true), None);
    var a, b := ops + [Starts(t, env, g)], ops + [Starts(t, env, g)] + [Seeds(t)];
    AfterSnoc(ops, Starts(t, env, g));
    AfterSnoc(a, Seeds(t));
    AfterSnoc(b, Transacts(t, None));
    assert ops + [Starts(t, env, g), Seeds(t), Transacts(t, None)] == b + [Transacts(t, None)];
  }

  // ---------- a forced delete that overdraws ----------

  const FLAT_COMPANY := Company(MonthlyFixed, Some("EUR"), 60, Some("s"), 0)
  const FLAT_ENV := Env(map[7 := FLAT_COMPANY], map["s" := Sender(1, {"EUR"})], map[], map[], 5, (0, 10))
  const PREPAID := AdvanceReq(7, 1, 100, false)
  const MONTH := GenerateReq(7, 2, 0, 0, false, false, 0, false)

  /** 100 is advanced, 60 of it spent. */
  const SPENT_RUN := [StartsAdvance(1, FLAT_ENV, PREPAID), Seeds(1), Transacts(1, None)]
                     + [Starts(1, FLAT_ENV, MONTH), Seeds(1), Transacts(1, None)]

  lemma AdvancedRun()
    ensures var s := After(SPENT_RUN[..3]);
            s.open == map[] && s.world.db.next == map["s" := 2]
            && s.world.db.invoices == [Invoice(1, 7, 1, true, "s", Some(1), Some("EUR"), 100, 0, 0, 100, 0, 0, 0)]
  {
    var x, y, z := StartsAdvance(1, FLAT_ENV, PREPAID), Seeds(1), Transacts(1, None);
    assert SPENT_RUN[..3] == [] + [x] + [y] + [z];
    AfterSnoc([], x);
    AfterSnoc([] + [x], y);
    AfterSnoc([] + [x] + [y], z);
    var s := After([] + [x]);
    assert s.open == map[1 := Request(FLAT_ENV, Prepay(PREPAID), 0)];
    assert After([] + [x] + [y]).world.db.next == map["s" := 1];
  }

  lemma SpentRun()
    ensures var rows := After(SPENT_RUN).world.db.invoices;
            |rows| == 2 && rows[0].id == 1 && rows[1].id == 2 && CreditOf(rows[0]) == 100 && CreditOf(rows[1]) == -60
            && rows[0].company == rows[1].company == 7 && rows[0].currency == rows[1].currency == Some("EUR")
  {
    AdvancedRun();
    var first := SPENT_RUN[..3];
    assert SPENT_RUN == first + [Starts(1, FLAT_ENV, MONTH), Seeds(1), Transacts(1, None)];
    AfterWhole(first, 1, FLAT_ENV, MONTH);
    var w := After(first).world;
    var i := w.db.invoices[0];
    BalanceSnoc([], i, 7, Some("EUR"));
    assert [] + [i] == w.db.invoices;
    var d := DraftFor(w.db.invoices, FLAT_ENV, MONTH).value;
    assert LineTotal(FLAT_ENV, FLAT_COMPANY, d) == 60;
    assert CreditFor(w.db, FLAT_ENV, MONTH, d, FLAT_COMPANY) == 60;
  }

  lemma TwoRows(a: Invoice, b: Invoice)
    requires a.id == 1 && b.id == 2 && a.company == b.company == 7 && a.currency == b.currency == Some("EUR")
    ensures Balance([a, b], 7, Some("EUR")) == CreditOf(a) + CreditOf(b)
    ensures Balance(Without([a, b], 1), 7, Some("EUR")) == CreditOf(b)
  {
    BalanceSnoc([], a, 7, Some("EUR"));
    BalanceSnoc([a], b, 7, Some("EUR"));
    assert [] + [a] == [a] && [a] + [b] == [a, b];
    WithoutBalance([a, b], 1, 7, Some("EUR"));
    assert [a, b][..1] == [a] && [a][..0] == [];
    assert CreditIn([a], 1, 7, Some("EUR")) == CreditOf(a);
  }

  /** Deleting the spent advance by force leaves a balance of -60. */
  lemma ForcedDeleteOfSpentAdvance()
    ensures Balance(After(SPENT_RUN).world.db.invoices, 7, Some("EUR")) == 40
    ensures Balance(After(SPENT_RUN + [Deletes(1, true)]).world.db.invoices, 7, Some("EUR")) == -60
  {
    hide After, Balance, Without, SPENT_RUN;
    SpentRun();
    var rows := After(SPENT_RUN).world.db.invoices;
    AfterSnoc(SPENT_RUN, Deletes(1, true));
    assert rows == [rows[0], rows[1]];
    TwoRows(rows[0], rows[1]);
  }
}
