/** What every row of every reachable ledger says, and which request it came from. */
module LedgerRows {
  import opened Options
  import opened Credit
  import opened LineItem
  import opened Ledger
  import opened LedgerRuns

  // ---------- one row ----------

  /** The total is the price of the seconds at the rate, to within half a hundredth of an hour and half
      a cent. */
  predicate ClosePrice(totalCents: int, seconds: nat, rateCents: int) {
    -(18 * rateCents + 1800) <= 3600 * totalCents - seconds * rateCents <= 18 * rateCents + 1800
  }

  /** The period the request asks for; a default hourly one starts at the company's anchor. */
  predicate PeriodAsked(env: Env, co: Company, g: GenerateReq, lo: int, hi: int) {
    && (g.fromUnix > 0 ==> lo == g.fromUnix) && (g.toUnix > 0 ==> hi == g.toUnix)
    && (co.mode.Hourly? && g.toUnix <= 0 ==> hi == g.now)
    && (co.mode.MonthlyFixed? && g.fromUnix <= 0 ==> lo == env.month.0)
    && (co.mode.MonthlyFixed? && g.toUnix <= 0 ==> hi == env.month.1)
  }

  /** Hourly, the work the request found in the period, at the rate and tick length it found; monthly,
      the rate, for no ticks. */
  predicate Charges(env: Env, co: Company, g: GenerateReq, i: Invoice) {
    match co.mode
    case NotBillable => false
    case MonthlyFixed => i.lineTotal == co.rateCents && i.ticks == 0
    case Hourly =>
      && i.ticks == |BillableSeconds(env, g.company, i.lo, i.hi)| && (i.ticks == 0 ==> g.allowEmpty)
      && (co.rateCents >= 0 ==> ClosePrice(i.lineTotal, i.ticks * env.tickSec, co.rateCents))
  }

  /** The row is an answer to the request: addressed, dated, numbered, priced and added up as asked. */
  predicate BillFrom(env: Env, g: GenerateReq, i: Invoice) {
    && g.company in env.companies && !g.dryRun
    && var co := env.companies[g.company];
       && i.company == g.company && !i.advance && i.number.Some? && i.sentAt == g.now
       && co.billedFrom == Some(i.sender) && i.currency == Some(GetOr(co.currency, ""))
       && PeriodAsked(env, co, g, i.lo, i.hi) && Charges(env, co, g, i)
       && i.discount == g.discount >= 0 && (g.noCredit ==> i.applied == 0)
       && 0 <= i.total == i.lineTotal - i.discount - i.applied
  }

  predicate AdvanceFrom(env: Env, a: AdvanceReq, i: Invoice) {
    && a.company in env.companies && !a.dryRun && a.amount > 0
    && var co := env.companies[a.company];
       && i.company == a.company && i.advance && i.number.Some? && i.sentAt == a.now
       && co.billedFrom == Some(i.sender) && i.currency == Some(GetOr(co.currency, ""))
       && i.total == i.lineTotal == a.amount && i.applied == i.discount == 0
  }

  predicate CutoffFrom(c: int, sentAt: int, i: Invoice) {
    i.company == c && i.sentAt == sentAt && !i.advance && i.number == None && i.total == i.applied == 0
  }

  /** What a generate reads goes with what it asks. */
  predicate DraftFrom(env: Env, g: GenerateReq, d: Draft) {
    && g.company in env.companies
    && var co := env.companies[g.company];
       && PeriodAsked(env, co, g, d.lo, d.hi)
       && (if co.mode.Hourly? then
             d.ticks == |BillableSeconds(env, g.company, d.lo, d.hi)| && (d.ticks == 0 ==> g.allowEmpty)
           else d.ticks == 0)
  }

  lemma DraftIsAsked(invoices: seq<Invoice>, env: Env, g: GenerateReq)
    requires DraftFor(invoices, env, g).Some?
    ensures DraftFrom(env, g, DraftFor(invoices, env, g).value)
  {
  }

  lemma RowCharges(db: Db, env: Env, g: GenerateReq, d: Draft)
    requires DraftFrom(env, g, d) && RowFor(db, env, Bill(g, d)).Some?
    ensures Charges(env, env.companies[g.company], g, RowFor(db, env, Bill(g, d)).value)
  {
    var co := env.companies[g.company];
    if co.mode.Hourly? && co.rateCents >= 0 { TotalIsClose(d.ticks, env.tickSec, co.rateCents); }
  }

  lemma RowIsAsked(db: Db, env: Env, g: GenerateReq, d: Draft)
    requires DraftFrom(env, g, d) && !g.dryRun && RowFor(db, env, Bill(g, d)).Some?
    ensures BillFrom(env, g, RowFor(db, env, Bill(g, d)).value)
  {
    RowCharges(db, env, g, d);
    hide Charges, LineTotal, ApplyCredit, PeriodAsked;
  }

  /** Unless told not to, a row draws the credit of its company and currency until that or the charge is
      used up, and nothing from a balance that is not positive. */
  lemma RowDrawsAllThatFits(db: Db, env: Env, g: GenerateReq, d: Draft)
    requires RowFor(db, env, Bill(g, d)).Some? && !g.noCredit
    ensures var row := RowFor(db, env, Bill(g, d)).value;
            var balance := Balance(db.invoices, g.company, env.companies[g.company].currency);
            && 0 <= row.applied && (row.applied > 0 ==> row.applied <= balance)
            && (row.total > 0 && balance > 0 ==> row.applied == balance)
  {
    hide LineTotal, Balance;
  }

  // ---------- every row, over every run ----------

  predicate RowFrom(op: Op, i: Invoice) {
    match op
    case Starts(_, env, g) => BillFrom(env, g, i)
    case StartsAdvance(_, env, a) => AdvanceFrom(env, a, i)
    case Sends(c, sentAt) => CutoffFrom(c, sentAt, i)
    case _ => false
  }

  predicate RequestFrom(op: Op, q: Request) {
    match op
    case Starts(_, env, g) =>
      q.env == env && !g.dryRun && q.job.Bill? && q.job.g == g && DraftFrom(env, g, q.job.draft)
    case StartsAdvance(_, env, a) => q.env == env && !a.dryRun && a.amount > 0 && q.job == Prepay(a)
    case _ => false
  }

  /** The sender's first number is the configured one. */
  predicate SeedFrom(op: Op, sender: string, n: nat) {
    match op
    case Starts(_, env, _) => sender in env.senders && env.senders[sender].nextNumber == n
    case StartsAdvance(_, env, _) => sender in env.senders && env.senders[sender].nextNumber == n
    case _ => false
  }

  ghost predicate Traced(ops: seq<Op>, s: System) {
    && (forall i :: i in s.world.db.invoices ==> exists op :: op in ops && RowFrom(op, i))
    && (forall t :: t in s.open ==> exists op :: op in ops && RequestFrom(op, s.open[t]))
    && (forall x :: x in s.world.db.seeds ==> exists op :: op in ops && SeedFrom(op, x, s.world.db.seeds[x]))
  }

  lemma TracedLater(ops: seq<Op>, op: Op, s: System)
    requires Traced(ops, s)
    ensures Traced(ops + [op], s)
  {
    hide RowFrom, RequestFrom, SeedFrom;
    assert forall x :: x in ops ==> x in ops + [op];
  }

  /** A row added by a step of the run. */
  lemma RowTraced(ops: seq<Op>, s: System, op: Op, i: Invoice, s': System)
    requires Traced(ops, s) && op in ops && RowFrom(op, i)
    requires s'.world.db.invoices == s.world.db.invoices + [i] && s'.world.db.seeds == s.world.db.seeds
    requires forall t :: t in s'.open ==> t in s.open && s'.open[t] == s.open[t]
    ensures Traced(ops, s')
  {
    hide RowFrom, RequestFrom, SeedFrom;
  }

  lemma StartTraced(ops: seq<Op>, s: System, op: Op)
    requires Traced(ops, s) && op in ops && (op.Starts? || op.StartsAdvance?)
    ensures Traced(ops, Do(s, op))
  {
    if op.Starts? && DraftFor(s.world.db.invoices, op.env, op.g).Some? {
      DraftIsAsked(s.world.db.invoices, op.env, op.g);
    }
    var s' := Do(s, op);
    assert op.t in s'.open && op.t !in s.open ==> RequestFrom(op, s'.open[op.t]);
    hide RowFrom, RequestFrom, SeedFrom, DraftFor, Advanceable;
    forall t | t in s'.open ensures exists x :: x in ops && RequestFrom(x, s'.open[t]) {
      if t in s.open { assert s'.open[t] == s.open[t]; }
    }
  }

  lemma SeedTraced(ops: seq<Op>, s: System, t: int)
    requires Traced(ops, s)
    ensures Traced(ops, Do(s, Seeds(t)))
  {
    if t in s.open {
      var q := s.open[t];
      var op :| op in ops && RequestFrom(op, q);
      var seeds, seeds' := s.world.db.seeds, Do(s, Seeds(t)).world.db.seeds;
      forall x | x in seeds' ensures exists o :: o in ops && SeedFrom(o, x, seeds'[x]) {
        if x !in seeds || seeds'[x] != seeds[x] { assert SeedFrom(op, x, seeds'[x]); }
      }
    }
  }

  lemma TransactTraced(ops: seq<Op>, s: System, t: int, stop: Option<Stop>)
    requires Traced(ops, s) && t in s.open
    ensures Traced(ops, Do(s, Transacts(t, stop)))
  {
    var q := s.open[t];
    var op :| op in ops && RequestFrom(op, q);
    var s', row := Do(s, Transacts(t, stop)), RowFor(s.world.db, q.env, q.job);
    if Passes(stop, Committing) && row.Some? {
      if q.job.Bill? { RowIsAsked(s.world.db, q.env, q.job.g, q.job.draft); }
      assert RowFrom(op, row.value);
      hide RowFor, RowFrom, RequestFrom, SeedFrom;
      RowTraced(ops, s, op, row.value, s');
    } else {
      hide RowFor, RowFrom, RequestFrom, SeedFrom;
      assert s'.world.db == s.world.db;
    }
  }

  lemma PlainTraced(ops: seq<Op>, s: System, op: Op)
    requires Traced(ops, s) && op in ops && (op.Sends? || op.Deletes?)
    ensures Traced(ops, Do(s, op))
  {
    if op.Sends? {
      RowTraced(ops, s, op, CutoffRow(s.world.db.invoices, op.company, op.sentAt), Do(s, op));
    } else {
      WithoutMembers(s.world.db.invoices, op.id);
    }
  }

  lemma {:induction false} RunIsTraced(ops: seq<Op>)
    ensures Traced(ops, After(ops))
  {
    if ops != [] {
      var front, op := ops[..|ops| - 1], ops[|ops| - 1];
      RunIsTraced(front);
      assert ops == front + [op];
      TracedLater(front, op, After(front));
      match op
      case Starts(_, _, _) => StartTraced(ops, After(front), op);
      case StartsAdvance(_, _, _) => StartTraced(ops, After(front), op);
      case Seeds(t) => SeedTraced(ops, After(front), t);
      case Transacts(t, stop) => if t in After(front).open { TransactTraced(ops, After(front), t, stop); }
      case Sends(_, _) => PlainTraced(ops, After(front), op);
      case Deletes(_, _) => PlainTraced(ops, After(front), op);
    }
  }

  /** In every ledger any run can reach, however requests interleave, fail or crash, each numbered
      billing row answers a generate of the run: it is addressed and dated as asked, and charges the work
      that request found in its period, at the rate and tick length that request found. */
  lemma EveryInvoiceChargesItsWork(ops: seq<Op>, i: Invoice) returns (op: Op)
    requires i in After(ops).world.db.invoices && !i.advance && i.number.Some?
    ensures op in ops && op.Starts? && BillFrom(op.env, op.g, i)
  {
    RunIsTraced(ops);
    op :| op in ops && RowFrom(op, i);
  }

  /** Each advance row is for the amount a request asked; each unnumbered row is a cutoff sent. */
  lemma OtherRowsAreAsked(ops: seq<Op>, i: Invoice) returns (op: Op)
    requires i in After(ops).world.db.invoices && (i.advance || i.number == None)
    ensures op in ops
    ensures if i.advance then op.StartsAdvance? && AdvanceFrom(op.env, op.a, i)
            else op.Sends? && CutoffFrom(op.company, op.sentAt, i)
  {
    RunIsTraced(ops);
    op :| op in ops && RowFrom(op, i);
  }

  /** And a sender's first number is the one its configuration gave when it was first billed from. */
  lemma SeedsAreConfigured(ops: seq<Op>, sender: string) returns (op: Op)
    requires sender in After(ops).world.db.seeds
    ensures op in ops && SeedFrom(op, sender, After(ops).world.db.seeds[sender])
  {
    RunIsTraced(ops);
    op :| op in ops && SeedFrom(op, sender, After(ops).world.db.seeds[sender]);
  }

  // ---------- when a request is answered ----------

  function NextNumber(w: World, env: Env, sender: string): nat
    requires sender in env.senders
  {
    if sender in w.db.next then w.db.next[sender] else env.senders[sender].nextNumber
  }

  /** The company can be billed: it has a mode, a configured sender, and a bank account in its currency. */
  predicate Billable(env: Env, c: int) {
    && c in env.companies
    && var co := env.companies[c];
       && !co.mode.NotBillable? && co.billedFrom.Some? && co.billedFrom.value != ""
       && co.billedFrom.value in env.senders
       && GetOr(co.currency, "") in env.senders[co.billedFrom.value].currencies
  }

  /** One row was added under the sender's next number, and its PDF is in place. */
  predicate Issued(w: World, w': World, sender: string, n: nat) {
    && |w'.db.invoices| == |w.db.invoices| + 1 && w'.db.invoices[..|w.db.invoices|] == w.db.invoices
    && w'.db.invoices[|w.db.invoices|].sender == sender && w'.db.invoices[|w.db.invoices|].number == Some(n)
    && sender in w'.db.next && w'.db.next[sender] == n + 1
    && w'.disk.finals == w.disk.finals + {(sender, n)} && w'.disk.temps == w.disk.temps - {(sender, n)}
  }

  lemma RowIffBillable(db: Db, env: Env, g: GenerateReq, d: Draft)
    requires BillingCompany(env, g.company).Some? && env.companies[g.company].billedFrom.value in db.next
    ensures RowFor(db, env, Bill(g, d)).Some? <==>
            Billable(env, g.company) && 0 <= g.discount <= LineTotal(env, env.companies[g.company], d)
  {
    var co := env.companies[g.company];
    if !g.noCredit {
      AutomaticCreditFits(HasBank(env, co), Balance(db.invoices, g.company, co.currency), LineTotal(env, co, d),
                          g.discount);
    }
    hide LineTotal, Balance, ApplyCredit;
  }

  /** A generate with nobody else at work, nothing failing, issues an invoice iff the company can be
      billed, there is work to bill or leave not to, and the discount fits the charge; otherwise no row is
      added and no file. */
  lemma LoneGenerateIssuesIff(w: World, env: Env, g: GenerateReq)
    requires !g.dryRun
    ensures var w', d := Generate(w, env, g, None), DraftFor(w.db.invoices, env, g);
            if d.Some? && Billable(env, g.company)
               && 0 <= g.discount <= LineTotal(env, env.companies[g.company], d.value)
            then var sender := env.companies[g.company].billedFrom.value;
                 Issued(w, w', sender, NextNumber(w, env, sender))
            else w'.db.invoices == w.db.invoices && w'.disk == w.disk
    ensures DraftFor(w.db.invoices, env, g).Some? <==>
            BillingCompany(env, g.company).Some?
            && (var co := env.companies[g.company];
                var (lo, hi) := Period(env, co, g.now, LastSent(w.db.invoices, g.company), g.fromUnix, g.toUnix);
                co.mode.Hourly? && BillableSeconds(env, g.company, lo, hi) == {} ==> g.allowEmpty)
  {
    if DraftFor(w.db.invoices, env, g).Some? {
      RowIffBillable(SeedStep(w, env, g.company).db, env, g, DraftFor(w.db.invoices, env, g).value);
    }
    hide LineTotal, Balance, BillableSeconds, LastSent, DocFor;
  }

  /** An advance is issued iff it asks for money and the company can be billed and has a rate. */
  lemma LoneAdvanceIssuesIff(w: World, env: Env, a: AdvanceReq)
    requires !a.dryRun
    ensures var w' := Advance(w, env, a, None);
            if a.amount > 0 && Billable(env, a.company) && env.companies[a.company].rateCents > 0
            then var sender := env.companies[a.company].billedFrom.value;
                 Issued(w, w', sender, NextNumber(w, env, sender))
            else w'.db.invoices == w.db.invoices && w'.disk == w.disk
  {
  }

  // ---------- PDFs ----------

  /** Every committed number has its PDF: in place, or under its temporary name where the rename was
      not reached. */
  ghost predicate PdfsKept(w: World) {
    forall f :: f in w.db.issued ==> f in w.disk.finals || f in w.disk.temps
  }

  lemma IssueKeepsPdfs(w: World, row: Invoice, stop: Option<Stop>)
    requires PdfsKept(w) && Increasing(w.db)
    requires row.sender in w.db.next && row.number == Some(w.db.next[row.sender])
    ensures PdfsKept(Issue(w, row, stop))
    ensures (stop.Some? ==> stop.value.stage != Renaming) && (forall f :: f in w.db.issued ==> f in w.disk.finals)
            ==> forall f :: f in Issue(w, row, stop).db.issued ==> f in Issue(w, row, stop).disk.finals
  {
    assert (row.sender, row.number.value) !in w.db.issued;
  }

  predicate RenamesReached(ops: seq<Op>) {
    forall op :: op in ops && op.Transacts? && op.stop.Some? ==> op.stop.value.stage != Renaming
  }

  /** No run loses the PDF of a committed number; unless a crash comes between commit and rename it is
      at its final path. */
  lemma {:induction false} PdfsAreKept(ops: seq<Op>)
    ensures PdfsKept(After(ops).world)
    ensures RenamesReached(ops) ==> forall f :: f in After(ops).world.db.issued ==> f in After(ops).world.disk.finals
  {
    if ops != [] {
      var front, op := ops[..|ops| - 1], ops[|ops| - 1];
      var s := After(front);
      PdfsAreKept(front);
      NumbersAndFiles(front);
      assert op in ops && forall x :: x in front ==> x in ops;
      if op.Transacts? && op.t in s.open {
        var row := RowFor(s.world.db, s.open[op.t].env, s.open[op.t].job);
        if row.Some? { IssueKeepsPdfs(s.world, row.value, op.stop); }
      }
      hide RowFor, DraftFor, Gapless;
    }
  }

  // ---------- cutoffs and deletes ----------

  /** The anchor is the latest time at which the company was billed or cut off, 0 if never. */
  lemma {:induction false} LastSentIsLatest(invoices: seq<Invoice>, c: int)
    ensures !HasBilled(invoices, c) ==> LastSent(invoices, c) == 0
    ensures HasBilled(invoices, c) ==> exists i :: i in invoices && Bills(i, c) && i.sentAt == LastSent(invoices, c)
    ensures forall i :: i in invoices && Bills(i, c) ==> i.sentAt <= LastSent(invoices, c)
  {
    if invoices != [] {
      var front, last := invoices[..|invoices| - 1], invoices[|invoices| - 1];
      LastSentIsLatest(front, c);
      assert forall i :: i in invoices <==> i in front || i == last;
    }
  }

  /** A cutoff adds one row that bills nothing; from then on the company's default hourly period starts
      at it, unless a later row stands, and other companies' periods start where they did. */
  lemma CutoffStartsNextPeriod(w: World, env: Env, co: Company, c: int, sentAt: int, now: int)
    requires co.mode.Hourly? && sentAt > 0 && forall i :: i in w.db.invoices && Bills(i, c) ==> i.sentAt <= sentAt
    ensures var w' := Send(w, c, sentAt);
            && Period(env, co, now, LastSent(w'.db.invoices, c), 0, 0) == (sentAt, now)
            && (forall b :: b != c ==> LastSent(w'.db.invoices, b) == LastSent(w.db.invoices, b))
            && (forall b, cur :: Balance(w'.db.invoices, b, cur) == Balance(w.db.invoices, b, cur))
            && w'.db.next == w.db.next && w'.db.issued == w.db.issued && w'.disk == w.disk
  {
    var row := CutoffRow(w.db.invoices, c, sentAt);
    var rows := w.db.invoices + [row];
    assert rows[..|w.db.invoices|] == w.db.invoices;
    LastSentIsLatest(w.db.invoices, c);
    forall b, cur ensures Balance(rows, b, cur) == Balance(w.db.invoices, b, cur) {
      BalanceSnoc(w.db.invoices, row, b, cur);
    }
  }

  lemma {:induction false} WithoutCounts(invoices: seq<Invoice>, id: nat, i: Invoice)
    ensures multiset(Without(invoices, id))[i] == if i.id == id then 0 else multiset(invoices)[i]
  {
    if invoices != [] {
      WithoutCounts(invoices[..|invoices| - 1], id, i);
      assert invoices == invoices[..|invoices| - 1] + [invoices[|invoices| - 1]];
    }
  }

  /** A delete goes through iff it is forced or no row of the id carries credit; then exactly the rows of
      that id are gone, and numbers, PDFs and every other row are untouched. */
  lemma DeleteTakesTheRow(w: World, id: nat, force: bool)
    ensures var w' := Delete(w, id, force);
            && w'.disk == w.disk && w'.db == w.db.(invoices := w'.db.invoices)
            && if force || forall i :: i in w.db.invoices && i.id == id ==> !CarriesCredit(i)
               then forall i :: multiset(w'.db.invoices)[i] == if i.id == id then 0 else multiset(w.db.invoices)[i]
               else w' == w
  {
    forall i ensures multiset(Without(w.db.invoices, id))[i] == if i.id == id then 0 else multiset(w.db.invoices)[i] {
      WithoutCounts(w.db.invoices, id, i);
    }
  }
}
