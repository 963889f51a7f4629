/** Issuing invoices: numbers, advance credit, billing periods and PDF files, one transaction
    at a time, with failures and crashes at any step. */
module Ledger {
  import opened Options
  import opened Rules
  import opened LineItem
  import opened Credit

  datatype Company = Company(mode: BillingMode, currency: Option<string>, rateCents: int,
                             billedFrom: Option<string>, createdAt: int)

  datatype Project = Project(company: Option<int>, paused: bool)

  /** A configured sender: the first number to use, and the currencies it has a bank account for. */
  datatype Sender = Sender(nextNumber: nat, currencies: set<string>)

  /** What a request finds around the ledger; `senders` is empty when the config does not load, and
      `month` is the local calendar month its time falls in. */
  datatype Env = Env(companies: map<int, Company>, senders: map<string, Sender>,
                     projects: map<int, Project>, ticks: Ticks, tickSec: nat, month: (int, int))

  /** A row of the invoices table. `lineTotal`, `ticks`, `lo` and `hi` are history: what was
      billed, before discount and credit, and for which period. */
  datatype Invoice = Invoice(id: nat, company: int, sentAt: int, advance: bool, sender: string, number: Option<nat>,
                             currency: Option<string>, total: int, applied: int, discount: int,
                             lineTotal: int, ticks: nat, lo: int, hi: int)

  /** `issued` and `seeds` are history: numbers in commit order, and each sender's first number. */
  datatype Db = Db(invoices: seq<Invoice>, next: map<string, nat>, issued: seq<(string, nat)>, seeds: map<string, nat>)

  /** PDF files, named by sender and number: hidden temporary ones and final ones. */
  datatype Disk = Disk(temps: set<(string, nat)>, finals: set<(string, nat)>)

  datatype World = World(db: Db, disk: Disk)

  // ---------- queries ----------

  /** LastInvoiceSentForCompany; 0 when there is none. */
  function LastSent(invoices: seq<Invoice>, c: int): int {
    if invoices == [] then 0
    else
      var before, i := LastSent(invoices[..|invoices| - 1], c), invoices[|invoices| - 1];
      if i.company == c && !i.advance && (i.sentAt >= before || !HasBilled(invoices[..|invoices| - 1], c))
      then i.sentAt else before
  }

  predicate HasBilled(invoices: seq<Invoice>, c: int) {
    exists i :: i in invoices && i.company == c && !i.advance
  }

  /** Distinct seconds in [lo, hi) credited to projects of the company that are not paused now. */
  function BillableSeconds(env: Env, c: int, lo: int, hi: int): set<int> {
    set k | k in env.ticks && env.ticks[k].Some? && env.ticks[k].value in env.projects
            && env.projects[env.ticks[k].value].company == Some(c) && !env.projects[env.ticks[k].value].paused
            && lo <= k.0 < hi :: k.0
  }

  function CreditOf(i: Invoice): int {
    (if i.advance then i.total else 0) - i.applied
  }

  /** CompanyCreditBalance; a missing currency matches no row. */
  function Balance(invoices: seq<Invoice>, c: int, currency: Option<string>): int {
    if invoices == [] || currency.None? then 0
    else
      var i := invoices[|invoices| - 1];
      Balance(invoices[..|invoices| - 1], c, currency)
      + if i.company == c && i.currency == currency then CreditOf(i) else 0
  }

  function NextId(invoices: seq<Invoice>): nat {
    if invoices == [] then 1 else invoices[|invoices| - 1].id + 1
  }

  // ---------- requests ----------

  datatype GenerateReq = GenerateReq(company: int, now: int, fromUnix: int, toUnix: int, dryRun: bool,
                                     noCredit: bool, discount: int, allowEmpty: bool)

  datatype AdvanceReq = AdvanceReq(company: int, now: int, amount: int, dryRun: bool)

  datatype Stage = Reading | Seeding | Allocating | Rendering | Inserting | Committing | Renaming

  /** The request ends in the given stage, by an error it handles or by a crash. */
  datatype Stop = Stop(stage: Stage, crash: bool)

  function Rank(s: Stage): nat {
    match s
    case Reading => 0 case Seeding => 1 case Allocating => 2 case Rendering => 3
    case Inserting => 4 case Committing => 5 case Renaming => 6
  }

  predicate Passes(stop: Option<Stop>, s: Stage) {
    stop.None? || Rank(s) < Rank(stop.value.stage)
  }

  /** DefaultPeriod, with the caller's substitution and overrides. */
  function Period(env: Env, co: Company, now: int, lastSent: int, fromUnix: int, toUnix: int): (int, int) {
    var (lo, hi) :=
      if co.mode.MonthlyFixed? then env.month else (if lastSent > 0 then lastSent else co.createdAt, now);
    (if fromUnix > 0 then fromUnix else lo, if toUnix > 0 then toUnix else hi)
  }

  /** The part of a company both requests need: billable, with a sender that is configured. */
  function BillingCompany(env: Env, c: int): Option<Company> {
    if c !in env.companies then None
    else
      var co := env.companies[c];
      if co.mode.NotBillable? || co.billedFrom.None? || co.billedFrom.value == "" || co.billedFrom.value !in env.senders
      then None else Some(co)
  }

  predicate HasBank(env: Env, co: Company)
    requires co.billedFrom.Some? && co.billedFrom.value in env.senders
  {
    GetOr(co.currency, "") in env.senders[co.billedFrom.value].currencies
  }

  /** What a generate reads before its transaction begins: the period, and its ticks. */
  datatype Draft = Draft(lo: int, hi: int, ticks: nat)

  /** Absent when the request is turned down; ticks are 0 unless billing is hourly. */
  function DraftFor(invoices: seq<Invoice>, env: Env, r: GenerateReq): Option<Draft> {
    var found := BillingCompany(env, r.company);
    if found.None? then None
    else
      var co := found.value;
      var (lo, hi) := Period(env, co, r.now, LastSent(invoices, r.company), r.fromUnix, r.toUnix);
      var ticks := if co.mode.Hourly? then |BillableSeconds(env, r.company, lo, hi)| else 0;
      if co.mode.Hourly? && ticks == 0 && !r.allowEmpty then None else Some(Draft(lo, hi, ticks))
  }

  /** An advance is taken only for a positive amount from a company with a rate. */
  predicate Advanceable(env: Env, r: AdvanceReq) {
    var found := BillingCompany(env, r.company);
    r.amount > 0 && found.Some? && found.value.rateCents > 0
  }

  // ---------- transactions ----------

  function Seeded(db: Db, sender: string, n: nat): Db {
    if sender in db.next then db else db.(next := db.next[sender := n], seeds := db.seeds[sender := n])
  }

  /** Number and row, committed together. */
  function Recorded(db: Db, row: Invoice): Db
    requires row.number.Some?
  {
    Db(db.invoices + [row], db.next[row.sender := row.number.value + 1],
       db.issued + [(row.sender, row.number.value)], db.seeds)
  }

  /** From rendering to the final rename. */
  function Issue(w: World, row: Invoice, stop: Option<Stop>): World
    requires row.number.Some?
  {
    var f := (row.sender, row.number.value);
    var kept := w.disk.(temps := w.disk.temps + {f});
    var removed := w.disk.(temps := w.disk.temps - {f});
    if !Passes(stop, Committing) then w.(disk := if stop.value.crash then kept else removed)
    else if !Passes(stop, Renaming) then World(Recorded(w.db, row), kept)
    else World(Recorded(w.db, row), removed.(finals := w.disk.finals + {f}))
  }

  /** What is left to do in the transaction. */
  datatype Job = Bill(g: GenerateReq, draft: Draft) | Prepay(a: AdvanceReq)

  function CompanyOf(job: Job): int {
    match job case Bill(g, _) => g.company case Prepay(a) => a.company
  }

  function LineTotal(env: Env, co: Company, d: Draft): int {
    ComputeLineItem(co.mode, d.ticks, env.tickSec, co.rateCents).totalCents
  }

  function CreditFor(db: Db, env: Env, r: GenerateReq, d: Draft, co: Company): int {
    if r.noCredit then 0
    else ApplyCredit(Balance(db.invoices, r.company, co.currency), LineTotal(env, co, d), r.discount)
  }

  function DocFor(db: Db, env: Env, r: GenerateReq, d: Draft, co: Company): Verdict
    requires co.billedFrom.Some? && co.billedFrom.value in env.senders
  {
    BuildDoc(HasBank(env, co), LineTotal(env, co, d), r.discount, CreditFor(db, env, r, d, co))
  }

  function GeneratedRow(db: Db, env: Env, r: GenerateReq, d: Draft, co: Company): Invoice
    requires co.billedFrom.Some? && co.billedFrom.value in db.next && co.billedFrom.value in env.senders
    requires DocFor(db, env, r, d, co).Accepted?
  {
    Invoice(NextId(db.invoices), r.company, r.now, false, co.billedFrom.value, Some(db.next[co.billedFrom.value]),
            Some(GetOr(co.currency, "")), DocFor(db, env, r, d, co).due, CreditFor(db, env, r, d, co), r.discount,
            LineTotal(env, co, d), d.ticks, d.lo, d.hi)
  }

  function AdvanceRow(db: Db, r: AdvanceReq, co: Company): Invoice
    requires co.billedFrom.Some? && co.billedFrom.value in db.next
  {
    Invoice(NextId(db.invoices), r.company, r.now, true, co.billedFrom.value, Some(db.next[co.billedFrom.value]),
            Some(GetOr(co.currency, "")), r.amount, 0, 0, r.amount, 0, 0, 0)
  }

  /** The row the job inserts, absent when no number can be allocated or no document be built. */
  function RowFor(db: Db, env: Env, job: Job): (row: Option<Invoice>)
    ensures row.Some? ==> row.value.sender in db.next && row.value.number == Some(db.next[row.value.sender])
  {
    var found := BillingCompany(env, CompanyOf(job));
    if found.None? || found.value.billedFrom.value !in db.next then None
    else
      var co := found.value;
      match job
      case Bill(g, d) => if DocFor(db, env, g, d, co).Accepted? then Some(GeneratedRow(db, env, g, d, co)) else None
      case Prepay(a) => if HasBank(env, co) then Some(AdvanceRow(db, a, co)) else None
  }

  /** SeedSenderState, a statement of its own between the reads and the transaction. */
  function SeedStep(w: World, env: Env, c: int): World {
    var found := BillingCompany(env, c);
    if found.None? then w
    else
      var s := found.value.billedFrom.value;
      w.(db := Seeded(w.db, s, env.senders[s].nextNumber))
  }

  /** The transaction, and the rename after it. */
  function Transact(w: World, env: Env, job: Job, stop: Option<Stop>): World {
    var row := RowFor(w.db, env, job);
    if !Passes(stop, Allocating) || row.None? then w else Issue(w, row.value, stop)
  }

  /** InvoiceGenerate with nobody else at work. */
  function Generate(w: World, env: Env, r: GenerateReq, stop: Option<Stop>): World {
    var d := DraftFor(w.db.invoices, env, r);
    if !Passes(stop, Reading) || d.None? || r.dryRun || !Passes(stop, Seeding) then w
    else Transact(SeedStep(w, env, r.company), env, Bill(r, d.value), stop)
  }

  function Advance(w: World, env: Env, r: AdvanceReq, stop: Option<Stop>): World {
    if !Passes(stop, Reading) || !Advanceable(env, r) || r.dryRun || !Passes(stop, Seeding) then w
    else Transact(SeedStep(w, env, r.company), env, Prepay(r), stop)
  }

  /** A cutoff only: no number, no currency, no money. */
  function CutoffRow(invoices: seq<Invoice>, c: int, sentAt: int): Invoice {
    Invoice(NextId(invoices), c, sentAt, false, "", None, None, 0, 0, 0, 0, 0, 0, 0)
  }

  function Send(w: World, c: int, sentAt: int): World {
    w.(db := w.db.(invoices := w.db.invoices + [CutoffRow(w.db.invoices, c, sentAt)]))
  }

  function Without(invoices: seq<Invoice>, id: nat): seq<Invoice> {
    if invoices == [] then []
    else
      var rest, i := Without(invoices[..|invoices| - 1], id), invoices[|invoices| - 1];
      if i.id == id then rest else rest + [i]
  }

  predicate CarriesCredit(i: Invoice) {
    i.advance || i.applied > 0
  }

  /** InvoiceDelete: refused, unless forced, for a row that carries advance credit. */
  function Delete(w: World, id: nat, force: bool): World {
    if !force && (exists i :: i in w.db.invoices && i.id == id && CarriesCredit(i)) then w
    else w.(db := w.db.(invoices := Without(w.db.invoices, id)))
  }

  // ---------- the service ----------

  class InvoiceService {
    var db: Db
    var disk: Disk

    constructor ()
      ensures Abs() == World(Db([], map[], [], map[]), Disk({}, {}))
    {
      db, disk := Db([], map[], [], map[]), Disk({}, {});
    }

    function Abs(): World
      reads this
    {
      World(db, disk)
    }

    /** What InvoiceGenerate reads before it begins a transaction; other requests may run after it. */
    method ReadDraft(env: Env, r: GenerateReq) returns (d: Option<Draft>)
      ensures d == DraftFor(db.invoices, env, r)
    {
      if r.company !in env.companies { return None; }
      var co := env.companies[r.company];
      if co.mode.NotBillable? { return None; }
      if co.billedFrom.None? || co.billedFrom.value == "" { return None; }
      if co.billedFrom.value !in env.senders { return None; }
      var (lo, hi) := Period(env, co, r.now, LastSent(db.invoices, r.company), r.fromUnix, r.toUnix);
      var ticks := 0;
      if co.mode.Hourly? {
        ticks := |BillableSeconds(env, r.company, lo, hi)|;
        if ticks == 0 && !r.allowEmpty { return None; }
      }
      return Some(Draft(lo, hi, ticks));
    }

    method SeedSender(env: Env, c: int)
      requires BillingCompany(env, c).Some?
      modifies this`db
      ensures World(db, disk) == SeedStep(old(Abs()), env, c)
    {
      var senderKey := env.companies[c].billedFrom.value;
      db := Seeded(db, senderKey, env.senders[senderKey].nextNumber);
    }

    method InvoiceGenerate(env: Env, r: GenerateReq, stop: Option<Stop>)
      modifies this
      ensures Abs() == Generate(old(Abs()), env, r, stop)
    {
      if !Passes(stop, Reading) { return; }
      var d := ReadDraft(env, r);
      if d.None? || r.dryRun || !Passes(stop, Seeding) { return; }
      SeedSender(env, r.company);
      GenerateInTransaction(env, r, d.value, stop);
    }

    /** The transaction works on its own copy and is dropped unless it commits. */
    method GenerateInTransaction(env: Env, r: GenerateReq, d: Draft, stop: Option<Stop>)
      requires BillingCompany(env, r.company).Some?
      modifies this
      ensures Abs() == Transact(old(Abs()), env, Bill(r, d), stop)
    {
      var co := env.companies[r.company];
      var senderKey := co.billedFrom.value;
      var tx := db;
      var creditRemaining := Balance(tx.invoices, r.company, co.currency);
      if !Passes(stop, Allocating) || senderKey !in tx.next { return; }
      var number := tx.next[senderKey];
      tx := tx.(next := tx.next[senderKey := number + 1]);

      var lineTotal := ComputeLineItem(co.mode, d.ticks, env.tickSec, co.rateCents).totalCents;
      var applied := if r.noCredit then 0 else ApplyCredit(creditRemaining, lineTotal, r.discount);
      var doc := BuildDoc(HasBank(env, co), lineTotal, r.discount, applied);
      if doc.Rejected? { return; }

      var row := Invoice(NextId(tx.invoices), r.company, r.now, false, senderKey, Some(number),
                         Some(GetOr(co.currency, "")), doc.due, applied, r.discount, lineTotal, d.ticks, d.lo, d.hi);
      RenderAndCommit(tx, row, stop);
    }

    method InvoiceAdvance(env: Env, r: AdvanceReq, stop: Option<Stop>)
      modifies this
      ensures Abs() == Advance(old(Abs()), env, r, stop)
    {
      if r.amount <= 0 { return; }
      if !Passes(stop, Reading) || r.company !in env.companies { return; }
      var co := env.companies[r.company];
      if co.mode.NotBillable? { return; }
      if co.billedFrom.None? || co.billedFrom.value == "" { return; }
      if co.rateCents <= 0 { return; }
      if co.billedFrom.value !in env.senders { return; }
      if r.dryRun || !Passes(stop, Seeding) { return; }
      SeedSender(env, r.company);
      AdvanceInTransaction(env, r, stop);
    }

    method AdvanceInTransaction(env: Env, r: AdvanceReq, stop: Option<Stop>)
      requires BillingCompany(env, r.company).Some?
      modifies this
      ensures Abs() == Transact(old(Abs()), env, Prepay(r), stop)
    {
      var co := env.companies[r.company];
      var senderKey := co.billedFrom.value;
      var tx := db;
      if !Passes(stop, Allocating) || senderKey !in tx.next { return; }
      var number := tx.next[senderKey];
      tx := tx.(next := tx.next[senderKey := number + 1]);
      if !HasBank(env, co) { return; }
      var row := Invoice(NextId(tx.invoices), r.company, r.now, true, senderKey, Some(number),
                         Some(GetOr(co.currency, "")), r.amount, 0, 0, r.amount, 0, 0, 0);
      RenderAndCommit(tx, row, stop);
    }

    /** Render to a temporary file, insert the row, commit, and only then move the file into place. */
    method RenderAndCommit(tx0: Db, row: Invoice, stop: Option<Stop>)
      requires row.number.Some? && tx0 == db.(next := db.next[row.sender := row.number.value + 1])
      modifies this
      ensures Abs() == Issue(old(Abs()), row, stop)
    {
      var tx, f := tx0, (row.sender, row.number.value);
      disk := disk.(temps := disk.temps + {f});
      if !Passes(stop, Rendering) {
        CleanUp(f, stop.value.crash);
        return;
      }
      tx := tx.(invoices := tx.invoices + [row], issued := tx.issued + [f]);
      if !Passes(stop, Committing) {
        CleanUp(f, stop.value.crash);
        return;
      }
      db := tx;
      if !Passes(stop, Renaming) { return; }
      disk := Disk(disk.temps - {f}, disk.finals + {f});
      assert disk.temps == old(disk.temps) - {f};
    }

    method CleanUp(f: (string, nat), crash: bool)
      modifies this`disk
      ensures disk == if crash then old(disk) else old(disk).(temps := old(disk).temps - {f})
    {
      if !crash { disk := disk.(temps := disk.temps - {f}); }
    }

    method InvoiceSend(c: int, sentAt: int)
      modifies this
      ensures Abs() == Send(old(Abs()), c, sentAt)
    {
      db := db.(invoices := db.invoices + [CutoffRow(db.invoices, c, sentAt)]);
    }

    method InvoiceDelete(id: nat, force: bool)
      modifies this
      ensures Abs() == Delete(old(Abs()), id, force)
    {
      if !force && exists i :: i in db.invoices && i.id == id && CarriesCredit(i) { return; }
      db := db.(invoices := Without(db.invoices, id));
    }
  }
}
