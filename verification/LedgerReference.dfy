/** The advance named on a document, in every reachable ledger. */
module LedgerReference {
  import opened Options
  import opened Credit
  import opened InvoiceFormat
  import opened Ledger
  import opened LedgerRuns

  // ---------- CompanyCreditRows ----------

  /** ORDER BY sent_at DESC, id DESC. */
  predicate ListedBefore(a: Invoice, b: Invoice) {
    a.sentAt > b.sentAt || (a.sentAt == b.sentAt && a.id > b.id)
  }

  predicate NewestFirst(rows: seq<Invoice>) {
    forall i, j :: 0 <= i < j < |rows| ==> !ListedBefore(rows[j], rows[i])
  }

  function InsertListed(i: Invoice, rows: seq<Invoice>): (r: seq<Invoice>)
    requires NewestFirst(rows)
    ensures NewestFirst(r) && multiset(r) == multiset(rows) + multiset{i}
  {
    if rows == [] || !ListedBefore(rows[0], i) then [i] + rows
    else
      var t := InsertListed(i, rows[1..]);
      assert rows == [rows[0]] + rows[1..];
      HeadStaysFirst(i, rows, t);
      [rows[0]] + t
  }

  lemma HeadStaysFirst(i: Invoice, rows: seq<Invoice>, t: seq<Invoice>)
    requires rows != [] && NewestFirst(rows) && NewestFirst(t) && ListedBefore(rows[0], i)
    requires multiset(t) == multiset(rows[1..]) + multiset{i}
    ensures NewestFirst([rows[0]] + t)
  {
    forall j | 0 <= j < |t| ensures !ListedBefore(t[j], rows[0]) {
      assert t[j] in multiset(t);
      if t[j] != i { assert t[j] in rows[1..]; }
    }
  }

  /** The company's advances and drawdowns in one currency, newest first. */
  function Listed(invoices: seq<Invoice>, c: int, cur: Option<string>): (r: seq<Invoice>)
    ensures NewestFirst(r)
  {
    if invoices == [] || cur.None? then []
    else
      var i, rest := invoices[|invoices| - 1], Listed(invoices[..|invoices| - 1], c, cur);
      if i.company == c && i.currency == cur && CarriesCredit(i) then InsertListed(i, rest) else rest
  }

  /** As a ledger row; the number stands for its printed form. */
  function CreditRowOf(i: Invoice): CreditRow {
    CreditRow(if i.number.Some? then Some(Digits(i.number.value)) else None, i.advance,
              if i.total > 0 then i.total else 0, if i.applied > 0 then i.applied else 0)
  }

  function CreditRowsOf(rows: seq<Invoice>): seq<CreditRow> {
    if rows == [] then [] else [CreditRowOf(rows[0])] + CreditRowsOf(rows[1..])
  }

  function CreditRows(invoices: seq<Invoice>, c: int, cur: Option<string>): seq<CreditRow> {
    CreditRowsOf(Listed(invoices, c, cur))
  }

  // ---------- they add up to the balance ----------

  function Held(rows: seq<CreditRow>): int {
    Total(Advances(rows)) - Drawn(rows)
  }

  predicate Numbered(rows: seq<CreditRow>) {
    forall r :: r in rows && r.advance ==> r.number.Some?
  }

  lemma HeldCons(i: Invoice, rows: seq<CreditRow>)
    requires RowOk(i) && PositiveAdvances(rows) && Numbered(rows)
    ensures var all := [CreditRowOf(i)] + rows;
            Held(all) == Held(rows) + CreditOf(i) && PositiveAdvances(all) && Numbered(all) && all[1..] == rows
  {
    var r := CreditRowOf(i);
    var all := [r] + rows;
    assert all[1..] == rows;
    TotalAppend(Advances(rows), Entries(r));
    if r.advance { assert Total([(r.number, r.total)]) == r.total + Total([(r.number, r.total)][1..]); }
  }

  lemma {:induction false} InsertHolds(i: Invoice, rows: seq<Invoice>)
    requires NewestFirst(rows) && RowOk(i) && RowsOk(rows)
    requires PositiveAdvances(CreditRowsOf(rows)) && Numbered(CreditRowsOf(rows))
    ensures var all := CreditRowsOf(InsertListed(i, rows));
            Held(all) == Held(CreditRowsOf(rows)) + CreditOf(i) && PositiveAdvances(all) && Numbered(all)
  {
    if rows == [] || !ListedBefore(rows[0], i) {
      assert ([i] + rows)[1..] == rows;
      HeldCons(i, CreditRowsOf(rows));
    } else {
      var rest := CreditRowsOf(rows[1..]);
      assert CreditRowsOf(rows) == [CreditRowOf(rows[0])] + rest;
      assert forall r :: r in rest ==> r in CreditRowsOf(rows);
      InsertHolds(i, rows[1..]);
      var t := InsertListed(i, rows[1..]);
      assert ([rows[0]] + t)[1..] == t;
      HeldCons(rows[0], CreditRowsOf(t));
      HeldCons(rows[0], rest);
    }
  }

  lemma {:induction false} ListedOk(invoices: seq<Invoice>, c: int, cur: Option<string>)
    requires RowsOk(invoices)
    ensures RowsOk(Listed(invoices, c, cur))
  {
    if invoices != [] && cur.Some? {
      var front, i := invoices[..|invoices| - 1], invoices[|invoices| - 1];
      assert i in invoices && forall x :: x in front ==> x in invoices;
      ListedOk(front, c, cur);
      var rest := Listed(front, c, cur);
      forall x | x in InsertListed(i, rest) ensures RowOk(x) {
        assert x in multiset(InsertListed(i, rest));
        assert x == i || x in rest;
      }
    }
  }

  /** Whatever the issue dates: advanced minus drawn in the listed rows is the balance. */
  lemma {:induction false} CreditRowsFit(invoices: seq<Invoice>, c: int, cur: Option<string>)
    requires RowsOk(invoices)
    ensures var rows := CreditRows(invoices, c, cur);
            Held(rows) == Balance(invoices, c, cur) && PositiveAdvances(rows) && Numbered(rows)
  {
    if invoices != [] && cur.Some? {
      var front, i := invoices[..|invoices| - 1], invoices[|invoices| - 1];
      assert i in invoices && forall x :: x in front ==> x in invoices;
      CreditRowsFit(front, c, cur);
      if i.company == c && i.currency == cur && CarriesCredit(i) {
        ListedOk(front, c, cur);
        InsertHolds(i, Listed(front, c, cur));
      }
    }
  }

  // ---------- the reference ----------

  /** After every run without forced deletes, issue dates set back or not: the advance a document
      names is the head of the queue left when everything drawn is spent from the earliest-dated
      advance on, and one is named whenever credit is applied. */
  lemma ReachableReference(ops: seq<Op>, env: Env, r: GenerateReq, d: Draft, co: Company)
    requires forall op :: op in ops && op.Deletes? ==> !op.force
    ensures var db := After(ops).world.db;
            var rows := CreditRows(db.invoices, r.company, co.currency);
            var q := Drain(Advances(rows), Drawn(rows));
            var ref := FirstNumbered(q);
            && ref == (if q == [] then None else q[0].0)
            && Total(q) == Balance(db.invoices, r.company, co.currency)
            && (CreditFor(db, env, r, d, co) > 0 ==> ref.Some?)
  {
    BalancesStaySolvent(ops);
    var db := After(ops).world.db;
    CreditRowsFit(db.invoices, r.company, co.currency);
    SolventNow(db.invoices, r.company, co.currency);
    ReferenceIsQueueHead(CreditRows(db.invoices, r.company, co.currency));
  }

  // ---------- issue dates in order ----------

  predicate IdsIncrease(invoices: seq<Invoice>) {
    (forall i :: 0 <= i < |invoices| ==> invoices[i].id >= 1)
    && forall i, j :: 0 <= i < j < |invoices| ==> invoices[i].id < invoices[j].id
  }

  predicate Chronological(invoices: seq<Invoice>) {
    forall i, j :: 0 <= i < j < |invoices| ==> invoices[i].sentAt <= invoices[j].sentAt
  }

  lemma SnocIncreases(invoices: seq<Invoice>, i: Invoice)
    requires IdsIncrease(invoices) && i.id >= NextId(invoices)
    ensures IdsIncrease(invoices + [i])
  {
    forall k | 0 <= k < |invoices| ensures invoices[k].id < i.id {
      if k < |invoices| - 1 { assert invoices[k].id < invoices[|invoices| - 1].id; }
    }
  }

  lemma {:induction false} WithoutIncreases(invoices: seq<Invoice>, id: nat)
    requires IdsIncrease(invoices)
    ensures IdsIncrease(Without(invoices, id))
    ensures NextId(Without(invoices, id)) <= NextId(invoices)
  {
    if invoices != [] {
      var front, i := invoices[..|invoices| - 1], invoices[|invoices| - 1];
      WithoutIncreases(front, id);
      assert front != [] ==> front[|front| - 1].id < i.id;
      if i.id != id { SnocIncreases(Without(front, id), i); }
    }
  }

  lemma {:induction false} IdsAlwaysIncrease(ops: seq<Op>)
    ensures IdsIncrease(After(ops).world.db.invoices)
  {
    if ops != [] {
      var front, op := ops[..|ops| - 1], ops[|ops| - 1];
      IdsAlwaysIncrease(front);
      var s := After(front);
      var invoices := s.world.db.invoices;
      match op
      case Starts(_, _, _) =>
      case StartsAdvance(_, _, _) =>
      case Seeds(_) =>
      case Sends(c, sentAt) => SnocIncreases(invoices, CutoffRow(invoices, c, sentAt));
      case Deletes(id, _) => WithoutIncreases(invoices, id);
      case Transacts(t, _) =>
        if t in s.open {
          var row := RowFor(s.world.db, s.open[t].env, s.open[t].job);
          if row.Some? { SnocIncreases(invoices, row.value); }
        }
    }
  }

  lemma {:induction false} ListedMembers(invoices: seq<Invoice>, c: int, cur: Option<string>, x: Invoice)
    requires x in Listed(invoices, c, cur)
    ensures x in invoices
  {
    var front, i := invoices[..|invoices| - 1], invoices[|invoices| - 1];
    if x in Listed(front, c, cur) {
      ListedMembers(front, c, cur, x);
    } else {
      assert x in multiset(InsertListed(i, Listed(front, c, cur)));
    }
  }

  lemma NewestIsListedFirst(front: seq<Invoice>, i: Invoice, c: int, cur: Option<string>)
    requires IdsIncrease(front + [i]) && Chronological(front + [i])
    ensures InsertListed(i, Listed(front, c, cur)) == [i] + Listed(front, c, cur)
  {
    var rest := Listed(front, c, cur);
    if rest != [] {
      ListedMembers(front, c, cur, rest[0]);
      var k :| 0 <= k < |front| && front[k] == rest[0];
      assert (front + [i])[k] == rest[0] && (front + [i])[|front|] == i;
    }
  }

  lemma NeverOverdrawnCons(r: CreditRow, rows: seq<CreditRow>)
    requires NeverOverdrawn(rows) && Held([r] + rows) >= 0
    ensures NeverOverdrawn([r] + rows)
  {
    assert ([r] + rows)[1..] == rows;
  }

  lemma NewestNeverOverdrawn(front: seq<Invoice>, i: Invoice, c: int, cur: Option<string>)
    requires Solvent(front + [i]) && RowsOk(front + [i]) && IdsIncrease(front + [i]) && Chronological(front + [i])
    requires cur.Some? && i.company == c && i.currency == cur && CarriesCredit(i)
    requires NeverOverdrawn(CreditRows(front, c, cur))
    ensures NeverOverdrawn(CreditRows(front + [i], c, cur))
  {
    var invoices, rest := front + [i], Listed(front, c, cur);
    assert invoices[..|front|] == front;
    NewestIsListedFirst(front, i, c, cur);
    assert ([i] + rest)[1..] == rest;
    assert CreditRows(invoices, c, cur) == [CreditRowOf(i)] + CreditRowsOf(rest);
    CreditRowsFit(invoices, c, cur);
    SolventNow(invoices, c, cur);
    NeverOverdrawnCons(CreditRowOf(i), CreditRowsOf(rest));
  }

  lemma OtherRowIsUnlisted(front: seq<Invoice>, i: Invoice, c: int, cur: Option<string>)
    requires !(i.company == c && i.currency == cur && CarriesCredit(i)) || cur.None?
    ensures CreditRows(front + [i], c, cur) == CreditRows(front, c, cur)
  {
    assert (front + [i])[..|front|] == front;
  }

  lemma FrontStaysOrdered(front: seq<Invoice>, i: Invoice)
    requires Solvent(front + [i]) && RowsOk(front + [i]) && IdsIncrease(front + [i]) && Chronological(front + [i])
    ensures Solvent(front) && RowsOk(front) && IdsIncrease(front) && Chronological(front)
  {
    assert (front + [i])[..|front|] == front;
    assert forall k :: 0 <= k < |front| ==> (front + [i])[k] == front[k];
    assert forall x :: x in front ==> x in front + [i];
  }

  lemma NextNeverOverdrawn(front: seq<Invoice>, i: Invoice, c: int, cur: Option<string>)
    requires Solvent(front + [i]) && RowsOk(front + [i]) && IdsIncrease(front + [i]) && Chronological(front + [i])
    requires NeverOverdrawn(CreditRows(front, c, cur))
    ensures NeverOverdrawn(CreditRows(front + [i], c, cur))
  {
    if cur.Some? && i.company == c && i.currency == cur && CarriesCredit(i) {
      NewestNeverOverdrawn(front, i, c, cur);
    } else {
      OtherRowIsUnlisted(front, i, c, cur);
    }
  }

  /** Then the newest row is listed first, so the queue is the one that step-by-step spending leaves. */
  lemma {:induction false} ChronologicalNeverOverdrawn(invoices: seq<Invoice>, c: int, cur: Option<string>)
    requires Solvent(invoices) && RowsOk(invoices) && IdsIncrease(invoices) && Chronological(invoices)
    ensures NeverOverdrawn(CreditRows(invoices, c, cur))
  {
    if invoices == [] {
      assert CreditRows(invoices, c, cur) == [];
    } else {
      var front, i := invoices[..|invoices| - 1], invoices[|invoices| - 1];
      assert invoices == front + [i];
      FrontStaysOrdered(front, i);
      ChronologicalNeverOverdrawn(front, c, cur);
      NextNeverOverdrawn(front, i, c, cur);
    }
  }

  /** In a ledger whose issue dates never go back, the reference is the advance that step-by-step
      first-in-first-out spending has reached. */
  lemma ChronologicalReference(ops: seq<Op>, c: int, cur: Option<string>)
    requires forall op :: op in ops && op.Deletes? ==> !op.force
    requires Chronological(After(ops).world.db.invoices)
    ensures var rows := CreditRows(After(ops).world.db.invoices, c, cur);
            Replayed(rows) == Drain(Advances(rows), Drawn(rows))
  {
    BalancesStaySolvent(ops);
    IdsAlwaysIncrease(ops);
    var invoices := After(ops).world.db.invoices;
    CreditRowsFit(invoices, c, cur);
    ChronologicalNeverOverdrawn(invoices, c, cur);
    ReplayIsDrain(CreditRows(invoices, c, cur));
  }
}
