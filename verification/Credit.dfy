/** Advance credit: how much an invoice draws, when a document is accepted, and which advance
    the drawdown is said to come from. */
module Credit {
  import opened Options

  // ---------- one invoice ----------

  function ApplyCredit(credit: int, lineTotal: int, goodwill: int): int {
    var room := if lineTotal - goodwill < 0 then 0 else lineTotal - goodwill;
    var applied := if credit > room then room else credit;
    if applied < 0 then 0 else applied
  }

  datatype DocError = NoBank | NegativeDiscount | NegativeCredit | ExceedsLineTotal

  /** The validation of BuildDoc; an accepted document owes the line total less discount and credit. */
  datatype Verdict = Accepted(due: int) | Rejected(error: DocError)

  function BuildDoc(hasBank: bool, lineTotal: int, discount: int, credit: int): Verdict {
    if !hasBank then Rejected(NoBank)
    else if discount < 0 then Rejected(NegativeDiscount)
    else if credit < 0 then Rejected(NegativeCredit)
    else if discount + credit > lineTotal then Rejected(ExceedsLineTotal)
    else Accepted(lineTotal - discount - credit)
  }

  /** Automatic credit never changes whether a document is accepted, is never negative nor more
      than a positive balance, and is all that fits: any larger draw overdraws or is rejected. */
  lemma AutomaticCreditFits(hasBank: bool, balance: int, lineTotal: int, discount: int)
    ensures var a := ApplyCredit(balance, lineTotal, discount);
            && 0 <= a && (a > 0 ==> a <= balance)
            && (BuildDoc(hasBank, lineTotal, discount, a).Accepted?
                <==> BuildDoc(hasBank, lineTotal, discount, 0).Accepted?)
            && (forall b :: b > a && b <= balance ==> BuildDoc(hasBank, lineTotal, discount, b).Rejected?)
  {
  }

  // ---------- the advance being drawn down ----------

  /** A row of the credit ledger; a legacy missing total reads as 0. */
  datatype CreditRow = CreditRow(number: Option<string>, advance: bool, total: nat, applied: nat)

  /** Advances with what is left of them, oldest first. */
  type Queue = seq<(Option<string>, nat)>

  function Entries(r: CreditRow): Queue {
    if r.advance then [(r.number, r.total)] else []
  }

  /** The advances of a ledger listed newest first. */
  function Advances(rows: seq<CreditRow>): Queue {
    if rows == [] then [] else Advances(rows[1..]) + Entries(rows[0])
  }

  function Drawn(rows: seq<CreditRow>): nat {
    if rows == [] then 0 else Drawn(rows[1..]) + rows[0].applied
  }

  /** Spends `d` from the front, dropping what is used up. */
  function Drain(q: Queue, d: nat): Queue {
    if q == [] then []
    else if d >= q[0].1 then Drain(q[1..], d - q[0].1)
    else [(q[0].0, q[0].1 - d)] + q[1..]
  }

  function FirstNumbered(q: Queue): Option<string> {
    if q == [] then None else if q[0].0.Some? then q[0].0 else FirstNumbered(q[1..])
  }

  /** What the second loop finds in the rows from the oldest to index `i`, having seen `advanced`. */
  function Search(q: Queue, advanced: nat, drawn: nat): Option<string> {
    if q == [] then None
    else if advanced + q[0].1 > drawn && q[0].0.Some? then q[0].0
    else Search(q[1..], advanced + q[0].1, drawn)
  }

  lemma {:induction false} SearchPast(q: Queue, advanced: nat, drawn: nat)
    requires advanced > drawn
    ensures Search(q, advanced, drawn) == FirstNumbered(q)
  {
    if q != [] { SearchPast(q[1..], advanced + q[0].1, drawn); }
  }

  lemma {:induction false} SearchDrains(q: Queue, advanced: nat, drawn: nat)
    requires advanced <= drawn
    ensures Search(q, advanced, drawn) == FirstNumbered(Drain(q, drawn - advanced))
  {
    if q != [] {
      var next := advanced + q[0].1;
      if next <= drawn {
        SearchDrains(q[1..], next, drawn);
      } else {
        SearchPast(q[1..], next, drawn);
        var left := [(q[0].0, next - drawn)] + q[1..];
        assert left[1..] == q[1..];
      }
    }
  }

  /** The first pass. */
  method SumDrawn(rows: seq<CreditRow>) returns (drawn: nat)
    ensures drawn == Drawn(rows)
  {
    drawn := 0;
    for k := 0 to |rows|
      invariant drawn + Drawn(rows[k..]) == Drawn(rows)
    {
      assert rows[k..][1..] == rows[k + 1..];
      drawn := drawn + rows[k].applied;
    }
  }

  /** What the second pass finds in the first `i` rows, the newest, having seen `advanced`. */
  function SearchRows(rows: seq<CreditRow>, i: nat, advanced: nat, drawn: nat): Option<string>
    requires i <= |rows|
  {
    Search(Advances(rows[..i]), advanced, drawn)
  }

  lemma SearchRowsStep(rows: seq<CreditRow>, i: nat, advanced: nat, drawn: nat)
    requires i < |rows|
    ensures SearchRows(rows, i + 1, advanced, drawn) ==
            if !rows[i].advance then SearchRows(rows, i, advanced, drawn)
            else if advanced + rows[i].total > drawn && rows[i].number.Some? then rows[i].number
            else SearchRows(rows, i, advanced + rows[i].total, drawn)
  {
    var r, newer := rows[i], Advances(rows[..i]);
    assert rows[..i + 1] == rows[..i] + [r];
    AdvancesOldest(rows[..i], r);
    var q := Entries(r) + newer;
    if r.advance { assert q[1..] == newer; } else { assert q == newer; }
  }

  lemma SearchRowsDrain(rows: seq<CreditRow>)
    ensures SearchRows(rows, |rows|, 0, Drawn(rows)) == FirstNumbered(Drain(Advances(rows), Drawn(rows)))
    ensures forall advanced: nat, drawn: nat :: SearchRows(rows, 0, advanced, drawn) == None
  {
    assert rows[..|rows|] == rows;
    SearchDrains(Advances(rows), 0, Drawn(rows));
  }

  /** Rows come newest first; two passes, the second from the oldest. */
  method OldestUnexhaustedAdvance(rows: seq<CreditRow>) returns (number: Option<string>)
    ensures number == FirstNumbered(Drain(Advances(rows), Drawn(rows)))
  {
    var drawn := SumDrawn(rows);
    SearchRowsDrain(rows);
    ghost var target := FirstNumbered(Drain(Advances(rows), Drawn(rows)));
    var advanced: nat := 0;
    var i := |rows|;
    while i > 0
      invariant 0 <= i <= |rows|
      invariant SearchRows(rows, i, advanced, drawn) == target
    {
      i := i - 1;
      SearchRowsStep(rows, i, advanced, drawn);
      if rows[i].advance {
        advanced := advanced + rows[i].total;
        if advanced > drawn && rows[i].number.Some? { return rows[i].number; }
      }
    }
    return None;
  }

  lemma {:induction false} AdvancesOldest(newer: seq<CreditRow>, oldest: CreditRow)
    ensures Advances(newer + [oldest]) == Entries(oldest) + Advances(newer)
  {
    if newer == [] {
      assert newer + [oldest] == [oldest] && [oldest][1..] == [];
      assert Advances([oldest]) == [] + Entries(oldest);
    } else {
      assert (newer + [oldest])[1..] == newer[1..] + [oldest];
      AdvancesOldest(newer[1..], oldest);
    }
  }

  // ---------- against spending first in, first out ----------

  function Total(q: Queue): nat {
    if q == [] then 0 else q[0].1 + Total(q[1..])
  }

  /** The ledger replayed oldest to newest: an advance joins the queue, a drawdown spends from its front. */
  function Replayed(rows: seq<CreditRow>): Queue {
    if rows == [] then [] else Drain(Replayed(rows[1..]) + Entries(rows[0]), rows[0].applied)
  }

  /** At no time in the past was more drawn than had been advanced. */
  predicate NeverOverdrawn(rows: seq<CreditRow>) {
    rows == [] || (NeverOverdrawn(rows[1..]) && Drawn(rows) <= Total(Advances(rows)))
  }

  predicate PositiveAdvances(rows: seq<CreditRow>) {
    forall r :: r in rows && r.advance ==> r.total > 0
  }

  lemma {:induction false} TotalAppend(a: Queue, b: Queue)
    ensures Total(a + b) == Total(a) + Total(b)
  {
    if a == [] { assert a + b == b; } else { assert (a + b)[1..] == a[1..] + b; TotalAppend(a[1..], b); }
  }

  lemma {:induction false} DrainTwice(q: Queue, a: nat, b: nat)
    ensures Drain(Drain(q, a), b) == Drain(q, a + b)
  {
    if q != [] {
      if a >= q[0].1 {
        DrainTwice(q[1..], a - q[0].1, b);
      } else {
        var left := [(q[0].0, q[0].1 - a)] + q[1..];
        assert left[1..] == q[1..];
      }
    }
  }

  lemma {:induction false} DrainBeforeAppend(q: Queue, e: (Option<string>, nat), d: nat)
    requires d <= Total(q) && e.1 > 0
    ensures Drain(q, d) + [e] == Drain(q + [e], d)
  {
    if q == [] {
      assert q + [e] == [e] && [(e.0, e.1 - 0)] + [] == [e];
    } else {
      assert (q + [e])[1..] == q[1..] + [e];
      if d >= q[0].1 { DrainBeforeAppend(q[1..], e, d - q[0].1); }
    }
  }

  lemma {:induction false} DrainTotal(q: Queue, d: nat)
    requires d <= Total(q)
    ensures Total(Drain(q, d)) == Total(q) - d
  {
    if q != [] {
      if d >= q[0].1 { DrainTotal(q[1..], d - q[0].1); }
      else { assert ([(q[0].0, q[0].1 - d)] + q[1..])[1..] == q[1..]; }
    }
  }

  /** Draining every advance by everything drawn gives the queue that step-by-step spending leaves. */
  lemma {:induction false} ReplayIsDrain(rows: seq<CreditRow>)
    requires NeverOverdrawn(rows) && PositiveAdvances(rows)
    ensures Replayed(rows) == Drain(Advances(rows), Drawn(rows))
  {
    if rows != [] {
      var older, r := rows[1..], rows[0];
      assert rows == [r] + older && forall x :: x in older ==> x in rows;
      ReplayIsDrain(older);
      var q := Advances(older);
      if older == [] { assert Total(q) == 0; }
      if r.advance {
        DrainBeforeAppend(q, (r.number, r.total), Drawn(older));
      } else {
        assert Replayed(older) + [] == Replayed(older) && q + [] == q;
      }
      DrainTwice(q + Entries(r), Drawn(older), r.applied);
    }
  }

  lemma {:induction false} DrainKeepsNumbered(q: Queue, d: nat)
    requires forall e :: e in q ==> e.0.Some?
    ensures forall e :: e in Drain(q, d) ==> e.0.Some?
  {
    if q != [] {
      assert q[0] in q && forall e :: e in q[1..] ==> e in q;
      if d >= q[0].1 { DrainKeepsNumbered(q[1..], d - q[0].1); }
    }
  }

  lemma {:induction false} AdvancesNumbered(rows: seq<CreditRow>)
    requires forall r :: r in rows && r.advance ==> r.number.Some?
    ensures forall e :: e in Advances(rows) ==> e.0.Some?
  {
    if rows != [] {
      assert rows == [rows[0]] + rows[1..];
      AdvancesNumbered(rows[1..]);
    }
  }

  /** The advance named on a document is the head of the queue that is left when everything drawn is
      spent from the oldest advance on, and there is one whenever more was advanced than drawn. */
  lemma ReferenceIsQueueHead(rows: seq<CreditRow>)
    requires Drawn(rows) <= Total(Advances(rows)) && forall r :: r in rows && r.advance ==> r.number.Some?
    ensures var q := Drain(Advances(rows), Drawn(rows));
            var ref := FirstNumbered(q);
            && ref == (if q == [] then None else q[0].0)
            && Total(q) == Total(Advances(rows)) - Drawn(rows) && (Total(q) > 0 ==> ref.Some?)
    ensures NeverOverdrawn(rows) && PositiveAdvances(rows) ==> Replayed(rows) == Drain(Advances(rows), Drawn(rows))
  {
    AdvancesNumbered(rows);
    DrainKeepsNumbered(Advances(rows), Drawn(rows));
    DrainTotal(Advances(rows), Drawn(rows));
    var q := Drain(Advances(rows), Drawn(rows));
    if q != [] { assert q[0] in q; }
    if NeverOverdrawn(rows) && PositiveAdvances(rows) { ReplayIsDrain(rows); }
  }
}
