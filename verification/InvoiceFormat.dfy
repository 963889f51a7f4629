/** Printing invoice numbers and money, and reading them back. */
module InvoiceFormat {

  predicate IsDigit(c: char) {
    '0' <= c <= '9'
  }

  function DigitChar(d: nat): char
    requires d < 10
  {
    '0' + d as char
  }

  function Digits(n: nat): (s: string)
    ensures s != ""
  {
    if n < 10 then [DigitChar(n)] else Digits(n / 10) + [DigitChar(n % 10)]
  }

  /** The number a digit string spells; other characters are passed over. */
  function Value(s: string): nat {
    if s == "" then 0
    else
      var c := s[|s| - 1];
      if IsDigit(c) then 10 * Value(s[..|s| - 1]) + (c - '0') as nat else Value(s[..|s| - 1])
  }

  lemma ValueSnoc(s: string, c: char)
    ensures Value(s + [c]) == if IsDigit(c) then 10 * Value(s) + (c - '0') as nat else Value(s)
  {
  }

  lemma {:induction false} ValueOfDigits(n: nat)
    ensures Value(Digits(n)) == n
  {
    if n < 10 {
      assert Digits(n) == "" + [DigitChar(n)];
      ValueSnoc("", DigitChar(n));
    } else {
      ValueOfDigits(n / 10);
      ValueSnoc(Digits(n / 10), DigitChar(n % 10));
    }
  }

  // ---------- invoice numbers ----------

  function Zeros(k: nat): string {
    if k == 0 then "" else "0" + Zeros(k - 1)
  }

  /** The digits, padded if a pad is configured. */
  function Padded(pad: int, n: nat): string {
    var s := Digits(n);
    if pad <= |s| then s else Zeros(pad - |s|) + s
  }

  /** %d, or %0*d when a pad is configured. */
  function FormatInvoiceNumber(prefix: string, pad: int, n: nat): string {
    prefix + Padded(pad, n)
  }

  lemma {:induction false} ValueOfPadded(k: nat, s: string)
    ensures Value(Zeros(k) + s) == Value(s)
  {
    if s == "" {
      assert Zeros(k) + s == Zeros(k);
      ValueOfZeros(k);
    } else {
      var front, c := s[..|s| - 1], s[|s| - 1];
      ValueOfPadded(k, front);
      assert Zeros(k) + s == (Zeros(k) + front) + [c] && s == front + [c];
      ValueSnoc(Zeros(k) + front, c);
      ValueSnoc(front, c);
    }
  }

  lemma {:induction false} ValueOfZeros(k: nat)
    ensures Value(Zeros(k)) == 0 && |Zeros(k)| == k && forall i :: 0 <= i < k ==> Zeros(k)[i] == '0'
  {
    if k > 0 {
      ValueOfZeros(k - 1);
      assert forall i :: 0 <= i < k ==> Zeros(k)[i] == '0';
      var s := Zeros(k);
      assert s == Zeros(k - 1) + ['0'];
      ValueSnoc(Zeros(k - 1), '0');
    }
  }

  lemma PaddedReadsBack(pad: int, n: nat)
    ensures Value(Padded(pad, n)) == n
  {
    ValueOfDigits(n);
    if pad > |Digits(n)| { ValueOfPadded(pad - |Digits(n)|, Digits(n)); }
  }

  lemma DropPrefix(a: string, b: string)
    ensures a <= a + b && (a + b)[|a|..] == b
  {
  }

  /** A printed number can be read back, so under one prefix and pad no two numbers print alike. */
  lemma NumberReadsBack(prefix: string, pad: int, n: nat)
    ensures var s := FormatInvoiceNumber(prefix, pad, n); prefix <= s && Value(s[|prefix|..]) == n
  {
    PaddedReadsBack(pad, n);
    DropPrefix(prefix, Padded(pad, n));
  }

  /** The number fills the pad with leading zeros, and is never cut. */
  lemma NumberFillsPad(prefix: string, pad: int, n: nat) returns (zeros: string)
    ensures FormatInvoiceNumber(prefix, pad, n) == prefix + (zeros + Digits(n))
    ensures |zeros| == if pad > |Digits(n)| then pad - |Digits(n)| else 0
    ensures forall k :: 0 <= k < |zeros| ==> zeros[k] == '0'
  {
    zeros := if pad > |Digits(n)| then Zeros(pad - |Digits(n)|) else "";
    if pad > |Digits(n)| { ZerosAre(pad - |Digits(n)|); }
    assert Padded(pad, n) == zeros + Digits(n);
  }

  lemma {:induction false} ZerosAre(k: nat)
    ensures |Zeros(k)| == k && forall i :: 0 <= i < k ==> Zeros(k)[i] == '0'
  {
    if k > 0 { ZerosAre(k - 1); }
  }

  lemma NumbersPrintApart(prefix: string, pad: int, m: nat, n: nat)
    requires FormatInvoiceNumber(prefix, pad, m) == FormatInvoiceNumber(prefix, pad, n)
    ensures m == n
  {
    NumberReadsBack(prefix, pad, m);
    NumberReadsBack(prefix, pad, n);
  }

  /** Under two prefixes two numbers may print alike. */
  lemma PrefixesCanCollide()
    ensures FormatInvoiceNumber("INV-1", 0, 2) == FormatInvoiceNumber("INV-", 0, 12)
  {
  }

  // ---------- thousands separators ----------

  /** A comma before every third digit from the right. */
  function Grouped(s: string): string {
    if |s| <= 3 then s else Grouped(s[..|s| - 3]) + "," + s[|s| - 3..]
  }

  lemma GroupedStep(s: string, i: nat)
    requires i + 3 <= |s|
    ensures Grouped(s[..i + 3]) == if i == 0 then s[i..i + 3] else Grouped(s[..i]) + "," + s[i..i + 3]
  {
    assert s[..i + 3][..i] == s[..i] && s[..i + 3][i..] == s[i..i + 3];
  }

  /** The first `i` digits grouped, with the comma that is due before the next ones. */
  function GroupedTo(s: string, i: nat): string
    requires i <= |s|
  {
    if i == 0 then "" else if i < |s| then Grouped(s[..i]) + "," else Grouped(s[..i])
  }

  lemma GroupedToStep(s: string, i: nat)
    requires i + 3 <= |s|
    ensures GroupedTo(s, i + 3) == GroupedTo(s, i) + s[i..i + 3] + if i + 3 < |s| then "," else ""
  {
    GroupedStep(s, i);
  }

  method WithThousandsSeparator(n: nat) returns (b: string)
    ensures b == Grouped(Digits(n))
  {
    b := InsertCommas(Digits(n));
  }

  method InsertCommas(s: string) returns (b: string)
    ensures b == Grouped(s)
  {
    if |s| <= 3 { return s; }
    b := "";
    var pre := |s| % 3;
    if pre > 0 { b := s[..pre] + ","; }
    var i := pre;
    while i < |s|
      invariant pre <= i <= |s| && (|s| - i) % 3 == 0
      invariant b == GroupedTo(s, i)
    {
      GroupedToStep(s, i);
      b := b + s[i..i + 3];
      if i + 3 < |s| { b := b + ","; }
      i := i + 3;
    }
    assert s[..|s|] == s;
  }

  lemma {:induction false} ValueOfGroupedThen(s: string, rest: string)
    ensures Value(Grouped(s) + rest) == Value(s + rest)
    decreases |s|, |rest|
  {
    if rest != "" {
      var front, c := rest[..|rest| - 1], rest[|rest| - 1];
      ValueOfGroupedThen(s, front);
      assert Grouped(s) + rest == (Grouped(s) + front) + [c] && s + rest == (s + front) + [c];
      ValueSnoc(Grouped(s) + front, c);
      ValueSnoc(s + front, c);
    } else {
      assert Grouped(s) + rest == Grouped(s) && s + rest == s;
      if |s| > 3 {
        var head, tail := s[..|s| - 3], s[|s| - 3..];
        ValueOfGroupedThen(head, "," + tail);
        assert Grouped(s) == Grouped(head) + ("," + tail);
        ValueSkipsComma(head, tail);
        assert s == head + tail;
      }
    }
  }

  lemma {:induction false} ValueSkipsComma(head: string, tail: string)
    ensures Value(head + ("," + tail)) == Value(head + tail)
  {
    if tail == "" {
      assert head + ("," + tail) == head + [','] && head + tail == head;
      ValueSnoc(head, ',');
    } else {
      var front, c := tail[..|tail| - 1], tail[|tail| - 1];
      ValueSkipsComma(head, front);
      assert head + ("," + tail) == (head + ("," + front)) + [c] && head + tail == (head + front) + [c];
      ValueSnoc(head + ("," + front), c);
      ValueSnoc(head + front, c);
    }
  }

  /** Commas stand exactly at every fourth place from the right. */
  lemma {:induction false} CommasEveryThree(s: string, k: nat)
    requires ',' !in s && k < |Grouped(s)|
    ensures Grouped(s)[|Grouped(s)| - 1 - k] == ',' <==> k % 4 == 3
  {
    if |s| > 3 {
      var head, tail := s[..|s| - 3], s[|s| - 3..];
      if k >= 4 { CommasEveryThree(head, k - 4); }
    }
  }

  // ---------- money ----------

  function Abs(n: int): nat {
    if n < 0 then -n else n
  }

  function Minor(cents: nat): string {
    [DigitChar(cents % 100 / 10), DigitChar(cents % 10)]
  }

  function Sign(cents: int): string {
    if cents < 0 then "-" else ""
  }

  function FormatMoney(cents: int, currency: string): string {
    Sign(cents) + Grouped(Digits(Abs(cents) / 100)) + "." + Minor(Abs(cents)) + " " + currency
  }

  /** The amount alone, without sign and currency. */
  function Amount(cents: nat): string {
    Grouped(Digits(cents / 100)) + "." + Minor(cents)
  }

  lemma ValueAppendMinor(s: string, cents: nat)
    ensures Value(s + "." + Minor(cents)) == 100 * Value(s) + cents % 100
  {
    var tens, ones := DigitChar(cents % 100 / 10), DigitChar(cents % 10);
    ValueSnoc(s, '.');
    ValueSnoc(s + ['.'], tens);
    ValueSnoc(s + ['.'] + [tens], ones);
    assert s + "." + Minor(cents) == s + ['.'] + [tens] + [ones];
  }

  lemma AmountReadsBack(cents: nat)
    ensures Value(Amount(cents)) == cents
  {
    var d := Digits(cents / 100);
    ValueOfGroupedThen(d, "");
    assert Grouped(d) + "" == Grouped(d) && d + "" == d;
    ValueOfDigits(cents / 100);
    ValueAppendMinor(Grouped(d), cents);
  }

  /** Printed money reads back to the cent: sign, amount, a space, the currency. */
  lemma MoneyReadsBack(cents: int, currency: string)
    ensures FormatMoney(cents, currency) == Sign(cents) + Amount(Abs(cents)) + " " + currency
    ensures Value(Amount(Abs(cents))) == Abs(cents)
  {
    AmountReadsBack(Abs(cents));
    var sign := Sign(cents);
    var g, m := Grouped(Digits(Abs(cents) / 100)), Minor(Abs(cents));
    assert sign + g + "." + m == sign + (g + "." + m);
  }

  /** In one currency no two amounts print alike. */
  lemma MoneyPrintsApart(a: int, b: int, currency: string)
    requires FormatMoney(a, currency) == FormatMoney(b, currency)
    ensures a == b
  {
    MoneyReadsBack(a, currency);
    MoneyReadsBack(b, currency);
    var x, y := Sign(a) + Amount(Abs(a)), Sign(b) + Amount(Abs(b));
    var tail := " " + currency;
    assert FormatMoney(a, currency) == x + tail && FormatMoney(b, currency) == y + tail;
    assert x == (x + tail)[..|x + tail| - |tail|] && y == (y + tail)[..|y + tail| - |tail|];
    ValueSkipsSign(Sign(a), Amount(Abs(a)));
    ValueSkipsSign(Sign(b), Amount(Abs(b)));
  }

  lemma ValueSkipsSign(sign: string, s: string)
    requires sign == "" || sign == "-"
    ensures Value(sign + s) == Value(s)
  {
    if sign == "" { assert sign + s == s; } else { ValueSkipsMinus(s); }
  }

  lemma {:induction false} ValueSkipsMinus(s: string)
    ensures Value("-" + s) == Value(s)
  {
    if s == "" {
      assert "-" + s == "" + ['-'];
      ValueSnoc("", '-');
    } else {
      var front, c := s[..|s| - 1], s[|s| - 1];
      ValueSkipsMinus(front);
      assert "-" + s == ("-" + front) + [c] && s == front + [c];
      hide Value;
      ValueSnoc("-" + front, c);
      ValueSnoc(front, c);
    }
  }
}
