/** Numbers written out in decimal, and how such texts compare. */
module Decimals {
  import opened Outcomes

  const DIGITS := "0123456789"

  predicate IsDigit(c: char) {
    '0' <= c <= '9'
  }

  function DigitValue(c: char): nat
    requires IsDigit(c)
  {
    c as int - '0' as int
  }

  function Decimal(n: nat): (text: string)
    ensures text != "" && forall c | c in text :: IsDigit(c)
  {
    if n < 10 then [DIGITS[n]] else Decimal(n / 10) + [DIGITS[n % 10]]
  }

  function Value(text: string): nat
    requires forall c | c in text :: IsDigit(c)
  {
    if text == "" then 0 else 10 * Value(text[..|text| - 1]) + DigitValue(text[|text| - 1])
  }

  /** Reading a number back; anything but digits is refused. */
  function Parse(text: string): Option<nat> {
    if text != "" && forall c | c in text :: IsDigit(c) then Some(Value(text)) else None
  }

  lemma {:induction false} ValueOfDecimal(n: nat)
    ensures Value(Decimal(n)) == n
  {
    if n >= 10 {
      ValueOfDecimal(n / 10);
      assert Decimal(n)[..|Decimal(n)| - 1] == Decimal(n / 10);
    } else {
      assert Decimal(n)[..0] == "";
    }
  }

  lemma ParseDecimal(n: nat)
    ensures Parse(Decimal(n)) == Some(n)
  {
    ValueOfDecimal(n);
  }

  /** Texts compare character by character, a proper prefix first. */
  predicate TextLe(a: string, b: string) {
    if a == "" then true
    else if b == "" then false
    else if a[0] != b[0] then a[0] < b[0]
    else TextLe(a[1..], b[1..])
  }

  function Pow10(n: nat): nat {
    if n == 0 then 1 else 10 * Pow10(n - 1)
  }

  lemma Distributes(d: nat, p: nat, rest: nat)
    ensures 10 * (d * p + rest) == d * (10 * p) + 10 * rest
  {
  }

  lemma {:induction false} ValueSplits(text: string)
    requires text != "" && forall c | c in text :: IsDigit(c)
    ensures Value(text) == DigitValue(text[0]) * Pow10(|text| - 1) + Value(text[1..])
  {
    if |text| > 1 {
      var init := text[..|text| - 1];
      ValueSplits(init);
      assert text[1..][..|text| - 2] == init[1..];
      assert text[1..][|text| - 2] == text[|text| - 1];
      Distributes(DigitValue(text[0]), Pow10(|text| - 2), Value(init[1..]));
    } else {
      assert text[..0] == "" && text[1..] == "";
    }
  }

  lemma {:induction false} ValueBound(text: string)
    requires forall c | c in text :: IsDigit(c)
    ensures Value(text) < Pow10(|text|)
  {
    if text != "" {
      var init := text[..|text| - 1];
      ValueBound(init);
      assert Pow10(|text|) == 10 * Pow10(|init|);
      assert text[|text| - 1] in text;
    }
  }

  /** Decimal texts of one width compare as the numbers do. */
  lemma {:induction false} SameWidthCompares(a: string, b: string)
    requires |a| == |b| && (forall c | c in a :: IsDigit(c)) && forall c | c in b :: IsDigit(c)
    ensures TextLe(a, b) <==> Value(a) <= Value(b)
  {
    if a != "" {
      SameWidthCompares(a[1..], b[1..]);
      ValueSplits(a);
      ValueSplits(b);
      ValueBound(a[1..]);
      ValueBound(b[1..]);
      var p := Pow10(|a| - 1);
      FirstDigitDecides(DigitValue(a[0]), DigitValue(b[0]), p, Value(a[1..]), Value(b[1..]));
      FirstDigitDecides(DigitValue(b[0]), DigitValue(a[0]), p, Value(b[1..]), Value(a[1..]));
    }
  }

  lemma FirstDigitDecides(x: nat, y: nat, p: nat, r: nat, s: nat)
    requires r < p && s < p
    ensures x < y ==> x * p + r < y * p + s
  {
    if x < y {
      assert y * p >= (x + 1) * p == x * p + p;
    }
  }

  // ---- numbers of different width --------------------------------------------------

  lemma {:induction false} TextTotal(a: string, b: string)
    ensures TextLe(a, b) || TextLe(b, a)
    ensures TextLe(a, b) && TextLe(b, a) ==> a == b
  {
    if a != "" && b != "" && a[0] == b[0] {
      TextTotal(a[1..], b[1..]);
      assert a == [a[0]] + a[1..] && b == [b[0]] + b[1..];
    }
  }

  lemma {:induction false} WidthGrows(m: nat, n: nat)
    requires m <= n
    ensures |Decimal(m)| <= |Decimal(n)|
  {
    if n >= 10 && m >= 10 {
      WidthGrows(m / 10, n / 10);
    }
  }

  /** Against a longer text, only its beginning matters. */
  lemma {:induction false} TextLePrefix(a: string, b: string)
    requires |a| < |b|
    ensures TextLe(a, b) <==> TextLe(a, b[..|a|])
  {
    if a != "" {
      TextLePrefix(a[1..], b[1..]);
      assert b[..|a|][1..] == b[1..][..|a| - 1];
    }
  }

  /** The wider number begins with a number less than the narrower one. */
  predicate LeadsBehind(narrow: nat, wide: nat) {
    |Decimal(narrow)| < |Decimal(wide)| && Value(Decimal(wide)[..|Decimal(narrow)|]) < narrow
  }

  lemma NarrowCompares(narrow: nat, wide: nat)
    requires |Decimal(narrow)| < |Decimal(wide)|
    ensures narrow < wide
    ensures TextLe(Decimal(narrow), Decimal(wide)) <==> !LeadsBehind(narrow, wide)
  {
    var a, b := Decimal(narrow), Decimal(wide);
    if wide <= narrow {
      WidthGrows(wide, narrow);
    }
    TextLePrefix(a, b);
    assert forall c | c in b[..|a|] :: c in b;
    SameWidthCompares(a, b[..|a|]);
    ValueOfDecimal(narrow);
  }

  /** Two numbers compare as texts as they do as numbers exactly when the wider one does not begin with a
      number less than the narrower one. */
  lemma TextComparesExactly(m: nat, n: nat)
    ensures (TextLe(Decimal(m), Decimal(n)) <==> m <= n) <==> !LeadsBehind(m, n) && !LeadsBehind(n, m)
  {
    hide TextLe, Decimal, Value;
    ValueOfDecimal(m);
    ValueOfDecimal(n);
    if |Decimal(m)| < |Decimal(n)| {
      NarrowCompares(m, n);
    } else if |Decimal(n)| < |Decimal(m)| {
      NarrowCompares(n, m);
      TextTotal(Decimal(m), Decimal(n));
    } else {
      SameWidthCompares(Decimal(m), Decimal(n));
    }
  }
}
