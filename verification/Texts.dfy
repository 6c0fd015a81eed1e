/**
 * Comparison of texts character by character, which is what `localeCompare` comes to on the texts compared here, and
 * the order it gives numbered ids: `evt_10` comes before `evt_9`.
 */
module Texts {
  predicate NotAfter(a: string, b: string) {
    a == "" || (b != "" && (a[0] < b[0] || (a[0] == b[0] && NotAfter(a[1..], b[1..]))))
  }

  lemma {:induction false} Total(a: string, b: string)
    ensures NotAfter(a, b) || NotAfter(b, a)
  {
    if a != "" && b != "" && a[0] == b[0] { Total(a[1..], b[1..]); }
  }

  lemma {:induction false} Transitive(a: string, b: string, c: string)
    requires NotAfter(a, b) && NotAfter(b, c)
    ensures NotAfter(a, c)
  {
    if a != "" && a[0] == b[0] && b[0] == c[0] { Transitive(a[1..], b[1..], c[1..]); }
  }

  lemma {:induction false} Antisymmetric(a: string, b: string)
    requires NotAfter(a, b) && NotAfter(b, a)
    ensures a == b
  {
    if a != "" {
      Antisymmetric(a[1..], b[1..]);
      assert a == [a[0]] + a[1..] && b == [b[0]] + b[1..];
    }
  }

  // --- numbered ids ------------------------------------------------------------------------------------------------

  function Decimal(n: nat): (digits: string)
    ensures digits != ""
  {
    (if n < 10 then "" else Decimal(n / 10)) + ["0123456789"[n % 10]]
  }

  lemma {:induction false} DecimalInjective(a: nat, b: nat)
    requires Decimal(a) == Decimal(b)
    ensures a == b
    decreases a
  {
    var s, t := Decimal(a), Decimal(b);
    assert s[|s| - 1] == "0123456789"[a % 10] && t[|t| - 1] == "0123456789"[b % 10];
    assert s[..|s| - 1] == (if a < 10 then "" else Decimal(a / 10));
    assert t[..|t| - 1] == (if b < 10 then "" else Decimal(b / 10));
    DigitInjective(a % 10, b % 10);
    if a >= 10 && b >= 10 {
      DecimalInjective(a / 10, b / 10);
    }
  }

  lemma DigitInjective(a: nat, b: nat)
    requires a < 10 && b < 10 && "0123456789"[a] == "0123456789"[b]
    ensures a == b
  {
  }

  /** The text of an id after its prefix; ids are counted from 0 here and from 1 in these texts. */
  function IdText(id: nat): string {
    Decimal(id + 1)
  }

  predicate IdNotAfter(a: nat, b: nat) {
    NotAfter(IdText(a), IdText(b))
  }

  predicate IdBefore(a: nat, b: nat) {
    a != b && IdNotAfter(a, b)
  }

  lemma IdTotal(a: nat, b: nat)
    ensures IdNotAfter(a, b) || IdNotAfter(b, a)
  {
    Total(IdText(a), IdText(b));
  }

  lemma IdTransitive(a: nat, b: nat, c: nat)
    requires IdNotAfter(a, b) && IdNotAfter(b, c)
    ensures IdNotAfter(a, c)
  {
    Transitive(IdText(a), IdText(b), IdText(c));
  }

  lemma IdAntisymmetric(a: nat, b: nat)
    requires IdNotAfter(a, b) && IdNotAfter(b, a)
    ensures a == b
  {
    Antisymmetric(IdText(a), IdText(b));
    DecimalInjective(a + 1, b + 1);
  }

  /** The tenth id comes before the ninth. */
  lemma TenthFirst()
    ensures IdBefore(9, 8) && !IdBefore(8, 9)
  {
    assert Decimal(1) == "1";
    assert IdText(9) == "10" && IdText(8) == "9";
  }
}
