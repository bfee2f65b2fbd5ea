/** Decimal numerals, and names made fresh by appending underscores. */
module Names {

  function Digit(n: nat): char
    requires n < 10
  {
    "0123456789"[n]
  }

  /** A non-negative number as Python's `str` writes it. */
  function Decimal(n: nat): string
  {
    if n < 10 then [Digit(n)] else Decimal(n / 10) + [Digit(n % 10)]
  }

  lemma DigitInjective(m: nat, n: nat)
    requires m < 10 && n < 10 && Digit(m) == Digit(n)
    ensures m == n
  {
  }

  lemma {:induction false} DecimalNonEmpty(n: nat)
    ensures |Decimal(n)| > 0
    ensures |Decimal(n)| == 1 <==> n < 10
  {
    if n >= 10 {
      DecimalNonEmpty(n / 10);
    }
  }

  lemma {:induction false} DecimalInjective(m: nat, n: nat)
    requires Decimal(m) == Decimal(n)
    ensures m == n
  {
    DecimalNonEmpty(m);
    DecimalNonEmpty(n);
    if m < 10 {
      DigitInjective(m, n);
    } else {
      var dm, dn := Decimal(m), Decimal(n);
      assert dm[..|dm| - 1] == Decimal(m / 10);
      assert dn[..|dn| - 1] == Decimal(n / 10);
      DecimalInjective(m / 10, n / 10);
      assert dm[|dm| - 1] == Digit(m % 10) && dn[|dn| - 1] == Digit(n % 10);
      DigitInjective(m % 10, n % 10);
    }
  }

  /** `base` and nothing after it but underscores. */
  predicate Padded(base: string, name: string)
  {
    base <= name && forall i :: |base| <= i < |name| ==> name[i] == '_'
  }

  /** `base` with underscores appended until it is not in `taken`: every
      shorter candidate is. */
  method Fresh(base: string, taken: set<string>) returns (name: string)
    ensures name !in taken && Padded(base, name)
    ensures forall k :: |base| <= k < |name| ==> name[..k] in taken
  {
    name := base;
    while name in taken
      invariant Padded(base, name)
      invariant forall k :: |base| <= k < |name| ==> name[..k] in taken
      decreases set s | s in taken && |s| >= |name|
    {
      ghost var longer := set s | s in taken && |s| >= |name|;
      assert name in longer;
      ghost var was := name;
      name := name + "_";
      forall k | |base| <= k < |name| ensures name[..k] in taken {
        assert name[..k] == if k == |was| then was else was[..k];
      }
    }
  }
}
