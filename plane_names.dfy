/**
 * The names `'plane-' + planeId` that the reconciler gives plane entities:
 * a JavaScript number rendered in decimal, without leading zeros.
 */
module PlaneNames {

  function DigitChar(d: nat): char
    requires d < 10
  {
    "0123456789"[d]
  }

  /** The decimal rendering of `n`. */
  function Decimal(n: nat): (s: string)
    ensures |s| >= 1
    decreases n
  {
    if n < 10 then [DigitChar(n)] else Decimal(n / 10) + [DigitChar(n % 10)]
  }

  function PlaneName(n: nat): string {
    "plane-" + Decimal(n)
  }

  lemma DigitCharInjective(a: nat, b: nat)
    requires a < 10 && b < 10
    requires DigitChar(a) == DigitChar(b)
    ensures a == b
  {
  }

  /** Different numbers have different decimal renderings. */
  lemma {:induction false} DecimalInjective(a: nat, b: nat)
    requires Decimal(a) == Decimal(b)
    ensures a == b
    decreases a
  {
    var s := Decimal(a);
    if a < 10 && b < 10 {
      DigitCharInjective(a, b);
    } else if a >= 10 && b >= 10 {
      var n := |s| - 1;
      assert Decimal(a)[..n] == Decimal(a / 10);
      assert Decimal(b)[..n] == Decimal(b / 10);
      DecimalInjective(a / 10, b / 10);
      assert s[n] == DigitChar(a % 10) && s[n] == DigitChar(b % 10);
      DigitCharInjective(a % 10, b % 10);
    }
  }

  /** Distinct counter values give distinct names. */
  lemma PlaneNameInjective(a: nat, b: nat)
    requires a != b
    ensures PlaneName(a) != PlaneName(b)
  {
    if PlaneName(a) == PlaneName(b) {
      assert PlaneName(a)[6..] == Decimal(a);
      assert PlaneName(b)[6..] == Decimal(b);
      DecimalInjective(a, b);
    }
  }
}
