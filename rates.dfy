/**
 * The derived values of the rate display component: the base business rate
 * looked up from the business name, the special-offer eligibility of that
 * name, and the final rate after an optional percentage discount.
 *
 * Numbers are modelled over exact `int` and `real`: rates as `int` (the
 * table only holds whole numbers), discounts and final rates as `real`.
 */
module Rates {
  import opened Wrappers

  /** The two business names that qualify for the special offer, in source order. */
  const SpecialNames: seq<string> := ["Nandos", "McDonalds"]

  /** Rates of the listed businesses; every other non-empty name gets DefaultRate. */
  const RateTable: map<string, int> := map["Nandos" := 10, "McDonalds" := 15]
  const DefaultRate: int := 20

  /** JavaScript truthiness of an optional string: present and non-empty. */
  predicate NameIsTruthy(name: Option<string>)
  {
    name.Some? && name.value != ""
  }

  /** JavaScript truthiness of an optional number: present and not zero. */
  predicate RateIsTruthy(rate: Option<int>)
  {
    rate.Some? && rate.value != 0
  }

  predicate DiscountIsTruthy(discount: Option<real>)
  {
    discount.Some? && discount.value != 0.0
  }

  /** An optional integer rate seen as an optional real number. */
  function AsReal(rate: Option<int>): Option<real>
  {
    match rate
    case None => None
    case Some(r) => Some(r as real)
  }

  /** `Array.prototype.includes` on a list of strings: a linear search. */
  function Includes(xs: seq<string>, x: string): (found: bool)
    ensures found <==> x in xs
  {
    if |xs| == 0 then false
    else xs[0] == x || Includes(xs[1..], x)
  }

  /**
   * Special-offer eligibility: an absent name is never in the list, and a
   * present one must equal a listed name exactly (case-sensitive).
   */
  function HasSpecialRate(name: Option<string>): (special: bool)
    ensures special <==> name == Some("Nandos") || name == Some("McDonalds")
  {
    name.Some? && Includes(SpecialNames, name.value)
  }

  /**
   * The base rate of a business: absent for a falsy name, then an
   * if/else chain on the two listed names with 20 for every other name.
   */
  function BusinessRate(name: Option<string>): (rate: Option<int>)
    ensures rate.None? <==> !NameIsTruthy(name)
    ensures rate.Some? ==> rate.value in {10, 15, 20}
  {
    if NameIsTruthy(name) then
      if name.value == "Nandos" then Some(10)
      else if name.value == "McDonalds" then Some(15)
      else Some(20)
    else
      None
  }

  /**
   * The final rate: when both the rate and the discount are truthy the
   * discount is taken off as a percentage; otherwise the rate is passed on
   * unchanged, absent included.
   */
  function FinalRate(rate: Option<int>, discount: Option<real>): (final: Option<real>)
    ensures final.None? <==> rate.None?
    ensures !DiscountIsTruthy(discount) ==> final == AsReal(rate)
    ensures rate.Some? && discount.Some? ==>
              final == Some(rate.value as real * (100.0 - discount.value) / 100.0)
  {
    if RateIsTruthy(rate) && DiscountIsTruthy(discount) then
      Some(rate.value as real - (rate.value as real * discount.value) / 100.0)
    else
      AsReal(rate)
  }

  /** The rate table read as a map with a default, against the if/else chain. */
  lemma BusinessRateMatchesTable(name: Option<string>)
    ensures BusinessRate(name) ==
              if !NameIsTruthy(name) then None
              else if name.value in RateTable then Some(RateTable[name.value])
              else Some(DefaultRate)
  {
  }

  /**
   * A present rate is positive, hence truthy: the `businessRate &&` half of
   * the final-rate test only ever rules out an absent rate.
   */
  lemma BusinessRateIsTruthy(name: Option<string>)
    ensures BusinessRate(name).Some? ==> BusinessRate(name).value > 0
    ensures RateIsTruthy(BusinessRate(name)) <==> BusinessRate(name).Some?
  {
  }

  /** The special offer goes exactly with the two lower rates of the table. */
  lemma SpecialIffLowerRate(name: Option<string>)
    ensures HasSpecialRate(name) <==> BusinessRate(name) == Some(10) || BusinessRate(name) == Some(15)
  {
  }

  /** The final rate of a business is present exactly when its base rate is, whatever the discount. */
  lemma FinalRateDefinedIff(name: Option<string>, discount: Option<real>)
    ensures FinalRate(BusinessRate(name), discount).Some? <==> BusinessRate(name).Some?
    ensures FinalRate(BusinessRate(name), discount).None? <==> !NameIsTruthy(name)
  {
  }

  /**
   * The zero-discount behaviour on its own: the two falsy discounts the
   * component can receive, absent and 0, give the base rate exactly. This
   * is the case of `FinalRate`'s pass-through clause that the component's
   * callers rely on, stated without the truthiness predicate.
   */
  lemma NoDiscountKeepsRate(rate: Option<int>, discount: Option<real>)
    requires discount == None || discount == Some(0.0)
    ensures FinalRate(rate, discount) == AsReal(rate)
  {
  }

  /**
   * Treating a zero discount as "no discount" does not change the value:
   * for every present rate and present discount, zero included, the final
   * rate is the component's own expression `r - r*d/100`, whichever branch
   * of the test is taken. `FinalRate` states the factored form; this lemma
   * ties it back to the expression as written.
   */
  lemma FormulaForEveryPresentDiscount(r: int, d: real)
    ensures FinalRate(Some(r), Some(d)) == Some(r as real - (r as real * d) / 100.0)
  {
  }

  /** A full discount brings any present rate down to 0. */
  lemma FullDiscountIsZero(r: int)
    ensures FinalRate(Some(r), Some(100.0)) == Some(0.0)
  {
  }

  /** For a discount between 0 and 100 the final rate lies between 0 and the base rate. */
  lemma FinalRateWithinBase(r: int, d: real)
    requires r >= 0 && 0.0 <= d <= 100.0
    ensures FinalRate(Some(r), Some(d)).Some?
    ensures 0.0 <= FinalRate(Some(r), Some(d)).value <= r as real
  {
    var x := r as real;
    FormulaForEveryPresentDiscount(r, d);
    assert x * d <= x * 100.0;
    assert 0.0 <= x - (x * d) / 100.0 <= x;
  }

  /** There is no clamping: outside [0, 100] the final rate leaves [0, rate]. */
  lemma NoClamping(r: int, d: real)
    requires r > 0 && (d < 0.0 || d > 100.0)
    ensures FinalRate(Some(r), Some(d)).Some?
    ensures d > 100.0 ==> FinalRate(Some(r), Some(d)).value < 0.0
    ensures d < 0.0 ==> FinalRate(Some(r), Some(d)).value > r as real
  {
    var x := r as real;
    if d > 100.0 {
      assert x * d > x * 100.0;
    } else {
      assert x * d < 0.0;
    }
  }

  /** For a positive rate, a larger discount always gives a strictly lower final rate. */
  lemma DiscountIsStrictlyMonotone(r: int, d1: real, d2: real)
    requires r > 0 && d1 < d2
    ensures FinalRate(Some(r), Some(d2)).value < FinalRate(Some(r), Some(d1)).value
  {
    var x := r as real;
    assert x * d1 < x * d2;
  }

  /**
   * Algebra about the discount formula, not something the component does:
   * unless the discount is 100, the formula loses no information, since
   * the base rate equals `f * 100 / (100 - d)` for the final rate `f`.
   */
  lemma FinalRateInverse(r: int, d: real)
    requires d != 100.0
    ensures FinalRate(Some(r), Some(d)).Some?
    ensures FinalRate(Some(r), Some(d)).value * 100.0 / (100.0 - d) == r as real
  {
    var x, k := r as real, 100.0 - d;
    var f := FinalRate(Some(r), Some(d)).value;
    assert f * 100.0 == x * k;
    assert (x * k) / k == x;
  }
}
