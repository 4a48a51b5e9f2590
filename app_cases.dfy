/**
 * The concrete cases of the component's test suite, stated over the model.
 */
module AppCases {
  import opened Wrappers
  import opened Rates
  import opened Display

  /** No props: empty name and rate cards, an empty final rate, and no banner. */
  lemma NoInputs()
    ensures BusinessRate(None) == None
    ensures FinalRate(BusinessRate(None), None) == None
    ensures !HasSpecialRate(None)
  {
  }

  /** A name alone: the base rate and the final rate show the same number. */
  lemma NameOnly()
    ensures BusinessRate(Some("Nandos")) == Some(10)
    ensures FinalRate(BusinessRate(Some("Nandos")), None) == Some(10.0)
    ensures BusinessRate(Some("McDonalds")) == Some(15)
    ensures FinalRate(BusinessRate(Some("McDonalds")), None) == Some(15.0)
    ensures BusinessRate(Some("Some Other Business")) == Some(20)
    ensures FinalRate(BusinessRate(Some("Some Other Business")), None) == Some(20.0)
  {
  }

  /** Which names get the special offer. */
  lemma SpecialNamesCases()
    ensures HasSpecialRate(Some("Nandos"))
    ensures HasSpecialRate(Some("McDonalds"))
    ensures !HasSpecialRate(Some("Some Other Business"))
    ensures !HasSpecialRate(Some("Regular Business"))
    ensures !HasSpecialRate(Some("nandos"))
    ensures !HasSpecialRate(Some(""))
  {
  }

  /** A discount alone: the rates stay absent. */
  lemma DiscountOnly()
    ensures BusinessRate(None) == None
    ensures FinalRate(BusinessRate(None), Some(10.0)) == None
    ensures FinalRate(BusinessRate(None), Some(20.0)) == None
  {
  }

  /** Name and discount: the six computed final rates. */
  lemma NameAndDiscount()
    ensures FinalRate(BusinessRate(Some("Nandos")), Some(10.0)) == Some(9.0)
    ensures FinalRate(BusinessRate(Some("Nandos")), Some(50.0)) == Some(5.0)
    ensures FinalRate(BusinessRate(Some("McDonalds")), Some(10.0)) == Some(13.5)
    ensures FinalRate(BusinessRate(Some("McDonalds")), Some(20.0)) == Some(12.0)
    ensures FinalRate(BusinessRate(Some("Some Other Business")), Some(10.0)) == Some(18.0)
    ensures FinalRate(BusinessRate(Some("Another Business")), Some(25.0)) == Some(15.0)
  {
  }

  /** Edge cases: a zero discount is ignored, a full discount gives 0. */
  lemma DiscountEdges()
    ensures FinalRate(BusinessRate(Some("Nandos")), Some(0.0)) == Some(10.0)
    ensures FinalRate(BusinessRate(Some("Nandos")), Some(100.0)) == Some(0.0)
  {
  }

  /**
   * The click scenarios: each test mounts, presses "Reveal Offer" and looks
   * for the banner, which appears only for the listed names.
   */
  method RevealScenarios()
    returns (nandos: View, mcdonalds: View, regular: View, discountOnly: View, noInputs: View)
    ensures nandos.bannerShown && nandos.finalRate == Some(10.0)
    ensures mcdonalds.bannerShown && mcdonalds.finalRate == Some(12.75)
    ensures !regular.bannerShown && regular.finalRate == Some(18.0)
    ensures !discountOnly.bannerShown && discountOnly.rate == None
    ensures !noInputs.bannerShown && noInputs.finalRate == None
  {
    var before;
    before, nandos := MountAndReveal(Some("Nandos"), None);
    before, mcdonalds := MountAndReveal(Some("McDonalds"), Some(15.0));
    before, regular := MountAndReveal(Some("Regular Business"), Some(10.0));
    before, discountOnly := MountAndReveal(None, Some(20.0));
    before, noInputs := MountAndReveal(None, None);
  }
}
