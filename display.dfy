/**
 * The rate display component as an object. In this model the two inputs
 * are constants set when the object is created, and the one piece of
 * state, the reveal flag, goes from false to true when the "Reveal Offer"
 * button is pressed and never back.
 */
module Display {
  import opened Wrappers
  import opened Rates

  /** What one render of the component shows, without the markup. */
  datatype View = View(
    name: Option<string>,       // business name card (empty when absent)
    rate: Option<int>,          // business rate card (empty when absent)
    bannerShown: bool,          // the special-offer banner
    finalRate: Option<real>)    // final rate container (empty when absent)

  class RateDisplay {
    const businessName: Option<string>
    const discountRate: Option<real>
    var revealOffer: bool

    /** Mounting the component: the offer starts hidden. */
    constructor (businessName: Option<string>, discountRate: Option<real>)
      ensures this.businessName == businessName && this.discountRate == discountRate
      ensures !revealOffer
      ensures !BannerShown()
    {
      this.businessName := businessName;
      this.discountRate := discountRate;
      revealOffer := false;
    }

    function Rate(): Option<int>
    {
      BusinessRate(businessName)
    }

    /** The banner needs both the reveal and one of the two listed names. */
    function BannerShown(): (shown: bool)
      reads this
      ensures shown <==> revealOffer && (businessName == Some("Nandos") || businessName == Some("McDonalds"))
      ensures shown ==> Rate() == Some(10) || Rate() == Some(15)
    {
      revealOffer && HasSpecialRate(businessName)
    }

    /**
     * The button handler: sets the flag, and only the flag. A second press
     * changes nothing. The inputs are constants, so the rate, the
     * eligibility and the final rate cannot change either.
     */
    method Reveal()
      modifies this
      ensures revealOffer
      ensures old(revealOffer) ==> unchanged(this)
      ensures BannerShown() <==> HasSpecialRate(businessName)
    {
      revealOffer := true;
    }

    /** One render: every container and the banner, from the inputs and the flag. */
    function Render(): (view: View)
      reads this
      ensures view.rate.None? <==> !NameIsTruthy(businessName)
      ensures view.finalRate.None? <==> view.rate.None?
      ensures !DiscountIsTruthy(discountRate) ==> view.finalRate == AsReal(view.rate)
      ensures view.bannerShown ==> revealOffer
      ensures view.bannerShown ==> view.rate == Some(10) || view.rate == Some(15)
    {
      View(businessName, Rate(), BannerShown(), FinalRate(Rate(), discountRate))
    }
  }

  /**
   * Mount the component, render, press "Reveal Offer" and render again:
   * the banner is hidden at first, shown afterwards exactly for the two
   * listed names, and nothing else on the screen changes.
   */
  method MountAndReveal(name: Option<string>, discount: Option<real>)
    returns (before: View, after: View)
    ensures !before.bannerShown
    ensures after.bannerShown <==> name == Some("Nandos") || name == Some("McDonalds")
    ensures before.name == after.name == name
    ensures before.rate == after.rate == BusinessRate(name)
    ensures before.finalRate == after.finalRate == FinalRate(BusinessRate(name), discount)
  {
    var display := new RateDisplay(name, discount);
    before := display.Render();
    display.Reveal();
    after := display.Render();
  }
}
