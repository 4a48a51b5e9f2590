# Rate display component, modelled in Dafny

The repository's one component, `App`, receives an optional business name
and an optional discount percentage. It shows the name, a base business rate
looked up from the name, a "Reveal Offer" button, a special-offer banner,
and the final rate after the discount. This project models the decision
logic behind those values and proves what it promises:

- `wrappers.dfy`: `Option`, which stands for a TypeScript `T | undefined`.
- `rates.dfy` (module `Rates`): the pure rules.
  - `BusinessRate` follows the if/else chain: no rate for an absent or empty
    name, 10 for "Nandos", 15 for "McDonalds", 20 for every other name.
  - `HasSpecialRate` is the `includes` test on the two listed names. It is
    built on `Includes`, a linear search proved to equal list membership.
  - `FinalRate` is the ternary `businessRate && discountRate ? r - r*d/100 : businessRate`.
    It uses JavaScript truthiness, so an absent or zero discount, or an
    absent or zero rate, leaves the rate unchanged.
  - Lemmas relate these rules to a map-with-default reading of the rate
    table, to each other, and to the arithmetic of the discount: bounds, no
    clamping, monotonicity, and recovery of the base rate.
- `display.dfy` (module `Display`): class `RateDisplay`. Its inputs are
  constants and `revealOffer` is a mutable flag that starts false. `Reveal`
  models the button handler and `Render` the values one render shows.
  `MountAndReveal` creates the object, renders it, presses the button and
  renders again.
- `app_cases.dfy` (module `AppCases`): the concrete cases of
  `App.test.tsx`, stated as lemmas and one scenario method.

Numbers are exact. Rates are `int` and discounts and final rates are
`real`, so 13.5 and 18 come out exactly as the tests expect.

## Model

| member | source | states |
|---|---|---|
| `Rates.Includes` | breaking_the_component_monolith/src/App.tsx:11-13 | the list search answers true exactly when the string is an element of the list |
| `Rates.HasSpecialRate` | breaking_the_component_monolith/src/App.tsx:11-13 | eligibility holds exactly for the names "Nandos" and "McDonalds" (exact, case-sensitive); an absent name is never eligible |
| `Rates.BusinessRate` | breaking_the_component_monolith/src/App.tsx:15-27 | the rate is absent exactly when the name is absent or empty; a present rate is one of 10, 15, 20 |
| `Rates.FinalRate` | breaking_the_component_monolith/src/App.tsx:29-32 | the final rate is absent exactly when the base rate is; a falsy discount passes the rate through unchanged; for a present rate and discount the result is `r * (100 - d) / 100` |
| `Rates.BusinessRateMatchesTable` | breaking_the_component_monolith/src/App.tsx:18-26 | the if/else chain equals a lookup in the table {Nandos: 10, McDonalds: 15} with default 20, for every truthy name |
| `Rates.BusinessRateIsTruthy` | breaking_the_component_monolith/src/App.tsx:15-30 | a present rate is positive, so the rate half of the final-rate test is truthy exactly when the rate is present |
| `Rates.SpecialIffLowerRate` | breaking_the_component_monolith/src/App.tsx:11-26 | a name is eligible for the offer exactly when its rate is 10 or 15 |
| `Rates.FinalRateDefinedIff` | breaking_the_component_monolith/src/App.tsx:15-32 | for any discount, the final rate of a name is present exactly when its base rate is, that is, when the name is truthy |
| `Rates.NoDiscountKeepsRate` | breaking_the_component_monolith/src/App.tsx:29-32 | an absent or zero discount gives a final rate equal to the base rate exactly |
| `Rates.FormulaForEveryPresentDiscount` | breaking_the_component_monolith/src/App.tsx:29-32 | for every present rate and present discount, zero included, the final rate is `r - r*d/100`; treating 0 as "no discount" never changes the value |
| `Rates.FullDiscountIsZero` | breaking_the_component_monolith/src/App.tsx:31 | a 100 percent discount gives a final rate of 0 |
| `Rates.FinalRateWithinBase` | breaking_the_component_monolith/src/App.tsx:31 | for a non-negative rate and a discount in [0, 100] the final rate lies in [0, rate] |
| `Rates.NoClamping` | breaking_the_component_monolith/src/App.tsx:31 | the discount is not clamped: above 100 the final rate is negative, below 0 it exceeds the base rate |
| `Rates.DiscountIsStrictlyMonotone` | breaking_the_component_monolith/src/App.tsx:31 | for a positive rate a larger discount gives a strictly lower final rate |
| `Rates.FinalRateInverse` | breaking_the_component_monolith/src/App.tsx:31 | algebra about the discount formula (the component never inverts it): for any discount other than 100, `f * 100 / (100 - d)` gives back the base rate |
| `Display.RateDisplay.constructor` | breaking_the_component_monolith/src/App.tsx:34 | mounting keeps the inputs and starts with the offer hidden and the banner not shown |
| `Display.RateDisplay.BannerShown` | breaking_the_component_monolith/src/App.tsx:43-46 | the banner is shown exactly when the offer is revealed and the name is "Nandos" or "McDonalds"; a shown banner implies a rate of 10 or 15 |
| `Display.RateDisplay.Reveal` | breaking_the_component_monolith/src/App.tsx:42 | the handler sets the flag to true and changes nothing else; pressing again changes nothing; afterwards the banner is shown exactly for an eligible name |
| `Display.RateDisplay.Render` | breaking_the_component_monolith/src/App.tsx:36-48 | in one render the rate card is empty exactly for a falsy name, the final rate is empty exactly when the rate is and equals it for a falsy discount, and a shown banner implies the offer was revealed and the rate is 10 or 15 |
| `Display.MountAndReveal` | breaking_the_component_monolith/src/App.tsx:34-46 | the banner is hidden before the button is pressed and shown afterwards exactly for the two listed names; the name, rate and final rate do not change |
| `AppCases.NoInputs` | breaking_the_component_monolith/src/App.test.tsx:15-42 | with no inputs the rate and the final rate are absent and the name is not eligible |
| `AppCases.NameOnly` | breaking_the_component_monolith/src/App.test.tsx:46-65 | a name alone gives base and final rates 10, 15 and 20 for Nandos, McDonalds and any other name |
| `AppCases.SpecialNamesCases` | breaking_the_component_monolith/src/App.test.tsx:67-106 | Nandos and McDonalds are eligible; other names, a different letter case and the empty name are not |
| `AppCases.DiscountOnly` | breaking_the_component_monolith/src/App.test.tsx:109-127 | a discount alone leaves both rates absent |
| `AppCases.NameAndDiscount` | breaking_the_component_monolith/src/App.test.tsx:130-177 | the six computed final rates: 9, 5, 13.5, 12, 18 and 15 |
| `AppCases.RevealScenarios` | breaking_the_component_monolith/src/App.test.tsx:24-210 | after pressing "Reveal Offer" the banner is shown for Nandos and McDonalds and not for another name, a discount alone or no inputs, with the final rates those tests render |
| `AppCases.DiscountEdges` | breaking_the_component_monolith/src/App.test.tsx:213-225 | a zero discount leaves 10 unchanged and a full discount gives 0 |

## Left out

- JSX markup: the headings, the `card` divs and the button wiring are not modelled. `Render` returns the values they display.
- React hook mechanics: re-rendering on `useState` updates is not modelled. The flag is a plain mutable field and each render is an explicit `Render` call.
- Prop changes while mounted are not modelled. `RateDisplay`'s inputs are constants. In the component a parent may pass new props; `revealOffer` keeps its value and the banner then follows the new name, with no second press.
- Unmounting and remounting are not modelled. A fresh `RateDisplay` stands for a remount.
- IEEE-754 doubles: rounding, `NaN` and infinite discounts, and `-0` are not modelled. The arithmetic is exact over `real`. `NaN` would be falsy like 0 and take the no-discount branch.
- Non-number values passed through the TypeScript casts are not modelled. The name is either absent or a string, and the discount is either absent or a number.
- The test harness (rendering, DOM queries, simulated clicks) is not modelled. Its assertions appear as the lemmas of `AppCases` and the method `AppCases.RevealScenarios`.
