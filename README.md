# Plata discount engine, modelled in Dafny

This project models the discount engine of the Plata shop (`plata/discount/models.py`).
The engine has three parts:

- **Eligibility filter** (`eligible_products`). It takes the order items to be discounted and the
  discount's `config`, a map from rule key to that rule's parameters. It narrows the items'
  variations and the items themselves with each rule registered in `CONFIG_OPTIONS`: `all`,
  `exclude_sale`, `products` and `only_categories`. A candidate product is eligible when it has a
  surviving variation and a surviving order item. Eligibility is decided per product: every item
  of an eligible product is then discounted, including a sale-priced item whose product also has
  a regular-priced item in the order.
- **Allocator** (`apply`, `apply_amount_discount`, `apply_percentage_discount`). It adds to each
  eligible item's `_line_item_discount`. An amount discount first computes a single pool. For a
  value that includes tax, the pool is the value with the subtotal-weighted mean tax rate taken
  out. The pool is clamped to the eligible subtotal, the excess is recorded in `remaining`, and
  the items share the clamped pool in proportion to their subtotals. A percentage discount adds
  `subtotal * value/100` to each eligible item.
- **Validity check** of a discount code (`Discount.validate`). Four independent checks run:
  inactive, not yet valid, expired, and uses exhausted. The check fails with the reason of every
  check that fails.

Layout, one module per file:

- `wrappers.dfy`: `Option`, `Result`, `Outcome`.
- `orders.dfy`: the order-item class and the filter that picks the eligible items.
- `eligibility.dfy`: the rule registry, the meaning of each rule, and the eligible set as a function.
- `allocation.dfy`: the allocator as pure functions, which give each item's gain, the `remaining`
  write and the error, together with the lemmas about them.
- `validity.dfy`: the validity check as a filter over the fixed order of the checks.
- `discounts.dfy`: the `Discount` class. Its methods run the loops of the source and change the
  items and `remaining` in place. Each method is proved equal to the matching pure function.

Modelling choices:

- `DiscountBase` is an abstract Django model and `Discount` is its concrete subclass. They are
  merged into one class `Discount`.
- An order item is a class. Its row fields are constants and `lineItemDiscount` is its only
  mutable field.
- The items passed to `apply` must be distinct rows, meaning no id occurs twice.
- Money and rates are exact `real`s, and dates are day ordinals.
- `today` is an input to the validity check.
- A zero divisor is a failure, as in the source: the mean tax rate at line 142, `1 + rate/100` at
  line 143, or the distribution at line 157. Specifically:
  - An incl.-tax discount with no eligible items fails, because line 142 computes 0/0.
  - A zero eligible subtotal with eligible items fails at the first item.
  - When the distribution fails after a positive pool, `remaining` has already been set to the
    whole pool, because line 152 runs before line 157. A pool of zero or less leaves it unassigned.
- Nothing guards the distribution at line 157 against a zero eligible subtotal, so the model
  lets it fail there too.
- `if not products` treats a missing candidate collection and an empty one alike: both mean
  every product.
- `remaining` is not a declared model field in the file. The model makes it a `real` field that
  starts at 0.

## Model

| member | source | states |
|---|---|---|
| `Discounts.Discount.EligibleProducts` | plata/discount/models.py:90-115 | The loop over `config` narrows the variations and the order items rule by rule. The result is exactly `Eligible`: the candidates that have a surviving variation and a surviving item. |
| `Eligibility.EligibleWithinItemsAndCandidates` | plata/discount/models.py:100-115 | Every eligible product is the product of some given item. A non-empty candidate collection bounds the result. |
| `Eligibility.Restrict` | plata/discount/models.py:96-98 | A missing or empty candidate collection leaves the set unchanged. A non-empty one intersects it. The result never grows. |
| `Eligibility.RulesOnlyNarrow` | plata/discount/models.py:105-113 | Adding a rule under a new key never enlarges the eligible set. |
| `Eligibility.AllRuleIsNeutral` | plata/discount/models.py:35-37 | Configuring `all`, with any parameters, keeps the config well formed and leaves the eligible set unchanged. |
| `Eligibility.OnlyAllKeepsOrderedProducts` | plata/discount/models.py:105-115 | With only `all` configured, the eligible set is the candidates among the ordered products. This is the same result as an empty config. |
| `Eligibility.ExcludeSaleIsPerProduct` | plata/discount/models.py:38-41 | Under `exclude_sale`, a sale item's product is eligible as soon as another item of the same product is not on sale. |
| `Eligibility.ExcludeSaleRuleSelects` | plata/discount/models.py:38-41 | Configured alone, `exclude_sale` keeps the config well formed. It makes eligible exactly the products of the ordered items that are not on sale, within the candidates. A product whose items are all on sale is not eligible. |
| `Eligibility.ProductsRuleSelects` | plata/discount/models.py:42-56 | Configured alone, `products` keeps the config well formed. It makes eligible exactly the ordered products that are among the given products, within the candidates. |
| `Eligibility.OnlyCategoriesRuleSelects` | plata/discount/models.py:57-71 | Configured alone, `only_categories` keeps the config well formed. It makes eligible exactly the ordered products whose variation shares a category with the given categories, within the candidates. |
| `Orders.EligibleItemsMembers` | plata/discount/models.py:131-132 | The item filter keeps exactly the items whose product is eligible. It keeps rows distinct. |
| `Discounts.Discount.Apply` | plata/discount/models.py:117-128 | The new accumulators, the new `remaining` and the outcome are those `Allocate` gives for the type code. |
| `Allocation.ApplyToNoItems` | plata/discount/models.py:117-119 | With no items, nothing is assigned and nothing fails, whatever the type code. |
| `Allocation.UnknownTypeRejected` | plata/discount/models.py:121-128 | A type code other than 10, 20 and 30 fails with `UnknownType`. Nothing is assigned. |
| `Discounts.Discount.ApplyAmountDiscount` | plata/discount/models.py:130-157 | The accumulators, `remaining` and the outcome are those of `AmountAllocation` over the eligible products. Items that fail the filter keep their accumulators. |
| `Discounts.MeanTaxRateOf` | plata/discount/models.py:137-142 | The loop's dividend over its divisor is `MeanTaxRate`. A zero divisor fails. |
| `Allocation.MeanTaxRate` | plata/discount/models.py:137-142 | The rate times the eligible subtotal is the rate-weighted sum. It fails exactly when the subtotal is zero. |
| `Allocation.MeanTaxRateBetween` | plata/discount/models.py:135-142 | With nonnegative subtotals, the mean rate lies between the smallest and the largest tax rate. |
| `Discounts.AmountPoolOf` | plata/discount/models.py:134-145 | The pool computed step by step is `AmountPool`: a failure of the mean tax rate or a zero divisor `1 + rate/100` propagates as the error. |
| `Allocation.AmountPool` | plata/discount/models.py:134-145 | Excl. tax, the pool is `value`. Incl. tax, the pool times `1 + meanRate/100` is `value`. Incl. tax, it fails exactly when the eligible subtotal is zero or `1 + meanRate/100` is zero. Every failure is a division by zero. |
| `Allocation.UniformRatePool` | plata/discount/models.py:134-143 | When all eligible items share one tax rate, a nonzero subtotal gives that rate as the mean. The incl.-tax pool is then `value / (1 + rate/100)`. It fails exactly when the subtotal is zero or the rate is -100. |
| `Allocation.InclTaxPoolBounded` | plata/discount/models.py:142-143 | With nonnegative rates and subtotals, the incl.-tax pool lies between 0 and `value`. |
| `Allocation.AmountWithinSubtotal` | plata/discount/models.py:147-157 | When the pool fits the eligible subtotal, `remaining` is untouched. Each eligible item gains `subtotal / itemsSubtotal * pool` and every other item gains 0. The gains sum to the pool. |
| `Allocation.AmountBeyondSubtotal` | plata/discount/models.py:150-154 | When the pool exceeds the eligible subtotal, `remaining` becomes the excess and the pool is distributed with factor one. |
| `Allocation.WholeSubtotalGains` | plata/discount/models.py:154-157 | With factor one, each eligible item gains exactly its subtotal. Together the gains equal the eligible subtotal. |
| `Allocation.AmountFailsExactly` | plata/discount/models.py:142-157 | An amount discount fails exactly when the pool cannot be computed, or when eligible items have subtotals summing to zero. |
| `Allocation.AmountGainBounded` | plata/discount/models.py:150-157 | With nonnegative subtotals and pool, no item gains less than 0 or more than its own subtotal in one application. |
| `Discounts.AddShares` | plata/discount/models.py:156-157 | Each eligible item gains `subtotal * (discount / itemsSubtotal)`. A zero subtotal fails before anything changes. |
| `Allocation.GainsSum` | plata/discount/models.py:156-168 | Proportional gains sum to the eligible subtotal times the factor. |
| `Discounts.Discount.ApplyPercentageDiscount` | plata/discount/models.py:159-168 | The accumulators are those of `PercentageAllocation`. The call never fails and never touches `remaining`. |
| `Allocation.PercentageGainsExact` | plata/discount/models.py:159-168 | Each eligible item gains exactly `subtotal * value/100` and every other item gains 0. `remaining` is not assigned. |
| `Allocation.PercentageGainsTotal` | plata/discount/models.py:162-168 | Percentage gains sum to the eligible subtotal times `value/100`. |
| `Allocation.PercentageGainBounded` | plata/discount/models.py:162-168 | A percentage between 0 and 100 gives an item between 0 and its nonnegative subtotal. |
| `Discounts.Discount.Validate` | plata/discount/models.py:195-212 | The appends produce exactly `Verdict`: `true` when no check fails, otherwise a failure listing every failing check. |
| `Validity.ReasonsInSequence` | plata/discount/models.py:196-207 | The reasons are the four checks run one after another, each appending its reason when it fails. |
| `Validity.ReasonsComplete` | plata/discount/models.py:196-207 | A reason is reported exactly when its check fails. No check short-circuits another. |
| `Validity.ReasonsInCheckOrder` | plata/discount/models.py:196-207 | Reasons come in the order inactive, not yet active, expired, uses reached, each at most once. |
| `Validity.ValidExactlyWhenNoCheckFails` | plata/discount/models.py:209-212 | The check succeeds exactly when none of the four conditions holds. |
| `Validity.NoLimitWithoutAllowedUses` | plata/discount/models.py:186-188 | A missing or zero `allowed_uses` never refuses a code. |
| `Validity.NoExpiryWithoutValidUntil` | plata/discount/models.py:203-204 | A missing `valid_until` never expires a code. |
| `Validity.AllFailuresReported` | plata/discount/models.py:196-210 | An inactive code that has not started and is used up fails with all three reasons, in order. |
| `Validity.UsesExhausted` | plata/discount/models.py:206-207 | A code with 5 allowed uses used 5 times fails with the uses-reached reason alone. |

## Left out

- Django querysets, `Q` objects, `values`/`values_list` and `plata.shop_instance()`: they become
  finite sets and sequences. "All products" is no restriction. The shop's catalogue contains
  every ordered product, so this is equivalent.
- The `NameError` when `products` is passed in at lines 96-102 (`shop` is unbound then): the model
  filters the given items either way.
- `self.save()` at line 153: persistence is replaced by the assignment to `remaining`.
- Form fields, admin widgets, titles and translation strings of `CONFIG_OPTIONS`: they are
  presentation only. The reasons keep their English text in `Validity.Message`.
- Parsing `config_json` through `JSONFieldDescriptor`: `config` is taken as an already-parsed map.
- Unregistered config keys (KeyError) and parameters that do not fit a rule's lambda (TypeError):
  they are excluded by the precondition `WellFormed`.
- Items given twice: the precondition `DistinctRows` asks for distinct rows, as the order
  service supplies them.
- `generate_random_code` and `RANDOM_CODE_CHARACTERS`: randomness.
- `date.today()`: becomes the parameter `today`.
- Concurrent updates of `used`: outside this code. The model does not change `used`, `is_active`,
  the dates or `config`, so they are constant fields.
- Decimal precision and rounding (`max_digits=18, decimal_places=10`): exact `real` arithmetic is
  used instead.
- The extensibility of `CONFIG_OPTIONS`: the registry is the fixed table of the four built-in rules.
- `AmountGainBounded`, `InclTaxPoolBounded`, `MeanTaxRateBetween` and `PercentageGainBounded`
  assume nonnegative subtotals, rates or values. The source does not check these.
