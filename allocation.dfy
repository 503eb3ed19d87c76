/**
 * The discount allocator as pure functions: the pool an amount discount
 * distributes, the per-item gains of each discount type, and what one call
 * of `apply` does (which gains it adds, whether it assigns `remaining`,
 * whether it fails).
 */
module Allocation {
  import opened Wrappers
  import opened Orders
  import opened Eligibility

  const AMOUNT_EXCL_TAX: int := 10
  const AMOUNT_INCL_TAX: int := 20
  const PERCENTAGE: int := 30

  datatype Error =
    | UnknownType(code: int)   // NotImplementedError for a type code the dispatcher does not know
    | DivisionByZero           // a zero divisor in the mean tax rate or in the distribution

  /**
   * The effect of one call: the value assigned to `remaining`, if any, and
   * either the gain added to each item's accumulator (index by index) or the
   * error raised, in which case no accumulator changes.
   */
  datatype Allocation = Allocation(remaining: Option<real>, gains: Result<seq<real>, Error>)

  /** What the caller sees: nothing, or the error raised. */
  function OutcomeOf(a: Allocation): Outcome<Error> {
    match a.gains
    case Failure(e) => Fail(e)
    case Success(_) => Pass
  }

  /** The sum of the first `n` entries, added up front to back. */
  function SumOfFirst(s: seq<real>, n: nat): real
    requires n <= |s|
  {
    if n == 0 then 0.0 else SumOfFirst(s, n - 1) + s[n - 1]
  }

  function Sum(s: seq<real>): real {
    SumOfFirst(s, |s|)
  }

  /** What an item adds to the eligible subtotal: its subtotal if its product is eligible, else nothing. */
  function Contribution(it: OrderItem, eligible: set<ProductId>): real {
    if ProductOf(it) in eligible then it.subtotal else 0.0
  }

  /** The subtotal of the eligible items among the first `n`. */
  function EligibleSubtotalOfFirst(items: seq<OrderItem>, eligible: set<ProductId>, n: nat): real
    requires n <= |items|
  {
    if n == 0 then 0.0 else EligibleSubtotalOfFirst(items, eligible, n - 1) + Contribution(items[n - 1], eligible)
  }

  /** The gain of one item: `subtotal * factor` if its product is eligible, else nothing. */
  function Gain(it: OrderItem, eligible: set<ProductId>, factor: real): real {
    if ProductOf(it) in eligible then it.subtotal * factor else 0.0
  }

  /** Per-item gains proportional to the subtotal, index by index. */
  function Gains(items: seq<OrderItem>, eligible: set<ProductId>, factor: real): (r: seq<real>)
    ensures |r| == |items|
  {
    seq(|items|, k requires 0 <= k < |items| => Gain(items[k], eligible, factor))
  }

  /** Filtering the first `n` items and adding up their subtotals adds up the contributions. */
  lemma {:induction false} EligibleSubtotalIs(items: seq<OrderItem>, eligible: set<ProductId>, n: nat)
    requires n <= |items|
    ensures ItemsSubtotal(EligibleAmong(items, eligible, n)) == EligibleSubtotalOfFirst(items, eligible, n)
  {
    if n > 0 {
      EligibleSubtotalIs(items, eligible, n - 1);
      var e := EligibleAmong(items, eligible, n - 1);
      if ProductOf(items[n - 1]) in eligible {
        assert EligibleAmong(items, eligible, n) == e + [items[n - 1]];
        SubtotalAppend(e, items[n - 1]);
      } else {
        assert EligibleAmong(items, eligible, n) == e;
      }
    }
  }

  /** The gains of the first `n` items add up to their eligible subtotal times the factor. */
  lemma {:induction false} GainsSumOfFirst(items: seq<OrderItem>, eligible: set<ProductId>, factor: real, n: nat)
    requires n <= |items|
    ensures SumOfFirst(Gains(items, eligible, factor), n) == EligibleSubtotalOfFirst(items, eligible, n) * factor
  {
    if n > 0 {
      GainsSumOfFirst(items, eligible, factor, n - 1);
      var x := Contribution(items[n - 1], eligible);
      assert Gains(items, eligible, factor)[n - 1] == x * factor;
      SumStep(SumOfFirst(Gains(items, eligible, factor), n), SumOfFirst(Gains(items, eligible, factor), n - 1),
        EligibleSubtotalOfFirst(items, eligible, n - 1), x, factor, EligibleSubtotalOfFirst(items, eligible, n));
    }
  }

  /** The gains add up to the eligible subtotal times the factor. */
  lemma GainsSum(items: seq<OrderItem>, eligible: set<ProductId>, factor: real)
    ensures Sum(Gains(items, eligible, factor)) == ItemsSubtotal(EligibleItems(items, eligible)) * factor
  {
    GainsSumOfFirst(items, eligible, factor, |items|);
    EligibleSubtotalIs(items, eligible, |items|);
  }

  /** The arithmetic of one step of `GainsSumOfFirst`, on plain numbers. */
  lemma SumStep(total: real, front: real, a: real, x: real, f: real, e: real)
    requires front == a * f && total == front + x * f && e == a + x
    ensures total == e * f
  {
    Distribute(a, x, f);
  }

  lemma Distribute(a: real, b: real, f: real)
    ensures (a + b) * f == a * f + b * f
  {
  }

  lemma ScaleMonotone(a: real, b: real, c: real)
    requires a <= b && c >= 0.0
    ensures a * c <= b * c
  {
    assert b * c - a * c == (b - a) * c;
  }

  lemma Fraction(x: real, f: real)
    requires x >= 0.0 && 0.0 <= f <= 1.0
    ensures 0.0 <= x * f <= x
  {
    ScaleMonotone(0.0, f, x);
    ScaleMonotone(f, 1.0, x);
  }

  lemma Cancel(a: real, b: real, t: real)
    requires t > 0.0 && a * t <= b * t
    ensures a <= b
  {
    assert (b - a) * t == b * t - a * t;
  }

  lemma QuotientBetween(w: real, t: real, lo: real, hi: real)
    requires t > 0.0 && lo * t <= w <= hi * t
    ensures lo <= w / t <= hi
  {
    var q := w / t;
    assert q * t == w;
    Cancel(lo, q, t);
    Cancel(q, hi, t);
  }

  /**
   * The subtotal-weighted mean tax rate of the items; undefined (a zero
   * divisor) when their subtotals add up to zero.
   */
  function MeanTaxRate(s: seq<OrderItem>): (r: Result<real, Error>)
    ensures r.Success? ==> r.value * ItemsSubtotal(s) == WeightedRateSum(s)
    ensures r.Failure? <==> ItemsSubtotal(s) == 0.0
  {
    if ItemsSubtotal(s) == 0.0 then Failure(DivisionByZero)
    else Success(WeightedRateSum(s) / ItemsSubtotal(s))
  }

  /**
   * The pool an amount discount distributes over the eligible items `s`:
   * `value` excl. tax, or `value` with the mean tax rate taken out.
   */
  function AmountPool(taxIncluded: bool, value: real, s: seq<OrderItem>): (r: Result<real, Error>)
    ensures !taxIncluded ==> r == Success(value)
    ensures taxIncluded && r.Success? ==> MeanTaxRate(s).Success? && r.value * (1.0 + MeanTaxRate(s).value / 100.0) == value
    ensures taxIncluded ==>
      (r.Failure? <==> ItemsSubtotal(s) == 0.0 || 1.0 + MeanTaxRate(s).value / 100.0 == 0.0)
    ensures r.Failure? ==> r.error == DivisionByZero
  {
    if !taxIncluded then Success(value)
    else
      match MeanTaxRate(s)
      case Failure(e) => Failure(e)
      case Success(rate) =>
        if 1.0 + rate / 100.0 == 0.0 then Failure(DivisionByZero)
        else Success(value / (1.0 + rate / 100.0))
  }

  /** The pool actually distributed: never more than the eligible subtotal. */
  function Clamp(pool: real, itemsSubtotal: real): real {
    if pool > itemsSubtotal then itemsSubtotal else pool
  }

  /**
   * `apply_amount_discount` for the products in `eligible`: compute the pool,
   * record any excess over the eligible subtotal in `remaining`, then share
   * the clamped pool out in proportion to the subtotals.
   */
  function AmountAllocation(taxIncluded: bool, value: real, eligible: set<ProductId>, items: seq<OrderItem>): Allocation {
    var chosen := EligibleItems(items, eligible);
    match AmountPool(taxIncluded, value, chosen)
    case Failure(e) => Allocation(None, Failure(e))
    case Success(pool) =>
      var itemsSubtotal := ItemsSubtotal(chosen);
      var remaining := if pool > itemsSubtotal then Some(pool - itemsSubtotal) else None;
      if chosen == [] then Allocation(remaining, Success(Gains(items, eligible, 0.0)))
      else if itemsSubtotal == 0.0 then Allocation(remaining, Failure(DivisionByZero))
      else Allocation(remaining, Success(Gains(items, eligible, Clamp(pool, itemsSubtotal) / itemsSubtotal)))
  }

  /** `apply_percentage_discount`: every eligible item gains its subtotal times `value / 100`. */
  function PercentageAllocation(value: real, eligible: set<ProductId>, items: seq<OrderItem>): Allocation {
    Allocation(None, Success(Gains(items, eligible, value / 100.0)))
  }

  /** `apply`: nothing for no items, otherwise dispatch on the type code. */
  function Allocate(discountType: int, value: real, config: Config, items: seq<OrderItem>): Allocation
    requires WellFormed(config)
  {
    if items == [] then Allocation(None, Success([]))
    else if discountType == AMOUNT_EXCL_TAX then AmountAllocation(false, value, Eligible(config, items, None), items)
    else if discountType == AMOUNT_INCL_TAX then AmountAllocation(true, value, Eligible(config, items, None), items)
    else if discountType == PERCENTAGE then PercentageAllocation(value, Eligible(config, items, None), items)
    else Allocation(None, Failure(UnknownType(discountType)))
  }

  /** Nonnegative subtotals add up to a nonnegative subtotal. */
  lemma {:induction false} SubtotalNonNegative(s: seq<OrderItem>, n: nat)
    requires n <= |s|
    requires forall k :: 0 <= k < n ==> s[k].subtotal >= 0.0
    ensures SubtotalOfFirst(s, n) >= 0.0
  {
    if n > 0 {
      SubtotalNonNegative(s, n - 1);
    }
  }

  lemma EligibleSubtotalNonNegative(items: seq<OrderItem>, eligible: set<ProductId>)
    requires forall k :: 0 <= k < |items| ==> items[k].subtotal >= 0.0
    ensures ItemsSubtotal(EligibleItems(items, eligible)) >= 0.0
  {
    var chosen := EligibleItems(items, eligible);
    EligibleItemsMembers(items, eligible);
    forall k | 0 <= k < |chosen| ensures chosen[k].subtotal >= 0.0 {
      var m :| 0 <= m < |items| && items[m] == chosen[k];
    }
    SubtotalNonNegative(chosen, |chosen|);
  }

  /** The source's share `subtotal / itemsSubtotal * discount` is the gain with factor `discount / itemsSubtotal`. */
  lemma WholeQuotient(t: real, x: real)
    requires t != 0.0
    ensures t * (x / t) == x
  {
  }

  lemma ShareIsProportional(subtotal: real, itemsSubtotal: real, discount: real)
    requires itemsSubtotal != 0.0
    ensures subtotal * (discount / itemsSubtotal) == subtotal / itemsSubtotal * discount
  {
  }

  /**
   * An amount discount whose pool fits into the eligible subtotal leaves
   * `remaining` alone and shares out the whole pool: each eligible item gains
   * `subtotal / itemsSubtotal * pool`, every other item nothing.
   */
  lemma AmountWithinSubtotal(taxIncluded: bool, value: real, eligible: set<ProductId>, items: seq<OrderItem>)
    requires AmountPool(taxIncluded, value, EligibleItems(items, eligible)).Success?
    requires AmountPool(taxIncluded, value, EligibleItems(items, eligible)).value <= ItemsSubtotal(EligibleItems(items, eligible))
    requires ItemsSubtotal(EligibleItems(items, eligible)) != 0.0
    ensures AmountAllocation(taxIncluded, value, eligible, items).remaining == None
    ensures AmountAllocation(taxIncluded, value, eligible, items).gains.Success?
    ensures Sum(AmountAllocation(taxIncluded, value, eligible, items).gains.value)
         == AmountPool(taxIncluded, value, EligibleItems(items, eligible)).value
    ensures forall k :: 0 <= k < |items| ==>
      AmountAllocation(taxIncluded, value, eligible, items).gains.value[k]
      == if ProductOf(items[k]) in eligible
         then items[k].subtotal / ItemsSubtotal(EligibleItems(items, eligible)) * AmountPool(taxIncluded, value, EligibleItems(items, eligible)).value
         else 0.0
  {
    var chosen := EligibleItems(items, eligible);
    var pool := AmountPool(taxIncluded, value, chosen).value;
    var itemsSubtotal := ItemsSubtotal(chosen);
    var factor := pool / itemsSubtotal;
    var a := AmountAllocation(taxIncluded, value, eligible, items);
    assert chosen != [];
    assert a.gains == Success(Gains(items, eligible, factor));
    GainsSum(items, eligible, factor);
    WholeQuotient(itemsSubtotal, pool);
    forall k | 0 <= k < |items|
      ensures a.gains.value[k] == if ProductOf(items[k]) in eligible then items[k].subtotal / itemsSubtotal * pool else 0.0
    {
      ShareIsProportional(items[k].subtotal, itemsSubtotal, pool);
    }
  }

  /**
   * An amount discount whose pool exceeds the eligible subtotal records the
   * excess in `remaining` and, when the subtotal is not zero, distributes
   * with factor one: each eligible item gains exactly its own subtotal
   * (`WholeSubtotalGains`).
   */
  lemma AmountBeyondSubtotal(taxIncluded: bool, value: real, eligible: set<ProductId>, items: seq<OrderItem>)
    requires AmountPool(taxIncluded, value, EligibleItems(items, eligible)).Success?
    requires AmountPool(taxIncluded, value, EligibleItems(items, eligible)).value > ItemsSubtotal(EligibleItems(items, eligible))
    ensures AmountAllocation(taxIncluded, value, eligible, items).remaining
         == Some(AmountPool(taxIncluded, value, EligibleItems(items, eligible)).value - ItemsSubtotal(EligibleItems(items, eligible)))
    ensures ItemsSubtotal(EligibleItems(items, eligible)) != 0.0 ==>
      AmountAllocation(taxIncluded, value, eligible, items).gains == Success(Gains(items, eligible, 1.0))
  {
    var chosen := EligibleItems(items, eligible);
    var itemsSubtotal := ItemsSubtotal(chosen);
    if itemsSubtotal != 0.0 {
      assert chosen != [];
      var pool := AmountPool(taxIncluded, value, chosen).value;
      assert Clamp(pool, itemsSubtotal) / itemsSubtotal == 1.0;
    }
  }

  /**
   * The gains of a fully consumed pool (factor one): each eligible item gains
   * its own subtotal, the others nothing, together the eligible subtotal.
   */
  lemma WholeSubtotalGains(eligible: set<ProductId>, items: seq<OrderItem>)
    ensures forall k :: 0 <= k < |items| ==>
      Gains(items, eligible, 1.0)[k] == if ProductOf(items[k]) in eligible then items[k].subtotal else 0.0
    ensures Sum(Gains(items, eligible, 1.0)) == ItemsSubtotal(EligibleItems(items, eligible))
  {
    GainsSum(items, eligible, 1.0);
    forall k | 0 <= k < |items|
      ensures Gains(items, eligible, 1.0)[k] == if ProductOf(items[k]) in eligible then items[k].subtotal else 0.0
    {
    }
  }

  /**
   * An amount discount fails exactly when its pool cannot be computed or
   * there are eligible items whose subtotals add up to zero.
   */
  lemma AmountFailsExactly(taxIncluded: bool, value: real, eligible: set<ProductId>, items: seq<OrderItem>)
    ensures AmountAllocation(taxIncluded, value, eligible, items).gains.Failure?
        <==> AmountPool(taxIncluded, value, EligibleItems(items, eligible)).Failure?
             || (EligibleItems(items, eligible) != [] && ItemsSubtotal(EligibleItems(items, eligible)) == 0.0)
    ensures AmountPool(taxIncluded, value, EligibleItems(items, eligible)).Failure? ==>
      AmountAllocation(taxIncluded, value, eligible, items).remaining == None
  {
  }

  /**
   * With nonnegative subtotals and pool, one amount discount never gives an
   * item more than its own subtotal, nor a negative gain.
   */
  lemma AmountGainBounded(taxIncluded: bool, value: real, eligible: set<ProductId>, items: seq<OrderItem>, k: nat)
    requires forall j :: 0 <= j < |items| ==> items[j].subtotal >= 0.0
    requires AmountPool(taxIncluded, value, EligibleItems(items, eligible)).Success?
    requires AmountPool(taxIncluded, value, EligibleItems(items, eligible)).value >= 0.0
    requires AmountAllocation(taxIncluded, value, eligible, items).gains.Success?
    requires k < |items|
    ensures 0.0 <= AmountAllocation(taxIncluded, value, eligible, items).gains.value[k] <= items[k].subtotal
  {
    var chosen := EligibleItems(items, eligible);
    var pool := AmountPool(taxIncluded, value, chosen).value;
    var itemsSubtotal := ItemsSubtotal(chosen);
    EligibleSubtotalNonNegative(items, eligible);
    var factor := if chosen == [] then 0.0 else Clamp(pool, itemsSubtotal) / itemsSubtotal;
    assert AmountAllocation(taxIncluded, value, eligible, items).gains.value == Gains(items, eligible, factor);
    assert 0.0 <= factor <= 1.0;
    assert 0.0 <= items[k].subtotal * factor <= items[k].subtotal * 1.0;
  }

  /** The weighted rate sum lies between the smallest and largest rate times the subtotal. */
  lemma {:induction false} WeightedRateSumBetween(s: seq<OrderItem>, lo: real, hi: real, n: nat)
    requires n <= |s|
    requires forall k :: 0 <= k < n ==> s[k].subtotal >= 0.0 && lo <= s[k].taxRate <= hi
    ensures lo * SubtotalOfFirst(s, n) <= WeightedRateOfFirst(s, n) <= hi * SubtotalOfFirst(s, n)
  {
    if n > 0 {
      WeightedRateSumBetween(s, lo, hi, n - 1);
      StepBetween(SubtotalOfFirst(s, n - 1), WeightedRateOfFirst(s, n - 1), s[n - 1].subtotal, s[n - 1].taxRate, lo, hi);
    }
  }

  /** One step of the induction above, kept apart so that the solver sees only these products. */
  lemma StepBetween(f: real, w: real, x: real, r: real, lo: real, hi: real)
    requires lo * f <= w <= hi * f
    requires x >= 0.0 && lo <= r <= hi
    ensures lo * (f + x) <= w + r * x <= hi * (f + x)
  {
    ScaleMonotone(lo, r, x);
    ScaleMonotone(r, hi, x);
    assert lo * (f + x) == lo * f + lo * x;
    assert hi * (f + x) == hi * f + hi * x;
  }

  /** The mean tax rate is a weighted mean: it lies between the smallest and largest rate. */
  lemma MeanTaxRateBetween(s: seq<OrderItem>, lo: real, hi: real)
    requires forall k :: 0 <= k < |s| ==> s[k].subtotal >= 0.0 && lo <= s[k].taxRate <= hi
    requires ItemsSubtotal(s) != 0.0
    ensures MeanTaxRate(s).Success?
    ensures lo <= MeanTaxRate(s).value <= hi
  {
    WeightedRateSumBetween(s, lo, hi, |s|);
    SubtotalNonNegative(s, |s|);
    QuotientBetween(WeightedRateSum(s), ItemsSubtotal(s), lo, hi);
  }

  /** With every item at the same rate, the subtotal-weighted sum of rates is that rate times the subtotal. */
  lemma {:induction false} UniformWeightedRate(s: seq<OrderItem>, rate: real, n: nat)
    requires n <= |s|
    requires forall k :: 0 <= k < |s| ==> s[k].taxRate == rate
    ensures WeightedRateOfFirst(s, n) == rate * SubtotalOfFirst(s, n)
  {
    if n > 0 {
      UniformWeightedRate(s, rate, n - 1);
      assert rate * SubtotalOfFirst(s, n) == rate * SubtotalOfFirst(s, n - 1) + rate * s[n - 1].subtotal;
    }
  }

  /**
   * When every eligible item has the same tax rate, the mean rate is that
   * rate, and the pool is the amount with that rate taken off; it fails
   * exactly when the subtotal is zero or the rate is -100.
   */
  lemma UniformRatePool(value: real, s: seq<OrderItem>, rate: real)
    requires forall k :: 0 <= k < |s| ==> s[k].taxRate == rate
    ensures ItemsSubtotal(s) != 0.0 ==> MeanTaxRate(s) == Success(rate)
    ensures AmountPool(true, value, s)
      == if ItemsSubtotal(s) == 0.0 || 1.0 + rate / 100.0 == 0.0 then Failure(DivisionByZero)
         else Success(value / (1.0 + rate / 100.0))
  {
    UniformWeightedRate(s, rate, |s|);
    if ItemsSubtotal(s) != 0.0 {
      assert WeightedRateSum(s) / ItemsSubtotal(s) == rate;
    }
  }

  /**
   * With nonnegative tax rates and subtotals, taking the tax out of a
   * nonnegative incl.-tax value gives a pool between zero and that value.
   */
  lemma InclTaxPoolBounded(value: real, s: seq<OrderItem>)
    requires forall k :: 0 <= k < |s| ==> s[k].subtotal >= 0.0 && s[k].taxRate >= 0.0
    requires ItemsSubtotal(s) != 0.0
    requires value >= 0.0
    ensures AmountPool(true, value, s).Success?
    ensures 0.0 <= AmountPool(true, value, s).value <= value
  {
    var hi := MaxRate(s, |s|);
    MeanTaxRateBetween(s, 0.0, hi);
    var d := 1.0 + MeanTaxRate(s).value / 100.0;
    assert d >= 1.0;
    assert value / d <= value / 1.0;
  }

  /** An upper bound of the tax rates of the first `n` items. */
  function MaxRate(s: seq<OrderItem>, n: nat): (r: real)
    requires n <= |s|
    ensures forall k :: 0 <= k < n ==> s[k].taxRate <= r
  {
    if n == 0 then 0.0
    else
      var m := MaxRate(s, n - 1);
      if s[n - 1].taxRate > m then s[n - 1].taxRate else m
  }

  /**
   * A percentage discount adds exactly `subtotal * value/100` to each
   * eligible item and nothing to the others; it never assigns `remaining`
   * and never fails.
   */
  lemma PercentageGainsExact(value: real, eligible: set<ProductId>, items: seq<OrderItem>)
    ensures PercentageAllocation(value, eligible, items).remaining == None
    ensures PercentageAllocation(value, eligible, items).gains.Success?
    ensures forall k :: 0 <= k < |items| ==>
      PercentageAllocation(value, eligible, items).gains.value[k]
      == if ProductOf(items[k]) in eligible then items[k].subtotal * (value / 100.0) else 0.0
  {
    var factor := value / 100.0;
    assert PercentageAllocation(value, eligible, items).gains.value == Gains(items, eligible, factor);
    forall k | 0 <= k < |items|
      ensures Gains(items, eligible, factor)[k]
           == if ProductOf(items[k]) in eligible then items[k].subtotal * factor else 0.0
    {
    }
  }

  /** The percentage gains add up to the eligible subtotal times `value/100`. */
  lemma PercentageGainsTotal(value: real, eligible: set<ProductId>, items: seq<OrderItem>)
    ensures Sum(PercentageAllocation(value, eligible, items).gains.value)
         == ItemsSubtotal(EligibleItems(items, eligible)) * (value / 100.0)
  {
    var factor := value / 100.0;
    assert PercentageAllocation(value, eligible, items).gains.value == Gains(items, eligible, factor);
    GainsSum(items, eligible, factor);
  }

  /** A percentage of at most 100 never gives an item more than its nonnegative subtotal. */
  lemma PercentageGainBounded(value: real, eligible: set<ProductId>, items: seq<OrderItem>, k: nat)
    requires 0.0 <= value <= 100.0
    requires k < |items| && items[k].subtotal >= 0.0
    ensures 0.0 <= PercentageAllocation(value, eligible, items).gains.value[k] <= items[k].subtotal
  {
    var f := value / 100.0;
    assert PercentageAllocation(value, eligible, items).gains.value[k] == Gain(items[k], eligible, f);
    assert 0.0 <= f <= 1.0;
    Fraction(items[k].subtotal, f);
  }

  /** `apply` on no items does nothing, whatever the type code. */
  lemma ApplyToNoItems(discountType: int, value: real, config: Config)
    requires WellFormed(config)
    ensures Allocate(discountType, value, config, []) == Allocation(None, Success([]))
  {
  }

  /** An unknown type code is rejected before anything is assigned. */
  lemma UnknownTypeRejected(discountType: int, value: real, config: Config, items: seq<OrderItem>)
    requires WellFormed(config)
    requires items != []
    requires discountType !in {AMOUNT_EXCL_TAX, AMOUNT_INCL_TAX, PERCENTAGE}
    ensures Allocate(discountType, value, config, items) == Allocation(None, Failure(UnknownType(discountType)))
  {
  }
}
