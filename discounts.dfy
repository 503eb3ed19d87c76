/**
 * A discount (`DiscountBase` together with its concrete `Discount`): the
 * eligibility query, the allocator that adds to the items' accumulators and
 * records `remaining`, and the validity check of the discount code.
 */
module Discounts {
  import opened Wrappers
  import opened Orders
  import opened Eligibility
  import opened Allocation
  import opened Validity

  class Discount {
    const name: string
    /** The type code: AMOUNT_EXCL_TAX, AMOUNT_INCL_TAX or PERCENTAGE. */
    const discountType: nat
    const value: real
    const config: Config
    /** The part of an amount discount that exceeded the eligible subtotal. */
    var remaining: real

    const code: string
    const isActive: bool
    const validFrom: Date
    const validUntil: Option<Date>
    const allowedUses: Option<int>
    const used: int

    constructor (name: string, discountType: nat, value: real, config: Config, code: string,
                 isActive: bool, validFrom: Date, validUntil: Option<Date>, allowedUses: Option<int>, used: int)
      ensures this.name == name && this.discountType == discountType && this.value == value && this.config == config
      ensures this.code == code && this.isActive == isActive && this.validFrom == validFrom
      ensures this.validUntil == validUntil && this.allowedUses == allowedUses && this.used == used
      ensures remaining == 0.0
    {
      this.name := name;
      this.discountType := discountType;
      this.value := value;
      this.config := config;
      this.code := code;
      this.isActive := isActive;
      this.validFrom := validFrom;
      this.validUntil := validUntil;
      this.allowedUses := allowedUses;
      this.used := used;
      remaining := 0.0;
    }

    /** The fields the validity check reads. */
    function State(): CodeState {
      CodeState(isActive, validFrom, validUntil, allowedUses, used)
    }

    /**
     * The call had effect `a`: `remaining` was assigned when `a` says so, and
     * either every item gained its entry of `a.gains` or the call failed and no
     * item changed.
     */
    twostate predicate Applied(a: Allocation, items: seq<OrderItem>)
      reads this, items
    {
      remaining == (if a.remaining.Some? then a.remaining.value else old(remaining)) &&
      match a.gains
      case Failure(_) =>
        forall k :: 0 <= k < |items| ==> items[k].lineItemDiscount == old(items[k].lineItemDiscount)
      case Success(g) =>
        |g| == |items| &&
        forall k :: 0 <= k < |items| ==> items[k].lineItemDiscount == old(items[k].lineItemDiscount) + g[k]
    }

    /**
     * `eligible_products`: narrow the items' variations and the items
     * themselves by each configured rule, then keep the candidate products
     * that have both a surviving variation and a surviving item.
     */
    method EligibleProducts(items: seq<OrderItem>, products: Option<set<ProductId>>) returns (r: set<ProductId>)
      requires WellFormed(config)
      ensures r == Eligible(config, items, products)
    {
      var variations := set it | it in items :: it.variation;
      var orderItems := set it | it in items;
      var todo := config.Keys;
      ghost var done: set<string> := {};
      while todo != {}
        invariant todo !! done && todo + done == config.Keys
        invariant variations == set it | it in items && PassesVariationRules(config, done, it.variation) :: it.variation
        invariant orderItems == set it | it in items && PassesOrderItemRules(config, done, it)
        decreases todo
      {
        var key :| key in todo;
        var option := CONFIG_OPTIONS[key];
        if option.variationQuery.Some? {
          variations := set v | v in variations && VariationMatches(option.variationQuery.value, config[key], v);
        }
        if option.orderItemQuery.Some? {
          orderItems := set it | it in orderItems && OrderItemMatches(option.orderItemQuery.value, it);
        }
        todo := todo - {key};
        done := done + {key};
      }
      var fromVariations := set v | v in variations :: v.product;
      var fromOrderItems := set it | it in orderItems :: ProductOf(it);
      r := Restrict(fromVariations * fromOrderItems, products);
    }

    /** `apply`: nothing for no items, else dispatch on the type code; an unknown code fails. */
    method Apply(items: seq<OrderItem>) returns (r: Outcome<Error>)
      requires WellFormed(config) && DistinctRows(items)
      modifies this`remaining, items
      ensures Applied(Allocate(discountType, value, config, items), items)
      ensures r == OutcomeOf(Allocate(discountType, value, config, items))
    {
      if |items| == 0 {
        return Pass;
      }
      if discountType == AMOUNT_EXCL_TAX {
        r := ApplyAmountDiscount(items, false);
      } else if discountType == AMOUNT_INCL_TAX {
        r := ApplyAmountDiscount(items, true);
      } else if discountType == PERCENTAGE {
        r := ApplyPercentageDiscount(items);
      } else {
        r := Fail(UnknownType(discountType));
      }
    }

    /**
     * `apply_amount_discount`: compute the pool (taking the mean tax rate out
     * when `value` includes tax), record any excess over the eligible
     * subtotal in `remaining`, and add to each eligible item its share of the
     * clamped pool.
     */
    method ApplyAmountDiscount(items: seq<OrderItem>, taxIncluded: bool) returns (r: Outcome<Error>)
      requires WellFormed(config) && DistinctRows(items)
      modifies this`remaining, items
      ensures Applied(AmountAllocation(taxIncluded, value, Eligible(config, items, None), items), items)
      ensures r == OutcomeOf(AmountAllocation(taxIncluded, value, Eligible(config, items, None), items))
    {
      var eligible := EligibleProducts(items, None);
      var eligibleItems := EligibleItems(items, eligible);
      var pool := AmountPoolOf(taxIncluded, value, eligibleItems);
      if pool.Failure? {
        return Fail(pool.error);
      }
      var discount := pool.value;
      var itemsSubtotal := ItemsSubtotal(eligibleItems);
      // The pool is capped at the eligible subtotal; the excess is kept (lines 150-154).
      if discount > itemsSubtotal {
        remaining := discount - itemsSubtotal;
        discount := itemsSubtotal;
      }
      r := AddShares(items, eligible, eligibleItems, itemsSubtotal, discount);
    }

    /** `apply_percentage_discount`: each eligible item gains `subtotal * value/100`. */
    method ApplyPercentageDiscount(items: seq<OrderItem>) returns (r: Outcome<Error>)
      requires WellFormed(config) && DistinctRows(items)
      modifies items
      ensures Applied(PercentageAllocation(value, Eligible(config, items, None), items), items)
      ensures r == OutcomeOf(PercentageAllocation(value, Eligible(config, items, None), items))
    {
      var eligible := EligibleProducts(items, None);
      var factor := value / 100.0;
      for k := 0 to |items|
        invariant forall i :: 0 <= i < |items| ==>
          items[i].lineItemDiscount == old(items[i].lineItemDiscount)
            + (if i < k && ProductOf(items[i]) in eligible then items[i].subtotal * factor else 0.0)
      {
        if ProductOf(items[k]) !in eligible {
          continue;
        }
        assert forall i :: 0 <= i < |items| && i != k ==> items[i] != items[k];
        items[k].lineItemDiscount := items[k].lineItemDiscount + items[k].subtotal * factor;
      }
      ghost var gains := Gains(items, eligible, factor);
      forall i | 0 <= i < |items|
        ensures items[i].lineItemDiscount == old(items[i].lineItemDiscount) + gains[i]
      {
      }
      assert PercentageAllocation(value, eligible, items) == Allocation(None, Success(gains));
      r := Pass;
    }

    /**
     * `validate` on day `today`: run the four checks, collect the reason of
     * every one that fails, and fail with all of them if there are any.
     */
    method Validate(today: Date) returns (r: Result<bool, seq<Reason>>)
      ensures r == Verdict(State(), today)
    {
      var messages: seq<Reason> := [];
      if !isActive {
        messages := messages + [Inactive];
      }
      if today < validFrom {
        messages := messages + [NotActiveYet];
      }
      if validUntil.Some? && today > validUntil.value {
        messages := messages + [Expired];
      }
      if allowedUses.Some? && allowedUses.value != 0 && used >= allowedUses.value {
        messages := messages + [UsesReached];
      }
      ReasonsInSequence(State(), today);
      assert messages == Reasons(State(), today);
      if messages != [] {
        return Failure(messages);
      }
      return Success(true);
    }
  
  }

  /** The share `AddShares` gives item `i` is its entry in the allocator's gains. */
  lemma ShareIsGain(items: seq<OrderItem>, eligible: set<ProductId>, itemsSubtotal: real, discount: real, i: nat)
    requires i < |items|
    requires EligibleItems(items, eligible) != [] ==> itemsSubtotal != 0.0
    ensures (if items[i] in EligibleItems(items, eligible) then items[i].subtotal * (discount / itemsSubtotal) else 0.0)
         == Gains(items, eligible, if EligibleItems(items, eligible) == [] then 0.0 else discount / itemsSubtotal)[i]
  {
    EligibleItemsMember(items, eligible, items[i]);
  }

  /** `x` is one of the first `n` entries of `s`. */
  predicate AmongFirst(x: OrderItem, s: seq<OrderItem>, n: nat)
    requires n <= |s|
  {
    exists j :: 0 <= j < n && s[j] == x
  }

  lemma AmongFirstStep(s: seq<OrderItem>, n: nat)
    requires n < |s|
    ensures forall x :: AmongFirst(x, s, n + 1) <==> AmongFirst(x, s, n) || x == s[n]
  {
    forall x | AmongFirst(x, s, n + 1) && x != s[n] ensures AmongFirst(x, s, n) {
      var j :| 0 <= j < n + 1 && s[j] == x;
    }
    assert AmongFirst(s[n], s, n + 1);
  }

  lemma AmongFirstAll(s: seq<OrderItem>)
    ensures forall x :: AmongFirst(x, s, |s|) <==> x in s
  {
    forall x | x in s ensures AmongFirst(x, s, |s|) {
      var j :| 0 <= j < |s| && s[j] == x;
    }
  }

  /**
   * The mean tax rate loop of `apply_amount_discount`: add up rate times
   * subtotal and the subtotals, then divide.
   */
  method MeanTaxRateOf(eligibleItems: seq<OrderItem>) returns (r: Result<real, Error>)
    ensures r == MeanTaxRate(eligibleItems)
  {
    var dividend, divisor := 0.0, 0.0;
    for k := 0 to |eligibleItems|
      invariant dividend == WeightedRateOfFirst(eligibleItems, k)
      invariant divisor == SubtotalOfFirst(eligibleItems, k)
    {
      dividend := dividend + eligibleItems[k].taxRate * eligibleItems[k].subtotal;
      divisor := divisor + eligibleItems[k].subtotal;
    }
    if divisor == 0.0 {
      return Failure(DivisionByZero);
    }
    return Success(dividend / divisor);
  }

  /**
   * The pool of `apply_amount_discount`: `value` itself, or, when it
   * includes tax, `value` divided by one plus the mean tax rate.
   */
  method AmountPoolOf(taxIncluded: bool, value: real, eligibleItems: seq<OrderItem>) returns (r: Result<real, Error>)
    ensures r == AmountPool(taxIncluded, value, eligibleItems)
  {
    if !taxIncluded {
      return Success(value);
    }
    var taxRate := MeanTaxRateOf(eligibleItems);
    if taxRate.Failure? {
      return Failure(taxRate.error);
    }
    if 1.0 + taxRate.value / 100.0 == 0.0 {
      return Failure(DivisionByZero);
    }
    return Success(value / (1.0 + taxRate.value / 100.0));
  }

  /**
   * The distribution loop of `apply_amount_discount`: each eligible item
   * gains `subtotal / itemsSubtotal * discount`; a zero subtotal fails at the
   * first item, before anything changes.
   */
  method AddShares(items: seq<OrderItem>, eligible: set<ProductId>, eligibleItems: seq<OrderItem>, itemsSubtotal: real, discount: real)
    returns (r: Outcome<Error>)
    requires DistinctRows(items) && eligibleItems == EligibleItems(items, eligible)
    modifies items
    ensures r == if eligibleItems != [] && itemsSubtotal == 0.0 then Fail(DivisionByZero) else Pass
    ensures forall i :: 0 <= i < |items| ==>
      items[i].lineItemDiscount == old(items[i].lineItemDiscount)
        + (if r.Pass? then Gains(items, eligible, if eligibleItems == [] then 0.0 else discount / itemsSubtotal)[i] else 0.0)
  {
    EligibleItemsMembers(items, eligible);
    for k := 0 to |eligibleItems|
      invariant k > 0 ==> itemsSubtotal != 0.0
      invariant forall i :: 0 <= i < |items| ==>
        items[i].lineItemDiscount == old(items[i].lineItemDiscount)
          + (if k > 0 && AmongFirst(items[i], eligibleItems, k) then items[i].subtotal * (discount / itemsSubtotal) else 0.0)
    {
      if itemsSubtotal == 0.0 {
        return Fail(DivisionByZero);
      }
      var item := eligibleItems[k];
      assert forall j :: 0 <= j < k ==> eligibleItems[j] != item;
      AmongFirstStep(eligibleItems, k);
      ShareIsProportional(item.subtotal, itemsSubtotal, discount);
      item.lineItemDiscount := item.lineItemDiscount + item.subtotal / itemsSubtotal * discount;
    }
    AmongFirstAll(eligibleItems);
    forall i | 0 <= i < |items|
      ensures items[i].lineItemDiscount == old(items[i].lineItemDiscount)
        + Gains(items, eligible, if eligibleItems == [] then 0.0 else discount / itemsSubtotal)[i]
    {
      ShareIsGain(items, eligible, itemsSubtotal, discount, i);
    }
    r := Pass;
  }
}
