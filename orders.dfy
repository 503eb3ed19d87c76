/**
 * Order line items as the discount engine sees them: the row fields it
 * reads (variation, sale flag, tax rate, discounted subtotal excl. tax) and
 * the one accumulator it writes (`_line_item_discount`).
 */
module Orders {

  type ProductId = int
  type CategoryId = int

  /** A product variation joined with its product and that product's categories. */
  datatype Variation = Variation(id: int, product: ProductId, categories: set<CategoryId>)

  /**
   * An order item. Only `lineItemDiscount` is changed by the discount engine;
   * everything else is read from the order service.
   */
  class OrderItem {
    const id: int
    const variation: Variation
    const isSale: bool
    /** `tax_class.rate`, a percentage. */
    const taxRate: real
    /** `discounted_subtotal_excl_tax`. */
    const subtotal: real
    /** `_line_item_discount`, the per-item discount accumulator. */
    var lineItemDiscount: real

    constructor (id: int, variation: Variation, isSale: bool, taxRate: real, subtotal: real)
      ensures this.id == id && this.variation == variation && this.isSale == isSale
      ensures this.taxRate == taxRate && this.subtotal == subtotal
      ensures lineItemDiscount == 0.0
    {
      this.id := id;
      this.variation := variation;
      this.isSale := isSale;
      this.taxRate := taxRate;
      this.subtotal := subtotal;
      lineItemDiscount := 0.0;
    }
  }

  /** The items are distinct rows of the order: no primary key occurs twice. */
  predicate DistinctRows(items: seq<OrderItem>) {
    forall i, j :: 0 <= i < j < |items| ==> items[i].id != items[j].id
  }

  /** The product an item was ordered as (`item.variation.product_id`). */
  function ProductOf(item: OrderItem): ProductId {
    item.variation.product
  }

  /** Sum of the discounted subtotals excl. tax of the first `n` items, added up front to back. */
  function SubtotalOfFirst(s: seq<OrderItem>, n: nat): real
    requires n <= |s|
  {
    if n == 0 then 0.0 else SubtotalOfFirst(s, n - 1) + s[n - 1].subtotal
  }

  /** Sum of the discounted subtotals excl. tax. */
  function ItemsSubtotal(s: seq<OrderItem>): real {
    SubtotalOfFirst(s, |s|)
  }

  /** Sum of tax rate times subtotal over the first `n` items, added up front to back. */
  function WeightedRateOfFirst(s: seq<OrderItem>, n: nat): real
    requires n <= |s|
  {
    if n == 0 then 0.0 else WeightedRateOfFirst(s, n - 1) + s[n - 1].taxRate * s[n - 1].subtotal
  }

  /** Sum of tax rate times subtotal. */
  function WeightedRateSum(s: seq<OrderItem>): real {
    WeightedRateOfFirst(s, |s|)
  }

  /** Both sums over the first `n` items depend on those items only. */
  lemma {:induction false} SumsOfFirstAgree(s: seq<OrderItem>, t: seq<OrderItem>, n: nat)
    requires n <= |s| && n <= |t|
    requires forall i :: 0 <= i < n ==> s[i] == t[i]
    ensures SubtotalOfFirst(s, n) == SubtotalOfFirst(t, n)
    ensures WeightedRateOfFirst(s, n) == WeightedRateOfFirst(t, n)
  {
    if n > 0 {
      SumsOfFirstAgree(s, t, n - 1);
    }
  }

  /** Appending an item adds its subtotal. */
  lemma SubtotalAppend(s: seq<OrderItem>, it: OrderItem)
    ensures ItemsSubtotal(s + [it]) == ItemsSubtotal(s) + it.subtotal
  {
    SumsOfFirstAgree(s + [it], s, |s|);
  }

  /** The items among the first `n` whose product is in `eligible`, in order. */
  function EligibleAmong(items: seq<OrderItem>, eligible: set<ProductId>, n: nat): (r: seq<OrderItem>)
    requires n <= |items|
    ensures |r| <= n
  {
    if n == 0 then []
    else EligibleAmong(items, eligible, n - 1) + (if ProductOf(items[n - 1]) in eligible then [items[n - 1]] else [])
  }

  /** The items whose product is in `eligible`, kept in their order (models.py line 132). */
  function EligibleItems(items: seq<OrderItem>, eligible: set<ProductId>): (r: seq<OrderItem>)
    ensures |r| <= |items|
  {
    EligibleAmong(items, eligible, |items|)
  }

  /** Every item kept from the first `n` is one of them, and its product is eligible. */
  lemma {:induction false} EligibleAmongSound(items: seq<OrderItem>, eligible: set<ProductId>, n: nat)
    requires n <= |items|
    ensures forall k :: 0 <= k < |EligibleAmong(items, eligible, n)| ==>
      (exists j :: 0 <= j < n && items[j] == EligibleAmong(items, eligible, n)[k])
      && ProductOf(EligibleAmong(items, eligible, n)[k]) in eligible
  {
    if n == 0 {
      assert |EligibleAmong(items, eligible, n)| == 0;
    } else {
      EligibleAmongSound(items, eligible, n - 1);
      var e := EligibleAmong(items, eligible, n - 1);
      var r := EligibleAmong(items, eligible, n);
      forall k | 0 <= k < |r|
        ensures (exists j :: 0 <= j < n && items[j] == r[k]) && ProductOf(r[k]) in eligible
      {
        if k < |e| {
          assert r[k] == e[k];
          var j :| 0 <= j < n - 1 && items[j] == e[k];
          assert items[j] == r[k];
        } else {
          assert ProductOf(items[n - 1]) in eligible && r == e + [items[n - 1]];
          assert items[n - 1] == r[k];
        }
      }
    }
  }

  /** Every item of an eligible product among the first `n` is kept. */
  lemma {:induction false} EligibleAmongComplete(items: seq<OrderItem>, eligible: set<ProductId>, n: nat)
    requires n <= |items|
    ensures forall j :: 0 <= j < n && ProductOf(items[j]) in eligible ==> items[j] in EligibleAmong(items, eligible, n)
  {
    if n > 0 {
      EligibleAmongComplete(items, eligible, n - 1);
      var e := EligibleAmong(items, eligible, n - 1);
      var r := EligibleAmong(items, eligible, n);
      forall j | 0 <= j < n && ProductOf(items[j]) in eligible
        ensures items[j] in r
      {
        if j < n - 1 {
          assert items[j] in e;
          var k :| 0 <= k < |e| && e[k] == items[j];
          assert r[k] == e[k];
        } else {
          assert r[|e|] == items[n - 1];
        }
      }
    }
  }

  /** Filtering distinct rows leaves distinct rows. */
  lemma {:induction false} EligibleAmongDistinct(items: seq<OrderItem>, eligible: set<ProductId>, n: nat)
    requires n <= |items|
    ensures DistinctRows(items) ==> DistinctRows(EligibleAmong(items, eligible, n))
  {
    if n > 0 && DistinctRows(items) {
      EligibleAmongDistinct(items, eligible, n - 1);
      var e := EligibleAmong(items, eligible, n - 1);
      var r := EligibleAmong(items, eligible, n);
      if ProductOf(items[n - 1]) in eligible {
        EligibleAmongSound(items, eligible, n - 1);
        forall a, b | 0 <= a < b < |r|
          ensures r[a].id != r[b].id
        {
          assert r[a] == e[a];
          if b < |e| {
            assert r[b] == e[b];
          } else {
            assert r[b] == items[n - 1];
            var j :| 0 <= j < n - 1 && items[j] == e[a];
          }
        }
      } else {
        assert r == e;
      }
    }
  }

  /** The filter keeps exactly the items of eligible products, and keeps rows distinct. */
  lemma EligibleItemsMembers(items: seq<OrderItem>, eligible: set<ProductId>)
    ensures forall k :: 0 <= k < |EligibleItems(items, eligible)| ==>
      EligibleItems(items, eligible)[k] in items && ProductOf(EligibleItems(items, eligible)[k]) in eligible
    ensures forall k :: 0 <= k < |items| && ProductOf(items[k]) in eligible ==> items[k] in EligibleItems(items, eligible)
    ensures DistinctRows(items) ==> DistinctRows(EligibleItems(items, eligible))
  {
    EligibleAmongSound(items, eligible, |items|);
    EligibleAmongComplete(items, eligible, |items|);
    EligibleAmongDistinct(items, eligible, |items|);
  }

  /** One item is kept by the filter exactly when it is given and its product is eligible. */
  lemma EligibleItemsMember(items: seq<OrderItem>, eligible: set<ProductId>, it: OrderItem)
    ensures it in EligibleItems(items, eligible) <==> it in items && ProductOf(it) in eligible
  {
    EligibleItemsMembers(items, eligible);
    if it in EligibleItems(items, eligible) {
      var m :| 0 <= m < |EligibleItems(items, eligible)| && EligibleItems(items, eligible)[m] == it;
    }
    if it in items && ProductOf(it) in eligible {
      var m :| 0 <= m < |items| && items[m] == it;
    }
  }
}
