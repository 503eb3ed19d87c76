/**
 * The discount configuration rules (`DiscountBase.CONFIG_OPTIONS`) and the
 * set of products a configuration makes eligible.
 */
module Eligibility {
  import opened Wrappers
  import opened Orders

  /** The keyword arguments one rule is called with: name -> set of primary keys. */
  type Parameters = map<string, set<int>>

  /** The parsed `config` of a discount: rule key -> its parameters. */
  type Config = map<string, Parameters>

  /** The variation filters a rule can contribute. */
  datatype VariationQuery =
    | ProductIn   // the variation's product is one of the given products (models.py line 55)
    | CategoryIn  // the variation's product lies in one of the given categories (models.py line 70)

  /** The order-item filters a rule can contribute. */
  datatype OrderItemQuery =
    | NotOnSale   // the order item is not sold at a sale price, whatever the parameters (models.py line 40)

  /** One registered rule: an optional variation query and an optional order-item query. */
  datatype ConfigOption = ConfigOption(variationQuery: Option<VariationQuery>, orderItemQuery: Option<OrderItemQuery>)

  /** The registry of rules by key (models.py lines 34-72). `all` has no query at all. */
  const CONFIG_OPTIONS: map<string, ConfigOption> := map[
    "all" := ConfigOption(None, None),
    "exclude_sale" := ConfigOption(None, Some(NotOnSale)),
    "products" := ConfigOption(Some(ProductIn), None),
    "only_categories" := ConfigOption(Some(CategoryIn), None)
  ]

  /** The single keyword argument a variation query's lambda takes. */
  function Keyword(q: VariationQuery): string {
    match q
    case ProductIn => "products"
    case CategoryIn => "categories"
  }

  /**
   * Every key is registered (otherwise the registry lookup at line 108 raises
   * KeyError) and a rule with a variation query is given exactly the keyword
   * its lambda accepts (otherwise the call raises TypeError).
   */
  predicate WellFormed(config: Config) {
    forall key :: key in config ==>
      key in CONFIG_OPTIONS &&
      (CONFIG_OPTIONS[key].variationQuery.Some? ==>
        config[key].Keys == {Keyword(CONFIG_OPTIONS[key].variationQuery.value)})
  }

  predicate VariationMatches(q: VariationQuery, params: Parameters, v: Variation)
    requires Keyword(q) in params
  {
    match q
    case ProductIn => v.product in params["products"]
    case CategoryIn => v.categories * params["categories"] != {}
  }

  predicate OrderItemMatches(q: OrderItemQuery, item: OrderItem) {
    match q
    case NotOnSale => !item.isSale
  }

  /** The variation passes the rule configured under `key` (a rule without a variation query passes all). */
  predicate PassesVariationRule(config: Config, key: string, v: Variation)
    requires WellFormed(config) && key in config
  {
    match CONFIG_OPTIONS[key].variationQuery
    case None => true
    case Some(q) => VariationMatches(q, config[key], v)
  }

  /** The order item passes the rule configured under `key` (a rule without an order-item query passes all). */
  predicate PassesOrderItemRule(config: Config, key: string, item: OrderItem)
    requires WellFormed(config) && key in config
  {
    match CONFIG_OPTIONS[key].orderItemQuery
    case None => true
    case Some(q) => OrderItemMatches(q, item)
  }

  predicate PassesVariationRules(config: Config, keys: set<string>, v: Variation)
    requires WellFormed(config) && keys <= config.Keys
  {
    forall key :: key in keys ==> PassesVariationRule(config, key, v)
  }

  predicate PassesOrderItemRules(config: Config, keys: set<string>, item: OrderItem)
    requires WellFormed(config) && keys <= config.Keys
  {
    forall key :: key in keys ==> PassesOrderItemRule(config, key, item)
  }

  /** The candidate products: a missing or empty collection means every product (models.py line 96). */
  function Restrict(s: set<ProductId>, products: Option<set<ProductId>>): (r: set<ProductId>)
    ensures r <= s
    ensures products.Some? && products.value != {} ==> r == s * products.value
    ensures products.None? || products.value == {} ==> r == s
  {
    match products
    case None => s
    case Some(p) => if p == {} then s else s * p
  }

  /**
   * The eligible products, stated per product: a product is eligible when it
   * is a candidate, some item's variation of it passes every variation query
   * and some item of it passes every order-item query. The two items need
   * not be the same one.
   */
  function Eligible(config: Config, items: seq<OrderItem>, products: Option<set<ProductId>>): set<ProductId>
    requires WellFormed(config)
  {
    var fromVariations := set it | it in items && PassesVariationRules(config, config.Keys, it.variation) :: ProductOf(it);
    var fromOrderItems := set it | it in items && PassesOrderItemRules(config, config.Keys, it) :: ProductOf(it);
    Restrict(fromVariations * fromOrderItems, products)
  }

  /**
   * Every eligible product is the product of some given item, and a
   * non-empty candidate collection bounds the result.
   */
  lemma EligibleWithinItemsAndCandidates(config: Config, items: seq<OrderItem>, products: Option<set<ProductId>>)
    requires WellFormed(config)
    ensures forall p :: p in Eligible(config, items, products) ==> exists k :: 0 <= k < |items| && ProductOf(items[k]) == p
    ensures products.Some? && products.value != {} ==> Eligible(config, items, products) <= products.value
  {
    forall p | p in Eligible(config, items, products)
      ensures exists k :: 0 <= k < |items| && ProductOf(items[k]) == p
    {
      var it :| it in items && ProductOf(it) == p;
      var k :| 0 <= k < |items| && items[k] == it;
    }
  }

  /** Adding a rule under a new key can only remove products: rules compose by AND. */
  lemma RulesOnlyNarrow(config: Config, key: string, params: Parameters, items: seq<OrderItem>, products: Option<set<ProductId>>)
    requires WellFormed(config) && key !in config
    requires WellFormed(config[key := params])
    ensures Eligible(config[key := params], items, products) <= Eligible(config, items, products)
  {
    var wider := config[key := params];
    forall it | it in items && PassesVariationRules(wider, wider.Keys, it.variation)
      ensures PassesVariationRules(config, config.Keys, it.variation)
    {
      forall k | k in config ensures PassesVariationRule(config, k, it.variation) {
        assert PassesVariationRule(wider, k, it.variation);
      }
    }
    forall it | it in items && PassesOrderItemRules(wider, wider.Keys, it)
      ensures PassesOrderItemRules(config, config.Keys, it)
    {
      forall k | k in config ensures PassesOrderItemRule(config, k, it) {
        assert PassesOrderItemRule(wider, k, it);
      }
    }
  }

  /** `all` contributes no query: configuring it, with any parameters, changes nothing. */
  lemma AllRuleIsNeutral(config: Config, params: Parameters, items: seq<OrderItem>, products: Option<set<ProductId>>)
    requires WellFormed(config)
    ensures WellFormed(config["all" := params])
    ensures Eligible(config["all" := params], items, products) == Eligible(config, items, products)
  {
    var withAll := config["all" := params];
    assert WellFormed(withAll);
    forall it | it in items
      ensures PassesVariationRules(withAll, withAll.Keys, it.variation) == PassesVariationRules(config, config.Keys, it.variation)
      ensures PassesOrderItemRules(withAll, withAll.Keys, it) == PassesOrderItemRules(config, config.Keys, it)
    {
      if PassesVariationRules(config, config.Keys, it.variation) {
        forall k | k in withAll ensures PassesVariationRule(withAll, k, it.variation) {
          if k != "all" { assert PassesVariationRule(config, k, it.variation); }
        }
      }
      if PassesVariationRules(withAll, withAll.Keys, it.variation) {
        forall k | k in config ensures PassesVariationRule(config, k, it.variation) {
          assert PassesVariationRule(withAll, k, it.variation);
        }
      }
      if PassesOrderItemRules(config, config.Keys, it) {
        forall k | k in withAll ensures PassesOrderItemRule(withAll, k, it) {
          if k != "all" { assert PassesOrderItemRule(config, k, it); }
        }
      }
      if PassesOrderItemRules(withAll, withAll.Keys, it) {
        forall k | k in config ensures PassesOrderItemRule(config, k, it) {
          assert PassesOrderItemRule(withAll, k, it);
        }
      }
    }
  }

  /**
   * With only `all` configured (or nothing at all), every product ordered is
   * eligible, restricted to the candidates.
   */
  lemma OnlyAllKeepsOrderedProducts(params: Parameters, items: seq<OrderItem>, products: Option<set<ProductId>>)
    ensures WellFormed(map["all" := params])
    ensures Eligible(map["all" := params], items, products) == Restrict(set it | it in items :: ProductOf(it), products)
  {
    AllRuleIsNeutral(map[], params, items, products);
    assert map[]["all" := params] == map["all" := params];
  }

  /**
   * Eligibility is decided per product: under `exclude_sale`, a product is
   * eligible as soon as one of its items is not on sale, so a sale-priced
   * item of the same product is discounted as well.
   */
  lemma ExcludeSaleIsPerProduct(params: Parameters, items: seq<OrderItem>, i: nat, j: nat)
    requires i < |items| && j < |items|
    requires items[i].isSale && !items[j].isSale && ProductOf(items[i]) == ProductOf(items[j])
    ensures WellFormed(map["exclude_sale" := params])
    ensures ProductOf(items[i]) in Eligible(map["exclude_sale" := params], items, None)
  {
    var config := map["exclude_sale" := params];
    assert PassesVariationRules(config, config.Keys, items[i].variation);
    assert PassesOrderItemRules(config, config.Keys, items[j]);
  }

  /**
   * Configured alone, `exclude_sale` makes eligible exactly the products of
   * the ordered items that are not on sale, within the candidates: a product
   * whose items are all on sale is not eligible.
   */
  lemma ExcludeSaleRuleSelects(params: Parameters, items: seq<OrderItem>, products: Option<set<ProductId>>)
    ensures WellFormed(map["exclude_sale" := params])
    ensures Eligible(map["exclude_sale" := params], items, products)
      == Restrict(set it | it in items && !it.isSale :: ProductOf(it), products)
  {
    var config := map["exclude_sale" := params];
    var fromVariations := set it | it in items && PassesVariationRules(config, config.Keys, it.variation) :: ProductOf(it);
    var fromOrderItems := set it | it in items && PassesOrderItemRules(config, config.Keys, it) :: ProductOf(it);
    forall it | it in items
      ensures PassesVariationRules(config, config.Keys, it.variation)
      ensures PassesOrderItemRules(config, config.Keys, it) <==> !it.isSale
    {
      assert PassesVariationRule(config, "exclude_sale", it.variation);
      assert PassesOrderItemRules(config, config.Keys, it) <==> PassesOrderItemRule(config, "exclude_sale", it);
    }
    assert fromOrderItems <= fromVariations;
    assert fromVariations * fromOrderItems == fromOrderItems;
  }

  /**
   * Configured alone, `products` makes eligible exactly the ordered products
   * that are among the products it is given, within the candidates.
   */
  lemma ProductsRuleSelects(params: Parameters, items: seq<OrderItem>, products: Option<set<ProductId>>)
    requires params.Keys == {"products"}
    ensures WellFormed(map["products" := params])
    ensures Eligible(map["products" := params], items, products)
      == Restrict((set it | it in items :: ProductOf(it)) * params["products"], products)
  {
    var config := map["products" := params];
    var fromVariations := set it | it in items && PassesVariationRules(config, config.Keys, it.variation) :: ProductOf(it);
    var fromOrderItems := set it | it in items && PassesOrderItemRules(config, config.Keys, it) :: ProductOf(it);
    forall it | it in items
      ensures PassesVariationRules(config, config.Keys, it.variation) <==> ProductOf(it) in params["products"]
      ensures PassesOrderItemRules(config, config.Keys, it)
    {
      assert PassesVariationRules(config, config.Keys, it.variation) <==> PassesVariationRule(config, "products", it.variation);
      assert PassesOrderItemRule(config, "products", it);
    }
    assert fromVariations * fromOrderItems == (set it | it in items :: ProductOf(it)) * params["products"];
  }

  /**
   * Configured alone, `only_categories` makes eligible exactly the ordered
   * products one of whose variations shares a category with the given ones,
   * within the candidates.
   */
  lemma OnlyCategoriesRuleSelects(params: Parameters, items: seq<OrderItem>, products: Option<set<ProductId>>)
    requires params.Keys == {"categories"}
    ensures WellFormed(map["only_categories" := params])
    ensures Eligible(map["only_categories" := params], items, products)
      == Restrict(set it | it in items && it.variation.categories * params["categories"] != {} :: ProductOf(it), products)
  {
    var config := map["only_categories" := params];
    var fromVariations := set it | it in items && PassesVariationRules(config, config.Keys, it.variation) :: ProductOf(it);
    var fromOrderItems := set it | it in items && PassesOrderItemRules(config, config.Keys, it) :: ProductOf(it);
    forall it | it in items
      ensures PassesVariationRules(config, config.Keys, it.variation) <==> it.variation.categories * params["categories"] != {}
      ensures PassesOrderItemRules(config, config.Keys, it)
    {
      assert PassesVariationRules(config, config.Keys, it.variation) <==> PassesVariationRule(config, "only_categories", it.variation);
      assert PassesOrderItemRule(config, "only_categories", it);
    }
    assert fromVariations * fromOrderItems
      == set it | it in items && it.variation.categories * params["categories"] != {} :: ProductOf(it);
  }
}
