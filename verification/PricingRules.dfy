/** Price lookup and discount arithmetic, and what the seeded plans promise. */
module PricingRules {
  import opened Options
  import opened SliceSort

  /** Prices are microcents. The engine never reads `maxVolume`; it is what the plan documents say. */
  datatype Tier = Tier(minVolume: int, maxVolume: Option<int>, unitPrice: int)

  datatype Rule = Rule(product: string, country: string, tiers: seq<Tier>)

  datatype Plan = Plan(name: string, rules: seq<Rule>)

  const DEFAULT_PRICE := 30000

  // ----- Rule selection -----

  predicate Exact(r: Rule, product: string, country: string) {
    r.product == product && r.country == country
  }

  predicate Wildcard(r: Rule, product: string) {
    r.product == product && r.country == "*"
  }

  /** `found` is the first rule for exactly this product and country or, without one, the first for the product
      that serves every country; none if there is neither. */
  ghost predicate Matches(rules: seq<Rule>, product: string, country: string, found: Option<Rule>) {
    if exists r :: r in rules && Exact(r, product, country) then
      exists i :: 0 <= i < |rules| && found == Some(rules[i]) && Exact(rules[i], product, country) &&
                  forall j | 0 <= j < i :: !Exact(rules[j], product, country)
    else if exists r :: r in rules && Wildcard(r, product) then
      exists i :: 0 <= i < |rules| && found == Some(rules[i]) && Wildcard(rules[i], product) &&
                  forall j | 0 <= j < i :: !Wildcard(rules[j], product)
    else found == None
  }

  method FindRule(rules: seq<Rule>, product: string, country: string) returns (found: Option<Rule>)
    ensures Matches(rules, product, country, found)
    ensures found.Some? ==> found.value in rules
  {
    found := None;
    for i := 0 to |rules|
      invariant forall j | 0 <= j < i :: !Exact(rules[j], product, country)
      invariant found.None? ==> forall j | 0 <= j < i :: !Wildcard(rules[j], product)
      invariant found.Some? ==>
                  exists k :: 0 <= k < i && found == Some(rules[k]) && Wildcard(rules[k], product) &&
                              forall j | 0 <= j < k :: !Wildcard(rules[j], product)
    {
      var r := rules[i];
      if r.product != product {
        continue;
      }
      if r.country == country {
        found := Some(r);
        assert r in rules && Exact(rules[i], product, country);
        return;
      }
      if r.country == "*" && found == None {
        found := Some(r);
        assert Wildcard(rules[i], product);
      }
    }
  }

  // ----- Tier lookup -----

  function TierKey(t: Tier): int { t.minVolume }

  /** `t` starts at the largest lower bound that the volume reaches or, if it reaches none, at the smallest. */
  ghost predicate Applies(tiers: seq<Tier>, volume: int, t: Tier) {
    && t in tiers
    && if exists u :: u in tiers && u.minVolume <= volume then
         t.minVolume <= volume && forall u | u in tiers && u.minVolume <= volume :: u.minVolume <= t.minVolume
       else forall u | u in tiers :: t.minVolume <= u.minVolume
  }

  /** Sorting a copy and scanning it from the end. */
  method FindTier(tiers: seq<Tier>, volume: int) returns (t: Tier)
    requires tiers != []
    ensures Applies(tiers, volume, t)
  {
    var copy := new Tier[|tiers|](i requires 0 <= i < |tiers| => tiers[i]);
    assert copy[..] == tiers;
    SortSlice(copy, TierKey);
    SortedCopy(tiers, copy[..]);
    var i := copy.Length - 1;
    while i >= 0
      invariant -1 <= i < copy.Length
      invariant forall j | i < j < copy.Length :: volume < copy[j].minVolume
    {
      if volume >= copy[i].minVolume {
        assert copy[..][i] in tiers;
        return copy[i];
      }
      i := i - 1;
    }
    assert copy[..][0] in tiers;
    return copy[0];
  }

  lemma SortedCopy(tiers: seq<Tier>, s: seq<Tier>)
    requires SortOf(TierKey, tiers, s)
    ensures |s| == |tiers|
    ensures forall t :: t in s <==> t in tiers
    ensures forall i, j | 0 <= i <= j < |s| :: s[i].minVolume <= s[j].minVolume
  {
    assert |multiset(s)| == |s| && |multiset(tiers)| == |tiers|;
    forall t ensures t in s <==> t in tiers {
      assert t in s <==> t in multiset(s);
      assert t in tiers <==> t in multiset(tiers);
    }
    forall i, j | 0 <= i <= j < |s| ensures s[i].minVolume <= s[j].minVolume {
      assert TierKey(s[i]) <= TierKey(s[j]);
    }
  }

  /** The volumes a tier is documented for. */
  predicate Contains(t: Tier, volume: int) {
    t.minVolume <= volume && (t.maxVolume.None? || volume <= t.maxVolume.value)
  }

  /** In order, the tiers cover the volumes from 0 on without gap or overlap. */
  ghost predicate Chained(s: seq<Tier>) {
    && s != [] && s[0].minVolume == 0 && s[|s| - 1].maxVolume.None?
    && forall i | 0 <= i < |s| - 1 ::
         s[i].minVolume < s[i + 1].minVolume && s[i].maxVolume == Some(s[i + 1].minVolume - 1)
  }

  lemma {:induction false} ChainGrows(s: seq<Tier>, i: nat, j: nat)
    requires Chained(s) && i < j < |s|
    ensures s[i].minVolume < s[j].minVolume
    decreases j
  {
    if i < j - 1 {
      ChainGrows(s, i, j - 1);
    }
  }

  /** Tier lookup refines interval lookup: whatever the order in which contiguous tiers are stored, the tier that
      applies to a volume is the only one documented for it. */
  lemma TierIsTheInterval(tiers: seq<Tier>, s: seq<Tier>, volume: int, t: Tier)
    requires Chained(s) && multiset(tiers) == multiset(s) && volume >= 0 && Applies(tiers, volume, t)
    ensures Contains(t, volume)
    ensures forall u | u in tiers && Contains(u, volume) :: u == t
  {
    SameMembers(tiers, s);
    assert s[0] in tiers;
    var i :| 0 <= i < |s| && s[i] == t;
    if i < |s| - 1 {
      assert s[i + 1] in tiers;
    }
    forall u | u in tiers && Contains(u, volume) ensures u == t {
      assert u in s;
      var j :| 0 <= j < |s| && s[j] == u;
      if i != j {
        ChainedDoNotOverlap(s, if i < j then i else j, if i < j then j else i, volume);
      }
    }
  }

  lemma SameMembers<T>(xs: seq<T>, ys: seq<T>)
    requires multiset(xs) == multiset(ys)
    ensures forall x :: x in xs <==> x in ys
  {
    forall x ensures x in xs <==> x in ys {
      assert x in xs <==> x in multiset(xs);
      assert x in ys <==> x in multiset(ys);
    }
  }

  lemma ChainedDoNotOverlap(s: seq<Tier>, i: nat, j: nat, volume: int)
    requires Chained(s) && i < j < |s|
    ensures !(Contains(s[i], volume) && Contains(s[j], volume))
  {
    if i + 1 < j {
      ChainGrows(s, i + 1, j);
    }
  }

  // ----- Discounts -----

  const TWO_63 := 0x8000_0000_0000_0000
  const TWO_64 := 0x1_0000_0000_0000_0000

  /** Go's 64-bit integers wrap around. */
  function Wrap(x: int): int {
    (x + TWO_63) % TWO_64 - TWO_63
  }

  /** Go's division rounds toward zero. */
  function Quotient(a: int, b: int): int
    requires b > 0
  {
    if a >= 0 then a / b else -((-a) / b)
  }

  function Discounted(price: int, discount: int): int {
    if discount > 0 then Quotient(Wrap(price * Wrap(100 - discount)), 100) else price
  }

  /** A price whose percentages fit into 64 bits. */
  predicate Fits(price: int) {
    0 <= price <= 92_233_720_368_547_758
  }

  lemma FitsDoesNotWrap(price: int, pct: int)
    requires Fits(price) && 0 <= pct <= 100
    ensures Wrap(pct) == pct && Wrap(price * pct) == price * pct && price * pct >= 0
  {
    ProductMonotone(price, 92_233_720_368_547_758, pct, 100);
    ProductMonotone(0, price, 0, pct);
    InRangeDoesNotWrap(price * pct);
    InRangeDoesNotWrap(pct);
  }

  /** Wrapping around leaves a 64-bit integer, the one that differs by a multiple of 2^64. */
  lemma WrapIsSigned64(x: int) returns (k: int)
    ensures -0x8000_0000_0000_0000 <= Wrap(x) < 0x8000_0000_0000_0000
    ensures Wrap(x) == x + k * 0x1_0000_0000_0000_0000
  {
    k := -((x + TWO_63) / TWO_64);
  }

  lemma InRangeDoesNotWrap(x: int)
    requires -TWO_63 <= x < TWO_63
    ensures Wrap(x) == x
  {
  }

  lemma HundredthTowardZero(n: int)
    ensures var d := Quotient(n, 100); if n >= 0 then 100 * d <= n < 100 * d + 100 else 100 * d - 100 < n <= 100 * d
  {
  }

  /** As long as nothing wraps around, a positive discount takes its percentage, rounded toward zero; another one is
      ignored. */
  lemma DiscountRoundsTowardZero(price: int, discount: int)
    requires -0x8000_0000_0000_0000 <= 100 - discount < 0x8000_0000_0000_0000
    requires -0x8000_0000_0000_0000 <= price * (100 - discount) < 0x8000_0000_0000_0000
    ensures discount <= 0 ==> Discounted(price, discount) == price
    ensures var (d, n) := (Discounted(price, discount), price * (100 - discount));
            discount > 0 ==> if n >= 0 then 100 * d <= n < 100 * d + 100 else 100 * d - 100 < n <= 100 * d
  {
    InRangeDoesNotWrap(100 - discount);
    InRangeDoesNotWrap(price * (100 - discount));
    HundredthTowardZero(price * (100 - discount));
  }

  /** A discount of 0 to 100 percent is exact up to a fraction of a microcent, always rounded down. */
  lemma DiscountIsFloor(price: int, discount: int)
    requires Fits(price) && 0 <= discount <= 100
    ensures var d := Discounted(price, discount);
            100 * d <= price * (100 - discount) < 100 * d + 100 && 0 <= d <= price
  {
    FitsDoesNotWrap(price, 100 - discount);
    assert price * (100 - discount) <= price * 100;
  }

  lemma ProductMonotone(a: int, b: int, c: int, d: int)
    requires 0 <= a <= b && 0 <= c <= d
    ensures a * c <= b * d
  {
    assert a * c <= b * c <= b * d;
  }

  /** A lower price, or a larger discount up to 100 percent, never costs more; a negative discount is ignored. */
  lemma DiscountIsMonotone(price1: int, price2: int, discount1: int, discount2: int)
    requires Fits(price1) && Fits(price2) && price2 <= price1 && discount1 <= discount2 <= 100
    ensures Discounted(price2, discount2) <= Discounted(price1, discount1)
  {
    if discount2 > 0 {
      DiscountIsFloor(price2, discount2);
      if discount1 > 0 {
        DiscountIsFloor(price1, discount1);
        ProductMonotone(price2, price1, 100 - discount2, 100 - discount1);
      }
    }
  }

  /** The engine does not check the discount it is given: a lower list price leads to a lower quote exactly for
      discounts up to 100 percent. */
  lemma MonotoneExactlyUpToHundred(discount: int)
    requires -TWO_63 <= discount < TWO_63
    ensures (forall p, q | Fits(p) && Fits(q) && q <= p :: Discounted(q, discount) <= Discounted(p, discount))
            <==> discount <= 100
  {
    if discount <= 100 {
      forall p, q | Fits(p) && Fits(q) && q <= p ensures Discounted(q, discount) <= Discounted(p, discount) {
        DiscountIsMonotone(p, q, discount, discount);
      }
    } else {
      var p := if discount < 200 then 100 else 1;
      assert Discounted(0, discount) == 0 > Discounted(p, discount);
      assert Fits(p) && Fits(0);
    }
  }

  /** Prices do not rise from one tier to a later one, and all fit. */
  ghost predicate Falling(tiers: seq<Tier>) {
    && (forall t | t in tiers :: Fits(t.unitPrice))
    && (forall t, u | t in tiers && u in tiers && t.minVolume <= u.minVolume :: u.unitPrice <= t.unitPrice)
  }

  /** More volume and more discount never cost more per unit. */
  lemma MoreVolumeNeverCostsMore(tiers: seq<Tier>, low: int, high: int, t: Tier, u: Tier, discount1: int, discount2: int)
    requires Falling(tiers) && low <= high && Applies(tiers, low, t) && Applies(tiers, high, u)
    requires discount1 <= discount2 <= 100
    ensures Discounted(u.unitPrice, discount2) <= Discounted(t.unitPrice, discount1)
  {
    assert t.minVolume <= u.minVolume;
    DiscountIsMonotone(t.unitPrice, u.unitPrice, discount1, discount2);
  }

  // ----- The seeded plans -----

  function Flat(product: string, price: int): Rule {
    Rule(product, "*", [Tier(0, None, price)])
  }

  const PAYG := Plan("Pay As You Go", [
    Flat("silent_verify", 30000), Flat("sms_otp", 45000), Flat("whatsapp_otp", 60000), Flat("sim_swap", 10000)])

  const GROWTH := Plan("Growth", [
    Rule("silent_verify", "*", [Tier(0, Some(10000), 25000), Tier(10001, Some(100000), 20000), Tier(100001, None, 15000)]),
    Rule("sms_otp", "*", [Tier(0, Some(10000), 40000), Tier(10001, None, 30000)]),
    Flat("sim_swap", 8000)])

  const ENTERPRISE := Plan("Enterprise", [
    Flat("silent_verify", 12000), Flat("sms_otp", 25000), Flat("sim_swap", 5000)])

  /** Contiguous tiers with falling prices. */
  ghost predicate GoodRule(r: Rule) {
    Chained(r.tiers) && Falling(r.tiers)
  }

  ghost predicate GoodPlan(p: Plan) {
    forall i | 0 <= i < |p.rules| :: GoodRule(p.rules[i])
  }

  lemma FlatIsGood(product: string, price: int)
    requires Fits(price)
    ensures GoodRule(Flat(product, price))
  {
  }

  lemma TwoTiersAreGood(product: string, a: Tier, b: Tier)
    requires a.minVolume == 0 && a.maxVolume == Some(b.minVolume - 1) && 0 < b.minVolume && b.maxVolume == None
    requires Fits(a.unitPrice) && Fits(b.unitPrice) && b.unitPrice <= a.unitPrice
    ensures GoodRule(Rule(product, "*", [a, b]))
  {
  }

  lemma ThreeTiersAreGood(product: string, a: Tier, b: Tier, c: Tier)
    requires a.minVolume == 0 && a.maxVolume == Some(b.minVolume - 1) && 0 < b.minVolume
    requires b.maxVolume == Some(c.minVolume - 1) && b.minVolume < c.minVolume && c.maxVolume == None
    requires Fits(a.unitPrice) && Fits(b.unitPrice) && Fits(c.unitPrice)
    requires c.unitPrice <= b.unitPrice <= a.unitPrice
    ensures GoodRule(Rule(product, "*", [a, b, c]))
  {
  }

  lemma RulesMakePlan(p: Plan, a: Rule, b: Rule, c: Rule)
    requires p.rules == [a, b, c] && GoodRule(a) && GoodRule(b) && GoodRule(c)
    ensures GoodPlan(p)
  {
  }

  lemma PaygIsGood()
    ensures GoodPlan(PAYG)
  {
    FlatIsGood("silent_verify", 30000);
    FlatIsGood("sms_otp", 45000);
    FlatIsGood("whatsapp_otp", 60000);
    FlatIsGood("sim_swap", 10000);
  }

  lemma GrowthIsGood()
    ensures GoodPlan(GROWTH)
  {
    var (a, b, c) := (GROWTH.rules[0], GROWTH.rules[1], GROWTH.rules[2]);
    ThreeTiersAreGood("silent_verify", a.tiers[0], a.tiers[1], a.tiers[2]);
    TwoTiersAreGood("sms_otp", b.tiers[0], b.tiers[1]);
    FlatIsGood("sim_swap", 8000);
    RulesMakePlan(GROWTH, a, b, c);
  }

  lemma EnterpriseIsGood()
    ensures GoodPlan(ENTERPRISE)
  {
    FlatIsGood("silent_verify", 12000);
    FlatIsGood("sms_otp", 25000);
    FlatIsGood("sim_swap", 5000);
    RulesMakePlan(ENTERPRISE, Flat("silent_verify", 12000), Flat("sms_otp", 25000), Flat("sim_swap", 5000));
  }

  /** All seeded plans have contiguous tiers with falling prices, so the lemmas above hold of every price that
      the engine quotes from a plan. */
  lemma SeededPlansAreGood()
    ensures GoodPlan(PAYG) && GoodPlan(GROWTH) && GoodPlan(ENTERPRISE)
  {
    PaygIsGood();
    GrowthIsGood();
    EnterpriseIsGood();
  }
}
