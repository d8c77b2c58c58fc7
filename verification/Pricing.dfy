/** Tenant pricing over whole runs of commands. */
module PricingRuns {
  import opened Options
  import opened PricingRules

  /** The text under which an override or an upstream cost is stored. */
  function Key(product: string, country: string): string {
    product + ":" + country
  }

  lemma FirstColon(p: string, c: string, q: string, d: string)
    requires Key(p, c) == Key(q, d) && |p| < |q|
    ensures ':' in q && ':' in c
  {
    assert Key(p, c)[|p|] == ':' && Key(q, d)[|p|] == q[|p|];
    assert |p| + 1 + |c| == |q| + 1 + |d|;
    assert Key(q, d)[|q|] == ':' && Key(p, c)[|q|] == c[|q| - |p| - 1];
  }

  /** Two pairs whose products have no ':' share a text only if they are equal. */
  lemma KeyIsInjective(p: string, c: string, q: string, d: string)
    requires ':' !in p && ':' !in q && Key(p, c) == Key(q, d)
    ensures p == q && c == d
  {
    if |p| < |q| {
      FirstColon(p, c, q, d);
    } else if |q| < |p| {
      FirstColon(q, d, p, c);
    }
    assert p == Key(p, c)[..|p|] && q == Key(q, d)[..|q|];
    assert c == Key(p, c)[|p| + 1..] && d == Key(q, d)[|q| + 1..];
  }

  lemma IndexOfColon(s: string) returns (i: nat)
    requires ':' in s
    ensures i < |s| && s[i] == ':' && s == s[..i] + ":" + s[i + 1..]
  {
    i :| 0 <= i < |s| && s[i] == ':';
  }

  /** A text belongs to one pair alone exactly when neither part has a ':'. */
  lemma KeyIsOwnExactlyWithoutColons(p: string, c: string)
    ensures (forall q, d :: Key(q, d) == Key(p, c) ==> q == p && d == c) <==> ':' !in p && ':' !in c
  {
    if ':' in p {
      var i := IndexOfColon(p);
      var (q, d) := (p[..i], p[i + 1..] + ":" + c);
      assert Key(q, d) == Key(p, c) && |q| < |p|;
    } else if ':' in c {
      var i := IndexOfColon(c);
      var (q, d) := (p + ":" + c[..i], c[i + 1..]);
      assert Key(q, d) == Key(p, c) && |q| > |p|;
    } else {
      forall q, d | Key(q, d) == Key(p, c) ensures q == p && d == c {
        if |p| < |q| {
          FirstColon(p, c, q, d);
        } else if |q| < |p| {
          FirstColon(q, d, p, c);
        }
        assert p == Key(p, c)[..|p|] && q == Key(q, d)[..|q|];
        assert c == Key(p, c)[|p| + 1..] && d == Key(q, d)[|q| + 1..];
      }
    }
  }

  // ----- The commands and their state -----

  datatype Command =
    | SetPlan(tenant: string, plan: string, discount: int)
    | SetPrice(tenant: string, product: string, country: string, price: int)

  datatype Tenant = Tenant(plan: string, discount: int, overrides: map<string, int>)

  type Tenants = map<string, Tenant>

  /** What a tenant without a plan of its own gets. */
  const NewTenant := Tenant("plan_payg", 0, map[])

  function Stored(ts: Tenants, tenant: string): Tenant {
    if tenant in ts then ts[tenant] else NewTenant
  }

  function Execute(ts: Tenants, c: Command): Tenants {
    match c
    case SetPlan(tenant, plan, discount) => ts[tenant := Tenant(plan, discount, map[])]
    case SetPrice(tenant, product, country, price) =>
      var t := Stored(ts, tenant);
      ts[tenant := t.(overrides := t.overrides[Key(product, country) := price])]
  }

  function After(cs: seq<Command>): Tenants {
    if cs == [] then map[] else Execute(After(cs[..|cs| - 1]), cs[|cs| - 1])
  }

  lemma AfterSnoc(cs: seq<Command>, c: Command)
    ensures After(cs + [c]) == After(cs)[c.tenant := Execute(After(cs), c)[c.tenant]]
  {
    assert (cs + [c])[..|cs + [c]| - 1] == cs;
  }

  // ----- What the commands say by themselves -----

  /** The plan and discount of the latest plan command of the tenant. */
  function LatestPlan(cs: seq<Command>, tenant: string): (string, int) {
    if cs == [] then ("plan_payg", 0)
    else
      var last := cs[|cs| - 1];
      if last.SetPlan? && last.tenant == tenant then (last.plan, last.discount)
      else LatestPlan(cs[..|cs| - 1], tenant)
  }

  /** The latest price set for this tenant under a text since the tenant's latest plan. */
  function LatestAtText(cs: seq<Command>, tenant: string, text: string): Option<int> {
    if cs == [] then None
    else
      var last := cs[|cs| - 1];
      if last.tenant != tenant then LatestAtText(cs[..|cs| - 1], tenant, text)
      else if last.SetPlan? then None
      else if Key(last.product, last.country) == text then Some(last.price)
      else LatestAtText(cs[..|cs| - 1], tenant, text)
  }

  /** The latest price set for exactly this tenant, product and country since the tenant's latest plan. */
  function LatestPrice(cs: seq<Command>, tenant: string, product: string, country: string): Option<int> {
    if cs == [] then None
    else
      var last := cs[|cs| - 1];
      if last.tenant != tenant then LatestPrice(cs[..|cs| - 1], tenant, product, country)
      else if last.SetPlan? then None
      else if last.product == product && last.country == country then Some(last.price)
      else LatestPrice(cs[..|cs| - 1], tenant, product, country)
  }

  predicate PlainProducts(cs: seq<Command>) {
    forall i | 0 <= i < |cs| :: cs[i].SetPrice? ==> ':' !in cs[i].product
  }

  lemma {:induction false} PlanIsLatest(cs: seq<Command>, tenant: string)
    ensures var t := Stored(After(cs), tenant); (t.plan, t.discount) == LatestPlan(cs, tenant)
  {
    if cs != [] {
      PlanIsLatest(cs[..|cs| - 1], tenant);
    }
  }

  /** The stored overrides are the latest prices by text; a new plan clears them all. */
  lemma {:induction false} OverrideIsLatest(cs: seq<Command>, tenant: string, text: string)
    ensures var t := Stored(After(cs), tenant);
            (if text in t.overrides then Some(t.overrides[text]) else None) == LatestAtText(cs, tenant, text)
  {
    if cs != [] {
      OverrideIsLatest(cs[..|cs| - 1], tenant, text);
    }
  }

  /** Over products without ':' each pair finds its own latest price and never that of another pair. */
  lemma {:induction false} TextIndexIsExact(cs: seq<Command>, tenant: string, product: string, country: string)
    requires PlainProducts(cs) && ':' !in product
    ensures LatestAtText(cs, tenant, Key(product, country)) == LatestPrice(cs, tenant, product, country)
  {
    if cs != [] {
      var last := cs[|cs| - 1];
      TextIndexIsExact(cs[..|cs| - 1], tenant, product, country);
      if last.SetPrice? && Key(last.product, last.country) == Key(product, country) {
        KeyIsInjective(last.product, last.country, product, country);
      }
    }
  }

  // ----- Quotes -----

  datatype Quote = Quote(unitPrice: int, upstreamCost: int, margin: int, tier: string, discount: int)

  const DEFAULT_COST := 10000

  function UpstreamCost(costs: map<string, int>, product: string, country: string): int {
    if Key(product, country) in costs then costs[Key(product, country)]
    else if Key(product, "*") in costs then costs[Key(product, "*")]
    else DEFAULT_COST
  }

  type Plans = map<string, Plan>

  /** Every rule of every plan has a tier, and there is a pay-as-you-go plan to fall back on. */
  ghost predicate Usable(plans: Plans) {
    "plan_payg" in plans && forall id | id in plans :: forall r | r in plans[id].rules :: r.tiers != []
  }

  function ChosenPlan(plans: Plans, id: string): Plan
    requires "plan_payg" in plans
  {
    if id in plans then plans[id] else plans["plan_payg"]
  }

  /** A unit price that a plan lists for a product, a country and a volume. */
  ghost predicate ListPrice(p: Plan, product: string, country: string, volume: int, price: int) {
    || (Matches(p.rules, product, country, None) && price == DEFAULT_PRICE)
    || (exists r, t :: r in p.rules && Matches(p.rules, product, country, Some(r)) && Applies(r.tiers, volume, t) &&
                       price == t.unitPrice)
  }

  /** What the run of commands calls for: the latest price under the text of the pair as it stands, else the list
      price of the latest plan (pay-as-you-go if that is unknown) less the discount; the margin is price minus
      cost. */
  ghost predicate Quotes(plans: Plans, costs: map<string, int>, cs: seq<Command>,
                         tenant: string, product: string, country: string, volume: int, q: Quote)
    requires "plan_payg" in plans
  {
    var (id, discount) := LatestPlan(cs, tenant);
    var plan := ChosenPlan(plans, id);
    && q.upstreamCost == UpstreamCost(costs, product, country)
    && q.margin == Wrap(q.unitPrice - q.upstreamCost)
    && q.discount == discount
    && match LatestAtText(cs, tenant, Key(product, country))
       case Some(price) => q.unitPrice == price && q.tier == "custom"
       case None =>
         q.tier == plan.name &&
         exists price :: ListPrice(plan, product, country, volume, price) && q.unitPrice == Discounted(price, discount)
  }

  lemma MatchIsUnique(p: Plan, product: string, country: string, a: Option<Rule>, b: Option<Rule>)
    requires Matches(p.rules, product, country, a) && Matches(p.rules, product, country, b)
    ensures a == b
  {
  }

  lemma ListPriceSource(p: Plan, product: string, country: string, volume: int, price: int)
    returns (found: Option<Rule>, t: Tier)
    requires ListPrice(p, product, country, volume, price)
    ensures Matches(p.rules, product, country, found)
    ensures found.None? ==> price == DEFAULT_PRICE
    ensures found.Some? ==> found.value in p.rules && Applies(found.value.tiers, volume, t) && price == t.unitPrice
  {
    found, t := None, Tier(0, None, 0);
    if !(Matches(p.rules, product, country, None) && price == DEFAULT_PRICE) {
      var r, u :| r in p.rules && Matches(p.rules, product, country, Some(r)) && Applies(r.tiers, volume, u) &&
                  price == u.unitPrice;
      found, t := Some(r), u;
    }
  }

  lemma TierPriceFalls(r: Rule, low: int, high: int, t: Tier, u: Tier)
    requires GoodRule(r) && low <= high && Applies(r.tiers, low, t) && Applies(r.tiers, high, u)
    ensures u.unitPrice <= t.unitPrice && Fits(t.unitPrice) && Fits(u.unitPrice)
  {
    assert t.minVolume <= u.minVolume;
  }

  lemma ListPriceFalls(p: Plan, product: string, country: string, low: int, high: int, price1: int, price2: int)
    requires GoodPlan(p) && low <= high
    requires ListPrice(p, product, country, low, price1) && ListPrice(p, product, country, high, price2)
    ensures price2 <= price1 && Fits(price1) && Fits(price2)
  {
    var found1, t1 := ListPriceSource(p, product, country, low, price1);
    var found2, t2 := ListPriceSource(p, product, country, high, price2);
    MatchIsUnique(p, product, country, found1, found2);
    if found1.Some? {
      var i :| 0 <= i < |p.rules| && p.rules[i] == found1.value;
      TierPriceFalls(found1.value, low, high, t1, t2);
    }
  }

  /** With good plans and a discount of at most 100 percent, the quoted unit price never rises with the volume; a
      quote from an override does not depend on the volume at all. */
  lemma QuotesFallWithVolume(plans: Plans, costs: map<string, int>, cs: seq<Command>, tenant: string,
                             product: string, country: string, low: int, high: int, a: Quote, b: Quote)
    requires "plan_payg" in plans && (forall id | id in plans :: GoodPlan(plans[id])) && low <= high
    requires LatestPlan(cs, tenant).1 <= 100
    requires Quotes(plans, costs, cs, tenant, product, country, low, a)
    requires Quotes(plans, costs, cs, tenant, product, country, high, b)
    ensures b.unitPrice <= a.unitPrice
    ensures LatestAtText(cs, tenant, Key(product, country)).Some? ==> a == b
  {
    if LatestAtText(cs, tenant, Key(product, country)).None? {
      var (id, discount) := LatestPlan(cs, tenant);
      var plan := ChosenPlan(plans, id);
      var p1 :| ListPrice(plan, product, country, low, p1) && a.unitPrice == Discounted(p1, discount);
      var p2 :| ListPrice(plan, product, country, high, p2) && b.unitPrice == Discounted(p2, discount);
      ListPriceFalls(plan, product, country, low, high, p1, p2);
      DiscountIsMonotone(p1, p2, discount, discount);
    }
  }

  /** Upstream costs of other products and countries leave a quote as it is. */
  lemma OtherCostsDoNotMatter(plans: Plans, costs: map<string, int>, cs: seq<Command>, tenant: string, product: string,
                              country: string, volume: int, q: Quote, text: string, cost: int)
    requires "plan_payg" in plans && text != product + ":" + country && text != product + ":*"
    ensures Quotes(plans, costs, cs, tenant, product, country, volume, q) <==>
            Quotes(plans, costs[text := cost], cs, tenant, product, country, volume, q)
  {
    assert product + ":*" == Key(product, "*");
  }

  // ----- The seeded prices -----

  /** The only rule of a plan for a product, for every country. */
  predicate OnlyRule(p: Plan, i: nat) {
    && i < |p.rules| && p.rules[i].country == "*"
    && forall j | 0 <= j < |p.rules| && j != i :: p.rules[j].product != p.rules[i].product
  }

  lemma OnlyRuleMatches(p: Plan, i: nat, country: string)
    requires OnlyRule(p, i)
    ensures Matches(p.rules, p.rules[i].product, country, Some(p.rules[i]))
  {
    var product := p.rules[i].product;
    assert p.rules[i] in p.rules && Wildcard(p.rules[i], product);
    forall r | r in p.rules && r.product == product ensures r == p.rules[i] {}
    assert country == "*" <==> Exact(p.rules[i], product, country);
  }

  lemma OnlyRulePrices(p: Plan, i: nat, country: string, volume: int, price: int)
    requires OnlyRule(p, i)
    ensures ListPrice(p, p.rules[i].product, country, volume, price) <==>
            exists t :: Applies(p.rules[i].tiers, volume, t) && price == t.unitPrice
  {
    var product := p.rules[i].product;
    OnlyRuleMatches(p, i, country);
    forall found | Matches(p.rules, product, country, found) ensures found == Some(p.rules[i]) {
      MatchIsUnique(p, product, country, found, Some(p.rules[i]));
    }
    assert p.rules[i] in p.rules;
  }

  lemma FlatPrice(t: Tier, volume: int)
    ensures forall u :: Applies([t], volume, u) <==> u == t
  {
  }

  lemma PaygPrices(country: string, volume: int, price: int)
    ensures ListPrice(PAYG, "silent_verify", country, volume, price) <==> price == 30000
    ensures ListPrice(PAYG, "sms_otp", country, volume, price) <==> price == 45000
    ensures ListPrice(PAYG, "whatsapp_otp", country, volume, price) <==> price == 60000
    ensures ListPrice(PAYG, "sim_swap", country, volume, price) <==> price == 10000
  {
    forall i | 0 <= i < |PAYG.rules|
      ensures ListPrice(PAYG, PAYG.rules[i].product, country, volume, price) <==> price == PAYG.rules[i].tiers[0].unitPrice
    {
      FlatPriceOf(PAYG, i, country, volume, price);
    }
    assert PAYG.rules[0].product == "silent_verify" && PAYG.rules[1].product == "sms_otp";
    assert PAYG.rules[2].product == "whatsapp_otp" && PAYG.rules[3].product == "sim_swap";
  }

  lemma FlatPriceOf(p: Plan, i: nat, country: string, volume: int, price: int)
    requires OnlyRule(p, i) && |p.rules[i].tiers| == 1
    ensures ListPrice(p, p.rules[i].product, country, volume, price) <==> price == p.rules[i].tiers[0].unitPrice
  {
    var t := p.rules[i].tiers[0];
    assert p.rules[i].tiers == [t];
    OnlyRulePrices(p, i, country, volume, price);
    FlatPrice(t, volume);
    assert Applies([t], volume, t);
  }

  lemma GrowthPrices(country: string, volume: int, price: int)
    ensures ListPrice(GROWTH, "silent_verify", country, volume, price) <==>
            price == if volume <= 10000 then 25000 else if volume <= 100000 then 20000 else 15000
    ensures ListPrice(GROWTH, "sms_otp", country, volume, price) <==> price == if volume <= 10000 then 40000 else 30000
    ensures ListPrice(GROWTH, "sim_swap", country, volume, price) <==> price == 8000
  {
    var (a, b, c) := (GROWTH.rules[0], GROWTH.rules[1], GROWTH.rules[2]);
    assert a.product == "silent_verify" && b.product == "sms_otp" && c.product == "sim_swap";
    OnlyRulePrices(GROWTH, 0, country, volume, price);
    OnlyRulePrices(GROWTH, 1, country, volume, price);
    FlatPriceOf(GROWTH, 2, country, volume, price);
    ThreeTierPrice(a.tiers[0], a.tiers[1], a.tiers[2], volume);
    TwoTierPrice(b.tiers[0], b.tiers[1], volume);
  }

  lemma TwoTierPrice(a: Tier, b: Tier, volume: int)
    requires a.minVolume < b.minVolume
    ensures forall t :: Applies([a, b], volume, t) <==> t == if volume < b.minVolume then a else b
  {
    assert a in [a, b] && b in [a, b];
  }

  lemma ThreeTierPrice(a: Tier, b: Tier, c: Tier, volume: int)
    requires a.minVolume < b.minVolume < c.minVolume
    ensures forall t :: Applies([a, b, c], volume, t) <==>
                        t == if volume < b.minVolume then a else if volume < c.minVolume then b else c
  {
    assert a in [a, b, c] && b in [a, b, c] && c in [a, b, c];
  }

  lemma EnterprisePrices(country: string, volume: int, price: int)
    ensures ListPrice(ENTERPRISE, "silent_verify", country, volume, price) <==> price == 12000
    ensures ListPrice(ENTERPRISE, "sms_otp", country, volume, price) <==> price == 25000
    ensures ListPrice(ENTERPRISE, "sim_swap", country, volume, price) <==> price == 5000
  {
    assert ENTERPRISE.rules[0].product == "silent_verify" && ENTERPRISE.rules[1].product == "sms_otp";
    assert ENTERPRISE.rules[2].product == "sim_swap";
    FlatPriceOf(ENTERPRISE, 0, country, volume, price);
    FlatPriceOf(ENTERPRISE, 1, country, volume, price);
    FlatPriceOf(ENTERPRISE, 2, country, volume, price);
  }
}

/** The pricing engine as it runs, with one mutable record per tenant. */
module PricingEngine {
  import opened Options
  import opened PricingRules
  import opened PricingRuns

  class TenantPricing {
    var plan: string
    var discount: int
    var overrides: map<string, int>

    constructor (plan: string, discount: int)
      ensures Value() == Tenant(plan, discount, map[])
    {
      this.plan, this.discount, overrides := plan, discount, map[];
    }

    ghost function Value(): Tenant
      reads this
    {
      Tenant(plan, discount, overrides)
    }
  }

  class Engine {
    var plans: Plans
    var tenants: map<string, TenantPricing>
    var upstream: map<string, int>
    ghost var commands: seq<Command>

    ghost function Objects(): set<TenantPricing>
      reads this
    {
      set t | t in tenants :: tenants[t]
    }

    ghost function Values(): Tenants
      reads this, Objects()
    {
      map t | t in tenants :: tenants[t].Value()
    }

    /** The records are what the commands leave behind, and tenants do not share them. */
    ghost predicate Valid()
      reads this, Objects()
    {
      && Usable(plans)
      && (forall a, b | a in tenants && b in tenants && a != b :: tenants[a] != tenants[b])
      && Values() == After(commands)
    }

    constructor ()
      ensures Valid() && commands == [] && forall id | id in plans :: GoodPlan(plans[id])
      ensures plans == map["plan_payg" := PAYG, "plan_growth" := GROWTH, "plan_enterprise" := ENTERPRISE]
      ensures plans["plan_payg"].name == "Pay As You Go" && plans["plan_growth"].name == "Growth"
      ensures plans["plan_enterprise"].name == "Enterprise"
      ensures upstream == map[
        "silent_verify:ID" := 15000, "silent_verify:TH" := 18000, "silent_verify:PH" := 20000,
        "silent_verify:MY" := 16000, "silent_verify:SG" := 12000, "sms_otp:ID" := 25000, "sms_otp:TH" := 30000,
        "whatsapp_otp:*" := 35000, "sim_swap:*" := 5000, "voice_otp:*" := 45000]
    {
      upstream := map[
        "silent_verify:ID" := 15000, "silent_verify:TH" := 18000, "silent_verify:PH" := 20000,
        "silent_verify:MY" := 16000, "silent_verify:SG" := 12000, "sms_otp:ID" := 25000, "sms_otp:TH" := 30000,
        "whatsapp_otp:*" := 35000, "sim_swap:*" := 5000, "voice_otp:*" := 45000];
      plans := map["plan_payg" := PAYG, "plan_growth" := GROWTH, "plan_enterprise" := ENTERPRISE];
      tenants, commands := map[], [];
      SeededPlansAreGood();
    }

    method SetTenantPlan(tenant: string, plan: string, discount: int)
      requires Valid()
      modifies this
      ensures Valid() && commands == old(commands) + [SetPlan(tenant, plan, discount)]
      ensures plans == old(plans) && upstream == old(upstream) && fresh(Objects() - old(Objects()))
    {
      var record := new TenantPricing(plan, discount);
      tenants := tenants[tenant := record];
      commands := commands + [SetPlan(tenant, plan, discount)];
      Executed(SetPlan(tenant, plan, discount), record);
    }

    method SetCustomPrice(tenant: string, product: string, country: string, price: int)
      requires Valid()
      modifies this, Objects()
      ensures Valid() && commands == old(commands) + [SetPrice(tenant, product, country, price)]
      ensures plans == old(plans) && upstream == old(upstream) && fresh(Objects() - old(Objects()))
    {
      var record: TenantPricing;
      if tenant in tenants {
        record := tenants[tenant];
      } else {
        record := new TenantPricing("plan_payg", 0);
        tenants := tenants[tenant := record];
      }
      record.overrides := record.overrides[product + ":" + country := price];
      commands := commands + [SetPrice(tenant, product, country, price)];
      Executed(SetPrice(tenant, product, country, price), record);
    }

    /** One command has changed the record of one tenant. */
    twostate lemma Executed(c: Command, new record: TenantPricing)
      requires old(Valid()) && plans == old(plans) && commands == old(commands) + [c]
      requires tenants == old(tenants)[c.tenant := record]
      requires record.Value() == Execute(old(Values()), c)[c.tenant]
      requires forall t | t in old(tenants) && t != c.tenant :: unchanged(old(tenants)[t]) && old(tenants)[t] != record
      ensures Valid() && Objects() <= old(Objects()) + {record}
    {
      AfterSnoc(old(commands), c);
      assert Values() == old(Values())[c.tenant := record.Value()];
    }

    /** The loops over rules and tiers find a list price of the plan; a matching rule without tiers has none, and the
        code fails on it. */
    method FindPrice(p: Plan, product: string, country: string, volume: int) returns (price: Option<int>)
      ensures price.Some? ==> ListPrice(p, product, country, volume, price.value)
      ensures price.None? <==> exists r :: Matches(p.rules, product, country, Some(r)) && r.tiers == []
      ensures (forall r | r in p.rules :: r.product != product || (r.country != country && r.country != "*")) ==>
                price == Some(30000)
    {
      var rule := FindRule(p.rules, product, country);
      forall r | Matches(p.rules, product, country, Some(r)) ensures rule == Some(r) {
        MatchIsUnique(p, product, country, rule, Some(r));
      }
      if rule == None {
        return Some(DEFAULT_PRICE);
      }
      if rule.value.tiers == [] {
        return None;
      }
      var t := FindTier(rule.value.tiers, volume);
      return Some(t.unitPrice);
    }

    /** The list price less the discount. */
    method PlanPrice(plan: Plan, product: string, country: string, volume: int, discount: int) returns (unitPrice: int)
      requires forall r | r in plan.rules :: r.tiers != []
      ensures exists price :: ListPrice(plan, product, country, volume, price) && unitPrice == Discounted(price, discount)
    {
      var found := FindPrice(plan, product, country, volume);
      var listed := found.value;
      unitPrice := listed;
      if discount > 0 {
        unitPrice := Quotient(Wrap(listed * Wrap(100 - discount)), 100);
      }
    }

    method GetUpstreamCost(product: string, country: string) returns (cost: int)
      ensures cost == UpstreamCost(upstream, product, country)
      ensures cost == if product + ":" + country in upstream then upstream[product + ":" + country]
                      else if product + ":*" in upstream then upstream[product + ":*"]
                      else 10000
    {
      var own := product + ":" + country;
      if own in upstream {
        return upstream[own];
      }
      var any := product + ":*";
      assert any == Key(product, "*");
      if any in upstream {
        return upstream[any];
      }
      return 10000;
    }

    /** The quote is what the commands so far call for. */
    method CalculatePrice(tenant: string, product: string, country: string, volume: int) returns (q: Quote)
      requires Valid()
      ensures Quotes(plans, upstream, commands, tenant, product, country, volume, q)
      ensures q.upstreamCost == if product + ":" + country in upstream then upstream[product + ":" + country]
                                else if product + ":*" in upstream then upstream[product + ":*"]
                                else 10000
      ensures (tenant !in tenants || (product + ":" + country !in tenants[tenant].overrides && tenants[tenant].plan !in plans))
              ==> q.tier == plans["plan_payg"].name
      ensures tenant !in tenants ==> q.discount == 0
      ensures tenant in tenants && product + ":" + country in tenants[tenant].overrides ==>
                q.tier == "custom" && q.unitPrice == tenants[tenant].overrides[product + ":" + country]
    {
      PlanIsLatest(commands, tenant);
      OverrideIsLatest(commands, tenant, Key(product, country));
      var cost := GetUpstreamCost(product, country);
      var planID, discount := "plan_payg", 0;
      if tenant in tenants {
        var record := tenants[tenant];
        assert record.Value() == Stored(After(commands), tenant);
        planID, discount := record.plan, record.discount;
        var key := product + ":" + country;
        if key in record.overrides {
          var price := record.overrides[key];
          return Quote(price, cost, Wrap(price - cost), "custom", discount);
        }
      }
      var plan := if planID in plans then plans[planID] else plans["plan_payg"];
      var unitPrice := PlanPrice(plan, product, country, volume, discount);
      q := Quote(unitPrice, cost, Wrap(unitPrice - cost), plan.name, discount);
    }
  }
}
