/** What the unstable sorts leave open: equal priorities, and the order in which the store lists its policies. */
module PolicyTies {
  import opened Options
  import opened PolicyModel
  import opened PolicyFold
  import opened PolicyPlans
  import opened PolicySwaps
  import opened SliceSort

  // ----- Ties between rules of one policy -----

  /** Rules of equal priority commute. */
  ghost predicate RulesTiesCommute(rules: seq<PolicyRule>, ctx: Context) {
    forall x, y | x in rules && y in rules && x.priority == y.priority :: CommuteAt(Custom(x), Custom(y), ctx)
  }

  lemma {:induction false} CustomsConcat(xs: seq<PolicyRule>, ys: seq<PolicyRule>)
    ensures Customs(xs + ys) == Customs(xs) + Customs(ys)
  {
    if ys == [] {
      assert xs + ys == xs;
    } else {
      assert (xs + ys)[..|xs + ys| - 1] == xs + ys[..|ys| - 1];
      CustomsConcat(xs, ys[..|ys| - 1]);
    }
  }

  lemma CustomsAround(pre: seq<PolicyRule>, x: PolicyRule, post: seq<PolicyRule>)
    ensures Customs(pre + [x] + post) == Customs(pre) + [Custom(x)] + Customs(post)
    ensures Customs(pre + post) == Customs(pre) + Customs(post)
  {
    CustomsConcat(pre + [x], post);
    CustomsConcat(pre, [x]);
    CustomsConcat(pre, post);
    assert [x][..0] == [] && Customs([x]) == [Custom(x)];
  }

  /** Whatever precedes the head of one sorting in another one is tied with it. */
  lemma EarlierAreTied<T>(key: T -> int, xs: seq<T>, ys: seq<T>, i: nat, j: nat)
    requires xs != [] && multiset(xs) == multiset(ys) && SortedBy(key, xs) && SortedBy(key, ys)
    requires j < i < |ys| && ys[i] == xs[0]
    ensures key(ys[j]) == key(xs[0]) && ys[j] in xs
  {
    assert ys[j] in multiset(xs);
    var k :| 0 <= k < |xs| && xs[k] == ys[j];
    assert key(xs[0]) <= key(xs[k]);
  }

  lemma EarlierRulesCommute(xs: seq<PolicyRule>, ys: seq<PolicyRule>, i: nat, ctx: Context)
    requires xs != [] && multiset(xs) == multiset(ys) && SortedBy(RuleKey, xs) && SortedBy(RuleKey, ys)
    requires i < |ys| && ys[i] == xs[0] && RulesTiesCommute(xs, ctx)
    ensures BlocksCommute(Customs(ys[..i]), [Custom(ys[i])], ctx)
  {
    CustomsMembers(ys[..i]);
    forall e | e in Customs(ys[..i]) ensures CommuteAt(e, Custom(ys[i]), ctx) {
      var j :| 0 <= j < i && ys[j] == e.rule;
      EarlierAreTied(RuleKey, xs, ys, i, j);
      assert xs[0] in xs;
    }
  }

  lemma RuleToFront(xs: seq<PolicyRule>, ys: seq<PolicyRule>, i: nat, ctx: Context)
    requires xs != [] && multiset(xs) == multiset(ys) && SortedBy(RuleKey, xs) && SortedBy(RuleKey, ys)
    requires i < |ys| && ys[i] == xs[0] && RulesTiesCommute(xs, ctx)
    ensures Alike([Custom(ys[i])] + Customs(Without(ys, i)), Customs(ys), ctx)
  {
    var (pre, x, post) := (ys[..i], ys[i], ys[i + 1..]);
    EarlierRulesCommute(xs, ys, i, ctx);
    SplitAt(ys, i);
    CustomsAround(pre, x, post);
    BlockToFront(Customs(pre), [Custom(x)], Customs(post), ctx);
    AlikeSym(Customs(ys), [Custom(x)] + Customs(Without(ys, i)), ctx);
  }

  lemma HeadThenTail(xs: seq<PolicyRule>)
    requires xs != []
    ensures Customs(xs) == [Custom(xs[0])] + Customs(xs[1..])
  {
    CustomsAround([], xs[0], xs[1..]);
    assert xs == [] + [xs[0]] + xs[1..];
  }

  /** Two sortings of the same rules are alike if tied rules commute. */
  lemma {:induction false} SortingsAlike(xs: seq<PolicyRule>, ys: seq<PolicyRule>, ctx: Context)
    requires multiset(xs) == multiset(ys) && SortedBy(RuleKey, xs) && SortedBy(RuleKey, ys)
    requires RulesTiesCommute(xs, ctx)
    ensures Alike(Customs(xs), Customs(ys), ctx)
    decreases |xs|
  {
    assert |multiset(xs)| == |xs| && |multiset(ys)| == |ys|;
    if xs == [] {
      AlikeRefl([], ctx);
    } else {
      var i := FindHead(xs, ys);
      var (head, tail, rest) := ([Custom(ys[i])], xs[1..], Without(ys, i));
      RuleToFront(xs, ys, i, ctx);
      WithoutStaysSorted(RuleKey, ys, i);
      SortingsAlike(tail, rest, ctx);
      AlikeSelf(Custom(ys[i]), ctx);
      AlikeConcat(head, head, Customs(tail), Customs(rest), ctx);
      HeadThenTail(xs);
      AlikeTrans(Customs(xs), head + Customs(rest), Customs(ys), ctx);
    }
  }

  // ----- Ties between policies -----

  ghost predicate RulesCommute(xs: seq<PolicyRule>, ys: seq<PolicyRule>, ctx: Context) {
    forall x, y | x in xs && y in ys :: CommuteAt(Custom(x), Custom(y), ctx)
  }

  /** Rules of equal priority in one policy commute, and so do all rules of two policies of equal priority. */
  ghost predicate AllTiesCommute(ps: seq<PolicyRecord>, ctx: Context) {
    && (forall p | p in ps :: RulesTiesCommute(p.rules, ctx))
    && (forall p, q | p in ps && q in ps && p != q && p.meta.priority == q.meta.priority ::
          RulesCommute(p.rules, q.rules, ctx))
  }

  /** The same for those policies of a store that take part. */
  ghost predicate TiesCommute(ps: seq<PolicyRecord>, ctx: Context) {
    AllTiesCommute(Selected(ps, ctx.signals), ctx)
  }

  lemma FirstIndex<T>(x: T, ys: seq<T>) returns (i: nat)
    requires x in ys
    ensures i < |ys| && ys[i] == x && x !in ys[..i]
  {
    i := 0;
    while ys[i] != x
      invariant i < |ys| && x !in ys[..i] && x in ys[i..]
      decreases |ys| - i
    {
      i := i + 1;
    }
  }

  /** The first policy of one plan, wherever it comes in the other. */
  lemma FirstPolicy(xs: seq<PolicyRecord>, ys: seq<PolicyRecord>) returns (i: nat)
    requires xs != [] && multiset(xs) == multiset(ys)
    ensures i < |ys| && ys[i] == xs[0] && xs[0] !in ys[..i] && multiset(xs[1..]) == multiset(Without(ys, i))
  {
    assert xs[0] in multiset(ys);
    i := FirstIndex(xs[0], ys);
    WithoutRemoves(xs, 0);
    WithoutRemoves(ys, i);
    assert Without(xs, 0) == xs[1..];
  }

  lemma EntriesCommute(p: PolicyRecord, q: PolicyRecord, pr: seq<PolicyRule>, qr: seq<PolicyRule>, ctx: Context)
    requires RulesCommute(p.rules, q.rules, ctx)
    requires multiset(pr) == multiset(p.rules) && multiset(qr) == multiset(q.rules)
    ensures forall e, f | e in Entries(p.(rules := pr)) && f in Entries(q.(rules := qr)) :: CommuteAt(e, f, ctx)
  {
    CustomsMembers(pr);
    CustomsMembers(qr);
    assert forall x :: x in pr ==> x in multiset(p.rules);
    assert forall y :: y in qr ==> y in multiset(q.rules);
  }

  lemma TiedPoliciesCommute(xs: seq<PolicyRecord>, p: PolicyRecord, q: PolicyRecord, ctx: Context)
    requires AllTiesCommute(xs, ctx) && p in xs && q in xs && p != q && RecordKey(p) == RecordKey(q)
    ensures RulesCommute(p.rules, q.rules, ctx)
  {
  }

  lemma EarlierPoliciesCommute(xs: seq<PolicyRecord>, ys: seq<PolicyRecord>, plan: seq<PolicyRecord>, i: nat, ctx: Context)
    requires xs != [] && multiset(xs) == multiset(ys) && SortedBy(RecordKey, xs) && SortedBy(RecordKey, ys)
    requires i < |ys| && ys[i] == xs[0] && xs[0] !in ys[..i] && AllTiesCommute(xs, ctx) && Arranged(ys, plan)
    ensures BlocksCommute(PlanEntries(plan[..i]), Entries(plan[i]), ctx)
  {
    PlanMembers(plan[..i]);
    var block := Entries(plan[i]);
    forall e, f | e in PlanEntries(plan[..i]) && f in block ensures CommuteAt(e, f, ctx) {
      if e.Custom? && f.Custom? {
        var p :| p in plan[..i] && e.rule in p.rules;
        var j :| 0 <= j < i && plan[j] == p;
        EarlierAreTied(RecordKey, xs, ys, i, j);
        assert ys[j] in ys[..i] && xs[0] in xs;
        TiedPoliciesCommute(xs, ys[j], ys[i], ctx);
        EntriesCommute(ys[j], ys[i], plan[j].rules, plan[i].rules, ctx);
        CustomsMembers(plan[j].rules);
        assert e in Customs(plan[j].rules) && Entries(plan[j]) == Entries(ys[j].(rules := plan[j].rules));
        assert block == Entries(ys[i].(rules := plan[i].rules));
      }
    }
  }

  lemma PolicyToFront(xs: seq<PolicyRecord>, ys: seq<PolicyRecord>, plan: seq<PolicyRecord>, i: nat, ctx: Context)
    requires xs != [] && multiset(xs) == multiset(ys) && SortedBy(RecordKey, xs) && SortedBy(RecordKey, ys)
    requires i < |ys| && ys[i] == xs[0] && xs[0] !in ys[..i] && AllTiesCommute(xs, ctx) && Arranged(ys, plan)
    ensures Alike(Entries(plan[i]) + PlanEntries(Without(plan, i)), PlanEntries(plan), ctx)
  {
    var (pre, p, post) := (plan[..i], plan[i], plan[i + 1..]);
    EarlierPoliciesCommute(xs, ys, plan, i, ctx);
    SplitAt(plan, i);
    PlanEntriesAround(pre, p, post);
    PlanEntriesConcat(pre, post);
    PlanEntriesOne(p);
    BlockToFront(PlanEntries(pre), Entries(p), PlanEntries(post), ctx);
    AlikeSym(PlanEntries(plan), Entries(p) + PlanEntries(Without(plan, i)), ctx);
  }

  lemma PlanEntriesOne(p: PolicyRecord)
    ensures PlanEntries([p]) == Entries(p)
  {
    assert [p][..0] == [] && PlanEntries([]) == [];
  }

  lemma PlanHeadThenTail(plan: seq<PolicyRecord>)
    requires plan != []
    ensures PlanEntries(plan) == Entries(plan[0]) + PlanEntries(plan[1..])
  {
    PlanEntriesConcat([plan[0]], plan[1..]);
    PlanEntriesOne(plan[0]);
    assert plan == [plan[0]] + plan[1..];
  }

  /** Two arrangements of one policy are alike if its tied rules commute. */
  lemma ArrangementsAlike(o: PolicyRecord, p: PolicyRecord, q: PolicyRecord, ctx: Context)
    requires o.meta == p.meta == q.meta && SortOf(RuleKey, o.rules, p.rules) && SortOf(RuleKey, o.rules, q.rules)
    requires RulesTiesCommute(o.rules, ctx)
    ensures Alike(Entries(p), Entries(q), ctx)
  {
    assert forall x :: x in p.rules ==> x in multiset(o.rules);
    SortingsAlike(p.rules, q.rules, ctx);
    var swap := SwapAction(p.meta.name, p.meta.simSwapAction);
    AlikeSelf(swap, ctx);
    AlikeConcat([swap], [swap], Customs(p.rules), Customs(q.rules), ctx);
  }

  lemma TiesOfTail(xs: seq<PolicyRecord>, ctx: Context)
    requires xs != [] && AllTiesCommute(xs, ctx)
    ensures RulesTiesCommute(xs[0].rules, ctx) && AllTiesCommute(xs[1..], ctx)
  {
    assert xs[0] in xs;
    assert forall p :: p in xs[1..] ==> p in xs;
  }

  lemma ArrangedTail(xs: seq<PolicyRecord>, plan: seq<PolicyRecord>)
    requires xs != [] && Arranged(xs, plan) && SortedBy(RecordKey, xs)
    ensures Arranged(xs[1..], plan[1..]) && SortedBy(RecordKey, xs[1..])
    ensures plan[0].meta == xs[0].meta && SortOf(RuleKey, xs[0].rules, plan[0].rules)
  {
  }

  lemma JoinAlike(xplan: seq<PolicyRecord>, yplan: seq<PolicyRecord>, y: PolicyRecord, rest: seq<PolicyRecord>, ctx: Context)
    requires xplan != [] && Alike(Entries(xplan[0]), Entries(y), ctx)
    requires Alike(PlanEntries(xplan[1..]), PlanEntries(rest), ctx)
    requires Alike(Entries(y) + PlanEntries(rest), PlanEntries(yplan), ctx)
    ensures Alike(PlanEntries(xplan), PlanEntries(yplan), ctx)
  {
    AlikeConcat(Entries(xplan[0]), Entries(y), PlanEntries(xplan[1..]), PlanEntries(rest), ctx);
    PlanHeadThenTail(xplan);
    AlikeTrans(PlanEntries(xplan), Entries(y) + PlanEntries(rest), PlanEntries(yplan), ctx);
  }

  /** Two plans of the same policies are alike if all ties commute. */
  lemma {:induction false} PlansAlike(xs: seq<PolicyRecord>, xplan: seq<PolicyRecord>,
                                      ys: seq<PolicyRecord>, yplan: seq<PolicyRecord>, ctx: Context)
    requires multiset(xs) == multiset(ys) && SortedBy(RecordKey, xs) && SortedBy(RecordKey, ys)
    requires Arranged(xs, xplan) && Arranged(ys, yplan) && AllTiesCommute(xs, ctx)
    ensures Alike(PlanEntries(xplan), PlanEntries(yplan), ctx)
    decreases |xs|
  {
    assert |multiset(xs)| == |xs| && |multiset(ys)| == |ys|;
    if xs == [] {
      AlikeRefl([], ctx);
    } else {
      var i := FirstPolicy(xs, ys);
      var (tail, rest) := (xplan[1..], Without(yplan, i));
      PolicyToFront(xs, ys, yplan, i, ctx);
      WithoutStaysSorted(RecordKey, ys, i);
      ArrangedWithout(ys, yplan, i);
      TiesOfTail(xs, ctx);
      ArrangedTail(xs, xplan);
      PlansAlike(xs[1..], tail, Without(ys, i), rest, ctx);
      ArrangementsAlike(xs[0], xplan[0], yplan[i], ctx);
      JoinAlike(xplan, yplan, yplan[i], rest, ctx);
    }
  }

  lemma SimilarOutcomesSameDecision(a: Outcome, b: Outcome)
    requires Similar(a, b) && !a.verdict.Other? && !b.verdict.Other?
    ensures SameDecision(Respond(a), Respond(b))
  {
  }

  /** All ways to break ties give the same decision, and the same rules fire, if tied rules commute. */
  lemma CommutingTiesDoNotMatter(ps: seq<PolicyRecord>, input: PolicyInput, hour: Hour, a: VerdictResponse, b: VerdictResponse)
    requires TiesCommute(ps, Context(input.signals, hour))
    requires PossibleResponse(ps, input, hour, a) && PossibleResponse(ps, input, hour, b)
    ensures SameDecision(a, b)
  {
    var (signals, ctx) := (input.signals, Context(input.signals, hour));
    var ordered1, plan1 :| IsPlan(ps, signals, ordered1, plan1) && a == Respond(PlanOutcome(plan1, input, hour));
    var ordered2, plan2 :| IsPlan(ps, signals, ordered2, plan2) && b == Respond(PlanOutcome(plan2, input, hour));
    PlansOfStoreAlike(ps, ctx, ordered1, plan1, ordered2, plan2);
    assert AlikeFrom(PlanEntries(plan1), PlanEntries(plan2), ctx, Start(input), Start(input));
    KnownVerdict(plan1, input, hour);
    KnownVerdict(plan2, input, hour);
    SimilarOutcomesSameDecision(PlanOutcome(plan1, input, hour), PlanOutcome(plan2, input, hour));
  }

  lemma PlansOfStoreAlike(ps: seq<PolicyRecord>, ctx: Context, ordered1: seq<PolicyRecord>, plan1: seq<PolicyRecord>,
                          ordered2: seq<PolicyRecord>, plan2: seq<PolicyRecord>)
    requires TiesCommute(ps, ctx)
    requires IsPlan(ps, ctx.signals, ordered1, plan1) && IsPlan(ps, ctx.signals, ordered2, plan2)
    ensures Alike(PlanEntries(plan1), PlanEntries(plan2), ctx)
  {
    assert forall p :: p in ordered1 ==> p in multiset(Selected(ps, ctx.signals));
    PlansAlike(ordered1, plan1, ordered2, plan2, ctx);
  }

  /** Rules that do not read the score commute. */
  lemma FeedbackFreeTiesCommute(ps: seq<PolicyRecord>, ctx: Context)
    requires FeedbackFree(ps, ctx.signals)
    ensures TiesCommute(ps, ctx)
  {
    SelectedApply(ps, ctx.signals);
    forall p, q, x, y | p in Selected(ps, ctx.signals) && q in Selected(ps, ctx.signals) && x in p.rules && y in q.rules
      ensures CommuteAt(Custom(x), Custom(y), ctx)
    {
      assert RulesFeedbackFree(p.rules) && RulesFeedbackFree(q.rules);
      assert NoFeedback(Custom(x)) && NoFeedback(Custom(y));
    }
  }

  // ----- The stored order -----

  ghost predicate SameUpToRules(ps: seq<PolicyRecord>, qs: seq<PolicyRecord>) {
    && |ps| == |qs|
    && forall i | 0 <= i < |ps| :: ps[i].meta == qs[i].meta && multiset(ps[i].rules) == multiset(qs[i].rules)
  }

  lemma {:induction false} SelectedUpToRules(ps: seq<PolicyRecord>, qs: seq<PolicyRecord>, signals: Signals)
    requires SameUpToRules(ps, qs)
    ensures SameUpToRules(Selected(ps, signals), Selected(qs, signals))
  {
    if ps != [] {
      SelectedUpToRules(ps[..|ps| - 1], qs[..|qs| - 1], signals);
    }
  }

  lemma InsertedUpToRules(ws: seq<PolicyRecord>, i: nat, v: PolicyRecord, rest: seq<PolicyRecord>)
    requires i < |ws| && SameUpToRules(Without(ws, i), rest)
    requires ws[i].meta == v.meta && multiset(ws[i].rules) == multiset(v.rules)
    ensures SameUpToRules(ws, InsertAt(rest, i, v))
  {
    var xs := InsertAt(rest, i, v);
    forall j | 0 <= j < |ws| ensures ws[j].meta == xs[j].meta && multiset(ws[j].rules) == multiset(xs[j].rules) {
      if j != i {
        var k := if j < i then j else j - 1;
        assert ws[j] == Without(ws, i)[k] && xs[j] == rest[k];
      }
    }
  }

  /** A permutation of one list of policies, carried over to the same policies with their rules in other orders. */
  lemma {:induction false} CarryOver(us: seq<PolicyRecord>, vs: seq<PolicyRecord>, ws: seq<PolicyRecord>)
    returns (xs: seq<PolicyRecord>)
    requires SameUpToRules(us, vs) && multiset(us) == multiset(ws)
    ensures SameUpToRules(ws, xs) && multiset(vs) == multiset(xs)
    decreases |us|
  {
    assert |multiset(us)| == |us| && |multiset(ws)| == |ws|;
    if us == [] {
      xs := [];
    } else {
      var i := FindHead(us, ws);
      var rest := CarryOver(us[1..], vs[1..], Without(ws, i));
      xs := InsertAt(rest, i, vs[0]);
      InsertedUpToRules(ws, i, vs[0], rest);
      InsertAddsOne(rest, i, vs[0]);
      assert vs == [vs[0]] + vs[1..];
    }
  }

  lemma PlanOfReordered(ps: seq<PolicyRecord>, mid: seq<PolicyRecord>, qs: seq<PolicyRecord>, signals: Signals,
                        ordered: seq<PolicyRecord>, plan: seq<PolicyRecord>)
    returns (ordered': seq<PolicyRecord>)
    requires multiset(ps) == multiset(mid) && SameUpToRules(mid, qs) && IsPlan(ps, signals, ordered, plan)
    ensures IsPlan(qs, signals, ordered', plan)
  {
    SelectedPermutes(ps, mid, signals);
    SelectedUpToRules(mid, qs, signals);
    ordered' := CarryOver(Selected(mid, signals), Selected(qs, signals), ordered);
  }

  lemma ReorderedResponse(ps: seq<PolicyRecord>, mid: seq<PolicyRecord>, qs: seq<PolicyRecord>,
                          input: PolicyInput, hour: Hour, r: VerdictResponse)
    requires multiset(ps) == multiset(mid) && SameUpToRules(mid, qs) && PossibleResponse(ps, input, hour, r)
    ensures PossibleResponse(qs, input, hour, r)
  {
    var ordered, plan :| IsPlan(ps, input.signals, ordered, plan) && r == Respond(PlanOutcome(plan, input, hour));
    var ordered' := PlanOfReordered(ps, mid, qs, input.signals, ordered, plan);
  }

  /** The order in which a store lists its policies, and each policy its rules, never matters beyond ties: any
      reordering has the same possible responses. */
  lemma StoredOrderNeverMatters(ps: seq<PolicyRecord>, mid: seq<PolicyRecord>, qs: seq<PolicyRecord>,
                                input: PolicyInput, hour: Hour, r: VerdictResponse)
    requires Reordered(ps, mid, qs)
    ensures PossibleResponse(ps, input, hour, r) <==> PossibleResponse(qs, input, hour, r)
  {
    assert SameUpToRules(mid, qs);
    if PossibleResponse(ps, input, hour, r) {
      ReorderedResponse(ps, mid, qs, input, hour, r);
    }
    if PossibleResponse(qs, input, hour, r) {
      var dim := CarryOver(mid, qs, ps);
      ReorderedResponse(qs, dim, ps, input, hour, r);
    }
  }

  // ----- Two tied rules, exactly -----

  /** For this input some two orders that the sorts leave open differ in what fires. */
  ghost predicate OrderShowsFor(ps: seq<PolicyRecord>, input: PolicyInput, hour: Hour) {
    exists ordered1, plan1, ordered2, plan2 ::
      && IsPlan(ps, input.signals, ordered1, plan1) && IsPlan(ps, input.signals, ordered2, plan2)
      && multiset(Log(PlanEntries(plan1), Context(input.signals, hour), Start(input)))
         != multiset(Log(PlanEntries(plan2), Context(input.signals, hour), Start(input)))
  }

  lemma TwoSorts(x: PolicyRule, y: PolicyRule)
    requires x.priority == y.priority
    ensures SortOf(RuleKey, [x, y], [x, y]) && SortOf(RuleKey, [x, y], [y, x])
  {
    assert multiset([x, y]) == multiset([y, x]);
  }

  lemma PlanOfOne(p: PolicyRecord, rules: seq<PolicyRule>, signals: Signals)
    requires PolicyApplies(p.meta, signals) && SortOf(RuleKey, p.rules, rules)
    ensures IsPlan([p], signals, [p], [PolicyRecord(p.meta, rules)])
  {
    SelectedOne(p, signals);
  }

  lemma PlansOfTwo(meta: PolicyMeta, x: PolicyRule, y: PolicyRule, signals: Signals)
    requires x.priority == y.priority && PolicyApplies(meta, signals)
    ensures var store := [PolicyRecord(meta, [x, y])];
            IsPlan(store, signals, store, store) && IsPlan(store, signals, store, [PolicyRecord(meta, [y, x])])
  {
    TwoSorts(x, y);
    PlanOfOne(PolicyRecord(meta, [x, y]), [x, y], signals);
    PlanOfOne(PolicyRecord(meta, [x, y]), [y, x], signals);
  }

  lemma EntriesOfTwo(meta: PolicyMeta, x: PolicyRule, y: PolicyRule)
    ensures PlanEntries([PolicyRecord(meta, [x, y])]) ==
            [SwapAction(meta.name, meta.simSwapAction)] + [Custom(x), Custom(y)]
  {
    PlanEntriesOne(PolicyRecord(meta, [x, y]));
    HeadThenTail([x, y]);
    HeadThenTail([y]);
    assert [x, y][1..] == [y] && [y][1..] == [];
  }

  lemma LogOfTwo(meta: PolicyMeta, x: PolicyRule, y: PolicyRule, ctx: Context, o: Outcome) returns (o': Outcome)
    ensures o'.score == o.score && o' == Run([SwapAction(meta.name, meta.simSwapAction)], ctx, o)
    ensures Log(PlanEntries([PolicyRecord(meta, [x, y])]), ctx, o) ==
            Log([SwapAction(meta.name, meta.simSwapAction)], ctx, o) + Log([Custom(x), Custom(y)], ctx, o')
  {
    var swap := SwapAction(meta.name, meta.simSwapAction);
    EntriesOfTwo(meta, x, y);
    SingleRun(swap, ctx, o);
    o' := Run([swap], ctx, o);
    LogConcat([swap], [Custom(x), Custom(y)], ctx, o);
  }

  lemma TwoLogsDiffer(meta: PolicyMeta, x: PolicyRule, y: PolicyRule, ctx: Context, o: Outcome)
    requires !CommuteAt(Custom(x), Custom(y), ctx) && o.score == TellingScore(Custom(x), Custom(y))
    ensures multiset(Log(PlanEntries([PolicyRecord(meta, [x, y])]), ctx, o))
            != multiset(Log(PlanEntries([PolicyRecord(meta, [y, x])]), ctx, o))
  {
    var o1 := LogOfTwo(meta, x, y, ctx, o);
    var o2 := LogOfTwo(meta, y, x, ctx, o);
    OrderShows(Custom(x), Custom(y), ctx, o1);
    var swapped := Log([SwapAction(meta.name, meta.simSwapAction)], ctx, o);
    var (xy, yx) := (Log([Custom(x), Custom(y)], ctx, o1), Log([Custom(y), Custom(x)], ctx, o1));
    if multiset(swapped + xy) == multiset(swapped + yx) {
      SharedPrefixBags(swapped, xy, yx);
    }
  }

  /** A policy with two tied rules: for these signals and this hour some initial score makes the order of the rules
      show, exactly when the rules do not commute. */
  lemma TwoTiedRulesExactly(meta: PolicyMeta, x: PolicyRule, y: PolicyRule, signals: Signals, hour: Hour)
    requires x.priority == y.priority && PolicyApplies(meta, signals)
    ensures (exists score :: OrderShowsFor([PolicyRecord(meta, [x, y])], PolicyInput(signals, score), hour)) <==>
            !CommuteAt(Custom(x), Custom(y), Context(signals, hour))
  {
    var (store, ctx) := ([PolicyRecord(meta, [x, y])], Context(signals, hour));
    if CommuteAt(Custom(x), Custom(y), ctx) {
      TwoCommute(meta, x, y, ctx);
      forall score ensures !OrderShowsFor(store, PolicyInput(signals, score), hour) {
        CommutingTiesHideOrder(store, PolicyInput(signals, score), hour);
      }
    } else {
      OrderShowsAtTellingScore(meta, x, y, signals, hour);
    }
  }

  lemma OrderShowsAtTellingScore(meta: PolicyMeta, x: PolicyRule, y: PolicyRule, signals: Signals, hour: Hour)
    requires x.priority == y.priority && PolicyApplies(meta, signals)
    requires !CommuteAt(Custom(x), Custom(y), Context(signals, hour))
    ensures exists score :: OrderShowsFor([PolicyRecord(meta, [x, y])], PolicyInput(signals, score), hour)
  {
    var input := PolicyInput(signals, TellingScore(Custom(x), Custom(y)) - BuiltinScore(signals));
    PlansOfTwo(meta, x, y, signals);
    TwoLogsDiffer(meta, x, y, Context(signals, hour), Start(input));
    assert OrderShowsFor([PolicyRecord(meta, [x, y])], input, hour);
  }

  lemma TwoCommute(meta: PolicyMeta, x: PolicyRule, y: PolicyRule, ctx: Context)
    requires PolicyApplies(meta, ctx.signals) && CommuteAt(Custom(x), Custom(y), ctx)
    ensures TiesCommute([PolicyRecord(meta, [x, y])], ctx)
  {
    var p := PolicyRecord(meta, [x, y]);
    SelectedOne(p, ctx.signals);
    assert RulesTiesCommute([x, y], ctx);
    OnePolicyTies(p, ctx);
  }

  lemma OnePolicyTies(p: PolicyRecord, ctx: Context)
    requires RulesTiesCommute(p.rules, ctx)
    ensures AllTiesCommute([p], ctx)
  {
  }

  lemma CommutingTiesHideOrder(ps: seq<PolicyRecord>, input: PolicyInput, hour: Hour)
    requires TiesCommute(ps, Context(input.signals, hour))
    ensures !OrderShowsFor(ps, input, hour)
  {
    var ctx := Context(input.signals, hour);
    forall ordered1, plan1, ordered2, plan2 |
      IsPlan(ps, input.signals, ordered1, plan1) && IsPlan(ps, input.signals, ordered2, plan2)
      ensures multiset(Log(PlanEntries(plan1), ctx, Start(input))) == multiset(Log(PlanEntries(plan2), ctx, Start(input)))
    {
      PlansOfStoreAlike(ps, ctx, ordered1, plan1, ordered2, plan2);
      assert AlikeFrom(PlanEntries(plan1), PlanEntries(plan2), ctx, Start(input), Start(input));
    }
  }

  const Quiet := Signals("verified", 0.0, "silent", None, false, "", "", "")
  const Anything := RuleCondition([], [], [], [], None, None, None, None, None, None)
  const AddsThirty := PolicyRule("add", Anything, Allow, 30.0, "", 1, true)
  const BlocksAbove := PolicyRule("block", Anything.(riskScoreAbove := Some(20.0)), Block, 0.0, "", 1, true)
  const Tied := PolicyRecord(PolicyMeta("tied", "", Allow, [], 1, true), [AddsThirty, BlocksAbove])

  lemma RunOfOne(e: Entry, ctx: Context, o: Outcome)
    ensures Run([e], ctx, o) == Apply(e, ctx, o)
  {
    assert [e][..0] == [] && Run([], ctx, o) == o;
  }

  lemma RunOfTwo(meta: PolicyMeta, x: PolicyRule, y: PolicyRule, ctx: Context, o: Outcome)
    ensures Run(PlanEntries([PolicyRecord(meta, [x, y])]), ctx, o) ==
            Apply(Custom(y), ctx, Apply(Custom(x), ctx, Apply(SwapAction(meta.name, meta.simSwapAction), ctx, o)))
  {
    var swap := SwapAction(meta.name, meta.simSwapAction);
    var o1 := Apply(swap, ctx, o);
    EntriesOfTwo(meta, x, y);
    RunConcat([swap], [Custom(x), Custom(y)], ctx, o);
    assert [Custom(x)] + [Custom(y)] == [Custom(x), Custom(y)];
    RunConcat([Custom(x)], [Custom(y)], ctx, o1);
    RunOfOne(swap, ctx, o);
    RunOfOne(Custom(x), ctx, o1);
    RunOfOne(Custom(y), ctx, Apply(Custom(x), ctx, o1));
  }

  lemma QuietStart()
    ensures Start(PolicyInput(Quiet, 0.0)) == Outcome(0.0, Allow, [])
  {
    assert !Failed(Quiet) by {
      assert "verified"[0] != "failed"[0];
    }
    assert !Swapped(Quiet) && !LowConfidence(Quiet);
    assert BuiltinReasons(Quiet) == [];
  }

  /** A rule without conditions fires, and adds its adjustment. */
  lemma PlainRuleFires(r: PolicyRule, ctx: Context, o: Outcome)
    requires r.enabled && r.condition == Anything
    ensures Apply(Custom(r), ctx, o).score == o.score + r.riskAdjustment
    ensures Apply(Custom(r), ctx, o).verdict == if Severity(r.verdict) > Severity(o.verdict) then r.verdict else o.verdict
  {
    assert MatchesOthers(r.condition, ctx) && Fires(Custom(r), ctx, o.score);
    FiringStep(Custom(r), ctx, o);
  }

  /** A rule that only reads the score fires above its threshold. */
  lemma ThresholdRuleFires(r: PolicyRule, t: real, ctx: Context, o: Outcome)
    requires r.enabled && r.condition == Anything.(riskScoreAbove := Some(t))
    ensures o.score > t ==>
              && Apply(Custom(r), ctx, o).score == o.score + r.riskAdjustment
              && Apply(Custom(r), ctx, o).verdict == if Severity(r.verdict) > Severity(o.verdict) then r.verdict else o.verdict
    ensures o.score <= t ==> Apply(Custom(r), ctx, o) == o
  {
    assert MatchesOthers(r.condition, ctx) && (Fires(Custom(r), ctx, o.score) <==> o.score > t);
    if o.score > t {
      FiringStep(Custom(r), ctx, o);
    }
  }

  lemma TiedOutcomes()
    ensures var (ctx, o) := (Context(Quiet, 0), Start(PolicyInput(Quiet, 0.0)));
            && Apply(Custom(BlocksAbove), ctx, Apply(Custom(AddsThirty), ctx, o)).verdict == Block
            && Apply(Custom(AddsThirty), ctx, Apply(Custom(BlocksAbove), ctx, o)).verdict == Allow
  {
    var (ctx, o) := (Context(Quiet, 0), Outcome(0.0, Allow, []));
    QuietStart();
    PlainRuleFires(AddsThirty, ctx, o);
    ThresholdRuleFires(BlocksAbove, 20.0, ctx, Apply(Custom(AddsThirty), ctx, o));
    ThresholdRuleFires(BlocksAbove, 20.0, ctx, o);
  }

  /** Such a policy can have two possible verdicts for one input: with equal priorities, one rule adding to the score
      and the other reading it, the sort decides between blocking and allowing. */
  lemma TiesLetTheSortDecide()
    ensures exists a, b :: PossibleResponse([Tied], PolicyInput(Quiet, 0.0), 0, a) &&
                           PossibleResponse([Tied], PolicyInput(Quiet, 0.0), 0, b) &&
                           a.verdict == Block && b.verdict == Allow
  {
    var input := PolicyInput(Quiet, 0.0);
    var other := Tied.(rules := [BlocksAbove, AddsThirty]);
    var a, b := Respond(PlanOutcome([Tied], input, 0)), Respond(PlanOutcome([other], input, 0));
    assert a.verdict == Block && b.verdict == Allow by {
      RunOfTwo(Tied.meta, AddsThirty, BlocksAbove, Context(Quiet, 0), Start(input));
      RunOfTwo(Tied.meta, BlocksAbove, AddsThirty, Context(Quiet, 0), Start(input));
      TiedOutcomes();
    }
    assert PossibleResponse([Tied], input, 0, a) && PossibleResponse([Tied], input, 0, b) by {
      PlansOfTwo(Tied.meta, AddsThirty, BlocksAbove, Quiet);
      PlanGivesResponse([Tied], input, 0, [Tied], [Tied], PlanOutcome([Tied], input, 0));
      PlanGivesResponse([Tied], input, 0, [Tied], [other], PlanOutcome([other], input, 0));
    }
  }
}
