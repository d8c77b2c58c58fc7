/** Monotonicity of whole evaluations, whatever the sorts make of equal priorities. */
module PolicySafety {
  import opened PolicyModel
  import opened PolicyFold
  import opened PolicyPlans
  import opened PolicySwaps
  import opened PolicyTies
  import opened SliceSort

  /** No two policies that take part, and no two rules of one of them, share a priority. */
  ghost predicate NoTies(ps: seq<PolicyRecord>, signals: Signals) {
    && DistinctKeys(RecordKey, Selected(ps, signals))
    && forall p | p in Selected(ps, signals) :: DistinctKeys(RuleKey, p.rules)
  }

  lemma ArrangementIsUnique(ordered: seq<PolicyRecord>, a: seq<PolicyRecord>, b: seq<PolicyRecord>)
    requires Arranged(ordered, a) && Arranged(ordered, b)
    requires forall p | p in ordered :: DistinctKeys(RuleKey, p.rules)
    ensures a == b
  {
    forall i | 0 <= i < |ordered| ensures a[i] == b[i] {
      assert ordered[i] in ordered;
      DistinctKeysPermute(RuleKey, ordered[i].rules, a[i].rules);
      SortIsUnique(RuleKey, a[i].rules, b[i].rules);
    }
  }

  lemma PlanIsUnique(ps: seq<PolicyRecord>, qs: seq<PolicyRecord>, signals: Signals,
                     ordered1: seq<PolicyRecord>, plan1: seq<PolicyRecord>,
                     ordered2: seq<PolicyRecord>, plan2: seq<PolicyRecord>)
    requires multiset(ps) == multiset(qs) && NoTies(ps, signals)
    requires IsPlan(ps, signals, ordered1, plan1) && IsPlan(qs, signals, ordered2, plan2)
    ensures plan1 == plan2
  {
    SelectedPermutes(ps, qs, signals);
    DistinctKeysPermute(RecordKey, Selected(ps, signals), ordered1);
    SortIsUnique(RecordKey, ordered1, ordered2);
    forall p | p in ordered1 ensures DistinctKeys(RuleKey, p.rules) {
      assert p in multiset(Selected(ps, signals));
    }
    ArrangementIsUnique(ordered1, plan1, plan2);
  }

  /** Without ties the response is a function of the set of policies: the order in which the store lists them
      does not matter, not even for the order of the reasons. */
  lemma PrioritiesDecide(ps: seq<PolicyRecord>, qs: seq<PolicyRecord>, input: PolicyInput, hour: Hour,
                         a: VerdictResponse, b: VerdictResponse)
    requires multiset(ps) == multiset(qs) && NoTies(ps, input.signals)
    requires PossibleResponse(ps, input, hour, a) && PossibleResponse(qs, input, hour, b)
    ensures a == b
  {
    var ordered1, plan1 :| IsPlan(ps, input.signals, ordered1, plan1) && a == Respond(PlanOutcome(plan1, input, hour));
    var ordered2, plan2 :| IsPlan(qs, input.signals, ordered2, plan2) && b == Respond(PlanOutcome(plan2, input, hour));
    PlanIsUnique(ps, qs, input.signals, ordered1, plan1, ordered2, plan2);
  }

  lemma DistinctKeysTell<T>(key: T -> int, s: seq<T>, x: T, y: T)
    requires DistinctKeys(key, s) && x in s && y in s && key(x) == key(y)
    ensures x == y
  {
    var i :| 0 <= i < |s| && s[i] == x;
    var j :| 0 <= j < |s| && s[j] == y;
  }

  /** Without ties there is nothing to commute. */
  lemma NoTiesCommute(ps: seq<PolicyRecord>, ctx: Context)
    requires NoTies(ps, ctx.signals)
    ensures TiesCommute(ps, ctx)
  {
    var chosen := Selected(ps, ctx.signals);
    forall p, x, y | p in chosen && x in p.rules && y in p.rules && x.priority == y.priority
      ensures CommuteAt(Custom(x), Custom(y), ctx)
    {
      DistinctKeysTell(RuleKey, p.rules, x, y);
    }
    forall p, q | p in chosen && q in chosen && p != q ensures p.meta.priority != q.meta.priority {
      if p.meta.priority == q.meta.priority {
        DistinctKeysTell(RecordKey, chosen, p, q);
      }
    }
  }

  // ----- A riskier input, one more policy or one more rule never softens the decision -----

  /** Every rule of the policies that take part can never fire, or does not lower the score, or does not read it. */
  ghost predicate RulesKeepOrder(ps: seq<PolicyRecord>, signals: Signals) {
    forall p | p in ps && PolicyApplies(p.meta, signals) :: forall r | r in p.rules :: KeepsOrder(Custom(r))
  }

  lemma PlanKeepsOrder(ps: seq<PolicyRecord>, signals: Signals, ordered: seq<PolicyRecord>, plan: seq<PolicyRecord>)
    requires IsPlan(ps, signals, ordered, plan) && RulesKeepOrder(ps, signals)
    ensures AllKeepOrder(PlanEntries(plan))
  {
    PlanMembers(plan);
    forall e | e in PlanEntries(plan) && e.Custom? ensures KeepsOrder(e) {
      var p :| p in plan && e.rule in p.rules;
      var q := PlanComesFromStore(ps, signals, ordered, plan, p);
      assert e.rule in multiset(q.rules);
    }
  }

  /** No rule that can fire lowers the score. */
  predicate RulesRaise(rules: seq<PolicyRule>) {
    forall r | r in rules :: Raises(Custom(r))
  }

  lemma EntriesRaise(p: PolicyRecord, q: PolicyRecord)
    requires RulesRaise(p.rules) && multiset(p.rules) == multiset(q.rules)
    ensures AllRaise(Entries(q))
  {
    CustomsMembers(q.rules);
    assert forall r :: r in q.rules ==> r in multiset(p.rules);
  }

  /** `b` is at least as severe as `a` in verdict and risk level. */
  predicate NoSofter(a: VerdictResponse, b: VerdictResponse) {
    && (a.verdict == Block ==> b.verdict == Block)
    && (a.verdict == Review ==> b.verdict == Review || b.verdict == Block)
    && (a.verdict == Challenge ==> b.verdict == Challenge || b.verdict == Review || b.verdict == Block)
    && (a.riskLevel == High ==> b.riskLevel == High)
    && (a.riskLevel == Medium ==> b.riskLevel == Medium || b.riskLevel == High)
  }

  /** Each response of the first evaluation has one of the second that is no softer. */
  ghost predicate EachIsMatched(ps: seq<PolicyRecord>, a: PolicyInput, qs: seq<PolicyRecord>, b: PolicyInput, hour: Hour) {
    forall r | PossibleResponse(ps, a, hour, r) :: exists t :: PossibleResponse(qs, b, hour, t) && NoSofter(r, t)
  }

  /** Each response of the second evaluation is no softer than one of the first. */
  ghost predicate EachMatches(ps: seq<PolicyRecord>, a: PolicyInput, qs: seq<PolicyRecord>, b: PolicyInput, hour: Hour) {
    forall t | PossibleResponse(qs, b, hour, t) :: exists r :: PossibleResponse(ps, a, hour, r) && NoSofter(r, t)
  }

  /** However the ties are broken in one of the two evaluations, they can be broken in the other one so that the
      second is no softer than the first. */
  ghost predicate KeepsUp(ps: seq<PolicyRecord>, a: PolicyInput, qs: seq<PolicyRecord>, b: PolicyInput, hour: Hour) {
    EachIsMatched(ps, a, qs, b, hour) && EachMatches(ps, a, qs, b, hour)
  }

  /** However the ties are broken in both, the second evaluation is no softer than the first. */
  ghost predicate NeverSoftens(ps: seq<PolicyRecord>, a: PolicyInput, qs: seq<PolicyRecord>, b: PolicyInput, hour: Hour) {
    forall r, t | PossibleResponse(ps, a, hour, r) && PossibleResponse(qs, b, hour, t) :: NoSofter(r, t)
  }

  /** It is enough that the ties of one of the two stores commute. */
  lemma KeepingUpNeverSoftens(ps: seq<PolicyRecord>, a: PolicyInput, qs: seq<PolicyRecord>, b: PolicyInput, hour: Hour)
    requires KeepsUp(ps, a, qs, b, hour) && a.signals == b.signals
    requires TiesCommute(ps, Context(a.signals, hour)) || TiesCommute(qs, Context(a.signals, hour))
    ensures NeverSoftens(ps, a, qs, b, hour)
  {
    if TiesCommute(ps, Context(a.signals, hour)) {
      MatchingNeverSoftens(ps, a, qs, b, hour);
    } else {
      MatchedNeverSoftens(ps, a, qs, b, hour);
    }
  }

  lemma MatchingNeverSoftens(ps: seq<PolicyRecord>, a: PolicyInput, qs: seq<PolicyRecord>, b: PolicyInput, hour: Hour)
    requires EachMatches(ps, a, qs, b, hour) && TiesCommute(ps, Context(a.signals, hour))
    ensures NeverSoftens(ps, a, qs, b, hour)
  {
    forall r, t | PossibleResponse(ps, a, hour, r) && PossibleResponse(qs, b, hour, t) ensures NoSofter(r, t) {
      var r' :| PossibleResponse(ps, a, hour, r') && NoSofter(r', t);
      CommutingTiesDoNotMatter(ps, a, hour, r, r');
    }
  }

  lemma MatchedNeverSoftens(ps: seq<PolicyRecord>, a: PolicyInput, qs: seq<PolicyRecord>, b: PolicyInput, hour: Hour)
    requires EachIsMatched(ps, a, qs, b, hour) && TiesCommute(qs, Context(b.signals, hour))
    ensures NeverSoftens(ps, a, qs, b, hour)
  {
    forall r, t | PossibleResponse(ps, a, hour, r) && PossibleResponse(qs, b, hour, t) ensures NoSofter(r, t) {
      var t' :| PossibleResponse(qs, b, hour, t') && NoSofter(r, t');
      CommutingTiesDoNotMatter(qs, b, hour, t, t');
    }
  }

  lemma {:induction false} SomeArrangement(ordered: seq<PolicyRecord>) returns (plan: seq<PolicyRecord>)
    ensures Arranged(ordered, plan)
  {
    plan := [];
    if ordered != [] {
      var (init, last) := (ordered[..|ordered| - 1], ordered[|ordered| - 1]);
      var before := SomeArrangement(init);
      var rules := SortExists(RuleKey, last.rules);
      plan := before + [last.(rules := rules)];
    }
  }

  /** Every evaluation has a possible response, so nothing here holds for want of one. */
  lemma SomeResponseIsPossible(ps: seq<PolicyRecord>, input: PolicyInput, hour: Hour)
    ensures exists r :: PossibleResponse(ps, input, hour, r)
  {
    var ordered := SortExists(RecordKey, Selected(ps, input.signals));
    var plan := SomeArrangement(ordered);
    PlanGivesResponse(ps, input, hour, ordered, plan, PlanOutcome(plan, input, hour));
  }

  /** One plan grows into another one, and starts no riskier. */
  lemma GrownPlansNoSofter(plan1: seq<PolicyRecord>, plan2: seq<PolicyRecord>, a: PolicyInput, b: PolicyInput, hour: Hour)
    requires Grows(PlanEntries(plan1), PlanEntries(plan2)) && a.signals == b.signals && a.riskScore <= b.riskScore
    ensures NoSofter(Respond(PlanOutcome(plan1, a, hour)), Respond(PlanOutcome(plan2, b, hour)))
  {
    MoreEntriesNeverLower(PlanEntries(plan1), PlanEntries(plan2), Context(a.signals, hour), Start(a), Start(b));
  }

  /** Raising the initial risk score never softens the decision. */
  lemma RaisingScoreNeverSoftens(ps: seq<PolicyRecord>, a: PolicyInput, score: real, hour: Hour)
    requires RulesKeepOrder(ps, a.signals) && a.riskScore <= score
    ensures KeepsUp(ps, a, ps, a.(riskScore := score), hour)
    ensures TiesCommute(ps, Context(a.signals, hour)) ==> NeverSoftens(ps, a, ps, a.(riskScore := score), hour)
  {
    var b := a.(riskScore := score);
    forall ordered, plan | IsPlan(ps, a.signals, ordered, plan)
      ensures NoSofter(Respond(PlanOutcome(plan, a, hour)), Respond(PlanOutcome(plan, b, hour)))
      ensures PossibleResponse(ps, a, hour, Respond(PlanOutcome(plan, a, hour)))
      ensures PossibleResponse(ps, b, hour, Respond(PlanOutcome(plan, b, hour)))
    {
      PlanKeepsOrder(ps, a.signals, ordered, plan);
      GrowsRefl(PlanEntries(plan));
      GrownPlansNoSofter(plan, plan, a, b, hour);
    }
    if TiesCommute(ps, Context(a.signals, hour)) {
      KeepingUpNeverSoftens(ps, a, ps, b, hour);
    }
  }

  // ----- Larger stores -----

  /** Every plan of either store has a plan of the other one such that the smaller grows into the larger. */
  ghost predicate PlansGrow(ps: seq<PolicyRecord>, qs: seq<PolicyRecord>, signals: Signals) {
    && (forall ordered, plan | IsPlan(ps, signals, ordered, plan) :: LargerPlan(qs, signals, plan))
    && (forall ordered, plan | IsPlan(qs, signals, ordered, plan) :: SmallerPlan(ps, signals, plan))
  }

  ghost predicate LargerPlan(qs: seq<PolicyRecord>, signals: Signals, plan: seq<PolicyRecord>) {
    exists ordered, more :: IsPlan(qs, signals, ordered, more) && Grows(PlanEntries(plan), PlanEntries(more))
  }

  ghost predicate SmallerPlan(ps: seq<PolicyRecord>, signals: Signals, plan: seq<PolicyRecord>) {
    exists ordered, less :: IsPlan(ps, signals, ordered, less) && Grows(PlanEntries(less), PlanEntries(plan))
  }

  lemma LargerPlanNoSofter(qs: seq<PolicyRecord>, plan: seq<PolicyRecord>, a: PolicyInput, hour: Hour)
    requires LargerPlan(qs, a.signals, plan)
    ensures exists t :: PossibleResponse(qs, a, hour, t) && NoSofter(Respond(PlanOutcome(plan, a, hour)), t)
  {
    var ordered, more :| IsPlan(qs, a.signals, ordered, more) && Grows(PlanEntries(plan), PlanEntries(more));
    GrownPlansNoSofter(plan, more, a, a, hour);
    PlanGivesResponse(qs, a, hour, ordered, more, PlanOutcome(more, a, hour));
  }

  lemma SmallerPlanNoSofter(ps: seq<PolicyRecord>, plan: seq<PolicyRecord>, a: PolicyInput, hour: Hour)
    requires SmallerPlan(ps, a.signals, plan)
    ensures exists r :: PossibleResponse(ps, a, hour, r) && NoSofter(r, Respond(PlanOutcome(plan, a, hour)))
  {
    var ordered, less :| IsPlan(ps, a.signals, ordered, less) && Grows(PlanEntries(less), PlanEntries(plan));
    GrownPlansNoSofter(less, plan, a, a, hour);
    PlanGivesResponse(ps, a, hour, ordered, less, PlanOutcome(less, a, hour));
  }

  lemma GrowingNeverSoftens(ps: seq<PolicyRecord>, qs: seq<PolicyRecord>, a: PolicyInput, hour: Hour)
    requires PlansGrow(ps, qs, a.signals)
    ensures KeepsUp(ps, a, qs, a, hour)
    ensures TiesCommute(ps, Context(a.signals, hour)) || TiesCommute(qs, Context(a.signals, hour)) ==>
              NeverSoftens(ps, a, qs, a, hour)
  {
    forall r | PossibleResponse(ps, a, hour, r) ensures exists t :: PossibleResponse(qs, a, hour, t) && NoSofter(r, t) {
      var ordered, plan :| IsPlan(ps, a.signals, ordered, plan) && r == Respond(PlanOutcome(plan, a, hour));
      LargerPlanNoSofter(qs, plan, a, hour);
    }
    forall t | PossibleResponse(qs, a, hour, t) ensures exists r :: PossibleResponse(ps, a, hour, r) && NoSofter(r, t) {
      var ordered, plan :| IsPlan(qs, a.signals, ordered, plan) && t == Respond(PlanOutcome(plan, a, hour));
      SmallerPlanNoSofter(ps, plan, a, hour);
    }
    if TiesCommute(ps, Context(a.signals, hour)) || TiesCommute(qs, Context(a.signals, hour)) {
      KeepingUpNeverSoftens(ps, a, qs, a, hour);
    }
  }

  lemma GrowsAround(pre: seq<Entry>, less: seq<Entry>, more: seq<Entry>, post: seq<Entry>)
    requires Grows(less, more) && AllKeepOrder(pre) && AllKeepOrder(post)
    ensures Grows(pre + less + post, pre + more + post)
  {
    GrowsRefl(pre);
    GrowsBoth(pre, pre, less, more);
    GrowsExtend(pre + less, pre + more, post);
  }

  lemma GrowsInsert(pre: seq<Entry>, mid: seq<Entry>, post: seq<Entry>)
    requires AllKeepOrder(pre) && AllRaise(mid) && AllKeepOrder(post)
    ensures Grows(pre + post, pre + mid + post)
  {
    GrowsRefl(pre);
    GrowsSkip(pre, pre, mid);
    GrowsExtend(pre, pre + mid, post);
  }

  lemma {:induction false} GrowsBoth(cs: seq<Entry>, ds: seq<Entry>, es: seq<Entry>, fs: seq<Entry>)
    requires Grows(cs, ds) && Grows(es, fs)
    ensures Grows(cs + es, ds + fs)
    decreases |fs|
  {
    if fs == [] {
      assert cs + es == cs && ds + fs == ds;
    } else {
      var (fs', f) := (fs[..|fs| - 1], fs[|fs| - 1]);
      assert (ds + fs)[..|ds + fs| - 1] == ds + fs';
      if es != [] && es[|es| - 1] == f && KeepsOrder(f) && Grows(es[..|es| - 1], fs') {
        assert (cs + es)[..|cs + es| - 1] == cs + es[..|es| - 1];
        GrowsBoth(cs, ds, es[..|es| - 1], fs');
      } else {
        GrowsBoth(cs, ds, es, fs');
      }
    }
  }

  // ----- One more policy -----

  lemma PolicyBetween(pre: seq<PolicyRecord>, q: PolicyRecord, post: seq<PolicyRecord>)
    requires AllKeepOrder(PlanEntries(pre + post)) && AllRaise(Entries(q))
    ensures Grows(PlanEntries(pre + post), PlanEntries(pre + [q] + post))
  {
    PlanEntriesAround(pre, q, post);
    PlanEntriesConcat(pre, post);
    PlanEntriesOne(q);
    GrowsInsert(PlanEntries(pre), Entries(q), PlanEntries(post));
  }

  lemma InsertedPolicyGrows(plan: seq<PolicyRecord>, k: nat, q: PolicyRecord)
    requires k <= |plan| && AllKeepOrder(PlanEntries(plan)) && AllRaise(Entries(q))
    ensures Grows(PlanEntries(plan), PlanEntries(InsertAt(plan, k, q)))
  {
    assert plan == plan[..k] + plan[k..];
    PolicyBetween(plan[..k], q, plan[k..]);
  }

  lemma ArrangedInsert(ordered: seq<PolicyRecord>, plan: seq<PolicyRecord>, k: nat, p: PolicyRecord, q: PolicyRecord)
    requires Arranged(ordered, plan) && k <= |plan| && p.meta == q.meta && SortOf(RuleKey, p.rules, q.rules)
    ensures Arranged(InsertAt(ordered, k, p), InsertAt(plan, k, q))
  {
    var (os, ps) := (InsertAt(ordered, k, p), InsertAt(plan, k, q));
    forall i | 0 <= i < |ps| ensures ps[i].meta == os[i].meta && SortOf(RuleKey, os[i].rules, ps[i].rules) {
      if i != k {
        var j := if i < k then i else i - 1;
        assert ps[i] == plan[j] && os[i] == ordered[j];
      }
    }
  }

  lemma SelectedSnoc(ps: seq<PolicyRecord>, p: PolicyRecord, signals: Signals)
    ensures Selected(ps + [p], signals) == Selected(ps, signals) + if PolicyApplies(p.meta, signals) then [p] else []
  {
    SelectedConcat(ps, [p], signals);
    SelectedOne(p, signals);
  }

  lemma PlanTakesPolicy(ps: seq<PolicyRecord>, p: PolicyRecord, signals: Signals,
                        ordered: seq<PolicyRecord>, plan: seq<PolicyRecord>)
    requires IsPlan(ps, signals, ordered, plan) && RulesKeepOrder(ps, signals)
    requires PolicyApplies(p.meta, signals) ==> RulesRaise(p.rules)
    ensures LargerPlan(ps + [p], signals, plan)
  {
    SelectedSnoc(ps, p, signals);
    PlanKeepsOrder(ps, signals, ordered, plan);
    if PolicyApplies(p.meta, signals) {
      var k := SortedInsert(RecordKey, ordered, p);
      var rules := SortExists(RuleKey, p.rules);
      var q := p.(rules := rules);
      ArrangedInsert(ordered, plan, k, p, q);
      InsertAddsOne(ordered, k, p);
      EntriesRaise(p, q);
      InsertedPolicyGrows(plan, k, q);
      assert IsPlan(ps + [p], signals, InsertAt(ordered, k, p), InsertAt(plan, k, q));
    } else {
      GrowsRefl(PlanEntries(plan));
      assert IsPlan(ps + [p], signals, ordered, plan);
    }
  }

  lemma FindNewcomer<T>(before: seq<T>, p: T, ordered: seq<T>) returns (k: nat)
    requires multiset(before + [p]) == multiset(ordered)
    ensures k < |ordered| && ordered[k] == p && multiset(before) == multiset(Without(ordered, k))
  {
    assert (before + [p])[|before|] == p;
    assert p in multiset(ordered);
    k :| 0 <= k < |ordered| && ordered[k] == p;
    WithoutRemoves(ordered, k);
  }

  lemma DroppedPolicyGrows(plan: seq<PolicyRecord>, k: nat)
    requires k < |plan| && AllKeepOrder(PlanEntries(Without(plan, k))) && AllRaise(Entries(plan[k]))
    ensures Grows(PlanEntries(Without(plan, k)), PlanEntries(plan))
  {
    SplitAt(plan, k);
    PolicyBetween(plan[..k], plan[k], plan[k + 1..]);
  }

  /** A plan of the larger store without the added policy is one of the smaller store. */
  lemma PlanWithoutPolicy(ps: seq<PolicyRecord>, p: PolicyRecord, signals: Signals,
                          ordered: seq<PolicyRecord>, plan: seq<PolicyRecord>)
    returns (k: nat)
    requires IsPlan(ps + [p], signals, ordered, plan) && PolicyApplies(p.meta, signals)
    ensures k < |plan| == |ordered| && multiset(plan[k].rules) == multiset(p.rules)
    ensures IsPlan(ps, signals, Without(ordered, k), Without(plan, k))
  {
    SelectedSnoc(ps, p, signals);
    k := FindNewcomer(Selected(ps, signals), p, ordered);
    WithoutStaysSorted(RecordKey, ordered, k);
    ArrangedWithout(ordered, plan, k);
  }

  lemma PlanGivesUpPolicy(ps: seq<PolicyRecord>, p: PolicyRecord, signals: Signals,
                          ordered: seq<PolicyRecord>, plan: seq<PolicyRecord>)
    requires IsPlan(ps + [p], signals, ordered, plan) && RulesKeepOrder(ps, signals)
    requires PolicyApplies(p.meta, signals) ==> RulesRaise(p.rules)
    ensures SmallerPlan(ps, signals, plan)
  {
    if PolicyApplies(p.meta, signals) {
      var k := PlanWithoutPolicy(ps, p, signals, ordered, plan);
      PlanKeepsOrder(ps, signals, Without(ordered, k), Without(plan, k));
      EntriesRaise(p, plan[k]);
      DroppedPolicyGrows(plan, k);
      IsSmallerPlan(ps, signals, plan, Without(ordered, k), Without(plan, k));
    } else {
      SelectedSnoc(ps, p, signals);
      PlanKeepsOrder(ps, signals, ordered, plan);
      GrowsRefl(PlanEntries(plan));
      IsSmallerPlan(ps, signals, plan, ordered, plan);
    }
  }

  /** Storing one more policy never softens the decision. */
  lemma AddingPolicyNeverSoftens(ps: seq<PolicyRecord>, p: PolicyRecord, a: PolicyInput, hour: Hour)
    requires RulesKeepOrder(ps, a.signals) && (PolicyApplies(p.meta, a.signals) ==> RulesRaise(p.rules))
    ensures KeepsUp(ps, a, ps + [p], a, hour)
    ensures TiesCommute(ps, Context(a.signals, hour)) || TiesCommute(ps + [p], Context(a.signals, hour)) ==>
              NeverSoftens(ps, a, ps + [p], a, hour)
  {
    forall ordered, plan | IsPlan(ps, a.signals, ordered, plan) ensures LargerPlan(ps + [p], a.signals, plan) {
      PlanTakesPolicy(ps, p, a.signals, ordered, plan);
    }
    forall ordered, plan | IsPlan(ps + [p], a.signals, ordered, plan) ensures SmallerPlan(ps, a.signals, plan) {
      PlanGivesUpPolicy(ps, p, a.signals, ordered, plan);
    }
    GrowingNeverSoftens(ps, ps + [p], a, hour);
  }

  // ----- One more rule -----

  /** The store with one more rule in one of its policies. */
  function WithRule(ps: seq<PolicyRecord>, i: nat, r: PolicyRule): seq<PolicyRecord>
    requires i < |ps|
  {
    ps[i := PolicyRecord(ps[i].meta, ps[i].rules + [r])]
  }

  /** Changing the rules of one policy changes it alone among the policies that take part. */
  lemma SelectedUpdate(ps: seq<PolicyRecord>, i: nat, q: PolicyRecord, signals: Signals)
    requires i < |ps| && q.meta == ps[i].meta
    ensures var rest := multiset(Selected(Without(ps, i), signals));
            && multiset(Selected(ps, signals)) == OneIfApplies(ps[i], signals) + rest
            && multiset(Selected(ps[i := q], signals)) == OneIfApplies(q, signals) + rest
  {
    SelectedWithout(ps, i, signals);
    SelectedWithout(ps[i := q], i, signals);
    assert Without(ps[i := q], i) == Without(ps, i);
    SelectedOne(ps[i], signals);
    SelectedOne(q, signals);
  }

  function OneIfApplies(p: PolicyRecord, signals: Signals): multiset<PolicyRecord> {
    if PolicyApplies(p.meta, signals) then multiset{p} else multiset{}
  }

  /** One policy of a sorted list, replaced by another of the same priority. */
  lemma ReplaceInOrder(p: PolicyRecord, q: PolicyRecord, rest: multiset<PolicyRecord>, ordered: seq<PolicyRecord>)
    returns (k: nat)
    requires multiset(ordered) == multiset{p} + rest && SortedBy(RecordKey, ordered) && p.meta == q.meta
    ensures k < |ordered| && ordered[k] == p
    ensures multiset(ordered[k := q]) == multiset{q} + rest && SortedBy(RecordKey, ordered[k := q])
  {
    assert p in multiset(ordered);
    k :| 0 <= k < |ordered| && ordered[k] == p;
    assert multiset(ordered[k := q]) == multiset(ordered) - multiset{p} + multiset{q};
  }

  lemma ArrangedUpdate(ordered: seq<PolicyRecord>, plan: seq<PolicyRecord>, k: nat, q: PolicyRecord, rules: seq<PolicyRule>)
    requires Arranged(ordered, plan) && k < |plan| && q.meta == ordered[k].meta && SortOf(RuleKey, q.rules, rules)
    ensures Arranged(ordered[k := q], plan[k := PolicyRecord(q.meta, rules)])
  {
  }

  lemma ReplacedPolicyGrows(plan: seq<PolicyRecord>, k: nat, q: PolicyRecord)
    requires k < |plan| && Grows(Entries(plan[k]), Entries(q)) && AllKeepOrder(PlanEntries(plan))
    ensures Grows(PlanEntries(plan), PlanEntries(plan[k := q]))
  {
    var (pre, post) := (plan[..k], plan[k + 1..]);
    SplitAt(plan, k);
    SplitAt(plan[k := q], k);
    PlanEntriesAround(pre, plan[k], post);
    PlanEntriesAround(pre, q, post);
    PlanEntriesOne(plan[k]);
    PlanEntriesOne(q);
    GrowsAround(PlanEntries(pre), Entries(plan[k]), Entries(q), PlanEntries(post));
  }

  lemma RuleBetween(pre: seq<PolicyRule>, r: PolicyRule, post: seq<PolicyRule>)
    requires AllKeepOrder(Customs(pre + post)) && Raises(Custom(r))
    ensures Grows(Customs(pre + post), Customs(pre + [r] + post))
  {
    CustomsAround(pre, r, post);
    GrowsInsert(Customs(pre), [Custom(r)], Customs(post));
  }

  lemma BehindSwapAction(meta: PolicyMeta, es: seq<Entry>, fs: seq<Entry>)
    requires Grows(es, fs)
    ensures Grows([SwapAction(meta.name, meta.simSwapAction)] + es, [SwapAction(meta.name, meta.simSwapAction)] + fs)
  {
    var swap := [SwapAction(meta.name, meta.simSwapAction)];
    GrowsRefl(swap);
    GrowsBoth(swap, swap, es, fs);
  }

  lemma InsertedRuleGrows(meta: PolicyMeta, rules: seq<PolicyRule>, k: nat, r: PolicyRule)
    requires k <= |rules| && AllKeepOrder(Customs(rules)) && Raises(Custom(r))
    ensures Grows(Entries(PolicyRecord(meta, rules)), Entries(PolicyRecord(meta, InsertAt(rules, k, r))))
  {
    assert rules == rules[..k] + rules[k..];
    RuleBetween(rules[..k], r, rules[k..]);
    BehindSwapAction(meta, Customs(rules), Customs(InsertAt(rules, k, r)));
  }

  /** Where a policy stands in a plan, and what the order of the policies becomes when it is replaced. */
  lemma FindInPlan(ps: seq<PolicyRecord>, i: nat, q: PolicyRecord, signals: Signals,
                   ordered: seq<PolicyRecord>, plan: seq<PolicyRecord>)
    returns (k: nat)
    requires i < |ps| && q.meta == ps[i].meta && PolicyApplies(q.meta, signals) && IsPlan(ps, signals, ordered, plan)
    ensures k < |plan| == |ordered| && ordered[k] == ps[i] && plan[k].meta == q.meta
    ensures SortOf(RuleKey, ps[i].rules, plan[k].rules)
    ensures SortOf(RecordKey, Selected(ps[i := q], signals), ordered[k := q])
  {
    SelectedUpdate(ps, i, q, signals);
    k := ReplaceInOrder(ps[i], q, multiset(Selected(Without(ps, i), signals)), ordered);
  }

  lemma RulesTake(rules: seq<PolicyRule>, sorted: seq<PolicyRule>, r: PolicyRule) returns (m: nat)
    requires SortOf(RuleKey, rules, sorted)
    ensures m <= |sorted| && SortOf(RuleKey, rules + [r], InsertAt(sorted, m, r))
  {
    m := SortedInsert(RuleKey, sorted, r);
    InsertAddsOne(sorted, m, r);
  }

  lemma RulesGiveUp(rules: seq<PolicyRule>, sorted: seq<PolicyRule>, r: PolicyRule) returns (m: nat)
    requires SortOf(RuleKey, rules + [r], sorted)
    ensures m < |sorted| && SortOf(RuleKey, rules, Without(sorted, m)) && InsertAt(Without(sorted, m), m, r) == sorted
  {
    m := FindNewcomer(rules, r, sorted);
    WithoutStaysSorted(RuleKey, sorted, m);
    PutBack(sorted, m);
  }

  lemma EntriesInPlan(plan: seq<PolicyRecord>, k: nat)
    requires k < |plan|
    ensures forall e | e in Entries(plan[k]) :: e in PlanEntries(plan)
  {
    SplitAt(plan, k);
    PlanEntriesAround(plan[..k], plan[k], plan[k + 1..]);
    PlanEntriesOne(plan[k]);
  }

  lemma RuleInPlanGrows(plan: seq<PolicyRecord>, k: nat, m: nat, r: PolicyRule)
    requires k < |plan| && m <= |plan[k].rules| && AllKeepOrder(PlanEntries(plan)) && Raises(Custom(r))
    ensures Grows(PlanEntries(plan), PlanEntries(plan[k := PolicyRecord(plan[k].meta, InsertAt(plan[k].rules, m, r))]))
  {
    EntriesInPlan(plan, k);
    InsertedRuleGrows(plan[k].meta, plan[k].rules, m, r);
    ReplacedPolicyGrows(plan, k, PolicyRecord(plan[k].meta, InsertAt(plan[k].rules, m, r)));
  }

  lemma SkippedPolicy(ps: seq<PolicyRecord>, i: nat, q: PolicyRecord, signals: Signals)
    requires i < |ps| && q.meta == ps[i].meta && !PolicyApplies(q.meta, signals)
    ensures multiset(Selected(ps[i := q], signals)) == multiset(Selected(ps, signals))
  {
    SelectedUpdate(ps, i, q, signals);
  }

  lemma RuleJoins(qs: seq<PolicyRecord>, signals: Signals, ordered: seq<PolicyRecord>, plan: seq<PolicyRecord>,
                  k: nat, q: PolicyRecord, m: nat, r: PolicyRule)
    requires Arranged(ordered, plan) && k < |plan| && q.meta == plan[k].meta && m <= |plan[k].rules|
    requires AllKeepOrder(PlanEntries(plan)) && Raises(Custom(r))
    requires SortOf(RecordKey, Selected(qs, signals), ordered[k := q])
    requires SortOf(RuleKey, q.rules, InsertAt(plan[k].rules, m, r))
    ensures LargerPlan(qs, signals, plan)
  {
    var rules := InsertAt(plan[k].rules, m, r);
    ArrangedUpdate(ordered, plan, k, q, rules);
    RuleInPlanGrows(plan, k, m, r);
    IsLargerPlan(qs, signals, plan, ordered[k := q], plan[k := PolicyRecord(q.meta, rules)]);
  }

  lemma RuleLeaves(ps: seq<PolicyRecord>, signals: Signals, ordered: seq<PolicyRecord>, plan: seq<PolicyRecord>,
                   k: nat, p: PolicyRecord, m: nat, r: PolicyRule, rules: seq<PolicyRule>)
    requires Arranged(ordered, plan) && k < |plan| && p.meta == plan[k].meta
    requires m <= |rules| && InsertAt(rules, m, r) == plan[k].rules
    requires RulesKeepOrder(ps, signals) && Raises(Custom(r))
    requires SortOf(RecordKey, Selected(ps, signals), ordered[k := p]) && SortOf(RuleKey, p.rules, rules)
    ensures SmallerPlan(ps, signals, plan)
  {
    var less := plan[k := PolicyRecord(p.meta, rules)];
    ArrangedUpdate(ordered, plan, k, p, rules);
    PlanKeepsOrder(ps, signals, ordered[k := p], less);
    RuleInPlanGrows(less, k, m, r);
    assert plan[k] == PolicyRecord(p.meta, InsertAt(rules, m, r)) && less[k := plan[k]] == plan;
    IsSmallerPlan(ps, signals, plan, ordered[k := p], less);
  }

  lemma IsLargerPlan(qs: seq<PolicyRecord>, signals: Signals, plan: seq<PolicyRecord>,
                     ordered: seq<PolicyRecord>, more: seq<PolicyRecord>)
    requires IsPlan(qs, signals, ordered, more) && Grows(PlanEntries(plan), PlanEntries(more))
    ensures LargerPlan(qs, signals, plan)
  {
  }

  lemma IsSmallerPlan(ps: seq<PolicyRecord>, signals: Signals, plan: seq<PolicyRecord>,
                      ordered: seq<PolicyRecord>, less: seq<PolicyRecord>)
    requires IsPlan(ps, signals, ordered, less) && Grows(PlanEntries(less), PlanEntries(plan))
    ensures SmallerPlan(ps, signals, plan)
  {
  }

  lemma PlanTakesRule(ps: seq<PolicyRecord>, i: nat, r: PolicyRule, signals: Signals,
                      ordered: seq<PolicyRecord>, plan: seq<PolicyRecord>)
    requires i < |ps| && IsPlan(ps, signals, ordered, plan) && RulesKeepOrder(ps, signals)
    requires PolicyApplies(ps[i].meta, signals) ==> Raises(Custom(r))
    ensures LargerPlan(WithRule(ps, i, r), signals, plan)
  {
    var q := PolicyRecord(ps[i].meta, ps[i].rules + [r]);
    PlanKeepsOrder(ps, signals, ordered, plan);
    if PolicyApplies(q.meta, signals) {
      var k := FindInPlan(ps, i, q, signals, ordered, plan);
      var m := RulesTake(ps[i].rules, plan[k].rules, r);
      RuleJoins(WithRule(ps, i, r), signals, ordered, plan, k, q, m, r);
    } else {
      SkippedPolicy(ps, i, q, signals);
      GrowsRefl(PlanEntries(plan));
      IsLargerPlan(WithRule(ps, i, r), signals, plan, ordered, plan);
    }
  }

  lemma PlanGivesUpRule(ps: seq<PolicyRecord>, i: nat, r: PolicyRule, signals: Signals,
                        ordered: seq<PolicyRecord>, plan: seq<PolicyRecord>)
    requires i < |ps| && IsPlan(WithRule(ps, i, r), signals, ordered, plan) && RulesKeepOrder(ps, signals)
    requires PolicyApplies(ps[i].meta, signals) ==> Raises(Custom(r))
    ensures SmallerPlan(ps, signals, plan)
  {
    var (p, qs) := (ps[i], WithRule(ps, i, r));
    assert qs[i := p] == ps;
    if PolicyApplies(p.meta, signals) {
      var k := FindInPlan(qs, i, p, signals, ordered, plan);
      var m := RulesGiveUp(p.rules, plan[k].rules, r);
      RuleLeaves(ps, signals, ordered, plan, k, p, m, r, Without(plan[k].rules, m));
    } else {
      SkippedPolicy(qs, i, p, signals);
      PlanKeepsOrder(ps, signals, ordered, plan);
      GrowsRefl(PlanEntries(plan));
      IsSmallerPlan(ps, signals, plan, ordered, plan);
    }
  }

  /** One more rule in a stored policy never softens the decision. */
  lemma AddingRuleNeverSoftens(ps: seq<PolicyRecord>, i: nat, r: PolicyRule, a: PolicyInput, hour: Hour)
    requires i < |ps| && RulesKeepOrder(ps, a.signals)
    requires PolicyApplies(ps[i].meta, a.signals) ==> Raises(Custom(r))
    ensures KeepsUp(ps, a, WithRule(ps, i, r), a, hour)
    ensures TiesCommute(ps, Context(a.signals, hour)) || TiesCommute(WithRule(ps, i, r), Context(a.signals, hour)) ==>
              NeverSoftens(ps, a, WithRule(ps, i, r), a, hour)
  {
    var qs := WithRule(ps, i, r);
    forall ordered, plan | IsPlan(ps, a.signals, ordered, plan) ensures LargerPlan(qs, a.signals, plan) {
      PlanTakesRule(ps, i, r, a.signals, ordered, plan);
    }
    forall ordered, plan | IsPlan(qs, a.signals, ordered, plan) ensures SmallerPlan(ps, a.signals, plan) {
      PlanGivesUpRule(ps, i, r, a.signals, ordered, plan);
    }
    GrowingNeverSoftens(ps, qs, a, hour);
  }
}
