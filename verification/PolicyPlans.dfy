/** From a stored list of policies to a response: which policies take part, in which orders the unstable
    sorts may evaluate them, and what all those orders agree on. */
module PolicyPlans {
  import opened PolicyModel
  import opened PolicyFold
  import opened SliceSort

  function RecordKey(p: PolicyRecord): int { -p.meta.priority }

  function Customs(rules: seq<PolicyRule>): seq<Entry> {
    if rules == [] then [] else Customs(rules[..|rules| - 1]) + [Custom(rules[|rules| - 1])]
  }

  function Entries(p: PolicyRecord): seq<Entry> {
    [SwapAction(p.meta.name, p.meta.simSwapAction)] + Customs(p.rules)
  }

  function PlanEntries(plan: seq<PolicyRecord>): seq<Entry> {
    if plan == [] then [] else PlanEntries(plan[..|plan| - 1]) + Entries(plan[|plan| - 1])
  }

  function Selected(ps: seq<PolicyRecord>, signals: Signals): seq<PolicyRecord> {
    if ps == [] then []
    else
      var (init, last) := (ps[..|ps| - 1], ps[|ps| - 1]);
      Selected(init, signals) + if PolicyApplies(last.meta, signals) then [last] else []
  }

  /** `plan` holds the policies of `ordered`, each with its rules as `sort.Slice` may leave them. */
  ghost predicate Arranged(ordered: seq<PolicyRecord>, plan: seq<PolicyRecord>) {
    && |plan| == |ordered|
    && forall i | 0 <= i < |plan| ::
         plan[i].meta == ordered[i].meta && SortOf(RuleKey, ordered[i].rules, plan[i].rules)
  }

  ghost predicate IsPlan(ps: seq<PolicyRecord>, signals: Signals, ordered: seq<PolicyRecord>, plan: seq<PolicyRecord>) {
    SortOf(RecordKey, Selected(ps, signals), ordered) && Arranged(ordered, plan)
  }

  lemma PlanEntriesSnoc(plan: seq<PolicyRecord>, p: PolicyRecord)
    ensures PlanEntries(plan + [p]) == PlanEntries(plan) + Entries(p)
  {
    assert (plan + [p])[..|plan + [p]| - 1] == plan;
  }

  lemma {:induction false} PlanEntriesConcat(ps: seq<PolicyRecord>, qs: seq<PolicyRecord>)
    ensures PlanEntries(ps + qs) == PlanEntries(ps) + PlanEntries(qs)
  {
    if qs == [] {
      assert ps + qs == ps;
    } else {
      var (init, last) := (qs[..|qs| - 1], qs[|qs| - 1]);
      PlanEntriesConcat(ps, init);
      assert ps + qs == (ps + init) + [last] && qs == init + [last];
      PlanEntriesSnoc(ps + init, last);
      PlanEntriesSnoc(init, last);
      ConcatIsAssociative(PlanEntries(ps), PlanEntries(init), Entries(last));
    }
  }

  lemma PlanEntriesAround(pre: seq<PolicyRecord>, p: PolicyRecord, post: seq<PolicyRecord>)
    ensures PlanEntries(pre + [p] + post) == PlanEntries(pre) + PlanEntries([p]) + PlanEntries(post)
  {
    PlanEntriesConcat(pre, [p]);
    PlanEntriesConcat(pre + [p], post);
  }

  // ----- Which policies take part -----

  lemma {:induction false} SelectedConcat(ps: seq<PolicyRecord>, qs: seq<PolicyRecord>, signals: Signals)
    ensures Selected(ps + qs, signals) == Selected(ps, signals) + Selected(qs, signals)
  {
    if qs == [] {
      assert ps + qs == ps;
    } else {
      assert (ps + qs)[..|ps + qs| - 1] == ps + qs[..|qs| - 1];
      SelectedConcat(ps, qs[..|qs| - 1], signals);
    }
  }

  lemma SelectedOne(p: PolicyRecord, signals: Signals)
    ensures Selected([p], signals) == if PolicyApplies(p.meta, signals) then [p] else []
  {
    assert [p][..0] == [] && Selected([], signals) == [];
  }

  lemma SelectedWithout(ps: seq<PolicyRecord>, i: nat, signals: Signals)
    requires i < |ps|
    ensures multiset(Selected(ps, signals)) ==
            multiset(Selected([ps[i]], signals)) + multiset(Selected(Without(ps, i), signals))
  {
    var (pre, post) := (ps[..i], ps[i + 1..]);
    assert ps == (pre + [ps[i]]) + post;
    SelectedConcat(pre + [ps[i]], post, signals);
    SelectedConcat(pre, [ps[i]], signals);
    SelectedConcat(pre, post, signals);
  }

  lemma {:induction false} SelectedPermutes(ps: seq<PolicyRecord>, qs: seq<PolicyRecord>, signals: Signals)
    requires multiset(ps) == multiset(qs)
    ensures multiset(Selected(ps, signals)) == multiset(Selected(qs, signals))
  {
    if ps == [] {
      assert |multiset(qs)| == 0;
    } else {
      var i := FindHead(ps, qs);
      SelectedPermutes(ps[1..], Without(qs, i), signals);
      SelectedWithout(ps, 0, signals);
      SelectedWithout(qs, i, signals);
      assert Without(ps, 0) == ps[1..];
    }
  }

  lemma ArrangedWithout(ordered: seq<PolicyRecord>, plan: seq<PolicyRecord>, k: nat)
    requires Arranged(ordered, plan) && k < |plan|
    ensures Arranged(Without(ordered, k), Without(plan, k))
  {
    var (o, q) := (Without(ordered, k), Without(plan, k));
    forall i | 0 <= i < |q| ensures q[i].meta == o[i].meta && SortOf(RuleKey, o[i].rules, q[i].rules) {
      var j := if i < k then i else i + 1;
      assert q[i] == plan[j] && o[i] == ordered[j];
    }
  }

  // ----- The built-in signals, in closed form -----

  predicate LowConfidence(signals: Signals) {
    0.0 < signals.confidenceScore < 0.7
  }

  function BuiltinScore(signals: Signals): real {
    (if Swapped(signals) then 50.0 else 0.0) + (if Failed(signals) then 20.0 else 0.0)
    + (if LowConfidence(signals) then 15.0 else 0.0) + (if signals.deviceChanged then 10.0 else 0.0)
  }

  function BuiltinVerdict(signals: Signals): Verdict {
    if Swapped(signals) && signals.simSwap.value.level == High then Block
    else if Swapped(signals) || Failed(signals) || LowConfidence(signals) then Challenge
    else Allow
  }

  function SwapReason(level: RiskLevel): string {
    match level
    case High => "sim_swap_high_risk"
    case Medium => "sim_swap_medium_risk"
    case _ => "sim_swap_low_risk"
  }

  function SwapReasons(signals: Signals): seq<string> {
    if Swapped(signals) then ["sim_swap_detected", SwapReason(signals.simSwap.value.level)] else []
  }

  function OneIf(fires: bool, reason: string): seq<string> {
    if fires then [reason] else []
  }

  function BuiltinReasons(signals: Signals): seq<string> {
    SwapReasons(signals) + OneIf(Failed(signals), "verification_failed")
    + OneIf(LowConfidence(signals), "low_confidence_score") + OneIf(signals.deviceChanged, "device_changed")
  }

  function Start(input: PolicyInput): Outcome {
    Outcome(input.riskScore + BuiltinScore(input.signals), BuiltinVerdict(input.signals), BuiltinReasons(input.signals))
  }

  function Respond(o: Outcome): VerdictResponse {
    VerdictResponse(o.verdict, LevelFromScore(o.score), o.reasons, ActionFromVerdict(o.verdict))
  }

  function PlanOutcome(plan: seq<PolicyRecord>, input: PolicyInput, hour: Hour): Outcome {
    Run(PlanEntries(plan), Context(input.signals, hour), Start(input))
  }

  /** A response that some order left open by the unstable sorts produces. */
  ghost predicate PossibleResponse(ps: seq<PolicyRecord>, input: PolicyInput, hour: Hour, r: VerdictResponse) {
    exists ordered, plan :: IsPlan(ps, input.signals, ordered, plan) && r == Respond(PlanOutcome(plan, input, hour))
  }

  lemma PlanGivesResponse(ps: seq<PolicyRecord>, input: PolicyInput, hour: Hour,
                          ordered: seq<PolicyRecord>, plan: seq<PolicyRecord>, o: Outcome)
    requires IsPlan(ps, input.signals, ordered, plan)
    requires o == Run(PlanEntries(plan), Context(input.signals, hour), Start(input))
    ensures PossibleResponse(ps, input, hour, Respond(o))
  {
  }

  /** A response is explained by a firing log of the policies: its verdict is the most severe of the built-in
      verdict and those of the log, never an unknown text, its risk level is that of the initial score plus the
      built-in and fired adjustments, and its reasons are the built-in ones followed by those of the log. */
  ghost predicate Explains(log: seq<Entry>, input: PolicyInput, r: VerdictResponse) {
    && MostSevere(r.verdict, BuiltinVerdict(input.signals), log) && !r.verdict.Other?
    && r.riskLevel == LevelFromScore(input.riskScore + BuiltinScore(input.signals) + SumAdjustments(log))
    && r.reasons == BuiltinReasons(input.signals) + AllReasons(log)
    && r.actionRequired == ActionFromVerdict(r.verdict)
  }

  lemma PlanIsExplained(plan: seq<PolicyRecord>, input: PolicyInput, hour: Hour)
    ensures Explains(Log(PlanEntries(plan), Context(input.signals, hour), Start(input)), input,
                     Respond(PlanOutcome(plan, input, hour)))
  {
    RunFollowsLog(PlanEntries(plan), Context(input.signals, hour), Start(input));
    RunTakesMostSevere(PlanEntries(plan), Context(input.signals, hour), Start(input));
  }

  /** Every possible response is explained by what fired in some order that the sorts leave open. */
  lemma ResponsesAreExplained(ps: seq<PolicyRecord>, input: PolicyInput, hour: Hour, r: VerdictResponse)
    requires PossibleResponse(ps, input, hour, r)
    ensures exists ordered, plan ::
              && IsPlan(ps, input.signals, ordered, plan) && r == Respond(PlanOutcome(plan, input, hour))
              && Explains(Log(PlanEntries(plan), Context(input.signals, hour), Start(input)), input, r)
  {
    var ordered, plan :| IsPlan(ps, input.signals, ordered, plan) && r == Respond(PlanOutcome(plan, input, hour));
    PlanIsExplained(plan, input, hour);
  }

  // ----- Order independence -----

  function RuleTallies(ctx: Context): PolicyRule -> Tally {
    r => EntryTally(Custom(r), ctx)
  }

  function RecordTally(p: PolicyRecord, ctx: Context): Tally {
    if PolicyApplies(p.meta, ctx.signals) then Total(EntryTallies(ctx), Entries(p)) else Nothing
  }

  function RecordTallies(ctx: Context): PolicyRecord -> Tally {
    p => RecordTally(p, ctx)
  }

  lemma {:induction false} CustomsTally(rules: seq<PolicyRule>, ctx: Context)
    ensures Total(EntryTallies(ctx), Customs(rules)) == Total(RuleTallies(ctx), rules)
  {
    if rules != [] {
      var (init, last) := (rules[..|rules| - 1], rules[|rules| - 1]);
      CustomsTally(init, ctx);
      TotalConcat(EntryTallies(ctx), Customs(init), [Custom(last)]);
      TotalOne(EntryTallies(ctx), Custom(last));
    }
  }

  /** The tally of a policy does not depend on the stored order of its rules. */
  lemma RecordTallyIgnoresRuleOrder(p: PolicyRecord, q: PolicyRecord, ctx: Context)
    requires p.meta == q.meta && multiset(p.rules) == multiset(q.rules)
    ensures RecordTally(p, ctx) == RecordTally(q, ctx)
  {
    var swap := [SwapAction(p.meta.name, p.meta.simSwapAction)];
    TotalConcat(EntryTallies(ctx), swap, Customs(p.rules));
    TotalConcat(EntryTallies(ctx), swap, Customs(q.rules));
    CustomsTally(p.rules, ctx);
    CustomsTally(q.rules, ctx);
    TotalPermutes(RuleTallies(ctx), p.rules, q.rules);
  }

  lemma {:induction false} RecordTalliesAgree(ps: seq<PolicyRecord>, qs: seq<PolicyRecord>, ctx: Context)
    requires |ps| == |qs|
    requires forall i | 0 <= i < |ps| :: ps[i].meta == qs[i].meta && multiset(ps[i].rules) == multiset(qs[i].rules)
    ensures Total(RecordTallies(ctx), ps) == Total(RecordTallies(ctx), qs)
  {
    if ps != [] {
      RecordTalliesAgree(ps[..|ps| - 1], qs[..|qs| - 1], ctx);
      RecordTallyIgnoresRuleOrder(ps[|ps| - 1], qs[|qs| - 1], ctx);
    }
  }

  lemma {:induction false} PlanTally(plan: seq<PolicyRecord>, ctx: Context)
    requires forall i | 0 <= i < |plan| :: PolicyApplies(plan[i].meta, ctx.signals)
    ensures Total(EntryTallies(ctx), PlanEntries(plan)) == Total(RecordTallies(ctx), plan)
  {
    if plan != [] {
      var (init, last) := (plan[..|plan| - 1], plan[|plan| - 1]);
      PlanTally(init, ctx);
      TotalConcat(EntryTallies(ctx), PlanEntries(init), Entries(last));
    }
  }

  lemma {:induction false} SelectedTally(ps: seq<PolicyRecord>, ctx: Context)
    ensures Total(RecordTallies(ctx), Selected(ps, ctx.signals)) == Total(RecordTallies(ctx), ps)
  {
    if ps != [] {
      var (init, last) := (ps[..|ps| - 1], ps[|ps| - 1]);
      SelectedTally(init, ctx);
      if PolicyApplies(last.meta, ctx.signals) {
        TotalConcat(RecordTallies(ctx), Selected(init, ctx.signals), [last]);
        TotalOne(RecordTallies(ctx), last);
      } else {
        assert Selected(ps, ctx.signals) == Selected(init, ctx.signals);
      }
    }
  }

  lemma {:induction false} SelectedApply(ps: seq<PolicyRecord>, signals: Signals)
    ensures forall p :: p in Selected(ps, signals) <==> p in ps && PolicyApplies(p.meta, signals)
  {
    if ps != [] {
      SelectedApply(ps[..|ps| - 1], signals);
      assert ps == ps[..|ps| - 1] + [ps[|ps| - 1]];
    }
  }

  /** No policy that takes part has an enabled rule that reads the running score. */
  ghost predicate FeedbackFree(ps: seq<PolicyRecord>, signals: Signals) {
    forall p | p in ps && PolicyApplies(p.meta, signals) :: RulesFeedbackFree(p.rules)
  }

  predicate RulesFeedbackFree(rules: seq<PolicyRule>) {
    forall r | r in rules :: NoFeedback(Custom(r))
  }

  lemma {:induction false} CustomsMembers(rules: seq<PolicyRule>)
    ensures forall e :: e in Customs(rules) <==> e.Custom? && e.rule in rules
  {
    if rules != [] {
      CustomsMembers(rules[..|rules| - 1]);
      assert rules == rules[..|rules| - 1] + [rules[|rules| - 1]];
    }
  }

  lemma {:induction false} PlanMembers(plan: seq<PolicyRecord>)
    ensures forall e | e in PlanEntries(plan) && e.Custom? :: exists p :: p in plan && e.rule in p.rules
  {
    if plan != [] {
      var (init, last) := (plan[..|plan| - 1], plan[|plan| - 1]);
      PlanMembers(init);
      CustomsMembers(last.rules);
      assert plan == init + [last];
      forall e | e in PlanEntries(plan) && e.Custom? ensures exists p :: p in plan && e.rule in p.rules {
        if e in PlanEntries(init) {
          var p :| p in init && e.rule in p.rules;
          assert p in plan;
        } else {
          assert last in plan && e.rule in last.rules;
        }
      }
    }
  }

  /** Every policy and rule of a plan comes from the stored list. */
  lemma PlanComesFromStore(ps: seq<PolicyRecord>, signals: Signals, ordered: seq<PolicyRecord>, plan: seq<PolicyRecord>, p: PolicyRecord)
    returns (q: PolicyRecord)
    requires IsPlan(ps, signals, ordered, plan) && p in plan
    ensures q in ps && PolicyApplies(q.meta, signals) && q.meta == p.meta && multiset(q.rules) == multiset(p.rules)
  {
    var i :| 0 <= i < |plan| && plan[i] == p;
    q := ordered[i];
    assert q in multiset(Selected(ps, signals));
    SelectedApply(ps, signals);
  }

  lemma PlanIsFeedbackFree(ps: seq<PolicyRecord>, signals: Signals, ordered: seq<PolicyRecord>, plan: seq<PolicyRecord>)
    requires IsPlan(ps, signals, ordered, plan) && FeedbackFree(ps, signals)
    ensures forall e | e in PlanEntries(plan) :: NoFeedback(e)
  {
    PlanMembers(plan);
    forall e | e in PlanEntries(plan) && e.Custom? ensures NoFeedback(e) {
      var p :| p in plan && e.rule in p.rules;
      var q := PlanComesFromStore(ps, signals, ordered, plan, p);
      assert e.rule in multiset(q.rules);
    }
  }

  lemma PlanHasStoreTally(ps: seq<PolicyRecord>, ctx: Context, ordered: seq<PolicyRecord>, plan: seq<PolicyRecord>)
    requires IsPlan(ps, ctx.signals, ordered, plan)
    ensures Total(EntryTallies(ctx), PlanEntries(plan)) == Total(RecordTallies(ctx), ps)
  {
    forall i | 0 <= i < |plan| ensures PolicyApplies(plan[i].meta, ctx.signals) {
      var q := PlanComesFromStore(ps, ctx.signals, ordered, plan, plan[i]);
    }
    PlanTally(plan, ctx);
    RecordTalliesAgree(ordered, plan, ctx);
    TotalPermutes(RecordTallies(ctx), Selected(ps, ctx.signals), ordered);
    SelectedTally(ps, ctx);
  }

  /** The two responses differ at most in the order of their reasons. */
  ghost predicate SameDecision(a: VerdictResponse, b: VerdictResponse) {
    && a.verdict == b.verdict && a.riskLevel == b.riskLevel && a.actionRequired == b.actionRequired
    && multiset(a.reasons) == multiset(b.reasons)
  }

  lemma KnownVerdict(plan: seq<PolicyRecord>, input: PolicyInput, hour: Hour)
    ensures !PlanOutcome(plan, input, hour).verdict.Other?
  {
    RunTakesMostSevere(PlanEntries(plan), Context(input.signals, hour), Start(input));
  }

  lemma PlanAddsStoreTally(ps: seq<PolicyRecord>, input: PolicyInput, hour: Hour, ordered: seq<PolicyRecord>, plan: seq<PolicyRecord>)
    requires IsPlan(ps, input.signals, ordered, plan) && FeedbackFree(ps, input.signals)
    ensures Adds(Start(input), Total(RecordTallies(Context(input.signals, hour)), ps), PlanOutcome(plan, input, hour))
  {
    var ctx := Context(input.signals, hour);
    PlanIsFeedbackFree(ps, input.signals, ordered, plan);
    RunAddsTally(PlanEntries(plan), ctx, Start(input));
    PlanHasStoreTally(ps, ctx, ordered, plan);
  }

  lemma SameTallySameDecision(o: Outcome, t: Tally, a: Outcome, b: Outcome)
    requires Adds(o, t, a) && Adds(o, t, b) && !a.verdict.Other? && !b.verdict.Other?
    ensures SameDecision(Respond(a), Respond(b))
  {
  }

  /** `qs` is the stored list `ps` in another order (`mid`), each policy with its rules in another order. */
  ghost predicate Reordered(ps: seq<PolicyRecord>, mid: seq<PolicyRecord>, qs: seq<PolicyRecord>) {
    && multiset(ps) == multiset(mid) && |mid| == |qs|
    && forall i | 0 <= i < |mid| :: mid[i].meta == qs[i].meta && multiset(mid[i].rules) == multiset(qs[i].rules)
  }

  /** Order independence: if no enabled rule reads the running score, every evaluation of a stored list and of
      any reordering of its policies and rules gives the same decision. Neither the random order of the store
      nor the ties left open by the unstable sorts matter. */
  lemma OrderDoesNotMatter(ps: seq<PolicyRecord>, mid: seq<PolicyRecord>, qs: seq<PolicyRecord>,
                           input: PolicyInput, hour: Hour, a: VerdictResponse, b: VerdictResponse)
    requires Reordered(ps, mid, qs)
    requires FeedbackFree(ps, input.signals)
    requires PossibleResponse(ps, input, hour, a) && PossibleResponse(qs, input, hour, b)
    ensures SameDecision(a, b)
  {
    var ordered1, plan1 :| IsPlan(ps, input.signals, ordered1, plan1) && a == Respond(PlanOutcome(plan1, input, hour));
    var ordered2, plan2 :| IsPlan(qs, input.signals, ordered2, plan2) && b == Respond(PlanOutcome(plan2, input, hour));
    ReorderedStaysFeedbackFree(ps, mid, qs, input.signals);
    PlansDecideAlike(ps, mid, qs, input, hour, ordered1, plan1, ordered2, plan2);
  }

  lemma ReorderedStaysFeedbackFree(ps: seq<PolicyRecord>, mid: seq<PolicyRecord>, qs: seq<PolicyRecord>, signals: Signals)
    requires Reordered(ps, mid, qs) && FeedbackFree(ps, signals)
    ensures FeedbackFree(qs, signals)
  {
    forall q | q in qs && PolicyApplies(q.meta, signals) ensures RulesFeedbackFree(q.rules) {
      var i :| 0 <= i < |qs| && qs[i] == q;
      assert mid[i] in multiset(ps);
      forall r | r in q.rules ensures NoFeedback(Custom(r)) {
        assert r in multiset(mid[i].rules);
      }
    }
  }

  lemma PlansDecideAlike(ps: seq<PolicyRecord>, mid: seq<PolicyRecord>, qs: seq<PolicyRecord>, input: PolicyInput, hour: Hour,
                         ordered1: seq<PolicyRecord>, plan1: seq<PolicyRecord>,
                         ordered2: seq<PolicyRecord>, plan2: seq<PolicyRecord>)
    requires Reordered(ps, mid, qs)
    requires FeedbackFree(ps, input.signals) && FeedbackFree(qs, input.signals)
    requires IsPlan(ps, input.signals, ordered1, plan1) && IsPlan(qs, input.signals, ordered2, plan2)
    ensures SameDecision(Respond(PlanOutcome(plan1, input, hour)), Respond(PlanOutcome(plan2, input, hour)))
  {
    var ctx := Context(input.signals, hour);
    var t := Total(RecordTallies(ctx), ps);
    assert t == Total(RecordTallies(ctx), qs) by {
      TotalPermutes(RecordTallies(ctx), ps, mid);
      RecordTalliesAgree(mid, qs, ctx);
    }
    PlanAddsStoreTally(ps, input, hour, ordered1, plan1);
    PlanAddsStoreTally(qs, input, hour, ordered2, plan2);
    KnownVerdict(plan1, input, hour);
    KnownVerdict(plan2, input, hour);
    SameTallySameDecision(Start(input), t, PlanOutcome(plan1, input, hour), PlanOutcome(plan2, input, hour));
  }
}
