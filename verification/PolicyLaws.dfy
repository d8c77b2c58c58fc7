/** What an evaluation comes to in plain terms: priorities, verdicts, scores, actions and conditions by their own
    values. */
module PolicyLaws {
  import opened Options
  import opened PolicyModel
  import opened PolicyFold
  import opened PolicyPlans
  import opened PolicySwaps
  import opened PolicyTies
  import opened SliceSort

  // ----- Priorities -----

  /** In every plan policies, and rules within a policy, come by falling priority. */
  lemma PlansFollowPriorities(ps: seq<PolicyRecord>, signals: Signals, ordered: seq<PolicyRecord>, plan: seq<PolicyRecord>)
    requires IsPlan(ps, signals, ordered, plan)
    ensures forall i, j | 0 <= i < j < |plan| :: plan[i].meta.priority >= plan[j].meta.priority
    ensures forall k, i, j | 0 <= k < |plan| && 0 <= i < j < |plan[k].rules| ::
              plan[k].rules[i].priority >= plan[k].rules[j].priority
  {
    forall i, j | 0 <= i < j < |plan| ensures plan[i].meta.priority >= plan[j].meta.priority {
      assert RecordKey(ordered[i]) <= RecordKey(ordered[j]);
    }
    forall k, i, j | 0 <= k < |plan| && 0 <= i < j < |plan[k].rules|
      ensures plan[k].rules[i].priority >= plan[k].rules[j].priority
    {
      assert RuleKey(plan[k].rules[i]) <= RuleKey(plan[k].rules[j]);
    }
  }

  /** Two rules of different priorities have one sorting, the higher first. */
  lemma TwoSorted(x: PolicyRule, y: PolicyRule, rules: seq<PolicyRule>)
    requires x.priority > y.priority && multiset(rules) == multiset{x, y}
    requires forall i, j | 0 <= i < j < |rules| :: rules[i].priority >= rules[j].priority
    ensures rules == [x, y]
  {
    assert |rules| == |multiset(rules)| == 2;
    assert rules[0] in multiset(rules) && rules[1] in multiset(rules);
    assert rules == [rules[0], rules[1]];
    assert multiset(rules)[x] == 1 && multiset(rules)[y] == 1;
  }

  lemma OnlyPlanOfTwo(p: PolicyRecord, x: PolicyRule, y: PolicyRule, signals: Signals,
                      ordered: seq<PolicyRecord>, plan: seq<PolicyRecord>)
    requires IsPlan([p], signals, ordered, plan) && PolicyApplies(p.meta, signals)
    requires multiset(p.rules) == multiset{x, y} && x.priority > y.priority
    ensures plan == [PolicyRecord(p.meta, [x, y])]
  {
    SelectedOne(p, signals);
    assert |ordered| == |multiset(ordered)| == 1;
    assert ordered[0] in multiset(ordered);
    PlansFollowPriorities([p], signals, ordered, plan);
    TwoSorted(x, y, plan[0].rules);
  }

  /** A stored policy with two rules, in whatever order they are stored: every response is the one in which the rule
      of higher priority is applied first. */
  lemma HigherPriorityComesFirst(p: PolicyRecord, x: PolicyRule, y: PolicyRule, input: PolicyInput, hour: Hour, r: VerdictResponse)
    requires PolicyApplies(p.meta, input.signals)
    requires multiset(p.rules) == multiset{x, y} && x.priority > y.priority
    ensures var ctx := Context(input.signals, hour);
            var swapped := Apply(SwapAction(p.meta.name, p.meta.simSwapAction), ctx, Start(input));
            PossibleResponse([p], input, hour, r) <==>
            r == Respond(Apply(Custom(y), ctx, Apply(Custom(x), ctx, swapped)))
  {
    var ctx := Context(input.signals, hour);
    var plan := [PolicyRecord(p.meta, [x, y])];
    RunOfTwo(p.meta, x, y, ctx, Start(input));
    if PossibleResponse([p], input, hour, r) {
      var ordered, plan' :| IsPlan([p], input.signals, ordered, plan') && r == Respond(PlanOutcome(plan', input, hour));
      OnlyPlanOfTwo(p, x, y, input.signals, ordered, plan');
    }
    PlanOfOne(p, [x, y], input.signals);
    PlanGivesResponse([p], input, hour, [p], plan, PlanOutcome(plan, input, hour));
  }

  const First := PolicyRule("first", Anything, Allow, 30.0, "", 20, true)
  const Second := PolicyRule("second", Anything.(riskScoreAbove := Some(25.0)), Block, 0.0, "", 10, true)

  lemma FirstThenSecond(ctx: Context)
    ensures var o := Apply(Custom(Second), ctx, Apply(Custom(First), ctx, Outcome(0.0, Allow, [])));
            o.verdict == Block && o.score == 30.0
  {
    var o := Outcome(0.0, Allow, []);
    PlainRuleFires(First, ctx, o);
    ThresholdRuleFires(Second, 25.0, ctx, Apply(Custom(First), ctx, o));
  }

  lemma QuietSwapAction(meta: PolicyMeta, o: Outcome)
    ensures Apply(SwapAction(meta.name, meta.simSwapAction), Context(Quiet, 0), o) == o
  {
  }

  lemma BlockedResponse(o: Outcome)
    requires o.verdict == Block && o.score == 30.0
    ensures var r := Respond(o); r.verdict == Block && r.actionRequired == "deny_operation" && r.riskLevel == Medium
  {
  }

  /** For example, a rule that adds 30 and comes before one that blocks above 25 always leads to blocking. */
  lemma FirstRaisesSecondBlocks(p: PolicyRecord, r: VerdictResponse)
    requires p.meta.active && multiset(p.rules) == multiset{First, Second}
    requires PossibleResponse([p], PolicyInput(Quiet, 0.0), 0, r)
    ensures r.verdict == Block && r.actionRequired == "deny_operation" && r.riskLevel == Medium
  {
    var ctx := Context(Quiet, 0);
    assert PolicyApplies(p.meta, Quiet);
    HigherPriorityComesFirst(p, First, Second, PolicyInput(Quiet, 0.0), 0, r);
    QuietStart();
    QuietSwapAction(p.meta, Outcome(0.0, Allow, []));
    FirstThenSecond(ctx);
    BlockedResponse(Apply(Custom(Second), ctx, Apply(Custom(First), ctx, Outcome(0.0, Allow, []))));
  }

  // ----- Verdicts by name -----

  /** Somebody, the start or a fired entry, asks for this verdict. */
  ghost predicate Asked(v: Verdict, start: Verdict, log: seq<Entry>) {
    v == start || exists i | 0 <= i < |log| :: VerdictOf(log[i]) == v
  }

  /** Blocking comes before review, review before a challenge, and a challenge before everything else. */
  ghost predicate Ranked(v: Verdict, start: Verdict, log: seq<Entry>) {
    && (v == Block <==> Asked(Block, start, log))
    && (v == Review <==> !Asked(Block, start, log) && Asked(Review, start, log))
    && (v == Challenge <==> !Asked(Block, start, log) && !Asked(Review, start, log) && Asked(Challenge, start, log))
    && (v != Block && v != Review && v != Challenge ==> v == start)
  }

  lemma RankedStep(v: Verdict, start: Verdict, log: seq<Entry>, e: Entry)
    requires Ranked(v, start, log)
    ensures Ranked(if Severity(VerdictOf(e)) > Severity(v) then VerdictOf(e) else v, start, log + [e])
  {
    forall w ensures Asked(w, start, log + [e]) <==> Asked(w, start, log) || w == VerdictOf(e) {
      assert VerdictOf((log + [e])[|log|]) == VerdictOf(e);
      if Asked(w, start, log) && w != start {
        var i :| 0 <= i < |log| && VerdictOf(log[i]) == w;
        assert VerdictOf((log + [e])[i]) == w;
      }
    }
  }

  lemma {:induction false} RunIsRanked(es: seq<Entry>, ctx: Context, o: Outcome)
    ensures Ranked(Run(es, ctx, o).verdict, o.verdict, Log(es, ctx, o))
  {
    if es != [] {
      var (init, last) := (es[..|es| - 1], es[|es| - 1]);
      RunIsRanked(init, ctx, o);
      LogUnfolds(es, ctx, o);
      if Fires(last, ctx, Run(init, ctx, o).score) {
        FiringStep(last, ctx, Run(init, ctx, o));
        RankedStep(Run(init, ctx, o).verdict, o.verdict, Log(init, ctx, o), last);
      }
    }
  }

  // ----- What fires -----

  predicate SwapDetected(signals: Signals) {
    signals.simSwap.Some? && signals.simSwap.value.detected
  }

  /** A log holds the SIM swap actions of all policies of the plan if a swap was detected, and none otherwise. */
  lemma {:induction false} SwapActionsFire(es: seq<Entry>, ctx: Context, o: Outcome)
    ensures forall e: Entry | e.SwapAction? :: e in Log(es, ctx, o) <==> e in es && SwapDetected(ctx.signals)
  {
    if es != [] {
      var (init, last) := (es[..|es| - 1], es[|es| - 1]);
      SwapActionsFire(init, ctx, o);
      LogUnfolds(es, ctx, o);
      assert es == init + [last];
    }
  }

  /** A rule in a log is an enabled one of those evaluated, and its condition matched at some score. */
  lemma {:induction false} OnlyMatchingRulesFire(es: seq<Entry>, ctx: Context, o: Outcome)
    ensures forall e: Entry | e.Custom? && e in Log(es, ctx, o) ::
              e in es && e.rule.enabled && exists score :: MatchesCondition(e.rule.condition, ctx, score)
  {
    if es != [] {
      var (init, last) := (es[..|es| - 1], es[|es| - 1]);
      OnlyMatchingRulesFire(init, ctx, o);
      LogUnfolds(es, ctx, o);
      assert es == init + [last];
    }
  }

  /** And an enabled rule without a condition on the score is in it whenever its other tests match. */
  lemma {:induction false} MatchingRulesFire(es: seq<Entry>, ctx: Context, o: Outcome, r: PolicyRule)
    requires Custom(r) in es && r.enabled && forall score :: MatchesCondition(r.condition, ctx, score)
    ensures Custom(r) in Log(es, ctx, o)
  {
    var (init, last) := (es[..|es| - 1], es[|es| - 1]);
    LogUnfolds(es, ctx, o);
    InInitOrLast(es, Custom(r));
    if last == Custom(r) {
      assert Fires(last, ctx, Run(init, ctx, o).score);
    } else {
      MatchingRulesFire(init, ctx, o, r);
    }
  }

  // ----- Conditions, field by field -----

  /** What each field of a condition asks for, when it stands alone. */
  lemma FieldsAskFor(ctx: Context, score: real)
    ensures MatchesCondition(Anything, ctx, score)
    ensures forall xs | xs != [] :: MatchesCondition(Anything.(countries := xs), ctx, score) <==> ctx.signals.countryCode in xs
    ensures forall xs | xs != [] :: MatchesCondition(Anything.(operators := xs), ctx, score) <==> ctx.signals.operator in xs
    ensures forall xs | xs != [] :: MatchesCondition(Anything.(useCases := xs), ctx, score) <==> ctx.signals.useCase in xs
    ensures forall xs | xs != [] :: MatchesCondition(Anything.(channels := xs), ctx, score) <==> ctx.signals.channel in xs
    ensures forall b :: MatchesCondition(Anything.(simSwapDetected := Some(b)), ctx, score) <==> SwapDetected(ctx.signals) == b
    ensures forall b :: MatchesCondition(Anything.(verificationFailed := Some(b)), ctx, score) <==>
                        (ctx.signals.verificationResult == "failed") == b
    ensures forall t :: MatchesCondition(Anything.(confidenceBelow := Some(t)), ctx, score) <==> ctx.signals.confidenceScore < t
    ensures forall b :: MatchesCondition(Anything.(deviceChanged := Some(b)), ctx, score) <==> ctx.signals.deviceChanged == b
    ensures forall t :: MatchesCondition(Anything.(riskScoreAbove := Some(t)), ctx, score) <==> score > t
    ensures forall from: Hour, to: Hour :: MatchesCondition(Anything.(hourRange := Some((from, to))), ctx, score) <==>
                                           (ctx.hour - from) % 24 < (to - from) % 24
  {
    forall from: Hour, to: Hour
      ensures MatchesCondition(Anything.(hourRange := Some((from, to))), ctx, score) <==>
              (ctx.hour - from) % 24 < (to - from) % 24
    {
      HoursAreAnArc(from, to, ctx.hour);
    }
  }

  /** A condition matches exactly when each of its fields does. */
  lemma ConditionsMatchByField(c: RuleCondition, ctx: Context, score: real)
    ensures MatchesCondition(c, ctx, score) <==>
            && MatchesCondition(Anything.(countries := c.countries), ctx, score)
            && MatchesCondition(Anything.(operators := c.operators), ctx, score)
            && MatchesCondition(Anything.(useCases := c.useCases), ctx, score)
            && MatchesCondition(Anything.(channels := c.channels), ctx, score)
            && MatchesCondition(Anything.(simSwapDetected := c.simSwapDetected), ctx, score)
            && MatchesCondition(Anything.(verificationFailed := c.verificationFailed), ctx, score)
            && MatchesCondition(Anything.(confidenceBelow := c.confidenceBelow), ctx, score)
            && MatchesCondition(Anything.(deviceChanged := c.deviceChanged), ctx, score)
            && MatchesCondition(Anything.(riskScoreAbove := c.riskScoreAbove), ctx, score)
            && MatchesCondition(Anything.(hourRange := c.hourRange), ctx, score)
  {
  }

  // ----- Responses in plain terms -----

  predicate ConfidenceIsLow(signals: Signals) {
    signals.confidenceScore > 0.0 && signals.confidenceScore < 0.7
  }

  /** The score of an input with what fired: 50 for a detected SIM swap, 20 for a failed verification, 15 for low
      confidence, 10 for a changed device. */
  function PlainScore(input: PolicyInput, log: seq<Entry>): real {
    input.riskScore
    + (if SwapDetected(input.signals) then 50.0 else 0.0)
    + (if input.signals.verificationResult == "failed" then 20.0 else 0.0)
    + (if ConfidenceIsLow(input.signals) then 15.0 else 0.0)
    + (if input.signals.deviceChanged then 10.0 else 0.0)
    + SumAdjustments(log)
  }

  function PlainReasons(signals: Signals): seq<string> {
    (if !SwapDetected(signals) then []
     else if signals.simSwap.value.level == High then ["sim_swap_detected", "sim_swap_high_risk"]
     else if signals.simSwap.value.level == Medium then ["sim_swap_detected", "sim_swap_medium_risk"]
     else ["sim_swap_detected", "sim_swap_low_risk"])
    + (if signals.verificationResult == "failed" then ["verification_failed"] else [])
    + (if ConfidenceIsLow(signals) then ["low_confidence_score"] else [])
    + (if signals.deviceChanged then ["device_changed"] else [])
  }

  /** A response by the values of the signals and by what fired. */
  ghost predicate InPlainTerms(log: seq<Entry>, input: PolicyInput, r: VerdictResponse) {
    var (signals, score) := (input.signals, PlainScore(input, log));
    var blocks := (SwapDetected(signals) && signals.simSwap.value.level == High) || Asked(Block, Allow, log);
    var reviews := Asked(Review, Allow, log);
    var challenges := SwapDetected(signals) || signals.verificationResult == "failed" || ConfidenceIsLow(signals)
                      || Asked(Challenge, Allow, log);
    && r.verdict == (if blocks then Block else if reviews then Review else if challenges then Challenge else Allow)
    && r.actionRequired == (if blocks then "deny_operation" else if reviews then "manual_review"
                            else if challenges then "require_otp" else "proceed")
    && r.riskLevel == (if score >= 50.0 then High else if score >= 20.0 then Medium else Low)
    && r.reasons == PlainReasons(signals) + AllReasons(log)
  }

  lemma StartInPlainTerms(input: PolicyInput)
    ensures Start(input).reasons == PlainReasons(input.signals)
    ensures Start(input).score == PlainScore(input, [])
  {
  }

  lemma VerdictInPlainTerms(log: seq<Entry>, input: PolicyInput, v: Verdict)
    requires Ranked(v, BuiltinVerdict(input.signals), log)
    ensures var signals := input.signals;
            var blocks := (SwapDetected(signals) && signals.simSwap.value.level == High) || Asked(Block, Allow, log);
            var reviews := Asked(Review, Allow, log);
            var challenges := SwapDetected(signals) || signals.verificationResult == "failed" || ConfidenceIsLow(signals)
                              || Asked(Challenge, Allow, log);
            v == if blocks then Block else if reviews then Review else if challenges then Challenge else Allow
  {
    var start := BuiltinVerdict(input.signals);
    assert Asked(Block, start, log) <==> start == Block || Asked(Block, Allow, log);
    assert Asked(Review, start, log) <==> Asked(Review, Allow, log);
    assert Asked(Challenge, start, log) <==> start == Challenge || Asked(Challenge, Allow, log);
  }

  /** Every possible response reads in plain terms off what fired in a plan of the stored policies. */
  lemma ResponsesInPlainTerms(ps: seq<PolicyRecord>, input: PolicyInput, hour: Hour, r: VerdictResponse)
    requires PossibleResponse(ps, input, hour, r)
    ensures exists ordered, plan ::
              && IsPlan(ps, input.signals, ordered, plan) && r == Respond(PlanOutcome(plan, input, hour))
              && InPlainTerms(Log(PlanEntries(plan), Context(input.signals, hour), Start(input)), input, r)
  {
    var ordered, plan :| IsPlan(ps, input.signals, ordered, plan) && r == Respond(PlanOutcome(plan, input, hour));
    PlanInPlainTerms(plan, input, hour);
  }

  lemma OutcomeInPlainTerms(log: seq<Entry>, input: PolicyInput, o: Outcome)
    requires o.score == PlainScore(input, log) && o.reasons == PlainReasons(input.signals) + AllReasons(log)
    requires Ranked(o.verdict, BuiltinVerdict(input.signals), log)
    ensures InPlainTerms(log, input, Respond(o))
  {
    VerdictInPlainTerms(log, input, o.verdict);
  }

  lemma PlanInPlainTerms(plan: seq<PolicyRecord>, input: PolicyInput, hour: Hour)
    ensures InPlainTerms(Log(PlanEntries(plan), Context(input.signals, hour), Start(input)), input,
                         Respond(PlanOutcome(plan, input, hour)))
  {
    var (es, ctx) := (PlanEntries(plan), Context(input.signals, hour));
    RunFollowsLog(es, ctx, Start(input));
    RunIsRanked(es, ctx, Start(input));
    StartInPlainTerms(input);
    OutcomeInPlainTerms(Log(es, ctx, Start(input)), input, Run(es, ctx, Start(input)));
  }
}
