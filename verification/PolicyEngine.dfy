/** The policy engine as it runs: an evaluation result updated in place, rule slices sorted in place. */
module PolicyEngine {
  import opened PolicyModel
  import opened PolicyFold
  import opened PolicyPlans
  import opened SliceSort

  /** A stored policy: the engine sorts its rule slice in place and changes nothing else of it. */
  datatype Policy = Policy(meta: PolicyMeta, rules: array<PolicyRule>)

  /** What the policy resolver of the engine answers. */
  datatype Resolver = NoResolver | ListFails | Lists(policies: seq<Policy>)

  ghost function Record(p: Policy): PolicyRecord
    reads p.rules
  {
    PolicyRecord(p.meta, p.rules[..])
  }

  ghost function Records(ps: seq<Policy>): seq<PolicyRecord>
    reads set p | p in ps :: p.rules
  {
    if ps == [] then [] else Records(ps[..|ps| - 1]) + [Record(ps[|ps| - 1])]
  }

  ghost function RuleSlices(ps: seq<Policy>): set<array<PolicyRule>> {
    set p | p in ps :: p.rules
  }

  ghost predicate AsRecorded(ps: seq<Policy>, records: seq<PolicyRecord>)
    reads set p | p in ps :: p.rules
  {
    && |records| == |ps|
    && forall i | 0 <= i < |ps| :: records[i] == Record(ps[i])
  }

  /** Nothing but the order of the stored rules differs from the records. */
  ghost predicate OnlyPermuted(ps: seq<Policy>, records: seq<PolicyRecord>)
    reads set p | p in ps :: p.rules
  {
    && |records| == |ps|
    && forall i | 0 <= i < |ps| :: multiset(ps[i].rules[..]) == multiset(records[i].rules)
  }

  class EvaluationResult {
    var riskScore: real
    var verdict: Verdict
    var riskLevel: RiskLevel
    var reasons: seq<string>

    constructor (score: real)
      ensures Value() == Outcome(score, Allow, []) && riskLevel == Low
    {
      riskScore, verdict, riskLevel, reasons := score, Allow, Low, [];
    }

    ghost function Value(): Outcome
      reads this
    {
      Outcome(riskScore, verdict, reasons)
    }

    method Escalate(v: Verdict, reason: string)
      modifies this
      ensures Value() == PolicyFold.Escalate(old(Value()), v, reason) && riskLevel == old(riskLevel)
    {
      if Severity(v) > Severity(verdict) {
        verdict := v;
      }
      if reason != "" {
        reasons := reasons + [reason];
      }
    }

    method AddRisk(score: real, reason: string)
      modifies this
      ensures Value() == PolicyFold.AddRisk(old(Value()), score, reason) && riskLevel == old(riskLevel)
    {
      riskScore := riskScore + score;
      if reason != "" {
        reasons := reasons + [reason];
      }
    }
  }

  method EvaluateSimSwap(signals: Signals, result: EvaluationResult)
    requires result.verdict == Allow
    modifies result
    ensures result.riskScore == old(result.riskScore) + (if Swapped(signals) then 50.0 else 0.0)
    ensures result.verdict == if !Swapped(signals) then Allow else if signals.simSwap.value.level == High then Block else Challenge
    ensures result.reasons == old(result.reasons) + SwapReasons(signals)
  {
    if Swapped(signals) {
      result.AddRisk(50.0, "sim_swap_detected");
      match signals.simSwap.value.level {
        case High => result.Escalate(Block, "sim_swap_high_risk");
        case Medium => result.Escalate(Challenge, "sim_swap_medium_risk");
        case _ => result.Escalate(Challenge, "sim_swap_low_risk");
      }
    }
  }

  /** The built-in signals, applied one after the other to a fresh result, amount to the closed form `Start`. */
  method EvaluateBuiltinSignals(input: PolicyInput, result: EvaluationResult)
    requires result.Value() == Outcome(input.riskScore, Allow, [])
    modifies result
    ensures result.Value() == Start(input)
  {
    var signals := input.signals;
    EvaluateSimSwap(signals, result);
    ghost var swapReasons := SwapReasons(signals);
    if signals.verificationResult == "failed" {
      result.AddRisk(20.0, "verification_failed");
      result.Escalate(Challenge, "");
    }
    ghost var failReasons := swapReasons + OneIf(Failed(signals), "verification_failed");
    assert result.reasons == failReasons;
    if signals.confidenceScore > 0.0 && signals.confidenceScore < 0.7 {
      result.AddRisk(15.0, "low_confidence_score");
      result.Escalate(Challenge, "");
    }
    ghost var lowReasons := failReasons + OneIf(LowConfidence(signals), "low_confidence_score");
    assert result.reasons == lowReasons;
    assert result.verdict == BuiltinVerdict(signals);
    if signals.deviceChanged {
      result.AddRisk(10.0, "device_changed");
    }
    assert result.reasons == lowReasons + OneIf(signals.deviceChanged, "device_changed");
  }

  function SelectedPolicies(ps: seq<Policy>, signals: Signals): seq<Policy> {
    if ps == [] then []
    else
      var (init, last) := (ps[..|ps| - 1], ps[|ps| - 1]);
      SelectedPolicies(init, signals) + if PolicyApplies(last.meta, signals) then [last] else []
  }

  function PolicyKey(p: Policy): int { -p.meta.priority }

  /** The policies that take part, by falling priority: the active ones for the use case, if there is one, and for
      the country, if there is one and the policy names any. */
  method FilterPolicies(policies: seq<Policy>, signals: Signals) returns (matched: seq<Policy>)
    ensures SortOf(PolicyKey, SelectedPolicies(policies, signals), matched)
    ensures forall i, j | 0 <= i < j < |matched| :: matched[i].meta.priority >= matched[j].meta.priority
    ensures forall p :: p in matched <==>
              && p in policies && p.meta.active
              && (signals.useCase == "" || p.meta.useCase == signals.useCase)
              && (signals.countryCode == "" || p.meta.countries == [] ||
                  signals.countryCode in p.meta.countries || "*" in p.meta.countries)
  {
    matched := SelectPolicies(policies, signals);
    if matched != [] {
      var slice := new Policy[|matched|](i requires 0 <= i < |matched| => matched[i]);
      assert slice[..] == matched;
      SortSlice(slice, PolicyKey);
      matched := slice[..];
    }
    ByFallingPriority(matched);
    MembersOfSort(SelectedPolicies(policies, signals), matched);
    SelectedMembers(policies, signals);
  }

  method SelectPolicies(policies: seq<Policy>, signals: Signals) returns (matched: seq<Policy>)
    ensures matched == SelectedPolicies(policies, signals)
  {
    matched := [];
    for i := 0 to |policies|
      invariant matched == SelectedPolicies(policies[..i], signals)
    {
      var p := policies[i];
      assert policies[..i + 1][..i] == policies[..i];
      if !p.meta.active {
        continue;
      }
      if signals.useCase != "" && p.meta.useCase != signals.useCase {
        continue;
      }
      if signals.countryCode != "" && |p.meta.countries| > 0 {
        if signals.countryCode !in p.meta.countries && "*" !in p.meta.countries {
          continue;
        }
      }
      matched := matched + [p];
    }
    assert policies[..|policies|] == policies;
  }

  lemma ByFallingPriority(ps: seq<Policy>)
    requires SortedBy(PolicyKey, ps)
    ensures forall i, j | 0 <= i < j < |ps| :: ps[i].meta.priority >= ps[j].meta.priority
  {
    forall i, j | 0 <= i < j < |ps| ensures ps[i].meta.priority >= ps[j].meta.priority {
      assert PolicyKey(ps[i]) <= PolicyKey(ps[j]);
    }
  }

  lemma MembersOfSort(xs: seq<Policy>, ys: seq<Policy>)
    requires multiset(xs) == multiset(ys)
    ensures forall p :: p in xs <==> p in ys
  {
    forall p ensures p in xs <==> p in ys {
      assert p in xs <==> p in multiset(xs);
      assert p in ys <==> p in multiset(ys);
    }
  }

  lemma {:induction false} SelectedMembers(ps: seq<Policy>, signals: Signals)
    ensures forall p :: p in SelectedPolicies(ps, signals) <==> p in ps && PolicyApplies(p.meta, signals)
  {
    if ps != [] {
      SelectedMembers(ps[..|ps| - 1], signals);
      assert ps == ps[..|ps| - 1] + [ps[|ps| - 1]];
    }
  }

  /** The loops over policies and rules are the fold over the plan that the in-place sorts settle on; every
      rule slice is left a permutation of itself. */
  method EvaluatePolicyRules(policies: seq<Policy>, ghost records: seq<PolicyRecord>, ctx: Context,
                             result: EvaluationResult)
    returns (ghost plan: seq<PolicyRecord>)
    requires AsRecorded(policies, records)
    modifies result, RuleSlices(policies)
    ensures Arranged(records, plan) && OnlyPermuted(policies, records)
    ensures result.Value() == Run(PlanEntries(plan), ctx, old(result.Value()))
  {
    plan := [];
    for i := 0 to |policies|
      invariant Arranged(records[..i], plan)
      invariant result.Value() == Run(PlanEntries(plan), ctx, old(result.Value()))
      invariant OnlyPermuted(policies, records)
    {
      var arranged := EvaluatePolicyAt(policies, records, i, ctx, result);
      ArrangedGrows(records[..i], plan, records[i], arranged);
      PrefixGrows(records, i);
      PlanGrows(plan, arranged, ctx, old(result.Value()));
      plan := plan + [arranged];
    }
    assert records[..|policies|] == records;
  }

  method EvaluatePolicyAt(policies: seq<Policy>, ghost records: seq<PolicyRecord>, i: nat, ctx: Context,
                          result: EvaluationResult)
    returns (ghost arranged: PolicyRecord)
    requires i < |policies| && OnlyPermuted(policies, records) && policies[i].meta == records[i].meta
    modifies result, policies[i].rules
    ensures arranged.meta == records[i].meta && SortOf(RuleKey, records[i].rules, arranged.rules)
    ensures OnlyPermuted(policies, records)
    ensures result.Value() == Run(Entries(arranged), ctx, old(result.Value()))
  {
    arranged := EvaluatePolicy(policies[i], ctx, result);
  }

  lemma ArrangedGrows(ordered: seq<PolicyRecord>, plan: seq<PolicyRecord>, o: PolicyRecord, p: PolicyRecord)
    requires Arranged(ordered, plan) && o.meta == p.meta && SortOf(RuleKey, o.rules, p.rules)
    ensures Arranged(ordered + [o], plan + [p])
  {
  }

  lemma PlanGrows(plan: seq<PolicyRecord>, p: PolicyRecord, ctx: Context, o: Outcome)
    ensures Run(PlanEntries(plan + [p]), ctx, o) == Run(Entries(p), ctx, Run(PlanEntries(plan), ctx, o))
  {
    assert (plan + [p])[..|plan + [p]| - 1] == plan;
    RunConcat(PlanEntries(plan), Entries(p), ctx, o);
  }

  method EvaluatePolicy(p: Policy, ctx: Context, result: EvaluationResult) returns (ghost arranged: PolicyRecord)
    modifies result, p.rules
    ensures arranged == Record(p) && SortOf(RuleKey, old(p.rules[..]), arranged.rules)
    ensures result.Value() == Run(Entries(arranged), ctx, old(result.Value()))
  {
    if Swapped(ctx.signals) {
      result.Escalate(p.meta.simSwapAction, "policy_sim_swap_action:" + p.meta.name);
    }
    SortSlice(p.rules, RuleKey);
    arranged := Record(p);
    EntriesRun(arranged, ctx, old(result.Value()));
    EvaluateRules(p.rules, ctx, result);
  }

  method EvaluateRules(rules: array<PolicyRule>, ctx: Context, result: EvaluationResult)
    modifies result
    ensures result.Value() == Run(Customs(rules[..]), ctx, old(result.Value()))
  {
    ghost var start := result.Value();
    for j := 0 to rules.Length
      invariant result.Value() == Run(Customs(rules[..j]), ctx, start)
    {
      var rule := rules[j];
      assert rules[..j + 1][..j] == rules[..j];
      assert Customs(rules[..j + 1]) == Customs(rules[..j]) + [Custom(rule)];
      if rule.enabled {
        if MatchesCondition(rule.condition, ctx, result.riskScore) {
          result.AddRisk(rule.riskAdjustment, "rule:" + rule.name);
          result.Escalate(rule.verdict, rule.reason);
        }
      }
    }
    assert rules[..rules.Length] == rules[..];
  }

  lemma EntriesRun(p: PolicyRecord, ctx: Context, o: Outcome)
    ensures Run(Entries(p), ctx, o) ==
            Run(Customs(p.rules), ctx, Apply(SwapAction(p.meta.name, p.meta.simSwapAction), ctx, o))
  {
    var swap := [SwapAction(p.meta.name, p.meta.simSwapAction)];
    RunConcat(swap, Customs(p.rules), ctx, o);
    assert swap[..0] == [] && Run([], ctx, o) == o;
  }

  lemma {:induction false} RecordsAt(ps: seq<Policy>)
    ensures AsRecorded(ps, Records(ps)) && OnlyPermuted(ps, Records(ps))
  {
    if ps != [] {
      RecordsAt(ps[..|ps| - 1]);
    }
  }

  lemma {:induction false} RecordsOfSelected(ps: seq<Policy>, signals: Signals)
    ensures Records(SelectedPolicies(ps, signals)) == Selected(Records(ps), signals)
  {
    if ps != [] {
      var (init, last) := (ps[..|ps| - 1], ps[|ps| - 1]);
      RecordsOfSelected(init, signals);
      var rs := Records(init) + [Record(last)];
      assert rs[..|rs| - 1] == Records(init) && rs != [] && rs[|rs| - 1] == Record(last);
      assert Selected(rs, signals) ==
             Selected(Records(init), signals) + if PolicyApplies(last.meta, signals) then [Record(last)] else [];
      if PolicyApplies(last.meta, signals) {
        var chosen := SelectedPolicies(init, signals) + [last];
        assert chosen[..|chosen| - 1] == SelectedPolicies(init, signals);
        assert SelectedPolicies(ps, signals) == chosen;
      } else {
        assert SelectedPolicies(ps, signals) == SelectedPolicies(init, signals);
      }
    }
  }

  lemma RecordsSorted(ps: seq<Policy>, qs: seq<Policy>)
    requires SortOf(PolicyKey, ps, qs)
    ensures SortOf(RecordKey, Records(ps), Records(qs))
  {
    RecordsAt(ps);
    RecordsAt(qs);
    ImagesPermute(ps, qs, Records(ps), Records(qs));
  }

  function ListedPolicies(resolver: Resolver): seq<Policy> {
    if resolver.Lists? then resolver.policies else []
  }

  /** An evaluation answers with one of the possible responses of the listed policies (none if there is no
      resolver or listing fails) and permutes their stored rules at most. */
  method Evaluate(resolver: Resolver, input: PolicyInput, hour: Hour) returns (response: VerdictResponse)
    modifies RuleSlices(ListedPolicies(resolver))
    ensures PossibleResponse(old(Records(ListedPolicies(resolver))), input, hour, response)
    ensures OnlyPermuted(ListedPolicies(resolver), old(Records(ListedPolicies(resolver))))
  {
    ghost var records := Records(ListedPolicies(resolver));
    RecordsAt(ListedPolicies(resolver));
    var result := new EvaluationResult(input.riskScore);
    response := EvaluateFrom(resolver, records, input, hour, result);
  }

  method EvaluateFrom(resolver: Resolver, ghost records: seq<PolicyRecord>, input: PolicyInput, hour: Hour,
                      result: EvaluationResult)
    returns (response: VerdictResponse)
    requires AsRecorded(ListedPolicies(resolver), records) && result.Value() == Outcome(input.riskScore, Allow, [])
    modifies result, RuleSlices(ListedPolicies(resolver))
    ensures PossibleResponse(records, input, hour, response)
    ensures OnlyPermuted(ListedPolicies(resolver), records)
  {
    EvaluateBuiltinSignals(input, result);
    ghost var ordered, plan := EvaluateListed(resolver, records, input, hour, result);
    PlanGivesResponse(records, input, hour, ordered, plan, result.Value());
    result.riskLevel := LevelFromScore(result.riskScore);
    var action := ActionFromVerdict(result.verdict);
    response := VerdictResponse(result.verdict, result.riskLevel, result.reasons, action);
  }

  method EvaluateListed(resolver: Resolver, ghost records: seq<PolicyRecord>, input: PolicyInput, hour: Hour,
                        result: EvaluationResult)
    returns (ghost ordered: seq<PolicyRecord>, ghost plan: seq<PolicyRecord>)
    requires AsRecorded(ListedPolicies(resolver), records)
    modifies result, RuleSlices(ListedPolicies(resolver))
    ensures IsPlan(records, input.signals, ordered, plan)
    ensures result.Value() == Run(PlanEntries(plan), Context(input.signals, hour), old(result.Value()))
    ensures OnlyPermuted(ListedPolicies(resolver), records)
  {
    ordered, plan := [], [];
    if resolver.Lists? {
      ordered, plan := EvaluateMatching(resolver.policies, records, input, hour, result);
    }
  }

  method EvaluateMatching(policies: seq<Policy>, ghost records: seq<PolicyRecord>, input: PolicyInput, hour: Hour,
                          result: EvaluationResult)
    returns (ghost ordered: seq<PolicyRecord>, ghost plan: seq<PolicyRecord>)
    requires AsRecorded(policies, records)
    modifies result, RuleSlices(policies)
    ensures IsPlan(records, input.signals, ordered, plan)
    ensures result.Value() == Run(PlanEntries(plan), Context(input.signals, hour), old(result.Value()))
    ensures OnlyPermuted(policies, records)
  {
    var matching := FilterPolicies(policies, input.signals);
    ordered := MatchingRecords(policies, records, input.signals, matching);
    plan := EvaluatePolicyRules(matching, ordered, Context(input.signals, hour), result);
    StillPermuted(policies, records, matching, ordered);
  }

  /** Policies that share a rule slice have the same rules on record. */
  ghost predicate SlicesAgree(policies: seq<Policy>, records: seq<PolicyRecord>, matching: seq<Policy>, ordered: seq<PolicyRecord>) {
    && |records| == |policies| && |ordered| == |matching|
    && forall i, k | 0 <= i < |policies| && 0 <= k < |matching| ::
         matching[k].rules == policies[i].rules ==> ordered[k].rules == records[i].rules
  }

  lemma MatchingRecords(policies: seq<Policy>, records: seq<PolicyRecord>, signals: Signals, matching: seq<Policy>)
    returns (ordered: seq<PolicyRecord>)
    requires AsRecorded(policies, records) && SortOf(PolicyKey, SelectedPolicies(policies, signals), matching)
    ensures AsRecorded(matching, ordered) && SortOf(RecordKey, Selected(records, signals), ordered)
    ensures RuleSlices(matching) <= RuleSlices(policies) && SlicesAgree(policies, records, matching, ordered)
  {
    RecordsAt(policies);
    assert records == Records(policies);
    ordered := Records(matching);
    RecordsAt(matching);
    RecordsOfSelected(policies, signals);
    RecordsSorted(SelectedPolicies(policies, signals), matching);
    MatchingAreListed(policies, signals, matching);
  }

  /** The slices of the policies that took part are permuted, and the others are as they were. */
  lemma StillPermuted(policies: seq<Policy>, records: seq<PolicyRecord>, matching: seq<Policy>, ordered: seq<PolicyRecord>)
    requires SlicesAgree(policies, records, matching, ordered) && OnlyPermuted(matching, ordered)
    requires forall i | 0 <= i < |policies| :: policies[i].rules !in RuleSlices(matching) ==>
               policies[i].rules[..] == records[i].rules
    ensures OnlyPermuted(policies, records)
  {
    forall i | 0 <= i < |policies| ensures multiset(policies[i].rules[..]) == multiset(records[i].rules) {
      if policies[i].rules in RuleSlices(matching) {
        var k :| 0 <= k < |matching| && matching[k].rules == policies[i].rules;
      }
    }
  }

  lemma MatchingAreListed(ps: seq<Policy>, signals: Signals, matched: seq<Policy>)
    requires SortOf(PolicyKey, SelectedPolicies(ps, signals), matched)
    ensures RuleSlices(matched) <= RuleSlices(ps)
  {
    SelectedMembers(ps, signals);
    forall p | p in matched ensures p in ps {
      assert p in multiset(SelectedPolicies(ps, signals));
    }
  }
}
