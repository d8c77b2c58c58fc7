/** Policies, rules and evaluation inputs of the policy engine, and the tests the engine makes on them. */
module PolicyModel {
  import opened Options

  /** A verdict is a string in the stored policies; `Other` is any text but the four known ones. */
  datatype Verdict = Allow | Challenge | Review | Block | Other(text: string)

  datatype RiskLevel = Low | Medium | High | OtherLevel(text: string)

  datatype SimSwap = SimSwap(detected: bool, level: RiskLevel)

  /** What the conditions of rules may look at. */
  datatype Signals = Signals(
    verificationResult: string, confidenceScore: real, channel: string,
    simSwap: Option<SimSwap>, deviceChanged: bool,
    countryCode: string, operator: string, useCase: string)

  datatype PolicyInput = PolicyInput(signals: Signals, riskScore: real)

  datatype RuleCondition = RuleCondition(
    countries: seq<string>, operators: seq<string>, useCases: seq<string>, channels: seq<string>,
    simSwapDetected: Option<bool>, verificationFailed: Option<bool>, confidenceBelow: Option<real>,
    deviceChanged: Option<bool>, riskScoreAbove: Option<real>, hourRange: Option<(int, int)>)

  datatype PolicyRule = PolicyRule(
    name: string, condition: RuleCondition, verdict: Verdict, riskAdjustment: real, reason: string,
    priority: int, enabled: bool)

  datatype PolicyMeta = PolicyMeta(
    name: string, useCase: string, simSwapAction: Verdict, countries: seq<string>, priority: int, active: bool)

  /** A policy with its rules as a value, in the order in which they are stored. */
  datatype PolicyRecord = PolicyRecord(meta: PolicyMeta, rules: seq<PolicyRule>)

  datatype VerdictResponse = VerdictResponse(
    verdict: Verdict, riskLevel: RiskLevel, reasons: seq<string>, actionRequired: string)

  /** An hour of the UTC clock. */
  type Hour = h: int | 0 <= h < 24

  /** What the rules of one evaluation see: the signals and the UTC hour at which it runs. */
  datatype Context = Context(signals: Signals, hour: Hour)

  function Severity(v: Verdict): (n: nat)
    ensures n <= 3
    ensures v.Other? ==> n == 0
  {
    match v
    case Allow => 0
    case Challenge => 1
    case Review => 2
    case Block => 3
    case Other(_) => 0
  }

  function LevelFromScore(score: real): RiskLevel {
    if score >= 50.0 then High else if score >= 20.0 then Medium else Low
  }

  function ActionFromVerdict(v: Verdict): string {
    match v
    case Challenge => "require_otp"
    case Block => "deny_operation"
    case Review => "manual_review"
    case _ => "proceed"
  }

  predicate Swapped(signals: Signals) {
    signals.simSwap.Some? && signals.simSwap.value.detected
  }

  predicate Failed(signals: Signals) {
    signals.verificationResult == "failed"
  }

  predicate InHours(range: (int, int), hour: int) {
    var (start, end) := range;
    if start <= end then start <= hour < end else hour >= start || hour < end
  }

  /** An hour range is the arc of the clock that starts at its first hour and stops before its second, through
      midnight if need be; equal hours make it empty. */
  lemma HoursAreAnArc(start: Hour, end: Hour, hour: Hour)
    ensures InHours((start, end), hour) <==> (hour - start) % 24 < (end - start) % 24
  {
    assert (hour - start) % 24 == if hour >= start then hour - start else hour - start + 24;
    assert (end - start) % 24 == if end >= start then end - start else end - start + 24;
  }

  /** Whether every non-empty field of the condition matches, against the running score. */
  predicate MatchesCondition(c: RuleCondition, ctx: Context, score: real) {
    MatchesOthers(c, ctx) && Above(c, score)
  }

  /** The only test that reads the running score. */
  predicate Above(c: RuleCondition, score: real) {
    c.riskScoreAbove.Some? ==> score > c.riskScoreAbove.value
  }

  /** All tests but that. */
  predicate MatchesOthers(c: RuleCondition, ctx: Context) {
    var signals := ctx.signals;
    && (c.countries == [] || signals.countryCode in c.countries)
    && (c.operators == [] || signals.operator in c.operators)
    && (c.useCases == [] || signals.useCase in c.useCases)
    && (c.channels == [] || signals.channel in c.channels)
    && (c.simSwapDetected.Some? ==> Swapped(signals) == c.simSwapDetected.value)
    && (c.verificationFailed.Some? ==> Failed(signals) == c.verificationFailed.value)
    && (c.confidenceBelow.Some? ==> signals.confidenceScore < c.confidenceBelow.value)
    && (c.deviceChanged.Some? ==> signals.deviceChanged == c.deviceChanged.value)
    && (c.hourRange.Some? ==> InHours(c.hourRange.value, ctx.hour))
  }

  // ----- Which conditions can match, and which can match together -----

  predicate Overlap(xs: seq<string>, ys: seq<string>) {
    xs == [] || ys == [] || exists x :: x in xs && x in ys
  }

  predicate Agree(a: Option<bool>, b: Option<bool>) {
    a.Some? && b.Some? ==> a.value == b.value
  }

  predicate AtHour(range: Option<(int, int)>, hour: int) {
    range.Some? ==> InHours(range.value, hour)
  }

  /** No list, flag or hour range of the two conditions rules out the other. */
  predicate Compatible(c: RuleCondition, d: RuleCondition) {
    && Overlap(c.countries, d.countries) && Overlap(c.operators, d.operators)
    && Overlap(c.useCases, d.useCases) && Overlap(c.channels, d.channels)
    && Agree(c.simSwapDetected, d.simSwapDetected) && Agree(c.verificationFailed, d.verificationFailed)
    && Agree(c.deviceChanged, d.deviceChanged)
    && exists h :: 0 <= h < 24 && AtHour(c.hourRange, h) && AtHour(d.hourRange, h)
  }

  function Common(xs: seq<string>, ys: seq<string>): (x: string)
    requires Overlap(xs, ys)
    ensures (xs == [] || x in xs) && (ys == [] || x in ys)
  {
    if xs == [] then if ys == [] then "" else ys[0]
    else if ys == [] || xs[0] in ys then xs[0]
    else Common(xs[1..], ys)
  }

  function Either(a: Option<bool>, b: Option<bool>): bool {
    if a.Some? then a.value else b.Some? && b.value
  }

  function Lower(a: Option<real>, b: Option<real>): (r: real)
    ensures (a.Some? ==> r < a.value) && (b.Some? ==> r < b.value)
  {
    if a.Some? && (b.None? || a.value <= b.value) then a.value - 1.0
    else if b.Some? then b.value - 1.0
    else 0.0
  }

  lemma TogetherAreCompatible(c: RuleCondition, d: RuleCondition, ctx: Context)
    requires MatchesOthers(c, ctx) && MatchesOthers(d, ctx)
    ensures Compatible(c, d)
  {
    assert AtHour(c.hourRange, ctx.hour) && AtHour(d.hourRange, ctx.hour);
  }

  /** Two conditions can match together, at some score, exactly when they are compatible. */
  lemma CompatibleExactly(c: RuleCondition, d: RuleCondition)
    ensures Compatible(c, d) <==> exists ctx :: MatchesOthers(c, ctx) && MatchesOthers(d, ctx)
  {
    if Compatible(c, d) {
      var h: Hour :| AtHour(c.hourRange, h) && AtHour(d.hourRange, h);
      assert "" != "failed";
      var signals := Signals(
        if Either(c.verificationFailed, d.verificationFailed) then "failed" else "",
        Lower(c.confidenceBelow, d.confidenceBelow), Common(c.channels, d.channels),
        Some(SimSwap(Either(c.simSwapDetected, d.simSwapDetected), Low)),
        Either(c.deviceChanged, d.deviceChanged),
        Common(c.countries, d.countries), Common(c.operators, d.operators), Common(c.useCases, d.useCases));
      var ctx := Context(signals, h);
      assert MatchesOthers(c, ctx) && MatchesOthers(d, ctx);
    }
    forall ctx | MatchesOthers(c, ctx) && MatchesOthers(d, ctx) ensures Compatible(c, d) {
      TogetherAreCompatible(c, d, ctx);
    }
  }

  /** A condition can match at all unless its hour range holds no hour of the clock. */
  predicate CanMatch(c: RuleCondition) {
    c.hourRange.Some? ==>
      var (start, end) := c.hourRange.value;
      if start <= end then start < end && start < 24 && end > 0 else start < 24 || end > 0
  }

  lemma OverlapsItself(xs: seq<string>)
    ensures Overlap(xs, xs)
  {
    assert xs != [] ==> xs[0] in xs;
  }

  function SomeHour(range: (int, int)): Hour {
    if 0 <= range.0 < 24 then range.0 else 0
  }

  lemma CanMatchExactly(c: RuleCondition)
    ensures CanMatch(c) <==> exists ctx, score :: MatchesCondition(c, ctx, score)
  {
    forall ctx, score | MatchesCondition(c, ctx, score) ensures CanMatch(c) {
      assert AtHour(c.hourRange, ctx.hour);
    }
    if CanMatch(c) {
      var h: Hour := if c.hourRange.None? then 0 else SomeHour(c.hourRange.value);
      assert AtHour(c.hourRange, h);
      OverlapsItself(c.countries);
      OverlapsItself(c.operators);
      OverlapsItself(c.useCases);
      OverlapsItself(c.channels);
      CompatibleExactly(c, c);
      var ctx :| MatchesOthers(c, ctx);
      var score := if c.riskScoreAbove.Some? then c.riskScoreAbove.value + 1.0 else 0.0;
      assert MatchesCondition(c, ctx, score);
    }
  }

  /** Whether a policy takes part in an evaluation. */
  predicate PolicyApplies(meta: PolicyMeta, signals: Signals) {
    && meta.active
    && (signals.useCase != "" ==> meta.useCase == signals.useCase)
    && (signals.countryCode != "" && meta.countries != [] ==>
          signals.countryCode in meta.countries || "*" in meta.countries)
  }

  function RuleKey(r: PolicyRule): int { -r.priority }
}
