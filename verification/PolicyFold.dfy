/** What an evaluation order means: a fold over the policy-level SIM swap actions and the rules, whose
    running score feeds back into the conditions of later rules. */
module PolicyFold {
  import opened Options
  import opened PolicyModel
  import opened SliceSort

  /** The state that `evaluationResult` threads through an evaluation. */
  datatype Outcome = Outcome(score: real, verdict: Verdict, reasons: seq<string>)

  /** One thing that may fire: the SIM swap action of a policy or one of its rules. */
  datatype Entry = SwapAction(policy: string, action: Verdict) | Custom(rule: PolicyRule)

  function Noted(reasons: seq<string>, reason: string): seq<string> {
    if reason != "" then reasons + [reason] else reasons
  }

  function Escalate(o: Outcome, v: Verdict, reason: string): Outcome {
    Outcome(o.score, if Severity(v) > Severity(o.verdict) then v else o.verdict, Noted(o.reasons, reason))
  }

  function AddRisk(o: Outcome, adjustment: real, reason: string): Outcome {
    Outcome(o.score + adjustment, o.verdict, Noted(o.reasons, reason))
  }

  predicate Fires(e: Entry, ctx: Context, score: real) {
    match e
    case SwapAction(_, _) => Swapped(ctx.signals)
    case Custom(r) => r.enabled && MatchesCondition(r.condition, ctx, score)
  }

  function Adjustment(e: Entry): real {
    match e
    case SwapAction(_, _) => 0.0
    case Custom(r) => r.riskAdjustment
  }

  function VerdictOf(e: Entry): Verdict {
    match e
    case SwapAction(_, action) => action
    case Custom(r) => r.verdict
  }

  function ReasonsOf(e: Entry): seq<string> {
    match e
    case SwapAction(policy, _) => ["policy_sim_swap_action:" + policy]
    case Custom(r) => Noted(["rule:" + r.name], r.reason)
  }

  function Apply(e: Entry, ctx: Context, o: Outcome): Outcome {
    if !Fires(e, ctx, o.score) then o
    else match e
      case SwapAction(policy, action) => Escalate(o, action, "policy_sim_swap_action:" + policy)
      case Custom(r) => Escalate(AddRisk(o, r.riskAdjustment, "rule:" + r.name), r.verdict, r.reason)
  }

  function Run(es: seq<Entry>, ctx: Context, o: Outcome): Outcome {
    if es == [] then o else Apply(es[|es| - 1], ctx, Run(es[..|es| - 1], ctx, o))
  }

  /** The entries of the evaluation that fired, in order. */
  function Log(es: seq<Entry>, ctx: Context, o: Outcome): seq<Entry> {
    if es == [] then []
    else
      var (init, last) := (es[..|es| - 1], es[|es| - 1]);
      Log(init, ctx, o) + if Fires(last, ctx, Run(init, ctx, o).score) then [last] else []
  }

  function SumAdjustments(log: seq<Entry>): real {
    if log == [] then 0.0 else SumAdjustments(log[..|log| - 1]) + Adjustment(log[|log| - 1])
  }

  function AllReasons(log: seq<Entry>): seq<string> {
    if log == [] then [] else AllReasons(log[..|log| - 1]) + ReasonsOf(log[|log| - 1])
  }

  /** `v` is the most severe of the starting verdict and the verdicts of the log, and never an unknown
      text that the starting verdict was not. */
  ghost predicate MostSevere(v: Verdict, start: Verdict, log: seq<Entry>) {
    && (v == start || exists i | 0 <= i < |log| :: VerdictOf(log[i]) == v)
    && Severity(v) >= Severity(start)
    && (forall i | 0 <= i < |log| :: Severity(v) >= Severity(VerdictOf(log[i])))
    && (v.Other? ==> v == start)
  }

  lemma EscalationKeepsMostSevere(v: Verdict, start: Verdict, log: seq<Entry>, e: Entry)
    requires MostSevere(v, start, log)
    ensures MostSevere(if Severity(VerdictOf(e)) > Severity(v) then VerdictOf(e) else v, start, log + [e])
  {
    var log' := log + [e];
    assert VerdictOf(log'[|log|]) == VerdictOf(e);
    if v != start {
      var i :| 0 <= i < |log| && VerdictOf(log[i]) == v;
      assert VerdictOf(log'[i]) == v;
    }
  }

  lemma SumSnoc(log: seq<Entry>, e: Entry)
    ensures SumAdjustments(log + [e]) == SumAdjustments(log) + Adjustment(e)
    ensures AllReasons(log + [e]) == AllReasons(log) + ReasonsOf(e)
  {
    assert (log + [e])[..|log + [e]| - 1] == log;
  }

  lemma FiringStep(e: Entry, ctx: Context, o: Outcome)
    requires Fires(e, ctx, o.score)
    ensures var v := VerdictOf(e);
            Apply(e, ctx, o) == Outcome(o.score + Adjustment(e),
                                        if Severity(v) > Severity(o.verdict) then v else o.verdict,
                                        o.reasons + ReasonsOf(e))
  {
    if e.Custom? {
      assert o.reasons + ["rule:" + e.rule.name] + [e.rule.reason] ==
             o.reasons + (["rule:" + e.rule.name] + [e.rule.reason]);
    } else {
      assert "policy_sim_swap_action:" + e.policy != "";
    }
  }

  /** `r` is `o` with the adjustments and the reasons of the log added. */
  ghost predicate Accounts(o: Outcome, log: seq<Entry>, r: Outcome) {
    r.score == o.score + SumAdjustments(log) && r.reasons == o.reasons + AllReasons(log)
  }

  lemma FiringAccounts(o: Outcome, log: seq<Entry>, before: Outcome, e: Entry, ctx: Context)
    requires Accounts(o, log, before) && Fires(e, ctx, before.score)
    ensures Accounts(o, log + [e], Apply(e, ctx, before))
  {
    FiringStep(e, ctx, before);
    SumSnoc(log, e);
    ConcatIsAssociative(o.reasons, AllReasons(log), ReasonsOf(e));
  }

  lemma ConcatIsAssociative<T>(a: seq<T>, b: seq<T>, c: seq<T>)
    ensures a + b + c == a + (b + c)
  {
  }

  lemma LogUnfolds(es: seq<Entry>, ctx: Context, o: Outcome)
    requires es != []
    ensures var (init, last) := (es[..|es| - 1], es[|es| - 1]);
            Log(es, ctx, o) ==
            if Fires(last, ctx, Run(init, ctx, o).score) then Log(init, ctx, o) + [last] else Log(init, ctx, o)
  {
  }

  /** Evaluation refines its own firing log: the score is the initial score plus the fired adjustments, and
      the reasons are the log's reasons in order. */
  lemma {:induction false} RunFollowsLog(es: seq<Entry>, ctx: Context, o: Outcome)
    ensures Accounts(o, Log(es, ctx, o), Run(es, ctx, o))
  {
    if es == [] {
      assert Accounts(o, [], o);
    } else {
      var (init, last) := (es[..|es| - 1], es[|es| - 1]);
      RunFollowsLog(init, ctx, o);
      LogUnfolds(es, ctx, o);
      if Fires(last, ctx, Run(init, ctx, o).score) {
        FiringAccounts(o, Log(init, ctx, o), Run(init, ctx, o), last, ctx);
      }
    }
  }

  /** The final verdict is the most severe of the starting one and those of the firing log. */
  lemma {:induction false} RunTakesMostSevere(es: seq<Entry>, ctx: Context, o: Outcome)
    ensures MostSevere(Run(es, ctx, o).verdict, o.verdict, Log(es, ctx, o))
  {
    if es != [] {
      var (init, last) := (es[..|es| - 1], es[|es| - 1]);
      RunTakesMostSevere(init, ctx, o);
      var (before, log) := (Run(init, ctx, o), Log(init, ctx, o));
      if Fires(last, ctx, before.score) {
        FiringStep(last, ctx, before);
        EscalationKeepsMostSevere(before.verdict, o.verdict, log, last);
        assert Log(es, ctx, o) == log + [last];
      } else {
        assert Log(es, ctx, o) == log;
      }
    }
  }

  lemma {:induction false} RunConcat(es: seq<Entry>, fs: seq<Entry>, ctx: Context, o: Outcome)
    ensures Run(es + fs, ctx, o) == Run(fs, ctx, Run(es, ctx, o))
  {
    if fs == [] {
      assert es + fs == es;
    } else {
      assert (es + fs)[..|es + fs| - 1] == es + fs[..|fs| - 1];
      RunConcat(es, fs[..|fs| - 1], ctx, o);
    }
  }

  // ----- Monotonicity in spite of the feedback -----

  /** At most as risky: lower or equal score and verdict severity. */
  predicate Below(a: Outcome, b: Outcome) {
    a.score <= b.score && Severity(a.verdict) <= Severity(b.verdict)
  }

  /** Whether an entry fires for some input at all. */
  predicate CanFire(e: Entry) {
    e.Custom? ==> e.rule.enabled && CanMatch(e.rule.condition)
  }

  lemma CanFireExactly(e: Entry)
    ensures CanFire(e) <==> exists ctx, score :: Fires(e, ctx, score)
  {
    match e
    case SwapAction(_, _) =>
      assert Fires(e, Context(Signals("", 0.0, "", Some(SimSwap(true, High)), false, "", "", ""), 0), 0.0);
    case Custom(r) =>
      CanMatchExactly(r.condition);
      if CanFire(e) {
        var ctx, score :| MatchesCondition(r.condition, ctx, score);
        assert Fires(e, ctx, score);
      }
  }

  /** Whenever the entry fires it does not lower the score. */
  predicate Raises(e: Entry) {
    CanFire(e) ==> Adjustment(e) >= 0.0
  }

  /** An entry that does not raise must not read the score. */
  predicate KeepsOrder(e: Entry) {
    Raises(e) || (e.Custom? ==> e.rule.condition.riskScoreAbove.None?)
  }

  predicate AllKeepOrder(es: seq<Entry>) {
    forall e | e in es :: KeepsOrder(e)
  }

  predicate AllRaise(es: seq<Entry>) {
    forall e | e in es :: Raises(e)
  }

  /** Of two outcomes, the riskier one stays so through this entry. */
  predicate OrderKept(e: Entry, ctx: Context, a: Outcome, b: Outcome) {
    Below(a, b) ==> Below(Apply(e, ctx, a), Apply(e, ctx, b))
  }

  lemma KeepsOrderStep(e: Entry, ctx: Context, a: Outcome, b: Outcome)
    requires KeepsOrder(e)
    ensures OrderKept(e, ctx, a, b)
  {
    CanFireExactly(e);
    assert Raises(e) && Below(a, b) && Fires(e, ctx, a.score) ==> Fires(e, ctx, b.score);
    assert !Raises(e) ==> Fires(e, ctx, a.score) == Fires(e, ctx, b.score);
  }

  /** Two outcomes whose order a negative rule that reads the score turns around: the rule fires for the riskier one
      only, and takes it below the other. */
  lemma ThresholdTurnsOrder(r: PolicyRule, ctx: Context)
    requires r.enabled && MatchesOthers(r.condition, ctx) && r.riskAdjustment < 0.0 && r.condition.riskScoreAbove.Some?
    ensures var t := r.condition.riskScoreAbove.value;
            !OrderKept(Custom(r), ctx, Outcome(t, Allow, []), Outcome(t - r.riskAdjustment / 2.0, Allow, []))
  {
    var t := r.condition.riskScoreAbove.value;
    FiringStep(Custom(r), ctx, Outcome(t - r.riskAdjustment / 2.0, Allow, []));
  }

  /** An entry keeps the order of any two outcomes, for all inputs, exactly when it can never fire, or its adjustment
      is not negative, or it does not read the score. */
  lemma KeepsOrderExactly(e: Entry)
    ensures (forall ctx, a, b :: OrderKept(e, ctx, a, b)) <==> KeepsOrder(e)
  {
    CanFireExactly(e);
    if KeepsOrder(e) {
      forall ctx, a, b ensures OrderKept(e, ctx, a, b) {
        KeepsOrderStep(e, ctx, a, b);
      }
    } else {
      var ctx, score :| Fires(e, ctx, score);
      ThresholdTurnsOrder(e.rule, ctx);
    }
  }

  /** `fs` is `es` with entries added that raise, all others keeping order. */
  predicate Grows(es: seq<Entry>, fs: seq<Entry>) {
    if fs == [] then es == []
    else
      || (es != [] && es[|es| - 1] == fs[|fs| - 1] && KeepsOrder(fs[|fs| - 1]) && Grows(es[..|es| - 1], fs[..|fs| - 1]))
      || (Raises(fs[|fs| - 1]) && Grows(es, fs[..|fs| - 1]))
  }

  lemma RaisingStep(e: Entry, ctx: Context, a: Outcome, b: Outcome)
    requires Raises(e) && Below(a, b)
    ensures Below(a, Apply(e, ctx, b))
  {
    CanFireExactly(e);
    assert Fires(e, ctx, b.score) ==> CanFire(e);
  }

  /** Two runs in lock step: starting at least as risky and evaluating at least the same entries in the same
      order ends at least as risky, although every rule reads the running score of its own run. */
  lemma {:induction false} MoreEntriesNeverLower(es: seq<Entry>, fs: seq<Entry>, ctx: Context, a: Outcome, b: Outcome)
    requires Grows(es, fs) && Below(a, b)
    ensures Below(Run(es, ctx, a), Run(fs, ctx, b))
    decreases |fs|
  {
    if fs != [] {
      var (fs', f) := (fs[..|fs| - 1], fs[|fs| - 1]);
      if es != [] && es[|es| - 1] == f && KeepsOrder(f) && Grows(es[..|es| - 1], fs') {
        MoreEntriesNeverLower(es[..|es| - 1], fs', ctx, a, b);
        KeepsOrderStep(f, ctx, Run(es[..|es| - 1], ctx, a), Run(fs', ctx, b));
      } else {
        MoreEntriesNeverLower(es, fs', ctx, a, b);
        RaisingStep(f, ctx, Run(es, ctx, a), Run(fs', ctx, b));
      }
    }
  }

  lemma {:induction false} GrowsRefl(es: seq<Entry>)
    requires AllKeepOrder(es)
    ensures Grows(es, es)
  {
    if es != [] {
      GrowsRefl(es[..|es| - 1]);
    }
  }

  lemma {:induction false} GrowsSkip(es: seq<Entry>, fs: seq<Entry>, gs: seq<Entry>)
    requires Grows(es, fs) && AllRaise(gs)
    ensures Grows(es, fs + gs)
  {
    if gs == [] {
      assert fs + gs == fs;
    } else {
      assert (fs + gs)[..|fs + gs| - 1] == fs + gs[..|gs| - 1];
      GrowsSkip(es, fs, gs[..|gs| - 1]);
    }
  }

  lemma {:induction false} GrowsExtend(es: seq<Entry>, fs: seq<Entry>, gs: seq<Entry>)
    requires Grows(es, fs) && AllKeepOrder(gs)
    ensures Grows(es + gs, fs + gs)
  {
    if gs == [] {
      assert fs + gs == fs && es + gs == es;
    } else {
      assert (fs + gs)[..|fs + gs| - 1] == fs + gs[..|gs| - 1];
      assert (es + gs)[..|es + gs| - 1] == es + gs[..|gs| - 1];
      GrowsExtend(es, fs, gs[..|gs| - 1]);
    }
  }

  /** Putting `e` between `pre` and `post` leaves the evaluation at least as risky. */
  ghost predicate InsertionRaises(e: Entry, pre: seq<Entry>, post: seq<Entry>, ctx: Context, o: Outcome) {
    AllKeepOrder(post) ==> Below(Run(pre + post, ctx, o), Run(pre + [e] + post, ctx, o))
  }

  lemma RaisingInsertion(e: Entry, pre: seq<Entry>, post: seq<Entry>, ctx: Context, o: Outcome)
    requires Raises(e) && AllKeepOrder(post)
    ensures Below(Run(pre + post, ctx, o), Run(pre + [e] + post, ctx, o))
  {
    var mid := Run(pre, ctx, o);
    RunConcat(pre, post, ctx, o);
    RunConcat(pre, [e], ctx, o);
    RunConcat(pre + [e], post, ctx, o);
    assert [e][..0] == [] && Run([], ctx, mid) == mid;
    RaisingStep(e, ctx, mid, mid);
    GrowsRefl(post);
    MoreEntriesNeverLower(post, post, ctx, mid, Apply(e, ctx, mid));
  }

  /** An entry may be inserted after any entries and before any that keep order without lowering score or verdict,
      exactly when it can never fire or its adjustment is not negative. */
  lemma InsertionIsSafeExactlyWhenNotNegative(e: Entry)
    ensures (forall pre, post, ctx, o :: InsertionRaises(e, pre, post, ctx, o)) <==> Raises(e)
  {
    CanFireExactly(e);
    if Raises(e) {
      forall pre, post, ctx, o ensures InsertionRaises(e, pre, post, ctx, o) {
        if AllKeepOrder(post) {
          RaisingInsertion(e, pre, post, ctx, o);
        }
      }
    } else {
      var ctx, score :| Fires(e, ctx, score);
      var o := Outcome(score, Allow, []);
      var none: seq<Entry> := [];
      assert none + [e] + none == [e] && none + none == none && [e][..0] == none;
      assert Run([e], ctx, o) == Apply(e, ctx, Run([], ctx, o));
      assert !InsertionRaises(e, none, none, ctx, o);
    }
  }

  // ----- Order independence without feedback -----

  /** What a set of entries does to an outcome when no condition reads the score. */
  datatype Tally = Tally(adjustment: real, severity: nat, reasons: multiset<string>)

  const Nothing := Tally(0.0, 0, multiset{})

  function Both(a: Tally, b: Tally): Tally {
    Tally(a.adjustment + b.adjustment,
          if a.severity >= b.severity then a.severity else b.severity,
          a.reasons + b.reasons)
  }

  /** A rule that is enabled does not read the running score. */
  predicate NoFeedback(e: Entry) {
    e.Custom? && e.rule.enabled ==> e.rule.condition.riskScoreAbove.None?
  }

  function EntryTally(e: Entry, ctx: Context): Tally {
    if Fires(e, ctx, 0.0) then Tally(Adjustment(e), Severity(VerdictOf(e)), multiset(ReasonsOf(e))) else Nothing
  }

  function EntryTallies(ctx: Context): Entry -> Tally {
    e => EntryTally(e, ctx)
  }

  function Total<T>(tally: T -> Tally, xs: seq<T>): Tally {
    if xs == [] then Nothing else Both(Total(tally, xs[..|xs| - 1]), tally(xs[|xs| - 1]))
  }

  lemma BothAssociates(a: Tally, b: Tally, c: Tally)
    ensures Both(Both(a, b), c) == Both(a, Both(b, c))
  {
    assert a.reasons + b.reasons + c.reasons == a.reasons + (b.reasons + c.reasons);
  }

  lemma TotalSnoc<T>(tally: T -> Tally, xs: seq<T>, x: T)
    ensures Total(tally, xs + [x]) == Both(Total(tally, xs), tally(x))
  {
    assert (xs + [x])[..|xs|] == xs;
  }

  lemma {:induction false} TotalConcat<T>(tally: T -> Tally, xs: seq<T>, ys: seq<T>)
    ensures Total(tally, xs + ys) == Both(Total(tally, xs), Total(tally, ys))
  {
    if ys == [] {
      assert xs + ys == xs;
    } else {
      var (init, last) := (ys[..|ys| - 1], ys[|ys| - 1]);
      TotalConcat(tally, xs, init);
      assert xs + ys == (xs + init) + [last] && ys == init + [last];
      TotalSnoc(tally, xs + init, last);
      TotalSnoc(tally, init, last);
      BothAssociates(Total(tally, xs), Total(tally, init), tally(last));
    }
  }

  lemma TotalOne<T>(tally: T -> Tally, x: T)
    ensures Total(tally, [x]) == tally(x)
  {
    assert [x][..0] == [] && Total(tally, []) == Nothing;
  }

  lemma BothSwaps(a: Tally, b: Tally, c: Tally)
    ensures Both(Both(a, b), c) == Both(b, Both(a, c))
  {
    assert a.reasons + b.reasons + c.reasons == b.reasons + (a.reasons + c.reasons);
  }

  lemma TotalAround<T>(tally: T -> Tally, pre: seq<T>, x: T, post: seq<T>, all: seq<T>, less: seq<T>)
    requires all == pre + [x] + post && less == pre + post
    ensures Total(tally, all) == Both(tally(x), Total(tally, less))
  {
    TotalConcat(tally, pre + [x], post);
    TotalConcat(tally, pre, [x]);
    TotalConcat(tally, pre, post);
    TotalOne(tally, x);
    BothSwaps(Total(tally, pre), tally(x), Total(tally, post));
  }

  lemma TotalWithout<T>(tally: T -> Tally, xs: seq<T>, i: nat, less: seq<T>)
    requires i < |xs| && less == Without(xs, i)
    ensures Total(tally, xs) == Both(tally(xs[i]), Total(tally, less))
  {
    SplitAt(xs, i);
    TotalAround(tally, xs[..i], xs[i], xs[i + 1..], xs, less);
  }

  lemma {:induction false} TotalPermutes<T>(tally: T -> Tally, xs: seq<T>, ys: seq<T>)
    requires multiset(xs) == multiset(ys)
    ensures Total(tally, xs) == Total(tally, ys)
  {
    assert |multiset(xs)| == |xs| && |multiset(ys)| == |ys|;
    if xs != [] {
      var i := FindHead(xs, ys);
      var (tail, rest) := (xs[1..], Without(ys, i));
      TotalPermutes(tally, tail, rest);
      TotalWithout(tally, xs, 0, tail);
      TotalWithout(tally, ys, i, rest);
    }
  }

  /** `r` is `o` with the tally `t` added. */
  ghost predicate Adds(o: Outcome, t: Tally, r: Outcome) {
    && r.score == o.score + t.adjustment
    && Severity(r.verdict) == (if Severity(o.verdict) >= t.severity then Severity(o.verdict) else t.severity)
    && multiset(r.reasons) == multiset(o.reasons) + t.reasons
  }

  lemma ApplyAddsTally(e: Entry, ctx: Context, o: Outcome)
    requires NoFeedback(e)
    ensures Adds(o, EntryTally(e, ctx), Apply(e, ctx, o))
  {
    assert Fires(e, ctx, o.score) == Fires(e, ctx, 0.0);
    if Fires(e, ctx, 0.0) {
      FiringStep(e, ctx, o);
    }
  }

  /** Without feedback, a run adds the tally of its entries to the outcome it starts from. */
  lemma {:induction false} RunAddsTally(es: seq<Entry>, ctx: Context, o: Outcome)
    requires forall i | 0 <= i < |es| :: NoFeedback(es[i])
    ensures Adds(o, Total(EntryTallies(ctx), es), Run(es, ctx, o))
  {
    if es != [] {
      RunAddsTally(es[..|es| - 1], ctx, o);
      ApplyAddsTally(es[|es| - 1], ctx, Run(es[..|es| - 1], ctx, o));
    }
  }
}
