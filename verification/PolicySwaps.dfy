/** When the order of two entries matters: the exact condition, for one input and for all. */
module PolicySwaps {
  import opened PolicyModel
  import opened PolicyFold
  import opened PolicyPlans
  import opened SliceSort

  /** Wherever `x` can fire, its adjustment does not carry the score over the threshold of `y`. */
  predicate Harmless(x: PolicyRule, y: PolicyRule) {
    var (tx, ty) := (x.condition.riskScoreAbove, y.condition.riskScoreAbove);
    || ty.None? || x.riskAdjustment == 0.0
    || (tx.Some? && if x.riskAdjustment > 0.0 then tx.value >= ty.value else tx.value >= ty.value - x.riskAdjustment)
  }

  /** What `y` asks of the score stays true, or stays false, when `x` fires. */
  predicate Undisturbed(x: PolicyRule, y: PolicyRule, score: real) {
    Above(x.condition, score) ==> (Above(y.condition, score + x.riskAdjustment) <==> Above(y.condition, score))
  }

  /** The score at which `x` disturbs `y`, if there is one. */
  function CrossingScore(x: PolicyRule, y: PolicyRule): real {
    if y.condition.riskScoreAbove.None? then 0.0
    else if x.riskAdjustment > 0.0 then y.condition.riskScoreAbove.value
    else y.condition.riskScoreAbove.value - x.riskAdjustment
  }

  lemma HarmlessExactly(x: PolicyRule, y: PolicyRule)
    ensures Harmless(x, y) <==> forall score :: Undisturbed(x, y, score)
    ensures Harmless(x, y) <==> Undisturbed(x, y, CrossingScore(x, y))
  {
    if Harmless(x, y) {
      forall score ensures Undisturbed(x, y, score) {}
    } else {
      assert !Undisturbed(x, y, CrossingScore(x, y));
    }
  }

  /** For these signals and this hour the order of the two entries does not matter: at most one of them can fire, or
      neither disturbs the other. */
  predicate CommuteAt(e: Entry, f: Entry, ctx: Context) {
    e == f || e.SwapAction? || f.SwapAction?
    || !(e.rule.enabled && MatchesOthers(e.rule.condition, ctx))
    || !(f.rule.enabled && MatchesOthers(f.rule.condition, ctx))
    || (Harmless(e.rule, f.rule) && Harmless(f.rule, e.rule))
  }

  /** The same for all signals and hours. */
  predicate Commute(e: Entry, f: Entry) {
    e == f || e.SwapAction? || f.SwapAction? || !e.rule.enabled || !f.rule.enabled
    || !Compatible(e.rule.condition, f.rule.condition)
    || (Harmless(e.rule, f.rule) && Harmless(f.rule, e.rule))
  }

  lemma CommuteExactly(e: Entry, f: Entry)
    ensures Commute(e, f) <==> forall ctx :: CommuteAt(e, f, ctx)
  {
    if e.Custom? && f.Custom? {
      var (c, d) := (e.rule.condition, f.rule.condition);
      CompatibleExactly(c, d);
      if !Commute(e, f) {
        var ctx :| MatchesOthers(c, ctx) && MatchesOthers(d, ctx);
        assert !CommuteAt(e, f, ctx);
      }
    }
  }

  // ----- Runs that differ at most in the order of what fired -----

  predicate Similar(a: Outcome, b: Outcome) {
    a.score == b.score && Severity(a.verdict) == Severity(b.verdict) && multiset(a.reasons) == multiset(b.reasons)
  }

  /** From these outcomes the two runs have the same score, severity and bag of reasons, and the same entries fire. */
  ghost predicate AlikeFrom(es: seq<Entry>, fs: seq<Entry>, ctx: Context, a: Outcome, b: Outcome) {
    Similar(Run(es, ctx, a), Run(fs, ctx, b)) && multiset(Log(es, ctx, a)) == multiset(Log(fs, ctx, b))
  }

  ghost predicate Alike(es: seq<Entry>, fs: seq<Entry>, ctx: Context) {
    forall a, b {:trigger AlikeFrom(es, fs, ctx, a, b)} :: Similar(a, b) ==> AlikeFrom(es, fs, ctx, a, b)
  }

  lemma LogSnoc(es: seq<Entry>, e: Entry, ctx: Context, o: Outcome)
    ensures Log(es + [e], ctx, o) ==
            if Fires(e, ctx, Run(es, ctx, o).score) then Log(es, ctx, o) + [e] else Log(es, ctx, o)
  {
    assert (es + [e])[..|es|] == es;
    LogUnfolds(es + [e], ctx, o);
  }

  lemma LogConcatStep(es: seq<Entry>, fs: seq<Entry>, e: Entry, ctx: Context, o: Outcome)
    requires Log(es + fs, ctx, o) == Log(es, ctx, o) + Log(fs, ctx, Run(es, ctx, o))
    ensures Log(es + fs + [e], ctx, o) == Log(es, ctx, o) + Log(fs + [e], ctx, Run(es, ctx, o))
  {
    var mid := Run(es, ctx, o);
    RunConcat(es, fs, ctx, o);
    LogSnoc(es + fs, e, ctx, o);
    LogSnoc(fs, e, ctx, mid);
    ConcatIsAssociative(Log(es, ctx, o), Log(fs, ctx, mid), [e]);
  }

  lemma {:induction false} LogConcat(es: seq<Entry>, fs: seq<Entry>, ctx: Context, o: Outcome)
    ensures Log(es + fs, ctx, o) == Log(es, ctx, o) + Log(fs, ctx, Run(es, ctx, o))
  {
    if fs == [] {
      assert es + fs == es;
    } else {
      var (init, last) := (fs[..|fs| - 1], fs[|fs| - 1]);
      LogConcat(es, init, ctx, o);
      LogConcatStep(es, init, last, ctx, o);
      LastOfConcat(es, fs);
    }
  }

  lemma AlikeConcat(es: seq<Entry>, es': seq<Entry>, fs: seq<Entry>, fs': seq<Entry>, ctx: Context)
    requires Alike(es, es', ctx) && Alike(fs, fs', ctx)
    ensures Alike(es + fs, es' + fs', ctx)
  {
    forall a, b | Similar(a, b) ensures AlikeFrom(es + fs, es' + fs', ctx, a, b) {
      var (a', b') := (Run(es, ctx, a), Run(es', ctx, b));
      assert AlikeFrom(es, es', ctx, a, b);
      assert AlikeFrom(fs, fs', ctx, a', b');
      RunConcat(es, fs, ctx, a);
      RunConcat(es', fs', ctx, b);
      LogConcat(es, fs, ctx, a);
      LogConcat(es', fs', ctx, b);
    }
  }

  lemma AlikeTrans(es: seq<Entry>, fs: seq<Entry>, gs: seq<Entry>, ctx: Context)
    requires Alike(es, fs, ctx) && Alike(fs, gs, ctx)
    ensures Alike(es, gs, ctx)
  {
    forall a, b | Similar(a, b) ensures AlikeFrom(es, gs, ctx, a, b) {
      assert AlikeFrom(es, fs, ctx, a, a) && AlikeFrom(fs, gs, ctx, a, b);
    }
  }

  lemma AlikeSym(es: seq<Entry>, fs: seq<Entry>, ctx: Context)
    requires Alike(es, fs, ctx)
    ensures Alike(fs, es, ctx)
  {
    forall a, b | Similar(a, b) ensures AlikeFrom(fs, es, ctx, a, b) {
      assert AlikeFrom(es, fs, ctx, b, a);
    }
  }

  /** What a firing entry leaves behind. */
  function Fired(e: Entry, o: Outcome): Outcome {
    Outcome(o.score + Adjustment(e), if Severity(VerdictOf(e)) > Severity(o.verdict) then VerdictOf(e) else o.verdict,
            o.reasons + ReasonsOf(e))
  }

  lemma SingleRun(e: Entry, ctx: Context, o: Outcome)
    ensures Run([e], ctx, o) == if Fires(e, ctx, o.score) then Fired(e, o) else o
    ensures Log([e], ctx, o) == if Fires(e, ctx, o.score) then [e] else []
  {
    assert [e][..0] == [] && Run([], ctx, o) == o && Log([], ctx, o) == [];
    if Fires(e, ctx, o.score) {
      FiringStep(e, ctx, o);
    }
  }

  lemma AlikeSelf(e: Entry, ctx: Context)
    ensures Alike([e], [e], ctx)
  {
    forall a, b | Similar(a, b) ensures AlikeFrom([e], [e], ctx, a, b) {
      SingleRun(e, ctx, a);
      SingleRun(e, ctx, b);
    }
  }

  lemma {:induction false} AlikeRefl(es: seq<Entry>, ctx: Context)
    ensures Alike(es, es, ctx)
  {
    if es != [] {
      var (init, last) := (es[..|es| - 1], es[|es| - 1]);
      AlikeRefl(init, ctx);
      AlikeSelf(last, ctx);
      AlikeConcat(init, init, [last], [last], ctx);
      assert es == init + [last];
    }
  }

  /** Whether `f` fires does not depend on whether `e` came first. */
  lemma FiringIsUndisturbed(e: Entry, f: Entry, ctx: Context, score: real)
    requires CommuteAt(e, f, ctx) && e != f
    ensures Fires(e, ctx, score) ==> (Fires(f, ctx, score + Adjustment(e)) <==> Fires(f, ctx, score))
  {
    if e.Custom? && f.Custom? {
      HarmlessExactly(e.rule, f.rule);
    }
  }

  /** What an entry does, given whether it fires. */
  function FiredIf(fires: bool, e: Entry, o: Outcome): Outcome {
    if fires then Fired(e, o) else o
  }

  function LoggedIf(fires: bool, e: Entry): seq<Entry> {
    if fires then [e] else []
  }

  lemma PairRun(e: Entry, f: Entry, ctx: Context, o: Outcome)
    ensures var first := FiredIf(Fires(e, ctx, o.score), e, o);
            && Run([e, f], ctx, o) == FiredIf(Fires(f, ctx, first.score), f, first)
            && Log([e, f], ctx, o) == LoggedIf(Fires(e, ctx, o.score), e) + LoggedIf(Fires(f, ctx, first.score), f)
  {
    assert [e, f] == [e] + [f];
    RunConcat([e], [f], ctx, o);
    LogConcat([e], [f], ctx, o);
    SingleRun(e, ctx, o);
    SingleRun(f, ctx, Run([e], ctx, o));
  }

  lemma FiredSimilar(e: Entry, a: Outcome, b: Outcome)
    requires Similar(a, b)
    ensures Similar(Fired(e, a), Fired(e, b))
  {
  }

  lemma BagOfTwo<T>(x: seq<T>, y: seq<T>)
    ensures multiset(x + y) == multiset(y + x)
  {
    assert multiset(x + y) == multiset(x) + multiset(y);
  }

  lemma BagOfThree<T>(r: seq<T>, x: seq<T>, y: seq<T>)
    ensures multiset(r + x + y) == multiset(r + y + x)
  {
    assert multiset(r + x + y) == multiset(r) + multiset(x) + multiset(y);
    assert multiset(r + y + x) == multiset(r) + multiset(y) + multiset(x);
  }

  lemma FiredSwap(e: Entry, f: Entry, o: Outcome)
    ensures Similar(Fired(f, Fired(e, o)), Fired(e, Fired(f, o)))
  {
    BagOfThree(o.reasons, ReasonsOf(e), ReasonsOf(f));
  }

  lemma OrderOfFiring(p: bool, e: Entry, q: bool, f: Entry, a: Outcome, b: Outcome)
    requires Similar(a, b)
    ensures Similar(FiredIf(q, f, FiredIf(p, e, a)), FiredIf(p, e, FiredIf(q, f, b)))
  {
    FiredSimilar(e, a, b);
    FiredSimilar(f, a, b);
    if p && q {
      FiredSwap(e, f, a);
      FiredSimilar(e, Fired(f, a), Fired(f, b));
    }
  }

  lemma CommutingPairAlike(e: Entry, f: Entry, ctx: Context)
    requires CommuteAt(e, f, ctx)
    ensures Alike([e, f], [f, e], ctx)
  {
    if e == f {
      AlikeRefl([e, f], ctx);
    } else {
      forall a, b | Similar(a, b) ensures AlikeFrom([e, f], [f, e], ctx, a, b) {
        PairRun(e, f, ctx, a);
        PairRun(f, e, ctx, b);
        FiringIsUndisturbed(e, f, ctx, a.score);
        FiringIsUndisturbed(f, e, ctx, b.score);
        var (p, q) := (Fires(e, ctx, a.score), Fires(f, ctx, a.score));
        OrderOfFiring(p, e, q, f, a, b);
        BagOfTwo(LoggedIf(p, e), LoggedIf(q, f));
      }
    }
  }

  // ----- The exact condition for two entries -----

  /** Swapping `e` and `f` between `pre` and `post` changes at most the order of what fires. */
  ghost predicate SwapKeeps(e: Entry, f: Entry, pre: seq<Entry>, post: seq<Entry>, ctx: Context, o: Outcome) {
    AlikeFrom(pre + [e, f] + post, pre + [f, e] + post, ctx, o, o)
  }

  lemma CommutingSwapKeeps(e: Entry, f: Entry, pre: seq<Entry>, post: seq<Entry>, ctx: Context, o: Outcome)
    requires CommuteAt(e, f, ctx)
    ensures SwapKeeps(e, f, pre, post, ctx, o)
  {
    CommutingPairAlike(e, f, ctx);
    AlikeRefl(pre, ctx);
    AlikeRefl(post, ctx);
    AlikeConcat(pre, pre, [e, f], [f, e], ctx);
    AlikeConcat(pre + [e, f], pre + [f, e], post, post, ctx);
  }

  /** At the crossing score `f` fires in one of the two orders only. */
  lemma CrossingBreaksLogs(e: Entry, f: Entry, ctx: Context, o: Outcome)
    requires e.Custom? && f.Custom? && e != f && e.rule.enabled && f.rule.enabled
    requires MatchesOthers(e.rule.condition, ctx) && MatchesOthers(f.rule.condition, ctx)
    requires !Undisturbed(e.rule, f.rule, o.score)
    ensures multiset(Log([e, f], ctx, o)) != multiset(Log([f, e], ctx, o))
  {
    PairRun(e, f, ctx, o);
    PairRun(f, e, ctx, o);
    var first := Fired(e, o);
    assert Fires(e, ctx, o.score) && Log([e, f], ctx, o) == [e] + LoggedIf(Fires(f, ctx, first.score), f);
    assert f in multiset(Log([e, f], ctx, o)) <==> Fires(f, ctx, first.score);
    assert f in multiset(Log([f, e], ctx, o)) <==> Fires(f, ctx, o.score);
  }

  /** A score from which the order of two entries that do not commute shows in what fires. */
  function TellingScore(e: Entry, f: Entry): real {
    if e.SwapAction? || f.SwapAction? then 0.0
    else if Harmless(e.rule, f.rule) then CrossingScore(f.rule, e.rule)
    else CrossingScore(e.rule, f.rule)
  }

  lemma OrderShows(e: Entry, f: Entry, ctx: Context, o: Outcome)
    requires !CommuteAt(e, f, ctx) && o.score == TellingScore(e, f)
    ensures multiset(Log([e, f], ctx, o)) != multiset(Log([f, e], ctx, o))
  {
    HarmlessExactly(e.rule, f.rule);
    HarmlessExactly(f.rule, e.rule);
    if Harmless(e.rule, f.rule) {
      CrossingBreaksLogs(f, e, ctx, o);
    } else {
      CrossingBreaksLogs(e, f, ctx, o);
    }
  }

  lemma SwapIsSafeExactlyWhenCommutingAt(e: Entry, f: Entry, ctx: Context)
    ensures (forall pre, post, o :: SwapKeeps(e, f, pre, post, ctx, o)) <==> CommuteAt(e, f, ctx)
  {
    if CommuteAt(e, f, ctx) {
      forall pre, post, o ensures SwapKeeps(e, f, pre, post, ctx, o) {
        CommutingSwapKeeps(e, f, pre, post, ctx, o);
      }
    } else {
      var o := Outcome(TellingScore(e, f), Allow, []);
      var none: seq<Entry> := [];
      assert none + [e, f] + none == [e, f] && none + [f, e] + none == [f, e];
      OrderShows(e, f, ctx, o);
      assert !SwapKeeps(e, f, none, none, ctx, o);
    }
  }

  /** Two entries can be swapped anywhere, for all inputs and starting scores, without changing score, severity and
      what fires, exactly when they commute. */
  lemma SwapIsSafeExactlyWhenCommuting(e: Entry, f: Entry)
    ensures (forall pre, post, ctx, o :: SwapKeeps(e, f, pre, post, ctx, o)) <==> Commute(e, f)
  {
    CommuteExactly(e, f);
    if Commute(e, f) {
      forall pre, post, ctx, o ensures SwapKeeps(e, f, pre, post, ctx, o) {
        CommutingSwapKeeps(e, f, pre, post, ctx, o);
      }
    } else {
      var ctx :| !CommuteAt(e, f, ctx);
      SwapIsSafeExactlyWhenCommutingAt(e, f, ctx);
      var pre, post, o :| !SwapKeeps(e, f, pre, post, ctx, o);
    }
  }

  // ----- Blocks that commute -----

  /** Every entry of one block commutes with every entry of the other. */
  ghost predicate BlocksCommute(es: seq<Entry>, fs: seq<Entry>, ctx: Context) {
    forall e, f | e in es && f in fs :: CommuteAt(e, f, ctx)
  }

  lemma {:induction false} BlockPastEntry(es: seq<Entry>, f: Entry, ctx: Context)
    requires BlocksCommute(es, [f], ctx)
    ensures Alike(es + [f], [f] + es, ctx)
  {
    if es == [] {
      assert es + [f] == [f] + es;
      AlikeRefl([f], ctx);
    } else {
      var (init, last) := (es[..|es| - 1], es[|es| - 1]);
      assert last in es && f in [f];
      BlockPastEntry(init, f, ctx);
      CommutingPairAlike(last, f, ctx);
      AlikeRefl(init, ctx);
      AlikeSelf(last, ctx);
      AlikeConcat(init, init, [last, f], [f, last], ctx);
      AlikeConcat(init + [f], [f] + init, [last], [last], ctx);
      assert es + [f] == init + [last, f] && init + [f, last] == init + [f] + [last];
      assert [f] + es == [f] + init + [last];
      AlikeTrans(es + [f], init + [f, last], [f] + es, ctx);
    }
  }

  lemma {:induction false} BlockPastBlock(es: seq<Entry>, fs: seq<Entry>, ctx: Context)
    requires BlocksCommute(es, fs, ctx)
    ensures Alike(es + fs, fs + es, ctx)
  {
    if fs == [] {
      assert es + fs == es && fs + es == es;
      AlikeRefl(es, ctx);
    } else {
      var (init, last) := (fs[..|fs| - 1], fs[|fs| - 1]);
      assert fs == init + [last];
      BlockPastBlock(es, init, ctx);
      BlockPastEntry(es, last, ctx);
      AlikeSelf(last, ctx);
      AlikeRefl(init, ctx);
      AlikeConcat(es + init, init + es, [last], [last], ctx);
      AlikeConcat(init, init, es + [last], [last] + es, ctx);
      assert es + fs == es + init + [last] && init + es + [last] == init + (es + [last]);
      assert fs + es == init + ([last] + es);
      AlikeTrans(es + fs, init + (es + [last]), fs + es, ctx);
    }
  }

  /** A block may move to the front of what it commutes with. */
  lemma BlockToFront(pre: seq<Entry>, mid: seq<Entry>, post: seq<Entry>, ctx: Context)
    requires BlocksCommute(pre, mid, ctx)
    ensures Alike(pre + mid + post, mid + (pre + post), ctx)
  {
    BlockPastBlock(pre, mid, ctx);
    AlikeRefl(post, ctx);
    AlikeConcat(pre + mid, mid + pre, post, post, ctx);
    assert mid + (pre + post) == mid + pre + post;
  }
}
