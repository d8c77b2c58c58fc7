/** Which adapter is selected, in counters: successes, calls and summed latency, without scores. */
module Selection {
  import opened Routing

  /** A hundred times the score of an adapter with calls, times its calls: 70 for each success, and 30 for each call
      less three hundredths of the latency, as far as that is positive. */
  function Merit(s: Stats): int {
    7000 * s.success + if s.latency < 1000 * s.total then 3000 * s.total - 3 * s.latency else 0
  }

  /** The first is preferred: by merit per call, an adapter without calls counting 50. */
  predicate Preferred(s: Stats, t: Stats) {
    if s.total == 0 then t.total > 0 && 5000 * t.total > Merit(t)
    else if t.total == 0 then Merit(s) > 5000 * s.total
    else Merit(s) * t.total > Merit(t) * s.total
  }

  lemma PositiveProduct(a: real, b: real)
    requires a > 0.0 && b > 0.0
    ensures a * b > 0.0
  {
  }

  lemma NonNegativeProduct(a: real, b: real)
    requires a >= 0.0 && b >= 0.0
    ensures a * b >= 0.0
  {
  }

  lemma Distribute(a: real, b: real, n: real)
    ensures (a - b) * n == a * n - b * n
  {
  }

  lemma CompareScaled(a: real, b: real, n: real)
    requires n > 0.0
    ensures a > b <==> a * n > b * n
  {
    Distribute(a, b, n);
    Distribute(b, a, n);
    if a > b {
      PositiveProduct(a - b, n);
    } else {
      NonNegativeProduct(b - a, n);
    }
  }

  lemma ScaledUp(a: int, n: nat)
    requires n > 0
    ensures (a as real / n as real) * n as real == a as real
  {
  }

  /** The score, times the calls. */
  lemma ScoreIsMerit(s: Stats)
    requires s.total > 0
    ensures 100.0 * (Score(s) * s.total as real) == Merit(s) as real
  {
    var n := s.total as real;
    var (rate, average) := (s.success as real / n, s.latency as real / n);
    ScaledUp(s.success, s.total);
    ScaledUp(s.latency, s.total);
    AverageBelow(s.latency, s.total);
    if s.latency < 1000 * s.total {
      LatencyShare(rate, average, n, s.success as real, s.latency as real);
    } else {
      assert Score(s) == rate * 70.0;
      assert Score(s) * n == 70.0 * (rate * n);
    }
  }

  lemma AverageBelow(latency: int, n: nat)
    requires n > 0
    ensures 100.0 - (latency as real / n as real) / 10.0 > 0.0 <==> latency < 1000 * n
  {
    ScaledUp(latency, n);
    BelowThousand(latency as real / n as real, n as real, latency as real);
  }

  lemma BelowThousand(average: real, n: real, latency: real)
    requires n > 0.0 && average * n == latency
    ensures 100.0 - average / 10.0 > 0.0 <==> latency < 1000.0 * n
  {
    CompareScaled(1000.0, average, n);
  }

  lemma LatencyShare(rate: real, average: real, n: real, success: real, latency: real)
    requires rate * n == success && average * n == latency
    ensures 100.0 * ((rate * 70.0 + (100.0 - average / 10.0) * 0.3) * n) == 7000.0 * success + 3000.0 * n - 3.0 * latency
  {
    assert (rate * 70.0 + (100.0 - average / 10.0) * 0.3) * n == 70.0 * (rate * n) + 30.0 * n - 0.03 * (average * n);
  }

  lemma Regroup(a: real, m: real, n: real)
    ensures (a * m) * n == a * (m * n) == (a * n) * m
  {
  }

  lemma ProductOfInts(x: int, y: int)
    ensures x as real * y as real == (x * y) as real
  {
  }

  /** Two averages, compared through their totals. */
  lemma CompareTotals(a: real, b: real, m: real, n: real, p: real, q: real)
    requires m > 0.0 && n > 0.0 && p == 100.0 * (a * m) && q == 100.0 * (b * n)
    ensures a > b <==> p * n > q * m
  {
    PositiveProduct(m, n);
    CompareScaled(a, b, m * n);
    Regroup(a, m, n);
    Regroup(b, n, m);
    Regroup(100.0, a * m, n);
    Regroup(100.0, b * n, m);
    assert p * n == 100.0 * (a * (m * n)) && q * m == 100.0 * (b * (m * n));
  }

  lemma CompareMerits(a: real, b: real, m: nat, n: nat, p: int, q: int)
    requires m > 0 && n > 0 && 100.0 * (a * m as real) == p as real && 100.0 * (b * n as real) == q as real
    ensures a > b <==> p * n > q * m
  {
    CompareTotals(a, b, m as real, n as real, p as real, q as real);
    ProductOfInts(p, n);
    ProductOfInts(q, m);
  }

  lemma CompareWithFifty(a: real, m: nat, p: int)
    requires m > 0 && 100.0 * (a * m as real) == p as real
    ensures a > 50.0 <==> p > 5000 * m
    ensures 50.0 > a <==> 5000 * m > p
  {
    CompareScaled(a, 50.0, m as real);
    CompareScaled(50.0, a, m as real);
  }

  lemma CalledOverCalled(s: Stats, t: Stats)
    requires s.total > 0 && t.total > 0
    ensures Score(s) > Score(t) <==> Preferred(s, t)
  {
    ScoreIsMerit(s);
    ScoreIsMerit(t);
    var (a, b, p, q) := (Score(s), Score(t), Merit(s), Merit(t));
    CompareMerits(a, b, s.total, t.total, p, q);
  }

  lemma CalledOverNew(s: Stats, t: Stats)
    requires s.total > 0 && t.total == 0
    ensures Score(s) > Score(t) <==> Preferred(s, t)
    ensures Score(t) > Score(s) <==> Preferred(t, s)
  {
    ScoreIsMerit(s);
    CompareWithFifty(Score(s), s.total, Merit(s));
  }

  /** A higher score is a preference in counters. */
  lemma PreferredExactly(s: Stats, t: Stats)
    ensures Score(s) > Score(t) <==> Preferred(s, t)
  {
    if s.total > 0 && t.total > 0 {
      CalledOverCalled(s, t);
    } else if s.total > 0 {
      CalledOverNew(s, t);
    } else if t.total > 0 {
      CalledOverNew(t, s);
    }
  }

  /** While some adapter is not blocked, the selected one is the first of those that are not blocked such that no
      other of them is preferred. */
  lemma PicksInCounters(adapters: seq<Adapter>, stats: StatsMap, now: int, i: nat)
    requires Indexed(adapters, stats) && !AllBlocked(adapters, stats, now) && i < |adapters|
    ensures Picks(adapters, stats, now, i) <==>
            && !Blocked(stats[adapters[i].name], now)
            && (forall j | 0 <= j < |adapters| && !Blocked(stats[adapters[j].name], now) ::
                  !Preferred(stats[adapters[j].name], stats[adapters[i].name]))
            && (forall j | 0 <= j < i && !Blocked(stats[adapters[j].name], now) ::
                  Preferred(stats[adapters[i].name], stats[adapters[j].name]))
  {
    var mine := stats[adapters[i].name];
    forall j | 0 <= j < |adapters|
      ensures Score(stats[adapters[j].name]) <= Score(mine) <==> !Preferred(stats[adapters[j].name], mine)
      ensures Score(stats[adapters[j].name]) < Score(mine) <==> Preferred(mine, stats[adapters[j].name])
    {
      PreferredExactly(stats[adapters[j].name], mine);
      PreferredExactly(mine, stats[adapters[j].name]);
    }
  }

  /** An adapter with calls against one registered just before it: it is selected exactly when its successes, and its
      latency as far as that is below a second on average, make up for more than half of its calls' weight. */
  lemma CalledAgainstNew(a: Adapter, b: Adapter, stats: StatsMap, now: int)
    requires a.name in stats && b.name in stats && stats[a.name].total == 0 && stats[b.name].total > 0
    requires !Blocked(stats[a.name], now) && !Blocked(stats[b.name], now)
    ensures var s := stats[b.name];
            Picks([a, b], stats, now, 1) <==>
            if s.latency >= 1000 * s.total then 7 * s.success > 5 * s.total
            else 7000 * s.success > 2000 * s.total + 3 * s.latency
  {
    assert [a, b][0] == a && [a, b][1] == b && Indexed([a, b], stats) && !Blocked(stats[[a, b][0].name], now);
    PicksInCounters([a, b], stats, now, 1);
    assert !Preferred(stats[a.name], stats[b.name]) || !Preferred(stats[b.name], stats[a.name]);
    assert Picks([a, b], stats, now, 1) <==> Preferred(stats[b.name], stats[a.name]);
  }

  /** And registered before the new one, it stays selected exactly when it is not worse. */
  lemma CalledBeforeNew(a: Adapter, b: Adapter, stats: StatsMap, now: int)
    requires a.name in stats && b.name in stats && stats[a.name].total > 0 && stats[b.name].total == 0
    requires !Blocked(stats[a.name], now) && !Blocked(stats[b.name], now)
    ensures var s := stats[a.name];
            Picks([a, b], stats, now, 0) <==>
            if s.latency >= 1000 * s.total then 7 * s.success >= 5 * s.total
            else 7000 * s.success >= 2000 * s.total + 3 * s.latency
  {
    assert [a, b][0] == a && [a, b][1] == b && Indexed([a, b], stats) && !Blocked(stats[[a, b][0].name], now);
    PicksInCounters([a, b], stats, now, 0);
    assert Picks([a, b], stats, now, 0) <==> !Preferred(stats[b.name], stats[a.name]);
  }

  /** Of two adapters with calls the later one is selected exactly when its merit per call is higher. */
  lemma CalledAgainstCalled(a: Adapter, b: Adapter, stats: StatsMap, now: int)
    requires a.name in stats && b.name in stats && stats[a.name].total > 0 && stats[b.name].total > 0
    requires !Blocked(stats[a.name], now) && !Blocked(stats[b.name], now)
    ensures var (s, t) := (stats[a.name], stats[b.name]);
            Picks([a, b], stats, now, 1) <==>
            (7000 * t.success + if t.latency < 1000 * t.total then 3000 * t.total - 3 * t.latency else 0) * s.total >
            (7000 * s.success + if s.latency < 1000 * s.total then 3000 * s.total - 3 * s.latency else 0) * t.total
  {
    assert [a, b][0] == a && [a, b][1] == b && Indexed([a, b], stats) && !Blocked(stats[[a, b][0].name], now);
    PicksInCounters([a, b], stats, now, 1);
    assert Picks([a, b], stats, now, 1) <==> Preferred(stats[b.name], stats[a.name]);
  }
}
