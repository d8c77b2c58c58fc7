/** The smart router as it runs: one mutable statistics object per adapter name. */
module SmartRouter {
  import opened Options
  import opened Routing
  import opened RouterRuns
  import Selection

  /** What an upstream call comes back with. */
  datatype Answer = Error | NoResponse | Response(status: string)

  class AdapterStats {
    var totalRequests: nat
    var successCount: nat
    var failureCount: nat
    var totalLatency: int
    var lastFailure: int
    var circuitOpen: bool
    var circuitUntil: int

    constructor ()
      ensures Value() == Fresh
    {
      totalRequests, successCount, failureCount, totalLatency := 0, 0, 0, 0;
      lastFailure, circuitOpen, circuitUntil := 0, false, 0;
    }

    function Value(): Stats
      reads this
    {
      Stats(totalRequests, successCount, failureCount, totalLatency, lastFailure, circuitOpen, circuitUntil)
    }

    method CountSuccess(latency: int, ghost now: int)
      modifies this
      ensures Value() == Record(old(Value()), Report(true, latency, now))
    {
      totalRequests := totalRequests + 1;
      successCount := successCount + 1;
      totalLatency := totalLatency + latency;
      if circuitOpen {
        circuitOpen := false;
      }
    }

    method CountFailure(latency: int, now: int)
      modifies this
      ensures Value() == Record(old(Value()), Report(false, latency, now))
    {
      totalRequests := totalRequests + 1;
      failureCount := failureCount + 1;
      totalLatency := totalLatency + latency;
      lastFailure := now;
      if totalRequests > 10 {
        var failRate := failureCount as real / totalRequests as real;
        MoreThanHalf(failureCount, totalRequests);
        if failRate > 0.5 {
          circuitOpen := true;
          circuitUntil := now + COOLDOWN;
        }
      }
    }
  }

  class SmartRouter {
    var adapters: seq<Adapter>
    var countryAdapters: map<string, seq<Adapter>>
    var stats: map<string, AdapterStats>
    ghost var events: seq<Event>

    ghost function Objects(): set<AdapterStats>
      reads this
    {
      set n | n in stats :: stats[n]
    }

    ghost function StatsView(): StatsMap
      reads this, Objects()
    {
      map n | n in stats :: stats[n].Value()
    }

    ghost function View(): View
      reads this, Objects()
    {
      RouterRuns.View(adapters, countryAdapters, StatsView())
    }

    ghost function Serving(country: string): seq<Adapter>
      reads this
    {
      Listed(countryAdapters, country)
    }

    /** Names do not share statistics, every indexed adapter has some, and the counters are sane. */
    ghost predicate Coherent()
      reads this, Objects()
    {
      && (forall n, m | n in stats && m in stats && n != m :: stats[n] != stats[m])
      && (forall country :: Indexed(Serving(country), StatsView()))
      && (forall n | n in stats :: Sane(stats[n].Value()))
    }

    /** The state is what the steps of all calls so far, however they interleave, leave behind. */
    ghost predicate Valid()
      reads this, Objects()
    {
      Coherent() && Legal(events) && View() == After(events).view
    }

    constructor ()
      ensures Valid() && events == []
    {
      adapters, countryAdapters, stats, events := [], map[], map[], [];
    }

    /** The breaker, of the running router: whatever interleaved, a circuit is open exactly when the reports of its
        name since the latest registration trip it. */
    lemma CircuitTellsTheReports(name: string)
      requires Valid() && name in stats
      ensures stats[name].circuitOpen == Tripped(Reports(events, name))
      ensures stats[name].totalRequests == |Reports(events, name)|
    {
      assert stats[name].Value() == View().stats[name];
      RunsKeepTheBreaker(events, name);
    }

    /** One more step has had its effect. */
    ghost method Note(e: Event)
      requires Coherent() && Legal(events) && Enabled(After(events), e) && View() == Next(After(events), e).view
      modifies this`events
      ensures Valid() && events == old(events) + [e] && View() == old(View())
    {
      RunSnoc(events, e);
      label recorded:
      events := events + [e];
      Untouched@recorded();
    }

    /** Nothing but the record of events has changed. */
    twostate lemma Untouched()
      requires adapters == old(adapters) && countryAdapters == old(countryAdapters) && stats == old(stats)
      requires forall n | n in stats :: unchanged(stats[n])
      ensures View() == old(View()) && (old(Coherent()) ==> Coherent())
    {
      assert StatsView() == old(StatsView());
      assert forall country :: Serving(country) == old(Serving(country));
      if old(Coherent()) {
        forall country ensures Indexed(Serving(country), StatsView()) {
          assert old(Indexed(Serving(country), StatsView()));
        }
      }
    }

    method Register(adapter: Adapter)
      requires Valid()
      modifies this
      ensures Valid() && events == old(events) + [RouterRuns.Registered(adapter)]
      ensures View() == RouterRuns.Register(old(View()), adapter)
      ensures fresh(Objects() - old(Objects()))
    {
      AddAdapter(adapter);
      Note(RouterRuns.Registered(adapter));
    }

    method AddAdapter(adapter: Adapter)
      requires Coherent()
      modifies this
      ensures Coherent() && View() == RouterRuns.Register(old(View()), adapter) && events == old(events)
      ensures fresh(Objects() - old(Objects()))
    {
      ghost var before := countryAdapters;
      adapters := adapters + [adapter];
      for i := 0 to |adapter.countries|
        invariant adapters == old(adapters) + [adapter] && stats == old(stats) && events == old(events)
        invariant countryAdapters == Index(before, adapter, adapter.countries[..i])
      {
        var country := adapter.countries[i];
        var served := if country in countryAdapters then countryAdapters[country] else [];
        countryAdapters := countryAdapters[country := served + [adapter]];
        assert adapter.countries[..i + 1][..i] == adapter.countries[..i];
      }
      assert adapter.countries[..|adapter.countries|] == adapter.countries;
      var zero := new AdapterStats();
      stats := stats[adapter.name := zero];
      Registered(adapter, zero);
    }

    twostate lemma Registered(adapter: Adapter, new zero: AdapterStats)
      requires old(Coherent()) && forall n | n in old(stats) :: unchanged(old(stats)[n])
      requires stats == old(stats)[adapter.name := zero] && zero.Value() == Fresh && zero !in old(Objects())
      requires countryAdapters == Index(old(countryAdapters), adapter, adapter.countries)
      ensures StatsView() == old(StatsView())[adapter.name := Fresh] && Coherent()
    {
      forall country ensures Indexed(Serving(country), StatsView()) {
        IndexAddsCopies(old(countryAdapters), adapter, adapter.countries, country);
        CopiesAre(adapter, country, adapter.countries);
        var before := old(Serving(country));
        assert old(Indexed(Serving(country), StatsView()));
        forall i | 0 <= i < |Serving(country)| ensures Serving(country)[i].name in StatsView() {
          if i < |before| {
            assert Serving(country)[i] == before[i];
          } else {
            assert Serving(country)[i] in Copies(adapter, country, adapter.countries);
          }
        }
      }
    }

    method IsSupported(country: string, now: int) returns (supported: bool)
      requires Coherent()
      ensures supported == Supported(Serving(country), StatsView(), now)
      ensures supported <==> exists i :: 0 <= i < |Serving(country)| && Serving(country)[i].name in stats &&
                                         var s := stats[Serving(country)[i].name]; !s.circuitOpen || now > s.circuitUntil
    {
      if country !in countryAdapters {
        return false;
      }
      assert Indexed(Serving(country), StatsView());
      var served := countryAdapters[country];
      for i := 0 to |served|
        invariant forall j | 0 <= j < i :: !Ready(stats[served[j].name].Value(), now)
      {
        var s := stats[served[i].name];
        if !s.circuitOpen || now > s.circuitUntil {
          assert Ready(StatsView()[served[i].name], now);
          return true;
        }
      }
      return false;
    }

    /** Selection fails exactly for a country that no adapter serves, and otherwise follows `Picks`. */
    method SelectBest(country: string, now: int) returns (best: Option<Adapter>, ghost index: nat)
      requires Valid()
      modifies this`events
      ensures Valid() && View() == old(View())
      ensures best.None? <==> Serving(country) == []
      ensures best.Some? ==> Picks(Serving(country), StatsView(), now, index) && best.value == Serving(country)[index]
      ensures events == if best.None? then old(events) else old(events) + [Selected(country, now, index)]
      ensures best.Some? ==> best.value.name in After(events).inFlight
    {
      best, index := Chosen(country, now);
      if best != None {
        SelectionIsStep(country, now, index);
        RunSnoc(events, Selected(country, now, index));
        Note(Selected(country, now, index));
      }
    }

    /** A selection can happen where it does, puts the adapter in flight and changes nothing else. */
    lemma SelectionIsStep(country: string, now: int, index: nat)
      requires Valid() && Indexed(Serving(country), StatsView()) && Picks(Serving(country), StatsView(), now, index)
      ensures var (s, e) := (After(events), Selected(country, now, index));
              Enabled(s, e) && Next(s, e).view == View() && Serving(country)[index].name in Next(s, e).inFlight
    {
    }

    method Chosen(country: string, now: int) returns (best: Option<Adapter>, ghost index: nat)
      requires Coherent()
      ensures best.None? <==> Serving(country) == []
      ensures Indexed(Serving(country), StatsView())
      ensures best.Some? ==> Picks(Serving(country), StatsView(), now, index) && best.value == Serving(country)[index]
    {
      best, index := None, 0;
      if country !in countryAdapters || |countryAdapters[country]| == 0 {
        return;
      }
      assert Indexed(Serving(country), StatsView());
      var served := countryAdapters[country];
      best, index := BestUnblocked(served, now);
      if best == None {
        best, index := EarliestRecovery(served);
      }
    }

    /** The loop over the scores: its starting value -1 is below every score, so it finds nothing only if every
        adapter is blocked. */
    method BestUnblocked(served: seq<Adapter>, now: int) returns (best: Option<Adapter>, index: nat)
      requires Indexed(served, StatsView()) && forall n | n in stats :: Sane(stats[n].Value())
      ensures best.None? <==> AllBlocked(served, StatsView(), now)
      ensures best.Some? ==> Picks(served, StatsView(), now, index) && best.value == served[index]
    {
      best, index := None, 0;
      var bestScore := -1.0;
      ghost var view := StatsView();
      for i := 0 to |served|
        invariant best.None? ==> bestScore == -1.0 && forall j | 0 <= j < i :: Blocked(view[served[j].name], now)
        invariant best.Some? ==>
                    && index < i && best.value == served[index]
                    && !Blocked(view[served[index].name], now) && bestScore == Score(view[served[index].name])
        invariant forall j | 0 <= j < i :: !Blocked(view[served[j].name], now) ==> Score(view[served[j].name]) <= bestScore
        invariant best.Some? ==>
                    forall j | 0 <= j < index :: !Blocked(view[served[j].name], now) ==> Score(view[served[j].name]) < bestScore
      {
        var s := stats[served[i].name];
        assert s.Value() == view[served[i].name];
        if s.circuitOpen && now < s.circuitUntil {
          continue;
        }
        var score := Score(s.Value());
        ScoreBounds(s.Value());
        if score > bestScore {
          bestScore := score;
          best, index := Some(served[i]), i;
        }
      }
    }

    /** The fallback when every circuit is open: the first adapter with the earliest recovery time. */
    method EarliestRecovery(served: seq<Adapter>) returns (best: Option<Adapter>, index: nat)
      requires served != [] && Indexed(served, StatsView())
      ensures index < |served| && best == Some(served[index])
      ensures forall j | 0 <= j < |served| ::
                stats[served[index].name].circuitUntil <= stats[served[j].name].circuitUntil
      ensures forall j | 0 <= j < index ::
                stats[served[index].name].circuitUntil < stats[served[j].name].circuitUntil
    {
      best, index := None, 0;
      var earliest := 0;
      for i := 0 to |served|
        invariant (best.None? <==> i == 0) && index <= i
        invariant best.Some? ==>
                    index < i && best.value == served[index] && earliest == stats[served[index].name].circuitUntil
        invariant forall j | 0 <= j < i :: earliest <= stats[served[j].name].circuitUntil
        invariant forall j | 0 <= j < index :: earliest < stats[served[j].name].circuitUntil
      {
        var s := stats[served[i].name];
        if best == None || s.circuitUntil < earliest {
          best, index := Some(served[i]), i;
          earliest := s.circuitUntil;
        }
      }
    }

    method RecordSuccess(name: string, latency: int, now: int)
      requires Valid() && name in After(events).inFlight && latency >= 0
      modifies this`events, Objects()
      ensures Valid() && Objects() == old(Objects())
      ensures events == old(events) + [Finished(name, Report(true, latency, now))]
      ensures name in old(View()).stats && View() == Finish(old(View()), name, Report(true, latency, now))
    {
      InFlightHaveStats(events);
      assert name in View().stats;
      stats[name].CountSuccess(latency, now);
      OneReported(name, Report(true, latency, now));
      Note(Finished(name, Report(true, latency, now)));
    }

    method RecordFailure(name: string, latency: int, now: int)
      requires Valid() && name in After(events).inFlight && latency >= 0
      modifies this`events, Objects()
      ensures Valid() && Objects() == old(Objects())
      ensures events == old(events) + [Finished(name, Report(false, latency, now))]
      ensures name in old(View()).stats && View() == Finish(old(View()), name, Report(false, latency, now))
    {
      InFlightHaveStats(events);
      assert name in View().stats;
      stats[name].CountFailure(latency, now);
      OneReported(name, Report(false, latency, now));
      Note(Finished(name, Report(false, latency, now)));
    }

    /** The change of one statistics object, seen from the whole router. */
    twostate lemma OneReported(name: string, new r: Report)
      requires old(Coherent()) && unchanged(this) && name in stats && r.latency >= 0
      requires stats[name].Value() == Record(old(stats[name].Value()), r)
      requires forall n | n in stats && n != name :: unchanged(stats[n])
      ensures Coherent() && View() == Finish(old(View()), name, r)
    {
      assert StatsView() == old(StatsView())[name := Record(old(StatsView())[name], r)];
      forall country ensures Indexed(Serving(country), StatsView()) {
        assert old(Indexed(Serving(country), StatsView()));
      }
    }

    /** One silent verification with its upstream answer: the chosen adapter gets exactly one report, a failure
        iff the call failed or answered "failed". */
    method SilentVerify(country: string, now: int, answer: Answer, latency: int, done: int)
      returns (result: Option<Answer>, ghost index: nat)
      requires Valid() && latency >= 0
      modifies this`events, Objects()
      ensures Valid()
      ensures old(Serving(country)) == [] ==> result.None? && View() == old(View())
      ensures old(Serving(country)) != [] ==>
                && result == Some(answer)
                && Picks(old(Serving(country)), old(StatsView()), now, index)
                && View() == Finish(old(View()), old(Serving(country))[index].name,
                                    Report(!answer.Error? && answer != Response("failed"), latency, done))
    {
      var best;
      best, index := SelectBest(country, now);
      if best == None {
        return None, index;
      }
      if answer.Error? || (answer.Response? && answer.status == "failed") {
        RecordFailure(best.value.name, latency, done);
      } else {
        RecordSuccess(best.value.name, latency, done);
      }
      result := Some(answer);
    }

    /** The same for a SIM swap check, where only an error is a failure. */
    method CheckSIMSwap(country: string, now: int, answer: Answer, latency: int, done: int)
      returns (result: Option<Answer>, ghost index: nat)
      requires Valid() && latency >= 0
      modifies this`events, Objects()
      ensures Valid()
      ensures old(Serving(country)) == [] ==> result.None? && View() == old(View())
      ensures old(Serving(country)) != [] ==>
                && result == Some(answer)
                && Picks(old(Serving(country)), old(StatsView()), now, index)
                && View() == Finish(old(View()), old(Serving(country))[index].name,
                                    Report(!answer.Error?, latency, done))
    {
      var best;
      best, index := SelectBest(country, now);
      if best == None {
        return None, index;
      }
      if answer.Error? {
        RecordFailure(best.value.name, latency, done);
      } else {
        RecordSuccess(best.value.name, latency, done);
      }
      result := Some(answer);
    }
  }

  lemma RatioAboveHalf(p: real, w: real)
    requires w > 0.0
    ensures p / w > 0.5 <==> 2.0 * p > w
  {
    var q := p / w;
    assert q * w == p;
    if q > 0.5 {
      Selection.PositiveProduct(q - 0.5, w);
    } else if q < 0.5 {
      Selection.PositiveProduct(0.5 - q, w);
    }
  }

  /** A failure rate above one half is a majority of failures. */
  lemma MoreThanHalf(part: nat, whole: nat)
    requires whole > 0
    ensures part as real / whole as real > 0.5 <==> 2 * part > whole
  {
    RatioAboveHalf(part as real, whole as real);
  }
}
