/** Adapter statistics, the circuit breaker and the selection rule of the smart router, on values. */
module Routing {
  datatype Adapter = Adapter(name: string, countries: seq<string>)

  /** Counters and circuit of one adapter. Times and latencies are integers; an unset time is 0. */
  datatype Stats = Stats(total: nat, success: nat, failure: nat, latency: int, lastFailure: int,
                         circuitOpen: bool, circuitUntil: int)

  /** The outcome of one finished upstream call. */
  datatype Report = Report(ok: bool, latency: int, at: int)

  const Fresh := Stats(0, 0, 0, 0, 0, false, 0)

  /** 30 seconds, in nanoseconds. */
  const COOLDOWN := 30_000_000_000

  function Record(s: Stats, r: Report): Stats {
    if r.ok then
      s.(total := s.total + 1, success := s.success + 1, latency := s.latency + r.latency, circuitOpen := false)
    else
      var counted := s.(total := s.total + 1, failure := s.failure + 1, latency := s.latency + r.latency,
                        lastFailure := r.at);
      if counted.total > 10 && 2 * counted.failure > counted.total then
        counted.(circuitOpen := true, circuitUntil := r.at + COOLDOWN)
      else counted
  }

  function StatsOf(reports: seq<Report>): Stats {
    if reports == [] then Fresh else Record(StatsOf(reports[..|reports| - 1]), reports[|reports| - 1])
  }

  // ----- The circuit breaker as a property of the reports since registration -----

  function Failures(reports: seq<Report>): nat {
    if reports == [] then 0
    else Failures(reports[..|reports| - 1]) + if reports[|reports| - 1].ok then 0 else 1
  }

  function TotalLatency(reports: seq<Report>): int {
    if reports == [] then 0 else TotalLatency(reports[..|reports| - 1]) + reports[|reports| - 1].latency
  }

  /** The last report is a failure, there are more than 10, and more than half of them are failures. */
  predicate Tripped(reports: seq<Report>) {
    && |reports| > 10
    && !reports[|reports| - 1].ok
    && 2 * Failures(reports) > |reports|
  }

  /** When the last report that tripped the circuit lets it be probed again; 0 if none did. */
  function ProbeTime(reports: seq<Report>): int {
    if reports == [] then 0
    else if Tripped(reports) then reports[|reports| - 1].at + COOLDOWN
    else ProbeTime(reports[..|reports| - 1])
  }

  /** The stored counters and circuit say exactly what happened since registration: the circuit is open iff the
      last report was a failure at a failure rate above one half over more than 10 calls. */
  lemma {:induction false} StatsTellTheReports(reports: seq<Report>)
    ensures var s := StatsOf(reports);
            && s.total == |reports| && s.failure == Failures(reports) && s.success + s.failure == s.total
            && s.latency == TotalLatency(reports)
            && s.circuitOpen == Tripped(reports) && s.circuitUntil == ProbeTime(reports)
  {
    if reports != [] {
      StatsTellTheReports(reports[..|reports| - 1]);
    }
  }

  lemma ReportSnoc(reports: seq<Report>, r: Report)
    ensures Failures(reports + [r]) == Failures(reports) + if r.ok then 0 else 1
    ensures StatsOf(reports + [r]) == Record(StatsOf(reports), r)
    ensures Tripped(reports + [r]) <==> |reports| >= 10 && !r.ok && 2 * Failures(reports + [r]) > |reports| + 1
  {
    assert (reports + [r])[..|reports + [r]| - 1] == reports;
  }

  /** A success closes the circuit; a failure while it is open, the probe after the cooldown included, opens it
      again at once, for a cooldown from its own time. */
  lemma ProbeDecides(reports: seq<Report>, r: Report)
    requires StatsOf(reports).circuitOpen
    ensures var s := StatsOf(reports + [r]);
            if r.ok then !s.circuitOpen else s.circuitOpen && s.circuitUntil == r.at + 30_000_000_000
  {
    StatsTellTheReports(reports);
    ReportSnoc(reports, r);
    assert Tripped(reports);
  }

  lemma {:induction false} SuccessesOnlyCount(reports: seq<Report>, oks: seq<Report>)
    requires forall i | 0 <= i < |oks| :: oks[i].ok
    ensures Failures(reports + oks) == Failures(reports)
  {
    if oks == [] {
      assert reports + oks == reports;
    } else {
      SuccessesOnlyCount(reports, oks[..|oks| - 1]);
      assert reports + oks == (reports + oks[..|oks| - 1]) + [oks[|oks| - 1]];
      ReportSnoc(reports + oks[..|oks| - 1], oks[|oks| - 1]);
    }
  }

  /** How slowly trust returns: with f failures in t > 10 calls, the next failure leaves the circuit closed
      exactly when at least 2f + 1 - t successes come before it. */
  lemma RecoveryTakesSuccesses(reports: seq<Report>, oks: seq<Report>, r: Report)
    requires |reports| > 10 && !r.ok && forall i | 0 <= i < |oks| :: oks[i].ok
    ensures !StatsOf(reports + oks + [r]).circuitOpen <==> |oks| >= 2 * Failures(reports) + 1 - |reports|
  {
    SuccessesOnlyCount(reports, oks);
    ReportSnoc(reports + oks, r);
    StatsTellTheReports(reports + oks + [r]);
  }

  // ----- Scores and selection -----

  function Max0(x: real): real {
    if x > 0.0 then x else 0.0
  }

  function Score(s: Stats): real {
    if s.total == 0 then 50.0
    else
      var successRate := s.success as real / s.total as real;
      var avgLatency := s.latency as real / s.total as real;
      successRate * 70.0 + Max0(100.0 - avgLatency / 10.0) * 0.3
  }

  predicate Sane(s: Stats) {
    s.success <= s.total && s.latency >= 0
  }

  lemma RatioBounds(a: nat, b: nat)
    requires a <= b && b > 0
    ensures 0.0 <= a as real / b as real <= 1.0
  {
  }

  lemma QuotientNonNegative(a: int, b: nat)
    requires a >= 0 && b > 0
    ensures a as real / b as real >= 0.0
  {
  }

  /** Scores of sane counters lie between 0 and 100, so no score falls below the starting value -1. */
  lemma ScoreBounds(s: Stats)
    requires Sane(s)
    ensures 0.0 <= Score(s) <= 100.0
  {
    if s.total > 0 {
      RatioBounds(s.success, s.total);
      QuotientNonNegative(s.latency, s.total);
    }
  }

  /** Success counts for 70 points and latency for at most 30. */
  lemma ScoreWeights(s: Stats)
    requires Sane(s) && s.total > 0
    ensures var rate := s.success as real / s.total as real;
            70.0 * rate <= Score(s) <= 70.0 * rate + 30.0
  {
    QuotientNonNegative(s.latency, s.total);
  }

  /** A success rate better by more than three sevenths wins against any latencies. */
  lemma SuccessOutweighsLatency(s: Stats, t: Stats)
    requires Sane(s) && Sane(t) && s.total > 0 && t.total > 0
    requires 7.0 * (s.success as real / s.total as real - t.success as real / t.total as real) > 3.0
    ensures Score(s) > Score(t)
  {
    ScoreWeights(s);
    ScoreWeights(t);
  }

  lemma RatiosCompare(a: int, b: int, n: nat)
    requires a <= b && n > 0
    ensures a as real / n as real <= b as real / n as real
  {
  }

  /** Over the same number of calls, more successes and less latency never score lower. */
  lemma BetterScoresNoLower(s: Stats, t: Stats)
    requires s.total == t.total && t.success <= s.success && s.latency <= t.latency
    ensures Score(t) <= Score(s)
  {
    if s.total > 0 {
      RatiosCompare(t.success, s.success, s.total);
      RatiosCompare(s.latency, t.latency, s.total);
    }
  }

  lemma {:induction false} ReportsAreSane(reports: seq<Report>)
    requires forall i | 0 <= i < |reports| :: reports[i].latency >= 0
    ensures Sane(StatsOf(reports))
  {
    if reports != [] {
      ReportsAreSane(reports[..|reports| - 1]);
    }
  }

  type StatsMap = map<string, Stats>

  predicate Indexed(adapters: seq<Adapter>, stats: StatsMap) {
    forall i | 0 <= i < |adapters| :: adapters[i].name in stats
  }

  predicate Blocked(s: Stats, now: int) {
    s.circuitOpen && now < s.circuitUntil
  }

  predicate AllBlocked(adapters: seq<Adapter>, stats: StatsMap, now: int)
    requires Indexed(adapters, stats)
  {
    forall i | 0 <= i < |adapters| :: Blocked(stats[adapters[i].name], now)
  }

  /** `i` is the first unblocked adapter with the highest score or, if all are blocked, the first of those that
      recover earliest. */
  ghost predicate Picks(adapters: seq<Adapter>, stats: StatsMap, now: int, i: nat)
    requires Indexed(adapters, stats)
  {
    && i < |adapters|
    && var mine := stats[adapters[i].name];
       if AllBlocked(adapters, stats, now) then
         && (forall j | 0 <= j < |adapters| :: mine.circuitUntil <= stats[adapters[j].name].circuitUntil)
         && (forall j | 0 <= j < i :: mine.circuitUntil < stats[adapters[j].name].circuitUntil)
       else
         && !Blocked(mine, now)
         && (forall j | 0 <= j < |adapters| ::
               !Blocked(stats[adapters[j].name], now) ==> Score(stats[adapters[j].name]) <= Score(mine))
         && (forall j | 0 <= j < i ::
               !Blocked(stats[adapters[j].name], now) ==> Score(stats[adapters[j].name]) < Score(mine))
  }

  /** What `IsSupported` asks of an adapter: closed, or past its recovery time. */
  predicate Ready(s: Stats, now: int) {
    !s.circuitOpen || now > s.circuitUntil
  }

  ghost predicate Supported(adapters: seq<Adapter>, stats: StatsMap, now: int)
    requires Indexed(adapters, stats)
  {
    exists i :: 0 <= i < |adapters| && Ready(stats[adapters[i].name], now)
  }

  /** Some adapter is picked whenever there is one. */
  lemma {:induction false} SomeIsPicked(adapters: seq<Adapter>, stats: StatsMap, now: int) returns (i: nat)
    requires Indexed(adapters, stats) && adapters != []
    ensures Picks(adapters, stats, now, i)
  {
    var n := |adapters| - 1;
    i := n;
    if n > 0 {
      var init := adapters[..n];
      var k := SomeIsPicked(init, stats, now);
      i := if Beats(stats[adapters[n].name], stats[adapters[k].name], now) then n else k;
      assert forall j | 0 <= j < n :: adapters[j] == init[j];
    }
  }

  /** `s` replaces `t` when it comes later: it alone is unblocked, or it scores higher, or both are blocked and it
      recovers earlier. */
  predicate Beats(s: Stats, t: Stats, now: int) {
    if Blocked(t, now) then !Blocked(s, now) || s.circuitUntil < t.circuitUntil
    else !Blocked(s, now) && Score(s) > Score(t)
  }

  /** The selection rule determines exactly one adapter of those that serve a country. */
  lemma ExactlyOneIsPicked(adapters: seq<Adapter>, stats: StatsMap, now: int) returns (i: nat)
    requires Indexed(adapters, stats) && adapters != []
    ensures Picks(adapters, stats, now, i) && forall j: nat :: Picks(adapters, stats, now, j) ==> j == i
  {
    i := SomeIsPicked(adapters, stats, now);
  }

  /** A positive answer of `IsSupported` is kept: a later selection from the same statistics takes an adapter
      whose circuit does not block it. */
  lemma SupportedPicksUnblocked(adapters: seq<Adapter>, stats: StatsMap, now: int, later: int, i: nat)
    requires Indexed(adapters, stats) && Supported(adapters, stats, now) && now <= later
    requires Picks(adapters, stats, later, i)
    ensures !Blocked(stats[adapters[i].name], later)
  {
    var k :| 0 <= k < |adapters| && Ready(stats[adapters[k].name], now);
    assert !Blocked(stats[adapters[k].name], later);
  }

  /** The two tests differ only at the instant of recovery: selection finds an unblocked adapter exactly when
      `IsSupported` holds or some open circuit recovers at this very time. */
  lemma SupportedUpToTheInstant(adapters: seq<Adapter>, stats: StatsMap, now: int)
    requires Indexed(adapters, stats)
    ensures !AllBlocked(adapters, stats, now) <==>
            || Supported(adapters, stats, now)
            || exists i :: 0 <= i < |adapters| && stats[adapters[i].name].circuitOpen &&
                           stats[adapters[i].name].circuitUntil == now
  {
    if !AllBlocked(adapters, stats, now) {
      var i :| 0 <= i < |adapters| && !Blocked(stats[adapters[i].name], now);
      assert Ready(stats[adapters[i].name], now) ||
             (stats[adapters[i].name].circuitOpen && stats[adapters[i].name].circuitUntil == now);
    }
    if Supported(adapters, stats, now) {
      var i :| 0 <= i < |adapters| && Ready(stats[adapters[i].name], now);
      assert !Blocked(stats[adapters[i].name], now);
    }
  }
}

/** Runs of the router: any interleaving of registrations, selections and finished calls. */
module RouterRuns {
  import opened Routing

  datatype View = View(adapters: seq<Adapter>, countries: map<string, seq<Adapter>>, stats: StatsMap)

  const Empty := View([], map[], map[])

  function Listed(countries: map<string, seq<Adapter>>, country: string): seq<Adapter> {
    if country in countries then countries[country] else []
  }

  function Index(countries: map<string, seq<Adapter>>, a: Adapter, listed: seq<string>): map<string, seq<Adapter>> {
    if listed == [] then countries
    else
      var before := Index(countries, a, listed[..|listed| - 1]);
      var country := listed[|listed| - 1];
      before[country := Listed(before, country) + [a]]
  }

  function Register(v: View, a: Adapter): View {
    View(v.adapters + [a], Index(v.countries, a, a.countries), v.stats[a.name := Fresh])
  }

  function Finish(v: View, name: string, r: Report): View
    requires name in v.stats
  {
    v.(stats := v.stats[name := Record(v.stats[name], r)])
  }

  datatype Event =
    | Registered(adapter: Adapter)
    | Selected(country: string, now: int, index: nat)
    | Finished(name: string, report: Report)

  /** Calls that have been routed to an adapter and have not come back. */
  datatype State = State(view: View, inFlight: multiset<string>)

  ghost predicate Enabled(s: State, e: Event) {
    match e
    case Registered(_) => true
    case Selected(country, now, i) =>
      var adapters := Listed(s.view.countries, country);
      Indexed(adapters, s.view.stats) && Picks(adapters, s.view.stats, now, i)
    case Finished(name, r) => name in s.inFlight && r.latency >= 0
  }

  ghost function Next(s: State, e: Event): State {
    match e
    case Registered(a) => s.(view := Register(s.view, a))
    case Selected(country, _, i) =>
      var adapters := Listed(s.view.countries, country);
      if i < |adapters| then s.(inFlight := s.inFlight + multiset{adapters[i].name}) else s
    case Finished(name, r) =>
      if name in s.view.stats then State(Finish(s.view, name, r), s.inFlight - multiset{name}) else s
  }

  ghost function After(events: seq<Event>): State {
    if events == [] then State(Empty, multiset{})
    else Next(After(events[..|events| - 1]), events[|events| - 1])
  }

  /** Every event of the run could happen where it does. */
  ghost predicate Legal(events: seq<Event>) {
    events != [] ==>
      Legal(events[..|events| - 1]) && Enabled(After(events[..|events| - 1]), events[|events| - 1])
  }

  lemma RunSnoc(events: seq<Event>, e: Event)
    requires Legal(events) && Enabled(After(events), e)
    ensures Legal(events + [e]) && After(events + [e]) == Next(After(events), e)
  {
    assert (events + [e])[..|events|] == events;
  }

  lemma RunParts(events: seq<Event>, init: seq<Event>, last: Event)
    requires events != [] && Legal(events) && init == events[..|events| - 1] && last == events[|events| - 1]
    ensures Legal(init) && Enabled(After(init), last) && After(events) == Next(After(init), last)
  {
  }

  // ----- What the events say by themselves -----

  /** The reports of a name since its latest registration. */
  function Reports(events: seq<Event>, name: string): seq<Report> {
    if events == [] then []
    else
      var (init, last) := (events[..|events| - 1], events[|events| - 1]);
      match last
      case Registered(a) => if a.name == name then [] else Reports(init, name)
      case Selected(_, _, _) => Reports(init, name)
      case Finished(n, r) => Reports(init, name) + if n == name then [r] else []
  }

  function Registrations(events: seq<Event>): seq<Adapter> {
    if events == [] then []
    else
      var (init, last) := (events[..|events| - 1], events[|events| - 1]);
      Registrations(init) + if last.Registered? then [last.adapter] else []
  }

  function Copies(a: Adapter, country: string, listed: seq<string>): seq<Adapter> {
    if listed == [] then []
    else
      Copies(a, country, listed[..|listed| - 1]) + if listed[|listed| - 1] == country then [a] else []
  }

  /** The registered adapters that serve a country, in order, as often as each lists it. */
  function Serving(adapters: seq<Adapter>, country: string): seq<Adapter> {
    if adapters == [] then []
    else
      var last := adapters[|adapters| - 1];
      Serving(adapters[..|adapters| - 1], country) + Copies(last, country, last.countries)
  }

  // ----- The index -----

  lemma {:induction false} IndexAddsCopies(countries: map<string, seq<Adapter>>, a: Adapter, listed: seq<string>, country: string)
    ensures Listed(Index(countries, a, listed), country) == Listed(countries, country) + Copies(a, country, listed)
  {
    if listed == [] {
      assert Listed(countries, country) + [] == Listed(countries, country);
    } else {
      IndexAddsCopies(countries, a, listed[..|listed| - 1], country);
      IndexAddsCopies(countries, a, listed[..|listed| - 1], listed[|listed| - 1]);
    }
  }

  /** The country index is the registration list filtered by country, with multiplicity, in every run. */
  lemma {:induction false} IndexIsServing(events: seq<Event>, country: string)
    ensures After(events).view.adapters == Registrations(events)
    ensures Listed(After(events).view.countries, country) == Serving(Registrations(events), country)
  {
    if events != [] {
      var (init, last) := (events[..|events| - 1], events[|events| - 1]);
      IndexIsServing(init, country);
      if last.Registered? {
        IndexAddsCopies(After(init).view.countries, last.adapter, last.adapter.countries, country);
        assert (Registrations(init) + [last.adapter])[..|Registrations(init)|] == Registrations(init);
      } else {
        assert Registrations(events) == Registrations(init);
      }
    }
  }

  lemma {:induction false} CopiesAre(a: Adapter, country: string, listed: seq<string>)
    ensures forall x | x in Copies(a, country, listed) :: x == a
  {
    if listed != [] {
      CopiesAre(a, country, listed[..|listed| - 1]);
    }
  }

  lemma {:induction false} ServingAreRegistered(adapters: seq<Adapter>, country: string)
    ensures forall x | x in Serving(adapters, country) :: x in adapters
  {
    if adapters != [] {
      ServingAreRegistered(adapters[..|adapters| - 1], country);
      CopiesAre(adapters[|adapters| - 1], country, adapters[|adapters| - 1].countries);
      assert adapters == adapters[..|adapters| - 1] + [adapters[|adapters| - 1]];
    }
  }

  lemma {:induction false} RegisteredHaveStats(events: seq<Event>)
    ensures forall a | a in Registrations(events) :: a.name in After(events).view.stats
  {
    if events != [] {
      RegisteredHaveStats(events[..|events| - 1]);
    }
  }

  /** Every adapter that the index can return has statistics, so no lookup fails. */
  lemma IndexHasStats(events: seq<Event>, country: string)
    ensures Indexed(Listed(After(events).view.countries, country), After(events).view.stats)
  {
    IndexIsServing(events, country);
    ServingAreRegistered(Registrations(events), country);
    RegisteredHaveStats(events);
  }

  /** Every call in flight belongs to an adapter with statistics, whatever was registered since it was routed. */
  lemma {:induction false} InFlightHaveStats(events: seq<Event>)
    requires Legal(events)
    ensures forall n | n in After(events).inFlight :: n in After(events).view.stats
  {
    if events != [] {
      InFlightHaveStats(events[..|events| - 1]);
    }
  }

  // ----- Statistics -----

  /** In every run the statistics of a name are those of its reports since its latest registration. */
  lemma {:induction false} StatsAreReports(events: seq<Event>, name: string)
    requires Legal(events)
    ensures var v := After(events).view;
            && (name in v.stats ==> v.stats[name] == StatsOf(Reports(events, name)))
            && (name !in v.stats ==> Reports(events, name) == [])
  {
    if events != [] {
      var (init, last) := (events[..|events| - 1], events[|events| - 1]);
      StatsAreReports(init, name);
      InFlightHaveStats(init);
      match last {
        case Registered(a) =>
        case Selected(_, _, _) =>
        case Finished(n, r) =>
          if n == name {
            ReportSnoc(Reports(init, name), r);
          } else {
            assert Reports(events, name) == Reports(init, name);
          }
      }
    }
  }

  lemma {:induction false} ReportsNonNegative(events: seq<Event>, name: string)
    requires Legal(events)
    ensures forall r | r in Reports(events, name) :: r.latency >= 0
  {
    if events != [] {
      ReportsNonNegative(events[..|events| - 1], name);
    }
  }

  /** In every run every score lies between 0 and 100 and every circuit is open iff its reports trip it. */
  lemma RunsKeepTheBreaker(events: seq<Event>, name: string)
    requires Legal(events) && name in After(events).view.stats
    ensures var s := After(events).view.stats[name];
            && s.circuitOpen == Tripped(Reports(events, name))
            && s.total == |Reports(events, name)| == s.success + s.failure
            && 0.0 <= Score(s) <= 100.0
  {
    StatsAreReports(events, name);
    StatsTellTheReports(Reports(events, name));
    ReportsNonNegative(events, name);
    ReportsAreSane(Reports(events, name));
    ScoreBounds(StatsOf(Reports(events, name)));
  }

  // ----- Conservation -----

  function CountSelected(events: seq<Event>): nat {
    if events == [] then 0
    else CountSelected(events[..|events| - 1]) + if events[|events| - 1].Selected? then 1 else 0
  }

  function CountFinished(events: seq<Event>): nat {
    if events == [] then 0
    else CountFinished(events[..|events| - 1]) + if events[|events| - 1].Finished? then 1 else 0
  }

  /** Selected calls are the finished ones and those in flight. */
  lemma {:induction false} SelectedAreFinishedOrInFlight(events: seq<Event>)
    requires Legal(events)
    ensures CountSelected(events) == CountFinished(events) + |After(events).inFlight|
  {
    if events != [] {
      SelectedAreFinishedOrInFlight(events[..|events| - 1]);
      InFlightHaveStats(events[..|events| - 1]);
    }
  }

  function SumOfTotals(stats: StatsMap, names: seq<string>): nat
    requires forall n | n in names :: n in stats
  {
    if names == [] then 0
    else SumOfTotals(stats, names[..|names| - 1]) + stats[names[|names| - 1]].total
  }

  predicate Distinct(names: seq<string>) {
    forall i, j | 0 <= i < j < |names| :: names[i] != names[j]
  }

  lemma {:induction false} SumStep(stats: StatsMap, names: seq<string>, name: string, s: Stats)
    requires (forall n | n in names :: n in stats) && Distinct(names) && name in stats
    requires s.total == stats[name].total + 1
    ensures SumOfTotals(stats[name := s], names) == SumOfTotals(stats, names) + if name in names then 1 else 0
  {
    if names != [] {
      SumStep(stats, names[..|names| - 1], name, s);
      assert names == names[..|names| - 1] + [names[|names| - 1]];
    }
  }

  lemma {:induction false} SumOfFresh(stats: StatsMap, names: seq<string>)
    requires forall n | n in names :: n in stats && stats[n] == Fresh
    ensures SumOfTotals(stats, names) == 0
  {
    if names != [] {
      SumOfFresh(stats, names[..|names| - 1]);
    }
  }

  lemma {:induction false} OnlyRegistered(regs: seq<Event>)
    requires forall i | 0 <= i < |regs| :: regs[i].Registered?
    ensures forall n | n in After(regs).view.stats :: After(regs).view.stats[n] == Fresh
    ensures After(regs).inFlight == multiset{}
  {
    if regs != [] {
      OnlyRegistered(regs[..|regs| - 1]);
    }
  }

  /** Conservation: once registration is over, the totals of all names add up to the finished calls. */
  lemma {:induction false} TotalsAreFinishedCalls(regs: seq<Event>, calls: seq<Event>, names: seq<string>)
    requires Legal(regs + calls)
    requires forall i | 0 <= i < |regs| :: regs[i].Registered?
    requires forall i | 0 <= i < |calls| :: !calls[i].Registered?
    requires Distinct(names) && forall n :: n in names <==> n in After(regs).view.stats
    ensures After(regs + calls).view.stats.Keys == After(regs).view.stats.Keys
    ensures SumOfTotals(After(regs + calls).view.stats, names) == CountFinished(calls)
  {
    if calls == [] {
      assert regs + calls == regs;
      OnlyRegistered(regs);
      SumOfFresh(After(regs).view.stats, names);
    } else {
      var (init, last) := (calls[..|calls| - 1], calls[|calls| - 1]);
      var (all, before) := (regs + calls, regs + init);
      assert all[..|all| - 1] == before && all[|all| - 1] == last;
      RunParts(all, before, last);
      TotalsAreFinishedCalls(regs, init, names);
      InFlightHaveStats(before);
      TotalsStep(After(before), last, names);
    }
  }

  lemma TotalsStep(s: State, e: Event, names: seq<string>)
    requires !e.Registered? && Enabled(s, e) && (forall n | n in s.inFlight :: n in s.view.stats)
    requires Distinct(names) && forall n :: n in names <==> n in s.view.stats
    ensures Next(s, e).view.stats.Keys == s.view.stats.Keys
    ensures SumOfTotals(Next(s, e).view.stats, names) ==
            SumOfTotals(s.view.stats, names) + if e.Finished? then 1 else 0
  {
    if e.Finished? {
      SumStep(s.view.stats, names, e.name, Record(s.view.stats[e.name], e.report));
    }
  }
}
