/** The cached OAuth2 token under any interleaving of callers. */
module TokenRuns {
  import opened Options

  /** Nanoseconds in a second, the unit of the clock. */
  const SECOND := 1_000_000_000

  /** Seconds before its expiry at which a token is refreshed. */
  const MARGIN := 60

  datatype Cache = Cache(token: string, expiresAt: int)

  /** What the token endpoint answers: anything but a decodable 200 response is a failure. */
  datatype Answer = Failed | Granted(token: string, expiresIn: int)

  predicate Hit(c: Cache, now: int) {
    c.token != "" && now < c.expiresAt
  }

  /** The cache after an answer that arrives at `now`. */
  function Settle(c: Cache, answer: Answer, now: int): Cache {
    match answer
    case Failed => c
    case Granted(token, expiresIn) => Cache(token, now + (expiresIn - MARGIN) * SECOND)
  }

  /** One step of one caller. `Look` is the check under the read lock, `Recheck` the check under the write lock,
      which either returns the cached token or sends the request; `Answered` stores the answer and unlocks. */
  datatype Event =
    | Look(caller: nat, at: int)
    | Recheck(caller: nat, at: int)
    | Answered(caller: nat, at: int, answer: Answer)

  /** A request under way, made by the holder of the write lock. */
  datatype Request = Request(caller: nat, sentAt: int)

  /** A granted token with the times between which it was issued. */
  datatype Grant = Grant(token: string, sentAt: int, at: int, lifetime: int)

  datatype State = State(cache: Cache, writer: Option<Request>, waiting: set<nat>, origin: Option<Grant>, clock: int)

  const Initial := State(Cache("", 0), None, {}, None, 0)

  predicate Enabled(s: State, e: Event) {
    && s.clock <= e.at
    && match e
       case Look(caller, _) => s.writer.None? && caller !in s.waiting
       case Recheck(caller, _) => s.writer.None? && caller in s.waiting
       case Answered(caller, _, _) => s.writer.Some? && s.writer.value.caller == caller
  }

  /** The caller sends a request to the token endpoint. */
  predicate Sends(s: State, e: Event) {
    e.Recheck? && !Hit(s.cache, e.at)
  }

  /** The caller is given the cached token. */
  predicate Returns(s: State, e: Event) {
    !e.Answered? && Hit(s.cache, e.at)
  }

  function Next(s: State, e: Event): State {
    var t := s.(clock := e.at);
    match e
    case Look(caller, at) => if Hit(s.cache, at) then t else t.(waiting := s.waiting + {caller})
    case Recheck(caller, at) =>
      var unqueued := t.(waiting := s.waiting - {caller});
      if Hit(s.cache, at) then unqueued else unqueued.(writer := Some(Request(caller, at)))
    case Answered(_, at, answer) =>
      var settled := t.(cache := Settle(s.cache, answer, at), writer := None);
      if answer.Failed? || s.writer.None? then settled
      else settled.(origin := Some(Grant(answer.token, s.writer.value.sentAt, at, answer.expiresIn)))
  }

  function After(events: seq<Event>): State {
    if events == [] then Initial else Next(After(events[..|events| - 1]), events[|events| - 1])
  }

  predicate Legal(events: seq<Event>) {
    events == [] ||
    (Legal(events[..|events| - 1]) && Enabled(After(events[..|events| - 1]), events[|events| - 1]))
  }

  /** What a step of a run did, judged in the state before it. */
  predicate SendsAt(events: seq<Event>, i: nat) {
    i < |events| && Sends(After(events[..i]), events[i])
  }

  /** The last step of the caller, if any, was a look that missed. */
  predicate Missed(events: seq<Event>, caller: nat) {
    events != [] &&
    var (init, last) := (events[..|events| - 1], events[|events| - 1]);
    match last
    case Look(c, at) => if c == caller then !Hit(After(init).cache, at) else Missed(init, caller)
    case Recheck(c, _) => c != caller && Missed(init, caller)
    case Answered(_, _, _) => Missed(init, caller)
  }

  /** Callers wait for the write lock from a look that missed until their second look. */
  lemma {:induction false} WaitingHaveMissed(events: seq<Event>, caller: nat)
    requires Legal(events)
    ensures caller in After(events).waiting <==> Missed(events, caller)
  {
    if events != [] {
      WaitingHaveMissed(events[..|events| - 1], caller);
    }
  }

  // ----- One refresh at a time -----

  function Requests(events: seq<Event>): nat {
    if events == [] then 0
    else
      Requests(events[..|events| - 1]) + if SendsAt(events, |events| - 1) then 1 else 0
  }

  function Answers(events: seq<Event>): nat {
    if events == [] then 0
    else Answers(events[..|events| - 1]) + if events[|events| - 1].Answered? then 1 else 0
  }

  lemma {:induction false} AtMostOneRefresh(events: seq<Event>)
    requires Legal(events)
    ensures Requests(events) == Answers(events) + if After(events).writer.Some? then 1 else 0
  {
    if events != [] {
      AtMostOneRefresh(events[..|events| - 1]);
    }
  }

  // ----- Refreshes are spaced by the lifetime of the token -----

  /** The time before which no refresh may follow a granted token. */
  function Barrier(e: Event): int
    requires e.Answered? && e.answer.Granted?
  {
    e.at + (e.answer.expiresIn - MARGIN) * SECOND
  }

  predicate GrantsToken(e: Event) {
    e.Answered? && e.answer.Granted? && e.answer.token != ""
  }

  /** The barrier of a grant has passed, or no refresh is under way and the cache still holds up the next one. */
  predicate Guarded(s: State, barrier: int) {
    s.clock >= barrier || (s.writer.None? && s.cache.token != "" && s.cache.expiresAt >= barrier)
  }

  lemma {:induction false} GrantsStayGuarded(events: seq<Event>, i: nat)
    requires Legal(events) && i < |events| && GrantsToken(events[i])
    ensures Guarded(After(events), Barrier(events[i]))
    decreases |events|
  {
    var init := events[..|events| - 1];
    if i < |init| {
      assert init[i] == events[i];
      GrantsStayGuarded(init, i);
    }
  }

  /** Spacing over every run: a refresh that starts after a grant of a non-empty token with lifetime E starts no
      earlier than E - 60 seconds after that grant arrived, however many other refreshes come between. */
  lemma RefreshesAreSpaced(events: seq<Event>, i: nat, j: nat)
    requires Legal(events) && i < j < |events| && GrantsToken(events[i]) && SendsAt(events, j)
    ensures events[j].at >= events[i].at + (events[i].answer.expiresIn - 60) * 1_000_000_000
  {
    LegalPrefix(events, j + 1);
    assert events[..j + 1][..j] == events[..j] && events[..j + 1][j] == events[j];
    assert events[..j][i] == events[i];
    GrantsStayGuarded(events[..j], i);
  }

  lemma {:induction false} LegalPrefix(events: seq<Event>, n: nat)
    requires Legal(events) && n <= |events|
    ensures Legal(events[..n])
  {
    if n < |events| {
      var init := events[..|events| - 1];
      LegalPrefix(init, n);
      assert init[..n] == events[..n];
    } else {
      assert events[..n] == events;
    }
  }

  // ----- What a caller gets is still valid -----

  lemma {:induction false} CacheHasOrigin(events: seq<Event>)
    requires Legal(events)
    ensures var s := After(events);
            && (s.writer.Some? ==> s.writer.value.sentAt <= s.clock)
            && (s.cache.token != "" ==>
                  && s.origin.Some?
                  && var g := s.origin.value;
                     && g.token == s.cache.token && g.sentAt <= g.at <= s.clock
                     && s.cache.expiresAt == g.at + (g.lifetime - MARGIN) * SECOND)
  {
    if events != [] {
      CacheHasOrigin(events[..|events| - 1]);
    }
  }

  /** A cached token is returned only with more than 60 - d seconds of its lifetime left, counted from the moment
      its request was sent, when its answer took d seconds to arrive. */
  lemma ReturnedTokenIsFresh(events: seq<Event>, e: Event)
    requires Legal(events) && Enabled(After(events), e) && Returns(After(events), e)
    ensures var s := After(events);
            && s.origin.Some?
            && var g := s.origin.value;
               && g.token == s.cache.token != ""
               && g.sentAt + g.lifetime * 1_000_000_000 - e.at > 60 * 1_000_000_000 - (g.at - g.sentAt)
  {
    CacheHasOrigin(events);
  }

  predicate GrantsNothing(events: seq<Event>) {
    forall i | 0 <= i < |events| :: events[i].Answered? ==> events[i].answer.Failed?
  }

  lemma {:induction false} CacheStays(events: seq<Event>, more: seq<Event>)
    requires Legal(events + more) && GrantsNothing(more)
    ensures After(events + more).cache == After(events).cache && After(events + more).clock >= After(events).clock
  {
    if more == [] {
      assert events + more == events;
    } else {
      var init := more[..|more| - 1];
      assert (events + more)[..|events + more| - 1] == events + init;
      CacheStays(events, init);
    }
  }

  lemma {:induction false} SomeoneElse(callers: set<nat>) returns (c: nat)
    ensures forall d | d in callers :: d < c
  {
    c := 0;
    if callers != {} {
      var d :| d in callers;
      var e := SomeoneElse(callers - {d});
      c := if e > d then e else d + 1;
      assert forall x | x in callers :: x == d || x in callers - {d};
    }
  }

  /** The run can go on, without another grant, to a step that gives a caller the cached token. */
  ghost predicate CanBeServed(events: seq<Event>) {
    exists more, e ::
      GrantsNothing(more) && Legal(events + more + [e]) && Returns(After(events + more), e)
  }

  lemma ServedIsLongLived(events: seq<Event>)
    requires Legal(events) && events != [] && CanBeServed(events)
    requires events[|events| - 1].Answered? && events[|events| - 1].answer.Granted?
    ensures var grant := events[|events| - 1].answer; grant.token != "" && grant.expiresIn > MARGIN
  {
    var more, e :| GrantsNothing(more) && Legal(events + more + [e]) && Returns(After(events + more), e);
    assert (events + more + [e])[..|events + more|] == events + more;
    CacheStays(events, more);
  }

  lemma LongLivedIsServed(events: seq<Event>)
    requires Legal(events) && events != []
    requires events[|events| - 1].Answered? && events[|events| - 1].answer.Granted?
    requires var grant := events[|events| - 1].answer; grant.token != "" && grant.expiresIn > MARGIN
    ensures CanBeServed(events)
  {
    var s := After(events);
    var caller := SomeoneElse(s.waiting);
    var e := Look(caller, s.clock);
    assert events + [] == events && (events + [e])[..|events|] == events;
    assert GrantsNothing([]) && Returns(After(events + []), e) && Legal(events + [] + [e]);
  }

  /** The token of a grant can ever be served from the cache exactly when it is not empty and lives longer than the
      margin; otherwise every later call refreshes again. */
  lemma ServedExactlyWhenLongLived(events: seq<Event>)
    requires Legal(events) && events != []
    requires events[|events| - 1].Answered? && events[|events| - 1].answer.Granted?
    ensures var grant := events[|events| - 1].answer;
            CanBeServed(events) <==> grant.token != "" && grant.expiresIn > 60
  {
    var grant := events[|events| - 1].answer;
    if CanBeServed(events) {
      ServedIsLongLived(events);
    }
    if grant.token != "" && grant.expiresIn > MARGIN {
      LongLivedIsServed(events);
    }
  }
}

/** The client as it runs: two fields behind a read-write lock. */
module TokenCache {
  import opened Options
  import opened TokenRuns

  class OAuth2Client {
    var accessToken: string
    var expiresAt: int
    ghost var events: seq<Event>

    /** The fields are what the steps of all callers leave behind. */
    ghost predicate Valid()
      reads this
    {
      Legal(events) && State() == After(events).cache
    }

    constructor ()
      ensures Valid() && events == []
    {
      accessToken, expiresAt, events := "", 0, [];
    }

    ghost function State(): Cache
      reads this
    {
      Cache(accessToken, expiresAt)
    }

    /** The look at the cache under the read lock. */
    method CachedToken(ghost caller: nat, now: int) returns (token: Option<string>)
      requires Valid() && Enabled(After(events), Look(caller, now))
      modifies this`events
      ensures Valid() && events == old(events) + [Look(caller, now)]
      ensures accessToken == old(accessToken) && expiresAt == old(expiresAt)
      ensures token == if accessToken != "" && now < expiresAt then Some(accessToken) else None
    {
      LegalSnoc(events, Look(caller, now));
      events := events + [Look(caller, now)];
      token := if accessToken != "" && now < expiresAt then Some(accessToken) else None;
    }

    /** What happens under the write lock: a second look at `now` and, if it must, a request whose answer arrives at
        `arrival`. */
    method RefreshToken(ghost caller: nat, now: int, answer: Answer, arrival: int) returns (token: Option<string>)
      requires Valid() && Enabled(After(events), Recheck(caller, now)) && now <= arrival
      modifies this
      ensures Valid()
      ensures Hit(old(State()), now) ==>
                && token == Some(old(accessToken)) && State() == old(State())
                && events == old(events) + [Recheck(caller, now)]
      ensures !Hit(old(State()), now) ==>
                && token == (if answer.Failed? then None else Some(answer.token))
                && State() == Settle(old(State()), answer, arrival)
                && (answer.Failed? ==> accessToken == old(accessToken) && expiresAt == old(expiresAt))
                && (answer.Granted? ==>
                      accessToken == answer.token && expiresAt == arrival + (answer.expiresIn - 60) * 1_000_000_000)
                && events == old(events) + [Recheck(caller, now)] + [Answered(caller, arrival, answer)]
    {
      LegalSnoc(events, Recheck(caller, now));
      events := events + [Recheck(caller, now)];
      if accessToken != "" && now < expiresAt {
        return Some(accessToken);
      }
      LegalSnoc(events, Answered(caller, arrival, answer));
      events := events + [Answered(caller, arrival, answer)];
      match answer {
        case Failed =>
          return None;
        case Granted(granted, expiresIn) =>
          accessToken := granted;
          expiresAt := arrival + (expiresIn - MARGIN) * SECOND;
          return Some(accessToken);
      }
    }

    /** A call that no other comes between: the look at the cache at `now` and, without a hit, the refresh. */
    method GetToken(ghost caller: nat, now: int, recheck: int, answer: Answer, arrival: int) returns (token: Option<string>)
      requires Valid() && Enabled(After(events), Look(caller, now)) && now <= recheck <= arrival
      modifies this
      ensures Valid()
      ensures Hit(old(State()), now) ==> token == Some(old(accessToken)) && State() == old(State())
      ensures !Hit(old(State()), now) && Hit(old(State()), recheck) ==>
                token == Some(old(accessToken)) && State() == old(State())
      ensures !Hit(old(State()), now) && !Hit(old(State()), recheck) ==>
                && State() == Settle(old(State()), answer, arrival)
                && token == if answer.Failed? then None else Some(answer.token)
    {
      LegalSnoc(events, Look(caller, now));
      token := CachedToken(caller, now);
      if token == None {
        token := RefreshToken(caller, recheck, answer, arrival);
      }
    }
  }

  lemma LegalSnoc(events: seq<Event>, e: Event)
    requires Legal(events) && Enabled(After(events), e)
    ensures Legal(events + [e]) && After(events + [e]) == Next(After(events), e)
  {
    assert (events + [e])[..|events|] == events;
  }
}
