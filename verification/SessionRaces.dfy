/** Calls to the verification service that overlap. What a call reads of a session never changes after creation,
    but the status that it decides on lands later, after any number of other calls. */
module SessionRaces {
  import opened Options
  import opened SessionRuns
  import OtpRuns

  /** A status on its way to the session store. */
  datatype Write = Write(id: string, status: Status)

  datatype Event =
    | Called(call: SessionRuns.Event)
    | Landed(write: Write)

  datatype RaceState<Id> = RaceState(now: State<Id>, pending: multiset<Write>)

  /** The status that a call decides on for the session it names, if any. */
  function Decides<Id(==)>(s: State<Id>, e: SessionRuns.Event): Option<Status>
    requires Enabled(s, e)
  {
    if !Authorised(s.sessions, e.tenant, e.id) then None
    else
      var session := s.sessions[e.id];
      match e
      case Silent(_, _, at, supported, answer) =>
        if at > session.expiresAt then Some(Expired)
        else if supported && answer == Answer("verified") then Some(Verified)
        else None
      case CheckOTP(_, _, _, _, order, _) =>
        if OtpRuns.Verify(s.otp, order, AsCheck(session.phone, e)).0.Some? then Some(Verified) else None
      case _ => None
  }

  function Writes<Id(==)>(s: State<Id>, e: SessionRuns.Event): multiset<Write>
    requires Enabled(s, e)
  {
    var d := Decides(s, e);
    if d.Some? then multiset{Write(e.id, d.value)} else multiset{}
  }

  /** What a call does at once: it stores a new session, and it changes the codes. */
  function Begin<Id(==)>(s: State<Id>, e: SessionRuns.Event): (t: State<Id>)
    requires Enabled(s, e)
    ensures OtpRuns.WellFormed(t.otp)
  {
    if e.Create? then Next(s, e) else Next(s, e).(sessions := s.sessions)
  }

  predicate Possible<Id(==)>(r: RaceState<Id>, e: Event) {
    match e
    case Called(call) => Enabled(r.now, call)
    case Landed(w) => w in r.pending && w.id in r.now.sessions
  }

  function Step<Id(==)>(r: RaceState<Id>, e: Event): (t: RaceState<Id>)
    requires OtpRuns.WellFormed(r.now.otp) && Possible(r, e)
    ensures OtpRuns.WellFormed(t.now.otp)
  {
    match e
    case Called(call) => RaceState(Begin(r.now, call), r.pending + Writes(r.now, call))
    case Landed(w) =>
      RaceState(r.now.(sessions := Mark(r.now.sessions, w.id, w.status)), r.pending - multiset{w})
  }

  predicate Runs<Id(==)>(start: OtpRuns.Router<Id>, events: seq<Event>)
    requires OtpRuns.WellFormed(start)
    decreases |events|, 0
  {
    events == [] ||
    (Runs(start, events[..|events| - 1]) && Possible(Racing(start, events[..|events| - 1]), events[|events| - 1]))
  }

  function Racing<Id(==)>(start: OtpRuns.Router<Id>, events: seq<Event>): (r: RaceState<Id>)
    requires OtpRuns.WellFormed(start) && Runs(start, events)
    ensures OtpRuns.WellFormed(r.now.otp)
    decreases |events|, 1
  {
    if events == [] then RaceState(State(map[], start), multiset{})
    else Step(Racing(start, events[..|events| - 1]), events[|events| - 1])
  }

  /** The calls of a run, in the order in which they were made. */
  function Calls(events: seq<Event>): seq<SessionRuns.Event> {
    if events == [] then []
    else
      Calls(events[..|events| - 1]) + match events[|events| - 1] case Called(call) => [call] case Landed(_) => []
  }

  // ----- Overlapping calls and calls one by one -----

  /** A status that lands at once makes the call what it is when no other overlaps it. */
  lemma LandingAtOnceIsNext<Id>(s: State<Id>, e: SessionRuns.Event)
    requires Enabled(s, e)
    ensures match Decides(s, e)
            case None => Begin(s, e) == Next(s, e)
            case Some(status) =>
              e.id in s.sessions && Begin(s, e).(sessions := Mark(s.sessions, e.id, status)) == Next(s, e)
  {
  }

  predicate SameButStatus(a: map<string, Session>, b: map<string, Session>) {
    a.Keys == b.Keys && forall id | id in a :: a[id].(status := b[id].status) == b[id]
  }

  lemma StatusIsNotRead<Id>(s: State<Id>, t: State<Id>, e: SessionRuns.Event)
    requires s.otp == t.otp && SameButStatus(s.sessions, t.sessions) && Enabled(t, e)
    ensures Enabled(s, e) && Decides(s, e) == Decides(t, e)
    ensures Next(s, e).otp == Begin(t, e).otp && SameButStatus(Next(s, e).sessions, Begin(t, e).sessions)
  {
  }

  /** However calls overlap, the codes and everything of the sessions but the status are those of the same calls
      made one by one. */
  lemma {:induction false} OnlyStatusesRace<Id>(start: OtpRuns.Router<Id>, events: seq<Event>)
    requires OtpRuns.WellFormed(start) && Runs(start, events)
    ensures Legal(start, Calls(events))
    ensures After(start, Calls(events)).otp == Racing(start, events).now.otp
    ensures SameButStatus(After(start, Calls(events)).sessions, Racing(start, events).now.sessions)
  {
    if events != [] {
      var (init, e) := (events[..|events| - 1], events[|events| - 1]);
      OnlyStatusesRace(start, init);
      if e.Called? {
        StatusIsNotRead(After(start, Calls(init)), Racing(start, init).now, e.call);
        assert Calls(events)[..|Calls(events)| - 1] == Calls(init);
      } else {
        assert Calls(events) == Calls(init);
      }
    }
  }

  // ----- Every write is decided by one call and lands once -----

  function Lands(e: Event): multiset<Write> {
    if e.Landed? then multiset{e.write} else multiset{}
  }

  function LandedWrites(events: seq<Event>): multiset<Write> {
    if events == [] then multiset{} else LandedWrites(events[..|events| - 1]) + Lands(events[|events| - 1])
  }

  function Decided<Id(==)>(start: OtpRuns.Router<Id>, calls: seq<SessionRuns.Event>): multiset<Write>
    requires OtpRuns.WellFormed(start) && Legal(start, calls)
  {
    if calls == [] then multiset{}
    else
      var init := calls[..|calls| - 1];
      Decided(start, init) + Writes(After(start, init), calls[|calls| - 1])
  }

  lemma StepKeepsWrites<Id>(r: RaceState<Id>, e: Event, landed: multiset<Write>, decided: multiset<Write>)
    requires OtpRuns.WellFormed(r.now.otp) && Possible(r, e) && landed + r.pending == decided
    ensures landed + Lands(e) + Step(r, e).pending ==
            decided + if e.Called? then Writes(r.now, e.call) else multiset{}
  {
  }

  /** Conservation: landed and pending writes together are exactly the decisions of the calls. */
  lemma {:induction false} WritesAreDecisions<Id>(start: OtpRuns.Router<Id>, events: seq<Event>)
    requires OtpRuns.WellFormed(start) && Runs(start, events) && Legal(start, Calls(events))
    ensures LandedWrites(events) + Racing(start, events).pending == Decided(start, Calls(events))
  {
    if events != [] {
      var (init, e) := (events[..|events| - 1], events[|events| - 1]);
      OnlyStatusesRace(start, init);
      WritesAreDecisions(start, init);
      StepKeepsWrites(Racing(start, init), e, LandedWrites(init), Decided(start, Calls(init)));
      if e.Called? {
        StatusIsNotRead(After(start, Calls(init)), Racing(start, init).now, e.call);
        assert Calls(events)[..|Calls(events)| - 1] == Calls(init);
      } else {
        assert Calls(events) == Calls(init);
      }
    }
  }

  /** A pending write always finds its session. */
  lemma {:induction false} PendingCanLand<Id>(start: OtpRuns.Router<Id>, events: seq<Event>, w: Write)
    requires OtpRuns.WellFormed(start) && Runs(start, events) && w in Racing(start, events).pending
    ensures Possible(Racing(start, events), Landed(w))
  {
    var (init, e) := (events[..|events| - 1], events[|events| - 1]);
    if w in Racing(start, init).pending {
      PendingCanLand(start, init, w);
    }
  }

  /** The last status of this session to land. */
  function LastLanded(events: seq<Event>, id: string): Option<Status> {
    if events == [] then None
    else
      match events[|events| - 1]
      case Landed(w) =>
        if w.id == id then Some(w.status) else LastLanded(events[..|events| - 1], id)
      case Called(_) => LastLanded(events[..|events| - 1], id)
  }

  function StatusFrom(landed: Option<Status>): Status {
    if landed.Some? then landed.value else Pending
  }

  /** The stored status is the last landed one; a session without one is pending or not created yet. */
  predicate Shows(sessions: map<string, Session>, id: string, landed: Option<Status>) {
    if id in sessions then sessions[id].status == StatusFrom(landed) else landed.None?
  }

  lemma StepShows<Id>(r: RaceState<Id>, e: Event, id: string, landed: Option<Status>)
    requires OtpRuns.WellFormed(r.now.otp) && Possible(r, e) && Shows(r.now.sessions, id, landed)
    ensures Shows(Step(r, e).now.sessions, id,
                  if e.Landed? && e.write.id == id then Some(e.write.status) else landed)
  {
  }

  lemma {:induction false} StatusIsLastLanded<Id>(start: OtpRuns.Router<Id>, events: seq<Event>, id: string)
    requires OtpRuns.WellFormed(start) && Runs(start, events)
    ensures Shows(Racing(start, events).now.sessions, id, LastLanded(events, id))
  {
    if events != [] {
      var (init, e) := (events[..|events| - 1], events[|events| - 1]);
      StatusIsLastLanded(start, init, id);
      StepShows(Racing(start, init), e, id, LastLanded(init, id));
    }
  }

  lemma {:induction false} LastLandedIsLanded(events: seq<Event>, id: string)
    ensures var last := LastLanded(events, id);
            if last.Some? then Write(id, last.value) in LandedWrites(events)
            else forall status :: Write(id, status) !in LandedWrites(events)
  {
    if events != [] {
      LastLandedIsLanded(events[..|events| - 1], id);
    }
  }

  // ----- What a status proves -----

  /** Some call of the run had this session confirmed, by the telco in time or by a code sent before. */
  predicate EverConfirmed<Id(==)>(start: OtpRuns.Router<Id>, calls: seq<SessionRuns.Event>, id: string)
    requires OtpRuns.WellFormed(start) && Legal(start, calls)
  {
    calls != [] &&
    var (init, e) := (calls[..|calls| - 1], calls[|calls| - 1]);
    || TelcoConfirmed(After(start, init), e, id)
    || CodeAccepted(start, init, e, id)
    || EverConfirmed(start, init, id)
  }

  predicate EverLapsed<Id(==)>(start: OtpRuns.Router<Id>, calls: seq<SessionRuns.Event>, id: string)
    requires OtpRuns.WellFormed(start) && Legal(start, calls)
  {
    calls != [] &&
    var (init, e) := (calls[..|calls| - 1], calls[|calls| - 1]);
    Lapsed(After(start, init), e, id) || EverLapsed(start, init, id)
  }

  /** Each decision of a call has its reason, and each reason makes a call decide. */
  lemma DecisionHasReason<Id>(start: OtpRuns.Router<Id>, calls: seq<SessionRuns.Event>, e: SessionRuns.Event, id: string)
    requires OtpRuns.Initial(start) && Legal(start, calls) && Enabled(After(start, calls), e)
    ensures var s := After(start, calls);
            var decided := if e.id == id then Decides(s, e) else None;
            && (decided == Some(Verified) <==> TelcoConfirmed(s, e, id) || CodeAccepted(start, calls, e, id))
            && (decided == Some(Expired) <==> Lapsed(s, e, id))
            && decided != Some(Pending) && decided != Some(Failed)
  {
    var s := After(start, calls);
    if id in s.sessions {
      ExpiryIsSet(start, calls, id);
    }
    if e.CheckOTP? && e.id == id && Authorised(s.sessions, e.tenant, id) {
      if OtpRuns.Verify(s.otp, e.order, AsCheck(s.sessions[id].phone, e)).0.Some? {
        AcceptanceWasSent(start, calls, e);
      }
    }
  }

  lemma {:induction false} DecisionsAreEarned<Id>(start: OtpRuns.Router<Id>, calls: seq<SessionRuns.Event>, id: string)
    requires OtpRuns.Initial(start) && Legal(start, calls)
    ensures Write(id, Verified) in Decided(start, calls) <==> EverConfirmed(start, calls, id)
    ensures Write(id, Expired) in Decided(start, calls) <==> EverLapsed(start, calls, id)
    ensures Write(id, Pending) !in Decided(start, calls) && Write(id, Failed) !in Decided(start, calls)
  {
    if calls != [] {
      var (init, e) := (calls[..|calls| - 1], calls[|calls| - 1]);
      DecisionsAreEarned(start, init, id);
      DecisionHasReason(start, init, e, id);
    }
  }

  /** Provenance however calls overlap: a verified session was confirmed, and an expired one was found expired. */
  lemma VerifiedWasConfirmed<Id>(start: OtpRuns.Router<Id>, events: seq<Event>, id: string)
    requires OtpRuns.Initial(start) && Runs(start, events) && id in Racing(start, events).now.sessions
    ensures Legal(start, Calls(events))
    ensures match Racing(start, events).now.sessions[id].status
            case Verified => EverConfirmed(start, Calls(events), id)
            case Expired => EverLapsed(start, Calls(events), id)
            case Pending => true
            case Failed => false
  {
    OnlyStatusesRace(start, events);
    StatusIsLastLanded(start, events, id);
    LastLandedIsLanded(events, id);
    WritesAreDecisions(start, events);
    DecisionsAreEarned(start, Calls(events), id);
  }

  // ----- How much the overlap can change -----

  /** These calls can overlap so that, when all of their writes have landed, the session has this status. */
  ghost predicate CanEnd<Id>(start: OtpRuns.Router<Id>, calls: seq<SessionRuns.Event>, id: string, status: Status)
    requires OtpRuns.WellFormed(start)
  {
    exists events: seq<Event> ::
      && Calls(events) == calls && Runs(start, events) && Racing(start, events).pending == multiset{}
      && id in Racing(start, events).now.sessions && Racing(start, events).now.sessions[id].status == status
  }

  /** The calls one after the other, with no write landed yet. */
  lemma {:induction false} CallsCanBePending<Id>(start: OtpRuns.Router<Id>, calls: seq<SessionRuns.Event>) returns (events: seq<Event>)
    requires OtpRuns.WellFormed(start) && Legal(start, calls)
    ensures Runs(start, events) && Calls(events) == calls && LandedWrites(events) == multiset{}
  {
    events := [];
    if calls != [] {
      var (init, e) := (calls[..|calls| - 1], calls[|calls| - 1]);
      var before := CallsCanBePending(start, init);
      events := before + [Called(e)];
      assert events[..|events| - 1] == before;
      OnlyStatusesRace(start, before);
    }
  }

  lemma CanLand<Id>(start: OtpRuns.Router<Id>, events: seq<Event>, w: Write)
    requires OtpRuns.WellFormed(start) && Runs(start, events) && w in Racing(start, events).pending
    ensures var more := events + [Landed(w)];
            && Runs(start, more) && Calls(more) == Calls(events)
            && Racing(start, more).pending == Racing(start, events).pending - multiset{w}
            && LastLanded(more, w.id) == Some(w.status)
  {
    PendingCanLand(start, events, w);
    assert (events + [Landed(w)])[..|events|] == events;
  }

  lemma {:induction false} AllButCanLand<Id>(start: OtpRuns.Router<Id>, events: seq<Event>, keep: multiset<Write>)
    returns (more: seq<Event>)
    requires OtpRuns.WellFormed(start) && Runs(start, events) && keep <= Racing(start, events).pending
    ensures Runs(start, more) && Calls(more) == Calls(events) && Racing(start, more).pending == keep
    decreases |Racing(start, events).pending|
  {
    more := events;
    var rest := Racing(start, events).pending - keep;
    if rest != multiset{} {
      var w :| w in rest;
      CanLand(start, events, w);
      more := AllButCanLand(start, events + [Landed(w)], keep);
    }
  }

  predicate Earned<Id(==)>(start: OtpRuns.Router<Id>, calls: seq<SessionRuns.Event>, id: string, status: Status)
    requires OtpRuns.WellFormed(start) && Legal(start, calls)
  {
    match status
    case Verified => EverConfirmed(start, calls, id)
    case Expired => EverLapsed(start, calls, id)
    case Pending => !EverConfirmed(start, calls, id) && !EverLapsed(start, calls, id)
    case Failed => false
  }

  /** Once every write of a run has landed, the status of a session is one that its calls earned. */
  lemma QuietStatusIsEarned<Id>(start: OtpRuns.Router<Id>, events: seq<Event>, id: string)
    requires OtpRuns.Initial(start) && Runs(start, events) && Legal(start, Calls(events))
    requires Racing(start, events).pending == multiset{} && id in Racing(start, events).now.sessions
    ensures Earned(start, Calls(events), id, Racing(start, events).now.sessions[id].status)
  {
    DecisionsAreEarned(start, Calls(events), id);
    WritesAreDecisions(start, events);
    StatusIsLastLanded(start, events, id);
    LastLandedIsLanded(events, id);
  }

  /** The write that gives a session this status; a pending session needs none. */
  function LastWrite(id: string, status: Status): multiset<Write> {
    if status == Pending then multiset{} else multiset{Write(id, status)}
  }

  /** All writes have landed but one that some call has earned. */
  lemma AllButLastLanded<Id>(start: OtpRuns.Router<Id>, calls: seq<SessionRuns.Event>, id: string, status: Status)
    returns (events: seq<Event>)
    requires OtpRuns.Initial(start) && Legal(start, calls) && Earned(start, calls, id, status)
    ensures Runs(start, events) && Calls(events) == calls && Racing(start, events).pending == LastWrite(id, status)
    ensures LandedWrites(events) <= Decided(start, calls)
  {
    DecisionsAreEarned(start, calls, id);
    events := CallsCanBePending(start, calls);
    WritesAreDecisions(start, events);
    events := AllButCanLand(start, events, LastWrite(id, status));
    WritesAreDecisions(start, events);
  }

  lemma NothingEarnedNothingLanded<Id>(start: OtpRuns.Router<Id>, calls: seq<SessionRuns.Event>, id: string, events: seq<Event>)
    requires OtpRuns.Initial(start) && Legal(start, calls) && Earned(start, calls, id, Pending)
    requires LandedWrites(events) <= Decided(start, calls)
    ensures LastLanded(events, id).None?
  {
    DecisionsAreEarned(start, calls, id);
    LastLandedIsLanded(events, id);
    var decided := Decided(start, calls);
    assert forall w | w in LandedWrites(events) :: w in decided;
    forall status: Status ensures Write(id, status) !in decided {
      match status
      case Verified =>
      case Expired =>
      case Pending =>
      case Failed =>
    }
  }

  /** Any status that the calls earned can be the one that lands last. */
  lemma EarnedCanLandLast<Id>(start: OtpRuns.Router<Id>, calls: seq<SessionRuns.Event>, id: string, status: Status)
    returns (events: seq<Event>)
    requires OtpRuns.Initial(start) && Legal(start, calls) && id in After(start, calls).sessions
    requires Earned(start, calls, id, status)
    ensures Calls(events) == calls && Runs(start, events) && Racing(start, events).pending == multiset{}
    ensures id in Racing(start, events).now.sessions && Racing(start, events).now.sessions[id].status == status
  {
    events := AllButLastLanded(start, calls, id, status);
    if status != Pending {
      CanLand(start, events, Write(id, status));
      events := events + [Landed(Write(id, status))];
    } else {
      NothingEarnedNothingLanded(start, calls, id, events);
    }
    OnlyStatusesRace(start, events);
    StatusIsLastLanded(start, events, id);
  }

  /** When all writes have landed, a session can have exactly the statuses that its calls earned: the overlap
      matters only for a session that was both confirmed and found expired, and then it can end either way. */
  lemma EndsExactlyAsEarned<Id>(start: OtpRuns.Router<Id>, calls: seq<SessionRuns.Event>, id: string, status: Status)
    requires OtpRuns.Initial(start) && Legal(start, calls) && id in After(start, calls).sessions
    ensures CanEnd(start, calls, id, status) <==> Earned(start, calls, id, status)
  {
    if CanEnd(start, calls, id, status) {
      var events: seq<Event> :|
        && Calls(events) == calls && Runs(start, events) && Racing(start, events).pending == multiset{}
        && id in Racing(start, events).now.sessions && Racing(start, events).now.sessions[id].status == status;
      QuietStatusIsEarned(start, events, id);
    }
    if Earned(start, calls, id, status) {
      var events := EarnedCanLandLast(start, calls, id, status);
    }
  }
}
