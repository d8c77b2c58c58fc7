/** Verification sessions over whole runs: what stays fixed, how the status moves, and what "verified" proves. */
module SessionRuns {
  import OtpRuns

  datatype Status = Pending | Verified | Failed | Expired

  datatype Session = Session(tenant: string, phone: string, country: string, status: Status, createdAt: int, expiresAt: int)

  /** 10 minutes, in nanoseconds. */
  const LIFETIME := 600_000_000_000

  datatype TelcoAnswer = Error | Answer(status: string)

  /** One call to the service by a tenant. `phone` is the phone hash; the telco and OTP answers are inputs. */
  datatype Event =
    | Create(tenant: string, id: string, phone: string, country: string, at: int)
    | Silent(tenant: string, id: string, at: int, supported: bool, answer: TelcoAnswer)
    | SendOTP(tenant: string, id: string, channel: string, code: string, at: int)
    | CheckOTP(tenant: string, id: string, code: string, at: int, order: seq<string>, answers: map<string, bool>)

  datatype State<Id> = State(sessions: map<string, Session>, otp: OtpRuns.Router<Id>)

  /** The session exists and belongs to the calling tenant. */
  predicate Authorised(sessions: map<string, Session>, tenant: string, id: string) {
    id in sessions && sessions[id].tenant == tenant
  }

  function Mark(sessions: map<string, Session>, id: string, status: Status): map<string, Session>
    requires id in sessions
  {
    sessions[id := sessions[id].(status := status)]
  }

  function AsCheck(phone: string, e: Event): OtpRuns.Check
    requires e.CheckOTP?
  {
    OtpRuns.Check(phone, e.code, e.at, e.answers)
  }

  predicate Enabled<Id>(s: State<Id>, e: Event) {
    && OtpRuns.WellFormed(s.otp)
    && (e.Create? ==> e.id !in s.sessions)
    && (e.CheckOTP? ==> OtpRuns.Covers(e.order, s.otp))
  }

  function Next<Id(==)>(s: State<Id>, e: Event): (t: State<Id>)
    requires Enabled(s, e)
    ensures OtpRuns.WellFormed(t.otp) && t.otp.channels == s.otp.channels && t.otp.stores.Keys == s.otp.stores.Keys
  {
    if e.Create? then
      s.(sessions := s.sessions[e.id := Session(e.tenant, e.phone, e.country, Pending, e.at, e.at + LIFETIME)])
    else if !Authorised(s.sessions, e.tenant, e.id) then s
    else
      var session := s.sessions[e.id];
      match e
      case Silent(_, id, at, supported, answer) =>
        if at > session.expiresAt then s.(sessions := Mark(s.sessions, id, Expired))
        else if supported && answer == Answer("verified") then s.(sessions := Mark(s.sessions, id, Verified))
        else s
      case SendOTP(_, _, channel, code, at) =>
        s.(otp := OtpRuns.Send(s.otp, channel, session.phone, code, at))
      case CheckOTP(_, id, _, _, order, _) =>
        var (winner, otp) := OtpRuns.Verify(s.otp, order, AsCheck(session.phone, e));
        State(if winner.Some? then Mark(s.sessions, id, Verified) else s.sessions, otp)
  }

  predicate Legal<Id(==)>(start: OtpRuns.Router<Id>, events: seq<Event>)
    requires OtpRuns.WellFormed(start)
    decreases |events|, 0
  {
    events == [] ||
    (Legal(start, events[..|events| - 1]) && Enabled(After(start, events[..|events| - 1]), events[|events| - 1]))
  }

  function After<Id(==)>(start: OtpRuns.Router<Id>, events: seq<Event>): (s: State<Id>)
    requires OtpRuns.WellFormed(start) && Legal(start, events)
    ensures OtpRuns.WellFormed(s.otp) && s.otp.channels == start.channels && s.otp.stores.Keys == start.stores.Keys
    decreases |events|, 1
  {
    if events == [] then State(map[], start) else Next(After(start, events[..|events| - 1]), events[|events| - 1])
  }

  lemma RunSnoc<Id>(start: OtpRuns.Router<Id>, events: seq<Event>, e: Event)
    requires OtpRuns.WellFormed(start) && Legal(start, events) && Enabled(After(start, events), e)
    ensures Legal(start, events + [e]) && After(start, events + [e]) == Next(After(start, events), e)
  {
    assert (events + [e])[..|events|] == events;
  }

  // ----- One call -----

  /** Everything but the status is fixed, and the status moves to verified or expired only. */
  predicate Evolves(a: Session, b: Session) {
    a == b || b == a.(status := Verified) || b == a.(status := Expired)
  }

  /** A call by another tenant, or on an unknown session, changes neither sessions nor codes. */
  lemma OtherTenantsChangeNothing<Id>(s: State<Id>, e: Event)
    requires Enabled(s, e) && !e.Create? && !Authorised(s.sessions, e.tenant, e.id)
    ensures Next(s, e) == s
  {
  }

  /** Sessions are never lost, and a call touches at most the session it names. */
  lemma StepEvolves<Id>(s: State<Id>, e: Event, id: string)
    requires Enabled(s, e) && id in s.sessions
    ensures id in Next(s, e).sessions && Evolves(s.sessions[id], Next(s, e).sessions[id])
    ensures e.id != id ==> Next(s, e).sessions[id] == s.sessions[id]
  {
  }

  // ----- Runs -----

  lemma {:induction false} LegalPrefix<Id>(start: OtpRuns.Router<Id>, events: seq<Event>, n: nat)
    requires OtpRuns.WellFormed(start) && Legal(start, events) && n <= |events|
    ensures Legal(start, events[..n])
  {
    if n < |events| {
      LegalPrefix(start, events[..|events| - 1], n);
      assert events[..|events| - 1][..n] == events[..n];
    } else {
      assert events[..n] == events;
    }
  }

  /** Between any two moments of a run, tenant, phone, country, creation and expiry of a session are the same,
      and its status differs only if it is now verified or expired. */
  lemma {:induction false} RunsEvolve<Id>(start: OtpRuns.Router<Id>, events: seq<Event>, n: nat, id: string)
    requires OtpRuns.WellFormed(start) && Legal(start, events) && n <= |events| && Legal(start, events[..n])
    requires id in After(start, events[..n]).sessions
    ensures id in After(start, events).sessions
    ensures Evolves(After(start, events[..n]).sessions[id], After(start, events).sessions[id])
  {
    if n < |events| {
      var init := events[..|events| - 1];
      assert init[..n] == events[..n];
      RunsEvolve(start, init, n, id);
      StepEvolves(After(start, init), events[|events| - 1], id);
    } else {
      assert events[..n] == events;
    }
  }

  lemma {:induction false} ExpiryIsSet<Id>(start: OtpRuns.Router<Id>, events: seq<Event>, id: string)
    requires OtpRuns.WellFormed(start) && Legal(start, events) && id in After(start, events).sessions
    ensures var s := After(start, events).sessions[id]; s.expiresAt == s.createdAt + 600_000_000_000
  {
    var (init, e) := (events[..|events| - 1], events[|events| - 1]);
    if id in After(start, init).sessions {
      ExpiryIsSet(start, init, id);
      StepEvolves(After(start, init), e, id);
    }
  }

  // ----- What "verified" proves -----

  /** The OTP traffic of a run: the sends and checks that reached the OTP router. */
  function Traffic<Id(==)>(start: OtpRuns.Router<Id>, events: seq<Event>): seq<OtpRuns.Event>
    requires OtpRuns.WellFormed(start) && Legal(start, events)
  {
    if events == [] then []
    else
      var (init, e) := (events[..|events| - 1], events[|events| - 1]);
      Traffic(start, init) + Reaches(After(start, init), e)
  }

  function Reaches<Id>(s: State<Id>, e: Event): seq<OtpRuns.Event> {
    if !Authorised(s.sessions, e.tenant, e.id) then []
    else
      var phone := s.sessions[e.id].phone;
      match e
      case SendOTP(_, _, channel, code, at) => [OtpRuns.Sending(channel, phone, code, at)]
      case CheckOTP(_, _, _, _, order, _) => [OtpRuns.Checking(AsCheck(phone, e), order)]
      case _ => []
  }

  lemma {:induction false} TrafficDrivesOtp<Id>(start: OtpRuns.Router<Id>, events: seq<Event>)
    requires OtpRuns.WellFormed(start) && Legal(start, events)
    ensures OtpRuns.Legal(start, Traffic(start, events))
    ensures After(start, events).otp == OtpRuns.After(start, Traffic(start, events))
  {
    if events != [] {
      var (init, e) := (events[..|events| - 1], events[|events| - 1]);
      TrafficDrivesOtp(start, init);
      TrafficStep(start, Traffic(start, init), After(start, init), e);
    }
  }

  lemma TrafficStep<Id>(start: OtpRuns.Router<Id>, traffic: seq<OtpRuns.Event>, s: State<Id>, e: Event)
    requires OtpRuns.WellFormed(start) && OtpRuns.Legal(start, traffic) && Enabled(s, e)
    requires s.otp == OtpRuns.After(start, traffic)
    ensures OtpRuns.Legal(start, traffic + Reaches(s, e))
    ensures Next(s, e).otp == OtpRuns.After(start, traffic + Reaches(s, e))
  {
    var reached := Reaches(s, e);
    var all := traffic + reached;
    if reached != [] {
      assert all[..|all| - 1] == traffic && all[|all| - 1] == reached[0];
    } else {
      assert all == traffic;
    }
  }

  /** The telco confirmed this very session, on a call made by its tenant no later than 10 minutes after it was
      created. */
  predicate TelcoConfirmed<Id>(s: State<Id>, e: Event, id: string) {
    && e.Silent? && e.id == id && Authorised(s.sessions, e.tenant, id)
    && e.supported && e.answer == Answer("verified") && e.at <= s.sessions[id].createdAt + LIFETIME
  }

  /** A code was accepted for the phone of this session, by an upstream service or by a provider that had sent
      one to this phone. */
  predicate CodeAccepted<Id(==)>(start: OtpRuns.Router<Id>, events: seq<Event>, e: Event, id: string)
    requires OtpRuns.WellFormed(start) && Legal(start, events) && Enabled(After(start, events), e)
  {
    var s := After(start, events);
    && e.CheckOTP? && e.id == id && Authorised(s.sessions, e.tenant, id)
    && var w := OtpRuns.Winner(s.otp, OtpRuns.Checking(AsCheck(s.sessions[id].phone, e), e.order));
       && w.Some?
       && (start.stores[w.value].Upstream? || SentEarlier(start, events, s.sessions[id].phone))
  }

  /** A tenant has had a code sent to this phone. */
  predicate SentEarlier<Id(==)>(start: OtpRuns.Router<Id>, events: seq<Event>, phone: string)
    requires OtpRuns.WellFormed(start) && Legal(start, events)
  {
    events != [] &&
    var (init, e) := (events[..|events| - 1], events[|events| - 1]);
    var s := After(start, init);
    || (e.SendOTP? && Authorised(s.sessions, e.tenant, e.id) && s.sessions[e.id].phone == phone)
    || SentEarlier(start, init, phone)
  }

  /** A silent verification by the tenant came too late for this session. */
  predicate Lapsed<Id>(s: State<Id>, e: Event, id: string) {
    e.Silent? && e.id == id && Authorised(s.sessions, e.tenant, id) && e.at > s.sessions[id].createdAt + LIFETIME
  }

  /** At some call of the run the session was confirmed by the telco or by a code, and it has not lapsed since. */
  predicate Confirmed<Id(==)>(start: OtpRuns.Router<Id>, events: seq<Event>, id: string)
    requires OtpRuns.WellFormed(start) && Legal(start, events)
  {
    events != [] &&
    var (init, e) := (events[..|events| - 1], events[|events| - 1]);
    || TelcoConfirmed(After(start, init), e, id)
    || CodeAccepted(start, init, e, id)
    || (Confirmed(start, init, id) && !Lapsed(After(start, init), e, id))
  }

  lemma {:induction false} LiveWasSent<Id>(start: OtpRuns.Router<Id>, events: seq<Event>, provider: Id, phone: string)
    requires OtpRuns.WellFormed(start) && Legal(start, events)
    requires OtpRuns.Legal(start, Traffic(start, events))
    requires OtpRuns.Live(start, Traffic(start, events), provider, phone).Some?
    ensures SentEarlier(start, events, phone)
  {
    if events != [] {
      var (init, e) := (events[..|events| - 1], events[|events| - 1]);
      TrafficDrivesOtp(start, init);
      var reached := Reaches(After(start, init), e);
      if reached != [] {
        var all := Traffic(start, init) + reached;
        assert all[..|all| - 1] == Traffic(start, init);
        if !OtpRuns.SendsTo(start, reached[0], provider, phone) {
          LiveWasSent(start, init, provider, phone);
        }
      } else {
        assert Traffic(start, events) == Traffic(start, init);
        LiveWasSent(start, init, provider, phone);
      }
    }
  }

  lemma AcceptanceWasSent<Id>(start: OtpRuns.Router<Id>, events: seq<Event>, e: Event)
    requires OtpRuns.Initial(start) && Legal(start, events) && Enabled(After(start, events), e) && e.CheckOTP?
    requires Authorised(After(start, events).sessions, e.tenant, e.id)
    requires OtpRuns.Verify(After(start, events).otp, e.order, AsCheck(After(start, events).sessions[e.id].phone, e)).0.Some?
    ensures CodeAccepted(start, events, e, e.id)
  {
    var s := After(start, events);
    var phone := s.sessions[e.id].phone;
    var check := OtpRuns.Checking(AsCheck(phone, e), e.order);
    TrafficDrivesOtp(start, events);
    var w := OtpRuns.Winner(s.otp, check).value;
    if !start.stores[w].Upstream? {
      OtpRuns.SuccessSpendsTheLiveCode(start, Traffic(start, events), check, w);
      LiveWasSent(start, events, w, phone);
    }
  }

  predicate IsVerified<Id>(s: State<Id>, id: string) {
    id in s.sessions && s.sessions[id].status == Verified
  }

  /** One step towards or away from "verified". */
  lemma VerifiedStep<Id>(start: OtpRuns.Router<Id>, events: seq<Event>, e: Event, id: string)
    requires OtpRuns.Initial(start) && Legal(start, events) && Enabled(After(start, events), e)
    ensures var s := After(start, events);
            IsVerified(Next(s, e), id) <==>
            TelcoConfirmed(s, e, id) || CodeAccepted(start, events, e, id) || (IsVerified(s, id) && !Lapsed(s, e, id))
  {
    var s := After(start, events);
    if id in s.sessions {
      ExpiryIsSet(start, events, id);
    }
    if e.CheckOTP? && e.id == id && Authorised(s.sessions, e.tenant, id) {
      if OtpRuns.Verify(s.otp, e.order, AsCheck(s.sessions[id].phone, e)).0.Some? {
        AcceptanceWasSent(start, events, e);
      }
    }
  }

  /** Provenance over every run: a session is verified exactly when it was confirmed, by the telco on that session
      in time or by a code for its phone that had been sent before, and has not lapsed since. */
  lemma {:induction false} VerifiedExactlyWhenConfirmed<Id>(start: OtpRuns.Router<Id>, events: seq<Event>, id: string)
    requires OtpRuns.Initial(start) && Legal(start, events)
    ensures IsVerified(After(start, events), id) <==> Confirmed(start, events, id)
  {
    if events != [] {
      var (init, e) := (events[..|events| - 1], events[|events| - 1]);
      VerifiedExactlyWhenConfirmed(start, init, id);
      VerifiedStep(start, init, e, id);
    }
  }
}
