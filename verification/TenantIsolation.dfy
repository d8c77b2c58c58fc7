/** What the sessions of one tenant can depend on: the codes are kept by phone alone, so tenants are isolated exactly
    as far as their sessions are for different phones. */
module TenantIsolation {
  import opened SessionRuns
  import OtpRuns

  // ----- Unauthorised calls -----

  /** The calls of a run that were authorised where they were made, and the creations. */
  function Effective<Id(==)>(start: OtpRuns.Router<Id>, events: seq<Event>): seq<Event>
    requires OtpRuns.WellFormed(start) && Legal(start, events)
  {
    if events == [] then []
    else
      var (init, e) := (events[..|events| - 1], events[|events| - 1]);
      Effective(start, init) +
      if e.Create? || Authorised(After(start, init).sessions, e.tenant, e.id) then [e] else []
  }

  /** Leaving out every call by another tenant and on unknown sessions leaves the same sessions and codes. */
  lemma {:induction false} UnauthorisedCallsDoNotMatter<Id>(start: OtpRuns.Router<Id>, events: seq<Event>)
    requires OtpRuns.WellFormed(start) && Legal(start, events)
    ensures Legal(start, Effective(start, events))
    ensures After(start, Effective(start, events)) == After(start, events)
  {
    if events != [] {
      var (init, e) := (events[..|events| - 1], events[|events| - 1]);
      UnauthorisedCallsDoNotMatter(start, init);
      if e.Create? || Authorised(After(start, init).sessions, e.tenant, e.id) {
        RunSnoc(start, Effective(start, init), e);
      } else {
        OtherTenantsChangeNothing(After(start, init), e);
        assert Effective(start, events) == Effective(start, init);
      }
    }
  }

  // ----- Stores and routers that agree on some phones -----

  /** The two stores are of one kind and hold the same for this phone. */
  predicate SameFor(s: OtpRuns.Store, t: OtpRuns.Store, phone: string) {
    match (s, t)
    case (WhatsApp(e), WhatsApp(f)) => (phone in e <==> phone in f) && (phone in e ==> e[phone] == f[phone])
    case (Sandbox(e), Sandbox(f)) => (phone in e <==> phone in f) && (phone in e ==> e[phone] == f[phone])
    case (Upstream, Upstream) => true
    case _ => false
  }

  /** The two routers agree on every phone but the foreign ones. */
  ghost predicate Agree<Id>(r: OtpRuns.Router<Id>, t: OtpRuns.Router<Id>, foreign: set<string>) {
    && r.channels == t.channels && r.stores.Keys == t.stores.Keys
    && forall id, phone | id in r.stores && phone !in foreign :: SameFor(r.stores[id], t.stores[id], phone)
  }

  lemma SendAgrees<Id>(r: OtpRuns.Router<Id>, t: OtpRuns.Router<Id>, foreign: set<string>,
                       channel: string, phone: string, code: string, at: int)
    requires OtpRuns.WellFormed(r) && OtpRuns.WellFormed(t) && Agree(r, t, foreign)
    ensures Agree(OtpRuns.Send(r, channel, phone, code, at), OtpRuns.Send(t, channel, phone, code, at), foreign)
    ensures phone in foreign ==> Agree(OtpRuns.Send(r, channel, phone, code, at), t, foreign)
  {
  }

  lemma VisitAgrees<Id>(r: OtpRuns.Router<Id>, t: OtpRuns.Router<Id>, foreign: set<string>, channel: string, c: OtpRuns.Check)
    requires OtpRuns.WellFormed(r) && OtpRuns.WellFormed(t) && Agree(r, t, foreign) && channel in r.channels
    ensures c.phone !in foreign ==>
              && OtpRuns.ChannelAccepts(r, channel, c) == OtpRuns.ChannelAccepts(t, channel, c)
              && Agree(OtpRuns.Visit(r, channel, c), OtpRuns.Visit(t, channel, c), foreign)
    ensures c.phone in foreign ==> Agree(OtpRuns.Visit(r, channel, c), t, foreign)
  {
    assert c.phone !in foreign ==> SameFor(r.stores[r.channels[channel]], t.stores[r.channels[channel]], c.phone);
  }

  /** A verification for a phone on which the routers agree has the same outcome, and they agree afterwards. */
  lemma {:induction false} VerifyAgrees<Id>(r: OtpRuns.Router<Id>, t: OtpRuns.Router<Id>, foreign: set<string>,
                                            order: seq<string>, c: OtpRuns.Check)
    requires OtpRuns.WellFormed(r) && OtpRuns.WellFormed(t) && Agree(r, t, foreign)
    requires c.phone !in foreign && forall ch | ch in order :: ch in r.channels
    ensures OtpRuns.Verify(r, order, c).0 == OtpRuns.Verify(t, order, c).0
    ensures Agree(OtpRuns.Verify(r, order, c).1, OtpRuns.Verify(t, order, c).1, foreign)
    decreases |order|
  {
    if order != [] {
      VisitAgrees(r, t, foreign, order[0], c);
      if !OtpRuns.ChannelAccepts(r, order[0], c) {
        VerifyAgrees(OtpRuns.Visit(r, order[0], c), OtpRuns.Visit(t, order[0], c), foreign, order[1..], c);
      }
    }
  }

  /** A verification for a foreign phone goes unnoticed. */
  lemma {:induction false} ForeignVerifyAgrees<Id>(r: OtpRuns.Router<Id>, t: OtpRuns.Router<Id>, foreign: set<string>,
                                                   order: seq<string>, c: OtpRuns.Check)
    requires OtpRuns.WellFormed(r) && OtpRuns.WellFormed(t) && Agree(r, t, foreign)
    requires c.phone in foreign && forall ch | ch in order :: ch in r.channels
    ensures Agree(OtpRuns.Verify(r, order, c).1, t, foreign)
    decreases |order|
  {
    if order != [] {
      VisitAgrees(r, t, foreign, order[0], c);
      if !OtpRuns.ChannelAccepts(r, order[0], c) {
        ForeignVerifyAgrees(OtpRuns.Visit(r, order[0], c), t, foreign, order[1..], c);
      }
    }
  }

  // ----- Runs with and without the other tenants -----

  function Own(events: seq<Event>, tenant: string): seq<Event> {
    if events == [] then []
    else
      var (init, e) := (events[..|events| - 1], events[|events| - 1]);
      if e.tenant == tenant then Own(init, tenant) + [e] else Own(init, tenant)
  }

  function Of(sessions: map<string, Session>, tenant: string): map<string, Session> {
    map id | id in sessions && sessions[id].tenant == tenant :: sessions[id]
  }

  /** A session of another tenant is for the phone of a session of this one. */
  ghost predicate SharesPhone(sessions: map<string, Session>, tenant: string) {
    exists i, j | i in sessions && j in sessions ::
      sessions[i].tenant == tenant && sessions[j].tenant != tenant && sessions[i].phone == sessions[j].phone
  }

  /** The foreign phones are those of the other tenants, and none of this one. */
  predicate Separates(sessions: map<string, Session>, tenant: string, foreign: set<string>) {
    forall id | id in sessions :: sessions[id].tenant == tenant <==> sessions[id].phone !in foreign
  }

  /** `t` is `s` without the sessions of the other tenants, and holds the same codes for phones that are not theirs. */
  ghost predicate Reduces<Id>(s: State<Id>, t: State<Id>, tenant: string, foreign: set<string>) {
    OtpRuns.WellFormed(s.otp) && OtpRuns.WellFormed(t.otp) && Agree(s.otp, t.otp, foreign) &&
    t.sessions == Of(s.sessions, tenant)
  }

  lemma MarkOwn(sessions: map<string, Session>, tenant: string, id: string, status: Status)
    requires Authorised(sessions, tenant, id)
    ensures Of(Mark(sessions, id, status), tenant) == Mark(Of(sessions, tenant), id, status)
  {
  }

  lemma StoreOwn(sessions: map<string, Session>, tenant: string, id: string, session: Session)
    requires id !in sessions
    ensures Of(sessions[id := session], tenant) ==
            if session.tenant == tenant then Of(sessions, tenant)[id := session] else Of(sessions, tenant)
  {
  }

  lemma OwnStep<Id>(s: State<Id>, t: State<Id>, e: Event, tenant: string, foreign: set<string>)
    requires Reduces(s, t, tenant, foreign) && Separates(s.sessions, tenant, foreign)
    requires Enabled(s, e) && e.tenant == tenant
    ensures Enabled(t, e) && Reduces(Next(s, e), Next(t, e), tenant, foreign)
  {
    assert Authorised(s.sessions, tenant, e.id) <==> Authorised(t.sessions, tenant, e.id);
    if e.Create? {
      StoreOwn(s.sessions, tenant, e.id, Session(e.tenant, e.phone, e.country, Pending, e.at, e.at + LIFETIME));
    } else if Authorised(s.sessions, tenant, e.id) {
      OwnCall(s, t, e, tenant, foreign);
    }
  }

  lemma OwnCall<Id>(s: State<Id>, t: State<Id>, e: Event, tenant: string, foreign: set<string>)
    requires Reduces(s, t, tenant, foreign) && Separates(s.sessions, tenant, foreign)
    requires Enabled(s, e) && Enabled(t, e) && e.tenant == tenant && !e.Create?
    requires Authorised(s.sessions, tenant, e.id) && Authorised(t.sessions, tenant, e.id)
    ensures Reduces(Next(s, e), Next(t, e), tenant, foreign)
  {
    var phone := s.sessions[e.id].phone;
    match e
    case Silent(_, id, _, _, _) =>
      MarkOwn(s.sessions, tenant, id, Expired);
      MarkOwn(s.sessions, tenant, id, Verified);
    case SendOTP(_, _, channel, code, at) =>
      SendAgrees(s.otp, t.otp, foreign, channel, phone, code, at);
    case CheckOTP(_, id, _, _, order, _) =>
      VerifyAgrees(s.otp, t.otp, foreign, order, AsCheck(phone, e));
      MarkOwn(s.sessions, tenant, id, Verified);
  }

  lemma ForeignStep<Id>(s: State<Id>, t: State<Id>, e: Event, tenant: string, foreign: set<string>)
    requires Reduces(s, t, tenant, foreign) && Separates(s.sessions, tenant, foreign)
    requires Enabled(s, e) && e.tenant != tenant
    ensures Reduces(Next(s, e), t, tenant, foreign)
  {
    if Authorised(s.sessions, e.tenant, e.id) {
      var phone := s.sessions[e.id].phone;
      if e.SendOTP? {
        SendAgrees(s.otp, t.otp, foreign, e.channel, phone, e.code, e.at);
      } else if e.CheckOTP? {
        ForeignVerifyAgrees(s.otp, t.otp, foreign, e.order, AsCheck(phone, e));
      }
    }
  }

  lemma SeparatesBefore<Id>(s: State<Id>, e: Event, tenant: string, foreign: set<string>)
    requires Enabled(s, e) && Separates(Next(s, e).sessions, tenant, foreign)
    ensures Separates(s.sessions, tenant, foreign)
  {
    forall id | id in s.sessions ensures s.sessions[id].tenant == tenant <==> s.sessions[id].phone !in foreign {
      StepEvolves(s, e, id);
    }
  }

  lemma {:induction false} OwnRunReduces<Id>(start: OtpRuns.Router<Id>, events: seq<Event>, tenant: string, foreign: set<string>)
    requires OtpRuns.WellFormed(start) && Legal(start, events)
    requires Separates(After(start, events).sessions, tenant, foreign)
    ensures Legal(start, Own(events, tenant))
    ensures Reduces(After(start, events), After(start, Own(events, tenant)), tenant, foreign)
  {
    if events == [] {
      assert Of(map[], tenant) == map[];
      SameForItself(start, foreign);
    } else {
      var (init, e) := (events[..|events| - 1], events[|events| - 1]);
      SeparatesBefore(After(start, init), e, tenant, foreign);
      OwnRunReduces(start, init, tenant, foreign);
      if e.tenant == tenant {
        OwnStep(After(start, init), After(start, Own(init, tenant)), e, tenant, foreign);
        RunSnoc(start, Own(init, tenant), e);
      } else {
        ForeignStep(After(start, init), After(start, Own(init, tenant)), e, tenant, foreign);
      }
    }
  }

  lemma SameForItself<Id>(r: OtpRuns.Router<Id>, foreign: set<string>)
    ensures Agree(r, r, foreign)
  {
  }

  /** The sessions of the tenant are those of its own calls alone. */
  ghost predicate Isolated<Id>(start: OtpRuns.Router<Id>, events: seq<Event>, tenant: string)
    requires OtpRuns.WellFormed(start) && Legal(start, events)
  {
    Legal(start, Own(events, tenant)) && Of(After(start, events).sessions, tenant) == After(start, Own(events, tenant)).sessions
  }

  /** Over every run: a tenant whose sessions share no phone with those of others is isolated. */
  lemma TenantsAreIsolated<Id>(start: OtpRuns.Router<Id>, events: seq<Event>, tenant: string)
    requires OtpRuns.WellFormed(start) && Legal(start, events) && !SharesPhone(After(start, events).sessions, tenant)
    ensures Isolated(start, events, tenant)
  {
    var sessions := After(start, events).sessions;
    var foreign := set id | id in sessions && sessions[id].tenant != tenant :: sessions[id].phone;
    OwnRunReduces(start, events, tenant, foreign);
  }

  // ----- The condition is exact -----

  predicate NoCreates(events: seq<Event>) {
    forall i | 0 <= i < |events| :: !events[i].Create?
  }

  predicate TimesInOrder(events: seq<Event>) {
    forall i, j | 0 <= i < j < |events| :: events[i].at <= events[j].at
  }

  /** No call of `more` is earlier than one of `events`. */
  predicate Follows(events: seq<Event>, more: seq<Event>) {
    forall i, j | 0 <= i < |events| && 0 <= j < |more| :: events[i].at <= more[j].at
  }

  /** How a run can go on with the sessions there are and a clock that does not go back. */
  predicate GoesOn(events: seq<Event>, more: seq<Event>) {
    NoCreates(more) && TimesInOrder(more) && Follows(events, more)
  }

  /** The tenant is isolated however the run goes on with the sessions there are. */
  ghost predicate StaysIsolated<Id>(start: OtpRuns.Router<Id>, events: seq<Event>, tenant: string)
    requires OtpRuns.WellFormed(start)
  {
    forall more | GoesOn(events, more) && Legal(start, events + more) :: Isolated(start, events + more, tenant)
  }

  /** Some channel has a provider that keeps codes itself. */
  ghost predicate KeepsCodes<Id>(r: OtpRuns.Router<Id>)
    requires OtpRuns.WellFormed(r)
  {
    exists ch | ch in r.channels :: !r.stores[r.channels[ch]].Upstream?
  }

  lemma {:induction false} LongerThanAll(texts: set<string>) returns (c: string)
    ensures forall x | x in texts :: |x| < |c|
  {
    c := "x";
    if texts != {} {
      var x :| x in texts;
      var d := LongerThanAll(texts - {x});
      c := if |d| > |x| then d else x + "x";
      assert forall y | y in texts :: y == x || y in texts - {x};
    }
  }

  lemma {:induction false} InSomeOrder(names: set<string>) returns (order: seq<string>)
    ensures forall n :: n in order <==> n in names
  {
    order := [];
    if names != {} {
      var n :| n in names;
      var rest := InSomeOrder(names - {n});
      order := [n] + rest;
    }
  }

  function CodeAt(s: OtpRuns.Store, phone: string): string {
    match s
    case WhatsApp(entries) => if phone in entries then entries[phone].code else ""
    case Sandbox(codes) => if phone in codes then codes[phone] else ""
    case Upstream => ""
  }

  /** A code that no provider accepts for this phone. */
  lemma UnknownCode<Id>(r: OtpRuns.Router<Id>, phone: string, order: seq<string>, at: int) returns (code: string)
    requires OtpRuns.WellFormed(r) && OtpRuns.Covers(order, r)
    ensures OtpRuns.Verify(r, order, OtpRuns.Check(phone, code, at, map[])).0.None?
  {
    var texts := set ch | ch in r.channels :: CodeAt(r.stores[r.channels[ch]], phone);
    code := LongerThanAll(texts + {OtpRuns.TEST_CODE});
    var c := OtpRuns.Check(phone, code, at, map[]);
    OtpRuns.VerifyFindsAcceptance(r, order, c);
    forall ch | ch in order ensures !OtpRuns.ChannelAccepts(r, ch, c) {
      assert CodeAt(r.stores[r.channels[ch]], phone) in texts;
    }
  }

  lemma SentCodeIsAccepted<Id>(r: OtpRuns.Router<Id>, channel: string, phone: string, code: string, at: int, order: seq<string>)
    requires OtpRuns.WellFormed(r) && OtpRuns.Covers(order, r)
    requires channel in r.channels && !r.stores[r.channels[channel]].Upstream?
    ensures var sent := OtpRuns.Send(r, channel, phone, code, at);
            OtpRuns.Verify(sent, order, OtpRuns.Check(phone, code, at, map[])).0.Some?
  {
    var sent := OtpRuns.Send(r, channel, phone, code, at);
    var c := OtpRuns.Check(phone, code, at, map[]);
    assert OtpRuns.ChannelAccepts(sent, channel, c);
    OtpRuns.VerifyFindsAcceptance(sent, order, c);
  }

  lemma OwnSnoc(events: seq<Event>, e: Event, tenant: string)
    ensures Own(events + [e], tenant) == if e.tenant == tenant then Own(events, tenant) + [e] else Own(events, tenant)
  {
    assert (events + [e])[..|events|] == events;
  }

  /** The three calls that tell: the tenant lets its session expire, the other tenant has a code sent to the shared
      phone, and the tenant presents that code. */
  datatype Telling = Telling(expire: Event, send: Event, check: Event)

  function Tell(tenant: string, i: string, at: int, other: string, j: string,
                channel: string, code: string, order: seq<string>): Telling {
    Telling(Silent(tenant, i, at, false, Error), SendOTP(other, j, channel, code, at),
            CheckOTP(tenant, i, code, at, order, map[]))
  }

  lemma AllTold<Id>(s: State<Id>, tenant: string, i: string, j: string, at: int, channel: string, code: string, order: seq<string>)
    requires OtpRuns.WellFormed(s.otp) && OtpRuns.Covers(order, s.otp)
    requires i in s.sessions && j in s.sessions && s.sessions[i].tenant == tenant && s.sessions[j].tenant != tenant
    requires s.sessions[i].phone == s.sessions[j].phone && at > s.sessions[i].expiresAt
    requires channel in s.otp.channels && !s.otp.stores[s.otp.channels[channel]].Upstream?
    ensures var e := Tell(tenant, i, at, s.sessions[j].tenant, j, channel, code, order);
            && Enabled(s, e.expire) && Enabled(Next(s, e.expire), e.send)
            && Enabled(Next(Next(s, e.expire), e.send), e.check)
            && IsVerified(Next(Next(Next(s, e.expire), e.send), e.check), i)
  {
    SentCodeIsAccepted(s.otp, channel, s.sessions[i].phone, code, at, order);
  }

  lemma OwnTold<Id>(t: State<Id>, tenant: string, i: string, other: string, j: string, at: int, channel: string, code: string, order: seq<string>)
    requires OtpRuns.WellFormed(t.otp) && OtpRuns.Covers(order, t.otp)
    requires i in t.sessions && t.sessions[i].tenant == tenant && at > t.sessions[i].expiresAt
    requires OtpRuns.Verify(t.otp, order, OtpRuns.Check(t.sessions[i].phone, code, at, map[])).0.None?
    ensures var e := Tell(tenant, i, at, other, j, channel, code, order);
            && Enabled(t, e.expire) && Enabled(Next(t, e.expire), e.check)
            && !IsVerified(Next(Next(t, e.expire), e.check), i)
  {
  }

  function Calls(e: Telling): seq<Event> {
    [e.expire, e.send, e.check]
  }

  lemma FullRunTold<Id>(start: OtpRuns.Router<Id>, events: seq<Event>, tenant: string, i: string, j: string,
                        at: int, channel: string, code: string, order: seq<string>, e: Telling)
    requires OtpRuns.WellFormed(start) && Legal(start, events) && OtpRuns.Covers(order, start)
    requires channel in start.channels && !start.stores[start.channels[channel]].Upstream?
    requires var sessions := After(start, events).sessions;
             && i in sessions && j in sessions && sessions[i].tenant == tenant && sessions[j].tenant != tenant
             && sessions[i].phone == sessions[j].phone && at > sessions[i].expiresAt
             && e == Tell(tenant, i, at, sessions[j].tenant, j, channel, code, order)
    ensures Legal(start, events + Calls(e))
    ensures var s := After(start, events + Calls(e)); IsVerified(s, i) && i in Of(s.sessions, tenant)
  {
    var s := After(start, events);
    KindsStayHere(start, events, start.channels[channel]);
    AllTold(s, tenant, i, j, at, channel, code, order);
    RunOfThree(start, events, e.expire, e.send, e.check);
    StepEvolves(s, e.expire, i);
    StepEvolves(Next(s, e.expire), e.send, i);
    StepEvolves(Next(Next(s, e.expire), e.send), e.check, i);
  }

  lemma OwnRunTold<Id>(start: OtpRuns.Router<Id>, own: seq<Event>, tenant: string, i: string, other: string, j: string,
                       at: int, channel: string, code: string, order: seq<string>, e: Telling)
    requires OtpRuns.WellFormed(start) && Legal(start, own) && OtpRuns.Covers(order, start)
    requires var t := After(start, own);
             && i in t.sessions && t.sessions[i].tenant == tenant && at > t.sessions[i].expiresAt
             && OtpRuns.Verify(t.otp, order, OtpRuns.Check(t.sessions[i].phone, code, at, map[])).0.None?
             && e == Tell(tenant, i, at, other, j, channel, code, order)
    ensures Legal(start, own + [e.expire] + [e.check]) && !IsVerified(After(start, own + [e.expire] + [e.check]), i)
  {
    OwnTold(After(start, own), tenant, i, other, j, at, channel, code, order);
    RunSnoc(start, own, e.expire);
    RunSnoc(start, own + [e.expire], e.check);
  }

  lemma TellingShows<Id>(start: OtpRuns.Router<Id>, events: seq<Event>, tenant: string, i: string, j: string,
                         channel: string, order: seq<string>)
    requires OtpRuns.WellFormed(start) && Legal(start, events) && OtpRuns.Covers(order, start)
    requires Isolated(start, events, tenant)
    requires channel in start.channels && !start.stores[start.channels[channel]].Upstream?
    requires var sessions := After(start, events).sessions;
             && i in sessions && j in sessions && sessions[i].tenant == tenant && sessions[j].tenant != tenant
             && sessions[i].phone == sessions[j].phone
    ensures exists more :: GoesOn(events, more) && Legal(start, events + more) && !Isolated(start, events + more, tenant)
  {
    var (s, own) := (After(start, events), Own(events, tenant));
    var (mine, theirs) := (s.sessions[i], s.sessions[j]);
    assert i in Of(s.sessions, tenant);
    var at := NoEarlier(events, mine.expiresAt + 1);
    var code := UnknownCode(After(start, own).otp, mine.phone, order, at);
    var e := Tell(tenant, i, at, theirs.tenant, j, channel, code, order);
    FullRunTold(start, events, tenant, i, j, at, channel, code, order, e);
    OwnRunTold(start, own, tenant, i, theirs.tenant, j, at, channel, code, order, e);
    OwnOfThree(events, e.expire, e.send, e.check, tenant);
    OutcomesDiffer(start, events + Calls(e), own + [e.expire] + [e.check], tenant, i);
    TellingGoesOn(events, e, at);
  }

  /** A time that is not before any call of the run, nor before `from`. */
  lemma {:induction false} NoEarlier(events: seq<Event>, from: int) returns (at: int)
    ensures at >= from && forall i | 0 <= i < |events| :: events[i].at <= at
  {
    at := from;
    if events != [] {
      at := NoEarlier(events[..|events| - 1], from);
      at := if events[|events| - 1].at > at then events[|events| - 1].at else at;
    }
  }

  lemma TellingGoesOn(events: seq<Event>, e: Telling, at: int)
    requires e.expire.Silent? && e.send.SendOTP? && e.check.CheckOTP?
    requires e.expire.at == e.send.at == e.check.at == at && forall i | 0 <= i < |events| :: events[i].at <= at
    ensures GoesOn(events, Calls(e))
  {
  }

  lemma OutcomesDiffer<Id>(start: OtpRuns.Router<Id>, events: seq<Event>, own: seq<Event>, tenant: string, i: string)
    requires OtpRuns.WellFormed(start) && Legal(start, events) && Legal(start, own) && own == Own(events, tenant)
    requires i in Of(After(start, events).sessions, tenant)
    requires IsVerified(After(start, events), i) && !IsVerified(After(start, own), i)
    ensures !Isolated(start, events, tenant)
  {
  }

  lemma SharedPhoneTells<Id>(start: OtpRuns.Router<Id>, events: seq<Event>, tenant: string)
    requires OtpRuns.WellFormed(start) && Legal(start, events) && KeepsCodes(start)
    requires SharesPhone(After(start, events).sessions, tenant)
    ensures !StaysIsolated(start, events, tenant)
  {
    if StaysIsolated(start, events, tenant) {
      assert events + [] == events;
      assert Isolated(start, events + [], tenant);
      var sessions := After(start, events).sessions;
      var i, j :| i in sessions && j in sessions && sessions[i].tenant == tenant &&
                  sessions[j].tenant != tenant && sessions[i].phone == sessions[j].phone;
      var channel :| channel in start.channels && !start.stores[start.channels[channel]].Upstream?;
      var order := InSomeOrder(start.channels.Keys);
      TellingShows(start, events, tenant, i, j, channel, order);
    }
  }

  lemma RunOfThree<Id>(start: OtpRuns.Router<Id>, events: seq<Event>, a: Event, b: Event, c: Event)
    requires OtpRuns.WellFormed(start) && Legal(start, events)
    requires Enabled(After(start, events), a) && Enabled(Next(After(start, events), a), b)
    requires Enabled(Next(Next(After(start, events), a), b), c)
    ensures Legal(start, events + [a, b, c])
    ensures After(start, events + [a, b, c]) == Next(Next(Next(After(start, events), a), b), c)
  {
    RunSnoc(start, events, a);
    RunSnoc(start, events + [a], b);
    RunSnoc(start, events + [a] + [b], c);
    assert events + [a] + [b] + [c] == events + [a, b, c];
  }

  lemma OwnOfThree(events: seq<Event>, a: Event, b: Event, c: Event, tenant: string)
    requires a.tenant == tenant && b.tenant != tenant && c.tenant == tenant
    ensures Own(events + [a, b, c], tenant) == Own(events, tenant) + [a] + [c]
  {
    OwnSnoc(events, a, tenant);
    OwnSnoc(events + [a], b, tenant);
    OwnSnoc(events + [a] + [b], c, tenant);
    assert events + [a] + [b] + [c] == events + [a, b, c];
  }

  lemma {:induction false} KindsStayHere<Id>(start: OtpRuns.Router<Id>, events: seq<Event>, id: Id)
    requires OtpRuns.WellFormed(start) && Legal(start, events) && id in start.stores
    ensures After(start, events).otp.stores[id].Upstream? == start.stores[id].Upstream?
  {
    if events != [] {
      var (init, e) := (events[..|events| - 1], events[|events| - 1]);
      KindsStayHere(start, init, id);
      var s := After(start, init);
      if e.CheckOTP? && Authorised(s.sessions, e.tenant, e.id) {
        OtpRuns.VerifyOnStores(s.otp, e.order, AsCheck(s.sessions[e.id].phone, e), id);
      }
    }
  }

  // ----- Without providers that keep codes -----

  lemma {:induction false} UpstreamKeepsNothing<Id>(r: OtpRuns.Router<Id>, order: seq<string>, c: OtpRuns.Check)
    requires OtpRuns.WellFormed(r) && !KeepsCodes(r) && forall ch | ch in order :: ch in r.channels
    ensures OtpRuns.Verify(r, order, c).1 == r
    decreases |order|
  {
    if order != [] {
      assert r.stores[r.channels[order[0]]].Upstream?;
      assert OtpRuns.Visit(r, order[0], c) == r;
      UpstreamKeepsNothing(r, order[1..], c);
    }
  }

  lemma UpstreamStep<Id>(s: State<Id>, e: Event)
    requires Enabled(s, e) && !KeepsCodes(s.otp)
    ensures Next(s, e).otp == s.otp
  {
    if !e.Create? && Authorised(s.sessions, e.tenant, e.id) {
      if e.SendOTP? {
        var target := OtpRuns.Target(s.otp, e.channel);
        if target.Some? {
          assert e.channel in s.otp.channels || "sms" in s.otp.channels;
          assert s.otp.stores[target.value].Upstream?;
          assert s.otp.stores[target.value := OtpRuns.Upstream] == s.otp.stores;
        }
      } else if e.CheckOTP? {
        UpstreamKeepsNothing(s.otp, e.order, AsCheck(s.sessions[e.id].phone, e));
      }
    }
  }

  lemma OwnUpstreamStep<Id>(s: State<Id>, t: State<Id>, e: Event, tenant: string)
    requires Enabled(s, e) && !KeepsCodes(s.otp) && t.otp == s.otp && t.sessions == Of(s.sessions, tenant)
    ensures e.tenant == tenant ==> Enabled(t, e) && Next(t, e).sessions == Of(Next(s, e).sessions, tenant)
    ensures e.tenant != tenant ==> t.sessions == Of(Next(s, e).sessions, tenant)
  {
    if e.Create? {
      StoreOwn(s.sessions, tenant, e.id, Session(e.tenant, e.phone, e.country, Pending, e.at, e.at + LIFETIME));
    } else if e.tenant == tenant && Authorised(s.sessions, tenant, e.id) {
      MarkOwn(s.sessions, tenant, e.id, Expired);
      MarkOwn(s.sessions, tenant, e.id, Verified);
    }
  }

  lemma {:induction false} UpstreamIsolates<Id>(start: OtpRuns.Router<Id>, events: seq<Event>, tenant: string)
    requires OtpRuns.WellFormed(start) && Legal(start, events) && !KeepsCodes(start)
    ensures Legal(start, Own(events, tenant))
    ensures After(start, events).otp == start == After(start, Own(events, tenant)).otp
    ensures Of(After(start, events).sessions, tenant) == After(start, Own(events, tenant)).sessions
  {
    if events == [] {
      assert Of(map[], tenant) == map[];
    } else {
      var (init, e) := (events[..|events| - 1], events[|events| - 1]);
      UpstreamIsolates(start, init, tenant);
      var (s, t) := (After(start, init), After(start, Own(init, tenant)));
      UpstreamStep(s, e);
      OwnUpstreamStep(s, t, e, tenant);
      if e.tenant == tenant {
        UpstreamStep(t, e);
        RunSnoc(start, Own(init, tenant), e);
      }
    }
  }

  // ----- The exact condition -----

  lemma {:induction false} NoCreatesShareNothing<Id>(start: OtpRuns.Router<Id>, events: seq<Event>, more: seq<Event>, tenant: string)
    requires OtpRuns.WellFormed(start) && Legal(start, events) && Legal(start, events + more) && NoCreates(more)
    requires !SharesPhone(After(start, events).sessions, tenant)
    ensures !SharesPhone(After(start, events + more).sessions, tenant)
  {
    if more == [] {
      assert events + more == events;
    } else {
      var (init, e) := (more[..|more| - 1], more[|more| - 1]);
      assert (events + more)[..|events + more| - 1] == events + init;
      NoCreatesShareNothing(start, events, init, tenant);
      assert !e.Create?;
      NoCreateSharesNothing(After(start, events + init), e, tenant);
    }
  }

  lemma NoCreateSharesNothing<Id>(s: State<Id>, e: Event, tenant: string)
    requires Enabled(s, e) && !e.Create? && !SharesPhone(s.sessions, tenant)
    ensures !SharesPhone(Next(s, e).sessions, tenant)
  {
    forall id ensures id in Next(s, e).sessions <==> id in s.sessions {}
    forall id | id in s.sessions ensures Evolves(s.sessions[id], Next(s, e).sessions[id]) {
      StepEvolves(s, e, id);
    }
  }

  /** A tenant stays isolated, however the run goes on with the sessions there are, exactly when none of its sessions
      shares a phone with another tenant's, or no provider keeps codes. */
  lemma IsolatedExactlyWhenPhonesDiffer<Id>(start: OtpRuns.Router<Id>, events: seq<Event>, tenant: string)
    requires OtpRuns.WellFormed(start) && Legal(start, events)
    ensures StaysIsolated(start, events, tenant) <==>
            !SharesPhone(After(start, events).sessions, tenant) || !KeepsCodes(start)
  {
    if !KeepsCodes(start) {
      forall more | GoesOn(events, more) && Legal(start, events + more) ensures Isolated(start, events + more, tenant) {
        UpstreamIsolates(start, events + more, tenant);
      }
    } else if SharesPhone(After(start, events).sessions, tenant) {
      SharedPhoneTells(start, events, tenant);
    } else {
      forall more | GoesOn(events, more) && Legal(start, events + more) ensures Isolated(start, events + more, tenant) {
        NoCreatesShareNothing(start, events, more, tenant);
        TenantsAreIsolated(start, events + more, tenant);
      }
    }
  }
}
