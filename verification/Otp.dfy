/** One-time codes: what the providers store, how the router sends and verifies, and what that keeps over runs. */
module OtpRuns {
  import opened Options

  datatype CodeEntry = CodeEntry(code: string, expiresAt: int)

  /** 10 minutes, in nanoseconds. */
  const VALIDITY := 600_000_000_000

  /** The code every sandbox accepts while a code is outstanding. */
  const TEST_CODE := "000000"

  /** What a provider knows: WhatsApp and the sandbox keep codes by phone, an upstream service keeps its own. */
  datatype Store =
    | WhatsApp(entries: map<string, CodeEntry>)
    | Sandbox(codes: map<string, string>)
    | Upstream

  predicate Holds(s: Store, phone: string) {
    match s
    case WhatsApp(entries) => phone in entries
    case Sandbox(codes) => phone in codes
    case Upstream => false
  }

  function Sent(s: Store, phone: string, code: string, now: int): Store {
    match s
    case WhatsApp(entries) => WhatsApp(entries[phone := CodeEntry(code, now + VALIDITY)])
    case Sandbox(codes) => Sandbox(codes[phone := code])
    case Upstream => s
  }

  /** Whether a provider that keeps codes accepts this one now. */
  predicate Accepts(s: Store, phone: string, code: string, now: int) {
    match s
    case WhatsApp(entries) => phone in entries && now <= entries[phone].expiresAt && entries[phone].code == code
    case Sandbox(codes) => phone in codes && (code == codes[phone] || code == TEST_CODE)
    case Upstream => false
  }

  /** The store after a verification: an accepted code is consumed and an expired one is dropped. */
  function Verified(s: Store, phone: string, code: string, now: int): Store {
    match s
    case WhatsApp(entries) =>
      if phone in entries && (now > entries[phone].expiresAt || entries[phone].code == code)
      then WhatsApp(entries - {phone}) else s
    case Sandbox(codes) => if Accepts(s, phone, code, now) then Sandbox(codes - {phone}) else s
    case Upstream => s
  }

  // ----- The router over a set of providers -----

  /** Channels name providers; several channels may name the same one. */
  datatype Router<Id> = Router(channels: map<string, Id>, stores: map<Id, Store>)

  predicate WellFormed<Id(==)>(r: Router<Id>) {
    forall ch | ch in r.channels :: r.channels[ch] in r.stores
  }

  /** The provider that a send on this channel goes to: its own, else the one for SMS. */
  function Target<Id>(r: Router<Id>, channel: string): Option<Id> {
    if channel in r.channels then Some(r.channels[channel])
    else if "sms" in r.channels then Some(r.channels["sms"])
    else None
  }

  function Send<Id(==)>(r: Router<Id>, channel: string, phone: string, code: string, now: int): Router<Id>
    requires WellFormed(r)
  {
    match Target(r, channel)
    case None => r
    case Some(id) => r.(stores := r.stores[id := Sent(r.stores[id], phone, code, now)])
  }

  /** One verification: the code, the clock, and what the upstream services would answer on each channel. */
  datatype Check = Check(phone: string, code: string, at: int, answers: map<string, bool>)

  predicate ChannelAccepts<Id(==)>(r: Router<Id>, channel: string, c: Check)
    requires WellFormed(r) && channel in r.channels
  {
    match r.stores[r.channels[channel]]
    case Upstream => channel in c.answers && c.answers[channel]
    case s => Accepts(s, c.phone, c.code, c.at)
  }

  function Visit<Id(==)>(r: Router<Id>, channel: string, c: Check): Router<Id>
    requires WellFormed(r) && channel in r.channels
  {
    var id := r.channels[channel];
    r.(stores := r.stores[id := Verified(r.stores[id], c.phone, c.code, c.at)])
  }

  /** The loop over the providers, in the order in which the channel map happens to be iterated: the first
      channel that accepts wins and ends it. */
  function Verify<Id(==)>(r: Router<Id>, order: seq<string>, c: Check): (result: (Option<string>, Router<Id>))
    requires WellFormed(r) && forall ch | ch in order :: ch in r.channels
    ensures WellFormed(result.1) && result.1.channels == r.channels && result.1.stores.Keys == r.stores.Keys
    ensures result.0.Some? ==> result.0.value in order
    decreases |order|
  {
    if order == [] then (None, r)
    else if ChannelAccepts(r, order[0], c) then (Some(order[0]), Visit(r, order[0], c))
    else Verify(Visit(r, order[0], c), order[1..], c)
  }

  lemma RefusalChangesNoAnswer<Id>(r: Router<Id>, channel: string, c: Check, other: string)
    requires WellFormed(r) && channel in r.channels && other in r.channels && !ChannelAccepts(r, channel, c)
    ensures ChannelAccepts(Visit(r, channel, c), other, c) == ChannelAccepts(r, other, c)
  {
  }

  lemma {:induction false} VerifyFindsAcceptance<Id>(r: Router<Id>, order: seq<string>, c: Check)
    requires WellFormed(r) && forall ch | ch in order :: ch in r.channels
    ensures Verify(r, order, c).0.Some? <==> exists ch :: ch in order && ChannelAccepts(r, ch, c)
    ensures var w := Verify(r, order, c).0; w.Some? ==> ChannelAccepts(r, w.value, c)
    decreases |order|
  {
    if order != [] && !ChannelAccepts(r, order[0], c) {
      var next := Visit(r, order[0], c);
      VerifyFindsAcceptance(next, order[1..], c);
      forall ch | ch in order ensures ChannelAccepts(next, ch, c) == ChannelAccepts(r, ch, c) {
        RefusalChangesNoAnswer(r, order[0], c, ch);
      }
    }
  }

  /** `order` visits every channel. */
  predicate Covers<Id>(order: seq<string>, r: Router<Id>) {
    (forall ch | ch in order :: ch in r.channels) && (forall ch | ch in r.channels :: ch in order)
  }

  /** Whether a code is accepted does not depend on the iteration order of the providers. */
  lemma AnswerIgnoresOrder<Id>(r: Router<Id>, order1: seq<string>, order2: seq<string>, c: Check)
    requires WellFormed(r) && Covers(order1, r) && Covers(order2, r)
    ensures Verify(r, order1, c).0.Some? == Verify(r, order2, c).0.Some?
  {
    VerifyFindsAcceptance(r, order1, c);
    VerifyFindsAcceptance(r, order2, c);
  }

  // ----- How one call changes the stores -----

  /** The codes of `t` are among those of `s`, with the same text and expiry; the kind is the same. */
  ghost predicate Shrinks(s: Store, t: Store) {
    match (s, t)
    case (WhatsApp(e), WhatsApp(f)) => forall p | p in f :: p in e && f[p] == e[p]
    case (Sandbox(e), Sandbox(f)) => forall p | p in f :: p in e && f[p] == e[p]
    case (Upstream, Upstream) => true
    case _ => false
  }

  lemma VerifiedShrinks(s: Store, phone: string, code: string, now: int)
    ensures Shrinks(s, Verified(s, phone, code, now))
    ensures Accepts(s, phone, code, now) ==> !Holds(Verified(s, phone, code, now), phone)
  {
  }

  /** A verification only ever takes codes away, and takes the accepted one from the provider that accepts. */
  lemma {:induction false} VerifyOnStores<Id>(r: Router<Id>, order: seq<string>, c: Check, id: Id)
    requires WellFormed(r) && (forall ch | ch in order :: ch in r.channels) && id in r.stores
    ensures var (w, r') := Verify(r, order, c);
            && Shrinks(r.stores[id], r'.stores[id])
            && (w.Some? && r.channels[w.value] == id && !r.stores[id].Upstream? ==>
                  Accepts(r.stores[id], c.phone, c.code, c.at) && !Holds(r'.stores[id], c.phone))
    decreases |order|
  {
    VerifyFindsAcceptance(r, order, c);
    if order != [] {
      var at := r.channels[order[0]];
      VerifiedShrinks(r.stores[at], c.phone, c.code, c.at);
      if !ChannelAccepts(r, order[0], c) {
        VerifyOnStores(Visit(r, order[0], c), order[1..], c, id);
      }
    }
  }

  // ----- Runs -----

  datatype Event =
    | Sending(channel: string, phone: string, code: string, at: int)
    | Checking(check: Check, order: seq<string>)

  /** A router as it is set up at the start: every named provider exists and none holds a code. */
  ghost predicate Initial<Id>(r: Router<Id>) {
    WellFormed(r) && forall id, phone | id in r.stores :: !Holds(r.stores[id], phone)
  }

  predicate Legal<Id>(start: Router<Id>, events: seq<Event>) {
    forall i | 0 <= i < |events| :: events[i].Checking? ==> Covers(events[i].order, start)
  }

  function After<Id(==)>(start: Router<Id>, events: seq<Event>): (r: Router<Id>)
    requires WellFormed(start) && Legal(start, events)
    ensures WellFormed(r) && r.channels == start.channels && r.stores.Keys == start.stores.Keys
  {
    if events == [] then start
    else
      var before := After(start, events[..|events| - 1]);
      match events[|events| - 1]
      case Sending(channel, phone, code, at) => Send(before, channel, phone, code, at)
      case Checking(c, order) => Verify(before, order, c).1
  }

  /** One more event at the end of a run. */
  lemma RunSnoc<Id>(start: Router<Id>, events: seq<Event>, e: Event)
    requires WellFormed(start) && Legal(start, events) && (e.Checking? ==> Covers(e.order, start))
    ensures Legal(start, events + [e])
    ensures After(start, events + [e]) ==
            if e.Sending? then Send(After(start, events), e.channel, e.phone, e.code, e.at)
            else Verify(After(start, events), e.order, e.check).1
  {
    assert (events + [e])[..|events|] == events;
  }

  /** The provider whose acceptance makes a verification succeed. */
  function Winner<Id(==)>(r: Router<Id>, e: Event): Option<Id>
    requires WellFormed(r) && (e.Checking? ==> Covers(e.order, r))
  {
    if e.Sending? then None
    else
      VerifyFindsAcceptance(r, e.order, e.check);
      var w := Verify(r, e.order, e.check).0;
      if w.None? then None else Some(r.channels[w.value])
  }

  predicate WinsAt<Id(==)>(r: Router<Id>, e: Event, id: Id, phone: string)
    requires WellFormed(r) && (e.Checking? ==> Covers(e.order, r))
  {
    e.Checking? && e.check.phone == phone && Winner(r, e) == Some(id)
  }

  predicate SendsTo<Id(==)>(r: Router<Id>, e: Event, id: Id, phone: string) {
    e.Sending? && e.phone == phone && Target(r, e.channel) == Some(id)
  }

  datatype Issue = Issue(code: string, at: int)

  /** The latest code sent through a provider to a phone that has not been accepted since. */
  function Live<Id(==)>(start: Router<Id>, events: seq<Event>, id: Id, phone: string): Option<Issue>
    requires WellFormed(start) && Legal(start, events)
  {
    if events == [] then None
    else
      var (init, e) := (events[..|events| - 1], events[|events| - 1]);
      if SendsTo(start, e, id, phone) then Some(Issue(e.code, e.at))
      else if WinsAt(After(start, init), e, id, phone) then None
      else Live(start, init, id, phone)
  }

  /** What a provider holds for a phone is its live code. */
  predicate HoldsLive(s: Store, phone: string, live: Option<Issue>) {
    match s
    case WhatsApp(entries) =>
      phone in entries ==> live.Some? && entries[phone] == CodeEntry(live.value.code, live.value.at + VALIDITY)
    case Sandbox(codes) => phone in codes ==> live.Some? && codes[phone] == live.value.code
    case Upstream => true
  }

  lemma {:induction false} StoresHoldLiveCodes<Id>(start: Router<Id>, events: seq<Event>, id: Id, phone: string)
    requires Initial(start) && Legal(start, events) && id in start.stores
    ensures var r := After(start, events);
            && r.stores[id].Upstream? == start.stores[id].Upstream?
            && HoldsLive(r.stores[id], phone, Live(start, events, id, phone))
  {
    if events != [] {
      var (init, e) := (events[..|events| - 1], events[|events| - 1]);
      StoresHoldLiveCodes(start, init, id, phone);
      var before := After(start, init);
      if e.Checking? {
        VerifyOnStores(before, e.order, e.check, id);
      }
    } else {
      assert !Holds(start.stores[id], phone);
    }
  }

  /** Single use over every run: a verification that succeeds through a provider that keeps codes presents the
      latest code that this provider sent to the phone and that has not been accepted since, and over WhatsApp
      one at most 10 minutes old; only a sandbox also takes its test code instead. */
  lemma SuccessSpendsTheLiveCode<Id>(start: Router<Id>, events: seq<Event>, e: Event, id: Id)
    requires Initial(start) && Legal(start, events) && e.Checking? && Covers(e.order, start)
    requires Winner(After(start, events), e) == Some(id) && !start.stores[id].Upstream?
    ensures var live := Live(start, events, id, e.check.phone);
            && live.Some?
            && match After(start, events).stores[id]
               case WhatsApp(_) => e.check.code == live.value.code && e.check.at <= live.value.at + 600_000_000_000
               case Sandbox(_) => e.check.code == live.value.code || e.check.code == "000000"
               case Upstream => false
  {
    StoresHoldLiveCodes(start, events, id, e.check.phone);
    VerifyOnStores(After(start, events), e.order, e.check, id);
  }

  // ----- A live code is accepted -----

  /** The provider holds this code for the phone, and it has not expired at `now`. */
  predicate Keeps(s: Store, phone: string, issue: Issue, now: int) {
    match s
    case WhatsApp(entries) =>
      phone in entries && entries[phone] == CodeEntry(issue.code, issue.at + VALIDITY) && now <= issue.at + VALIDITY
    case Sandbox(codes) => phone in codes && codes[phone] == issue.code
    case Upstream => false
  }

  /** A verification takes a code that has not expired only from the provider that wins. */
  lemma {:induction false} LosersKeepCodes<Id>(r: Router<Id>, order: seq<string>, c: Check, id: Id, phone: string, issue: Issue, now: int)
    requires WellFormed(r) && (forall ch | ch in order :: ch in r.channels) && id in r.stores
    requires c.at <= now && Keeps(r.stores[id], phone, issue, now)
    requires var w := Verify(r, order, c).0; w.Some? && c.phone == phone ==> r.channels[w.value] != id
    ensures Keeps(Verify(r, order, c).1.stores[id], phone, issue, now)
    decreases |order|
  {
    if order != [] && !ChannelAccepts(r, order[0], c) {
      LosersKeepCodes(Visit(r, order[0], c), order[1..], c, id, phone, issue, now);
    }
  }

  predicate CheckedBy(events: seq<Event>, now: int) {
    forall i | 0 <= i < |events| :: events[i].Checking? ==> events[i].check.at <= now
  }

  /** In a run whose verifications all lie before `now`, a live code is still held if it has not expired by then. */
  lemma {:induction false} LiveCodesAreKept<Id>(start: Router<Id>, events: seq<Event>, id: Id, phone: string, now: int)
    requires Initial(start) && Legal(start, events) && id in start.stores && !start.stores[id].Upstream?
    requires CheckedBy(events, now) && Live(start, events, id, phone).Some?
    requires start.stores[id].WhatsApp? ==> now <= Live(start, events, id, phone).value.at + VALIDITY
    ensures After(start, events).stores[id].WhatsApp? == start.stores[id].WhatsApp?
    ensures Keeps(After(start, events).stores[id], phone, Live(start, events, id, phone).value, now)
  {
    var (init, e) := (events[..|events| - 1], events[|events| - 1]);
    var before := After(start, init);
    KindsStay(start, init, id);
    KindsStay(start, events, id);
    if !SendsTo(start, e, id, phone) {
      LiveCodesAreKept(start, init, id, phone, now);
      if e.Checking? {
        LosersKeepCodes(before, e.order, e.check, id, phone, Live(start, init, id, phone).value, now);
      }
    }
  }

  lemma {:induction false} KindsStay<Id>(start: Router<Id>, events: seq<Event>, id: Id)
    requires Initial(start) && Legal(start, events) && id in start.stores
    ensures var s := After(start, events).stores[id];
            s.WhatsApp? == start.stores[id].WhatsApp? && s.Upstream? == start.stores[id].Upstream?
  {
    if events != [] {
      KindsStay(start, events[..|events| - 1], id);
      var e := events[|events| - 1];
      if e.Checking? {
        VerifyOnStores(After(start, events[..|events| - 1]), e.order, e.check, id);
      }
    }
  }

  /** The code is the live one of a provider that keeps codes, over WhatsApp at most 10 minutes old. */
  predicate PresentsLive<Id(==)>(start: Router<Id>, events: seq<Event>, c: Check, id: Id)
    requires WellFormed(start) && Legal(start, events) && id in start.stores
  {
    && !start.stores[id].Upstream?
    && var live := Live(start, events, id, c.phone);
       && live.Some? && c.code == live.value.code
       && (start.stores[id].WhatsApp? ==> c.at <= live.value.at + VALIDITY)
  }

  /** The other direction of single use: presenting the live code of a registered provider succeeds, over
      WhatsApp for 10 minutes after it was sent. */
  lemma LiveCodeIsAccepted<Id>(start: Router<Id>, events: seq<Event>, e: Event, channel: string)
    requires Initial(start) && Legal(start, events) && e.Checking? && Covers(e.order, start) && channel in start.channels
    requires CheckedBy(events, e.check.at) && PresentsLive(start, events, e.check, start.channels[channel])
    ensures Winner(After(start, events), e).Some?
  {
    var id := start.channels[channel];
    LiveCodesAreKept(start, events, id, e.check.phone, e.check.at);
    VerifyFindsAcceptance(After(start, events), e.order, e.check);
    assert ChannelAccepts(After(start, events), channel, e.check);
  }

  // ----- When a verification succeeds -----

  /** What makes a channel's provider accept a code: an upstream service says so; a sandbox has a live code for the
      phone and is presented that code or the test code; WhatsApp has one that is at most 10 minutes old and is
      presented it. */
  predicate Confirms<Id(==)>(start: Router<Id>, events: seq<Event>, channel: string, c: Check)
    requires WellFormed(start) && Legal(start, events) && channel in start.channels
  {
    var id := start.channels[channel];
    var live := Live(start, events, id, c.phone);
    match start.stores[id]
    case Upstream => channel in c.answers && c.answers[channel]
    case Sandbox(_) => live.Some? && (c.code == live.value.code || c.code == "000000")
    case WhatsApp(_) => live.Some? && c.code == live.value.code && c.at <= live.value.at + 600_000_000_000
  }

  lemma ConfirmsExactly<Id>(start: Router<Id>, events: seq<Event>, channel: string, c: Check)
    requires Initial(start) && Legal(start, events) && CheckedBy(events, c.at) && channel in start.channels
    ensures ChannelAccepts(After(start, events), channel, c) <==> Confirms(start, events, channel, c)
  {
    var id := start.channels[channel];
    StoresHoldLiveCodes(start, events, id, c.phone);
    KindsStay(start, events, id);
    var live := Live(start, events, id, c.phone);
    if live.Some? && !start.stores[id].Upstream? && (start.stores[id].WhatsApp? ==> c.at <= live.value.at + VALIDITY) {
      LiveCodesAreKept(start, events, id, c.phone, c.at);
    }
  }

  /** In every run with a clock that does not go back a verification succeeds exactly when some channel's provider has
      a reason to accept the code. */
  lemma SucceedsExactlyWhenConfirmed<Id>(start: Router<Id>, events: seq<Event>, e: Event)
    requires Initial(start) && Legal(start, events) && e.Checking? && Covers(e.order, start)
    requires CheckedBy(events, e.check.at)
    ensures Winner(After(start, events), e).Some? <==>
            exists ch :: ch in start.channels && Confirms(start, events, ch, e.check)
  {
    VerifyFindsAcceptance(After(start, events), e.order, e.check);
    forall ch | ch in start.channels
      ensures ChannelAccepts(After(start, events), ch, e.check) <==> Confirms(start, events, ch, e.check)
    {
      ConfirmsExactly(start, events, ch, e.check);
    }
  }

  /** And whoever accepts it, has that reason. */
  lemma WinnerConfirms<Id>(start: Router<Id>, events: seq<Event>, e: Event)
    requires Initial(start) && Legal(start, events) && e.Checking? && Covers(e.order, start)
    requires CheckedBy(events, e.check.at) && Winner(After(start, events), e).Some?
    ensures exists ch :: ch in start.channels && Confirms(start, events, ch, e.check) &&
                         start.channels[ch] == Winner(After(start, events), e).value
  {
    VerifyFindsAcceptance(After(start, events), e.order, e.check);
    var ch := Verify(After(start, events), e.order, e.check).0.value;
    ConfirmsExactly(start, events, ch, e.check);
  }

  lemma {:induction false} LatestCheck(events: seq<Event>) returns (now: int)
    ensures CheckedBy(events, now)
  {
    now := 0;
    if events != [] {
      var e := events[|events| - 1];
      now := LatestCheck(events[..|events| - 1]);
      now := if e.Checking? && e.check.at > now then e.check.at else now;
    }
  }

  /** While a sandbox that serves a channel has a live code for the phone, that code is accepted, and so is "000000",
      whatever the clock says. */
  lemma SandboxTakesTestCode<Id>(start: Router<Id>, events: seq<Event>, e: Event, channel: string)
    requires Initial(start) && Legal(start, events) && e.Checking? && Covers(e.order, start) && channel in start.channels
    requires start.stores[start.channels[channel]].Sandbox?
    requires var live := Live(start, events, start.channels[channel], e.check.phone);
             live.Some? && (e.check.code == live.value.code || e.check.code == "000000")
    ensures Winner(After(start, events), e).Some?
  {
    var id := start.channels[channel];
    var now := LatestCheck(events);
    LiveCodesAreKept(start, events, id, e.check.phone, now);
    KindsStay(start, events, id);
    VerifyFindsAcceptance(After(start, events), e.order, e.check);
    assert ChannelAccepts(After(start, events), channel, e.check);
  }

  // ----- Counting -----

  /** The providers that hold a code for a phone. */
  function Outstanding<Id(==)>(r: Router<Id>, phone: string): set<Id> {
    set id | id in r.stores && Holds(r.stores[id], phone)
  }

  /** Sends that reached a provider which keeps codes. */
  function Sends<Id(==)>(start: Router<Id>, events: seq<Event>, phone: string): nat
    requires WellFormed(start)
  {
    if events == [] then 0
    else
      var e := events[|events| - 1];
      Sends(start, events[..|events| - 1], phone) +
      if e.Sending? && e.phone == phone && Target(start, e.channel).Some? &&
         !start.stores[Target(start, e.channel).value].Upstream? then 1 else 0
  }

  /** Each of them is a send to this phone. */
  lemma {:induction false} SendsAreSendings<Id>(start: Router<Id>, events: seq<Event>, phone: string)
    requires WellFormed(start)
    ensures Sends(start, events, phone) <= |Sendings(events, phone)|
  {
    if events != [] {
      SendsAreSendings(start, events[..|events| - 1], phone);
    }
  }

  function Sendings(events: seq<Event>, phone: string): seq<Event> {
    if events == [] then []
    else
      var (init, e) := (events[..|events| - 1], events[|events| - 1]);
      if e.Sending? && e.phone == phone then Sendings(init, phone) + [e] else Sendings(init, phone)
  }

  /** Verifications that succeeded through a provider which keeps codes. */
  function Successes<Id(==)>(start: Router<Id>, events: seq<Event>, phone: string): nat
    requires WellFormed(start) && Legal(start, events)
  {
    if events == [] then 0
    else
      var (init, e) := (events[..|events| - 1], events[|events| - 1]);
      Successes(start, init, phone) +
      if e.Checking? && e.check.phone == phone && Winner(After(start, init), e).Some? &&
         !start.stores[Winner(After(start, init), e).value].Upstream? then 1 else 0
  }

  lemma SubsetSize<T>(a: set<T>, b: set<T>)
    requires a <= b
    ensures |a| <= |b|
  {
    if a != {} {
      var x :| x in a;
      SubsetSize(a - {x}, b - {x});
    }
  }

  lemma SendAddsOne<Id>(r: Router<Id>, channel: string, to: string, code: string, at: int, phone: string)
    requires WellFormed(r)
    ensures |Outstanding(Send(r, channel, to, code, at), phone)| <= |Outstanding(r, phone)| + 1
    ensures phone != to || Target(r, channel).None? || r.stores[Target(r, channel).value].Upstream? ==>
              Outstanding(Send(r, channel, to, code, at), phone) == Outstanding(r, phone)
  {
    if Target(r, channel).Some? {
      var id := Target(r, channel).value;
      SubsetSize(Outstanding(Send(r, channel, to, code, at), phone), Outstanding(r, phone) + {id});
    }
  }

  lemma CheckTakesWinner<Id>(r: Router<Id>, e: Event, phone: string)
    requires WellFormed(r) && e.Checking? && Covers(e.order, r)
    ensures var after := Outstanding(Verify(r, e.order, e.check).1, phone);
            && |after| <= |Outstanding(r, phone)|
            && (e.check.phone == phone && Winner(r, e).Some? && !r.stores[Winner(r, e).value].Upstream? ==>
                  |after| + 1 <= |Outstanding(r, phone)|)
  {
    var r' := Verify(r, e.order, e.check).1;
    forall id | id in r.stores ensures Holds(r'.stores[id], phone) ==> Holds(r.stores[id], phone) {
      VerifyOnStores(r, e.order, e.check, id);
    }
    SubsetSize(Outstanding(r', phone), Outstanding(r, phone));
    if e.check.phone == phone && Winner(r, e).Some? && !r.stores[Winner(r, e).value].Upstream? {
      var id := Winner(r, e).value;
      VerifyOnStores(r, e.order, e.check, id);
      SubsetSize(Outstanding(r', phone), Outstanding(r, phone) - {id});
    }
  }

  /** Conservation over every run: for each phone, successful verifications and outstanding codes together never
      exceed the sends. */
  lemma {:induction false} CodesAreConserved<Id>(start: Router<Id>, events: seq<Event>, phone: string)
    requires Initial(start) && Legal(start, events)
    ensures Successes(start, events, phone) + |Outstanding(After(start, events), phone)| <= Sends(start, events, phone)
  {
    if events == [] {
      assert Outstanding(start, phone) == {};
    } else {
      var (init, e) := (events[..|events| - 1], events[|events| - 1]);
      CodesAreConserved(start, init, phone);
      var before := After(start, init);
      match e {
        case Sending(channel, to, code, at) =>
          SendAddsOne(before, channel, to, code, at, phone);
          if Target(before, channel).Some? {
            StoresHoldLiveCodes(start, init, Target(before, channel).value, phone);
          }
        case Checking(_, _) =>
          CheckTakesWinner(before, e, phone);
          if Winner(before, e).Some? {
            StoresHoldLiveCodes(start, init, Winner(before, e).value, phone);
          }
      }
    }
  }
}
