/** The OTP router as it runs, over providers that update their code maps in place. */
module OtpRouter {
  import opened Options
  import opened OtpRuns

  class WhatsAppProvider {
    var codes: map<string, CodeEntry>

    constructor ()
      ensures codes == map[]
    {
      codes := map[];
    }

    /** The code is stored before the message goes out, so it stands even if delivery then fails. */
    method Send(phone: string, code: string, now: int, delivered: bool) returns (ok: bool)
      modifies this
      ensures WhatsApp(codes) == Sent(WhatsApp(old(codes)), phone, code, now) && ok == delivered
    {
      codes := codes[phone := CodeEntry(code, now + VALIDITY)];
      ok := delivered;
    }

    method Verify(phone: string, code: string, now: int) returns (ok: bool)
      modifies this
      ensures ok == Accepts(WhatsApp(old(codes)), phone, code, now)
      ensures WhatsApp(codes) == Verified(WhatsApp(old(codes)), phone, code, now)
    {
      if phone !in codes {
        return false;
      }
      var entry := codes[phone];
      if now > entry.expiresAt {
        codes := codes - {phone};
        return false;
      }
      if entry.code == code {
        codes := codes - {phone};
        return true;
      }
      return false;
    }
  }

  class SandboxProvider {
    var codes: map<string, string>

    constructor ()
      ensures codes == map[]
    {
      codes := map[];
    }

    method Send(phone: string, code: string, now: int)
      modifies this
      ensures Sandbox(codes) == Sent(Sandbox(old(codes)), phone, code, now)
    {
      codes := codes[phone := code];
    }

    method Verify(phone: string, code: string, now: int) returns (ok: bool)
      modifies this
      ensures ok == Accepts(Sandbox(old(codes)), phone, code, now)
      ensures Sandbox(codes) == Verified(Sandbox(old(codes)), phone, code, now)
    {
      if phone !in codes {
        return false;
      }
      if code == codes[phone] || code == "000000" {
        codes := codes - {phone};
        return true;
      }
      return false;
    }
  }

  /** The providers behind the interface; `Service` is one that keeps its codes elsewhere. */
  datatype Provider = Business(w: WhatsAppProvider) | Test(s: SandboxProvider) | Service(name: string)

  ghost function Objects(p: Provider): set<object> {
    match p
    case Business(w) => {w}
    case Test(s) => {s}
    case Service(_) => {}
  }

  ghost function StoreOf(p: Provider): Store
    reads Objects(p)
  {
    match p
    case Business(w) => WhatsApp(w.codes)
    case Test(s) => Sandbox(s.codes)
    case Service(_) => Upstream
  }

  class Router {
    var providers: map<string, Provider>
    ghost var start: OtpRuns.Router<Provider>
    ghost var events: seq<Event>

    ghost function Footprint(): set<object>
      reads this
    {
      set ch, o | ch in providers && o in Objects(providers[ch]) :: o
    }

    ghost function View(): OtpRuns.Router<Provider>
      reads this, Footprint()
    {
      OtpRuns.Router(providers, map p | p in providers.Values :: StoreOf(p))
    }

    /** The stores are what the calls since the latest registration have made of those found then. */
    ghost predicate Valid()
      reads this, Footprint()
    {
      WellFormed(start) && Legal(start, events) && View() == After(start, events)
    }

    constructor ()
      ensures Valid() && Initial(start) && events == [] && providers == map[]
    {
      providers := map[];
      start, events := OtpRuns.Router(map[], map[]), [];
    }

    /** The channel is served by the provider from now on, and so is every channel without one of its own if this is
        SMS; other channels stay as they are. Registering providers without codes before any send leaves an initial
        router. */
    method Register(channel: string, provider: Provider)
      modifies this
      ensures Valid() && events == [] && start == View() && providers == old(providers)[channel := provider]
      ensures forall ch ::
                Target(View(), ch) ==
                if ch == channel || (ch !in old(providers) && channel == "sms") then Some(provider)
                else Target(old(View()), ch)
      ensures Initial(old(View())) && (forall phone :: !Holds(StoreOf(provider), phone)) ==> Initial(start)
    {
      providers := providers[channel := provider];
      start, events := View(), [];
    }

    /** An unknown channel falls back to SMS; without that there is no provider and nothing changes. */
    method Send(phone: string, channel: string, code: string, now: int, delivered: bool) returns (ok: bool)
      requires Valid()
      modifies this`events, Footprint()
      ensures Valid() && start == old(start) && providers == old(providers)
      ensures events == old(events) + [Sending(channel, phone, code, now)]
      ensures View() == OtpRuns.Send(old(View()), channel, phone, code, now)
      ensures ok <==> Target(old(View()), channel).Some? && (delivered || Target(old(View()), channel).value.Test?)
    {
      ok := SendThrough(phone, channel, code, now, delivered);
      RunSnoc(start, events, Sending(channel, phone, code, now));
      label sent:
      events := events + [Sending(channel, phone, code, now)];
      Untouched@sent();
    }

    method SendThrough(phone: string, channel: string, code: string, now: int, delivered: bool) returns (ok: bool)
      modifies Footprint()
      ensures unchanged(this) && View() == OtpRuns.Send(old(View()), channel, phone, code, now)
      ensures ok <==> Target(old(View()), channel).Some? && (delivered || Target(old(View()), channel).value.Test?)
    {
      var p;
      if channel in providers {
        p := providers[channel];
      } else if "sms" in providers {
        p := providers["sms"];
      } else {
        return false;
      }
      assert p in providers.Values && Objects(p) <= Footprint();
      match p {
        case Business(w) =>
          ok := w.Send(phone, code, now, delivered);
        case Test(s) =>
          s.Send(phone, code, now);
          ok := true;
        case Service(_) =>
          ok := delivered;
      }
      OneProvider(p);
    }

    /** Conservation, of the running router: verifications that succeeded and codes that its providers hold now never
        exceed the sends. */
    lemma HoldsNoMoreThanSent(phone: string)
      requires Valid() && Initial(start)
      ensures Successes(start, events, phone) + |Outstanding(View(), phone)| <= Sends(start, events, phone)
    {
      CodesAreConserved(start, events, phone);
    }

    /** Verification, of the running router: it succeeds exactly when some channel's provider has a reason to accept
        the code. */
    lemma SucceedsExactlyWhenConfirmedHere(order: seq<string>, c: Check)
      requires Valid() && Initial(start) && CheckedBy(events, c.at) && Covers(order, View())
      ensures OtpRuns.Verify(View(), order, c).0.Some? <==>
              exists ch :: ch in providers && Confirms(start, events, ch, c)
    {
      SucceedsExactlyWhenConfirmed(start, events, Checking(c, order));
    }

    /** Only the store of one provider has changed. */
    twostate lemma OneProvider(p: Provider)
      requires unchanged(this) && p in providers.Values
      requires forall q, o | q in providers.Values && q != p && o in Objects(q) :: unchanged(o)
      ensures View() == old(View()).(stores := old(View()).stores[p := StoreOf(p)])
    {
    }

    /** Nothing has changed. */
    twostate lemma Untouched()
      requires providers == old(providers) && forall o | o in Footprint() :: unchanged(o)
      ensures View() == old(View())
    {
      forall p | p in providers.Values ensures StoreOf(p) == old(StoreOf(p)) {
        var ch :| ch in providers && providers[ch] == p;
        match p {
          case Business(w) => assert w in Objects(providers[ch]) && w in Footprint();
          case Test(s) => assert s in Objects(providers[ch]) && s in Footprint();
          case Service(_) =>
        }
      }
    }

    /** The loop over the providers in the order given, with one reading of the clock. */
    method Verify(phone: string, code: string, now: int, order: seq<string>, answers: map<string, bool>) returns (ok: bool)
      requires Valid() && Covers(order, View())
      modifies this`events, Footprint()
      ensures Valid() && start == old(start) && providers == old(providers)
      ensures events == old(events) + [Checking(Check(phone, code, now, answers), order)]
      ensures var (w, r) := OtpRuns.Verify(old(View()), order, Check(phone, code, now, answers));
              ok == w.Some? && View() == r
    {
      ok := VerifyAll(phone, code, now, order, answers);
      RunSnoc(start, events, Checking(Check(phone, code, now, answers), order));
      label verified:
      events := events + [Checking(Check(phone, code, now, answers), order)];
      Untouched@verified();
    }

    method VerifyAll(phone: string, code: string, now: int, order: seq<string>, answers: map<string, bool>) returns (ok: bool)
      requires Covers(order, View())
      modifies Footprint()
      ensures unchanged(this)
      ensures var (w, r) := OtpRuns.Verify(old(View()), order, Check(phone, code, now, answers));
              ok == w.Some? && View() == r
    {
      ghost var c := Check(phone, code, now, answers);
      ghost var start := View();
      for i := 0 to |order|
        invariant unchanged(this) && View().channels == start.channels
        invariant OtpRuns.Verify(View(), order[i..], c) == OtpRuns.Verify(start, order, c)
      {
        var accepted := VerifyTurn(phone, code, now, order, i, answers);
        if accepted {
          return true;
        }
      }
      return false;
    }

    method VerifyTurn(phone: string, code: string, now: int, order: seq<string>, i: nat, answers: map<string, bool>)
      returns (ok: bool)
      requires i < |order| && forall ch | ch in order :: ch in providers
      modifies Footprint()
      ensures unchanged(this) && View().channels == old(View()).channels
      ensures var c := Check(phone, code, now, answers);
              OtpRuns.Verify(old(View()), order[i..], c) ==
              if ok then (Some(order[i]), View()) else OtpRuns.Verify(View(), order[i + 1..], c)
    {
      VerifyStep(View(), order, i, Check(phone, code, now, answers));
      assert order[i] in providers && Objects(providers[order[i]]) <= Footprint();
      ok := VerifyOne(order[i], phone, code, now, answers);
    }

    /** One turn of the loop, on values. */
    lemma VerifyStep(r: OtpRuns.Router<Provider>, order: seq<string>, i: nat, c: Check)
      requires WellFormed(r) && i < |order| && forall ch | ch in order :: ch in r.channels
      ensures order[i] in order
      ensures OtpRuns.Verify(r, order[i..], c) ==
              if ChannelAccepts(r, order[i], c) then (Some(order[i]), Visit(r, order[i], c))
              else OtpRuns.Verify(Visit(r, order[i], c), order[i + 1..], c)
    {
      assert order[i..][1..] == order[i + 1..];
    }

    method VerifyOne(channel: string, phone: string, code: string, now: int, answers: map<string, bool>) returns (ok: bool)
      requires channel in providers
      modifies Objects(providers[channel])
      ensures var c := Check(phone, code, now, answers);
              ok == ChannelAccepts(old(View()), channel, c) && View() == Visit(old(View()), channel, c)
    {
      var p := providers[channel];
      match p {
        case Business(w) =>
          ok := w.Verify(phone, code, now);
        case Test(s) =>
          ok := s.Verify(phone, code, now);
        case Service(_) =>
          ok := channel in answers && answers[channel];
      }
      OneProvider(p);
    }
  }
}
