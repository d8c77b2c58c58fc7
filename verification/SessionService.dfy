/** The verification service as it runs, over session objects that share one mutable status. */
module SessionService {
  import opened Options
  import opened SessionRuns
  import OtpRuns
  import OtpRouter

  /** A stored session; only its status changes after creation. */
  class StoredSession {
    const tenant: string
    const phone: string
    const country: string
    const createdAt: int
    const expiresAt: int
    var status: Status

    constructor (tenant: string, phone: string, country: string, now: int)
      ensures Value() == Session(tenant, phone, country, Pending, now, now + LIFETIME)
    {
      this.tenant, this.phone, this.country := tenant, phone, country;
      createdAt, expiresAt := now, now + LIFETIME;
      status := Pending;
    }

    ghost function Value(): Session
      reads this
    {
      Session(tenant, phone, country, status, createdAt, expiresAt)
    }
  }

  class SessionRepo {
    var sessions: map<string, StoredSession>

    ghost function Objects(): set<StoredSession>
      reads this
    {
      set id | id in sessions :: sessions[id]
    }

    ghost function Values(): map<string, Session>
      reads this, Objects()
    {
      map id | id in sessions :: sessions[id].Value()
    }

    /** No session is stored under two names. */
    ghost predicate Valid()
      reads this
    {
      forall a, b | a in sessions && b in sessions && a != b :: sessions[a] != sessions[b]
    }

    constructor ()
      ensures Valid() && sessions == map[]
    {
      sessions := map[];
    }

    method CreateSession(id: string, session: StoredSession)
      requires Valid() && session !in Objects()
      modifies this
      ensures Valid() && sessions == old(sessions)[id := session]
      ensures Values() == old(Values())[id := session.Value()]
    {
      sessions := sessions[id := session];
    }

    method UpdateSessionStatus(id: string, status: Status) returns (found: bool)
      requires Valid()
      modifies Objects()
      ensures found == (id in sessions) && Valid()
      ensures Values() == if found then Mark(old(Values()), id, status) else old(Values())
    {
      if id !in sessions {
        return false;
      }
      sessions[id].status := status;
      return true;
    }
  }

  datatype Reply = NotFound | Failure | Reply(status: string)

  /** The session exists and is one of the calling tenant. */
  predicate Owned(sessions: map<string, Session>, tenant: string, id: string) {
    id in sessions && sessions[id].tenant == tenant
  }

  class Service {
    const repo: SessionRepo
    const otp: OtpRouter.Router
    ghost var start: OtpRuns.Router<OtpRouter.Provider>
    ghost var calls: seq<Event>

    /** Sessions and codes are what the calls so far have made of the router that the service started with. */
    ghost predicate Valid()
      reads this, repo, repo.Objects(), otp, otp.Footprint()
    {
      && repo.Valid() && otp.Valid()
      && OtpRuns.WellFormed(start) && Legal(start, calls) && View() == After(start, calls)
    }

    constructor (otp: OtpRouter.Router)
      requires otp.Valid()
      ensures Valid() && this.otp == otp && fresh(repo) && start == otp.View() && calls == []
    {
      repo := new SessionRepo();
      this.otp := otp;
      start, calls := otp.View(), [];
    }

    ghost function View(): State<OtpRouter.Provider>
      reads repo, repo.Objects(), otp, otp.Footprint()
    {
      State(repo.Values(), otp.View())
    }

    /** Provenance, of the running service: a session is verified exactly when it was confirmed and has not lapsed. */
    lemma VerifiedExactlyWhenConfirmedHere(id: string)
      requires Valid() && OtpRuns.Initial(start)
      ensures IsVerified(View(), id) <==> Confirmed(start, calls, id)
    {
      VerifiedExactlyWhenConfirmed(start, calls, id);
    }

    /** One more call has had its effect. */
    ghost method Note(before: State<OtpRouter.Provider>, e: Event)
      requires repo.Valid() && otp.Valid() && OtpRuns.WellFormed(start) && Legal(start, calls)
      requires before == After(start, calls) && Enabled(before, e) && View() == Next(before, e)
      modifies this`calls
      ensures Valid() && calls == old(calls) + [e] && View() == old(View())
    {
      RunSnoc(start, calls, e);
      label recorded:
      calls := calls + [e];
      otp.Untouched@recorded();
      SessionsUntouched@recorded();
    }

    method CreateSession(tenant: string, id: string, phone: string, country: string, kind: string, supported: bool, now: int)
      returns (action: string)
      requires Valid() && id !in repo.sessions
      modifies this, repo
      ensures Valid() && start == old(start) && calls == old(calls) + [Create(tenant, id, phone, country, now)]
      ensures View() == Next(old(View()), Create(tenant, id, phone, country, now))
      ensures View().sessions ==
              old(View()).sessions[id := Session(tenant, phone, country, Pending, now, now + 600_000_000_000)]
      ensures action == if (kind == "silent" || kind == "silent_or_otp") && supported then "silent_verify" else "otp"
    {
      ghost var before := View();
      StoreNew(tenant, id, phone, country, now);
      if kind == "silent" || kind == "silent_or_otp" {
        action := if supported then "silent_verify" else "otp";
      } else {
        action := "otp";
      }
      Note(before, Create(tenant, id, phone, country, now));
    }

    method StoreNew(tenant: string, id: string, phone: string, country: string, now: int)
      requires repo.Valid() && id !in repo.sessions
      modifies repo
      ensures repo.Valid() && repo.Values() == old(repo.Values())[id := Session(tenant, phone, country, Pending, now, now + LIFETIME)]
      ensures otp.View() == old(otp.View()) && (old(otp.Valid()) ==> otp.Valid())
    {
      var session := new StoredSession(tenant, phone, country, now);
      repo.CreateSession(id, session);
      otp.Untouched();
    }

    /** Only the status of the session can have changed. */
    method SetStatus(id: string, status: Status)
      requires repo.Valid() && id in repo.sessions
      modifies repo.Objects()
      ensures repo.Valid() && repo.Values() == Mark(old(repo.Values()), id, status)
      ensures otp.View() == old(otp.View()) && (old(otp.Valid()) ==> otp.Valid())
    {
      var _ := repo.UpdateSessionStatus(id, status);
      otp.Untouched();
    }

    method SilentVerify(tenant: string, id: string, now: int, supported: bool, answer: TelcoAnswer) returns (reply: Reply)
      requires Valid()
      modifies this, repo.Objects()
      ensures Valid() && start == old(start) && calls == old(calls) + [Silent(tenant, id, now, supported, answer)]
      ensures View() == Next(old(View()), Silent(tenant, id, now, supported, answer))
      ensures !Owned(old(View()).sessions, tenant, id) ==> reply == NotFound && View().sessions == old(View()).sessions
      ensures Owned(old(View()).sessions, tenant, id) ==>
                var sessions := old(View()).sessions;
                if now > sessions[id].expiresAt then
                  reply == Reply("failed") && View().sessions == sessions[id := sessions[id].(status := Expired)]
                else if !supported || answer.Error? then
                  reply == Reply("fallback_required") && View().sessions == sessions
                else
                  && reply == Reply(answer.status)
                  && View().sessions ==
                     if answer.status == "verified" then sessions[id := sessions[id].(status := Verified)] else sessions
    {
      ghost var before := View();
      reply := SilentlyVerified(tenant, id, now, supported, answer);
      Note(before, Silent(tenant, id, now, supported, answer));
    }

    method SilentlyVerified(tenant: string, id: string, now: int, supported: bool, answer: TelcoAnswer) returns (reply: Reply)
      requires Valid()
      modifies repo.Objects()
      ensures repo.Valid() && otp.Valid()
      ensures View() == Next(old(View()), Silent(tenant, id, now, supported, answer))
      ensures !Owned(old(View()).sessions, tenant, id) ==> reply == NotFound && View().sessions == old(View()).sessions
      ensures Owned(old(View()).sessions, tenant, id) ==>
                var sessions := old(View()).sessions;
                if now > sessions[id].expiresAt then
                  reply == Reply("failed") && View().sessions == sessions[id := sessions[id].(status := Expired)]
                else if !supported || answer.Error? then
                  reply == Reply("fallback_required") && View().sessions == sessions
                else
                  && reply == Reply(answer.status)
                  && View().sessions ==
                     if answer.status == "verified" then sessions[id := sessions[id].(status := Verified)] else sessions
    {
      if id !in repo.sessions {
        return NotFound;
      }
      var session := repo.sessions[id];
      if session.tenant != tenant {
        return NotFound;
      }
      if now > session.expiresAt {
        SetStatus(id, Expired);
        return Reply("failed");
      }
      if !supported || answer == Error {
        return Reply("fallback_required");
      }
      if answer.status == "verified" {
        SetStatus(id, Verified);
      }
      return Reply(answer.status);
    }

    method SendOTP(tenant: string, id: string, channel: string, code: string, now: int, delivered: bool)
      returns (reply: Reply)
      requires Valid()
      modifies this, otp`events, otp.Footprint()
      ensures Valid() && start == old(start)
      ensures calls == old(calls) + [SessionRuns.SendOTP(tenant, id, channel, code, now)]
      ensures View() == Next(old(View()), SessionRuns.SendOTP(tenant, id, channel, code, now))
      ensures View().sessions == old(View()).sessions
      ensures var providers := otp.providers;
              reply == if !Owned(old(View()).sessions, tenant, id) then NotFound
                       else if channel in providers then
                         if delivered || providers[channel].Test? then Reply("sent") else Failure
                       else if "sms" in providers then
                         if delivered || providers["sms"].Test? then Reply("sent") else Failure
                       else Failure
    {
      ghost var before := View();
      reply := SentOTP(tenant, id, channel, code, now, delivered);
      Note(before, SessionRuns.SendOTP(tenant, id, channel, code, now));
    }

    method SentOTP(tenant: string, id: string, channel: string, code: string, now: int, delivered: bool)
      returns (reply: Reply)
      requires Valid()
      modifies otp`events, otp.Footprint()
      ensures repo.Valid() && otp.Valid()
      ensures View() == Next(old(View()), SessionRuns.SendOTP(tenant, id, channel, code, now))
      ensures View().sessions == old(View()).sessions
      ensures var providers := otp.providers;
              reply == if !Owned(old(View()).sessions, tenant, id) then NotFound
                       else if channel in providers then
                         if delivered || providers[channel].Test? then Reply("sent") else Failure
                       else if "sms" in providers then
                         if delivered || providers["sms"].Test? then Reply("sent") else Failure
                       else Failure
    {
      if id !in repo.sessions || repo.sessions[id].tenant != tenant {
        return NotFound;
      }
      SessionsAreNoProviders();
      var sent := otp.Send(repo.sessions[id].phone, channel, code, now, delivered);
      SessionsUntouched();
      reply := if sent then Reply("sent") else Failure;
    }

    lemma SessionsAreNoProviders()
      ensures forall id | id in repo.sessions :: repo.sessions[id] !in otp.Footprint()
    {
    }

    twostate lemma SessionsUntouched()
      requires unchanged(repo) && forall id | id in repo.sessions :: unchanged(repo.sessions[id])
      ensures repo.Values() == old(repo.Values())
    {
    }

    method CheckOTP(tenant: string, id: string, code: string, now: int, order: seq<string>, answers: map<string, bool>)
      returns (reply: Reply)
      requires Valid() && OtpRuns.Covers(order, otp.View())
      modifies this, repo.Objects(), otp`events, otp.Footprint()
      ensures Valid() && start == old(start)
      ensures calls == old(calls) + [SessionRuns.CheckOTP(tenant, id, code, now, order, answers)]
      ensures View() == Next(old(View()), SessionRuns.CheckOTP(tenant, id, code, now, order, answers))
      ensures !Owned(old(View()).sessions, tenant, id) ==> reply == NotFound && View().sessions == old(View()).sessions
      ensures Owned(old(View()).sessions, tenant, id) ==>
                var sessions := old(View()).sessions;
                var check := OtpRuns.Check(sessions[id].phone, code, now, answers);
                if OtpRuns.Verify(old(otp.View()), order, check).0.Some? then
                  reply == Reply("verified") && View().sessions == sessions[id := sessions[id].(status := Verified)]
                else
                  reply == Reply("failed") && View().sessions == sessions
    {
      ghost var before := View();
      reply := CheckedOTP(tenant, id, code, now, order, answers);
      Note(before, SessionRuns.CheckOTP(tenant, id, code, now, order, answers));
    }

    method CheckedOTP(tenant: string, id: string, code: string, now: int, order: seq<string>, answers: map<string, bool>)
      returns (reply: Reply)
      requires Valid() && OtpRuns.Covers(order, otp.View())
      modifies repo.Objects(), otp`events, otp.Footprint()
      ensures repo.Valid() && otp.Valid()
      ensures View() == Next(old(View()), SessionRuns.CheckOTP(tenant, id, code, now, order, answers))
      ensures !Owned(old(View()).sessions, tenant, id) ==> reply == NotFound && View().sessions == old(View()).sessions
      ensures Owned(old(View()).sessions, tenant, id) ==>
                var sessions := old(View()).sessions;
                var check := OtpRuns.Check(sessions[id].phone, code, now, answers);
                if OtpRuns.Verify(old(otp.View()), order, check).0.Some? then
                  reply == Reply("verified") && View().sessions == sessions[id := sessions[id].(status := Verified)]
                else
                  reply == Reply("failed") && View().sessions == sessions
    {
      if id !in repo.sessions || repo.sessions[id].tenant != tenant {
        return NotFound;
      }
      ghost var before := View();
      ghost var e := SessionRuns.CheckOTP(tenant, id, code, now, order, answers);
      SessionsAreNoProviders();
      var ok := otp.Verify(repo.sessions[id].phone, code, now, order, answers);
      SessionsUntouched();
      ghost var (winner, router) := OtpRuns.Verify(before.otp, order, AsCheck(before.sessions[id].phone, e));
      assert ok == winner.Some? && otp.View() == router;
      if ok {
        SetStatus(id, Verified);
      }
      CheckStep(before, e);
      reply := Reply(if ok then "verified" else "failed");
    }

    lemma CheckStep(s: State<OtpRouter.Provider>, e: Event)
      requires Enabled(s, e) && e.CheckOTP? && Authorised(s.sessions, e.tenant, e.id)
      ensures var (winner, router) := OtpRuns.Verify(s.otp, e.order, AsCheck(s.sessions[e.id].phone, e));
              Next(s, e) == State(if winner.Some? then Mark(s.sessions, e.id, Verified) else s.sessions, router)
    {
    }
  }
}
