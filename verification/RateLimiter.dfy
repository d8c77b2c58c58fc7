/** What the sliding-window limiter promises, as a function of the calls made to it. */
module SlidingWindow {

  datatype Call = Call(key: string, at: int)

  datatype Limits = Limits(limit: int, window: int)

  predicate NotAfter(calls: seq<Call>, now: int) {
    forall i | 0 <= i < |calls| :: calls[i].at <= now
  }

  predicate Ordered(calls: seq<Call>) {
    forall i, j | 0 <= i < j < |calls| :: calls[i].at <= calls[j].at
  }

  /** The times after the cutoff, in order. */
  function After(times: seq<int>, cutoff: int): seq<int> {
    FirstAfter(times, |times|, cutoff)
  }

  /** Those among the first `n` times. */
  function FirstAfter(times: seq<int>, n: nat, cutoff: int): seq<int>
    requires n <= |times|
  {
    if n == 0 then [] else FirstAfter(times, n - 1, cutoff) + if times[n - 1] > cutoff then [times[n - 1]] else []
  }

  /** The times in the half-open interval (from, to]. */
  function Between(times: seq<int>, from: int, to: int): seq<int> {
    if times == [] then []
    else
      var (init, last) := (times[..|times| - 1], times[|times| - 1]);
      Between(init, from, to) + if from < last <= to then [last] else []
  }

  function TimesOf(calls: seq<Call>, key: string): seq<int> {
    if calls == [] then []
    else
      var (init, last) := (calls[..|calls| - 1], calls[|calls| - 1]);
      TimesOf(init, key) + if last.key == key then [last.at] else []
  }

  /** The calls of one key, in order. */
  function CallsOf(calls: seq<Call>, key: string): seq<Call> {
    if calls == [] then []
    else
      var (init, last) := (calls[..|calls| - 1], calls[|calls| - 1]);
      CallsOf(init, key) + if last.key == key then [last] else []
  }

  lemma CallsOfSnoc(calls: seq<Call>, c: Call, key: string)
    ensures CallsOf(calls + [c], key) == if c.key == key then CallsOf(calls, key) + [c] else CallsOf(calls, key)
  {
    assert (calls + [c])[..|calls + [c]| - 1] == calls;
  }

  /** Fewer than `limit` of the given admissions have the key of `c` and lie in the window that ends with it. */
  predicate HasRoom(admitted: seq<Call>, c: Call, l: Limits) {
    |After(TimesOf(admitted, c.key), c.at - l.window)| < l.limit
  }

  /** The calls that a limiter which forgets nothing would admit. */
  function Admitted(calls: seq<Call>, l: Limits): seq<Call> {
    if calls == [] then []
    else
      var (init, last) := (calls[..|calls| - 1], calls[|calls| - 1]);
      var before := Admitted(init, l);
      before + if HasRoom(before, last, l) then [last] else []
  }

  function AtLeastZero(n: int): nat {
    if n < 0 then 0 else n
  }

  // ----- Counting -----

  lemma {:induction false} WiderWindowHoldsMore(times: seq<int>, from: int, to: int, cutoff: int)
    requires cutoff <= from
    ensures |Between(times, from, to)| <= |After(times, cutoff)|
  {
    if times != [] {
      AfterInit(times, cutoff);
      WiderWindowHoldsMore(times[..|times| - 1], from, to, cutoff);
    }
  }

  /** Dropping what is too old and then what is older still is dropping once. */
  lemma {:induction false} SamePrefixSameAfter(times: seq<int>, others: seq<int>, n: nat, cutoff: int)
    requires n <= |times| && n <= |others| && forall i | 0 <= i < n :: times[i] == others[i]
    ensures FirstAfter(times, n, cutoff) == FirstAfter(others, n, cutoff)
  {
    if n > 0 {
      SamePrefixSameAfter(times, others, n - 1, cutoff);
    }
  }

  lemma AfterSnoc(times: seq<int>, t: int, cutoff: int)
    ensures After(times + [t], cutoff) == After(times, cutoff) + if t > cutoff then [t] else []
  {
    SamePrefixSameAfter(times + [t], times, |times|, cutoff);
  }

  lemma AfterInit(times: seq<int>, cutoff: int)
    requires times != []
    ensures var (init, last) := (times[..|times| - 1], times[|times| - 1]);
            After(times, cutoff) == After(init, cutoff) + if last > cutoff then [last] else []
  {
    assert times == times[..|times| - 1] + [times[|times| - 1]];
    AfterSnoc(times[..|times| - 1], times[|times| - 1], cutoff);
  }

  lemma {:induction false} AfterTwice(times: seq<int>, early: int, late: int)
    requires early <= late
    ensures After(After(times, early), late) == After(times, late)
  {
    if times != [] {
      var (init, last) := (times[..|times| - 1], times[|times| - 1]);
      AfterTwice(init, early, late);
      AfterInit(times, early);
      AfterInit(times, late);
      if last > early {
        AfterSnoc(After(init, early), last, late);
      } else {
        assert After(times, early) == After(init, early);
      }
    }
  }

  lemma {:induction false} AdmittedNotAfter(calls: seq<Call>, l: Limits, now: int)
    requires NotAfter(calls, now)
    ensures NotAfter(Admitted(calls, l), now)
  {
    if calls != [] {
      AdmittedNotAfter(calls[..|calls| - 1], l, now);
    }
  }

  lemma {:induction false} TimesNotLater(calls: seq<Call>, key: string, now: int)
    requires NotAfter(calls, now)
    ensures forall i | 0 <= i < |TimesOf(calls, key)| :: TimesOf(calls, key)[i] <= now
  {
    if calls != [] {
      TimesNotLater(calls[..|calls| - 1], key, now);
    }
  }

  lemma AdmittedStep(calls: seq<Call>, key: string, l: Limits)
    requires calls != []
    ensures var (init, last) := (calls[..|calls| - 1], calls[|calls| - 1]);
            TimesOf(Admitted(calls, l), key) ==
            TimesOf(Admitted(init, l), key) + if last.key == key && HasRoom(Admitted(init, l), last, l) then [last.at] else []
  {
    var (init, last) := (calls[..|calls| - 1], calls[|calls| - 1]);
    if HasRoom(Admitted(init, l), last, l) {
      var all := Admitted(init, l) + [last];
      assert all[..|all| - 1] == Admitted(init, l);
    } else {
      assert Admitted(calls, l) == Admitted(init, l);
    }
  }

  lemma {:induction false} BetweenIsAfter(times: seq<int>, from: int, to: int)
    requires forall i | 0 <= i < |times| :: times[i] <= to
    ensures Between(times, from, to) == After(times, from)
  {
    if times != [] {
      AfterInit(times, from);
      BetweenIsAfter(times[..|times| - 1], from, to);
    }
  }

  lemma BetweenSnoc(times: seq<int>, t: int, from: int, to: int)
    ensures Between(times + [t], from, to) == Between(times, from, to) + if from < t <= to then [t] else []
  {
    assert (times + [t])[..|times + [t]| - 1] == times;
  }

  /** Safety over every run and every window: at most `limit` calls of a key are admitted in (t - window, t].
      The last admission inside the window already saw the others inside its own. */
  lemma {:induction false} WindowIsBounded(calls: seq<Call>, key: string, l: Limits, t: int)
    ensures |Between(TimesOf(Admitted(calls, l), key), t - l.window, t)| <= AtLeastZero(l.limit)
  {
    if calls != [] {
      var (init, last) := (calls[..|calls| - 1], calls[|calls| - 1]);
      WindowIsBounded(init, key, l, t);
      AdmittedStep(calls, key, l);
      var before := TimesOf(Admitted(init, l), key);
      if last.key == key && HasRoom(Admitted(init, l), last, l) {
        BetweenSnoc(before, last.at, t - l.window, t);
        if t - l.window < last.at <= t {
          WiderWindowHoldsMore(before, t - l.window, t, last.at - l.window);
        }
      } else {
        assert before + [] == before;
      }
    }
  }

  // ----- The limiter as it is: it forgets what it compacts away -----

  predicate Called(calls: seq<Call>, key: string) {
    calls != [] && (calls[|calls| - 1].key == key || Called(calls[..|calls| - 1], key))
  }

  function LastCall(calls: seq<Call>, key: string): int
    requires Called(calls, key)
  {
    if calls[|calls| - 1].key == key then calls[|calls| - 1].at else LastCall(calls[..|calls| - 1], key)
  }

  /** The stored list of a key after `calls`: every call of the key first drops what is out of its window. */
  function Stored(calls: seq<Call>, key: string, l: Limits): seq<int>
    decreases |calls|, 0
  {
    if calls == [] then []
    else
      var (init, last) := (calls[..|calls| - 1], calls[|calls| - 1]);
      if last.key != key then Stored(init, key, l)
      else Kept(init, last, l) + if Allows(init, last, l) then [last.at] else []
  }

  function Kept(calls: seq<Call>, c: Call, l: Limits): seq<int>
    decreases |calls|, 1
  {
    After(Stored(calls, c.key, l), c.at - l.window)
  }

  predicate Allows(calls: seq<Call>, c: Call, l: Limits)
    decreases |calls|, 2
  {
    |Kept(calls, c, l)| < l.limit
  }

  function Allowed(calls: seq<Call>, l: Limits): seq<Call> {
    if calls == [] then []
    else
      var (init, last) := (calls[..|calls| - 1], calls[|calls| - 1]);
      Allowed(init, l) + if Allows(init, last, l) then [last] else []
  }

  /** What one more call does to the stored lists. */
  lemma StoredSnoc(calls: seq<Call>, c: Call, l: Limits)
    ensures Stored(calls + [c], c.key, l) == Kept(calls, c, l) + if Allows(calls, c, l) then [c.at] else []
    ensures forall key | key != c.key :: Stored(calls + [c], key, l) == Stored(calls, key, l)
  {
    assert (calls + [c])[..|calls + [c]| - 1] == calls;
  }

  lemma OrderedInit(calls: seq<Call>)
    requires calls != [] && Ordered(calls)
    ensures Ordered(calls[..|calls| - 1])
    ensures NotAfter(calls[..|calls| - 1], calls[|calls| - 1].at)
  {
  }

  lemma {:induction false} LastCallNotLater(calls: seq<Call>, key: string, now: int)
    requires Called(calls, key) && NotAfter(calls, now)
    ensures LastCall(calls, key) <= now
  {
    if calls[|calls| - 1].key != key {
      LastCallNotLater(calls[..|calls| - 1], key, now);
    }
  }

  lemma {:induction false} UncalledIsEmpty(calls: seq<Call>, key: string, l: Limits)
    requires !Called(calls, key)
    ensures Stored(calls, key, l) == [] && TimesOf(Admitted(calls, l), key) == []
  {
    if calls != [] {
      UncalledIsEmpty(calls[..|calls| - 1], key, l);
      AdmittedStep(calls, key, l);
    }
  }

  lemma {:induction false} StoredNotLater(calls: seq<Call>, key: string, l: Limits, now: int)
    requires NotAfter(calls, now)
    ensures forall i | 0 <= i < |Stored(calls, key, l)| :: Stored(calls, key, l)[i] <= now
  {
    if calls != [] {
      StoredNotLater(calls[..|calls| - 1], key, l, now);
      AfterNotLater(Stored(calls[..|calls| - 1], key, l), calls[|calls| - 1].at - l.window, now);
    }
  }

  lemma {:induction false} AfterNotLater(times: seq<int>, cutoff: int, now: int)
    requires forall i | 0 <= i < |times| :: times[i] <= now
    ensures forall i | 0 <= i < |After(times, cutoff)| :: After(times, cutoff)[i] <= now
    ensures now <= cutoff ==> After(times, cutoff) == []
  {
    if times != [] {
      AfterInit(times, cutoff);
      AfterNotLater(times[..|times| - 1], cutoff, now);
    }
  }

  /** With a clock that does not go back, what compaction forgets is never asked for again: the stored list is
      the whole admission history cut to the window of the last call of the key. */
  lemma {:induction false} StoredIsRecentHistory(calls: seq<Call>, key: string, l: Limits)
    requires Ordered(calls) && Called(calls, key) && l.window > 0
    ensures Stored(calls, key, l) == After(TimesOf(Admitted(calls, l), key), LastCall(calls, key) - l.window)
    decreases |calls|, 0
  {
    var (init, last) := (calls[..|calls| - 1], calls[|calls| - 1]);
    OrderedInit(calls);
    AdmittedStep(calls, key, l);
    if last.key == key {
      DecidesAlike(init, last, l);
      AfterSnoc(TimesOf(Admitted(init, l), key), last.at, last.at - l.window);
      assert TimesOf(Admitted(init, l), key) + [] == TimesOf(Admitted(init, l), key);
    } else {
      StoredIsRecentHistory(init, key, l);
      assert TimesOf(Admitted(init, l), key) + [] == TimesOf(Admitted(init, l), key);
    }
  }

  /** The compacted list leads to the decision that the full history calls for. */
  lemma {:induction false} DecidesAlike(calls: seq<Call>, c: Call, l: Limits)
    requires Ordered(calls) && NotAfter(calls, c.at)
    ensures Kept(calls, c, l) == After(TimesOf(Admitted(calls, l), c.key), c.at - l.window)
    ensures Allows(calls, c, l) == HasRoom(Admitted(calls, l), c, l)
    decreases |calls|, 1
  {
    if l.window <= 0 {
      StoredNotLater(calls, c.key, l, c.at);
      AdmittedNotAfter(calls, l, c.at);
      TimesNotLater(Admitted(calls, l), c.key, c.at);
      AfterNotLater(Stored(calls, c.key, l), c.at - l.window, c.at);
      AfterNotLater(TimesOf(Admitted(calls, l), c.key), c.at - l.window, c.at);
    } else if Called(calls, c.key) {
      StoredIsRecentHistory(calls, c.key, l);
      LastCallNotLater(calls, c.key, c.at);
      AfterTwice(TimesOf(Admitted(calls, l), c.key), LastCall(calls, c.key) - l.window, c.at - l.window);
    } else {
      UncalledIsEmpty(calls, c.key, l);
    }
  }

  /** The limiter that forgets admits exactly the calls that the one that forgets nothing admits. */
  lemma {:induction false} CompactionIsExact(calls: seq<Call>, l: Limits)
    requires Ordered(calls)
    ensures Allowed(calls, l) == Admitted(calls, l)
  {
    if calls != [] {
      OrderedInit(calls);
      CompactionIsExact(calls[..|calls| - 1], l);
      DecidesAlike(calls[..|calls| - 1], calls[|calls| - 1], l);
    }
  }

  /** Safety of the limiter as it is, over every run with a clock that does not go back. */
  lemma AllowedIsBounded(calls: seq<Call>, key: string, l: Limits, t: int)
    requires Ordered(calls)
    ensures |Between(TimesOf(Allowed(calls, l), key), t - l.window, t)| <= AtLeastZero(l.limit)
  {
    CompactionIsExact(calls, l);
    WindowIsBounded(calls, key, l, t);
  }

  lemma RoomIsCounted(admitted: seq<Call>, c: Call, l: Limits)
    requires NotAfter(admitted, c.at)
    ensures HasRoom(admitted, c, l) <==> |Between(TimesOf(admitted, c.key), c.at - l.window, c.at)| < l.limit
  {
    TimesNotLater(admitted, c.key, c.at);
    BetweenIsAfter(TimesOf(admitted, c.key), c.at - l.window, c.at);
  }

  /** A call is refused exactly when its key already has `limit` admissions in the window that ends with it. */
  lemma AllowsExactlyWhenRoom(calls: seq<Call>, c: Call, l: Limits)
    requires Ordered(calls) && NotAfter(calls, c.at)
    ensures Allows(calls, c, l) <==>
            |Between(TimesOf(Allowed(calls, l), c.key), c.at - l.window, c.at)| < l.limit
  {
    DecidesAlike(calls, c, l);
    AdmittedNotAfter(calls, l, c.at);
    RoomIsCounted(Admitted(calls, l), c, l);
    CompactionIsExact(calls, l);
  }

  /** The stored list never outgrows the limit. */
  lemma {:induction false} StoredIsBounded(calls: seq<Call>, key: string, l: Limits)
    ensures |Stored(calls, key, l)| <= AtLeastZero(l.limit)
  {
    if calls != [] {
      var (init, last) := (calls[..|calls| - 1], calls[|calls| - 1]);
      StoredIsBounded(init, key, l);
      AfterShorter(Stored(init, key, l), last.at - l.window);
    }
  }

  lemma {:induction false} AfterShorter(times: seq<int>, cutoff: int)
    ensures |After(times, cutoff)| <= |times|
  {
    if times != [] {
      AfterInit(times, cutoff);
      AfterShorter(times[..|times| - 1], cutoff);
    }
  }

  lemma {:induction false} StoredOfKey(calls: seq<Call>, key: string, l: Limits)
    ensures Stored(calls, key, l) == Stored(CallsOf(calls, key), key, l)
  {
    if calls != [] {
      var (init, last) := (calls[..|calls| - 1], calls[|calls| - 1]);
      StoredOfKey(init, key, l);
      if last.key == key {
        StoredSnoc(CallsOf(init, key), last, l);
      } else {
        assert CallsOf(calls, key) == CallsOf(init, key);
      }
    }
  }

  lemma AllowedSnoc(calls: seq<Call>, c: Call, l: Limits)
    ensures Allowed(calls + [c], l) == if Allows(calls, c, l) then Allowed(calls, l) + [c] else Allowed(calls, l)
  {
    assert (calls + [c])[..|calls + [c]| - 1] == calls;
  }

  lemma AllowsOfKey(calls: seq<Call>, c: Call, l: Limits)
    ensures Allows(calls, c, l) == Allows(CallsOf(calls, c.key), c, l)
  {
    StoredOfKey(calls, c.key, l);
  }

  lemma OneMoreOfKey(calls: seq<Call>, c: Call, key: string, l: Limits, own: seq<Call>, allowed: seq<Call>)
    requires own == CallsOf(calls, key) && allowed == Allowed(calls, l) && CallsOf(allowed, key) == Allowed(own, l)
    ensures CallsOf(Allowed(calls + [c], l), key) == Allowed(CallsOf(calls + [c], key), l)
  {
    AllowedSnoc(calls, c, l);
    AllowedSnoc(own, c, l);
    CallsOfSnoc(allowed, c, key);
    CallsOfSnoc(calls, c, key);
    AllowsOfKey(calls, c, l);
  }

  /** What is admitted of a key is what is admitted when no other key calls. */
  lemma {:induction false} KeysAreIndependent(calls: seq<Call>, key: string, l: Limits)
    ensures CallsOf(Allowed(calls, l), key) == Allowed(CallsOf(calls, key), l)
  {
    if calls != [] {
      var (init, last) := (calls[..|calls| - 1], calls[|calls| - 1]);
      KeysAreIndependent(init, key, l);
      OneMoreOfKey(init, last, key, l, CallsOf(init, key), Allowed(init, l));
      assert calls == init + [last];
    }
  }
}

/** The limiter as it runs: one slice of times per key, compacted in place at every call. */
module RateLimiter {
  import opened SlidingWindow

  /** A Go slice that starts at its backing array: the first `len` elements of `buf`. */
  datatype Slice = Slice(buf: array<int>, len: nat)

  class RateLimiter {
    var requests: map<string, Slice>
    const limits: Limits
    ghost var calls: seq<Call>

    ghost function Buffers(): set<array<int>>
      reads this
    {
      set k | k in requests :: requests[k].buf
    }

    /** The list of a key is what its calls leave behind. */
    ghost predicate Agrees(key: string)
      reads this, Buffers()
    {
      if key !in requests then Stored(calls, key, limits) == []
      else var s := requests[key]; s.len <= s.buf.Length && s.buf[..s.len] == Stored(calls, key, limits)
    }

    /** Every list is what its calls leave behind, and no two keys share storage. */
    ghost predicate Valid()
      reads this, Buffers()
    {
      && Ordered(calls)
      && (forall k :: Agrees(k))
      && (forall k, k' | k in requests && k' in requests && k != k' :: requests[k].buf != requests[k'].buf)
    }

    constructor (limit: int, window: int)
      ensures Valid() && fresh(Buffers()) && calls == [] && limits == Limits(limit, window)
    {
      requests := map[];
      limits := Limits(limit, window);
      calls := [];
    }

    /** The decision of the forgetting limiter, with the clock read under the lock and so never going back. */
    method Allow(key: string, now: int) returns (ok: bool)
      requires Valid() && NotAfter(calls, now)
      modifies this, Buffers()
      ensures Valid() && fresh(Buffers() - old(Buffers()))
      ensures calls == old(calls) + [Call(key, now)]
      ensures ok == Allows(old(calls), Call(key, now), limits)
    {
      var empty := new int[0];
      var times := if key in requests then requests[key] else Slice(empty, 0);
      ghost var c := Call(key, now);
      var valid;
      assert Agrees(key);
      ok, valid := CompactAndRecord(times, now, limits);
      OthersAgree(key);
      label compacted:
      requests := requests[key := valid];
      calls := calls + [c];
      AllAgree@compacted(c, valid);
    }

    /** The lists of the other keys after one slice has been rewritten. */
    twostate lemma OthersAgree(key: string)
      requires old(Valid()) && unchanged(this)
      requires forall k | k in requests && k != key :: unchanged(requests[k].buf)
      ensures forall k | k != key :: Agrees(k)
    {
      forall k | k != key ensures Agrees(k) {
        assert old(Agrees(k));
      }
    }

    /** All lists after the rewritten slice has been stored under its key. */
    twostate lemma AllAgree(c: Call, new valid: Slice)
      requires forall k | k != c.key :: old(Agrees(k))
      requires requests == old(requests)[c.key := valid] && calls == old(calls) + [c]
      requires forall k | k in old(requests) :: unchanged(old(requests)[k].buf)
      requires valid.len <= valid.buf.Length
      requires valid.buf[..valid.len] ==
               Kept(old(calls), c, limits) + if Allows(old(calls), c, limits) then [c.at] else []
      ensures forall k :: Agrees(k)
    {
      StoredSnoc(old(calls), c, limits);
      forall k | k != c.key ensures Agrees(k) {
        assert old(Agrees(k));
      }
    }
  }

  method CompactAndRecord(times: Slice, now: int, l: Limits) returns (ok: bool, valid: Slice)
    requires times.len <= times.buf.Length
    modifies times.buf
    ensures valid.len <= valid.buf.Length && (valid.buf == times.buf || fresh(valid.buf))
    ensures var kept := After(old(times.buf[..times.len]), now - l.window);
            ok == (|kept| < l.limit) && valid.buf[..valid.len] == kept + if ok then [now] else []
  {
    var kept := Compact(times.buf, times.len, now - l.window);
    ok := kept < l.limit;
    valid := Slice(times.buf, kept);
    if ok {
      valid := Append(valid, now);
    }
  }

  /** `valid := times[:0]` and the loop that appends to it: the write index never passes the read index. */
  method Compact(buf: array<int>, len: nat, cutoff: int) returns (kept: nat)
    requires len <= buf.Length
    modifies buf
    ensures kept <= len && buf[..kept] == After(old(buf[..len]), cutoff)
  {
    kept := 0;
    for i := 0 to len
      invariant kept <= i
      invariant buf[..kept] == After(old(buf[..i]), cutoff)
      invariant buf[i..len] == old(buf[i..len])
    {
      var t := buf[i];
      assert t == old(buf[i]);
      assert old(buf[..i + 1]) == old(buf[..i]) + [t];
      AfterSnoc(old(buf[..i]), t, cutoff);
      if t > cutoff {
        buf[kept] := t;
        assert buf[..kept + 1] == buf[..kept] + [t];
        kept := kept + 1;
      }
    }
  }

  /** Go's `append` of one element: in place while the capacity lasts, else into a larger copy. */
  method Append(s: Slice, t: int) returns (r: Slice)
    requires s.len <= s.buf.Length
    modifies s.buf
    ensures r.len <= r.buf.Length && r.buf[..r.len] == old(s.buf[..s.len]) + [t]
    ensures r.buf == s.buf || fresh(r.buf)
  {
    ghost var before := s.buf[..s.len];
    if s.len < s.buf.Length {
      s.buf[s.len] := t;
      r := Slice(s.buf, s.len + 1);
    } else {
      var larger := new int[2 * s.len + 1];
      for i := 0 to s.len
        invariant s.buf[..s.len] == before && larger[..i] == before[..i]
      {
        larger[i] := s.buf[i];
      }
      assert larger[..s.len] == before;
      larger[s.len] := t;
      r := Slice(larger, s.len + 1);
    }
    assert r.buf[..s.len] == before && r.buf[s.len] == t;
    assert r.buf[..r.len] == before + [t];
  }
}
