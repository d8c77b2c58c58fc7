/** The Redis limiter: one expiring counter per key and fixed bucket of time. */
module FixedBuckets {
  import opened SlidingWindow

  /** Nanoseconds in a second, the unit of the clock. */
  const SECOND := 1_000_000_000

  /** A call that reads the clock at `read` and reaches Redis at `at`. */
  datatype Hit = Hit(key: string, read: int, at: int)

  datatype Entry = Entry(count: nat, expiresAt: int)

  type Store = map<(string, int), Entry>

  /** The calls as Redis serves them, one after the other, none before it has read the clock. Nothing orders the
      readings. */
  predicate Arriving(hits: seq<Hit>) {
    && (forall i | 0 <= i < |hits| :: hits[i].read <= hits[i].at)
    && forall i, j | 0 <= i < j < |hits| :: hits[i].at <= hits[j].at
  }

  predicate NoneAfter(hits: seq<Hit>, now: int) {
    forall i | 0 <= i < |hits| :: hits[i].at <= now
  }

  /** The bucket of a time: whole seconds divided by the window in seconds. */
  function BucketOf(at: int, secs: nat): int
    requires secs > 0
  {
    (at / SECOND) / secs
  }

  function Width(secs: nat): nat { secs * SECOND }

  /** INCR on an entry that has expired, or was never made, starts from zero. */
  function LiveCount(store: Store, slot: (string, int), now: int): nat {
    if slot in store && now < store[slot].expiresAt then store[slot].count else 0
  }

  /** The counter of a call: its key and the bucket of its reading. */
  function Slot(h: Hit, secs: nat): (string, int)
    requires secs > 0
  {
    (h.key, BucketOf(h.read, secs))
  }

  /** One call on a counter: it is incremented and its time to live starts again. */
  function Counted(store: Store, slot: (string, int), at: int, secs: nat): Store {
    store[slot := Entry(LiveCount(store, slot, at) + 1, at + Width(secs))]
  }

  /** The store after the calls: each increments its counter and refreshes its time to live. */
  function StoreAfter(hits: seq<Hit>, secs: nat): Store
    requires secs > 0
  {
    if hits == [] then map[]
    else
      var (init, last) := (hits[..|hits| - 1], hits[|hits| - 1]);
      Counted(StoreAfter(init, secs), Slot(last, secs), last.at, secs)
  }

  /** How many of the calls fell into a bucket of a key. */
  function Arrivals(hits: seq<Hit>, slot: (string, int), secs: nat): nat
    requires secs > 0
  {
    if hits == [] then 0
    else
      Arrivals(hits[..|hits| - 1], slot, secs) + if Slot(hits[|hits| - 1], secs) == slot then 1 else 0
  }

  /** The calls let through: those that find at most `limit` on their counter. */
  function Passed(hits: seq<Hit>, limit: int, secs: nat): seq<Hit>
    requires secs > 0
  {
    if hits == [] then []
    else
      var (init, last) := (hits[..|hits| - 1], hits[|hits| - 1]);
      Passed(init, limit, secs) +
      if LiveCount(StoreAfter(init, secs), Slot(last, secs), last.at) + 1 > limit then [] else [last]
  }

  /** When the last call of a bucket arrived; `none` if there was none. */
  function LastArrival(hits: seq<Hit>, slot: (string, int), secs: nat, none: int): int
    requires secs > 0
  {
    if hits == [] then none
    else if Slot(hits[|hits| - 1], secs) == slot then hits[|hits| - 1].at
    else LastArrival(hits[..|hits| - 1], slot, secs, none)
  }

  /** Each call of the bucket arrives less than a window after the one before it. */
  predicate KeepsUp(hits: seq<Hit>, slot: (string, int), secs: nat)
    requires secs > 0
  {
    hits == [] ||
    var (init, last) := (hits[..|hits| - 1], hits[|hits| - 1]);
    && KeepsUp(init, slot, secs)
    && (Slot(last, secs) == slot ==> last.at < LastArrival(init, slot, secs, last.at) + Width(secs))
  }

  // ----- Buckets -----

  lemma MulMonotone(a: int, b: int, k: nat)
    requires a <= b
    ensures a * k <= b * k
  {
  }

  /** A bucket is an interval of one window length. */
  lemma BucketBounds(at: int, secs: nat)
    requires secs > 0
    ensures var b := BucketOf(at, secs); b * Width(secs) <= at < (b + 1) * Width(secs)
    ensures Width(secs) == secs * 1_000_000_000
  {
    var q := at / SECOND;
    var b := q / secs;
    assert q * SECOND <= at < (q + 1) * SECOND;
    assert b * secs <= q && q + 1 <= (b + 1) * secs;
    MulMonotone(b * secs, q, SECOND);
    MulMonotone(q + 1, (b + 1) * secs, SECOND);
    assert b * secs * SECOND == b * (secs * SECOND) && (b + 1) * secs * SECOND == (b + 1) * (secs * SECOND);
  }

  lemma InBucketExactlyWhenBetween(at: int, b: int, secs: nat)
    requires secs > 0
    ensures BucketOf(at, secs) == b <==> b * Width(secs) <= at < (b + 1) * Width(secs)
  {
    BucketBounds(at, secs);
    var (a, w) := (BucketOf(at, secs), Width(secs));
    if a < b {
      MulMonotone(a + 1, b, w);
    } else if a > b {
      MulMonotone(b + 1, a, w);
    }
  }

  /** Times less than a window apart lie in the same bucket or in neighbouring ones. */
  lemma NearTimesNearBuckets(from: int, to: int, secs: nat)
    requires secs > 0 && from <= to < from + Width(secs)
    ensures BucketOf(from, secs) <= BucketOf(to, secs) <= BucketOf(from, secs) + 1
  {
    BucketBounds(from, secs);
    BucketBounds(to, secs);
    var (a, b, w) := (BucketOf(from, secs), BucketOf(to, secs), Width(secs));
    if b < a {
      MulMonotone(b + 1, a, w);
    }
    if b > a + 1 {
      MulMonotone(a + 2, b, w);
    }
  }

  // ----- One more call -----

  lemma ArrivingSnoc(hits: seq<Hit>, h: Hit)
    requires Arriving(hits) && h.read <= h.at && NoneAfter(hits, h.at)
    ensures Arriving(hits + [h])
  {
  }

  lemma StoreSnoc(hits: seq<Hit>, h: Hit, secs: nat)
    requires secs > 0
    ensures StoreAfter(hits + [h], secs) == Counted(StoreAfter(hits, secs), Slot(h, secs), h.at, secs)
  {
    assert (hits + [h])[..|hits + [h]| - 1] == hits;
  }

  lemma PassedSnoc(hits: seq<Hit>, h: Hit, limit: int, secs: nat)
    requires secs > 0
    ensures Passed(hits + [h], limit, secs) ==
            if LiveCount(StoreAfter(hits, secs), Slot(h, secs), h.at) + 1 > limit then Passed(hits, limit, secs)
            else Passed(hits, limit, secs) + [h]
  {
    assert (hits + [h])[..|hits + [h]| - 1] == hits;
  }

  lemma ArrivalsSnoc(hits: seq<Hit>, h: Hit, slot: (string, int), secs: nat)
    requires secs > 0
    ensures Arrivals(hits + [h], slot, secs) == Arrivals(hits, slot, secs) + if Slot(h, secs) == slot then 1 else 0
  {
    assert (hits + [h])[..|hits + [h]| - 1] == hits;
  }

  lemma KeepsUpSnoc(hits: seq<Hit>, h: Hit, slot: (string, int), secs: nat)
    requires secs > 0
    ensures KeepsUp(hits + [h], slot, secs) <==>
            KeepsUp(hits, slot, secs) &&
            (Slot(h, secs) == slot ==> h.at < LastArrival(hits, slot, secs, h.at) + Width(secs))
    ensures forall none ::
              LastArrival(hits + [h], slot, secs, none) ==
              if Slot(h, secs) == slot then h.at else LastArrival(hits, slot, secs, none)
  {
    assert (hits + [h])[..|hits + [h]| - 1] == hits;
  }

  // ----- What a counter tells -----

  /** A counter of a run: it lives one window from the last arrival, and it holds the number of arrivals exactly if
      they kept up. */
  predicate Tells(store: Store, slot: (string, int), n: nat, last: int, keptUp: bool, secs: nat) {
    && (slot in store <==> n > 0)
    && (n == 0 ==> keptUp)
    && (slot in store ==>
          && store[slot].expiresAt == last + Width(secs) && 1 <= store[slot].count <= n
          && (store[slot].count == n <==> keptUp))
  }

  lemma TellsStep(store: Store, slot: (string, int), n: nat, last: int, keptUp: bool, secs: nat, at: int)
    requires secs > 0 && Tells(store, slot, n, last, keptUp, secs)
    ensures Tells(Counted(store, slot, at, secs), slot, n + 1, at, keptUp && (n > 0 ==> at < last + Width(secs)), secs)
  {
  }

  /** The counters of a run hold the arrivals of their buckets exactly where these kept up, and live one window from
      the last arrival. */
  lemma {:induction false} CountersTellArrivals(hits: seq<Hit>, slot: (string, int), secs: nat, none: int)
    requires secs > 0
    ensures Tells(StoreAfter(hits, secs), slot, Arrivals(hits, slot, secs), LastArrival(hits, slot, secs, none),
                  KeepsUp(hits, slot, secs), secs)
    ensures Arrivals(hits, slot, secs) == 0 ==> LastArrival(hits, slot, secs, none) == none
  {
    if hits != [] {
      var (init, last) := (hits[..|hits| - 1], hits[|hits| - 1]);
      CountersTellArrivals(init, slot, secs, none);
      if Slot(last, secs) == slot {
        CountersTellArrivals(init, slot, secs, last.at);
        TellsStep(StoreAfter(init, secs), slot, Arrivals(init, slot, secs), LastArrival(init, slot, secs, last.at),
                  KeepsUp(init, slot, secs), secs, last.at);
      }
    }
  }

  /** A call finds on its counter the earlier calls of its key in its bucket, exactly if all of them kept up. */
  lemma CallFindsArrivals(hits: seq<Hit>, h: Hit, secs: nat)
    requires secs > 0
    ensures LiveCount(StoreAfter(hits, secs), Slot(h, secs), h.at) <= Arrivals(hits, Slot(h, secs), secs)
    ensures LiveCount(StoreAfter(hits, secs), Slot(h, secs), h.at) == Arrivals(hits, Slot(h, secs), secs) <==>
            KeepsUp(hits + [h], Slot(h, secs), secs)
  {
    CountersTellArrivals(hits, Slot(h, secs), secs, h.at);
    KeepsUpSnoc(hits, h, Slot(h, secs), secs);
  }

  /** Every call arrives in the bucket in which it read the clock. */
  predicate Prompt(hits: seq<Hit>, secs: nat)
    requires secs > 0
  {
    forall i | 0 <= i < |hits| :: BucketOf(hits[i].at, secs) == BucketOf(hits[i].read, secs)
  }

  lemma {:induction false} LastArrivalIsPrompt(hits: seq<Hit>, slot: (string, int), secs: nat, none: int)
    requires secs > 0 && Prompt(hits, secs) && BucketOf(none, secs) == slot.1
    ensures BucketOf(LastArrival(hits, slot, secs, none), secs) == slot.1
  {
    if hits != [] && Slot(hits[|hits| - 1], secs) != slot {
      LastArrivalIsPrompt(hits[..|hits| - 1], slot, secs, none);
    }
  }

  /** The refreshed time to live never lets a counter lapse inside its bucket: calls that arrive there keep up. */
  lemma {:induction false} PromptCallsKeepUp(hits: seq<Hit>, slot: (string, int), secs: nat)
    requires secs > 0 && Prompt(hits, secs)
    ensures KeepsUp(hits, slot, secs)
  {
    if hits != [] {
      var (init, last) := (hits[..|hits| - 1], hits[|hits| - 1]);
      PromptCallsKeepUp(init, slot, secs);
      if Slot(last, secs) == slot {
        LastArrivalIsPrompt(init, slot, secs, last.at);
        BucketBounds(last.at, secs);
        BucketBounds(LastArrival(init, slot, secs, last.at), secs);
        assert (slot.1 + 1) * Width(secs) == slot.1 * Width(secs) + Width(secs);
      }
    }
  }

  // ----- What a bucket lets through -----

  function Min(a: int, b: int): int {
    if a <= b then a else b
  }

  lemma OneMorePasses(hits: seq<Hit>, h: Hit, slot: (string, int), limit: int, secs: nat)
    requires secs > 0
    ensures Arrivals(Passed(hits + [h], limit, secs), slot, secs) ==
            Arrivals(Passed(hits, limit, secs), slot, secs) +
            if Slot(h, secs) == slot && LiveCount(StoreAfter(hits, secs), slot, h.at) + 1 <= limit then 1 else 0
  {
    PassedSnoc(hits, h, limit, secs);
    ArrivalsSnoc(Passed(hits, limit, secs), h, slot, secs);
  }

  /** A bucket that keeps up lets through the smaller of the limit and its arrivals, refused calls included in the
      latter. */
  lemma {:induction false} BucketPasses(hits: seq<Hit>, slot: (string, int), limit: int, secs: nat)
    requires secs > 0 && KeepsUp(hits, slot, secs)
    ensures Arrivals(Passed(hits, limit, secs), slot, secs) ==
            Min(AtLeastZero(limit), Arrivals(hits, slot, secs))
  {
    if hits != [] {
      var (init, last) := (hits[..|hits| - 1], hits[|hits| - 1]);
      assert hits == init + [last];
      BucketPasses(init, slot, limit, secs);
      CallFindsArrivals(init, last, secs);
      OneMorePasses(init, last, slot, limit, secs);
    }
  }

  /** A bucket that does not keep up lets more than some limit through: after the lapse its counter starts again. */
  lemma {:induction false} LapseLetsMorePass(hits: seq<Hit>, slot: (string, int), secs: nat) returns (limit: nat)
    requires secs > 0 && !KeepsUp(hits, slot, secs)
    ensures Arrivals(Passed(hits, limit, secs), slot, secs) > limit
  {
    var (init, last) := (hits[..|hits| - 1], hits[|hits| - 1]);
    assert hits == init + [last];
    if KeepsUp(init, slot, secs) {
      limit := Arrivals(init, slot, secs);
      BucketPasses(init, slot, limit, secs);
      CountersTellArrivals(init, slot, secs, last.at);
    } else {
      limit := LapseLetsMorePass(init, slot, secs);
    }
    OneMorePasses(init, last, slot, limit, secs);
  }

  /** The bucket lets through the smaller of its arrivals and the limit, whatever the limit, exactly if each of its
      calls arrives less than a window after the one before it. */
  lemma BucketPassesExactlyWhenKeepingUp(hits: seq<Hit>, slot: (string, int), secs: nat)
    requires secs > 0
    ensures (forall limit ::
               Arrivals(Passed(hits, limit, secs), slot, secs) == Min(AtLeastZero(limit), Arrivals(hits, slot, secs)))
            <==> KeepsUp(hits, slot, secs)
  {
    if KeepsUp(hits, slot, secs) {
      forall limit
        ensures Arrivals(Passed(hits, limit, secs), slot, secs) == Min(AtLeastZero(limit), Arrivals(hits, slot, secs))
      {
        BucketPasses(hits, slot, limit, secs);
      }
    } else {
      var limit := LapseLetsMorePass(hits, slot, secs);
    }
  }

  /** All that one more call changes. */
  lemma OneMoreHit(hits: seq<Hit>, h: Hit, limit: int, secs: nat)
    requires secs > 0
    ensures var count := LiveCount(StoreAfter(hits, secs), Slot(h, secs), h.at) + 1;
            && StoreAfter(hits + [h], secs) == Counted(StoreAfter(hits, secs), Slot(h, secs), h.at, secs)
            && Passed(hits + [h], limit, secs) ==
               (if count > limit then Passed(hits, limit, secs) else Passed(hits, limit, secs) + [h])
            && count <= Arrivals(hits + [h], Slot(h, secs), secs)
            && (count == Arrivals(hits + [h], Slot(h, secs), secs) <==> KeepsUp(hits + [h], Slot(h, secs), secs))
  {
    StoreSnoc(hits, h, secs);
    PassedSnoc(hits, h, limit, secs);
    ArrivalsSnoc(hits, h, Slot(h, secs), secs);
    CallFindsArrivals(hits, h, secs);
  }

  // ----- What intervals let through -----

  /** When the calls of a key read the clock. */
  function ReadTimes(hits: seq<Hit>, key: string): seq<int> {
    if hits == [] then []
    else
      var (init, last) := (hits[..|hits| - 1], hits[|hits| - 1]);
      if last.key == key then ReadTimes(init, key) + [last.read] else ReadTimes(init, key)
  }

  /** All buckets of the key keep up. */
  ghost predicate KeyKeepsUp(hits: seq<Hit>, key: string, secs: nat)
    requires secs > 0
  {
    forall b :: KeepsUp(hits, (key, b), secs)
  }

  /** A window meets at most two buckets. */
  lemma {:induction false} WindowMeetsTwoBuckets(hits: seq<Hit>, key: string, t: int, secs: nat)
    requires secs > 0
    ensures var b := BucketOf(t, secs);
            |Between(ReadTimes(hits, key), t - Width(secs), t)| <=
            Arrivals(hits, (key, b - 1), secs) + Arrivals(hits, (key, b), secs)
  {
    if hits != [] {
      var (init, last) := (hits[..|hits| - 1], hits[|hits| - 1]);
      WindowMeetsTwoBuckets(init, key, t, secs);
      if last.key == key {
        BetweenSnoc(ReadTimes(init, key), last.read, t - Width(secs), t);
        if t - Width(secs) < last.read <= t {
          NearTimesNearBuckets(last.read, t, secs);
        }
      }
    }
  }

  /** Safety over every run in which the key keeps up, and every window: at most twice the limit is let through in
      (t - window, t]. */
  lemma AnyWindowPassesTwiceTheLimit(hits: seq<Hit>, key: string, limit: int, secs: nat, t: int)
    requires secs > 0 && KeyKeepsUp(hits, key, secs)
    ensures |Between(ReadTimes(Passed(hits, limit, secs), key), t - Width(secs), t)| <= 2 * AtLeastZero(limit)
  {
    var b := BucketOf(t, secs);
    WindowMeetsTwoBuckets(Passed(hits, limit, secs), key, t, secs);
    BucketPasses(hits, (key, b - 1), limit, secs);
    BucketPasses(hits, (key, b), limit, secs);
  }

  lemma {:induction false} IntervalInBucket(hits: seq<Hit>, key: string, t: int, u: int, secs: nat)
    requires secs > 0 && t <= u && BucketOf(t, secs) == BucketOf(u, secs)
    ensures |Between(ReadTimes(hits, key), t - 1, u)| <= Arrivals(hits, (key, BucketOf(u, secs)), secs)
  {
    if hits != [] {
      var (init, last) := (hits[..|hits| - 1], hits[|hits| - 1]);
      IntervalInBucket(init, key, t, u, secs);
      if last.key == key {
        BetweenSnoc(ReadTimes(init, key), last.read, t - 1, u);
        InBucketExactlyWhenBetween(t, BucketOf(u, secs), secs);
        InBucketExactlyWhenBetween(u, BucketOf(u, secs), secs);
        InBucketExactlyWhenBetween(last.read, BucketOf(u, secs), secs);
      }
    }
  }

  /** A window that is one bucket passes at most the limit. */
  lemma WholeBucketPassesTheLimit(hits: seq<Hit>, key: string, limit: int, secs: nat, b: int)
    requires secs > 0 && KeyKeepsUp(hits, key, secs)
    ensures |Between(ReadTimes(Passed(hits, limit, secs), key), b * Width(secs) - 1, (b + 1) * Width(secs) - 1)|
            <= AtLeastZero(limit)
  {
    var (t, u) := (b * Width(secs), (b + 1) * Width(secs) - 1);
    assert (b + 1) * Width(secs) == b * Width(secs) + Width(secs);
    InBucketExactlyWhenBetween(t, b, secs);
    InBucketExactlyWhenBetween(u, b, secs);
    IntervalInBucket(Passed(hits, limit, secs), key, t, u, secs);
    BucketPasses(hits, (key, b), limit, secs);
  }

  // ----- It is not the sliding window that its comment announces -----

  function Burst(n: nat, key: string, at: int): seq<Hit> {
    if n == 0 then [] else Burst(n - 1, key, at) + [Hit(key, at, at)]
  }

  /** `n` calls of a key at one time, then `n` at another. */
  function TwoBursts(n: nat, key: string, t: int, u: int): seq<Hit> {
    Burst(n, key, t) + Burst(n, key, u)
  }

  lemma {:induction false} BurstCalls(n: nat, key: string, at: int)
    ensures |Burst(n, key, at)| == n && forall i | 0 <= i < n :: Burst(n, key, at)[i] == Hit(key, at, at)
  {
    if n > 0 {
      BurstCalls(n - 1, key, at);
    }
  }

  lemma {:induction false} ArrivalsConcat(xs: seq<Hit>, ys: seq<Hit>, slot: (string, int), secs: nat)
    requires secs > 0
    ensures Arrivals(xs + ys, slot, secs) == Arrivals(xs, slot, secs) + Arrivals(ys, slot, secs)
  {
    if ys == [] {
      assert xs + ys == xs;
    } else {
      assert (xs + ys)[..|xs + ys| - 1] == xs + ys[..|ys| - 1];
      ArrivalsConcat(xs, ys[..|ys| - 1], slot, secs);
    }
  }

  lemma {:induction false} BurstArrivals(n: nat, key: string, at: int, slot: (string, int), secs: nat)
    requires secs > 0
    ensures Arrivals(Burst(n, key, at), slot, secs) == if slot == (key, BucketOf(at, secs)) then n else 0
  {
    if n > 0 {
      BurstArrivals(n - 1, key, at, slot, secs);
      ArrivalsSnoc(Burst(n - 1, key, at), Hit(key, at, at), slot, secs);
    }
  }

  /** A run whose buckets all stay within the limit is let through whole. */
  lemma {:induction false} PassesWithinLimit(hits: seq<Hit>, limit: int, secs: nat)
    requires secs > 0 && forall slot :: Arrivals(hits, slot, secs) <= AtLeastZero(limit)
    ensures Passed(hits, limit, secs) == hits
  {
    if hits != [] {
      var (init, last) := (hits[..|hits| - 1], hits[|hits| - 1]);
      assert hits == init + [last];
      forall slot ensures Arrivals(init, slot, secs) <= AtLeastZero(limit) {
        ArrivalsSnoc(init, last, slot, secs);
      }
      PassesWithinLimit(init, limit, secs);
      ArrivalsSnoc(init, last, Slot(last, secs), secs);
      CallFindsArrivals(init, last, secs);
      PassedSnoc(init, last, limit, secs);
    }
  }

  lemma {:induction false} AllBetween(hits: seq<Hit>, key: string, from: int, to: int)
    requires forall i | 0 <= i < |hits| :: hits[i].key == key && from < hits[i].read <= to
    ensures |Between(ReadTimes(hits, key), from, to)| == |hits|
  {
    if hits != [] {
      AllBetween(hits[..|hits| - 1], key, from, to);
      BetweenSnoc(ReadTimes(hits[..|hits| - 1], key), hits[|hits| - 1].read, from, to);
    }
  }

  lemma TwoBurstsArrivals(n: nat, key: string, secs: nat, t: int, u: int, slot: (string, int))
    requires secs > 0 && BucketOf(t, secs) != BucketOf(u, secs)
    ensures Arrivals(TwoBursts(n, key, t, u), slot, secs) <= n
  {
    ArrivalsConcat(Burst(n, key, t), Burst(n, key, u), slot, secs);
    BurstArrivals(n, key, t, slot, secs);
    BurstArrivals(n, key, u, slot, secs);
  }

  lemma TwoBurstsCalls(n: nat, key: string, t: int, u: int)
    requires t <= u
    ensures var hits := TwoBursts(n, key, t, u);
            && |hits| == 2 * n && Arriving(hits)
            && forall i | 0 <= i < |hits| :: hits[i].key == key && hits[i].read == hits[i].at && t <= hits[i].at <= u
  {
    BurstCalls(n, key, t);
    BurstCalls(n, key, u);
  }

  /** Two bursts of the size of the limit, in different buckets and served at once, pass whole. */
  lemma TwoBurstsPass(limit: nat, key: string, secs: nat, t: int, u: int)
    requires secs > 0 && t <= u && BucketOf(t, secs) != BucketOf(u, secs)
    ensures Arriving(TwoBursts(limit, key, t, u)) && Prompt(TwoBursts(limit, key, t, u), secs)
    ensures |Between(ReadTimes(Passed(TwoBursts(limit, key, t, u), limit, secs), key), t - 1, u)| == 2 * limit
  {
    var hits := TwoBursts(limit, key, t, u);
    TwoBurstsCalls(limit, key, t, u);
    forall slot: (string, int) ensures Arrivals(hits, slot, secs) <= AtLeastZero(limit) {
      TwoBurstsArrivals(limit, key, secs, t, u, slot);
    }
    PassesWithinLimit(hits, limit, secs);
    AllBetween(hits, key, t - 1, u);
  }

  lemma LastAndFirstInstant(secs: nat)
    requires secs > 0
    ensures BucketOf(Width(secs) - 1, secs) == 0 && BucketOf(Width(secs), secs) == 1
  {
    InBucketExactlyWhenBetween(Width(secs) - 1, 0, secs);
    InBucketExactlyWhenBetween(Width(secs), 1, secs);
  }

  /** The bound is reached for every limit and window: twice the limit passes within two nanoseconds. */
  lemma TwiceTheLimitPassesAtOnce(limit: nat, secs: nat)
    requires secs > 0
    ensures var hits := TwoBursts(limit, "k", Width(secs) - 1, Width(secs));
            && Arriving(hits) && Prompt(hits, secs)
            && |Between(ReadTimes(Passed(hits, limit, secs), "k"), Width(secs) - 2, Width(secs))| == 2 * limit
  {
    LastAndFirstInstant(secs);
    TwoBurstsPass(limit, "k", secs, Width(secs) - 1, Width(secs));
  }

  // ----- Where the bound of a sliding window does hold -----

  /** In every run in which the key keeps up, at most `limit` of its calls that read the clock in (from, to] pass. */
  ghost predicate AtMostLimitPasses(key: string, limit: int, secs: nat, from: int, to: int)
    requires secs > 0
  {
    forall hits | Arriving(hits) && KeyKeepsUp(hits, key, secs) ::
      |Between(ReadTimes(Passed(hits, limit, secs), key), from, to)| <= AtLeastZero(limit)
  }

  lemma {:induction false} NothingPasses(hits: seq<Hit>, limit: int, secs: nat)
    requires secs > 0 && limit <= 0
    ensures Passed(hits, limit, secs) == []
  {
    if hits != [] {
      NothingPasses(hits[..|hits| - 1], limit, secs);
    }
  }

  lemma BoundedInBucket(hits: seq<Hit>, key: string, limit: int, secs: nat, t: int, u: int)
    requires secs > 0 && t <= u && KeyKeepsUp(hits, key, secs)
    requires limit <= 0 || BucketOf(t, secs) == BucketOf(u, secs)
    ensures |Between(ReadTimes(Passed(hits, limit, secs), key), t - 1, u)| <= AtLeastZero(limit)
  {
    if limit <= 0 {
      NothingPasses(hits, limit, secs);
    } else {
      IntervalInBucket(Passed(hits, limit, secs), key, t, u, secs);
      BucketPasses(hits, (key, BucketOf(u, secs)), limit, secs);
    }
  }

  /** At most `limit` calls pass from `t` to `u` in every run exactly when nothing ever passes or the two times lie
      in the same bucket. */
  lemma IntervalIsBoundedExactlyInBucket(key: string, limit: int, secs: nat, t: int, u: int)
    requires secs > 0 && t <= u
    ensures AtMostLimitPasses(key, limit, secs, t - 1, u) <==> limit <= 0 || BucketOf(t, secs) == BucketOf(u, secs)
  {
    if limit <= 0 || BucketOf(t, secs) == BucketOf(u, secs) {
      forall hits | Arriving(hits) && KeyKeepsUp(hits, key, secs)
        ensures |Between(ReadTimes(Passed(hits, limit, secs), key), t - 1, u)| <= AtLeastZero(limit)
      {
        BoundedInBucket(hits, key, limit, secs, t, u);
      }
    } else {
      TwoBurstsPass(limit, key, secs, t, u);
      forall b ensures KeepsUp(TwoBursts(limit, key, t, u), (key, b), secs) {
        PromptCallsKeepUp(TwoBursts(limit, key, t, u), (key, b), secs);
      }
    }
  }

  /** The bound of a sliding window holds for the window that ends at `u` exactly when nothing ever passes or `u` is
      the last instant of a bucket. */
  lemma SlidingBoundHoldsExactlyAtBucketEnds(key: string, limit: int, secs: nat, u: int)
    requires secs > 0
    ensures AtMostLimitPasses(key, limit, secs, u - Width(secs), u) <==>
            limit <= 0 || u + 1 == (BucketOf(u, secs) + 1) * Width(secs)
  {
    var (t, b, w) := (u - Width(secs) + 1, BucketOf(u, secs), Width(secs));
    IntervalIsBoundedExactlyInBucket(key, limit, secs, t, u);
    InBucketExactlyWhenBetween(u, b, secs);
    InBucketExactlyWhenBetween(t, b, secs);
    assert (b + 1) * w == b * w + w;
  }

  // ----- Keys do not meet -----

  /** The calls of one key, in order. */
  function HitsOf(hits: seq<Hit>, key: string): seq<Hit> {
    if hits == [] then []
    else
      var (init, last) := (hits[..|hits| - 1], hits[|hits| - 1]);
      if last.key == key then HitsOf(init, key) + [last] else HitsOf(init, key)
  }

  lemma HitsOfSnoc(hits: seq<Hit>, h: Hit, key: string)
    ensures HitsOf(hits + [h], key) == if h.key == key then HitsOf(hits, key) + [h] else HitsOf(hits, key)
  {
    assert (hits + [h])[..|hits + [h]| - 1] == hits;
  }

  /** The two stores agree on the counter of a slot. */
  predicate SameCounter(a: Store, b: Store, slot: (string, int)) {
    (slot in a <==> slot in b) && (slot in a ==> a[slot] == b[slot])
  }

  lemma SameCounterStep(a: Store, b: Store, slot: (string, int), hit: (string, int), at: int, secs: nat)
    requires SameCounter(a, b, slot)
    ensures SameCounter(Counted(a, hit, at, secs), Counted(b, hit, at, secs), slot)
    ensures hit != slot ==> SameCounter(Counted(a, hit, at, secs), b, slot)
  {
  }

  lemma OneMoreCounter(hits: seq<Hit>, own: seq<Hit>, h: Hit, slot: (string, int), secs: nat)
    requires secs > 0 && SameCounter(StoreAfter(hits, secs), StoreAfter(own, secs), slot)
    ensures h.key == slot.0 ==> SameCounter(StoreAfter(hits + [h], secs), StoreAfter(own + [h], secs), slot)
    ensures h.key != slot.0 ==> SameCounter(StoreAfter(hits + [h], secs), StoreAfter(own, secs), slot)
  {
    StoreSnoc(hits, h, secs);
    StoreSnoc(own, h, secs);
    SameCounterStep(StoreAfter(hits, secs), StoreAfter(own, secs), slot, Slot(h, secs), h.at, secs);
  }

  /** The counters of a key are those that its own calls leave behind. */
  lemma {:induction false} CountersOfKey(hits: seq<Hit>, slot: (string, int), secs: nat)
    requires secs > 0
    ensures SameCounter(StoreAfter(hits, secs), StoreAfter(HitsOf(hits, slot.0), secs), slot)
  {
    if hits != [] {
      var (init, last) := (hits[..|hits| - 1], hits[|hits| - 1]);
      assert hits == init + [last];
      CountersOfKey(init, slot, secs);
      HitsOfSnoc(init, last, slot.0);
      OneMoreCounter(init, HitsOf(init, slot.0), last, slot, secs);
    }
  }

  lemma LiveCountOfKey(hits: seq<Hit>, h: Hit, secs: nat)
    requires secs > 0
    ensures LiveCount(StoreAfter(hits, secs), Slot(h, secs), h.at) ==
            LiveCount(StoreAfter(HitsOf(hits, h.key), secs), Slot(h, secs), h.at)
  {
    CountersOfKey(hits, Slot(h, secs), secs);
  }

  lemma OneMoreOfKey(hits: seq<Hit>, h: Hit, key: string, limit: int, secs: nat, own: seq<Hit>, passed: seq<Hit>)
    requires secs > 0 && own == HitsOf(hits, key) && passed == Passed(hits, limit, secs)
    requires HitsOf(passed, key) == Passed(own, limit, secs)
    ensures HitsOf(Passed(hits + [h], limit, secs), key) == Passed(HitsOf(hits + [h], key), limit, secs)
  {
    PassedSnoc(hits, h, limit, secs);
    PassedSnoc(own, h, limit, secs);
    HitsOfSnoc(passed, h, key);
    HitsOfSnoc(hits, h, key);
    LiveCountOfKey(hits, h, secs);
  }

  /** What passes of a key is what passes when no other key calls. */
  lemma {:induction false} KeysAreIndependent(hits: seq<Hit>, key: string, limit: int, secs: nat)
    requires secs > 0
    ensures HitsOf(Passed(hits, limit, secs), key) == Passed(HitsOf(hits, key), limit, secs)
  {
    if hits != [] {
      var (init, last) := (hits[..|hits| - 1], hits[|hits| - 1]);
      KeysAreIndependent(init, key, limit, secs);
      OneMoreOfKey(init, last, key, limit, secs, HitsOf(init, key), Passed(init, limit, secs));
      assert hits == init + [last];
    }
  }
}

/** The limiter as it runs against a shared Redis. */
module RedisLimiter {
  import opened SlidingWindow
  import opened FixedBuckets

  class Redis {
    var store: Store

    constructor ()
      ensures store == map[]
    {
      store := map[];
    }

    /** INCR: creates the counter, or restarts it if it has expired; keeps the time to live otherwise. */
    method Incr(slot: (string, int), now: int) returns (count: nat)
      modifies this
      ensures count == LiveCount(old(store), slot, now) + 1
      ensures slot in store && store[slot].count == count && store == old(store)[slot := store[slot]]
    {
      if slot in store && now < store[slot].expiresAt {
        count := store[slot].count + 1;
        store := store[slot := Entry(count, store[slot].expiresAt)];
      } else {
        count := 1;
        store := store[slot := Entry(1, now)];
      }
    }

    method Expire(slot: (string, int), deadline: int)
      requires slot in store
      modifies this
      ensures store == old(store)[slot := old(store)[slot].(expiresAt := deadline)]
    {
      store := store[slot := store[slot].(expiresAt := deadline)];
    }
  }

  /** What becomes of a call. It passes uncounted if Redis is out of reach; the division by a window of no whole second fails before Redis is asked. */
  datatype Outcome = Fails | Uncounted | Passes(remaining: int) | Refused(remaining: int)

  class RateLimiter {
    const redis: Redis
    const limit: int
    const secs: nat
    ghost var hits: seq<Hit>

    ghost predicate Valid()
      reads this, redis
    {
      Arriving(hits) && (if secs == 0 then hits == [] else redis.store == StoreAfter(hits, secs))
    }

    /** Of the window, given in nanoseconds, whole seconds count, for the bucket and for the time to live alike. */
    constructor (limit: int, window: nat)
      ensures Valid() && fresh(redis) && hits == [] && this.limit == limit
      ensures secs * 1_000_000_000 <= window < (secs + 1) * 1_000_000_000
    {
      this.redis := new Redis();
      this.limit, this.secs := limit, window / SECOND;
      hits := [];
    }

    /** The pipeline of a call. */
    method Count(slot: (string, int), arrival: int) returns (count: nat)
      modifies redis
      ensures count == LiveCount(old(redis.store), slot, arrival) + 1
      ensures redis.store == Counted(old(redis.store), slot, arrival, secs)
    {
      count := redis.Incr(slot, arrival);
      redis.Expire(slot, arrival + Width(secs));
    }

    /** The call reads the clock at `now` and its pipeline reaches Redis at `arrival`. With Redis out of reach it
        passes and nothing is counted. Otherwise it passes as `Passed` says, and `remaining` is what the counter
        leaves of the limit, never below zero: what the bucket leaves, if its calls keep up. */
    method Handle(key: string, now: int, arrival: int, reachable: bool) returns (outcome: Outcome)
      requires Valid() && now <= arrival && NoneAfter(hits, arrival)
      modifies this, redis
      ensures Valid()
      ensures outcome.Fails? <==> secs == 0
      ensures hits == if reachable && secs > 0 then old(hits) + [Hit(key, now, arrival)] else old(hits)
      ensures outcome.Uncounted? <==> secs > 0 && !reachable
      ensures outcome.Uncounted? ==> redis.store == old(redis.store)
      ensures reachable && secs > 0 ==>
                && Passed(hits, limit, secs) ==
                   (if outcome.Passes? then Passed(old(hits), limit, secs) + [Hit(key, now, arrival)]
                    else Passed(old(hits), limit, secs))
                && var slot := (key, BucketOf(now, secs));
                   && outcome.remaining >= AtLeastZero(limit - Arrivals(hits, slot, secs))
                   && (KeepsUp(hits, slot, secs) ==> outcome.remaining == AtLeastZero(limit - Arrivals(hits, slot, secs)))
    {
      if secs == 0 {
        return Fails;
      }
      if !reachable {
        return Uncounted;
      }
      var slot := (key, BucketOf(now, secs));
      ghost var h := Hit(key, now, arrival);
      OneMoreHit(hits, h, limit, secs);
      ArrivingSnoc(hits, h);
      var count := Count(slot, arrival);
      hits := hits + [h];
      var remaining := limit - count;
      if remaining < 0 {
        remaining := 0;
      }
      outcome := if count > limit then Refused(remaining) else Passes(remaining);
    }
  }
}
