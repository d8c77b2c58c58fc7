/** The contract of Go's `sort.Slice`, the only thing the engines know about sorting: the slice is
    permuted in place until the keys do not decrease. Nothing is said about the order of equal keys,
    so every caller is proved for an unstable sort. */
module SliceSort {

  ghost predicate SortedBy<T>(key: T -> int, s: seq<T>) {
    forall i, j | 0 <= i < j < |s| :: key(s[i]) <= key(s[j])
  }

  /** `t` is one of the results that `sort.Slice` may leave behind for `s`. */
  ghost predicate SortOf<T>(key: T -> int, s: seq<T>, t: seq<T>) {
    multiset(s) == multiset(t) && SortedBy(key, t)
  }

  method Swap<T>(a: array<T>, i: nat, j: nat)
    requires i < a.Length && j < a.Length
    modifies a
    ensures a[..] == old(a[..])[i := old(a[j])][j := old(a[i])]
    ensures multiset(a[..]) == old(multiset(a[..]))
  {
    a[i], a[j] := a[j], a[i];
  }

  method SortSlice<T>(a: array<T>, key: T -> int)
    modifies a
    ensures SortOf(key, old(a[..]), a[..])
  {
    for n := 0 to a.Length
      invariant multiset(a[..]) == old(multiset(a[..]))
      invariant forall i, j | 0 <= i < j < n :: key(a[i]) <= key(a[j])
    {
      var k := n;
      while 0 < k && key(a[k]) < key(a[k - 1])
        invariant 0 <= k <= n
        invariant multiset(a[..]) == old(multiset(a[..]))
        invariant forall i, j | 0 <= i < j <= n && j != k :: key(a[i]) <= key(a[j])
      {
        Swap(a, k - 1, k);
        k := k - 1;
      }
    }
  }

  // ----- Facts about sequences and permutations that the engines share -----

  lemma InInitOrLast<T>(xs: seq<T>, x: T)
    requires xs != []
    ensures x in xs <==> x in xs[..|xs| - 1] || x == xs[|xs| - 1]
  {
    assert xs == xs[..|xs| - 1] + [xs[|xs| - 1]];
  }

  lemma HeadAndTail<T>(xs: seq<T>)
    requires xs != []
    ensures xs == [xs[0]] + xs[1..]
  {
  }

  lemma LastOfConcat<T>(xs: seq<T>, ys: seq<T>)
    requires ys != []
    ensures var (init, last) := (ys[..|ys| - 1], ys[|ys| - 1]);
            && ys == init + [last] && xs + ys == xs + init + [last]
            && (xs + ys)[..|xs + ys| - 1] == xs + init && (xs + ys)[|xs + ys| - 1] == last
  {
  }

  /** Where an element can join a sorted sequence. */
  lemma SortedInsert<T>(key: T -> int, s: seq<T>, x: T) returns (k: nat)
    requires SortedBy(key, s)
    ensures k <= |s| && SortedBy(key, InsertAt(s, k, x))
  {
    k := 0;
    while k < |s| && key(s[k]) <= key(x)
      invariant k <= |s| && forall i | 0 <= i < k :: key(s[i]) <= key(x)
    {
      k := k + 1;
    }
  }

  lemma {:induction false} SortExists<T>(key: T -> int, s: seq<T>) returns (t: seq<T>)
    ensures SortOf(key, s, t)
  {
    t := [];
    if s != [] {
      var (init, last) := (s[..|s| - 1], s[|s| - 1]);
      var rest := SortExists(key, init);
      var k := SortedInsert(key, rest, last);
      t := InsertAt(rest, k, last);
      InsertAddsOne(rest, k, last);
      assert s == init + [last];
    }
  }

  function Without<T>(s: seq<T>, i: nat): seq<T>
    requires i < |s|
  {
    s[..i] + s[i + 1..]
  }

  function InsertAt<T>(s: seq<T>, i: nat, x: T): seq<T>
    requires i <= |s|
  {
    s[..i] + [x] + s[i..]
  }

  lemma InsertAddsOne<T>(s: seq<T>, i: nat, x: T)
    requires i <= |s|
    ensures multiset(InsertAt(s, i, x)) == multiset(s) + multiset{x}
    ensures Without(InsertAt(s, i, x), i) == s
  {
    assert s == s[..i] + s[i..];
  }

  lemma PutBack<T>(s: seq<T>, i: nat)
    requires i < |s|
    ensures InsertAt(Without(s, i), i, s[i]) == s
  {
  }

  lemma SharedPrefixBags<T>(pre: seq<T>, s: seq<T>, t: seq<T>)
    requires multiset(pre + s) == multiset(pre + t)
    ensures multiset(s) == multiset(t)
  {
    assert multiset(pre + s) - multiset(pre) == multiset(s);
    assert multiset(pre + t) - multiset(pre) == multiset(t);
  }

  lemma SplitAt<T>(s: seq<T>, i: nat)
    requires i < |s|
    ensures s == s[..i] + [s[i]] + s[i + 1..]
  {
  }

  lemma PrefixGrows<T>(s: seq<T>, i: nat)
    requires i < |s|
    ensures s[..i + 1] == s[..i] + [s[i]] && s[..i + 1][..i] == s[..i]
    ensures s[..|s|] == s
  {
  }

  lemma WithoutRemoves<T>(s: seq<T>, i: nat)
    requires i < |s|
    ensures multiset(Without(s, i)) == multiset(s) - multiset{s[i]}
  {
    assert s == s[..i] + ([s[i]] + s[i + 1..]);
  }

  /** Where the head of one sequence sits in a permutation of it. */
  lemma FindHead<T>(xs: seq<T>, ys: seq<T>) returns (i: nat)
    requires xs != [] && multiset(xs) == multiset(ys)
    ensures i < |ys| && ys[i] == xs[0] && multiset(xs[1..]) == multiset(Without(ys, i))
  {
    assert xs[0] in multiset(ys);
    i :| 0 <= i < |ys| && ys[i] == xs[0];
    WithoutRemoves(xs, 0);
    WithoutRemoves(ys, i);
    assert Without(xs, 0) == xs[1..];
  }

  ghost predicate DistinctKeys<T>(key: T -> int, s: seq<T>) {
    forall i, j | 0 <= i < j < |s| :: key(s[i]) != key(s[j])
  }

  lemma SortedHeadsAgree<T>(key: T -> int, s: seq<T>, t: seq<T>)
    requires s != [] && t != [] && multiset(s) == multiset(t)
    requires SortedBy(key, s) && SortedBy(key, t)
    requires DistinctKeys(key, s)
    ensures s[0] == t[0]
  {
    assert s[0] in multiset(t);
    var j :| 0 <= j < |t| && t[j] == s[0];
    assert t[0] in multiset(s);
    var k :| 0 <= k < |s| && s[k] == t[0];
    assert key(t[0]) <= key(t[j]) && key(s[0]) <= key(s[k]);
  }

  lemma TailsPermute<T>(s: seq<T>, t: seq<T>)
    requires s != [] && t != [] && s[0] == t[0] && multiset(s) == multiset(t)
    ensures multiset(s[1..]) == multiset(t[1..])
  {
    TailRemoves(s);
    TailRemoves(t);
  }

  lemma TailRemoves<T>(s: seq<T>)
    requires s != []
    ensures multiset(s[1..]) == multiset(s) - multiset{s[0]}
  {
    WithoutRemoves(s, 0);
    assert Without(s, 0) == s[1..];
  }

  /** Two sorted sequences with the same elements and pairwise different keys are the same sequence. */
  lemma {:induction false} SortIsUnique<T>(key: T -> int, s: seq<T>, t: seq<T>)
    requires multiset(s) == multiset(t)
    requires SortedBy(key, s) && SortedBy(key, t) && DistinctKeys(key, s)
    ensures s == t
  {
    assert |multiset(s)| == |s| && |multiset(t)| == |t|;
    if s != [] {
      SortedHeadsAgree(key, s, t);
      TailsPermute(s, t);
      SortIsUnique(key, s[1..], t[1..]);
      assert s == [s[0]] + s[1..] && t == [t[0]] + t[1..];
    }
  }

  lemma {:induction false} DistinctKeysPermute<T>(key: T -> int, s: seq<T>, t: seq<T>)
    requires multiset(s) == multiset(t) && DistinctKeys(key, s)
    ensures DistinctKeys(key, t)
  {
    assert |multiset(s)| == |s| && |multiset(t)| == |t|;
    if s != [] {
      var k := FindHead(s, t);
      var rest := Without(t, k);
      DistinctKeysPermute(key, s[1..], rest);
      forall j | 0 <= j < |rest| ensures key(rest[j]) != key(t[k]) {
        assert rest[j] in multiset(s[1..]);
      }
      KeysOfWithout(key, t, k);
    }
  }

  lemma KeysOfWithout<T>(key: T -> int, t: seq<T>, k: nat)
    requires k < |t| && DistinctKeys(key, Without(t, k))
    requires forall j | 0 <= j < |t| - 1 :: key(Without(t, k)[j]) != key(t[k])
    ensures DistinctKeys(key, t)
  {
    var rest := Without(t, k);
    assert forall i | 0 <= i < |t| && i != k :: t[i] == rest[if i < k then i else i - 1];
  }

  lemma WithoutStaysSorted<T>(key: T -> int, t: seq<T>, k: nat)
    requires k < |t| && SortedBy(key, t)
    ensures SortedBy(key, Without(t, k))
  {
    var rest := Without(t, k);
    assert forall i | 0 <= i < |rest| :: rest[i] == t[if i < k then i else i + 1];
  }

  lemma WithoutTogether<T>(xs: seq<T>, ys: seq<T>, i: nat, j: nat)
    requires i < |xs| && j < |ys| && xs[i] == ys[j]
    requires multiset(Without(xs, i)) == multiset(Without(ys, j))
    ensures multiset(xs) == multiset(ys)
  {
    WithoutRemoves(xs, i);
    WithoutRemoves(ys, j);
    assert multiset(xs) == multiset(xs) - multiset{xs[i]} + multiset{xs[i]};
    assert multiset(ys) == multiset(ys) - multiset{ys[j]} + multiset{ys[j]};
  }

  /** Images of a permutation: `us` and `vs` are `xs` and `ys` under one function. */
  lemma {:induction false} ImagesPermute<T, U>(xs: seq<T>, ys: seq<T>, us: seq<U>, vs: seq<U>)
    requires multiset(xs) == multiset(ys) && |us| == |xs| && |vs| == |ys|
    requires forall i, j | 0 <= i < |xs| && 0 <= j < |ys| && xs[i] == ys[j] :: us[i] == vs[j]
    ensures multiset(us) == multiset(vs)
  {
    assert |multiset(xs)| == |xs| && |multiset(ys)| == |ys|;
    if xs != [] {
      var k := FindHead(xs, ys);
      var (ys', vs') := (Without(ys, k), Without(vs, k));
      assert forall j | 0 <= j < |ys'| :: ys'[j] == ys[if j < k then j else j + 1] && vs'[j] == vs[if j < k then j else j + 1];
      ImagesPermute(xs[1..], ys', us[1..], vs');
      assert Without(us, 0) == us[1..];
      WithoutTogether(us, vs, 0, k);
    }
  }
}
