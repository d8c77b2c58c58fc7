/** Label sets as text: sorted `name="value"` parts joined by commas, and the parser that undoes it. */
module LabelKeys {
  import opened Options
  import opened SliceSort

  type Labels = map<string, string>

  type Pairs = seq<(string, string)>

  function Part(k: string, v: string): string {
    k + "=\"" + v + "\""
  }

  function Render(pairs: Pairs): string {
    if pairs == [] then ""
    else if |pairs| == 1 then Part(pairs[0].0, pairs[0].1)
    else Part(pairs[0].0, pairs[0].1) + "," + Render(pairs[1..])
  }

  // ----- Parsing -----

  function IndexOf(s: string, c: char): (i: nat)
    ensures i <= |s|
    ensures forall j | 0 <= j < i :: s[j] != c
    ensures i < |s| ==> s[i] == c
  {
    if s == "" then 0 else if s[0] == c then 0 else 1 + IndexOf(s[1..], c)
  }

  /** One `name="value"` part at the front, and the text after it. */
  function ParsePart(s: string): (r: Option<((string, string), string)>)
    ensures r.Some? ==> |r.value.1| < |s|
  {
    var i := IndexOf(s, '=');
    if i + 1 >= |s| || s[i + 1] != '\"' then None
    else
      var rest := s[i + 2..];
      var j := IndexOf(rest, '\"');
      if j == |rest| then None else Some(((s[..i], rest[..j]), rest[j + 1..]))
  }

  function Parse(s: string): Option<Pairs>
    decreases |s|
  {
    if s == "" then Some([])
    else
      match ParsePart(s)
      case None => None
      case Some((pair, rest)) =>
        if rest == "" then Some([pair])
        else if rest[0] != ',' || |rest| == 1 then None
        else
          match Parse(rest[1..])
          case None => None
          case Some(pairs) => Some([pair] + pairs)
  }

  /** Label names without '=' and values without '"', which make the text unambiguous. */
  predicate CleanPairs(pairs: Pairs) {
    forall i | 0 <= i < |pairs| :: '=' !in pairs[i].0 && '\"' !in pairs[i].1
  }

  lemma IndexOfFirst(pre: string, c: char, post: string)
    requires c !in pre
    ensures IndexOf(pre + [c] + post, c) == |pre|
  {
    var s := pre + [c] + post;
    assert s[|pre|] == c;
    assert forall j | 0 <= j < |pre| :: s[j] == pre[j];
  }

  lemma ParsePartUndoesPart(k: string, v: string, rest: string)
    requires '=' !in k && '\"' !in v
    ensures ParsePart(Part(k, v) + rest) == Some(((k, v), rest))
  {
    var s := Part(k, v) + rest;
    var tail := "\"" + v + "\"" + rest;
    assert s == k + ['='] + tail;
    IndexOfFirst(k, '=', tail);
    var body := s[|k| + 2..];
    assert body == v + ['\"'] + rest;
    IndexOfFirst(v, '\"', rest);
    assert s[..|k|] == k && body[..|v|] == v && body[|v| + 1..] == rest;
  }

  lemma ParseStep(s: string, pair: (string, string), rest: string, more: string, pairs: Pairs)
    requires s != "" && ParsePart(s) == Some((pair, rest))
    requires more != "" && rest == "," + more && Parse(more) == Some(pairs)
    ensures Parse(s) == Some([pair] + pairs)
  {
    assert rest[1..] == more;
  }

  lemma OnePairParses(pairs: Pairs)
    requires |pairs| == 1 && CleanPairs(pairs)
    ensures Parse(Render(pairs)) == Some(pairs)
  {
    var (k, v) := pairs[0];
    var s := Part(k, v);
    ParsePartUndoesPart(k, v, "");
    assert s + "" == s && [(k, v)] == pairs;
    assert s != "" && ParsePart(s) == Some(((k, v), ""));
  }

  lemma MorePairsParse(k: string, v: string, rest: Pairs, text: string, more: string)
    requires '=' !in k && '\"' !in v && more != "" && Parse(more) == Some(rest)
    requires text != "" && text == Part(k, v) + ("," + more)
    ensures Parse(text) == Some([(k, v)] + rest)
  {
    ParsePartUndoesPart(k, v, "," + more);
    ParseStep(text, (k, v), "," + more, more, rest);
  }

  lemma {:induction false} ParseUndoesRender(pairs: Pairs)
    requires CleanPairs(pairs)
    ensures Parse(Render(pairs)) == Some(pairs)
  {
    if |pairs| == 1 {
      OnePairParses(pairs);
    } else if pairs != [] {
      ParseUndoesRender(pairs[1..]);
      RenderNotEmpty(pairs);
      RenderNotEmpty(pairs[1..]);
      RenderStep(pairs);
      MorePairsParse(pairs[0].0, pairs[0].1, pairs[1..], Render(pairs), Render(pairs[1..]));
      HeadAndTail(pairs);
    }
  }

  lemma RenderStep(pairs: Pairs)
    requires |pairs| > 1
    ensures Render(pairs) == Part(pairs[0].0, pairs[0].1) + ("," + Render(pairs[1..]))
  {
  }

  lemma RenderNotEmpty(pairs: Pairs)
    requires pairs != []
    ensures Render(pairs) != ""
  {
  }

  lemma RenderPartOfParsed(s: string)
    requires ParsePart(s).Some?
    ensures var ((k, v), rest) := ParsePart(s).value; s == Part(k, v) + rest
  {
    var i := IndexOf(s, '=');
    var tail := s[i + 2..];
    var j := IndexOf(tail, '\"');
    NameBeforeTail(s, i);
    SplitAt(tail, j);
    QuotedConcat(s[..i], tail[..j], tail[j + 1..], tail);
  }

  lemma NameBeforeTail(s: string, i: nat)
    requires i + 1 < |s| && s[i] == '=' && s[i + 1] == '\"'
    ensures s == s[..i] + "=\"" + s[i + 2..]
  {
  }

  lemma QuotedConcat(k: string, v: string, rest: string, tail: string)
    requires tail == v + ['\"'] + rest
    ensures k + "=\"" + tail == Part(k, v) + rest
  {
  }

  lemma RenderMore(pair: (string, string), more: Pairs)
    requires more != []
    ensures Render([pair] + more) == Part(pair.0, pair.1) + ("," + Render(more))
  {
    var pairs := [pair] + more;
    assert pairs[1..] == more;
    RenderStep(pairs);
  }

  /** And the other way: what parses is the rendering of what it parses to. */
  lemma {:induction false} RenderUndoesParse(s: string)
    requires Parse(s).Some?
    ensures Render(Parse(s).value) == s
    decreases |s|
  {
    if s != "" {
      RenderPartOfParsed(s);
      var (pair, rest) := ParsePart(s).value;
      if rest == "" {
        assert Part(pair.0, pair.1) + "" == Part(pair.0, pair.1);
      } else {
        RenderUndoesParse(rest[1..]);
        RenderMore(pair, Parse(rest[1..]).value);
        assert rest == "," + rest[1..];
      }
    }
  }

  // ----- The order of `sort.Strings` -----

  predicate Less(a: string, b: string) {
    b != "" && (a == "" || a[0] < b[0] || (a[0] == b[0] && Less(a[1..], b[1..])))
  }

  lemma {:induction false} LessTransitive(a: string, b: string, c: string)
    requires Less(a, b) && Less(b, c)
    ensures Less(a, c)
  {
    if a != "" && a[0] == b[0] && b[0] == c[0] {
      LessTransitive(a[1..], b[1..], c[1..]);
    }
  }

  /** The order is that of dictionaries: a text comes after its prefixes, and the first difference decides. */
  lemma {:induction false} LessIsLexicographic(p: string, c: char, s: string, d: char, t: string)
    ensures Less(p, p + [c] + s)
    ensures c < d ==> Less(p + [c] + s, p + [d] + t)
  {
    if p != "" {
      LessIsLexicographic(p[1..], c, s, d, t);
      assert (p + [c] + s)[1..] == p[1..] + [c] + s && (p + [d] + t)[1..] == p[1..] + [d] + t;
    }
  }

  lemma {:induction false} LessTotal(a: string, b: string)
    ensures Less(a, b) || a == b || Less(b, a)
    ensures !(Less(a, b) && Less(b, a)) && !Less(a, a)
  {
    if a != "" && b != "" {
      LessTotal(a[1..], b[1..]);
      assert a == [a[0]] + a[1..] && b == [b[0]] + b[1..];
    }
    if a != "" {
      LessTotal(a[1..], a[1..]);
    }
  }

  ghost predicate Ascending(ks: seq<string>) {
    forall i, j | 0 <= i < j < |ks| :: Less(ks[i], ks[j])
  }

  /** `ks` lists the label names in order, each once. */
  ghost predicate Lists(ks: seq<string>, names: set<string>) {
    Ascending(ks) && forall k :: k in ks <==> k in names
  }

  lemma {:induction false} ListingIsUnique(ks: seq<string>, ls: seq<string>, names: set<string>)
    requires Lists(ks, names) && Lists(ls, names)
    ensures ks == ls
    decreases |ks|
  {
    EmptyListing(ks, names);
    EmptyListing(ls, names);
    if ks != [] {
      HeadsAgree(ks, ls, names);
      TailLists(ks, names);
      TailLists(ls, names);
      ListingIsUnique(ks[1..], ls[1..], names - {ks[0]});
      assert ks == [ks[0]] + ks[1..] && ls == [ls[0]] + ls[1..];
    }
  }

  lemma EmptyListing(ks: seq<string>, names: set<string>)
    requires Lists(ks, names)
    ensures ks == [] <==> names == {}
  {
    if ks != [] {
      assert ks[0] in names;
    }
  }

  lemma HeadsAgree(ks: seq<string>, ls: seq<string>, names: set<string>)
    requires ks != [] && ls != [] && Lists(ks, names) && Lists(ls, names)
    ensures ks[0] == ls[0]
  {
    assert ks[0] in ls && ls[0] in ks;
    var i :| 0 <= i < |ls| && ls[i] == ks[0];
    var j :| 0 <= j < |ks| && ks[j] == ls[0];
    LessTotal(ks[0], ls[0]);
  }

  lemma TailLists(ks: seq<string>, names: set<string>)
    requires ks != [] && Lists(ks, names)
    ensures Lists(ks[1..], names - {ks[0]})
  {
    forall k ensures k in ks[1..] <==> k in names - {ks[0]} {
      LessTotal(ks[0], ks[0]);
      assert ks == [ks[0]] + ks[1..];
      if k in ks[1..] {
        var i :| 0 <= i < |ks| - 1 && ks[1..][i] == k;
        assert Less(ks[0], ks[i + 1]);
      }
    }
  }

  lemma InsertInListing(ks: seq<string>, names: set<string>, k: string) returns (ls: seq<string>)
    requires Lists(ks, names) && k !in names
    ensures Lists(ls, names + {k})
  {
    var i := 0;
    while i < |ks| && Less(ks[i], k)
      invariant i <= |ks| && forall j | 0 <= j < i :: Less(ks[j], k)
    {
      i := i + 1;
    }
    ls := ks[..i] + [k] + ks[i..];
    forall j | i <= j < |ks| ensures Less(k, ks[j]) {
      LessTotal(ks[i], k);
      assert ks[i] in ks;
      if i < j {
        LessTransitive(k, ks[i], ks[j]);
      }
    }
    forall x ensures x in ls <==> x in names + {k} {
      assert ks == ks[..i] + ks[i..];
    }
  }

  lemma {:induction false} ListingExists(names: set<string>)
    ensures exists ks :: Lists(ks, names)
  {
    if names == {} {
      assert Lists([], names);
    } else {
      var k :| k in names;
      ListingExists(names - {k});
      var ks :| Lists(ks, names - {k});
      var ls := InsertInListing(ks, names - {k}, k);
      assert names - {k} + {k} == names;
    }
  }

  /** The names of a label set in order: what sorting any iteration order of the map gives. */
  ghost function Listing(labels: Labels): (ks: seq<string>)
    ensures Lists(ks, labels.Keys)
  {
    ListingExists(labels.Keys);
    var ks :| Lists(ks, labels.Keys);
    ks
  }

  function PairsOf(ks: seq<string>, labels: Labels): Pairs
    requires forall k | k in ks :: k in labels
  {
    if ks == [] then [] else [(ks[0], labels[ks[0]])] + PairsOf(ks[1..], labels)
  }

  /** The text that indexes a label set. */
  ghost function Key(labels: Labels): string {
    Render(PairsOf(Listing(labels), labels))
  }

  predicate Clean(labels: Labels) {
    forall k | k in labels :: '=' !in k && '\"' !in labels[k]
  }

  lemma {:induction false} PairsAre(ks: seq<string>, labels: Labels)
    requires forall k | k in ks :: k in labels
    ensures |PairsOf(ks, labels)| == |ks|
    ensures forall i | 0 <= i < |ks| :: PairsOf(ks, labels)[i] == (ks[i], labels[ks[i]])
  {
    if ks != [] {
      PairsAre(ks[1..], labels);
    }
  }

  /** Parsing the text of a clean label set gives back its names and values. */
  lemma ParseUndoesKey(labels: Labels)
    requires Clean(labels)
    ensures Parse(Key(labels)) == Some(PairsOf(Listing(labels), labels))
  {
    PairsAre(Listing(labels), labels);
    ParseUndoesRender(PairsOf(Listing(labels), labels));
  }

  lemma SamePairsSameLabels(a: Labels, b: Labels, ks: seq<string>, ls: seq<string>)
    requires Lists(ks, a.Keys) && Lists(ls, b.Keys) && PairsOf(ks, a) == PairsOf(ls, b)
    ensures a == b
  {
    PairsAre(ks, a);
    PairsAre(ls, b);
    forall k ensures (k in a <==> k in b) && (k in a ==> a[k] == b[k]) {
      if k in a {
        assert k in ks;
        var i :| 0 <= i < |ks| && ks[i] == k;
        assert (ls[i], b[ls[i]]) == (k, a[k]) && ls[i] in ls;
      }
      if k in b {
        assert k in ls;
        var i :| 0 <= i < |ls| && ls[i] == k;
        assert (ks[i], a[ks[i]]) == (k, b[k]) && ks[i] in ks;
      }
    }
  }

  /** Clean label sets share a text only if they are equal. */
  lemma KeyIsInjective(a: Labels, b: Labels)
    requires Clean(a) && Clean(b) && Key(a) == Key(b)
    ensures a == b
  {
    ParseUndoesKey(a);
    ParseUndoesKey(b);
    SamePairsSameLabels(a, b, Listing(a), Listing(b));
  }

  lemma ListingOfAB(labels: Labels)
    requires labels.Keys == {"a", "b"}
    ensures Listing(labels) == ["a", "b"]
    ensures PairsOf(["a", "b"], labels) == [("a", labels["a"]), ("b", labels["b"])]
  {
    assert Less("a", "b");
    ListingIsUnique(Listing(labels), ["a", "b"], labels.Keys);
    PairsAre(["a", "b"], labels);
  }

  /** Without the condition on values two label sets with the same names can share a text. */
  lemma QuotesMakeKeysCollide()
    ensures exists a: Labels, b: Labels :: a != b && a.Keys == b.Keys && Key(a) == Key(b)
  {
    var (x, y) := ("1\",b=\"2", "2\",b=\"3");
    var a: Labels := map["a" := x, "b" := "3"];
    var b: Labels := map["a" := "1", "b" := y];
    ListingOfAB(a);
    ListingOfAB(b);
    assert |x| == 7;
    assert a != b by { assert a["a"] != b["a"]; }
    assert Render([("b", "3")]) == Part("b", "3") && Render([("b", y)]) == Part("b", y);
    assert [("a", x), ("b", "3")][1..] == [("b", "3")] && [("a", "1"), ("b", y)][1..] == [("b", y)];
    assert Part("a", x) + "," + Part("b", "3") == Part("a", "1") + "," + Part("b", y);
    assert Key(a) == Key(b);
  }

  // ----- labelsKey as it runs -----

  method SortStrings(a: array<string>)
    modifies a
    ensures multiset(a[..]) == old(multiset(a[..]))
    ensures forall i, j | 0 <= i < j < a.Length :: !Less(a[j], a[i])
  {
    for n := 0 to a.Length
      invariant multiset(a[..]) == old(multiset(a[..]))
      invariant forall i, j | 0 <= i < j < n :: !Less(a[j], a[i])
    {
      var k := n;
      while 0 < k && Less(a[k], a[k - 1])
        invariant 0 <= k <= n
        invariant multiset(a[..]) == old(multiset(a[..]))
        invariant forall i, j | 0 <= i < j <= n && j != k :: !Less(a[j], a[i])
      {
        LessTotal(a[k], a[k - 1]);
        Swap(a, k - 1, k);
        k := k - 1;
      }
      forall i | 0 <= i < k ensures !Less(a[k], a[i]) {
        if Less(a[k], a[i]) {
          LessThrough(a[k], a[i], a[k - 1]);
        }
      }
    }
  }

  lemma LessThrough(a: string, b: string, c: string)
    requires Less(a, b) && !Less(c, b)
    ensures Less(a, c)
  {
    LessTotal(b, c);
    if Less(b, c) {
      LessTransitive(a, b, c);
    }
  }

  ghost predicate NoRepeats(ks: seq<string>) {
    forall i, j | 0 <= i < j < |ks| :: ks[i] != ks[j]
  }

  lemma {:induction false} NoRepeatsCount(ks: seq<string>, k: string)
    requires NoRepeats(ks)
    ensures multiset(ks)[k] <= 1
  {
    if ks != [] {
      NoRepeatsCount(ks[1..], k);
      assert ks == [ks[0]] + ks[1..];
      if ks[0] == k {
        assert k !in ks[1..];
      }
    }
  }

  lemma RepeatCounts(ks: seq<string>, i: nat, j: nat)
    requires i < j < |ks| && ks[i] == ks[j]
    ensures multiset(ks)[ks[i]] >= 2
  {
    SplitAt(ks, j);
    assert ks[..j][i] == ks[i];
  }

  /** Sorting the names in any iteration order of the map gives their listing. */
  lemma SortedOrderIsListing(order: seq<string>, ks: seq<string>, names: set<string>)
    requires NoRepeats(order) && forall k :: k in order <==> k in names
    requires multiset(order) == multiset(ks)
    requires forall i, j | 0 <= i < j < |ks| :: !Less(ks[j], ks[i])
    ensures Lists(ks, names)
  {
    forall i, j | 0 <= i < j < |ks| ensures Less(ks[i], ks[j]) {
      if ks[i] == ks[j] {
        RepeatCounts(ks, i, j);
        NoRepeatsCount(order, ks[i]);
      }
      LessTotal(ks[i], ks[j]);
    }
    forall k ensures k in ks <==> k in names {
      assert k in ks <==> k in multiset(ks);
      assert k in order <==> k in multiset(order);
    }
  }

  function Join(parts: seq<string>): string {
    if parts == [] then ""
    else if |parts| == 1 then parts[0]
    else parts[0] + "," + Join(parts[1..])
  }

  function PartsOf(pairs: Pairs): seq<string> {
    if pairs == [] then [] else [Part(pairs[0].0, pairs[0].1)] + PartsOf(pairs[1..])
  }

  lemma {:induction false} JoinIsRender(pairs: Pairs)
    ensures Join(PartsOf(pairs)) == Render(pairs)
  {
    if |pairs| > 1 {
      JoinIsRender(pairs[1..]);
      assert PartsOf(pairs)[1..] == PartsOf(pairs[1..]);
    }
  }

  lemma {:induction false} PartsAre(pairs: Pairs, parts: seq<string>)
    requires |parts| == |pairs|
    requires forall i | 0 <= i < |pairs| :: parts[i] == Part(pairs[i].0, pairs[i].1)
    ensures parts == PartsOf(pairs)
  {
    if pairs != [] {
      PartsAre(pairs[1..], parts[1..]);
      assert parts == [parts[0]] + parts[1..];
    }
  }

  /** The text does not depend on the order in which the map is iterated. */
  method LabelsKey(labels: Labels, order: seq<string>) returns (key: string)
    requires NoRepeats(order) && forall k :: k in order <==> k in labels
    ensures key == Key(labels)
  {
    if |labels| == 0 {
      NoLabels(labels);
      return "";
    }
    var keys := new string[|order|](i requires 0 <= i < |order| => order[i]);
    assert keys[..] == order;
    SortStrings(keys);
    SortedOrderIsListing(order, keys[..], labels.Keys);
    ListingIsUnique(keys[..], Listing(labels), labels.Keys);
    var parts := MakeParts(labels, keys[..]);
    JoinIsKey(labels, keys[..], parts);
    key := Join(parts);
  }

  /** The loop over the sorted names. */
  method MakeParts(labels: Labels, ks: seq<string>) returns (parts: seq<string>)
    requires forall k | k in ks :: k in labels
    ensures |parts| == |ks| && forall i | 0 <= i < |ks| :: parts[i] == Part(ks[i], labels[ks[i]])
  {
    parts := [];
    for i := 0 to |ks|
      invariant |parts| == i
      invariant forall j | 0 <= j < i :: parts[j] == Part(ks[j], labels[ks[j]])
    {
      parts := parts + [Part(ks[i], labels[ks[i]])];
    }
  }

  lemma JoinIsKey(labels: Labels, ks: seq<string>, parts: seq<string>)
    requires ks == Listing(labels) && |parts| == |ks|
    requires forall i | 0 <= i < |ks| :: ks[i] in labels && parts[i] == Part(ks[i], labels[ks[i]])
    ensures Join(parts) == Key(labels)
  {
    PairsAre(ks, labels);
    PartsAre(PairsOf(ks, labels), parts);
    JoinIsRender(PairsOf(ks, labels));
  }

  lemma NoLabels(labels: Labels)
    requires |labels| == 0
    ensures Key(labels) == ""
  {
    assert labels.Keys == {};
    assert Lists([], labels.Keys);
    ListingIsUnique(Listing(labels), [], labels.Keys);
  }
}
