/** Which label sets have a text of their own, when values may hold quotes: among all label sets, and among those with
    the same names, as one metric records them. */
module LabelTexts {
  import opened LabelKeys
  import opened SliceSort

  /** Names without '=', whatever the values. */
  predicate PlainNames(labels: Labels) {
    forall k | k in labels :: '=' !in k
  }

  /** A value that holds `",name="` for a plain name after `k` reads like the end of one value and the start of the
      next label. The name is the text between `i` and `j`. */
  predicate BreaksAt(k: string, v: string, i: nat, j: nat) {
    && i + 2 <= j && j + 2 <= |v|
    && v[i] == '\"' && v[i + 1] == ',' && v[j] == '=' && v[j + 1] == '\"'
    && '=' !in v[i + 2..j] && Less(k, v[i + 2..j])
  }

  ghost predicate Breaks(k: string, v: string) {
    exists i: nat, j: nat :: BreaksAt(k, v, i, j)
  }

  /** The part of a value before such a name, the name, and the part after it. */
  lemma BreakSplits(k: string, v: string, i: nat, j: nat)
    requires BreaksAt(k, v, i, j)
    ensures v == v[..i] + "\"," + v[i + 2..j] + "=\"" + v[j + 2..]
  {
    assert v[i..i + 2] == "\"," && v[j..j + 2] == "=\"";
    assert v == v[..i] + v[i..i + 2] + v[i + 2..j] + v[j..j + 2] + v[j + 2..];
  }

  lemma SplitBreaks(k: string, v: string, v1: string, k2: string, v2: string)
    requires v == v1 + "\"," + k2 + "=\"" + v2 && '=' !in k2 && Less(k, k2)
    ensures Breaks(k, v)
  {
    var (i, j) := (|v1|, |v1| + 2 + |k2|);
    assert v[i] == '\"' && v[i + 1] == ',' && v[j] == '=' && v[j + 1] == '\"';
    assert v[i + 2..j] == k2;
    assert BreaksAt(k, v, i, j);
  }

  /** A label set without labels, or with one whose value does not break. */
  ghost predicate StandsAlone(labels: Labels) {
    |labels| == 0 || (|labels| == 1 && forall k | k in labels :: !Breaks(k, labels[k]))
  }

  ghost predicate OwnsItsText(labels: Labels) {
    forall other | PlainNames(other) && Key(other) == Key(labels) :: other == labels
  }

  lemma {:induction false} RenderIsQuoted(pairs: Pairs) returns (tail: string)
    requires pairs != []
    ensures Render(pairs) == Part(pairs[0].0, tail)
    ensures |pairs| == 1 ==> tail == pairs[0].1
    ensures |pairs| > 1 ==> exists rest :: tail == pairs[0].1 + "\"," + pairs[1].0 + "=\"" + rest
  {
    var (k, v) := pairs[0];
    if |pairs| == 1 {
      tail := v;
    } else {
      var rest := RenderIsQuoted(pairs[1..]);
      var k2 := pairs[1].0;
      RenderStep(pairs);
      tail := v + "\"," + k2 + "=\"" + rest;
      QuotesInQuotes(k, v, k2, rest);
    }
  }

  lemma QuotesInQuotes(k: string, v: string, k2: string, rest: string)
    ensures Part(k, v) + ("," + Part(k2, rest)) == Part(k, v + "\"," + k2 + "=\"" + rest)
  {
  }

  /** The text of a label set that is not empty, as if it had a single label. */
  lemma KeyIsQuoted(labels: Labels) returns (k: string, tail: string)
    requires labels != map[]
    ensures k in labels && Key(labels) == Part(k, tail)
    ensures |labels| == 1 ==> tail == labels[k]
    ensures |labels| != 1 ==> exists k2, rest :: k2 in labels && Less(k, k2) && tail == labels[k] + "\"," + k2 + "=\"" + rest
  {
    var ks := Listing(labels);
    EmptyListing(ks, labels.Keys);
    PairsAre(ks, labels);
    ListingSize(ks, labels.Keys);
    var pairs := PairsOf(ks, labels);
    k := ks[0];
    assert k in ks;
    tail := RenderIsQuoted(pairs);
    if |ks| > 1 {
      var rest :| tail == pairs[0].1 + "\"," + pairs[1].0 + "=\"" + rest;
      assert ks[1] in ks && Less(ks[0], ks[1]);
    }
  }

  lemma {:induction false} ListingSize(ks: seq<string>, names: set<string>)
    requires Lists(ks, names)
    ensures |ks| == |names|
    decreases |ks|
  {
    EmptyListing(ks, names);
    if ks != [] {
      assert ks[0] in ks;
      TailLists(ks, names);
      ListingSize(ks[1..], names - {ks[0]});
    }
  }

  lemma KeyOfOne(k: string, v: string)
    ensures Key(map[k := v]) == Part(k, v) == k + "=\"" + v + "\""
  {
    var labels: Labels := map[k := v];
    assert labels.Keys == {k};
    var k', tail := KeyIsQuoted(labels);
  }

  lemma KeyOfTwo(k: string, v: string, k2: string, v2: string)
    requires Less(k, k2)
    ensures Key(map[k := v, k2 := v2]) == Part(k, v + "\"," + k2 + "=\"" + v2)
            == k + "=\"" + v + "\"," + k2 + "=\"" + v2 + "\""
  {
    var labels: Labels := map[k := v, k2 := v2];
    LessTotal(k, k2);
    assert labels.Keys == {k, k2};
    ListingIsUnique(Listing(labels), [k, k2], labels.Keys);
    assert PairsOf([k, k2], labels) == [(k, v), (k2, v2)] by {
      PairsAre([k, k2], labels);
    }
    assert [(k, v), (k2, v2)][1..] == [(k2, v2)];
    RenderStep([(k, v), (k2, v2)]);
    QuotesInQuotes(k, v, k2, v2);
  }

  lemma PartsAgree(k: string, v: string, l: string, w: string)
    requires '=' !in k && '=' !in l && Part(k, v) == Part(l, w)
    ensures k == l && v == w
  {
    var (x, y) := ("\"" + v + "\"", "\"" + w + "\"");
    assert Part(k, v) == k + ['='] + x && Part(l, w) == l + ['='] + y;
    IndexOfFirst(k, '=', x);
    IndexOfFirst(l, '=', y);
    assert Part(k, v)[..|k|] == k && Part(l, w)[..|l|] == l;
    assert Part(k, v)[|k| + 2..][..|v|] == v && Part(l, w)[|l| + 2..][..|w|] == w;
  }

  /** Two or more labels never own their text: a single label can hold all of it. */
  lemma MoreLabelsShare(labels: Labels)
    requires PlainNames(labels) && |labels| > 1
    ensures !OwnsItsText(labels)
  {
    var k, tail := KeyIsQuoted(labels);
    var other: Labels := map[k := tail];
    KeyOfOne(k, tail);
    assert PlainNames(other) && Key(other) == Key(labels) && |other| == 1;
  }

  lemma BreakingLabelShares(labels: Labels, k: string)
    requires PlainNames(labels) && |labels| == 1 && k in labels && Breaks(k, labels[k])
    ensures !OwnsItsText(labels)
  {
    var v := labels[k];
    var i: nat, j: nat :| BreaksAt(k, v, i, j);
    var (v1, k2, v2) := (v[..i], v[i + 2..j], v[j + 2..]);
    BreakSplits(k, v, i, j);
    var other: Labels := map[k := v1, k2 := v2];
    LessTotal(k, k2);
    OnlyLabel(labels, k);
    KeyOfTwo(k, v1, k2, v2);
    KeyOfOne(k, v);
    assert PlainNames(other) && Key(other) == Key(labels);
    assert k2 in other && k2 !in labels;
  }

  lemma OnlyLabel(labels: Labels, k: string)
    requires |labels| == 1 && k in labels
    ensures labels == map[k := labels[k]]
  {
    forall l | l in labels ensures l == k {
      assert |labels.Keys - {k}| == 0;
      assert l in labels.Keys;
    }
  }

  lemma LoneLabelIsTold(k: string, v: string, other: Labels)
    requires '=' !in k && !Breaks(k, v) && PlainNames(other) && Key(other) == Part(k, v)
    ensures other == map[k := v]
  {
    assert Part(k, v) != "";
    if |other| == 0 {
      NoLabels(other);
    } else {
      var l, tail := KeyIsQuoted(other);
      PartsAgree(k, v, l, tail);
      if |other| == 1 {
        OnlyLabel(other, k);
      } else {
        var k2, rest :| k2 in other && Less(l, k2) && tail == other[l] + "\"," + k2 + "=\"" + rest;
        SplitBreaks(k, v, other[l], k2, rest);
      }
    }
  }

  /** Over plain names, the text of a label set belongs to no other one exactly when the set is empty or has one
      label whose value does not break. */
  lemma OwnsItsTextExactlyWhenAlone(labels: Labels)
    requires PlainNames(labels)
    ensures OwnsItsText(labels) <==> StandsAlone(labels)
  {
    if |labels| == 0 {
      NoLabels(labels);
      forall other | PlainNames(other) && Key(other) == Key(labels) ensures other == labels {
        if other != map[] {
          var k, tail := KeyIsQuoted(other);
        }
      }
    } else if |labels| == 1 {
      var k :| k in labels;
      OnlyLabel(labels, k);
      KeyOfOne(k, labels[k]);
      if Breaks(k, labels[k]) {
        BreakingLabelShares(labels, k);
      } else {
        forall other | PlainNames(other) && Key(other) == Key(labels) ensures other == labels {
          LoneLabelIsTold(k, labels[k], other);
        }
      }
    } else {
      MoreLabelsShare(labels);
    }
  }

  // ----- Among label sets with the same names -----

  /** What stands between the value before a name and its own value. */
  function Separator(k: string): string {
    "\"," + k + "=\""
  }

  /** The values with the separators of their names between them. */
  function Joined(ks: seq<string>, vs: seq<string>): string
    requires |ks| == |vs| > 0
  {
    if |ks| == 1 then vs[0] else vs[0] + Separator(ks[1]) + Joined(ks[1..], vs[1..])
  }

  function ValuesOf(ks: seq<string>, labels: Labels): seq<string>
    requires forall k | k in ks :: k in labels
  {
    seq(|ks|, i requires 0 <= i < |ks| => labels[ks[i]])
  }

  predicate OccursAt(text: string, sep: string, p: nat) {
    p + |sep| <= |text| && text[p..p + |sep|] == sep
  }

  /** The separators of the names after the first occur in the text, in order and without overlap. */
  predicate Splittable(ks: seq<string>, text: string)
    requires ks != []
  {
    |ks| > 1 ==>
      exists p: nat | p <= |text| :: OccursAt(text, Separator(ks[1]), p) && Splittable(ks[1..], text[p + |Separator(ks[1])|..])
  }

  /** At the place of some separator the text can also be split elsewhere. */
  predicate Ambiguous(ks: seq<string>, vs: seq<string>)
    requires |ks| == |vs| > 0
  {
    |ks| > 1 &&
    ((exists p: nat | p <= |Joined(ks, vs)| :: SplitsElsewhere(ks, vs, p)) || Ambiguous(ks[1..], vs[1..]))
  }

  /** The first separator also occurs at `p`, with the others behind it. */
  predicate SplitsElsewhere(ks: seq<string>, vs: seq<string>, p: nat)
    requires |ks| == |vs| > 1
  {
    var (sep, text) := (Separator(ks[1]), Joined(ks, vs));
    p != |vs[0]| && OccursAt(text, sep, p) && Splittable(ks[1..], text[p + |sep|..])
  }

  lemma JoinSplits(v: string, sep: string, rest: string)
    ensures OccursAt(v + sep + rest, sep, |v|) && (v + sep + rest)[|v| + |sep|..] == rest && (v + sep + rest)[..|v|] == v
  {
  }

  lemma SplitJoins(text: string, sep: string, p: nat)
    requires OccursAt(text, sep, p)
    ensures text == text[..p] + sep + text[p + |sep|..]
  {
  }

  lemma JoinedStep(ks: seq<string>, v: string, vs: seq<string>)
    requires |ks| == |vs| + 1 > 1
    ensures Joined(ks, [v] + vs) == v + Separator(ks[1]) + Joined(ks[1..], vs)
  {
    assert ([v] + vs)[1..] == vs;
  }

  lemma {:induction false} SplittableIsJoined(ks: seq<string>, text: string) returns (vs: seq<string>)
    requires ks != [] && Splittable(ks, text)
    ensures |vs| == |ks| && Joined(ks, vs) == text
  {
    if |ks| == 1 {
      vs := [text];
    } else {
      var sep := Separator(ks[1]);
      var p: nat :| p <= |text| && OccursAt(text, sep, p) && Splittable(ks[1..], text[p + |sep|..]);
      var rest := SplittableIsJoined(ks[1..], text[p + |sep|..]);
      vs := [text[..p]] + rest;
      JoinedStep(ks, text[..p], rest);
      SplitJoins(text, sep, p);
    }
  }

  lemma {:induction false} JoinedIsSplittable(ks: seq<string>, vs: seq<string>)
    requires |ks| == |vs| > 0
    ensures Splittable(ks, Joined(ks, vs))
  {
    if |ks| > 1 {
      JoinedIsSplittable(ks[1..], vs[1..]);
      JoinSplits(vs[0], Separator(ks[1]), Joined(ks[1..], vs[1..]));
    }
  }

  /** Other values join to the same text if the values are ambiguous. */
  lemma {:induction false} AmbiguousValuesShare(ks: seq<string>, vs: seq<string>) returns (ws: seq<string>)
    requires |ks| == |vs| > 0 && Ambiguous(ks, vs)
    ensures |ws| == |ks| && ws != vs && Joined(ks, ws) == Joined(ks, vs)
  {
    var (sep, text) := (Separator(ks[1]), Joined(ks, vs));
    if Ambiguous(ks[1..], vs[1..]) {
      var rest := AmbiguousValuesShare(ks[1..], vs[1..]);
      ws := [vs[0]] + rest;
      JoinedStep(ks, vs[0], rest);
      assert ws[1..] == rest;
    } else {
      var p: nat :| p <= |text| && SplitsElsewhere(ks, vs, p);
      var rest := SplittableIsJoined(ks[1..], text[p + |sep|..]);
      ws := [text[..p]] + rest;
      JoinedStep(ks, text[..p], rest);
      SplitJoins(text, sep, p);
      assert |ws[0]| == p;
    }
  }

  /** And only then. */
  lemma {:induction false} SharingValuesAreAmbiguous(ks: seq<string>, vs: seq<string>, ws: seq<string>)
    requires |ks| == |vs| == |ws| > 0 && ws != vs && Joined(ks, ws) == Joined(ks, vs)
    ensures Ambiguous(ks, vs)
  {
    assert vs == [vs[0]] + vs[1..] && ws == [ws[0]] + ws[1..];
    if |ks| > 1 {
      var (sep, text) := (Separator(ks[1]), Joined(ks, vs));
      var (v', w') := (Joined(ks[1..], vs[1..]), Joined(ks[1..], ws[1..]));
      JoinSplits(vs[0], sep, v');
      JoinSplits(ws[0], sep, w');
      if |ws[0]| == |vs[0]| {
        SharingValuesAreAmbiguous(ks[1..], vs[1..], ws[1..]);
      } else {
        JoinedIsSplittable(ks[1..], ws[1..]);
        assert SplitsElsewhere(ks, vs, |ws[0]|);
      }
    }
  }

  lemma {:induction false} RenderIsJoined(ks: seq<string>, labels: Labels)
    requires ks != [] && forall k | k in ks :: k in labels
    ensures Render(PairsOf(ks, labels)) == Part(ks[0], Joined(ks, ValuesOf(ks, labels)))
  {
    var (pairs, vs) := (PairsOf(ks, labels), ValuesOf(ks, labels));
    if |ks| > 1 {
      RenderIsJoined(ks[1..], labels);
      PairsAre(ks, labels);
      assert pairs[1..] == PairsOf(ks[1..], labels) && vs[1..] == ValuesOf(ks[1..], labels);
      RenderStep(pairs);
      QuotesInQuotes(ks[0], vs[0], ks[1], Joined(ks[1..], vs[1..]));
    } else {
      assert ks[1..] == [] && PairsOf(ks[1..], labels) == [];
    }
  }

  lemma KeyIsJoined(labels: Labels, ks: seq<string>)
    requires Lists(ks, labels.Keys) && labels != map[]
    ensures ks != [] && Key(labels) == Part(ks[0], Joined(ks, ValuesOf(ks, labels)))
  {
    EmptyListing(ks, labels.Keys);
    ListingIsUnique(Listing(labels), ks, labels.Keys);
    RenderIsJoined(ks, labels);
  }

  lemma SameBody(k: string, x: string, y: string)
    requires Part(k, x) == Part(k, y)
    ensures x == y
  {
    assert Part(k, x)[|k| + 2..][..|Part(k, x)| - |k| - 3] == x;
    assert Part(k, y)[|k| + 2..][..|Part(k, y)| - |k| - 3] == y;
  }

  lemma WithValues(ks: seq<string>, names: set<string>, ws: seq<string>) returns (labels: Labels)
    requires Lists(ks, names) && |ws| == |ks|
    ensures labels.Keys == names && ValuesOf(ks, labels) == ws
  {
    forall i, j | 0 <= i < j < |ks| ensures ks[i] != ks[j] {
      LessTotal(ks[i], ks[j]);
    }
    labels := map k | k in names :: ws[IndexIn(ks, k)];
    forall i | 0 <= i < |ks| ensures labels[ks[i]] == ws[i] {
      assert ks[i] in ks && ks[IndexIn(ks, ks[i])] == ks[i];
    }
  }

  function IndexIn(ks: seq<string>, k: string): (i: nat)
    requires k in ks
    ensures i < |ks| && ks[i] == k
  {
    if ks[0] == k then 0 else 1 + IndexIn(ks[1..], k)
  }

  lemma SameValuesSameLabels(a: Labels, b: Labels, ks: seq<string>)
    requires Lists(ks, a.Keys) && a.Keys == b.Keys && ValuesOf(ks, a) == ValuesOf(ks, b)
    ensures a == b
  {
    forall k | k in a ensures a[k] == b[k] {
      assert k in ks;
      var i :| 0 <= i < |ks| && ks[i] == k;
      assert ValuesOf(ks, a)[i] == a[k] && ValuesOf(ks, b)[i] == b[k];
    }
  }

  /** Two label sets with the same names share a text exactly when their values join to the same. */
  lemma SameNamesShareExactly(a: Labels, b: Labels, ks: seq<string>)
    requires Lists(ks, a.Keys) && a.Keys == b.Keys && a != map[]
    ensures ks != [] && (Key(a) == Key(b) <==> Joined(ks, ValuesOf(ks, a)) == Joined(ks, ValuesOf(ks, b)))
  {
    KeyIsJoined(a, ks);
    KeyIsJoined(b, ks);
    if Key(a) == Key(b) {
      SameBody(ks[0], Joined(ks, ValuesOf(ks, a)), Joined(ks, ValuesOf(ks, b)));
    }
  }

  /** A label set shares its text with another one of the same names exactly when its values are ambiguous. */
  lemma SharesAmongNamesExactlyWhenAmbiguous(labels: Labels, ks: seq<string>)
    requires Lists(ks, labels.Keys) && labels != map[]
    ensures ks != []
    ensures (exists other: Labels :: other.Keys == labels.Keys && other != labels && Key(other) == Key(labels)) <==>
            Ambiguous(ks, ValuesOf(ks, labels))
  {
    KeyIsJoined(labels, ks);
    var vs := ValuesOf(ks, labels);
    if Ambiguous(ks, vs) {
      var ws := AmbiguousValuesShare(ks, vs);
      var other := WithValues(ks, labels.Keys, ws);
      SameNamesShareExactly(labels, other, ks);
      assert other != labels;
    }
    forall other: Labels | other.Keys == labels.Keys && other != labels && Key(other) == Key(labels)
      ensures Ambiguous(ks, vs)
    {
      SameNamesShareExactly(labels, other, ks);
      if ValuesOf(ks, other) == vs {
        SameValuesSameLabels(labels, other, ks);
      }
      SharingValuesAreAmbiguous(ks, vs, ValuesOf(ks, other));
    }
  }

  /** For two names this is a second occurrence of the separator in the joined values. */
  lemma TwoNamesAreAmbiguousExactly(k: string, k2: string, v: string, v2: string)
    ensures Ambiguous([k, k2], [v, v2]) <==>
            exists p: nat :: p != |v| && OccursAt(v + Separator(k2) + v2, Separator(k2), p)
  {
    var (ks, vs, text, sep) := ([k, k2], [v, v2], v + Separator(k2) + v2, Separator(k2));
    assert ks[1..] == [k2] && vs[1..] == [v2];
    assert Joined([k2], [v2]) == v2 && Joined(ks, vs) == text && !Ambiguous([k2], [v2]);
    forall p: nat | p != |v| && OccursAt(text, sep, p) ensures Ambiguous(ks, vs) {
      assert SplitsElsewhere(ks, vs, p);
    }
    forall p: nat | SplitsElsewhere(ks, vs, p) ensures p != |v| && OccursAt(text, sep, p) {}
  }
}
