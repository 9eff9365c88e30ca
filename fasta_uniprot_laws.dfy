/**
  Laws of the UniProt header codec: displaying a header and decoding it again
  gives the header back, whatever order the attribute map lists its keys in;
  the test-build display does not depend on that order; and the unit tests'
  header decodes and displays as they expect.
 */
module FastaUniProtLaws {
  import opened Text
  import opened Sorting
  import opened FastaUniProt

  /** A key that survives display and decoding. */
  predicate GoodKey(k: string) {
    '|' !in k && ' ' !in k && '=' !in k
  }

  /** A value that survives display and decoding; it may hold spaces. */
  predicate GoodValue(v: string) {
    '|' !in v && '=' !in v
  }

  /** The fields before the attributes survive display and decoding. */
  predicate WellFormedFields(u: UniProt) {
    '|' !in u.database && '|' !in u.accession
    && '|' !in u.entryName && ' ' !in u.entryName
    && '|' !in u.proteinName && '=' !in u.proteinName
  }

  /** A header that display and decoding give back. */
  predicate WellFormed(u: UniProt) {
    WellFormedFields(u)
    && |u.keywordAttributes| > 0
    && forall k :: k in u.keywordAttributes ==> GoodKey(k) && GoodValue(u.keywordAttributes[k])
  }

  // ---------------------------------------------------------------------------
  // One attribute

  /** The helper on one displayed item adds exactly that key and value. */
  lemma PrepAndAddItem(k: string, v: string, m: map<string, string>)
    requires '=' !in k && '=' !in v
    ensures PrepAndAddAttribute(k + "=" + v, m) == m[k := v]
  {
    var raw := k + "=" + v;
    UntilCharOf(k, '=', v);
    assert raw[|k|] == '=';
    assert raw[|k| + 1..] == v;
    UntilCharFree(v, '=');
  }

  lemma {:induction false} ItemsAt(attrs: map<string, string>, order: seq<string>, i: nat)
    requires (forall k :: k in order ==> k in attrs) && i < |order|
    ensures Items(attrs, order)[i] == order[i] + "=" + attrs[order[i]]
    decreases i
  {
    if i > 0 {
      ItemsAt(attrs, order[1..], i - 1);
    }
  }

  /** The space tokens of one displayed item: the first holds `=`, no later one does. */
  predicate AttributeTokens(g: seq<string>) {
    |g| > 0 && '=' in g[0] && forall j :: 1 <= j < |g| ==> '=' !in g[j]
  }

  lemma ItemTokens(k: string, v: string)
    requires ' ' !in k && '=' !in v
    ensures AttributeTokens(Split(k + "=" + v, ' '))
    ensures Join(Split(k + "=" + v, ' '), " ") == k + "=" + v
  {
    ItemTokensShape(k, v);
    JoinSplit(k + "=" + v, ' ');
  }

  lemma ItemTokensShape(k: string, v: string)
    requires ' ' !in k && '=' !in v
    ensures AttributeTokens(Split(k + "=" + v, ' '))
  {
    var item := k + "=" + v;
    assert item == (k + "=") + v;
    SplitPrefix(k + "=", v, ' ');
    var sv := Split(v, ' ');
    SplitPiecesWithout(v, ' ', '=');
    var g := Split(item, ' ');
    assert g == [k + "=" + sv[0]] + sv[1..];
    assert forall j :: 1 <= j < |g| ==> g[j] == sv[j];
    assert g[0][|k|] == '=';
  }


  // ---------------------------------------------------------------------------
  // Tokens of the attribute text

  /** The space tokens of each item, one item after the other. */
  function SplitEach(its: seq<string>): seq<string>
    decreases |its|
  {
    if |its| == 0 then [] else Split(its[0], ' ') + SplitEach(its[1..])
  }

  lemma {:induction false} SplitJoinEach(its: seq<string>)
    requires |its| > 0
    ensures Split(Join(its, " "), ' ') == SplitEach(its)
    decreases |its|
  {
    if |its| == 1 {
      assert SplitEach(its) == Split(its[0], ' ') + [];
    } else {
      SplitJoinEach(its[1..]);
      SplitAppend(its[0], ' ', Join(its[1..], " "));
    }
  }

  /** Tokens without `=` are all gathered into the current attribute. */
  lemma {:induction false} GroupsGather(cur: string, w: seq<string>, rest: seq<string>)
    requires forall j :: 0 <= j < |w| ==> '=' !in w[j]
    ensures Groups(cur, w + rest) == Groups(Join([cur] + w, " "), rest)
    decreases |w|
  {
    if |w| == 0 {
      assert w + rest == rest;
    } else {
      assert (w + rest)[0] == w[0] && (w + rest)[1..] == w[1..] + rest;
      GroupsGather(cur + " " + w[0], w[1..], rest);
      assert ([cur] + w)[1..] == w;
      if |w| > 1 {
        var j := Join(w[1..], " ");
        assert ([cur + " " + w[0]] + w[1..])[1..] == w[1..];
        assert Join([cur] + w, " ") == cur + " " + (w[0] + " " + j);
        assert Join([cur + " " + w[0]] + w[1..], " ") == cur + " " + w[0] + " " + j;
        assert cur + " " + (w[0] + " " + j) == cur + " " + w[0] + " " + j;
      } else {
        assert Join([cur] + w, " ") == cur + " " + w[0];
      }
    }
  }

  /** The attribute loop hands over each displayed item whole. */
  lemma {:induction false} GroupsOfItems(cur: string, its: seq<string>)
    requires |its| > 0
    requires forall i :: 0 <= i < |its| ==>
      AttributeTokens(Split(its[i], ' ')) && Join(Split(its[i], ' '), " ") == its[i]
    ensures Groups(cur, SplitEach(its)) == [cur] + its
    decreases |its|
  {
    var g := Split(its[0], ' ');
    var t := SplitEach(its[1..]);
    assert SplitEach(its) == g + t;
    assert (g + t)[0] == g[0] && (g + t)[1..] == g[1..] + t;
    GroupsGather(g[0], g[1..], t);
    assert [g[0]] + g[1..] == g;
    if |its| > 1 {
      GroupsOfItems(its[0], its[1..]);
    }
    assert [its[0]] + its[1..] == its;
  }

  /** Adding the items of distinct keys sets each of those keys and leaves the rest. */
  lemma {:induction false} AddAllItems(attrs: map<string, string>, ks: seq<string>, m0: map<string, string>)
    requires Distinct(ks)
    requires forall k :: k in ks ==> k in attrs && '=' !in k && '=' !in attrs[k]
    ensures var r := AddAll(Items(attrs, ks), m0);
      (forall k :: k in r <==> k in m0 || k in ks)
      && (forall k :: k in ks ==> r[k] == attrs[k])
      && (forall k :: k in m0 && k !in ks ==> r[k] == m0[k])
    decreases |ks|
  {
    if |ks| > 0 {
      var k0 := ks[0];
      PrepAndAddItem(k0, attrs[k0], m0);
      var m1 := m0[k0 := attrs[k0]];
      assert Items(attrs, ks)[1..] == Items(attrs, ks[1..]);
      DistinctTail(ks);
      AddAllItems(attrs, ks[1..], m1);
      assert forall k :: k in ks <==> k == k0 || k in ks[1..] by {
        assert ks == [k0] + ks[1..];
      }
    }
  }

  lemma ItemsTokens(attrs: map<string, string>, ks: seq<string>)
    requires forall k :: k in ks ==> k in attrs && GoodKey(k) && GoodValue(attrs[k])
    ensures forall i :: 0 <= i < |ks| ==>
      AttributeTokens(Split(Items(attrs, ks)[i], ' ')) && Join(Split(Items(attrs, ks)[i], ' '), " ") == Items(attrs, ks)[i]
  {
    forall i | 0 <= i < |ks|
      ensures AttributeTokens(Split(Items(attrs, ks)[i], ' ')) && Join(Split(Items(attrs, ks)[i], ' '), " ") == Items(attrs, ks)[i]
    {
      assert ks[i] in ks;
      ItemsAt(attrs, ks, i);
      ItemTokens(ks[i], attrs[ks[i]]);
    }
  }

  /** Adding the items of a listing to the empty map builds the map. */
  lemma AddAllListing(attrs: map<string, string>, ks: seq<string>)
    requires IsListing(ks, attrs)
    requires forall k :: k in attrs ==> GoodKey(k) && GoodValue(attrs[k])
    ensures AddAll(Items(attrs, ks), map[]) == attrs
  {
    AddAllItems(attrs, ks, map[]);
    var r := AddAll(Items(attrs, ks), map[]);
    forall k ensures k in r <==> k in attrs {
      assert k in r <==> k in ks;
    }
    forall k | k in r ensures r[k] == attrs[k] {
      assert k in ks;
    }
  }

  /** Decoding the attribute text of a listing gives the map back. */
  lemma AttributesOfItems(attrs: map<string, string>, ks: seq<string>)
    requires IsListing(ks, attrs) && |ks| > 0
    requires forall k :: k in attrs ==> GoodKey(k) && GoodValue(attrs[k])
    ensures Attributes(SplitEach(Items(attrs, ks))) == attrs
  {
    var its := Items(attrs, ks);
    ItemsTokens(attrs, ks);
    GroupsOfItems("", its);
    var ts := SplitEach(its);
    assert ts == Split(its[0], ' ') + SplitEach(its[1..]);
    assert |ts| > 0;
    assert ([""] + its)[1..] == its;
    assert Attributes(ts) == AddAll(its, map[]);
    AddAllListing(attrs, ks);
  }

  // ---------------------------------------------------------------------------
  // The sorted items are the items of another listing

  /** The key of each item. */
  function ItemKeys(its: seq<string>): (ks: seq<string>)
    ensures |ks| == |its|
    decreases |its|
  {
    if |its| == 0 then [] else [UntilChar(its[0], '=')] + ItemKeys(its[1..])
  }

  lemma {:induction false} ItemKeysAt(its: seq<string>, i: nat)
    requires i < |its|
    ensures ItemKeys(its)[i] == UntilChar(its[i], '=')
    decreases i
  {
    if i > 0 {
      ItemKeysAt(its[1..], i - 1);
    }
  }

  /** Different keys without `=` give different items. */
  lemma ItemsDistinct(attrs: map<string, string>, order: seq<string>)
    requires IsListing(order, attrs) && forall k :: k in attrs ==> '=' !in k
    ensures Distinct(Items(attrs, order))
  {
    var its := Items(attrs, order);
    forall i, j | 0 <= i < j < |its| ensures its[i] != its[j] {
      ItemsAt(attrs, order, i);
      ItemsAt(attrs, order, j);
      UntilCharOf(order[i], '=', attrs[order[i]]);
      UntilCharOf(order[j], '=', attrs[order[j]]);
    }
  }

  lemma {:induction false} ItemsFromAt(attrs: map<string, string>, ks: seq<string>, its: seq<string>)
    requires |ks| == |its| && forall j :: 0 <= j < |ks| ==> ks[j] in attrs && its[j] == ks[j] + "=" + attrs[ks[j]]
    ensures Items(attrs, ks) == its
    decreases |ks|
  {
    if |ks| > 0 {
      ItemsFromAt(attrs, ks[1..], its[1..]);
    }
  }

  lemma SortedItemAt(attrs: map<string, string>, order: seq<string>, sorted: seq<string>, ks: seq<string>, j: nat)
    requires IsListing(order, attrs) && forall k :: k in attrs ==> '=' !in k
    requires sorted == Sort(Items(attrs, order)) && ks == ItemKeys(sorted) && j < |ks|
    ensures ks[j] in attrs && sorted[j] == ks[j] + "=" + attrs[ks[j]]
  {
    var its := Items(attrs, order);
    assert sorted[j] in multiset(its);
    var i :| 0 <= i < |its| && its[i] == sorted[j];
    ItemsAt(attrs, order, i);
    ItemKeysAt(sorted, j);
    assert order[i] in order;
    UntilCharOf(order[i], '=', attrs[order[i]]);
  }

  /** Each sorted item is the item of its own key. */
  lemma SortedItemsAt(attrs: map<string, string>, order: seq<string>, sorted: seq<string>, ks: seq<string>)
    requires IsListing(order, attrs) && forall k :: k in attrs ==> '=' !in k
    requires sorted == Sort(Items(attrs, order)) && ks == ItemKeys(sorted)
    ensures forall j :: 0 <= j < |ks| ==> ks[j] in attrs && sorted[j] == ks[j] + "=" + attrs[ks[j]]
  {
    forall j | 0 <= j < |ks| ensures ks[j] in attrs && sorted[j] == ks[j] + "=" + attrs[ks[j]] {
      SortedItemAt(attrs, order, sorted, ks, j);
    }
  }

  /** Every key of the map is the key of some sorted item. */
  lemma SortedKeysCover(attrs: map<string, string>, order: seq<string>, sorted: seq<string>, ks: seq<string>)
    requires IsListing(order, attrs) && forall k :: k in attrs ==> '=' !in k
    requires sorted == Sort(Items(attrs, order)) && ks == ItemKeys(sorted)
    ensures forall k :: k in attrs ==> k in ks
  {
    var its := Items(attrs, order);
    forall k | k in attrs ensures k in ks {
      var i :| 0 <= i < |order| && order[i] == k;
      ItemsAt(attrs, order, i);
      assert its[i] in multiset(sorted);
      var j :| 0 <= j < |sorted| && sorted[j] == its[i];
      ItemKeysAt(sorted, j);
      UntilCharOf(k, '=', attrs[k]);
    }
  }

  /** Distinct items, each the item of its key, and every key of the map among the keys: a listing. */
  lemma ListingOfItems(attrs: map<string, string>, ks: seq<string>, its: seq<string>)
    requires |ks| == |its| && Distinct(its)
    requires forall j :: 0 <= j < |ks| ==> ks[j] in attrs && its[j] == ks[j] + "=" + attrs[ks[j]]
    requires forall k :: k in attrs ==> k in ks
    ensures IsListing(ks, attrs) && Items(attrs, ks) == its
  {
    ItemsFromAt(attrs, ks, its);
    forall i, j | 0 <= i < j < |ks| ensures ks[i] != ks[j] {
      assert its[i] != its[j];
    }
  }

  /** The test build's sorted items are the items of the listing their own keys form. */
  lemma SortedListing(attrs: map<string, string>, order: seq<string>)
    requires IsListing(order, attrs) && forall k :: k in attrs ==> '=' !in k
    ensures IsListing(ItemKeys(Sort(Items(attrs, order))), attrs)
    ensures Items(attrs, ItemKeys(Sort(Items(attrs, order)))) == Sort(Items(attrs, order))
  {
    var its := Items(attrs, order);
    var sorted := Sort(its);
    assert Distinct(sorted) by {
      ItemsDistinct(attrs, order);
      DistinctPermutation(its, sorted);
    }
    var ks := ItemKeys(sorted);
    SortedItemsAt(attrs, order, sorted, ks);
    SortedKeysCover(attrs, order, sorted, ks);
    ListingOfItems(attrs, ks, sorted);
  }

  // ---------------------------------------------------------------------------
  // The round trip

  /** The three `|` pieces of a displayed header. */
  lemma SplitBars(p0: string, p1: string, p2: string)
    requires '|' !in p0 && '|' !in p1 && '|' !in p2
    ensures Split(p0 + "|" + p1 + "|" + p2, '|') == [p0, p1, p2]
  {
    assert p0 + "|" + p1 + "|" + p2 == p0 + ['|'] + (p1 + ['|'] + p2);
    SplitFirst(p0, '|', p1 + "|" + p2);
    SplitFirst(p1, '|', p2);
    SplitNoSeparator(p2, '|');
  }

  /** The space tokens of `entry protein attributes`. */
  lemma SplitSpaces(entry: string, protein: string, a: string)
    requires ' ' !in entry
    ensures Split(entry + " " + protein + " " + a, ' ') == [entry] + Split(protein, ' ') + Split(a, ' ')
  {
    assert entry + " " + protein + " " + a == entry + [' '] + (protein + [' '] + a);
    SplitAppend(entry, ' ', protein + " " + a);
    SplitAppend(protein, ' ', a);
    SplitNoSeparator(entry, ' ');
  }

  /** The attribute text of a listing: its tokens start with one holding `=` and decode to the map. */
  lemma AttributeText(attrs: map<string, string>, ks: seq<string>)
    requires IsListing(ks, attrs) && |ks| > 0
    requires forall k :: k in attrs ==> GoodKey(k) && GoodValue(attrs[k])
    ensures '|' !in Join(Items(attrs, ks), " ")
    ensures var at := Split(Join(Items(attrs, ks), " "), ' ');
      |at| > 0 && '=' in at[0] && Attributes(at) == attrs
  {
    var its := Items(attrs, ks);
    forall i | 0 <= i < |its| ensures '|' !in its[i] {
      ItemsAt(attrs, ks, i);
    }
    JoinWithout(its, " ", '|');
    SplitJoinEach(its);
    ItemsAt(attrs, ks, 0);
    ItemTokens(ks[0], attrs[ks[0]]);
    assert SplitEach(its) == Split(its[0], ' ') + SplitEach(its[1..]);
    AttributesOfItems(attrs, ks);
  }

  /** What `Decode` makes of a header whose pieces and tokens are laid out as a display lays them out. */
  lemma DecodeLayout(h: string, db: string, acc: string, rest: string, entry: string, p: seq<string>, at: seq<string>)
    requires Split(h, '|') == [">" + db, acc, rest]
    requires Split(rest, ' ') == [entry] + p + at
    requires |p| > 0 && (forall j :: 0 <= j < |p| ==> '=' !in p[j])
    requires |at| > 0 && '=' in at[0]
    ensures Decodable(h) && Decode(h) == UniProt(db, acc, entry, Join(p, " "), Attributes(at))
  {
    var ts := Split(rest, ' ');
    assert ts[1 + |p|] == at[0];
    assert forall j :: 1 <= j < 1 + |p| ==> ts[j] == p[j - 1];
    assert HasAttribute(ts, 2);
    var e := FirstAttribute(ts, 2);
    assert e == 1 + |p|;
    assert ts[1..e] == p && ts[e..] == at;
    assert (">" + db)[1..] == db;
  }

  lemma DisplayAsPieces(x: string, entry: string, protein: string, a: string)
    ensures x + entry + " " + protein + " " + a == x + (entry + " " + protein + " " + a)
  {
  }

  /** Decoding a displayed header gives it back, in any listing order and in either build. */
  lemma DecodeDisplay(u: UniProt, order: seq<string>, testBuild: bool)
    requires WellFormed(u) && IsListing(order, u.keywordAttributes)
    ensures Decodable(Display(u, order, testBuild))
    ensures Decode(Display(u, order, testBuild)) == u
  {
    var attrs := u.keywordAttributes;
    if testBuild {
      SortedListing(attrs, order);
    }
    var ks := if testBuild then ItemKeys(Sort(Items(attrs, order))) else order;
    var a := KeywordAttributesToString(attrs, order, testBuild);
    assert a == Join(Items(attrs, ks), " ");
    var k0 :| k0 in attrs;
    assert |ks| > 0 by { assert k0 in ks; }
    AttributeText(attrs, ks);
    var rest := u.entryName + " " + u.proteinName + " " + a;
    DisplayAsPieces(">" + u.database + "|" + u.accession + "|", u.entryName, u.proteinName, a);
    SplitBars(">" + u.database, u.accession, rest);
    SplitSpaces(u.entryName, u.proteinName, a);
    SplitPiecesWithout(u.proteinName, ' ', '=');
    JoinSplit(u.proteinName, ' ');
    DecodeLayout(Display(u, order, testBuild), u.database, u.accession, rest,
      u.entryName, Split(u.proteinName, ' '), Split(a, ' '));
  }

  /**
    A header without attributes is displayed with a trailing space, and its
    tokens hold no `=`: decoding it would spin in the protein-name loop.
   */
  lemma DisplayWithoutAttributes(u: UniProt, order: seq<string>, testBuild: bool)
    requires WellFormedFields(u) && |u.keywordAttributes| == 0 && IsListing(order, u.keywordAttributes)
    ensures !Decodable(Display(u, order, testBuild))
  {
    var rest := u.entryName + " " + u.proteinName + " " + "";
    assert KeywordAttributesToString(u.keywordAttributes, order, testBuild) == "";
    DisplayAsPieces(">" + u.database + "|" + u.accession + "|", u.entryName, u.proteinName, "");
    SplitBars(">" + u.database, u.accession, rest);
    SplitSpaces(u.entryName, u.proteinName, "");
    var p := Split(u.proteinName, ' ');
    var ts := Split(rest, ' ');
    assert ts == [u.entryName] + p + [""];
    SplitPiecesWithout(u.proteinName, ' ', '=');
    forall k | 2 <= k < |ts| ensures '=' !in ts[k] {
      if k < 1 + |p| {
        assert ts[k] == p[k - 1];
      } else {
        assert ts[k] == "";
      }
    }
  }

  // ---------------------------------------------------------------------------
  // The test build's display does not depend on the map's order

  lemma ItemsSameElements(attrs: map<string, string>, o1: seq<string>, o2: seq<string>)
    requires IsListing(o1, attrs) && IsListing(o2, attrs)
    ensures forall x :: x in Items(attrs, o1) ==> x in Items(attrs, o2)
  {
    var i1 := Items(attrs, o1);
    var i2 := Items(attrs, o2);
    forall x | x in i1 ensures x in i2 {
      var i :| 0 <= i < |i1| && i1[i] == x;
      ItemsAt(attrs, o1, i);
      assert o1[i] in o1;
      var j :| 0 <= j < |o2| && o2[j] == o1[i];
      ItemsAt(attrs, o2, j);
    }
  }

  /** In a test build the displayed header is the same for every order of the map. */
  lemma DisplaySortedAnyOrder(u: UniProt, o1: seq<string>, o2: seq<string>)
    requires IsListing(o1, u.keywordAttributes) && IsListing(o2, u.keywordAttributes)
    requires forall k :: k in u.keywordAttributes ==> '=' !in k
    ensures Display(u, o1, true) == Display(u, o2, true)
  {
    var attrs := u.keywordAttributes;
    var i1 := Items(attrs, o1);
    var i2 := Items(attrs, o2);
    ItemsDistinct(attrs, o1);
    ItemsDistinct(attrs, o2);
    ItemsSameElements(attrs, o1, o2);
    ItemsSameElements(attrs, o2, o1);
    DistinctSameElements(i1, i2);
    SortedUnique(Sort(i1), Sort(i2));
  }
}
