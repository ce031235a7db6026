/** The LINQ query of the main loop: Where on country and asset type, then a
    stable OrderByDescending on the purchase date. */
module Query {
  import opened Assets

  predicate Matches(a: Asset, country: string, assetType: string) {
    a.country == country && a.assetType == assetType
  }

  /** Where: the matching assets, in input order. */
  function Where(s: seq<Asset>, country: string, assetType: string): (r: seq<Asset>) {
    if s == [] then []
    else
      var rest := Where(s[1..], country, assetType);
      if Matches(s[0], country, assetType) then [s[0]] + rest else rest
  }

  /** Where keeps every matching asset as often as the input has it, and
      nothing else. */
  lemma {:induction false} WhereKeepsMatches(s: seq<Asset>, country: string, assetType: string)
    ensures forall a :: multiset(Where(s, country, assetType))[a] ==
                        if Matches(a, country, assetType) then multiset(s)[a] else 0
  {
    if s != [] {
      WhereKeepsMatches(s[1..], country, assetType);
      assert s == [s[0]] + s[1..];
    }
  }

  /** No element is purchased strictly after an element before it. */
  predicate SortedByDateDescending(s: seq<Asset>) {
    forall i, j :: 0 <= i < j < |s| ==> !Earlier(s[i].purchaseDate, s[j].purchaseDate)
  }

  /** The assets of s purchased on date d, in the order of s. */
  function WithDate(s: seq<Asset>, d: DateTime): (r: seq<Asset>) {
    if s == [] then []
    else if s[0].purchaseDate == d then [s[0]] + WithDate(s[1..], d)
    else WithDate(s[1..], d)
  }

  /** Insert x in front of the first element not purchased after it. */
  function Insert(x: Asset, t: seq<Asset>): (r: seq<Asset>) {
    if t == [] then [x]
    else if Earlier(x.purchaseDate, t[0].purchaseDate) then [t[0]] + Insert(x, t[1..])
    else [x] + t
  }

  /** OrderByDescending(a => a.PurchaseDate), as an insertion sort that takes
      the input from its front, so ties keep input order. */
  function OrderByDateDescending(s: seq<Asset>): (r: seq<Asset>) {
    if s == [] then [] else Insert(s[0], OrderByDateDescending(s[1..]))
  }

  /** The query of Main, lines 26 to 29. */
  function Select(s: seq<Asset>, country: string, assetType: string): (r: seq<Asset>) {
    OrderByDateDescending(Where(s, country, assetType))
  }

  lemma {:induction false} InsertPermutes(x: Asset, t: seq<Asset>)
    ensures multiset(Insert(x, t)) == multiset(t) + multiset{x}
  {
    if t != [] && Earlier(x.purchaseDate, t[0].purchaseDate) {
      InsertPermutes(x, t[1..]);
      assert t == [t[0]] + t[1..];
    }
  }

  /** Prepending an asset no older than the head keeps a sequence sorted. */
  lemma PrependSorted(x: Asset, t: seq<Asset>)
    requires SortedByDateDescending(t)
    requires forall j :: 0 <= j < |t| ==> !Earlier(x.purchaseDate, t[j].purchaseDate)
    ensures SortedByDateDescending([x] + t)
  {
  }

  lemma {:induction false} InsertSorted(x: Asset, t: seq<Asset>)
    requires SortedByDateDescending(t)
    ensures SortedByDateDescending(Insert(x, t))
  {
    if t == [] {
    } else if Earlier(x.purchaseDate, t[0].purchaseDate) {
      var rest := Insert(x, t[1..]);
      InsertSorted(x, t[1..]);
      InsertPermutes(x, t[1..]);
      forall j | 0 <= j < |rest|
        ensures !Earlier(t[0].purchaseDate, rest[j].purchaseDate)
      {
        assert rest[j] in multiset(rest);
        if rest[j] != x {
          assert rest[j] in multiset(t[1..]);
          var k :| 0 <= k < |t[1..]| && t[1..][k] == rest[j];
          assert t[k + 1] == rest[j];
        }
      }
      PrependSorted(t[0], rest);
    } else {
      forall j | 0 <= j < |t|
        ensures !Earlier(x.purchaseDate, t[j].purchaseDate)
      {
        EarlierIsStrictTotalOrder(t[0].purchaseDate, t[j].purchaseDate, x.purchaseDate);
        if j > 0 {
          EarlierIsStrictTotalOrder(x.purchaseDate, t[0].purchaseDate, t[j].purchaseDate);
        }
      }
      PrependSorted(x, t);
    }
  }

  lemma {:induction false} InsertKeepsTies(x: Asset, t: seq<Asset>, d: DateTime)
    ensures WithDate(Insert(x, t), d) ==
            if x.purchaseDate == d then [x] + WithDate(t, d) else WithDate(t, d)
  {
    if t == [] {
      assert WithDate([x], d) == (if x.purchaseDate == d then [x] else []);
    } else if Earlier(x.purchaseDate, t[0].purchaseDate) {
      InsertKeepsTies(x, t[1..], d);
      var r := [t[0]] + Insert(x, t[1..]);
      assert r[1..] == Insert(x, t[1..]);
      if x.purchaseDate == d {
        EarlierIsStrictTotalOrder(x.purchaseDate, t[0].purchaseDate, t[0].purchaseDate);
      }
    } else {
      var r := [x] + t;
      assert r[1..] == t;
    }
  }

  /** The sort orders by purchase date, newest first. */
  lemma {:induction false} OrderIsSorted(s: seq<Asset>)
    ensures SortedByDateDescending(OrderByDateDescending(s))
  {
    if s != [] {
      OrderIsSorted(s[1..]);
      InsertSorted(s[0], OrderByDateDescending(s[1..]));
    }
  }

  /** The sort is a permutation of its input. */
  lemma {:induction false} OrderPermutes(s: seq<Asset>)
    ensures multiset(OrderByDateDescending(s)) == multiset(s)
  {
    if s != [] {
      OrderPermutes(s[1..]);
      InsertPermutes(s[0], OrderByDateDescending(s[1..]));
      assert s == [s[0]] + s[1..];
    }
  }

  /** The sort is stable: for every date, the assets bought on that date come
      out in the order they went in. */
  lemma {:induction false} OrderIsStable(s: seq<Asset>, d: DateTime)
    ensures WithDate(OrderByDateDescending(s), d) == WithDate(s, d)
  {
    if s != [] {
      OrderIsStable(s[1..], d);
      InsertKeepsTies(s[0], OrderByDateDescending(s[1..]), d);
    }
  }

  lemma {:induction false} WithDateMembers(s: seq<Asset>, d: DateTime, a: Asset)
    requires a in WithDate(s, d)
    ensures a in s && a.purchaseDate == d
  {
    if !(s[0].purchaseDate == d && a == s[0]) {
      WithDateMembers(s[1..], d, a);
    }
  }

  lemma {:induction false} WithDateOfHead(s: seq<Asset>, d: DateTime)
    requires s != []
    ensures WithDate(s, d) ==
            if s[0].purchaseDate == d then [s[0]] + WithDate(s[1..], d) else WithDate(s[1..], d)
  {
  }

  lemma {:induction false} SortedHeadIsNewest(s: seq<Asset>, a: Asset)
    requires SortedByDateDescending(s) && a in s
    ensures !Earlier(s[0].purchaseDate, a.purchaseDate)
  {
  }

  /** Two date-sorted sequences that agree on the assets of every date are
      equal: sortedness and stability determine the result completely. */
  lemma {:induction false} SortedWithSameTiesAreEqual(r: seq<Asset>, o: seq<Asset>)
    requires SortedByDateDescending(r) && SortedByDateDescending(o)
    requires forall d :: WithDate(r, d) == WithDate(o, d)
    ensures r == o
    decreases |r| + |o|
  {
    if o != [] {
      WithDateOfHead(o, o[0].purchaseDate);
    }
    if r != [] {
      WithDateOfHead(r, r[0].purchaseDate);
    }
    if r != [] && o != [] {
      var d1, d2 := r[0].purchaseDate, o[0].purchaseDate;
      WithDateMembers(o, d1, r[0]);
      SortedHeadIsNewest(o, r[0]);
      WithDateMembers(r, d2, o[0]);
      SortedHeadIsNewest(r, o[0]);
      EarlierIsStrictTotalOrder(d1, d2, d1);
      assert r[0] == o[0];
      var r', o' := r[1..], o[1..];
      forall d
        ensures WithDate(r', d) == WithDate(o', d)
      {
        WithDateOfHead(r, d);
        WithDateOfHead(o, d);
        if d == d1 {
          assert WithDate(r', d) == WithDate(r, d)[1..];
          assert WithDate(o', d) == WithDate(o, d)[1..];
        }
      }
      assert SortedByDateDescending(r') && SortedByDateDescending(o');
      SortedWithSameTiesAreEqual(r', o');
      assert r == [r[0]] + r';
      assert o == [o[0]] + o';
    }
  }

  /** Any date-sorted sequence that keeps the order of every date's assets is
      the result of OrderByDateDescending: the sort is the stable one. */
  lemma {:induction false} StableSortIsUnique(s: seq<Asset>, r: seq<Asset>)
    requires SortedByDateDescending(r)
    requires forall d :: WithDate(r, d) == WithDate(s, d)
    ensures r == OrderByDateDescending(s)
  {
    OrderIsSorted(s);
    forall d
      ensures WithDate(r, d) == WithDate(OrderByDateDescending(s), d)
    {
      OrderIsStable(s, d);
    }
    SortedWithSameTiesAreEqual(r, OrderByDateDescending(s));
  }

  lemma {:induction false} WhereCommutesWithDate(s: seq<Asset>, country: string, assetType: string, d: DateTime)
    ensures WithDate(Where(s, country, assetType), d) == Where(WithDate(s, d), country, assetType)
  {
    if s != [] {
      WhereCommutesWithDate(s[1..], country, assetType, d);
      var rest := Where(s[1..], country, assetType);
      if Matches(s[0], country, assetType) {
        assert ([s[0]] + rest)[1..] == rest;
      }
      if s[0].purchaseDate == d {
        assert ([s[0]] + WithDate(s[1..], d))[1..] == WithDate(s[1..], d);
      }
    }
  }

  /** What the query of Main returns: exactly the assets of the chosen
      country and type, each as often as in the input; newest purchase first;
      assets bought on the same date in input order; nothing when nothing
      matches. */
  lemma {:induction false} SelectContract(s: seq<Asset>, country: string, assetType: string)
    ensures var r := Select(s, country, assetType);
            && SortedByDateDescending(r)
            && (forall a :: multiset(r)[a] == if Matches(a, country, assetType) then multiset(s)[a] else 0)
            && (forall a :: a in r <==> a in s && Matches(a, country, assetType))
            && (forall d :: WithDate(r, d) == Where(WithDate(s, d), country, assetType))
            && ((forall a :: a in s ==> !Matches(a, country, assetType)) ==> r == [])
  {
    var w := Where(s, country, assetType);
    var r := Select(s, country, assetType);
    WhereKeepsMatches(s, country, assetType);
    OrderIsSorted(w);
    OrderPermutes(w);
    forall a
      ensures a in r <==> a in s && Matches(a, country, assetType)
    {
      assert a in r <==> a in multiset(r);
      assert a in s <==> a in multiset(s);
    }
    forall d
      ensures WithDate(r, d) == Where(WithDate(s, d), country, assetType)
    {
      OrderIsStable(w, d);
      WhereCommutesWithDate(s, country, assetType, d);
    }
    if r != [] {
      assert r[0] in r;
    }
  }
}
