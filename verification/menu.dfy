/** The menu page: the filter state, the six filters that decide which
    catalog items are shown, the five sort orders, and the state changes the
    page offers (toggling a dietary tag or a subcategory, picking a
    category, clearing all filters). */
module Menu {
  import opened Types
  import opened Sequences

  // ---------------------------------------------------------------------
  // Filter state

  /** The page's filter state. `category` "All" and `spiceLevel` "all" switch
      their filters off; `minPrice` and `maxPrice` are the two ends of the
      price slider; `sortBy` is the sort selector's value. */
  datatype Filters = Filters(
    category: string,
    subcategories: seq<string>,
    dietary: seq<string>,
    spiceLevel: string,
    minPrice: real,
    maxPrice: real,
    sortBy: string,
    searchQuery: string)

  /** The state the page starts in. */
  const Initial: Filters := Filters("All", [], [], "all", 0.0, 25.0, "recommended", "")

  /** `list.filter(y => y !== x)`: every copy of `x` goes and every other
      element keeps its number of copies. */
  function Without(list: seq<string>, x: string): (r: seq<string>)
    ensures x !in r
    ensures forall y :: y != x ==> (y in r <==> y in list)
    ensures multiset(r) == multiset(list)[x := 0]
    ensures IsSubseq(r, list)
  {
    FilterMembers(list, NotEqual(x));
    FilterIsSubseq(list, NotEqual(x));
    WithoutCounts(list, x);
    Filter(list, NotEqual(x))
  }

  lemma {:induction false} WithoutCounts(list: seq<string>, x: string)
    ensures multiset(Filter(list, NotEqual(x))) == multiset(list)[x := 0]
    decreases |list|
  {
    if |list| > 0 {
      WithoutCounts(list[1..], x);
      assert list == [list[0]] + list[1..];
      assert multiset(list) == multiset{list[0]} + multiset(list[1..]);
    }
  }

  function NotEqual(x: string): string -> bool {
    (y: string) => y != x
  }

  /** Adds `x` at the end when absent, removes every copy when present. Only
      the membership of `x` changes. */
  function Toggle(list: seq<string>, x: string): (r: seq<string>)
    ensures x in r <==> x !in list
    ensures forall y :: y != x ==> (y in r <==> y in list)
    ensures x !in list ==> r == list + [x]
    ensures x in list ==> IsSubseq(r, list) && |r| < |list|
    ensures x in list ==> multiset(r) == multiset(list)[x := 0]
  {
    if x in list then
      var k :| 0 <= k < |list| && list[k] == x;
      FilterShrinks(list, NotEqual(x), k);
      Without(list, x)
    else list + [x]
  }

  /** Toggling an absent element twice gives back the list itself. */
  lemma ToggleTwice(list: seq<string>, x: string)
    requires x !in list
    ensures Toggle(Toggle(list, x), x) == list
  {
    var added := list + [x];
    assert x in added;
    FilterKeepsAll(list, NotEqual(x));
    FilterOfSingleton(x, NotEqual(x));
    calc {
      Toggle(added, x);
      Filter(added, NotEqual(x));
      { FilterAppend(list, [x], NotEqual(x)); }
      Filter(list, NotEqual(x)) + Filter([x], NotEqual(x));
      list + [];
    }
    assert list + [] == list;
  }

  /** Flips one dietary tag; every other tag and every other filter stays. */
  function ToggleDietaryFilter(f: Filters, tag: string): (r: Filters)
    ensures tag in r.dietary <==> tag !in f.dietary
    ensures forall t :: t != tag ==> (t in r.dietary <==> t in f.dietary)
    ensures r.(dietary := f.dietary) == f
  {
    f.(dietary := Toggle(f.dietary, tag))
  }

  /** Flips one subcategory; every other one and every other filter stays. */
  function ToggleSubcategory(f: Filters, sub: string): (r: Filters)
    ensures sub in r.subcategories <==> sub !in f.subcategories
    ensures forall t :: t != sub ==> (t in r.subcategories <==> t in f.subcategories)
    ensures r.(subcategories := f.subcategories) == f
  {
    f.(subcategories := Toggle(f.subcategories, sub))
  }

  /** Picking a category also empties the selected subcategories; nothing
      else changes. */
  function SelectCategory(f: Filters, category: string): (r: Filters)
    ensures r.category == category && |r.subcategories| == 0
    ensures r.(category := f.category, subcategories := f.subcategories) == f
  {
    f.(category := category, subcategories := [])
  }

  /** Restores the initial state, whatever the current one. */
  function ClearFilters(f: Filters): (r: Filters)
    ensures r == Initial
  {
    Filters("All", [], [], "all", 0.0, 25.0, "recommended", "")
  }

  // ---------------------------------------------------------------------
  // Text matching (ASCII case folding)

  function LowerChar(c: char): char {
    if 'A' <= c <= 'Z' then (c as int + 32) as char else c
  }

  function Lower(s: string): (r: string)
    ensures |r| == |s|
    ensures forall i :: 0 <= i < |s| ==> r[i] == LowerChar(s[i])
  {
    seq(|s|, i requires 0 <= i < |s| => LowerChar(s[i]))
  }

  lemma LowerAppend(a: string, b: string)
    ensures Lower(a + b) == Lower(a) + Lower(b)
  {
  }

  /** JavaScript's `String.prototype.includes`: `needle` occurs in `hay`. */
  predicate Contains(hay: string, needle: string) {
    exists i | 0 <= i <= |hay| - |needle| :: OccursAt(hay, needle, i)
  }

  predicate OccursAt(hay: string, needle: string, i: int) {
    0 <= i <= |hay| - |needle| && hay[i..i + |needle|] == needle
  }

  lemma ContainsTransitive(a: string, b: string, c: string)
    requires Contains(a, b) && Contains(b, c)
    ensures Contains(a, c)
  {
    var i :| 0 <= i <= |a| - |b| && OccursAt(a, b, i);
    var j :| 0 <= j <= |b| - |c| && OccursAt(b, c, j);
    forall t | 0 <= t < |c|
      ensures a[i + j + t] == c[t]
    {
      assert a[i..i + |b|][j + t] == b[j + t];
      assert b[j..j + |c|][t] == c[t];
    }
    assert a[i + j..i + j + |c|] == c;
    assert OccursAt(a, c, i + j);
  }

  lemma ContainsReflexive(a: string)
    ensures Contains(a, a)
  {
    assert a[0..|a|] == a;
    assert OccursAt(a, a, 0);
  }

  lemma ContainsPrefix(a: string, b: string)
    ensures Contains(a + b, a)
  {
    assert (a + b)[0..|a|] == a;
    assert OccursAt(a + b, a, 0);
  }

  // ---------------------------------------------------------------------
  // The six filters

  predicate MatchesCategory(f: Filters, item: MenuItem) {
    f.category == "All" || item.category == f.category
  }

  predicate MatchesSubcategory(f: Filters, item: MenuItem) {
    |f.subcategories| == 0 || item.subcategory in f.subcategories
  }

  /** Every selected tag must be among the item's tags. */
  predicate MatchesDietary(f: Filters, item: MenuItem) {
    |f.dietary| == 0 || forall i :: 0 <= i < |f.dietary| ==> f.dietary[i] in item.dietaryTags
  }

  predicate MatchesSpice(f: Filters, item: MenuItem) {
    f.spiceLevel == "all" || SpiceName(item.spiceLevel) == f.spiceLevel
  }

  /** Inclusive at both ends. */
  predicate MatchesPrice(f: Filters, item: MenuItem) {
    !(item.price < f.minPrice || item.price > f.maxPrice)
  }

  predicate MatchesSearch(f: Filters, item: MenuItem) {
    |f.searchQuery| == 0 || Contains(Lower(item.name), Lower(f.searchQuery))
  }

  /** An item passes the combined filter exactly when it passes each one, in
      the terms the page promises. */
  predicate Matches(f: Filters, item: MenuItem): (b: bool)
    ensures b <==>
      && (f.category != "All" ==> item.category == f.category)
      && (|f.subcategories| > 0 ==> item.subcategory in f.subcategories)
      && (forall t :: t in f.dietary ==> t in item.dietaryTags)
      && (f.spiceLevel != "all" ==> SpiceName(item.spiceLevel) == f.spiceLevel)
      && f.minPrice <= item.price <= f.maxPrice
      && (|f.searchQuery| > 0 ==> Contains(Lower(item.name), Lower(f.searchQuery)))
  {
    && MatchesCategory(f, item)
    && MatchesSubcategory(f, item)
    && MatchesDietary(f, item)
    && MatchesSpice(f, item)
    && MatchesPrice(f, item)
    && MatchesSearch(f, item)
  }

  function Matcher(f: Filters): MenuItem -> bool {
    (item: MenuItem) => Matches(f, item)
  }

  /** The catalog items that pass every filter, in catalog order. */
  function Filtered(catalog: seq<MenuItem>, f: Filters): (r: seq<MenuItem>)
    ensures forall i :: 0 <= i < |r| ==> r[i] in catalog && Matches(f, r[i])
    ensures forall i :: 0 <= i < |catalog| && Matches(f, catalog[i]) ==> catalog[i] in r
    ensures IsSubseq(r, catalog)
  {
    FilterMembers(catalog, Matcher(f));
    FilterIsSubseq(catalog, Matcher(f));
    Filter(catalog, Matcher(f))
  }

  lemma EmptyCatalog(f: Filters)
    ensures Filtered([], f) == []
  {
  }

  /** After a category click only the category, dietary, spice, price and
      search filters decide: the subcategory filter is off. */
  lemma SelectCategoryMatches(f: Filters, category: string, item: MenuItem)
    ensures Matches(SelectCategory(f, category), item) <==>
      && (category == "All" || item.category == category)
      && MatchesDietary(f, item) && MatchesSpice(f, item)
      && MatchesPrice(f, item) && MatchesSearch(f, item)
  {
  }

  /** A price range whose low end is above its high end shows nothing. */
  lemma InvertedPriceRange(catalog: seq<MenuItem>, f: Filters)
    requires f.minPrice > f.maxPrice
    ensures Filtered(catalog, f) == []
  {
  }

  /** `g` filters at least as strictly as `f`, field by field. */
  ghost predicate Narrower(g: Filters, f: Filters) {
    && (f.category == "All" || g.category == f.category)
    && (|f.subcategories| == 0 ||
        (|g.subcategories| > 0 && forall s :: s in g.subcategories ==> s in f.subcategories))
    && (forall t :: t in f.dietary ==> t in g.dietary)
    && (f.spiceLevel == "all" || g.spiceLevel == f.spiceLevel)
    && f.minPrice <= g.minPrice && g.maxPrice <= f.maxPrice
    && (|f.searchQuery| == 0 || Contains(Lower(g.searchQuery), Lower(f.searchQuery)))
  }

  lemma NarrowerMatches(g: Filters, f: Filters, item: MenuItem)
    requires Narrower(g, f) && Matches(g, item)
    ensures Matches(f, item)
  {
    if |f.searchQuery| > 0 {
      assert |Lower(g.searchQuery)| > 0;
      ContainsTransitive(Lower(item.name), Lower(g.searchQuery), Lower(f.searchQuery));
    }
  }

  /** Tightening the filters never shows more: what a narrower state shows
      is a subsequence of what the wider one shows. */
  lemma Monotonic(catalog: seq<MenuItem>, g: Filters, f: Filters)
    requires Narrower(g, f)
    ensures IsSubseq(Filtered(catalog, g), Filtered(catalog, f))
    ensures |Filtered(catalog, g)| <= |Filtered(catalog, f)|
  {
    forall i | 0 <= i < |catalog|
      ensures Matcher(g)(catalog[i]) ==> Matcher(f)(catalog[i])
    {
      if Matches(g, catalog[i]) {
        NarrowerMatches(g, f, catalog[i]);
      }
    }
    FilterStronger(catalog, Matcher(g), Matcher(f));
  }

  /** Each single-field tightening the page offers is narrower: adding a
      dietary tag, picking a category or a spice level where "All"/"all" was,
      and shrinking the price range. */
  lemma SingleTightenings(f: Filters, tag: string, category: string, spice: string, lo: real, hi: real)
    ensures tag !in f.dietary ==> Narrower(ToggleDietaryFilter(f, tag), f)
    ensures f.category == "All" ==> Narrower(f.(category := category), f)
    ensures f.spiceLevel == "all" ==> Narrower(f.(spiceLevel := spice), f)
    ensures f.minPrice <= lo && hi <= f.maxPrice ==> Narrower(f.(minPrice := lo, maxPrice := hi), f)
  {
    ContainsReflexive(Lower(f.searchQuery));
  }

  /** Typing more of the search query narrows the result. */
  lemma LongerQueryNarrows(f: Filters, more: string)
    ensures Narrower(f.(searchQuery := f.searchQuery + more), f)
  {
    LowerAppend(f.searchQuery, more);
    ContainsPrefix(Lower(f.searchQuery), Lower(more));
  }

  /** Subcategories combine with OR: selecting one more subcategory, when
      some are already selected, can only widen the result, while dietary
      tags combine with AND and selecting one more can only narrow it. */
  lemma SubcategoriesWiden(f: Filters, sub: string)
    requires |f.subcategories| > 0 && sub !in f.subcategories
    ensures Narrower(f, ToggleSubcategory(f, sub))
  {
    ContainsReflexive(Lower(f.searchQuery));
  }

  // ---------------------------------------------------------------------
  // Sorting

  /** The page's comparator: negative puts `a` first. Unknown modes,
      "recommended" among them, compare every pair as equal. */
  function Compare(sortBy: string, a: MenuItem, b: MenuItem): (d: real)
    ensures sortBy == "price-low" ==> (d < 0.0 <==> a.price < b.price)
    ensures sortBy == "price-high" ==> (d < 0.0 <==> a.price > b.price)
    ensures sortBy == "rating" ==> (d < 0.0 <==> a.rating > b.rating)
    ensures sortBy == "popularity" ==> (d < 0.0 <==> a.reviewCount > b.reviewCount)
    ensures a == b ==> d == 0.0
    ensures sortBy !in {"price-low", "price-high", "rating", "popularity"} ==> d == 0.0
  {
    match sortBy
    case "price-low" => a.price - b.price
    case "price-high" => b.price - a.price
    case "rating" => b.rating - a.rating
    case "popularity" => (b.reviewCount - a.reviewCount) as real
    case _ => 0.0
  }

  /** The key each mode sorts by, ascending. */
  function SortKey(sortBy: string, item: MenuItem): real {
    match sortBy
    case "price-low" => item.price
    case "price-high" => -item.price
    case "rating" => -item.rating
    case "popularity" => -(item.reviewCount as real)
    case _ => 0.0
  }

  /** The comparator is the difference of the keys, so it orders items as
      their keys do. */
  lemma CompareIsKeyDifference(sortBy: string, a: MenuItem, b: MenuItem)
    ensures Compare(sortBy, a, b) == SortKey(sortBy, a) - SortKey(sortBy, b)
    ensures Compare(sortBy, a, b) <= 0.0 <==> SortKey(sortBy, a) <= SortKey(sortBy, b)
    ensures Compare(sortBy, a, b) == -Compare(sortBy, b, a)
  {
  }

  /** The mode's key as a function value. */
  function Key(sortBy: string): MenuItem -> real {
    (item: MenuItem) => SortKey(sortBy, item)
  }

  ghost predicate SortedBy(key: MenuItem -> real, s: seq<MenuItem>) {
    forall i, j :: 0 <= i < j < |s| ==> key(s[i]) <= key(s[j])
  }

  /** Puts `x` before the first element whose key is not smaller. */
  function Insert(key: MenuItem -> real, x: MenuItem, s: seq<MenuItem>): (r: seq<MenuItem>)
    ensures |r| == |s| + 1
    decreases |s|
  {
    if |s| == 0 then [x]
    else if key(x) <= key(s[0]) then [x] + s
    else [s[0]] + Insert(key, x, s[1..])
  }

  /** Inserting adds exactly `x` to the elements. */
  lemma {:induction false} InsertPermutes(key: MenuItem -> real, x: MenuItem, s: seq<MenuItem>)
    ensures multiset(Insert(key, x, s)) == multiset(s) + multiset{x}
    decreases |s|
  {
    if |s| > 0 && key(x) > key(s[0]) {
      InsertPermutes(key, x, s[1..]);
      assert s == [s[0]] + s[1..];
    }
  }

  /** A lower bound on `x` and on every element of `s` bounds the result. */
  lemma {:induction false} InsertLowerBound(key: MenuItem -> real, x: MenuItem, s: seq<MenuItem>, lo: real)
    requires lo <= key(x) && forall i :: 0 <= i < |s| ==> lo <= key(s[i])
    ensures forall i :: 0 <= i < |Insert(key, x, s)| ==> lo <= key(Insert(key, x, s)[i])
    decreases |s|
  {
    if |s| > 0 && key(x) > key(s[0]) {
      InsertLowerBound(key, x, s[1..], lo);
      var r, rest := Insert(key, x, s), Insert(key, x, s[1..]);
      forall i | 1 <= i < |r|
        ensures r[i] == rest[i - 1]
      {
      }
    }
  }

  lemma {:induction false} InsertSorted(key: MenuItem -> real, x: MenuItem, s: seq<MenuItem>)
    requires SortedBy(key, s)
    ensures SortedBy(key, Insert(key, x, s))
    decreases |s|
  {
    if |s| > 0 && key(x) > key(s[0]) {
      var tail := s[1..];
      var rest := Insert(key, x, tail);
      assert SortedBy(key, tail) by {
        forall i, j | 0 <= i < j < |tail|
          ensures key(tail[i]) <= key(tail[j])
        {
          assert tail[i] == s[i + 1] && tail[j] == s[j + 1];
        }
      }
      InsertSorted(key, x, tail);
      forall i | 0 <= i < |tail|
        ensures key(s[0]) <= key(tail[i])
      {
        assert tail[i] == s[i + 1];
      }
      InsertLowerBound(key, x, tail, key(s[0]));
      var r := Insert(key, x, s);
      assert r == [s[0]] + rest;
      forall i, j | 0 <= i < j < |r|
        ensures key(r[i]) <= key(r[j])
      {
        if i > 0 {
          assert r[i] == rest[i - 1] && r[j] == rest[j - 1];
        } else {
          assert r[j] == rest[j - 1];
        }
      }
    }
  }

  /** Insertion sort by `key`. */
  function InsertionSort(key: MenuItem -> real, items: seq<MenuItem>): (r: seq<MenuItem>)
    ensures |r| == |items|
    ensures multiset(r) == multiset(items)
    ensures SortedBy(key, r)
    decreases |items|
  {
    if |items| == 0 then []
    else
      assert items == [items[0]] + items[1..];
      var rest := InsertionSort(key, items[1..]);
      InsertSorted(key, items[0], rest);
      InsertPermutes(key, items[0], rest);
      Insert(key, items[0], rest)
  }

  /** The sorted copy the page lists: a permutation of its input, ordered
      by the mode's key. */
  function SortItems(sortBy: string, items: seq<MenuItem>): (r: seq<MenuItem>)
    ensures |r| == |items|
    ensures multiset(r) == multiset(items)
    ensures forall i, j :: 0 <= i < j < |r| ==> SortKey(sortBy, r[i]) <= SortKey(sortBy, r[j])
  {
    InsertionSort(Key(sortBy), items)
  }

  /** Sortedness in the terms of each mode. */
  lemma SortOrderByMode(sortBy: string, items: seq<MenuItem>)
    ensures var r := SortItems(sortBy, items);
      && (sortBy == "price-low" ==> forall i, j :: 0 <= i < j < |r| ==> r[i].price <= r[j].price)
      && (sortBy == "price-high" ==> forall i, j :: 0 <= i < j < |r| ==> r[i].price >= r[j].price)
      && (sortBy == "rating" ==> forall i, j :: 0 <= i < j < |r| ==> r[i].rating >= r[j].rating)
      && (sortBy == "popularity" ==> forall i, j :: 0 <= i < j < |r| ==> r[i].reviewCount >= r[j].reviewCount)
  {
    var r := SortItems(sortBy, items);
    forall i, j | 0 <= i < j < |r|
      ensures KeyOrderMeans(sortBy, r[i], r[j])
    {
      KeyOrder(sortBy, r[i], r[j]);
    }
  }

  predicate KeyOrderMeans(sortBy: string, a: MenuItem, b: MenuItem) {
    && (sortBy == "price-low" ==> a.price <= b.price)
    && (sortBy == "price-high" ==> a.price >= b.price)
    && (sortBy == "rating" ==> a.rating >= b.rating)
    && (sortBy == "popularity" ==> a.reviewCount >= b.reviewCount)
  }

  lemma KeyOrder(sortBy: string, a: MenuItem, b: MenuItem)
    requires SortKey(sortBy, a) <= SortKey(sortBy, b)
    ensures KeyOrderMeans(sortBy, a, b)
  {
  }

  function HasKey(key: MenuItem -> real, k: real): MenuItem -> bool {
    (item: MenuItem) => key(item) == k
  }

  /** The items with key `k`, in order. */
  function WithKey(key: MenuItem -> real, s: seq<MenuItem>, k: real): seq<MenuItem> {
    Filter(s, HasKey(key, k))
  }

  lemma {:induction false} InsertStable(key: MenuItem -> real, x: MenuItem, s: seq<MenuItem>, k: real)
    ensures WithKey(key, Insert(key, x, s), k)
            == (if key(x) == k then [x] else []) + WithKey(key, s, k)
    decreases |s|
  {
    var p := HasKey(key, k);
    if |s| == 0 {
      FilterOfSingleton(x, p);
    } else if key(x) <= key(s[0]) {
      FilterAppend([x], s, p);
      FilterOfSingleton(x, p);
    } else {
      var rest := Insert(key, x, s[1..]);
      var mine := if key(x) == k then [x] else [];
      var head := Filter([s[0]], p);
      FilterOfSingleton(s[0], p);
      assert key(x) == k ==> head == [];
      assert s == [s[0]] + s[1..];
      calc {
        Filter(Insert(key, x, s), p);
        Filter([s[0]] + rest, p);
        { FilterAppend([s[0]], rest, p); }
        head + Filter(rest, p);
        { InsertStable(key, x, s[1..], k); }
        head + (mine + Filter(s[1..], p));
        mine + (head + Filter(s[1..], p));
        { FilterAppend([s[0]], s[1..], p); }
        mine + Filter(s, p);
      }
    }
  }

  lemma {:induction false} InsertionSortStable(key: MenuItem -> real, items: seq<MenuItem>, k: real)
    ensures WithKey(key, InsertionSort(key, items), k) == WithKey(key, items, k)
    decreases |items|
  {
    if |items| > 0 {
      var rest := InsertionSort(key, items[1..]);
      InsertStable(key, items[0], rest, k);
      InsertionSortStable(key, items[1..], k);
      assert items == [items[0]] + items[1..];
      FilterAppend([items[0]], items[1..], HasKey(key, k));
      FilterOfSingleton(items[0], HasKey(key, k));
    }
  }

  /** Stability: for every key value, the items carrying it keep their
      relative order. */
  lemma SortStable(sortBy: string, items: seq<MenuItem>, k: real)
    ensures WithKey(Key(sortBy), SortItems(sortBy, items), k) == WithKey(Key(sortBy), items, k)
  {
    InsertionSortStable(Key(sortBy), items, k);
  }

  ghost predicate KnownMode(sortBy: string) {
    sortBy in {"price-low", "price-high", "rating", "popularity"}
  }

  /** "recommended", and any value the comparator does not know, keeps the
      filtered order. */
  lemma UnknownModeKeepsOrder(sortBy: string, items: seq<MenuItem>)
    requires !KnownMode(sortBy)
    ensures SortItems(sortBy, items) == items
  {
    var key := Key(sortBy);
    var r := SortItems(sortBy, items);
    SortStable(sortBy, items, 0.0);
    forall i | 0 <= i < |items|
      ensures HasKey(key, 0.0)(items[i])
    {
    }
    FilterKeepsAll(items, HasKey(key, 0.0));
    forall i | 0 <= i < |r|
      ensures HasKey(key, 0.0)(r[i])
    {
    }
    FilterKeepsAll(r, HasKey(key, 0.0));
  }

  // ---------------------------------------------------------------------
  // The page's list

  /** What the page lists: the filtered catalog, sorted by a copy. */
  function Shown(catalog: seq<MenuItem>, f: Filters): (r: seq<MenuItem>)
    ensures multiset(r) == multiset(Filtered(catalog, f))
    ensures forall i :: 0 <= i < |r| ==> Matches(f, r[i]) && r[i] in catalog
    ensures forall i :: 0 <= i < |catalog| && Matches(f, catalog[i]) ==> catalog[i] in r
    ensures SortedBy(Key(f.sortBy), r)
  {
    var filtered := Filtered(catalog, f);
    var r := SortItems(f.sortBy, filtered);
    forall i | 0 <= i < |r|
      ensures Matches(f, r[i]) && r[i] in catalog
    {
      assert r[i] in multiset(r);
      var j :| 0 <= j < |filtered| && filtered[j] == r[i];
    }
    forall i | 0 <= i < |catalog| && Matches(f, catalog[i])
      ensures catalog[i] in r
    {
      assert catalog[i] in multiset(filtered);
    }
    r
  }

  /** After clearing, the page lists every item priced from 0 to 25, in
      catalog order. */
  lemma ClearedShowsPriceBand(catalog: seq<MenuItem>, f: Filters)
    ensures Shown(catalog, ClearFilters(f)) == Filter(catalog, InBand(0.0, 25.0))
  {
    var g := ClearFilters(f);
    UnknownModeKeepsOrder(g.sortBy, Filtered(catalog, g));
    assert forall item :: Matcher(g)(item) == InBand(0.0, 25.0)(item);
    SameFilter(catalog, Matcher(g), InBand(0.0, 25.0));
  }

  function InBand(lo: real, hi: real): MenuItem -> bool {
    (item: MenuItem) => lo <= item.price <= hi
  }

  lemma {:induction false} SameFilter<T>(s: seq<T>, p: T -> bool, q: T -> bool)
    requires forall i :: 0 <= i < |s| ==> p(s[i]) == q(s[i])
    ensures Filter(s, p) == Filter(s, q)
    decreases |s|
  {
    if |s| > 0 {
      SameFilter(s[1..], p, q);
    }
  }
}
