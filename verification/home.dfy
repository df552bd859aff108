/** The home page's featured list: the first three popular catalog items. */
module Home {
  import opened Types
  import opened Sequences

  /** `isPopular` is optional; only an explicit `true` counts. */
  predicate IsPopular(item: MenuItem) {
    item.isPopular == Some(true)
  }

  function Popular(): MenuItem -> bool {
    (item: MenuItem) => IsPopular(item)
  }

  /** How many items of `s` are popular, counted independently of `Filter`. */
  function CountPopular(s: seq<MenuItem>): nat
    decreases |s|
  {
    if |s| == 0 then 0 else (if IsPopular(s[0]) then 1 else 0) + CountPopular(s[1..])
  }

  lemma {:induction false} CountIsFilterLength(s: seq<MenuItem>)
    ensures CountPopular(s) == |Filter(s, Popular())|
    decreases |s|
  {
    if |s| > 0 {
      CountIsFilterLength(s[1..]);
    }
  }

  /** The popular items in catalog order, cut after the third. */
  function Featured(catalog: seq<MenuItem>): (r: seq<MenuItem>)
    ensures |r| == if CountPopular(catalog) < 3 then CountPopular(catalog) else 3
    ensures forall i :: 0 <= i < |r| ==> IsPopular(r[i]) && r[i] in catalog
  {
    var popular := Filter(catalog, Popular());
    FilterMembers(catalog, Popular());
    CountIsFilterLength(catalog);
    if |popular| < 3 then popular else popular[..3]
  }

  /** The featured list keeps catalog order. */
  lemma FeaturedIsSubseq(catalog: seq<MenuItem>)
    ensures IsSubseq(Featured(catalog), catalog)
  {
    var popular := Filter(catalog, Popular());
    FilterIsSubseq(catalog, Popular());
    if |popular| >= 3 {
      PrefixIsSubseq(popular, 3);
      SubseqTransitive(popular[..3], popular, catalog);
    }
  }

  /** A popular item with fewer than three popular items before it is
      featured, at the position given by how many popular items precede it;
      so the list is exactly the first three popular items, in order. */
  lemma FirstPopularAreFeatured(catalog: seq<MenuItem>, k: int)
    requires 0 <= k < |catalog| && IsPopular(catalog[k]) && CountPopular(catalog[..k]) < 3
    ensures CountPopular(catalog[..k]) < |Featured(catalog)|
    ensures Featured(catalog)[CountPopular(catalog[..k])] == catalog[k]
  {
    FilterPosition(catalog, Popular(), k);
    CountIsFilterLength(catalog[..k]);
    CountIsFilterLength(catalog);
  }
}
