/**
  The DaemonSet searcher of the resources package: a status classifier, an
  exact-match filter, a fuzzy filter, an ordering, and the search that lists
  the DaemonSets of a namespace, filters them and sorts what is left.
 */
module DaemonSets {
  import opened StringUtil

  /** The fields of an apps/v1 DaemonSet the searcher reads. The creation time is
      an abstract timestamp: earlier means smaller. */
  datatype DaemonSet = DaemonSet(
    name: string,
    labels: map<string, string>,
    annotations: map<string, string>,
    creationTimestamp: int,
    numberAvailable: int,
    desiredNumberScheduled: int)

  /**
    The package-level names the searcher refers to but that are defined in other
    files of the package (condition keys, order keys, status values, label keys),
    and the package's `searchFuzzy` helper. Their values are left open.
   */
  datatype Vocabulary = Vocabulary(
    statusKey: string, nameKey: string, labelKey: string, annotationKey: string, appKey: string,
    keywordKey: string, createTimeKey: string,
    stopped: string, running: string, updating: string,
    displayName: string, chart: string, release: string,
    searchFuzzy: (map<string, string>, string, string) -> bool)
  {
    /** The case labels of each `switch` are distinct constants (the Go compiler
        refuses duplicates), and the three status values differ. */
    predicate Valid() {
      && nameKey != labelKey && nameKey != annotationKey && nameKey != appKey && nameKey != keywordKey
      && labelKey != annotationKey && labelKey != appKey && labelKey != keywordKey
      && annotationKey != appKey && annotationKey != keywordKey
      && appKey != keywordKey
      && createTimeKey != nameKey
      && stopped != running && stopped != updating && running != updating
    }
  }

  /** A Go map read: a missing key yields the empty string. */
  function Label(m: map<string, string>, key: string): string {
    if key in m then m[key] else ""
  }

  /** `daemonSetStatus`: exactly one of the three values, chosen by the counts. */
  function DaemonSetStatus(v: Vocabulary, item: DaemonSet): (s: string)
    requires v.Valid()
    ensures s == v.stopped <==> item.numberAvailable == 0
    ensures s == v.running <==> item.numberAvailable != 0 && item.desiredNumberScheduled == item.numberAvailable
    ensures s == v.updating <==> item.numberAvailable != 0 && item.desiredNumberScheduled != item.numberAvailable
  {
    if item.numberAvailable == 0 then v.stopped
    else if item.desiredNumberScheduled == item.numberAvailable then v.running
    else v.updating
  }

  /** `match`: every condition must be a `status` condition naming the item's status. */
  predicate Match(v: Vocabulary, conditions: map<string, string>, item: DaemonSet)
    requires v.Valid()
    ensures Match(v, conditions, item) <==>
      && conditions.Keys <= {v.statusKey}
      && (v.statusKey in conditions ==> conditions[v.statusKey] == DaemonSetStatus(v, item))
  {
    forall k | k in conditions :: k == v.statusKey && conditions[k] == DaemonSetStatus(v, item)
  }

  /** The `switch` in `fuzzy` for one condition `key: value`. The `annotation`
      case rejects whatever `searchFuzzy` answers. */
  predicate FuzzyCondition(v: Vocabulary, key: string, value: string, item: DaemonSet) {
    if key == v.nameKey then
      Contains(item.name, value) || Contains(Label(item.labels, v.displayName), value)
    else if key == v.labelKey then
      v.searchFuzzy(item.labels, "", value)
    else if key == v.annotationKey then
      false
    else if key == v.appKey then
      Contains(Label(item.labels, v.chart), value) || Contains(Label(item.labels, v.release), value)
    else if key == v.keywordKey then
      Contains(item.name, value) || v.searchFuzzy(item.labels, "", value) || v.searchFuzzy(item.annotations, "", value)
    else
      v.searchFuzzy(item.labels, key, value) || v.searchFuzzy(item.annotations, key, value)
  }

  /** `fuzzy`: the loop over the conditions returns false at the first one that fails. */
  predicate Fuzzy(v: Vocabulary, conditions: map<string, string>, item: DaemonSet)
    requires v.Valid()
    ensures conditions == map[] ==> Fuzzy(v, conditions, item)
    ensures v.annotationKey in conditions ==> !Fuzzy(v, conditions, item)
    ensures v.nameKey in conditions && Fuzzy(v, conditions, item) ==>
      Contains(item.name, conditions[v.nameKey]) || Contains(Label(item.labels, v.displayName), conditions[v.nameKey])
  {
    forall k | k in conditions :: FuzzyCondition(v, k, conditions[k], item)
  }

  /** A lone `name` condition holds exactly when the name or the display-name label contains it. */
  lemma FuzzyByName(v: Vocabulary, value: string, item: DaemonSet)
    requires v.Valid()
    ensures Fuzzy(v, map[v.nameKey := value], item) <==>
      Contains(item.name, value) || Contains(Label(item.labels, v.displayName), value)
  {
    assert FuzzyCondition(v, v.nameKey, value, item) <==>
      Contains(item.name, value) || Contains(Label(item.labels, v.displayName), value);
  }

  /** `compare`: creation time (strictly earlier) or, by default, name (at most equal). */
  predicate Less(v: Vocabulary, a: DaemonSet, b: DaemonSet, orderBy: string) {
    if orderBy == v.createTimeKey then a.creationTimestamp < b.creationTimestamp
    else Compare(a.name, b.name) <= 0
  }

  /** Ordered by name (the `name` key or any unknown key), `compare` is a total
      preorder that is reflexive and ties only equal names. */
  lemma LessByNameIsTotalPreorder(v: Vocabulary, orderBy: string, a: DaemonSet, b: DaemonSet, c: DaemonSet)
    requires orderBy != v.createTimeKey
    ensures Less(v, a, a, orderBy)
    ensures Less(v, a, b, orderBy) || Less(v, b, a, orderBy)
    ensures Less(v, a, b, orderBy) && Less(v, b, c, orderBy) ==> Less(v, a, c, orderBy)
    ensures Less(v, a, b, orderBy) && Less(v, b, a, orderBy) ==> a.name == b.name
  {
    CompareAntisymmetric(a.name, b.name);
    if Less(v, a, b, orderBy) && Less(v, b, c, orderBy) {
      CompareTransitive(a.name, b.name, c.name);
    }
  }

  /** Ordered by creation time, `compare` is irreflexive and transitive. */
  lemma LessByCreateTimeIsStrict(v: Vocabulary, a: DaemonSet, b: DaemonSet, c: DaemonSet)
    ensures !Less(v, a, a, v.createTimeKey)
    ensures Less(v, a, b, v.createTimeKey) && Less(v, b, c, v.createTimeKey) ==> Less(v, a, c, v.createTimeKey)
  {
  }

  /** An item survives the filter in `search`. */
  predicate Selected(v: Vocabulary, matchConditions: map<string, string>, fuzzyConditions: map<string, string>,
                     item: DaemonSet)
    requires v.Valid()
  {
    Match(v, matchConditions, item) && Fuzzy(v, fuzzyConditions, item)
  }

  /** The items the filtering loop appends, in listing order. */
  function Kept(v: Vocabulary, matchConditions: map<string, string>, fuzzyConditions: map<string, string>,
                items: seq<DaemonSet>): (r: seq<DaemonSet>)
    requires v.Valid()
    ensures |r| <= |items|
  {
    if items == [] then []
    else
      var last := items[|items| - 1];
      assert items == items[..|items| - 1] + [last];
      Kept(v, matchConditions, fuzzyConditions, items[..|items| - 1])
        + if Selected(v, matchConditions, fuzzyConditions, last) then [last] else []
  }

  /** Each item passing both filters is kept as often as it is listed; any other item never. */
  lemma {:induction false} KeptCount(v: Vocabulary, matchConditions: map<string, string>,
                                     fuzzyConditions: map<string, string>, items: seq<DaemonSet>, x: DaemonSet)
    requires v.Valid()
    ensures multiset(Kept(v, matchConditions, fuzzyConditions, items))[x] ==
            if Selected(v, matchConditions, fuzzyConditions, x) then multiset(items)[x] else 0
  {
    if items != [] {
      var init, last := items[..|items| - 1], items[|items| - 1];
      assert items == init + [last];
      KeptCount(v, matchConditions, fuzzyConditions, init, x);
    }
  }

  /** The items kept are exactly the listed items that pass both filters. */
  lemma KeptMembers(v: Vocabulary, matchConditions: map<string, string>, fuzzyConditions: map<string, string>,
                    items: seq<DaemonSet>)
    requires v.Valid()
    ensures forall x :: x in Kept(v, matchConditions, fuzzyConditions, items) <==>
                        x in items && Selected(v, matchConditions, fuzzyConditions, x)
  {
    var kept := Kept(v, matchConditions, fuzzyConditions, items);
    forall x ensures x in kept <==> x in items && Selected(v, matchConditions, fuzzyConditions, x) {
      KeptCount(v, matchConditions, fuzzyConditions, items, x);
      assert x in kept <==> multiset(kept)[x] > 0;
      assert x in items <==> multiset(items)[x] > 0;
    }
  }

  /** With no conditions at all nothing is filtered out, so the shortcut `search`
      takes for empty conditions gives the same items as the loop. */
  lemma {:induction false} UnconditionedKeepsAll(v: Vocabulary, items: seq<DaemonSet>)
    requires v.Valid()
    ensures Kept(v, map[], map[], items) == items
  {
    if items != [] {
      UnconditionedKeepsAll(v, items[..|items| - 1]);
      assert items == items[..|items| - 1] + [items[|items| - 1]];
    }
  }

  /** The filtering loop of `search`: appends, in order, each item passing `match` and `fuzzy`. */
  method FilterItems(v: Vocabulary, items: seq<DaemonSet>, matchConditions: map<string, string>,
                     fuzzyConditions: map<string, string>) returns (result: seq<DaemonSet>)
    requires v.Valid()
    ensures result == Kept(v, matchConditions, fuzzyConditions, items)
  {
    result := [];
    var i := 0;
    while i < |items|
      invariant 0 <= i <= |items|
      invariant result == Kept(v, matchConditions, fuzzyConditions, items[..i])
    {
      if Match(v, matchConditions, items[i]) && Fuzzy(v, fuzzyConditions, items[i]) {
        result := result + [items[i]];
      }
      assert items[..i + 1][..i] == items[..i];
      i := i + 1;
    }
    assert items[..i] == items;
  }

  /** `sort.Slice`: some reordering of the items. Which one is not modelled. */
  method SortSlice(items: seq<DaemonSet>) returns (sorted: seq<DaemonSet>)
    ensures multiset(sorted) == multiset(items)
  {
    assert multiset(items) == multiset(items);
    sorted :| multiset(sorted) == multiset(items);
  }

  /** Two orderings of the same items hold the same items. */
  lemma PermutationMembers(a: seq<DaemonSet>, b: seq<DaemonSet>)
    requires multiset(a) == multiset(b)
    ensures forall x :: x in a <==> x in b
  {
    forall x ensures x in a <==> x in b {
      assert x in a <==> multiset(a)[x] > 0;
      assert x in b <==> multiset(b)[x] > 0;
    }
  }

  /** What the DaemonSet lister answers for the namespace. */
  datatype Listing = Listed(items: seq<DaemonSet>) | ListFailed(reason: string)

  /** `search`'s `([]interface{}, error)`. */
  datatype SearchResult = Found(items: seq<DaemonSet>) | SearchFailed(reason: string)

  /**
    `search`: a listing failure is passed on; otherwise the listed items that pass
    `match` and `fuzzy` (all of them when there are no conditions), in some order.
    The order `sort.Slice` produces is not modelled: any permutation may come out.
   */
  method Search(v: Vocabulary, listing: Listing, matchConditions: map<string, string>,
                fuzzyConditions: map<string, string>, orderBy: string, reverse: bool) returns (r: SearchResult)
    requires v.Valid()
    ensures listing.ListFailed? ==> r == SearchFailed(listing.reason)
    ensures listing.Listed? ==>
              && r.Found?
              && multiset(r.items) == multiset(Kept(v, matchConditions, fuzzyConditions, listing.items))
    ensures listing.Listed? && r.Found? ==>
              forall x :: x in r.items <==> x in listing.items && Selected(v, matchConditions, fuzzyConditions, x)
  {
    if listing.ListFailed? {
      return SearchFailed(listing.reason);
    }
    var daemonSets := listing.items;
    var result: seq<DaemonSet>;
    if |matchConditions| == 0 && |fuzzyConditions| == 0 {
      result := daemonSets;
      UnconditionedKeepsAll(v, daemonSets);
    } else {
      result := FilterItems(v, daemonSets, matchConditions, fuzzyConditions);
    }
    var sorted := SortSlice(result);
    var out: seq<DaemonSet> := [];
    var j := 0;
    while j < |sorted|
      invariant 0 <= j <= |sorted|
      invariant out == sorted[..j]
    {
      out := out + [sorted[j]];
      j := j + 1;
    }
    assert out == sorted;
    KeptMembers(v, matchConditions, fuzzyConditions, daemonSets);
    PermutationMembers(out, result);
    return Found(out);
  }
}
