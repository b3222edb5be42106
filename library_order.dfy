/**
 * What `parseLibraries` promises about the versions of each library: every
 * version gets a distinct `$order` from 0 to the number of versions minus
 * one, the numbering follows the version comparison, versions that compare
 * equal keep the order in which they were listed, and numbering changes
 * nothing but `$order`.
 */
module LibraryOrder {
  import opened Wrappers
  import opened JsValues
  import opened Sorting
  import opened Properties
  import opened Libraries

  /** No two entries of `s` are the same version. */
  ghost predicate ItemsDistinct(s: seq<Keyed<string>>) {
    forall i, j :: 0 <= i < j < |s| ==> s[i].item != s[j].item
  }

  /** Each entry of `s` carries the sort value of its version. */
  ghost predicate KeyedBy(s: seq<Keyed<string>>, versions: map<string, VersionInfo>) {
    forall k :: 0 <= k < |s| ==> s[k].key == VersionValue(versions, s[k].item)
  }

  lemma {:induction false} KeyedVersionsAt(versions: map<string, VersionInfo>, labels: seq<string>)
    ensures forall k :: 0 <= k < |labels| ==>
      KeyedVersions(versions, labels)[k] == Keyed(labels[k], VersionValue(versions, labels[k]))
    decreases |labels|
  {
    if labels != [] {
      KeyedVersionsAt(versions, labels[..|labels| - 1]);
    }
  }

  /**
   * Numbering by a sequence that names each version at most once numbers the
   * version at position `k` with `k`, leaves every other version as it was,
   * and keeps the set of versions.
   */
  lemma {:induction false} NumberAllEntries(versions: map<string, VersionInfo>, sorted: seq<Keyed<string>>)
    requires ItemsDistinct(sorted)
    ensures NumberAll(versions, sorted).Keys == versions.Keys
    ensures forall k :: 0 <= k < |sorted| && sorted[k].item in versions ==>
      NumberAll(versions, sorted)[sorted[k].item] == versions[sorted[k].item].(order := Some(k))
    ensures forall v :: v in versions && (forall k :: 0 <= k < |sorted| ==> sorted[k].item != v) ==>
      NumberAll(versions, sorted)[v] == versions[v]
    decreases |sorted|
  {
    if sorted != [] {
      var last := |sorted| - 1;
      var init := sorted[..last];
      NumberAllEntries(versions, init);
      forall k | 0 <= k < |sorted| && sorted[k].item in versions
        ensures NumberAll(versions, sorted)[sorted[k].item] == versions[sorted[k].item].(order := Some(k))
      {
        if k < last {
          assert init[k] == sorted[k];
          assert sorted[k].item != sorted[last].item;
        }
      }
      forall v | v in versions && (forall k :: 0 <= k < |sorted| ==> sorted[k].item != v)
        ensures NumberAll(versions, sorted)[v] == versions[v]
      {
        assert sorted[last].item != v;
        forall k | 0 <= k < |init| ensures init[k].item != v {
          assert init[k] == sorted[k];
        }
      }
    }
  }

  /**
   * The versions of a library whose key order lists each key once, sorted:
   * every version appears exactly once, with its own sort value.
   */
  lemma SortedVersionsShape(library: Library, cmp: VersionCmp)
    requires KeysListed(library)
    ensures var s := SortedVersions(library, cmp);
      && |s| == |library.versionKeys|
      && ItemsDistinct(s)
      && KeyedBy(s, library.versions)
      && (forall v :: v in library.versions <==> Keyed(v, VersionValue(library.versions, v)) in s)
  {
    var keyed := KeyedVersions(library.versions, library.versionKeys);
    var s := SortBy(keyed, cmp);
    KeyedVersionsAt(library.versions, library.versionKeys);
    assert Distinct(keyed) by {
      forall i, j | 0 <= i < j < |keyed| ensures keyed[i] != keyed[j] {
        assert keyed[i].item == library.versionKeys[i];
      }
    }
    SortByDistinct(keyed, cmp);
    forall k | 0 <= k < |s| ensures s[k].key == VersionValue(library.versions, s[k].item) {
      SortByMembers(keyed, cmp, s[k]);
    }
    forall i, j | 0 <= i < j < |s| ensures s[i].item != s[j].item {
    }
    forall v ensures v in library.versions <==> Keyed(v, VersionValue(library.versions, v)) in s {
      SortByMembers(keyed, cmp, Keyed(v, VersionValue(library.versions, v)));
      if v in library.versions {
        var k :| 0 <= k < |library.versionKeys| && library.versionKeys[k] == v;
        assert keyed[k] == Keyed(v, VersionValue(library.versions, v));
      }
    }
  }

  /** The position of version `v` in the sorted versions of `library`. */
  lemma SortedPosition(library: Library, cmp: VersionCmp, v: string) returns (k: nat)
    requires KeysListed(library) && v in library.versions
    ensures var s := SortedVersions(library, cmp);
      k < |s| && s[k] == Keyed(v, VersionValue(library.versions, v))
  {
    SortedVersionsShape(library, cmp);
    k := IndexOf(SortedVersions(library, cmp), Keyed(v, VersionValue(library.versions, v)));
  }

  /**
   * Numbering keeps the versions and changes only their `$order`, which is
   * the position of the version in the sorted list: each version gets one,
   * all are below the number of versions, and no two versions share one.
   */
  lemma NumberedOrders(library: Library, cmp: VersionCmp)
    requires KeysListed(library)
    ensures var n := NumberedLibrary(library, cmp).versions;
      && n.Keys == library.versions.Keys
      && (forall v :: v in n ==> n[v] == library.versions[v].(order := n[v].order))
      && (forall v :: v in n ==> n[v].order.Some? && 0 <= n[v].order.value < |library.versions|)
      && (forall v, w :: v in n && w in n && v != w ==> n[v].order != n[w].order)
  {
    var s := SortedVersions(library, cmp);
    var n := NumberedLibrary(library, cmp).versions;
    SortedVersionsShape(library, cmp);
    NumberAllEntries(library.versions, s);
    assert |library.versionKeys| == |library.versions| by {
      assert library.versions.Keys == set v | v in library.versionKeys;
      DistinctCard(library.versionKeys);
    }
    forall v | v in n
      ensures n[v] == library.versions[v].(order := n[v].order)
      ensures n[v].order.Some? && 0 <= n[v].order.value < |library.versions|
    {
      var k := SortedPosition(library, cmp, v);
      assert s[k].item == v;
    }
    forall v, w | v in n && w in n && v != w ensures n[v].order != n[w].order {
      var i := SortedPosition(library, cmp, v);
      var j := SortedPosition(library, cmp, w);
      assert s[i].item == v && s[j].item == w;
    }
  }

  /** A sequence without repetitions has as many elements as its set. */
  lemma {:induction false} DistinctCard(s: seq<string>)
    requires Distinct(s)
    ensures |set v | v in s| == |s|
    decreases |s|
  {
    if s != [] {
      var init := s[..|s| - 1];
      DistinctInit(s);
      DistinctCard(init);
      assert (set v | v in s) == (set v | v in init) + {s[|s| - 1]};
    }
  }

  /**
   * With a comparison that is a total preorder, a version with a smaller
   * `$order` is not greater than one with a larger `$order`.
   */
  lemma NumberedSorted(library: Library, cmp: VersionCmp, v: string, w: string)
    requires KeysListed(library) && IsTotalPreorder(cmp)
    requires v in library.versions && w in library.versions
    ensures var n := NumberedLibrary(library, cmp).versions;
      && v in n && w in n && n[v].order.Some? && n[w].order.Some?
      && (n[v].order.value < n[w].order.value ==>
            cmp(VersionValue(library.versions, v), VersionValue(library.versions, w)) <= 0)
  {
    var s := SortedVersions(library, cmp);
    SortedVersionsShape(library, cmp);
    NumberAllEntries(library.versions, s);
    SortByIsSorted(KeyedVersions(library.versions, library.versionKeys), cmp);
    var i := SortedPosition(library, cmp, v);
    var j := SortedPosition(library, cmp, w);
    assert s[i].item == v && s[j].item == w;
  }

  /**
   * The sort is stable: of two versions that compare in order, the one listed
   * first in the `versions` object gets the smaller `$order`.
   */
  lemma NumberedStable(library: Library, cmp: VersionCmp, i: nat, j: nat)
    requires KeysListed(library)
    requires i < j < |library.versionKeys|
    requires var keys := library.versionKeys;
      cmp(VersionValue(library.versions, keys[i]), VersionValue(library.versions, keys[j])) <= 0
    ensures var keys := library.versionKeys; var n := NumberedLibrary(library, cmp).versions;
      && keys[i] in n && keys[j] in n && n[keys[i]].order.Some? && n[keys[j]].order.Some?
      && n[keys[i]].order.value < n[keys[j]].order.value
  {
    var keys := library.versionKeys;
    var keyed := KeyedVersions(library.versions, keys);
    var s := SortedVersions(library, cmp);
    KeyedVersionsAt(library.versions, keys);
    assert Distinct(keyed) by {
      forall a, b | 0 <= a < b < |keyed| ensures keyed[a] != keyed[b] {
        assert keyed[a].item == keys[a];
      }
    }
    SortByStable(keyed, cmp, i, j);
    SortedVersionsShape(library, cmp);
    NumberAllEntries(library.versions, s);
    var p := IndexOf(s, keyed[i]);
    var q := IndexOf(s, keyed[j]);
    assert s[p].item == keys[i] && s[q].item == keys[j];
  }
}
