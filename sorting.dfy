/**
 * Ordering by version. Both the library catalogue and the compiler registry
 * sort with `semver.compare(asSafeVer(a), asSafeVer(b), true)`; neither
 * function is part of this model, so the comparison is a parameter, assumed
 * to be a total preorder where a proof needs it. `Array.prototype.sort` is
 * stable, and for such a comparator every stable sort returns the same
 * sequence; it is modelled here as a stable insertion sort.
 */
module Sorting {
  import opened Wrappers
  import opened JsValues

  /** An element to sort, with the value it is sorted by. */
  datatype Keyed<T> = Keyed(item: T, key: Option<Value>)

  /** The comparison applied to two version values: negative, zero or positive. */
  type VersionCmp = (Option<Value>, Option<Value>) -> int

  /** `cmp(a, b) <= 0` is total and transitive. */
  ghost predicate IsTotalPreorder(cmp: VersionCmp) {
    && (forall a, b :: cmp(a, b) <= 0 || cmp(b, a) <= 0)
    && (forall a, b, c :: cmp(a, b) <= 0 && cmp(b, c) <= 0 ==> cmp(a, c) <= 0)
  }

  lemma PreorderTrans(cmp: VersionCmp, a: Option<Value>, b: Option<Value>, c: Option<Value>)
    requires IsTotalPreorder(cmp) && cmp(a, b) <= 0 && cmp(b, c) <= 0
    ensures cmp(a, c) <= 0
  {
  }

  lemma PreorderFlip(cmp: VersionCmp, a: Option<Value>, b: Option<Value>)
    requires IsTotalPreorder(cmp) && cmp(a, b) > 0
    ensures cmp(b, a) <= 0
  {
  }

  ghost predicate Distinct<T>(s: seq<T>) {
    forall i, j :: 0 <= i < j < |s| ==> s[i] != s[j]
  }

  /**
   * Each element once, in the order of its first occurrence: the key order of
   * a JavaScript object filled in list order, and what `unique` returns.
   */
  function Dedup(s: seq<string>): seq<string>
    decreases |s|
  {
    if s == [] then []
    else
      var d := Dedup(s[..|s| - 1]);
      if s[|s| - 1] in d then d else d + [s[|s| - 1]]
  }

  /** Every element is kept, and kept once. */
  lemma {:induction false} DedupListsOnce(s: seq<string>)
    ensures Distinct(Dedup(s))
    ensures forall x :: x in Dedup(s) <==> x in s
    decreases |s|
  {
    if s != [] {
      var init := s[..|s| - 1];
      DedupListsOnce(init);
      assert s == init + [s[|s| - 1]];
    }
  }

  /** Every element is ordered no later than each element after it. */
  ghost predicate SortedBy<T>(r: seq<Keyed<T>>, cmp: VersionCmp) {
    forall i, j :: 0 <= i < j < |r| ==> cmp(r[i].key, r[j].key) <= 0
  }

  /** The position of the first occurrence of `x`. */
  function IndexOf<T(==)>(s: seq<T>, x: T): (k: nat)
    requires x in s
    ensures k < |s| && s[k] == x
  {
    if s[0] == x then 0 else 1 + IndexOf(s[1..], x)
  }

  lemma IndexOfDistinct<T>(s: seq<T>, k: nat)
    requires Distinct(s) && k < |s|
    ensures IndexOf(s, s[k]) == k
  {
  }

  /**
   * Where a stable insertion puts `x` into `t`: after the last element that is
   * not greater than `x`, so every element after the slot is greater.
   */
  function InsertPos<T>(t: seq<Keyed<T>>, x: Keyed<T>, cmp: VersionCmp): (p: nat)
    ensures p <= |t|
    decreases |t|
  {
    if t == [] then 0
    else if cmp(t[|t| - 1].key, x.key) > 0 then InsertPos(t[..|t| - 1], x, cmp)
    else |t|
  }

  /** The slot fits `x`: the element before it is not greater, every element after it is. */
  lemma {:induction false} InsertPosFits<T>(t: seq<Keyed<T>>, x: Keyed<T>, cmp: VersionCmp)
    ensures var p := InsertPos(t, x, cmp);
      && (0 < p ==> cmp(t[p - 1].key, x.key) <= 0)
      && (forall k :: p <= k < |t| ==> cmp(t[k].key, x.key) > 0)
    decreases |t|
  {
    if t != [] && cmp(t[|t| - 1].key, x.key) > 0 {
      InsertPosFits(t[..|t| - 1], x, cmp);
    }
  }

  function InsertBy<T(==)>(t: seq<Keyed<T>>, x: Keyed<T>, cmp: VersionCmp): (r: seq<Keyed<T>>)
    ensures |r| == |t| + 1
  {
    var p := InsertPos(t, x, cmp);
    t[..p] + [x] + t[p..]
  }

  /** Inserting adds `x` and keeps every element of `t`. */
  lemma InsertByPermutes<T>(t: seq<Keyed<T>>, x: Keyed<T>, cmp: VersionCmp)
    ensures multiset(InsertBy(t, x, cmp)) == multiset(t) + multiset{x}
  {
    var p := InsertPos(t, x, cmp);
    assert t == t[..p] + t[p..];
  }

  /** `Array.prototype.sort` with the comparator `(a, b) => cmp(a.key, b.key)`. */
  function SortBy<T(==)>(s: seq<Keyed<T>>, cmp: VersionCmp): (r: seq<Keyed<T>>)
    ensures |r| == |s|
    decreases |s|
  {
    if s == [] then []
    else InsertBy(SortBy(s[..|s| - 1], cmp), s[|s| - 1], cmp)
  }

  /** Sorting permutes: the result holds each element as often as the input. */
  lemma {:induction false} SortByPermutes<T>(s: seq<Keyed<T>>, cmp: VersionCmp)
    ensures multiset(SortBy(s, cmp)) == multiset(s)
    decreases |s|
  {
    if s != [] {
      SortByPermutes(s[..|s| - 1], cmp);
      InsertByPermutes(SortBy(s[..|s| - 1], cmp), s[|s| - 1], cmp);
      assert s == s[..|s| - 1] + [s[|s| - 1]];
    }
  }

  /** Sorting keeps exactly the elements it is given. */
  lemma SortByMembers<T>(s: seq<Keyed<T>>, cmp: VersionCmp, x: Keyed<T>)
    ensures x in SortBy(s, cmp) <==> x in s
  {
    SortByPermutes(s, cmp);
    var r := SortBy(s, cmp);
    assert x in r <==> x in multiset(r);
    assert x in s <==> x in multiset(s);
  }

  /** The shape of an insertion, element by element. */
  lemma InsertShape<T>(t: seq<T>, x: T, p: nat)
    requires p <= |t|
    ensures var r := t[..p] + [x] + t[p..];
      && |r| == |t| + 1 && r[p] == x
      && (forall k :: 0 <= k < p ==> r[k] == t[k])
      && (forall k :: p < k < |r| ==> r[k] == t[k - 1])
  {
  }

  lemma InsertDistinct<T>(t: seq<T>, x: T, p: nat)
    requires Distinct(t) && x !in t && p <= |t|
    ensures Distinct(t[..p] + [x] + t[p..])
  {
    var r := t[..p] + [x] + t[p..];
    InsertShape(t, x, p);
    forall i, j | 0 <= i < j < |r| ensures r[i] != r[j] {
      if i != p && j != p {
        var i' := if i < p then i else i - 1;
        var j' := if j < p then j else j - 1;
        assert r[i] == t[i'] && r[j] == t[j'];
      }
    }
  }

  /** Sorting a sequence without repetitions gives one without repetitions. */
  lemma {:induction false} SortByDistinct<T>(s: seq<Keyed<T>>, cmp: VersionCmp)
    requires Distinct(s)
    ensures Distinct(SortBy(s, cmp))
    decreases |s|
  {
    if s != [] {
      var n := |s| - 1;
      var t := SortBy(s[..n], cmp);
      SortByDistinct(s[..n], cmp);
      SortByMembers(s[..n], cmp, s[n]);
      InsertDistinct(t, s[n], InsertPos(t, s[n], cmp));
    }
  }

  /** Inserting into an ordered sequence keeps it ordered. */
  lemma InsertSorted<T>(t: seq<Keyed<T>>, x: Keyed<T>, cmp: VersionCmp)
    requires IsTotalPreorder(cmp) && SortedBy(t, cmp)
    ensures SortedBy(InsertBy(t, x, cmp), cmp)
  {
    var p := InsertPos(t, x, cmp);
    var r := t[..p] + [x] + t[p..];
    InsertPosFits(t, x, cmp);
    forall k | 0 <= k < p ensures cmp(t[k].key, x.key) <= 0 {
      if k < p - 1 {
        PreorderTrans(cmp, t[k].key, t[p - 1].key, x.key);
      }
    }
    forall k | p <= k < |t| ensures cmp(x.key, t[k].key) <= 0 {
      PreorderFlip(cmp, t[k].key, x.key);
    }
    InsertShape(t, x, p);
    forall i, j | 0 <= i < j < |r| ensures cmp(r[i].key, r[j].key) <= 0 {
      InsertSortedPair(t, x, cmp, p, i, j);
    }
  }

  /** One pair of an insertion into an ordered sequence, at a slot that fits `x`. */
  lemma InsertSortedPair<T>(t: seq<Keyed<T>>, x: Keyed<T>, cmp: VersionCmp, p: nat, i: nat, j: nat)
    requires SortedBy(t, cmp) && p <= |t|
    requires forall k :: 0 <= k < p ==> cmp(t[k].key, x.key) <= 0
    requires forall k :: p <= k < |t| ==> cmp(x.key, t[k].key) <= 0
    requires i < j < |t| + 1
    ensures var r := t[..p] + [x] + t[p..]; cmp(r[i].key, r[j].key) <= 0
  {
    var r := t[..p] + [x] + t[p..];
    InsertShape(t, x, p);
    if j < p {
      assert r[i] == t[i] && r[j] == t[j];
    } else if j == p {
      assert r[i] == t[i] && r[j] == x;
    } else if i == p {
      assert r[i] == x && r[j] == t[j - 1];
    } else {
      var i' := if i < p then i else i - 1;
      assert r[i] == t[i'] && r[j] == t[j - 1];
    }
  }

  /** With a total preorder, the sort's result is ordered. */
  lemma {:induction false} SortByIsSorted<T>(s: seq<Keyed<T>>, cmp: VersionCmp)
    requires IsTotalPreorder(cmp)
    ensures SortedBy(SortBy(s, cmp), cmp)
    decreases |s|
  {
    if s != [] {
      var n := |s| - 1;
      SortByIsSorted(s[..n], cmp);
      InsertSorted(SortBy(s[..n], cmp), s[n], cmp);
    }
  }

  /** Where an element of `t` lands once `x` is inserted at `p`. */
  lemma IndexAfterInsert<T>(t: seq<T>, x: T, p: nat, a: T)
    requires Distinct(t) && x !in t && p <= |t| && a in t
    ensures Distinct(t[..p] + [x] + t[p..])
    ensures var r := t[..p] + [x] + t[p..];
      IndexOf(r, a) == if IndexOf(t, a) < p then IndexOf(t, a) else IndexOf(t, a) + 1
    ensures IndexOf(t[..p] + [x] + t[p..], x) == p
  {
    var r := t[..p] + [x] + t[p..];
    InsertShape(t, x, p);
    InsertDistinct(t, x, p);
    var k := IndexOf(t, a);
    if k < p {
      IndexOfDistinct(r, k);
    } else {
      IndexOfDistinct(r, k + 1);
    }
    IndexOfDistinct(r, p);
  }

  /** An element not greater than `x` stays before `x` once `x` is inserted. */
  lemma InsertAfterSmaller<T>(t: seq<Keyed<T>>, x: Keyed<T>, cmp: VersionCmp, a: Keyed<T>)
    requires Distinct(t) && x !in t && a in t
    requires cmp(a.key, x.key) <= 0
    ensures var r := InsertBy(t, x, cmp); a in r && x in r && IndexOf(r, a) < IndexOf(r, x)
  {
    var p := InsertPos(t, x, cmp);
    InsertPosFits(t, x, cmp);
    IndexAfterInsert(t, x, p, a);
    InsertShape(t, x, p);
  }

  /** Two elements of `t` keep their relative order once `x` is inserted. */
  lemma InsertKeepsOrder<T>(t: seq<Keyed<T>>, x: Keyed<T>, cmp: VersionCmp, a: Keyed<T>, b: Keyed<T>)
    requires Distinct(t) && x !in t && a in t && b in t
    requires IndexOf(t, a) < IndexOf(t, b)
    ensures var r := InsertBy(t, x, cmp); a in r && b in r && IndexOf(r, a) < IndexOf(r, b)
  {
    var p := InsertPos(t, x, cmp);
    IndexAfterInsert(t, x, p, a);
    IndexAfterInsert(t, x, p, b);
    InsertShape(t, x, p);
  }

  /** Dropping the last element of a sequence without repetitions. */
  lemma DistinctInit<T>(s: seq<T>)
    requires Distinct(s) && s != []
    ensures Distinct(s[..|s| - 1]) && s[|s| - 1] !in s[..|s| - 1]
  {
  }

  /**
   * The sort is stable: an element that comes before another in the input and
   * is not greater than it stays before it. No assumption on `cmp` is needed.
   */
  lemma {:induction false} SortByStable<T>(s: seq<Keyed<T>>, cmp: VersionCmp, i: nat, j: nat)
    requires Distinct(s)
    requires i < j < |s|
    requires cmp(s[i].key, s[j].key) <= 0
    ensures var r := SortBy(s, cmp); s[i] in r && s[j] in r && IndexOf(r, s[i]) < IndexOf(r, s[j])
    decreases |s|
  {
    var n := |s| - 1;
    var init := s[..n];
    var t := SortBy(init, cmp);
    assert SortBy(s, cmp) == InsertBy(t, s[n], cmp);
    DistinctInit(s);
    SortByDistinct(init, cmp);
    SortByMembers(init, cmp, s[n]);
    SortByMembers(init, cmp, s[i]);
    assert s[i] == init[i];
    if j < n {
      assert s[j] == init[j];
      SortByMembers(init, cmp, s[j]);
      SortByStable(init, cmp, i, j);
      InsertKeepsOrder(t, s[n], cmp, s[i], s[j]);
    } else {
      InsertAfterSmaller(t, s[n], cmp, s[i]);
    }
  }
}
