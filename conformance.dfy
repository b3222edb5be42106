/**
 * The conformance pane's library intersection (static/panes/conformance-view.ts):
 * which libraries, and which versions of each, every selected compiler
 * supports, and the de-duplicated ids of the selected compilers.
 */
module Conformance {
  import opened Wrappers
  import opened JsValues
  import opened Sorting

  /** A library as the client's supported-library map holds it; `info` holds its other fields. */
  datatype Library = Library(versions: map<string, Value>, info: map<string, Value>)

  /**
   * `compilerService.findCompiler(langId, id)` followed by
   * `LibUtils.getSupportedLibraries(libsArr, langId, remote)`: None when the
   * compiler is not found.
   */
  type Lookup = string -> Option<map<string, Library>>

  /** The supported-library maps of the ids' compilers that are found, in id order. */
  function Found(compilerIds: seq<string>, lookup: Lookup): seq<map<string, Library>>
    decreases |compilerIds|
  {
    if compilerIds == [] then []
    else
      var init := Found(compilerIds[..|compilerIds| - 1], lookup);
      match lookup(compilerIds[|compilerIds| - 1])
      case Some(libs) => init + [libs]
      case None => init
  }

  /** `_.pick(versions, …)`: the versions whose label is in `labels`. */
  function Restrict(versions: map<string, Value>, labels: set<string>): (r: map<string, Value>)
    ensures r.Keys == versions.Keys * labels
    ensures forall v :: v in r ==> r[v] == versions[v]
  {
    map v | v in versions && v in labels :: versions[v]
  }

  /** The version labels two libraries share. */
  function Common(a: Library, b: Library): set<string> {
    a.versions.Keys * b.versions.Keys
  }

  /**
   * One intersection with a further compiler's map: the libraries both have
   * with at least one shared version, narrowed to the shared versions.
   */
  function Narrow(libs: map<string, Library>, filtered: map<string, Library>): map<string, Library> {
    map k | k in libs && k in filtered && Common(libs[k], filtered[k]) != {} ::
      libs[k].(versions := Restrict(libs[k].versions, Common(libs[k], filtered[k])))
  }

  /** The result after the found maps in order: the first copied, each later one intersected. */
  function Overlap(found: seq<map<string, Library>>): map<string, Library>
    decreases |found|
  {
    if |found| == 0 then map[]
    else if |found| == 1 then found[0]
    else Narrow(Overlap(found[..|found| - 1]), found[|found| - 1])
  }

  /** The working map, whose entries are a library or `false` (None). */
  function Lift(libs: map<string, Library>): map<string, Option<Library>> {
    map k | k in libs :: Some(libs[k])
  }

  /** The closing cast: every entry is a library once a compiler has been intersected. */
  function Unlift(working: map<string, Option<Library>>): map<string, Library>
  {
    map k | k in working && working[k].Some? :: working[k].value
  }

  /** The cast undoes the lifting. */
  lemma UnliftLift(libs: map<string, Library>)
    ensures Unlift(Lift(libs)) == libs
  {
  }

  /** What the inner loop leaves at `libKey`: the narrowed library, or `false`. */
  function Marked(entry: Option<Library>, filtered: map<string, Library>, libKey: string): Option<Library> {
    if entry.Some? && libKey in filtered
    then Some(entry.value.(versions := Restrict(entry.value.versions, Common(entry.value, filtered[libKey]))))
    else None
  }

  /** `libraryKey` belongs to every found map. */
  ghost predicate InAll(found: seq<map<string, Library>>, libKey: string) {
    forall j :: 0 <= j < |found| ==> libKey in found[j]
  }

  /** The version labels every found map has for `libKey`. */
  ghost function Shared(found: seq<map<string, Library>>, libKey: string): set<string>
    requires |found| > 0 && InAll(found, libKey)
  {
    set v | v in found[0][libKey].versions && forall j :: 0 <= j < |found| ==> v in found[j][libKey].versions
  }

  /** One more id: its compiler's map is appended when it is found. */
  lemma FoundStep(compilerIds: seq<string>, lookup: Lookup, i: nat)
    requires i < |compilerIds|
    ensures lookup(compilerIds[i]).None? ==> Found(compilerIds[..i + 1], lookup) == Found(compilerIds[..i], lookup)
    ensures lookup(compilerIds[i]).Some? ==>
      Found(compilerIds[..i + 1], lookup) == Found(compilerIds[..i], lookup) + [lookup(compilerIds[i]).value]
  {
    assert compilerIds[..i + 1][..i] == compilerIds[..i];
  }

  /** The result after two or more found maps is the last one narrowing the rest. */
  lemma OverlapLast(found: seq<map<string, Library>>)
    requires |found| >= 2
    ensures Overlap(found) == Narrow(Overlap(found[..|found| - 1]), found[|found| - 1])
  {
  }

  /** A library survives a narrowing only when both maps hold it. */
  lemma NarrowDomain(libs: map<string, Library>, filtered: map<string, Library>, libKey: string)
    ensures libKey in Narrow(libs, filtered) ==> libKey in libs && libKey in filtered
  {
  }

  /** One more found map: the first is copied, a later one intersected. */
  lemma OverlapStep(before: seq<map<string, Library>>, filtered: map<string, Library>)
    ensures before == [] ==> Overlap(before + [filtered]) == filtered
    ensures before != [] ==> Overlap(before + [filtered]) == Narrow(Overlap(before), filtered)
  {
    assert (before + [filtered])[..|before|] == before;
  }

  /**
   * Lines 483-526, `getOverlappingLibraries`: the compilers that are not
   * found are skipped, the first found one's map is copied, and each later
   * one marks every library it lacks `false`, narrows the versions of the
   * others to those it shares, and drops the `false` and version-less ones.
   */
  method GetOverlappingLibraries(compilerIds: seq<string>, lookup: Lookup) returns (libraries: map<string, Library>)
    ensures libraries == Overlap(Found(compilerIds, lookup))
    ensures Found(compilerIds, lookup) == [] ==> libraries == map[]
    ensures |Found(compilerIds, lookup)| == 1 ==> libraries == Found(compilerIds, lookup)[0]
  {
    var working: map<string, Option<Library>> := map[];
    var first := true;
    for i := 0 to |compilerIds|
      invariant first <==> Found(compilerIds[..i], lookup) == []
      invariant working == Lift(Overlap(Found(compilerIds[..i], lookup)))
    {
      FoundStep(compilerIds, lookup, i);
      ghost var before := Found(compilerIds[..i], lookup);
      var compiler := lookup(compilerIds[i]);
      if compiler.Some? {
        var filteredLibraries := compiler.value;
        OverlapStep(before, filteredLibraries);
        if first {
          working := Lift(filteredLibraries);
          first := false;
        } else {
          working := IntersectWith(Overlap(before), working, filteredLibraries);
        }
      }
    }
    assert compilerIds[..|compilerIds|] == compilerIds;
    UnliftLift(Overlap(Found(compilerIds, lookup)));
    libraries := Unlift(working);
  }

  /**
   * Lines 500-520, one later compiler: the loop over the working map's keys,
   * then `_.omit` of the `false` entries and those without versions.
   */
  method IntersectWith(ghost libs: map<string, Library>, working: map<string, Option<Library>>,
                       filteredLibraries: map<string, Library>)
    returns (r: map<string, Option<Library>>)
    requires working == Lift(libs)
    ensures r == Lift(Narrow(libs, filteredLibraries))
  {
    var marked := MarkMissing(working, filteredLibraries);
    r := map k | k in marked && marked[k].Some? && marked[k].value.versions != map[] :: marked[k];
    OmitMarked(libs, filteredLibraries, marked, r);
  }

  /** Lines 500-516: every library the compiler lacks set to `false`, the others narrowed. */
  method MarkMissing(working: map<string, Option<Library>>, filteredLibraries: map<string, Library>)
    returns (marked: map<string, Option<Library>>)
    ensures marked.Keys == working.Keys
    ensures forall k :: k in marked ==> marked[k] == Marked(working[k], filteredLibraries, k)
  {
    var libsInCommon := working.Keys * filteredLibraries.Keys;
    marked := working;
    var pending := working.Keys;
    while pending != {}
      invariant pending <= working.Keys && marked.Keys == working.Keys
      invariant forall k :: k in pending ==> marked[k] == working[k]
      invariant forall k :: k in marked && k !in pending ==> marked[k] == Marked(working[k], filteredLibraries, k)
    {
      var libKey :| libKey in pending;
      var lib := marked[libKey];
      if lib.Some? && libKey in libsInCommon {
        var versionsInCommon := lib.value.versions.Keys * filteredLibraries[libKey].versions.Keys;
        var picked := map v | v in lib.value.versions && v in versionsInCommon :: lib.value.versions[v];
        marked := marked[libKey := Some(lib.value.(versions := picked))];
      } else {
        marked := marked[libKey := None];
      }
      pending := pending - {libKey};
    }
  }

  /** Dropping the `false` and version-less entries of the marked map leaves the narrowed map. */
  lemma OmitMarked(libs: map<string, Library>, filtered: map<string, Library>,
                   marked: map<string, Option<Library>>, r: map<string, Option<Library>>)
    requires marked.Keys == libs.Keys
    requires forall k :: k in marked ==> marked[k] == Marked(Some(libs[k]), filtered, k)
    requires r == map k | k in marked && marked[k].Some? && marked[k].value.versions != map[] :: marked[k]
    ensures r == Lift(Narrow(libs, filtered))
  {
    var narrowed := Narrow(libs, filtered);
    forall k | k in narrowed
      ensures k in r && r[k] == Some(narrowed[k])
    {
      var v :| v in Common(libs[k], filtered[k]);
      assert v in marked[k].value.versions;
    }
    forall k | k in r
      ensures k in narrowed
    {
      assert marked[k].value.versions.Keys == Common(libs[k], filtered[k]);
    }
  }

  /** The shared labels of one more map are the earlier shared labels cut down to it. */
  lemma SharedStep(found: seq<map<string, Library>>, libKey: string)
    requires |found| >= 2 && InAll(found, libKey)
    ensures InAll(found[..|found| - 1], libKey)
    ensures Shared(found, libKey) ==
            Shared(found[..|found| - 1], libKey) * found[|found| - 1][libKey].versions.Keys
  {
    var n := |found| - 1;
    var init := found[..n];
    assert forall j :: 0 <= j < n ==> init[j] == found[j];
    assert InAll(init, libKey);
    forall v | v in Shared(init, libKey) * found[n][libKey].versions.Keys
      ensures v in Shared(found, libKey)
    {
      forall j | 0 <= j < |found|
        ensures v in found[j][libKey].versions
      {
        if j < n {
          assert init[j] == found[j];
        }
      }
    }
  }

  /** One found map: its shared labels are its own. */
  lemma SharedOne(found: seq<map<string, Library>>, libKey: string)
    requires |found| == 1 && InAll(found, libKey)
    ensures Shared(found, libKey) == found[0][libKey].versions.Keys
  {
  }

  /** What the closed form says about one library key. */
  ghost predicate ClosedAt(found: seq<map<string, Library>>, libKey: string)
    requires |found| > 0
  {
    && (libKey in Overlap(found) <==> InAll(found, libKey) && Shared(found, libKey) != {})
    && (libKey in Overlap(found) ==>
         && InAll(found, libKey)
         && Overlap(found)[libKey] ==
              found[0][libKey].(versions := Restrict(found[0][libKey].versions, Shared(found, libKey)))
         && Overlap(found)[libKey].versions != map[])
  }

  /** Narrowing a key's restricted versions once more restricts them to the smaller label set. */
  lemma RestrictTwice(versions: map<string, Value>, s1: set<string>, s2: set<string>)
    requires s2 <= s1
    ensures Restrict(Restrict(versions, s1), s2) == Restrict(versions, s2)
  {
  }

  /** The closed form for one key carries over from the maps before the last to all of them. */
  lemma ClosedStep(found: seq<map<string, Library>>, libKey: string)
    requires |found| >= 2
    requires |found| == 2 || ClosedAt(found[..|found| - 1], libKey)
    ensures ClosedAt(found, libKey)
  {
    if InAll(found, libKey) {
      SharedStep(found, libKey);
      if |found| == 2 {
        SharedOne(found[..1], libKey);
        ClosedPair(found, libKey);
      } else {
        ClosedLater(found, libKey);
      }
    } else if libKey in Overlap(found) {
      OverlapInAll(found, libKey);
    }
  }

  /** A library in the result is in every found map. */
  lemma {:induction false} OverlapInAll(found: seq<map<string, Library>>, libKey: string)
    requires libKey in Overlap(found)
    ensures InAll(found, libKey)
    decreases |found|
  {
    if |found| == 1 {
      assert Overlap(found) == found[0];
    } else if |found| >= 2 {
      var n := |found| - 1;
      var init := found[..n];
      OverlapLast(found);
      NarrowDomain(Overlap(init), found[n], libKey);
      OverlapInAll(init, libKey);
      forall j | 0 <= j < |found|
        ensures libKey in found[j]
      {
        if j < n {
          assert libKey in init[j];
          assert init[j] == found[j];
        } else {
          assert j == n;
        }
      }
    }
  }

  /** Two found maps: the second narrows the first. */
  lemma ClosedPair(found: seq<map<string, Library>>, libKey: string)
    requires |found| == 2 && InAll(found, libKey)
    requires Shared(found, libKey) == Shared(found[..1], libKey) * found[1][libKey].versions.Keys
    requires Shared(found[..1], libKey) == found[0][libKey].versions.Keys
    ensures ClosedAt(found, libKey)
  {
    var before := Overlap(found[..1]);
    assert before == found[0];
    assert Common(before[libKey], found[1][libKey]) == Shared(found, libKey);
    if libKey in Overlap(found) {
      var v :| v in Shared(found, libKey);
      assert v in Overlap(found)[libKey].versions;
    }
  }

  /** Three or more found maps: the last narrows what the earlier ones left. */
  lemma ClosedLater(found: seq<map<string, Library>>, libKey: string)
    requires |found| > 2 && InAll(found, libKey)
    requires ClosedAt(found[..|found| - 1], libKey) && InAll(found[..|found| - 1], libKey)
    requires Shared(found, libKey) ==
             Shared(found[..|found| - 1], libKey) * found[|found| - 1][libKey].versions.Keys
    ensures ClosedAt(found, libKey)
  {
    var n := |found| - 1;
    var init := found[..n];
    var before := Overlap(init);
    var m := found[0][libKey].versions;
    assert init[0] == found[0];
    if Shared(init, libKey) != {} {
      assert before[libKey].versions == Restrict(m, Shared(init, libKey));
      assert Common(before[libKey], found[n][libKey]) == Shared(found, libKey);
      RestrictTwice(m, Shared(init, libKey), Shared(found, libKey));
    }
    if libKey in Overlap(found) {
      var v :| v in Shared(found, libKey);
      assert v in Overlap(found)[libKey].versions;
    }
  }

  /**
   * After two or more found compilers, every library key satisfies the closed
   * form: it remains exactly when every found compiler supports it and they
   * share a version, and it keeps the first found compiler's fields and
   * version objects, narrowed to the shared versions, so no remaining library
   * is without versions.
   */
  lemma {:induction false} OverlapClosedForm(found: seq<map<string, Library>>)
    requires |found| >= 2
    ensures forall k :: ClosedAt(found, k)
    decreases |found|
  {
    if |found| > 2 {
      OverlapClosedForm(found[..|found| - 1]);
    }
    forall k
      ensures ClosedAt(found, k)
    {
      ClosedStep(found, k);
    }
  }

  /** A compiler entry of the pane: its picker's selected value, when it has a picker. */
  datatype CompilerEntry = CompilerEntry(picker: Option<string>)

  /** Lines 387-392, `getCompilerId`: the picker's value, or '' without a picker. */
  function GetCompilerId(entry: CompilerEntry): (id: string)
    ensures entry.picker.None? ==> id == ""
    ensures entry.picker.Some? ==> id == entry.picker.value
    ensures id == "" <==> entry.picker.None? || entry.picker.value == ""
  {
    if entry.picker.Some? then entry.picker.value else ""
  }

  /** The pickers' ids in order, the empty ones left out. */
  function SelectedIds(pickers: seq<CompilerEntry>): (r: seq<string>)
    ensures forall x :: x in r <==> x != "" && exists i :: 0 <= i < |pickers| && GetCompilerId(pickers[i]) == x
    decreases |pickers|
  {
    if pickers == [] then []
    else
      var init := SelectedIds(pickers[..|pickers| - 1]);
      var id := GetCompilerId(pickers[|pickers| - 1]);
      assert forall i :: 0 <= i < |pickers| - 1 ==> pickers[..|pickers| - 1][i] == pickers[i];
      if id != "" then init + [id] else init
  }

  /**
   * Lines 528-538, `getCurrentCompilersIds`: each selected id once, in the
   * order first selected; '' is never among them.
   */
  function GetCurrentCompilersIds(pickers: seq<CompilerEntry>): (ids: seq<string>)
    ensures Distinct(ids)
    ensures "" !in ids
    ensures forall x :: x in ids <==> x != "" && exists i :: 0 <= i < |pickers| && GetCompilerId(pickers[i]) == x
  {
    DedupListsOnce(SelectedIds(pickers));
    Dedup(SelectedIds(pickers))
  }
}
