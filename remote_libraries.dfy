/**
 * Remote libraries (`libArrayToObject` and the cache of `getRemoteLibraries`):
 * the array of libraries a remote instance serves becomes an object keyed by
 * library id, each library's `versions` array an object keyed by version id;
 * what cannot be re-keyed (the loop throws) leaves an empty cache slot.
 */
module RemoteLibraries {
  import opened Wrappers
  import opened JsValues

  /** A key and the value stored under it, in the order the loop stores them. */
  datatype Entry = Entry(key: string, value: Value)

  /**
   * What `for (const x of v)` iterates: the items of an array, the characters
   * of a string; `None` when the value is not iterable (the loop throws).
   */
  function Elements(v: Option<Value>): (r: Option<seq<Value>>)
    ensures r.Some? <==> v.Some? && (v.value.Arr? || v.value.Str?)
  {
    match v
    case Some(Arr(items)) => Some(items)
    case Some(Str(s)) => Some(seq(|s|, i requires 0 <= i < |s| => Str([s[i]])))
    case _ => None
  }

  /** The object built by storing each entry in turn: a later key overwrites an earlier one. */
  function Rekey(entries: seq<Entry>): map<string, Value>
    decreases |entries|
  {
    if entries == [] then map[]
    else
      var last := entries[|entries| - 1];
      Rekey(entries[..|entries| - 1])[last.key := last.value]
  }

  /**
   * `String(x.id)`: the key an element is stored under; a non-object has no
   * `id` and is stored under "undefined".
   */
  function IdKey(x: Value): string {
    if x.Obj? then ToKeyString(Field(x.fields, "id")) else "undefined"
  }

  /**
   * `lib.versions[version.id] = version` for one version: reading `id` of
   * `null` throws; other non-objects have no `id`, stored as "undefined".
   */
  function VersionEntry(version: Value): Option<Entry> {
    match version
    case Null => None
    case _ => Some(Entry(IdKey(version), version))
  }

  /**
   * The entries of a loop that stores each element in turn, or `None` when
   * storing one of them throws (the loop stops there).
   */
  function AllEntries(store: Value -> Option<Entry>, xs: seq<Value>): Option<seq<Entry>>
    decreases |xs|
  {
    if xs == [] then Some([])
    else
      var init := AllEntries(store, xs[..|xs| - 1]);
      var entry := store(xs[|xs| - 1]);
      if init.None? || entry.None? then None else Some(init.value + [entry.value])
  }

  /** The entries of every version, or `None` when one of them throws. */
  function VersionEntries(versions: seq<Value>): Option<seq<Entry>> {
    AllEntries(VersionEntry, versions)
  }

  /**
   * Lines 381-389 for one library: `libs[lib.id] = lib`, then its `versions`
   * re-keyed in place. Only an object survives: `null` has no `id`, a
   * primitive cannot take the new `versions` property (module code is
   * strict), and an array has no `versions` to iterate.
   */
  function LibEntry(lib: Value): Option<Entry> {
    match lib
    case Obj(fields) =>
      var versions := Elements(Field(fields, "versions"));
      if versions.None? then None
      else
        var entries := VersionEntries(versions.value);
        if entries.None? then None
        else Some(Entry(IdKey(lib), Obj(fields["versions" := Obj(Rekey(entries.value))])))
    case _ => None
  }

  /** The entries of every library, or `None` when one of them throws. */
  function LibEntries(libs: seq<Value>): Option<seq<Entry>> {
    AllEntries(LibEntry, libs)
  }

  /** What `libArrayToObject(libsArr)` returns, or `None` when it throws. */
  function LibsObject(libsArr: Value): Option<map<string, Value>> {
    var libs := Elements(Some(libsArr));
    if libs.None? then None
    else
      var entries := LibEntries(libs.value);
      if entries.None? then None else Some(Rekey(entries.value))
  }

  /**
   * Lines 403-411: the cache slot after a fetch. `fetched` is what
   * `JSON.parse` made of the response, `None` when it threw; any exception
   * leaves `{}`.
   */
  function CacheValue(fetched: Option<Value>): (r: map<string, Value>)
    ensures fetched.None? ==> r == map[]
    ensures fetched.Some? && LibsObject(fetched.value).None? ==> r == map[]
    ensures fetched.Some? && LibsObject(fetched.value).Some? ==> r == LibsObject(fetched.value).value
  {
    if fetched.None? then map[] else LibsObject(fetched.value).GetOr(map[])
  }

  /** Failure of a prefix is failure of the whole: the loop has stopped. */
  lemma {:induction false} AllEntriesPrefix(store: Value -> Option<Entry>, xs: seq<Value>, n: nat)
    requires n <= |xs| && AllEntries(store, xs[..n]).None?
    ensures AllEntries(store, xs).None?
    decreases |xs|
  {
    if n < |xs| {
      assert xs[..|xs| - 1][..n] == xs[..n];
      AllEntriesPrefix(store, xs[..|xs| - 1], n);
    } else {
      assert xs[..n] == xs;
    }
  }

  /** Lines 385-388: re-key the versions of one library by their ids. */
  method RekeyVersions(versions: seq<Value>) returns (r: Option<map<string, Value>>)
    ensures r.None? <==> VersionEntries(versions).None?
    ensures r.Some? ==> r.value == Rekey(VersionEntries(versions).value)
  {
    var rekeyed := map[];
    for i := 0 to |versions|
      invariant VersionEntries(versions[..i]).Some?
      invariant rekeyed == Rekey(VersionEntries(versions[..i]).value)
    {
      AllEntriesStep(VersionEntry, versions, i);
      var version := versions[i];
      if version.Null? {
        AllEntriesPrefix(VersionEntry, versions, i + 1);
        return None;
      }
      rekeyed := rekeyed[IdKey(version) := version];
    }
    assert versions[..|versions|] == versions;
    return Some(rekeyed);
  }

  /** `libArrayToObject`: every library stored under its id, with its versions re-keyed. */
  method LibArrayToObject(libsArr: Value) returns (libs: Option<map<string, Value>>)
    ensures libs == LibsObject(libsArr)
  {
    var items := Elements(Some(libsArr));
    if items.None? {
      return None;
    }
    var all := items.value;
    var rekeyed := map[];
    for i := 0 to |all|
      invariant LibEntries(all[..i]).Some?
      invariant rekeyed == Rekey(LibEntries(all[..i]).value)
    {
      AllEntriesStep(LibEntry, all, i);
      var entry := StoreLibrary(all[i]);
      if entry.None? {
        AllEntriesPrefix(LibEntry, all, i + 1);
        return None;
      }
      rekeyed := rekeyed[entry.value.key := entry.value.value];
    }
    assert all[..|all|] == all;
    return Some(rekeyed);
  }

  /** Lines 381-389, the body of the outer loop for one library. */
  method StoreLibrary(lib: Value) returns (entry: Option<Entry>)
    ensures entry == LibEntry(lib)
  {
    if !lib.Obj? {
      return None;
    }
    var versions := Elements(Field(lib.fields, "versions"));
    if versions.None? {
      return None;
    }
    var versionsObject := RekeyVersions(versions.value);
    if versionsObject.None? {
      return None;
    }
    return Some(Entry(IdKey(lib), Obj(lib.fields["versions" := Obj(versionsObject.value)])));
  }

  /**
   * The object holds exactly the keys of the entries, and each key holds the
   * value of its last entry.
   */
  lemma RekeyLastWins(entries: seq<Entry>)
    ensures forall k :: k in Rekey(entries) <==> exists i :: 0 <= i < |entries| && entries[i].key == k
    ensures forall i :: 0 <= i < |entries| && (forall j :: i < j < |entries| ==> entries[j].key != entries[i].key) ==>
      entries[i].key in Rekey(entries) && Rekey(entries)[entries[i].key] == entries[i].value
  {
    forall k
      ensures k in Rekey(entries) <==> exists i :: 0 <= i < |entries| && entries[i].key == k
    {
      RekeyHas(entries, k);
    }
    forall i | 0 <= i < |entries| && (forall j :: i < j < |entries| ==> entries[j].key != entries[i].key)
      ensures entries[i].key in Rekey(entries) && Rekey(entries)[entries[i].key] == entries[i].value
    {
      RekeyLast(entries, i);
    }
  }

  /** A key is stored exactly when some entry has it. */
  lemma {:induction false} RekeyHas(entries: seq<Entry>, k: string)
    ensures k in Rekey(entries) <==> exists i :: 0 <= i < |entries| && entries[i].key == k
    decreases |entries|
  {
    if entries != [] {
      var init := entries[..|entries| - 1];
      RekeyHas(init, k);
      if k in Rekey(init) {
        var i :| 0 <= i < |init| && init[i].key == k;
        assert entries[i].key == k;
      }
      if exists i :: 0 <= i < |entries| && entries[i].key == k {
        var i :| 0 <= i < |entries| && entries[i].key == k;
        if i < |init| {
          assert init[i].key == k;
        }
      }
    }
  }

  /** An entry no later entry overwrites is what its key holds. */
  lemma {:induction false} RekeyLast(entries: seq<Entry>, i: nat)
    requires i < |entries|
    requires forall j :: i < j < |entries| ==> entries[j].key != entries[i].key
    ensures entries[i].key in Rekey(entries) && Rekey(entries)[entries[i].key] == entries[i].value
    decreases |entries|
  {
    var init := entries[..|entries| - 1];
    if i < |init| {
      assert init[i] == entries[i];
      assert forall j :: i < j < |init| ==> init[j] == entries[j];
      RekeyLast(init, i);
    }
  }

  /** One more element: the loop goes on exactly when it stores. */
  lemma AllEntriesStep(store: Value -> Option<Entry>, xs: seq<Value>, i: nat)
    requires i < |xs|
    ensures AllEntries(store, xs[..i + 1]) ==
      if AllEntries(store, xs[..i]).None? || store(xs[i]).None? then None
      else Some(AllEntries(store, xs[..i]).value + [store(xs[i]).value])
  {
    assert xs[..i + 1][..i] == xs[..i];
  }

  /** The loop finishes exactly when every element stores, one entry each in order. */
  lemma {:induction false} AllEntriesSucceed(store: Value -> Option<Entry>, xs: seq<Value>)
    ensures AllEntries(store, xs).Some? <==> forall i :: 0 <= i < |xs| ==> store(xs[i]).Some?
    ensures AllEntries(store, xs).Some? ==>
      |AllEntries(store, xs).value| == |xs| &&
      forall i :: 0 <= i < |xs| ==> Some(AllEntries(store, xs).value[i]) == store(xs[i])
    decreases |xs|
  {
    if xs != [] {
      var init := xs[..|xs| - 1];
      AllEntriesSucceed(store, init);
      assert forall i :: 0 <= i < |init| ==> init[i] == xs[i];
    }
  }

  /** The versions re-key without an exception exactly when none is `null`, one entry each. */
  lemma VersionEntriesSucceed(versions: seq<Value>)
    ensures VersionEntries(versions).Some? <==> forall i :: 0 <= i < |versions| ==> !versions[i].Null?
    ensures VersionEntries(versions).Some? ==>
      |VersionEntries(versions).value| == |versions| &&
      forall i :: 0 <= i < |versions| ==> Some(VersionEntries(versions).value[i]) == VersionEntry(versions[i])
  {
    AllEntriesSucceed(VersionEntry, versions);
  }

  /**
   * One library re-keys exactly when it is an object whose `versions` is a
   * string or an array without `null`.
   */
  lemma LibEntrySucceeds(lib: Value)
    ensures LibEntry(lib).Some? <==>
      lib.Obj? && "versions" in lib.fields &&
      (lib.fields["versions"].Str? ||
       (lib.fields["versions"].Arr? && forall i :: 0 <= i < |lib.fields["versions"].items| ==> !lib.fields["versions"].items[i].Null?))
  {
    if lib.Obj? && "versions" in lib.fields && lib.fields["versions"].Arr? {
      VersionEntriesSucceed(lib.fields["versions"].items);
    }
    if lib.Obj? && "versions" in lib.fields && lib.fields["versions"].Str? {
      VersionEntriesSucceed(Elements(Some(lib.fields["versions"])).value);
    }
  }

  /**
   * `libArrayToObject` returns only for an empty string or an array of
   * libraries that each re-key; then the library stored under an id is the
   * last one with that id, with its versions re-keyed, each version id
   * holding the last version with that id.
   */
  lemma LibsObjectLastWins(libsArr: Value, i: nat)
    requires libsArr.Arr? && i < |libsArr.items| && LibsObject(libsArr).Some?
    requires var libs := libsArr.items;
      forall j :: i < j < |libs| ==> IdKey(libs[j]) != IdKey(libs[i])
    ensures var lib := libsArr.items[i];
      && lib.Obj?
      && LibEntry(lib).Some?
      && IdKey(lib) in LibsObject(libsArr).value
      && LibsObject(libsArr).value[IdKey(lib)] == LibEntry(lib).value.value
  {
    var libs := libsArr.items;
    AllEntriesSucceed(LibEntry, libs);
    var entries := LibEntries(libs).value;
    assert Some(entries[i]) == LibEntry(libs[i]);
    assert forall j :: i < j < |libs| ==> entries[j].key != entries[i].key by {
      forall j | i < j < |libs| ensures entries[j].key != entries[i].key {
        assert Some(entries[j]) == LibEntry(libs[j]);
      }
    }
    RekeyLastWins(entries);
  }

  /** A library's entry is stored under the library's id. */
  lemma LibEntryKey(lib: Value)
    ensures LibEntry(lib).Some? ==> LibEntry(lib).value.key == IdKey(lib)
  {
  }

  /**
   * The ids stored are exactly the ids of the libraries, and every stored
   * library's `versions` holds exactly the ids of its versions.
   */
  lemma LibsObjectKeys(libsArr: Value, id: string)
    requires libsArr.Arr? && LibsObject(libsArr).Some?
    ensures id in LibsObject(libsArr).value <==>
      exists i :: 0 <= i < |libsArr.items| && IdKey(libsArr.items[i]) == id
  {
    var libs := libsArr.items;
    AllEntriesSucceed(LibEntry, libs);
    var entries := LibEntries(libs).value;
    RekeyLastWins(entries);
    forall i | 0 <= i < |libs|
      ensures entries[i].key == IdKey(libs[i])
    {
      LibEntryKey(libs[i]);
    }
  }

  /** Anything but an array or a string throws at the outer loop. */
  lemma LibsObjectNotIterable(libsArr: Value)
    ensures !libsArr.Arr? && !libsArr.Str? ==> LibsObject(libsArr).None?
    ensures libsArr == Str("") ==> LibsObject(libsArr) == Some(map[])
    ensures libsArr.Str? && libsArr.s != "" ==> LibsObject(libsArr).None?
  {
    if libsArr.Str? && libsArr.s != "" {
      var chars := Elements(Some(libsArr)).value;
      AllEntriesSucceed(LibEntry, chars);
      assert !LibEntry(chars[0]).Some?;
    }
  }

  /** A library's versions keyed by version id, the later of two equal ids kept. */
  lemma LibraryVersionsRekeyed(lib: Value, v: nat)
    requires LibEntry(lib).Some? && lib.Obj? && "versions" in lib.fields && lib.fields["versions"].Arr?
    requires var versions := lib.fields["versions"].items;
      && v < |versions|
      && forall j :: v < j < |versions| ==> IdKey(versions[j]) != IdKey(versions[v])
    ensures var versions := lib.fields["versions"].items; var stored := LibEntry(lib).value.value;
      && stored.Obj? && "versions" in stored.fields && stored.fields["versions"].Obj?
      && IdKey(versions[v]) in stored.fields["versions"].fields
      && stored.fields["versions"].fields[IdKey(versions[v])] == versions[v]
  {
    var versions := lib.fields["versions"].items;
    VersionEntriesSucceed(versions);
    var entries := VersionEntries(versions).value;
    assert Some(entries[v]) == VersionEntry(versions[v]);
    forall j | v < j < |entries| ensures entries[j].key != entries[v].key {
      assert Some(entries[j]) == VersionEntry(versions[j]);
    }
    RekeyLastWins(entries);
  }
}
