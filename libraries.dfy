/**
 * The library catalogue (`ClientOptionsHandler.parseLibraries`): for each
 * language, the `:`-separated list of library ids becomes a map from id to
 * library; each library's versions inherit the library's link lists,
 * dependencies, options and packaged-headers flag unless the version sets
 * its own, and once every library is read its versions are sorted by their
 * `version` property and numbered `$order = 0, 1, ...`.
 */
module Libraries {
  import opened Wrappers
  import opened JsValues
  import opened Sorting
  import opened Properties

  /** One version of a library; `order` is `$order`, absent until numbered. */
  datatype VersionInfo = VersionInfo(
    version: Option<string>,
    staticliblink: seq<string>,
    alias: seq<string>,
    dependencies: seq<string>,
    path: seq<string>,
    libpath: seq<string>,
    liblink: seq<string>,
    lookupname: Option<string>,
    lookupversion: Option<string>,
    options: seq<string>,
    hidden: bool,
    packagedheaders: bool,
    order: Option<int>)

  datatype Library = Library(
    name: Option<string>,
    url: Option<string>,
    description: Option<string>,
    staticliblink: seq<string>,
    liblink: seq<string>,
    dependencies: seq<string>,
    versions: map<string, VersionInfo>,
    versionKeys: seq<string>,
    examples: seq<string>,
    options: seq<string>,
    packagedheaders: bool)

  /** The library record before any version is read. */
  function LibraryBase(env: ParseEnv, lang: string, lib: string): Library {
    var text := env.props.text;
    Library(
      name := text(lang, LibKey(lib, "name")),
      url := text(lang, LibKey(lib, "url")),
      description := text(lang, LibKey(lib, "description")),
      staticliblink := SplitIntoArray(text(lang, LibKey(lib, "staticliblink")), []),
      liblink := SplitIntoArray(text(lang, LibKey(lib, "liblink")), []),
      dependencies := SplitIntoArray(text(lang, LibKey(lib, "dependencies")), []),
      versions := map[],
      versionKeys := [],
      examples := SplitIntoArray(text(lang, LibKey(lib, "examples")), []),
      options := env.splitArguments(Some(text(lang, LibKey(lib, "options")).GetOr(""))),
      packagedheaders := env.props.flag(lang, LibKey(lib, "packagedheaders")).GetOr(false))
  }

  /**
   * The version labels as listed: `${versions}` renders a missing property
   * as "undefined", which is not empty, so only an empty text lists none.
   */
  function VersionLabels(env: ParseEnv, lang: string, lib: string): seq<string> {
    var listedVersions := TemplateText(env.props.text(lang, LibKey(lib, "versions")));
    if listedVersions != "" then Split(listedVersions, ':') else []
  }

  /** The version object `version` of `library` as read from the store, before numbering. */
  function VersionSpec(env: ParseEnv, lang: string, lib: string, library: Library, version: string): VersionInfo {
    var text := env.props.text;
    var includes := text(lang, VersionKey(lib, version, "path"));
    var libpath := text(lang, VersionKey(lib, version, "libpath"));
    var options := text(lang, VersionKey(lib, version, "options"));
    var lookupname := text(lang, VersionKey(lib, version, "lookupname"));
    var lookupversion := text(lang, VersionKey(lib, version, "lookupversion"));
    VersionInfo(
      version := text(lang, VersionKey(lib, version, "version")),
      staticliblink := SplitIntoArray(text(lang, VersionKey(lib, version, "staticliblink")), library.staticliblink),
      alias := SplitIntoArray(text(lang, VersionKey(lib, version, "alias")), []),
      dependencies := SplitIntoArray(text(lang, VersionKey(lib, version, "dependencies")), library.dependencies),
      path := if Present(includes) then Split(includes.value, env.pathDelimiter) else [],
      libpath := if Present(libpath) then Split(libpath.value, env.pathDelimiter) else [],
      liblink := SplitIntoArray(text(lang, VersionKey(lib, version, "liblink")), library.liblink),
      lookupname := if Present(lookupname) then lookupname else None,
      lookupversion := if Present(lookupversion) then lookupversion else None,
      options := if options.Some? then env.splitArguments(options) else library.options,
      hidden := env.props.flag(lang, VersionKey(lib, version, "hidden")).GetOr(false),
      packagedheaders := env.props.flag(lang, VersionKey(lib, version, "packagedheaders")).GetOr(library.packagedheaders),
      order := None)
  }

  /** The `versions` object after reading the labels `labels` in order, later labels last. */
  function VersionsRead(env: ParseEnv, lang: string, lib: string, base: Library, labels: seq<string>): map<string, VersionInfo>
    decreases |labels|
  {
    if labels == [] then map[]
    else
      var last := labels[|labels| - 1];
      VersionsRead(env, lang, lib, base, labels[..|labels| - 1])[last := VersionSpec(env, lang, lib, base, last)]
  }

  /** A library with all its listed versions read, not yet numbered. */
  function UnorderedLibrary(env: ParseEnv, lang: string, lib: string): Library {
    var base := LibraryBase(env, lang, lib);
    var labels := VersionLabels(env, lang, lib);
    base.(versions := VersionsRead(env, lang, lib, base, labels), versionKeys := Dedup(labels))
  }

  /** The value a version is sorted by: its `version` property, `undefined` when unset. */
  function VersionValue(versions: map<string, VersionInfo>, v: string): Option<Value> {
    if v in versions && versions[v].version.Some? then Some(Str(versions[v].version.value)) else None
  }

  /** `Object.values(versions)`, taken in the key order `labels`, each with its sort value. */
  function KeyedVersions(versions: map<string, VersionInfo>, labels: seq<string>): (r: seq<Keyed<string>>)
    ensures |r| == |labels|
    decreases |labels|
  {
    if labels == [] then []
    else
      var last := labels[|labels| - 1];
      KeyedVersions(versions, labels[..|labels| - 1]) + [Keyed(last, VersionValue(versions, last))]
  }

  /** `versions` with the version at each position `k` of `sorted` numbered `k`. */
  function NumberAll(versions: map<string, VersionInfo>, sorted: seq<Keyed<string>>): map<string, VersionInfo>
    decreases |sorted|
  {
    if sorted == [] then versions
    else
      var last := |sorted| - 1;
      var numbered := NumberAll(versions, sorted[..last]);
      var v := sorted[last].item;
      if v in numbered then numbered[v := numbered[v].(order := Some(last))] else numbered
  }

  /** The versions of `library` in key order, sorted by version. */
  function SortedVersions(library: Library, cmp: VersionCmp): seq<Keyed<string>> {
    SortBy(KeyedVersions(library.versions, library.versionKeys), cmp)
  }

  /**
   * Lines 366-373 for one library: its versions, taken in the key order of
   * the `versions` object, sorted by version and numbered by position.
   */
  function NumberedLibrary(library: Library, cmp: VersionCmp): Library {
    library.(versions := NumberAll(library.versions, SortedVersions(library, cmp)))
  }

  /** A JS object lists each of its keys once, in `versionKeys`. */
  ghost predicate KeysListed(library: Library) {
    Distinct(library.versionKeys) && forall v :: v in library.versions <==> v in library.versionKeys
  }

  /** The finished library as `parseLibraries` returns it. */
  function BuildLibrary(env: ParseEnv, lang: string, lib: string): Library {
    NumberedLibrary(UnorderedLibrary(env, lang, lib), env.versionCmp)
  }

  /** The libraries `ids` of language `lang` after the reading pass. */
  function UnorderedLanguage(env: ParseEnv, lang: string, ids: seq<string>): map<string, Library>
    decreases |ids|
  {
    if ids == [] then map[]
    else
      var last := ids[|ids| - 1];
      UnorderedLanguage(env, lang, ids[..|ids| - 1])[last := UnorderedLibrary(env, lang, last)]
  }

  /** The libraries `ids` of language `lang`, finished. */
  function LanguageLibraries(env: ParseEnv, lang: string, ids: seq<string>): map<string, Library>
    decreases |ids|
  {
    if ids == [] then map[]
    else
      var last := ids[|ids| - 1];
      LanguageLibraries(env, lang, ids[..|ids| - 1])[last := BuildLibrary(env, lang, last)]
  }

  /** The catalogue `language -> library id -> library`. */
  function LibrariesSpec(env: ParseEnv, baseLibs: map<string, Option<string>>): map<string, map<string, Library>> {
    map lang | lang in baseLibs && Listed(baseLibs, lang) ::
      LanguageLibraries(env, lang, Split(baseLibs[lang].value, ':'))
  }

  lemma MapsAgree<K, V>(m1: map<K, V>, m2: map<K, V>)
    requires forall k :: k in m1 <==> k in m2
    requires forall k :: k in m1 ==> m1[k] == m2[k]
    ensures m1 == m2
  {
    assert m1.Keys == m2.Keys;
  }

  /** Every listed label is read, once, into the version object the store describes. */
  lemma {:induction false} VersionsReadEntries(env: ParseEnv, lang: string, lib: string, base: Library, labels: seq<string>)
    ensures forall v :: v in VersionsRead(env, lang, lib, base, labels) <==> v in labels
    ensures forall v :: v in VersionsRead(env, lang, lib, base, labels) ==>
      VersionsRead(env, lang, lib, base, labels)[v] == VersionSpec(env, lang, lib, base, v)
    decreases |labels|
  {
    if labels != [] {
      VersionsReadEntries(env, lang, lib, base, labels[..|labels| - 1]);
      assert labels == labels[..|labels| - 1] + [labels[|labels| - 1]];
    }
  }

  /** Every listed library id is read into the library the store describes. */
  lemma {:induction false} UnorderedLanguageEntries(env: ParseEnv, lang: string, ids: seq<string>)
    ensures forall lib :: lib in UnorderedLanguage(env, lang, ids) <==> lib in ids
    ensures forall lib :: lib in UnorderedLanguage(env, lang, ids) ==>
      UnorderedLanguage(env, lang, ids)[lib] == UnorderedLibrary(env, lang, lib)
    decreases |ids|
  {
    if ids != [] {
      UnorderedLanguageEntries(env, lang, ids[..|ids| - 1]);
      assert ids == ids[..|ids| - 1] + [ids[|ids| - 1]];
    }
  }

  /** Every listed library id ends up as the finished library. */
  lemma {:induction false} LanguageLibrariesEntries(env: ParseEnv, lang: string, ids: seq<string>)
    ensures forall lib :: lib in LanguageLibraries(env, lang, ids) <==> lib in ids
    ensures forall lib :: lib in LanguageLibraries(env, lang, ids) ==>
      LanguageLibraries(env, lang, ids)[lib] == BuildLibrary(env, lang, lib)
    decreases |ids|
  {
    if ids != [] {
      LanguageLibrariesEntries(env, lang, ids[..|ids| - 1]);
      assert ids == ids[..|ids| - 1] + [ids[|ids| - 1]];
    }
  }

  /** Lines 301-355: the version object, field by field. */
  method ParseVersion(env: ParseEnv, lang: string, lib: string, library: Library, version: string)
    returns (versionObject: VersionInfo)
    ensures versionObject == VersionSpec(env, lang, lib, library, version)
  {
    var text := env.props.text;
    versionObject := VersionInfo(
      version := text(lang, VersionKey(lib, version, "version")),
      staticliblink := SplitIntoArray(text(lang, VersionKey(lib, version, "staticliblink")), library.staticliblink),
      alias := SplitIntoArray(text(lang, VersionKey(lib, version, "alias")), []),
      dependencies := SplitIntoArray(text(lang, VersionKey(lib, version, "dependencies")), library.dependencies),
      path := [],
      libpath := [],
      liblink := SplitIntoArray(text(lang, VersionKey(lib, version, "liblink")), library.liblink),
      lookupname := None,
      lookupversion := None,
      options := library.options,
      hidden := env.props.flag(lang, VersionKey(lib, version, "hidden")).GetOr(false),
      packagedheaders := library.packagedheaders,
      order := None);

    var lookupversion := text(lang, VersionKey(lib, version, "lookupversion"));
    if Present(lookupversion) {
      versionObject := versionObject.(lookupversion := lookupversion);
    }
    var lookupname := text(lang, VersionKey(lib, version, "lookupname"));
    if Present(lookupname) {
      versionObject := versionObject.(lookupname := lookupname);
    }
    var includes := text(lang, VersionKey(lib, version, "path"));
    if Present(includes) {
      versionObject := versionObject.(path := Split(includes.value, env.pathDelimiter));
    }
    var libpath := text(lang, VersionKey(lib, version, "libpath"));
    if Present(libpath) {
      versionObject := versionObject.(libpath := Split(libpath.value, env.pathDelimiter));
    }
    var options := text(lang, VersionKey(lib, version, "options"));
    if options.Some? {
      versionObject := versionObject.(options := env.splitArguments(options));
    }
    versionObject := versionObject.(packagedheaders :=
      env.props.flag(lang, VersionKey(lib, version, "packagedheaders")).GetOr(library.packagedheaders));
  }

  /**
   * Lines 299-358 for one library: read each listed version into the
   * `versions` object, whose key order `keys` grows by each new label.
   */
  method ReadVersions(env: ParseEnv, lang: string, lib: string, base: Library, labels: seq<string>)
    returns (versions: map<string, VersionInfo>, keys: seq<string>)
    ensures versions == VersionsRead(env, lang, lib, base, labels)
    ensures keys == Dedup(labels)
  {
    versions := map[];
    keys := [];
    for k := 0 to |labels|
      invariant versions == VersionsRead(env, lang, lib, base, labels[..k])
      invariant keys == Dedup(labels[..k])
    {
      VersionsReadEntries(env, lang, lib, base, labels[..k]);
      DedupListsOnce(labels[..k]);
      var versionObject := ParseVersion(env, lang, lib, base, labels[k]);
      assert labels[..k + 1][..k] == labels[..k];
      if labels[k] !in versions {
        keys := keys + [labels[k]];
      }
      versions := versions[labels[k] := versionObject];
    }
    assert labels[..|labels|] == labels;
  }

  /** Lines 284-360 for one library: its own properties, then each listed version. */
  method ReadLibrary(env: ParseEnv, lang: string, lib: string) returns (library: Library)
    ensures library == UnorderedLibrary(env, lang, lib)
  {
    library := LibraryBase(env, lang, lib);
    var listedVersions := TemplateText(env.props.text(lang, LibKey(lib, "versions")));
    if listedVersions != "" {
      var versions, keys := ReadVersions(env, lang, lib, library, Split(listedVersions, ':'));
      library := library.(versions := versions, versionKeys := keys);
    }
  }

  /** One more listed library: it is read and stored under its id. */
  lemma UnorderedLanguageStep(env: ParseEnv, lang: string, ids: seq<string>, i: nat)
    requires i < |ids|
    ensures UnorderedLanguage(env, lang, ids[..i + 1]) ==
      UnorderedLanguage(env, lang, ids[..i])[ids[i] := UnorderedLibrary(env, lang, ids[i])]
  {
    assert ids[..i + 1][..i] == ids[..i];
  }

  /** Lines 283-362 for one language: every listed library with its versions, unnumbered. */
  method ParseLanguage(env: ParseEnv, lang: string, forLang: string)
    returns (forLangLibs: map<string, Library>)
    ensures forLangLibs == UnorderedLanguage(env, lang, Split(forLang, ':'))
  {
    forLangLibs := map[];
    var ids := Split(forLang, ':');
    for i := 0 to |ids|
      invariant forLangLibs == UnorderedLanguage(env, lang, ids[..i])
    {
      var library := ReadLibrary(env, lang, ids[i]);
      UnorderedLanguageStep(env, lang, ids, i);
      forLangLibs := forLangLibs[ids[i] := library];
    }
    assert ids[..|ids|] == ids;
  }

  /** Lines 366-373 for one library: sort its versions, then number them 0, 1, ... */
  method NumberVersions(library: Library, cmp: VersionCmp) returns (r: Library)
    ensures r == NumberedLibrary(library, cmp)
  {
    var versions := SortBy(KeyedVersions(library.versions, library.versionKeys), cmp);
    var numbered := library.versions;
    var order := 0;
    while order < |versions|
      invariant 0 <= order <= |versions|
      invariant numbered == NumberAll(library.versions, versions[..order])
    {
      var v := versions[order].item;
      assert versions[..order + 1][..order] == versions[..order];
      if v in numbered {
        numbered := numbered[v := numbered[v].(order := Some(order))];
      }
      order := order + 1;
    }
    assert versions[..|versions|] == versions;
    r := library.(versions := numbered);
  }

  /** Lines 366-374 for one language: every library's versions sorted and numbered. */
  function NumberedGroup(langGroup: map<string, Library>, cmp: VersionCmp): map<string, Library> {
    map lib | lib in langGroup :: NumberedLibrary(langGroup[lib], cmp)
  }

  /** Lines 366-374 for one language: number every library in turn. */
  method NumberLanguage(langGroup: map<string, Library>, cmp: VersionCmp) returns (r: map<string, Library>)
    ensures r == NumberedGroup(langGroup, cmp)
  {
    r := langGroup;
    var pending := langGroup.Keys;
    while pending != {}
      invariant pending <= r.Keys && r.Keys == langGroup.Keys
      invariant forall lib :: lib in pending ==> r[lib] == langGroup[lib]
      invariant forall lib :: lib in r && lib !in pending ==> r[lib] == NumberedLibrary(langGroup[lib], cmp)
      decreases |pending|
    {
      var lib :| lib in pending;
      var libGroup := NumberVersions(r[lib], cmp);
      r := r[lib := libGroup];
      pending := pending - {lib};
    }
    NumberedGroupFrom(langGroup, cmp, r);
  }

  lemma NumberedGroupFrom(langGroup: map<string, Library>, cmp: VersionCmp, r: map<string, Library>)
    requires r.Keys == langGroup.Keys
    requires forall lib :: lib in r ==> r[lib] == NumberedLibrary(langGroup[lib], cmp)
    ensures r == NumberedGroup(langGroup, cmp)
  {
    MapsAgree(r, NumberedGroup(langGroup, cmp));
  }

  /** A library after the reading pass lists each of its version labels once. */
  lemma UnorderedKeysListed(env: ParseEnv, lang: string, lib: string)
    ensures KeysListed(UnorderedLibrary(env, lang, lib))
  {
    VersionsReadEntries(env, lang, lib, LibraryBase(env, lang, lib), VersionLabels(env, lang, lib));
    DedupListsOnce(VersionLabels(env, lang, lib));
  }

  /** A language after the reading pass meets the requirement of `NumberLanguage`. */
  lemma UnorderedLanguageKeysListed(env: ParseEnv, lang: string, ids: seq<string>)
    ensures forall lib :: lib in UnorderedLanguage(env, lang, ids) ==> KeysListed(UnorderedLanguage(env, lang, ids)[lib])
  {
    UnorderedLanguageEntries(env, lang, ids);
    forall lib | lib in UnorderedLanguage(env, lang, ids)
      ensures KeysListed(UnorderedLanguage(env, lang, ids)[lib])
    {
      UnorderedKeysListed(env, lang, lib);
    }
  }

  /** Numbering each library of a language after the reading pass gives the finished language. */
  lemma NumberedLanguage(env: ParseEnv, lang: string, ids: seq<string>)
    ensures NumberedGroup(UnorderedLanguage(env, lang, ids), env.versionCmp) == LanguageLibraries(env, lang, ids)
  {
    UnorderedLanguageEntries(env, lang, ids);
    LanguageLibrariesEntries(env, lang, ids);
    MapsAgree(NumberedGroup(UnorderedLanguage(env, lang, ids), env.versionCmp), LanguageLibraries(env, lang, ids));
  }

  /** Lines 279-364: the reading pass over every language. */
  method ReadLanguages(env: ParseEnv, baseLibs: map<string, Option<string>>)
    returns (libraries: map<string, map<string, Library>>)
    ensures forall lang :: Listed(baseLibs, lang) ==> lang in libraries
    ensures forall lang :: lang in libraries ==>
      (Listed(baseLibs, lang) && libraries[lang] == UnorderedLanguage(env, lang, Split(baseLibs[lang].value, ':')))
  {
    libraries := map[];
    var langs := baseLibs.Keys;
    while langs != {}
      invariant langs <= baseLibs.Keys
      invariant forall lang :: Listed(baseLibs, lang) && lang !in langs ==> lang in libraries
      invariant forall lang :: lang in libraries ==>
        (Listed(baseLibs, lang) && lang !in langs && libraries[lang] == UnorderedLanguage(env, lang, Split(baseLibs[lang].value, ':')))
      decreases |langs|
    {
      var lang :| lang in langs;
      var forLang := baseLibs[lang];
      if lang != "" && Present(forLang) {
        var forLangLibs := ParseLanguage(env, lang, forLang.value);
        libraries := libraries[lang := forLangLibs];
      }
      langs := langs - {lang};
    }
  }

  /** Lines 365-375: the numbering pass over every language. */
  method NumberLanguages(read: map<string, map<string, Library>>, cmp: VersionCmp)
    returns (libraries: map<string, map<string, Library>>)
    ensures libraries.Keys == read.Keys
    ensures forall lang :: lang in libraries ==> libraries[lang] == NumberedGroup(read[lang], cmp)
  {
    libraries := read;
    var pending := read.Keys;
    while pending != {}
      invariant pending <= libraries.Keys && libraries.Keys == read.Keys
      invariant forall lang :: lang in pending ==> libraries[lang] == read[lang]
      invariant forall lang :: lang in libraries && lang !in pending ==> libraries[lang] == NumberedGroup(read[lang], cmp)
      decreases |pending|
    {
      var lang :| lang in pending;
      var langGroup := NumberLanguage(libraries[lang], cmp);
      libraries := libraries[lang := langGroup];
      pending := pending - {lang};
    }
  }

  /** The two passes together give the catalogue. */
  lemma CatalogueComplete(env: ParseEnv, baseLibs: map<string, Option<string>>,
                          read: map<string, map<string, Library>>, libraries: map<string, map<string, Library>>)
    requires forall lang :: Listed(baseLibs, lang) ==> lang in read
    requires forall lang :: lang in read ==>
      (Listed(baseLibs, lang) && read[lang] == UnorderedLanguage(env, lang, Split(baseLibs[lang].value, ':')))
    requires libraries.Keys == read.Keys
    requires forall lang :: lang in libraries ==> libraries[lang] == NumberedGroup(read[lang], env.versionCmp)
    ensures libraries == LibrariesSpec(env, baseLibs)
  {
    forall lang | lang in libraries
      ensures libraries[lang] == LanguageLibraries(env, lang, Split(baseLibs[lang].value, ':'))
    {
      NumberedLanguage(env, lang, Split(baseLibs[lang].value, ':'));
    }
    MapsAgree(libraries, LibrariesSpec(env, baseLibs));
  }

  /**
   * `parseLibraries`: every language with a non-empty library list gets an
   * entry, every listed id a library, and every library its numbered versions.
   */
  method ParseLibraries(env: ParseEnv, baseLibs: map<string, Option<string>>)
    returns (libraries: map<string, map<string, Library>>)
    ensures libraries == LibrariesSpec(env, baseLibs)
  {
    var read := ReadLanguages(env, baseLibs);
    libraries := NumberLanguages(read, env.versionCmp);
    CatalogueComplete(env, baseLibs, read, libraries);
  }
}
