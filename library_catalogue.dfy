/**
 * What the catalogue returned by `parseLibraries` holds, stated against the
 * property store: which languages and libraries it lists, which versions
 * each library has, what each version inherits from its library, and how
 * the versions are numbered.
 */
module LibraryCatalogue {
  import opened Wrappers
  import opened JsValues
  import opened Sorting
  import opened Properties
  import opened Libraries
  import opened LibraryOrder

  /**
   * A language is in the catalogue exactly when its id and its library list
   * are non-empty, and its libraries are exactly the ids of that list.
   */
  lemma CatalogueEntries(env: ParseEnv, baseLibs: map<string, Option<string>>, lang: string, lib: string)
    ensures lang in LibrariesSpec(env, baseLibs) <==> Listed(baseLibs, lang)
    ensures lang in LibrariesSpec(env, baseLibs) ==>
      (lib in LibrariesSpec(env, baseLibs)[lang] <==> lib in Split(baseLibs[lang].value, ':'))
    ensures lang in LibrariesSpec(env, baseLibs) && lib in LibrariesSpec(env, baseLibs)[lang] ==>
      LibrariesSpec(env, baseLibs)[lang][lib] == BuildLibrary(env, lang, lib)
  {
    if lang in LibrariesSpec(env, baseLibs) {
      LanguageLibrariesEntries(env, lang, Split(baseLibs[lang].value, ':'));
    }
  }

  /**
   * A finished library has one version per distinct listed label, listed in
   * the order of first appearance; each version is the one the store
   * describes, with a `$order` added.
   */
  lemma LibraryVersions(env: ParseEnv, lang: string, lib: string)
    ensures var built := BuildLibrary(env, lang, lib);
      && built.versionKeys == Dedup(VersionLabels(env, lang, lib))
      && (forall v :: v in built.versions <==> v in VersionLabels(env, lang, lib))
      && (forall v :: v in built.versions ==>
            built.versions[v].(order := None) == VersionSpec(env, lang, lib, LibraryBase(env, lang, lib), v))
  {
    var library := UnorderedLibrary(env, lang, lib);
    UnorderedKeysListed(env, lang, lib);
    VersionsReadEntries(env, lang, lib, LibraryBase(env, lang, lib), VersionLabels(env, lang, lib));
    NumberedOrders(library, env.versionCmp);
  }

  /**
   * `$order` numbers the versions of a finished library 0, 1, ... without
   * gaps or repeats, and numbering changes nothing else.
   */
  lemma LibraryOrders(env: ParseEnv, lang: string, lib: string)
    ensures var built := BuildLibrary(env, lang, lib); var n := built.versions;
      && n.Keys == UnorderedLibrary(env, lang, lib).versions.Keys
      && (forall v :: v in n ==> n[v].order.Some? && 0 <= n[v].order.value < |n|)
      && (forall v, w :: v in n && w in n && v != w ==> n[v].order != n[w].order)
      && (forall v :: v in n ==> n[v] == UnorderedLibrary(env, lang, lib).versions[v].(order := n[v].order))
  {
    var library := UnorderedLibrary(env, lang, lib);
    UnorderedKeysListed(env, lang, lib);
    NumberedOrders(library, env.versionCmp);
  }

  /**
   * With a comparison that is a total preorder, `$order` follows the
   * `version` properties: a smaller `$order` never has a greater version.
   */
  lemma LibraryOrdersSorted(env: ParseEnv, lang: string, lib: string, v: string, w: string)
    requires IsTotalPreorder(env.versionCmp)
    requires v in BuildLibrary(env, lang, lib).versions && w in BuildLibrary(env, lang, lib).versions
    ensures var n := BuildLibrary(env, lang, lib).versions;
      && n[v].order.Some? && n[w].order.Some?
      && (n[v].order.value < n[w].order.value ==> env.versionCmp(VersionValue(n, v), VersionValue(n, w)) <= 0)
  {
    var library := UnorderedLibrary(env, lang, lib);
    UnorderedKeysListed(env, lang, lib);
    NumberedOrders(library, env.versionCmp);
    NumberedSorted(library, env.versionCmp, v, w);
  }

  /**
   * Versions that compare in order keep the order in which they were first
   * listed: the earlier one gets the smaller `$order`.
   */
  lemma LibraryOrdersStable(env: ParseEnv, lang: string, lib: string, i: nat, j: nat)
    requires var keys := Dedup(VersionLabels(env, lang, lib)); var n := UnorderedLibrary(env, lang, lib).versions;
      && i < j < |keys|
      && env.versionCmp(VersionValue(n, keys[i]), VersionValue(n, keys[j])) <= 0
    ensures var keys := Dedup(VersionLabels(env, lang, lib)); var n := BuildLibrary(env, lang, lib).versions;
      && keys[i] in n && keys[j] in n && n[keys[i]].order.Some? && n[keys[j]].order.Some?
      && n[keys[i]].order.value < n[keys[j]].order.value
  {
    UnorderedKeysListed(env, lang, lib);
    NumberedStable(UnorderedLibrary(env, lang, lib), env.versionCmp, i, j);
  }

  /**
   * A library without a `versions` property still gets one version: the
   * template literal renders the missing value as "undefined".
   */
  lemma MissingVersionList(env: ParseEnv, lang: string, lib: string)
    requires env.props.text(lang, LibKey(lib, "versions")) == None
    ensures BuildLibrary(env, lang, lib).versions.Keys == {"undefined"}
  {
    SplitWithoutSeparator("undefined", ':');
    LibraryVersions(env, lang, lib);
  }

  /** An empty `versions` property gives a library without versions. */
  lemma EmptyVersionList(env: ParseEnv, lang: string, lib: string)
    requires env.props.text(lang, LibKey(lib, "versions")) == Some("")
    ensures BuildLibrary(env, lang, lib).versions == map[]
  {
    LibraryVersions(env, lang, lib);
  }

  /**
   * Lines 301-355: what a version takes from its library. The link lists
   * and dependencies are the library's unless the version sets its own, the
   * options are the library's unless the version's property is defined at
   * all (even as empty text), and the packaged-headers flag defaults to the
   * library's.
   */
  lemma VersionInheritance(env: ParseEnv, lang: string, lib: string, library: Library, v: string)
    ensures var info := VersionSpec(env, lang, lib, library, v); var text := env.props.text;
      && (!Present(text(lang, VersionKey(lib, v, "staticliblink"))) ==> info.staticliblink == library.staticliblink)
      && (!Present(text(lang, VersionKey(lib, v, "dependencies"))) ==> info.dependencies == library.dependencies)
      && (!Present(text(lang, VersionKey(lib, v, "liblink"))) ==> info.liblink == library.liblink)
      && (text(lang, VersionKey(lib, v, "options")) == None ==> info.options == library.options)
      && (text(lang, VersionKey(lib, v, "options")).Some? ==>
            info.options == env.splitArguments(text(lang, VersionKey(lib, v, "options"))))
      && (env.props.flag(lang, VersionKey(lib, v, "packagedheaders")) == None ==>
            info.packagedheaders == library.packagedheaders)
      && (!Present(text(lang, VersionKey(lib, v, "path"))) ==> info.path == [])
      && info.order == None
  {
  }
}
