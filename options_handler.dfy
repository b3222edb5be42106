/**
 * The options bundle (`ClientOptionsHandler`): built once from the property
 * store, then republished by every `setCompilers`. The bundle's JSON text
 * and hash are derived fields, recomputed after each write; the cache of
 * remote libraries is shared with the bundle from the first `setCompilers` on.
 */
module OptionsHandler {
  import opened Wrappers
  import opened JsValues
  import opened Sorting
  import opened Properties
  import opened Libraries
  import opened Tools
  import opened RemoteLibraries
  import opened Compilers

  /** A cached remote catalogue: library id to library object. */
  type RemoteLibs = map<string, Value>

  /** The bundle served to every client. */
  datatype Options = Options(
    compilers: seq<Compiler>,
    libs: map<string, map<string, Library>>,
    remoteLibs: map<string, RemoteLibs>,
    tools: map<string, map<string, ToolInfo>>,
    supportsBinary: map<string, bool>,
    supportsBinaryObject: map<string, bool>,
    supportsExecute: bool,
    supportsLibraryCodeFilter: bool,
    languages: map<string, map<string, Value>>,
    // the static settings of lines 182-223, each a lookup with a default
    settings: map<string, Value>)

  /**
   * What the handler depends on and cannot see: the property store and the
   * builders' helpers, `getRemoteId`, `urlJoin`, the remote fetch (the URL
   * to what `JSON.parse` made of the response, `None` when it threw),
   * `JSON.stringify` and `getHash`.
   */
  datatype HandlerEnv = HandlerEnv(
    parse: ParseEnv,
    remoteId: (string, string) -> string,
    urlJoin: seq<string> -> string,
    fetch: string -> Option<Value>,
    serialize: Options -> string,
    hash: (Options, string) -> string)

  /** The version tag mixed into the bundle's hash. */
  const HashTag: string := "Options Hash V1"

  /** A compiler's `remote`: where the peer instance is. */
  datatype Remote = Remote(target: string, basePath: string)

  /** `compiler.remote`, with `target` and `basePath` as the string concatenation renders them. */
  function RemoteOf(c: Compiler): (r: Remote)
    ensures var remote := Field(c, "remote");
      remote.Some? && remote.value.Obj? && Field(remote.value.fields, "target").Some? &&
      Field(remote.value.fields, "target").value.Str? ==>
        r.target == Field(remote.value.fields, "target").value.s
    ensures var remote := Field(c, "remote");
      remote.Some? && remote.value.Obj? && Field(remote.value.fields, "basePath").Some? &&
      Field(remote.value.fields, "basePath").value.Str? ==>
        r.basePath == Field(remote.value.fields, "basePath").value.s
    ensures var remote := Field(c, "remote");
      remote.Some? && remote.value.Obj? && "basePath" !in remote.value.fields ==> r.basePath == "undefined"
  {
    var remote := Field(c, "remote");
    var fields := if remote.Some? && remote.value.Obj? then remote.value.fields else map[];
    Remote(ToKeyString(Field(fields, "target")), ToKeyString(Field(fields, "basePath")))
  }

  predicate HasRemote(c: Compiler) {
    Truthy(Field(c, "remote"))
  }

  /** `getFullRemoteUrl`: the peer's base URL, the target followed by the base path. */
  function GetFullRemoteUrl(remote: Remote): (url: string)
    ensures |url| == |remote.target| + |remote.basePath|
    ensures url[..|remote.target|] == remote.target && url[|remote.target|..] == remote.basePath
  {
    remote.target + remote.basePath
  }

  /**
   * The cache after `getRemoteLibraries(language, remoteUrl)`. A slot that
   * holds a catalogue (an object, so truthy, even when empty) is kept;
   * otherwise the remote is fetched and its catalogue, or `{}`, stored.
   */
  function CacheStep(env: HandlerEnv, cache: map<string, RemoteLibs>, language: string, remoteUrl: string)
    : (r: map<string, RemoteLibs>)
    ensures env.remoteId(remoteUrl, language) in r
    ensures forall id :: id in cache ==> id in r && r[id] == cache[id]
    ensures r.Keys == cache.Keys + {env.remoteId(remoteUrl, language)}
  {
    var remoteId := env.remoteId(remoteUrl, language);
    if remoteId in cache then cache
    else cache[remoteId := CacheValue(env.fetch(env.urlJoin([remoteUrl, "/api/libraries", language])))]
  }

  /** The remote identity a compiler's libraries are cached under. */
  function RemoteKey(env: HandlerEnv, c: Compiler): string {
    env.remoteId(GetFullRemoteUrl(RemoteOf(c)), LangKey(c))
  }

  /** Lines 465-470 for one compiler: its peer fetched when it is remote. */
  function CacheOne(env: HandlerEnv, cache: map<string, RemoteLibs>, c: Compiler): map<string, RemoteLibs> {
    if HasRemote(c) then CacheStep(env, cache, LangKey(c), GetFullRemoteUrl(RemoteOf(c))) else cache
  }

  /** The cache after the compilers' remotes are fetched in list order (line 465-470). */
  function CacheAfter(env: HandlerEnv, cache: map<string, RemoteLibs>, compilers: seq<Compiler>)
    : map<string, RemoteLibs>
    decreases |compilers|
  {
    if compilers == [] then cache
    else
      CacheOne(env, CacheAfter(env, cache, compilers[..|compilers| - 1]), compilers[|compilers| - 1])
  }

  /**
   * The cache only grows: every slot it had is kept as it was, every remote
   * compiler's slot is set, and nothing else is added. A new slot holds what
   * fetching one of the compilers' remotes with that identity gave.
   */
  lemma {:induction false} CacheAfterSlots(env: HandlerEnv, cache: map<string, RemoteLibs>, compilers: seq<Compiler>)
    ensures var r := CacheAfter(env, cache, compilers);
      && (forall id :: id in cache ==> id in r && r[id] == cache[id])
      && (forall i :: 0 <= i < |compilers| && HasRemote(compilers[i]) ==> RemoteKey(env, compilers[i]) in r)
      && (forall id :: id in r && id !in cache ==>
            exists i :: 0 <= i < |compilers| && HasRemote(compilers[i]) && RemoteKey(env, compilers[i]) == id
              && r[id] == CacheValue(env.fetch(env.urlJoin([GetFullRemoteUrl(RemoteOf(compilers[i])), "/api/libraries", LangKey(compilers[i])]))))
    decreases |compilers|
  {
    if compilers != [] {
      var n := |compilers| - 1;
      var init := compilers[..n];
      CacheAfterSlots(env, cache, init);
      var before := CacheAfter(env, cache, init);
      var r := CacheAfter(env, cache, compilers);
      forall i | 0 <= i < |compilers| && HasRemote(compilers[i]) ensures RemoteKey(env, compilers[i]) in r {
        if i < n {
          assert init[i] == compilers[i];
        }
      }
      forall id | id in r && id !in cache
        ensures exists i :: (0 <= i < |compilers| && HasRemote(compilers[i]) && RemoteKey(env, compilers[i]) == id
          && r[id] == CacheValue(env.fetch(env.urlJoin([GetFullRemoteUrl(RemoteOf(compilers[i])), "/api/libraries", LangKey(compilers[i])]))))
      {
        if id in before {
          var i :| 0 <= i < |init| && HasRemote(init[i]) && RemoteKey(env, init[i]) == id
            && before[id] == CacheValue(env.fetch(env.urlJoin([GetFullRemoteUrl(RemoteOf(init[i])), "/api/libraries", LangKey(init[i])])));
          assert init[i] == compilers[i];
        } else {
          assert HasRemote(compilers[n]) && RemoteKey(env, compilers[n]) == id;
        }
      }
    }
  }

  /** Once every remote of the compilers is cached, fetching them again changes nothing. */
  lemma {:induction false} CacheAfterCached(env: HandlerEnv, cache: map<string, RemoteLibs>, compilers: seq<Compiler>)
    requires forall i :: 0 <= i < |compilers| && HasRemote(compilers[i]) ==> RemoteKey(env, compilers[i]) in cache
    ensures CacheAfter(env, cache, compilers) == cache
    decreases |compilers|
  {
    if compilers != [] {
      var init := compilers[..|compilers| - 1];
      assert forall i :: 0 <= i < |init| ==> init[i] == compilers[i];
      CacheAfterCached(env, cache, init);
    }
  }

  /** Fetching is memoised: a second round over the same compilers fetches nothing. */
  lemma CacheAfterIdempotent(env: HandlerEnv, cache: map<string, RemoteLibs>, compilers: seq<Compiler>)
    ensures CacheAfter(env, CacheAfter(env, cache, compilers), compilers) == CacheAfter(env, cache, compilers)
  {
    CacheAfterSlots(env, cache, compilers);
    CacheAfterCached(env, CacheAfter(env, cache, compilers), compilers);
  }

  /** Line 457 throws unless every compiler that supports execution names a known language. */
  predicate ExecLangsKnown(languages: map<string, map<string, Value>>, compilers: seq<Compiler>) {
    forall i :: 0 <= i < |compilers| && SupportsExecute(compilers[i]) ==> LangKey(compilers[i]) in languages
  }

  /** Lines 451-453: every language's `supportsExecute` cleared. */
  function ResetFlags(languages: map<string, map<string, Value>>): map<string, map<string, Value>> {
    map l | l in languages :: languages[l]["supportsExecute" := Bool(false)]
  }

  /** A map with every flag cleared and the same keys is `ResetFlags`, and knows the same languages. */
  lemma ResetIsFlags(languages: map<string, map<string, Value>>, r: map<string, map<string, Value>>, compilers: seq<Compiler>)
    requires r.Keys == languages.Keys
    requires forall l :: l in r ==> r[l] == languages[l]["supportsExecute" := Bool(false)]
    ensures r == ResetFlags(languages)
    ensures ExecLangsKnown(languages, compilers) ==> ExecLangsKnown(r, compilers)
  {
  }

  /** Lines 456-458 for one compiler: its language marked when it supports execution. */
  function MarkOne(languages: map<string, map<string, Value>>, c: Compiler): (r: map<string, map<string, Value>>)
    requires SupportsExecute(c) ==> LangKey(c) in languages
    ensures r.Keys == languages.Keys
  {
    if SupportsExecute(c) then languages[LangKey(c) := languages[LangKey(c)]["supportsExecute" := Bool(true)]] else languages
  }

  /** Lines 455-458: the language of each compiler that supports execution marked, in list order. */
  function MarkExecutes(languages: map<string, map<string, Value>>, compilers: seq<Compiler>)
    : (r: map<string, map<string, Value>>)
    requires ExecLangsKnown(languages, compilers)
    ensures r.Keys == languages.Keys
    decreases |compilers|
  {
    if compilers == [] then languages
    else
      MarkOne(MarkExecutes(languages, compilers[..|compilers| - 1]), compilers[|compilers| - 1])
  }

  /** The languages as `setCompilers` leaves them. */
  function ExecuteFlags(languages: map<string, map<string, Value>>, compilers: seq<Compiler>)
    : map<string, map<string, Value>>
    requires ExecLangsKnown(languages, compilers)
  {
    MarkExecutes(ResetFlags(languages), compilers)
  }

  /** Marking sets a language's flag exactly when some compiler of it supports execution. */
  lemma {:induction false} MarkExecutesFlags(languages: map<string, map<string, Value>>, compilers: seq<Compiler>)
    requires ExecLangsKnown(languages, compilers)
    ensures forall l :: l in languages ==>
      MarkExecutes(languages, compilers)[l] ==
        if ExecutesIn(compilers, l) then languages[l]["supportsExecute" := Bool(true)] else languages[l]
    decreases |compilers|
  {
    if compilers != [] {
      var n := |compilers| - 1;
      var init := compilers[..n];
      assert forall i :: 0 <= i < n ==> init[i] == compilers[i];
      MarkExecutesFlags(languages, init);
      forall l | l in languages
        ensures ExecutesIn(compilers, l) <==> ExecutesIn(init, l) || (SupportsExecute(compilers[n]) && LangKey(compilers[n]) == l)
      {
        if ExecutesIn(compilers, l) {
          var i :| 0 <= i < |compilers| && SupportsExecute(compilers[i]) && LangKey(compilers[i]) == l;
          if i < n {
            assert init[i] == compilers[i];
          }
        }
      }
    }
  }

  /**
   * After `setCompilers` every language keeps its keys, and its
   * `supportsExecute` is true exactly when some new compiler of that language
   * supports execution; nothing else of the language changes.
   */
  lemma ExecuteFlagsIff(languages: map<string, map<string, Value>>, compilers: seq<Compiler>)
    requires ExecLangsKnown(languages, compilers)
    ensures ExecuteFlags(languages, compilers).Keys == languages.Keys
    ensures forall l :: l in languages ==>
      ExecuteFlags(languages, compilers)[l] == languages[l]["supportsExecute" := Bool(ExecutesIn(compilers, l))]
  {
    MarkExecutesFlags(ResetFlags(languages), compilers);
  }

  /** `options.compilers` as `setCompilers` publishes it. */
  function Published(compilers: seq<Compiler>, cmp: VersionCmp): (r: seq<Compiler>)
    ensures |r| == |compilers|
  {
    seq(|compilers|, i requires 0 <= i < |compilers| => PublishedAt(compilers, cmp, i))
  }

  /** Lines 478-491: the stripped copies with every semver group numbered, oldest first. */
  method PublishGroups(compilers: seq<Compiler>, cmp: VersionCmp, copied: seq<Compiler>,
                       groups: map<string, seq<Keyed<nat>>>)
    returns (published: seq<Compiler>)
    requires copied == StripAll(compilers)
    requires groups == PushedGroups(compilers)
    ensures published == Published(compilers, cmp)
  {
    StripAllAt(compilers);
    PushedGroupsMembers(compilers);
    published := NumberGroups(compilers, cmp, copied, groups);
  }

  /** The bundle after `setCompilers(compilers)`, given the bundle and the cache before it. */
  function AfterSetCompilers(env: HandlerEnv, options: Options, cache: map<string, RemoteLibs>, compilers: seq<Compiler>)
    : Options
    requires ExecLangsKnown(options.languages, compilers)
  {
    options.(
      compilers := Published(compilers, env.parse.versionCmp),
      languages := ExecuteFlags(options.languages, compilers),
      remoteLibs := CacheAfter(env, cache, compilers))
  }

  /**
   * Republishing the same compiler list gives the same bundle, so the same
   * JSON text and hash: the flags are recomputed from the list alone and
   * every remote is already cached.
   */
  lemma SetCompilersIdempotent(env: HandlerEnv, options: Options, cache: map<string, RemoteLibs>, compilers: seq<Compiler>)
    requires ExecLangsKnown(options.languages, compilers)
    ensures var once := AfterSetCompilers(env, options, cache, compilers);
      && ExecLangsKnown(once.languages, compilers)
      && AfterSetCompilers(env, once, once.remoteLibs, compilers) == once
  {
    var once := AfterSetCompilers(env, options, cache, compilers);
    ExecuteFlagsIff(options.languages, compilers);
    ExecuteFlagsIff(once.languages, compilers);
    CacheAfterIdempotent(env, cache, compilers);
    forall l | l in once.languages
      ensures ExecuteFlags(once.languages, compilers)[l] == once.languages[l]
    {
      var flag := Bool(ExecutesIn(compilers, l));
      assert once.languages[l] == options.languages[l]["supportsExecute" := flag];
      assert once.languages[l]["supportsExecute" := flag] == once.languages[l];
    }
    MapsAgree(ExecuteFlags(once.languages, compilers), once.languages);
  }

  /** The flag of every language, read from the store with a default of `dflt`. */
  function FlagPerLanguage(props: Props, languages: map<string, map<string, Value>>, key: string, dflt: bool)
    : map<string, bool>
  {
    map l | l in languages :: props.flag(l, key).GetOr(dflt)
  }

  /** `Object.values(m).some(Boolean)` */
  predicate AnyLanguage(m: map<string, bool>) {
    exists l :: l in m && m[l]
  }

  /** The per-language texts of `key`, as `compilerProps(languages, key)` returns them. */
  function TextPerLanguage(props: Props, languages: map<string, map<string, Value>>, key: string)
    : map<string, Option<string>>
  {
    map l | l in languages :: props.text(l, key)
  }

  /** Every compiler of `s` stripped, in order. */
  function StripAll(s: seq<Compiler>): (r: seq<Compiler>)
    ensures |r| == |s|
    decreases |s|
  {
    if s == [] then [] else StripAll(s[..|s| - 1]) + [Stripped(s[|s| - 1])]
  }

  lemma {:induction false} StripAllAt(s: seq<Compiler>)
    ensures forall j :: 0 <= j < |s| ==> StripAll(s)[j] == Stripped(s[j])
    decreases |s|
  {
    if s != [] {
      StripAllAt(s[..|s| - 1]);
    }
  }

  /** The deep copy with the compilers before `i` stripped. */
  ghost predicate StrippedUpTo(compilers: seq<Compiler>, copied: seq<Compiler>, i: nat) {
    i <= |compilers| && copied == StripAll(compilers[..i]) + compilers[i..]
  }

  /** Stripping compiler `i` moves the boundary by one. */
  lemma StripStep(compilers: seq<Compiler>, copied: seq<Compiler>, i: nat, stripped: Compiler)
    requires i < |compilers| && StrippedUpTo(compilers, copied, i) && stripped == Stripped(compilers[i])
    ensures copied[i] == compilers[i]
    ensures StrippedUpTo(compilers, copied[i := stripped], i + 1)
  {
    var p, q := compilers[..i], compilers[..i + 1];
    assert q[..i] == p;
    assert copied[i := stripped] == StripAll(q) + compilers[i + 1..];
  }

  /** The semver groups, as the loop has pushed them after the compilers `done`. */
  ghost predicate GroupsOf(done: seq<Compiler>, groups: map<string, seq<Keyed<nat>>>) {
    && (forall j :: 0 <= j < |done| && IsSemVer(done[j]) ==> GroupKey(done[j]) in groups)
    && (forall g :: g in groups ==> groups[g] == GroupMembers(done, g))
    && (forall g :: g !in groups ==> GroupMembers(done, g) == [])
  }

  /** Lines 459-463 over the compilers `done`: each semver compiler pushed onto its group. */
  function PushedGroups(done: seq<Compiler>): map<string, seq<Keyed<nat>>>
    decreases |done|
  {
    if done == [] then map[]
    else
      var groups := PushedGroups(done[..|done| - 1]);
      var c := done[|done| - 1];
      if IsSemVer(c) then
        var group := GroupKey(c);
        groups[group := (if group in groups then groups[group] else []) + [Keyed(|done| - 1, SemverKey(c))]]
      else groups
  }

  /** The groups pushed are the groups: each holds its semver compilers in list order. */
  lemma {:induction false} PushedGroupsMembers(done: seq<Compiler>)
    ensures GroupsOf(done, PushedGroups(done))
    decreases |done|
  {
    if done != [] {
      var init := done[..|done| - 1];
      PushedGroupsMembers(init);
      assert forall j :: 0 <= j < |init| ==> init[j] == done[j];
    }
  }

  /** Lines 459-463: push compiler `i` onto its group when it is semver. */
  method PushSemver(compilers: seq<Compiler>, i: nat, semverGroups: map<string, seq<Keyed<nat>>>)
    returns (r: map<string, seq<Keyed<nat>>>)
    requires i < |compilers| && semverGroups == PushedGroups(compilers[..i])
    ensures r == PushedGroups(compilers[..i + 1])
  {
    var p, q := compilers[..i], compilers[..i + 1];
    assert q[..i] == p;
    r := semverGroups;
    var compiler := compilers[i];
    if IsSemVer(compiler) {
      var group := GroupKey(compiler);
      if group !in r {
        r := r[group := []];
      }
      r := r[group := r[group] + [Keyed(i, SemverKey(compiler))]];
    }
  }

  /** Marking and fetching for the compilers up to `i + 1` is that for those up to `i`, then compiler `i`. */
  lemma PrefixStep(env: HandlerEnv, languages: map<string, map<string, Value>>, cache: map<string, RemoteLibs>,
                   compilers: seq<Compiler>, i: nat)
    requires i < |compilers| && ExecLangsKnown(languages, compilers)
    ensures ExecLangsKnown(languages, compilers[..i]) && ExecLangsKnown(languages, compilers[..i + 1])
    ensures MarkExecutes(languages, compilers[..i + 1]) == MarkOne(MarkExecutes(languages, compilers[..i]), compilers[i])
    ensures CacheAfter(env, cache, compilers[..i + 1]) == CacheOne(env, CacheAfter(env, cache, compilers[..i]), compilers[i])
  {
    var p, q := compilers[..i], compilers[..i + 1];
    assert q[..i] == p;
  }

  class ClientOptionsHandler {
    const env: HandlerEnv
    var supportsExecute: bool
    var remoteLibs: map<string, RemoteLibs>
    /** Whether `options.remoteLibs` is the very object `remoteLibs` (from line 489 on). */
    var remoteLibsShared: bool
    var options: Options
    var optionsJSON: string
    var optionsHash: string

    /** `options.remoteLibs` and `remoteLibs` are one object once shared. */
    ghost predicate Aliased()
      reads this
    {
      remoteLibsShared ==> options.remoteLibs == remoteLibs
    }

    /** The JSON text and the hash are those of the current bundle. */
    ghost predicate HashCurrent()
      reads this
    {
      optionsJSON == env.serialize(options) && optionsHash == env.hash(options, HashTag)
    }

    ghost predicate Valid()
      reads this
    {
      Aliased() && HashCurrent()
    }

    /**
     * Lines 149-229: the per-language flags and their summaries, both
     * catalogues, an empty cache and no compilers, then the hash.
     */
    constructor (env: HandlerEnv, languages: map<string, map<string, Value>>, settings: map<string, Value>)
      ensures Valid() && this.env == env
      ensures remoteLibs == map[] && !remoteLibsShared
      ensures options.compilers == [] && options.remoteLibs == map[]
      ensures options.libs == LibrariesSpec(env.parse, TextPerLanguage(env.parse.props, languages, "libs"))
      ensures options.tools == ToolsSpec(env.parse, TextPerLanguage(env.parse.props, languages, "tools"))
      ensures options.languages == languages && options.settings == settings
      ensures options.supportsBinary == FlagPerLanguage(env.parse.props, languages, "supportsBinary", true)
      ensures options.supportsBinaryObject == FlagPerLanguage(env.parse.props, languages, "supportsBinaryObject", true)
      ensures supportsExecute == options.supportsExecute
      ensures options.supportsExecute <==> AnyLanguage(FlagPerLanguage(env.parse.props, languages, "supportsExecute", true))
      ensures options.supportsLibraryCodeFilter <==>
        AnyLanguage(FlagPerLanguage(env.parse.props, languages, "supportsLibraryCodeFilter", false))
    {
      var props := env.parse.props;
      var supportsBinary := FlagPerLanguage(props, languages, "supportsBinary", true);
      var supportsBinaryObject := FlagPerLanguage(props, languages, "supportsBinaryObject", true);
      var supportsExecutePerLanguage := FlagPerLanguage(props, languages, "supportsExecute", true);
      var supportsLibraryCodeFilterPerLanguage := FlagPerLanguage(props, languages, "supportsLibraryCodeFilter", false);
      var libs := ParseLibraries(env.parse, TextPerLanguage(props, languages, "libs"));
      var tools := ParseTools(env.parse, TextPerLanguage(props, languages, "tools"));
      this.env := env;
      supportsExecute := AnyLanguage(supportsExecutePerLanguage);
      remoteLibs := map[];
      remoteLibsShared := false;
      options := Options(
        compilers := [],
        libs := libs,
        remoteLibs := map[],
        tools := tools,
        supportsBinary := supportsBinary,
        supportsBinaryObject := supportsBinaryObject,
        supportsExecute := AnyLanguage(supportsExecutePerLanguage),
        supportsLibraryCodeFilter := AnyLanguage(supportsLibraryCodeFilterPerLanguage),
        languages := languages,
        settings := settings);
      optionsJSON := "";
      optionsHash := "";
      new;
      UpdateOptionsHash();
    }

    /**
     * `getRemoteLibraries`: the peer is fetched only when its slot is empty, at
     * its `/api/libraries/<language>` endpoint (`getRemoteUrlForLibraries`),
     * the slot is always set afterwards, and the slot is returned. While the
     * cache is shared with the bundle, the bundle sees the new slot too.
     */
    method GetRemoteLibraries(language: string, remoteUrl: string)
      returns (libs: RemoteLibs, requested: Option<string>)
      requires Aliased()
      modifies this`remoteLibs, this`options
      ensures Aliased()
      ensures remoteLibs == CacheStep(env, old(remoteLibs), language, remoteUrl)
      ensures libs == remoteLibs[env.remoteId(remoteUrl, language)]
      ensures requested == if env.remoteId(remoteUrl, language) in old(remoteLibs) then None
                           else Some(env.urlJoin([remoteUrl, "/api/libraries", language]))
      ensures options == if remoteLibsShared then old(options).(remoteLibs := remoteLibs) else old(options)
      ensures optionsJSON == old(optionsJSON) && optionsHash == old(optionsHash)
      ensures old(HashCurrent()) && (!remoteLibsShared || env.remoteId(remoteUrl, language) in old(remoteLibs)) ==>
        HashCurrent()
      ensures remoteLibsShared && env.remoteId(remoteUrl, language) !in old(remoteLibs) ==> options != old(options)
    {
      var remoteId := env.remoteId(remoteUrl, language);
      requested := None;
      if remoteId !in remoteLibs {
        var url := env.urlJoin([remoteUrl, "/api/libraries", language]);
        requested := Some(url);
        var fetched := env.fetch(url);
        var slot: RemoteLibs := map[];
        if fetched.Some? {
          var parsed := LibArrayToObject(fetched.value);
          if parsed.Some? {
            slot := parsed.value;
          }
        }
        assert slot == CacheValue(fetched);
        remoteLibs := remoteLibs[remoteId := slot];
        if remoteLibsShared {
          options := options.(remoteLibs := remoteLibs);
        }
      }
      libs := remoteLibs[remoteId];
    }

    /** `fetchRemoteLibrariesIfNeeded`: `getRemoteLibraries` with the result dropped. */
    method FetchRemoteLibrariesIfNeeded(language: string, target: string)
      requires Aliased()
      modifies this`remoteLibs, this`options
      ensures Aliased()
      ensures remoteLibs == CacheStep(env, old(remoteLibs), language, target)
      ensures options == if remoteLibsShared then old(options).(remoteLibs := remoteLibs) else old(options)
      ensures old(HashCurrent()) && (!remoteLibsShared || env.remoteId(target, language) in old(remoteLibs)) ==>
        HashCurrent()
      ensures remoteLibsShared && env.remoteId(target, language) !in old(remoteLibs) ==> options != old(options)
    {
      var _, _ := GetRemoteLibraries(language, target);
    }

    /**
     * `setCompilers`: the bundle gets the new compilers without their
     * internal keys and with the semver `$order`s, the languages' execute
     * flags recomputed from the new list, and the shared cache after every
     * remote compiler's peer is fetched; then the hash is recomputed. The
     * top-level `supportsExecute` and everything else stay as they were.
     */
    method SetCompilers(compilers: seq<Compiler>)
      requires Aliased()
      requires ExecLangsKnown(options.languages, compilers)
      modifies this`remoteLibs, this`options, this`remoteLibsShared, this`optionsJSON, this`optionsHash
      ensures Valid() && remoteLibsShared
      ensures remoteLibs == CacheAfter(env, old(remoteLibs), compilers)
      ensures options == AfterSetCompilers(env, old(options), old(remoteLibs), compilers)
    {
      var languages := ResetSupportsExecute(options.languages);
      ResetIsFlags(options.languages, languages, compilers);
      options := options.(languages := languages);
      var copiedCompilers, semverGroups := ScanCompilers(compilers);
      var published := PublishGroups(compilers, env.parse.versionCmp, copiedCompilers, semverGroups);
      options := options.(compilers := published, remoteLibs := remoteLibs);
      remoteLibsShared := true;
      UpdateOptionsHash();
    }

    /**
     * Lines 455-477, the loop of `setCompilers` over the deep copy: mark the
     * languages that execute, push each semver compiler onto its group, fetch
     * each remote compiler's peer, and delete the internal keys.
     */
    method ScanCompilers(compilers: seq<Compiler>)
      returns (copiedCompilers: seq<Compiler>, semverGroups: map<string, seq<Keyed<nat>>>)
      requires Aliased()
      requires ExecLangsKnown(options.languages, compilers)
      modifies this`remoteLibs, this`options
      ensures Aliased()
      ensures copiedCompilers == StripAll(compilers)
      ensures semverGroups == PushedGroups(compilers)
      ensures remoteLibs == CacheAfter(env, old(remoteLibs), compilers)
      ensures options == old(options).(
        languages := MarkExecutes(old(options.languages), compilers),
        remoteLibs := if remoteLibsShared then remoteLibs else old(options.remoteLibs))
    {
      copiedCompilers := compilers;
      semverGroups := map[];
      for i := 0 to |compilers|
        invariant Scanned(compilers, i, old(options), old(remoteLibs))
        invariant StrippedUpTo(compilers, copiedCompilers, i)
        invariant semverGroups == PushedGroups(compilers[..i])
      {
        var compiler := copiedCompilers[i];
        StripStep(compilers, copiedCompilers, i, Stripped(compilers[i]));
        ScanOne(compilers, i, old(options), old(remoteLibs));
        semverGroups := PushSemver(compilers, i, semverGroups);
        var stripped := StripForbidden(compiler);
        copiedCompilers := copiedCompilers[i := stripped];
      }
      assert compilers[..|compilers|] == compilers;
    }

    /** The bundle and the cache once the compilers before `i` are marked and fetched, from `start` and `cache`. */
    ghost predicate Scanned(compilers: seq<Compiler>, i: nat, start: Options, cache: map<string, RemoteLibs>)
      reads this
    {
      && i <= |compilers|
      && Aliased()
      && ExecLangsKnown(start.languages, compilers)
      && remoteLibs == CacheAfter(env, cache, compilers[..i])
      && ExecLangsKnown(start.languages, compilers[..i])
      && options.languages == MarkExecutes(start.languages, compilers[..i])
      && options.remoteLibs == (if remoteLibsShared then remoteLibs else start.remoteLibs)
      && options.(languages := start.languages, remoteLibs := start.remoteLibs) == start
    }

    /** Lines 456-458 and 465-470 in the turn of the loop for compiler `i`. */
    method ScanOne(compilers: seq<Compiler>, i: nat, ghost start: Options, ghost cache: map<string, RemoteLibs>)
      requires i < |compilers| && Scanned(compilers, i, start, cache)
      modifies this`remoteLibs, this`options
      ensures Scanned(compilers, i + 1, start, cache)
    {
      PrefixStep(env, start.languages, cache, compilers, i);
      ghost var before := options;
      MarkAndFetch(compilers[i]);
      assert options.(languages := before.languages, remoteLibs := before.remoteLibs) == before;
    }

    /**
     * Lines 456-458 and 465-470 for one compiler: mark its language when it
     * supports execution, and fetch its peer's libraries when it is remote.
     */
    method MarkAndFetch(compiler: Compiler)
      requires Aliased()
      requires SupportsExecute(compiler) ==> LangKey(compiler) in options.languages
      modifies this`remoteLibs, this`options
      ensures Aliased()
      ensures remoteLibs == CacheOne(env, old(remoteLibs), compiler)
      ensures options == old(options).(
        languages := MarkOne(old(options.languages), compiler),
        remoteLibs := if remoteLibsShared then remoteLibs else old(options.remoteLibs))
    {
      if SupportsExecute(compiler) {
        var lang := LangKey(compiler);
        options := options.(languages := options.languages[lang := options.languages[lang]["supportsExecute" := Bool(true)]]);
      }
      if HasRemote(compiler) {
        FetchRemoteLibrariesIfNeeded(LangKey(compiler), GetFullRemoteUrl(RemoteOf(compiler)));
      }
    }

    /** `_updateOptionsHash`: the JSON text and hash of the bundle as it now is. */
    method UpdateOptionsHash()
      modifies this`optionsJSON, this`optionsHash
      ensures HashCurrent()
    {
      optionsJSON := env.serialize(options);
      optionsHash := env.hash(options, HashTag);
    }

    /** `get`: the bundle itself. */
    function Get(): (o: Options)
      reads this
      requires Aliased()
      ensures remoteLibsShared ==> o.remoteLibs == remoteLibs
    {
      options
    }

    /**
     * `getJSON`: the JSON text stored at the last rehash. It is the current
     * bundle's text only while the bundle has not changed since.
     */
    function GetJSON(): (json: string)
      reads this
      ensures json == optionsJSON
      ensures HashCurrent() ==> json == env.serialize(options)
    {
      optionsJSON
    }

    /**
     * `getHash`: the hash stored at the last rehash. It is the current
     * bundle's hash only while the bundle has not changed since.
     */
    function GetHash(): (h: string)
      reads this
      ensures h == optionsHash
      ensures HashCurrent() ==> h == env.hash(options, HashTag)
    {
      optionsHash
    }
  }
}
