/**
 * The tool catalogue (`ClientOptionsHandler.parseTools`): for each language
 * with a non-empty `tools` list, the `:`-separated tool ids become a map from
 * id to tool, where a tool is kept only when its executable exists.
 */
module Tools {
  import opened Wrappers
  import opened JsValues
  import opened Properties

  /**
   * The description a tool is constructed from. `className` names the tool
   * class that `getToolTypeByKey` picks; the class itself is not part of
   * this model.
   */
  datatype ToolInfo = ToolInfo(
    id: string,
    className: Option<string>,
    name: Option<string>,
    toolType: Option<string>,
    exe: string,
    exclude: seq<string>,
    includeKey: Option<string>,
    options: seq<string>,
    args: Option<string>,
    languageId: Option<string>,
    stdinHint: Option<string>,
    monacoStdin: Option<string>,
    icon: Option<string>,
    darkIcon: Option<string>,
    compilerLanguage: string)

  /** The tool `tool` of language `lang`, whose executable is `exe`. */
  function MakeTool(env: ParseEnv, lang: string, tool: string, exe: string): ToolInfo {
    var text := env.props.text;
    ToolInfo(
      id := tool,
      className := text(lang, ToolKey(tool, "class")),
      name := text(lang, ToolKey(tool, "name")),
      toolType := text(lang, ToolKey(tool, "type")),
      exe := exe,
      exclude := SplitIntoArray(text(lang, ToolKey(tool, "exclude")), []),
      includeKey := text(lang, ToolKey(tool, "includeKey")),
      options := env.splitArguments(text(lang, ToolKey(tool, "options"))),
      args := text(lang, ToolKey(tool, "args")),
      languageId := text(lang, ToolKey(tool, "languageId")),
      stdinHint := text(lang, ToolKey(tool, "stdinHint")),
      monacoStdin := text(lang, ToolKey(tool, "monacoStdin")),
      icon := text(lang, ToolKey(tool, "icon")),
      darkIcon := text(lang, ToolKey(tool, "darkIcon")),
      compilerLanguage := lang)
  }

  /** Whether the executable of tool `tool` of `lang` is set and exists. */
  predicate ExeExists(env: ParseEnv, lang: string, tool: string) {
    var exe := env.props.text(lang, ToolKey(tool, "exe"));
    exe.Some? && env.fileExists(exe.value)
  }

  /** The tools `ids` of language `lang`: each one whose executable exists. */
  function LanguageTools(env: ParseEnv, lang: string, ids: seq<string>): map<string, ToolInfo>
    decreases |ids|
  {
    if ids == [] then map[]
    else
      var tool := ids[|ids| - 1];
      var tools := LanguageTools(env, lang, ids[..|ids| - 1]);
      if ExeExists(env, lang, tool) then
        tools[tool := MakeTool(env, lang, tool, env.props.text(lang, ToolKey(tool, "exe")).value)]
      else tools
  }

  /** The catalogue `language -> tool id -> tool`. */
  function ToolsSpec(env: ParseEnv, baseTools: map<string, Option<string>>): map<string, map<string, ToolInfo>> {
    map lang | lang in baseTools && Listed(baseTools, lang) ::
      LanguageTools(env, lang, Split(baseTools[lang].value, ':'))
  }

  /**
   * A tool is in a language's map exactly when it is listed and its
   * executable exists, and then it is the whole tool, never a partial one.
   */
  lemma {:induction false} LanguageToolsEntries(env: ParseEnv, lang: string, ids: seq<string>)
    ensures forall tool :: tool in LanguageTools(env, lang, ids) <==> tool in ids && ExeExists(env, lang, tool)
    ensures forall tool :: tool in LanguageTools(env, lang, ids) ==>
      ExeExists(env, lang, tool) &&
      LanguageTools(env, lang, ids)[tool] == MakeTool(env, lang, tool, env.props.text(lang, ToolKey(tool, "exe")).value)
    decreases |ids|
  {
    if ids != [] {
      LanguageToolsEntries(env, lang, ids[..|ids| - 1]);
      assert ids == ids[..|ids| - 1] + [ids[|ids| - 1]];
    }
  }

  /** Lines 234-272 for one language: each listed tool whose executable exists. */
  method ParseLanguageTools(env: ParseEnv, lang: string, forLang: string)
    returns (tools: map<string, ToolInfo>)
    ensures tools == LanguageTools(env, lang, Split(forLang, ':'))
  {
    tools := map[];
    var ids := Split(forLang, ':');
    for i := 0 to |ids|
      invariant tools == LanguageTools(env, lang, ids[..i])
    {
      var tool := ids[i];
      var toolPath := env.props.text(lang, ToolKey(tool, "exe"));
      assert ids[..i + 1][..i] == ids[..i];
      if toolPath.Some? && env.fileExists(toolPath.value) {
        tools := tools[tool := MakeTool(env, lang, tool, toolPath.value)];
      }
    }
    assert ids[..|ids|] == ids;
  }

  /** `parseTools`: every language with a non-empty tool list, with its tools. */
  method ParseTools(env: ParseEnv, baseTools: map<string, Option<string>>)
    returns (tools: map<string, map<string, ToolInfo>>)
    ensures tools == ToolsSpec(env, baseTools)
  {
    tools := map[];
    var langs := baseTools.Keys;
    while langs != {}
      invariant langs <= baseTools.Keys
      invariant forall lang :: Listed(baseTools, lang) && lang !in langs ==> lang in tools
      invariant forall lang :: lang in tools ==>
        (Listed(baseTools, lang) && lang !in langs && tools[lang] == LanguageTools(env, lang, Split(baseTools[lang].value, ':')))
      decreases |langs|
    {
      var lang :| lang in langs;
      var forLang := baseTools[lang];
      if lang != "" && Present(forLang) {
        var forLangTools := ParseLanguageTools(env, lang, forLang.value);
        tools := tools[lang := forLangTools];
      }
      langs := langs - {lang};
    }
    assert tools.Keys == ToolsSpec(env, baseTools).Keys;
  }

  /**
   * A language is in the tool catalogue exactly when its id and its tool list
   * are non-empty (even if none of its tools exists); a tool is in it exactly
   * when it is listed and its executable exists.
   */
  lemma ToolPresence(env: ParseEnv, baseTools: map<string, Option<string>>, lang: string, tool: string)
    ensures lang in ToolsSpec(env, baseTools) <==> Listed(baseTools, lang)
    ensures lang in ToolsSpec(env, baseTools) ==>
      (tool in ToolsSpec(env, baseTools)[lang] <==>
        tool in Split(baseTools[lang].value, ':') && ExeExists(env, lang, tool))
    ensures lang in ToolsSpec(env, baseTools) && tool in ToolsSpec(env, baseTools)[lang] ==>
      var t := ToolsSpec(env, baseTools)[lang][tool];
      && t.id == tool
      && t.compilerLanguage == lang
      && Some(t.exe) == env.props.text(lang, ToolKey(tool, "exe"))
      && t == MakeTool(env, lang, tool, t.exe)
  {
    if lang in ToolsSpec(env, baseTools) {
      LanguageToolsEntries(env, lang, Split(baseTools[lang].value, ':'));
    }
  }
}
