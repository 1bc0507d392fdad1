/**
 * The translation cache of src/utils/translationManager.js: the language
 * chosen for each kind of text, the tables loaded from
 * `translation/<language>/<type>.json5` with their English and built-in
 * fallbacks, the lookup of a table, the dotted-path lookup of a text and
 * the `{key}` substitution in it.
 */
module Translations {
  import opened Wrappers
  import opened JsonDoc
  import Text
  import LegacyBotStatus

  const Supported: seq<string> := ["en", "es", "de", "fr", "pt", "ru", "uk", "zh-TW"]
  const Types: seq<string> := ["console-log", "embeds", "slash-cmds", "auto-reply", "bot-status"]

  /** `config.settings.language`; an unset entry is "". */
  datatype LanguageConfig = LanguageConfig(main: string, embeds: string, autoReply: string, consoleLog: string, slashCmds: string)

  /** The language chosen for each kind of text. */
  datatype Languages = Languages(main: string, embeds: string, autoReply: string, consoleLog: string, slashCmds: string)

  /** The cache: language, then type, then the parsed file. */
  type Tables = map<string, map<string, Json>>

  /**
   * What reading `translation/<language>/<type>.json5` and handing it to
   * `json5.parse` gives; `None` when either throws.
   */
  type Files = (string, string) -> Option<Json>

  /** The main language: the configured one when it is supported, English otherwise. */
  function MainLanguage(main: string): (lang: string)
    ensures lang in Supported
    ensures main in Supported ==> lang == main
    ensures main !in Supported ==> lang == "en"
  {
    var configured := if main != "" then main else "en";
    if configured in Supported then configured else "en"
  }

  /** `configured || fallback`. */
  function OrElse(configured: string, fallback: string): (lang: string)
    ensures lang != "" ==> lang == configured || lang == fallback
  {
    if configured != "" then configured else fallback
  }

  /** `loadLanguageSettings`: each kind of text falls back to the main language; only the main language is checked. */
  function Chosen(config: LanguageConfig): (ls: Languages)
    ensures ls.main in Supported
    ensures config.embeds == "" ==> ls.embeds == ls.main
    ensures config.autoReply == "" ==> ls.autoReply == ls.main
    ensures config.consoleLog == "" ==> ls.consoleLog == ls.main
    ensures config.slashCmds == "" ==> ls.slashCmds == ls.main
  {
    var main := MainLanguage(config.main);
    Languages(main, OrElse(config.embeds, main), OrElse(config.autoReply, main),
              OrElse(config.consoleLog, main), OrElse(config.slashCmds, main))
  }

  /** `[...new Set(list)]`: each element once, at its first occurrence. */
  function Distinct(s: seq<string>): (r: seq<string>)
    ensures forall x :: x in r <==> x in s
    ensures forall i, j :: 0 <= i < j < |r| ==> r[i] != r[j]
    ensures s != [] ==> r != [] && r[0] == s[0]
    decreases |s|
  {
    if s == [] then []
    else
      var d := Distinct(s[..|s| - 1]);
      assert forall x :: x in s <==> x in s[..|s| - 1] || x == s[|s| - 1];
      if s[|s| - 1] in d then d else d + [s[|s| - 1]]
  }

  /** `usedLanguages`: the main language first, then the other chosen languages not seen before. */
  function Used(ls: Languages): seq<string> {
    Distinct([ls.main, ls.embeds, ls.autoReply, ls.consoleLog, ls.slashCmds])
  }

  /** Every chosen language is loaded, the main one first. */
  lemma UsedCoversChosen(ls: Languages)
    ensures Used(ls)[0] == ls.main
    ensures forall l :: l in Used(ls) <==> l in [ls.main, ls.embeds, ls.autoReply, ls.consoleLog, ls.slashCmds]
  {
  }

  /** With nothing but a main language configured, only that language is loaded. */
  lemma MainOnlyUsed(main: string)
    ensures Used(Chosen(LanguageConfig(main, "", "", "", ""))) == [MainLanguage(main)]
  {
    var m := MainLanguage(main);
    var s := [m, m, m, m, m];
    assert s[..4] == [m, m, m, m] && [m, m, m, m][..3] == [m, m, m];
    assert [m, m, m][..2] == [m, m] && [m, m][..1] == [m] && [m][..0] == [];
    assert Distinct([m]) == [m];
    assert Distinct([m, m]) == [m];
    assert Distinct([m, m, m]) == [m];
    assert Distinct([m, m, m, m]) == [m];
  }

  /** `getDefaultTranslation`: built-in tables for the presence and console texts, an empty object for the rest. */
  function DefaultTranslation(kind: string): (j: Json)
    ensures j.JObj?
  {
    if kind == "bot-status" then
      JObj(map[
        "botStatus" := JObj(map["online" := JStr("Playing with {playeronline}/{playermax} players"),
                                "offline" := JStr("Server is offline")]),
        "playerCount" := JObj(map["online" := JStr("🟢 {playeronline}/{playermax} active players"),
                                  "offline" := JStr("⚫ Server offline")])])
    else if kind == "console-log" then
      JObj(map[
        "error" := JObj(map["playerEmbed" := JStr("An error occurred while creating Player List Embeds Message."),
                            "statusEmbed" := JStr("An error occurred while creating Status Embeds Message.")]),
        "checkErrorConfig" := JObj(map["checkConfigWait" := JStr("Checking for Errors in the config.js file. Please wait."),
                                       "followingErrors" := JStr("Config file has the following errors:")])])
    else JObj(map[])
  }

  /** The entry of `language` for `kind`, `undefined` when either is absent. */
  function Entry(t: Tables, language: string, kind: string): Option<Json> {
    if language in t && kind in t[language] then Some(t[language][kind]) else None
  }

  /** The entry is there and truthy. */
  predicate Usable(t: Tables, language: string, kind: string) {
    Truthy(Entry(t, language, kind))
  }

  /**
   * One step of `initTranslations`, for `language` and `kind`: the parsed
   * file; failing that, for English the built-in table, for any other
   * language the English entry, replaced by the built-in table first when it
   * is not usable. English's table is created when it does not exist yet.
   */
  function LoadOne(t: Tables, language: string, kind: string, files: Files): (r: Tables)
    requires language in t
    ensures language in r && kind in r[language]
    ensures forall l :: l in t ==> l in r && t[l].Keys <= r[l].Keys
  {
    match files(language, kind)
    case Some(j) => t[language := t[language][kind := j]]
    case None =>
      if language == "en" then t[language := t[language][kind := DefaultTranslation(kind)]]
      else
        var english := if "en" in t then t["en"] else map[];
        var v := if Usable(t, "en", kind) then t["en"][kind] else DefaultTranslation(kind);
        var t1 := t["en" := english[kind := v]];
        t1[language := t1[language][kind := v]]
  }

  /** The types of `types` loaded for `language`, in order. */
  function LoadTypes(t: Tables, language: string, types: seq<string>, files: Files): (r: Tables)
    requires language in t
    ensures language in r
    ensures forall l :: l in t ==> l in r && t[l].Keys <= r[l].Keys
    ensures forall ty :: ty in types ==> ty in r[language]
    decreases |types|
  {
    if types == [] then t
    else
      var before := LoadTypes(t, language, types[..|types| - 1], files);
      assert forall ty :: ty in types ==> ty in types[..|types| - 1] || ty == types[|types| - 1];
      LoadOne(before, language, types[|types| - 1], files)
  }

  /** `initTranslations` over `languages`: each gets a fresh table holding every kind. */
  function LoadLanguages(t: Tables, languages: seq<string>, files: Files): (r: Tables)
    ensures forall l :: l in t ==> l in r
    ensures forall l, ty :: l in languages && ty in Types ==> l in r && ty in r[l]
    decreases |languages|
  {
    if languages == [] then t
    else
      var language := languages[|languages| - 1];
      var before := LoadLanguages(t, languages[..|languages| - 1], files);
      assert forall l :: l in languages ==> l in languages[..|languages| - 1] || l == language;
      LoadTypes(before[language := map[]], language, Types, files)
  }

  /** One more language loaded: a fresh table for it, filled with every type. */
  lemma LoadLanguagesStep(t: Tables, languages: seq<string>, i: nat, files: Files)
    requires i < |languages|
    ensures LoadLanguages(t, languages[..i + 1], files)
         == LoadTypes(LoadLanguages(t, languages[..i], files)[languages[i] := map[]], languages[i], Types, files)
  {
    assert languages[..i + 1][..i] == languages[..i];
  }

  /** Where an entry can come from: its own file, the English file of its kind, or the built-in table. */
  predicate Sourced(v: Json, language: string, kind: string, files: Files) {
    files(language, kind) == Some(v) || files("en", kind) == Some(v) || v == DefaultTranslation(kind)
  }

  predicate AllSourced(t: Tables, files: Files) {
    forall l, ty :: l in t && ty in t[l] ==> Sourced(t[l][ty], l, ty, files)
  }

  /** Putting a sourced entry into a table of sourced entries keeps every entry sourced. */
  lemma StoreSourced(t: Tables, language: string, base: map<string, Json>, kind: string, v: Json, files: Files)
    requires AllSourced(t, files)
    requires forall ty :: ty in base ==> Sourced(base[ty], language, ty, files)
    requires Sourced(v, language, kind, files)
    ensures AllSourced(t[language := base[kind := v]], files)
  {
  }

  lemma LoadOneSourced(t: Tables, language: string, kind: string, files: Files)
    requires language in t && AllSourced(t, files)
    ensures AllSourced(LoadOne(t, language, kind, files), files)
  {
    match files(language, kind)
    case Some(j) =>
      StoreSourced(t, language, t[language], kind, j, files);
    case None =>
      if language == "en" {
        StoreSourced(t, language, t[language], kind, DefaultTranslation(kind), files);
      } else {
        var english := if "en" in t then t["en"] else map[];
        var v := if Usable(t, "en", kind) then t["en"][kind] else DefaultTranslation(kind);
        StoreSourced(t, "en", english, kind, v, files);
        var t1 := t["en" := english[kind := v]];
        StoreSourced(t1, language, t1[language], kind, v, files);
      }
  }

  lemma {:induction false} LoadTypesSourced(t: Tables, language: string, types: seq<string>, files: Files)
    requires language in t && AllSourced(t, files)
    ensures AllSourced(LoadTypes(t, language, types, files), files)
    decreases |types|
  {
    if types != [] {
      LoadTypesSourced(t, language, types[..|types| - 1], files);
      LoadOneSourced(LoadTypes(t, language, types[..|types| - 1], files), language, types[|types| - 1], files);
    }
  }

  lemma {:induction false} LoadLanguagesSourced(t: Tables, languages: seq<string>, files: Files)
    requires AllSourced(t, files)
    ensures AllSourced(LoadLanguages(t, languages, files), files)
    decreases |languages|
  {
    if languages != [] {
      var language := languages[|languages| - 1];
      LoadLanguagesSourced(t, languages[..|languages| - 1], files);
      var before := LoadLanguages(t, languages[..|languages| - 1], files);
      LoadTypesSourced(before[language := map[]], language, Types, files);
    }
  }

  /**
   * After loading from an empty cache, every entry is its own file, the
   * English file of its kind, or the built-in table.
   */
  lemma LoadedFromFilesOrDefaults(languages: seq<string>, files: Files)
    ensures AllSourced(LoadLanguages(map[], languages, files), files)
  {
    LoadLanguagesSourced(map[], languages, files);
  }

  /** The entry holds what the file of its language and kind holds. */
  predicate HoldsFile(t: Tables, language: string, kind: string, files: Files) {
    files(language, kind).Some? && Entry(t, language, kind) == files(language, kind)
  }

  /**
   * A file that later steps cannot displace: any file of a language other
   * than English, and a truthy English one (a falsy English entry is
   * replaced by the built-in table when another language falls back on it).
   */
  predicate Lasting(language: string, kind: string, files: Files) {
    files(language, kind).Some? && (language != "en" || Truthy(files(language, kind)))
  }

  lemma LoadOneKeepsFile(t: Tables, language: string, kind: string, files: Files, l: string, ty: string)
    requires language in t
    requires Lasting(l, ty, files) && HoldsFile(t, l, ty, files)
    ensures HoldsFile(LoadOne(t, language, kind, files), l, ty, files)
  {
  }

  lemma {:induction false} LoadTypesKeepsFile(t: Tables, language: string, types: seq<string>, files: Files, l: string, ty: string)
    requires language in t
    requires Lasting(l, ty, files) && HoldsFile(t, l, ty, files)
    ensures HoldsFile(LoadTypes(t, language, types, files), l, ty, files)
    decreases |types|
  {
    if types != [] {
      LoadTypesKeepsFile(t, language, types[..|types| - 1], files, l, ty);
      LoadOneKeepsFile(LoadTypes(t, language, types[..|types| - 1], files), language, types[|types| - 1], files, l, ty);
    }
  }

  lemma {:induction false} LoadTypesLoadsFile(t: Tables, language: string, types: seq<string>, files: Files, ty: string)
    requires language in t && ty in types && Lasting(language, ty, files)
    ensures HoldsFile(LoadTypes(t, language, types, files), language, ty, files)
    decreases |types|
  {
    var last := types[|types| - 1];
    var before := LoadTypes(t, language, types[..|types| - 1], files);
    if ty == last {
      assert HoldsFile(LoadOne(before, language, last, files), language, ty, files);
    } else {
      assert ty in types[..|types| - 1];
      LoadTypesLoadsFile(t, language, types[..|types| - 1], files, ty);
      LoadOneKeepsFile(before, language, last, files, language, ty);
    }
  }

  /**
   * Every language loaded holds its own file for every kind that has one
   * (a falsy English file aside), whatever was loaded after it.
   */
  lemma {:induction false} LoadLanguagesKeepsFiles(t: Tables, languages: seq<string>, files: Files, l: string, ty: string)
    requires l in languages && ty in Types && Lasting(l, ty, files)
    ensures HoldsFile(LoadLanguages(t, languages, files), l, ty, files)
    decreases |languages|
  {
    var language := languages[|languages| - 1];
    var before := LoadLanguages(t, languages[..|languages| - 1], files);
    if l == language {
      LoadTypesLoadsFile(before[language := map[]], language, Types, files, ty);
    } else {
      assert l in languages[..|languages| - 1];
      LoadLanguagesKeepsFiles(t, languages[..|languages| - 1], files, l, ty);
      LoadTypesKeepsFile(before[language := map[]], language, Types, files, l, ty);
    }
  }

  /**
   * The step as written: when a language other than English has no file
   * and English's table does not exist yet, reading `translations['en'][type]`
   * throws inside the `catch` block, and the error leaves the constructor.
   */
  function LoadOneAsWritten(t: Tables, language: string, kind: string, files: Files): (r: Result<Tables>)
    requires language in t
    ensures r.Ok? ==> r.value == LoadOne(t, language, kind, files)
  {
    if files(language, kind).None? && language != "en" && "en" !in t then
      Err("Cannot read properties of undefined (reading '" + kind + "')")
    else Ok(LoadOne(t, language, kind, files))
  }

  function LoadTypesAsWritten(t: Tables, language: string, types: seq<string>, files: Files): (r: Result<Tables>)
    requires language in t
    ensures r.Ok? ==> r.value == LoadTypes(t, language, types, files)
    decreases |types|
  {
    if types == [] then Ok(t)
    else
      match LoadTypesAsWritten(t, language, types[..|types| - 1], files)
      case Err(e) => Err(e)
      case Ok(before) => LoadOneAsWritten(before, language, types[|types| - 1], files)
  }

  function LoadLanguagesAsWritten(t: Tables, languages: seq<string>, files: Files): (r: Result<Tables>)
    ensures r.Ok? ==> r.value == LoadLanguages(t, languages, files)
    decreases |languages|
  {
    if languages == [] then Ok(t)
    else
      var language := languages[|languages| - 1];
      match LoadLanguagesAsWritten(t, languages[..|languages| - 1], files)
      case Err(e) => Err(e)
      case Ok(before) => LoadTypesAsWritten(before[language := map[]], language, Types, files)
  }

  /** Once one kind has thrown, the rest of the language's types are never reached: the error is the whole outcome. */
  lemma {:induction false} ThrowEndsLoading(t: Tables, language: string, types: seq<string>, files: Files, k: nat)
    requires language in t && k <= |types|
    requires LoadTypesAsWritten(t, language, types[..k], files).Err?
    ensures LoadTypesAsWritten(t, language, types, files) == LoadTypesAsWritten(t, language, types[..k], files)
    decreases |types| - k
  {
    if k < |types| {
      assert types[..k + 1][..k] == types[..k];
      ThrowEndsLoading(t, language, types, files, k + 1);
    } else {
      assert types[..k] == types;
    }
  }

  /** Once one language has thrown, the languages after it are never loaded: the error is the whole outcome. */
  lemma {:induction false} ThrowEndsLanguages(t: Tables, languages: seq<string>, files: Files, k: nat)
    requires k <= |languages|
    requires LoadLanguagesAsWritten(t, languages[..k], files).Err?
    ensures LoadLanguagesAsWritten(t, languages, files) == LoadLanguagesAsWritten(t, languages[..k], files)
    decreases |languages| - k
  {
    if k < |languages| {
      assert languages[..k + 1][..k] == languages[..k];
      ThrowEndsLanguages(t, languages, files, k + 1);
    } else {
      assert languages[..k] == languages;
    }
  }

  /**
   * As written, a main language other than English whose console texts are
   * missing makes the constructor throw: English's table does not exist yet
   * when the fallback reads it.
   */
  lemma MainLanguageWithoutFileThrowsAsWritten(main: string, files: Files)
    requires main in Supported && main != "en"
    requires files(main, "console-log").None?
    ensures LoadLanguagesAsWritten(map[], Used(Chosen(LanguageConfig(main, "", "", "", ""))), files).Err?
  {
    MainOnlyUsed(main);
    FirstKindMissingThrows(map[main := map[]], main, files);
    assert [main][..0] == [];
  }

  /** Without English's table, a language missing the first type's file throws as written. */
  lemma FirstKindMissingThrows(t: Tables, language: string, files: Files)
    requires language in t && language != "en" && "en" !in t
    requires files(language, Types[0]).None?
    ensures LoadTypesAsWritten(t, language, Types, files).Err?
  {
    assert Types[..1] == [Types[0]];
    assert Types[..1][..0] == [];
    assert LoadTypesAsWritten(t, language, Types[..1], files).Err?;
    ThrowEndsLoading(t, language, Types, files, 1);
  }

  /** When English's table exists from the start, or English is loaded first, the code as written never throws and loads what the corrected step loads. */
  lemma {:induction false} EnglishPresentAgrees(t: Tables, language: string, types: seq<string>, files: Files)
    requires language in t && "en" in t
    ensures LoadTypesAsWritten(t, language, types, files) == Ok(LoadTypes(t, language, types, files))
    decreases |types|
  {
    if types != [] {
      EnglishPresentAgrees(t, language, types[..|types| - 1], files);
    }
  }

  lemma {:induction false} EnglishFirstAgrees(t: Tables, languages: seq<string>, files: Files)
    requires "en" in t || (languages != [] && languages[0] == "en")
    ensures LoadLanguagesAsWritten(t, languages, files) == Ok(LoadLanguages(t, languages, files))
    decreases |languages|
  {
    if languages != [] {
      var language := languages[|languages| - 1];
      var prefix := languages[..|languages| - 1];
      if prefix == [] {
        assert language == "en" || "en" in t;
      } else {
        assert prefix[0] == languages[0];
        EnglishFirstAgrees(t, prefix, files);
        if "en" !in t {
          assert "en" in prefix && "console-log" in Types;
        }
      }
      var before := LoadLanguages(t, prefix, files);
      assert "en" in before[language := map[]];
      EnglishPresentAgrees(before[language := map[]], language, Types, files);
    }
  }

  /** The language whose table a kind is read from when none is asked for. */
  function TypeLanguage(ls: Languages, kind: string): string {
    if kind == "embeds" then ls.embeds
    else if kind == "auto-reply" then ls.autoReply
    else if kind == "console-log" then ls.consoleLog
    else if kind == "slash-cmds" then ls.slashCmds
    else ls.main
  }

  /** The language `getTranslation` starts from: an asked-for language if supported (English if not), else the kind's own. */
  function Asked(ls: Languages, kind: string, language: string): string {
    if language != "" then (if language in Supported then language else "en")
    else TypeLanguage(ls, kind)
  }

  /**
   * `getTranslation(type, language)`, `language` "" for none. A language
   * without a table is read as English; a missing English table makes the
   * fallback read throw, which the `catch` answers with the built-in table.
   */
  function Translation(t: Tables, ls: Languages, kind: string, language: string): (r: Json)
    ensures Truthy(Some(r))
    ensures var lang := if Asked(ls, kind, language) in t then Asked(ls, kind, language) else "en";
      (Usable(t, lang, kind) ==> r == t[lang][kind])
      && (!Usable(t, lang, kind) && Usable(t, "en", kind) ==> r == t["en"][kind])
      && (!Usable(t, lang, kind) && !Usable(t, "en", kind) ==> r == DefaultTranslation(kind))
  {
    var asked := Asked(ls, kind, language);
    var lang := if asked in t then asked else "en";
    if lang !in t then DefaultTranslation(kind)
    else if !Truthy(Entry(t, lang, kind)) then
      if "en" !in t then DefaultTranslation(kind)
      else if Truthy(Entry(t, "en", kind)) then t["en"][kind]
      else DefaultTranslation(kind)
    else t[lang][kind]
  }

  /** An unsupported language asked for by name is read exactly as English. */
  lemma UnsupportedReadAsEnglish(t: Tables, ls: Languages, kind: string, language: string)
    requires language != "" && language !in Supported
    ensures Translation(t, ls, kind, language) == Translation(t, ls, kind, "en")
  {
  }

  /**
   * `path.split('.')` followed step by step: `None` as soon as the value so
   * far is falsy or lacks the next key.
   */
  function Resolve(v: Option<Json>, parts: seq<string>): (r: Option<Json>)
    ensures parts != [] && r.Some? ==> Truthy(Resolve(v, parts[..|parts| - 1]))
    decreases |parts|
  {
    if parts == [] then v
    else
      var before := Resolve(v, parts[..|parts| - 1]);
      if Truthy(before) && Member(before, parts[|parts| - 1]).Some? then Member(before, parts[|parts| - 1]) else None
  }

  /** Once a step is missing, the whole path is. */
  lemma {:induction false} MissingStaysMissing(v: Option<Json>, parts: seq<string>, k: nat)
    requires 0 < k <= |parts| && Resolve(v, parts[..k]) == None
    ensures Resolve(v, parts) == None
    decreases |parts| - k
  {
    if k < |parts| {
      assert parts[..k + 1][..k] == parts[..k];
      MissingStaysMissing(v, parts, k + 1);
    } else {
      assert parts[..k] == parts;
    }
  }

  /**
   * `replaceVariables`: for each entry in order, every `{key}` and then every
   * `{KEY}` (the key upper-cased) is replaced by its value, matching case.
   */
  function Replaced(text: string, reps: seq<Text.Replacement>): string
    decreases |reps|
  {
    if reps == [] then text
    else
      var last := reps[|reps| - 1];
      var once := Text.ReplaceAll(Replaced(text, reps[..|reps| - 1]), "{" + last.key + "}", last.value, false);
      Text.ReplaceAll(once, "{" + Text.Upper(last.key) + "}", last.value, false)
  }

  /** A text without `{` is returned as it is. */
  lemma {:induction false} BracelessTextKept(text: string, reps: seq<Text.Replacement>)
    requires '{' !in text
    ensures Replaced(text, reps) == text
    decreases |reps|
  {
    if reps != [] {
      var last := reps[|reps| - 1];
      BracelessTextKept(text, reps[..|reps| - 1]);
      Text.AbsentFirstChar(text, "{" + last.key + "}");
      Text.ReplaceAllWithoutMatch(text, "{" + last.key + "}", last.value, false);
      Text.AbsentFirstChar(text, "{" + Text.Upper(last.key) + "}");
      Text.ReplaceAllWithoutMatch(text, "{" + Text.Upper(last.key) + "}", last.value, false);
    }
  }

  /**
   * A variable whose value shares no character with its placeholders is
   * filled in everywhere, in both spellings.
   */
  lemma VariableFilledEverywhere(text: string, key: string, value: string)
    requires value != []
    requires forall c :: c in value ==> c !in "{" + key + "}" && c !in "{" + Text.Upper(key) + "}"
    ensures !Text.Contains(Replaced(text, [Text.Replacement(key, value)]), "{" + key + "}")
    ensures !Text.Contains(Replaced(text, [Text.Replacement(key, value)]), "{" + Text.Upper(key) + "}")
  {
    var lower, upper := "{" + key + "}", "{" + Text.Upper(key) + "}";
    assert [Text.Replacement(key, value)][..0] == [];
    var once := Text.ReplaceAll(text, lower, value, false);
    Text.ReplaceAllLeavesNoMatch(text, lower, value, lower);
    Text.ReplaceAllLeavesNoMatch(once, upper, value, lower);
    Text.ReplaceAllLeavesNoMatch(once, upper, value, upper);
  }

  /**
   * `getText(type, path, replacements, language)`: the text at the dotted
   * path; at a missing step, unless English was asked for, the English text
   * at the same path if it is a string, and otherwise the path itself, which
   * still goes through the substitution. A value that is not a string gives
   * the path untouched.
   */
  function TextOf(t: Tables, ls: Languages, kind: string, path: string, reps: seq<Text.Replacement>, language: string): string {
    var parts := Text.SplitOn(path, '.');
    var found := Resolve(Some(Translation(t, ls, kind, language)), parts);
    var result :=
      if found.Some? then found.value
      else if language != "en" && "en" in t then
        var english := Resolve(Entry(t, "en", kind), parts);
        if english.Some? && english.value.JStr? then english.value else JStr(path)
      else JStr(path);
    if result.JStr? then Replaced(result.s, reps) else path
  }

  /** A string found at the path is the answer, its variables filled in. */
  lemma FoundText(t: Tables, ls: Languages, kind: string, path: string, reps: seq<Text.Replacement>, language: string, s: string)
    requires Resolve(Some(Translation(t, ls, kind, language)), Text.SplitOn(path, '.')) == Some(JStr(s))
    ensures TextOf(t, ls, kind, path, reps, language) == Replaced(s, reps)
  {
  }

  /** A missing path falls back to the English string at the same path. */
  lemma MissingTextFromEnglish(t: Tables, ls: Languages, kind: string, path: string, reps: seq<Text.Replacement>, language: string, s: string)
    requires Resolve(Some(Translation(t, ls, kind, language)), Text.SplitOn(path, '.')) == None
    requires language != "en" && "en" in t
    requires Resolve(Entry(t, "en", kind), Text.SplitOn(path, '.')) == Some(JStr(s))
    ensures TextOf(t, ls, kind, path, reps, language) == Replaced(s, reps)
  {
  }

  /** A path leading to a nested object or another non-string gives the path back, unsubstituted. */
  lemma NonStringGivesPath(t: Tables, ls: Languages, kind: string, path: string, reps: seq<Text.Replacement>, language: string)
    requires Resolve(Some(Translation(t, ls, kind, language)), Text.SplitOn(path, '.')).Some?
    requires !Resolve(Some(Translation(t, ls, kind, language)), Text.SplitOn(path, '.')).value.JStr?
    ensures TextOf(t, ls, kind, path, reps, language) == path
  {
  }

  /** The built-in presence texts are the ones the older presence handler falls back on. */
  lemma DefaultPresenceTexts()
    ensures Resolve(Some(DefaultTranslation("bot-status")), ["botStatus", "online"]) == Some(JStr(LegacyBotStatus.DefaultOnline))
    ensures Resolve(Some(DefaultTranslation("bot-status")), ["botStatus", "offline"]) == Some(JStr(LegacyBotStatus.DefaultOffline))
  {
    var d := Some(DefaultTranslation("bot-status"));
    assert ["botStatus", "online"][..1] == ["botStatus"];
    assert ["botStatus", "offline"][..1] == ["botStatus"];
    assert ["botStatus"][..0] == [];
  }

  /** The translation manager singleton. */
  class TranslationManager {
    var mainLanguage: string
    var embedsLanguage: string
    var autoReplyLanguage: string
    var consoleLogLanguage: string
    var slashCmdsLanguage: string
    var usedLanguages: seq<string>
    var translations: Tables

    /** The languages chosen at load time. */
    function Settings(): Languages
      reads this`mainLanguage, this`embedsLanguage, this`autoReplyLanguage, this`consoleLogLanguage, this`slashCmdsLanguage
    {
      Languages(mainLanguage, embedsLanguage, autoReplyLanguage, consoleLogLanguage, slashCmdsLanguage)
    }

    /**
     * The first part of `new TranslationManager()`: the language settings and
     * an empty cache. `Create` runs the rest.
     */
    constructor (config: LanguageConfig)
      ensures Settings() == Chosen(config)
      ensures usedLanguages == Used(Settings())
      ensures translations == map[]
    {
      translations := map[];
      new;
      LoadLanguageSettings(config);
    }

    /**
     * The module-level `new TranslationManager()`: the settings, then
     * `initTranslations`. When the loading throws, the construction throws
     * and no manager is exported; otherwise the manager holds the tables
     * loaded from nothing.
     */
    static method Create(config: LanguageConfig, files: Files) returns (m: TranslationManager, error: Option<string>)
      ensures fresh(m)
      ensures m.Settings() == Chosen(config)
      ensures m.usedLanguages == Used(m.Settings())
      ensures error.None? ==> LoadLanguagesAsWritten(map[], m.usedLanguages, files) == Ok(m.translations)
      ensures error.Some? ==> LoadLanguagesAsWritten(map[], m.usedLanguages, files) == Err(error.value)
      ensures error.None? ==> m.translations == LoadLanguages(map[], m.usedLanguages, files)
    {
      m := new TranslationManager(config);
      error := m.InitTranslations(files);
    }

    /** `loadLanguageSettings`. */
    method LoadLanguageSettings(config: LanguageConfig)
      modifies this`mainLanguage, this`embedsLanguage, this`autoReplyLanguage, this`consoleLogLanguage,
               this`slashCmdsLanguage, this`usedLanguages
      ensures Settings() == Chosen(config)
      ensures usedLanguages == Used(Settings())
    {
      mainLanguage := if config.main != "" then config.main else "en";
      if mainLanguage !in Supported {
        mainLanguage := "en";
      }
      embedsLanguage := if config.embeds != "" then config.embeds else mainLanguage;
      autoReplyLanguage := if config.autoReply != "" then config.autoReply else mainLanguage;
      consoleLogLanguage := if config.consoleLog != "" then config.consoleLog else mainLanguage;
      slashCmdsLanguage := if config.slashCmds != "" then config.slashCmds else mainLanguage;
      usedLanguages := Distinct([mainLanguage, embedsLanguage, autoReplyLanguage, consoleLogLanguage, slashCmdsLanguage]);
    }

    /**
     * `initTranslations`: every used language gets a fresh table with every
     * kind, until a step throws; the error then leaves the method.
     */
    method InitTranslations(files: Files) returns (error: Option<string>)
      modifies this`translations
      ensures error.None? ==> LoadLanguagesAsWritten(old(translations), usedLanguages, files) == Ok(translations)
      ensures error.Some? ==> LoadLanguagesAsWritten(old(translations), usedLanguages, files) == Err(error.value)
    {
      for i := 0 to |usedLanguages|
        invariant LoadLanguagesAsWritten(old(translations), usedLanguages[..i], files) == Ok(translations)
      {
        var language := usedLanguages[i];
        assert usedLanguages[..i + 1][..i] == usedLanguages[..i];
        translations := translations[language := map[]];
        error := LoadKinds(language, Types, files);
        if error.Some? {
          ThrowEndsLanguages(old(translations), usedLanguages, files, i + 1);
          return;
        }
      }
      assert usedLanguages[..|usedLanguages|] == usedLanguages;
      error := None;
    }

    /** The inner `forEach`, over the types `kinds` of one language, until a step throws. */
    method LoadKinds(language: string, kinds: seq<string>, files: Files) returns (error: Option<string>)
      requires language in translations
      modifies this`translations
      ensures error.None? ==> LoadTypesAsWritten(old(translations), language, kinds, files) == Ok(translations)
      ensures error.Some? ==> LoadTypesAsWritten(old(translations), language, kinds, files) == Err(error.value)
    {
      ghost var start := translations;
      for j := 0 to |kinds|
        invariant language in translations
        invariant LoadTypesAsWritten(start, language, kinds[..j], files) == Ok(translations)
      {
        assert kinds[..j + 1][..j] == kinds[..j];
        error := LoadStep(language, kinds[j], files);
        if error.Some? {
          ThrowEndsLoading(start, language, kinds, files, j + 1);
          return;
        }
      }
      assert kinds[..|kinds|] == kinds;
      error := None;
    }

    /**
     * The body of the inner `forEach`: one type of one language, inside its
     * `try`/`catch`. A language other than English without the file reads
     * English's entry, which throws when English has no table yet; nothing
     * has been stored by then.
     */
    method LoadStep(language: string, kind: string, files: Files) returns (error: Option<string>)
      requires language in translations
      modifies this`translations
      ensures error.None? ==> LoadOneAsWritten(old(translations), language, kind, files) == Ok(translations)
      ensures error.Some? ==> LoadOneAsWritten(old(translations), language, kind, files) == Err(error.value)
      ensures error.Some? ==> translations == old(translations)
    {
      error := None;
      var loaded := files(language, kind);
      if loaded.Some? {
        translations := translations[language := translations[language][kind := loaded.value]];
      } else if language == "en" {
        translations := translations[language := translations[language][kind := DefaultTranslation(kind)]];
      } else if "en" !in translations {
        error := Some("Cannot read properties of undefined (reading '" + kind + "')");
      } else {
        ghost var english := translations["en"];
        ghost var v := if Usable(translations, "en", kind) then translations["en"][kind] else DefaultTranslation(kind);
        if !Truthy(Entry(translations, "en", kind)) {
          translations := translations["en" := translations["en"][kind := DefaultTranslation(kind)]];
        } else {
          assert english[kind := v] == english;
        }
        assert translations == old(translations)["en" := english[kind := v]];
        translations := translations[language := translations[language][kind := translations["en"][kind]]];
      }
    }

    /**
     * `reloadTranslations`: the settings read again and the cache rebuilt
     * from empty, with the same loading, which can throw as at start-up.
     */
    method ReloadTranslations(config: LanguageConfig, files: Files) returns (error: Option<string>)
      modifies this
      ensures Settings() == Chosen(config)
      ensures usedLanguages == Used(Settings())
      ensures error.None? ==> LoadLanguagesAsWritten(map[], usedLanguages, files) == Ok(translations)
      ensures error.Some? ==> LoadLanguagesAsWritten(map[], usedLanguages, files) == Err(error.value)
      ensures error.None? ==> translations == LoadLanguages(map[], usedLanguages, files)
    {
      LoadLanguageSettings(config);
      translations := map[];
      error := InitTranslations(files);
    }

    /** `getText`: the dotted-path walk, then the English walk at a missing step. */
    method GetText(kind: string, path: string, reps: seq<Text.Replacement>, language: string) returns (text: string)
      ensures text == TextOf(translations, Settings(), kind, path, reps, language)
    {
      var translation := Translation(translations, Settings(), kind, language);
      var parts := Text.SplitOn(path, '.');
      var result: Json;
      var found := Walk(Some(translation), parts);
      if found.Some? {
        result := found.value;
      } else if language != "en" && "en" in translations {
        var english := Walk(Entry(translations, "en", kind), parts);
        if english.Some? && english.value.JStr? {
          result := english.value;
        } else {
          result := JStr(path);
        }
      } else {
        result := JStr(path);
      }
      if !result.JStr? {
        return path;
      }
      text := ReplaceVariables(result.s, reps);
    }

    /** The walk along the path parts, stopping at the first missing one. */
    static method Walk(start: Option<Json>, parts: seq<string>) returns (r: Option<Json>)
      ensures r == Resolve(start, parts)
    {
      r := start;
      for i := 0 to |parts|
        invariant r == Resolve(start, parts[..i])
      {
        assert parts[..i + 1][..i] == parts[..i];
        if Truthy(r) && Member(r, parts[i]).Some? {
          r := Member(r, parts[i]);
        } else {
          MissingStaysMissing(start, parts, i + 1);
          return None;
        }
      }
      assert parts[..|parts|] == parts;
    }

    /** `replaceVariables`. */
    static method ReplaceVariables(text: string, reps: seq<Text.Replacement>) returns (result: string)
      ensures result == Replaced(text, reps)
    {
      result := text;
      for i := 0 to |reps|
        invariant result == Replaced(text, reps[..i])
      {
        assert reps[..i + 1][..i] == reps[..i];
        result := Text.ReplaceAll(result, "{" + reps[i].key + "}", reps[i].value, false);
        result := Text.ReplaceAll(result, "{" + Text.Upper(reps[i].key) + "}", reps[i].value, false);
      }
      assert reps[..|reps|] == reps;
    }
  }
}
