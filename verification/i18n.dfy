/**
 * The language handling of src/utils/i18n.js around i18next: the
 * normalisation of a language value to a supported code, the language in
 * force, the bundles loaded at start and the table of one type read from a
 * bundle. The i18next calls themselves are not part of this model.
 */
module I18n {
  import opened Wrappers
  import opened JsonDoc
  import Translations

  /** `languageMapping`: old codes and where they point. */
  function Mapped(code: string): Option<string> {
    if code == "zh" || code == "zh-CN" then Some("zh-TW") else None
  }

  /**
   * The names every object literal inherits from `Object.prototype`; looking
   * one of them up in `languageMapping` finds a function or an object.
   */
  const InheritedNames: set<string> := {
    "constructor", "hasOwnProperty", "isPrototypeOf", "propertyIsEnumerable", "toLocaleString",
    "toString", "valueOf", "__proto__", "__defineGetter__", "__defineSetter__",
    "__lookupGetter__", "__lookupSetter__"}

  /** What `ensureSupportedLanguage` gives as written: a code, or an inherited member of `Object.prototype`. */
  datatype LanguageValue = Code(code: string) | BuiltIn(name: string)

  /**
   * `ensureSupportedLanguage` as written. A value that is neither falsy nor a
   * supported code is looked up in `languageMapping` under `String(value)`,
   * and the plain object literal answers the inherited names too.
   */
  function EnsureSupportedAsWritten(lang: Option<Json>): (r: LanguageValue)
    ensures r.BuiltIn? <==> Truthy(lang) && !(lang.value.JStr? && lang.value.s in Translations.Supported)
                            && StringOf(lang) in InheritedNames
  {
    if !Truthy(lang) then Code("en")
    else if lang.value.JStr? && lang.value.s in Translations.Supported then Code(lang.value.s)
    else if Mapped(StringOf(lang)).Some? then Code(Mapped(StringOf(lang)).value)
    else if StringOf(lang) in InheritedNames then BuiltIn(StringOf(lang))
    else Code("en")
  }

  /** As written, the language "constructor" comes back as the `Object` function, not as a code. */
  lemma InheritedNameEscapesAsWritten()
    ensures EnsureSupportedAsWritten(Some(JStr("constructor"))) == BuiltIn("constructor")
  {
    assert "constructor" !in Translations.Supported;
  }

  /**
   * `ensureSupportedLanguage` with the mapping consulted for its own entries
   * only: always a supported code; a supported code is kept, `zh` and `zh-CN`
   * become `zh-TW`, anything else (a falsy value included) becomes `en`.
   */
  function EnsureSupported(lang: Option<Json>): (code: string)
    ensures code in Translations.Supported
    ensures !Truthy(lang) ==> code == "en"
    ensures lang.Some? && lang.value.JStr? && lang.value.s in Translations.Supported ==> code == lang.value.s
    ensures Truthy(lang) && !(lang.value.JStr? && lang.value.s in Translations.Supported) ==>
      code == (if Mapped(StringOf(lang)).Some? then "zh-TW" else "en")
  {
    if !Truthy(lang) then "en"
    else if lang.value.JStr? && lang.value.s in Translations.Supported then lang.value.s
    else if Mapped(StringOf(lang)).Some? then Mapped(StringOf(lang)).value
    else "en"
  }

  /** Normalising twice is normalising once. */
  lemma EnsureSupportedIdempotent(lang: Option<Json>)
    ensures EnsureSupported(Some(JStr(EnsureSupported(lang)))) == EnsureSupported(lang)
  {
  }

  /** Away from the inherited names the code as written gives the same code. */
  lemma AsWrittenAgreesOnOwnNames(lang: Option<Json>)
    requires StringOf(lang) !in InheritedNames
    ensures EnsureSupportedAsWritten(lang) == Code(EnsureSupported(lang))
  {
  }

  /** A one-element array holding "zh" is looked up as the text "zh". */
  lemma ArrayOfOldCodeMapped()
    ensures EnsureSupported(Some(JArr([JStr("zh")]))) == "zh-TW"
  {
    assert StringOf(Some(JArr([JStr("zh")]))) == "zh";
  }

  /** `config.settings.language`, the object holding the configured codes. */
  function LanguageObject(config: Translations.LanguageConfig): Json {
    JObj(map["main" := JStr(config.main), "embeds" := JStr(config.embeds), "autoReply" := JStr(config.autoReply),
             "consoleLog" := JStr(config.consoleLog), "slashCmds" := JStr(config.slashCmds)])
  }

  /**
   * The initial language as written: the whole language object is
   * normalised, and an object is neither a supported code nor a mapped one.
   */
  function InitialLanguageAsWritten(config: Translations.LanguageConfig): LanguageValue {
    EnsureSupportedAsWritten(Some(LanguageObject(config)))
  }

  /** As written the bot starts in English whatever main language is configured. */
  lemma InitialLanguageAlwaysEnglishAsWritten(config: Translations.LanguageConfig)
    ensures InitialLanguageAsWritten(config) == Code("en")
  {
    assert StringOf(Some(LanguageObject(config))) == "[object Object]";
  }

  /** The initial language read from the configured main language. */
  function InitialLanguage(config: Translations.LanguageConfig): (code: string)
    ensures code in Translations.Supported
    ensures config.main in Translations.Supported ==> code == config.main
  {
    EnsureSupported(Member(Some(LanguageObject(config)), "main"))
  }

  /** German configured: English as written, German once the main language is read. */
  lemma GermanConfigured()
    ensures InitialLanguageAsWritten(Translations.LanguageConfig("de", "", "", "", "")) == Code("en")
    ensures InitialLanguage(Translations.LanguageConfig("de", "", "", "", "")) == "de"
  {
    InitialLanguageAlwaysEnglishAsWritten(Translations.LanguageConfig("de", "", "", "", ""));
  }

  /** `ensureSupportedLanguage(language || mainLanguage)`, the language of `getText` and `getTranslation`. */
  function LanguageToUse(language: Option<Json>, main: string): (code: string)
    requires main in Translations.Supported
    ensures code in Translations.Supported
    ensures !Truthy(language) ==> code == main
    ensures Truthy(language) ==> code == EnsureSupported(language)
  {
    EnsureSupported(Or(language, Some(JStr(main))))
  }

  /** The bundles of `langs` that have a parsed file, each under its code. */
  function Bundles(files: string -> Option<Json>, langs: seq<string>): (r: map<string, Json>)
    ensures forall l :: l in r <==> l in langs && files(l).Some?
    ensures forall l :: l in r ==> r[l] == files(l).value
    decreases |langs|
  {
    if langs == [] then map[]
    else
      var before := Bundles(files, langs[..|langs| - 1]);
      var lang := langs[|langs| - 1];
      assert forall l :: l in langs <==> l in langs[..|langs| - 1] || l == lang;
      if files(lang).Some? then before[lang := files(lang).value] else before
  }

  /** Each old code of `codes` given the bundle of the code it maps to, when that one is there. */
  function Aliased(m: map<string, Json>, codes: seq<string>): map<string, Json>
    decreases |codes|
  {
    if codes == [] then m
    else
      var before := Aliased(m, codes[..|codes| - 1]);
      var code := codes[|codes| - 1];
      if Mapped(code).Some? && Mapped(code).value in before then before[code := before[Mapped(code).value]] else before
  }

  const OldCodes: seq<string> := ["zh", "zh-CN"]

  /**
   * The `resources` object built at start: the parsed `translation.json` of
   * every supported language that has one, then `zh` and `zh-CN` sharing the
   * bundle of `zh-TW` when it loaded.
   */
  function Resources(files: string -> Option<Json>): (r: map<string, Json>)
    ensures forall l :: l in Translations.Supported ==> (l in r <==> files(l).Some?)
    ensures forall l :: l in Translations.Supported && l in r ==> r[l] == files(l).value
    ensures forall c :: Mapped(c).Some? ==> (c in r <==> "zh-TW" in r) && (c in r ==> r[c] == r["zh-TW"])
    ensures forall k :: k in r ==> k in Translations.Supported || Mapped(k).Some?
  {
    var loaded := Bundles(files, Translations.Supported);
    AliasedOldCodes(loaded);
    assert "zh" !in Translations.Supported && "zh-CN" !in Translations.Supported;
    Aliased(loaded, OldCodes)
  }

  /** Both old codes get the bundle of `zh-TW` when it is there; nothing else changes. */
  lemma AliasedOldCodes(m: map<string, Json>)
    ensures Aliased(m, OldCodes) == if "zh-TW" in m then m["zh" := m["zh-TW"]]["zh-CN" := m["zh-TW"]] else m
  {
    assert OldCodes[..1] == ["zh"] && OldCodes[..1][..0] == [];
    var first := Aliased(m, ["zh"]);
    assert ["zh"][..0] == [] && Aliased(m, []) == m && Mapped("zh") == Some("zh-TW");
    assert first == if "zh-TW" in m then m["zh" := m["zh-TW"]] else m;
    assert Aliased(m, OldCodes) == if "zh-TW" in first then first["zh-CN" := first["zh-TW"]] else first;
  }

  /** The language state of the module: `mainLanguage` and the loaded bundles. */
  class Languages {
    var mainLanguage: string
    var resources: map<string, Json>

    predicate Valid()
      reads this
    {
      mainLanguage in Translations.Supported
    }

    /** Module start, with the configured main language read. */
    constructor (config: Translations.LanguageConfig, files: string -> Option<Json>)
      ensures Valid()
      ensures mainLanguage == InitialLanguage(config)
      ensures resources == Resources(files)
    {
      mainLanguage := InitialLanguage(config);
      new;
      LoadResources(files);
    }

    /** The two `forEach` loops that fill `resources`. */
    method LoadResources(files: string -> Option<Json>)
      modifies this`resources
      ensures resources == Resources(files)
    {
      resources := map[];
      LoadBundles(files, Translations.Supported);
      AddAliases(OldCodes);
    }

    /** The first loop: the bundle of every language of `langs` that has a file. */
    method LoadBundles(files: string -> Option<Json>, langs: seq<string>)
      requires resources == map[]
      modifies this`resources
      ensures resources == Bundles(files, langs)
    {
      for i := 0 to |langs|
        invariant resources == Bundles(files, langs[..i])
      {
        assert langs[..i + 1][..i] == langs[..i];
        var lang := langs[i];
        if files(lang).Some? {
          resources := resources[lang := files(lang).value];
        }
      }
      assert langs[..|langs|] == langs;
    }

    /** The second loop: each old code given the bundle of the code it maps to. */
    method AddAliases(codes: seq<string>)
      modifies this`resources
      ensures resources == Aliased(old(resources), codes)
    {
      ghost var loaded := resources;
      for i := 0 to |codes|
        invariant resources == Aliased(loaded, codes[..i])
      {
        assert codes[..i + 1][..i] == codes[..i];
        var target := Mapped(codes[i]);
        if target.Some? && target.value in resources {
          resources := resources[codes[i] := resources[target.value]];
        }
      }
      assert codes[..|codes|] == codes;
    }

    /** `changeLanguage`: the normalised code is in force from now on; the answer is always `true`. */
    method ChangeLanguage(language: Option<Json>) returns (ok: bool)
      modifies this`mainLanguage
      ensures ok
      ensures mainLanguage == EnsureSupported(language)
      ensures Valid()
    {
      mainLanguage := EnsureSupported(language);
      ok := true;
    }

    /** `getTranslation(type, language)`: the type's table of the bundle, `{}` when it has none. */
    function Translation(kind: string, language: Option<Json>): (r: Json)
      reads this
      requires Valid()
      ensures Truthy(Some(r))
      ensures var lang := LanguageToUse(language, mainLanguage);
        lang in resources && Truthy(Member(Some(resources[lang]), kind)) ==> r == resources[lang].fields[kind]
      ensures var lang := LanguageToUse(language, mainLanguage);
        !(lang in resources && Truthy(Member(Some(resources[lang]), kind))) ==> r == JObj(map[])
    {
      var lang := LanguageToUse(language, mainLanguage);
      var bundle := if lang in resources then Some(resources[lang]) else None;
      if Truthy(bundle) && Truthy(Member(bundle, kind)) then Member(bundle, kind).value else JObj(map[])
    }
  }
}
