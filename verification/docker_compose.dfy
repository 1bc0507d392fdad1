/**
 * scripts/generate-docker-compose.js: the environment list of the first
 * service of the compose template is refreshed from the environment. Each
 * template entry `KEY=value` (or `KEY`) takes the environment's value of
 * `KEY` when that is non-empty, the per-type language variables are
 * dropped, and the application variables of the environment that the
 * template lacks are reported. Reading `.env`, parsing and dumping YAML and
 * the file system are not part of this model: the template arrives parsed,
 * the environment as its names in enumeration order and a map of values.
 */
module DockerCompose {
  import opened Wrappers
  import opened JsonDoc
  import Text
  import Seqs

  /** `appEnvPrefixes`. */
  const AppEnvPrefixes: seq<string> := ["DISCORD_", "MC_", "LANGUAGE_MAIN", "AUTO_CHANGE_STATUS", "UPDATE_INTERVAL",
                                        "ADMIN_ONLY", "PLAYER_", "IS_ONLINE_CHECK", "INVITE_LINK", "TIMEZONE", "NODE_ENV"]

  /** `excludedLanguageVars`: the per-type languages, of which only `LANGUAGE_MAIN` is kept. */
  const ExcludedLanguageVars: seq<string> := ["LANGUAGE_EMBEDS", "LANGUAGE_AUTO_REPLY", "LANGUAGE_CONSOLE_LOG",
                                              "LANGUAGE_SLASH_CMDS"]

  predicate HasAppPrefix(key: string) {
    exists i :: 0 <= i < |AppEnvPrefixes| && AppEnvPrefixes[i] <= key
  }

  /** `isAppEnvVar`: not an excluded language variable, and a listed prefix or one of three exact names. */
  predicate IsAppEnvVar(key: string) {
    if key in ExcludedLanguageVars then false
    else HasAppPrefix(key) || key in ["NODE_ENV", "TIMEZONE", "ADMIN_ONLY"]
  }

  /**
   * The three exact names are prefixes too, so the test comes down to
   * "a listed prefix and not excluded"; the excluded names all start with
   * `LANGUAGE_` but not with `LANGUAGE_MAIN`, so no prefix admits them.
   */
  lemma AppEnvVarIsPrefixed(key: string)
    ensures IsAppEnvVar(key) <==> HasAppPrefix(key) && key !in ExcludedLanguageVars
    ensures key in ExcludedLanguageVars ==> !HasAppPrefix(key)
  {
    if key == "NODE_ENV" {
      assert AppEnvPrefixes[10] <= key;
    } else if key == "TIMEZONE" {
      assert AppEnvPrefixes[9] <= key;
    } else if key == "ADMIN_ONLY" {
      assert AppEnvPrefixes[5] <= key;
    }
    if key in ExcludedLanguageVars {
      assert key[0] == 'L' && key[9] != 'M';
      forall i | 0 <= i < |AppEnvPrefixes| ensures !(AppEnvPrefixes[i] <= key) {
        if i == 2 {
          assert AppEnvPrefixes[i][9] == 'M';
        } else {
          assert AppEnvPrefixes[i][0] != 'L';
        }
      }
    }
  }

  /** Where the key part of an entry ends: its first `=`, or its end. */
  function KeyEnd(entry: string): (i: nat)
    ensures i <= |entry|
    ensures forall j :: 0 <= j < i ==> entry[j] != '='
    ensures i < |entry| ==> entry[i] == '='
  {
    if '=' in entry then Text.FirstIndexOf(entry, '=') else |entry|
  }

  /**
   * The entry matches `/^([^=]+)(?:=(.*))?$/`: at least one character before
   * the first `=` (or the end), and after that `=` nothing `.` cannot match.
   * Any shorter key part would leave a character that is neither `=` nor the
   * end, so the first `=` is the only place the optional group can start.
   */
  predicate Matches(entry: string) {
    var i := KeyEnd(entry);
    i > 0 && forall j :: i < j < |entry| ==> !Text.IsLineTerminator(entry[j])
  }

  /** `match[1].trim()` when the entry matches, `None` when it does not. */
  function EntryKey(entry: string): (key: Option<string>)
    ensures key.Some? <==> Matches(entry)
    ensures key.Some? ==> '=' !in key.value
  {
    if Matches(entry) then
      var raw := entry[..KeyEnd(entry)];
      Text.TrimAddsNothing(raw, '=');
      Some(Text.Trim(raw))
    else None
  }

  /** A bare name is its own key: `"KEY"` gives `KEY`. */
  lemma BareNameKey(key: string)
    requires key != [] && '=' !in key && Text.Trim(key) == key
    ensures EntryKey(key) == Some(key)
  {
    assert key[..|key|] == key;
  }

  /**
   * The key of `KEY=value` is `KEY`, whatever the value holds besides a line
   * terminator; with a line terminator in the value the entry does not match.
   */
  lemma AssignmentKey(key: string, value: string)
    requires key != [] && '=' !in key && Text.Trim(key) == key
    ensures (forall j :: 0 <= j < |value| ==> !Text.IsLineTerminator(value[j])) ==> EntryKey(key + "=" + value) == Some(key)
    ensures (exists j :: 0 <= j < |value| && Text.IsLineTerminator(value[j])) ==> EntryKey(key + "=" + value).None?
  {
    var e := key + "=" + value;
    assert forall j :: 0 <= j < |key| ==> e[j] == key[j];
    assert e[|key|] == '=';
    assert KeyEnd(e) == |key|;
    assert e[..|key|] == key;
    assert forall j :: 0 <= j < |value| ==> e[|key| + 1 + j] == value[j];
  }

  /** An entry starting with `=`, the empty entry included, does not match and has no key. */
  lemma LeadingEqualsNoKey(rest: string)
    ensures EntryKey("") == None
    ensures EntryKey("=" + rest) == None
  {
    assert ("=" + rest)[0] == '=';
  }

  /**
   * What one template entry becomes: nothing for an excluded language
   * variable, `KEY=<value>` when the environment's value of the key is
   * non-empty, the entry itself otherwise (a non-matching one included).
   */
  function MergedEntry(entry: string, env: map<string, string>): (r: Option<string>)
    ensures r.None? <==> EntryKey(entry).Some? && EntryKey(entry).value in ExcludedLanguageVars
    ensures EntryKey(entry).None? ==> r == Some(entry)
    ensures EntryKey(entry).Some? && EntryKey(entry).value !in ExcludedLanguageVars
            && EntryKey(entry).value in env && env[EntryKey(entry).value] != "" ==>
      r == Some(EntryKey(entry).value + "=" + env[EntryKey(entry).value])
    ensures EntryKey(entry).Some? && EntryKey(entry).value !in ExcludedLanguageVars
            && !(EntryKey(entry).value in env && env[EntryKey(entry).value] != "") ==>
      r == Some(entry)
  {
    match EntryKey(entry)
    case None => Some(entry)
    case Some(key) =>
      if key in ExcludedLanguageVars then None
      else if key in env && env[key] != "" then Some(key + "=" + env[key])
      else Some(entry)
  }

  /** The new environment list: the merged entries in template order. */
  function Merged(entries: seq<string>, env: map<string, string>): (r: seq<string>)
    ensures |r| <= |entries|
    decreases |entries|
  {
    if entries == [] then []
    else
      var before := Merged(entries[..|entries| - 1], env);
      match MergedEntry(entries[|entries| - 1], env)
      case None => before
      case Some(e) => before + [e]
  }

  /** Merging a template in two parts merges each part, in order. */
  lemma {:induction false} MergedAppend(a: seq<string>, b: seq<string>, env: map<string, string>)
    ensures Merged(a + b, env) == Merged(a, env) + Merged(b, env)
    decreases |b|
  {
    if b == [] {
      assert a + b == a;
    } else {
      var init := b[..|b| - 1];
      MergedAppend(a, init, env);
      assert (a + b)[..|a + b| - 1] == a + init;
      assert (a + b)[|a + b| - 1] == b[|b| - 1];
    }
  }

  /** A single entry merges into its merged form, or into nothing. */
  lemma MergedSingle(entry: string, env: map<string, string>)
    ensures Merged([entry], env) == (if MergedEntry(entry, env).Some? then [MergedEntry(entry, env).value] else [])
  {
    assert [entry][..0] == [];
  }

  /** The new list, one entry more: what the list before held, then the merged form of the entry, if any. */
  lemma MergedStep(entries: seq<string>, env: map<string, string>)
    requires entries != []
    ensures var m := MergedEntry(entries[|entries| - 1], env);
      Merged(entries, env) == Merged(entries[..|entries| - 1], env) + (if m.Some? then [m.value] else [])
  {
  }

  /** The values a list of options holds, in order. */
  function Present<T>(s: seq<Option<T>>): (r: seq<T>)
    ensures |r| <= |s|
  {
    if s == [] then []
    else Present(s[..|s| - 1]) + (if s[|s| - 1].Some? then [s[|s| - 1].value] else [])
  }

  /** Every value of the list of options is among the values it holds. */
  lemma {:induction false} PresentKeeps<T>(s: seq<Option<T>>)
    ensures forall j :: 0 <= j < |s| && s[j].Some? ==> s[j].value in Present(s)
  {
    if s != [] {
      var init := s[..|s| - 1];
      PresentKeeps(init);
      forall j | 0 <= j < |s| && s[j].Some? ensures s[j].value in Present(s) {
        if j < |init| {
          assert s[j] == init[j];
        }
      }
    }
  }

  /** The merged form of each template entry, kept or not. */
  function Forms(entries: seq<string>, env: map<string, string>): (r: seq<Option<string>>)
    ensures |r| == |entries|
    ensures forall j :: 0 <= j < |entries| ==> r[j] == MergedEntry(entries[j], env)
  {
    seq(|entries|, j requires 0 <= j < |entries| => MergedEntry(entries[j], env))
  }

  /** The new list is exactly the merged forms that are present. */
  lemma {:induction false} MergedIsPresent(entries: seq<string>, env: map<string, string>)
    ensures Merged(entries, env) == Present(Forms(entries, env))
    decreases |entries|
  {
    if entries != [] {
      var init := entries[..|entries| - 1];
      MergedIsPresent(init, env);
      var f := Forms(entries, env);
      assert f[..|f| - 1] == Forms(init, env);
    }
  }

  /** The merged form of every surviving template entry is in the new list. */
  lemma MergedKeepsSurvivors(entries: seq<string>, env: map<string, string>)
    ensures forall j :: 0 <= j < |entries| && MergedEntry(entries[j], env).Some? ==> MergedEntry(entries[j], env).value in Merged(entries, env)
  {
    MergedIsPresent(entries, env);
    var f := Forms(entries, env);
    PresentKeeps(f);
    forall j | 0 <= j < |entries| && MergedEntry(entries[j], env).Some?
      ensures MergedEntry(entries[j], env).value in Merged(entries, env)
    {
      assert f[j] == MergedEntry(entries[j], env);
    }
  }

  /** Every entry of the new list is the merged form of some template entry. */
  lemma {:induction false} MergedOnlySurvivors(entries: seq<string>, env: map<string, string>)
    ensures forall e :: e in Merged(entries, env) ==> exists j :: 0 <= j < |entries| && MergedEntry(entries[j], env) == Some(e)
    decreases |entries|
  {
    if entries != [] {
      var init := entries[..|entries| - 1];
      MergedOnlySurvivors(init, env);
      MergedStep(entries, env);
      forall e | e in Merged(entries, env)
        ensures exists j :: 0 <= j < |entries| && MergedEntry(entries[j], env) == Some(e)
      {
        if e in Merged(init, env) {
          var j :| 0 <= j < |init| && MergedEntry(init[j], env) == Some(e);
          assert entries[j] == init[j];
        } else {
          assert MergedEntry(entries[|entries| - 1], env) == Some(e);
        }
      }
    }
  }

  /** An entry that survives a merge survives a second one unchanged. */
  lemma MergedEntryStable(entry: string, env: map<string, string>)
    requires MergedEntry(entry, env).Some?
    ensures MergedEntry(MergedEntry(entry, env).value, env) == MergedEntry(entry, env)
  {
    var key := EntryKey(entry);
    if key.Some? && key.value in env && env[key.value] != "" {
      var k := key.value;
      var v := env[k];
      if k == [] {
        LeadingEqualsNoKey(v);
        assert k + "=" + v == "=" + v;
      } else {
        Text.TrimIdempotent(entry[..KeyEnd(entry)]);
        AssignmentKey(k, v);
      }
    }
  }

  /** Running the generator on its own output changes nothing more. */
  lemma {:induction false} MergeIdempotent(entries: seq<string>, env: map<string, string>)
    ensures Merged(Merged(entries, env), env) == Merged(entries, env)
    decreases |entries|
  {
    if entries != [] {
      var init := entries[..|entries| - 1];
      var last := entries[|entries| - 1];
      var before := Merged(init, env);
      MergeIdempotent(init, env);
      match MergedEntry(last, env)
      case None =>
      case Some(e) =>
        MergedEntryStable(last, env);
        var out := before + [e];
        assert out[..|out| - 1] == before;
    }
  }

  /** A surviving entry's key, when it has one, is not an excluded language variable. */
  lemma {:induction false} MergedDropsExcluded(entries: seq<string>, env: map<string, string>)
    ensures forall e :: e in Merged(entries, env) && EntryKey(e).Some? ==> EntryKey(e).value !in ExcludedLanguageVars
    decreases |entries|
  {
    if entries != [] {
      var last := entries[|entries| - 1];
      MergedDropsExcluded(entries[..|entries| - 1], env);
      if MergedEntry(last, env).Some? {
        MergedEntryStable(last, env);
      }
    }
  }

  /**
   * Every entry of the new list whose key has a non-empty value in the
   * environment carries exactly that value.
   */
  lemma {:induction false} MergedCarriesEnvironment(entries: seq<string>, env: map<string, string>)
    ensures forall e :: (e in Merged(entries, env) && EntryKey(e).Some? && EntryKey(e).value in env
                         && env[EntryKey(e).value] != "") ==> e == EntryKey(e).value + "=" + env[EntryKey(e).value]
    decreases |entries|
  {
    if entries != [] {
      var last := entries[|entries| - 1];
      MergedCarriesEnvironment(entries[..|entries| - 1], env);
      if MergedEntry(last, env).Some? {
        MergedEntryStable(last, env);
      }
    }
  }

  /** An empty environment leaves a template without excluded entries as it is. */
  lemma {:induction false} EmptyEnvironmentKeepsTemplate(entries: seq<string>)
    requires forall j :: 0 <= j < |entries| ==> MergedEntry(entries[j], map[]).Some?
    ensures Merged(entries, map[]) == entries
    decreases |entries|
  {
    if entries != [] {
      var init := entries[..|entries| - 1];
      var last := entries[|entries| - 1];
      forall j | 0 <= j < |init| ensures MergedEntry(init[j], map[]).Some? {
        assert init[j] == entries[j];
      }
      EmptyEnvironmentKeepsTemplate(init);
      assert MergedEntry(last, map[]) == Some(last);
      assert entries == init + [last];
    }
  }

  /** The keys of the template's matching entries: the `dockerComposeKeys` set. */
  function TemplateKeys(entries: seq<string>): (keys: set<string>)
    ensures forall e :: e in entries && EntryKey(e).Some? ==> EntryKey(e).value in keys
    ensures forall k :: k in keys ==> exists e :: e in entries && EntryKey(e) == Some(k)
    decreases |entries|
  {
    if entries == [] then {}
    else
      var init := entries[..|entries| - 1];
      var last := entries[|entries| - 1];
      assert forall e :: e in entries ==> e in init || e == last;
      var before := TemplateKeys(init);
      if EntryKey(last).Some? then before + {EntryKey(last).value} else before
  }

  /** The application variables of the environment that the template lacks, in enumeration order. */
  function Missing(names: seq<string>, keys: set<string>): (missing: seq<string>)
    ensures forall k :: k in missing <==> k in names && IsAppEnvVar(k) && k !in keys
    ensures Seqs.Subsequence(missing, names)
    decreases |names|
  {
    if names == [] then []
    else
      var init := names[..|names| - 1];
      var last := names[|names| - 1];
      assert forall k :: k in names <==> k in init || k == last;
      var before := Missing(init, keys);
      if IsAppEnvVar(last) && last !in keys then
        assert (before + [last])[..|before|] == before;
        before + [last]
      else before
  }

  /** The first loop: every matching entry's key added to the set. */
  method CollectKeys(entries: seq<string>) returns (keys: set<string>)
    ensures keys == TemplateKeys(entries)
  {
    keys := {};
    for i := 0 to |entries|
      invariant keys == TemplateKeys(entries[..i])
    {
      assert entries[..i + 1][..i] == entries[..i];
      var key := EntryKey(entries[i]);
      if key.Some? {
        keys := keys + {key.value};
      }
    }
    assert entries[..|entries|] == entries;
  }

  /** The second loop, over the environment's names. */
  method MissingKeys(names: seq<string>, keys: set<string>) returns (missing: seq<string>)
    ensures missing == Missing(names, keys)
  {
    missing := [];
    for i := 0 to |names|
      invariant missing == Missing(names[..i], keys)
    {
      assert names[..i + 1][..i] == names[..i];
      var key := names[i];
      if IsAppEnvVar(key) && key !in keys {
        missing := missing + [key];
      }
    }
    assert names[..|names|] == names;
  }

  /** The third loop, building `newEnvVars`. */
  method NewEnvironment(entries: seq<string>, env: map<string, string>) returns (out: seq<string>)
    ensures out == Merged(entries, env)
  {
    out := [];
    for i := 0 to |entries|
      invariant out == Merged(entries[..i], env)
    {
      assert entries[..i + 1][..i] == entries[..i];
      var entry := entries[i];
      var key := EntryKey(entry);
      if key.Some? {
        if key.value in ExcludedLanguageVars {
          continue;
        }
        if key.value in env && env[key.value] != "" {
          out := out + [key.value + "=" + env[key.value]];
        } else {
          out := out + [entry];
        }
      } else {
        out := out + [entry];
      }
    }
    assert entries[..|entries|] == entries;
  }

  /** A service of the template: its name, its `environment` list (`None` when missing or not a list) and the rest. */
  datatype Service = Service(name: string, environment: Option<seq<string>>, settings: map<string, Json>)

  /** The parsed template: its services in key order (`None` when there is no `services` mapping) and the rest. */
  datatype Compose = Compose(services: Option<seq<Service>>, rest: map<string, Json>)

  /** What a run produces: the document to write and the reported missing keys. */
  datatype Generated = Generated(compose: Compose, missing: seq<string>)

  /** The template can be worked on: a first service exists and has an environment list. */
  predicate Workable(compose: Compose) {
    compose.services.Some? && compose.services.value != [] && compose.services.value[0].environment.Some?
  }

  /**
   * The body of the script's `try`. Without a first service or without its
   * environment list a property read (or `for ... of`) throws, and the
   * script exits with status 1. Otherwise only the first service's
   * environment is replaced.
   */
  method Generate(compose: Compose, names: seq<string>, env: map<string, string>) returns (r: Result<Generated>)
    ensures r.Err? <==> !Workable(compose)
    ensures r.Ok? ==> var template := compose.services.value[0].environment.value;
      && r.value.missing == Missing(names, TemplateKeys(template))
      && r.value.compose.rest == compose.rest
      && r.value.compose.services.Some?
      && |r.value.compose.services.value| == |compose.services.value|
      && r.value.compose.services.value[0] == compose.services.value[0].(environment := Some(Merged(template, env)))
      && r.value.compose.services.value[1..] == compose.services.value[1..]
  {
    if compose.services.None? {
      return Err("Cannot convert undefined or null to object");
    }
    if compose.services.value == [] {
      return Err("Cannot read properties of undefined (reading 'environment')");
    }
    var service := compose.services.value[0];
    if service.environment.None? {
      return Err("envVarsInExample is not iterable");
    }
    var template := service.environment.value;
    var keys := CollectKeys(template);
    var missing := MissingKeys(names, keys);
    var newEnvVars := NewEnvironment(template, env);
    var services := [service.(environment := Some(newEnvVars))] + compose.services.value[1..];
    return Ok(Generated(compose.(services := Some(services)), missing));
  }

  /** Each excluded name is a key of its own: non-empty, without `=`, and trimmed. */
  lemma ExcludedNameIsKey(name: string)
    requires name in ExcludedLanguageVars
    ensures name != [] && '=' !in name && Text.Trim(name) == name
  {
    assert name[0] == 'L' && 'A' <= name[|name| - 1] <= 'Y';
    assert forall i :: 0 <= i < |name| ==> 'A' <= name[i] <= 'Z' || name[i] == '_';
    Text.TrimmedWhenEdgesSolid(name);
  }

  /** An excluded language variable's entry never reaches the output, even when the environment sets it. */
  lemma ExcludedLanguageDropped(entries: seq<string>, name: string, value: string, env: map<string, string>)
    requires name in ExcludedLanguageVars
    requires forall j :: 0 <= j < |value| ==> !Text.IsLineTerminator(value[j])
    ensures Merged(entries + [name + "=" + value], env) == Merged(entries, env)
  {
    ExcludedNameIsKey(name);
    AssignmentKey(name, value);
    var e := name + "=" + value;
    assert MergedEntry(e, env) == None;
    assert (entries + [name + "=" + value])[..|entries|] == entries;
  }
}
