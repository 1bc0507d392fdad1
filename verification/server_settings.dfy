/**
 * The read-modify-write of `serverSettings` in data.json shared by the
 * `/setname` and `/setsite` commands (src/commands/setname.js and
 * src/commands/setsite.js): start from the parsed file or `{}`, create
 * `serverSettings` when it is falsy, set one field of it and write the whole
 * document back.
 */
module ServerSettings {
  import opened Wrappers
  import opened JsonDoc

  const SettingsKey := "serverSettings"

  /** The document the command starts from: the parsed file, or `{}` when reading or parsing fails. */
  function Start(read: FileRead): Top {
    if read.Loaded? && read.parsed.Some? then FromJson(read.parsed.value) else Object(map[])
  }

  /** `dataRead.serverSettings` after the "initialize if falsy" step, when that step does not throw. */
  function SettingsAfterInit(t: Top): Option<Json>
    requires t.Object? || t.Array?
  {
    var cur := Get(t, SettingsKey).value;
    if Truthy(cur) then cur else Some(JObj(map[]))
  }

  /**
   * The update goes through: the document is an object or an array (other
   * top-level values throw on the property access or assignment) and the
   * settings value it ends up with can take a property (a truthy primitive
   * cannot).
   */
  predicate Updatable(t: Top) {
    (t.Object? || t.Array?) && var s := SettingsAfterInit(t); s.value.JObj? || s.value.JArr?
  }

  /** An array in `serverSettings` takes the new field in memory only, so the written document is unchanged. */
  predicate HoldsArray(t: Top) {
    t.Object? && SettingsKey in t.props && t.props[SettingsKey].JArr?
  }

  /** `if (!dataRead.serverSettings) dataRead.serverSettings = {}; dataRead.serverSettings[field] = value;` */
  method Update(dataRead: Top, field: string, value: Json) returns (r: Result<Json>)
    ensures r.Ok? <==> Updatable(dataRead)
    ensures r.Ok? && dataRead.Array? ==> r.value == Serialize(dataRead)
    ensures r.Ok? && dataRead.Object? && !HoldsArray(dataRead) ==>
      r.value.JObj? && Member(Member(Some(r.value), SettingsKey), field) == Some(value)
    ensures r.Ok? && HoldsArray(dataRead) ==> r.value == Serialize(dataRead)
    ensures r.Ok? && dataRead.Object? ==>
      forall k :: k in dataRead.props && k != SettingsKey ==> k in r.value.fields && r.value.fields[k] == dataRead.props[k]
    ensures r.Ok? && dataRead.Object? && SettingsKey in dataRead.props && dataRead.props[SettingsKey].JObj? ==>
      r.value.fields[SettingsKey] == JObj(dataRead.props[SettingsKey].fields[field := value])
  {
    var t := dataRead;
    var current := Get(t, SettingsKey);
    if current.Err? {
      return Err(current.message);
    }
    if !Truthy(current.value) {
      var created := Set(t, SettingsKey, JObj(map[]));
      if created.Err? {
        return Err(created.message);
      }
      t := created.value;
    }
    var settings := Get(t, SettingsKey).value;
    assert settings == SettingsAfterInit(dataRead);
    var updated := SetMember(settings, field, value);
    if updated.Err? {
      return Err(updated.message);
    }
    // The settings object is shared with the document, so the document sees the new field.
    t := Set(t, SettingsKey, updated.value).value;
    r := Ok(Serialize(t));
  }

  /** A failed read yields a document holding only the new setting. */
  lemma FromNothing(field: string, value: Json)
    ensures Updatable(Start(ReadFailed))
    ensures SettingsAfterInit(Start(ReadFailed)) == Some(JObj(map[]))
  {
  }

  /** A `serverSettings` that is a non-empty string, a non-zero number or `true` makes the assignment throw. */
  lemma TruthyPrimitiveSettingsThrow(m: map<string, Json>)
    requires SettingsKey in m && Truthy(Some(m[SettingsKey]))
    requires !m[SettingsKey].JObj? && !m[SettingsKey].JArr?
    ensures !Updatable(Object(m))
  {
  }

  /** A falsy `serverSettings` (missing, `null`, `false`, 0 or "") is replaced by a fresh object. */
  lemma FalsySettingsReplaced(m: map<string, Json>)
    requires SettingsKey !in m || !Truthy(Some(m[SettingsKey]))
    ensures Updatable(Object(m)) && SettingsAfterInit(Object(m)) == Some(JObj(map[]))
  {
  }
}
