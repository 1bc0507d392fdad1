/**
 * The player-count channel of src/events/clientReady/playerCountCH.js: a
 * channel whose name shows the server's player count, renamed only when the
 * text changes, and a `playerCountStats` entry in data.json created at start
 * and stamped on every tick.
 */
module PlayerCount {
  import opened Wrappers
  import opened JsonDoc
  import Text
  import ServerData
  import opened Counts

  const StatsKey := "playerCountStats"
  const ListKey := "autoChangeStatus"

  /** The `mcserver` block of the configuration. */
  datatype McServer = McServer(ip: string, port: int, kind: string, name: string)

  /** The server a tick asks about; values from a data.json record may be of any JSON type, or missing. */
  datatype Target = Target(ip: Option<Json>, port: Option<Json>, kind: Option<Json>, name: Option<Json>)

  /** The translated texts; `online` has already been through the translation service's own substitution. */
  datatype Texts = Texts(notConfigured: string, online: string, error: string, offline: string)

  function ConfigTarget(mc: McServer): Target {
    Target(Some(JStr(mc.ip)), Some(JNum(mc.port)), Some(JStr(mc.kind)), Some(JStr(mc.name)))
  }

  /**
   * The server source: the first tracked record of data.json when the list is
   * non-empty (type defaulting to java, name to the address), the configured
   * server otherwise, and also when the file cannot be read or parsed.
   */
  function TargetFor(read: FileRead, mc: McServer): (t: Target)
    ensures read.ReadFailed? || read.parsed.None? ==> t == ConfigTarget(mc)
  {
    if read.ReadFailed? || read.parsed.None? then ConfigTarget(mc)
    else
      var list := Get(FromJson(read.parsed.value), ListKey);
      if list.Err? then ConfigTarget(mc)
      else match FirstRecord(list.value)
        case None => ConfigTarget(mc)
        case Some(r) =>
          var rec := Some(r);
          Target(Member(rec, "ip"), Member(rec, "port"), Or(Member(rec, "type"), Some(JStr("java"))),
                 Or(Member(rec, "name"), Member(rec, "ip")))
  }

  /** A data.json whose list starts with an object record takes that record's server. */
  lemma TargetFromFirstRecord(content: string, m: map<string, Json>, mc: McServer)
    requires ListKey in m && m[ListKey].JArr? && m[ListKey].items != [] && m[ListKey].items[0].JObj?
    ensures var r := Some(m[ListKey].items[0]);
      TargetFor(Loaded(content, Some(JObj(m))), mc)
        == Target(Member(r, "ip"), Member(r, "port"), Or(Member(r, "type"), Some(JStr("java"))), Or(Member(r, "name"), Member(r, "ip")))
  {
  }

  lemma TargetFromEmptyList(content: string, m: map<string, Json>, mc: McServer)
    requires ListKey !in m || m[ListKey] == JArr([])
    ensures TargetFor(Loaded(content, Some(JObj(m))), mc) == ConfigTarget(mc)
  {
  }

  /** `🟢 ${online}/${max} Players Online`. */
  function FallbackName(online: int, max: int): string {
    "\U{1F7E2} " + Text.IntToString(online) + "/" + Text.IntToString(max) + " Players Online"
  }

  /** The online name: both count placeholders filled, falling back to a fixed text if either survives. */
  function OnlineName(template: string, online: int, max: int): (r: string)
    ensures !Text.Contains(r, OnlineVar) && !Text.Contains(r, MaxVar)
  {
    var s := Filled(template, online, max);
    if Text.Contains(s, OnlineVar) || Text.Contains(s, MaxVar) then
      FallbackHasNoPlaceholder(online, max);
      FallbackName(online, max)
    else s
  }

  lemma FallbackHasNoPlaceholder(online: int, max: int)
    ensures !Text.Contains(FallbackName(online, max), OnlineVar) && !Text.Contains(FallbackName(online, max), MaxVar)
  {
    var f := FallbackName(online, max);
    CountAvoidsPlaceholders(online);
    CountAvoidsPlaceholders(max);
    assert forall i :: 0 <= i < |f| ==> f[i] != '{';
    Text.AbsentFirstChar(f, OnlineVar);
    Text.AbsentFirstChar(f, MaxVar);
  }

  /** The fallback text is never used: substitution always removes both placeholders. */
  lemma OnlineNameIsFilled(template: string, online: int, max: int)
    ensures OnlineName(template, online, max) == Filled(template, online, max)
  {
  }

  /**
   * The intended channel name: not configured without an address, the online
   * text with counts when online, the offline text otherwise. The `error` text
   * is never chosen: the results of `getServerData` have no `error` property.
   */
  function StatusName(target: Target, result: ServerData.Snapshot, texts: Texts): (name: string)
    ensures !Truthy(target.ip) ==> name == texts.notConfigured
    ensures Truthy(target.ip) && !result.isOnline ==> name == texts.offline
    ensures Truthy(target.ip) && result.isOnline ==>
      !Text.Contains(name, OnlineVar) && !Text.Contains(name, MaxVar)
  {
    if !Truthy(target.ip) then texts.notConfigured
    else if result.isOnline then OnlineName(texts.online, result.data.players.online, result.data.players.max)
    else texts.offline
  }

  /** `str.replace(/{playeronline}/g, '0').replace(/{playermax}/g, '0')`. */
  function Normalized(s: string): string {
    Text.ReplaceAll(Text.ReplaceAll(s, OnlineVar, "0", false), MaxVar, "0", false)
  }

  /** The rename condition; comparing the normalised names as well adds nothing. */
  function ShouldRename(current: string, computed: string): (r: bool)
    ensures r <==> current != computed
  {
    Normalized(current) != Normalized(computed) || current != computed
  }

  datatype UpdateOutcome =
    | NoChannelId
    | ChannelNotFound
    | NoPermission
    | Failed(message: string)
    | Renamed(name: string)
    | UpToDate

  /**
   * The gates of `playerCountUpdate` before the status fetch. `canManage` is
   * `None` for a channel outside a guild, where the permission is not checked.
   */
  function Gate(channelId: Option<Json>, channelFound: bool, canManage: Option<bool>): Option<UpdateOutcome> {
    if !Truthy(channelId) then Some(NoChannelId)
    else if !channelFound then Some(ChannelNotFound)
    else if canManage == Some(false) then Some(NoPermission)
    else None
  }

  const UndeclaredName := "statusName is not defined"

  /**
   * `playerCountUpdate` as written: `statusName` is assigned without being
   * declared, which throws a ReferenceError in a module, so every call that
   * passes the gates ends in the catch block. `fetched` reports whether the
   * status was fetched first.
   */
  method UpdateAsWritten(channelId: Option<Json>, channelFound: bool, canManage: Option<bool>, read: FileRead,
                         mc: McServer, result: ServerData.FetchResult)
    returns (outcome: UpdateOutcome, fetched: bool)
    ensures !outcome.Renamed? && !outcome.UpToDate?
    ensures Gate(channelId, channelFound, canManage).Some? ==> outcome == Gate(channelId, channelFound, canManage).value
    ensures Gate(channelId, channelFound, canManage).None? ==> outcome.Failed?
    ensures fetched <==> Gate(channelId, channelFound, canManage).None? && Truthy(TargetFor(read, mc).ip)
  {
    var gate := Gate(channelId, channelFound, canManage);
    if gate.Some? {
      return gate.value, false;
    }
    var target := TargetFor(read, mc);
    if !Truthy(target.ip) {
      return Failed(UndeclaredName), false;
    }
    fetched := true;
    if result.Threw? {
      return Failed(result.message), fetched;
    }
    outcome := Failed(UndeclaredName);
  }

  /** `playerCountUpdate` with `statusName` declared: the rename its authors intended. */
  method Update(channelId: Option<Json>, channelFound: bool, canManage: Option<bool>, currentName: string,
                read: FileRead, mc: McServer, result: ServerData.FetchResult, texts: Texts)
    returns (outcome: UpdateOutcome)
    ensures Gate(channelId, channelFound, canManage).Some? ==> outcome == Gate(channelId, channelFound, canManage).value
    ensures outcome.Renamed? ==> outcome.name != currentName && (!Truthy(TargetFor(read, mc).ip) || result.Fetched?)
    ensures Gate(channelId, channelFound, canManage).None? && !Truthy(TargetFor(read, mc).ip) ==>
      outcome == (if currentName != texts.notConfigured then Renamed(texts.notConfigured) else UpToDate)
    ensures Gate(channelId, channelFound, canManage).None? && Truthy(TargetFor(read, mc).ip) && result.Fetched? ==>
      var name := StatusName(TargetFor(read, mc), result.snapshot, texts);
      outcome == (if currentName != name then Renamed(name) else UpToDate)
  {
    var gate := Gate(channelId, channelFound, canManage);
    if gate.Some? {
      return gate.value;
    }
    var target := TargetFor(read, mc);
    var statusName: string;
    if !Truthy(target.ip) {
      statusName := texts.notConfigured;
    } else {
      if result.Threw? {
        return Failed(result.message);
      }
      statusName := StatusName(target, result.snapshot, texts);
    }
    if ShouldRename(currentName, statusName) {
      outcome := Renamed(statusName);
    } else {
      outcome := UpToDate;
    }
  }

  /** `{ channelId: config.playerCountCH.channelId, lastUpdate: Date.now() }`; an undefined id is not serialized. */
  function FreshStats(channelId: Option<Json>, now: int): (j: Json)
    ensures j.JObj? && "lastUpdate" in j.fields && j.fields["lastUpdate"] == JNum(now)
    ensures "channelId" in j.fields <==> channelId.Some?
  {
    JObj(if channelId.Some? then map["channelId" := channelId.value, "lastUpdate" := JNum(now)] else map["lastUpdate" := JNum(now)])
  }

  /** `!stats || typeof stats !== 'object'`: only an object or an array is kept. */
  predicate NeedsStats(stats: Option<Json>) {
    !(stats.Some? && (stats.value.JObj? || stats.value.JArr?))
  }

  /** The start-up value of `dataIDS`: `{}` for a missing, blank or unparsable file. */
  function InitialValue(read: FileRead): Top {
    match read
    case ReadFailed => Object(map[])
    case Loaded(content, parsed) =>
      if Text.Blank(content) || parsed.None? then Object(map[]) else FromJson(parsed.value)
  }

  /** The backup written at start-up: the unparsable content, verbatim. */
  function InitialBackups(read: FileRead, now: nat): seq<FileWrite> {
    if read.Loaded? && !Text.Blank(read.content) && read.parsed.None? then [SaveBackup(BackupPath(now), read.content)] else []
  }

  /** The initialisation of :236-251: `playerCountStats` and `autoChangeStatus` when missing; throws for `null` and primitives. */
  function Initialized(t: Top, channelId: Option<Json>, now: int): (r: Result<Top>)
    ensures r.Ok? <==> t.Object? || t.Array?
  {
    if !(t.Object? || t.Array?) then Err("Cannot set properties of a non-object")
    else
      var stats := Get(t, StatsKey).value;
      var t1 := if NeedsStats(stats) then Set(t, StatsKey, FreshStats(channelId, now)).value else t;
      var list := Get(t1, ListKey).value;
      Ok(if Truthy(list) then t1 else Set(t1, ListKey, JArr([])).value)
  }

  /**
   * Initialisation fills in exactly what is missing: existing stats and a
   * truthy list are kept, every other key is untouched.
   */
  lemma InitializedKeepsOthers(m: map<string, Json>, channelId: Option<Json>, now: int)
    ensures var r := Initialized(Object(m), channelId, now);
      r.Ok? && r.value.Object?
      && (forall k :: k in m && k != StatsKey && k != ListKey ==> k in r.value.props && r.value.props[k] == m[k])
      && StatsKey in r.value.props && ListKey in r.value.props
      && (NeedsStats(if StatsKey in m then Some(m[StatsKey]) else None) ==> r.value.props[StatsKey] == FreshStats(channelId, now))
      && (!NeedsStats(if StatsKey in m then Some(m[StatsKey]) else None) ==> r.value.props[StatsKey] == m[StatsKey])
      && (ListKey in m && Truthy(Some(m[ListKey])) ==> r.value.props[ListKey] == m[ListKey])
      && (!(ListKey in m && Truthy(Some(m[ListKey]))) ==> r.value.props[ListKey] == JArr([]))
  {
  }

  /** The stamp of an interval tick on the document just read: stats recreated, or `lastUpdate` set. */
  function Stamped(t: Top, channelId: Option<Json>, now: int): Result<Top> {
    var stats := Get(t, StatsKey);
    if stats.Err? then Err(stats.message)
    else if NeedsStats(stats.value) then Set(t, StatsKey, FreshStats(channelId, now))
    else
      var updated := SetMember(stats.value, "lastUpdate", JNum(now));
      Set(t, StatsKey, updated.value)
  }

  /** A tick changes only `playerCountStats.lastUpdate` of an existing stats object. */
  lemma StampTouchesOnlyLastUpdate(m: map<string, Json>, channelId: Option<Json>, now: int)
    requires StatsKey in m && m[StatsKey].JObj?
    ensures Stamped(Object(m), channelId, now)
      == Ok(Object(m[StatsKey := JObj(m[StatsKey].fields["lastUpdate" := JNum(now)])]))
  {
  }

  /** A stats value that is missing or not an object is recreated; nothing else changes. */
  lemma StampRecreatesStats(m: map<string, Json>, channelId: Option<Json>, now: int)
    requires NeedsStats(if StatsKey in m then Some(m[StatsKey]) else None)
    ensures Stamped(Object(m), channelId, now) == Ok(Object(m[StatsKey := FreshStats(channelId, now)]))
  {
  }

  /** The fallback of :320-327: stamp the in-memory copy, which throws unless it holds a stats object or array. */
  function FallbackStamped(memory: Top, now: int): Result<Top> {
    var stats := Get(memory, StatsKey);
    if stats.Err? then Err(stats.message)
    else
      var updated := SetMember(stats.value, "lastUpdate", JNum(now));
      if updated.Err? then Err(updated.message) else Set(memory, StatsKey, updated.value)
  }

  /** The in-memory state and the file writes of the module. */
  class Channel {
    /** `dataIDS`. */
    var memory: Top
    var writes: seq<FileWrite>

    constructor ()
      ensures memory == Object(map[]) && writes == []
    {
      memory := Object(map[]);
      writes := [];
    }

    /** Start-up (:199-259): the corrupt-file backup, the initialised document and its write. */
    method Initialize(read: FileRead, channelId: Option<Json>, now: nat) returns (ok: bool)
      modifies this
      ensures ok <==> Initialized(InitialValue(read), channelId, now).Ok?
      ensures ok ==> memory == Initialized(InitialValue(read), channelId, now).value
      ensures ok ==> writes == old(writes) + InitialBackups(read, now) + [SaveData(Serialize(memory))]
      ensures !ok ==> writes == old(writes) + InitialBackups(read, now)
    {
      var dataIDS := Load(read, now);
      memory := dataIDS;
      var stats := Get(dataIDS, StatsKey);
      if stats.Err? {
        return false;
      }
      if NeedsStats(stats.value) {
        var created := Set(dataIDS, StatsKey, FreshStats(channelId, now));
        if created.Err? {
          return false;
        }
        dataIDS := created.value;
      }
      var list := Get(dataIDS, ListKey).value;
      if !Truthy(list) {
        dataIDS := Set(dataIDS, ListKey, JArr([])).value;
      }
      memory := dataIDS;
      writes := writes + [SaveData(Serialize(dataIDS))];
      ok := true;
    }

    /** The start-up read: `{}` for a missing or blank file, and `{}` after a backup for an unparsable one. */
    method Load(read: FileRead, now: nat) returns (dataIDS: Top)
      modifies this`writes
      ensures dataIDS == InitialValue(read)
      ensures writes == old(writes) + InitialBackups(read, now)
    {
      if read.ReadFailed? {
        dataIDS := Object(map[]);
      } else if Text.Blank(read.content) {
        dataIDS := Object(map[]);
      } else if read.parsed.None? {
        writes := writes + [SaveBackup(BackupPath(now), read.content)];
        dataIDS := Object(map[]);
      } else {
        dataIDS := FromJson(read.parsed.value);
      }
    }

    /** The read at the start of `updatePlayerCount`: a parsed file replaces the in-memory copy. */
    method Refresh(read: FileRead)
      modifies this`memory
      ensures read.Loaded? && read.parsed.Some? ==> memory == FromJson(read.parsed.value)
      ensures !(read.Loaded? && read.parsed.Some?) ==> memory == old(memory)
    {
      if read.Loaded? && read.parsed.Some? {
        memory := FromJson(read.parsed.value);
      }
    }

    /**
     * The `lastUpdate` stamp after each scheduled update (:280-328). A
     * document that cannot be stamped (`null` or a primitive) throws, and the
     * `catch` stamps the in-memory copy instead.
     */
    method Stamp(read: FileRead, channelId: Option<Json>, now: nat)
      modifies this
      ensures read.Loaded? && read.parsed.Some? && Stamped(FromJson(read.parsed.value), channelId, now).Ok? ==>
        memory == Stamped(FromJson(read.parsed.value), channelId, now).value
        && writes == old(writes) + [SaveData(Serialize(memory))]
      ensures read.Loaded? && read.parsed.Some? && Stamped(FromJson(read.parsed.value), channelId, now).Err? ==>
        FellBack(old(memory), old(writes), now)
      ensures read.Loaded? && read.parsed.None? && Stamped(old(memory), channelId, now).Ok? ==>
        memory == Stamped(old(memory), channelId, now).value
        && writes == old(writes) + [SaveBackup(BackupPath(now), read.content), SaveData(Serialize(memory))]
      ensures read.Loaded? && read.parsed.None? && Stamped(old(memory), channelId, now).Err? ==>
        FellBack(old(memory), old(writes) + [SaveBackup(BackupPath(now), read.content)], now)
      ensures read.ReadFailed? ==> FellBack(old(memory), old(writes), now)
    {
      var current: Top;
      if read.ReadFailed? {
        Fallback(now);
        return;
      }
      if read.parsed.None? {
        writes := writes + [SaveBackup(BackupPath(now), read.content)];
        current := memory;
      } else {
        current := FromJson(read.parsed.value);
      }
      var stamped := Stamped(current, channelId, now);
      if stamped.Err? {
        Fallback(now);
        return;
      }
      memory := stamped.value;
      writes := writes + [SaveData(Serialize(memory))];
    }

    /**
     * After the fallback of :320-327 from `memory0` and `writes0`: the stamped
     * in-memory copy, written; or, when it cannot be stamped, nothing changed.
     */
    predicate FellBack(memory0: Top, writes0: seq<FileWrite>, now: int)
      reads this
    {
      && (FallbackStamped(memory0, now).Ok? ==>
            memory == FallbackStamped(memory0, now).value && writes == writes0 + [SaveData(Serialize(memory))])
      && (FallbackStamped(memory0, now).Err? ==> memory == memory0 && writes == writes0)
    }

    method Fallback(now: nat)
      modifies this
      ensures FellBack(old(memory), old(writes), now)
    {
      var stamped := FallbackStamped(memory, now);
      if stamped.Ok? {
        memory := stamped.value;
        writes := writes + [SaveData(Serialize(memory))];
      }
    }
  }
}
