/**
 * The older player-count channel of src/events/ready/playerCountCH.js: at
 * start it finds or creates the channel and records its id in data.json as
 * `playerCountStats`; afterwards it renames that channel when the count text
 * changes.
 */
module LegacyPlayerCount {
  import opened Wrappers
  import opened JsonDoc
  import Text
  import ServerData
  import opened Counts

  const StatsKey := "playerCountStats"
  const ListKey := "autoChangeStatus"

  /** The channel name: the online text with both counts filled in when online, the offline text otherwise. */
  function ChannelName(result: ServerData.Snapshot, onlineText: string, offlineText: string): (name: string)
    ensures !result.isOnline ==> name == offlineText
    ensures result.isOnline ==> !Text.Contains(name, OnlineVar) && !Text.Contains(name, MaxVar)
  {
    if result.isOnline then Filled(onlineText, result.data.players.online, result.data.players.max)
    else offlineText
  }

  /** An online text without placeholders is used as it stands. */
  lemma PlainOnlineText(result: ServerData.Snapshot, onlineText: string, offlineText: string)
    requires result.isOnline
    requires !Text.Contains(onlineText, OnlineVar) && !Text.Contains(onlineText, MaxVar)
    ensures ChannelName(result, onlineText, offlineText) == onlineText
  {
    PlainTemplateKept(onlineText, result.data.players.online, result.data.players.max);
  }

  datatype UpdateOutcome = NoChannelId | ChannelNotFound | Failed(message: string) | Edited(name: string) | Unchanged

  /**
   * `playerCountUpdate`: the status is fetched once the channel is found; the
   * channel is edited exactly when its name differs from the computed one.
   */
  method Update(channelId: Option<Json>, channel: Option<string>, result: ServerData.FetchResult,
                onlineText: string, offlineText: string, editThrew: bool)
    returns (outcome: UpdateOutcome)
    ensures !Truthy(channelId) ==> outcome == NoChannelId
    ensures Truthy(channelId) && channel.None? ==> outcome == ChannelNotFound
    ensures outcome.Edited? ==>
      channel.Some? && result.Fetched? && outcome.name != channel.value && outcome.name == ChannelName(result.snapshot, onlineText, offlineText)
    ensures Truthy(channelId) && channel.Some? && result.Fetched? ==>
      (outcome == Unchanged <==> channel.value == ChannelName(result.snapshot, onlineText, offlineText))
    ensures Truthy(channelId) && channel.Some? && result.Fetched? && !editThrew ==>
      (outcome.Edited? <==> channel.value != ChannelName(result.snapshot, onlineText, offlineText))
    ensures Truthy(channelId) && channel.Some? && result.Threw? ==> outcome == Failed(result.message)
  {
    if !Truthy(channelId) {
      return NoChannelId;
    }
    if channel.None? {
      return ChannelNotFound;
    }
    if result.Threw? {
      return Failed(result.message);
    }
    var statusName := ChannelName(result.snapshot, onlineText, offlineText);
    if channel.value != statusName {
      if editThrew {
        return Failed("edit failed");
      }
      outcome := Edited(statusName);
    } else {
      outcome := Unchanged;
    }
  }

  /**
   * `dataIDS` after :107-133: the parsed file if it is an object or an array
   * (`{}` otherwise), with a falsy `playerCountStats` set to `null` and a falsy
   * `autoChangeStatus` set to `[]`.
   */
  function Prepared(read: FileRead): (t: Top)
    ensures t.Object? || t.Array?
  {
    var start := if read.Loaded? && read.parsed.Some? && (read.parsed.value.JObj? || read.parsed.value.JArr?)
                 then FromJson(read.parsed.value) else Object(map[]);
    var t1 := if Truthy(Get(start, StatsKey).value) then start else Set(start, StatsKey, JNull).value;
    if Truthy(Get(t1, ListKey).value) then t1 else Set(t1, ListKey, JArr([])).value
  }

  /** Preparation keeps every other key, a truthy stats value and a truthy list. */
  lemma PreparedKeepsOthers(content: string, m: map<string, Json>)
    ensures var t := Prepared(Loaded(content, Some(JObj(m))));
      t.Object?
      && (forall k :: k in m && k != StatsKey && k != ListKey ==> k in t.props && t.props[k] == m[k])
      && (StatsKey in m && Truthy(Some(m[StatsKey])) ==> t.props[StatsKey] == m[StatsKey])
      && (!(StatsKey in m && Truthy(Some(m[StatsKey]))) ==> t.props[StatsKey] == JNull)
      && (ListKey in m && Truthy(Some(m[ListKey])) ==> t.props[ListKey] == m[ListKey])
      && (!(ListKey in m && Truthy(Some(m[ListKey]))) ==> t.props[ListKey] == JArr([]))
  {
  }

  /** Unreadable, unparsable, `null` and primitive contents all start from `{}`. */
  lemma NonObjectStartsEmpty(read: FileRead)
    requires !(read.Loaded? && read.parsed.Some? && (read.parsed.value.JObj? || read.parsed.value.JArr?))
    ensures Prepared(read) == Object(map[StatsKey := JNull, ListKey := JArr([])])
  {
  }

  datatype SetupOutcome = Disabled | GuildMissing | ChannelMissing | SetupFailed(message: string) | Tracking(channelId: Option<Json>)

  /** The parts of the `playerCountCH` configuration that start-up reads. */
  datatype Config = Config(enabled: bool, channelId: Option<Json>, onlineText: string, offlineText: string)

  /**
   * Start-up. `cached` is the id of the configured channel when the client's
   * cache holds it; `result` is the status fetched and `createdId` the id of
   * the channel created when no channel is configured. `created` is the name
   * of that new channel. `writeError` is the error `fs.writeFile` throws
   * when the channel id is recorded, if it does: the outer `catch` then
   * ends start-up, so nothing is tracked.
   */
  method Setup(config: Config, guildFound: bool, read: FileRead, cached: Option<string>,
               result: ServerData.FetchResult, createdId: string, writeError: Option<string>)
    returns (outcome: SetupOutcome, written: Option<Json>, created: Option<string>)
    ensures !config.enabled ==> outcome == Disabled && written == None && created == None
    ensures config.enabled && !guildFound ==> outcome == GuildMissing && written == None && created == None
    ensures config.enabled && guildFound && Truthy(Get(Prepared(read), StatsKey).value) ==>
      outcome == Tracking(Get(Prepared(read), StatsKey).value) && written == None && created == None
    ensures config.enabled && guildFound && !Truthy(Get(Prepared(read), StatsKey).value) && Truthy(config.channelId) && cached.None? ==>
      outcome == ChannelMissing && written == None
    ensures config.enabled && guildFound && !Truthy(Get(Prepared(read), StatsKey).value) && Truthy(config.channelId) && cached.Some?
            && writeError.None? ==>
      outcome == Tracking(Some(JStr(cached.value))) && written == Some(Serialize(Set(Prepared(read), StatsKey, JStr(cached.value)).value))
    ensures config.enabled && guildFound && !Truthy(Get(Prepared(read), StatsKey).value) && !Truthy(config.channelId) && result.Fetched? ==>
      created == Some(ChannelName(result.snapshot, config.onlineText, config.offlineText))
    ensures config.enabled && guildFound && !Truthy(Get(Prepared(read), StatsKey).value) && !Truthy(config.channelId) && result.Fetched?
            && writeError.None? ==>
      outcome == Tracking(Some(JStr(createdId)))
      && written == Some(Serialize(Set(Prepared(read), StatsKey, JStr(createdId)).value))
    ensures config.enabled && guildFound && !Truthy(Get(Prepared(read), StatsKey).value)
            && (if Truthy(config.channelId) then cached.Some? else result.Fetched?) && writeError.Some? ==>
      outcome == SetupFailed(writeError.value) && written == None
    ensures written.Some? ==> writeError.None?
    ensures config.enabled && guildFound && !Truthy(Get(Prepared(read), StatsKey).value) && !Truthy(config.channelId) && result.Threw? ==>
      outcome == SetupFailed(result.message) && written == None && created == None
    ensures created.Some? ==> !Truthy(config.channelId) && result.Fetched?
  {
    created := None;
    written := None;
    if !config.enabled {
      return Disabled, None, None;
    }
    if !guildFound {
      return GuildMissing, None, None;
    }
    var dataIDS: Top;
    if read.Loaded? && read.parsed.Some? && (read.parsed.value.JObj? || read.parsed.value.JArr?) {
      dataIDS := FromJson(read.parsed.value);
    } else {
      dataIDS := Object(map[]);
    }
    if !Truthy(Get(dataIDS, StatsKey).value) {
      dataIDS := Set(dataIDS, StatsKey, JNull).value;
    }
    if !Truthy(Get(dataIDS, ListKey).value) {
      dataIDS := Set(dataIDS, ListKey, JArr([])).value;
    }
    assert dataIDS == Prepared(read);
    var stats := Get(dataIDS, StatsKey).value;
    if !Truthy(stats) {
      if Truthy(config.channelId) {
        if cached.None? {
          return ChannelMissing, None, None;
        }
        dataIDS := Set(dataIDS, StatsKey, JStr(cached.value)).value;
        if writeError.Some? {
          return SetupFailed(writeError.value), None, None;
        }
        written := Some(Serialize(dataIDS));
      } else {
        if result.Threw? {
          return SetupFailed(result.message), None, None;
        }
        var statusName := ChannelName(result.snapshot, config.onlineText, config.offlineText);
        created := Some(statusName);
        dataIDS := Set(dataIDS, StatsKey, JStr(createdId)).value;
        if writeError.Some? {
          return SetupFailed(writeError.value), None, created;
        }
        written := Some(Serialize(dataIDS));
      }
    }
    outcome := Tracking(Get(dataIDS, StatsKey).value);
  }

  /** The id recorded in an object document is what every later update is given. */
  lemma RecordedIdTracked(read: FileRead, id: string)
    requires Prepared(read).Object?
    ensures var t := Set(Prepared(read), StatsKey, JStr(id)).value;
      Get(t, StatsKey).value == Some(JStr(id)) && Serialize(t).fields[StatsKey] == JStr(id)
  {
  }
}
