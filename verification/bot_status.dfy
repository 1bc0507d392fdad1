/**
 * The bot's presence as src/events/clientReady/botStatusUpdate.js keeps it:
 * on every tick the first server tracked in data.json is probed, and the
 * presence shows its player count, the offline text, or a waiting message
 * while no server is tracked.
 */
module BotStatus {
  import opened Wrappers
  import opened JsonDoc
  import opened Counts
  import Text
  import ServerData
  import Timers

  const ListKey := "autoChangeStatus"
  const WaitingText := "Waiting for configuration..."

  /** `config.bot.presence`; a status the configuration lacks (it has no `idle` entry) is `None`. */
  datatype PresenceConfig = PresenceConfig(enabled: bool, online: Option<string>, offline: Option<string>,
                                           idle: Option<string>, activity: string)

  /** The custom activity type of the waiting message, or the configured `ActivityType[...]`. */
  datatype Activity = CustomActivity | NamedActivity(kind: string)

  /** One `client.user.setPresence` call. */
  datatype Presence = Presence(status: Option<string>, name: string, activity: Activity)

  /** The server a tick probes: `ip`, `port`, `type || 'java'` and the display name. */
  datatype Source = Source(ip: Option<Json>, port: Option<Json>, kind: Option<Json>, name: Option<Json>)

  /** What the read of data.json decides: give up for this tick, wait for a server, or probe one. */
  datatype Choice = Unreadable | Waiting | Probe(source: Source)

  /** The server of a tracked record; the name is the server settings' name, else the record's name, else its address. */
  function SourceOf(settings: Option<Json>, rec: Json): (src: Source)
    ensures Truthy(Member(settings, "name")) ==> src.name == Member(settings, "name")
    ensures !Truthy(Member(settings, "name")) && Truthy(Member(Some(rec), "name")) ==> src.name == Member(Some(rec), "name")
    ensures !Truthy(Member(settings, "name")) && !Truthy(Member(Some(rec), "name")) ==> src.name == Member(Some(rec), "ip")
    ensures src.ip == Member(Some(rec), "ip") && Truthy(src.kind)
  {
    var r := Some(rec);
    Source(Member(r, "ip"), Member(r, "port"), Or(Member(r, "type"), Some(JStr("java"))),
           Or(Member(settings, "name"), Or(Member(r, "name"), Member(r, "ip"))))
  }

  /**
   * The read of data.json: a file that cannot be read or parsed, a `null`
   * document and a `null` first record all end the tick (the error is caught
   * and logged); a list that is missing or empty means waiting.
   */
  function ChoiceFor(read: FileRead): (c: Choice)
    ensures read.ReadFailed? || read.parsed.None? ==> c == Unreadable
    ensures c.Waiting? <==> read.Loaded? && read.parsed.Some? && !read.parsed.value.JNull?
                            && !HasItems(Get(FromJson(read.parsed.value), ListKey).value)
  {
    if read.ReadFailed? || read.parsed.None? then Unreadable
    else
      var t := FromJson(read.parsed.value);
      var list := Get(t, ListKey);
      if list.Err? then Unreadable
      else if !HasItems(list.value) then Waiting
      else match FirstRecord(list.value)
        case None => Unreadable
        case Some(rec) => Probe(SourceOf(Get(t, "serverSettings").value, rec))
  }

  /** A document whose list starts with a record probes that record's server, named after the server settings first. */
  lemma FirstTrackedServerProbed(content: string, m: map<string, Json>)
    requires ListKey in m && m[ListKey].JArr? && m[ListKey].items != [] && m[ListKey].items[0] != JNull
    ensures var settings := if "serverSettings" in m then Some(m["serverSettings"]) else None;
      ChoiceFor(Loaded(content, Some(JObj(m)))) == Probe(SourceOf(settings, m[ListKey].items[0]))
  {
  }

  /** A document with no list, or an empty one, shows the waiting message. */
  lemma NoTrackedServerWaits(content: string, m: map<string, Json>)
    requires ListKey !in m || m[ListKey] == JArr([])
    ensures ChoiceFor(Loaded(content, Some(JObj(m)))) == Waiting
  {
  }

  function WaitingPresence(presence: PresenceConfig): Presence {
    Presence(presence.idle, WaitingText, CustomActivity)
  }

  function OfflinePresence(presence: PresenceConfig, offlineText: string): Presence {
    Presence(presence.offline, offlineText, NamedActivity(presence.activity))
  }

  /**
   * The presence for a probe's answer: the online status with both player
   * counts filled into the online text, or the offline status and text.
   */
  function Shown(presence: PresenceConfig, snapshot: ServerData.Snapshot, onlineText: string, offlineText: string): (p: Presence)
    ensures p.activity == NamedActivity(presence.activity)
    ensures snapshot.isOnline ==> p.status == presence.online
    ensures snapshot.isOnline ==> !Text.Contains(p.name, OnlineVar) && !Text.Contains(p.name, MaxVar)
    ensures !snapshot.isOnline ==> p == OfflinePresence(presence, offlineText)
  {
    if snapshot.isOnline then
      Presence(presence.online, Filled(onlineText, snapshot.data.players.online, snapshot.data.players.max),
               NamedActivity(presence.activity))
    else OfflinePresence(presence, offlineText)
  }

  /** An online text without placeholders is shown as it stands. */
  lemma PlainOnlineTextShown(presence: PresenceConfig, snapshot: ServerData.Snapshot, onlineText: string, offlineText: string)
    requires snapshot.isOnline
    requires !Text.Contains(onlineText, OnlineVar) && !Text.Contains(onlineText, MaxVar)
    ensures Shown(presence, snapshot, onlineText, offlineText).name == onlineText
  {
    PlainTemplateKept(onlineText, snapshot.data.players.online, snapshot.data.players.max);
  }

  /**
   * One `updateBotStatus` run: the presence calls it makes, in order.
   * `result` is what `getServerData` gives for the chosen server, `onlineText`
   * and `offlineText` are the translated texts, and `rejects` says whether the
   * main `setPresence` call fails, which leads to the offline fallback.
   */
  method Tick(presence: PresenceConfig, read: FileRead, result: ServerData.FetchResult,
              onlineText: string, offlineText: string, rejects: bool)
    returns (calls: seq<Presence>)
    ensures !presence.enabled || ChoiceFor(read).Unreadable? ==> calls == []
    ensures presence.enabled && ChoiceFor(read).Waiting? ==> calls == [WaitingPresence(presence)]
    ensures presence.enabled && ChoiceFor(read).Probe? && result.Threw? ==> calls == [OfflinePresence(presence, offlineText)]
    ensures presence.enabled && ChoiceFor(read).Probe? && result.Fetched? ==>
      calls == [Shown(presence, result.snapshot, onlineText, offlineText)] + (if rejects then [OfflinePresence(presence, offlineText)] else [])
  {
    if !presence.enabled {
      return [];
    }
    var choice := ChoiceFor(read);
    if choice.Unreadable? {
      return [];
    }
    if choice.Waiting? {
      // a rejected waiting presence is caught by the read's own handler
      return [WaitingPresence(presence)];
    }
    if result.Threw? {
      return [OfflinePresence(presence, offlineText)];
    }
    calls := [Shown(presence, result.snapshot, onlineText, offlineText)];
    if rejects {
      calls := calls + [OfflinePresence(presence, offlineText)];
    }
  }

  /** `config.autoChangeStatus.updateInterval * 1000` as the timer uses it. */
  function Period(parsed: Option<int>): (ms: int)
    ensures 1 <= ms <= Timers.MaxDelay
    ensures 1 <= Timers.IntervalSeconds(parsed) <= 2147483 ==> ms == Timers.IntervalSeconds(parsed) * 1000
    ensures Timers.IntervalSeconds(parsed) < 0 ==> ms == 1
  {
    Timers.EffectiveDelay(Timers.IntervalSeconds(parsed) * 1000)
  }
}
