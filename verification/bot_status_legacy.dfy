/**
 * The older presence handler of src/events/ready/botStatusUpdate.js: it
 * probes the configured server, takes its texts from a bot-status
 * translation file, and schedules itself on a timer whose period it also
 * hands to the status cache as its expiry.
 */
module LegacyBotStatus {
  import opened Wrappers
  import opened JsonDoc
  import opened Counts
  import ServerData
  import Timers

  /** The built-in texts used when no translation file can be read. */
  const DefaultOnline := "Playing with {playeronline}/{playermax} players"
  const DefaultOffline := "Server is offline"
  const DefaultTranslations := JObj(map["botStatus" := JObj(map["online" := JStr(DefaultOnline), "offline" := JStr(DefaultOffline)])])

  function TranslationPath(language: string): string {
    "./translation/" + language + "/bot-status.json5"
  }

  /** `config.settings.language.main || 'en'`. */
  function MainLanguage(main: string): (lang: string)
    ensures lang != ""
    ensures main != "" ==> lang == main
  {
    if main != "" then main else "en"
  }

  /**
   * `loadBotStatusTranslations`: the main language's file, else the English
   * file, else the built-in texts. `files(path)` is what `json5.parse` gives
   * for the file at `path`, `None` when reading or parsing throws.
   */
  function Translations(main: string, files: string -> Option<Json>): (t: Json)
    ensures files(TranslationPath(MainLanguage(main))).Some? ==> t == files(TranslationPath(MainLanguage(main))).value
    ensures files(TranslationPath(MainLanguage(main))).None? && files(TranslationPath("en")).Some? ==> t == files(TranslationPath("en")).value
    ensures files(TranslationPath(MainLanguage(main))).None? && files(TranslationPath("en")).None? ==> t == DefaultTranslations
  {
    match files(TranslationPath(MainLanguage(main)))
    case Some(t) => t
    case None =>
      match files(TranslationPath("en"))
      case Some(t) => t
      case None => DefaultTranslations
  }

  /** `v.key`: reading a property of `undefined` or `null` throws; values other than objects have none of the keys read here. */
  function Prop(v: Option<Json>, key: string): (r: Result<Option<Json>>)
    ensures r.Err? <==> v.None? || v.value.JNull?
    ensures r.Ok? ==> r.value == Member(v, key)
  {
    if v.None? || v.value.JNull? then Err("Cannot read properties of " + (if v.None? then "undefined" else "null"))
    else Ok(Member(v, key))
  }

  /** `botStatusTranslation.botStatus[key]`. */
  function Translated(t: Json, key: string): Result<Option<Json>> {
    match Prop(Some(t), "botStatus")
    case Err(e) => Err(e)
    case Ok(holder) => Prop(holder, key)
  }

  /** The built-in texts are always there, whichever of them a tick reads. */
  lemma DefaultTextsPresent()
    ensures Translated(DefaultTranslations, "online") == Ok(Some(JStr(DefaultOnline)))
    ensures Translated(DefaultTranslations, "offline") == Ok(Some(JStr(DefaultOffline)))
  {
  }

  /** With no readable file at all, the presence still gets the built-in texts. */
  lemma NoFilesGiveDefaults(main: string, files: string -> Option<Json>)
    requires forall path :: files(path).None?
    ensures Translated(Translations(main, files), "offline") == Ok(Some(JStr(DefaultOffline)))
  {
  }

  /** `config.bot.presence`. */
  datatype PresenceConfig = PresenceConfig(enabled: bool, online: Option<string>, offline: Option<string>, activity: string)

  /** One `client.user.setPresence` call; the name is whatever the translation holds. */
  datatype Presence = Presence(status: Option<string>, name: Option<Json>, activity: string)

  /**
   * The offline fallback of the catch block: nothing when the offline text
   * itself cannot be read, since that throws again and is only logged.
   */
  function Fallback(presence: PresenceConfig, t: Json): (calls: seq<Presence>)
    ensures |calls| <= 1
    ensures Translated(t, "offline").Ok? <==> |calls| == 1
    ensures |calls| == 1 ==> calls[0].status == presence.offline
  {
    match Translated(t, "offline")
    case Err(_) => []
    case Ok(name) => [Presence(presence.offline, name, presence.activity)]
  }

  /**
   * One `updateBotStatus` run: the presence calls made, in order. `result` is
   * what `getServerData(config)` gives, `t` the translations loaded at start; `rejects` says whether the main
   * `setPresence` call fails. An online text that is not a string makes
   * `.replace` throw, which also leads to the fallback.
   */
  method Tick(presence: PresenceConfig, t: Json, result: ServerData.FetchResult, rejects: bool)
    returns (calls: seq<Presence>)
    ensures !presence.enabled ==> calls == []
    ensures presence.enabled && result.Threw? ==> calls == Fallback(presence, t)
    ensures presence.enabled && result.Fetched? && result.snapshot.isOnline && !(Translated(t, "online").Ok? && Translated(t, "online").value.Some? && Translated(t, "online").value.value.JStr?) ==>
      calls == Fallback(presence, t)
    ensures presence.enabled && result.Fetched? && result.snapshot.isOnline && Translated(t, "online").Ok? && Translated(t, "online").value.Some? && Translated(t, "online").value.value.JStr? ==>
      var players := result.snapshot.data.players;
      calls == [Presence(presence.online, Some(JStr(Filled(Translated(t, "online").value.value.s, players.online, players.max))), presence.activity)]
               + (if rejects then Fallback(presence, t) else [])
    ensures presence.enabled && result.Fetched? && !result.snapshot.isOnline ==>
      calls == Fallback(presence, t) + (if rejects then Fallback(presence, t) else [])
    ensures forall p :: p in calls && p.status == presence.online && presence.online != presence.offline ==> result.Fetched? && result.snapshot.isOnline
  {
    if !presence.enabled {
      return [];
    }
    if result.Threw? {
      return Fallback(presence, t);
    }
    var snapshot := result.snapshot;
    if snapshot.isOnline {
      var online := Translated(t, "online");
      if !(online.Ok? && online.value.Some? && online.value.value.JStr?) {
        return Fallback(presence, t);
      }
      var players := snapshot.data.players;
      calls := [Presence(presence.online, Some(JStr(Filled(online.value.value.s, players.online, players.max))), presence.activity)];
    } else {
      var offline := Translated(t, "offline");
      if offline.Err? {
        return Fallback(presence, t);
      }
      calls := [Presence(presence.offline, offline.value, presence.activity)];
    }
    if rejects {
      calls := calls + Fallback(presence, t);
    }
  }

  /** A timer period and the cache expiry handed to the status cache, in milliseconds. */
  datatype Schedule = Schedule(period: int, cacheExpiry: int)

  /** `Math.max(60, parseInt(process.env.UPDATE_INTERVAL) || 60) * 1000`: the update interval in milliseconds. */
  function UpdateIntervalMs(parsed: Option<int>): (ms: int)
    ensures ms >= 60000
    ensures Timers.IntervalSeconds(parsed) >= 60 ==> ms == Timers.IntervalSeconds(parsed) * 1000
  {
    var seconds := Timers.IntervalSeconds(parsed);
    (if seconds > 60 then seconds else 60) * 1000
  }

  /**
   * The schedule as written: the interval, already in milliseconds, is
   * multiplied by 1000 once more for the timer and for the cache expiry
   * (`updateInterval * 1000 * 0.9`).
   */
  function ScheduleAsWritten(parsed: Option<int>): Schedule {
    var ms := UpdateIntervalMs(parsed);
    Schedule(Timers.EffectiveDelay(ms * 1000), ms * 900)
  }

  /** With the default of 60 seconds the presence is refreshed every 1000 minutes, and the status cache keeps a reply for 900. */
  lemma DefaultScheduleAsWritten()
    ensures ScheduleAsWritten(None) == Schedule(60000000, 54000000)
  {
  }

  /** From 2148 seconds up the timer's delay exceeds Node's maximum and the presence is refreshed every millisecond. */
  lemma LongIntervalFiresEveryMillisecond(parsed: Option<int>)
    requires Timers.IntervalSeconds(parsed) >= 2148
    ensures ScheduleAsWritten(parsed).period == 1
    ensures ScheduleAsWritten(parsed).cacheExpiry == Timers.IntervalSeconds(parsed) * 900000
  {
  }

  /**
   * The schedule its comments describe: the timer fires once per interval,
   * and cached replies expire a little before the next tick.
   */
  function Scheduled(parsed: Option<int>): (s: Schedule)
    ensures 1 <= s.period <= Timers.MaxDelay
    ensures Timers.IntervalSeconds(parsed) <= 2147483 ==> s.period == UpdateIntervalMs(parsed) && s.period >= 60000
    ensures 0 < s.cacheExpiry < UpdateIntervalMs(parsed)
    ensures Timers.IntervalSeconds(parsed) <= 2147483 ==> s.cacheExpiry < s.period
  {
    var ms := UpdateIntervalMs(parsed);
    Schedule(Timers.EffectiveDelay(ms), ms / 10 * 9)
  }

  /** Under the intended schedule the default interval is one minute. */
  lemma DefaultScheduled()
    ensures Scheduled(None) == Schedule(60000, 54000)
  {
  }
}
