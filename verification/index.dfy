/**
 * The helpers of src/index.js that the commands and status messages share:
 * the player list laid out in three columns, the status-and-players fetch,
 * the server address text, and the start-up configuration check.
 */
module Index {
  import opened Wrappers
  import opened JsonDoc
  import Text
  import Seqs
  import ServerData

  /** An embed field. */
  datatype Field = Field(name: string, value: string, inline: bool)

  /** The text shown for a player: `name_clean`, or the entry itself. */
  function Entry(p: ServerData.Player): string {
    match p
    case Named(n) => n
    case Unnamed(t) => t
  }

  /** The summary field: the players title, and the description with both counts filled in (any letter case). */
  function Summary(title: string, description: string, online: int, max: int): Field {
    var once := Text.ReplaceAll(description, "{playeronline}", Text.IntToString(online), true);
    Field(title, Text.ReplaceAll(once, "{playermax}", Text.IntToString(max), true), false)
  }

  /** Column `g`: the entries of the players at the positions congruent to `g` modulo 3, in list order. */
  function Column(list: seq<ServerData.Player>, g: nat): seq<string>
    decreases |list|
  {
    if list == [] then []
    else Column(list[..|list| - 1], g) + (if (|list| - 1) % 3 == g then [Entry(list[|list| - 1])] else [])
  }

  /** Column `g` (of 0, 1, 2) holds one entry for every third player, starting with player `g`. */
  lemma {:induction false} ColumnLength(list: seq<ServerData.Player>, g: nat)
    requires g < 3
    ensures |Column(list, g)| == (|list| + 2 - g) / 3
    decreases |list|
  {
    if list != [] {
      ColumnLength(list[..|list| - 1], g);
    }
  }

  /** Player `k` is row `k / 3` of column `k % 3`. */
  lemma {:induction false} ColumnAt(list: seq<ServerData.Player>, k: nat)
    requires k < |list|
    ensures k / 3 < |Column(list, k % 3)| && Column(list, k % 3)[k / 3] == Entry(list[k])
    decreases |list|
  {
    var prefix := list[..|list| - 1];
    ColumnLength(prefix, k % 3);
    if k < |list| - 1 {
      ColumnAt(prefix, k);
      assert prefix[k] == list[k];
    }
  }

  /** The field of a non-empty column: its first entry as the name, the rest in bold, or a blank filler. */
  function ColumnField(col: seq<string>): Field
    requires col != []
  {
    Field("• " + col[0], if |col| > 1 then "**• " + Text.Join(col[1..], "\n• ") + "**" else "‎ ", true)
  }

  /** One field per non-empty column, in column order. */
  function ColumnFields(cols: seq<seq<string>>): seq<Field>
    decreases |cols|
  {
    if cols == [] then []
    else
      var last := cols[|cols| - 1];
      ColumnFields(cols[..|cols| - 1]) + (if last != [] then [ColumnField(last)] else [])
  }

  function Columns(list: seq<ServerData.Player>): seq<seq<string>> {
    [Column(list, 0), Column(list, 1), Column(list, 2)]
  }

  /** `groupPlayerList`, as a value. */
  function GroupedFields(title: string, description: string, players: ServerData.Players): seq<Field> {
    [Summary(title, description, players.online, players.max)] + ColumnFields(Columns(players.list))
  }

  /** The summary comes first, then one field per column that has a player: never more than four fields. */
  lemma GroupedFieldCount(title: string, description: string, players: ServerData.Players)
    ensures var n := |players.list|;
      |GroupedFields(title, description, players)| == 1 + (if n < 3 then n else 3)
  {
    var list := players.list;
    ColumnLength(list, 0);
    ColumnLength(list, 1);
    ColumnLength(list, 2);
    var cols := Columns(list);
    assert cols[..2][..1] == cols[..1] && cols[..1][..0] == [];
    assert |ColumnFields(cols[..1])| == (if cols[0] != [] then 1 else 0);
    assert |ColumnFields(cols[..2])| == |ColumnFields(cols[..1])| + (if cols[1] != [] then 1 else 0);
    assert |ColumnFields(cols)| == |ColumnFields(cols[..2])| + (if cols[2] != [] then 1 else 0);
  }

  /** Dealing one more player adds it to the end of its own column and leaves the other two alone. */
  lemma ColumnStep(list: seq<ServerData.Player>, i: nat, g: nat)
    requires i < |list|
    ensures Column(list[..i + 1], g) == Column(list[..i], g) + (if i % 3 == g then [Entry(list[i])] else [])
  {
    assert list[..i + 1][..i] == list[..i];
  }

  /** Pushing player `i` onto group `i % 3` turns the columns of the first `i` players into those of the first `i + 1`. */
  lemma DealOne(list: seq<ServerData.Player>, i: nat)
    requires i < |list|
    ensures var groups := Columns(list[..i]);
      groups[i % 3 := groups[i % 3] + [Entry(list[i])]] == Columns(list[..i + 1])
  {
    var groups := Columns(list[..i]);
    var next := groups[i % 3 := groups[i % 3] + [Entry(list[i])]];
    forall h | 0 <= h < 3 ensures next[h] == Columns(list[..i + 1])[h] {
      ColumnStep(list, i, h);
    }
  }

  /** One more column adds its field, if it has any player. */
  lemma ColumnFieldsStep(cols: seq<seq<string>>, k: nat)
    requires k < |cols|
    ensures ColumnFields(cols[..k + 1]) == ColumnFields(cols[..k]) + (if cols[k] != [] then [ColumnField(cols[k])] else [])
  {
    assert cols[..k + 1][..k] == cols[..k];
  }

  /**
   * `groupPlayerList`: deals the players round-robin into three columns,
   * then adds a field for each column that received any.
   */
  method GroupPlayerList(title: string, description: string, players: ServerData.Players) returns (fields: seq<Field>)
    ensures fields == GroupedFields(title, description, players)
  {
    var list := players.list;
    var groups: seq<seq<string>> := [[], [], []];
    var i := 0;
    while i < |list|
      invariant 0 <= i <= |list|
      invariant groups == Columns(list[..i])
    {
      DealOne(list, i);
      var g := i % 3;
      groups := groups[g := groups[g] + [Entry(list[i])]];
      i := i + 1;
    }
    assert list[..i] == list;
    fields := [Summary(title, description, players.online, players.max)];
    var k := 0;
    while k < 3
      invariant 0 <= k <= 3
      invariant fields == [Summary(title, description, players.online, players.max)] + ColumnFields(groups[..k])
    {
      ColumnFieldsStep(groups, k);
      if groups[k] != [] {
        fields := fields + [ColumnField(groups[k])];
      }
      k := k + 1;
    }
    assert groups[..3] == groups;
  }

  /** `getPlayersList`: only the summary for an empty list or a bedrock server, the columns otherwise. */
  function PlayersList(title: string, description: string, players: ServerData.Players, kind: string): (fields: seq<Field>)
    ensures |fields| >= 1 && fields[0] == Summary(title, description, players.online, players.max)
    ensures players.list == [] || kind == "bedrock" ==> |fields| == 1
    ensures players.list != [] && kind != "bedrock" ==> fields == GroupedFields(title, description, players)
  {
    if players.list == [] || kind == "bedrock" then [Summary(title, description, players.online, players.max)]
    else GroupedFields(title, description, players)
  }

  /** What `getServerDataAndPlayerList` resolves with; `playerFields` is absent when only the data was asked for. */
  datatype Listing = Listing(data: ServerData.StatusData, isOnline: bool, playerFields: Option<seq<Field>>)

  /** The fixed offline answer of the catch block. */
  const OfflineListing := Listing(ServerData.StatusData(false, ServerData.Players(0, 0, []), "", ""), false, Some([]))

  function ListingFor(dataOnly: bool, result: ServerData.FetchResult, title: string, description: string, kind: string): (l: Listing)
    ensures result.Threw? ==> l == OfflineListing
    ensures result.Fetched? ==> l.data == result.snapshot.data && l.isOnline == result.snapshot.isOnline
    ensures result.Fetched? && dataOnly ==> l.playerFields.None?
    ensures result.Fetched? && !dataOnly && !result.snapshot.isOnline ==> l.playerFields == Some([])
    ensures result.Fetched? && !dataOnly && result.snapshot.isOnline ==>
      l.playerFields == Some(PlayersList(title, description, result.snapshot.data.players, kind))
  {
    match result
    case Threw(_) => OfflineListing
    case Fetched(s) =>
      if dataOnly then Listing(s.data, s.isOnline, None)
      else if s.isOnline then Listing(s.data, s.isOnline, Some(PlayersList(title, description, s.data.players, kind)))
      else Listing(s.data, s.isOnline, Some([]))
  }

  const DefaultPort := 25565

  /** The port suffix of the java form: empty exactly for the number 25565 (a string "25565" is shown). */
  function PortSuffix(port: Option<Json>): (s: string)
    ensures s == "" <==> port == Some(JNum(DefaultPort))
  {
    if port == Some(JNum(DefaultPort)) then "" else ":`" + StringOf(port) + "`"
  }

  /** The address text: two lines for bedrock, one bold line with an optional port for java. */
  function Address(ip: Option<Json>, port: Option<Json>, kind: Option<Json>): (text: string)
    ensures kind == Some(JStr("bedrock")) ==> text == "IP: `" + StringOf(ip) + "`\nPort: `" + StringOf(port) + "`"
    ensures kind != Some(JStr("bedrock")) ==> text == "**IP: `" + StringOf(ip) + "`" + PortSuffix(port) + "**"
  {
    if kind == Some(JStr("bedrock")) then "IP: `" + StringOf(ip) + "`\nPort: `" + StringOf(port) + "`"
    else "**IP: `" + StringOf(ip) + "`" + PortSuffix(port) + "**"
  }

  /** A java server on the default port is shown by its address alone. */
  lemma DefaultPortHidden(ip: string, kind: string)
    requires kind != "bedrock"
    ensures Address(Some(JStr(ip)), Some(JNum(DefaultPort)), Some(JStr(kind))) == "**IP: `" + ip + "`**"
  {
  }

  /** The start-up checks, in the order they run. */
  datatype ConfigCheck =
    | TimeZone | BotToken | PresenceStatus | StatusActivity | McType | McName | McVersion
    | GuildId | StatusInterval | PlayerCountInterval

  datatype ConfigError = Failed(check: ConfigCheck) | BadSlashName(message: string)

  /** The configuration values the checks read; a string the configuration lacks is `None`. */
  datatype AppConfig = AppConfig(
    timeZoneSupported: bool, token: string, statusOnline: Option<string>, statusOffline: Option<string>,
    activity: string, mcType: string, mcName: string, mcVersion: string,
    playerCountEnabled: bool, playerCountGuild: Option<string>, debug: bool,
    statusInterval: int, playerCountInterval: int)

  const Statuses := ["online", "idle", "dnd", "invisible"]
  const Activities := ["Playing", "Listening", "Watching", "Competing"]
  const TokenPlaceholder := "your-bot-token-here"

  predicate BadToken(token: string) {
    token == "" || TokenPlaceholder <= token
  }

  /** `statusOnline && statusOffline`: the value the presence check looks up. */
  function PresenceChecked(online: Option<string>, offline: Option<string>): Option<string> {
    if online.Some? && online.value != "" then offline else online
  }

  /** The presence check as written: the list is searched for `online && offline`, a single value. */
  predicate PresenceStatusInvalidAsWritten(online: Option<string>, offline: Option<string>) {
    var v := PresenceChecked(online, offline);
    !(v.Some? && v.value in Statuses)
  }

  /** A configured online status is not checked at all as written: an unknown one passes. */
  lemma UnknownOnlineStatusAccepted()
    ensures !PresenceStatusInvalidAsWritten(Some("busy"), Some("idle"))
    ensures PresenceStatusInvalid(Some("busy"), Some("idle"))
  {
    assert "busy" !in Statuses;
  }

  /** The presence check as intended: both statuses must be known ones. */
  predicate PresenceStatusInvalid(online: Option<string>, offline: Option<string>) {
    !(online.Some? && online.value in Statuses && offline.Some? && offline.value in Statuses)
  }

  /** The intended check rejects everything the written one rejects, and more. */
  lemma PresenceCheckStrengthened(online: Option<string>, offline: Option<string>)
    ensures PresenceStatusInvalidAsWritten(online, offline) ==> PresenceStatusInvalid(online, offline)
  {
    if online.Some? && online.value in Statuses {
      assert online.value != "";
    }
  }

  /** `!['Playing', 'Listening', 'Watching', 'Competing'].includes(activity)`. */
  predicate UnknownActivity(activity: string) {
    activity !in Activities
  }

  /** `!['java', 'bedrock'].includes(type)`. */
  predicate UnknownServerType(kind: string) {
    kind != "java" && kind != "bedrock"
  }

  /** The player-count channel is on but its guild is still the placeholder. */
  predicate PlaceholderGuild(enabled: bool, guild: Option<string>) {
    enabled && guild == Some("your-guild-id-here")
  }

  predicate Violated(cfg: AppConfig, c: ConfigCheck) {
    match c
    case TimeZone => !cfg.timeZoneSupported
    case BotToken => BadToken(cfg.token)
    case PresenceStatus => PresenceStatusInvalidAsWritten(cfg.statusOnline, cfg.statusOffline)
    case StatusActivity => UnknownActivity(cfg.activity)
    case McType => UnknownServerType(cfg.mcType)
    case McName => cfg.mcName == ""
    case McVersion => cfg.mcVersion == ""
    case GuildId => PlaceholderGuild(cfg.playerCountEnabled, cfg.playerCountGuild)
    case StatusInterval => !cfg.debug && cfg.statusInterval < 60
    case PlayerCountInterval => !cfg.debug && cfg.playerCountInterval < 60
  }

  /** Where a check runs in the sequence. */
  function Rank(c: ConfigCheck): nat {
    match c
    case TimeZone => 0 case BotToken => 1 case PresenceStatus => 2 case StatusActivity => 3
    case McType => 4 case McName => 5 case McVersion => 6 case GuildId => 7
    case StatusInterval => 8 case PlayerCountInterval => 9
  }

  /** Each failed check comes after the failed checks that run before it. */
  predicate Increasing(found: seq<ConfigCheck>) {
    forall i :: 0 <= i < |found| - 1 ==> Rank(found[i]) < Rank(found[i + 1])
  }

  /** `checkError`: a failed check is reported after those found so far, a passed one adds nothing. */
  function CheckError(found: seq<ConfigCheck>, condition: bool, c: ConfigCheck): seq<ConfigCheck> {
    if condition then found + [c] else found
  }

  /** No two checks run at the same place. */
  lemma RankInjective(c: ConfigCheck, d: ConfigCheck)
    ensures Rank(c) == Rank(d) ==> c == d
  {
  }

  /** How many checks run: the interval checks are skipped with debug logging. */
  function RunCount(cfg: AppConfig): nat {
    if cfg.debug then 8 else 10
  }

  /** A violated check is one of those that run. */
  lemma ViolatedRuns(cfg: AppConfig, c: ConfigCheck)
    ensures Violated(cfg, c) ==> Rank(c) < RunCount(cfg)
  {
  }

  /** The checks that run report exactly the violated ones, in the order they run. */
  lemma RunFailuresExact(cfg: AppConfig)
    ensures forall c :: c in Failures(cfg, RunCount(cfg)) <==> Violated(cfg, c)
    ensures Increasing(Failures(cfg, RunCount(cfg)))
  {
    FailuresExact(cfg, RunCount(cfg));
    forall c {
      ViolatedRuns(cfg, c);
    }
  }

  /** The check that runs in place `i`. */
  function CheckAt(i: nat): (c: ConfigCheck)
    requires i < 10
    ensures Rank(c) == i
  {
    if i == 0 then TimeZone else if i == 1 then BotToken else if i == 2 then PresenceStatus
    else if i == 3 then StatusActivity else if i == 4 then McType else if i == 5 then McName
    else if i == 6 then McVersion else if i == 7 then GuildId else if i == 8 then StatusInterval
    else PlayerCountInterval
  }

  /** The failed checks among the first `k`, in the order they run. */
  function Failures(cfg: AppConfig, k: nat): seq<ConfigCheck>
    requires k <= 10
  {
    if k == 0 then []
    else
      var c := CheckAt(k - 1);
      Failures(cfg, k - 1) + (if Violated(cfg, c) then [c] else [])
  }

  /** The first `k` checks report exactly the violated ones that run among them, each after those before it. */
  lemma {:induction false} FailuresExact(cfg: AppConfig, k: nat)
    requires k <= 10
    ensures forall c :: c in Failures(cfg, k) <==> Rank(c) < k && Violated(cfg, c)
    ensures Increasing(Failures(cfg, k))
  {
    if k > 0 {
      FailuresExact(cfg, k - 1);
      var c := CheckAt(k - 1);
      forall d ensures d in Failures(cfg, k) <==> Rank(d) < k && Violated(cfg, d) {
        RankInjective(c, d);
      }
    }
  }

  /** Running check `k` appends it exactly when it is violated. */
  lemma FailuresStep(cfg: AppConfig, k: nat)
    requires k < 10
    ensures Failures(cfg, k + 1) == CheckError(Failures(cfg, k), Violated(cfg, CheckAt(k)), CheckAt(k))
  {
  }

  /** The first eight checks, which always run. */
  method AlwaysChecked(cfg: AppConfig) returns (found: seq<ConfigCheck>)
    ensures found == Failures(cfg, 8)
  {
    found := CheckError([], !cfg.timeZoneSupported, TimeZone);
    FailuresStep(cfg, 0);
    found := CheckError(found, BadToken(cfg.token), BotToken);
    FailuresStep(cfg, 1);
    found := CheckError(found, PresenceStatusInvalidAsWritten(cfg.statusOnline, cfg.statusOffline), PresenceStatus);
    FailuresStep(cfg, 2);
    found := CheckError(found, UnknownActivity(cfg.activity), StatusActivity);
    FailuresStep(cfg, 3);
    found := CheckError(found, UnknownServerType(cfg.mcType), McType);
    FailuresStep(cfg, 4);
    found := CheckError(found, cfg.mcName == "", McName);
    FailuresStep(cfg, 5);
    found := CheckError(found, cfg.mcVersion == "", McVersion);
    FailuresStep(cfg, 6);
    found := CheckError(found, PlaceholderGuild(cfg.playerCountEnabled, cfg.playerCountGuild), GuildId);
    FailuresStep(cfg, 7);
  }

  /** The ten checks, in the order they run; the interval checks only without debug logging. */
  method FailedChecks(cfg: AppConfig) returns (found: seq<ConfigCheck>)
    ensures found == Failures(cfg, RunCount(cfg))
    ensures forall c :: c in found <==> Violated(cfg, c)
    ensures Increasing(found)
  {
    found := AlwaysChecked(cfg);
    if !cfg.debug {
      found := CheckError(found, cfg.statusInterval < 60, StatusInterval);
      found := CheckError(found, cfg.playerCountInterval < 60, PlayerCountInterval);
    }
    RunFailuresExact(cfg);
  }

  /**
   * The configuration check run at start-up: the failed checks in the order
   * they run, then the slash-command name errors; the process exits when
   * there is any error. The names are checked by a Unicode pattern outside
   * this model; `nameErrors` are its messages.
   */
  method CheckConfig(cfg: AppConfig, nameErrors: seq<string>) returns (errors: seq<ConfigError>, exits: bool)
    ensures errors == AsErrors(Failures(cfg, RunCount(cfg))) + AsNameErrors(nameErrors)
    ensures forall c :: Failed(c) in errors <==> Violated(cfg, c)
    ensures exits <==> errors != []
  {
    var found := FailedChecks(cfg);
    errors := AsErrors(found);
    var n := 0;
    while n < |nameErrors|
      invariant 0 <= n <= |nameErrors|
      invariant errors == AsErrors(found) + AsNameErrors(nameErrors[..n])
    {
      AsNameErrorsStep(nameErrors, n);
      errors := errors + [BadSlashName(nameErrors[n])];
      n := n + 1;
    }
    assert nameErrors[..n] == nameErrors;
    ReportedChecks(cfg, nameErrors);
    exits := errors != [];
  }

  /** The failed checks as error entries, in order. */
  function AsErrors(found: seq<ConfigCheck>): (r: seq<ConfigError>)
    ensures |r| == |found| && forall i :: 0 <= i < |found| ==> r[i] == Failed(found[i])
  {
    seq(|found|, i requires 0 <= i < |found| => Failed(found[i]))
  }

  /** The slash-command name messages as error entries, in order. */
  function AsNameErrors(messages: seq<string>): (r: seq<ConfigError>)
    ensures |r| == |messages| && forall i :: 0 <= i < |messages| ==> r[i] == BadSlashName(messages[i])
  {
    seq(|messages|, i requires 0 <= i < |messages| => BadSlashName(messages[i]))
  }

  lemma AsNameErrorsStep(messages: seq<string>, n: nat)
    requires n < |messages|
    ensures AsNameErrors(messages[..n + 1]) == AsNameErrors(messages[..n]) + [BadSlashName(messages[n])]
  {
  }

  /** The report names a check exactly when the check failed. */
  lemma ReportMembership(found: seq<ConfigCheck>, names: seq<string>)
    ensures forall c :: Failed(c) in AsErrors(found) + AsNameErrors(names) <==> c in found
  {
    var errors := AsErrors(found) + AsNameErrors(names);
    forall c ensures Failed(c) in errors <==> c in found {
      if c in found {
        var i :| 0 <= i < |found| && found[i] == c;
        assert errors[i] == Failed(c);
      }
    }
  }

  /** The failed checks come first, in the order they ran. */
  lemma ReportOrdered(found: seq<ConfigCheck>, names: seq<string>)
    requires Increasing(found)
    ensures var errors := AsErrors(found) + AsNameErrors(names);
      forall i :: 0 <= i < |errors| - 1 && errors[i + 1].Failed? ==> errors[i].Failed? && Rank(errors[i].check) < Rank(errors[i + 1].check)
  {
  }

  /** The slash-command name messages close the report, in order. */
  lemma ReportTail(found: seq<ConfigCheck>, names: seq<string>)
    ensures var errors := AsErrors(found) + AsNameErrors(names);
      |errors| >= |names| && forall i :: 0 <= i < |names| ==> errors[|errors| - |names| + i] == BadSlashName(names[i])
  {
  }

  /**
   * The report lists exactly the violated checks, each after the checks that
   * run before it, and then every slash-command name message in order.
   */
  predicate WellReported(cfg: AppConfig, errors: seq<ConfigError>, nameErrors: seq<string>) {
    && (forall c :: Failed(c) in errors <==> Violated(cfg, c))
    && (forall i :: 0 <= i < |errors| - 1 && errors[i + 1].Failed? ==> errors[i].Failed? && Rank(errors[i].check) < Rank(errors[i + 1].check))
    && |errors| >= |nameErrors|
    && (forall i :: 0 <= i < |nameErrors| ==> errors[|errors| - |nameErrors| + i] == BadSlashName(nameErrors[i]))
  }

  /** The start-up report is well formed. */
  lemma ReportedChecks(cfg: AppConfig, nameErrors: seq<string>)
    ensures WellReported(cfg, AsErrors(Failures(cfg, RunCount(cfg))) + AsNameErrors(nameErrors), nameErrors)
  {
    RunFailuresExact(cfg);
    ReportOf(cfg, Failures(cfg, RunCount(cfg)), nameErrors);
  }

  /** The report of `found`, the violated checks in increasing order, and the name messages. */
  lemma ReportOf(cfg: AppConfig, found: seq<ConfigCheck>, nameErrors: seq<string>)
    requires Increasing(found)
    requires forall c :: c in found <==> Violated(cfg, c)
    ensures WellReported(cfg, AsErrors(found) + AsNameErrors(nameErrors), nameErrors)
  {
    ReportMembership(found, nameErrors);
    ReportOrdered(found, nameErrors);
    ReportTail(found, nameErrors);
  }
}
