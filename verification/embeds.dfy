/**
 * The embeds of src/embeds.js: placeholder substitution in the translated
 * texts, the offline, MOTD, player-list and status embeds, the help embed,
 * and the uptime shown by the bot-information embed. Colours, thumbnails,
 * authors and timestamps are not part of this model.
 */
module Embeds {
  import opened Wrappers
  import opened JsonDoc
  import Text
  import Index

  /** `{key}`. */
  function Placeholder(key: string): (p: string)
    ensures |p| == |key| + 2 && p[0] == '{' && p[|p| - 1] == '}'
  {
    "{" + key + "}"
  }

  /**
   * The template after `replacePlaceholders`: for each entry in insertion
   * order, every `{key}` is replaced, matching the key in any letter case.
   */
  function Substituted(template: string, reps: seq<Text.Replacement>): string
    decreases |reps|
  {
    if reps == [] then template
    else
      var last := reps[|reps| - 1];
      Text.ReplaceAll(Substituted(template, reps[..|reps| - 1]), Placeholder(last.key), last.value, true)
  }

  /** `replacePlaceholders`: the loop over the entries, each replacing its placeholder everywhere. */
  method ReplacePlaceholders(template: string, reps: seq<Text.Replacement>) returns (result: string)
    ensures result == Substituted(template, reps)
  {
    result := template;
    for i := 0 to |reps|
      invariant result == Substituted(template, reps[..i])
    {
      assert reps[..i + 1][..i] == reps[..i];
      result := Text.ReplaceAll(result, Placeholder(reps[i].key), reps[i].value, true);
    }
    assert reps[..|reps|] == reps;
  }

  /** Only `{` itself is `{` once lower-cased. */
  lemma LowerBrace(c: char)
    ensures Text.LowerChar(c) == '{' <==> c == '{'
  {
  }

  /** A string without `{` holds no placeholder, in any letter case. */
  lemma NoBraceNoPlaceholder(s: string, key: string)
    requires '{' !in s
    ensures forall i: nat :: !Text.MatchesAt(s, i, Placeholder(key), true)
  {
    var p := Placeholder(key);
    forall i: nat | Text.MatchesAt(s, i, p, true) ensures false {
      assert Text.Lower(s[i..i + |p|])[0] == Text.Lower(p)[0];
      LowerBrace(s[i]);
    }
  }

  /** A template without `{` comes back unchanged, whatever the replacements. */
  lemma {:induction false} BracelessTemplateKept(template: string, reps: seq<Text.Replacement>)
    requires '{' !in template
    ensures Substituted(template, reps) == template
    decreases |reps|
  {
    if reps != [] {
      var last := reps[|reps| - 1];
      BracelessTemplateKept(template, reps[..|reps| - 1]);
      NoBraceNoPlaceholder(template, last.key);
      Text.ReplaceAllWithoutMatch(template, Placeholder(last.key), last.value, true);
    }
  }

  /** Lower-casing a concatenation lower-cases each part. */
  lemma LowerAppend(a: string, b: string)
    ensures Text.Lower(a + b) == Text.Lower(a) + Text.Lower(b)
  {
  }

  /** A template that is one placeholder, in any letter case, becomes the value. */
  lemma PlaceholderInAnyCase(written: string, key: string, value: string)
    requires Text.Lower(written) == Text.Lower(key)
    ensures Substituted(Placeholder(written), [Text.Replacement(key, value)]) == value
  {
    var s, p := Placeholder(written), Placeholder(key);
    LowerAppend("{" + written, "}");
    LowerAppend("{", written);
    LowerAppend("{" + key, "}");
    LowerAppend("{", key);
    assert s[0..|p|] == s;
    assert Text.MatchesAt(s, 0, p, true);
    assert s[|p|..] == [];
    assert Text.ReplaceAll(s, p, value, true) == value + Text.ReplaceAll([], p, value, true);
    assert [Text.Replacement(key, value)][..0] == [];
    assert Substituted(s, [Text.Replacement(key, value)]) == Text.ReplaceAll(s, p, value, true);
  }

  /**
   * The entries are applied in insertion order, so a value put in by an
   * earlier entry is searched for the placeholders of later ones, but not
   * the other way round.
   */
  lemma EntriesAppliedInOrder()
    ensures Substituted("{site}", [Text.Replacement("site", "{version}"), Text.Replacement("version", "1.21")]) == "1.21"
    ensures Substituted("{site}", [Text.Replacement("version", "1.21"), Text.Replacement("site", "{version}")]) == "{version}"
  {
    var first := [Text.Replacement("site", "{version}"), Text.Replacement("version", "1.21")];
    assert first[..1] == [Text.Replacement("site", "{version}")];
    PlaceholderInAnyCase("site", "site", "{version}");
    PlaceholderInAnyCase("version", "version", "1.21");
    var second := [Text.Replacement("version", "1.21"), Text.Replacement("site", "{version}")];
    assert second[..1] == [Text.Replacement("version", "1.21")];
    assert second[..1][..0] == [];
    assert Substituted("{site}", second[..1]) == "{site}";
    PlaceholderInAnyCase("site", "site", "{version}");
  }

  /** The server settings of `config.mcserver` the embeds show. */
  datatype McServer = McServer(ip: string, port: int, kind: string, version: string, site: string)

  /** The `ip` text: the address in bedrock or java form. */
  function ServerAddress(server: McServer): string {
    Index.Address(Some(JStr(server.ip)), Some(JNum(server.port)), Some(JStr(server.kind)))
  }

  /** The `port` text: the java port suffix, empty for the default port. */
  function PortText(server: McServer): string {
    Index.PortSuffix(Some(JNum(server.port)))
  }

  /** The parts of an embed the bot fills with text. */
  datatype Embed = Embed(title: string, description: Option<string>, fields: seq<Index.Field>, footer: Option<string>)

  /** `embedTranslation.offlineEmbed`. */
  datatype OfflineTexts = OfflineTexts(title: string, footer: string, description: Option<string>)

  /** The embed of the catch block of `offlineStatus`. */
  const FallbackOffline := Embed("Server Offline", Some("Error creating embed"), [], None)

  /**
   * The guarded description of `offlineStatus`: present only when the
   * translated one holds more than whitespace, with `{ip}` and `{port}`
   * filled in.
   */
  function OfflineDescription(description: Option<string>, server: McServer): (r: Option<string>)
    ensures r.Some? <==> description.Some? && !Text.Blank(description.value)
  {
    match description
    case None => None
    case Some(d) =>
      Text.TrimmedEmptyIffBlank(d);
      if d != "" && Text.Trim(d) != "" then
        Some(Substituted(d, [Text.Replacement("ip", ServerAddress(server)), Text.Replacement("port", PortText(server))]))
      else None
  }

  /**
   * `offlineStatus`: the offline title, footer and guarded description. A
   * missing `offlineEmbed` section throws, and the catch block builds the
   * fallback embed.
   */
  function OfflineStatus(texts: Option<OfflineTexts>, server: McServer): (e: Embed)
    ensures texts.None? ==> e == FallbackOffline
    ensures texts.Some? ==> e.title == texts.value.title && e.footer == Some(texts.value.footer) && e.fields == []
    ensures texts.Some? ==> e.description == OfflineDescription(texts.value.description, server)
  {
    match texts
    case None => FallbackOffline
    case Some(t) => Embed(t.title, OfflineDescription(t.description, server), [], Some(t.footer))
  }

  /** A description without placeholders is shown as translated, untrimmed. */
  lemma PlainOfflineDescriptionShown(t: OfflineTexts, server: McServer)
    requires t.description.Some? && !Text.Blank(t.description.value) && '{' !in t.description.value
    ensures OfflineStatus(Some(t), server).description == t.description
  {
    BracelessTemplateKept(t.description.value, [Text.Replacement("ip", ServerAddress(server)), Text.Replacement("port", PortText(server))]);
  }

  /** `embedTranslation.motd`. */
  datatype MotdTexts = MotdTexts(title: string, description: string)

  /** `motdEmbed`: the offline embed when the server is offline, else the MOTD filled into both texts. */
  function MotdEmbed(listing: Index.Listing, motd: MotdTexts, offline: Option<OfflineTexts>, server: McServer): (e: Embed)
    ensures !listing.isOnline ==> e == OfflineStatus(offline, server)
    ensures listing.isOnline ==> e.footer == Some("Checked at") && e.fields == []
    ensures listing.isOnline ==> e.title == Substituted(motd.title, [Text.Replacement("motd", listing.data.motd)])
  {
    if !listing.isOnline then OfflineStatus(offline, server)
    else
      var reps := [Text.Replacement("motd", listing.data.motd)];
      Embed(Substituted(motd.title, reps), Some(Substituted(motd.description, reps)), [], Some("Checked at"))
  }

  function FieldsOf(listing: Index.Listing): seq<Index.Field> {
    match listing.playerFields
    case Some(fields) => fields
    case None => []
  }

  /**
   * `playerList`: the offline embed when the server is offline; else the
   * player fields with the offline footer, whose lookup throws without an
   * `offlineEmbed` section and so leads to the offline embed again.
   */
  function PlayerListEmbed(listing: Index.Listing, offline: Option<OfflineTexts>, server: McServer): (e: Embed)
    ensures !listing.isOnline || offline.None? ==> e == OfflineStatus(offline, server)
    ensures listing.isOnline && offline.Some? ==> e.fields == FieldsOf(listing) && e.footer == Some(offline.value.footer)
  {
    if !listing.isOnline then OfflineStatus(offline, server)
    else match offline
      case None => OfflineStatus(offline, server)
      case Some(t) => Embed("", None, FieldsOf(listing), Some(t.footer))
  }

  /** `embedTranslation.onlineEmbed`. */
  datatype OnlineTexts = OnlineTexts(title: string, fieldOne: string, fieldTwo: string, siteText: string, footer: string)

  /** `editDescriptionFields`: the trimmed text with the address, MOTD, version and site text filled in. */
  function Described(text: string, online: OnlineTexts, server: McServer, motd: string): string {
    var siteText := if server.site != "" then Substituted(online.siteText, [Text.Replacement("site", server.site)]) else "";
    var reps := [Text.Replacement("ip", ServerAddress(server)), Text.Replacement("motd", motd),
                 Text.Replacement("version", server.version), Text.Replacement("siteText", siteText)];
    Substituted(Text.Trim(text), reps)
  }

  /** A text without placeholders is only trimmed. */
  lemma PlainTextTrimmed(text: string, online: OnlineTexts, server: McServer, motd: string)
    requires '{' !in text
    ensures Described(text, online, server, motd) == Text.Trim(text)
  {
    assert '{' !in Text.Trim(text) by {
      var t := Text.TrimStart(text);
      assert forall i :: 0 <= i < |Text.TrimEnd(t)| ==> Text.TrimEnd(t)[i] == text[|text| - |t| + i];
    }
    var siteText := if server.site != "" then Substituted(online.siteText, [Text.Replacement("site", server.site)]) else "";
    BracelessTemplateKept(Text.Trim(text), [Text.Replacement("ip", ServerAddress(server)), Text.Replacement("motd", motd),
                 Text.Replacement("version", server.version), Text.Replacement("siteText", siteText)]);
  }

  /**
   * `statusEmbed` with `OnlineEmbed`: the offline embed when the server is
   * offline; else the player fields followed by one field of the two
   * described texts. A missing `onlineEmbed` section throws, and the catch
   * block gives the offline embed.
   */
  function StatusEmbed(listing: Index.Listing, online: Option<OnlineTexts>, offline: Option<OfflineTexts>, server: McServer): (e: Embed)
    ensures !listing.isOnline || online.None? ==> e == OfflineStatus(offline, server)
    ensures listing.isOnline && online.Some? ==>
      |e.fields| == |FieldsOf(listing)| + 1 && e.fields[..|FieldsOf(listing)|] == FieldsOf(listing)
      && e.fields[|FieldsOf(listing)|] == Index.Field(Described(online.value.fieldOne, online.value, server, listing.data.motd),
                                                      Described(online.value.fieldTwo, online.value, server, listing.data.motd), false)
      && e.footer == Some(online.value.footer)
  {
    if !listing.isOnline then OfflineStatus(offline, server)
    else match online
      case None => OfflineStatus(offline, server)
      case Some(t) =>
        var motd := listing.data.motd;
        var extra := Index.Field(Described(t.fieldOne, t, server, motd), Described(t.fieldTwo, t, server, motd), false);
        Embed(Described(t.title, t, server, motd), None, FieldsOf(listing) + [extra], Some(t.footer))
  }

  /** A command as fetched from Discord. */
  datatype Command = Command(name: string, id: string, description: string)

  /** An entry of `config.commands`; an entry that is not a command object has no alias list. */
  datatype CommandSettings = CommandSettings(enabled: bool, alias: Option<seq<string>>)

  /** `embedTranslation.help`. */
  datatype HelpTexts = HelpTexts(title: string, description: string, listFormat: string, infoTitle: string, infoDescription: string)

  /** `name.charAt(0).toUpperCase() + name.slice(1)`. */
  function Capitalized(name: string): (r: string)
    ensures |r| == |name|
    ensures name != [] ==> r[0] == Text.UpperChar(name[0]) && r[1..] == name[1..]
  {
    if name == [] then [] else [Text.UpperChar(name[0])] + name[1..]
  }

  /** The aliases, each in backticks, separated by commas; empty when there are none. */
  function AliasText(aliases: seq<string>): (r: string)
    ensures r == "" <==> aliases == []
    ensures aliases != [] ==> r[0] == '`' && r[|r| - 1] == '`'
  {
    if |aliases| > 0 then "`" + Text.Join(aliases, "`, `") + "`" else ""
  }

  /** `</name:id>`. */
  function Mention(c: Command): string {
    "</" + c.name + ":" + c.id + ">"
  }

  /** The first fetched command with the given name. */
  function FindCommand(fetched: seq<Command>, name: string): (r: Option<nat>)
    ensures r.Some? ==> r.value < |fetched| && fetched[r.value].name == name
    ensures r.Some? ==> forall j :: 0 <= j < r.value ==> fetched[j].name != name
    ensures r.None? ==> forall j :: 0 <= j < |fetched| ==> fetched[j].name != name
    decreases |fetched|
  {
    if fetched == [] then None
    else if fetched[0].name == name then Some(0)
    else match FindCommand(fetched[1..], name)
      case None => None
      case Some(k) => Some(k + 1)
  }

  /** The names `config.commands` marks enabled. */
  function Visible(commands: map<string, CommandSettings>): (names: set<string>)
    ensures forall k :: k in names <==> k in commands && commands[k].enabled
  {
    set k | k in commands && commands[k].enabled
  }

  /** One line of the command list. */
  function HelpLine(c: Command, format: string): string {
    Substituted(format, [Text.Replacement("slashCmdMention", Mention(c)), Text.Replacement("cmdDescription", c.description)])
  }

  /** The lines of the fetched commands whose names are visible, in fetched order. */
  function HelpLines(fetched: seq<Command>, visible: set<string>, format: string): seq<string>
    decreases |fetched|
  {
    if fetched == [] then []
    else
      var last := fetched[|fetched| - 1];
      HelpLines(fetched[..|fetched| - 1], visible, format) + (if last.name in visible then [HelpLine(last, format)] else [])
  }

  /** The `forEach` over the fetched commands, pushing a line for each visible one. */
  method ListCommands(fetched: seq<Command>, commands: map<string, CommandSettings>, format: string) returns (lines: seq<string>)
    ensures lines == HelpLines(fetched, Visible(commands), format)
  {
    var visible := Visible(commands);
    lines := [];
    for i := 0 to |fetched|
      invariant lines == HelpLines(fetched[..i], visible, format)
    {
      assert fetched[..i + 1][..i] == fetched[..i];
      if fetched[i].name in visible {
        lines := lines + [HelpLine(fetched[i], format)];
      }
    }
    assert fetched[..|fetched|] == fetched;
  }

  /** The list of two runs of fetched commands is the list of the first followed by the list of the second. */
  lemma {:induction false} HelpLinesAppend(a: seq<Command>, b: seq<Command>, visible: set<string>, format: string)
    ensures HelpLines(a + b, visible, format) == HelpLines(a, visible, format) + HelpLines(b, visible, format)
    decreases |b|
  {
    if b == [] {
      assert a + b == a;
    } else {
      var b', last := b[..|b| - 1], b[|b| - 1];
      var tail := if last.name in visible then [HelpLine(last, format)] else [];
      assert (a + b)[..|a + b| - 1] == a + b';
      assert (a + b)[|a + b| - 1] == last;
      HelpLinesAppend(a, b', visible, format);
      assert HelpLines(b, visible, format) == HelpLines(b', visible, format) + tail;
      assert HelpLines(a + b, visible, format) == HelpLines(a + b', visible, format) + tail;
    }
  }

  /** One fetched command is listed, as its own line, exactly when its name is visible. */
  lemma HelpLineOfOne(c: Command, visible: set<string>, format: string)
    ensures HelpLines([c], visible, format) == if c.name in visible then [HelpLine(c, format)] else []
  {
    assert [c][..0] == [];
  }

  /** A command hidden in the configuration is left out, wherever it was fetched. */
  lemma HiddenCommandLeftOut(a: seq<Command>, c: Command, b: seq<Command>, visible: set<string>, format: string)
    requires c.name !in visible
    ensures HelpLines(a + [c] + b, visible, format) == HelpLines(a + b, visible, format)
  {
    HelpLinesAppend(a + [c], b, visible, format);
    HelpLinesAppend(a, [c], visible, format);
    HelpLineOfOne(c, visible, format);
    HelpLinesAppend(a, b, visible, format);
  }

  /** What `helpEmbed` resolves with: `undefined`, a rejection, or an embed. */
  datatype HelpReply = NoSuchCommand | HelpFailed(message: string) | HelpShown(embed: Embed)

  /**
   * `helpEmbed`: with a command name, the detailed help of the first fetched
   * command of that name, or nothing when none has it; reading the alias
   * list of a command the configuration does not describe throws. Without a
   * name, the list of the visible fetched commands after the description.
   */
  function HelpEmbed(fetched: seq<Command>, commandName: Option<string>, commands: map<string, CommandSettings>,
                     prefix: string, botName: string, texts: HelpTexts): (r: HelpReply)
    ensures commandName.Some? && commandName.value != "" && FindCommand(fetched, commandName.value).None? ==> r == NoSuchCommand
    ensures commandName.Some? && commandName.value != "" && FindCommand(fetched, commandName.value).Some? ==>
      (r.HelpFailed? <==> commandName.value !in commands || commands[commandName.value].alias.None?)
    ensures r.HelpFailed? && commandName.Some? && commandName.value !in commands ==>
      r.message == "Cannot read properties of undefined (reading 'alias')"
    ensures r.HelpShown? && commandName.Some? && commandName.value != "" ==>
      r.embed.title == Substituted(texts.infoTitle, [Text.Replacement("cmdName", Capitalized(commandName.value))])
    ensures commandName.None? || commandName.value == "" ==>
      r == HelpShown(Embed(Substituted(texts.title, [Text.Replacement("prefix", prefix), Text.Replacement("botName", botName)]),
                           Some(Substituted(texts.description, [Text.Replacement("prefix", prefix), Text.Replacement("botName", botName)])
                                + "\n" + Text.Join(HelpLines(fetched, Visible(commands), texts.listFormat), "\n")),
                           [], None))
  {
    if commandName.Some? && commandName.value != "" then
      var name := commandName.value;
      match FindCommand(fetched, name)
      case None => NoSuchCommand
      case Some(k) =>
        var c := fetched[k];
        if c.name !in commands then HelpFailed("Cannot read properties of undefined (reading 'alias')")
        else if commands[c.name].alias.None? then HelpFailed("Cannot read properties of undefined (reading 'length')")
        else
          var title := Substituted(texts.infoTitle, [Text.Replacement("cmdName", Capitalized(c.name))]);
          var description := Substituted(texts.infoDescription, [
            Text.Replacement("cmdSlashMention", Mention(c)), Text.Replacement("cmdDescription", c.description),
            Text.Replacement("prefixCmd", prefix + c.name), Text.Replacement("prefixCmdAlias", AliasText(commands[c.name].alias.value))]);
          HelpShown(Embed(title, Some(description), [], None))
    else
      var reps := [Text.Replacement("prefix", prefix), Text.Replacement("botName", botName)];
      var lines := HelpLines(fetched, Visible(commands), texts.listFormat);
      HelpShown(Embed(Substituted(texts.title, reps), Some(Substituted(texts.description, reps) + "\n" + Text.Join(lines, "\n")), [], None))
  }

  /** The days, hours, minutes and seconds the bot-information embed shows. */
  datatype Uptime = Uptime(days: nat, hours: nat, minutes: nat, seconds: nat)

  /**
   * The uptime as written: the hours are derived from the minutes within the
   * hour and the days from those hours, and the seconds are the whole uptime.
   */
  function UptimeAsWritten(seconds: nat): Uptime {
    var minutes := seconds / 60 % 60;
    var hours := minutes / 60 % 24;
    Uptime(hours / 24, hours, minutes, seconds)
  }

  /** As written, the hours and days are 0 whatever the uptime. */
  lemma UptimeAsWrittenHasNoHours(seconds: nat)
    ensures UptimeAsWritten(seconds).hours == 0 && UptimeAsWritten(seconds).days == 0
  {
    assert seconds / 60 % 60 < 60;
  }

  /** A day and an hour of uptime is shown as written as 0 days, 0 hours, 0 minutes and 90000 seconds. */
  lemma DayAndHourAsWritten()
    ensures UptimeAsWritten(90000) == Uptime(0, 0, 0, 90000)
    ensures Uptimed(90000) == Uptime(1, 1, 0, 0)
  {
  }

  /** The uptime split into whole days, hours within the day, minutes within the hour and seconds within the minute. */
  function Uptimed(seconds: nat): (u: Uptime)
    ensures u.hours < 24 && u.minutes < 60 && u.seconds < 60
    ensures ((u.days * 24 + u.hours) * 60 + u.minutes) * 60 + u.seconds == seconds
  {
    var totalMinutes := seconds / 60;
    var totalHours := totalMinutes / 60;
    assert totalMinutes * 60 + seconds % 60 == seconds;
    assert totalHours * 60 + totalMinutes % 60 == totalMinutes;
    assert totalHours / 24 * 24 + totalHours % 24 == totalHours;
    Uptime(totalHours / 24, totalHours % 24, totalMinutes % 60, seconds % 60)
  }
}
