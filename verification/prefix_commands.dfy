/**
 * The prefix-command handler of src/events/messageCreate/prefixCommands.js:
 * which messages it looks at, how it splits a message into a command and
 * its arguments, and which command a message runs. Sending the embeds is
 * not part of this model; the handler's answer is the action it takes.
 */
module PrefixCommands {
  import opened Wrappers
  import Text
  import Embeds

  /** The text has no whitespace character. */
  predicate NoSpace(s: string) {
    forall k :: 0 <= k < |s| ==> !Text.IsSpace(s[k])
  }

  /** The index of the first whitespace character, if there is one. */
  function FirstSpace(s: string): (r: Option<nat>)
    ensures r.None? ==> NoSpace(s)
    ensures r.Some? ==> r.value < |s| && Text.IsSpace(s[r.value]) && NoSpace(s[..r.value])
    decreases |s|
  {
    if s == [] then None
    else if Text.IsSpace(s[0]) then Some(0)
    else match FirstSpace(s[1..])
      case None => None
      case Some(k) => assert s[..k + 1] == [s[0]] + s[1..][..k]; Some(k + 1)
  }

  /** The end of the run of whitespace that starts at `i`. */
  function SpaceRunEnd(s: string, i: nat): (j: nat)
    requires i < |s| && Text.IsSpace(s[i])
    ensures i < j <= |s|
    ensures forall k :: i <= k < j ==> Text.IsSpace(s[k])
    ensures j < |s| ==> !Text.IsSpace(s[j])
    decreases |s| - i
  {
    if i + 1 < |s| && Text.IsSpace(s[i + 1]) then SpaceRunEnd(s, i + 1) else i + 1
  }

  /** `s.split(/\s+/)`: the pieces between maximal runs of whitespace. */
  function SplitOnSpace(s: string): (parts: seq<string>)
    ensures |parts| >= 1
    ensures forall k :: 0 <= k < |parts| ==> NoSpace(parts[k])
    decreases |s|
  {
    match FirstSpace(s)
    case None => [s]
    case Some(i) => [s[..i]] + SplitOnSpace(s[SpaceRunEnd(s, i)..])
  }

  /** Neither end of the text is whitespace, as after `trim()`. */
  predicate Trimmed(t: string) {
    t == [] || (!Text.IsSpace(t[0]) && !Text.IsSpace(t[|t| - 1]))
  }

  lemma TrimIsTrimmed(s: string)
    ensures Trimmed(Text.Trim(s))
  {
    var t := Text.TrimStart(s);
    var r := Text.TrimEnd(t);
    if r != [] {
      assert r[0] == t[0];
    }
  }

  /** A trimmed text that is not empty splits into pieces none of which is empty. */
  lemma {:induction false} PiecesNotEmpty(t: string)
    requires t != [] && Trimmed(t)
    ensures forall k :: 0 <= k < |SplitOnSpace(t)| ==> SplitOnSpace(t)[k] != ""
    decreases |t|
  {
    match FirstSpace(t)
    case None =>
    case Some(i) =>
      var j := SpaceRunEnd(t, i);
      assert i > 0;
      assert j < |t|;
      var rest := t[j..];
      assert rest[0] == t[j] && rest[|rest| - 1] == t[|t| - 1];
      PiecesNotEmpty(rest);
      assert SplitOnSpace(t) == [t[..i]] + SplitOnSpace(rest);
  }

  /** The command word (lower-cased) and the remaining words of a message. */
  datatype Parsed = Parsed(command: string, args: seq<string>)

  /**
   * `content.slice(prefix.length).trim().split(/\s+/)`, with the first piece
   * lower-cased as the command: words without whitespace, and, unless nothing
   * follows the prefix, none of them empty.
   */
  function Parse(content: string, prefix: string): (p: Parsed)
    ensures NoSpace(p.command) && forall k :: 0 <= k < |p.args| ==> NoSpace(p.args[k])
    ensures !Text.Blank(content[if |prefix| <= |content| then |prefix| else |content|..]) ==>
      p.command != "" && forall k :: 0 <= k < |p.args| ==> p.args[k] != ""
  {
    var rest := content[if |prefix| <= |content| then |prefix| else |content|..];
    var words := SplitOnSpace(Text.Trim(rest));
    WordsOfText(rest);
    LowerKeepsSpaces(words[0]);
    Parsed(Text.Lower(words[0]), words[1..])
  }

  /** Unless the text is whitespace alone, none of its words is empty. */
  lemma WordsOfText(rest: string)
    ensures !Text.Blank(rest) ==> forall k :: 0 <= k < |SplitOnSpace(Text.Trim(rest))| ==> SplitOnSpace(Text.Trim(rest))[k] != ""
  {
    Text.TrimmedEmptyIffBlank(rest);
    TrimIsTrimmed(rest);
    if !Text.Blank(rest) {
      PiecesNotEmpty(Text.Trim(rest));
    }
  }

  /** Lower-casing neither makes nor removes whitespace. */
  lemma LowerKeepsSpaces(w: string)
    ensures NoSpace(w) ==> NoSpace(Text.Lower(w))
  {
  }

  /** A message with nothing after the prefix gives the empty command and no arguments. */
  lemma PrefixAloneIsEmptyCommand(prefix: string)
    ensures Parse(prefix, prefix) == Parsed("", [])
  {
    assert prefix[|prefix|..] == "";
  }

  /** The handler looks at a message only from a user, with prefix commands on, a prefix set, and the message starting with it. */
  predicate Handled(authorIsBot: bool, enabled: bool, prefix: string, content: string) {
    !authorIsBot && enabled && prefix != "" && prefix <= content
  }

  /**
   * `commandMatches(name)`: the command is the name or one of its aliases.
   * The name is compared first, so only a command other than the name looks
   * up the configuration entry, and throws when there is none.
   */
  function Matches(command: string, name: string, commands: map<string, Embeds.CommandSettings>): (r: Result<bool>)
    ensures r.Err? <==> command != name && name !in commands
    ensures command == name ==> r == Ok(true)
    ensures r.Ok? && command != name ==> (r.value <==> commands[name].alias.Some? && command in commands[name].alias.value)
  {
    if command == name then Ok(true)
    else if name !in commands then Err("Cannot read properties of undefined (reading 'alias')")
    else Ok(commands[name].alias.Some? && command in commands[name].alias.value)
  }

  /** What a message leads to. */
  datatype Action =
    | Ignored
    | HelpList
    | HelpDetail(name: string)
    | ShowMotd | ShowIp | ShowSite | ShowVersion | ShowPlayers | ShowStatus
    | NoMatch
    | Threw(message: string)

  /** The commands tried, in order. */
  const Order := ["help", "motd", "ip", "site", "version", "players", "status"]

  /** The configuration entries that are not commands. */
  predicate NotACommand(name: string) {
    name == "slashCommands" || name == "prefixCommands" || name == "language"
  }

  /** The configuration entries detailed help may be asked for. */
  function HelpTopics(commands: map<string, Embeds.CommandSettings>): (topics: set<string>)
    ensures forall k :: k in topics <==> k in commands && !NotACommand(k)
  {
    set k | k in commands && !NotACommand(k)
  }

  /** The action of command `name` once it matched. */
  function ActionFor(name: string, args: seq<string>, commands: map<string, Embeds.CommandSettings>): (a: Action)
    requires name in Order
    ensures name == "help" ==>
      (a.HelpDetail? <==> args != [] && args[0] != "" && Text.Lower(args[0]) in HelpTopics(commands))
    ensures a.HelpDetail? ==> args != [] && a.name == Text.Lower(args[0]) && a.name in commands && !NotACommand(a.name)
  {
    match name
    case "help" =>
      if args != [] && args[0] != "" && Text.Lower(args[0]) in HelpTopics(commands) then HelpDetail(Text.Lower(args[0]))
      else HelpList
    case "motd" => ShowMotd
    case "ip" => ShowIp
    case "site" => ShowSite
    case "version" => ShowVersion
    case "players" => ShowPlayers
    case _ => ShowStatus
  }

  /** Whether command `Order[i]` runs: it matches, and for `site` the server has a site. */
  function Runs(command: string, i: nat, commands: map<string, Embeds.CommandSettings>, site: string): Result<bool>
    requires i < |Order|
  {
    match Matches(command, Order[i], commands)
    case Err(m) => Err(m)
    case Ok(b) => Ok(b && (Order[i] != "site" || site != ""))
  }

  /** The chain of checks from `Order[i]` on: the first command that runs decides. */
  function DispatchFrom(command: string, args: seq<string>, commands: map<string, Embeds.CommandSettings>, site: string, i: nat): Action
    requires i <= |Order|
    decreases |Order| - i
  {
    if i == |Order| then NoMatch
    else match Runs(command, i, commands, site)
      case Err(m) => Threw(m)
      case Ok(true) => ActionFor(Order[i], args, commands)
      case Ok(false) => DispatchFrom(command, args, commands, site, i + 1)
  }

  /** The handler: ignore the message, or run the first command it names. */
  function Handle(authorIsBot: bool, enabled: bool, prefix: string, content: string,
                  commands: map<string, Embeds.CommandSettings>, site: string): (a: Action)
    ensures !Handled(authorIsBot, enabled, prefix, content) <==> a == Ignored
  {
    if !Handled(authorIsBot, enabled, prefix, content) then Ignored
    else
      var p := Parse(content, prefix);
      var a := DispatchFrom(p.command, p.args, commands, site, 0);
      NeverIgnoredFrom(p.command, p.args, commands, site, 0);
      a
  }

  lemma {:induction false} NeverIgnoredFrom(command: string, args: seq<string>, commands: map<string, Embeds.CommandSettings>, site: string, i: nat)
    requires i <= |Order|
    ensures DispatchFrom(command, args, commands, site, i) != Ignored
    decreases |Order| - i
  {
    if i < |Order| && Runs(command, i, commands, site) == Ok(false) {
      NeverIgnoredFrom(command, args, commands, site, i + 1);
    }
  }

  /** The first command that runs wins: when none before `Order[k]` runs and it does, its action is taken. */
  lemma {:induction false} FirstMatchWins(command: string, args: seq<string>, commands: map<string, Embeds.CommandSettings>, site: string, i: nat, k: nat)
    requires i <= k < |Order|
    requires forall j :: i <= j < k ==> Runs(command, j, commands, site) == Ok(false)
    requires Runs(command, k, commands, site) == Ok(true)
    ensures DispatchFrom(command, args, commands, site, i) == ActionFor(Order[k], args, commands)
    decreases k - i
  {
    if i < k {
      FirstMatchWins(command, args, commands, site, i + 1, k);
    }
  }

  /** A command that is no name and no alias of any command in the chain does nothing. */
  lemma {:induction false} UnknownCommandDoesNothing(command: string, args: seq<string>, commands: map<string, Embeds.CommandSettings>, site: string, i: nat)
    requires i <= |Order|
    requires forall j :: i <= j < |Order| ==> Matches(command, Order[j], commands) == Ok(false)
    ensures DispatchFrom(command, args, commands, site, i) == NoMatch
    decreases |Order| - i
  {
    if i < |Order| {
      UnknownCommandDoesNothing(command, args, commands, site, i + 1);
    }
  }

  /** Without a site, the site command never runs. */
  lemma {:induction false} NoSiteNoSiteCommand(command: string, args: seq<string>, commands: map<string, Embeds.CommandSettings>, i: nat)
    requires i <= |Order|
    ensures DispatchFrom(command, args, commands, "", i) != ShowSite
    decreases |Order| - i
  {
    if i < |Order| && Runs(command, i, commands, "") == Ok(false) {
      NoSiteNoSiteCommand(command, args, commands, i + 1);
    }
  }

  /** `help` is compared before any configuration entry is read: it answers even with no commands configured. */
  lemma HelpNeedsNoEntry(args: seq<string>, site: string)
    ensures DispatchFrom("help", args, map[], site, 0) == HelpList
  {
    assert Runs("help", 0, map[], site) == Ok(true);
  }

  /** Two configurations with the same entries and alias lists. */
  predicate SameAliases(a: map<string, Embeds.CommandSettings>, b: map<string, Embeds.CommandSettings>) {
    a.Keys == b.Keys && forall k :: k in a ==> a[k].alias == b[k].alias
  }

  /** The per-command `enabled` flags are never read: only names and aliases decide. */
  lemma {:induction false} EnabledFlagsIgnored(command: string, args: seq<string>, a: map<string, Embeds.CommandSettings>,
                                               b: map<string, Embeds.CommandSettings>, site: string, i: nat)
    requires i <= |Order| && SameAliases(a, b)
    ensures DispatchFrom(command, args, a, site, i) == DispatchFrom(command, args, b, site, i)
    decreases |Order| - i
  {
    if i < |Order| {
      assert HelpTopics(a) == HelpTopics(b);
      EnabledFlagsIgnored(command, args, a, b, site, i + 1);
    }
  }
}
