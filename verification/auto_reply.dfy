/**
 * The auto-reply handler of src/events/messageCreate/auto-reply.js: which
 * messages it answers, when a trigger word counts as said, and the replies
 * it sends, in order. Whether a character is a letter (the `\p{L}` class)
 * is a parameter.
 */
module AutoReply {
  import Text
  import Index

  /**
   * Trigger word `word` occurs at `i`, ignoring letter case, with the start
   * of the text or a character that is not a letter before it, and the end
   * of the text or a character that is not a letter after it.
   */
  predicate TriggerAt(content: string, i: nat, word: string, isLetter: char -> bool) {
    Text.MatchesAt(content, i, word, true)
    && (i == 0 || !isLetter(content[i - 1]))
    && (i + |word| == |content| || !isLetter(content[i + |word|]))
  }

  /**
   * The alternatives of the pattern `(${words.join('|')})`: the words
   * themselves, or the one empty alternative `[].join('|')` leaves.
   */
  function Alternatives(words: seq<string>): (r: seq<string>)
    ensures |r| > 0
    ensures words != [] ==> r == words
  {
    if words == [] then [""] else words
  }

  /** The test of the trigger pattern built from the words: one of its alternatives occurs as a word somewhere. */
  predicate Fires(content: string, words: seq<string>, isLetter: char -> bool) {
    var alts := Alternatives(words);
    exists i: nat, k | i <= |content| && 0 <= k < |alts| :: TriggerAt(content, i, alts[k], isLetter)
  }

  /** Two ends of a gap with no letter on either side: the start or a non-letter before, the end or a non-letter after. */
  predicate Boundary(content: string, i: nat, isLetter: char -> bool)
    requires i <= |content|
  {
    (i == 0 || !isLetter(content[i - 1])) && (i == |content| || !isLetter(content[i]))
  }

  /**
   * An empty trigger list still fires, through its empty alternative,
   * exactly where no letter stands on either side of some position: an
   * empty message, one that starts or ends with a non-letter, or one with
   * two non-letters in a row.
   */
  lemma EmptyListFires(content: string, isLetter: char -> bool)
    ensures Fires(content, [], isLetter) <==> exists i: nat | i <= |content| :: Boundary(content, i, isLetter)
    ensures Fires(content, [], isLetter) <==>
      || content == []
      || !isLetter(content[0])
      || !isLetter(content[|content| - 1])
      || exists j :: 0 < j < |content| && !isLetter(content[j - 1]) && !isLetter(content[j])
  {
    var alts := Alternatives([]);
    assert alts == [""];
    if Fires(content, [], isLetter) {
      var i: nat, k :| i <= |content| && 0 <= k < |alts| && TriggerAt(content, i, alts[k], isLetter);
      assert Boundary(content, i, isLetter);
      if i == 0 && content != [] {
        assert !isLetter(content[0]);
      } else if i == |content| && content != [] {
        assert !isLetter(content[|content| - 1]);
      } else if 0 < i < |content| {
        var j: int := i;
        assert 0 < j < |content| && !isLetter(content[j - 1]) && !isLetter(content[j]);
      }
    }
    if exists i: nat | i <= |content| :: Boundary(content, i, isLetter) {
      var i: nat :| i <= |content| && Boundary(content, i, isLetter);
      BoundaryFires(content, i, isLetter);
    }
    if content == [] || !isLetter(content[0]) {
      BoundaryFires(content, 0, isLetter);
    }
    if content != [] && !isLetter(content[|content| - 1]) {
      BoundaryFires(content, |content|, isLetter);
    }
    if exists j :: 0 < j < |content| && !isLetter(content[j - 1]) && !isLetter(content[j]) {
      var j :| 0 < j < |content| && !isLetter(content[j - 1]) && !isLetter(content[j]);
      BoundaryFires(content, j, isLetter);
    }
  }

  /** The empty alternative matches at every boundary. */
  lemma BoundaryFires(content: string, i: nat, isLetter: char -> bool)
    requires i <= |content| && Boundary(content, i, isLetter)
    ensures Fires(content, [], isLetter)
  {
    assert content[i..i] == [];
    assert TriggerAt(content, i, Alternatives([])[0], isLetter);
  }

  /** With no trigger words configured, an empty (attachment-only) message and "hi!" both fire. */
  lemma EmptyListFiresOnBareMessages(isLetter: char -> bool)
    requires !isLetter('!')
    ensures Fires("", [], isLetter)
    ensures Fires("hi!", [], isLetter)
  {
    EmptyListFires("", isLetter);
    EmptyListFires("hi!", isLetter);
    assert "hi!"[|"hi!"| - 1] == '!';
  }

  /** `autoReply.<kind>`: whether the reply is on, and its trigger words. */
  datatype Trigger = Trigger(enabled: bool, words: seq<string>)

  datatype Settings = Settings(enabled: bool, ip: Trigger, site: Trigger, version: Trigger, status: Trigger)

  /** The reply texts of the auto-reply translation file. */
  datatype ReplyTexts = ReplyTexts(ip: string, site: string, version: string, online: string, offline: string)

  /** The parts of `config.mcserver` the replies use. */
  datatype Server = Server(ip: string, port: int, site: string, version: string)

  const OnlinePlaceholder := "{playerOnline}"
  const MaxPlaceholder := "{playerMax}"

  /** A rendered count shares no character with the status placeholders. */
  lemma CountApart(n: int)
    ensures forall c :: c in Text.IntToString(n) ==> c !in OnlinePlaceholder && c !in MaxPlaceholder
  {
  }

  /** The status reply: the online text with both counts filled in, none of the placeholders left, or the offline text. */
  function StatusText(listing: Index.Listing, texts: ReplyTexts): (r: string)
    ensures !listing.isOnline ==> r == texts.offline
    ensures listing.isOnline ==> !Text.Contains(r, OnlinePlaceholder) && !Text.Contains(r, MaxPlaceholder)
  {
    if !listing.isOnline then texts.offline
    else
      var a, b := Text.IntToString(listing.data.players.online), Text.IntToString(listing.data.players.max);
      var once := Text.ReplaceAll(texts.online, OnlinePlaceholder, a, false);
      CountApart(listing.data.players.online);
      CountApart(listing.data.players.max);
      Text.ReplaceAllLeavesNoMatch(texts.online, OnlinePlaceholder, a, OnlinePlaceholder);
      Text.ReplaceAllLeavesNoMatch(once, MaxPlaceholder, b, OnlinePlaceholder);
      Text.ReplaceAllLeavesNoMatch(once, MaxPlaceholder, b, MaxPlaceholder);
      Text.ReplaceAll(once, MaxPlaceholder, b, false)
  }

  /** The message is looked at: auto-reply is on, the author is no bot, and the message does not start with the command prefix. */
  predicate Answered(settings: Settings, authorIsBot: bool, prefix: string, content: string) {
    settings.enabled && !authorIsBot && !(prefix <= content)
  }

  function On(b: bool): nat {
    if b then 1 else 0
  }

  predicate IpAsked(settings: Settings, content: string, isLetter: char -> bool) {
    Fires(content, settings.ip.words, isLetter) && settings.ip.enabled
  }

  predicate SiteAsked(settings: Settings, content: string, server: Server, isLetter: char -> bool) {
    Fires(content, settings.site.words, isLetter) && settings.site.enabled && server.site != ""
  }

  predicate VersionAsked(settings: Settings, content: string, isLetter: char -> bool) {
    Fires(content, settings.version.words, isLetter) && settings.version.enabled
  }

  predicate StatusAsked(settings: Settings, content: string, isLetter: char -> bool) {
    Fires(content, settings.status.words, isLetter) && settings.status.enabled
  }

  /** The address reply: `{ip}` and `{port}` filled in everywhere. */
  function IpText(texts: ReplyTexts, server: Server): string {
    Text.ReplaceAll(Text.ReplaceAll(texts.ip, "{ip}", server.ip, false), "{port}", Text.IntToString(server.port), false)
  }

  /** The site reply: `{site}` filled in everywhere. */
  function SiteText(texts: ReplyTexts, server: Server): string {
    Text.ReplaceAll(texts.site, "{site}", server.site, false)
  }

  /** The version reply: `{version}` filled in everywhere. */
  function VersionText(texts: ReplyTexts, server: Server): string {
    Text.ReplaceAll(texts.version, "{version}", server.version, false)
  }

  /**
   * The replies sent, in order: address, site, version and status, each
   * when its trigger fires and it is on, the site one only when there is a
   * site. `listing` is what the status check fetches.
   */
  function Replies(settings: Settings, authorIsBot: bool, prefix: string, content: string, texts: ReplyTexts,
                   server: Server, listing: Index.Listing, isLetter: char -> bool): (r: seq<string>)
    ensures !Answered(settings, authorIsBot, prefix, content) ==> r == []
    ensures Answered(settings, authorIsBot, prefix, content) ==>
      |r| == On(IpAsked(settings, content, isLetter)) + On(SiteAsked(settings, content, server, isLetter))
             + On(VersionAsked(settings, content, isLetter)) + On(StatusAsked(settings, content, isLetter))
    ensures Answered(settings, authorIsBot, prefix, content) && IpAsked(settings, content, isLetter) ==>
      r[0] == IpText(texts, server)
    ensures Answered(settings, authorIsBot, prefix, content) && SiteAsked(settings, content, server, isLetter) ==>
      r[On(IpAsked(settings, content, isLetter))] == SiteText(texts, server)
    ensures Answered(settings, authorIsBot, prefix, content) && VersionAsked(settings, content, isLetter) ==>
      r[On(IpAsked(settings, content, isLetter)) + On(SiteAsked(settings, content, server, isLetter))] == VersionText(texts, server)
    ensures Answered(settings, authorIsBot, prefix, content) && StatusAsked(settings, content, isLetter) ==>
      r[|r| - 1] == StatusText(listing, texts)
  {
    if !Answered(settings, authorIsBot, prefix, content) then []
    else
      PlainReplies(settings, content, texts, server, isLetter)
      + (if StatusAsked(settings, content, isLetter) then [StatusText(listing, texts)] else [])
  }

  /** The replies before the status one: address, site and version, each when asked for. */
  function PlainReplies(settings: Settings, content: string, texts: ReplyTexts, server: Server, isLetter: char -> bool): seq<string> {
    (if IpAsked(settings, content, isLetter) then [IpText(texts, server)] else [])
    + (if SiteAsked(settings, content, server, isLetter) then [SiteText(texts, server)] else [])
    + (if VersionAsked(settings, content, isLetter) then [VersionText(texts, server)] else [])
  }

  /** One awaited call of the handler on the message: a reply, or the typing indicator before the status reply. */
  datatype Send = Reply(text: string) | Typing

  /** The texts of the replies among the sends, in order. */
  function Texts(sends: seq<Send>): (r: seq<string>)
    ensures |r| <= |sends|
  {
    if sends == [] then []
    else (if sends[0].Reply? then [sends[0].text] else []) + Texts(sends[1..])
  }

  lemma {:induction false} TextsAppend(a: seq<Send>, b: seq<Send>)
    ensures Texts(a + b) == Texts(a) + Texts(b)
  {
    if a == [] {
      assert a + b == b;
    } else {
      var head := if a[0].Reply? then [a[0].text] else [];
      assert (a + b)[0] == a[0] && (a + b)[1..] == a[1..] + b;
      assert Texts(a + b) == head + Texts(a[1..] + b);
      TextsAppend(a[1..], b);
      assert Texts(a) == head + Texts(a[1..]);
    }
  }

  /**
   * The calls the handler awaits, in order: a reply per kind asked for,
   * and before the status reply the typing indicator.
   */
  function Sends(settings: Settings, authorIsBot: bool, prefix: string, content: string, texts: ReplyTexts,
                 server: Server, listing: Index.Listing, isLetter: char -> bool): (r: seq<Send>)
    ensures Texts(r) == Replies(settings, authorIsBot, prefix, content, texts, server, listing, isLetter)
    ensures Typing in r <==> Answered(settings, authorIsBot, prefix, content) && StatusAsked(settings, content, isLetter)
    ensures Typing in r ==> |r| >= 2 && r[|r| - 2] == Typing && r[|r| - 1] == Reply(StatusText(listing, texts))
  {
    if !Answered(settings, authorIsBot, prefix, content) then []
    else
      var plain := PlainReplies(settings, content, texts, server, isLetter);
      var status := if StatusAsked(settings, content, isLetter) then StatusSends(StatusText(listing, texts)) else [];
      TextsAppend(ReplySends(plain), status);
      ReplySends(plain) + status
  }

  /** The typing indicator and then the status reply. */
  function StatusSends(text: string): (r: seq<Send>)
    ensures Texts(r) == [text]
    ensures |r| == 2 && r[0] == Typing && r[1] == Reply(text)
  {
    var r := [Typing, Reply(text)];
    assert r[1..] == [Reply(text)];
    r
  }

  /** Plain replies with the given texts. */
  function ReplySends(texts: seq<string>): (r: seq<Send>)
    ensures |r| == |texts|
    ensures Texts(r) == texts
    ensures Typing !in r
  {
    if texts == [] then [] else [Reply(texts[0])] + ReplySends(texts[1..])
  }

  /** The index of the first send from `i` on that rejects, or the number of sends when none does. */
  function FirstRejected(sends: seq<Send>, rejects: nat -> bool, i: nat): (r: nat)
    requires i <= |sends|
    ensures i <= r <= |sends|
    ensures forall k | i <= k < r :: !rejects(k)
    ensures r < |sends| ==> rejects(r)
    decreases |sends| - i
  {
    if i == |sends| || rejects(i) then i else FirstRejected(sends, rejects, i + 1)
  }

  /**
   * The replies that reach the channel when `rejects(k)` says whether the
   * k-th awaited send is rejected: a rejection ends the handler in its
   * `catch`, which only logs, so the replies before it are sent and none
   * after it.
   */
  function Delivered(sends: seq<Send>, rejects: nat -> bool): (r: seq<string>)
    ensures r <= Texts(sends)
    ensures (forall k | 0 <= k < |sends| :: !rejects(k)) ==> r == Texts(sends)
  {
    var n := FirstRejected(sends, rejects, 0);
    assert sends == sends[..n] + sends[n..];
    TextsAppend(sends[..n], sends[n..]);
    Texts(sends[..n])
  }

  /** A rejection at send `k`, the first one, keeps exactly the replies sent before `k`. */
  lemma DeliveredUpToRejection(sends: seq<Send>, rejects: nat -> bool, k: nat)
    requires k < |sends| && rejects(k)
    requires forall j | 0 <= j < k :: !rejects(j)
    ensures Delivered(sends, rejects) == Texts(sends[..k])
  {
    var n := FirstRejected(sends, rejects, 0);
    assert n == k;
  }

  /**
   * When the typing indicator before the status reply is rejected, and
   * nothing before it, every reply asked for is sent except the status one.
   */
  lemma RejectedTypingDropsStatus(settings: Settings, authorIsBot: bool, prefix: string, content: string, texts: ReplyTexts,
                                  server: Server, listing: Index.Listing, isLetter: char -> bool, rejects: nat -> bool)
    requires Answered(settings, authorIsBot, prefix, content) && StatusAsked(settings, content, isLetter)
    requires forall j | 0 <= j < |Sends(settings, authorIsBot, prefix, content, texts, server, listing, isLetter)| - 2 :: !rejects(j)
    requires rejects(|Sends(settings, authorIsBot, prefix, content, texts, server, listing, isLetter)| - 2)
    ensures var replies := Replies(settings, authorIsBot, prefix, content, texts, server, listing, isLetter);
      Delivered(Sends(settings, authorIsBot, prefix, content, texts, server, listing, isLetter), rejects)
      == replies[..|replies| - 1]
  {
    var sends := Sends(settings, authorIsBot, prefix, content, texts, server, listing, isLetter);
    var replies := Replies(settings, authorIsBot, prefix, content, texts, server, listing, isLetter);
    var k := |sends| - 2;
    assert Typing in sends by { assert sends[k] == Typing; }
    DeliveredUpToRejection(sends, rejects, k);
    assert sends == sends[..k] + [Typing, Reply(StatusText(listing, texts))];
    TextsAppend(sends[..k], [Typing, Reply(StatusText(listing, texts))]);
    assert Texts([Typing, Reply(StatusText(listing, texts))]) == [StatusText(listing, texts)] by {
      assert [Typing, Reply(StatusText(listing, texts))][1..] == [Reply(StatusText(listing, texts))];
    }
    assert replies == Texts(sends[..k]) + [StatusText(listing, texts)];
    assert replies[..|replies| - 1] == Texts(sends[..k]);
  }

  /** With an empty command prefix every message starts with it, so nothing is ever answered. */
  lemma EmptyPrefixSilences(settings: Settings, authorIsBot: bool, content: string, texts: ReplyTexts,
                            server: Server, listing: Index.Listing, isLetter: char -> bool)
    ensures Replies(settings, authorIsBot, "", content, texts, server, listing, isLetter) == []
  {
  }

  /** A trigger word standing between non-letters (or the ends of the message) fires. */
  lemma WordBetweenNonLettersFires(before: string, word: string, after: string, words: seq<string>, isLetter: char -> bool)
    requires word in words
    requires before == [] || !isLetter(before[|before| - 1])
    requires after == [] || !isLetter(after[0])
    ensures Fires(before + word + after, words, isLetter)
  {
    var content := before + word + after;
    var i := |before|;
    assert content[i..i + |word|] == word;
    assert Text.MatchesAt(content, i, word, true);
    if i > 0 {
      assert content[i - 1] == before[|before| - 1];
    }
    if i + |word| < |content| {
      assert content[i + |word|] == after[0];
    }
    var k :| 0 <= k < |words| && words[k] == word;
    assert Alternatives(words) == words;
    assert TriggerAt(content, i, Alternatives(words)[k], isLetter);
  }

  predicate AsciiLetter(c: char) {
    'a' <= c <= 'z' || 'A' <= c <= 'Z'
  }

  /** Letter case does not matter: "What is the IP?" asks for the address. */
  lemma UpperCaseWordFires()
    ensures Fires("What is the IP?", ["ip"], AsciiLetter)
  {
    var content := "What is the IP?";
    assert content == "What is the " + "IP" + "?";
    assert Text.Lower("IP") == Text.Lower("ip");
    assert Text.MatchesAt(content, 12, "ip", true);
    assert Alternatives(["ip"]) == ["ip"];
    assert TriggerAt(content, 12, Alternatives(["ip"])[0], AsciiLetter);
  }

  /** A trigger word inside a longer word does not fire: "ship" does not ask for the address. */
  lemma WordInsideWordIgnored()
    ensures !Fires("ship", ["ip"], AsciiLetter)
  {
    var content := "ship";
    forall i: nat | i <= |content| ensures !TriggerAt(content, i, "ip", AsciiLetter) {
      if i == 0 {
        assert Text.Lower(content[0..2]) == "sh";
      } else if i == 1 {
        assert Text.Lower(content[1..3]) == "hi";
      } else if i == 2 {
        assert AsciiLetter(content[1]);
      }
    }
  }
}
