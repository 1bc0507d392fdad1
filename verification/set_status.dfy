/**
 * The `/setstatus` command of src/commands/setstatus.js: it validates the
 * server address, posts a status message in the current channel and records
 * it in data.json, replacing any earlier record for the same channel.
 */
module SetStatus {
  import opened Wrappers
  import opened JsonDoc
  import Text
  import Seqs

  const ListKey := "autoChangeStatus"

  predicate Alnum(c: char) {
    ('a' <= c <= 'z') || ('A' <= c <= 'Z') || ('0' <= c <= '9')
  }

  predicate LabelChar(c: char) {
    Alnum(c) || c == '-'
  }

  /**
   * A host-name label in the sense of section 2.3.1 of RFC 1035 as relaxed by
   * section 2.1 of RFC 1123 (a leading digit is allowed): letters, digits and
   * hyphens, starting and ending with a letter or digit, at most 63 characters
   * (section 2.3.4 of RFC 1035).
   */
  predicate ValidLabel(l: string) {
    1 <= |l| <= 63 && Alnum(l[0]) && Alnum(l[|l| - 1]) && forall i :: 0 <= i < |l| ==> LabelChar(l[i])
  }

  predicate AllLabelsValid(parts: seq<string>) {
    forall p :: p in parts ==> ValidLabel(p)
  }

  /**
   * The domain pattern `label(\.label)*` read one character at a time, as the
   * regular expression engine does: `len` characters of the current label
   * have been read, the last of them a letter or digit when `lastAlnum`.
   */
  function Scan(rest: string, len: nat, lastAlnum: bool): bool
    decreases |rest|
  {
    if rest == [] then len >= 1 && lastAlnum
    else
      var c := rest[0];
      if c == '.' then len >= 1 && lastAlnum && Scan(rest[1..], 0, false)
      else if Alnum(c) then len < 63 && Scan(rest[1..], len + 1, true)
      else if c == '-' then 1 <= len < 63 && Scan(rest[1..], len + 1, false)
      else false
  }

  predicate DomainPattern(s: string) {
    Scan(s, 0, false)
  }

  /** `cur` is a prefix of a label that the scan in state (`len`, `lastAlnum`) has read. */
  predicate Partial(cur: string, len: nat, lastAlnum: bool) {
    |cur| == len <= 63 && (forall i :: 0 <= i < |cur| ==> LabelChar(cur[i]))
    && (len > 0 ==> Alnum(cur[0])) && lastAlnum == (len > 0 && Alnum(cur[len - 1]))
  }

  lemma NoDotIn(cur: string)
    requires forall i :: 0 <= i < |cur| ==> LabelChar(cur[i])
    ensures '.' !in cur
  {
    assert forall i :: 0 <= i < |cur| ==> cur[i] != '.';
  }

  /** In a dot-free piece followed by a dot, the first dot is the one after the piece. */
  lemma FirstDotAfter(cur: string, rest: string)
    requires '.' !in cur && rest != [] && rest[0] == '.'
    ensures '.' in cur + rest && Text.FirstIndexOf(cur + rest, '.') == |cur|
  {
    var x := cur + rest;
    assert x[|cur|] == '.';
    var k := Text.FirstIndexOf(x, '.');
    assert forall i :: 0 <= i < |cur| ==> x[i] == cur[i] && x[i] != '.';
  }

  /** Splitting a string that starts with a dot-free piece followed by a dot. */
  lemma DotSplit(cur: string, rest: string)
    requires '.' !in cur && rest != [] && rest[0] == '.'
    ensures Text.SplitOn(cur + rest, '.') == [cur] + Text.SplitOn(rest[1..], '.')
  {
    var x := cur + rest;
    FirstDotAfter(cur, rest);
    Text.SplitOnFirst(x, '.');
    assert x[..|cur|] == cur;
    assert x[|cur| + 1..] == rest[1..];
  }

  /** The first piece of a split starts with any dot-free prefix of the string. */
  lemma SplitHeadHasPrefix(cur: string, x: string)
    requires '.' !in cur && cur <= x
    ensures cur <= Text.SplitOn(x, '.')[0]
  {
    if '.' in x {
      var k := Text.FirstIndexOf(x, '.');
      assert forall i :: 0 <= i < |cur| ==> x[i] == cur[i] && x[i] != '.';
      assert x[k] == '.';
      assert Text.SplitOn(x, '.')[0] == x[..k];
    }
  }

  /** A character the scan rejects makes the first label invalid. */
  lemma RejectedHead(cur: string, rest: string, len: nat, lastAlnum: bool)
    requires Partial(cur, len, lastAlnum)
    requires rest != [] && rest[0] != '.'
    requires !((Alnum(rest[0]) && len < 63) || (rest[0] == '-' && 1 <= len < 63))
    ensures !AllLabelsValid(Text.SplitOn(cur + rest, '.'))
  {
    var c := rest[0];
    var x := cur + rest;
    var pre := cur + [c];
    assert forall i :: 0 <= i < |pre| ==> pre[i] != '.';
    assert '.' !in pre;
    assert x == pre + rest[1..];
    SplitHeadHasPrefix(pre, x);
    var head := Text.SplitOn(x, '.')[0];
    assert head[..|pre|] == pre;
    assert head[len] == c;
    if !LabelChar(c) {
      assert !LabelChar(head[len]);
    } else if c == '-' && len == 0 {
      assert !Alnum(head[0]);
    } else {
      assert |head| >= 64;
    }
    assert head in Text.SplitOn(x, '.');
  }

  /** At a dot the scan closes the current label and starts the next one. */
  lemma ScanDotStep(cur: string, rest: string, len: nat, lastAlnum: bool)
    requires Partial(cur, len, lastAlnum) && '.' !in cur
    requires rest != [] && rest[0] == '.'
    requires Scan(rest[1..], 0, false) <==> AllLabelsValid(Text.SplitOn(rest[1..], '.'))
    ensures Scan(rest, len, lastAlnum) <==> AllLabelsValid(Text.SplitOn(cur + rest, '.'))
  {
    DotSplit(cur, rest);
    assert Scan(rest, len, lastAlnum) == (len >= 1 && lastAlnum && Scan(rest[1..], 0, false));
    assert AllLabelsValid([cur] + Text.SplitOn(rest[1..], '.')) <==> ValidLabel(cur) && AllLabelsValid(Text.SplitOn(rest[1..], '.'));
  }

  /** A character the scan accepts extends the label read so far. */
  lemma PartialExtend(cur: string, len: nat, lastAlnum: bool, c: char)
    requires Partial(cur, len, lastAlnum)
    requires (Alnum(c) && len < 63) || (c == '-' && 1 <= len < 63)
    ensures Partial(cur + [c], len + 1, Alnum(c))
  {
    var next := cur + [c];
    assert next[len] == c;
    assert forall i :: 0 <= i < len ==> next[i] == cur[i];
  }

  /** Reading an accepted character moves it from the rest of the input to the label. */
  lemma ScanCharStep(cur: string, rest: string, len: nat, lastAlnum: bool)
    requires rest != [] && rest[0] != '.'
    requires (Alnum(rest[0]) && len < 63) || (rest[0] == '-' && 1 <= len < 63)
    requires Scan(rest[1..], len + 1, Alnum(rest[0])) <==> AllLabelsValid(Text.SplitOn((cur + [rest[0]]) + rest[1..], '.'))
    ensures Scan(rest, len, lastAlnum) <==> AllLabelsValid(Text.SplitOn(cur + rest, '.'))
  {
    assert cur + rest == (cur + [rest[0]]) + rest[1..];
  }

  lemma {:induction false} ScanMeansLabels(cur: string, rest: string, len: nat, lastAlnum: bool)
    requires Partial(cur, len, lastAlnum)
    ensures Scan(rest, len, lastAlnum) <==> AllLabelsValid(Text.SplitOn(cur + rest, '.'))
    decreases |rest|
  {
    NoDotIn(cur);
    if rest == [] {
      assert cur + rest == cur;
      assert Text.SplitOn(cur, '.') == [cur];
      assert AllLabelsValid([cur]) <==> ValidLabel(cur);
    } else {
      var c := rest[0];
      if c == '.' {
        ScanMeansLabels([], rest[1..], 0, false);
        assert [] + rest[1..] == rest[1..];
        ScanDotStep(cur, rest, len, lastAlnum);
      } else if (Alnum(c) && len < 63) || (c == '-' && 1 <= len < 63) {
        PartialExtend(cur, len, lastAlnum, c);
        ScanMeansLabels(cur + [c], rest[1..], len + 1, Alnum(c));
        ScanCharStep(cur, rest, len, lastAlnum);
      } else {
        RejectedHead(cur, rest, len, lastAlnum);
      }
    }
  }

  /** The domain pattern accepts exactly the dot-separated sequences of valid labels. */
  lemma DomainPatternIffLabels(s: string)
    ensures DomainPattern(s) <==> AllLabelsValid(Text.SplitOn(s, '.'))
  {
    ScanMeansLabels([], s, 0, false);
    assert [] + s == s;
  }

  lemma {:induction false} ScanAppend(s: string, t: string, len: nat, lastAlnum: bool)
    requires Scan(s, len, lastAlnum) && Scan(t, 0, false)
    ensures Scan(s + ['.'] + t, len, lastAlnum)
    decreases |s|
  {
    var x := s + ['.'] + t;
    if s == [] {
      assert x == ['.'] + t && x[1..] == t;
    } else {
      assert x[0] == s[0] && x[1..] == s[1..] + ['.'] + t;
      var c := s[0];
      if c == '.' {
        ScanAppend(s[1..], t, 0, false);
      } else {
        ScanAppend(s[1..], t, len + 1, Alnum(c));
      }
    }
  }

  /** Labels can be appended without bound: there is no limit on the total length. */
  lemma LongHostnamesAccepted(s: string, l: string)
    requires DomainPattern(s) && ValidLabel(l)
    ensures DomainPattern(s + ['.'] + l) && |s + ['.'] + l| > |s|
  {
    NoDotIn(l);
    assert Text.SplitOn(l, '.') == [l];
    DomainPatternIffLabels(l);
    ScanAppend(s, l, 0, false);
  }

  /** `input.replace(/^https?:\/\//i, '')`. */
  function StripScheme(s: string): (r: string)
    ensures |r| <= |s| && r == s[|s| - |r|..]
    ensures |s| - |r| == 8 ==> Text.MatchesAt(s, 0, "https://", true)
    ensures |s| - |r| == 7 ==> Text.MatchesAt(s, 0, "http://", true)
    ensures |s| - |r| in {0, 7, 8}
    ensures |r| == |s| <==> !Text.MatchesAt(s, 0, "http://", true) && !Text.MatchesAt(s, 0, "https://", true)
  {
    if Text.MatchesAt(s, 0, "https://", true) then s[8..]
    else if Text.MatchesAt(s, 0, "http://", true) then s[7..]
    else s
  }

  /** `isValidHostnameOrIP`; `isIP` is the address validator of the validator package. */
  predicate ValidHostnameOrIP(input: string, isIP: string -> bool) {
    var clean := StripScheme(input);
    isIP(clean) || DomainPattern(clean)
  }

  lemma HostnameCheck(input: string, isIP: string -> bool)
    ensures ValidHostnameOrIP(input, isIP) <==>
      isIP(StripScheme(input)) || AllLabelsValid(Text.SplitOn(StripScheme(input), '.'))
  {
    DomainPatternIffLabels(StripScheme(input));
  }

  /** `entries.filter(e => e.channelId !== channelId)`; a `null` entry makes the callback throw. */
  function WithoutChannel(entries: seq<Json>, channelId: string): (r: Result<seq<Json>>)
    ensures r.Ok? <==> JNull !in entries
    ensures r.Ok? ==> forall e :: e in r.value ==> e in entries && Member(Some(e), "channelId") != Some(JStr(channelId))
    decreases |entries|
  {
    if entries == [] then Ok([])
    else
      var n := |entries| - 1;
      var prefix := WithoutChannel(entries[..n], channelId);
      if prefix.Err? || entries[n] == JNull then Err("Cannot read properties of null (reading 'channelId')")
      else if Member(Some(entries[n]), "channelId") == Some(JStr(channelId)) then prefix
      else Ok(prefix.value + [entries[n]])
  }

  function CountChannel(entries: seq<Json>, channelId: string): nat
    decreases |entries|
  {
    if entries == [] then 0
    else
      var n := |entries| - 1;
      CountChannel(entries[..n], channelId) + (if Member(Some(entries[n]), "channelId") == Some(JStr(channelId)) then 1 else 0)
  }

  /** The records of other channels are all kept, in their order; none of this channel's remain. */
  lemma {:induction false} WithoutChannelSpec(entries: seq<Json>, channelId: string)
    requires JNull !in entries
    ensures WithoutChannel(entries, channelId).Ok?
    ensures Seqs.Subsequence(WithoutChannel(entries, channelId).value, entries)
    ensures CountChannel(WithoutChannel(entries, channelId).value, channelId) == 0
    ensures |WithoutChannel(entries, channelId).value| == |entries| - CountChannel(entries, channelId)
    decreases |entries|
  {
    if entries != [] {
      var n := |entries| - 1;
      WithoutChannelSpec(entries[..n], channelId);
      var p := WithoutChannel(entries[..n], channelId).value;
      var r := WithoutChannel(entries, channelId).value;
      if Member(Some(entries[n]), "channelId") == Some(JStr(channelId)) {
        assert r == p;
      } else {
        assert r == p + [entries[n]];
        assert r[..|r| - 1] == p;
        assert r[|r| - 1] == entries[|entries| - 1] && Seqs.Subsequence(r[..|r| - 1], entries[..|entries| - 1]);
      }
    }
  }

  /** The record written for the command's channel. */
  function Record(ip: string, port: int, kind: string, name: string, channelId: string, messageId: string, avatar: bool): (rec: Json)
    ensures Member(Some(rec), "channelId") == Some(JStr(channelId))
    ensures Member(Some(rec), "ip") == Some(JStr(ip)) && Member(Some(rec), "messageId") == Some(JStr(messageId))
    ensures Member(Some(rec), "isPlayerAvatarEmoji") == Some(JBool(avatar))
  {
    JObj(map["ip" := JStr(ip), "port" := JNum(port), "type" := JStr(kind), "name" := JStr(name),
             "channelId" := JStr(channelId), "messageId" := JStr(messageId), "isPlayerAvatarEmoji" := JBool(avatar)])
  }

  /** The upsert: drop this channel's records and append the new one. */
  function Upsert(entries: seq<Json>, rec: Json, channelId: string): Result<seq<Json>> {
    var kept := WithoutChannel(entries, channelId);
    if kept.Err? then Err(kept.message) else Ok(kept.value + [rec])
  }

  /** After the upsert exactly one record belongs to the channel, and it is the last one. */
  lemma UpsertSpec(entries: seq<Json>, rec: Json, channelId: string)
    requires JNull !in entries
    requires Member(Some(rec), "channelId") == Some(JStr(channelId))
    ensures Upsert(entries, rec, channelId).Ok?
    ensures var r := Upsert(entries, rec, channelId).value;
      r != [] && r[|r| - 1] == rec && CountChannel(r, channelId) == 1
      && Seqs.Subsequence(r[..|r| - 1], entries)
  {
    WithoutChannelSpec(entries, channelId);
    var r := Upsert(entries, rec, channelId).value;
    assert r[..|r| - 1] == WithoutChannel(entries, channelId).value;
  }

  /** The list the upsert starts from: anything but an array counts as empty. */
  function ListOf(t: Top): seq<Json> {
    var cur := Get(t, ListKey);
    if cur.Ok? && cur.value.Some? && cur.value.value.JArr? then cur.value.value.items else []
  }

  /** The upsert can go through: the document is an object or an array and the list holds no `null`. */
  predicate Storable(t: Top) {
    (t.Object? || t.Array?) && JNull !in ListOf(t)
  }

  /** The in-memory steps from the array check to the push. */
  method StoreRecord(dataRead: Top, rec: Json, channelId: string) returns (r: Result<Top>)
    requires Member(Some(rec), "channelId") == Some(JStr(channelId))
    ensures r.Ok? <==> Storable(dataRead)
    ensures r.Ok? && dataRead.Array? ==> Serialize(r.value) == Serialize(dataRead)
    ensures r.Ok? && dataRead.Object? ==>
      r.value.Object? && r.value.props == dataRead.props[ListKey := JArr(Upsert(ListOf(dataRead), rec, channelId).value)]
  {
    var t := dataRead;
    var current := Get(t, ListKey);
    if current.Err? {
      return Err(current.message);
    }
    if !(current.value.Some? && current.value.value.JArr?) {
      var reset := Set(t, ListKey, JArr([]));
      if reset.Err? {
        return Err(reset.message);
      }
      t := reset.value;
    }
    var list := Get(t, ListKey).value.value.items;
    assert list == ListOf(dataRead);
    var upserted := Upsert(list, rec, channelId);
    if upserted.Err? {
      return Err(upserted.message);
    }
    r := Set(t, ListKey, JArr(upserted.value));
  }

  /** `playerAvatarEmoji && hasManageChannels && autoChangeStatus.playerAvatarEmoji && type === 'java'`. */
  function AvatarFlag(option: Option<bool>, hasManageChannels: bool, featureOn: bool, kind: string): (b: bool)
    ensures b <==> option == Some(true) && hasManageChannels && featureOn && kind == "java"
  {
    (option.Some? && option.value) && hasManageChannels && featureOn && kind == "java"
  }

  datatype Config = Config(enabled: bool, adminOnly: bool, playerAvatarEmoji: bool,
                           defaultIp: string, defaultPort: int, defaultKind: string, defaultName: string)

  /** The command's options and what Discord reports about the caller and the channel. */
  datatype Invocation = Invocation(ip: string, port: int, kind: string, name: string, avatarOption: Option<bool>,
                                   isAdministrator: bool, hasManageChannels: bool, channelId: string, channelCached: bool)

  datatype Outcome = FeatureDisabled | AdminOnly | Failed(message: string) | Success

  /** `option || default` for a string option. */
  function OrText(s: string, fallback: string): string {
    if s != "" then s else fallback
  }

  function HostOf(config: Config, inv: Invocation): string {
    OrText(inv.ip, config.defaultIp)
  }

  /** The record `run` pushes; the stored address is the option as given, scheme included. */
  function RecordOf(config: Config, inv: Invocation, messageId: string): Json {
    var kind := OrText(inv.kind, config.defaultKind);
    Record(HostOf(config, inv), if inv.port != 0 then inv.port else config.defaultPort, kind,
           OrText(inv.name, config.defaultName), inv.channelId, messageId,
           AvatarFlag(inv.avatarOption, inv.hasManageChannels, config.playerAvatarEmoji, kind))
  }

  function InvalidHostMessage(ip: string): string {
    "Invalid hostname or IP \"" + ip + "\""
  }

  /** The value `run` starts from: the parsed file, or a fresh document when reading or parsing fails. */
  function Initial(read: FileRead): Top {
    if read.Loaded? && read.parsed.Some? then FromJson(read.parsed.value) else Object(map[ListKey := JArr([])])
  }

  /** The gates before any file access. */
  predicate Admitted(config: Config, inv: Invocation) {
    config.enabled && !(config.adminOnly && !inv.isAdministrator) && inv.channelCached
  }

  /**
   * `run`. `messageId` is the id of the message just sent, `read` the data.json
   * read, `renderThrew` whether `statusMessageEdit` threw and `writeError`
   * the error `fs.writeFile` throws, if it does. The returned `written` is
   * the document written to data.json, if any.
   */
  method Run(config: Config, inv: Invocation, messageId: string, read: FileRead, isIP: string -> bool, renderThrew: bool,
             writeError: Option<string>)
    returns (outcome: Outcome, written: Option<Json>)
    ensures !config.enabled ==> outcome == FeatureDisabled && written == None
    ensures config.enabled && config.adminOnly && !inv.isAdministrator ==> outcome == AdminOnly && written == None
    ensures written.Some? <==> outcome == Success
    ensures outcome == Success <==>
      Admitted(config, inv) && ValidHostnameOrIP(HostOf(config, inv), isIP) && Storable(Initial(read)) && !renderThrew
      && writeError.None?
    ensures Admitted(config, inv) && ValidHostnameOrIP(HostOf(config, inv), isIP) && Storable(Initial(read)) && !renderThrew
            && writeError.Some? ==>
      outcome == Failed(writeError.value)
    ensures Admitted(config, inv) && !ValidHostnameOrIP(HostOf(config, inv), isIP) ==>
      outcome == Failed(InvalidHostMessage(HostOf(config, inv)))
    ensures outcome == Success && Initial(read).Object? ==>
      written.value == JObj(Initial(read).props[ListKey := JArr(Upsert(ListOf(Initial(read)), RecordOf(config, inv, messageId), inv.channelId).value)])
    ensures outcome == Success && Initial(read).Array? ==> written.value == Serialize(Initial(read))
  {
    if !config.enabled {
      return FeatureDisabled, None;
    }
    if config.adminOnly && !inv.isAdministrator {
      return AdminOnly, None;
    }
    if !inv.channelCached {
      return Failed("Channel " + inv.channelId + " not found"), None;
    }
    var dataRead := Initial(read);
    var ip := HostOf(config, inv);
    if !ValidHostnameOrIP(ip, isIP) {
      return Failed(InvalidHostMessage(ip)), None;
    }
    var rec := RecordOf(config, inv, messageId);
    var stored := StoreRecord(dataRead, rec, inv.channelId);
    if stored.Err? {
      return Failed(stored.message), None;
    }
    if renderThrew {
      return Failed("statusMessageEdit failed"), None;
    }
    if writeError.Some? {
      return Failed(writeError.value), None;
    }
    outcome := Success;
    written := Some(Serialize(stored.value));
  }

  /**
   * What a successful run leaves in an object document: the record list
   * ends with the new record, which is the channel's only one, every other
   * channel's record is kept in order, and the other keys are unchanged.
   */
  lemma RunUpsertsChannel(config: Config, inv: Invocation, messageId: string, m: map<string, Json>)
    requires JNull !in ListOf(Object(m))
    ensures var rec := RecordOf(config, inv, messageId);
      var doc := JObj(Object(m).props[ListKey := JArr(Upsert(ListOf(Object(m)), rec, inv.channelId).value)]);
      var list := doc.fields[ListKey].items;
      list != [] && list[|list| - 1] == rec && CountChannel(list, inv.channelId) == 1
      && Seqs.Subsequence(list[..|list| - 1], ListOf(Object(m)))
      && forall k :: k in m && k != ListKey ==> k in doc.fields && doc.fields[k] == m[k]
  {
    UpsertSpec(ListOf(Object(m)), RecordOf(config, inv, messageId), inv.channelId);
  }

  /** An unreadable file is replaced by a document holding just the new record. */
  lemma UnreadableFileGetsOneRecord(config: Config, inv: Invocation, messageId: string)
    ensures Upsert(ListOf(Initial(ReadFailed)), RecordOf(config, inv, messageId), inv.channelId) == Ok([RecordOf(config, inv, messageId)])
  {
    var rec := RecordOf(config, inv, messageId);
    assert ListOf(Initial(ReadFailed)) == [];
    assert WithoutChannel([], inv.channelId) == Ok([]);
    assert [] + [rec] == [rec];
  }
}
