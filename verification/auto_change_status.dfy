/**
 * The status-message reconciler of src/events/clientReady/autoChangeStatus.js.
 * Every tick it reads data.json, re-renders each tracked status message, and
 * writes back only the records whose channel and message could still be
 * fetched and edited. A start-up check repairs a missing or corrupt data.json.
 */
module AutoChangeStatus {
  import opened Wrappers
  import opened JsonDoc
  import Seqs

  /** How Discord answers for one tracked record, in list order. */
  datatype Lookup = ChannelMissing | MessageMissing | EditThrew | Edited

  /** The arguments handed to `statusMessageEdit` for one record. */
  datatype EditCall = EditCall(ip: Option<Json>, port: Option<Json>, kind: Option<Json>, name: Option<Json>, avatar: Option<Json>)

  datatype InitOutcome = Disabled | NoGuildId | GuildMissing | Running

  datatype ModuleConfig = ModuleConfig(enabled: bool, guildId: Option<string>, updateInterval: int)

  /** `config.settings.guildID` is truthy: present and not the empty string a blank `DISCORD_GUILD_ID=` gives. */
  predicate GuildIdSet(config: ModuleConfig) {
    config.guildId.Some? && config.guildId.value != ""
  }

  const ListKey := "autoChangeStatus"
  const FreshData := JObj(map[ListKey := JArr([])])

  /** A record survives when reading it does not throw and its message was found and edited. */
  predicate Kept(record: Json, outcome: Lookup) {
    record != JNull && outcome == Edited
  }

  /** `validRecords` after the loop over `records`. */
  function Survivors(records: seq<Json>, lookup: nat -> Lookup): seq<Json>
    decreases |records|
  {
    if records == [] then []
    else
      var n := |records| - 1;
      Survivors(records[..n], lookup) + (if Kept(records[n], lookup(n)) then [records[n]] else [])
  }

  /** The edit requested for a record: type defaults to java, name to the server-wide name, the record's name, then its address. */
  function EditFor(settingsName: Option<Json>, record: Json): EditCall {
    var r := Some(record);
    EditCall(Member(r, "ip"), Member(r, "port"), Or(Member(r, "type"), Some(JStr("java"))),
             Or(Or(settingsName, Member(r, "name")), Member(r, "ip")), Member(r, "isPlayerAvatarEmoji"))
  }

  /** The message was found, so the renderer is invoked (it may still throw). */
  predicate Rendered(record: Json, outcome: Lookup) {
    record != JNull && (outcome == EditThrew || outcome == Edited)
  }

  function Edits(settingsName: Option<Json>, records: seq<Json>, lookup: nat -> Lookup): seq<EditCall>
    decreases |records|
  {
    if records == [] then []
    else
      var n := |records| - 1;
      Edits(settingsName, records[..n], lookup)
        + (if Rendered(records[n], lookup(n)) then [EditFor(settingsName, records[n])] else [])
  }

  /** The loop at the heart of a pass. */
  method ProcessRecords(records: seq<Json>, settingsName: Option<Json>, lookup: nat -> Lookup)
    returns (valid: seq<Json>, edits: seq<EditCall>)
    ensures valid == Survivors(records, lookup)
    ensures edits == Edits(settingsName, records, lookup)
  {
    valid := [];
    edits := [];
    for i := 0 to |records|
      invariant valid == Survivors(records[..i], lookup)
      invariant edits == Edits(settingsName, records[..i], lookup)
    {
      assert records[..i + 1][..i] == records[..i];
      var record := records[i];
      if record == JNull {
        // The debug line reads `record.ip`, which throws; the catch drops the record.
        continue;
      }
      var outcome := lookup(i);
      if outcome == ChannelMissing || outcome == MessageMissing {
        continue;
      }
      edits := edits + [EditFor(settingsName, record)];
      if outcome == EditThrew {
        continue;
      }
      valid := valid + [record];
    }
    assert records[..|records|] == records;
  }

  /** The documents one pass writes to data.json. */
  function PassWrites(read: FileRead, lookup: nat -> Lookup): seq<Json> {
    match read
    case ReadFailed => [FreshData]
    case Loaded(_, None) => [FreshData]
    case Loaded(_, Some(v)) =>
      if v == JNull then [FreshData]
      else if v.JObj? && NonEmptyArray(Member(Some(v), ListKey)) then
        [JObj(v.fields[ListKey := JArr(Survivors(v.fields[ListKey].items, lookup))])]
      else []
  }

  function PassEdits(read: FileRead, lookup: nat -> Lookup): seq<EditCall> {
    match read
    case Loaded(_, Some(v)) =>
      if v.JObj? && NonEmptyArray(Member(Some(v), ListKey)) then
        Edits(Member(Member(Some(v), "serverSettings"), "name"), v.fields[ListKey].items, lookup)
      else []
    case _ => []
  }

  /** One pass of `autoChangeStatus`. */
  method Pass(read: FileRead, lookup: nat -> Lookup) returns (writes: seq<Json>, edits: seq<EditCall>)
    ensures writes == PassWrites(read, lookup)
    ensures edits == PassEdits(read, lookup)
  {
    writes := [];
    edits := [];
    var dataRead := Object(map[ListKey := JArr([])]);
    var readOk := false;
    if read.Loaded? && read.parsed.Some? {
      dataRead := FromJson(read.parsed.value);
      // Logging `dataRead.autoChangeStatus?.length` throws when the document is null.
      readOk := Get(dataRead, ListKey).Ok?;
    }
    if !readOk {
      dataRead := Object(map[ListKey := JArr([])]);
      writes := [Serialize(dataRead)];
    }
    var list := Get(dataRead, ListKey);
    if !(list.Ok? && NonEmptyArray(list.value)) {
      return;
    }
    var settings := Get(dataRead, "serverSettings");
    var valid, calls := ProcessRecords(list.value.value.items, Member(settings.value, "name"), lookup);
    edits := calls;
    match Set(dataRead, ListKey, JArr(valid))
    case Ok(updated) =>
      writes := writes + [Serialize(updated)];
    case Err(_) =>
      assert false;
  }

  /** The surviving records keep their relative order and nothing is added. */
  lemma {:induction false} SurvivorsSubsequence(records: seq<Json>, lookup: nat -> Lookup)
    ensures Seqs.Subsequence(Survivors(records, lookup), records)
    decreases |records|
  {
    if records != [] {
      var n := |records| - 1;
      var s := Survivors(records, lookup);
      SurvivorsSubsequence(records[..n], lookup);
      if Kept(records[n], lookup(n)) {
        assert s[..|s| - 1] == Survivors(records[..n], lookup);
        assert s != [] && s[|s| - 1] == records[|records| - 1]
          && Seqs.Subsequence(s[..|s| - 1], records[..|records| - 1]);
      } else {
        assert s == Survivors(records[..n], lookup);
      }
    }
  }

  /** When every record's message is found and edited, the list is kept as it was. */
  lemma {:induction false} AllResolvedKeepsList(records: seq<Json>, lookup: nat -> Lookup)
    requires forall i :: 0 <= i < |records| ==> records[i] != JNull && lookup(i) == Edited
    ensures Survivors(records, lookup) == records
    decreases |records|
  {
    if records != [] {
      var n := |records| - 1;
      AllResolvedKeepsList(records[..n], lookup);
      assert records == records[..n] + [records[n]];
    }
  }

  /** When no record's message can be edited, the list is emptied. */
  lemma {:induction false} NoneResolvedEmptiesList(records: seq<Json>, lookup: nat -> Lookup)
    requires forall i :: 0 <= i < |records| ==> lookup(i) != Edited
    ensures Survivors(records, lookup) == []
    decreases |records|
  {
    if records != [] {
      NoneResolvedEmptiesList(records[..|records| - 1], lookup);
    }
  }

  /**
   * A pass over a readable document rewrites only its autoChangeStatus list,
   * to a subsequence of the list it read; every other key is kept.
   */
  lemma PassRewritesOnlyList(content: string, m: map<string, Json>, lookup: nat -> Lookup)
    requires NonEmptyArray(Member(Some(JObj(m)), ListKey))
    ensures |PassWrites(Loaded(content, Some(JObj(m))), lookup)| == 1
    ensures var w := PassWrites(Loaded(content, Some(JObj(m))), lookup)[0];
      w.JObj? && w.fields.Keys == m.Keys
      && (forall k :: k in m && k != ListKey ==> w.fields[k] == m[k])
      && w.fields[ListKey].JArr? && Seqs.Subsequence(w.fields[ListKey].items, m[ListKey].items)
  {
    SurvivorsSubsequence(m[ListKey].items, lookup);
  }

  /** A pass over an object with a non-empty list writes the object back with the surviving records as its list. */
  lemma PassWritesObject(content: string, m: map<string, Json>, lookup: nat -> Lookup)
    requires NonEmptyArray(Member(Some(JObj(m)), ListKey))
    ensures PassWrites(Loaded(content, Some(JObj(m))), lookup) == [JObj(m[ListKey := JArr(Survivors(m[ListKey].items, lookup))])]
  {
  }

  /** When every record still resolves, the pass writes back exactly what it read. */
  lemma PassIdempotentWhenAllResolve(content: string, m: map<string, Json>, lookup: nat -> Lookup)
    requires NonEmptyArray(Member(Some(JObj(m)), ListKey))
    requires forall i :: 0 <= i < |m[ListKey].items| ==> m[ListKey].items[i] != JNull && lookup(i) == Edited
    ensures PassWrites(Loaded(content, Some(JObj(m))), lookup) == [JObj(m)]
  {
    var items := m[ListKey].items;
    PassWritesObject(content, m, lookup);
    AllResolvedKeepsList(items, lookup);
    assert JArr(items) == m[ListKey];
    assert m[ListKey := m[ListKey]] == m;
  }

  /** An unreadable or unparsable file is replaced by a fresh document, and nothing is edited. */
  lemma UnreadableFileRecreated(read: FileRead, lookup: nat -> Lookup)
    requires read.ReadFailed? || read.parsed.None?
    ensures PassWrites(read, lookup) == [FreshData]
    ensures PassEdits(read, lookup) == []
  {
  }

  /** A missing, non-array or empty list ends the pass without writing. */
  lemma NoListNoWrite(content: string, v: Json, lookup: nat -> Lookup)
    requires v != JNull
    requires !NonEmptyArray(Member(Some(v), ListKey))
    ensures PassWrites(Loaded(content, Some(v)), lookup) == []
    ensures PassEdits(Loaded(content, Some(v)), lookup) == []
  {
  }

  /**
   * The `readError` handler (:245-255): write attempt `k` stores a fresh
   * document; when it fails the check gives up.
   */
  function Recreated(k: nat, writeFails: nat -> bool): (w: seq<FileWrite>)
    ensures w == [] || w == [SaveData(FreshData)]
  {
    if writeFails(k) then [] else [SaveData(FreshData)]
  }

  /**
   * The `parseError` handler (:226-242): attempt `k` backs the text up (a
   * failure there is only logged), attempt `k + 1` stores a fresh document,
   * and when that fails the error reaches the `readError` handler.
   */
  function ParseErrorHandled(content: string, now: nat, k: nat, writeFails: nat -> bool): seq<FileWrite> {
    (if writeFails(k) then [] else [SaveBackup(BackupPath(now), content)])
    + (if writeFails(k + 1) then Recreated(k + 2, writeFails) else [SaveData(FreshData)])
  }

  /** Content `JSON.parse` rejects, or that holds `null` or a primitive, on which reading or setting the list throws. */
  predicate Unusable(parsed: Option<Json>) {
    parsed.None? || parsed.value == JNull || (!parsed.value.JObj? && !parsed.value.JArr?)
  }

  /**
   * What `checkDataJson` writes, given the first read of the file;
   * `writeFails(k)` says whether its `k`-th write attempt throws. Only the
   * writes that succeed are listed.
   */
  function CheckWrites(read: FileRead, now: nat, writeFails: nat -> bool): seq<FileWrite> {
    match read
    case ReadFailed => Recreated(0, writeFails)
    case Loaded(content, parsed) =>
      if Text.Blank(content) then
        if writeFails(0) then Recreated(1, writeFails) else [SaveData(FreshData)]
      else if Unusable(parsed) then ParseErrorHandled(content, now, 0, writeFails)
      else if parsed.value.JObj? && Truthy(Member(parsed, ListKey)) then []
      else
        var doc := if parsed.value.JObj? then JObj(parsed.value.fields[ListKey := JArr([])]) else parsed.value;
        if writeFails(0) then ParseErrorHandled(content, now, 1, writeFails) else [SaveData(doc)]
  }

  /**
   * `checkDataJson`, run once before the first pass. A failed write inside
   * the parse step is caught by the parse-error handler, and one in a
   * handler by the read-error handler, as the nested `try` blocks do.
   */
  method CheckDataJson(read: FileRead, now: nat, writeFails: nat -> bool) returns (writes: seq<FileWrite>)
    ensures writes == CheckWrites(read, now, writeFails)
  {
    writes := [];
    var attempt: nat := 0;
    var readError := read.ReadFailed?;
    if !readError {
      var fileContent := read.content;
      if fileContent == "" || Text.Blank(fileContent) {
        if writeFails(attempt) {
          readError := true;
        } else {
          writes := [SaveData(FreshData)];
        }
        attempt := attempt + 1;
      } else {
        var parseError := true;
        var repaired: Option<Top> := None;
        if read.parsed.Some? {
          var data := FromJson(read.parsed.value);
          var list := Get(data, ListKey);
          if list.Ok? {
            parseError := false;
            if !Truthy(list.value) {
              var updated := Set(data, ListKey, JArr([]));
              if updated.Ok? {
                repaired := Some(updated.value);
              } else {
                parseError := true;
              }
            }
          }
        }
        if !parseError && repaired.Some? {
          assert !Truthy(Member(read.parsed, ListKey));
          if writeFails(attempt) {
            parseError := true;
          } else {
            writes := [SaveData(Serialize(repaired.value))];
          }
          attempt := attempt + 1;
        }
        if parseError {
          assert attempt == 0 ==> Unusable(read.parsed);
          // The parse error handler: back the text up verbatim, then start afresh.
          if !writeFails(attempt) {
            writes := writes + [SaveBackup(BackupPath(now), fileContent)];
          }
          attempt := attempt + 1;
          if writeFails(attempt) {
            readError := true;
          } else {
            writes := writes + [SaveData(FreshData)];
          }
          attempt := attempt + 1;
        }
      }
    }
    if readError && !writeFails(attempt) {
      writes := writes + [SaveData(FreshData)];
    }
  }

  /** Corrupt content is saved verbatim under a timestamped name before data.json is replaced, when both writes succeed. */
  lemma CorruptFileBackedUp(content: string, now: nat, writeFails: nat -> bool)
    requires !Text.Blank(content)
    ensures !writeFails(0) && !writeFails(1) ==>
      CheckWrites(Loaded(content, None), now, writeFails)
        == [SaveBackup(DataPath + ".corrupted-" + Text.NatToString(now), content), SaveData(FreshData)]
    ensures writeFails(0) && !writeFails(1) ==> CheckWrites(Loaded(content, None), now, writeFails) == [SaveData(FreshData)]
  {
  }

  /**
   * An object lacking the list gains an empty one and keeps every other key
   * when the write succeeds; one that has it is left alone.
   */
  lemma CheckAddsMissingList(content: string, m: map<string, Json>, now: nat, writeFails: nat -> bool)
    requires !Text.Blank(content)
    ensures Truthy(Member(Some(JObj(m)), ListKey)) ==> CheckWrites(Loaded(content, Some(JObj(m))), now, writeFails) == []
    ensures !Truthy(Member(Some(JObj(m)), ListKey)) && !writeFails(0) ==>
      var w := CheckWrites(Loaded(content, Some(JObj(m))), now, writeFails);
      |w| == 1 && w[0].SaveData? && w[0].doc.JObj? && w[0].doc.fields[ListKey] == JArr([])
      && forall k :: k in m && k != ListKey ==> k in w[0].doc.fields && w[0].doc.fields[k] == m[k]
  {
  }

  /**
   * When writing the repaired object fails, the parse-error handler takes
   * the valid file for a corrupt one: it is backed up and data.json is reset
   * to the empty list, losing every other key.
   */
  lemma FailedRepairResetsFile(content: string, m: map<string, Json>, now: nat, writeFails: nat -> bool)
    requires !Text.Blank(content) && !Truthy(Member(Some(JObj(m)), ListKey))
    requires writeFails(0) && !writeFails(1) && !writeFails(2)
    ensures CheckWrites(Loaded(content, Some(JObj(m))), now, writeFails)
      == [SaveBackup(BackupPath(now), content), SaveData(FreshData)]
  {
  }

  /** When every write fails, nothing is written and the check gives up without an error. */
  lemma UnwritableFileGivesUp(read: FileRead, now: nat, writeFails: nat -> bool)
    requires forall k :: writeFails(k)
    ensures CheckWrites(read, now, writeFails) == []
  {
  }

  /** Whatever fails, the data writes are a fresh document or the file read with an empty list, and at most one backup is made. */
  lemma CheckWritesShape(read: FileRead, now: nat, writeFails: nat -> bool)
    ensures var w := CheckWrites(read, now, writeFails);
      |w| <= 2
      && (forall i :: 0 <= i < |w| && w[i].SaveData? ==>
           || w[i].doc == FreshData
           || (read.Loaded? && read.parsed.Some? && read.parsed.value.JObj?
               && w[i].doc == JObj(read.parsed.value.fields[ListKey := JArr([])]))
           || (read.Loaded? && read.parsed.Some? && read.parsed.value.JArr? && w[i].doc == read.parsed.value))
      && forall i :: 0 <= i < |w| && w[i].SaveBackup? ==> i == 0 && read.Loaded? && w[i] == SaveBackup(BackupPath(now), read.content)
  {
  }

  /** The state the module's closures share once it has started. */
  class Scheduler {
    var isRunning: bool
    /** Every write to disk, in order. */
    var saved: seq<FileWrite>
    /** Every `statusMessageEdit` call, in order. */
    var rendered: seq<EditCall>
    /** The `setInterval` period in milliseconds, once armed. */
    var period: Option<int>

    constructor ()
      ensures !isRunning && saved == [] && rendered == [] && period == None
    {
      isRunning := false;
      saved := [];
      rendered := [];
      period := None;
    }

    /** The synchronous start of `scheduleAutoChangeStatus`: a tick that finds a pass running does nothing. */
    method Begin() returns (proceed: bool)
      modifies this`isRunning
      ensures proceed == !old(isRunning)
      ensures isRunning
    {
      if isRunning {
        proceed := false;
        return;
      }
      isRunning := true;
      proceed := true;
    }

    /** The awaited pass of a tick that proceeded, and the flag reset after it. */
    method Finish(read: FileRead, lookup: nat -> Lookup)
      modifies this`isRunning, this`saved, this`rendered
      ensures !isRunning
      ensures saved == old(saved) + SavesOf(PassWrites(read, lookup))
      ensures rendered == old(rendered) + PassEdits(read, lookup)
    {
      var writes, edits := Pass(read, lookup);
      saved := saved + SavesOf(writes);
      rendered := rendered + edits;
      isRunning := false;
    }

    /** A tick that does not overlap another: one full pass. */
    method Tick(read: FileRead, lookup: nat -> Lookup)
      requires !isRunning
      modifies this`isRunning, this`saved, this`rendered
      ensures !isRunning
      ensures saved == old(saved) + SavesOf(PassWrites(read, lookup))
      ensures rendered == old(rendered) + PassEdits(read, lookup)
    {
      var proceed := Begin();
      Finish(read, lookup);
    }

    /**
     * The module's start-up: the feature and guild guards, then the data.json
     * check, one pass, and only then the fixed-rate timer.
     */
    method Initialize(config: ModuleConfig, guildFound: bool, check: FileRead, now: nat, writeFails: nat -> bool,
                      first: FileRead, lookup: nat -> Lookup)
      returns (outcome: InitOutcome)
      requires !isRunning
      modifies this
      ensures !config.enabled ==> outcome == Disabled
      ensures config.enabled && !GuildIdSet(config) ==> outcome == NoGuildId
      ensures config.enabled && GuildIdSet(config) && !guildFound ==> outcome == GuildMissing
      ensures outcome != Running ==> saved == old(saved) && period == old(period) && rendered == old(rendered)
      ensures outcome == Running <==> config.enabled && GuildIdSet(config) && guildFound
      ensures outcome == Running ==>
        saved == old(saved) + CheckWrites(check, now, writeFails) + SavesOf(PassWrites(first, lookup))
        && rendered == old(rendered) + PassEdits(first, lookup)
        && period == Some(config.updateInterval * 1000) && !isRunning
    {
      if !config.enabled {
        return Disabled;
      }
      if config.guildId.None? || config.guildId.value == "" {
        return NoGuildId;
      }
      if !guildFound {
        return GuildMissing;
      }
      var checked := CheckDataJson(check, now, writeFails);
      saved := saved + checked;
      Tick(first, lookup);
      period := Some(config.updateInterval * 1000);
      outcome := Running;
    }
  }

  function SavesOf(docs: seq<Json>): (w: seq<FileWrite>)
    ensures |w| == |docs|
    ensures forall i :: 0 <= i < |docs| ==> w[i] == SaveData(docs[i])
  {
    seq(|docs|, i requires 0 <= i < |docs| => SaveData(docs[i]))
  }

  /** Two ticks whose passes overlap: the second is skipped, then a later tick runs again. */
  method OverlapScenario(read: FileRead, lookup: nat -> Lookup) returns (first: bool, second: bool, third: bool)
    ensures first && !second && third
  {
    var s := new Scheduler();
    first := s.Begin();
    second := s.Begin();
    s.Finish(read, lookup);
    third := s.Begin();
  }
}
