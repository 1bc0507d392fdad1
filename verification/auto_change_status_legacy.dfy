/**
 * The older status-message reconciler of src/events/ready/autoChangeStatus.js.
 * Before re-rendering it keeps only the last record flagged for player-avatar
 * emojis; it writes the surviving records back in a `finally` block, and it
 * schedules the next pass only after the current one has finished.
 */
module LegacyAutoChangeStatus {
  import opened Wrappers
  import opened JsonDoc
  import Seqs
  import AutoChangeStatus

  /** How Discord answers for one record, in the order of the deduplicated list. */
  datatype Lookup = ChannelNull | FetchThrew | EditThrew | Edited

  datatype InitOutcome = Disabled | NoGuildId | ExitedGuildMissing | Idle | Running

  datatype ModuleConfig = ModuleConfig(enabled: bool, guildId: Option<string>, updateInterval: int)

  /** `config.autoChangeStatus.guildID` is truthy: present and not the empty string a blank `DISCORD_GUILD_ID=` gives. */
  predicate GuildIdSet(config: ModuleConfig) {
    config.guildId.Some? && config.guildId.value != ""
  }

  const ListKey := "autoChangeStatus"

  /** `item.isPlayerAvatarEmoji === true`. */
  predicate Flagged(item: Json) {
    Member(Some(item), "isPlayerAvatarEmoji") == Some(JBool(true))
  }

  /** The backward search: it settles on the last flagged record, or -1. */
  method LastFlaggedIndex(items: seq<Json>) returns (idx: int)
    ensures idx == LastFlagged(items)
  {
    idx := -1;
    var i := |items| - 1;
    while i >= 0
      invariant -1 <= i < |items|
      invariant forall j :: i < j < |items| ==> !Flagged(items[j])
      decreases i + 1
    {
      if Flagged(items[i]) {
        idx := i;
        break;
      }
      i := i - 1;
    }
    LastFlaggedUnique(items, idx, LastFlagged(items));
  }

  /** The filter at :81-86: flagged items are kept only at index `last`. */
  function KeepLastFlagged(items: seq<Json>, last: int): seq<Json>
    decreases |items|
  {
    if items == [] then []
    else
      var n := |items| - 1;
      KeepLastFlagged(items[..n], last) + (if !Flagged(items[n]) || n == last then [items[n]] else [])
  }

  function Unflagged(items: seq<Json>): seq<Json>
    decreases |items|
  {
    if items == [] then []
    else Unflagged(items[..|items| - 1]) + (if Flagged(items[|items| - 1]) then [] else [items[|items| - 1]])
  }

  function CountFlagged(items: seq<Json>): nat
    decreases |items|
  {
    if items == [] then 0 else CountFlagged(items[..|items| - 1]) + (if Flagged(items[|items| - 1]) then 1 else 0)
  }

  /**
   * Deduplication removes flagged records only: the unflagged ones are all
   * kept in order, at most one flagged record remains, and it is the one at
   * `last` when that is flagged.
   */
  lemma {:induction false} KeepLastFlaggedSpec(items: seq<Json>, last: int)
    ensures Unflagged(KeepLastFlagged(items, last)) == Unflagged(items)
    ensures CountFlagged(KeepLastFlagged(items, last)) == (if 0 <= last < |items| && Flagged(items[last]) then 1 else 0)
    ensures Seqs.Subsequence(KeepLastFlagged(items, last), items)
    decreases |items|
  {
    if items != [] {
      var n := |items| - 1;
      var r := KeepLastFlagged(items, last);
      var r' := KeepLastFlagged(items[..n], last);
      KeepLastFlaggedSpec(items[..n], last);
      if !Flagged(items[n]) || n == last {
        assert r == r' + [items[n]];
        assert r[..|r| - 1] == r';
        assert r != [] && r[|r| - 1] == items[|items| - 1] && Seqs.Subsequence(r[..|r| - 1], items[..|items| - 1]);
      } else {
        assert r == r';
      }
      if 0 <= last < n {
        assert items[..n][last] == items[last];
      }
    }
  }

  /** The search finds the last flagged record, so the survivor of deduplication is the last one flagged. */
  lemma DedupKeepsLastFlagged(items: seq<Json>, last: int)
    requires -1 <= last < |items|
    requires last >= 0 ==> Flagged(items[last])
    requires forall j :: last < j < |items| ==> !Flagged(items[j])
    ensures CountFlagged(KeepLastFlagged(items, last)) <= 1
    ensures (exists j :: 0 <= j < |items| && Flagged(items[j])) ==> last >= 0 && items[last] in KeepLastFlagged(items, last)
  {
    KeepLastFlaggedSpec(items, last);
    if last >= 0 {
      KeptAt(items, last);
    }
  }

  lemma {:induction false} KeptAt(items: seq<Json>, last: int)
    requires 0 <= last < |items|
    ensures items[last] in KeepLastFlagged(items, last)
    decreases |items|
  {
    var n := |items| - 1;
    if last < n {
      KeptAt(items[..n], last);
      assert items[..n][last] == items[last];
    }
  }

  predicate Kept(outcome: Lookup) {
    outcome == Edited
  }

  function Survivors(records: seq<Json>, lookup: nat -> Lookup): seq<Json>
    decreases |records|
  {
    if records == [] then []
    else
      var n := |records| - 1;
      Survivors(records[..n], lookup) + (if Kept(lookup(n)) then [records[n]] else [])
  }

  function EditFor(record: Json): AutoChangeStatus.EditCall {
    var r := Some(record);
    AutoChangeStatus.EditCall(Member(r, "ip"), Member(r, "port"), Member(r, "type"), Member(r, "name"), Member(r, "isPlayerAvatarEmoji"))
  }

  function Edits(records: seq<Json>, lookup: nat -> Lookup): seq<AutoChangeStatus.EditCall>
    decreases |records|
  {
    if records == [] then []
    else
      var n := |records| - 1;
      Edits(records[..n], lookup) + (if lookup(n) == EditThrew || lookup(n) == Edited then [EditFor(records[n])] else [])
  }

  /**
   * The list written back in the `finally` block. Anything but an array of
   * non-null records makes the processing throw before a record is pushed.
   */
  function FinalList(list: Option<Json>, lookup: nat -> Lookup): seq<Json> {
    if list.Some? && list.value.JArr? && JNull !in list.value.items then
      var items := list.value.items;
      Survivors(KeepLastFlagged(items, LastFlagged(items)), lookup)
    else []
  }

  /** The index of the last flagged record, or -1 when none is flagged. */
  function LastFlagged(items: seq<Json>): (idx: int)
    ensures -1 <= idx < |items|
    ensures idx >= 0 ==> Flagged(items[idx])
    ensures forall j :: idx < j < |items| ==> !Flagged(items[j])
    decreases |items|
  {
    if items == [] then -1
    else if Flagged(items[|items| - 1]) then |items| - 1
    else LastFlagged(items[..|items| - 1])
  }

  /** The documents one pass writes. */
  function PassWrites(read: FileRead, lookup: nat -> Lookup): seq<Json> {
    match read
    case ReadFailed => []
    case Loaded(_, None) => []
    case Loaded(_, Some(v)) =>
      match v
      case JObj(m) => [JObj(m[ListKey := JArr(FinalList(if ListKey in m then Some(m[ListKey]) else None, lookup))])]
      case JArr(items) => [JArr(items)]
      case _ => []
  }

  lemma LastFlaggedUnique(items: seq<Json>, a: int, b: int)
    requires -1 <= a < |items| && (a >= 0 ==> Flagged(items[a])) && (forall j :: a < j < |items| ==> !Flagged(items[j]))
    requires -1 <= b < |items| && (b >= 0 ==> Flagged(items[b])) && (forall j :: b < j < |items| ==> !Flagged(items[j]))
    ensures a == b
  {
  }

  method ProcessRecords(records: seq<Json>, lookup: nat -> Lookup)
    returns (valid: seq<Json>, edits: seq<AutoChangeStatus.EditCall>)
    ensures valid == Survivors(records, lookup)
    ensures edits == Edits(records, lookup)
  {
    valid := [];
    edits := [];
    for i := 0 to |records|
      invariant valid == Survivors(records[..i], lookup)
      invariant edits == Edits(records[..i], lookup)
    {
      assert records[..i + 1][..i] == records[..i];
      var outcome := lookup(i);
      if outcome == ChannelNull || outcome == FetchThrew {
        continue;
      }
      edits := edits + [EditFor(records[i])];
      if outcome == EditThrew {
        continue;
      }
      valid := valid + [records[i]];
    }
    assert records[..|records|] == records;
  }

  /** One pass; `written` is the document written in the `finally` block, if any. */
  method Pass(read: FileRead, lookup: nat -> Lookup) returns (written: Option<Json>)
    ensures written.Some? <==> |PassWrites(read, lookup)| == 1
    ensures written.Some? ==> written.value == PassWrites(read, lookup)[0]
  {
    if read.ReadFailed? || read.parsed.None? {
      return None;
    }
    var dataRead := FromJson(read.parsed.value);
    var updated: seq<Json> := [];
    var list := Get(dataRead, ListKey);
    if list.Ok? && list.value.Some? && list.value.value.JArr? && JNull !in list.value.value.items {
      var items := list.value.value.items;
      var last := LastFlaggedIndex(items);
      var deduped := KeepLastFlagged(items, last);
      var valid, edits := ProcessRecords(deduped, lookup);
      updated := valid;
    }
    // finally: the assignment throws on null and on primitives, so nothing is written.
    match Set(dataRead, ListKey, JArr(updated))
    case Ok(t) =>
      written := Some(Serialize(t));
    case Err(_) =>
      written := None;
  }

  /** A pass that can read the document always writes it, with only the list replaced. */
  lemma PassKeepsOtherKeys(content: string, m: map<string, Json>, lookup: nat -> Lookup)
    ensures var w := PassWrites(Loaded(content, Some(JObj(m))), lookup);
      |w| == 1 && w[0].JObj? && ListKey in w[0].fields
      && forall k :: k in m && k != ListKey ==> k in w[0].fields && w[0].fields[k] == m[k]
  {
  }

  /** A list that is not an array of non-null records is written back empty. */
  lemma MalformedListCleared(content: string, m: map<string, Json>, lookup: nat -> Lookup)
    requires ListKey !in m || !m[ListKey].JArr? || JNull in m[ListKey].items
    ensures PassWrites(Loaded(content, Some(JObj(m))), lookup) == [JObj(m[ListKey := JArr([])])]
  {
  }

  /** The written list holds at most one avatar-flagged record. */
  lemma {:induction false} WrittenListHasOneFlagged(list: Option<Json>, lookup: nat -> Lookup)
    ensures CountFlagged(FinalList(list, lookup)) <= 1
  {
    if list.Some? && list.value.JArr? && JNull !in list.value.items {
      var items := list.value.items;
      var deduped := KeepLastFlagged(items, LastFlagged(items));
      DedupKeepsLastFlagged(items, LastFlagged(items));
      SurvivorsFlaggedAtMost(deduped, lookup);
    }
  }

  lemma {:induction false} SurvivorsFlaggedAtMost(records: seq<Json>, lookup: nat -> Lookup)
    ensures CountFlagged(Survivors(records, lookup)) <= CountFlagged(records)
    decreases |records|
  {
    if records != [] {
      var n := |records| - 1;
      SurvivorsFlaggedAtMost(records[..n], lookup);
      var s := Survivors(records, lookup);
      if Kept(lookup(n)) {
        assert s == Survivors(records[..n], lookup) + [records[n]];
        assert s[..|s| - 1] == Survivors(records[..n], lookup);
        assert s[|s| - 1] == records[|records| - 1];
      } else {
        assert s == Survivors(records[..n], lookup);
      }
    }
  }

  /** The start-up check: the loop starts unless the list's `length` is 0 or reading it throws. */
  function StartsLoop(read: FileRead): bool {
    match read
    case ReadFailed => false
    case Loaded(_, None) => false
    case Loaded(_, Some(v)) =>
      var list := Get(FromJson(v), ListKey);
      list.Ok? && var len := Length(list.value); len.Ok? && len.value != Some(0)
  }

  /** Only an empty list, or an unreadable file or list, keeps the loop from starting. */
  lemma StartsLoopOnNonEmptyList(content: string, m: map<string, Json>)
    ensures ListKey in m && m[ListKey].JArr? ==>
      (StartsLoop(Loaded(content, Some(JObj(m)))) <==> m[ListKey].items != [])
    ensures ListKey !in m ==> !StartsLoop(Loaded(content, Some(JObj(m))))
  {
  }

  class Scheduler {
    var isUpdating: bool
    var saved: seq<Json>
    /** Every `setTimeout` delay registered, in milliseconds. */
    var timers: seq<int>

    constructor ()
      ensures !isUpdating && saved == [] && timers == []
    {
      isUpdating := false;
      saved := [];
      timers := [];
    }

    /** An invocation that finds a pass running returns without scheduling another. */
    method Begin() returns (proceed: bool)
      modifies this`isUpdating
      ensures proceed == !old(isUpdating)
      ensures isUpdating
    {
      if isUpdating {
        return false;
      }
      isUpdating := true;
      proceed := true;
    }

    /** The pass completes (or throws); the flag is cleared and the next pass is scheduled relative to now. */
    method Finish(read: FileRead, lookup: nat -> Lookup, updateInterval: int)
      modifies this`isUpdating, this`saved, this`timers
      ensures !isUpdating
      ensures saved == old(saved) + PassWrites(read, lookup)
      ensures timers == old(timers) + [updateInterval * 1000]
    {
      var written := Pass(read, lookup);
      if written.Some? {
        saved := saved + [written.value];
      }
      isUpdating := false;
      timers := timers + [updateInterval * 1000];
    }

    method Initialize(config: ModuleConfig, guildFound: bool, check: FileRead, first: FileRead, lookup: nat -> Lookup)
      returns (outcome: InitOutcome)
      requires !isUpdating
      modifies this
      ensures !config.enabled ==> outcome == Disabled
      ensures config.enabled && !GuildIdSet(config) ==> outcome == NoGuildId
      ensures config.enabled && GuildIdSet(config) && !guildFound ==> outcome == ExitedGuildMissing
      ensures outcome == Running <==> config.enabled && GuildIdSet(config) && guildFound && StartsLoop(check)
      ensures outcome == Running ==> saved == old(saved) + PassWrites(first, lookup) && timers == old(timers) + [config.updateInterval * 1000]
      ensures outcome != Running ==> saved == old(saved) && timers == old(timers)
    {
      if !config.enabled {
        return Disabled;
      }
      if config.guildId.None? || config.guildId.value == "" {
        return NoGuildId;
      }
      if !guildFound {
        return ExitedGuildMissing;
      }
      if !StartsLoop(check) {
        return Idle;
      }
      var proceed := Begin();
      Finish(first, lookup, config.updateInterval);
      outcome := Running;
    }
  }
}
