# minecraft-discord-bot — a Dafny model of the status-sync engine

This project models the core of a Discord bot that shows the state of a
Minecraft server: the shared status fetcher with its cache, in-flight slot,
retries and subscribers; the loops that keep the tracked status messages,
the player-count channel and the bot's presence in line with the server;
the `data.json` document the bot keeps its state in, with its upserts,
read-modify-writes and self-repair; and the string and decision logic
around them (placeholders, translations and their fallbacks, language
codes, the logger, prefix commands, auto-replies, the host check, the
player list and the docker-compose generator).

Both generations of the event handlers are modelled: the older ones under
`src/events/ready/` (modules named `Legacy…`) and the newer ones under
`src/events/clientReady/`.

Discord, the Minecraft status probe, the file system, JSON parsing and
the clock are not modelled as code. They enter as parameters:

- Discord lookups are sequences of outcomes, one per record;
- the probe is a function from the attempt number to an outcome;
- a file read is `ReadFailed` or the text read with its parse result;
- writes are kept as a log of `SaveData`/`SaveBackup` entries.

Objects whose fields the source updates in place are classes:
`ServerDataManager`, the reconciler schedulers, the player-count channel,
the translation manager, the i18n language state, the logger and the
logger settings. Everything else is functions on values.

Each module is one source file, except these helpers:

- `json_doc.dfy` holds JSON values and JavaScript's truthiness and property
  access;
- `text.dfy` holds the JavaScript string operations the bot uses;
- `wrappers.dfy` holds `Option` and `Result`;
- `seqs.dfy` holds the subsequence relation;
- `counts.dfy` holds the player-count placeholder filling that the presence
  and the player-count channel share;
- `timers.dfy` holds the update interval of config.js and the delay Node.js
  clamps a timer to;
- `server_settings.dfy` holds the `serverSettings` update that `/setname`
  and `/setsite` share.

## Model

| member | source | states |
|---|---|---|
| ServerData.IsOnline | src/services/serverDataManager.js:89-92 | a server counts as online only if it reports online; with the online check off that is all; with it on, no player slots means offline |
| ServerData.StopAttempt | src/services/serverDataManager.js:79-124 | the attempt that ends a fetch is the first that is not a rate-limit error, and never after the fourth; every earlier attempt was rate-limited |
| ServerData.StopAttemptIs | src/services/serverDataManager.js:79-124 | any attempt index with only rate-limit errors before it and a non-retryable outcome (or the retry limit) at it is the one where the fetch stops |
| ServerData.AttemptsBounded | src/services/serverDataManager.js:79-114 | at most four probes are made, and only a rate-limit error leads to another |
| ServerData.OtherErrorNotRetried | src/services/serverDataManager.js:114-123 | any other error on the first attempt is thrown at once, with no pause |
| ServerData.PersistentRateLimitThrows | src/services/serverDataManager.js:113-123 | rate-limit errors on all four attempts: the fourth error is thrown after pauses of 2000, 4000 and 8000 ms, so the offline fallback after the loop is never returned |
| ServerData.RecoversOnLastAttempt | src/services/serverDataManager.js:84-111 | three rate-limit errors then a reply: the fourth attempt's data is the result |
| ServerData.BackoffDoubles | src/services/serverDataManager.js:116 | each back-off pause is twice the previous one |
| ServerData.RemoveAll | src/services/serverDataManager.js:146 | unsubscribing leaves no registration of the callback and adds none |
| ServerData.RemoveAllIsSubsequence | src/services/serverDataManager.js:146 | the remaining callbacks keep their order |
| ServerData.RemoveAllKeepsCounts | src/services/serverDataManager.js:146 | every other callback keeps as many registrations as before |
| ServerData.Deliveries | src/services/serverDataManager.js:154-166 | one delivery per subscriber |
| ServerData.ServerDataManager.constructor | src/services/serverDataManager.js:9-33 | empty cache, no pending request, 30 s expiry, no subscribers, request count 0 |
| ServerData.ServerDataManager.Request | src/services/serverDataManager.js:41-59 | a fresh cache answers with the cached triple and leaves the slot alone; otherwise a pending fetch is joined, or else one is started and the slot taken; the cache and slot ignore which server is asked |
| ServerData.ServerDataManager.Settle | src/services/serverDataManager.js:59-134 | the fetch's result or error; the slot is cleared either way; the request count grows by the attempts made; on success the cache is replaced with `lastUpdated = now` and every subscriber is called; on error cache and deliveries are unchanged |
| ServerData.ServerDataManager.FetchServerData | src/services/serverDataManager.js:76-134 | the retry loop yields the outcome of the attempt it stops at, the pauses 2000·2^(k-1), one request count per attempt, and on success the new cache and the notifications |
| ServerData.ServerDataManager.NotifySubscribers | src/services/serverDataManager.js:154-166 | every subscriber is called once with the cached triple, in order, a throwing one not stopping the rest |
| ServerData.ServerDataManager.Subscribe | src/services/serverDataManager.js:141-142 | the callback is appended |
| ServerData.ServerDataManager.Unsubscribe | src/services/serverDataManager.js:145-147 | every registration of the callback is removed, the rest kept in order |
| ServerData.ServerDataManager.SetCacheExpiry | src/services/serverDataManager.js:191-193 | the expiry is set |
| ServerData.ServerDataManager.ClearCache | src/services/serverDataManager.js:198-205 | the cache is emptied, and no call can be a cache hit afterwards |
| ServerData.ServerDataManager.DropPending | src/events/clientReady/autoChangeStatus.js:122-123 | the callers' reset of the pending slot |
| ServerData.SharedSlotScenario | src/services/serverDataManager.js:45-59 | a second call inside the window, for another server, joins the first fetch; a later call is answered from the first server's cached result when it succeeded |
| AutoChangeStatus.ProcessRecords | src/events/clientReady/autoChangeStatus.js:86-152 | the loop over the records yields the records whose channel and message were found and whose edit returned, in order, and the edit calls made, with `type` defaulting to `java` and the name taken from `serverSettings.name`, else the record's name, else its ip |
| AutoChangeStatus.Pass | src/events/clientReady/autoChangeStatus.js:44-172 | one update cycle: an unreadable file is recreated empty; a document without a non-empty list writes nothing; otherwise the document is written back with only the surviving records |
| AutoChangeStatus.SurvivorsSubsequence | src/events/clientReady/autoChangeStatus.js:86-160 | the records written back are a subsequence of those read |
| AutoChangeStatus.AllResolvedKeepsList | src/events/clientReady/autoChangeStatus.js:139-160 | when every record resolves and updates, the list is kept as it was |
| AutoChangeStatus.NoneResolvedEmptiesList | src/events/clientReady/autoChangeStatus.js:156-158 | when no record updates, the list is emptied |
| AutoChangeStatus.PassRewritesOnlyList | src/events/clientReady/autoChangeStatus.js:155-164 | a cycle writes exactly one document with the same keys, every key other than `autoChangeStatus` unchanged, and the list a subsequence of the old one |
| AutoChangeStatus.PassWritesObject | src/events/clientReady/autoChangeStatus.js:155-164 | the document written is the one read with the list replaced by the survivors |
| AutoChangeStatus.PassIdempotentWhenAllResolve | src/events/clientReady/autoChangeStatus.js:155-164 | when every record updates, the document written is the one read |
| AutoChangeStatus.UnreadableFileRecreated | src/events/clientReady/autoChangeStatus.js:54-72 | a file that cannot be read or parsed is replaced by `{ autoChangeStatus: [] }` and nothing is edited |
| AutoChangeStatus.NoListNoWrite | src/events/clientReady/autoChangeStatus.js:77-80 | without a non-empty list nothing is written and nothing edited |
| AutoChangeStatus.CheckDataJson | src/events/clientReady/autoChangeStatus.js:197-257 | the start-up check writes exactly what `CheckWrites` gives for the file read and each write's success: a missing or blank file is initialised, a corrupt one backed up then initialised, an object without the list gets an empty one, a good file is left alone; a failed write falls to the parse-error handler (backup, then reset) and from there to the read-error handler (one more reset, or give up) |
| AutoChangeStatus.FailedRepairResetsFile | src/events/clientReady/autoChangeStatus.js:219-243 | when writing an object with the added list fails, the valid file is backed up and replaced by the empty list, losing every other key |
| AutoChangeStatus.UnwritableFileGivesUp | src/events/clientReady/autoChangeStatus.js:245-256 | when every write fails, nothing is written and the check returns without an error |
| AutoChangeStatus.CheckWritesShape | src/events/clientReady/autoChangeStatus.js:197-257 | whatever fails, at most two writes succeed; each data write is the fresh document or the file read with an empty list, and a backup is the first write and holds the text read |
| AutoChangeStatus.CorruptFileBackedUp | src/events/clientReady/autoChangeStatus.js:226-243 | unparsable content is saved to `data.json.corrupted-<now>` before the file is reset; a failed backup is only logged and the reset still happens |
| AutoChangeStatus.CheckAddsMissingList | src/events/clientReady/autoChangeStatus.js:219-225 | an object with a truthy list is not rewritten; without one, when the write succeeds, it is rewritten once with an empty list and every other key kept |
| AutoChangeStatus.SavesOf | src/events/clientReady/autoChangeStatus.js:65-164 | one `data.json` write per document, in order |
| AutoChangeStatus.Scheduler.constructor | src/events/clientReady/autoChangeStatus.js:175 | not running, nothing written or edited, no interval |
| AutoChangeStatus.Scheduler.Begin | src/events/clientReady/autoChangeStatus.js:179-185 | a cycle proceeds only if none is running, and the flag is set |
| AutoChangeStatus.Scheduler.Finish | src/events/clientReady/autoChangeStatus.js:187-193 | the cycle's writes and edits are appended and the flag cleared |
| AutoChangeStatus.Scheduler.Tick | src/events/clientReady/autoChangeStatus.js:178-194 | a tick while idle runs one whole cycle and leaves the scheduler idle |
| AutoChangeStatus.Scheduler.Initialize | src/events/clientReady/autoChangeStatus.js:15-292 | disabled, a missing or empty guild id (a blank `DISCORD_GUILD_ID` is falsy) and an unknown guild stop before any file work; otherwise the check (whose write failures never stop start-up), one cycle and an interval of `updateInterval * 1000` ms |
| AutoChangeStatus.OverlapScenario | src/events/clientReady/autoChangeStatus.js:179-182 | a tick that arrives while a cycle runs is skipped; one after it finishes proceeds |
| LegacyAutoChangeStatus.LastFlaggedIndex | src/events/ready/autoChangeStatus.js:72-79 | the backward search settles on `LastFlagged`: the last record with `isPlayerAvatarEmoji === true`, or -1 |
| LegacyAutoChangeStatus.LastFlagged | src/events/ready/autoChangeStatus.js:72-79 | the index the search specifies: flagged when not -1, and no flagged record after it |
| LegacyAutoChangeStatus.LastFlaggedUnique | src/events/ready/autoChangeStatus.js:72-79 | only one index satisfies that description, which is how the search is proved to give `LastFlagged` |
| LegacyAutoChangeStatus.KeepLastFlaggedSpec | src/events/ready/autoChangeStatus.js:81-86 | the filter keeps every unflagged record in order, keeps at most the one flagged record at the found index, and drops nothing else |
| LegacyAutoChangeStatus.DedupKeepsLastFlagged | src/events/ready/autoChangeStatus.js:72-86 | after the filter at most one record is flagged, and if any was flagged the last one survives |
| LegacyAutoChangeStatus.KeptAt | src/events/ready/autoChangeStatus.js:81-84 | the record at the found index is kept |
| LegacyAutoChangeStatus.ProcessRecords | src/events/ready/autoChangeStatus.js:89-123 | the loop keeps exactly the records whose edit succeeded, in order, and passes the record's own `ip`, `port`, `type`, `name` and flag to each edit |
| LegacyAutoChangeStatus.Pass | src/events/ready/autoChangeStatus.js:56-136 | an unreadable or unparsable file writes nothing; an object is written back with the de-duplicated survivors; a list the loop cannot walk is written back empty |
| LegacyAutoChangeStatus.PassKeepsOtherKeys | src/events/ready/autoChangeStatus.js:126-131 | the `finally` block always writes one object holding the list and every other key unchanged |
| LegacyAutoChangeStatus.MalformedListCleared | src/events/ready/autoChangeStatus.js:71-128 | a missing list, a non-array or a list holding `null` makes the loop throw, and the list is written back empty |
| LegacyAutoChangeStatus.WrittenListHasOneFlagged | src/events/ready/autoChangeStatus.js:72-128 | the list written back holds at most one flagged record |
| LegacyAutoChangeStatus.SurvivorsFlaggedAtMost | src/events/ready/autoChangeStatus.js:89-123 | the update loop adds no flagged record |
| LegacyAutoChangeStatus.StartsLoopOnNonEmptyList | src/events/ready/autoChangeStatus.js:160-176 | the update loop starts exactly when the list read at start is non-empty; a missing list does not start it |
| LegacyAutoChangeStatus.Scheduler.constructor | src/events/ready/autoChangeStatus.js:50 | not updating, nothing written, no timer |
| LegacyAutoChangeStatus.Scheduler.Begin | src/events/ready/autoChangeStatus.js:142-144 | a pass proceeds only if none is running, and the flag is set |
| LegacyAutoChangeStatus.Scheduler.Finish | src/events/ready/autoChangeStatus.js:146-156 | the pass's write is recorded, the flag cleared and the next pass scheduled `updateInterval * 1000` ms later, whatever the pass did |
| LegacyAutoChangeStatus.Scheduler.Initialize | src/events/ready/autoChangeStatus.js:17-176 | disabled and a missing or empty guild id return, an unknown guild exits; otherwise the first pass and its follow-up timer run exactly when the start-up list is non-empty |
| AutoReply.StatusText | src/events/messageCreate/auto-reply.js:57-63 | offline gives the offline reply; online fills both count placeholders, and none is left in the reply |
| AutoReply.Replies | src/events/messageCreate/auto-reply.js:16-64 | nothing when auto-reply is off, the author is a bot or the message starts with the prefix; otherwise one reply per enabled kind whose trigger fires (an empty trigger list firing through its empty alternative) (the site only when one is configured), in the order address, site, version, status: the address reply with every `{ip}` and `{port}` filled, the site reply with every `{site}`, the version reply with every `{version}`, and the status reply last |
| AutoReply.Alternatives | src/events/messageCreate/auto-reply.js:26-29 | the pattern's alternatives are the trigger words, or the single empty alternative an empty list joins to |
| AutoReply.EmptyListFires | src/events/messageCreate/auto-reply.js:26-29 | an empty trigger list fires exactly when some position has no letter on either side: an empty message, a non-letter first or last, or two non-letters in a row |
| AutoReply.BoundaryFires | src/events/messageCreate/auto-reply.js:26-29 | with an empty trigger list, any position with no letter on either side is a match |
| AutoReply.EmptyListFiresOnBareMessages | src/events/messageCreate/auto-reply.js:26-29 | with no trigger words, an attachment-only message (empty content) and "hi!" both fire |
| AutoReply.Texts | src/events/messageCreate/auto-reply.js:33-57 | the reply texts among the awaited calls, in order, never more than the calls |
| AutoReply.TextsAppend | src/events/messageCreate/auto-reply.js:33-57 | the reply texts of two runs of calls are those of each, concatenated |
| AutoReply.Sends | src/events/messageCreate/auto-reply.js:31-64 | the awaited calls carry exactly the replies in order; the typing indicator is sent exactly when the status reply is due, right before it as the last two calls |
| AutoReply.StatusSends | src/events/messageCreate/auto-reply.js:54-57 | the typing indicator and then the status reply, whose one reply text is the status text |
| AutoReply.ReplySends | src/events/messageCreate/auto-reply.js:33-50 | one reply call per text, with those texts and no typing indicator |
| AutoReply.FirstRejected | src/events/messageCreate/auto-reply.js:17-68 | the first rejected call from a position on: none before it rejects, and it rejects unless it is the end |
| AutoReply.Delivered | src/events/messageCreate/auto-reply.js:17-68 | a rejected call ends the handler in the `catch`, so the replies sent are a prefix of those due, and all of them when nothing is rejected |
| AutoReply.DeliveredUpToRejection | src/events/messageCreate/auto-reply.js:17-68 | the first rejection at call k keeps exactly the replies of the calls before k |
| AutoReply.RejectedTypingDropsStatus | src/events/messageCreate/auto-reply.js:52-68 | a rejected typing indicator, nothing earlier rejected, sends every reply due except the status one |
| AutoReply.EmptyPrefixSilences | src/events/messageCreate/auto-reply.js:19 | with an empty command prefix every message starts with it, so the bot never answers |
| AutoReply.WordBetweenNonLettersFires | src/events/messageCreate/auto-reply.js:26-29 | a trigger word with no letter just before or after it fires |
| AutoReply.UpperCaseWordFires | src/events/messageCreate/auto-reply.js:26 | matching ignores case: "What is the IP?" fires the trigger "ip" |
| AutoReply.WordInsideWordIgnored | src/events/messageCreate/auto-reply.js:26 | a trigger inside a longer word does not fire: "ship" does not fire "ip" |
| Counts.CountAvoidsPlaceholders | src/events/clientReady/botStatusUpdate.js:103-105 | a rendered count shares no character with either placeholder |
| Counts.Filled | src/events/clientReady/botStatusUpdate.js:103-105 | after the two global replacements neither `{playeronline}` nor `{playermax}` is left |
| Counts.PlainTemplateKept | src/events/clientReady/botStatusUpdate.js:103-105 | a text with no placeholder is unchanged |
| Counts.LeadingCountFilled | src/events/clientReady/botStatusUpdate.js:103-105 | a text that starts with `{playeronline}` starts with the online count once filled |
| Timers.EffectiveDelay | src/events/clientReady/botStatusUpdate.js:155-156 | the delay a timer really uses is always between 1 and 2^31-1 ms; a delay outside that range becomes 1 ms |
| Timers.IntervalSeconds | config.js:46 | the interval read from `UPDATE_INTERVAL` is never 0: a parsed non-zero value is kept, otherwise 60 |
| BotStatus.SourceOf | src/events/clientReady/botStatusUpdate.js:40-53 | the first record's ip and port, a truthy type (`java` by default), and as name `serverSettings.name`, else the record's name, else its ip |
| BotStatus.ChoiceFor | src/events/clientReady/botStatusUpdate.js:31-66 | an unreadable or unparsable file gives no update; a document without tracked servers gives the waiting presence; otherwise the first record is probed |
| BotStatus.FirstTrackedServerProbed | src/events/clientReady/botStatusUpdate.js:39-53 | a non-empty list: the first record is the server probed |
| BotStatus.NoTrackedServerWaits | src/events/clientReady/botStatusUpdate.js:54-61 | a missing or empty list: the waiting presence |
| BotStatus.Shown | src/events/clientReady/botStatusUpdate.js:91-131 | online: the online status and the filled online text with no placeholder left; offline: the offline status and text; always the configured activity type |
| BotStatus.PlainOnlineTextShown | src/events/clientReady/botStatusUpdate.js:97-105 | an online text without placeholders is shown as it is |
| BotStatus.Tick | src/events/clientReady/botStatusUpdate.js:24-149 | the presence calls of one update: none when disabled or unreadable, the waiting one, the offline one when the fetch throws, and the fallback offline call after a rejected one |
| BotStatus.Period | src/events/clientReady/botStatusUpdate.js:155-156 | the interval is `updateInterval * 1000` when that fits a timer, 1 ms otherwise, never 0 |
| LegacyBotStatus.MainLanguage | src/events/ready/botStatusUpdate.js:20 | the configured main language, `en` when it is empty |
| LegacyBotStatus.Translations | src/events/ready/botStatusUpdate.js:18-39 | the main language's bot-status file when it parses, else the English one, else the built-in texts |
| LegacyBotStatus.Prop | src/events/ready/botStatusUpdate.js:76-91 | reading a property throws exactly on `undefined` or `null`, and otherwise finds the object's own member |
| LegacyBotStatus.DefaultTextsPresent | src/events/ready/botStatusUpdate.js:31-36 | the built-in texts hold the online and the offline text |
| LegacyBotStatus.NoFilesGiveDefaults | src/events/ready/botStatusUpdate.js:23-37 | with no readable file the offline text is the built-in "Server is offline" |
| LegacyBotStatus.Fallback | src/events/ready/botStatusUpdate.js:122-138 | the catch block makes one offline call exactly when the offline text can be read |
| LegacyBotStatus.Tick | src/events/ready/botStatusUpdate.js:62-140 | one update: nothing when disabled; the filled online text with the online status when online and the text is a string; the offline text otherwise; a failing online call followed by the fallback; an online status is only ever shown for an online server |
| LegacyBotStatus.UpdateIntervalMs | src/events/ready/botStatusUpdate.js:146 | `max(60, interval) * 1000`: at least a minute, the configured seconds times 1000 from 60 s up |
| LegacyBotStatus.DefaultScheduleAsWritten | src/events/ready/botStatusUpdate.js:146-150 | as written the default interval fires every 60 000 s and the cache lives 54 000 s |
| LegacyBotStatus.LongIntervalFiresEveryMillisecond | src/events/ready/botStatusUpdate.js:146-150 | as written an interval of 2148 s or more overflows the timer, which then fires every millisecond |
| LegacyBotStatus.Scheduled | src/events/ready/botStatusUpdate.js:146-150 | the corrected schedule: the timer uses the interval in milliseconds, and the cache expires before the next update |
| LegacyBotStatus.DefaultScheduled | src/events/ready/botStatusUpdate.js:146-150 | the corrected default: every 60 s, cache 54 s |
| JsonDoc.Length | src/events/ready/autoChangeStatus.js:163 | reading `length` throws on `undefined` and `null`; a string or an array gives its size, an object its own numeric `length` member, any other value `undefined` |
| JsonDoc.HasItems | src/events/clientReady/botStatusUpdate.js:39 | the guard holds exactly for a non-empty array or string and for an object whose own `length` is a positive number |
| JsonDoc.FirstRecord | src/events/clientReady/botStatusUpdate.js:39-41 | past the guard, element 0: the array's first item, the string's first character, or the object's member `"0"`; nothing when that is missing or `null` |
| PlayerCount.TargetFor | src/events/clientReady/playerCountCH.js:53-77 | an unreadable or unparsable file leaves the configured server as the target |
| PlayerCount.TargetFromFirstRecord | src/events/clientReady/playerCountCH.js:59-73 | a non-empty list: the first record's ip and port, its type or `java`, its name or its ip |
| PlayerCount.TargetFromEmptyList | src/events/clientReady/playerCountCH.js:59 | a missing or empty list keeps the configured server |
| PlayerCount.OnlineName | src/events/clientReady/playerCountCH.js:104-116 | the online name never holds a count placeholder |
| PlayerCount.FallbackHasNoPlaceholder | src/events/clientReady/playerCountCH.js:115 | the fixed fallback name holds no placeholder |
| PlayerCount.OnlineNameIsFilled | src/events/clientReady/playerCountCH.js:112-116 | the fallback branch is dead: the filled template is always the name |
| PlayerCount.StatusName | src/events/clientReady/playerCountCH.js:84-124 | no address gives the not-configured text; offline gives the offline text; online gives a name without placeholders |
| PlayerCount.ShouldRename | src/events/clientReady/playerCountCH.js:131-141 | the channel is renamed exactly when its name differs from the computed one |
| PlayerCount.UpdateAsWritten | src/events/clientReady/playerCountCH.js:17-164 | a gate's outcome is returned as it is; as written every update that passes the gates fails on the undeclared `statusName`, so no channel is ever renamed; the probe runs exactly when an address is configured |
| PlayerCount.Update | src/events/clientReady/playerCountCH.js:17-164 | with the name declared: the gates in order (no id, channel missing, no permission); otherwise a rename to the status name exactly when it differs from the current one |
| PlayerCount.FreshStats | src/events/clientReady/playerCountCH.js:239-242 | fresh stats hold `lastUpdate = now`, and `channelId` exactly when one is configured |
| PlayerCount.Initialized | src/events/clientReady/playerCountCH.js:236-251 | the start-up defaults can be set exactly on an object or an array |
| PlayerCount.InitializedKeepsOthers | src/events/clientReady/playerCountCH.js:236-251 | on an object: every other key kept, stats added when missing or not an object, the list added as `[]` when falsy, both kept otherwise |
| PlayerCount.StampTouchesOnlyLastUpdate | src/events/clientReady/playerCountCH.js:306-310 | existing stats: only `lastUpdate` changes |
| PlayerCount.StampRecreatesStats | src/events/clientReady/playerCountCH.js:300-305 | missing or non-object stats are replaced by fresh ones |
| PlayerCount.Channel.constructor | src/events/clientReady/playerCountCH.js:200 | `dataIDS = {}` and nothing written |
| PlayerCount.Channel.Initialize | src/events/clientReady/playerCountCH.js:199-259 | start-up: the loaded document with its defaults becomes the in-memory copy and is written, after a backup of a corrupt file |
| PlayerCount.Channel.Load | src/events/clientReady/playerCountCH.js:203-234 | a missing, blank or unparsable file loads as `{}`, an unparsable one after a backup |
| PlayerCount.Channel.Refresh | src/events/clientReady/playerCountCH.js:171-180 | a parsed file replaces the in-memory copy; otherwise it is kept |
| PlayerCount.Channel.Stamp | src/events/clientReady/playerCountCH.js:279-328 | the timestamp update: the parsed file (or the in-memory copy after a backup) is stamped, kept in memory and written; an unreadable file, and a document that is `null` or a primitive and so cannot be stamped, fall back to stamping the in-memory copy (after the backup, when one was made) |
| PlayerCount.Channel.Fallback | src/events/clientReady/playerCountCH.js:320-327 | the in-memory copy gets a new `lastUpdate` and is written, or nothing changes when that throws |
| LegacyPlayerCount.ChannelName | src/events/ready/playerCountCH.js:37-44 | offline gives the offline text; online gives the online text with both counts filled and no placeholder left |
| LegacyPlayerCount.PlainOnlineText | src/events/ready/playerCountCH.js:38-41 | an online text without placeholders is used as it is |
| LegacyPlayerCount.Update | src/events/ready/playerCountCH.js:17-75 | no id and a missing channel stop first; an edit happens only with a fetched status and a name that differs; the name is left alone exactly when it already matches, and edited otherwise unless the edit throws; a status fetch that throws fails with its message |
| LegacyPlayerCount.Prepared | src/events/ready/playerCountCH.js:106-133 | the document prepared at start is always an object or an array |
| LegacyPlayerCount.PreparedKeepsOthers | src/events/ready/playerCountCH.js:123-133 | on an object every other key is kept, falsy stats become `null` and a falsy list becomes `[]`, truthy ones are kept |
| LegacyPlayerCount.NonObjectStartsEmpty | src/events/ready/playerCountCH.js:108-121 | an unreadable file or a non-object value starts from `{}` |
| LegacyPlayerCount.Setup | src/events/ready/playerCountCH.js:77-198 | disabled and unknown guild stop; recorded stats are tracked as they are; a configured channel id is recorded and written when the channel is cached, and stops otherwise; without one a channel named after the status is created and its id recorded and written, and a status fetch that throws stops start-up with its message, nothing created or written; a failed write of the recorded id ends start-up with the write's error and nothing tracked |
| LegacyPlayerCount.RecordedIdTracked | src/events/ready/playerCountCH.js:149-181 | the recorded id is what the next read of `playerCountStats` gives, and what the file holds |
| PrefixCommands.FirstSpace | src/events/messageCreate/prefixCommands.js:21 | the first whitespace character, with none before it |
| PrefixCommands.SpaceRunEnd | src/events/messageCreate/prefixCommands.js:21 | the end of the run of whitespace that `\s+` consumes |
| PrefixCommands.SplitOnSpace | src/events/messageCreate/prefixCommands.js:21 | `split(/\s+/)` gives at least one piece and no piece holds whitespace |
| PrefixCommands.TrimIsTrimmed | src/events/messageCreate/prefixCommands.js:21 | a trimmed text starts and ends with a non-space |
| PrefixCommands.PiecesNotEmpty | src/events/messageCreate/prefixCommands.js:21 | a non-empty trimmed text splits into non-empty words |
| PrefixCommands.Parse | src/events/messageCreate/prefixCommands.js:19-22 | command and arguments hold no whitespace; unless the rest of the message is blank, none of them is empty |
| PrefixCommands.WordsOfText | src/events/messageCreate/prefixCommands.js:21 | the words of a non-blank text are all non-empty |
| PrefixCommands.LowerKeepsSpaces | src/events/messageCreate/prefixCommands.js:22 | lower-casing adds no whitespace |
| PrefixCommands.PrefixAloneIsEmptyCommand | src/events/messageCreate/prefixCommands.js:21-22 | a message that is only the prefix parses to the empty command with no arguments |
| PrefixCommands.Matches | src/events/messageCreate/prefixCommands.js:29-33 | the command equal to the name matches without a lookup; any other command throws exactly when the name has no configuration entry, and otherwise matches exactly when it is one of the entry's aliases |
| PrefixCommands.HelpTopics | src/events/messageCreate/prefixCommands.js:41-43 | the help topics are the configured keys other than `slashCommands`, `prefixCommands` and `language` |
| PrefixCommands.ActionFor | src/events/messageCreate/prefixCommands.js:36-86 | `help` with a first argument naming a topic (in any case) gives that topic's help, and only then |
| PrefixCommands.Handle | src/events/messageCreate/prefixCommands.js:10-17 | a message is ignored exactly when the author is a bot, prefix commands are off, the prefix is empty or the message does not start with it |
| PrefixCommands.NeverIgnoredFrom | src/events/messageCreate/prefixCommands.js:36-87 | once past the gate the dispatch always ends in some action |
| PrefixCommands.FirstMatchWins | src/events/messageCreate/prefixCommands.js:36-87 | the first command in the fixed order that matches decides the action |
| PrefixCommands.UnknownCommandDoesNothing | src/events/messageCreate/prefixCommands.js:87-88 | a command matching none of the seven does nothing |
| PrefixCommands.HelpNeedsNoEntry | src/events/messageCreate/prefixCommands.js:29-36 | the command `help` runs its listing even when the configuration has no command entries, because the name is compared before the entry is read |
| PrefixCommands.NoSiteNoSiteCommand | src/events/messageCreate/prefixCommands.js:63 | without a configured site the site command never answers |
| PrefixCommands.EnabledFlagsIgnored | src/events/messageCreate/prefixCommands.js:29-33 | a command's `enabled` flag plays no part: two configurations with the same aliases dispatch alike |
| Embeds.Placeholder | src/embeds.js:25 | the placeholder of a key is the key in braces |
| Embeds.ReplacePlaceholders | src/embeds.js:22-29 | the loop applies the entries one after another, each replacing every `{key}` in any case |
| Embeds.LowerBrace | src/embeds.js:25 | case folding leaves `{` alone and produces it from nothing else |
| Embeds.NoBraceNoPlaceholder | src/embeds.js:25 | a text without `{` contains no placeholder, in any case |
| Embeds.BracelessTemplateKept | src/embeds.js:22-29 | a template without `{` comes back unchanged |
| Embeds.LowerAppend | src/embeds.js:25 | case folding works character by character |
| Embeds.PlaceholderInAnyCase | src/embeds.js:25 | `{SITE}`, `{Site}` and `{site}` are all replaced by the site's value |
| Embeds.EntriesAppliedInOrder | src/embeds.js:24-27 | a value that holds a later placeholder is replaced again, one that holds an earlier one is not |
| Embeds.OfflineDescription | src/embeds.js:67-74 | the offline embed has a description exactly when the text is present and not blank |
| Embeds.OfflineStatus | src/embeds.js:56-84 | the offline embed has the translated title and footer and no fields; missing texts give the fixed "Server Offline" embed |
| Embeds.PlainOfflineDescriptionShown | src/embeds.js:68-73 | a non-blank description without placeholders is shown as it is |
| Embeds.MotdEmbed | src/embeds.js:87-102 | offline gives the offline embed; online gives the motd filled into the title and the footer "Checked at" |
| Embeds.PlayerListEmbed | src/embeds.js:105-123 | offline, or missing texts, give the offline embed; online gives the player fields and the offline footer |
| Embeds.PlainTextTrimmed | src/embeds.js:135-145 | a field text without placeholders is only trimmed |
| Embeds.StatusEmbed | src/embeds.js:126-167 | offline or missing texts give the offline embed; online gives the player fields followed by one field made of the two filled descriptions, and the online footer |
| Embeds.Capitalized | src/embeds.js:184 | the first letter upper-cased, the rest kept |
| Embeds.AliasText | src/embeds.js:192-195 | the aliases in backticks, empty exactly when there are none |
| Embeds.FindCommand | src/embeds.js:174 | `find` gives the first fetched command with the name, or none when no command has it |
| Embeds.Visible | src/embeds.js:200-206 | the visible names are exactly the configured commands that are enabled |
| Embeds.ListCommands | src/embeds.js:207-218 | the loop gives one line per fetched command whose name is visible, in the fetched order |
| Embeds.HelpLinesAppend | src/embeds.js:209-218 | the lines of two lists of commands are the lines of each, concatenated |
| Embeds.HelpLineOfOne | src/embeds.js:210-216 | a single command gives its line when visible and nothing otherwise |
| Embeds.HiddenCommandLeftOut | src/embeds.js:210 | a command that is not visible adds no line wherever it stands |
| Embeds.HelpEmbed | src/embeds.js:170-237 | an unknown command name gives no embed; a known one without configured aliases throws; a found one gets its capitalised name in the title; without a name the list of visible commands follows the description |
| Embeds.UptimeAsWrittenHasNoHours | src/embeds.js:246-249 | as written hours and days are derived from the minutes within the hour, so they are always 0 |
| Embeds.DayAndHourAsWritten | src/embeds.js:246-249 | 90000 s of uptime shows as written as 0 days, 0 hours, 0 minutes and 90000 seconds, and as 1 day and 1 hour once corrected |
| Embeds.Uptimed | src/embeds.js:246-249 | the corrected split: hours under 24, minutes and seconds under 60, adding up to the uptime |
| Index.ColumnLength | src/index.js:189-192 | dealing n players round-robin gives column g `(n + 2 - g) / 3` names |
| Index.ColumnAt | src/index.js:190-192 | player k lands in column `k % 3` at position `k / 3`, shown by `name_clean` or as itself |
| Index.GroupedFieldCount | src/index.js:182-200 | the grouped list is the summary field plus one field per non-empty column: `1 + min(n, 3)` fields |
| Index.GroupPlayerList | src/index.js:180-203 | the two loops build the summary field with both counts filled (in any case), then each non-empty column as an inline field headed by its first name |
| Index.PlayersList | src/index.js:267-283 | always the summary field first; only it for an empty list or a bedrock server; otherwise the grouped fields |
| Index.ListingFor | src/index.js:227-265 | a failed fetch gives the offline default; otherwise the fetched data and online flag, with no player fields when only data is asked for, none for an offline server, and the player list for an online one |
| Index.PortSuffix | src/index.js:352 | the port is shown exactly when it is not 25565 |
| Index.Address | src/index.js:351-354 | bedrock servers show ip and port on two lines; others show the bold ip followed by the port suffix |
| Index.DefaultPortHidden | src/index.js:352-353 | a Java server on 25565 shows only its ip |
| Index.UnknownOnlineStatusAccepted | src/index.js:114-117 | as written an online status "busy" with offline "idle" passes the check; the corrected check rejects it |
| Index.PresenceCheckStrengthened | src/index.js:114-117 | everything the check as written rejects, the corrected check rejects too |
| Index.ViolatedRuns | src/index.js:135-144 | a violated check is always among those that run (the interval checks only outside debug) |
| Index.FailuresExact | src/index.js:105-144 | after the first k checks, the errors are exactly the violated ones among them, in check order |
| Index.RunFailuresExact | src/index.js:105-144 | after all the checks that run, the errors are exactly the violated checks, in check order |
| Index.AlwaysChecked | src/index.js:109-133 | the eight unconditional checks push their errors in order |
| Index.FailedChecks | src/index.js:105-144 | all checks: exactly the violated ones, in check order |
| Index.CheckConfig | src/index.js:102-173 | the config errors, then the slash-name errors; every violated check is reported and nothing else, the presence check as written (only the offline status is looked up when the online one is set); the process exits exactly when there is an error |
| Index.AsErrors | src/index.js:106 | one error per failed check, in order |
| Index.AsNameErrors | src/index.js:152-164 | one error per slash-name message, in order |
| Index.ReportMembership | src/index.js:102-167 | a check is reported exactly when it failed |
| Index.ReportOrdered | src/index.js:102-167 | the config errors come first and in check order |
| Index.ReportTail | src/index.js:146-167 | the slash-name errors come last, in order |
| Index.ReportedChecks | src/index.js:102-167 | the error list of a configuration reports exactly its violated checks, in order, followed by the slash-name errors |
| Index.ReportOf | src/index.js:102-167 | any ordered list of exactly the violated checks yields a well-formed report |
| ServerSettings.Update | src/commands/setname.js:39-48 | the update succeeds exactly when the document is an object or array and its settings can take a property; then the field holds the value, the other top-level keys and the other settings fields are unchanged, and an array (top level or in `serverSettings`) is written back unchanged |
| ServerSettings.FromNothing | src/commands/setname.js:35-42 | an unreadable file starts from `{}`, which gains an empty `serverSettings` |
| ServerSettings.TruthyPrimitiveSettingsThrow | src/commands/setname.js:40-45 | a truthy primitive `serverSettings` makes the assignment throw in strict mode |
| ServerSettings.FalsySettingsReplaced | src/commands/setname.js:40-42 | a falsy `serverSettings` is replaced by a fresh object |
| SetName.DollarNameExpanded | src/commands/setname.js:45-51 | in any template whose first `{name}` has no `{` before it, the name `a$&b` (stored as given) shows in the reply as `a{name}b`, because the replacement text expands `$` patterns |
| SetName.Run | src/commands/setname.js:24-63 | a document is written exactly when the update can go through, with the new name and every other key kept, and the success reply is sent with the name in place of the first `{name}` (its `$` patterns expanded); a failed update or a failed write gives the error reply with that error's message |
| SetSite.Run | src/commands/setsite.js:28-75 | a URL without a protocol gets the invalid-URL reply and no file access; otherwise as `/setname`, with the site field: saved exactly when the update and the write succeed, and a failure replies with its message |
| SetStatus.ScanMeansLabels | src/commands/setstatus.js:82 | the scan that follows the regular expression character by character accepts exactly the texts whose dot-separated labels are all valid |
| SetStatus.DomainPatternIffLabels | src/commands/setstatus.js:82-83 | the domain pattern holds exactly when every label has 1 to 63 letters, digits and hyphens and starts and ends with a letter or digit |
| SetStatus.LongHostnamesAccepted | src/commands/setstatus.js:82 | adding a valid label to an accepted name is accepted again, so there is no total length limit |
| SetStatus.StripScheme | src/commands/setstatus.js:73 | only a leading `http://` or `https://`, in any case, is removed; anything else is kept whole |
| SetStatus.HostnameCheck | src/commands/setstatus.js:71-84 | a host is valid exactly when, after the scheme is stripped, it is an IP address or all its labels are valid |
| SetStatus.WithoutChannel | src/commands/setstatus.js:149-151 | filtering throws on a `null` entry; otherwise it keeps only entries from the list whose channel differs |
| SetStatus.WithoutChannelSpec | src/commands/setstatus.js:149-151 | the filter keeps the other entries in order and removes exactly the entries of the channel |
| SetStatus.Record | src/commands/setstatus.js:154-162 | the new record carries the channel, the ip, the id of the message just sent and the avatar flag |
| SetStatus.UpsertSpec | src/commands/setstatus.js:149-162 | after the upsert exactly one entry has the channel, it is the last, and the others keep their order |
| SetStatus.StoreRecord | src/commands/setstatus.js:143-162 | storing succeeds exactly on an object or array whose list has no `null`; an object gets the upserted list (a non-array list counts as empty) and keeps its other keys; an array is written back unchanged |
| SetStatus.AvatarFlag | src/commands/setstatus.js:137-141 | the avatar flag is set exactly when the option is true, the member can manage channels, the feature is on and the type is `java` |
| SetStatus.Run | src/commands/setstatus.js:86-197 | disabled and admin-only stop with no file access; an invalid host fails with its message before any write; the file is written exactly on success, with the upserted list and the other keys unchanged; a failed write fails with its message |
| SetStatus.RunUpsertsChannel | src/commands/setstatus.js:143-168 | after a successful run the channel's record is the last and only one for the channel, the others keep their order, and every other key is kept |
| SetStatus.UnreadableFileGetsOneRecord | src/commands/setstatus.js:120-123 | an unreadable file ends up holding just the new record |
| Translations.MainLanguage | src/utils/translationManager.js:44-50 | the main language is always supported: a supported code is kept, anything else (an empty one included) becomes `en` |
| Translations.Chosen | src/utils/translationManager.js:44-56 | each per-type language left empty falls back to the main language, which is supported |
| Translations.Distinct | src/utils/translationManager.js:59-65 | removing repeats keeps exactly the same codes, each once, the first one first |
| Translations.UsedCoversChosen | src/utils/translationManager.js:59-65 | the used languages are exactly the five chosen ones without repeats, the main language first |
| Translations.MainOnlyUsed | src/utils/translationManager.js:44-65 | with only a main language configured, it is the one language used |
| Translations.DefaultTranslation | src/utils/translationManager.js:108-137 | the built-in table of every type is an object |
| Translations.DefaultPresenceTexts | src/utils/translationManager.js:111-121 | the built-in `bot-status` table holds the default online and offline presence texts |
| Translations.LoadOne | src/utils/translationManager.js:78-97 | loading one file of one language leaves an entry for it and drops no language and no entry |
| Translations.LoadTypes | src/utils/translationManager.js:77-99 | loading the types of a language leaves an entry for each of them and drops nothing |
| Translations.LoadLanguages | src/utils/translationManager.js:73-101 | after loading, every used language has an entry for each of the five types, and nothing loaded before is dropped |
| Translations.LoadedFromFilesOrDefaults | src/utils/translationManager.js:78-97 | every loaded entry is the language's own file, the English file or the built-in table of its type |
| Translations.LoadLanguagesKeepsFiles | src/utils/translationManager.js:78-82 | each used language keeps its own file for every type that has one, whatever is loaded after it (a falsy English file aside) |
| Translations.LoadOneAsWritten | src/utils/translationManager.js:84-97 | as written, a missing non-English file when English has no table yet throws; when it does not throw it loads like the corrected step |
| Translations.LoadTypesAsWritten | src/utils/translationManager.js:77-99 | when loading the types as written does not throw, it gives what the corrected loading gives |
| Translations.LoadLanguagesAsWritten | src/utils/translationManager.js:73-101 | when loading the languages as written does not throw, it gives what the corrected loading gives |
| Translations.ThrowEndsLoading | src/utils/translationManager.js:77-99 | as written, the error of a thrown type is the outcome of loading the whole language |
| Translations.ThrowEndsLanguages | src/utils/translationManager.js:74-100 | as written, the error of a thrown language is the outcome of the whole loading |
| Translations.MainLanguageWithoutFileThrowsAsWritten | src/utils/translationManager.js:91-96 | as written, a non-English main language with no `console-log` file makes the start-up throw |
| Translations.FirstKindMissingThrows | src/utils/translationManager.js:93 | as written, a non-English language loaded before English with its first type missing throws |
| Translations.EnglishFirstAgrees | src/utils/translationManager.js:73-101 | when English is already loaded or loaded first, the code as written never throws and gives the corrected tables |
| Translations.Translation | src/utils/translationManager.js:145-199 | `getTranslation` gives the truthy table of the language asked (English when that one is not loaded), else the truthy English table, else the built-in one |
| Translations.UnsupportedReadAsEnglish | src/utils/translationManager.js:149-156 | an unsupported language asked for is read as English |
| Translations.Resolve | src/utils/translationManager.js:215-221 | a path is found only when every shorter prefix leads to a truthy value |
| Translations.MissingStaysMissing | src/utils/translationManager.js:218-248 | once a step of the path is missing, the whole path is missing |
| Translations.BracelessTextKept | src/utils/translationManager.js:270-283 | a text without `{` is returned unchanged whatever the replacements |
| Translations.VariableFilledEverywhere | src/utils/translationManager.js:274-280 | after replacing a variable no `{key}` and no `{KEY}` remain, when the value cannot rebuild them |
| Translations.FoundText | src/utils/translationManager.js:209-257 | a string found at the path is the answer, with its variables filled in |
| Translations.MissingTextFromEnglish | src/utils/translationManager.js:222-243 | when the path is missing and another language was asked for, the English string at the path is used |
| Translations.NonStringGivesPath | src/utils/translationManager.js:251-254 | a value found that is not a string gives back the path itself |
| Translations.TranslationManager.constructor | src/utils/translationManager.js:16-33 | the languages are the chosen ones, the used list their distinct values, and the cache starts empty |
| Translations.TranslationManager.Create | src/utils/translationManager.js:16-37 | the singleton's construction as written: it throws exactly when the loading as written throws, with that error; otherwise the manager holds the tables loaded from nothing for the used languages |
| Translations.TranslationManager.LoadLanguageSettings | src/utils/translationManager.js:42-68 | the five languages become the chosen ones and the used list their distinct values |
| Translations.TranslationManager.InitTranslations | src/utils/translationManager.js:73-101 | the two loops, as written: they throw exactly when the as-written loading of the used languages throws, with its error, and otherwise leave exactly the tables it gives |
| Translations.TranslationManager.LoadKinds | src/utils/translationManager.js:77-99 | the inner loop, as written: it throws exactly when the as-written loading of the types throws, with its error, and otherwise loads exactly the types given, in order |
| Translations.TranslationManager.LoadStep | src/utils/translationManager.js:78-97 | the body of the inner loop, as written: a non-English language without the file throws when English has no table, storing nothing; otherwise it stores the file, the default, or English's entry (made the default first when falsy) |
| Translations.TranslationManager.ReloadTranslations | src/utils/translationManager.js:289-300 | the settings are read again and the tables rebuilt from nothing by the loading as written, which throws exactly when it throws at start-up for those settings |
| Translations.TranslationManager.GetText | src/utils/translationManager.js:209-262 | `getText` gives the text of the path in the manager's tables, as specified |
| Translations.TranslationManager.Walk | src/utils/translationManager.js:215-221 | the loop over the path parts finds what the path resolution gives |
| Translations.TranslationManager.ReplaceVariables | src/utils/translationManager.js:270-283 | the loop replaces `{key}` and then `{KEY}` for each replacement in order |
| I18n.EnsureSupportedAsWritten | src/utils/i18n.js:26-41 | as written, the answer is a built-in member of `Object.prototype` exactly when a truthy, unsupported value reads as one of the inherited names |
| I18n.InheritedNameEscapesAsWritten | src/utils/i18n.js:35-36 | as written, the language `constructor` comes back as a function, not as a code |
| I18n.EnsureSupported | src/utils/i18n.js:26-41 | the answer is always supported: falsy gives `en`, a supported code is kept, `zh` and `zh-CN` give `zh-TW`, anything else gives `en` |
| I18n.EnsureSupportedIdempotent | src/utils/i18n.js:26-41 | normalising a normalised code changes nothing |
| I18n.AsWrittenAgreesOnOwnNames | src/utils/i18n.js:26-41 | away from the inherited names, the code as written gives the corrected answer |
| I18n.ArrayOfOldCodeMapped | src/utils/i18n.js:35-36 | a one-element array holding `zh` is looked up as the text `zh` and gives `zh-TW` |
| I18n.InitialLanguageAlwaysEnglishAsWritten | src/utils/i18n.js:44 | as written, the whole language object is normalised, so the bot starts in English whatever is configured |
| I18n.InitialLanguage | src/utils/i18n.js:44 | read from the configured main language, the start language is supported, and it is the main language when that one is supported |
| I18n.GermanConfigured | src/utils/i18n.js:44 | with German configured, the start language is English as written and German once corrected |
| I18n.LanguageToUse | src/utils/i18n.js:119-134 | no language asked for gives the current main language; any other value is normalised by the corrected `EnsureSupported` |
| I18n.Bundles | src/utils/i18n.js:50-65 | a language has a bundle exactly when it was listed and its file parsed, and the bundle is that file |
| I18n.AliasedOldCodes | src/utils/i18n.js:69-74 | both old codes get the `zh-TW` bundle when it is there, and nothing else changes |
| I18n.Resources | src/utils/i18n.js:47-74 | a supported language has its parsed file; `zh` and `zh-CN` share the `zh-TW` bundle exactly when it loaded; no other key appears |
| I18n.Languages.constructor | src/utils/i18n.js:44-74 | the start language is the corrected initial language and the bundles are those loaded at start |
| I18n.Languages.LoadResources | src/utils/i18n.js:47-74 | the two loops build exactly the start bundles |
| I18n.Languages.LoadBundles | src/utils/i18n.js:50-65 | the first loop keeps the parsed file of each listed language that has one |
| I18n.Languages.AddAliases | src/utils/i18n.js:69-74 | the second loop gives each old code the bundle its code maps to |
| I18n.Languages.ChangeLanguage | src/utils/i18n.js:157-162 | the code normalised by the corrected `EnsureSupported` is in force from then on, and the answer is always `true` |
| I18n.Languages.Translation | src/utils/i18n.js:130-134 | the type's table of the bundle of the language the corrected `EnsureSupported` gives when it is truthy, `{}` otherwise |
| Logging.Label | src/utils/logger.js:24-31 | a level has a label exactly when it is one of the six, and every label is four or five characters |
| Logging.EnvironmentLevel | src/utils/logger.js:48-75 | exactly the four known environments have a level, and it is one of the six |
| Logging.PadEnd | src/utils/logger.js:108 | padding keeps the text as a prefix, fills with spaces only, and gives the width or the text's own length when longer |
| Logging.MetaText | src/utils/logger.js:123-140 | an error adds `: ` and its message, and its stack only at ERROR or FATAL when it has one; no metadata or a falsy value adds nothing |
| Logging.LabelsAligned | src/utils/logger.js:107-108 | every padded label is exactly five characters wide |
| Logging.PlainLine | src/utils/logger.js:103-143 | with colours and timestamps off and no metadata, an INFO line is the label padded to five, a bar and the message |
| Logging.Logger.constructor | src/utils/logger.js:37-65 | a new logger has colours and timestamps on and the level of `NODE_ENV`, TRACE when it is unset, INFO for an unknown name |
| Logging.Logger.SetEnvironment | src/utils/logger.js:71-75 | a known environment sets its level; any other name changes nothing |
| Logging.Logger.SetLevel | src/utils/logger.js:81-85 | only one of the six levels is accepted; anything else changes nothing |
| Logging.Logger.EffectiveLevel | src/utils/logger.js:164-169 | the module's own level when one was set, the global level otherwise; always one of the six |
| Logging.Logger.SetModuleLevel | src/utils/logger.js:150-157 | a valid level becomes the module's level and no other module's level changes; an invalid one changes nothing |
| Logging.Logger.FormatMessage | src/utils/logger.js:103-143 | a level without a label throws; otherwise the line is the timestamp, the padded (painted) label, the message and the metadata, separated by bars |
| Logging.Logger.Log | src/utils/logger.js:178-189 | a line is printed exactly when the level is at most the effective level of the named module, or the global level when no module is named; levels below FATAL throw, and any other printed line is the formatted line of the message |
| LoggerSettings.LevelFor | src/utils/loggerConfig.js:8-36 | the level of a known environment is its table entry, INFO otherwise; always one of the six |
| LoggerSettings.LevelsAgreeWithLogger | src/utils/loggerConfig.js:8-13 | the table of levels here agrees with the logger's own environments on every name |
| LoggerSettings.LoggerConfig.constructor | src/utils/loggerConfig.js:6-24 | the shared settings start with the default table, colours and timestamps on, no modules, and no level or timezone |
| LoggerSettings.LoggerConfig.ConfigureLogger | src/utils/loggerConfig.js:31-47 | the level of `NODE_ENV` (development when unset) is set, a truthy timezone is copied and a falsy one leaves it, and the same object is returned |
| DockerCompose.AppEnvVarIsPrefixed | scripts/generate-docker-compose.js:34-63 | a name belongs to the bot exactly when it starts with one of the prefixes and is not an excluded language name; no excluded name has a prefix |
| DockerCompose.KeyEnd | scripts/generate-docker-compose.js:81 | the key part runs up to the first `=`, or to the end when there is none |
| DockerCompose.EntryKey | scripts/generate-docker-compose.js:81-109 | an entry has a key exactly when the pattern matches (a non-empty part before any `=`, no line break after it), and the key holds no `=` |
| DockerCompose.BareNameKey | scripts/generate-docker-compose.js:81-83 | a bare trimmed name is its own key |
| DockerCompose.AssignmentKey | scripts/generate-docker-compose.js:81-83 | `KEY=value` has the key `KEY` when the value has no line break, and no key when it has one |
| DockerCompose.LeadingEqualsNoKey | scripts/generate-docker-compose.js:81 | an empty entry and one starting with `=` have no key |
| DockerCompose.MergedEntry | scripts/generate-docker-compose.js:105-128 | an entry is dropped exactly when its key is an excluded language name; a kept entry whose key has a non-empty value in the environment becomes `KEY=value` with that value; any other kept entry, one without a key included, is kept as it is |
| DockerCompose.Merged | scripts/generate-docker-compose.js:103-128 | the new environment is never longer than the template |
| DockerCompose.MergedAppend | scripts/generate-docker-compose.js:103-128 | merging a template split in two gives the two merged parts one after the other: the new list keeps template order |
| DockerCompose.MergedSingle | scripts/generate-docker-compose.js:105-128 | a single entry gives its merged form, or nothing when it is dropped |
| DockerCompose.MergedIsPresent | scripts/generate-docker-compose.js:103-128 | the new environment is exactly the merged forms of the template entries that are not dropped, in template order |
| DockerCompose.MergedKeepsSurvivors | scripts/generate-docker-compose.js:103-128 | the merged form of every template entry that is not dropped is in the new environment |
| DockerCompose.MergedOnlySurvivors | scripts/generate-docker-compose.js:103-128 | every entry of the new environment is the merged form of some template entry |
| DockerCompose.MergedEntryStable | scripts/generate-docker-compose.js:105-128 | rewriting an entry already rewritten changes nothing |
| DockerCompose.MergeIdempotent | scripts/generate-docker-compose.js:103-128 | generating from a generated environment gives it back unchanged |
| DockerCompose.MergedDropsExcluded | scripts/generate-docker-compose.js:112-115 | no entry of the new environment has an excluded language name |
| DockerCompose.MergedCarriesEnvironment | scripts/generate-docker-compose.js:118-119 | every entry whose key has a non-empty value in the environment reads `KEY=value` with that value |
| DockerCompose.EmptyEnvironmentKeepsTemplate | scripts/generate-docker-compose.js:120-127 | with an empty environment and no excluded names, the template is kept as it is |
| DockerCompose.ExcludedLanguageDropped | scripts/generate-docker-compose.js:112-115 | appending an excluded language entry to the template changes nothing in the result |
| DockerCompose.TemplateKeys | scripts/generate-docker-compose.js:79-85 | the keys collected are exactly the keys of the template's entries |
| DockerCompose.Missing | scripts/generate-docker-compose.js:88-93 | a name is reported missing exactly when it belongs to the bot and is not in the template; the names keep their order |
| DockerCompose.CollectKeys | scripts/generate-docker-compose.js:79-85 | the first loop collects exactly the template's keys |
| DockerCompose.MissingKeys | scripts/generate-docker-compose.js:88-93 | the second loop reports exactly the missing names |
| DockerCompose.NewEnvironment | scripts/generate-docker-compose.js:103-128 | the third loop builds exactly the merged environment |
| DockerCompose.Generate | scripts/generate-docker-compose.js:65-150 | the run fails exactly when there is no first service with an environment; otherwise only that environment is replaced by the merged one and the missing names are reported |
| Text.TrimStart | src/events/messageCreate/prefixCommands.js:21 | only leading white space is removed, and what is left does not start with white space |
| Text.TrimEnd | src/events/messageCreate/prefixCommands.js:21 | only trailing white space is removed, and what is left does not end with white space |
| Text.TrimIdempotent | scripts/generate-docker-compose.js:83 | trimming a trimmed text changes nothing |
| Text.TrimmedEmptyIffBlank | src/events/clientReady/autoChangeStatus.js:209 | a text trims to nothing exactly when it is all white space |
| Text.ReplaceAllLeavesNoMatch | src/utils/translationManager.js:279 | after every occurrence of a placeholder is replaced by a value that shares no character with it, no occurrence is left |
| Text.IndexOfFrom | src/commands/setname.js:51 | the search finds an occurrence at or after the start with none between the start and it, or reports that there is none |
| Text.SubstitutionWithoutDollar | src/commands/setname.js:51 | a replacement text without `$` is inserted as it is |
| Text.SubstitutionPatterns | src/commands/setsite.js:63 | `$$`, `$&`, `` $` `` and `$'` become a dollar sign, the match, the text before it and the text after it; `$1` is kept, there being no capture group |
| Text.ReplaceFirstOnlyFirst | src/commands/setname.js:51 | replacing with a text pattern changes only its first occurrence, into the expanded replacement, and keeps everything around it, later occurrences included |
| Text.ReplaceFirstLiteral | src/commands/setsite.js:63 | a replacement without `$` goes in verbatim in place of the first occurrence |
| Text.ReplaceFirstWithoutMatch | src/commands/setname.js:51 | a template without the placeholder is returned unchanged |
| Text.JoinSplitOn | src/utils/translationManager.js:215 | splitting on a character and joining with it gives the text back |

## Left out

- Discord: fetching channels and messages, editing messages and channel names, presence updates, channel creation and login. Each lookup is a parameter giving found, not found or thrown.
- The emoji handling of `getPlayersListWithEmoji` (src/index.js:285-320) and the rest of `statusMessageEdit` beyond the address text: both consist only of Discord calls.
- The Minecraft status probe. Its outcomes are a parameter indexed by the attempt number.
- Real timers, promises and interleaving. The running flags, the in-flight slot and the timer periods are modelled as sequential state. Only the delay Node.js actually uses is kept (`Timers.EffectiveDelay`).
- File I/O and parsers: reading and writing files, JSON, JSON5, YAML and `.env` parsing, and serialisation.
  - A read is given as `ReadFailed` or as its text with its parse result.
  - Writes are recorded, not performed.
  - Each write's failure is a parameter (the error thrown, or a per-attempt flag) for `/setname`, `/setsite`, `/setstatus`, `checkDataJson` and the legacy player-count start-up. Elsewhere every write is taken to succeed and the write logs list the writes attempted. At those other sites a failed write is caught and only logged. After the failed writes at src/events/clientReady/autoChangeStatus.js:164, src/events/ready/autoChangeStatus.js:131 and src/events/clientReady/playerCountCH.js:220, :255 and :323 the same steps follow as after a successful one. The failed write at src/events/clientReady/autoChangeStatus.js:65 instead ends the cycle at :70, so the cycle's two later writes of `data.json` are not attempted; no record is processed either way, since the cycle would have gone on with an empty list. A failed write ends the compose generator (scripts/generate-docker-compose.js:143). The one exception is named below under `PlayerCount.Channel.Stamp`.
- The file existence checks and exits at the start of the compose generator (scripts/generate-docker-compose.js:22-31). The generator gets its template already parsed and the environment as names and values. Names inherited by `process.env` from the process are not distinguished.
- The clock, date formatting and timezone validation (src/index.js:92-100). The current time and the backup suffix are parameters.
- Console colouring: `chalk` is a parameter of `Logging.Logger.FormatMessage`.
- Floating point: JSON numbers are integers, and CPU and memory usage in the bot-information embed are not modelled.
- `PlayerCount.Channel.Stamp`: every write is taken to succeed. A failing backup write (src/events/clientReady/playerCountCH.js:292) or data write (:316) throws into the `catch` at :319, which stamps and writes the in-memory copy again; that path is not modelled.
- `JsonDoc.Length`: an object's own `length` member counts only when it is a number. A string, boolean or array there, which `> 0` would coerce to a number, reads as `undefined`, so the guard `HasItems` fails for it.
- `DockerCompose.Merged`: its own contract bounds only the length. Its contents and order are stated by `MergedAppend` and `MergedSingle` (which together determine the list), by `MergedIsPresent` and by `MergedKeepsSurvivors` and `MergedOnlySurvivors`.
- `Logging.Logger.SetLevel`: levels are integers. A fractional level, which the source's range test would also accept, is not modelled.
- The logger's constructor options are not modelled. The model starts from the default configuration.
- The Unicode property classes of the slash-command name check (src/index.js:146-167). Its results reach the configuration check as given error messages.
- `AutoReply.Replies`: trigger words are matched as literal text. The source builds a regular expression from them without escaping, so a `?` in a configured word acts as a quantifier there and not here. Whether a character is a letter (`\p{L}`) is a parameter. The `$` patterns (`$&`, `$$`, `` $` ``, `$'`) that `replace` would expand in the configured address, site and version are inserted literally.
- `Embeds.ReplacePlaceholders`: keys are matched as literal text, case-insensitively. Regular-expression metacharacters in a key and `$` patterns in a value are not interpreted.
- `Embeds.OfflineStatus`, `Embeds.StatusEmbed`: their own replacements of `{ip}` and `{port}` (src/embeds.js:70-71) and of `{ip}`, `{motd}`, `{version}` and `{siteText}` (src/embeds.js:141-144) insert a `$` pattern in the configured address, port, version, message of the day or site text literally, where `replace` would expand it.
- `I18n.LanguageToUse`, `I18n.Languages.ChangeLanguage`, `I18n.Languages.Translation`: each builds on the corrected `I18n.EnsureSupported` (see "## Findings"). As written, src/utils/i18n.js:121, :131 and :158 pass on an inherited member such as the `Object` function for a language named `constructor`; the model passes on `en` instead.
- `Translations.TranslationManager.ReplaceVariables`: keys are matched as literal text. Regular-expression metacharacters in a key and `$` patterns in a value are not interpreted.
- `Translations.Resolve`: the dotted path is followed through object members only. Indexing into a string or an array by a path part is not modelled.
- Case mapping (`toLowerCase`, `toUpperCase`, the `i` flag) is modelled on ASCII letters only.
- `isIP` and `validator.isURL` (src/commands/setstatus.js:76, src/commands/setsite.js:35) are parameters.
- What i18next does inside `i18n.getText`, `i18n.getTranslation` and `reloadTranslations` (src/utils/i18n.js:84-109, 119-122, 167-190). Only the language chosen and the bundles handed to it are modelled, and `getTranslation` reads the start bundles.
- `getLanguages` and `getLanguageSettings` (src/utils/i18n.js:140-150) only return the supported list and the current language.
- Logging calls in the handlers and commands are not modelled. Only what they decide or write is.
- The command wrappers (`status`, `motd`, `players`, `version`, `site`, `ip`, `help`, `info`), `languageService.js`, `loggerMigration.js` and `0console-log.js` are not part of this model. They only forward to the modelled functions or print text.

## Findings

| source | as written | input that shows it | evidently intended | confidence | as-written member | corrected member |
|---|---|---|---|---|---|---|
| src/events/clientReady/playerCountCH.js:86-161 | `statusName` is never declared. In an ES module every assignment to it throws, and the error is caught at :161. | any tick with a resolved channel, e.g. server online with 5/20 players | the channel is renamed to the chosen text when it differs | not executed | PlayerCount.UpdateAsWritten | PlayerCount.Update |
| src/index.js:114-117 | `includes(online && offline)` tests only the offline status when the online one is truthy | online status `"busy"`, offline status `"idle"`: no error is reported | both configured statuses are checked | not executed | Index.UnknownOnlineStatusAccepted | Index.PresenceCheckStrengthened |
| src/events/ready/botStatusUpdate.js:146-150 | the interval, already in milliseconds, is multiplied by 1000 again for the timer and for the cache expiry | the default `UPDATE_INTERVAL` of 60 gives a period of 60000000 ms (1000 minutes) and a cache life of 900 minutes; from 2148 s up the period passes Node's timer maximum and the timer fires every millisecond | a period of 60 s and a cache expiry of 54 s | not executed | LegacyBotStatus.DefaultScheduleAsWritten | LegacyBotStatus.DefaultScheduled |
| src/embeds.js:246-249 | the hours are derived from the minutes within the hour, so hours and days are always 0, and the seconds are the total | an uptime of 90000 s shows 0 days, 0 hours, 0 minutes, 90000 seconds | 1 day, 1 hour, 0 minutes, 0 seconds | not executed | Embeds.DayAndHourAsWritten | Embeds.Uptimed |
| src/utils/translationManager.js:91-96 | a language other than English that lacks a file, loaded before English, reads `translations['en'][type]` before English has a table and throws out of the constructor | main language `de` with no `translation/de/console-log.json5` | fall back to the English table, creating it from the default | not executed | Translations.MainLanguageWithoutFileThrowsAsWritten | Translations.LoadLanguages |
| src/utils/i18n.js:35-36 | `languageMapping[lang]` also finds the members every object inherits | language `"constructor"` gives the `Object` function | only `zh` and `zh-CN` are mapped, and anything else gives `en` | not executed | I18n.InheritedNameEscapesAsWritten | I18n.EnsureSupported |
| src/utils/i18n.js:44 | the whole `language` settings object is normalised, never a code | main language `de` configured: the bot starts in `en` | the configured main language, here `de` | not executed | I18n.InitialLanguageAlwaysEnglishAsWritten | I18n.InitialLanguage |
