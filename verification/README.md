# A Dafny model of Rally's coordination cores

Rally coordinates coding agents through append-only logs and delivers text to live terminals. This
project models the parts whose correctness depends on loops, on whole runs or on several functions
together, and proves what they promise. `dafny verify dfyconfig.toml` checks the whole project.

| file | what it models |
|---|---|
| `Disks.dfy` | a directory and its files with volatile and durable state, crashes, other processes, what no step takes away |
| `Archive.dfy` | compressing a quarantined database: staged file, verification, hard-link publication, directory syncs, unlink, crash after any step |
| `Restore.dfy` | restoring an archive, its crashes, the round trip |
| `CompactRoom.dfy` | the compact room document that contains its own byte length and is trimmed to a budget |
| `Marks.dfy`, `Delivery.dfy` | the forged-mark scrubber, the sanitizer, the message frame and the receiver rule; the Python doorbell twin |
| `Receiver.dfy` | what a receiver reads back from a delivered text |
| `Utf8.dfy`, `Tmux.dfy`, `Framing.dfy` | UTF-8 (section 3 of RFC 3629), what tmux types for an argument vector, the bracketed-paste frame, the hex and stdin paths, the doorbell argv |
| `FieldSplit.dfy` | the tmux field splitter with three encodings |
| `Consent.dfy` | the hash-chained consent log, its replay, the depth cap and the gate |
| `EventStore.dfy`, `Supervisor.dfy` | numbered event streams, reconnecting readers, session life cycle behind the gate |
| `Approvals.dfy` | pending approvals: register, resolve, abort, sweep |
| `Ledger.dfy`, `BacklogCodec.dfy`, `Backlog.dfy`, `AgentStates.dfy` | facts, the latest fact per key, backlog items written into facts and read back, the roster of agents |
| `Lanes.dfy`, `BacklogView.dfy` | the board: lanes of claims, active scopes, open and blocked backlog items |
| `StartMarker.dfy` | the start-attempt marker that several processes race for |
| `WriteCheck.dfy` | the before-write check |
| `Basics.dfy`, `Sorting.dfy` | shared containers, filters, a stable sort |

State that the code changes step by step is a class (`Volume`, `Body`, `Store`, `Supervisor`,
`ApprovalManager`, `Room`, `MarkerFile`) whose methods are tied to functions of the old state; the
laws are lemmas about those functions.

## Assumptions

- SHA-256 is injective where it is used as an identity, both for archives and for consent entries. Nothing is
  assumed about gzip except that an empty stream does not decompress to a nonempty file: the protocol verifies
  its own output.
- During a compression other processes may rewrite, replace or remove the source, any number of times: while it is read,
  before each of the two checks of its fingerprint, and after the unlink, but not between the last check and the unlink;
  and they leave the other names alone. A write from outside always shows in the fingerprint. A crash keeps any ordered subset of the directory changes made since the last directory sync, and
  leaves arbitrary bytes in files that were never synced.
- The room store keeps an appended fact as given, under a number above all earlier ones.
- tmux cuts an argument vector into commands at arguments ending in an unescaped semicolon, reads `-t`, `-b`, `-H`, `-r`, `-d` and `--`, and
  pastes a buffer only if it was loaded under the same name (`Tmux.dfy`).
- SQLite statements are atomic; `append_event` and a launch are complete calls.
- The clock, new ids, adapter outcomes and what an adapter puts on its channel are parameters, and all of them are arbitrary.

## Where code and documentation disagree

The model follows the code.

- `scripts/rally_wake.py:149` says that its mark mirrors the Rust one; the Python mark is still
  `UNVERIFIED SENDER`, the Rust marks are `RALLY MESSAGE FRAME` and `RALLY RECEIVER RULE`. The scrubber theorems
  are generic in the mark.
- `crates/cockpitd/src/approval.rs:13` says an approval expires when its deadline is before now; the sweep
  denies at the deadline itself (`crates/cockpitd/src/approval.rs:106`).
- `crates/rally-cli/src/daemon_autostart.rs:48-50` promises one winner per interval. `SingleFlightExactly` shows that this
  holds in every interleaving exactly when at most one caller finds the first marker stale;
  `StaleCallersBothWin` gives the run with two winners.
- `crates/rally-cli/src/agent_view.rs:139` computes `budget * 3` in machine arithmetic. A release build wraps past 64
  bits and a debug build panics; the model wraps. `Settle` says exactly when the flag is right, and (`Roomy`) when no peer will have to go;
  `SevereAtWrappingBudget` shows a wrapping budget at which it is always raised.
- `scripts/rally_storage.py:103-104` expects that an archive found in place is durable. `CrashSafetyExactly`
  shows that this is needed: relying on an archive whose own bytes were never synced can lose them.
- A terminal status is meant to be final (`crates/cockpitd/src/model.rs:55-62`), but a pump that meets a terminal item overwrites the row
  without a look at it (`crates/cockpitd/src/transport/ws.rs:1208-1212`); `Run` says exactly when that happens. A pump also tells only the live map that a
  session waits for input.
- A failed `Adapter::start` (`crates/cockpitd/src/supervisor.rs:153`, `crates/cockpitd/src/supervisor.rs:216`) leaves an `Active` row that is
  not live, which no later operation changes (`Supervisor.Run`).
- `crates/cockpitd/src/store.rs:196` casts the replay position to a signed column; from 2^63 on the whole stream comes
  back (`ReplayAfterHugeNumber`).
- `crates/rally-cli/src/backlog.rs:50-58` trims ids: an id given with outer blanks is stored as given and read back trimmed, so an update under
  the id as given cannot find it (`AddedItemFound`).

## Model

| member | source | states |
|---|---|---|
| Archive.Volume.CompressQuarantine | scripts/rally_storage.py:70-122 | for every script of other processes: each state keeps what was durable before, an untouched source included; a source is unlinked only if untouched, when the archive holds its bytes and is durable; nothing else in the run touches the source; undisturbed, outcome and every state are those of `QuietRun` |
| Archive.Volume.ReadSource | scripts/rally_storage.py:86-88 | the block loop returns the file's bytes unless the file changed version meanwhile |
| Archive.Volume.Prepare | scripts/rally_storage.py:83-94 | stages a synced archive beside the source and returns its content only if digest and size agree with what was read |
| Archive.Volume.Publish | scripts/rally_storage.py:103-111 | links without overwriting, or accepts an existing archive only with equal content, then syncs the directory |
| Archive.Volume.Settle | scripts/rally_storage.py:95-111 | a changed source, no saving or a foreign archive each end the run with the source in place |
| Archive.Volume.Finish | scripts/rally_storage.py:112-115 | the file that is unlinked has the fingerprint taken at the start |
| Archive.QuietRunSecure | scripts/rally_storage.py:70-122 | in every state of an undisturbed run that starts safely, source or archive is durable and holds the original bytes |
| Archive.CrashSafety | scripts/rally_storage.py:70-122 | for undisturbed runs: a crash in any state, keeping any subset of unsynced changes, leaves the original bytes on the volume and a safe start for the next run, so any number of crashes and reruns is covered |
| Archive.CompressSafely | scripts/rally_storage.py:70-122 | for every script of other processes and a crash in any state: if the source was untouched until then, or is unlinked in the end, or was archived before, the original bytes survive and the next run starts safely; the source is unlinked once if the run compressed, never otherwise |
| Archive.DisturbedSecure | scripts/rally_storage.py:70-122 | in each such state source or archive is durable and holds the original bytes |
| Archive.ClosedByArchive | scripts/rally_storage.py:111-116 | from the unlink on the archive is durable and holds the unlinked bytes, whatever happens to the name |
| Archive.EarlyEndSecure | scripts/rally_storage.py:119-122 | an I/O error that ends an undisturbed run early, in any state, leaves it secure after the clean-up |
| Archive.DisturbedEarlyEnd | scripts/rally_storage.py:119-122 | the same for a run beside other processes, in every state in which the run answers for the bytes |
| Archive.CrashSafetyExactly | scripts/rally_storage.py:102-116 | from a durable source every crash keeps the bytes if and only if the run does not rely on an existing unsynced archive |
| Archive.UnsyncedArchiveLoses | scripts/rally_storage.py:105-114 | with a verified but unsynced archive in place some crash loses the bytes |
| Archive.QuietRunEnds | scripts/rally_storage.py:70-122 | which of the outcomes an undisturbed run has, as an exact condition on source, gzip and existing archive, and the directory it leaves |
| Archive.QuietRunReports | scripts/rally_storage.py:70-122 | the digest, size and saving a run reports are those of the source and its archive; when a run touches nothing, the name, the file or a second link is why |
| Archive.QuarantineNames | scripts/rally_storage.py:20 | the accepted names are a stem, a number and nothing, or one of four suffixes |
| Restore.RestoreArchive | scripts/rally_storage.py:124-144 | goes through if and only if the archive is the destination and `.gz`, the destination a quarantine name and free, the archive a regular file that decompresses; a wrong name leaves every state as it was; it never overwrites, passes through exactly `RestoreStates`, each keeping what was durable, and leaves a durable file with the decompressed bytes |
| Restore.RestoreRefusedExactly | scripts/rally_storage.py:124-144 | which refusal a restore meets, by names and disk alone |
| Restore.RestoreSafely | scripts/rally_storage.py:124-144 | whatever crash strikes a restore, the destination is absent or holds the whole content, and every durable name still leads to its file |
| Restore.CompressThenRestore | scripts/rally_storage.py:70-144 | a compressed source is brought back by a restore with the same bytes, durably, unless another process took the name; undisturbed, a run compresses exactly under `Compresses` |
| CompactRoom.Body.Settle | crates/rally-cli/src/agent_view.rs:124-168 | the loop ends for every document and budget; the stated size is the real size; over-budget is exact; severe is exact when the tripled budget fits 64 bits, and where no peer was dropped exactly when it fits or the size is within the wrapped product; only peers are dropped, from the end, and counted; overflow means no peers and a breakdown |
| CompactRoom.Body.Round | crates/rally-cli/src/agent_view.rs:124-167 | one pass keeps the invariant, never lowers a flag, and lowers the lexicographic measure |
| CompactRoom.DistanceFalls | crates/rally-cli/src/agent_view.rs:124-128 | restating the size moves strictly towards a fixpoint of base plus digits |
| CompactRoom.RaisingGrows | crates/rally-cli/src/agent_view.rs:138-160 | raising a flag with its reason or breakdown never shortens the document, although `true` is shorter than `false` |
| CompactRoom.RecencyOrderIs | crates/rally-cli/src/agent_view.rs:86-96 | the peers are exactly the fresh other squads, ordered by last seen and then by tool |
| CompactRoom.BaseIsLength | crates/rally-cli/src/agent_view.rs:118-166 | the size the loop works with is the length of the rendered text with its own length written into it, whatever the fixed pieces |
| CompactRoom.ShownExactly | crates/rally-cli/src/agent_view.rs:64-85 | without paths everything is shown but the obligations of others; with paths what names the viewer or covers a path, and facts without a scope |
| CompactRoom.Compose | crates/rally-cli/src/agent_view.rs:57-169 | the viewer's claims, blockers, obligations and decisions come out in full whatever the budget; peers are a prefix of the recency order of length at most eight, all eight without a budget or when the document fits with every flag raised; kept plus omitted is the squad total |
| CompactRoom.SevereAtWrappingBudget | crates/rally-cli/src/agent_view.rs:139 | at one wrapping budget every document ends severe, even within its budget |
| Marks.MatchLabelMark | crates/rally-cli/src/backends.rs:1891-1915 | the nested loops compute `MatchMark`, the case-insensitive match with runs of blanks between words |
| Marks.StripInjectMark | crates/rally-cli/src/backends.rs:1867-1882 | the index loop computes `Strip` |
| Marks.MatchLocal | crates/rally-cli/src/backends.rs:1891-1915 | a match depends on the characters it covers and on nothing else |
| Marks.StripRemoves | crates/rally-cli/src/backends.rs:1867-1882 | after scrubbing no position matches the mark: none is created by joining or by the replacement text |
| Marks.StripKeepsOthersAbsent | crates/rally-cli/src/backends.rs:1884-1889 | scrubbing one mark never creates another that was absent |
| Marks.StripIdentity | crates/rally-cli/src/backends.rs:1867-1882 | scrubbing changes a text if and only if the mark occurs in it |
| Marks.StripIdempotent | scripts/rally_wake.py:201-222 | a second scrub changes nothing, in either dialect and for every mark |
| Marks.StripChars | crates/rally-cli/src/backends.rs:1867-1882 | scrubbed text holds only characters of the input and of the replacement |
| Marks.MatchIsOccurrence | crates/rally-cli/src/backends.rs:1891-1915 | the matcher hits exactly where the words stand in a row, in any mix of cases, with nonempty runs of Unicode white space between them |
| Marks.StripCuts | crates/rally-cli/src/backends.rs:1867-1882 | the scrub keeps the text before the first occurrence, puts `[trust-label-removed]` for the whole of it, and scrubs what follows as a text of its own |
| Delivery.SanitizeFilters | crates/rally-cli/src/backends.rs:1607-1690 | sanitizing keeps the surviving characters in order |
| Delivery.SanitizeKeeps | crates/rally-cli/src/backends.rs:1607-1690 | only surviving characters are left, each as often as before, and clean text is unchanged |
| Delivery.PayloadIsUnmarked | crates/rally-cli/src/backends.rs:1884-1889 | after sanitizing and both scrubs no position of any payload matches either mark, and a further scrub is a no-op |
| Delivery.StartsAcross | crates/rally-cli/src/backends.rs:1917-1929 | no match crosses the closing bracket between label and tail |
| Delivery.RuleAndPayload | crates/rally-cli/src/backends.rs:1842-1865 | rule plus payload carry the rule mark once when there is a rule, and never the frame mark |
| Delivery.DeliveredMarks | crates/rally-cli/src/backends.rs:1809-1929 | for every sender, message and text: one frame mark, at 1; one rule mark, right after the label, exactly for inform, request and propose; only surviving characters |
| Delivery.DeliveredWakeMarks | scripts/rally_wake.py:119-230 | for every sender and text the doorbell text carries its mark exactly once, at 8 |
| Receiver.SurvivorsAre | crates/rally-cli/src/backends.rs:1607-1690 | the characters that survive sanitizing, as the ranges between the dropped ones |
| Receiver.DeliveredPayload | crates/rally-cli/src/backends.rs:1917-1929 | sender and message fix one head, the same for every text, and behind it comes the filtered text with both marks scrubbed; clean text free of both marks comes out whole |
| Receiver.DeliveredLabel | crates/rally-cli/src/backends.rs:1809-1840 | whatever the payload says, the first word under each key and the words after it are those of the true sender, intent, control attempt, sender type, room position, lead decision, responsibility and authority, with their caveats |
| Receiver.MessageReadsBack | crates/rally-cli/src/backends.rs:1809-1929 | a reader that knows only field names and wire spellings recovers from every delivered text the sender's allowed characters and the whole message context; control-attempt is `yes` exactly for directive and unknown |
| Receiver.DeliveredRest | crates/rally-cli/src/backends.rs:1842-1929 | behind the label stand the words of the rule for the intent, if it has one, and then those of the payload |
| Receiver.DeliveredWake | scripts/rally_wake.py:154-230 | the doorbell text is its mark, the sender's allowed characters or `(none stated)`, and the whole scrubbed payload |
| Utf8.DecodeEncode | crates/rally-cli/src/backends.rs:1949-1960 | strict UTF-8 decoding inverts encoding |
| Utf8.EncodeDecode | crates/rally-cli/src/backends.rs:1949-1960 | a decodable byte string is the encoding of what it decodes to |
| Utf8.AsciiBytes | crates/rally-cli/src/backends.rs:1949-1960 | a byte below 0x80 occurs in the encoding if and only if that character occurs in the text |
| Utf8.ReadHexTokens | crates/rally-cli/src/backends.rs:1963-1965 | reading the hex tokens back gives the bytes |
| Utf8.Rfc3629Examples | crates/rally-cli/src/backends.rs:1949-1960 | the encoder gives the bytes of examples in section 7 of RFC 3629, one for each length |
| Framing.FrameLineBytes | crates/rally-cli/src/backends.rs:1949-1960 | the grown buffer is the text between `ESC [ 200 ~` and `ESC [ 201 ~` and a CR; a bracketed-paste reader sees in it one paste with exactly the text, and one submit |
| Framing.FrameControls | crates/rally-cli/src/backends.rs:1581-1600 | CR only in last place, ESC only at the two paste markers |
| Framing.ReaderRecovers | crates/rally-cli/src/backends.rs:1949-1974 | a bracketed-paste reader sees a cleared line, one paste with exactly the text, one submit |
| Framing.InjectTypes | crates/rally-cli/src/backends.rs:1190-1255 | on either path tmux types one thing, the cleared frame, and types it into the target, if and only if no semicolon ends the target's name |
| Framing.InjectDelivers | crates/rally-cli/src/backends.rs:1208-1255 | end to end: for every sender, message and text a reader recovers from the bytes one cleared line, one paste with the delivered text, one submit; tmux types them into the target, and nowhere else, if and only if no semicolon ends its name |
| Framing.Inject | crates/rally-cli/src/backends.rs:1208-1255 | stdin is used exactly above 8192 encoded bytes and holds the cleared frame; on either path tmux types that frame into the target if and only if no semicolon ends its name, and it reads as clear, one paste with the delivered text, submit |
| Framing.TargetChars | scripts/rally_wake.py:276-303 | an accepted target consists of harmless characters |
| Framing.WakeSplits | scripts/rally_wake.py:306-353 | the argv splits at `;` into exactly clear, payload, submit, and the payload decodes to the delivered text |
| Framing.WakeTypes | scripts/rally_wake.py:306-353 | tmux types three things into the target: the clearing key, the bytes of the delivered text, the submitting key |
| Framing.WakeRefuses | scripts/rally_wake.py:289-303 | a target with any other character is refused |
| Framing.WakeAccepts | scripts/rally_wake.py:276-303 | ids, bare names and `session:window.pane` are accepted exactly up to 128 characters |
| FieldSplit.NamedForm | crates/rally-cli/src/backends.rs:2006-2034 | splitting inverts joining with the named separator when no field holds its stem |
| FieldSplit.TabForm | crates/rally-cli/src/backends.rs:2006-2034 | splitting inverts joining with tab when the named separator does not occur |
| FieldSplit.UnderscoreForm | crates/rally-cli/src/backends.rs:2006-2034 | splitting inverts joining with `_` when only the free field holds underscores, for every count and free index |
| FieldSplit.SplitFieldsSound | crates/rally-cli/src/backends.rs:2006-2034 | whatever is returned has the expected count and joins back to the trimmed line |
| FieldSplit.StemCloses | crates/rally-cli/src/backends.rs:1982 | a field without the stem cannot overlap a following separator |
| FieldSplit.TrimIs | crates/rally-cli/src/backends.rs:2006-2034 | line breaks and spaces come off both ends of a reply and nothing else does |
| Consent.VerifyChain | crates/cockpitd/src/consent.rs:341-391 | the walk accepts exactly the logs whose every entry carries its index, its predecessor's hash and its own |
| Consent.SharedHashSharedPrefix | crates/cockpitd/src/consent.rs:316-391 | two verifying logs that share one entry hash, at any positions, agree on position and whole prefix |
| Consent.HeadFixesLog | crates/cockpitd/src/consent.rs:316-391 | the head hash fixes length and contents |
| Consent.TamperingBreaks | crates/cockpitd/src/consent.rs:341-391 | any edit, insertion or removal that keeps a later hash fails verification |
| Consent.AppendVerifies | crates/cockpitd/src/consent.rs:341-391 | an extended log verifies exactly when the log does and the new entry links to it |
| Consent.PrefixVerifies | crates/cockpitd/src/consent.rs:341-391 | verification is prefix-closed |
| Consent.Replay | crates/cockpitd/src/consent.rs:399-425 | the map holds for each key its last entry with a recognised mode |
| Consent.LastOfFiltered | crates/cockpitd/src/consent.rs:399-425 | only a key's own recognised entries count for it |
| Consent.DepthSpellings | crates/cockpitd/src/consent.rs:431-465 | the accepted spellings of the depth, exactly |
| Consent.CheckKey | crates/cockpitd/src/consent.rs:167-238 | depth, then chain, then mode: the verdict is `Check` |
| Consent.CheckForAgentType | crates/cockpitd/src/consent.rs:136-158 | unknown vendors are refused, the others checked under their key; the verdict is `CheckAgent`, which `VerdictExactly` describes |
| Consent.AllowedExactly | crates/cockpitd/src/consent.rs:136-238 | allowed if and only if the vendor is `claude` or `codex`, the depth within the cap, the stored chain holds, and the last recognised entry whose `key` is `rally-point:` and that vendor says `auto` |
| Consent.VerdictExactly | crates/cockpitd/src/consent.rs:136-238 | which of the seven verdicts a gate gives, each as an exact condition on vendor, depth, stored chain and the last entry about the vendor |
| Consent.OtherKeysDoNotMatter | crates/cockpitd/src/consent.rs:399-425 | verifying logs with the same recognised entries for a key give it the same verdict |
| Consent.AppendedEntryRules | crates/cockpitd/src/consent.rs:167-238 | a correctly linked recognised entry decides the verdict by its mode alone |
| EventStore.ReplayIsSuffix | crates/cockpitd/src/store.rs:188-200 | replay after n is exactly the stream from n on, below 2^63 |
| EventStore.ReplayAfterHugeNumber | crates/cockpitd/src/store.rs:196 | from 2^63 on the whole stream is replayed |
| EventStore.NextInStep | crates/cockpitd/src/store.rs:144-200 | an append to any session or a dropped reconnect keeps the reader on a prefix of its stream |
| EventStore.ReaderNeverDiverges | crates/cockpitd/src/store.rs:144-200 | over every interleaving of appends and reconnects the reader holds a gapless, duplicate-free prefix |
| EventStore.ReaderCatchesUp | crates/cockpitd/src/store.rs:188-200 | one undropped reconnect completes the stream |
| EventStore.CleanedIs | crates/cockpitd/src/store.rs:144-184 | storing an event drops the control characters below U+0020 but tab and line breaks from its content, and changes nothing else |
| Supervisor.Store.CreateSession | crates/cockpitd/src/store.rs:59-78 | adds a row unless the id is taken |
| Supervisor.Store.UpdateStatus | crates/cockpitd/src/store.rs:130-140 | changes one row's status, or nothing when the row is missing |
| Supervisor.Store.AppendEvent | crates/cockpitd/src/store.rs:144-184 | the next number, the cleaned event, the bumped row; streams stay numbered without gaps |
| Supervisor.AppendAllStream | crates/cockpitd/src/supervisor.rs:310-328 | appending a list extends the session's stream by the cleaned events, numbered on |
| Supervisor.AppendAllOthers | crates/cockpitd/src/store.rs:144-184 | other sessions' streams do not change |
| Supervisor.Supervisor.Transition | crates/cockpitd/src/supervisor.rs:354-360 | row and live entry get the status together |
| Supervisor.Supervisor.DrainLeading | crates/cockpitd/src/supervisor.rs:317-328 | the loop stores exactly the events before the first terminal item and notes requests for input |
| Supervisor.Supervisor.DrainEvents | crates/cockpitd/src/supervisor.rs:310-352 | the first item that is no event decides: completed when finished, failed when crashed; without one a closed channel disconnects, and an open one awaits input exactly when some event asked for it; events, last number and live map follow |
| Supervisor.Supervisor.Gate | crates/cockpitd/src/supervisor.rs:126-133 | the gate opens exactly for a permitted dispatch |
| Supervisor.Supervisor.LaunchSession | crates/cockpitd/src/supervisor.rs:114-171 | each refusal and its cause; a launch refused before the adapter changes nothing, a failed start leaves just the Active row; a launch leaves the status its first terminal item, closed channel or request for input calls for, and a stream of exactly the events before that item, cleaned and numbered from one; the adapter is reached only when permitted |
| Supervisor.LaunchRefusedExactly | crates/cockpitd/src/supervisor.rs:114-171 | a launch goes through if and only if it is permitted, its id is free and its adapter starts; otherwise the first of these that fails is reported |
| Supervisor.LiveAfterIs | crates/cockpitd/src/supervisor.rs:310-352 | a launched session stays live if and only if its open channel held events only |
| Supervisor.Supervisor.LaunchSessionAsync | crates/cockpitd/src/supervisor.rs:180-232 | the same for the deferred launch, which leaves the channel for the pump |
| Supervisor.Supervisor.AdapterSend | crates/cockpitd/src/supervisor.rs:262-277 | the gate is asked again with the stored vendor; a send happens exactly when permitted |
| Supervisor.Supervisor.KillSession | crates/cockpitd/src/supervisor.rs:280-289 | a live session ends killed and leaves the live map; every refusal changes nothing |
| Supervisor.Supervisor.TakePendingPump | crates/cockpitd/src/supervisor.rs:235-237 | the channel is handed out once |
| Supervisor.Supervisor.PumpStore | crates/cockpitd/src/transport/ws.rs:996-1006 | the pump's events go on the session's stream, whatever its status |
| Supervisor.Supervisor.PumpStatus | crates/cockpitd/src/transport/ws.rs:1187-1191 | only the live map is told; it stays in step with the rows exactly when the session is not live or its row says the same |
| Supervisor.Supervisor.PumpEnd | crates/cockpitd/src/transport/ws.rs:1197-1234 | row, live map and pump end together, as failed or completed; terminal statuses are kept exactly when the session was not killed before |
| Supervisor.Supervisor.PumpClosed | crates/cockpitd/src/transport/ws.rs:801-1240 | a channel that closes without a terminal item leaves the session as it is |
| Supervisor.LateEndOverwrites | crates/cockpitd/src/transport/ws.rs:1208-1212 | the run in which a killed session becomes completed or failed |
| Supervisor.PumpEnded | crates/cockpitd/src/transport/ws.rs:1208-1212 | that exact condition on the state alone |
| Supervisor.LiveStatusSet | crates/cockpitd/src/supervisor.rs:240-244 | setting the live status alone keeps the two in step exactly when the row already has it |
| Supervisor.Supervisor.Run | crates/cockpitd/src/supervisor.rs:114-360 | over every run of launches, sends, kills and pump steps: each live session has a non-terminal row, a non-terminal row is live if and only if its adapter was started, a row that is neither live nor pumped never changes, every adapter start and send was permitted at its own step; every terminal status is kept at every step if and only if no pump ends a killed session; live map and rows agree throughout if and only if they do at first and no pump notes a status the row does not have |
| Approvals.ApprovalManager.RegisterPending | crates/cockpitd/src/approval.rs:46-52 | the three refusals and the new row |
| Approvals.ApprovalManager.SettleOnce | crates/cockpitd/src/approval.rs:60-95 | a pending approval takes the decision, a resolved one keeps its own |
| Approvals.ApprovalManager.AbortApproval | crates/cockpitd/src/approval.rs:82-95 | a pending approval becomes aborted, a resolved one keeps its decision |
| Approvals.ApprovalManager.SweepNow | crates/cockpitd/src/approval.rs:99-112 | denies exactly the pending approvals at or past their deadline and returns their number; it completes if and only if no pending deadline overflows, and otherwise has swept only rows whose deadline it could compute |
| Approvals.DueExactly | crates/cockpitd/src/approval.rs:104-106 | a pending approval is due its seconds after it was made; from 2^63 seconds on the time counts as negative |
| Approvals.SweepSettles | crates/cockpitd/src/approval.rs:99-112 | after a sweep nothing is due, and sweeping again at that time or before changes nothing |
| Approvals.SweepsCompose | crates/cockpitd/src/approval.rs:99-112 | an earlier sweep never changes what a later one leaves |
| Approvals.FirstSettlerDecides | crates/cockpitd/src/approval.rs:54-112 | a pending approval ends with the decision of the first operation of the run that settles it |
| Approvals.ApprovalManager.Run | crates/cockpitd/src/approval.rs:46-112 | over every run a first resolution never changes, and without overflow each approval meets exactly its fate |
| Ledger.LatestPerKey | crates/rally-cli/src/backlog.rs:323-335 | the insert-or-replace loop finds the highest-numbered fact of each key |
| Ledger.LatestIgnoresOrder | crates/rally-cli/src/agent_state.rs:197-212 | with distinct numbers the latest fact does not depend on the order of the facts |
| Ledger.LatestOfFiltered | crates/rally-cli/src/backlog.rs:308-317 | facts without a key do not matter |
| BacklogCodec.DecodeBuild | crates/rally-cli/src/backlog.rs:98-199 | decoding a built fact returns the draft with trimmed id, sorted and deduplicated lists, trimmed expectation |
| BacklogCodec.BuiltFactIs | crates/rally-cli/src/backlog.rs:155-199 | the stored fact string by string: marks, paths, dependencies and expectation, each once and in order |
| BacklogCodec.DecodedFactIs | crates/rally-cli/src/backlog.rs:49-121 | what any fact reads as, whoever wrote it, and which facts read as nothing |
| BacklogCodec.ScopeDecodes | crates/rally-cli/src/backlog.rs:66-72 | the owned paths come back from the scope in canonical form |
| BacklogCodec.EvidenceDecodes | crates/rally-cli/src/backlog.rs:75-91 | dependencies and expectation come back from the evidence without mixing |
| BacklogCodec.CanonicalIs | crates/rally-cli/src/backlog.rs:165-176 | sort and dedup give the same strings, in order, once each |
| BacklogCodec.CanonicalTwice | crates/rally-cli/src/backlog.rs:165-176 | a second round of sort and dedup changes nothing |
| BacklogCodec.BlankIdIsLost | crates/rally-cli/src/backlog.rs:50-58 | a built fact can be read back exactly when the first line of its id is not blank |
| BacklogCodec.DecodedId | crates/rally-cli/src/backlog.rs:50-58 | every id read from any fact is one trimmed nonempty line |
| Backlog.ItemsFromFacts | crates/rally-cli/src/backlog.rs:318-340 | the latest item of every id, once each, by number and then by id |
| Backlog.OneProjection | crates/rally-cli/src/backlog.rs:318-340 | that description fits one list only |
| Backlog.ProjectionIsOrderedMap | crates/rally-cli/src/backlog.rs:318-340 | on a ledger the projection is the ordered map in which each write moves its id to the end |
| Backlog.ProjectionIgnoresOrder | crates/rally-cli/src/backlog.rs:318-340 | with distinct numbers the projection does not depend on fact order |
| Backlog.ProjectionOfFiltered | crates/rally-cli/src/backlog.rs:308-340 | reading backlog facts only, or any superset, gives the same projection |
| Backlog.Room.ListItems | crates/rally-cli/src/backlog.rs:308-313 | the kind-narrowed read returns the ordered map of the whole ledger |
| Backlog.Room.AddItem | crates/rally-cli/src/backlog.rs:204-231 | refusals, and otherwise the ordered map with the new item at the end |
| Backlog.Room.UpdateItem | crates/rally-cli/src/backlog.rs:237-277 | refusals, and otherwise the map with the merged item at the end |
| Backlog.Room.MarkDone | crates/rally-cli/src/backlog.rs:283-305 | refusals for missing and finished items, otherwise the item done at the end |
| Backlog.Room.Run | crates/rally-cli/src/backlog.rs:204-340 | any run of writes, with any other facts between them, is the same run on the ordered map |
| Backlog.FindPut | crates/rally-cli/src/backlog.rs:318-340 | a write sets its own id and leaves every other lookup alone |
| Backlog.UpdateMerges | crates/rally-cli/src/backlog.rs:237-277 | an update sets the given fields, keeps the omitted ones in canonical form and touches no other id, whoever wrote the item |
| Backlog.UpdateKeepsOmitted | crates/rally-cli/src/backlog.rs:237-277 | of an item in canonical form, an update keeps every omitted field as it is |
| Backlog.DoneOnlyFinishes | crates/rally-cli/src/backlog.rs:283-305 | finishing changes status and authorship alone, up to canonical form, and is refused the second time, whoever wrote the item |
| Backlog.AddedItemFound | crates/rally-cli/src/backlog.rs:204-255 | an added item can be looked up under the given id if and only if that id has no outer blanks |
| Backlog.AddedItemIs | crates/rally-cli/src/backlog.rs:204-231 | an added item reads back field by field under the trimmed id, open unless it says otherwise, and no other item changes |
| Backlog.RefusedExactly | crates/rally-cli/src/backlog.rs:125-305 | which writes are refused and why, in exact conditions on id, status and the items there are |
| Backlog.RunKeepsClean | crates/rally-cli/src/backlog.rs:155-199 | runs with any unrelated facts between the writes keep every item in canonical form |
| AgentStates.ProjectAgentStates | crates/rally-cli/src/agent_state.rs:197-237 | one entry per present tool, in tool order, from its latest presence, with its state and the staleness rule |
| AgentStates.ParseMarkers | crates/rally-cli/src/agent_state.rs:120-136 | each key has the value of its last nonblank segment |
| AgentStates.Markers | crates/rally-cli/src/agent_state.rs:145-151 | the subject's markers win, the summary fills gaps |
| AgentStates.ProjectPresence | crates/rally-cli/src/agent_state.rs:144-173 | the state a presence's markers name, idle without one |
| AgentStates.WrittenMarkerReads | crates/rally-cli/src/agent_state.rs:120-136 | a `key=value` marker anywhere in a bar-separated text is read back, unless a later segment has its key |
| AgentStates.WorkingReads | crates/rally-cli/src/agent_state.rs:144-160 | the text an agent writes when it starts on a file reads back as working on that file with that intent |
| AgentStates.DoneReads | crates/rally-cli/src/agent_state.rs:144-167 | the text it writes after a commit reads back as done with that commit and branch |
| AgentStates.BlockedReads | crates/rally-cli/src/agent_state.rs:144-163 | the text it writes when blocked reads back as blocked on that reference |
| AgentStates.IdleReads | crates/rally-cli/src/agent_state.rs:144-156 | the text it writes before a pause reads back as idle until that time |
| AgentStates.EntryIs | crates/rally-cli/src/agent_state.rs:214-234 | an entry is stale exactly when both times can be read and lie more than fifteen minutes apart |
| AgentStates.RosterIgnoresOrder | crates/rally-cli/src/agent_state.rs:197-237 | the roster does not depend on fact order |
| AgentStates.RosterOfFiltered | crates/rally-cli/src/agent_state.rs:197-212 | nor on anything but agents' presence facts |
| AgentStates.OneRoster | crates/rally-cli/src/agent_state.rs:214-237 | that description fits one list only |
| Lanes.ProjectLanes | crates/rally-cli/src/board.rs:42-131 | sets, index and loop compute the status read off the ledger for every claim, sorted by number |
| Lanes.ArtifactsPerClaim | crates/rally-cli/src/board.rs:66-75 | the index lists exactly the artifacts naming each event |
| Lanes.StatusGrows | crates/rally-cli/src/board.rs:78-115 | more facts, wherever inserted, never move a claim back |
| Lanes.StatusExactly | crates/rally-cli/src/board.rs:45-115 | when a claim is released, closed or in flight, in the kinds, references and scopes of the ledger |
| Lanes.LanesExactly | crates/rally-cli/src/board.rs:77-131 | the lanes are exactly those of the claims made inside the repository, and the active scopes those of the unreleased ones |
| Lanes.AppendMovesLanesForward | crates/rally-cli/src/board.rs:42-131 | appending keeps every lane in place, moves it forward or not at all, and adds lanes behind |
| Lanes.OneLanePerClaim | crates/rally-cli/src/board.rs:77-127 | every claim made inside the repository has exactly one lane |
| Lanes.ActiveScopesAre | crates/rally-cli/src/board.rs:238-256 | a scope is active exactly when some unreleased claim holds it |
| Lanes.OpenLaneScopesAreActive | crates/rally-cli/src/board.rs:238-256 | every scope of a lane that is not closed is active |
| Lanes.ClosedLaneStillClaims | crates/rally-cli/src/board.rs:96-109 | a lane closed by an accepted artifact alone still counts as claimed |
| Lanes.ReclaimedScopeIsClosed | crates/rally-cli/src/board.rs:52-57 | release by scope ignores order: a later claim of a released scope is closed at birth |
| BacklogView.ProjectBacklogView | crates/rally-cli/src/board.rs:142-180 | each item goes to one of three lists, in order |
| BacklogView.PlacesExactly | crates/rally-cli/src/board.rs:142-180 | which list holds an item, in terms of ids, statuses and claimed paths, and that it holds it as often as the backlog does |
| BacklogView.OpenIsReady | crates/rally-cli/src/board.rs:156-172 | an item is open exactly when its needs are finished and its paths unclaimed |
| BacklogView.DoneIsFinish | crates/rally-cli/src/backlog.rs:283-305 | marking an open item done succeeds and is one step of the dependency plan, for items of any origin with unique trimmed ids |
| BacklogView.RunCounts | crates/rally-cli/src/board.rs:142-180 | each step finishes one item and brings none back |
| BacklogView.NeverStuck | crates/rally-cli/src/board.rs:142-180 | with a rank, any choice of open items goes on until exactly all pending items are finished |
| BacklogView.BacklogCompletes | crates/rally-cli/src/board.rs:142-180 | the same on the actual items, marked by anyone in any order: the open list is empty exactly after as many steps as there were unfinished items, and then all is done |
| BacklogView.LedgerCompletes | crates/rally-cli/src/board.rs:142-180 | on any ledger everything can be finished if and only if no unfinished items wait on each other or on a claim |
| BacklogView.LedgerIsNamed | crates/rally-cli/src/backlog.rs:318-340 | every ledger's items have unique trimmed ids |
| BacklogView.TrapNeverOpens | crates/rally-cli/src/board.rs:156-166 | members of a dependency cycle, or of any set that waits on itself, never open |
| BacklogView.CycleIsTrap | crates/rally-cli/src/board.rs:158-162 | a cycle of unfinished dependencies is such a set |
| BacklogView.CompletableExactly | crates/rally-cli/src/board.rs:142-180 | the backlog can be finished if and only if it has a rank, and if and only if it holds no such set |
| StartMarker.SingleFlightExactly | crates/rally-cli/src/daemon_autostart.rs:51-74 | at most one caller wins in every interleaving if and only if at most one caller sees the first marker as stale |
| StartMarker.StaleCallersBothWin | crates/rally-cli/src/daemon_autostart.rs:51-74 | two callers that see it as stale have a run in which both win |
| StartMarker.RunKeepsInv | crates/rally-cli/src/daemon_autostart.rs:51-74 | with at most one caller that sees the first marker as stale, over every run the marker is untouched, vacant, or taken for good |
| StartMarker.FreshMarkerStays | crates/rally-cli/src/daemon_autostart.rs:60-67 | a marker fresh to all is never removed and nobody wins |
| StartMarker.WinnerExactly | crates/rally-cli/src/daemon_autostart.rs:51-74 | without errors a finished race has a winner exactly when the marker was absent or stale to someone, however many saw it so |
| StartMarker.MarkerFile.ClaimAttempt | crates/rally-cli/src/daemon_autostart.rs:51-74 | the two-try loop wins only over an absent or stale marker, and always then unless an operation fails |
| StartMarker.SoloRun | crates/rally-cli/src/daemon_autostart.rs:51-74 | in the interleaved model a caller alone wins exactly over an absent or stale marker and else leaves it as it was |
| StartMarker.StaleExactly | crates/rally-cli/src/daemon_autostart.rs:35 | a marker is stale from sixty seconds of age on |
| StartMarker.MarkerFile.RunCalls | crates/rally-cli/src/daemon_autostart.rs:51-74 | calls one at a time: wins are at least the interval apart, and error-free calls win exactly when they may |
| WriteCheck.PushFindings | crates/rally-cli/src/check.rs:306-554 | a loop appends the findings of its facts in order |
| WriteCheck.BuildCheck | crates/rally-cli/src/check.rs:79-138 | verdict, exit code and agent-visible part follow from the first stopping finding |
| WriteCheck.FirstStopIs | crates/rally-cli/src/check.rs:104-113 | the deciding finding is the first stopping claim's, or else the first stopping blocker's |
| WriteCheck.DeniedExactly | crates/rally-cli/src/check.rs:277-554 | denied if and only if another's claim covers the path and no idle squad owns it, a blocker covers the path, or the authorized freeze is an active unscoped blocker |
| WriteCheck.ReportedClaim | crates/rally-cli/src/check.rs:104-138 | the agent is shown the first denying claim: its owner, the path and how long the owner has been silent |
| WriteCheck.ReportedBlocker | crates/rally-cli/src/check.rs:104-138 | without such a claim it is shown the first denying blocker or freeze |
| WriteCheck.CodesExactly | crates/rally-cli/src/check.rs:277-554 | which finding each claim, decision and blocker gives rise to, and how grave it is |
| WriteCheck.HandoffExactly | crates/rally-cli/src/check.rs:187-262 | a handoff warns exactly when its base is behind and this tool has not claimed the path since |
| WriteCheck.OnlyBlockingFactsMatter | crates/rally-cli/src/check.rs:79-138 | rooms with the same blocking claims and blockers reach one verdict for one reason |
| WriteCheck.InsertedClaimIgnored | crates/rally-cli/src/check.rs:306-366 | own claims and idle owners' claims change nothing, wherever they stand |
| WriteCheck.InsertedBlockerIgnored | crates/rally-cli/src/check.rs:482-554 | nor do unscoped blockers that are not the authorized freeze |
| WriteCheck.DecisionsAndHandoffsIgnored | crates/rally-cli/src/check.rs:187-262 | nor do decisions and handoffs |

## Left out

- Archive.Volume.CompressQuarantine: has no branch for a call that fails with an I/O error (`EarlyEndSecure` and `DisturbedEarlyEnd` say what such an early end leaves), and `\d` accepts ASCII digits only.
- Restore.RestoreArchive: restores into the archive's own directory only.
- Archive.CrashSafety: covers undisturbed runs; `CompressSafely` covers the others.
- CompactRoom.Compose: models sizes instead of JSON text; the breakdown is any nonempty text, and path matching is a parameter.
- CompactRoom.Body.Settle: with a budget whose triple wraps and peers dropped on the way, severe is only shown to follow from the wrapped comparison.
- EventStore.ReaderNeverDiverges: streams shorter than 2^63.
- Framing.WakeSplits: lone surrogates, which Python strings may hold and UTF-8 cannot encode, are not texts of the model.
- Supervisor.Supervisor.Run: a pump step is one stretch under the supervisor's lock, with any content; the order in which one pump makes its steps, its approvals and its broadcasts are not modelled.
- Approvals.ApprovalManager.SweepNow: after an overflow the state is only known to be partly swept, since the table yields rows in no fixed order.
- AgentStates.ProjectAgentStates: how a timestamp parses is a parameter.
- WriteCheck.BuildCheck: the before-write phase only; message wording, path comparison and the handoff base comparison are parameters.
- Storage inventory, hook-event reclamation and marker expiry in `scripts/rally_storage.py`: directory scans whose cases are settled by reading them.
- The delta list, agent staleness on lanes and JSON output of the board: easy projections.
- The network transport, process spawning, tmux and cmux calls, orphan detection, cryptographic wrappers, policy and audit modules of `cockpitd`.
