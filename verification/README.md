# ENIL engine model

A Dafny 4.11 model of the C engine in `source/shared`, with proofs of what its
protocols and codecs promise. `dafny verify dfyconfig.toml` checks all of it.

| part | modules |
|---|---|
| Compact Thrift codec (Apache Thrift Compact Protocol: integer, struct, list, set and map encoding) | `Text`, `Ieee`, `Json`, `ThriftSchema`, `ThriftEncoding` (writer specification), `ThriftParsing` (reader specification), `ThriftBuffer` and `ThriftReader` (the mutable writer and reader), `ThriftRoundTrip`, `ThriftCanonical`, `ThriftNesting`, `ThriftForward`, `ThriftErasure`, `ThriftMessage` |
| Session file, merge, login fence, partial syncs, refresh journal | `SessionFile` (document, record and the locked operations), `SessionRecord`, `SessionMerge`, `SessionFence`, `PartialSyncs`, `TokenRefresh` (step machine), `RefreshSafety`, `RefreshActivation` (which activations are harmless), `RefreshFailures` (runs in which others fail), `TokenRefresher` (the procedure) |
| Event stream and native polling | `Delivery` (callback and cursor), `EventStream` (parser and line grammar), `EventClient` (the mutable client, parser and loop), `NativePoll` |
| Resumable native login and the pending-login store | `NativeLogin` (steps), `NativeLoginSafety`, `NativeLoginRunner` (the procedure), `LoginStore` (records and steps), `LoginStoreOperations` (the procedures), `LoginStoreSafety` |
| Message text | `Escaping`, `Utf8`, `MessageSpans`, `SticonMarkers` |
| History paging and image completeness | `Paging`, `Png`, `Jpeg` |

`Optional` holds the one option type.

How to read it. Each imperative routine of the engine is a method, usually of a
class with the engine's fields, proved to compute a specification function; what
the engine promises is proved about those functions, as lemmas over all inputs or
all runs. Crashes, failed writes and other threads are steps of a machine or
parameters: a file replacement can end in not being made, in being visible
although failure was reported, or in success, and a process may die between any
two durable actions.

Findings, where the code does less, or other, than one might expect:

* A bool field is charged a nesting level by the Thrift reader and not by the
  writer, so a message the writer accepts can be refused. `ThriftCanonical.RoundTrip`
  states the round trip with its exact condition, and `ThriftNesting.WrittenButRefused`
  gives such a message.
* Installing a login again can lose its pending reply or apply an old one twice.
  The refresh guarantees (`RefreshSafety`) hold over every run whose activations
  are harmless: every reply of the installed login that is still to be applied is
  the one the journal keeps and the document's refresh token asks for, the journal
  does not offer the document a reply that was applied before, and a refresh in
  progress does not come in between. `RefreshActivation.QuietIffHarmless` proves
  that nothing less will do; `RefreshFailures.PendingReplyForgotten` and
  `RefreshFailures.ReplyAppliedTwice` are runs in which it goes wrong. Retrying an
  activation that wrote nothing is as harmless as the first attempt was.
* A refresh whose login is replaced, and its journal retired, between loading the
  session and looking at the journal sends a request over its own pending reply;
  with the journal left in place it replays it (`RefreshFailures.SupersededRefresh`).
  `RefreshActivation.AsksOverItsReplyIff` says exactly when. For the current login
  no request is sent over a pending reply.
* Recovery of a native login does not look at the HTTP status or at the error
  member of the kept reply, which the first run does; for all other replies the
  two agree (`NativeLoginSafety.RunsAgreeIff`, `NativeLoginSafety.RefusedAndInstalled`).
* An attempt that already names an installed but not yet retired login gets its
  directory back (`LoginStoreSafety.NamedLoginIsReturned`); only the scan skips it.
* Native event polling and paging rely on what their callers provide: a server
  that sends everything above the cursor, and messages with positive, distinct times.

## Model

| member | source | states |
|---|---|---|
| ThriftBuffer.Buffer.AppendBytes | source/shared/enil_thrift.c:61-75 | appends the block, or refuses and leaves the buffer as it was, exactly at the 8 MiB cap |
| ThriftBuffer.Buffer.WriteVarint | source/shared/enil_thrift.c:80-89 | appends the varint of a 64-bit number, low groups first, or fails at the cap |
| ThriftBuffer.Buffer.WriteScalar | source/shared/enil_thrift.c:138-179 | appends the scalar encoding, or fails exactly when the value does not fit its type or the cap |
| ThriftBuffer.Buffer.WriteList | source/shared/enil_thrift.c:180-190 | the list and set loop appends the specified encoding or fails |
| ThriftBuffer.Buffer.WriteMap | source/shared/enil_thrift.c:191-206 | the map loop appends the specified encoding or fails |
| ThriftBuffer.Buffer.WriteValue | source/shared/enil_thrift.c:138-208 | the recursive writer appends the specified encoding of any typed value or fails |
| ThriftBuffer.Buffer.WriteStruct | source/shared/enil_thrift.c:110-137 | delta-coded field headers, bools in headers, stop byte: the whole struct encoding or failure |
| ThriftReader.Reader.ReadVarint | source/shared/enil_thrift.c:224-237 | reads the varint the specification parses and advances past it, or sets the bad flag; never indexes past the end |
| ThriftReader.Reader.ReadDouble | source/shared/enil_thrift.c:314-322 | eight bytes, least significant first, or the bad flag |
| ThriftReader.Reader.ReadBlob | source/shared/enil_thrift.c:323-348 | a length-prefixed block kept as text or base64, with the strict-string rule, or the bad flag |
| ThriftReader.Reader.ReadValue | source/shared/enil_thrift.c:288-403 | the recursive reader agrees with the parsing specification on value, position and refusal |
| ThriftReader.Reader.ReadStruct | source/shared/enil_thrift.c:244-286 | the field loop agrees with the specification: deltas, long ids, duplicate keys, stop byte, depth cap |
| ThriftErasure.VarintAccepted | source/shared/enil_thrift.c:224-237 | a varint is accepted exactly when it has at most ten bytes and its exact value is below 2^64 |
| ThriftErasure.AcceptedIsVarint | source/shared/enil_thrift.c:224-237 | whatever is accepted begins with a varint, and the rest is what follows it |
| ThriftRoundTrip.VarintRoundTrip | source/shared/enil_thrift.c:80-89 | reading back a written varint gives the number and consumes its bytes only |
| ThriftRoundTrip.IntegerRoundTrip | source/shared/enil_thrift.c:90-93 | zigzag and varint together are undone by the reader for every 64-bit integer |
| ThriftRoundTrip.ValueRoundTrip | source/shared/enil_thrift.c:288-403 | for every schema pair that agrees on types, every value and suffix: reading the written bytes gives the recovered value and stops right after it, or refuses exactly when recovery does |
| ThriftRoundTrip.StructRoundTrip | source/shared/enil_thrift.c:244-286 | the same for structs, with a reader that may know fewer fields |
| ThriftRoundTrip.MapRoundTrip | source/shared/enil_thrift.c:351-400 | the same for maps, whose keys become text |
| ThriftCanonical.RecoveredIffFits | source/shared/enil_thrift.c:288-403 | the reader takes back what was written if and only if it stays within the count cap and the nesting cap as the reader counts it |
| ThriftCanonical.StructIffFits | source/shared/enil_thrift.c:244-286 | the same for structs; a bool field costs the reader a level the writer does not charge |
| ThriftCanonical.CanonicalValue | source/shared/enil_thrift.c:138-208 | a canonical value is written exactly when it nests within 40 levels, and recovery can only return it unchanged |
| ThriftCanonical.RoundTrip | source/shared/enil_thrift.c:110-286 | for every schema with ascending ids and distinct names and every canonical value: the reader returns it and consumes exactly its bytes when it fits, and refuses otherwise |
| ThriftForward.ForwardCompatible | source/shared/enil_thrift.c:244-286 | bytes written under one schema table and read under one with fewer structs and fields, at any depth: the reader takes them exactly when the value fits its limits, stops right after them, and keeps each known field as it is and each other one untyped under its number |
| ThriftForward.RecoveredIsKept | source/shared/enil_thrift.c:288-403 | the same for every canonical value, through lists, sets, maps and nested structs: an untyped value loses nothing but that binary text is cut at its first NUL |
| ThriftForward.KeptBySelf | source/shared/enil_thrift.c:288-403 | a reader with the writer's own table keeps everything unchanged |
| ThriftNesting.WrittenButRefused | source/shared/enil_thrift.c:110-137 | the condition of the round trip is needed: twenty nested structs around one with a bool are written, and their bytes are refused |
| ThriftNesting.NestedFits | source/shared/enil_thrift.c:244-286 | n such structs are written at every depth up to the cap, and fit the reader if and only if one more level is free |
| ThriftErasure.ErasedValue | source/shared/enil_thrift.c:288-403 | if a typed read succeeds, the untyped read of the same bytes succeeds at the same position with the same value stripped of the schema: same nesting and lengths, fields under their numbers, binary text as bytes, all else equal |
| ThriftErasure.ErasedStruct | source/shared/enil_thrift.c:244-286 | the same for structs, whose keys stay distinct even ignoring case, as names and as numbers |
| ThriftErasure.ValueNodes | source/shared/enil_thrift.c:288-403 | a decoded tree has at most as many nodes as bytes consumed |
| ThriftErasure.StructNodes | source/shared/enil_thrift.c:244-286 | the same for structs |
| ThriftMessage.EncodeCall | source/shared/enil_thrift.c:405-420 | a call is the envelope and the argument struct, or nothing |
| ThriftMessage.DecodeReply | source/shared/enil_thrift.c:422-459 | the message decoder agrees with its specification on every byte string |
| ThriftMessage.ReplyRoundTrip | source/shared/enil_thrift.c:422-459 | a reply carrying a canonical struct decodes to it with at most the one redundant stop byte after it, and with anything else after it is refused |
| SessionFile.SessionStore.Write | source/shared/enil_session.c:372-408 | one replacement with three endings: not written, visible but reported failed, written |
| SessionFile.SessionStore.SaveSession | source/shared/enil_session.c:828-878 | the merge under the lock stores the three-way merge of current, baseline and next, or leaves the file alone; success exactly when it was accepted and written |
| SessionFile.SessionStore.AcceptNextAccess | source/shared/enil_session.c:910-929 | replaces the token only for the bound login and only if it still is the one the request used; success exactly when the file holds a token for that login and any replacement was written |
| SessionFile.SessionStore.BoundAccessToken | source/shared/enil_session.c:896-909 | a token is handed out exactly when the binding still matches the file and the token is not empty |
| SessionFile.SessionStore.UpdatePartialSyncs | source/shared/enil_session.c:684-713 | raises exactly the wanted categories; -1, 0 or 1 exactly when refused, nothing newer, something newer |
| SessionFile.SessionStore.CompletePartialSyncs | source/shared/enil_session.c:714-749 | acknowledges exactly what the snapshot had queued, or refuses a changed login |
| SessionFile.SessionStore.EnsureLoginId | source/shared/enil_session.c:64-94 | an id is returned exactly when the file has a usable one or a new one could be written, and it is the one in the file afterwards |
| SessionFile.MergeDocuments | source/shared/enil_session.c:860-869 | the two in-place loops compute the pointwise three-way merge |
| SessionFile.RaiseWanted | source/shared/enil_session.c:695-706 | the loop over targets computes the raised map and both flags |
| SessionFile.Acknowledge | source/shared/enil_session.c:734-743 | the loop over requests computes both maps |
| SessionRecord.RecordRoundTrip | source/shared/enil_session.c:523-642 | writing a loaded record and loading it again changes no field |
| SessionMerge.MergeIsDelta | source/shared/enil_session.c:860-869 | a merge is the current document with exactly the keys on which next differs from its baseline |
| SessionMerge.DeltaIsTheEdits | source/shared/enil_session.c:523-642 | a loaded and edited record differs from its baseline exactly where its rendering changed; normalising a field is no change |
| SessionMerge.UnmodifiedSave | source/shared/enil_session.c:828-878 | saving a record as loaded leaves any current file of that login unchanged |
| SessionMerge.SaveAppliesDelta | source/shared/enil_session.c:828-878 | an accepted save is the writer's delta on top of the current document |
| SessionMerge.CommitIsDelta | source/shared/enil_session.c:844-871 | a writer of the file's login is never refused, and the login id stays |
| SessionMerge.RunIsItsCommits | source/shared/enil_session.c:828-878 | over any interleaving of loads, edits and saves of one login, the file is the initial document with every commit's delta in commit order |
| SessionMerge.LastWriterWins | source/shared/enil_session.c:860-869 | over a list of deltas each key has the value of the last one that mentions it |
| SessionMerge.OrderIsIrrelevant | source/shared/enil_session.c:860-869 | with pairwise disjoint deltas every commit order gives the same document |
| SessionMerge.NoUpdateIsLost | source/shared/enil_session.c:828-878 | a committed key keeps its value until a later commit changes that key |
| SessionFence.StepIsFenced | source/shared/enil_session.c:192-204 | no account operation changes the login id, and one owned by another login changes nothing |
| SessionFence.SupersededLoginsNeverWrite | source/shared/enil_session.c:848-859 | over any interleaving with activations, deleting all operations of superseded logins gives the same file, and its login is the last one activated |
| SessionFence.RotationsFormAChain | source/shared/enil_session.c:910-929 | the rotations that took effect form a chain, each replacing the token its request used, and nothing but the token changes |
| PartialSyncs.TimeRoundTrip | source/shared/enil_session.c:663-676 | a time written as text reads back as the same 64-bit time |
| PartialSyncs.RequestTimes | source/shared/enil_session.c:684-713 | after an accepted request its time is acknowledged or queued, and nothing is acknowledged by it |
| PartialSyncs.FinishTimes | source/shared/enil_session.c:714-749 | acknowledged times only rise, only to what the snapshot had queued, and what leaves the queue is acknowledged |
| PartialSyncs.AcceptedIsNeverLost | source/shared/enil_session.c:684-749 | over any run within a login an accepted request stays queued or has been acknowledged at least as late |
| PartialSyncs.AcknowledgedFromASnapshot | source/shared/enil_session.c:714-749 | over any run acknowledged times never decrease, and a raised one equals what some finished sync's snapshot had queued |
| PartialSyncs.AcknowledgedWasQueued | source/shared/enil_session.c:714-749 | if finished syncs report snapshots they read from the file, a time that was acknowledged was queued in the file at an earlier point of the run |
| PartialSyncs.AcknowledgedWasAsked | source/shared/enil_session.c:684-749 | and so was asked for by a request of the run, unless it was queued before it |
| TokenRefresher.Refresher.RetireJournal | source/shared/enil_session.c:96-111 | the journal is gone unless the rename failed; success needs the flush too |
| TokenRefresher.Refresher.Activate | source/shared/enil_session.c:418-433 | activation is the login step of the machine: install, then retire the journal only if the install was flushed |
| TokenRefresher.Refresher.RecoverRefresh | source/shared/enil_line.c:145-193 | the verdict and the journal left behind are those of the specification, branch by branch |
| TokenRefresher.Refresher.Persist | source/shared/enil_line.c:256-288 | journaling, applying and unlinking a reply is three steps of the machine; a token is returned exactly when the reply was journaled and readable and its save accepted and written |
| TokenRefresher.Refresher.Refresh | source/shared/enil_line.c:195-301 | an uninterrupted call is a run of the machine; a token is returned exactly when the run committed a reply or found it committed, and it is the one in the file |
| RefreshSafety.StartableIff | source/shared/enil_line.c:210-224 | exactly which session files a refresh can start from |
| RefreshSafety.DecideFits | source/shared/enil_line.c:145-193 | a reply is replayed exactly when it is live: same login, same refresh token, id not yet applied |
| RefreshSafety.CommitCredentials | source/shared/enil_session.c:848-859 | the commit of a refresh is refused for a superseded login and otherwise leaves the refresh id in the session |
| RefreshSafety.CommitInstalls | source/shared/enil_line.c:108-126 | a commit leaves the reply's access token, its refresh token if it has one, and the id; all other keys but the token's own stay |
| RefreshSafety.CommitInstallsTimes | source/shared/enil_line.c:115-116 | the stored duration and issue time read back as the reply's |
| RefreshSafety.CommitInstallsPolicy | source/shared/enil_line.c:117-125 | the stored retry policy is the reply's, or none |
| RefreshSafety.StepKeeps | source/shared/enil_line.c:195-301 | every step, crash, concurrent operation and harmless activation keeps the invariant |
| RefreshSafety.NoRequestOverAPendingReply | source/shared/enil_line.c:229-255 | over every run whose activations are harmless: when a request is about to be sent for the current login every reply journaled for it has been applied |
| RefreshSafety.JournaledReplySurvives | source/shared/enil_line.c:145-193 | over every such run a journaled reply of the current login that was not applied is on disk, ready to be replayed |
| RefreshSafety.AppliedAtMostOnce | source/shared/enil_line.c:160-165 | over every such run no refresh id is applied to the session twice |
| RefreshActivation.QuietIffHarmless | source/shared/enil_session.c:418-433 | after any such run: installing a document leaves every continuation free of requests over pending replies and of replies applied twice if and only if it is harmless at that moment |
| RefreshActivation.HarmlessWithoutReplies | source/shared/enil_session.c:418-433 | a login no reply was ever journaled for can be installed again at any time it is not being refreshed |
| RefreshActivation.NewLoginIsHarmless | source/shared/enil_session.c:418-433 | a login never seen before can be installed at any time |
| RefreshActivation.UnwrittenChangesNothing | source/shared/enil_session.c:418-433 | an activation that wrote nothing is harmless, and its retry is as harmless as the attempt was |
| RefreshActivation.PendingReplyIsKeptIff | source/shared/enil_session.c:418-433 | with a reply of the current login pending, installing the login again is harmless exactly when the journal stays, the document has the refresh token on file and is not marked with that reply |
| RefreshActivation.AppliedReplyIsLeftIff | source/shared/enil_session.c:418-433 | with the last applied reply still in the journal, exactly when the journal goes, or the document has another refresh token or is marked with that reply |
| RefreshActivation.AsksOverItsReplyIff | source/shared/enil_line.c:145-193 | after any such run, a refresh whose own login has a reply pending asks over it exactly when the journal is gone, or must be replaced and was retired durably |
| RefreshFailures.PendingReplyForgotten | source/shared/enil_session.c:418-433 | a run with an activation that is not harmless: a reply is journaled, the same login installed again, and the next refresh asks over it |
| RefreshFailures.ReplyAppliedTwice | source/shared/enil_session.c:418-433 | another one: a reply is applied, the same login installed again with its journal left behind, and the reply applied again |
| RefreshFailures.SupersededRefresh | source/shared/enil_line.c:229-255 | a safe run in which the login is replaced in mid-refresh: the superseded refresh asks over its pending reply if the journal was retired with the login, and replays it if not |
| TokenRefresher.ReplayCompletes | source/shared/enil_line.c:166-172 | an undisturbed call over a live journal sends nothing and installs exactly the journaled reply |
| TokenRefresher.CommittedIsNotAskedAgain | source/shared/enil_line.c:160-165 | a journal whose id the session already carries is dropped without a request |
| EventStream.ChunksDoNotMatter | source/shared/enil_sse.c:190-219 | every split of a stream into chunks gives the same parser state, events and stopping point |
| EventStream.LinesCutTheStream | source/shared/enil_sse.c:203-210 | lines and tail are the stream cut at its LFs |
| EventStream.StreamMatchesGrammar | source/shared/enil_sse.c:158-188 | the byte-fed parser offers exactly the events of the line grammar, up to the first that stops it or the first oversized line or event |
| EventStream.StillReadingIff | source/shared/enil_sse.c:190-219 | the parser is still reading if and only if nothing was too large and the account took every event of the complete lines |
| EventStream.OnlyWholeEvents | source/shared/enil_sse.c:55-84 | only whole events are offered, in order; an oversized line or event fails delivery |
| EventStream.StreamCovers | source/shared/enil_sse.c:121-156 | over one connection to a faithful server the cursor passes only handled events and never goes back |
| EventClient.EventReceiver.SaveLocalRev | source/shared/enil_sse.c:107-119 | the database and the memory cursor move together or not at all, and only forward |
| EventClient.EventReceiver.Dispatch | source/shared/enil_sse.c:121-156 | callback, cursor and flags change as specified |
| EventClient.StreamParser.Append | source/shared/enil_sse.c:55-84 | text is appended whole or delivery fails |
| EventClient.StreamParser.DispatchEvent | source/shared/enil_sse.c:121-156 | an event is offered and the buffers cleared only if it was accepted |
| EventClient.StreamParser.TakeLine | source/shared/enil_sse.c:158-188 | one line takes the parser where the specification says |
| EventClient.StreamParser.Write | source/shared/enil_sse.c:190-219 | the write callback is the byte-wise parser over the chunk; 0 exactly when the transfer is to be aborted |
| EventClient.RunStream | source/shared/enil_sse.c:276-409 | the reconnect loop is the specified run of connections |
| EventClient.ConnectionsCover | source/shared/enil_sse.c:276-409 | through failures, aborts and reconnections every event up to the stored cursor was handled and the cursor never decreased |
| Delivery.DeliverCovers | source/shared/enil_sse.c:107-156 | a batch moves the cursor only past handled events |
| Delivery.NoEventIsPassed | source/shared/enil_sse.c:107-156 | over any life of connections, polls and restarts every revision up to the stored cursor was handled |
| Delivery.FullSyncKeepsCursor | source/shared/enil_sse.c:138-145 | a full sync moves no cursor and nothing after it is offered |
| NativePoll.NativeDispatch | source/shared/enil_native_poll.c:15-36 | one operation: callback, then cursor; success exactly when nothing failed |
| NativePoll.Turn | source/shared/enil_native_poll.c:39-154 | one turn of the polling loop changes cursor, streak, delay and end as specified |
| NativePoll.RunPolls | source/shared/enil_native_poll.c:37-158 | the whole loop is the specified run |
| NativePoll.PollsCover | source/shared/enil_native_poll.c:101-133 | across failed batches and retries the cursor passes only handled operations |
| NativePoll.FailedOperationIsAskedAgain | source/shared/enil_native_poll.c:112-139 | an ascending batch of any form that fails at some event, by refusal or by its cursor, ends there with the cursor below that event and counts as a failure |
| NativePoll.FailedOperationIsSentAgain | source/shared/enil_native_poll.c:112-139 | every later answer from that cursor which gets as far contains the event's revision again |
| NativePoll.ResyncKeepsCursor | source/shared/enil_native_poll.c:106-111 | a full sync ends polling with the cursor where it was |
| NativePoll.FifthFailureEnds | source/shared/enil_native_poll.c:134-154 | failures in a row are counted and the fifth ends the loop, no earlier one |
| NativeLoginRunner.Login.Save | source/shared/enil_native_login.c:63-67 | the document is flushed, or the run stops |
| NativeLoginRunner.Login.CallServer | source/shared/enil_native_login.c:141-241 | the raw reply is on disk before it is decoded; result, error code and retry as specified |
| NativeLoginRunner.Login.Poll | source/shared/enil_native_login.c:243-263 | polling goes on over timeouts only |
| NativeLoginRunner.Login.SaveResult | source/shared/enil_native_login.c:271-291 | the copied fields are those of the specification, then flushed |
| NativeLoginRunner.Login.RequestToken | source/shared/enil_native_login.c:503-540 | mark, request, store, unwrap: as specified |
| NativeLoginRunner.Login.RecoverReply | source/shared/enil_native_login.c:295-318 | a kept reply is completed without a call |
| NativeLoginRunner.Login.Run | source/shared/enil_native_login.c:320-540 | a run of the procedure is the specified sequence of steps |
| NativeLoginSafety.TokenRequestedAtMostOnce | source/shared/enil_native_login.c:366-513 | over any number of runs, crashes and failed saves the token-issuing request is sent at most once, and the file says so if it was |
| NativeLoginSafety.MarkedRunSendsNothing | source/shared/enil_native_login.c:366-379 | once the mark is on disk a run sends nothing |
| NativeLoginSafety.TokenOnlyAfterConfirmation | source/shared/enil_native_login.c:468-513 | the token is requested only after scan and PIN were confirmed, and the file says so |
| NativeLoginSafety.NextRunTakesOver | source/shared/enil_native_login.c:295-318 | a run cut short anywhere after the raw reply reached the disk is completed by the next one: no request, same credential fields |
| NativeLoginSafety.NextRunInstallsIff | source/shared/enil_native_login.c:295-318 | a run over a kept reply installs its token if and only if the reply is not empty, decodes without an exception and has the token; otherwise it changes nothing |
| NativeLoginSafety.FirstRunAcceptsIff | source/shared/enil_native_login.c:206-230 | the run that asked accepts the reply if and only if, besides, its status was 200 and it has no error member |
| NativeLoginSafety.RunsAgreeIff | source/shared/enil_native_login.c:295-318 | run after run: the first accepts exactly what the next one installs if the status was 200 and there is no error member |
| NativeLoginSafety.RefusedAndInstalled | source/shared/enil_native_login.c:295-318 | a token under status 500, and a token beside an error member: each refused by the first run and installed by the next |
| NativeLoginSafety.ResultIsStored | source/shared/enil_native_login.c:271-286 | every credential field takes its own source, one the reply lacks keeps its value, nothing else changes |
| LoginStoreOperations.Store.SelectLogin | source/shared/enil_login_store.c:179-236 | the directory returned and the records written are those of the specification |
| LoginStoreOperations.Store.StageLogin | source/shared/enil_login_store.c:238-253 | a login is staged exactly when it has or gets an id, is complete and unretired, and the record is written |
| LoginStoreOperations.Store.RestartLogin | source/shared/enil_login_store.c:262-292 | a restart succeeds exactly when the named directory was retired and the new attempt, and then its login id, were written |
| LoginStoreOperations.Store.ActivateLogin | source/shared/enil_login_store.c:296-323 | the account gets the staged session, then the directory is retired |
| LoginStoreSafety.RetiredIsNeverUsed | source/shared/enil_login_store.c:179-253 | over all sequences of operations a retired pending login is never selected or staged again |
| LoginStoreSafety.ActivationInstalls | source/shared/enil_login_store.c:296-323 | after staging and activation the account holds the pending login, however the retirement ends |
| LoginStoreSafety.ScanSkipsInstalled | source/shared/enil_login_store.c:129-177 | a login its account still holds is not picked by the scan |
| LoginStoreSafety.InstalledIsNeverScanned | source/shared/enil_login_store.c:129-236 | over any run that leaves its account alone an installed login is selected only by an attempt that already names its directory |
| LoginStoreSafety.NamedLoginIsReturned | source/shared/enil_login_store.c:187-194 | that exception is real: an attempt naming an installed, unretired login gets it back |
| LoginStoreSafety.InterruptedLoginIsFound | source/shared/enil_login_store.c:195-211 | an interrupted login of the same client is found by the scan |
| Utf8.DecodeIsSound | source/shared/enil_message_format.c:80-94 | what one step reads is a scalar value in its one UTF-8 encoding |
| Utf8.DecodeIsComplete | source/shared/enil_message_format.c:80-94 | every encoding is read back |
| Utf8.Utf16Boundary | source/shared/enil_message_format.c:75-100 | the loop computes the boundary function |
| Utf8.BoundaryIff | source/shared/enil_message_format.c:75-100 | on every text: the offset found is the one prefix that is well-formed and has that many UTF-16 units, and none is found if there is none |
| MessageSpans.MarkerSpan | source/shared/enil_message_format.c:104-113 | the loop decides exactly whether the span is a marker |
| MessageSpans.ResourceSpan | source/shared/enil_message_format.c:115-131 | UTF-16 offsets first, byte offsets as the fallback, as specified |
| MessageSpans.SpanOnBoundaries | source/shared/enil_message_format.c:115-131 | on valid UTF-8 every accepted span, by either reading, starts and ends on a code-point boundary |
| MessageSpans.FormatTextHtml | source/shared/enil_message_format.c:144-181 | the two passes over the buffer produce the specified pieces, rendered |
| MessageSpans.CheckSpans | source/shared/enil_message_format.c:155-168 | the first pass finds exactly whether all spans are good, and whether the message is only images |
| MessageSpans.TextIsPreserved | source/shared/enil_message_format.c:169-181 | replacing each image by its alternative text gives the escaped original, and reading that back gives the original |
| MessageSpans.AnyBadSpanMeansLiteral | source/shared/enil_message_format.c:155-165 | one invalid or overlapping range leaves the whole message literal |
| SticonMarkers.BuildSticonResources | source/shared/enil_line.c:1651-1713 | the scan fills the array with the greedy spans |
| SticonMarkers.GreedyIsComplete | source/shared/enil_line.c:1676-1710 | all markers are placed if and only if some ordered disjoint placement exists; otherwise some span ends past the text |
| SticonMarkers.DraftAcceptedIff | source/shared/enil_message_format.c:155-165 | a draft's spans are all accepted exactly when the markers can be placed and every name is free of parentheses and line ends |
| SticonMarkers.PreviewShowsImagesIff | source/shared/enil_message_format.c:203-237 | in that case the preview shows all pictures that have a path, in order, each in place of its marker; otherwise the draft as it is |
| SticonMarkers.PicturedIff | source/shared/enil_message_format.c:203-237 | so an image is shown if and only if, besides, some picture has a path |
| Paging.GetPage | source/shared/enil_db.c:2247-2296 | one extra row fetched and dropped, the rest reversed in place: the page and has_more of the specification |
| Paging.ReverseInPlace | source/shared/enil_db.c:2286-2291 | the swapping loop reverses |
| Paging.PageIsExact | source/shared/enil_db.c:2161-2171 | a page is the newest rows asked for, ascending, and has_more holds if and only if a row is left |
| Paging.WalkShowsEachMessageOnce | source/shared/enil_account.c:413-433 | following the oldest-time cursor from the newest page ends, and shows every message exactly once in ascending order |
| Png.PngInfo | source/shared/enil_png.c:13-60 | the block-wise loop accepts exactly what the specification accepts and returns the header's size |
| Png.CheckData | source/shared/enil_png.c:31-48 | the CRC over blocks is the CRC over the whole chunk |
| Png.AcceptedIffConforms | source/shared/enil_png.c:23-56 | a file is accepted if and only if it is the signature and a well-formed chunk list with matching CRCs, and nothing else |
| Png.TruncationIsDetected | source/shared/enil_png.c:23-56 | no proper prefix of an accepted file is accepted |
| Jpeg.JpegComplete | source/shared/enil_jpeg.c:4-38 | the byte-wise loop accepts exactly the complete files |
| Jpeg.CompleteIffConforms | source/shared/enil_jpeg.c:9-34 | a file is complete exactly when it starts with the start of image and well-formed units up to an end of image after a scan |
| Jpeg.TruncationIsDetected | source/shared/enil_jpeg.c:29-31 | every prefix that ends before the accepted end of image is refused, and what follows it does not matter |
| Escaping.StrBuf.Grow | source/shared/enil_strbuf.c:20-32 | capacity grows, contents stay |
| Escaping.StrBuf.Append | source/shared/enil_strbuf.c:34-39 | the block is appended, with room and a terminator |
| Escaping.StrBuf.AppendHtml | source/shared/enil_strbuf.c:54-78 | flushing runs appends the byte-wise HTML map |
| Escaping.StrBuf.AppendJs | source/shared/enil_strbuf.c:97-113 | flushing runs appends the byte-wise script map |
| Escaping.StrBuf.AppendUrl | source/shared/enil_strbuf.c:124-139 | the loop appends the byte-wise percent map |
| Escaping.HtmlRoundTrip | source/shared/enil_strbuf.c:54-78 | escaped HTML text reads back as the original |
| Escaping.HtmlIsMarkupFree | source/shared/enil_strbuf.c:54-78 | escaped text opens no markup but the line break |
| Escaping.JsRoundTrip | source/shared/enil_strbuf.c:97-113 | an escaped script string reads back as the original |
| Escaping.JsIsScriptSafe | source/shared/enil_strbuf.c:97-113 | it holds no unescaped quote and no line end |
| Escaping.UrlRoundTrip | source/shared/enil_strbuf.c:124-139 | a percent-encoded string reads back as the original |
| Escaping.UrlIsShaped | source/shared/enil_strbuf.c:115-139 | it holds only unreserved bytes, percent triples and, where kept, slashes |

## Left out

- User interface, Objective-C headers, page JavaScript, logging, progress posting and localisation: rendering detail.
- libcurl, the gateway, media transfer and Worker calls: a request is its reply or its failure.
- OpenSSL and zlib: base64 is a pair of functions, and the CRC a left fold over its register.
- printf("%.0f") of doubles that are not whole numbers of at most 53 bits: a function of the environment in the Thrift model.
- SQLite: a chat is a set of rows, a query yields the rows its ORDER BY and LIMIT name, and a failed cursor update changes nothing.
- cJSON: JSON is a value; allocation failures are left out everywhere, the buffers' growth by doubling is kept only for the text buffer.
- Keys that differ from a known session key only by letter case, and objects that repeat a key, in session and login documents: their lookups differ between cJSON functions. The Thrift model keeps repeated keys and case-insensitive lookups.
- Fractional numbers and whole numbers beyond 53 bits in session files: session numbers are integers, and a number outside the 64-bit range is clamped when read, as the 64-bit ARM conversion does.
- Validation of a client identity's own fields: an identity is an object, compared as a whole.
- enil_session_patch and the whole-file writes of the QR login: not merged and not generation-checked, so they stay out of the merge and fencing claims.
- Power loss: a crash loses the process, not what a rename had made visible.
- The process-wide mutexes and the login's file lock: operations under one lock are one step; a lock held elsewhere is a parameter of retirement.
- RefreshActivation.QuietIffHarmless: takes the document to be one a refresh can start from, and the journaled reply and a reply in hand to read as token results; with a reply that cannot be read, a harmless installation still keeps all quiet, but a harmful one is not shown to do damage.
- Refresh journals without an id are replayed and upgraded, but the history of applied ids starts with the upgrade.
- Health flags: whether a subsystem has failed is part of each event's answer and of each connection attempt.
- An event client without a database: the stored cursor is always kept.
- Concurrent stop and reconnect requests inside one chunk: a stream cut short is a shorter stream, and a stop seen by the callback is part of its answer.
- Wait times of the stream's reconnect loop, and the idle watchdog: timing only.
- The message keys unwrapped at the end of a native login, and the device certificate's own file: they follow the credentials and are not part of the claim about them.
- The identity and certificate that preparation copies: records of the staging directory only.
- Account directories whose name looks like a pending login's: such an account id is not considered.
- Image tags around the alternative text: their markup, and the numbers in it, are functions of path, size and scale.
- int overflow of marker offsets in texts of more than two gigabytes.
- Chats with equal or non-positive message times: paging by time cannot tell such messages apart.
- JPEG and PNG pixel data: only the container is checked, as in the engine.
- enil_sync.c and the token-result parser: not part of this model; how a reply body reads is a function.
- Identity, health, base64, request numbering and ciphertext splitting: they would only add easy members.
