# Chat-relay coordination, modelled in Dafny

This project models the coordination logic of a small distributed chat system.
Three kinds of process are modelled:

- **Reference server** (`reference/main.py`). It hands every chat server a permanent rank. It tracks each server's heartbeats, lists the servers heard from in the last 30 s, and evicts those silent for more than 60 s.
- **Chat servers.** There are two versions: the current `server/main.go` and its older variant `src/server/main.go`. A chat server stores logins, channels and messages. It publishes messages through a broker. The current server (`server/main.go`) also sends the reference server a replica of each new login or channel it saved, and of each channel or direct message it published, and it has a handler that applies replicas; the older variant does neither. It takes part in a Berkeley clock synchronisation led by the coordinator it elects. The coordinator is the listed server of highest rank.
- **Automated client** (`src/client/auto_client.py`). It stamps every request with its logical clock.

Every process keeps a Lamport logical clock: a tick before each send, and max(local, received) + 1 on each receipt.

The model is imperative where the source is. State that the source updates in place is a Dafny `class` whose methods carry `modifies` clauses:

- the registry (`Registry.ServerRegistry`);
- the reference server's loop state (`ReferenceServer.ReferenceServer`);
- a chat server's globals (`ChatNode.ChatNode`);
- the clock (`Clock.LogicalClock`);
- the client's request dictionary (`Client.RequestDict`).

Loops in the source are `while` loops with invariants, such as `get_server_list`, `cleanup_inactive_servers`, `userExists`, `getUniqueUsers`, `determineCoordinator` and the Berkeley sum. Each stateful method is tied to a value-level specification: `RegistryState` with `Register`, `Heartbeat` and `Evict`; the `IsCoordinator` predicates; `ApplyReplica`; `Sum` with `GoDiv`. The lemmas state the properties of these specifications.

Some things outside the program become parameters:

- Wall-clock time is an integer `now`, in seconds.
- How a save of the reference server ends is a `SaveOutcome`, one per save. The file is written, or cannot be opened and stays as it was, or is truncated by `open(..., 'w')` and left unparsable when `json.dump` fails. A chat server's save is `save: IoResult`.
- Whether a broker send succeeds is `send: IoResult`.
- A reply from another process is an `Option` of the decoded reply, with `None` for any failure.

Published frames are appended to an `outbox` sequence.

Files:

- `options.dfy`: an `Option` datatype.
- `clock.dfy`: the Lamport clock. One `LogicalClock` class stands for the four identical copies in reference/main.py:27-39, server/main.go:23-38, src/server/main.go:23-38 and src/client/auto_client.py:26-38.
- `registry.dfy`: the reference server's registry and its persistence snapshot.
- `reference_server.dfy`: the reference server's handlers and request loop.
- `go_strings.dfy`: `strings.TrimSpace` with `unicode.IsSpace`, and Go's `<` on strings.
- `chat_node.dfy`: the state and the handlers that are the same in both Go servers.
- `chat_server.dfy`: what only `server/main.go` does: trimmed logins, the handler that applies a replica, and coordinator choice with a tie-break on the greater name.
- `legacy_server.dfy`: what only `src/server/main.go` does: untrimmed logins, and the first strictly greater rank winning.
- `berkeley.dfy`: `berkeleyCoordinator`: the list fetch, the sampling loop, the average by Go's truncating division, and the distribution of the adjustments.
- `client.dfy`: `send_request`.

Requests and replies carry the Lamport clock as `data.clock` (reference/main.py:256-257).

## Model

| member | source | states |
|---|---|---|
| Clock.Observe | reference/main.py:33-39 | the merged clock exceeds both the local and the received clock and is one above the larger of them |
| Clock.RunAdvances | reference/main.py:27-39 | over any run of sends and receipts the counter rises by at least one per event, so it never decreases |
| Clock.RunDominatesReceived | reference/main.py:33-39 | after any run, the counter is above every clock value received during it |
| Clock.LogicalClock.constructor | reference/main.py:24-25 | a process's clock starts at 0 |
| Clock.LogicalClock.Increment | server/main.go:23-28 | the counter becomes old + 1 and that value is returned |
| Clock.LogicalClock.Update | server/main.go:30-38 | the counter becomes max(old, received) + 1 and that value is returned |
| Registry.Empty | reference/main.py:43-46 | a fresh registry has no servers and next rank 1, and is well formed |
| Registry.Load | reference/main.py:49-61 | a missing or unreadable file gives the empty registry; a missing `servers` or `next_rank` key gives `{}` or 1 |
| Registry.Snapshot | reference/main.py:63-74 | loading what save_data wrote gives back exactly the saved state |
| Registry.Register | reference/main.py:76-95 | registering keeps ranks positive, below next rank and pairwise distinct |
| Registry.RegisterEffect | reference/main.py:78-94 | a known name keeps its rank and next rank; a new name gets the old next rank, which grows by exactly 1; the key set gains only the name; the heartbeat becomes now; other records are unchanged |
| Registry.Heartbeat | reference/main.py:97-105 | a heartbeat keeps the key set and next rank, and keeps the registry well formed |
| Registry.Evict | reference/main.py:123-136 | eviction keeps the registry well formed |
| Registry.EvictExactlyStale | reference/main.py:123-136 | a record survives eviction iff now − last heartbeat ≤ 60; survivors are unchanged and next rank is kept |
| Registry.ListedServersSurviveEviction | reference/main.py:107-136 | every listed (under 30 s) server survives an eviction at the same instant |
| Registry.ReRegistrationIsIdempotent | reference/main.py:76-95 | registering a name again returns the same rank and hands out no new rank |
| Registry.HeartbeatKeepsRanks | reference/main.py:97-105 | a heartbeat never changes a rank; for an unknown name it changes nothing |
| Registry.EvictedRankNotReused | reference/main.py:83-136 | an evicted server that registers again gets the current next rank, which is larger than its old rank |
| Registry.RanksInCallOrder | reference/main.py:83-89 | N distinct new names get ranks next, next + 1, … in call order, and next rank grows by N |
| Registry.RegisterAllKeeps | reference/main.py:85-94 | registering other names leaves an existing record unchanged |
| Registry.ServerRegistry.constructor | reference/main.py:43-61 | the registry starts as whatever load_data finds in the file |
| Registry.AfterSave | reference/main.py:63-74 | a written save reloads as the saved state; a file that cannot be opened stays as it was; a save truncated by a failed dump reloads as the empty registry |
| Registry.ServerRegistry.SaveData | reference/main.py:63-74 | the file becomes AfterSave of the old file, the whole current state and the outcome; the error is swallowed |
| Registry.ServerRegistry.RegisterServer | reference/main.py:76-95 | known name: stored rank, next rank unchanged, no save; new name: old next rank, next rank + 1, and one save of the new state with the given outcome; the heartbeat becomes now either way |
| Registry.ServerRegistry.UpdateHeartbeat | reference/main.py:97-105 | returns true iff the name is registered; only that record's heartbeat changes; an unknown name adds no record |
| Registry.ServerRegistry.GetServerList | reference/main.py:107-121 | lists exactly the servers with now − last heartbeat < 30, each once, each with its stored rank |
| Registry.ServerRegistry.CleanupInactiveServers | reference/main.py:123-136 | removes exactly the records with now − last heartbeat > 60 and keeps next rank; the stale names are deleted one at a time in some order, each once, with a save after each deletion, so the file is AfterRemovals of that order and the save outcomes |
| Registry.LastSaveDecides | reference/main.py:133-136 | after cleanup's saves the file holds the fully evicted state when the last save is written, and is unparsable when the last save truncates it |
| Registry.UnopenedSavesKeepFile | reference/main.py:133-136 | when no save can open the file, cleanup leaves it as it was |
| Registry.PartialCleanupSurvivesRestart | reference/main.py:133-136 | two stale servers, the first save written and the second one failing to open the file: after a restart the registry still holds the second server |
| ReferenceServer.InboundClock | reference/main.py:255-257 | the clock is merged, and rises above the inbound value, only when `data.clock` is present |
| ReferenceServer.Effect | reference/main.py:143-230 | handling any request keeps the registry well formed and never lowers next rank |
| ReferenceServer.HeartbeatAlwaysOk | reference/main.py:203-219 | a heartbeat with a user is answered OK even when the server is unknown, and then the registry is unchanged |
| ReferenceServer.OnlyRankRegisters | reference/main.py:259-278 | no request other than `rank` adds a record or hands out a rank |
| ReferenceServer.ReferenceServer.constructor | reference/main.py:139-140 | the loop starts with the loaded registry, clock 0 and message count 0 |
| ReferenceServer.ReferenceServer.HandleRank | reference/main.py:143-170 | replies with the registered rank, or with the KeyError text for a missing `data`/`user`; always a timestamp and a fresh tick; only a new name saves, with the given outcome |
| ReferenceServer.ReferenceServer.HandleList | reference/main.py:173-200 | replies with exactly the active listing, a timestamp and a fresh tick |
| ReferenceServer.ReferenceServer.HandleHeartbeat | reference/main.py:203-230 | replies OK and refreshes only a known server, or replies with the KeyError text; always a timestamp and a fresh tick |
| ReferenceServer.ReferenceServer.Step | reference/main.py:250-287 | one loop iteration: the reply echoes the service and carries now and tick(inbound merge); the payload answers the request, and an unknown service gets "Serviço desconhecido: …"; the count rises by 1; eviction runs exactly when the count is a multiple of 100 and deletes the stale names in some order; a new registration saves once, then every eviction saves once, each save with its own outcome |
| GoStrings.TrimLeft | server/main.go:802 | drops exactly the leading run of white space |
| GoStrings.TrimRight | server/main.go:802 | drops exactly the trailing run of white space |
| GoStrings.TrimSpace | server/main.go:802 | the result is a slice s[i..j] with only white space outside it, and it neither starts nor ends with white space |
| GoStrings.TrimSpaceIdempotent | server/main.go:802-812 | trimming a trimmed name changes nothing |
| GoStrings.TrimSpaceOfTrimmed | server/main.go:802-812 | a name with no white space at either end is stored as sent |
| GoStrings.LessIrreflexive | server/main.go:718-719 | no name is greater than itself |
| GoStrings.LessAsymmetric | server/main.go:718-719 | two names are never each greater than the other |
| GoStrings.LessTransitive | server/main.go:718-719 | the string order is transitive |
| GoStrings.LessTotal | server/main.go:718-719 | of two different names, one is greater |
| ChatNode.LoadData | server/main.go:373-388 | a missing file gives empty data if the first save works; an unreadable file or a failed save is the start-up error; otherwise the stored data |
| ChatNode.NewLoginKeepsDistinct | server/main.go:806-818 | appending a login for a name not yet present keeps login names distinct |
| ChatNode.NextCounter | server/main.go:729-734 | the counter stays in 0..9 and wraps to 0 exactly when it reaches 10 |
| ChatNode.CounterCadence | src/server/main.go:686-690 | after n messages the counter is n mod 10, so a check is due on every tenth message |
| ChatNode.ChatNode.constructor | server/main.go:1468-1472 | a server starts only when loadData succeeds (main stops with log.Fatalf otherwise), with exactly the data loadData produced, clock 0, offset 0, counter 0 and no coordinator |
| ChatNode.ChatNode.UserExists | server/main.go:401-408 | true iff some login has that user name |
| ChatNode.ChatNode.ChannelExists | server/main.go:410-417 | true iff the channel is in the channel list |
| ChatNode.ChatNode.UniqueUsers | src/server/main.go:376-387 | every user name with a login appears exactly once, and nothing else appears |
| ChatNode.ChatNode.AdjustTime | server/main.go:51-54 | the offset grows by exactly the adjustment |
| ChatNode.ChatNode.CountMessage | server/main.go:729-734 | the counter advances by NextCounter, and a check is due exactly when it wraps |
| ChatNode.ChatNode.LoginAs | server/main.go:797-829 | an empty or taken name gets "erro" and no change; otherwise exactly one login (name, request timestamp) is appended and kept even when saving fails ("Erro ao salvar dados: …"); login names stay distinct (same logic in src/server/main.go:744-766) |
| ChatNode.ChatNode.FetchServerList | server/main.go:505-531 | the request is stamped with a tick; a reply's clock is merged and its list returned; a failure returns nothing |
| ChatNode.ChatNode.HandleUsers | server/main.go:851-865 | replies with the unique user names, now, and tick(merge(request clock)) |
| ChatNode.ChatNode.HandleChannels | server/main.go:919-933 | replies with the channel list, now, and tick(merge(request clock)) |
| ChatNode.ChatNode.HandleChannel | server/main.go:867-917 | an empty or existing name gets "erro" and no change; otherwise exactly that channel is appended (kept if saving fails); channel names stay distinct (same logic in src/server/main.go:788-819) |
| ChatNode.ChatNode.HandlePublish | server/main.go:936-1020 | an unknown channel or an empty message gets "erro" with nothing published or appended; otherwise the publication's clock is one above the reply clock; on a successful send, exactly one frame goes to the channel topic and one ChannelMessage is appended; a failed send appends nothing (same logic in src/server/main.go:838-903) |
| ChatNode.ChatNode.HandleMessage | server/main.go:1022-1106 | an unknown destination or an empty message gets "erro" with nothing sent or appended; otherwise the direct message's clock is one above the reply clock; on a successful send, exactly one frame goes to the destination's topic and one UserMessage is appended (same logic in src/server/main.go:905-970) |
| ChatNode.ChatNode.HandleClockRequest | server/main.go:658-672 | reports the adjusted time (now + offset) with a fresh tick after the merge |
| ChatNode.ChatNode.HandleClockAdjustment | server/main.go:675-701 | adds the adjustment to the offset and replies OK with the new adjusted time |
| ChatServer.HandleLogin | server/main.go:780-849 | validates and stores the TrimSpace of the name: all-white-space names are refused, and a padded copy of a taken name is refused |
| ChatServer.ApplyReplica | server/main.go:1160-1195 | a login or channel replica is added only if absent; channel and user messages are appended; an unknown type or undecodable content changes nothing; distinct login and channel names stay distinct |
| ChatServer.ReplicaIdempotent | server/main.go:1160-1176 | a login or channel replica delivered twice has the same effect as delivered once |
| ChatServer.ReplicaPresent | server/main.go:1160-1176 | after a login or channel replica the user or channel is present |
| ChatServer.HandleReplication | server/main.go:1150-1205 | the data becomes ApplyReplica of the old data; the save result is ignored; the reply is OK with the adjusted time and a fresh tick |
| ChatServer.OutranksChain | server/main.go:716-722 | replacing the current best by a server that outranks it keeps every earlier server outranked |
| ChatServer.DetermineCoordinator | server/main.go:704-726 | for an empty list, its own name; otherwise a listed server that no listed server outranks (higher rank, or equal rank and greater name); "" if every rank is below −1 |
| ChatServer.CoordinatorUnique | server/main.go:704-726 | that description admits exactly one name for each list |
| ChatServer.CoordinatorHasMaxRank | server/main.go:714-723 | the coordinator's rank is at least every listed rank |
| ChatServer.CheckAndSyncIfNeeded | server/main.go:729-753 | nine messages in ten change nothing else; on the tenth the list is fetched, and on success the coordinator is recorded and a Berkeley round starts iff it is this server |
| LegacyServer.HandleLogin | src/server/main.go:735-770 | stores the name exactly as sent: only "" is refused as empty, and a padded name is a different user |
| LegacyServer.DetermineCoordinator | src/server/main.go:661-683 | its own name for an empty list or when no rank exceeds 0; otherwise the first listed server of greatest rank |
| LegacyServer.CoordinatorUnique | src/server/main.go:672-680 | that description admits exactly one name for each list |
| LegacyServer.TieBreakDiffers | src/server/main.go:672-680 | for two servers of equal rank listed a then b, the older server elects a and the current one elects b |
| LegacyServer.CheckAndSyncIfNeeded | src/server/main.go:686-709 | as in the current server, but electing with the older rule |
| Berkeley.SamplesAfter | server/main.go:564-565 | the timestamps always hold this server's own adjusted time, which no list entry overwrites |
| Berkeley.SampledIffAnswered | server/main.go:569-607 | another server has a sample iff some list entry naming it answered the clock request, and its sample is the time one of those answers carried |
| Berkeley.SamplingDominatesAnswers | server/main.go:584-604 | sampling never lowers the clock and leaves it above every clock a peer answered with |
| Berkeley.SampleTimes | server/main.go:564-607 | the loop returns SamplesAfter of the list and the answers: own time first, an answered peer's time, skipped self entries and failed exchanges; the clock ticks once per request sent and merges each reply |
| Berkeley.GoDiv | server/main.go:614 | integer division truncates toward zero: the remainder has the dividend's sign and is smaller than the divisor |
| Berkeley.SumRemove | server/main.go:610-613 | the sum of the samples does not depend on the order in which they are added |
| Berkeley.SumBounds | server/main.go:610-613 | n samples between lo and hi sum to between n·lo and n·hi |
| Berkeley.AverageTime | server/main.go:609-614 | avgTime is the truncated quotient of the sum of the samples by their count |
| Berkeley.AverageWithinSamples | server/main.go:609-614 | the average lies between the smallest and the largest sample |
| Berkeley.AdjustmentAsWritten | server/main.go:636 | as written: a sampled server is moved exactly to the average; a server without a sample is sent the average itself |
| Berkeley.UnsampledServerCounterexample | server/main.go:590-636 | samples 1700000000 and 1700000002 average to 1700000001, and an unsampled third server is told to add 1700000001 s |
| Berkeley.Adjustment | server/main.go:636 | intended: an adjustment exists iff the server was sampled, and the sample plus the adjustment equals the average |
| Berkeley.AdjustmentAgreesWhenSampled | server/main.go:618-636 | for every sampled server the intended and the written adjustment agree |
| Berkeley.DistributeAdjustments | server/main.go:616-650 | intended behaviour (see Findings, server/main.go:636): the offset grows by the own adjustment once per own list entry; the message targets, in order, are exactly the recipients, one per list entry naming a reachable, sampled server other than this one; each message carries the adjustment that moves its target to the average and is stamped with a fresh tick, so the clock rises by one per message; every such server is sent one |
| Berkeley.RecipientsCover | server/main.go:618-650 | every list entry naming a reachable, sampled server other than this one puts that name among the recipients |
| Berkeley.RecipientsReceive | server/main.go:618-650 | every recipient is a reachable, sampled server other than this one |
| Berkeley.DistributionCoversReceivers | server/main.go:618-650 | when the message targets are the recipients, every reachable, sampled server in the list is sent a message |
| Berkeley.BerkeleyRound | server/main.go:549-655 | intended behaviour (see Findings, server/main.go:636), from the list fetch on: a failed fetch ticks the clock and ends the round with an error; with at most one listed server the round stops after the fetch's tick and merge; otherwise the samples are SamplesAfter of the list, avg is their truncated mean, the offset grows by the own adjustment once per own list entry, and the messages go, one per entry and in list order, to exactly the reachable, sampled servers other than this one; each carries the adjustment that moves its target to avg, and message k is stamped with the clock after sampling + k + 1 |
| Client.RequestDict.constructor | src/client/auto_client.py:89-95 | a request dictionary holds exactly the given `service` and optional `data` |
| Client.SendRequest | src/client/auto_client.py:65-84 | `data.clock` is written, with the fresh tick, only when the request has `data`; other keys are untouched; an integer reply clock is merged; an exchange failure or a non-numeric clock gives None; after a round trip the clock exceeds both the sent and the received clock |

## Left out

- Sockets, ZeroMQ and MessagePack/JSON encoding are not modelled. Requests arrive decoded, and a reply from another process is a parameter. Go decoding failures and the "Erro ao serializar mensagem" branches (server/main.go:969-974, 1055-1060) cannot be reached from decoded values.
- Files are not modelled as bytes. The reference server's file is the abstract `StoredFile` snapshot. A chat server's saves are a success or failure flag.
- Wall-clock reads are not modelled. `time.time()` is a float in Python, and `now` is an integer number of seconds. The strict `<` and `>` of the two windows are kept.
- Concurrency is not modelled: `clockMutex`, `dataMutex` and the goroutines. These goroutines are left out:
  - the replication sends after login, channel, publish and message (`replicateData`, server/main.go:1112-1146). They go to `REFERENCE_URL`, by default `tcp://reference:5559` (server/main.go:833-843, 901-911, 1006-1015, 1092-1101), which is the reference server. The reference server has no `replicate` service, so it answers "Serviço desconhecido: replicate" with no `status` (reference/main.py:269-278), and `replicateData` returns its "status != OK" error (server/main.go:1141-1144). So, as written, no chat server ever receives a replica, and `handleReplication` is modelled only as the receiving handler;
  - the heartbeat and sync tickers;
  - `subscribeToCoordinatorAnnouncements`.

  The model is sequential.
- Elections are left out: `handleElectionRequest`, `initiateElection`, `becomeCoordinator` and `checkCoordinatorHealth`. They are driven by timeouts and the network.
- The chat server's side of registration and heartbeats (`registerWithReference`, `sendHeartbeat`) is left out. Both are socket exchanges.
- berkeleyCoordinator's sockets are not modelled. How each sampling exchange ends is the `answers` parameter, by list position. Which servers cannot be connected to for an adjustment is the `unreachable` set. The confirmation read after each adjustment (server/main.go:647) is discarded by the source and has no effect.
- Berkeley.BerkeleyRound: the `timestamp` field of the clock requests and of the adjustment messages (`getAdjustedTime()`, server/main.go:583, 640) is not modelled.
- checkAndSyncIfNeeded starts berkeleyCoordinator in a goroutine. In the model that start is the returned `startSync` flag.
- The Go main loops' `switch` dispatch and their reply sending are not modelled. Each handler is modelled on its own.
- `client/main.js` is left out. It is an interactive menu with no state logic.
- `src/broker/main.py` is left out. Its whole body is `zmq.proxy`, so fan-out and subscription forwarding happen inside ZeroMQ.
- auto_client's randomness, sleeps and message loop are left out.
- src/server/main.go does not compile as written. A brace is missing after line 709, `"=" * 70` appears at line 1066, and line 1106 calls an undefined `handleElectionRequest`. In addition, lines 880 and 947 bind the two results of `SendMessage` to one variable, and lines 401, 433 and 472 do the same with `SendBytes`. The model follows the evident intent of that text.
- Clock.LogicalClock.Increment: the Go counter's int64 wrap-around is not modelled. Go's counter is `int64` and Python's is unbounded; the model uses unbounded integers.
- Clock.LogicalClock.Update: the same int64 caveat applies.
- Berkeley.AverageTime: int64 overflow of the sum is not modelled.
- ChatNode.ChatNode.AdjustTime: int64 overflow of the offset is not modelled.
- Registry.ServerRegistry.GetServerList: the order of the list is not stated. It follows the dict's iteration order, which the model leaves open.
- ChatNode.ChatNode.UniqueUsers: the order of the result is not stated. Go's map iteration order is unspecified.
- ReferenceServer.ReferenceServer.HandleList: the error branch (reference/main.py:190-200) is not modelled. `get_server_list` only raises on a malformed stored record, and the model's records are always well formed.
- ReferenceServer.ReferenceServer.Step: a request that is not a dictionary, and a `data` value that is `None` or a string, are not modelled, because `RequestData` cannot represent them. With `None`, `'clock' in request['data']` raises a TypeError; with a string containing "clock", the subscript `request['data']['clock']` raises. Either way the error is raised outside the handlers (reference/main.py:255-256) and the loop ends (reference/main.py:290-294).
- ReferenceServer.InboundClock: `data.clock` is modelled as an integer or absent. A `None` or string clock makes `update_clock` raise a TypeError (reference/main.py:36), outside every handler; the outer `except` at line 291 then ends the loop and the server stops. A float clock would be merged and turn the counter into a float. Neither case is modelled.
- Client.SendRequest: every non-integer `clock` is treated as one that raises. A bool or a float would compare without raising.

## Findings

| source | as written | input that shows it | evidently intended | confidence | as-written member | corrected member |
|---|---|---|---|---|---|---|
| server/main.go:636 (same at src/server/main.go:593) | `adjustment := avgTime - timestamps[server.Name]` is computed for every listed server. A server whose clock reply failed to arrive or parse was skipped with `continue` (server/main.go:590-603) and has no entry. Go's map then yields 0, so that server is told to add the whole average. | Two servers report 1700000000 and 1700000002; the average is 1700000001. A third listed server's reply fails to parse, but it accepts the connection for the adjustment. It is sent an adjustment of +1700000001 s. | Only servers that were sampled get an adjustment, namely the one that moves their time to the average. | low, not executed: the reply must fail to arrive or to decode while the server still accepts the adjustment | Berkeley.AdjustmentAsWritten, Berkeley.UnsampledServerCounterexample | Berkeley.Adjustment, Berkeley.DistributeAdjustments |
