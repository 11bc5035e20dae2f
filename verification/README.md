# Reliable delivery and lobbies of udpstar, verified

This project models udpstar's reliable, ordered delivery over UDP, from the linked lists at the bottom to
whole runs over a faulty network, and the lobby that leads into a session. The parts, bottom up:

- `Ranges`, `RangeSets`: sets of sequence numbers as sorted lists of disjoint, non-touching ranges. The list is
  a linked structure of nodes that `UnionInto`, `SubtractInto` and `Remove` rewire in place.
- `Streams`, `StreamLaws`, `Confluence`, `Waiting`, `HeldCopies`, `Arrivals`, `StreamGaps`: what one push does to the
  reassembly buffer, when it gives up waiting, and what holds, is delivered and stays missing after any history of
  pushes. `StreamQueues` is the buffer as the program keeps it, a linked queue.
- `Engines`, `EngineStore`: the missing set that is kept in step with the buffer.
- `Histories`, `HistoryStore`: the send-side history, a doubly linked list of fixed-size chunks with three
  limits, and its fast reads.
- `Recents`, `RecentStore`: the ring of recent actions, with holes and lazily kept cumulative delays.
- `StoryPacks`, `StoryPacker`, `StoryProtocol`, `StoryAsks`, `StoryRecovery`, `StoryRetries`, `StoryServices`: stories
  from the server to its clients. The protocol is a state machine whose network loses, duplicates and reorders: packs
  and confirms that were sent once stay available to arrive any number of times, in any order, or never.
- `ActionProtocol`, `ActionAcks`, `ActionServices`: actions from a client to the server, with a 32-slot ring and expiry.
- `Lobbies`, `LobbyLaws`, `LobbyEffects`, `LobbyServices`: the lobby's commands and timer, what each of them does and
  keeps, and what clients are told.
- `FinishLobby`: the optimistic sequence of requests that closes a lobby.
- `Sessions`, `SessionContents`, `SessionValidity`, `SessionFromLobby`, `LobbyOutcome`: from lobby slots to a session,
  on the server and on the client, and the check that a session has to pass.
- `Wire`, `MessageSizes`, `Messages`, `MessageBytes`, `MessageLaws`, `Serializers`, `MessageServices`, `MessageReaders`,
  `StoryWire`: the bytes of the story and lobby messages.
- `Seqs`: lists of lists, and the elements of linked lists.

Code that the program writes as loops and updates is imperative here too: classes whose methods are proved
against functions on values. The laws are then proved about those functions. Sequence numbers, times and
durations are unbounded integers everywhere but in the wire modules. The clock is a parameter. Every handler
call is one atomic step of a protocol.

## What the proofs found

- `GetBytes` and `GetStr` step over a field with `n+1` computed in a byte. A field of 255 bytes is therefore
  not stepped over. `MessageLaws.RoundTrip` states the exact condition: a message comes back, with what
  follows it left over, if and only if none of its byte strings has 255 bytes. `MessageLaws.LongStringIsLost` is
  a message that does not. `MessageLaws.LongNameHidesTheEnd` is a Join that is cut short and still accepted.
- `localJoin` and `localLeave` never lower a client's count. Counts are exact throughout a run if and only if no
  local command takes the seat of a client (`LobbyLaws.ExactIffNoSeatTaken`, `LobbyLaws.CountsAreExact`). When one
  does, the client stays counted: a silent client that holds no slot is forgotten if and only if its count is
  exact (`LobbyLaws.SilentClientIsForgotten`), and `LobbyLaws.TakenSeatIsStillCounted` is one that never is.
- A retransmitted pack shares its array with the entries that are collected after it. A pack that the next entry
  does not fit in has its first entry overwritten by that entry as soon as it is on the channel, and more of them
  later (udpstar/server/service_session.go:199-217). `StoryPacker.Packer.PackOne` and `LastIsOverlaid` in its `Valid`
  state what the array of the last pack holds. Only the last pack of an answer is never overwritten
  (`StoryPacker.Retransmit`). Safety does not depend on it (`StoryProtocol.RequestedCanAnswer`,
  `StoryProtocol.StorySafety`), but recovery does. When just the packs of all answers arrive, the client catches up if
  and only if every pack is written before anything in it is overwritten (`StoryRecovery.Recovery`).
  `StoryPacker.LateReading` and `StoryRetries.OverwrittenAnswerFails` are an answer that changes nothing. In general a
  client catches up if and only if every number that it misses passes in some pack
  (`StoryRecovery.RecoveryAmongOthers`), and an overwritten pack that is read in one piece passes just the numbers that
  overwrote it (`StoryRetries.OverwrittenPasses`). Asking again ends all the same, since the last pack of an answer
  always helps (`StoryRetries.RetriesEnd`). An overwritten pack can be too large for a datagram
  (`StoryWire.OverwrittenIsTooLarge`).
- The recent entries of a story are limited by payload bytes only. The pack of them can be put into a message if
  and only if no payload in it has more than 255 bytes and it has at most 255 entries, which is a condition on the
  last 256 entries of the log (`StoryWire.PublishedPackIsPuttable`); `StoryWire.TooManyTinyEntries` is a log that
  makes the serializer panic.
- `unansweredCount` starts at 0 and is only ever increased from values of at least 1, so that the branches of
  the resend timer for larger values are not reached (udpstar/client/service_action.go:86-108): it is 0 in
  `ActionServices.ActionSender.Valid`, and `ActionServices.ActionSender.Resend` always waits for the idle delay.
- `holes` in the ring of recent actions is only an upper bound of the empty slots: `RecentStore.StaleHole` is a
  ring without a hole that counts one. It stays as exact as it was in every push but one that overwrites a hole
  at the oldest slot of a full ring (`RecentStore.Recent.Push`). `Len` is exact all the same.
- A stream keeps the first copy of a number that it holds ahead, but a later copy can be the one delivered
  (`HeldCopies.LaterCopyIsDelivered`): the held copy is the one delivered if and only if the feed brings no copy
  that is delivered as it comes (`HeldCopies.HeldCopyIsDelivered`), which the numbers in the feed decide
  (`HeldCopies.FedDirectlyIff`). Statements about payloads therefore assume
  that every sender gives one payload to a number, which the protocols guarantee.
- The setup of a lobby may give the same story to slots that do not stand together
  (udpstar/server/setup.go:24-40), and a lobby without a remote actor can be finished. A lobby gives a valid session if
  and only if the slots of each story stand together and there are at most 64 stories and 1 to 64 clients
  (`LobbyOutcome.LobbyGivesValidSession`). `LobbyOutcome.LocalLobbyIsRefused` and `LobbyOutcome.ScatteredStoryIsRefused`
  are lobbies that do not. Server and client agree on stories, names and places if and only if the slots of each
  story stand together (`SessionFromLobby.ServerAndClientAgree`). Joins name a slot by a byte, so that a lobby of more
  than 256 slots never fills up (`LobbyOutcome.LargeLobbyStaysActive`).
- When an actor that is seated locally joins from a client, the program evicts client 0, which all local slots and all
  available ones name: every local actor loses its seat (`LobbyEffects.JoinRemoteDoes`).
  `LobbyEffects.RemoteJoinClearsLocals` is such a join.
- A call to finish a lobby that fails after its first request leaves the lobby in the countdown. Until seats change
  every later call is refused (`FinishLobby.FailedCallBlocksOthers`). `FinishLobby.RenamedWhileFinishing` is such a
  call.
- Actions are delivered without gaps if and only if no pack that arrives finds the wait over and begins, beyond
  lastSeq, with another number than the next (`ActionProtocol.NoGaps`).
- The field `state` of a finish request is not read when the request is processed
  (udpstar/server/service_lobby.go:733-771). The countdown runs all the same, because of the version check
  (`FinishLobby.RequestsSucceed`).

## Model

| member | source | states |
|---|---|---|
| Ranges.CanonicalUnique | sequence/range.go:154-158 | Two sorted lists of disjoint, non-touching ranges with the same numbers are the same list. |
| Ranges.UnionOrderIrrelevant | sequence/range.go:154-158 | Adding the same ranges in any order to the same set ends in the same list of ranges. |
| Ranges.UnionMerge | sequence/range.go:193-234 | Replacing all ranges that q overlaps or touches by their hull keeps the list canonical and adds exactly q. |
| Ranges.Carve | sequence/range.go:248-299 | Replacing a range by what q leaves of it (nothing, one or two ranges) keeps the list canonical and takes away exactly the overlap. |
| Ranges.CoveredByOne | sequence/range.go:314-325 | In a canonical list q is covered exactly when one single range covers it. |
| RangeSets.RangeSet.UnionInto | sequence/range.go:172-234 | The linked list ends canonical with the old numbers and q; a result set gains exactly what was new and stays canonical; both loops end. |
| RangeSets.RangeSet.SwallowNext | sequence/range.go:206-222 | The inner loop of union: the node grows over every next node that q reaches, and the result has gained exactly the gaps in between. |
| RangeSets.RangeSet.SubtractInto | sequence/range.go:248-299 | The linked list ends canonical with the old numbers less q; a result set gains exactly the intersection. |
| RangeSets.RangeSet.Remove | sequence/range.go:109-152 | Takes out exactly one number, splitting a node if need be, and tells whether it was there. |
| RangeSets.RangeSet.Add | sequence/range.go:91-101 | Adds exactly one number and tells whether it was new. |
| RangeSets.RangeSet.Union | sequence/range.go:166-170 | Returns a separate set of exactly the numbers that were new. |
| RangeSets.RangeSet.Subtract | sequence/range.go:242-246 | Returns a separate set of exactly the numbers that were taken. |
| RangeSets.RangeSet.UnionAll | sequence/range.go:154-158 | Adds the numbers of all given ranges. |
| RangeSets.RangeSet.UnionRangeSet | sequence/range.go:160-164 | Adds the numbers of another list, which stays as it is, or of the set itself. |
| RangeSets.RangeSet.Clear | sequence/range.go:301-312 | Empties the set. |
| RangeSets.RangeSet.Contains | sequence/range.go:314-325 | True exactly when every number of q is in the set, although only one node is tested at a time. |
| RangeSets.RangeSet.AsSlice | sequence/range.go:327-333 | Returns the canonical list. |
| Streams.PushClimbs | sequence/stream.go:59-119 | A push delivers strictly increasing numbers from above the old lastSeq up to the new one, and leaves a sorted queue that begins beyond the next number. |
| StreamLaws.DelayConservation | sequence/stream.go:62-116 | Over any run of pushes, with or without expiry, the delays of all that was returned sum up to lastTime less the time of the first push. |
| StreamLaws.RunClimbs | sequence/stream.go:59-119 | Over any run of pushes the delivered numbers strictly increase and end at lastSeq. |
| StreamLaws.PushGenuine | sequence/stream.go:59-119 | A push delivers and keeps only numbers and payloads that arrived or were held. |
| Confluence.LedgerKeys | sequence/stream.go:71-77 | A number is recorded by the delivery exactly when it passed the in-feed order check in some push. |
| Confluence.ClosedForm | sequence/stream.go:59-150 | Without a maximum wait: lastSeq is the largest number up to which everything was accepted, the output is that run, the queue is exactly what was accepted beyond it. |
| Confluence.ArrivalOrderIrrelevant | sequence/stream.go:59-150 | Two histories of one sender's entries that accept the same numbers end in the same state with the same output. |
| Confluence.PushExact | sequence/stream.go:59-119 | With expiry: exactly which numbers one push delivers first, what it passes and what it holds. |
| Waiting.WaitsInTime | sequence/stream.go:62-91 | On the first push, without a maximum wait, or before it has passed since the last delivery, everything up to the new lastSeq is delivered. |
| Waiting.GivesUp | sequence/stream.go:66-91 | Once more than the maximum wait has passed since the last delivery, delivery goes on with the first entry fed beyond lastSeq. |
| Waiting.PushSkips | sequence/stream.go:66-119 | A push skips numbers exactly when the wait is over and the first entry fed beyond lastSeq is not the next one. |
| Waiting.FirstCarriesTheTime | sequence/stream.go:62-106 | The first entry delivered carries the time since the last delivery and the others none; lastTime moves only with a delivery or on the first push. |
| HeldCopies.HeldCopyIsDelivered | sequence/stream.go:71-119 | Of a number that is held, the held copy is delivered unless the feed brings a copy that is delivered as it comes, and then it is that copy. |
| HeldCopies.OnlyCopyIsDelivered | sequence/stream.go:71-119 | When the feed brings no other copy of a held number, the held payload is delivered. |
| HeldCopies.LaterCopyIsDelivered | sequence/stream.go:94-103 | A stream that holds number 3 delivers the payload of a later copy that arrives together with number 2. |
| HeldCopies.DeliveredOnce | sequence/stream.go:71-119 | No number is delivered both from the feed and from the queue by one push. |
| HeldCopies.FedDirectlyIff | sequence/stream.go:71-109 | A number is delivered as it comes exactly when all numbers from the next one up to it pass the in-feed order check; when the wait is over, from the first one fed beyond lastSeq. |
| Arrivals.StillMissing | sequence/stream.go:59-119 | Without a maximum wait: below a held number, what is missing after any run is what was missing and passed in no push. |
| Arrivals.CaughtUpIff | sequence/stream.go:59-119 | Without a maximum wait: a run gets as far as a held number exactly when every number missing below it passes in some push. |
| Arrivals.RunHeld | sequence/stream.go:59-119 | For any maximum wait: beyond lastSeq, what is held after a run is what was held or passed. |
| StreamGaps.GapsDenote | sequence/stream.go:154-198 | The gap list is canonical and denotes the numbers after lastSeq and before the last held one that are not held. |
| StreamQueues.Stream.Push | sequence/stream.go:59-119 | The linked queue moves to the state, and returns the entries, that the value function gives. |
| StreamQueues.Stream.PushAhead | sequence/stream.go:121-150 | Links an entry at its place in the sorted queue, unless its number is there. |
| StreamQueues.Stream.GetMissing | sequence/stream.go:154-176 | Returns the gaps in order, all of them for limit 0 and the first ones otherwise. |
| StreamQueues.Stream.GetMissingRangeSet | sequence/stream.go:178-198 | Returns a fresh set whose list is exactly the gaps. |
| Engines.KeptIsBeyond | sequence/engine.go:25-36 | Nothing delivered stays in the missing set, also when the guard on the first sequence number skips the subtraction. |
| Engines.Agreement | sequence/engine.go:19-50 | A missing set that agreed with the buffer agrees with it after any push, with or without expiry; what is reported as new is the new gaps less the old ones not just fed. |
| Engines.SliceIsGaps | sequence/engine.go:19-50 | As a list, the missing set is exactly what GetMissing(0) returns. |
| EngineStore.Engine | sequence/engine.go:19-50 | Pushes the feed, keeps the missing set in step and returns the delivered entries and the newly missing ranges. |
| Histories.TrimmedIsLongestFit | sequence/history.go:58-73 | For non-negative delays and limits that held before, a push keeps the longest suffix within all three limits, although the count limit takes out only one entry. |
| Histories.RunKeepsLongestFit | sequence/history.go:58-73 | After any run of pushes with non-negative delays the history holds the longest suffix of everything pushed that is within the three limits. |
| Histories.RunKeepsWithin | sequence/history.go:58-73 | The same limit by limit: what is kept stays within each limit that is set, and with one more entry it would break one. |
| Histories.GreedyIsLongest | sequence/history.go:136-177 | For non-negative delays walking back until a limit would break gives the longest suffix within the limits. |
| Histories.InRangeExact | sequence/history.go:214-251 | The filter by range holds exactly the entries whose number lies in it. |
| HistoryStore.History.PushEntry | sequence/history.go:75-99 | Appends to the chunk list, opening a chunk when the tail is full, unless the number is not new; counters follow. |
| HistoryStore.History.Pop | sequence/history.go:101-126 | Takes out the oldest entry and drops the chunk that this empties; counters follow. |
| HistoryStore.History.Push | sequence/history.go:58-73 | Appends and then trims by count, delay and size; the trimming loops end. |
| HistoryStore.History.GetRange | sequence/history.go:214-251 | Skipping chunks and searching within them gives the filter of all entries by the range. |
| HistoryStore.History.BinarySearch | sequence/history.go:224-228 | The search in a chunk finds the first entry not below the given number. |
| HistoryStore.History.RecentX | sequence/history.go:136-177 | Walking the chunks backwards gives the greedy suffix within the three limits. |
| StoryPacks.RequestedExact | udpstar/server/service_session.go:195-199 | A request finds exactly the entries whose number lies in one of the ranges. |
| StoryPacks.RequestedSorted | udpstar/server/service_session.go:195-199 | Asked for in canonical ranges the entries come in strictly increasing order. |
| StoryPacks.PackBounds | udpstar/server/service_session.go:195-223 | With payloads of at most 255 bytes each pack is non-empty, smaller than 508 bytes and holds at most 37 entries. |
| StoryPacks.PackingIsDetermined | udpstar/server/service_session.go:195-223 | There is only one such packing. |
| StoryPacker.Retransmit | udpstar/server/service_session.go:186-225 | The packs put on the channel carry the requested entries in order, nothing lost or repeated, each pack non-empty and none able to take the next entry. In the arrays they share every entry is the one packed or a requested one that came later, and the last pack is as it was packed. |
| StoryPacker.Packer.PackOne | udpstar/server/service_session.go:199-217 | One entry is collected, or makes a pack that is sent; unless the entry makes a pack of its own, that pack has its first entry overwritten by it. |
| StoryPacker.Packer.Append | udpstar/server/service_session.go:200-200 | Appends to the collected entries, in place or in a longer array; of the packs sent before only entries that lie in that place are replaced, and the collected entries lie over those of the last pack. |
| StoryPacker.LateReading | udpstar/server/service_session.go:199-217 | Two entries that do not fit together are put on the channel as two packs, and both slices end with the second entry. |
| StoryPacker.StillWritten | udpstar/server/service_session.go:199-217 | In increasing order an entry that replaces any entries of the packs sent is one that came after each of them. |
| StoryProtocol.StorySafety | udpstar/client/service_story.go:82-111 | In every run, at every step, each client's channel holds a prefix of the published payloads, and it only grows. |
| StoryProtocol.StepOk | udpstar/server/service_session.go:163-225 | Every step keeps the invariant of the protocol: logs are numbered, streams and packs are taken from the log, missing sets agree with the streams. |
| StoryProtocol.DeliveredIsNext | udpstar/client/service_story.go:82-111 | What a client delivers is the next stretch of the server's log. |
| StoryProtocol.RequestedCanAnswer | udpstar/server/service_session.go:186-225 | Packs of requested entries are a step of the protocol, whatever became of them after they were packed. |
| StoryAsks.PackMakesAsk | udpstar/client/service_story.go:82-147 | In every run a pack makes the client ask for exactly what is missing now and was not before, or was in the pack all the same; its confirms name the last number it passed. |
| StoryAsks.TimerAsks | udpstar/client/service_story.go:69-80 | The request timer makes it ask for exactly what is missing. |
| StoryAsks.SplitAsks | udpstar/client/service_story.go:123-147 | Confirms for a list of ranges ask for just its numbers, in one confirm for every 60 ranges and one for the rest. |
| StoryRecovery.Recovery | udpstar/client/service_story.go:123-147 | From any reached state: if the confirms built from all that is missing are answered, each from the log of its time, and just the packs arrive, in any order and whatever is left of them, the client ends at the greatest number it held, missing nothing, if and only if every pack was written as it was packed; what it has is the log in any case. |
| StoryRecovery.RecoveryAmongOthers | udpstar/client/service_story.go:123-147 | Whatever arrives of the log: the client ends at or beyond the greatest number it held if and only if every number it missed passes in some pack, with just the log up to where it ends. |
| StoryRecovery.CatchUpAmongOthers | udpstar/client/service_story.go:123-147 | With all packs as they were packed, whatever else arrives, lastSeq is at least the greatest number held before. |
| StoryRecovery.CatchUp | udpstar/client/service_story.go:123-147 | When just the packs arrive, whatever is left of them, lastSeq reaches the greatest number held exactly when each was written as it was packed. |
| StoryRecovery.AnswersSuffice | udpstar/client/service_story.go:123-147 | From any reached state: when the packs of all answers arrive as they were packed, among others, the client passes all it held. |
| StoryRecovery.AnswersPack | udpstar/server/service_session.go:195-223 | The packs of all answers together carry all that was asked for, in order. |
| StoryRecovery.ChangedIsMissed | udpstar/server/service_session.go:199-217 | Of the first pack that is not written as it was packed some number passes nowhere. |
| StoryRetries.OverwrittenPasses | udpstar/server/service_session.go:199-217 | A pack overwritten from the front with later entries passes just the numbers of those. |
| StoryRetries.OverwrittenAnswerFails | udpstar/server/service_session.go:199-217 | Of four entries of 250 bytes a client has the first and the last; the packs of the other two, the first written too late, leave it where it was. |
| StoryRetries.RoundHelps | udpstar/client/service_story.go:69-80 | When the last pack of some answer arrives, the client misses fewer of the numbers below what it held. |
| StoryRetries.SomeAnswer | udpstar/client/service_story.go:69-80 | While a client misses something, some answer to what it asks for has a pack. |
| StoryRetries.RetriesEnd | udpstar/client/service_story.go:69-80 | There are no more rounds of asking in which the last pack of some answer arrives than entries that the client has not seen. |
| StoryServices.Enumerator.Push | sequence/enumerator.go:14-30 | Numbers are consecutive from one; the delay is the time since the entry before. |
| StoryServices.StoryServer.Publish | udpstar/server/service_session.go:163-184 | A published payload gets the next number and the time since the one before, stays in the unlimited history, and the recent entries go out. |
| StoryServices.StoryServer.HandleStoryConfirm | udpstar/server/service_session.go:230-273 | A confirm that asks for ranges is answered by packs of the requested entries, whose arrays hold what Retransmit states. |
| StoryServices.SendConfirm | udpstar/client/service_story.go:123-147 | The ranges are split into confirms of at most 60, in order, none lost or repeated. |
| StoryServices.StoryClient.HandlePack | udpstar/client/service_story.go:82-111 | The client's step on a pack is the protocol's: delivered payloads go to the channel, a confirm asks for what is newly missing. |
| StoryServices.StoryClient.RequestTimer | udpstar/client/service_story.go:69-80 | The timer asks for everything that is missing. |
| Recents.ClosedForm | sequence/recent.go:43-129 | After any run of pushes and removals the live entries are those of the last capacity pushes that were not removed, in order. |
| Recents.CumulativeIsLaterDelay | sequence/recent.go:264-280 | Each cumulative delay is the sum of the delays of all later pushes. |
| Recents.GoneIffRemoved | sequence/recent.go:109-129 | An entry is gone exactly when a later removal named its number. |
| Recents.RecentIsLongestFit | sequence/recent.go:158-184 | With non-negative delays, after any run of pushes and removals, Recent is the longest live suffix within both limits. |
| Recents.RecentIsLongest | sequence/recent.go:158-184 | The same for any ring whose cumulative delays fall towards the newest entry. |
| Recents.RingFalls | sequence/recent.go:264-280 | With non-negative delays the cumulative delays of any reachable ring fall that way. |
| Recents.FallingDescends | sequence/recent.go:158-184 | The order of the cumulative delays carries over from slots with holes to the live entries. |
| RecentStore.Recent.Push | sequence/recent.go:43-60 | The ring moves to the next window; cumulative delays of all live entries grow; the count of holes stays as exact as it was unless a hole at the oldest slot of a full ring is overwritten. |
| RecentStore.StaleHole | sequence/recent.go:43-60 | A push, its removal and another push leave a ring of one slot with a count of one hole and no hole. |
| RecentStore.Recent.RemoveFn | sequence/recent.go:109-129 | Exactly the entries that the caller names become holes. |
| RecentStore.Recent.TrimTail | sequence/recent.go:240-262 | Leading holes go, and nothing else. |
| RecentStore.Recent.IncCumulativeDelay | sequence/recent.go:264-280 | Adds the delay to every live entry, around the end of the array. |
| RecentStore.Recent.Len | sequence/recent.go:138-156 | The exact number of live entries, although holes is only an upper bound. |
| RecentStore.Recent.Recent | sequence/recent.go:158-184 | Walks back from the newest entry while both limits hold, skipping holes. |
| RecentStore.Recent.Iterate | sequence/recent.go:194-212 | Visits the live entries, oldest first. |
| ActionProtocol.ActionSafety | udpstar/server/service_client.go:151-194 | In every run delivered action numbers strictly increase, each payload is the one numbered so, and the output only grows. |
| ActionProtocol.NoGaps | udpstar/server/service_client.go:151-194 | In every run delivery has no gaps if and only if no pack arrives more than three seconds after the last delivery and begins, beyond lastSeq, with another number than the next. |
| ActionProtocol.ConfirmsBehindServer | udpstar/server/service_client.go:177-193 | Every confirm in flight acknowledges no more than the server has passed. |
| ActionProtocol.UnpassedIsKept | udpstar/client/service_action.go:110-117 | The client drops only what the server has passed: any other of its last 32 actions is still in the ring. |
| ActionProtocol.PacksAreIncreasing | udpstar/client/service_action.go:120-149 | Every pack in flight, resends included, strictly increases, so that the in-feed order check drops none of it. |
| ActionProtocol.StepOk | udpstar/client/service_action.go:67-163 | Every step keeps the invariant of the protocol. |
| ActionAcks.ConfirmAsks | udpstar/server/service_client.go:163-193 | A confirm names the last number passed and asks for all that is missing when that is at most 32 ranges; otherwise for 32 ranges, and what it leaves out lies below all that it asks for. |
| ActionAcks.AcknowledgedExact | udpstar/client/service_action.go:126-128 | A confirm takes exactly the acknowledged actions out of the ring. |
| ActionAcks.ConfirmedLeaves | udpstar/client/service_action.go:120-149 | In every run: after a confirm the client keeps exactly what it kept before and is not acknowledged. |
| ActionAcks.IdleIff | udpstar/client/service_action.go:110-117 | After a confirm it keeps nothing exactly when it kept nothing or its newest action is acknowledged. |
| ActionAcks.AskedIsSent | udpstar/client/service_action.go:130-149 | Every kept action that a confirm asks for goes out in a pack. |
| ActionAcks.LostIsSentAgain | udpstar/client/service_action.go:120-149 | In every run: an action that the server asked for is sent again when the client takes that confirm, if it is among its last 32 and the server has not passed it. |
| ActionAcks.RecentActions | udpstar/client/service_action.go:72-108 | What is sent without being asked for: the last live actions of at most 384 bytes and three seconds, and no fewer. |
| ActionServices.ActionSender.Act | udpstar/client/service_action.go:72-84 | A new action is numbered, goes into the ring with the time since the one before, and the recent ones are sent. |
| ActionServices.ActionSender.Resend | udpstar/client/service_action.go:86-108 | The timer sends the recent actions and always waits for the idle delay next, since the unanswered counter stays 0. |
| ActionServices.ActionSender.Confirmed | udpstar/client/service_action.go:110-149 | Drops what is acknowledged and returns the kept actions of the missing ranges. |
| ActionServices.ActionReceiver.HandleActionPack | udpstar/server/service_client.go:151-194 | The server's step on a pack is the protocol's: deliver, keep the missing set, answer with the last 32 missing ranges. |
| LobbyLaws.LobbyInvariant | udpstar/server/service_lobby.go:84-149 | In every reachable state: Active exactly when a slot is available, no actor sits twice, no client holds more slots than it is counted for. |
| LobbyLaws.CountsAreExact | udpstar/server/service_lobby.go:255-295 | In every run counts equal seats throughout if and only if no local command takes a seat that is a client's. |
| LobbyLaws.ExactIffNoSeatTaken | udpstar/server/service_lobby.go:255-295 | A turn keeps exact counts exact if and only if it is not a local join or leave that takes a client's seat. |
| LobbyLaws.FairCountsAreExact | udpstar/server/service_lobby.go:255-295 | Counts equal seats as long as local commands name no actor with a remote seat. |
| LobbyLaws.TakenSeatIsStillCounted | udpstar/server/service_lobby.go:255-283 | A client whose only actor joins locally holds no slot, is counted for one, and survives the timer. |
| LobbyLaws.SilentClientIsForgotten | udpstar/server/service_lobby.go:104-111 | A client without a slot that was silent for a minute is forgotten if and only if its count is exact. |
| LobbyLaws.PurgeKeepsSeated | udpstar/server/service_lobby.go:104-111 | The timer never forgets a client that holds a slot. |
| LobbyLaws.ApplyExcess | udpstar/server/service_lobby.go:255-417 | No turn of the loop lets a count fall behind the seats: the excess grows by one for the client whose seat a local command takes, and stays or becomes 0 otherwise. |
| LobbyLaws.ProcessSeated | udpstar/server/service_lobby.go:255-417 | Every command keeps the state in line with the slots and every actor in one seat. |
| LobbyLaws.FalseChangesNothing | udpstar/server/service_lobby.go:136-143 | A command that reports no change leaves name, slots, state and version. |
| LobbyLaws.StoriesStay | udpstar/server/service_lobby.go:508-531 | No command changes the story of a slot or the number of slots. |
| LobbyLaws.RemoteJoinSeats | udpstar/server/service_lobby.go:297-348 | A remote join succeeds exactly when the slot is available or the actor's own; then the actor sits there only, under its client, which is known with the new contact. |
| LobbyLaws.RemoteJoinSpares | udpstar/server/service_lobby.go:297-348 | A join of a client's own actor touches no seat of another actor. |
| LobbyLaws.LocalJoinSeats | udpstar/server/service_lobby.go:255-283 | A local join succeeds exactly for a slot index below the number of slots cut to a byte, a local index of at most 3, and a slot that is available or the actor's own; then the actor sits there only. |
| LobbyLaws.LeavingUnseats | udpstar/server/service_lobby.go:285-407 | After a leave or an eviction the actor, or all of the client, has no seat. |
| LobbyEffects.NewLobbyIs | udpstar/server/service_lobby.go:38-72 | A new lobby has a blank slot for every story in their order, is Active, and knows no clients. |
| LobbyEffects.LeaveLocalDoes | udpstar/server/service_lobby.go:285-295 | A local leave makes the actor's slot as in a new lobby and touches nothing else but the state. |
| LobbyEffects.EvictDoes | udpstar/server/service_lobby.go:394-407 | The eviction of an actor does too, and lowers the count of the client of a remote seat, whose contact stays. |
| LobbyEffects.EvictClientDoes | udpstar/server/service_lobby.go:380-392 | The eviction of a client blanks all its slots and forgets it; other clients stay as they are. |
| LobbyEffects.RemoteLeaveAllDoes | udpstar/server/service_lobby.go:350-378 | A client that leaves has all its slots blanked and stays known with a count of 0 and its new contact. |
| LobbyEffects.RemoteLeaveDoes | udpstar/server/service_lobby.go:350-378 | An actor that leaves has its slot blanked when it is the client's, whose count falls by one and whose contact is the new one. |
| LobbyEffects.JoinsSucceed | udpstar/server/service_lobby.go:255-348 | When joins succeed, for any tokens; a join that does not changes nothing. |
| LobbyEffects.JoinLocalDoes | udpstar/server/service_lobby.go:255-283 | What a local join writes into its slot, and that besides it blanks just the seat that the actor had. |
| LobbyEffects.JoinRemoteDoes | udpstar/server/service_lobby.go:297-348 | What a remote join writes into its slot, and that besides it blanks just the seat that the actor had and, when that was another client's, all seats of that client. |
| LobbyEffects.JoinRemoteCounts | udpstar/server/service_lobby.go:297-348 | The client is known with the new contact and one more seat, unless the actor had one under it; an evicted client is forgotten; others stay as they are. |
| LobbyEffects.RemoteJoinClearsLocals | udpstar/server/service_lobby.go:325-339 | A local actor that joins from a client makes another local actor lose its seat. |
| LobbyEffects.RequestDoes | udpstar/server/service_lobby.go:227-232 | A request refreshes the contact of the client and nothing else. |
| LobbyEffects.ChangeNameDoes | udpstar/server/service_lobby.go:711-717 | Changes the name and tells whether it is another one. |
| LobbyEffects.FinishDoes | udpstar/server/service_lobby.go:733-771 | A finish request goes from Ready through the three starting states to Starting, or is refused. |
| LobbyEffects.TurnDoes | udpstar/server/service_lobby.go:136-143 | A turn raises the version by one exactly when the command changed something. |
| LobbyServices.LobbyService.Turn | udpstar/server/service_lobby.go:136-147 | One turn of the loop on the fields is the turn on values; the version grows exactly when something changed; the reply is the lobby, the refusal or the setup message that the command asks for. |
| LobbyServices.LobbyService.Tick | udpstar/server/service_lobby.go:90-134 | The timer drops exactly the clients whose count is not positive and that were silent for more than a minute, and tells every other one the lobby with only its own actors. |
| LobbyEffects.TimerDoes | udpstar/server/service_lobby.go:104-111 | A client survives the timer exactly when it is counted or was heard of within a minute; it then stays as it is, and exactly those clients are told the lobby. |
| LobbyEffects.ViewsShow | udpstar/server/service_lobby.go:419-446 | Every view shows name, state, and of each slot the story, availability, name and the latency of its client, 0 when unknown; the actor in full, only the client's own, or none. |
| LobbyEffects.ActiveIffAvailable | udpstar/server/service_lobby.go:409-446 | A view says Active exactly when it shows an available slot. |
| LobbyEffects.JoinsWhatItSees | udpstar/server/service_lobby.go:297-348 | A client can join a slot exactly when what it is told shows the slot as available, or it is the actor's own. |
| LobbyEffects.RepliesAre | udpstar/server/service_lobby.go:632-771 | A Get is answered unless the version is known, a finish request with what the lobby has or a refusal, a request with the lobby after it. |
| LobbyLaws.ClientSeesOnlyItsActors | udpstar/server/service_lobby.go:227-253 | What a client is told shows all its own actors and does not depend on anybody else's. |
| LobbyLaws.BroadcastIsWhatARequestTells | udpstar/server/service_lobby.go:101-134 | The timer tells every client that it keeps just what the client would be told on request, although it decides by the count. |
| LobbyServices.LobbyService.JoinRemote | udpstar/server/service_lobby.go:297-348 | The join on the fields, with the eviction of another client, is the join on values. |
| LobbyServices.LobbyService.EvictActor | udpstar/server/service_lobby.go:394-407 | Clears the actor's slot and lowers the count of its client when it was remote. |
| LobbyServices.LobbyService.FinishRequest | udpstar/server/service_lobby.go:733-771 | Refused when a slot is available or the version moved; otherwise one step of the countdown. |
| FinishLobby.FinishIsAtomic | udpstar/server/server.go:335-379 | A call that returns a session saw no change: name and slots stay those of its Get, the state counts down from Ready, no other turn raises the version. |
| FinishLobby.SameVersionSameRequests | udpstar/server/service_lobby.go:733-739 | Two successful calls that read the same version would have to be the same requests: they cannot both succeed. |
| FinishLobby.CallsAreSerial | udpstar/server/server.go:335-379 | Successful calls never overlap: one is over before the other reads the lobby. |
| FinishLobby.VersionsClimb | udpstar/server/service_lobby.go:136-143 | Versions never fall, and an unchanged version means unchanged name, slots and state. |
| FinishLobby.RequestsSucceed | udpstar/server/server.go:346-374 | The four requests succeed exactly when no wait is cut short and no turn during a wait raises the version; then only state and version have moved. |
| FinishLobby.WhyItFails | udpstar/server/server.go:346-374 | A call fails at its first disturbed wait, with an unknown lobby when that was stopped, the error of the context when the call was given up, and a lobby not ready when the version had moved. |
| FinishLobby.FailedCallBlocksOthers | udpstar/server/server.go:335-379 | After a call that failed past its first request every call is refused until seats change, whatever else happens. |
| FinishLobby.CountdownEnds | udpstar/server/service_lobby.go:651-771 | A turn ends the countdown exactly when it changes seats. |
| FinishLobby.RenamedWhileFinishing | udpstar/server/server.go:346-374 | A lobby that is renamed between the first two requests is left in the first state of the countdown. |
| FinishLobby.Server.FinishLobby | udpstar/server/server.go:322-388 | Returns the session of the slots and the name that were read, or the error of the step that failed; the lobby is forgotten exactly on success. |
| Sessions.BuildOk | udpstar/server/service_lobby.go:533-599 | For any number of slots the loop yields one story per group of slots, the local actors in order, and every remote client once with all its actors, numbered within their story by a byte. |
| Sessions.LobbyToSession | udpstar/server/service_lobby.go:533-599 | The method's loop computes that session. |
| SessionContents.SlotIsTaken | udpstar/server/service_lobby.go:553-596 | Every local slot gives a local actor and every remote one an actor of its client, each with the token, name, config and story of the slot and its place in a byte. |
| SessionContents.LocalsInOrder | udpstar/server/service_lobby.go:553-564 | Local actors stand in the order of their slots. |
| SessionContents.RemotesInOrder | udpstar/server/service_lobby.go:565-596 | So do the actors of each client. |
| SessionContents.ClientsInOrder | udpstar/server/service_lobby.go:565-596 | Clients stand in the order of their first slots. |
| SessionContents.HeadIsKept | udpstar/server/service_lobby.go:533-538 | Token, name and definition are those that were given. |
| SessionValidity.Validate | udpstar/server/setup.go:76-204 | Accepts a session exactly when it is valid as stated over the whole session: tokens, configs, channels, known stories, places 0 to n without gaps or clashes. |
| SessionValidity.DefectsAreInvalid | udpstar/server/setup.go:76-166 | What a valid session rules out: missing or repeated tokens, missing channels and configs, unknown stories, more than 64 clients or stories. |
| SessionValidity.PlacesAreTaken | udpstar/server/setup.go:132-201 | No two actors share one of the first 64 places of a story, and the places taken are 0 to some number. |
| SessionValidity.DenseIsPrefix | udpstar/server/setup.go:186-201 | A mask equals 1<<count - 1 exactly when it has no gaps. |
| SessionValidity.ValidateActors | udpstar/server/setup.go:113-141 | One pass over the actors accepts exactly when tokens are unique and known and no place is taken twice; the masks are the places taken. |
| SessionFromLobby.SessionIsValid | udpstar/server/service_lobby.go:533-599 | A full lobby with distinct actors gives a session that is valid once channels are assigned, if and only if the slots of each story stand together, none has more than 256, and there are at most 64 stories and 1 to 64 clients. |
| SessionFromLobby.ClashBeyondByte | udpstar/server/service_lobby.go:533-599 | The 257th slot of a story is given the place of the first one, which is a clash. |
| SessionFromLobby.UniqueIsContiguous | udpstar/server/service_lobby.go:540-552 | When the session lists no story twice, the slots of each story stand together. |
| SessionFromLobby.ClientBuild | udpstar/client/client_lobby.go:230-263 | For any slots the client's loop lists each story once, in the order in which the stories are first met, and gives every slot the number of slots since, as a byte. |
| SessionFromLobby.ServerAndClientAgree | udpstar/client/client_lobby.go:230-263 | On a full lobby server and client have the same story order and, for every slot, the same story, index and name, if and only if the slots of each story stand together. |
| LobbyOutcome.LobbyGivesValidSession | udpstar/server/service_lobby.go:533-599 | From setup to session: in every run of a lobby whose slots were set up with a story each, every state that is not Active gives a valid session if and only if the slots of each story stand together and there are at most 64 stories and 1 to 64 clients. |
| LobbyOutcome.LocalLobbyIsRefused | udpstar/server/setup.go:81-83 | A lobby of one slot with a local actor is Ready, and its session is not valid. |
| LobbyOutcome.ScatteredStoryIsRefused | udpstar/server/setup.go:98-114 | A full lobby of the stories 1, 2, 1 is Ready, and its session is not valid. |
| LobbyOutcome.LargeLobbyStaysActive | udpstar/message/lobby/messages_client.go:18-24 | Slots beyond the range of a byte stay available, and a lobby that has one stays Active. |
| LobbyOutcome.FinishedSessionIsValid | udpstar/server/server.go:335-388 | The session that a successful call returns is that of the lobby it read first, still the same at the last request, and it is valid under the same condition on those slots. |
| LobbyOutcome.SmallLobbyIsReady | udpstar/server/setup.go:76-95 | Up to 64 slots of contiguous stories meet that condition if and only if some actor is remote. |
| LobbyOutcome.RunProper | udpstar/server/service_lobby.go:508-531 | In every reachable state taken slots have an actor, and remote ones a client and a config, when the commands did. |
| Wire.UnLEOfLE | udpstar/message/serializer.go:48-54 | A number that fits its width is read back from its bytes. |
| Wire.FieldExtends | udpstar/message/serializer.go:166-278 | Unless it runs out of bytes a read does not depend on what follows. |
| Wire.FieldBack | udpstar/message/serializer.go:166-319 | A field that the reader steps over was written just like that. |
| Wire.PartsExact | udpstar/message/serializer.go:226-289 | Fields in any layout come back, with the rest left over, exactly when no byte string has 255 bytes. |
| Wire.PrefixRefused | udpstar/message/serializer.go:166-375 | Fields in any layout, with byte strings of at most 254 bytes, cut short anywhere, are refused by an error, never by a panic. |
| Wire.FailedFields | udpstar/message/serializer.go:166-375 | The first error sticks: nothing is read after it. |
| MessageLaws.RoundTrip | udpstar/message/serializer.go:226-289 | For every message within the widths of the wire and any bytes after it: Get returns the message and those bytes if and only if no byte string in it has 255 bytes. |
| MessageBytes.EncodeIs | udpstar/message/serializer.go:27-146 | For every kind of message the bytes that Put appends, written out: prefix, category, type or command, fields, counted list, lowest byte first. |
| MessageBytes.OtherFrontIsInvalid | udpstar/message/serializer.go:148-164 | A buffer that begins otherwise is not that message. |
| MessageBytes.RangesAreChecked | udpstar/message/serializer.go:348-357 | The two ends of a range are read back when they are in order and not zero. |
| MessageLaws.LongStringIsLost | udpstar/message/serializer.go:235-238 | A TestServer message with a payload of 255 bytes does not come back. |
| MessageLaws.OnlyWhatWasPut | udpstar/message/serializer.go:321-375 | No other bytes are read as that message: Get undoes Put and nothing else. |
| MessageLaws.TruncatedIsRefused | udpstar/message/serializer.go:166-375 | Every strict prefix of a message whose strings have at most 254 bytes is refused by an error. |
| MessageLaws.LongNameHidesTheEnd | udpstar/message/serializer.go:226-278 | With a name of 255 bytes a Join cut off after the name is accepted, with the name as its config. |
| MessageLaws.DecodedIsEncodable | udpstar/message/serializer.go:321-375 | Whatever Get returns can be put again. |
| MessageLaws.SizeIsLength | udpstar/message/story/messages_client.go:63-109 | Size equals the number of bytes that Put appends, for every kind of message. |
| StoryWire.PackSizeIsLength | udpstar/message/story/messages_server.go:106-112 | The packer of retransmissions measures packs by the bytes they take on the wire. |
| StoryWire.PublishedPackIsPuttable | udpstar/server/service_session.go:163-184 | The pack of recent entries can be put into a message if and only if its payloads have at most 255 bytes and the last 256 entries of the log, if there are as many, exceed its size limit. |
| StoryWire.PublishedPackIsRecent | udpstar/server/service_session.go:163-184 | The pack published with a payload is an end of the log of at most 444 bytes of payload, and with one more entry it would be larger. |
| StoryWire.TooManyTinyEntries | udpstar/message/serializer.go:104-113 | 256 entries of one byte are all recent, and the pack of them cannot be put. |
| MessageLaws.LimitedMessagesFit | udpstar/message/story/values.go:9-15 | Story confirms of 60 ranges, and latency reports and setups within the documented limits, fit 508 bytes. |
| Serializers.Deserializer.GetBytes | udpstar/message/serializer.go:226-241 | Reads a byte string with the step over it computed in a byte, unless an error came before. |
| Serializers.Deserializer.GetRange | udpstar/message/serializer.go:348-357 | Reads both ends; a bad range makes the program panic. |
| Serializers.Deserializer.GetEntries | udpstar/message/serializer.go:330-346 | Reads a counted list of entries, none after an error. |
| Serializers.Serializer.PutEntries | udpstar/message/serializer.go:104-113 | Appends the count and every entry in order. |
| MessageServices.PutTestClient | udpstar/message/story/messages_client.go:33-41 | Appends the bytes of the message. |
| MessageServices.PutActionPack | udpstar/message/story/messages_client.go:73-82 | Appends the bytes of the message. |
| MessageServices.PutStoryConfirm | udpstar/message/story/messages_client.go:111-121 | Appends the bytes of the message. |
| MessageServices.PutTestServer | udpstar/message/story/messages_server.go:36-44 | Appends the bytes of the message. |
| MessageServices.PutActionConfirm | udpstar/message/story/messages_server.go:73-83 | Appends the bytes of the message. |
| MessageServices.PutStoryPack | udpstar/message/story/messages_server.go:116-125 | Appends the bytes of the message. |
| MessageServices.PutLatencyReport | udpstar/message/story/messages_server.go:163-176 | Appends the bytes of the message, the count cut to a byte. |
| MessageServices.PutJoin | udpstar/message/lobby/messages_client.go:38-49 | Appends the bytes of the message. |
| MessageServices.PutLeave | udpstar/message/lobby/messages_client.go:77-85 | Appends the bytes of the message. |
| MessageServices.PutRequest | udpstar/message/lobby/messages_client.go:109-116 | Appends the bytes of the message. |
| MessageServices.PutSetup | udpstar/message/lobby/messages_server.go:50-70 | Appends the bytes of the message, the count cut to a byte. |
| MessageReaders.GetTestClient | udpstar/message/story/messages_client.go:43-51 | Reads what the layout says, with the same errors. |
| MessageReaders.GetActionPack | udpstar/message/story/messages_client.go:84-93 | Reads what the layout says, with the same errors. |
| MessageReaders.GetStoryConfirm | udpstar/message/story/messages_client.go:123-133 | Reads what the layout says, with the same errors. |
| MessageReaders.GetTestServer | udpstar/message/story/messages_server.go:46-54 | Reads what the layout says, with the same errors. |
| MessageReaders.GetActionConfirm | udpstar/message/story/messages_server.go:85-95 | Reads what the layout says, with the same errors. |
| MessageReaders.GetStoryPack | udpstar/message/story/messages_server.go:127-136 | Reads what the layout says, with the same errors. |
| MessageReaders.GetLatencyReport | udpstar/message/story/messages_server.go:178-193 | Reads what the layout says, with the same errors. |
| MessageReaders.GetJoin | udpstar/message/lobby/messages_client.go:51-62 | Reads what the layout says, with the same errors. |
| MessageReaders.GetLeave | udpstar/message/lobby/messages_client.go:87-95 | Reads what the layout says, with the same errors. |
| MessageReaders.GetRequest | udpstar/message/lobby/messages_client.go:118-125 | Reads what the layout says, with the same errors. |
| MessageReaders.GetSetup | udpstar/message/lobby/messages_server.go:72-95 | Reads what the layout says, with the same errors. |
| MessageReaders.ParseRoundTrip | udpstar/message/story/parse.go:15-61 | The receiver finds the sender's message by its type or command byte. |
| MessageReaders.ParseSound | udpstar/message/lobby/parse.go:15-47 | Whatever is parsed belongs to the channel and, with short strings, was put there byte by byte. |
| StoryWire.RetransmissionSurvives | udpstar/server/service_session.go:195-223 | Every pack that answers a request, whatever is left of it, with payloads of at most 254 bytes, is parsed to just the entries written; as it was packed it fits a datagram. |
| StoryWire.OverwrittenIsTooLarge | udpstar/server/service_session.go:199-217 | An entry of one byte that is overwritten by one of 254 bytes makes a pack too large for a datagram. |

## Left out

- `udp/*`: sockets, multicast, timeouts and the lifecycle of goroutines are I/O.
- Channels, contexts, timers and goroutines: each handler call is one atomic step, and time and the ends of waits are parameters. Concurrent calls of HandleActionPack, which writes to its channel after unlocking, are not covered.
- Logging, String methods, random tokens and option setters.
- Ping and its codec, latency averaging and the delay ring behind Quality, client and session quality states: reporting only.
- LobbyListener: small, and it skips updates once something has changed, so that no agreement holds (udpstar/client/client_lobby_listener.go:133).
- The maps of Server outside FinishLobby, and the late removal of a finished lobby by its own goroutine.
- LobbySetup.Validate: three direct checks; what they promise is assumed where a lobby's setup matters.
- Recent.Pop, Recent.LastSeq, Recent.Remove and Recent.Clear: the action service does not use them, and the first two may meet a hole.
- RangeSet.AddAll, RemoveAll, SubtractAll and the iterators: plain loops over modelled operations.
- Hostile input: bad ranges in a request and zero tokens of clients and actors are excluded by preconditions where they matter. The reader of ranges models the panic as an error.
- LobbyLaws.RemoteJoinSpares: for an actor that has no seat under another client, since that whole client is evicted otherwise.
- The channels of a session, which appear only as assigned or not.
- The moment at which a pack is read from its array: every state that the array may be in by then is covered, also one that is read while it changes.
- What becomes of a pack that is too large for a datagram.
- Map iteration order: the timer and the mask check visit clients and stories in an arbitrary order.
- StoryPacks.PackBounds: bounds the packs of retransmissions only. The ordinary story pack is cut by payload bytes alone: it may exceed a datagram, and StoryWire.PublishedPackIsPuttable says when it can be put at all.
- Histories.TrimmedIsLongestFit: assumes limits fixed at creation and non-negative delays, as the setters for recent entries change other limits; so does Histories.RunKeepsLongestFit.
- Confluence.ArrivalOrderIrrelevant: delays are left aside, since they record arrival times.
- Recents.RecentIsLongestFit: for non-negative delays; a clock that runs backwards is left aside.
- LobbyLaws.RemoteJoinSeats: for nonzero actor and client tokens.
- StoryRecovery.Recovery: assumes that the confirms and all packs that answer them do arrive; StoryRetries.RetriesEnd bounds the rounds in which one pack does, and that rounds take place is not modelled as a liveness property.
- Sequence numbers above 2^32: unbounded outside the wire modules; the wire modules cut them as the serializer does, and round trips are stated for those that fit.
- RecentStore.Recent.Push: entries are numbered from one, as the enumerator numbers them; the program would store an entry numbered zero as an empty slot that is not counted.
- LobbyServices.LobbyService.Turn: the messages are values handed to the sender; the broadcast to the whole network, which is the setup message without actors, and the restarts of its timer are left out.
