# Proofs about the capture relay and the launcher

This project models the parts of the engine that keep state by themselves, and proves what they
promise. `dafny verify dfyconfig.toml` checks all of it.

**The capture relay** forwards UDP datagrams between a game client and a server, perturbs some of
them on purpose, and keeps a journal of what it saw and sent. It holds at most one datagram in each
direction. `RelayTypes` to `RelayMachine` specify it as a state machine over a turn's inputs: stop
and transition signals, datagrams from either side, the result of every send and of every write,
and the answers of the reconnect transition object, all arbitrary. The invariants are built up in
`RelayLedger` (journal, counters, wire and slots agree), `RelaySettled` (the accounting identity),
`RelayTallies` (the counts of perturbations), `RelayOrder` (what the wire carries in each direction),
`RelayGenerations` (the reconnect records), `RelayHolds`, `RelayBudget` and `RelayFinal`. `RelayRuns`
draws the conclusions for the core alone, under any actions; `RelayInvariant` and `RelaySafety` prove that every
turn keeps them, and `RelayVerdict` and `RelayPublication` draw the conclusions for whole runs. `RelayTurns`
says where a datagram that arrives goes, `RelayScenarios` what the peers of a complete capture have received,
`RelayCompletion` when a capture is complete; none of the three is stated in terms of the machine's own steps.
`RelayExamples` gives a complete run for each scenario.
`RelayLoop` is the relay as the program has it, a class whose fields are updated in place, proved
equal to the state machine step by step. `JournalRules` states the rules a journal must meet before
it is published, and `JournalValidator` is the validator with its loops, proved to decide exactly
those rules; `RawFiles` treats the file name and the digest that an entry carries.

**The launcher.** `Vdf`, `VdfGrammar` and `VdfParser` treat the parser of Steam's metadata: the
accepted language, the recursive descent as a function of the text ahead, and the parser with its
cursor. `ArgumentQuoting`, `Endpoint`, `Decimal` and `LaunchPlan` treat the command line of the
original game. `StartupLog` and `ClientOutput` treat the bounded startup journal and the filter of
the client's output; `Crc32`, `Zip` and `ZipWriter` the archive that exports them. `GpuPreference`
and `GpuRewriter` treat the value that records a graphics preference, and `SmoothScroll` the scroll
animation.

**Bit packing.** `BitPacking` holds the two packers of the entity tools, and `ResourceList` the
message that one of them is used for.

Each imperative method is proved against a specification function; the theorems are about those
functions. A byte string is a `string` whose characters stand for bytes or UTF-16 code units; where
the program computes with bytes it is a sequence of `bv8` or of numbers below 256.

## Findings

Some properties one would expect do not hold of the code. Each is replaced by what does hold, with the
exact condition where there is one.

- The journal a relay leaves is not always accepted by its own validator. An incomplete capture with
  an admitted auxiliary query is refused, because the policy for incomplete captures knows no
  auxiliary entries; so are a hold whose release sent only the first of its two datagrams, a delayed
  datagram whose deadline release could not be sent while later datagrams exist, one released at the
  deadline after a datagram from a wrong source, and an empty journal.
  `RelayPublication.PublicationExact` gives the condition; `RelayWitnesses` gives the runs.
- The validator's byte check subtracts before it compares. A payload above the whole byte limit makes
  the subtraction wrap, and passes (`JournalRules.OversizedPayloadPasses`). The limit of the whole
  journal is enforced if and only if no single payload may exceed it (`JournalRules.ByteLimitExact`),
  which the relay's own validation of its options guarantees.
- A full GPU preference value of 64 foreign tokens is rewritten to 65 tokens, which the parser refuses
  (`GpuPreference.FullValueOverflows`); this is the only exception.
- The text kept of the client's output can exceed the artifact limit by one byte and the trailer, and
  is then not written at all: the reserve of 2048 bytes does not cover a line of 2048 characters, its
  line end and the trailer (`ClientOutput.CaptureCanOverflow`). Inputs of at most N characters with kept lines up
  to length L (at least 6, the shortest a kept line can be) are all written if and only if N is below a
  number given for each L
  (`ClientOutput.WrittenExactly`): kept lines of up to 1968 characters for the default process log of
  1 MiB, of up to 1967 for the largest of 16 MiB (`ClientOutput.CaptureThresholds`, with the sizes of
  include/hlclient/platform/windows/process_orchestrator.hpp:20 and
  src/platform/windows/process_orchestrator.cpp:223), and any lines below 114823 characters of input
  (`ClientOutput.ShortCapturesAreWritten`).
- The refusal of an overlong command line is unreachable (`LaunchPlan.LineIsNeverTooLong`).
- The overflow refusals of the emission counters are unreachable for every configuration that the relay accepts
  (`RelayTurns.NeverOverflows`).

## Model

| member | source | states |
|---|---|---|
| `RelayVerdict.SelfCheckAlwaysHolds` | apps/hlclient_stock_runtime_capture/main.cpp:2258-2311 | after every run that was not stopped by a terminal failure, the final counter self-check holds, every hold has been sent, and in both directions the wire carries exactly the schedule that the recorded actions call for |
| `RelayVerdict.EveryExitIsSound` | apps/hlclient_stock_runtime_capture/main.cpp:1573-2348 | at every exit, failed sends included: entry i has ordinal i, direction ordinals count 1, 2, 3..., the counts of observed datagrams, of each direction, of payload bytes, of wrong sources and of auxiliary queries are those of the journal, the emission counters count the datagrams and the bytes on the wire, and each emission ordinal names one emission of exactly that entry with its own payload and direction |
| `RelayVerdict.EveryExitIsFinal` | apps/hlclient_stock_runtime_capture/main.cpp:1573-2302 | at every exit the journal is one that the actions can have produced: emission counts, hold states and the release of each hold by the next forwarded datagram of its direction or by the deadline; and the tallies are exact: as many drops, twice-sent duplicates and holds as counted, their sum the perturbations, and a completed reorder if and only if one was released |
| `RelayVerdict.DelayedPeerOrder` | apps/hlclient_stock_runtime_capture/main.cpp:1199-1224 | after a whole run under a scenario's policy (which holds at most one datagram of a direction), a direction with only forwards and delays has emitted the observed payloads, unaltered and in the observed order |
| `RelayVerdict.ReorderedPeerOrder` | apps/hlclient_stock_runtime_capture/main.cpp:1199-1224 | under such a policy, a direction with only forwards and reorders has emitted the observed payloads with each reorder and its successor exchanged |
| `RelayRuns.WholeRunDrains` | apps/hlclient_stock_runtime_capture/main.cpp:1156-1263 | for any list of datagrams with any actions, destinations and send results: when every step and the flush succeed, the relay's self-check holds, ledger and tallies are exact, nothing is owed, and both directions carry their schedule |
| `RelayRuns.WholeRunDelivers` | apps/hlclient_stock_runtime_capture/main.cpp:1156-1263 | the bytes on the wire of each direction are those of the observed datagrams in the order of the schedule of the given actions |
| `RelayRuns.DelaysKeepRunOrder` | apps/hlclient_stock_runtime_capture/main.cpp:1199-1224 | with any number of delays among forwards, the peer receives the observed datagrams in the observed order |
| `RelayRuns.ReordersSwapRunNeighbours` | apps/hlclient_stock_runtime_capture/main.cpp:1199-1224 | with any number of reorders among forwards, each reordered datagram changes places with its successor, and these exchanges never overlap |
| `RelayRuns.WholeRunSucceedsExactly` | apps/hlclient_stock_runtime_capture/main.cpp:1185-1263 | when all sends succeed and no counter can overflow, a run with its flush succeeds if and only if no second datagram of a direction is to be held while one waits |
| `RelayRuns.CoreRunKeeps` | apps/hlclient_stock_runtime_capture/main.cpp:1156-1263 | after any steps, the last one failed or not, ledger and tallies are exact; while none has failed, the balance and the order hold as well |
| `RelayVerdict.GenerationsAreSeparate` | apps/hlclient_stock_runtime_capture/main.cpp:1787-2240 | once generation B is learnt its endpoint differs from the retired one, no datagram of A follows one of B, and the server's datagrams reach B's endpoint exactly when they are attributed to B - whatever the transition object answers |
| `RelayVerdict.GenerationRecordsAreFaithful` | apps/hlclient_stock_runtime_capture/main.cpp:1337-1383 | each generation record holds the first and last ordinal, the numbers of client, server and connectionless datagrams, and the handshake of exactly the datagrams attributed to it; an accept follows a connect, the first sequenced ordinal follows the accept, and A's last ordinal is below B's first |
| `RelayPublication.CompleteMeansDelivered` | apps/hlclient_stock_runtime_capture/main.cpp:2304-2348 | a complete verdict means that nothing is held or unresolved, every datagram was sent as often as the action it was recorded with says (which action the scenario asks of which datagram is RelayScenarios.PeersReceive), every wrong source was an admitted auxiliary query of a functional capture, exactly as many datagrams were perturbed as the scenario asks for, and in the reorder scenario one was reordered |
| `RelayPublication.PublicationExact` | apps/hlclient_stock_runtime_capture/main.cpp:831-864 | the journal a run leaves behind passes its own validation if and only if it is not empty, holds no auxiliary entry outside a complete functional capture, no half-released hold, and no released hold whose successor came from a wrong source; a complete verdict always leaves a complete transport |
| `RelayPublication.IncompleteExact` | src/goldsrc/stock_runtime_transport_journal.cpp:621-941 | the same if-and-only-if for every state that satisfies the run's invariants, under the incomplete policy |
| `RelayPublication.CompleteExact` | src/goldsrc/stock_runtime_transport_journal.cpp:621-941 | the same for the two complete policies, with the completeness flag |
| `RelayPublication.CampaignCompleteIsPublished` | apps/hlclient_stock_runtime_capture/main.cpp:831-864 | a complete capture outside functional mode always passes the strict validation |
| `RelayScenarios.PeersReceive` | src/goldsrc/stock_runtime_capture.cpp:514-551 | in a complete capture each peer has received, byte for byte and in order, the accepted datagrams of the other side with exactly the scenario's change at the configured ordinal: that one missing, it and the next missing, that one twice in a row, that one right behind its successor, or (a delay, or no perturbation) no change at all; the direction that a scenario does not perturb is unchanged |
| `RelayCompletion.VerdictExact` | apps/hlclient_stock_runtime_capture/main.cpp:2304-2348 | the verdict is complete if and only if no limit was reached, no wrong source seen but admitted queries, a functional capture was asked to stop, both sides were heard, exactly as many datagrams were perturbed as the scenario asks for, in the reorder scenario a reorder was carried out and none is unresolved, and in the reconnect scenario both generations show a whole handshake and the transition object agrees |
| `RelayCompletion.GenerationCompleteExactly` | apps/hlclient_stock_runtime_capture/main.cpp:1373-1383 | a generation's record is complete exactly when among its datagrams there is a connect, after it an accept, and after that a sequenced datagram of the server |
| `RelayExamples.EveryScenarioCompletes` | apps/hlclient_stock_runtime_capture/main.cpp:1757-2348 | for every scenario but the reconnect, any three datagrams and the deadline make a complete capture when the first datagram of each direction is the one to perturb |
| `RelayExamples.ReconnectCompletes` | apps/hlclient_stock_runtime_capture/main.cpp:1757-2348 | a handshake of A, both signals, a quiet window, a handshake of B over B's route and the deadline make a complete capture of a reconnect, whatever the game data |
| `RelayPublication.OrdinalsAccepted` | src/goldsrc/stock_runtime_transport_journal.cpp:873-889 | the emission ordinals of any sound journal partition 0..emitted-1 |
| `RelayPublication.LabelsAreAccepted` | apps/hlclient_stock_runtime_capture/main.cpp:747-806 | at every exit the validator accepts the raw file name and the spelling of the digest of every entry as the relay writes them, and no two entries share a file |
| `JournalRules.ByteLimitExact` | src/goldsrc/stock_runtime_transport_journal.cpp:623-683 | the validator enforces the byte limit of the whole journal if and only if no single payload may exceed it |
| `JournalRules.OversizedPayloadPasses` | src/goldsrc/stock_runtime_transport_journal.cpp:677-683 | otherwise a payload above the limit of the whole journal is accepted by itself: the subtraction wraps |
| `RelayWitnesses.AuxiliaryBlocksIncomplete` | apps/hlclient_stock_runtime_capture/main.cpp:831-864 | a concrete run whose journal the validator refuses: an incomplete capture with an admitted auxiliary query |
| `RelayWitnesses.ForeignSuccessorBlocks` | src/goldsrc/stock_runtime_transport_journal.cpp:904-928 | another: a delayed datagram followed by one from a wrong source and released at the deadline |
| `RelayWitnesses.HalfReleaseBlocks` | apps/hlclient_stock_runtime_capture/main.cpp:1199-1224 | another: a release of which only the first send succeeded |
| `RelayWitnesses.UnsentReleaseBlocks` | apps/hlclient_stock_runtime_capture/main.cpp:2258-2278 | another: a delayed datagram whose deadline release could not be sent, with a later datagram of the other direction |
| `RelayWitnesses.EmptyJournalBlocks` | src/goldsrc/stock_runtime_transport_journal.cpp:640-644 | another: a capture that observed nothing |
| `RelaySafety.RunKeeps` | apps/hlclient_stock_runtime_capture/main.cpp:1757-2243 | any sequence of turns keeps the invariant of the whole state machine; between turns an entry is held exactly while a slot refers to it |
| `RelaySafety.IterateKeeps` | apps/hlclient_stock_runtime_capture/main.cpp:1757-2243 | one turn of the loop, with any signals, datagrams, send results and failures, keeps the invariant |
| `RelaySafety.RunAdvances` | apps/hlclient_stock_runtime_capture/main.cpp:1757-2243 | along any run the current generation never decreases, a retired endpoint stays retired, the transition steps are not undone, and once B is learnt its endpoint stays |
| `RelayTurns.ServerDatagram` | apps/hlclient_stock_runtime_capture/main.cpp:2058-2190 | what a turn makes of a datagram of the server: before A's retirement is prepared it goes to the client, counted for A in a reconnect run; then to the retired endpoint, counted for A until the shutdown is confirmed and not counted after that; over route B, once B may be learnt, to B's endpoint and counted for B; a rejected route, or route B without B, adds nothing and ends the run; any other source is recorded unsent and ends the capture. What is recorded is the newest entry; what leaves is the datagram once, twice, not at all, or with the one that waited, as the scenario asks of this ordinal |
| `RelayTurns.ClientDatagram` | apps/hlclient_stock_runtime_capture/main.cpp:1882-2033 | the same for a datagram of the client: who may be learnt and when, for which generation it is counted, that it goes to the server, and when it is a tolerated query or ends the capture |
| `RelayTurns.RecordableExactly` | apps/hlclient_stock_runtime_capture/main.cpp:1573-1591 | a datagram is recorded if and only if it could be stored and the journal has room for it: its size, the number of datagrams, of its direction, and the sum of the bytes |
| `RelayTurns.NeverOverflows` | apps/hlclient_stock_runtime_capture/main.cpp:1156-1183 | within the limits that the relay accepts, no counter of emissions can overflow |
| `RelayTurns.SignalTurn` | apps/hlclient_stock_runtime_capture/main.cpp:1774-1868 | a transition signal needs A to be known, its handshake seen and nothing held; the first prepares its retirement, the second confirms its shutdown, a third ends the run; journal and wire stay |
| `RelayTurns.QuietTurn` | apps/hlclient_stock_runtime_capture/main.cpp:2197-2240 | a turn in which nothing arrives changes nothing, except that after the confirmed shutdown and the quiet window the client is forgotten so that B can be learnt |
| `RelayTurns.FlushSends` | apps/hlclient_stock_runtime_capture/main.cpp:2250-2302 | after the loop the client's waiting datagram goes to the server, then the server's to the client, nothing else is sent, and the run fails exactly when one of these sends does; a datagram that could not be stored ends it before |
| `RelayTallies.TakeKeepsTallies` | apps/hlclient_stock_runtime_capture/main.cpp:1156-1263 | every step, also one that fails half way, keeps the counters of drops, duplicates, delays and perturbations equal to the numbers of such entries |
| `RelayTallies.CountsAreSizes` | apps/hlclient_stock_runtime_capture/main.cpp:1185-1263 | the counts are the numbers of journal positions with a drop, a twice-sent duplicate, a hold |
| `RelayTallies.FlushKeepsTallies` | apps/hlclient_stock_runtime_capture/main.cpp:2258-2302 | the deadline flush moves none of them |
| `RelayLedger.TakeKeepsLedger` | apps/hlclient_stock_runtime_capture/main.cpp:1156-1263 | recording and processing one datagram, with any send result, keeps the journal, the counters, the wire and the slots in agreement |
| `RelaySettled.ProcessSettles` | apps/hlclient_stock_runtime_capture/main.cpp:1185-1263 | processing an accepted datagram balances emitted + dropped + auxiliary + held = observed + duplicated again |
| `RelaySettled.FlushClient` | apps/hlclient_stock_runtime_capture/main.cpp:2258-2278 | flushing the client slot settles its entry and keeps the balance |
| `RelaySettled.FlushServer` | apps/hlclient_stock_runtime_capture/main.cpp:2279-2302 | the same for the server slot |
| `RelayOrder.AppendDelivered` | apps/hlclient_stock_runtime_capture/main.cpp:1199-1263 | what one more datagram adds to the schedule of its direction: itself, itself twice, nothing, or the pair that a release sends |
| `RelayOrder.FlushDelivered` | apps/hlclient_stock_runtime_capture/main.cpp:2258-2302 | the flush completes the schedule with the open hold, and with nothing else |
| `RelayOrder.DelaysKeepOrder` | apps/hlclient_stock_runtime_capture/main.cpp:1199-1224 | the schedule of forwards and delays is the observed order |
| `RelayOrder.ReordersSwapNeighbours` | apps/hlclient_stock_runtime_capture/main.cpp:1199-1224 | the schedule of forwards and reorders swaps each hold with its successor and moves nothing else |
| `RelayOrder.TakeKeepsOrder` | apps/hlclient_stock_runtime_capture/main.cpp:1185-1263 | processing keeps the wire of each direction equal to its schedule |
| `RelayOrder.FlushKeepsOrder` | apps/hlclient_stock_runtime_capture/main.cpp:2258-2302 | flushing one direction completes its wire and leaves the other direction alone |
| `RelayGenerations.SummaryRange` | apps/hlclient_stock_runtime_capture/main.cpp:1337-1371 | a generation record built datagram by datagram has the first and last attributed ordinals |
| `RelayGenerations.SummaryCounts` | apps/hlclient_stock_runtime_capture/main.cpp:1337-1371 | its counts are the numbers of attributed client, server and connectionless datagrams |
| `RelayGenerations.SummaryHandshake` | apps/hlclient_stock_runtime_capture/main.cpp:1337-1371 | its connect, accept and first sequenced ordinal are those of the first handshake in order |
| `RelayLoop.CaptureRelay.constructor` | apps/hlclient_stock_runtime_capture/main.cpp:1529-1572 | the relay starts with an empty journal, no endpoint and empty slots |
| `RelayLoop.CaptureRelay.EmitAndRecord` | apps/hlclient_stock_runtime_capture/main.cpp:1156-1183 | one send: on success journal, counters and wire gain exactly this emission; on failure the pushed ordinal is taken back and nothing changed |
| `RelayLoop.CaptureRelay.ProcessDatagram` | apps/hlclient_stock_runtime_capture/main.cpp:1185-1263 | the new state and the result for every action, with or without a held datagram |
| `RelayLoop.CaptureRelay.ReleaseWith` | apps/hlclient_stock_runtime_capture/main.cpp:1199-1224 | a release sends the held datagram before the new one for a delay and after it for a reorder, and frees the slot only when both were sent |
| `RelayLoop.CaptureRelay.Append` | apps/hlclient_stock_runtime_capture/main.cpp:1592-1616 | the entry, the counters and the action that one observation adds |
| `RelayLoop.CaptureRelay.TryObserve` | apps/hlclient_stock_runtime_capture/main.cpp:1573-1633 | a datagram over budget or not stored changes neither journal nor counters |
| `RelayLoop.CaptureRelay.Observe` | apps/hlclient_stock_runtime_capture/main.cpp:1573-1591 | the timestamp is capped before recording |
| `RelayLoop.CaptureRelay.ObserveTransport` | apps/hlclient_stock_runtime_capture/main.cpp:1337-1371 | the update of the current generation's record |
| `RelayLoop.CaptureRelay.HandleSignal` | apps/hlclient_stock_runtime_capture/main.cpp:1774-1868 | the two transition signals: prepare the retirement of A, then confirm its shutdown, and every refusal |
| `RelayLoop.CaptureRelay.PrepareForRetirement` | apps/hlclient_stock_runtime_capture/main.cpp:1790-1840 | what preparing changes when each of its parts succeeds or fails |
| `RelayLoop.CaptureRelay.HandleClient` | apps/hlclient_stock_runtime_capture/main.cpp:1882-2033 | the client half of a turn: who may be learnt, who is foreign, and what is forwarded |
| `RelayLoop.CaptureRelay.HandleForeignClient` | apps/hlclient_stock_runtime_capture/main.cpp:1915-1941 | a foreign datagram is recorded and ends the capture unless it is an admitted auxiliary query |
| `RelayLoop.CaptureRelay.HandleServer` | apps/hlclient_stock_runtime_capture/main.cpp:2058-2190 | the server half of a turn, before and during a reconnect |
| `RelayLoop.CaptureRelay.HandlePreparedServer` | apps/hlclient_stock_runtime_capture/main.cpp:2084-2152 | computes the specified state of a server datagram while A is retiring; where that sends it is RelayTurns.ServerDatagram |
| `RelayLoop.CaptureRelay.HandleQuiet` | apps/hlclient_stock_runtime_capture/main.cpp:2197-2240 | after the quiet window the client endpoint is forgotten so that B can be learnt |
| `RelayLoop.CaptureRelay.Turn` | apps/hlclient_stock_runtime_capture/main.cpp:1757-2243 | one turn of the loop in the order of the source |
| `RelayLoop.CaptureRelay.Loop` | apps/hlclient_stock_runtime_capture/main.cpp:1757-2243 | the loop over any sequence of turns equals the run of the state machine |
| `RelayLoop.CaptureRelay.FlushHeld` | apps/hlclient_stock_runtime_capture/main.cpp:2250-2302 | the flush of both slots, and its failures |
| `RelayLoop.CaptureRelay.Verdict` | apps/hlclient_stock_runtime_capture/main.cpp:2304-2348 | the verdict is complete exactly when the specification's conditions hold |
| `JournalValidator.Validate` | src/goldsrc/stock_runtime_transport_journal.cpp:621-941 | the validator accepts exactly the journals that meet the declarative rules and whose file names and digests are spelled as they must be, and then its completeness flag says exactly whether every entry is one of a complete transport |
| `JournalValidator.CheckEntries` | src/goldsrc/stock_runtime_transport_journal.cpp:663-874 | the pass over the entries: it fails only for journals that no reading of the rules admits, and otherwise leaves every ordinal with its one owner |
| `JournalValidator.CheckOrigin` | src/goldsrc/stock_runtime_transport_journal.cpp:664-758 | the checks of one entry's ordinals, time, bytes, file name, roles, digest spelling and source from running counts, the wrapped subtraction of the byte check included |
| `JournalValidator.CheckEmissions` | src/goldsrc/stock_runtime_transport_journal.cpp:759-861 | the checks of one entry's hold state and number of emissions for each action and policy |
| `JournalValidator.ClaimOrdinals` | src/goldsrc/stock_runtime_transport_journal.cpp:862-873 | claiming fails exactly when an ordinal is out of bounds or an earlier entry has it |
| `JournalValidator.CheckRelease` | src/goldsrc/stock_runtime_transport_journal.cpp:895-937 | a released hold must be released by the next datagram of its direction in the right order, or by the deadline when it is a delay |
| `JournalValidator.OwnedIsPartition` | src/goldsrc/stock_runtime_transport_journal.cpp:881-889 | an owner for every ordinal below the count makes the ordinals a partition |
| `JournalValidator.PartitionIsOwned` | src/goldsrc/stock_runtime_transport_journal.cpp:881-889 | and the converse: a partition leaves no ordinal without an owner |
| `RawFiles.NameExact` | src/goldsrc/stock_runtime_transport_journal.cpp:400-421 | a file name is accepted if and only if it is the one the relay writes for this ordinal and direction; ordinals of more than eight digits have none |
| `RawFiles.NamesAreDistinct` | apps/hlclient_stock_runtime_capture/main.cpp:747-757 | no two datagrams are given the same file name |
| `RawFiles.SpellingExact` | src/goldsrc/stock_runtime_transport_journal.cpp:712-720 | a digest is accepted if and only if it is the lower-case spelling of 32 bytes |
| `RawFiles.CheckName` | src/goldsrc/stock_runtime_transport_journal.cpp:400-421 | the loop over the digits decides it |
| `RawFiles.CheckDigest` | src/goldsrc/stock_runtime_transport_journal.cpp:712-720 | the loop over the characters decides it |
| `Crc32.ChecksumIsRfc1952` | apps/hlclient_launcher/startup_journal.hpp:369-375 | the mask-trick bit loop computes the table-driven checksum of section 8 of RFC 1952 |
| `Crc32.CheckValue` | apps/hlclient_launcher/startup_journal.hpp:369-375 | the digits from 1 to 9 have the checksum 0xcbf43926 |
| `Crc32.ByteStepIsTableStep` | apps/hlclient_launcher/startup_journal.hpp:372-373 | eight bit steps are one table lookup and a shift |
| `Crc32.ByteStepIsBijective` | apps/hlclient_launcher/startup_journal.hpp:372-373 | absorbing a byte is a bijection of the 32-bit registers, with its inverse |
| `Crc32.ShiftsAreLinear` | apps/hlclient_launcher/startup_journal.hpp:372-373 | the register is linear over exclusive or |
| `Crc32.FeedIsSerial` | apps/hlclient_launcher/startup_journal.hpp:369-375 | the loop over bytes is the bit-serial register over the message bits, least significant first |
| `Crc32.BurstsAreDetected` | apps/hlclient_launcher/startup_journal.hpp:369-375 | any change confined to 32 consecutive bits of a message changes its checksum |
| `Crc32.FourBytesAreDetected` | apps/hlclient_launcher/startup_journal.hpp:369-375 | so does any change within four consecutive bytes, whatever is before and behind |
| `Crc32.ComputeChecksum` | apps/hlclient_launcher/startup_journal.hpp:369-375 | the nested loops compute that checksum |
| `Zip.ArchivesReadBack` | apps/hlclient_launcher/startup_journal.hpp:192-209 | a reader that starts at the end record recovers exactly the written names and bytes, with agreeing sizes and checksums and no gap or overlap, if and only if every size fits its 16- or 32-bit field |
| `Zip.FittingArchivesReadBack` | apps/hlclient_launcher/startup_journal.hpp:192-209 | the recovery, for every list that fits |
| `Zip.WalkBounds` | apps/hlclient_launcher/startup_journal.hpp:201-209 | whatever a central directory walk finds lies within its bounds, so that a list that does not fit cannot come back |
| `Zip.GetOfPut` | apps/hlclient_launcher/startup_journal.hpp:193-194 | little-endian fields of any widths read back as the values modulo their widths |
| `ZipWriter.ArchiveWriter.U16` | apps/hlclient_launcher/startup_journal.hpp:193 | pushes the two low bytes of a value |
| `ZipWriter.ArchiveWriter.U32` | apps/hlclient_launcher/startup_journal.hpp:194 | pushes the low and the high half |
| `ZipWriter.ArchiveWriter.Local` | apps/hlclient_launcher/startup_journal.hpp:195-200 | appends the local record of an entry |
| `ZipWriter.ArchiveWriter.Central` | apps/hlclient_launcher/startup_journal.hpp:202-206 | appends its central record with the stored offset |
| `ZipWriter.ArchiveWriter.EndOfDirectory` | apps/hlclient_launcher/startup_journal.hpp:207-209 | appends the end record |
| `ZipWriter.WriteArchive` | apps/hlclient_launcher/startup_journal.hpp:192-209 | the writer with its offsets stored into the entries produces the archive the reader is proved about |
| `ZipWriter.ExportZip` | apps/hlclient_launcher/startup_journal.hpp:187-209 | the export of the leaves that could be read; none of them, no archive |
| `ZipWriter.ExportReadsBack` | apps/hlclient_launcher/startup_journal.hpp:187-209 | every archive the export writes reads back, because its leaves are few and bounded |
| `StartupLog.RunsAreBounded` | apps/hlclient_launcher/startup_journal.hpp:313-332 | over any records and any results of writing, the journal never exceeds 65536 bytes, only grows, and never changes after its limit was reported |
| `StartupLog.RunsAreLined` | apps/hlclient_launcher/startup_journal.hpp:313-332 | with writes that fail or take all, the journal is a list of lines without control characters, each ended by CR LF, and the limit marker is at most the last of them |
| `StartupLog.LinesBeforeCutStay` | apps/hlclient_launcher/startup_journal.hpp:313-332 | whatever the writes after it, the lines written before the first write that is cut short stay at the head of the journal |
| `StartupLog.RunsAreTidy` | apps/hlclient_launcher/startup_journal.hpp:313-332 | however writes fail or are cut short, the only control characters of the journal are carriage returns and line feeds right after one |
| `StartupLog.JournalsAreTidy` | apps/hlclient_launcher/startup_journal.hpp:313-332 | the same, and the bound, for every run of a new journal |
| `StartupLog.LinesAreDetermined` | apps/hlclient_launcher/startup_journal.hpp:266-271 | such a text has one reading as lines |
| `StartupLog.SingleLineCleans` | apps/hlclient_launcher/startup_journal.hpp:266-271 | whatever the text, the line is at most the maximum long and without control characters, every visible character keeps its place, the text itself comes back exactly when it already is such a line, and doing it again changes nothing |
| `StartupLog.JournalsHoldRecords` | apps/hlclient_launcher/startup_journal.hpp:313-332 | when writes fail or take all, the journal is, for the records whose write was taken and in their order, the stamp, the line cut to 4096 characters and CR LF, as long as 65536 bytes have room; then the marker line if it still fits, and nothing after the first record that did not fit |
| `StartupLog.JournalsAreComplete` | apps/hlclient_launcher/startup_journal.hpp:313-332 | when every write takes all, these are the lines of exactly the longest list of first records that fits, then the marker line if and only if a record did not fit and the marker does |
| `StartupLog.StartupJournal.Write` | apps/hlclient_launcher/startup_journal.hpp:313-332 | one record, with the two fields updated in place as the specification updates them; what the journal holds then is StartupLog.JournalsHoldRecords |
| `ClientOutput.FilterIsExact` | apps/hlclient_launcher/startup_journal.hpp:135-145 | the retained text is the header and the startup errors among the lines read, in order, the counters count them and the others, and all lines are read unless the budget was reached |
| `ClientOutput.ArtifactIsExact` | apps/hlclient_launcher/startup_journal.hpp:135-148 | the artifact character by character: the heading, the retained lines, the two counts, and the truncation line if and only if lines were left unread, which needs 129024 characters of output |
| `ClientOutput.ArtifactIsHarmless` | apps/hlclient_launcher/startup_journal.hpp:223-246 | no retained line holds a sensitive word in any case of its letters, even after blanking and cutting |
| `ClientOutput.ArtifactIsBounded` | apps/hlclient_launcher/startup_journal.hpp:137-148 | for every number of digits d: no input of at most N characters gives an artifact longer than 131145 + d characters, if and only if N is below 114897 and twice the least number with d digits, the number of lines it takes to omit |
| `ClientOutput.CaptureCanOverflow` | apps/hlclient_launcher/startup_journal.hpp:137-158 | an input that reaches the bound, so that the artifact is not written: the reserve is smaller than a retained line and the trailer |
| `ClientOutput.WrittenExactly` | apps/hlclient_launcher/startup_journal.hpp:137-158 | for any lengths L of kept lines (from 6, the shortest there is) and N of the input, every such input is written if and only if N is below the length of the shortest input with kept lines up to L that is not, which is given by a formula |
| `ClientOutput.CaptureThresholds` | apps/hlclient_launcher/startup_journal.hpp:137-158 | for a capture of 1 MiB the artifact is always written if and only if no kept line is longer than 1968 characters, for one of 16 MiB 1967 |
| `ClientOutput.ShortCapturesAreWritten` | apps/hlclient_launcher/startup_journal.hpp:137-158 | whatever its lines, every input of at most N characters is written if and only if N is below 114823 |
| `ClientOutput.LengthExact` | apps/hlclient_launcher/startup_journal.hpp:137-148 | the same if-and-only-if for any bound on the length of the artifact |
| `ClientOutput.NoShorterErrors` | apps/hlclient_launcher/startup_journal.hpp:223-246 | below six characters no line can be kept, so that the shorter limits need no threshold of their own |
| `ClientOutput.CheckStartupError` | apps/hlclient_launcher/startup_journal.hpp:223-246 | the loops over the word lists decide the filter's condition |
| `ClientOutput.CaptureOutput` | apps/hlclient_launcher/startup_journal.hpp:132-148 | the loop computes the artifact's text |
| `VdfGrammar.AcceptedTexts` | apps/hlclient_launcher/original_half_life.hpp:113-156 | the parser accepts a text with a forest if and only if the text is within the input limits, the forest within the depth, token, length and character limits, and the text is the forest's tokens with blanks and comments around them and nothing else |
| `VdfGrammar.ParseExact` | apps/hlclient_launcher/original_half_life.hpp:135-156 | the same in terms of lexemes: exactly the texts whose lexemes are those of a forest within the limits |
| `VdfGrammar.RoundTrip` | apps/hlclient_launcher/original_half_life.hpp:123-156 | printing and parsing undo each other with any blanks and comments between the tokens, exactly within the limits |
| `VdfGrammar.PrintParses` | apps/hlclient_launcher/original_half_life.hpp:151-155 | a forest within the limits parses back from its shortest text exactly when it has a node and the text is not too long |
| `VdfGrammar.ReprintIsNoLonger` | apps/hlclient_launcher/original_half_life.hpp:151-155 | an accepted input with a node re-prints to a text no longer than itself that parses to the same nodes |
| `VdfGrammar.ParsingIsFaithful` | apps/hlclient_launcher/original_half_life.hpp:135-148 | whatever a list of nodes was parsed from held its lexemes, within the limits |
| `VdfGrammar.LexedIsParsed` | apps/hlclient_launcher/original_half_life.hpp:135-148 | whatever holds the lexemes of nodes within the limits is parsed to them |
| `Vdf.LexExact` | apps/hlclient_launcher/original_half_life.hpp:116-134 | a text lexes to a list if and only if it is their texts with gaps around them |
| `Vdf.WordReads` | apps/hlclient_launcher/original_half_life.hpp:123-134 | an escaped word reads back |
| `Vdf.WordWasEscaped` | apps/hlclient_launcher/original_half_life.hpp:123-134 | what was read as a word was its escaped text |
| `Vdf.SkippedIsGap` | apps/hlclient_launcher/original_half_life.hpp:116-122 | what is skipped is blanks and comments, and what is left starts with neither |
| `Vdf.SeparatorsExact` | apps/hlclient_launcher/original_half_life.hpp:116-122 | one character separates two words exactly when it is a space, a tab, a carriage return or a line feed |
| `VdfParser.Parser.Space` | apps/hlclient_launcher/original_half_life.hpp:116-122 | moves the cursor past blanks and comments |
| `VdfParser.Parser.Token` | apps/hlclient_launcher/original_half_life.hpp:123-134 | reads one word and counts it, or fails |
| `VdfParser.Parser.Characters` | apps/hlclient_launcher/original_half_life.hpp:125-133 | the character loop with its escapes and limits |
| `VdfParser.Parser.ReadObject` | apps/hlclient_launcher/original_half_life.hpp:135-148 | reads the nodes up to the closing brace or the end |
| `VdfParser.Parser.ReadInput` | apps/hlclient_launcher/original_half_life.hpp:151-155 | the whole parse, which consumes the whole input |
| `VdfParser.Parser.OutermostReadsAll` | apps/hlclient_launcher/original_half_life.hpp:139-154 | an outermost list that parses leaves nothing |
| `VdfParser.Member` | apps/hlclient_launcher/original_half_life.hpp:157-161 | the only node with the key, if and only if exactly one has it |
| `ArgumentQuoting.QuotingRoundTrip` | apps/hlclient_launcher/original_half_life.hpp:99-109 | for every list of strings, splitting the joined quoted forms by the Windows rules gives the list back, with or without the doubled-quote rule |
| `ArgumentQuoting.TailSplits` | apps/hlclient_launcher/original_half_life.hpp:101-108 | the backslashes held back come out right before a quote, before another character and at the end |
| `ArgumentQuoting.QuoteArgument` | apps/hlclient_launcher/original_half_life.hpp:99-109 | the loop computes the quoted form |
| `Endpoint.ValidIsCanonical` | apps/hlclient_launcher/original_half_life.hpp:76-88 | a text is accepted if and only if it is the decimal print of an allowed address and port; the length bound refuses none of them |
| `Endpoint.PrintIsUnique` | apps/hlclient_launcher/original_half_life.hpp:76-88 | each allowed endpoint has one print only |
| `Endpoint.ValidIsSpelled` | apps/hlclient_launcher/original_half_life.hpp:76-88 | a text is accepted if and only if it is a.b.c.d:port with 1 <= a <= 223, a not 127, b and c up to 255, d up to 254 and port from 1 to 65535, each a numeral without a leading zero |
| `Endpoint.RecogniseEndpoint` | apps/hlclient_launcher/original_half_life.hpp:76-88 | the loop over the five parts decides it |
| `Endpoint.ReadField` | apps/hlclient_launcher/original_half_life.hpp:81-84 | one part: where it ends, and its value when it is canonical and in range |
| `Decimal.PrintIsCanonical` | apps/hlclient_launcher/original_half_life.hpp:82-84 | a number's print has no leading zero and the number's value |
| `Decimal.CanonicalIsPrinted` | apps/hlclient_launcher/original_half_life.hpp:82-84 | every numeral without a leading zero is the print of its value |
| `LaunchPlan.CommandLineIsFaithful` | apps/hlclient_launcher/original_half_life.hpp:281-313 | the line of an accepted plan splits back into the executable and exactly the arguments, raw at spaces outside quotes and by the Windows rules; only the player name can be quoted, it holds no quote, backslash or plus, and the only words of the tail that look like options are the intended ones |
| `LaunchPlan.LineIsNeverTooLong` | apps/hlclient_launcher/original_half_life.hpp:311 | the last refusal cannot happen: every line stays below 4541 characters |
| `LaunchPlan.OptionsOfTail` | apps/hlclient_launcher/original_half_life.hpp:298-310 | a quoted name with spaces cannot bring an option about |
| `LaunchPlan.CheckName` | apps/hlclient_launcher/original_half_life.hpp:89-98 | the loops decide the name rules |
| `LaunchPlan.CheckPath` | apps/hlclient_launcher/original_half_life.hpp:65-75 | the loops decide the path rules |
| `LaunchPlan.BuildLine` | apps/hlclient_launcher/original_half_life.hpp:301-310 | the loop builds the specified line |
| `LaunchPlan.LineAsks` | apps/hlclient_launcher/original_half_life.hpp:296-310 | in the line of every accepted plan, split raw or by the Windows rules: -w is followed by the request's width and -h by its height, as numerals without a leading zero, -game by valve, +name by the player name, +connect by the endpoint; -steam and -gl are there, -windowed exactly when the request is windowed and -full exactly when it is not; the line has 14 words, the first the executable |
| `LaunchPlan.RefusedForTheFirst` | apps/hlclient_launcher/original_half_life.hpp:281-295 | a plan is accepted exactly when every condition holds, and refused with the error of the first one that does not: installation, executable, endpoint, name, width within 640 to 7680 and height within 480 to 4320, display, process list, Half-Life, Steam |
| `LaunchPlan.Prepare` | apps/hlclient_launcher/original_half_life.hpp:281-313 | computes the plan or the refusal that the specification gives; what these say of the request is LaunchPlan.LineAsks and LaunchPlan.RefusedForTheFirst |
| `GpuPreference.ParseExact` | apps/hlclient_launcher/gpu_preference.hpp:93-140 | the parser accepts exactly the texts of valid token lists, and the tokens with their delimiters tile the text |
| `GpuPreference.RewriteKeepsMeaning` | apps/hlclient_launcher/gpu_preference.hpp:143-162 | a rewritten value parses again if and only if its tokens did not overflow; then it records the preference, in a token exactly when it is not automatic, and every other token keeps its text and place |
| `GpuPreference.FullValueOverflows` | apps/hlclient_launcher/gpu_preference.hpp:143-162 | a full value of foreign tokens that is rewritten to one the parser refuses |
| `GpuPreference.RewriteAbsorbs` | apps/hlclient_launcher/gpu_preference.hpp:143-162 | for two definite preferences the second rewrite undoes the first character for character, hence rewriting is idempotent, if and only if the first did not overflow |
| `GpuPreference.RewriteTwiceMeansOnce` | apps/hlclient_launcher/gpu_preference.hpp:143-162 | with the automatic preference involved, both sides still record the same preference and the same other tokens |
| `GpuPreference.ItemReads` | apps/hlclient_launcher/gpu_preference.hpp:103-137 | a valid token is read back from the head of a text |
| `GpuPreference.TextsDetermine` | apps/hlclient_launcher/gpu_preference.hpp:93-140 | a text has one reading as tokens |
| `GpuPreference.KeysFold` | apps/hlclient_launcher/gpu_preference.hpp:74-81 | keys are compared letter by letter without regard to the case of A to Z, and nothing else is folded |
| `GpuPreference.KeySpelled` | apps/hlclient_launcher/gpu_preference.hpp:74-81 | the key of the preference is gpupreference in any mixture of cases |
| `GpuPreference.FirstPreference` | apps/hlclient_launcher/gpu_preference.hpp:156-159 | an empty value is rewritten to GpuPreference=1; or GpuPreference=2; |
| `GpuRewriter.ReadToken` | apps/hlclient_launcher/gpu_preference.hpp:103-131 | one token from its positions, or its failure |
| `GpuRewriter.ParseValue` | apps/hlclient_launcher/gpu_preference.hpp:93-140 | the loop with its cursor and token list |
| `GpuRewriter.RewriteTokens` | apps/hlclient_launcher/gpu_preference.hpp:147-155 | the loop that copies or replaces tokens |
| `GpuRewriter.RewriteValue` | apps/hlclient_launcher/gpu_preference.hpp:143-162 | the whole rewrite with its failures |
| `BitPacking.PackedReadBack` | apps/hlclient_entity_viewer/main.cpp:327-366 | for any sequence of values and widths, reading the bytes with the same widths gives each value modulo two to its width, and there are just enough bytes |
| `BitPacking.EncodingIsUnique` | apps/hlclient_entity_viewer/main.cpp:329-340 | bits have one packing only |
| `BitPacking.LeastFirst` | apps/hlclient_entity_viewer/main.cpp:329-340 | the first bit is the least significant of the byte: the bits of 43 are the byte 0x2b |
| `BitPacking.PackersAgree` | apps/hlclient_entity_baseline_check/main.cpp:14-27 | the two independent packers hold the same bytes after the same bits |
| `BitPacking.NumberOfLowBits` | apps/hlclient_entity_viewer/main.cpp:329-340 | reading the low bits of a value back |
| `BitPacking.LsbBitWriter.Write` | apps/hlclient_entity_viewer/main.cpp:329-340 | appends the low bits of a value |
| `BitPacking.LsbBitWriter.WriteString` | apps/hlclient_entity_viewer/main.cpp:342-347 | appends the characters and a zero byte |
| `BitPacking.LsbBitWriter.AlignZero` | apps/hlclient_entity_viewer/main.cpp:349-353 | appends at most seven zero bits up to a byte boundary |
| `BitPacking.LsbBitWriter.TerminalPadding` | apps/hlclient_entity_viewer/main.cpp:355-358 | appends one to eight zero bits up to a byte boundary |
| `BitPacking.BaselineBits.Put` | apps/hlclient_entity_baseline_check/main.cpp:17-24 | appends the low bits of a value, by another order of steps |
| `BitPacking.BaselineBits.PutText` | apps/hlclient_entity_baseline_check/main.cpp:25 | appends the characters and a zero byte |
| `BitPacking.BaselineBits.Align` | apps/hlclient_entity_baseline_check/main.cpp:26 | appends at most seven zero bits up to a byte boundary |
| `ResourceList.ListReadsBack` | apps/hlclient_entity_viewer/main.cpp:390-416 | the encoded list decodes to the same count, names and indices and ends with one to eight zero bits, if and only if the count fits twelve bits and no name holds a zero |
| `ResourceList.StartsWithOpcode` | apps/hlclient_entity_viewer/main.cpp:390-396 | the first byte of every encoded list is 43 |
| `ResourceList.MakeResourceList` | apps/hlclient_entity_viewer/main.cpp:390-416 | the encoder, with its wrapping slot number, writes exactly those bits and whole bytes |
| `SmoothScroll.RunsAreSound` | apps/hlclient_launcher/smooth_scroll.hpp:12-64 | over any events and timestamps position and target stay in [0, maximum] and the position between start and target |
| `SmoothScroll.RunsFromInitialAreSound` | apps/hlclient_launcher/smooth_scroll.hpp:12-64 | hence for every run of a new object |
| `SmoothScroll.StepMoves` | apps/hlclient_launcher/smooth_scroll.hpp:48-64 | one step goes towards the target and never past it, and lands on it exactly when the duration is over |
| `SmoothScroll.StepsApproach` | apps/hlclient_launcher/smooth_scroll.hpp:48-64 | successive steps of one animation are monotone, whatever their timestamps |
| `SmoothScroll.StepsCompose` | apps/hlclient_launcher/smooth_scroll.hpp:48-64 | where an animation stands depends on the latest timestamp only |
| `SmoothScroll.PushesCannotDelay` | apps/hlclient_launcher/smooth_scroll.hpp:27-44 | input against the end an animation is heading for, moves by nothing included, changes neither its target nor its start, and it has settled once such an event that looks at the clock comes when its time is up |
| `SmoothScroll.EasedGrows` | apps/hlclient_launcher/smooth_scroll.hpp:57-59 | the eased share grows from zero and reaches one only at the end |
| `SmoothScroll.MovesLead` | apps/hlclient_launcher/smooth_scroll.hpp:27-44 | a move against the pending way leads to where the animation is by then plus the move, any other move to the target plus the move, both cut to the range; the way begins anew there and then unless the target stays |
| `SmoothScroll.ReversingTurnsBack` | apps/hlclient_launcher/smooth_scroll.hpp:34-36 | after a move against the pending way the target lies behind the position, seen in the old direction, unless the position is at that end |
| `SmoothScroll.OneWayAddsUp` | apps/hlclient_launcher/smooth_scroll.hpp:27-44 | over any moves in one direction and any looks at the clock between them, the target is the first target plus the sum of the moves, cut to the range |
| `SmoothScroll.WayLeft` | apps/hlclient_launcher/smooth_scroll.hpp:48-64 | while an animation runs, what is left of the way is the whole way times the cube of what is left of the 0.12 seconds |
| `SmoothScroll.JumpsLand` | apps/hlclient_launcher/smooth_scroll.hpp:12-25 | a jump puts position and target at the asked position cut to the range, a reset does so after setting the range |
| `SmoothScroll.SmoothScroller.Move` | apps/hlclient_launcher/smooth_scroll.hpp:27-44 | the specified retargeting on the six fields; where it leads is SmoothScroll.MovesLead |
| `SmoothScroll.SmoothScroller.Step` | apps/hlclient_launcher/smooth_scroll.hpp:48-64 | the advance on the six fields, and whether the position changed |
| `SmoothScroll.SmoothScroller.ResetTo` | apps/hlclient_launcher/smooth_scroll.hpp:12-16 | the reset on the six fields |
| `SmoothScroll.SmoothScroller.JumpTo` | apps/hlclient_launcher/smooth_scroll.hpp:18-25 | the jump on the six fields |

## Left out

- Sockets, files, the registry, process lists and event handles are inputs: each use is an arbitrary
  success, failure or value of the turn or call that consults it.
- Option parsing, usage text, console summaries, JSON reports and the replay of journals.
- The reconnect transition object answers arbitrarily; what it keeps by itself is not modelled.
- Scenarios that neither perturb nor reconnect are one scenario, and failures injected on request
  are among the arbitrary failures.
- SHA-256: a journal entry carries its payload, and a digest is any 32 bytes with its spelling.
- JournalValidator.CheckOrigin: recognises the auxiliary query by its bytes, where the source compares the spelled
  digest with a constant.
- JournalValidator.CheckEntries: the auxiliary query is recognised by its bytes.
- JournalValidator.Validate: the auxiliary query is recognised by its bytes.
- Exceptions and failed allocation are not modelled; neither is a clock that runs backwards.
- StartupLog.RunsAreLined: covers writes that take all bytes or fail; for a write that the file system cut short see
  StartupLog.LinesBeforeCutStay and StartupLog.RunsAreTidy. The text after such a write is not divided into lines.
- LaunchPlan.Prepare: comparing the executable's parent with the root is an input, and the file name is compared
  with ASCII case folding, because both belong to the platform's path and string libraries.
- UTF-8 and UTF-16 conversion: the player name and the endpoint are ASCII, where widening is the identity.
- The consumers of parsed metadata (manifest and library lists), installation lookup and the child environment.
- The launcher's journal set-up, its fixed stage and hint texts, and package hashing.
- The names of executable values, registry access and adapter enumeration of the GPU preference.
- SmoothScroll.StepMoves: doubles are exact reals; rounding, NaN and infinities are not modelled.
- Snapshot and delta decoders, prediction, movement, collision and asset parsing: their programs here only call
  libraries.
