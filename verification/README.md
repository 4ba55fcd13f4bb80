# A verified model of tcp-dormtun

tcp-dormtun carries game and other traffic over TCP connections. This project models the parts of
it that decide what happens to a packet, and proves what they promise:

- the FQ-CoDel scheduler behind every vpn connection, and what its client reads from the wire;
- the glue channel, which sends every frame on several paths and passes one copy on, with the
  sessions and sockets the server keeps for it;
- the client's choice, per flow, between glue and vpn, and its table of flow IDs;
- the token bucket, the iptables rules of the vpn channel, and the IPv4/UDP builder and parser.

`dafny verify dfyconfig.toml` verifies everything.

## How it is built

Each component has a value-level form (datatypes and functions: the state and its steps) and, where
the program changes objects in place, a class whose methods are proved to do exactly those steps.
The theorems are about whole runs of the steps: arbitrary finite sequences of them, from any state
that satisfies the invariant or from the initial one.

Scheduler (`Codel`, `CodelLaw`, `FairQueue`, `FairQueueInvariant`, `WorkConserving`, `Runs`,
`NoStarvation`, `NewFlows`, `Fairness`, `Batches`, `Order`, `PacketBound`, `Calls`, and the objects in
`Scheduling`): a run is any interleaving of arrivals, overflow drops and single turns of the dequeue
loop, which is finer than the lock allows. `Calls` shows that the methods' calls are such runs. A flow's
model carries the history of its dequeues; nothing in the algorithm reads it, and `CodelLaw` says by it
alone when CoDel drops. One dequeue uses one clock reading: only the CoDel call that finds a packet
looks at the clock, and a dequeue makes at most one of those.

Wire and receiver (`Framing`, `Delivery`, `VpnPeer`, `Bits`, `SeqWindow`, `AgeFilter`, `Receiving`):
the receiver is an array of sixteen 64-bit words with in-place updates. It is compared with two
references: the set of unbounded sequence numbers accepted so far, and the history of all arrivals.

Glue (`Multipath`, `PathCopies`, `LateInstall`, `ReplyHandling`, `GlueServer`, `GlueInvariant`,
`GlueSafety`, `GlueHistory`, `GlueSessions`): two state machines. In the first, sessions start and end,
paths join, lose, delay and reorder copies and die, epochs are installed, broadcasts overlap. In the
second, a step is what happens under one mutex, except that adding to the socket counter, checking the
result and undoing the addition are three steps, between which other sessions may do anything.
`GlueHistory` says by the steps of a run what the server's records mean.

Client (`FlowTable`, `Router`, `Sticky`): the two mutex sections of a packet are two steps, so sweeps
and replies may come between them. Each step has its own clock reading, and nothing is assumed about
their order; what a flow keeps, and until when, is stated as an exact condition on the readings.

The rest: `Shaping`; `Ipv4Udp`; `Firewall`, `FirewallChains`, `FirewallTwice`, `VpnRules`, `VpnPolicy`,
`VpnNat`, `VpnOrder` and `VpnForeign`.

Times are integers (nanoseconds), in `Shaping` reals; Go's zero time is None.

## Results that differ from the comments in the code

- cmd/server/vpn_setup.go:305-306 says that going from the last rule up leaves the rules in list
  order. It does so exactly when the rules already in the chain are the last ones of the list, in
  order and on top of it (`FirewallChains.OrderHoldsExactlyWhen`). The policy survives exactly when
  each rule of ours already there has the next kind of rule below it, whatever other programs have
  below (`VpnForeign.PolicyHoldsExactlyWhen`); with only the link-local DROP there, apply ends up
  accepting what it should drop (`VpnOrder.PartialStartLetsThrough`). In INPUT our rule stays below
  what another program has put above it (`VpnPolicy.ServerIsClosedExactlyWhen`).
- cmd/server/vpn_setup_test.go:132-139 expects that a second apply changes nothing. That is so exactly
  when no stale rule occurred more often than the list deletes it, and no optional rule that was
  refused can be added now (`FirewallTwice.SecondApplyChangesNothingExactlyWhen`); it fails for a
  doubled stale rule (`VpnOrder.DoubledStaleRuleChanges`).
- cmd/client/gluepaths.go:281-282 relies on old paths being dead when a new epoch is installed. A
  setEpoch of an old session that comes late makes the client pass a reply on again exactly when a
  copy of it is still on a path of that session (`Multipath.LateInstallRepeatsExactlyWhen`); a run of
  14 steps does it (`LateInstall.LateInstallPassesTwice`).
- cmd/client/router.go:10-13 says that a flow keeps its channel. It does exactly as long as no sweep
  reads a clock more than the idle time ahead of the flow's latest packet
  (`Sticky.RouteSurvivesExactlyWhen`, `Sticky.ChannelIsKeptExactlyWhen`). Since
  cmd/client/vpn.go:200 reads the clock once for a batch of
  packets, a sweep can be ahead of a packet it runs before: a flow whose packets are exactly the idle
  time apart then moves (`Sticky.RaceMovesAFlow`), or gets a second flow ID
  (`Sticky.RaceChangesAnId`, `Sticky.LateReplyChangesAnId`). With clocks that lag by at most `lag`,
  gaps of the idle time less `lag` (for IDs twice `lag`) are safe (`Sticky.ShortGapsKeepTheRoute`,
  `Sticky.ShortGapsKeepTheId`).
- internal/sched/fq.go:146-147 says that the total of a batch stays within maxBytes. Its last packet may
  exceed that: the batch without it is below maxBytes (`Batches.RoomyBatchGrows`).
- A sequence number is delivered at most once only while numbers stay within half the 32-bit range
  of the highest one (`SeqWindow.TwiceBeyondHalfRange`).

## Model

| member | source | states |
|---|---|---|
| CodelLaw.CodelIsReference | internal/sched/fq.go:283-338 | with its five registers CoDel answers, drops and records exactly as a reference that looks back at all of the queue's history: a packet in hand is dropped exactly when the queue has been standing for an interval and, in the dropping state, the last drop plus the gap for the count is due; on re-entry within 16 intervals the count goes on from the drops of the state before, else from 1 |
| CodelLaw.ReferenceKeepsLaw | internal/sched/fq.go:301-338 | every drop in a history was demanded by the history before it, and every observation that demanded one is a drop |
| CodelLaw.OutsideDropsAtMostOne | internal/sched/fq.go:318-330 | outside the dropping state a dequeue drops exactly one packet when the first one it takes finds the queue standing for an interval, else none |
| CodelLaw.CodelDequeueKeeps | internal/sched/fq.go:283-338 | a CoDel dequeue fails only on an empty queue, takes packets from the front and drops all but the last, never empties the queue by dropping, and keeps the history lawful: drops are made when demanded and only then; lastCount never exceeds count |
| Codel.FirstAboveAdvances | internal/sched/fq.go:286-297 | firstAboveTime is always one interval after the dequeue that began the present unbroken run of standing-queue dequeues, and unset when there is none |
| FairQueueInvariant.ArriveKeeps | internal/sched/fq.go:111-125 | an arrival keeps the invariant: each mapped flow once on the list its flag names, byte counters equal to queued lengths, Enqueued = Dequeued + drops + queued |
| FairQueueInvariant.OverflowKeeps | internal/sched/fq.go:268-281 | an overflow drop keeps the invariant |
| FairQueueInvariant.OverflowSparesSmallFlows | internal/sched/fq.go:268-281 | the flow an overflow takes from holds at least its share of all bytes queued |
| FairQueueInvariant.MoveToOldKeeps | internal/sched/fq.go:238-242 | moving a flow to the old list keeps the invariant |
| FairQueueInvariant.DeactivateKeeps | internal/sched/fq.go:244-249 | forgetting an empty flow keeps the invariant |
| FairQueueInvariant.TurnKeeps | internal/sched/fq.go:202-236 | a turn of the dequeue loop keeps the invariant, passes a packet on exactly when the flow in front has credit and a packet, and is idle only when no flow is active |
| FairQueueInvariant.FlowsAreFew | internal/sched/fq.go:30-33 | never more flows than buckets |
| WorkConserving.TurnsFall | internal/sched/fq.go:202-236 | the termination measure: a turn without a packet lowers the sum of the turns all active flows may still need |
| WorkConserving.DequeueIsWorkConserving | internal/sched/fq.go:202-236 | a dequeue finds a packet exactly when one is queued anywhere; otherwise map and lists are empty afterwards |
| WorkConserving.DequeueKeeps | internal/sched/fq.go:202-236 | a whole dequeue keeps the invariant |
| WorkConserving.NothingQueued | internal/sched/fq.go:126-127 | with no packet queued the total is zero, so the overflow loop always reaches the limit |
| Runs.EmptyIsInvariant | internal/sched/fq.go:98-100 | a new scheduler satisfies the invariant |
| Runs.RunKeeps | internal/sched/fq.go:105-281 | the invariant holds in every state of every run |
| Runs.NextBounded | internal/sched/fq.go:213-234 | with packets of at most L bytes every deficit stays in [-(L-1), Quantum] |
| NoStarvation.FrontIsReached | internal/sched/fq.go:202-249 | at most 2(buckets-1)(Quantum+L-1) bytes of other flows are passed on before a flow comes to the front, whatever arrives meanwhile |
| NoStarvation.NoFlowStarves | internal/sched/fq.go:202-249 | while a flow has a packet queued and none of its own is passed on, the others get at most that bound once, and once more for each top-up the flow needs |
| PacketBound.FewPacketsBeforeFront | internal/sched/fq.go:202-249 | with packets of at least m bytes, at most that bound divided by m packets are passed on before a flow comes to the front |
| PacketBound.FewPacketsWhileWaiting | internal/sched/fq.go:202-249 | the same while a flow waits with a packet queued |
| PacketBound.EmptyPacketsPassWithoutEnd | internal/sched/fq.go:213-232 | with empty packets there is no such bound: for every n a run from the empty scheduler in which a flow waits while n empty packets of another are passed on |
| NoStarvation.TopUpsAreNeeded | internal/sched/fq.go:215-219 | the number of top-ups counted is the least that makes the deficit positive |
| Fairness.RunConservesLead | internal/sched/fq.go:213-242 | conservation law: the lead of one old flow over another falls by the bytes it gets and rises by those the other gets |
| Fairness.OldFlowsShareFairly | internal/sched/fq.go:213-242 | the bytes two flows get while both stay on the old list differ by at most 3 Quantum + 2L - 2 |
| Fairness.BackloggedFlowsStayOld | internal/sched/fq.go:221-231 | two old flows stay on the old list as long as both have packets |
| NewFlows.NewFlowSpendsItsQuantum | internal/sched/fq.go:111-125 | conservation law: from the arrival that makes a flow new, as long as it is new, its deficit and the bytes of it passed on make up the quantum |
| NewFlows.NewFlowsGoFirst | internal/sched/fq.go:202-236 | before a packet of a flow that is not new is passed on, every flow that became active earlier has been in front, and had then passed on a whole quantum or had no packet left |
| NewFlows.NewPacketIsNext | internal/sched/fq.go:111-125 | with no other flow new, a packet that makes its flow active is the very next one passed on, whatever the old flows hold |
| NewFlows.NewFlowWaitsForNewOnes | internal/sched/fq.go:202-236 | until a flow that became active is in front, at most Quantum + L - 1 bytes of each flow that was new when it came are passed on |
| Batches.GotTakes | internal/sched/fq.go:259-266 | a dequeue that returns a packet leaves fewer queued |
| Batches.RoomyBatchGrows | internal/sched/fq.go:164-172 | a batch grows only while it has room: without its last packet it totals less than maxBytes |
| Scheduling.Scheduler.constructor | internal/sched/fq.go:85-101 | fields that are not positive get the defaults; the scheduler is empty and valid |
| Scheduling.Scheduler.Enqueue | internal/sched/fq.go:105-129 | a closed scheduler is unchanged; otherwise the packet arrives, packets of fattest flows are dropped while the total is over the limit, and the total ends within it |
| Scheduling.Scheduler.Fattest | internal/sched/fq.go:269-277 | a flow with the most bytes among those with packets; none exactly when all queues are empty |
| Scheduling.Scheduler.DropFromFattest | internal/sched/fq.go:268-281 | drops the oldest packet of a fattest flow, or reports that nothing is queued |
| Scheduling.Scheduler.PopHead | internal/sched/fq.go:259-266 | takes the head of the queue and its bytes from both counters |
| Scheduling.Scheduler.DoDequeue | internal/sched/fq.go:283-299 | does dodequeue of RFC 8289 section 5.6 in place |
| Scheduling.Scheduler.CodelDequeue | internal/sched/fq.go:301-338 | does the CoDel dequeue in place, with its drop counter |
| Scheduling.Scheduler.Unlink | internal/sched/fq.go:251-257 | takes the flow off the list its flag names, and nothing else |
| Scheduling.Scheduler.MoveToOld | internal/sched/fq.go:238-242 | moves the flow object to the end of the old list |
| Scheduling.Scheduler.Deactivate | internal/sched/fq.go:244-249 | takes the flow off its list and out of the map |
| Scheduling.Scheduler.DequeueLocked | internal/sched/fq.go:202-236 | terminates, and answers and changes the state as the value-level dequeue does |
| Scheduling.Scheduler.DequeueBatch | internal/sched/fq.go:146-174 | the batch is that of repeated single dequeues; it waits exactly when nothing is queued; it ends below maxBytes only when nothing is left |
| Order.QueuesAreFifo | internal/sched/fq.go:103-129 | over every run, what a queue passes on followed by what it still holds is a subsequence of what it held followed by its arrivals |
| Order.QueuesAreSuffixes | internal/sched/fq.go:103-129 | over every run, what a queue holds are the last of the packets it held and those that arrived: it loses packets at its front only |
| Calls.EnqueueIsRun | internal/sched/fq.go:105-129 | a call of Enqueue is a run of an arrival and overflow drops |
| Calls.DequeueIsRun | internal/sched/fq.go:202-236 | a dequeue is a run of turns that passes on the packet it returns |
| Calls.BatchIsRun | internal/sched/fq.go:150-174 | dequeues in a row are a run that passes on just the packets of the batch, in order |
| Framing.FrameRoundTrip | internal/frame/frame.go:37-63 | reading a written frame gives it back and leaves the rest of the stream |
| Framing.DecodesExactlyWrittenFrames | internal/frame/frame.go:37-63 | a stream reads as a frame and a rest exactly when it is that frame written, then the rest |
| Framing.WrittenExactlyWhen | internal/frame/frame.go:37-47 | a byte string is the written frame exactly when its bytes are: number, timestamp in two's complement and length, the most significant byte first, then the payload |
| Framing.StreamCarriesFrames | internal/frame/frame.go:33-63 | the reader of frames written back to back gets exactly these; an oversized one vanishes without shifting the stream |
| Framing.Marshal | internal/frame/frame.go:37-47 | fills the buffer with the encoded frame, nothing for an oversized one |
| Framing.Reader.ReadFrame | internal/frame/frame.go:49-63 | reads the frame the stream starts with, or uses up a stream that ends too early |
| VpnPeer.Peer.Concatenate | cmd/server/vpn.go:70-74 | the buffer is the batch back to back |
| VpnPeer.Peer.Queue | internal/sched/fq.go:103-129 | a packet queued for the peer becomes part of its history; a closed queue takes none |
| VpnPeer.Peer.TryBatch | internal/sched/fq.go:146-174 | an attempt finds a batch exactly when the scheduler is open and a packet is queued; the batch continues the stream of all that was passed on, and without its last packet is below the limit |
| VpnPeer.Peer.WakeUp | internal/sched/fq.go:162 | while the loop waits, exactly the frames that come are queued, and the scheduler may be closed |
| VpnPeer.Peer.NextBatch | internal/sched/fq.go:146-174 | waits as long as nothing is queued and the scheduler is open, whatever is queued meanwhile; then the next batch |
| VpnPeer.Peer.Put | cmd/server/vpn.go:77-81 | the connection takes the whole buffer, or a part of it and is closed |
| VpnPeer.Peer.WriteTurn | cmd/server/vpn.go:60-83 | one turn waits for a batch, writes it and charges the shaper for its length; what was sent stays the stream of the history, or its start once a write failed |
| Delivery.ReaderGetsFlowsInOrder | cmd/server/vpn.go:60-83 | for every run of a scheduler fed with frames, the reader of its outputs gets exactly their frames, and each bucket's frames in the order they were queued in |
| Delivery.CallIsRun | internal/sched/fq.go:103-174 | a call of Enqueue, or a batch of dequeues, is a run with its arrival and its outputs |
| Delivery.HistoryIsRun | internal/sched/fq.go:103-174 | every history of calls from the empty scheduler is a run |
| Delivery.ReaderGetsWhatWasQueued | cmd/server/vpn.go:60-83 | the same for every history of Enqueue calls and written batches |
| VpnPeer.BrokenStream | internal/frame/frame.go:49-63 | the reader of a stream that breaks off gets the first of its frames |
| VpnPeer.ClientReadsWhatWasQueued | cmd/server/vpn.go:60-83 | at every moment the bytes a peer sent read as exactly the frames passed on, or the first of them when the connection broke, and each bucket's as some of those queued, in order |
| Bits.SetBit | internal/frame/frame.go:177 | setting a bit of a word sets that bit and no other |
| Bits.ClearBit | internal/frame/frame.go:178 | clearing a bit of a word clears that bit and no other |
| SeqWindow.AcceptRefines | internal/frame/frame.go:141-175 | within half range, the ring of bits accepts exactly the numbers above the top or less than 1024 behind it and not yet accepted, and goes on showing the accepted set; the distance -2^31 is refused |
| SeqWindow.WindowRefinesSet | internal/frame/frame.go:141-175 | the same over whole runs, across any number of wraps |
| SeqWindow.AtMostOnce | internal/frame/frame.go:72-77 | no number is delivered twice |
| SeqWindow.DecidesAboutStandIn | internal/frame/frame.go:144-153 | without the half-range assumption the receiver decides about the number in range that looks the same on the wire |
| SeqWindow.TwiceBeyondHalfRange | internal/frame/frame.go:144-153 | a concrete run beyond half range that delivers a number twice |
| AgeFilter.LeastRawIsLeast | internal/frame/frame.go:79-82 | the reference baseline is the least raw delay since a point of the history |
| AgeFilter.AgeStepTracks | internal/frame/frame.go:109-137 | the two registers hold the least raw delay since the previous window, or the last new baseline, began; the code refuses what the reference refuses |
| AgeFilter.RefusalsFollowHistory | internal/frame/frame.go:109-137 | the same over whole runs |
| AgeFilter.ClockDifferenceDoesNotMatter | internal/frame/frame.go:79-82 | shifting all sender timestamps by a constant changes no decision of a run |
| AgeFilter.RefusalBlocksAreShort | internal/frame/frame.go:95-98 | consecutive refusals for age span less than rebaselineAfter |
| Receiving.TooLateExactlyWhen | internal/frame/frame.go:107-139 | over every run of frames a frame is refused for its age exactly when it took more than maxAge longer than some frame since the previous window began, by send and arrival times, and less than rebaselineAfter has passed since the first refusal of the present block |
| Receiving.Receiver.constructor | internal/frame/frame.go:101-105 | nothing seen, no baseline |
| Receiving.Receiver.Mark | internal/frame/frame.go:177 | adds exactly the number's slot to those seen |
| Receiving.Receiver.Unmark | internal/frame/frame.go:178 | removes exactly the number's slot |
| Receiving.Receiver.Marked | internal/frame/frame.go:179-181 | tells whether the number's slot is seen |
| Receiving.Receiver.AcceptSeq | internal/frame/frame.go:141-175 | decides and slides the window in place as the value-level window does |
| Receiving.Receiver.Accept | internal/frame/frame.go:107-139 | the age filter, then the window, in place |
| Multipath.HeardGrows | internal/frame/frame.go:109-137 | the client's age registers stand for all arrivals of the present epoch, and refuse what the reference refuses on that history |
| Multipath.HandleDecides | cmd/client/gluepaths.go:296-312 | a copy is passed on exactly when its path's epoch is the present one, it is on time by the arrivals so far and its number is due |
| Multipath.NextKeeps | cmd/server/glue.go:308-325 | every step of sessions, paths, sends and the client, installs of any epoch included, keeps the protocol invariant |
| Multipath.RepliesPassOncePerInstall | cmd/client/gluepaths.go:262-324 | over every run, whatever epochs are installed when, what is passed on was sent as it is, and a reply is passed on again only after the epoch has changed |
| Multipath.RepliesPassAtMostOnce | cmd/client/gluepaths.go:262-324 | over every run that installs no epoch of which something was passed on before it was replaced, no reply is passed on twice |
| Multipath.CopyPassesExactlyWhenDue | cmd/client/gluepaths.go:296-324 | in every state of every run, an arriving copy is passed on exactly when its epoch is the present one, it is on time by the arrivals since the epoch changed, no copy of its reply was passed on since then and it is less than 1024 behind the highest; so this is also when a reply is repeated |
| Multipath.FirstCopyPasses | internal/frame/frame.go:107-108 | a new receiver delivers whatever comes first |
| Multipath.InstallRepeatsExactlyWhenUnsafe | cmd/client/gluepaths.go:278-294 | some copy passed on before would be passed on again after an install exactly when the epoch is not the present one and something of it was passed on |
| Multipath.LateInstallRepeatsExactlyWhen | cmd/client/gluepaths.go:278-324 | in every state before an epoch comes back, with a copy of a passed-on reply on a path: installing the epoch of a path and then receiving that copy passes it on again exactly when path and copy share an epoch other than the present one |
| PathCopies.CopiesAreConserved | cmd/server/glue.go:308-325 | conservation: over every run from the moment a path joins, while it lives, the copies of a reply picked for it are those that arrived, those the path lost and those on their way |
| LateInstall.LateInstallPassesTwice | cmd/client/gluepaths.go:278-294 | a run of 14 steps from the start that passes one reply on twice |
| ReplyHandling.ReplyHandler.SetEpoch | cmd/client/gluepaths.go:283-294 | a new epoch gets a new receiver, the present one changes nothing |
| ReplyHandling.ReplyHandler.Handle | cmd/client/gluepaths.go:304-312 | passes on what the value-level handler does |
| ReplyHandling.ReplyHandler.HandleFrame | cmd/client/gluepaths.go:296-324 | a ping changes nothing; any other frame meets the receiver, and one passed on notes its flow's activity and gives the packet from the flow's destination back to its source |
| ReplyHandling.ReplyGoesBack | cmd/client/gluepaths.go:313-323 | the packet built for a reply parses to the answer to the packet its flow was made for: addresses and ports exchanged, with the server's payload |
| ReplyHandling.PathWriter.constructor | internal/sched/pathwriter.go:37-50 | the queue holds at least one frame |
| ReplyHandling.PathWriter.Send | internal/sched/pathwriter.go:52-71 | never blocks; its frame is queued last, or counted as a drop, or the writer is closed, and each frame it takes out is counted; alone, it queues the frame and only a full queue loses its oldest |
| ReplyHandling.PathWriter.RunTurn | internal/sched/pathwriter.go:86-104 | writes the oldest frame, or skips and counts a stale one; a failed write closes the writer and ends the loop; once the writer is closed, the loop ends or takes one more frame |
| GlueInvariant.NextKeeps | cmd/server/glue.go:75-348 | every atomic step of the glue server keeps the invariant of table, sessions, sockets and quota |
| GlueSafety.QuotaIsExact | cmd/server/glue.go:75-86 | under every interleaving the counter is the number of flows plus the reservations in progress; never more than 4096 flows in all or 512 in a session |
| GlueSafety.OpenSocketsAreEntries | cmd/server/glue.go:194-205 | a socket is open exactly while it is its flow's entry in a live session |
| GlueSafety.ReaderFailsAlone | cmd/server/glue.go:263-290 | the failing reader of a socket that is no longer its flow's changes nothing; any other takes away its own entry and slot only |
| GlueSafety.TableLimits | cmd/server/glue.go:63-73 | at most 256 sessions, 4 per key, 8 paths each; emptySince is set exactly when there are no paths |
| GlueSafety.EvictionAdmits | cmd/server/glue.go:109-126 | a session is removed for room only in a call that admits a new one |
| GlueSafety.RemovedExactlyWhen | cmd/server/glue.go:160-192 | a session leaves the table only without paths, and exactly when the janitor finds it without any for two minutes, or as the longest-empty one of the same client to make room for a session that is admitted |
| GlueHistory.AttachAnswers | cmd/server/glue.go:101-140 | the exact answer to an attach: refused exactly when the session belongs to another key, let in exactly when the limits on paths, sessions of the client and sessions in all allow it or an empty session of the client makes room; nothing changes unless it is let in |
| GlueHistory.PathsAreTheOwners | cmd/server/glue.go:132-135 | over every run a session has only paths that were attached with its id under its owner's key |
| GlueHistory.LastSeenIsLastUse | cmd/server/glue.go:222-290 | over every run a socket's lastSeen is the reading of the latest packet that used it or reply that came in on it, and what it is bound to never changes |
| GlueHistory.ClosesExactlyWhen | cmd/server/glue.go:327-348 | a step closes a flow's socket exactly when it is the janitor and the socket has been idle for more than two minutes or its session empty for as long, a packet of the flow to another destination, its failing reader, or the removal of its session |
| GlueHistory.SocketKeptExactlyWhen | cmd/server/glue.go:327-348 | a flow keeps its socket at every moment of a run exactly when no step does that, with idleness counted from the latest packet or reply |
| GlueHistory.EmptySinceIsLastDetach | cmd/server/glue.go:213-220 | over every run emptySince of a session without paths is the reading at which its last path went |
| GlueHistory.NewSocketIsThePackets | cmd/server/glue.go:222-261 | the socket a call of flow opens is for the flow, destination and reading of the packet the call is about |
| GlueSessions.Sessions.CloseFlowLocked | cmd/server/glue.go:194-205 | closes the socket; entry and slot go only if still its own |
| GlueSessions.Sessions.CloseAllFlowsLocked | cmd/server/glue.go:207-211 | closes just the flows of the session |
| GlueSessions.Sessions.Scan | cmd/server/glue.go:163-180 | counts the client's sessions and finds the one of them that has been empty longest |
| GlueSessions.Sessions.MakeRoomForSession | cmd/server/glue.go:160-192 | removes the longest-empty session only when the client is at its limit, and fails exactly when all are in use |
| GlueSessions.Sessions.AttachGluePath | cmd/server/glue.go:101-140 | joins or creates the session as the attach step does, with its status; what that is, GlueHistory.AttachAnswers states |
| GlueSessions.Sessions.DetachPath | cmd/server/glue.go:213-220 | the path goes; the last one sets emptySince |
| GlueSessions.Sessions.ReserveFlow | cmd/server/glue.go:78-86 | takes a slot exactly when fewer than 4096 are taken, else changes nothing |
| GlueSessions.Sessions.Flow | cmd/server/glue.go:222-261 | reuses, rebinds or opens a socket as the steps of the call do, and returns the one that goes to the destination |
| GlueSessions.FlowIsRun | cmd/server/glue.go:222-261 | a call of flow is a run of the step system |
| GlueSessions.FlowOpensExactlyWhen | cmd/server/glue.go:222-261 | an undisturbed call has a socket exactly when the flow has one to the destination, or session and server have room and the dial succeeds; the socket is the flow's entry, active now; one to another destination is closed; no other flow is touched |
| GlueSessions.Sessions.CloseIdle | cmd/server/glue.go:333-337 | closes exactly the flows of the session idle for two minutes |
| GlueSessions.Sessions.CleanSession | cmd/server/glue.go:332-346 | closes idle flows and removes a session that has been empty for two minutes |
| GlueSessions.Sessions.CleanupGlue | cmd/server/glue.go:327-348 | waits for each session of the table in turn and cleans it, whatever calls of flow, readers and paths do while it waits |
| FlowTable.ScanFindsFree | cmd/client/flows.go:62-72 | the wrapping scan stops at the first free ID ahead; it fails only when all it passed are in use |
| FlowTable.IdsAreGivenFairly | cmd/client/flows.go:52-73 | keeps ids and flows inverse and dsts a count; refuses a flow exactly when all 65536 IDs are in use; gives the next free ID in wrapping order, notes the addresses and the activity, and changes no other flow |
| FlowTable.TouchKeeps | cmd/client/flows.go:75-85 | a lookup keeps the table valid |
| FlowTable.SweepKeeps | cmd/client/flows.go:87-105 | a sweep keeps the table valid |
| FlowTable.HasDstIsExact | cmd/client/flows.go:107-112 | hasDst is true exactly when some flow goes to the destination |
| FlowTable.FlowIds.Id | cmd/client/flows.go:52-73 | gives the ID in place as the value-level table does |
| FlowTable.FlowIds.Lookup | cmd/client/flows.go:75-85 | the flow's addresses, and its activity noted |
| FlowTable.FlowIds.SweepIdle | cmd/client/flows.go:87-105 | removes exactly the idle flows from all three maps and returns how many |
| Sticky.RouteFollowsItsPackets | cmd/client/router.go:47-86 | as long as no sweep is more than the idle time ahead of a flow's latest packet, its route depends on its own packets alone |
| Sticky.RouteSurvivesExactlyWhen | cmd/client/router.go:77-86 | the route survives every moment of a run exactly under that condition, for any clock readings |
| Sticky.ChannelIsSticky | cmd/client/router.go:10-13 | while the route survives, once a packet of a flow was sent, all later ones are sent, to the same channel, whatever the port table says |
| Sticky.ForgottenIsDecidedAnew | cmd/client/router.go:51-67 | a forgotten route is decided by the owner of the moment |
| Sticky.RaceMovesAFlow | cmd/client/router.go:47-86 | a concrete run in which a sweep that read a later clock runs before a packet and the flow changes its channel |
| Sticky.ChannelIsKeptExactlyWhen | cmd/client/router.go:10-13 | up to a given packet a flow whose packets are sent keeps its channel, whatever the port table says in between, exactly when no sweep is more than the idle time ahead of its latest packet |
| Sticky.DecisionFollowsHistory | cmd/client/router.go:47-75 | while the route survives, packets go where the first known owner says, to vpn after the wait, and are held back exactly when neither happened |
| Sticky.WaitEnds | cmd/client/router.go:68-69 | no packet that comes unknownWait or more after the first is held back |
| Sticky.FlowKeptExactlyWhen | cmd/client/flows.go:52-105 | a flow keeps its ID at every moment of a run exactly when no sweep is more than the idle time ahead of its latest activity, replies included |
| Sticky.GlueFlowKeepsItsId | cmd/client/router.go:160-164 | while the flow is kept, every glue packet of it gets the same ID |
| Sticky.RaceChangesAnId | cmd/client/router.go:153-164 | a concrete run in which a sweep between the two sections of a packet gives its flow a second ID |
| Sticky.LateReplyChangesAnId | cmd/client/gluepaths.go:317 | a concrete run in which a reply with an older reading does |
| Sticky.NoFragmentSplitsAFlow | cmd/client/router.go:134-145 | while the flow is kept, a call for a UDP fragment to its destination answers that it is dropped |
| Sticky.ShortGapsKeepTheRoute | cmd/client/router.go:77-86 | with clocks that lag by at most `lag`, gaps up to the idle time less `lag` keep the route |
| Sticky.ShortGapsKeepTheId | cmd/client/flows.go:87-105 | gaps up to the idle time less twice `lag` keep the ID |
| Sticky.SoonEnoughKeepsTheId | cmd/client/flows.go:87-105 | a fragment that comes soon enough after a packet of the flow finds it kept |
| Router.UdpRouter.Classify | cmd/client/router.go:47-75 | decides and records in place as the value-level router does |
| Router.UdpRouter.Sweep | cmd/client/router.go:77-86 | forgets exactly the idle routes |
| Router.SectionsDecide | cmd/client/router.go:129-165 | the sections of a call, by the packet and the two tables alone: a UDP fragment is dropped exactly when some flow goes to its destination; a packet that is not UDP or has no payload goes to vpn and changes nothing; any other goes where the route of its source port and destination says, a decided one first, then the owner, then the end of the wait, and a glue packet gets its flow's ID, or a free one |
| Router.GameSplit.DecidePacket | cmd/client/router.go:129-165 | the same of a call without interference, in place |
| Shaping.Shaper.Wait | internal/sched/shaper.go:33-47 | refills, charges and sleeps as the value-level bucket says |
| Shaping.NewShaper | internal/sched/shaper.go:22-31 | no shaper for a limit that is not positive; a full bucket of 5 ms, at least two packets |
| Shaping.RateIsBounded | internal/sched/shaper.go:8-10 | in every window of calls the bytes granted are at most burst + rate times the time from first arrival to last release, plus what rounding the sleep down lets through, for all sizes |
| Shaping.SleepIsNeeded | internal/sched/shaper.go:33-47 | a sleep is no longer than that bound needs: it ends just when the bound of some window is met |
| Ipv4Udp.HeaderChecksum | internal/pktfilter/build.go:44-54 | both loops end; without uint32 overflow up to 65537 words the result is the complement of the folded sum |
| Ipv4Udp.HeaderSumsToOnes | internal/pktfilter/build.go:44-54 | the words of a built header sum to 0xFFFF, and no other checksum does that but for the two zeros of one's complement (RFC 791 section 3.1) |
| Ipv4Udp.BuildIPv4UDP | internal/pktfilter/build.go:13-42 | fills the packet by index; nil exactly when the payload is too big |
| Ipv4Udp.BuiltExactlyWhen | internal/pktfilter/build.go:13-42 | a byte string is the built packet exactly when each header byte is the one RFC 791 and RFC 768 put there, ports in that order, the header words sum to a multiple of 65535 with a checksum other than 0xFFFF, and the payload follows |
| Ipv4Udp.BuildThenParse | internal/pktfilter/pktfilter.go:53-112 | a built packet with any padding parses to its addresses, ports and payload, and is no fragment |
| Ipv4Udp.ParsesExactly | internal/pktfilter/pktfilter.go:53-130 | which byte strings parse, and every field of the answer by the bytes it comes from: fragments by flag and offset bits, ports and payload exactly when header and UDP length lie before the padding, and the kind of noise by address range and port |
| Ipv4Udp.PaddingIsIgnored | internal/pktfilter/pktfilter.go:78-81 | bytes after a packet's total length change only the recorded length |
| Firewall.ArgsAreUnderstood | cmd/server/vpn_setup.go:204-215 | the argument list of a rule reads back as its table, chain, operation and spec |
| Firewall.VpnFirewall.Apply | cmd/server/vpn_setup.go:298-326 | deletes the stale rules, adds the missing ones from the last up, and removes the list again when a mandatory one fails |
| Firewall.VpnFirewall.Remove | cmd/server/vpn_setup.go:328-333 | deletes each rule of the list once |
| Firewall.FailureEnds | cmd/server/vpn_setup.go:307-324 | the first mandatory rule that cannot be added ends the loop |
| FirewallChains.DeletingClearsExactlyWhen | cmd/server/vpn_setup.go:328-333 | deleting the list clears a chain of its rules exactly when none occurs more often than listed |
| FirewallChains.RemoveUndoesApplyExactlyWhen | cmd/server/vpn_setup.go:298-333 | after remove, and after a failed apply, a chain holds what it held without stale and own rules exactly when it held none of ours more often than the list does |
| FirewallChains.InstallTops | cmd/server/vpn_setup.go:305-325 | a successful apply puts the missing mandatory rules above the chain |
| FirewallChains.OrderHoldsExactlyWhen | cmd/server/vpn_setup.go:305-306 | for every rule list, equal rules counted once: the rules end up on top, in list order, exactly when those already there were the last of the list, in order, on top |
| FirewallTwice.SecondApplyChangesNothingExactlyWhen | cmd/server/vpn_setup.go:298-326 | after a success a second apply changes nothing exactly when no stale rule occurred more often than the list deletes it and no optional rule that was refused can be added now |
| VpnRules.NewVPNFirewall | cmd/server/vpn_setup.go:232-296 | the loops build the rule list and the stale list chain by chain |
| VpnPolicy.PrivateNetsAreRanges | internal/egress/egress.go:22-24 | the listed prefixes are the ranges of RFC 1918, RFC 6598 and RFC 2544 |
| VpnPolicy.ForwardingFollowsPolicy | cmd/server/vpn_setup.go:252-287 | after a successful apply on a chain whose rules of ours, none or some or all, were the last of the list on top, every forwarded packet meets the declarative policy, and else what was there before |
| VpnPolicy.ServerIsClosedExactlyWhen | cmd/server/vpn_setup.go:238-240 | after a successful apply no packet from a vpn client gets to the server itself exactly when our rule was not there before, or nothing above it lets such a packet in; other packets meet what was there |
| VpnNat.ClientsAreMasqueraded | cmd/server/vpn_setup.go:235-237 | after a successful apply a packet that leaves by the egress interface from the vpn subnet is masqueraded, unless a rule already in POSTROUTING decides otherwise; every other packet meets what was there |
| VpnNat.ConnectionsAreClamped | cmd/server/vpn_setup.go:288-294 | when iptables takes the rule, the MSS of connections towards the clients is clamped, unless a rule there before decides otherwise |
| VpnForeign.PolicyHoldsExactlyWhen | cmd/server/vpn_setup.go:298-326 | in a chain where rules of ours, in any order and number, and of others are mixed, those of others above ours leaving alone what the policy is about, apply puts the policy first exactly when each rule of ours already there has the next kind of rule below it |
| VpnForeign.ApplyFollowsPolicyExactlyWhen | cmd/server/vpn_setup.go:298-326 | the same of what a successful apply leaves in the store |
| VpnForeign.SwitchingOnPrivateWorks | cmd/server/vpn_setup.go:252-287 | when private networks are allowed after a run without them, the DROPs of that run go and every forwarded packet meets the new policy |
| VpnOrder.PartialStartLetsThrough | cmd/server/vpn_setup.go:305-306 | from a store with only the link-local DROP in FORWARD, apply succeeds and a packet to the metadata service is accepted |
| VpnOrder.DoubledStaleRuleChanges | cmd/server/vpn_setup.go:299-301 | from a store with a doubled stale rule the second apply does change something |
| VpnPolicy.StaleIsNotOurs | cmd/server/vpn_setup.go:259-286 | no stale rule is one of the rules to add |

## Left out

- Scheduling: the hash from flow key to bucket is a parameter below 1024; FlowOf's parsing of the
  5-tuple and Stats are not modelled.
- Scheduling: container/list is a sequence of references to the flow objects; a list element is a flag.
- Codel: the control law's gap is an arbitrary function of the count; the uint32 drop counter does not
  wrap (2^32 drops).
- Scheduling.Scheduler.DequeueBatch: the condition variable's wait is a result; the loop that waits and
  tries again is VpnPeer.Peer.NextBatch.
- VpnPeer.Peer.WriteTurn: write deadlines only show as failing writes; the log is left out.
- AgeFilter: durations are unbounded, so Go's saturation at 292 years does not occur.
- Multipath: pings, which bypass the duplicate check, and the envelope codec; a frame's payload is
  opaque. Epochs do not repeat: they are random 64-bit numbers.
- Multipath.RepliesPassAtMostOnce: assumes that no epoch is installed again once something of it was
  passed on and it was replaced, and, as all results here, that numbers stay within half range; what
  happens without these is stated above.
- ReplyHandling.ReplyHandler.HandleFrame: the envelope codec is a parameter, and the device takes every
  packet.
- GlueServer: sessions and sockets are values in an indexed heap instead of objects; the scan of
  makeRoomForSession, which locks sessions one by one, is one step.
- GlueServer: setWriter, logging and the wire of hello and accept messages.
- Router: the port table is an arbitrary answer at each packet; the refresher's goroutine is only the
  flag that it was asked. Route and flow records are values in the maps.
- Shaping.Shaper.Wait: reals instead of float64; that the sleep is rounded down to nanoseconds only
  shows in `Shaping.RateIsBounded`.
- Ipv4Udp: reason strings are constructors; the packet counter of BuildIPv4UDP is a parameter.
- Firewall.Iptables.Run: -C and -D are faithful and never fail for reasons of their own; -A and -I
  may. Other programs do not change the chains during a call. Specs are values instead of words.
- VpnForeign.PolicyHoldsExactlyWhen: chains where a rule of another program stands above one of ours and
  matches packets the policy is about. That the order is needed is proved for public addresses of the
  server that are public, and when some address is named by no rule.
- VpnRules: detectIptables, parseVPNSubnet, the TUN device and the ip commands of setupVPNTun.
- claimVPN and stopVPN, the SOCKS channel, transport, authentication, configuration, the tray
  program and the probes.
