# libjuice, verified in Dafny

A Dafny model of the parts of libjuice (ICE, STUN and TURN in C) in which many pieces of state have to agree,
with proofs of what they keep. `dafny verify dfyconfig.toml` checks everything.

The model takes the form of the source. Objects whose fields the library updates are classes with `modifies`
clauses; arrays that it probes, shifts or patches in place are arrays; loops are loops with invariants; the
recursive bisections and the pure computations are functions. Every method that changes state is proved against
a specification on values, and the properties are proved of that specification, most of them over whole runs.

## The parts

* **Pending connections of the mux registry** (`src/conn_mux.c`). `PendingSpec` says what the operations mean: a
  finite map of held requests, a partial function from sources to agents, and a history of what was issued,
  announced, delivered and heard. `PendingRuns` proves an invariant of nine aspects for every interleaving of the
  locked sections over any number of registries sharing one id counter; `PendingOutcomes` says exactly when each
  operation succeeds and how a request gets from its first packet to its agent; `PendingStun` puts the STUN codec
  in for the parser and the integrity check. `PendingQueues` says in which structures a request belongs at each stage, and
  `PendingLinks` what rewiring links does to lists and chains. `PendingStore` does it on nodes with their eight
  links: main list, source and fragment chains, id chains, expiry queue, and the notify and ready queues that share
  their links. `PendingRegistry` carries out the specification on them, and `SourceTable` is the probed table with
  tombstones.
* **Stopping and lifetime** (`src/conn.c`, `src/conn_mux.c`). `StopProtocol` is a machine of program counters over
  the three mutexes (mode entry, registry, callback), the mux thread, any number of calling threads, and calls
  made from inside a callback.
* **The ICE agent** (`src/agent.c`). `RoleConflict` runs two agents over a network that loses, repeats and
  reorders. `Pacing` is the restarting search for a transmission slot. `Bookkeeping` is one step of the agent's
  timer: transmissions, choice of the pair, freezing, nomination, keepalives, wake time, with the responses and
  requests that arrive between steps. `StableSort` is the insertion sort behind the pair order and the candidate
  order.
* **The TURN map** (`src/turn.c`). `TurnSpec` is a partial function from peers to permissions and channels, with
  runs of a client and of a server, and `TurnLive` how long they live on such runs. `TurnMap` is the hash table with its two sorted arrays of positions, shifted
  in place and searched by bisection.
* **The STUN codec** (`src/stun.c`). `StunWrite` and `StunRead` say what bytes a message becomes and what a byte
  string is read as; `StunWriter` and `StunReader` do it on a buffer whose header length is patched and put back;
  `StunRoundTrip` connects the two, and `StunFields` says what each type of attribute is read as. Hashes and
  checksum are arbitrary functions.
* **ICE-TCP framing** (`src/tcp.c`), in `TcpFraming`: a writer and a reader that resume after partial sends and
  receives.
* **Session descriptions** (`src/ice.c`), in `Text`, `Sdp` and `SdpDescription`: candidates and descriptions
  printed and parsed, with the conversions of `printf` and `scanf` they use.
* **Fast forms and simple ones**: the table-driven CRC-32 in `Crc32`, the buffered SHA-256 in `Sha256` and the
  HMAC on it in `Hmac`, and the server's quota in `ServerQuota`.

Time is an arbitrary input that does not run backwards. Random values are arbitrary choices, new where the source
draws again until they are. Sends, sockets and memory may fail at will.

The model follows the code. Seven properties one might expect hold only under a condition, and each is proved
to hold exactly under it or to fail: a lone header byte received over TCP is lost
(`TcpFraming.InStepIffNoLoneByte`); the even-port flag is written under the type of a channel number, and a list of
password algorithms is written unchecked, so the reader rejects such messages (`StunRoundTrip.ReadableIff`); what
the key for integrity is made of is not always in the message (`StunRoundTrip.KeyCarriedIff`); a request of a client
that has an allocation can be led to a free slot before it (`ServerQuota.OwnFoundIff`); the lite line overwrites the user name fragment and
password lines before it (`SdpDescription.LiteIsRefused`); a controlled agent compares the tiebreaker of another
controlled one with the attribute that is absent (`RoleConflict.FollowsStandardIff`); and storing a source that is
already mapped creates a second entry exactly if a tombstone lies before it
(`SourceTable.InsertMappedIffNoTombstone`), so the table relies on its callers, which store unmapped sources only.

## Model

| member | source | states |
|---|---|---|
| `Addr.HashRecord` | src/addr.c:219-251 | the byte-by-byte accumulator computes the fold over family, address and port |
| `Addr.EqualKeysHashEqually` | src/addr.c:303-316 | records that compare equal hash equally, also when the comparison looks at ports and the hash does not |
| `Addr.EqualIsIdentity` | src/addr.c:158-186 | on addresses of known families comparison with ports is identity |
| `SourceTable.FullSlotsDistinct` | src/conn_mux.c:178-196 | no source sits in two full slots |
| `SourceTable.StopsAtRoom` | src/conn_mux.c:178-217 | in a table at most half full the probe for an unmapped source always stops at a free slot or tombstone |
| `SourceTable.InsertKeeps` | src/conn_mux.c:198-217 | storing an unmapped source where the probe stops, tombstone or not, keeps the table a partial function of load at most one half |
| `SourceTable.LookupIsExact` | src/conn_mux.c:178-196 | the probe without tombstones stops at a full slot exactly for mapped sources, and at the right agent |
| `SourceTable.InsertMappedIffNoTombstone` | src/conn_mux.c:198-217 | storing a source already mapped keeps the table a partial function if and only if no tombstone lies before it, and then it is the updated one |
| `SourceTable.Table.Find` | src/conn_mux.c:178-196 | the probe stops at the first slot that ends it, or after one full turn |
| `SourceTable.Table.Lookup` | src/conn_mux.c:568-573 | answers the partial function |
| `SourceTable.Table.Insert` | src/conn_mux.c:198-217 | extends the partial function by one unmapped source, growing at most once and only when half full |
| `SourceTable.Table.Grow` | src/conn_mux.c:237-263 | rehashing into twice the size keeps the partial function and leaves less than half full |
| `SourceTable.Table.RemoveAgent` | src/conn_mux.c:219-235 | tombstoning removes exactly the sources mapped to the agent and keeps the count right |
| `SourceTable.BuryAll` | src/conn_mux.c:219-235 | turning the slots of an agent into tombstones one by one loses no other mapping |
| `PendingSpec.FragmentsExact` | src/conn_mux.c:593-607 | for every user name: the fragments found are exactly the two valid halves around its colon, and none are found otherwise |
| `PendingRuns.DropKeeps` | src/conn_mux.c:371-397 | removing any set of requests keeps the invariant |
| `PendingRuns.ExpireKeeps` | src/conn_mux.c:399-405 | so does removing the unaccepted requests that are due |
| `PendingRuns.AdmitKeeps` | src/conn_mux.c:431-461 | admitting a new attempt under a new id keeps it: order of deadlines, distinct attempts, limit |
| `PendingRuns.AnnounceKeeps` | src/conn_mux.c:466-500 | announcing the oldest request keeps announcements in increasing order |
| `PendingRuns.VerifiedKeeps` | src/conn_mux.c:1049-1066 | verification under a password keeps it |
| `PendingRuns.AttachedKeeps` | src/conn_mux.c:1068-1087 | attaching keeps ready sources pairwise distinct and unmapped |
| `PendingRuns.DeliverKeeps` | src/conn_mux.c:701-711 | delivery maps a source that was verified under the agent's password, and hands over the first packet once |
| `PendingRuns.CleanupKeeps` | src/conn_mux.c:834-853 | teardown of an agent takes its mappings and waiting requests and keeps the rest |
| `PendingRuns.ReceiveKeeps` | src/conn_mux.c:563-671 | routing of any datagram keeps the invariant |
| `PendingRuns.ListenKeeps` | src/conn_mux.c:982-1015 | a new listener, with any limit and timeout, keeps it although attached requests outlive the last one |
| `PendingRuns.BeginStopKeeps` | src/conn_mux.c:1017-1035 | stopping keeps it: nothing waits for a decision without a listener |
| `PendingRuns.StepKeeps` | src/conn_mux.c:346-500 | every locked section keeps the invariant |
| `PendingRuns.IssuesFreshId` | src/conn_mux.c:437-441 | a step issues nothing, or one id that no registry ever issued |
| `PendingRuns.RunKeeps` | src/conn_mux.c:346-500 | the invariant holds in every state of every interleaving, for all registries at once |
| `PendingRuns.NoIdTwice` | src/conn_mux.c:437-441 | no id is issued at two moments of a run, by one registry or by two |
| `PendingRuns.ExhaustedForGood` | src/conn_mux.c:437-441 | after the last of the 64-bit ids nothing is admitted |
| `PendingRuns.ToldAndDeliveredOnce` | src/conn_mux.c:466-500 | announcements are strictly increasing; deliveries are one per id and carry the packet the id was issued for |
| `PendingRuns.RoutedOnlyIfAuthorized` | src/conn_mux.c:568-626 | a mapped source was heard with a request that the agent's local password verifies |
| `PendingRuns.WaitingBounded` | src/conn_mux.c:982-1035 | unaccepted requests never exceed the limit, and there are none without a listener |
| `PendingRuns.StopAndStartAgain` | src/conn_mux.c:982-1047 | between the two halves of a stop no listener can be started; afterwards one can, and attached requests, their order, mappings and agents have come through |
| `PendingRuns.HeardAreRequests` | src/conn_mux.c:590-607 | what counts as heard was a Binding request with integrity and a valid user name |
| `PendingOutcomes.ExpireOutcome` | src/conn_mux.c:399-405 | exactly the unaccepted requests whose time is up go, each counted once, and nothing else changes |
| `PendingOutcomes.VerifyOutcome` | src/conn_mux.c:1049-1066 | the three outcomes of verification, each with its exact condition and what is different afterwards |
| `PendingOutcomes.AttachOutcome` | src/conn_mux.c:1068-1087 | the four outcomes of attaching: the agent must be ready and have both fragments and the password, the source must be free |
| `PendingOutcomes.RejectOutcome` | src/conn_mux.c:1089-1096 | both outcomes of rejecting |
| `PendingOutcomes.DeferOutcome` | src/conn_mux.c:415-462 | a packet is held, as it came and until the timeout, exactly if somebody listens, it fits, no request of its attempt is held, and there is room, memory and an id; a duplicate is counted as one, anything else rejected |
| `PendingOutcomes.DispatchOutcome` | src/conn_mux.c:466-500 | after expiry the request at hand is announced and recorded last, or dropped if its source has no name |
| `PendingOutcomes.ProcessReadyOutcome` | src/conn_mux.c:701-711 | the head leaves the queue; its source is mapped and its packet delivered exactly if its agent is ready and the table had memory; an agent that does not take it is finished |
| `PendingOutcomes.ReceiveMaps` | src/conn_mux.c:563-629 | a source is mapped by a datagram exactly if it was unmapped, no listener requires holding, and the datagram is a well-formed request of a sender that knows the password of the agent it names |
| `PendingOutcomes.ReceiveHolds` | src/conn_mux.c:575-668 | what is counted, rejected, held or passed over, for every datagram |
| `PendingOutcomes.ListenOutcome` | src/conn_mux.c:982-1015 | the outcomes of starting a listener, with its limits and defaults |
| `PendingOutcomes.BeginStopOutcome` | src/conn_mux.c:1017-1035 | the outcomes of the first half of a stop: exactly the requests no agent has been given go |
| `PendingOutcomes.FlagsOutcome` | src/conn_mux.c:934-968 | what the flags of the second half and of the other listener become |
| `PendingOutcomes.AgentsOutcome` | src/conn.c:146-194 | a new agent is as it was given; updates change its remote fragment and whether it is finished |
| `PendingOutcomes.CleanupOutcome` | src/conn_mux.c:834-853 | exactly the mappings and requests of the agent go with it |
| `PendingOutcomes.LeavesOnlyBy` | src/conn_mux.c:346-500 | over all sections: a held request is gone after a step if and only if the step is one of seven named ways to go, and no other step changes its packet, source, fragments or deadline |
| `PendingOutcomes.DrainReaches` | src/conn_mux.c:701-711 | the last request in the queue reaches its agent |
| `PendingOutcomes.AdmittedReachesAgent` | src/conn_mux.c:1049-1087 | from any state with all announcements made: a request held, announced, verified under the password of the ready agent it names, given to it and processed in time succeeds at every stage, and leaves its source mapped to that agent and its first packet delivered |
| `PendingStun.AuthenticProves` | src/conn_mux.c:620-624 | what the integrity check accepts of such a request is: an integrity attribute, and in each the keyed hash of what precedes it |
| `PendingStun.RoutedOnlyWithProof` | src/conn_mux.c:568-626 | with the STUN codec in place, every mapped source was heard with a request that carries that proof under the agent's password |
| `PendingStun.PeerCheckIsAuthentic` | src/conn_mux.c:590-624 | what a peer that knows the fragments and the password writes parses as a check of those fragments and is authentic |
| `PendingStun.PeerReachesAgent` | src/conn_mux.c:563-711 | so the first check of such a peer, byte for byte as the codec writes it, gets from the socket to the agent |
| `PendingQueues.RemovedLinked` | src/conn_mux.c:371-393 | a request taken out of all its structures leaves every other request once in each of its own |
| `PendingQueues.AddedLinked` | src/conn_mux.c:442-461 | a new request is once in the main list, its chain, its id chain, the expiry queue and the notify queue |
| `PendingQueues.StageLinked` | src/conn_mux.c:466-500 | announcing, verifying and attaching keep every request in exactly the queues of its stage |
| `PendingLinks.AppendDoubly` | src/conn_mux.c:363-369 | appending without touching the forward link of the node keeps both directions of the list, given that link is null |
| `PendingLinks.BypassDoubly` | src/conn_mux.c:346-361 | leading both neighbours, or the ends of the list, past a node gives the list without it |
| `PendingLinks.CutSingly` | src/conn_mux.c:374-379 | leading the one link to a node past it gives the chain without it |
| `PendingLinks.SharedOut` | src/conn_mux.c:354-361 | of two lists threaded through the same links, taking a node out of one leaves the other as it is and the links of the node null |
| `PendingLinks.SharedIn` | src/conn_mux.c:363-369 | a node in neither list has null links, and can be appended to one without disturbing the other |
| `PendingLinks.ChainsOut` | src/conn_mux.c:374-379 | cutting a node out of its chain disturbs no other chain of the hash table |
| `PendingStore.Store.RemoveExpiry` | src/conn_mux.c:346-352 | the links of nodes and the ends give the expiry queue without the node, whose links are null |
| `PendingStore.Store.RemoveWork` | src/conn_mux.c:354-361 | the same on the notify or ready queue, the other one undisturbed |
| `PendingStore.Store.JoinNotify` | src/conn_mux.c:363-369 | append_work on the notify queue meets a null forward link |
| `PendingStore.Store.JoinReady` | src/conn_mux.c:363-369 | append_work on the ready queue does too, for any node in neither queue, although both queues use that link |
| `PendingStore.Store.LeaveBucket` | src/conn_mux.c:372-376 | the walk over links from the bucket ends at the node and cuts it out |
| `PendingStore.Store.LeaveIdBucket` | src/conn_mux.c:377-379 | so does the walk over the chain of its id |
| `PendingStore.Store.RemovePending` | src/conn_mux.c:371-393 | the node is out of every structure, every other node is threaded as before, no head, bucket or link leads to it, and password and packet are wiped |
| `PendingStore.Store.OnlyHeldIsReached` | src/conn_mux.c:371-393 | in every state no head, bucket or link leads to a node that is not held |
| `PendingStore.Store.Add` | src/conn_mux.c:442-461 | a zeroed and filled node is threaded into both chains, the main list, the expiry and the notify queue |
| `PendingStore.Store.Announce` | src/conn_mux.c:493-494 | the head of the notify queue leaves it, with its work links cleared |
| `PendingStore.Store.HandOver` | src/conn_mux.c:1083-1085 | the node goes from the expiry queue to the end of the ready queue |
| `PendingStore.Store.Rehash` | src/conn_mux.c:990-1008 | every node is threaded into new chains of the new size, in place of its old ones |
| `PendingStore.Store.ById` | src/conn_mux.c:407-413 | following one id chain decides membership and gives the node |
| `PendingStore.Store.IsHeld` | src/conn_mux.c:421-430 | following one source and fragment chain decides whether the attempt is held |
| `PendingStore.Store.IsWaiting` | src/conn_mux.c:1079-1081 | following the ready queue decides whether a source waits in it |
| `PendingRegistry.Registry.Expire` | src/conn_mux.c:399-405 | popping the head of the expiry queue while it is due removes exactly the due unaccepted requests |
| `PendingRegistry.Registry.RemovePending` | src/conn_mux.c:371-393 | the nodes rewired, the request is gone from the abstract map, and nothing leads to its node |
| `PendingRegistry.Registry.Defer` | src/conn_mux.c:415-462 | holds the first packet of an attempt, counts duplicates and refusals, as specified |
| `PendingRegistry.Registry.Dispatch` | src/conn_mux.c:466-500 | after expiry the oldest request not announced is picked |
| `PendingRegistry.Registry.Verify` | src/conn_mux.c:1049-1066 | on the linked structures: succeeds exactly if the request is held after expiry, announced and unverified, its source unmapped and its packet authentic, and then marks it verified under the password; fails and removes it if only one of the last two is wanting; otherwise there is nothing to verify |
| `PendingRegistry.Registry.Attach` | src/conn_mux.c:1068-1087 | succeeds exactly for a held and verified request without an agent, the ready agent named by both fragments and the password, a source neither mapped nor waiting, and a thread that could be woken; every other case has its error and changes nothing |
| `PendingRegistry.Registry.Reject` | src/conn_mux.c:1089-1096 | succeeds exactly for a held request without an agent, which is then gone and counted |
| `PendingRegistry.Registry.ProcessReady` | src/conn_mux.c:701-711 | one turn of the ready loop maps, delivers and forgets the head |
| `PendingRegistry.Registry.Cleanup` | src/conn_mux.c:834-853 | the walk over the main list, which fetches the next node before the present one goes, removes the agent's mappings, requests and seat and nothing else |
| `PendingRegistry.Registry.AddAgent` | src/conn.c:146-194 | seats a new agent in the first free slot, enlarging the array if need be; without memory or if the connection does not start nothing is seated; every agent keeps exactly one seat |
| `PendingRegistry.Registry.Listen` | src/conn_mux.c:982-1015 | starts a listener; requests already attached are threaded into the new chains |
| `PendingRegistry.Registry.BeginStop` | src/conn_mux.c:1017-1035 | detaches the listener and drops the unaccepted requests by the same walk |
| `PendingRegistry.Registry.Receive` | src/conn_mux.c:563-671 | routes one datagram as specified |
| `StopProtocol.StepKeeps` | src/conn.c:106-226 | every step of every thread keeps the invariant of locks, stoppers, lifetime, callbacks and generations |
| `StopProtocol.RunKeeps` | src/conn.c:106-351 | so does every interleaving |
| `StopProtocol.StopIsABarrier` | src/conn_mux.c:1017-1047 | once a stop has returned no callback of that listener runs then or later |
| `StopProtocol.NeverDestroyedUnderACallback` | src/conn_mux.c:466-500 | in every state, while a callback runs the registry is live and its listener is installed or its stop has not returned; a registry that is gone has no mux thread, agent or stopper |
| `StopProtocol.NoAbandonedRegistry` | src/conn_mux.c:970-980 | whenever the registry mutex is free, a registry in the table has an agent, a listener or the closing flag |
| `StopProtocol.NobodyIsStuck` | src/conn.c:292-351 | a thread inside the library can move, or the thread it waits for can, also when a callback calls back in |
| `StopProtocol.CallsStart` | src/conn.c:134-226 | when exactly a call can start |
| `StopProtocol.EnterOutcome` | src/conn.c:49-104 | a call gets into the registry there is, makes one if it needs one, and is over otherwise |
| `StopProtocol.ActOnAgents` | src/conn.c:146-218 | agents come and go with the calls that create and destroy them, and with no other |
| `StopProtocol.ActOnListeners` | src/conn_mux.c:934-1047 | which call sets, clears or takes out which listener, and the closing flag, under which condition |
| `StopProtocol.ActLeadsTo` | src/conn.c:106-132 | a registry is given up by the call that leaves it unused, and by no other; a stop that has begun goes on |
| `StopProtocol.MuxLoop` | src/conn_mux.c:466-500 | the mux thread ends exactly if the registry is unused or polling fails, and calls the listener installed when it finds a request |
| `StopProtocol.StepsAdvance` | src/conn.c:292-351 | a call is out of the library after at most ten steps of its own, and no other step moves it |
| `StopProtocol.StopStops` | src/conn.c:315-330 | on every run: a stop that took listener g out has stopped it when its thread is out of the library, and from then on no callback of g runs |
| `RoleConflict.Endpoint.Switch` | src/agent.c:2629-2644 | a change of role expires the transaction id of every check |
| `RoleConflict.Endpoint.Lookup` | src/agent.c:2668-2684 | the scan finds the first entry with the id |
| `RoleConflict.RetransmissionIsSame` | src/agent.c:1708-1738 | until its id expires, sending an entry again sends the very same request |
| `RoleConflict.TransmitSends` | src/agent.c:1708-1738 | a transmission goes out under a new id exactly for a keepalive or an expired id, with the tiebreaker under the role of the moment |
| `RoleConflict.AnswerIs` | src/agent.c:1440-1511 | a request is answered with 400 if it does not name one role, with the given code if the roles do not clash, and otherwise with 487 or by giving way |
| `RoleConflict.RepeatedRequest` | src/agent.c:1440-1486 | a request delivered again does not move the agent a second time |
| `RoleConflict.FollowsStandardIff` | src/agent.c:1454-1486 | the agent does what section 7.3.1.1 of RFC 8445 asks if and only if it is not a controlled agent that meets a controlled one with a larger tiebreaker; then it takes the controlling role all the same |
| `RoleConflict.BothControlledBothSwitch` | src/agent.c:1474-1486 | two controlled agents that hear each other both become controlling |
| `RoleConflict.RepeatedConflict` | src/agent.c:1616-1642 | a conflict answer delivered again changes nothing: the entry remembers the role its request was sent in |
| `RoleConflict.TransmitKeepsIds` | src/agent.c:948-971 | sending keeps one pair of role attributes per id |
| `RoleConflict.StrongStays` | src/agent.c:1454-1466 | nothing in the network moves the agent with the larger tiebreaker |
| `RoleConflict.ConflictAnswersControlling` | src/agent.c:1616-1642 | a conflict answer names a request sent as controlling, and the entry still remembers that |
| `RoleConflict.StepKeeps` | src/agent.c:1429-1642 | every step of either agent keeps the invariant |
| `RoleConflict.LargerKeepsControlling` | src/agent.c:1454-1466 | under any loss, duplication and reordering the larger tiebreaker stays controlling |
| `RoleConflict.SmallerYieldsOnce` | src/agent.c:1616-1642 | the other becomes controlled at most once and never goes back |
| `RoleConflict.OneRolePerId` | src/agent.c:1708-1738 | no transaction id is ever sent with two sets of role attributes |
| `RoleConflict.RequestRepairs` | src/agent.c:1454-1466 | one delivered request of the winner ends the conflict |
| `RoleConflict.ConflictAnswerRepairs` | src/agent.c:1454-1466 | a request of the loser is always answered with a conflict, and the answer ends it if it comes in time |
| `Pacing.FindSlot` | src/agent.c:2577-2589 | the restarting search ends at the earliest slot 50 ms from every other armed entry, each of which pushes at most once by less than 100 ms |
| `Pacing.SlotIsUnique` | src/agent.c:2577-2589 | the slot does not depend on the order of the entries |
| `StableSort.SortIsStable` | src/ice.c:260-275 | elements of equal priority keep their order |
| `StableSort.SortedDescends` | src/ice.c:260-275 | the result descends by priority |
| `StableSort.SortPermutes` | src/ice.c:260-275 | the result has the same elements |
| `StableSort.SortInPlace` | src/ice.c:260-275 | shifting in place computes the sort |
| `StableSort.RankPairs` | src/agent.c:2646-2658 | so does the insertion of positions into the pointer array |
| `StableSort.RankedPairs` | src/agent.c:2646-2658 | every pair is listed once, by descending priority |
| `Bookkeeping.Agent.Arm` | src/agent.c:2557-2590 | arming picks the earliest free slot from the time asked for, resets timeout and retransmissions of a pending entry by its kind and transport, and changes no other entry |
| `Bookkeeping.Agent.ArmKeepalive` | src/agent.c:2528-2555 | likewise, leaving the entry in keepalive with its id expired and nothing else changed |
| `Bookkeeping.Agent.TransmitEntry` | src/agent.c:921-1066 | a due check is sent: one retransmission less, next after its timeout or the last one, timeout doubled; it fails, and its pair, if and only if none is left or the sending fails; one not due is unchanged; a keepalive whose consent ran out fails its pair, one that is due is sent and armed again; a server that fails may end gathering |
| `Bookkeeping.Agent.Transmit` | src/agent.c:918-1067 | the same for every entry; exactly the pairs of the entries that failed have failed; nothing is overdue but what awaits a TCP connection; consent of kept pairs lies ahead |
| `Bookkeeping.UnansweredFails` | src/agent.c:933-978 | over any steps: a check that is never answered is sent seven times, and given up no earlier than 39500 ms after the first sending, the connectivity timer; a request to a server six times and 23500 ms, over TCP once and 8000 ms |
| `Bookkeeping.UnansweredEnds` | src/agent.c:933-978 | and it is given up: exactly by the eighth due step (seventh, second) |
| `Bookkeeping.TickWaits` | src/agent.c:963-971 | a sending turns exactly as much patience into waiting |
| `Bookkeeping.Agent.Select` | src/agent.c:1069-1096 | one pass finds the first nominated and the chosen pair and freezes what cannot improve on it |
| `Bookkeeping.ChoiceIsHighest` | src/agent.c:1069-1096 | the choice is the nominated pair of highest priority, else the succeeded one |
| `Bookkeeping.SettledStops` | src/agent.c:1086-1095 | without a nomination no pair ranked below the choice of a controlling agent stays pending |
| `Bookkeeping.SettledIsFrozen` | src/agent.c:1069-1096 | stopping checks changes nothing but pending pairs, and the count is zero exactly if none is left |
| `Bookkeeping.SettledOnly` | src/agent.c:1086-1095 | without a nomination the pass stops exactly what is ranked below the choice |
| `Bookkeeping.FrozenOnly` | src/agent.c:1098-1111 | with one, both passes stop exactly the other pending pairs |
| `Bookkeeping.OnlyStoppedForBetter` | src/agent.c:1086-1111 | a check is stopped by a controlling agent only, for a pair that is nominated or ranks no lower |
| `Bookkeeping.Agent.StopChecks` | src/agent.c:1069-1111 | both passes stop exactly the pending checks that give way to the nominated pair or, without one, to a chosen pair ranked above; a controlled agent freezes nothing |
| `Bookkeeping.Agent.CancelFrozen` | src/agent.c:1113-1123 | exactly the entries of frozen pairs that had begun are cancelled |
| `Bookkeeping.Agent.Complete` | src/agent.c:1152-1192 | the nominated entry and its relay are kept alive, armed if they were not, every other keepalive ends, and nothing else changes; the entry to send from is the nominated one |
| `Bookkeeping.Agent.Connect` | src/agent.c:1194-1219 | nomination of the chosen pair is requested if and only if the agent is controlling, has not asked yet, and nothing is left to check or time is up; then its check is due at once under a new id; otherwise nothing changes but the wake time |
| `Bookkeeping.Agent.NextWake` | src/agent.c:1234-1248 | with one pair kept alive the wake time is no later than any armed transmission or its consent expiry; it is always one of these or the time it started from |
| `Bookkeeping.Agent.UpdateSelected` | src/agent.c:1133-1150 | a newly selected pair brings its entry to send from, and for a controlling agent a nomination timer of two seconds |
| `Bookkeeping.Agent.Checks` | src/agent.c:918-1123 | transmission, choice and cancelling together: what becomes of every entry that is not kept alive |
| `Bookkeeping.Agent.Bookkeep` | src/agent.c:909-1249 | from a state that steps and responses keep, to one: every server entry, and every check of a pair not in use, has made exactly its step; the best pair, if any, is in use; checks are stopped below the choice and only for it; nomination is asked for exactly when nothing is left to check or time is up; the agent gives up if the nominated pair is lost, or if no pair is usable, none is being checked and the connectivity timer is due, and otherwise a step does not make it give up; with a nominated pair one path is kept alive and the agent wakes in time |
| `Bookkeeping.SortRanks` | src/agent.c:2646-2658 | the sorted order is the ranking the step relies on |
| `Bookkeeping.BackoffNext` | src/agent.c:963-971 | doubling the timeout while a retransmission is used up keeps it within 32 seconds |
| `Bookkeeping.Agent.UpdateGathering` | src/agent.c:2592-2627 | gathering is done once no server or relay transaction is pending; the connectivity timer then starts if the remote side is known, and never twice |
| `Bookkeeping.Agent.OnSuccess` | src/agent.c:1525-1602 | a success response makes its pair succeeded, with new consent and the nomination asked for, or failed if not symmetric; its entry is kept alive from then on unless a nominated pair is in use; a server may end gathering |
| `Bookkeeping.Agent.OnError` | src/agent.c:1643-1652 | an error response fails the entry and its pair, and keeps it |
| `Bookkeeping.Agent.OnRequest` | src/agent.c:1487-1522 | a request nominates a pair that has succeeded; any other pair it marks for nomination and, with the remote side known, checks at the earliest slot after the pacing time |
| `Bookkeeping.Agent.OnConflict` | src/agent.c:1616-1637 | a role conflict changes roles, ranks the pairs again, expires every check and sends this one at the earliest slot |
| `Bookkeeping.Agent.OnRoleChange` | src/agent.c:2629-2644 | the pairs get the priorities of the new role and their ranking, and every check its id expired |
| `TurnSpec.KeysMatch` | src/turn.c:157-168 | keys are equal exactly when the comparison says so, ports counting for channels only, and then hash equally |
| `TurnSpec.BindKeeps` | src/turn.c:265-323 | binding keeps each channel to one peer and moves no binding |
| `TurnSpec.ServerRunKeeps` | src/turn.c:182-323 | on every server run each channel has one peer and each peer keeps its first channel |
| `TurnSpec.ClientRunKeeps` | src/turn.c:182-514 | on every client run too, and every id in the map was issued for its peer |
| `TurnSpec.LiveOnlyAfterResponse` | src/turn.c:203-217 | a permission or channel reported live was preceded by an id issued for that peer and then a response carrying it |
| `TurnLive.PermitLives` | src/turn.c:182-217 | a permission accepted under an id not stored before is live for every port of the address until its expiry and no longer; a repeated or refused request changes nothing, and no other entry ever changes |
| `TurnLive.BindAllowed` | src/turn.c:276-302 | when exactly a channel can be bound, and that a first binding remembers its id |
| `TurnLive.BindLives` | src/turn.c:265-323 | a bound or renewed channel is live until its expiry and no longer, and nothing else changes |
| `TurnLive.ConfirmLives` | src/turn.c:203-217 | a response makes exactly the entry of its kind with its id live until its expiry |
| `TurnLive.ServerPermissions` | src/turn.c:182-263 | on every server run a permission is live at a time if and only if the last request for the address that changed the map expires later |
| `TurnLive.ServerChannels` | src/turn.c:265-369 | the same for channels and their last binding or renewal |
| `TurnLive.ServerChannelIs` | src/turn.c:285-293 | and the channel is the one asked for then |
| `TurnLive.ClientLives` | src/turn.c:203-217 | on every client run an entry is live if and only if the last answer about its peer expires later |
| `TurnLive.ClientPermissions` | src/turn.c:257-263 | so for permissions |
| `TurnLive.ClientChannels` | src/turn.c:357-369 | and for channels, if one was bound |
| `TurnLive.CarriesLastIssued` | src/turn.c:411-437 | the id a response must have is the one issued last for the peer |
| `TurnLive.SameIdUntilMet` | src/turn.c:455-464 | until a response comes, requests about the peer are made under the same id |
| `TurnLive.NewIdAfterMet` | src/turn.c:499-514 | and then under a new one |
| `TurnMap.ProbeIsExact` | src/turn.c:157-180 | the probe stops at the key's own slot, at an empty one, or nowhere exactly if the table is full |
| `TurnMap.BisectIsScan` | src/turn.c:81-123 | on a sorted array bisection agrees with a linear scan |
| `TurnMap.SearchIsExact` | src/turn.c:81-123 | and finds the one slot that has the number |
| `TurnMap.MoveIndexed` | src/turn.c:411-437 | taking the old id out and entering the new one keeps the array sorted and exact |
| `TurnMap.AddIndexed` | src/turn.c:309-314 | so does entering a new channel |
| `TurnMap.IndexedFits` | src/turn.c:219-237 | the arrays never outgrow the table |
| `TurnMap.IdSearch` | src/turn.c:439-453 | the id search finds exactly the entry of the partial function that carries the id |
| `TurnMap.ChannelSearch` | src/turn.c:371-389 | the channel search finds exactly the peer bound to the channel |
| `TurnMap.Map.Find` | src/turn.c:157-180 | a place is found exactly if the key has one or one is free |
| `TurnMap.Map.Permit` | src/turn.c:182-217 | installs or refreshes the permission of the partial function; if accepted, every port of the address has it until the expiry and no longer; a repeated request changes nothing |
| `TurnMap.Map.Confirm` | src/turn.c:203-217 | makes live exactly the entry of that kind that carries the id |
| `TurnMap.Map.Bind` | src/turn.c:265-323 | binds, renews or refuses as specified; if bound, the peer has the channel until the expiry and no longer |
| `TurnMap.Map.Issue` | src/turn.c:455-477 | returns the id still waiting for an answer, or enters a new one |
| `TurnMap.Map.Retrieve` | src/turn.c:499-514 | recognises exactly the ids carried, and returns the peer |
| `TurnMap.Map.HasPermission` | src/turn.c:257-263 | a live entry for the address, whatever the port |
| `TurnMap.Map.GetChannel` | src/turn.c:346-355 | the channel of the peer, live or not |
| `TurnMap.Map.GetBoundChannel` | src/turn.c:357-369 | the channel of the peer if bound and live |
| `TurnMap.Map.FindChannel` | src/turn.c:371-389 | the peer of the channel |
| `TurnMap.Map.FindBoundChannel` | src/turn.c:391-409 | the peer of the channel if live |
| `StunReader.UpdateHeaderLength` | src/stun.c:405-410 | overwrites two bytes and returns what they said |
| `StunReader.PatchBack` | src/stun.c:405-410 | putting the old length back restores the buffer |
| `StunReader.CheckFingerprint` | src/stun.c:734-754 | compares with the checksum of what precedes, and leaves the buffer as it was |
| `StunReader.ReadAttribute` | src/stun.c:612-1032 | one attribute as specified, buffer unchanged; what each type does is stated by the StunFields lemmas |
| `StunReader.ReadMessage` | src/stun.c:514-610 | reads as specified over exactly the attribute offsets, buffer unchanged |
| `StunReader.CheckIntegrity` | src/stun.c:1087-1163 | after a successful read: stays in bounds, goes through the same offsets, leaves the buffer unchanged |
| `StunReader.WalkAcceptsGenuine` | src/stun.c:1087-1163 | accepts exactly if there is an integrity attribute and each carries the keyed hash of what precedes it |
| `StunRead.ReadIsWellFormed` | src/stun.c:543-550 | after a successful read every attribute lies within the message |
| `StunRead.NothingAfterIntegrity` | src/stun.c:636-644 | after an integrity attribute nothing but the fingerprint flag changes |
| `StunRead.NothingAfterFingerprint` | src/stun.c:614-619 | nothing follows an accepted fingerprint, and the flag means there was one that matches |
| `StunRead.FieldsFromPrefix` | src/stun.c:612-644 | accepted messages that agree before an integrity attribute give the same fields, whatever follows |
| `StunFields.RealmRead` | src/stun.c:755-765 | type 0x0014 of at most 763 bytes sets the realm to its value up to the first zero byte, and nothing else |
| `StunFields.NonceRead` | src/stun.c:766-802 | type 0x0015 likewise the nonce, and in a response the security bits after the cookie |
| `StunFields.TextIsUnique` | src/stun.c:761-762 | there is one text that is the value up to its first zero byte |
| `StunFields.UsernameRead` | src/stun.c:705-715 | type 0x0006 the user name |
| `StunFields.AlgorithmRead` | src/stun.c:803-822 | type 0x001D sets one of the two algorithms, in requests only |
| `StunFields.AlgorithmsRead` | src/stun.c:823-873 | type 0x8002 keeps the list, and in a request takes the first algorithm that is known or rejects a list cut short before one |
| `StunFields.FirstOffer` | src/stun.c:837-871 | unknown offers are skipped with their padded parameters, whatever follows |
| `StunFields.ListSplits` | src/stun.c:840-862 | every byte string is such a list and a rest, so the law covers all |
| `StunFields.UserhashRead` | src/stun.c:874-883 | type 0x001E sets the user hash |
| `StunFields.AddressRead` | src/stun.c:647-669 | types 0x0001 and 0x8023 set the mapped address and the alternate server to the address as it stands |
| `StunFields.MaskedAddressRead` | src/stun.c:654-661 | types 0x0020 and 0x0016 set the mapped and the relayed address under the mask, the last one counting |
| `StunFields.PeerAddressRead` | src/stun.c:952-966 | type 0x0012 adds a peer, up to eight |
| `StunFields.CheckRead` | src/stun.c:896-930 | the four types of connectivity checks |
| `StunFields.RelayRead` | src/stun.c:931-1021 | the types of relaying |
| `StunFields.EvenPortRead` | src/stun.c:981-990 | type 0x0018 sets the flag, and its high bit the other |
| `StunFields.ErrorCodeRead` | src/stun.c:670-695 | type 0x0009 sets the code from its class and number |
| `StunFields.TransportRead` | src/stun.c:991-1006 | type 0x0019 is accepted for UDP only |
| `StunFields.OthersIgnored` | src/stun.c:1022-1029 | all other types are passed over |
| `StunFields.FinishMarks` | src/stun.c:556-607 | exactly an error whose list of algorithms was taken out, and a request whose list or choice is not as offered, are marked |
| `StunFields.MessageTexts` | src/stun.c:514-610 | user name, realm and nonce of a message are those of the last attributes of their types before integrity, and otherwise empty |
| `StunFields.KeyIs` | src/stun.c:56-90 | the key is the password, or the hash of user, realm and password, and is never cut off |
| `StunBytes.U64Back` | src/stun.c:35-41 | network byte order is undone by reading two halves |
| `StunBytes.MaskedBack` | src/stun.c:433-474 | masking twice restores an address |
| `StunRoundTrip.AttrBack` | src/stun.c:412-431 | a written attribute is read back with type, length, value and next offset |
| `StunRoundTrip.HostBack` | src/stun.c:433-474 | a masked address is read back, for both families |
| `StunRoundTrip.PeersBack` | src/stun.c:191-207 | a list of peers is read back in order |
| `StunRoundTrip.IceBack` | src/stun.c:147-173 | priority, nomination flag and both tiebreakers are read back |
| `StunRoundTrip.CodeIsExact` | src/stun.c:119-132 | an error code is read back exactly if below 800 |
| `StunRoundTrip.RoundTrip` | src/stun.c:104-387 | reading what was written succeeds, checks the fingerprint and returns every field carried, with short-term and with long-term credentials |
| `StunRoundTrip.ReadableIff` | src/stun.c:229-331 | what was written is readable if and only if the even-port flag is unset and a list of password algorithms it carries is long enough and, in a request, not cut short |
| `StunRoundTrip.NothingLost` | src/stun.c:104-387 | on messages whose fields all have attributes, what is carried is the message: also realm and nonce, and the choice of an algorithm with its list |
| `StunRoundTrip.LongTermBack` | src/stun.c:286-333 | realm, nonce, list and choice are read back, or the list rejected |
| `StunRoundTrip.KeyCarriedIff` | src/stun.c:56-90 | exactly when a message carries what its key is made of |
| `StunRoundTrip.IntegrityAcceptedBy` | src/stun.c:334-367 | and by any receiver whose credentials make the same key, such as one that has filled in the user name |
| `StunRoundTrip.IntegrityAccepted` | src/stun.c:334-367 | the integrity check accepts it under the same password, for all hash functions, if the message carries what the key is made of |
| `StunWriter.WriteAttr` | src/stun.c:412-431 | header, value and padding, nothing else touched |
| `StunWriter.Sign` | src/stun.c:334-367 | each hash covers what precedes it under the length the message will then have |
| `StunWriter.Write` | src/stun.c:104-387 | the buffer holds the specified bytes, and those past the message are untouched |
| `TcpFraming.WriteContext.Write` | src/tcp.c:48-85 | over any split of sends the stream is the frames of what was accepted, up to the part not sent yet; a call gets exactly as far as its sends take it, and reports success exactly if the frame is out |
| `TcpFraming.WireIsPrefix` | src/tcp.c:48-85 | the stream is always a prefix of those frames |
| `TcpFraming.SentInTheEnd` | src/tcp.c:68-81 | a frame is out after as many sends that take something as it has bytes left |
| `TcpFraming.SentWithin` | src/tcp.c:68-81 | the sends never go beyond the frame or back |
| `TcpFraming.ReadContext.Read` | src/tcp.c:88-144 | a call receives until a datagram is complete or nothing more comes, and resumes where it stopped |
| `TcpFraming.CallDelivers` | src/tcp.c:88-144 | it delivers the next datagram that is not empty, to its last byte and no further |
| `TcpFraming.RunDelivers` | src/tcp.c:88-144 | in every state the datagrams whose frames were consumed have been delivered, in order and unaltered |
| `TcpFraming.AllDelivered` | src/tcp.c:88-144 | after the whole stream all have |
| `TcpFraming.DriveIsFeeds` | src/tcp.c:88-144 | a call of the reader is a sequence of single receives |
| `TcpFraming.SessionDelivers` | src/tcp.c:48-144 | for any interleaving of writes and reads without a lone header byte, what was delivered is, in order and unaltered, a prefix of what was accepted without its empty datagrams |
| `TcpFraming.SessionDeliversAll` | src/tcp.c:48-144 | once all that was accepted is sent and received, all of it has been delivered |
| `TcpFraming.InStepIffNoLoneByte` | src/tcp.c:132-138 | a receive keeps the reader in step if and only if it does not return a lone header byte |
| `TcpFraming.LoneByteLosesDatagram` | src/tcp.c:132-138 | a one-byte datagram whose frame arrives as one byte and then two is not delivered by the end of the stream |
| `Sdp.CandidateBack` | src/ice.c:339-381 | printing and parsing a host, server-reflexive or relayed candidate, over UDP or active TCP, returns all its fields |
| `Sdp.TcpCandidateBack` | src/ice.c:84-110 | a TCP candidate line of a peer, in either case, gives an active, passive or simultaneous-open candidate by its last word, and is ignored with any other |
| `Sdp.UdpCandidateBack` | src/ice.c:84-118 | a UDP line gives a UDP candidate, any other transport none |
| `Sdp.UnknownTypeIgnored` | src/ice.c:87-99 | a type that cannot be used is ignored |
| `Sdp.LoneWordMalformed` | src/ice.c:76-82 | a single word after the type makes the line malformed |
| `Text.NumberBack` | src/ice.c:76-78 | a number printed in decimal is scanned back |
| `SdpDescription.CandidatesBack` | src/ice.c:241-258 | candidate lines add the candidates in order |
| `SdpDescription.DescriptionBack` | src/ice.c:121-155 | printing and parsing a description returns fragment, password, the finished flag and the public candidates by priority |
| `SdpDescription.CandidatesSorted` | src/ice.c:260-275 | they come back stably sorted, none lost |
| `SdpDescription.CandidateLineRead` | src/ice.c:57-63 | a candidate line is never an error: usable ones are added while there is room, a dash replaced by a number |
| `SdpDescription.ParsedIsSound` | src/ice.c:121-155 | every text that parses gives a fragment and a password of allowed length and characters, and at most thirty candidates by descending priority |
| `SdpDescription.LiteIsRefused` | src/ice.c:304-310 | a lite description is refused by the parser |
| `SdpDescription.Generate` | src/ice.c:292-337 | the rounds produce the specified lines |
| `SdpDescription.ParseText` | src/ice.c:121-155 | the character loop with its line buffer computes the specified result |
| `Crc32.TableIsShift` | src/crc32.c:16-49 | each of the 256 entries is its index shifted eight times |
| `Crc32.Shift8IsLinear` | src/crc32.c:11-13 | eight shifts are linear over exclusive or |
| `Crc32.LookupIsShift` | src/crc32.c:53-54 | one lookup does the work of eight single steps |
| `Crc32.Compute` | src/crc32.c:51-60 | for every byte string the loop computes the checksum one bit at a time |
| `Sha256.Context.Update` | src/picohash.h:585-611 | however the message is cut up, the context is the fold over its whole blocks and the remainder |
| `Sha256.TailIsPadding` | src/picohash.h:529-560 | what is compressed at the end is exactly the padding of section 5.1.1 of FIPS 180-4 |
| `Sha256.GapIsSmallest` | src/picohash.h:537-555 | the number of zeros is the smallest that works |
| `Sha256.Context.Final` | src/picohash.h:529-569 | the digest is the hash of the whole message |
| `Hmac.HmacContext.ApplyKey` | src/picohash.h:693-701 | the masked key is hashed and the key is the same afterwards |
| `Hmac.HmacContext.Final` | src/picohash.h:703-715 | the digest is the nested construction of section 2 of RFC 2104 |
| `Hmac.HmacContext.Reset` | src/picohash.h:717-721 | ready for another text under the same key |
| `Hmac.Compute` | src/hmac.c:47-50 | key preparation, update and final together |
| `ServerQuota.TakeConserves` | src/server.c:904-908 | a new allocation charged to its owner keeps quota plus live allocations at what was granted |
| `ServerQuota.GiveBackConserves` | src/server.c:78-89 | so does giving one back |
| `ServerQuota.RenewConserves` | src/server.c:915-916 | and renewing one |
| `ServerQuota.Server.Find` | src/server.c:62-76 | the probe stops at the first slot on its path that no other client holds, or finds that others hold all |
| `ServerQuota.OwnFoundIff` | src/server.c:62-76 | a client is led to its allocation if and only if every slot before it on its path is in use |
| `ServerQuota.OwnMissed` | src/server.c:62-76 | a case in which it is not |
| `ServerQuota.Server.Delete` | src/server.c:78-89 | gives one back to the owner |
| `ServerQuota.Server.Process` | src/server.c:839-987 | looks at the slot where the probe stops; answers success, 486, 437, 441 and 500 each exactly in its cases; on success exactly one slot changes; an error other than 500 changes nothing; a 500 before the allocation changes nothing, one after it leaves the slot deleted and the quota given back; quota plus live allocations stays what was granted, on every path |
| `ServerQuota.Server.Bookkeep` | src/server.c:589-607 | exactly the due allocations go, the rest expire later than now, and the wake time is the first expiry or a minute from now, whichever is sooner |

## Left out

- Sockets, poll loops, address resolution, logging and threads of the operating system: only their results appear, as inputs.
- User callbacks that re-enter the registry from a delivery to an agent: that call is taken as not touching registry state.
- The rounds of MD5, SHA-1 and SHA-256: the compression function is arbitrary.
- SourceTable.Table.Insert: for unmapped sources; both call sites look the source up first or hold it as ready, and `PendingRuns.RunKeeps` shows ready sources unmapped.
- RoleConflict.Endpoint.Lookup: among connectivity checks only; ids kept in the TURN map of a relay entry are the subject of `TurnMap.Map.Retrieve`.
- RoleConflict.OneRolePerId: random transaction ids are taken as new; a collision of random ids is not modelled.
- StunWriter.Write: requires the message to fit the buffer and its length to fit the header; what happens otherwise is not modelled.
- StunRoundTrip.RoundTrip: for messages whose length fits the header and whose fields hold what their arrays can: texts without a zero byte and at most as many peers as the reader keeps.
- StunReader.CheckIntegrity: for buffers that were read before, as the library does.
- RoleConflict.StepKeeps: for two agents that start controlling with different tiebreakers, neither zero; runs in which both start controlled are not claimed about, and `RoleConflict.BothControlledBothSwitch` shows how they can begin.
- Bookkeeping.Agent.NextWake: with several pairs kept alive before nomination the consent of the chosen pair is taken for all, so the wake time is claimed for one pair only.
- Pacing.FindSlot: for times whose differences fit an int, as the cast in the search needs; the Bookkeeping methods ask for times within three weeks of an epoch, which implies it.
- Bookkeeping.Agent.OnRequest: the response it sends is taken as sent.
- Bookkeeping.Agent.ArmKeepalive: the period, which depends on the kind of entry and a random number, is an input.
- Bookkeeping.Agent.Bookkeep: the callbacks it makes are taken as not changing the agent; creation of candidates, pairs and entries is left out.
- TurnMap.Map: client and server use are proved separately, since the path by record does not enter ids into the array; drawing random values ends only with probability one and is modelled as a choice.
- ServerQuota.Server: growth of the table is left out, and so are credentials that expire while owning allocations; allocations are not unique per client, as `ServerQuota.OwnFoundIff` shows.
- SdpDescription.Generate: the output buffers are taken as large enough, so truncation is not modelled.
- SdpDescription.DescriptionBack: for candidates whose words fit the widths of the parser and whose foundation is not a lone dash, which is replaced by a number when the candidate is added.
- TcpFraming: errors of the socket other than getting nothing.
- PendingOutcomes.AdmittedReachesAgent: with no other section run in between; what others can do to the request is `PendingOutcomes.LeavesOnlyBy`.
- Priorities of candidates and pairs, Base64, nonces and the forwarding of relayed data: they would add only easy members.
