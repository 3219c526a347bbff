# The core of a Mainline DHT node, verified in Dafny

`mainline` is a Rust implementation of BitTorrent's Mainline DHT. This project models
everything a node does between the decoded message and the caller's channel, and proves
what the documentation and the `.expect("Query was dropped before sending a response…")`
calls of `src/dht.rs` rely on: no caller is left waiting, lookups and puts end, a finished
query is final, and the bookkeeping is exact, over every run. Where a promise fails, the
exact condition is proved and a concrete run of a new node shows the failure.

The files follow the program:

- `Ids`, `Bep42`, `Nodes`: identifiers and XOR distance, BEP 42 identifiers (with the real
  CRC-32C), and the duplicate rule for nodes of one address.
- `ClosestNodes`, `RoutingTable`: the ordered candidate set and the bucket table, as classes
  whose methods refine pure functions.
- `Sockets`: transaction ids, the table of requests in flight, its lazy and its periodic expiry.
- `IterativeQueries`, `PutQueries`, `QueryCache` (with the LRU in `Lru`), `MutableItems`,
  `Server` (with `Tokens`), `Peers`: one lookup, one store, the cache of finished lookups,
  BEP 44 items, and the storage server with its announced peers.
- `Rpc`: the engine as a transition system. `RpcObject` is the same engine as the object the
  source has, built on the socket, routing table and cache objects, each method and loop
  proved to compute that transition. `Actor` and `ActorObject` do the same for the loop of
  `src/dht.rs`, and `Panics` adds the ways answers and calls can end its thread: an assertion
  and, where overflow is checked, a count that overflows.
- `Answers`, `RpcResponses`, `RpcMaintenance`, `ServerRules`, `TokenBinding`: what callers are
  told, what an accepted answer, the periodic step and a launched lookup do, what the storage
  server answers, and what a token proves, all in terms of what can be observed.
- `RpcReports`, `RpcSockets`, `RpcEngine`, `RpcCounts`, `RpcOutcomes`, `RpcLiveness`,
  `RpcFinality`, `RpcTallies`, `RpcPuts`, `RpcResolution`, `RpcReachability`: what each part of a tick
  keeps, and the theorems over whole runs.
- `RpcRuns`: the theorems for the whole life of a node that starts from `Rpc::new`.
- `Scenarios`, `PanicScenario`, `SentScenario`, `OverflowScenario`, `ConflictScenario`,
  `StallScenario`, `CachedStallScenario`, `SharedScenario`: concrete runs of a new node that
  fail as described below.

Inputs of a step are what the program does not decide: the clock (read once per step, in
milliseconds), the iteration order of hash maps (any order that enumerates the map), random
bytes, the message of a caller and the datagram received. SHA-1 and Ed25519 are opaque
functions in `Crypto`; the size estimate and the expected distance, computed in floating
point, are functions of the environment. A query carries a stamp `born`, the number of
requests sent before it existed; only hypotheses read it. They say that fewer than 2^32
requests are sent during the life of one query, so that its ids are not reused. A put also
carries `received`, the history of the errors it was handed; only theorems read it. `u8` error
counts and `u16` vote counts wrap around, and the environment says whether the node was built
with overflow checks. A valid run is one that keeps the thread alive: `PutQuery::start` never
gets more than the 255 closest nodes it asserts, and with overflow checks no count overflows;
`SurvivesExactly` proves that this is exactly when it lives.

## What the code does that its documentation does not say

- `RoutingTable::add` never refreshes a node that answers again: the node's own entry blocks
  it before `KBucket::add` is reached, so `last_seen` stays at the first insertion, against
  the comment at src/common/routing_table.rs:205-213 (`AddNeverRefreshes`).
- `Node::already_exists` promises one insecure or eight secure nodes per address. It allows
  both at once, and because it asks only the earlier node for its security, an insecure node
  that comes first hides secure ones: `closest` is the twenty least nodes of the table if and
  only if none of those is hidden (`ClosestIsLeast`).
  `ClosestMissesSecureNode` gives a table of two nodes.
- Nothing caps the list handed to `PutQuery::start`, which asserts at most 255 nodes
  (src/rpc/put_query.rs:53-56). 256 bootstrap nodes of one private network that answer a
  lookup end the thread, and every waiting caller with it (`TooManyNodesPanic`).
- Error counts are `u8` and nodes handed in with a put are not capped, so 256 equal errors
  overflow a count. With overflow checks that ends the thread (`OverflowPanics`,
  `OverflowEndsThread`); without, the count wraps (`OverflowWraps`) and a rarer code can lead
  the tally (`RarerCodeLeads`). The tally is the histogram of the errors if and only if no code
  came more than 255 times (`TallyIsExactly`, `PutTallyIsExact`, `OverflowsExactly`).
- The majority threshold is truncated to eight bits: from 510 requests on, a minority can
  reject a mutable put (`RejectedByMajority`, `RejectedByMinority`,
  `ExtraNodesLetMinorityReject`).
- A put is left without progress exactly when, at its submission, a find_node lookup runs on
  its target or the usable cached nodes carry no token (`StallsExactly`, `PutsKeepMoving`).
  Its caller then waits until somebody else puts to the target or looks it up for values
  (`ForsakenPutWaits`); a find_node and an announcement suffice, whether the find_node still
  runs (`AnnouncerWaits`) or has been cached (`CachedNodesStall`).
- `PutQueryError::ErrorResponse` is never produced: answers with codes other than 301 and 302
  end in `Timeout` (`PollOutcomes`). And a put that is not mutable ends in a concurrency
  error, which src/dht.rs:278-283 calls unreachable, exactly when nobody acknowledged it and
  301 or 302 leads the errors (`PlainPutConflicts`); one node that answers 301 is enough
  (`AnnouncementConflicts`).
- The responder count drifts up by one for every find_node lookup ever cached
  (`RespondersCountExact`).
- A token is said to be valid for ten minutes. Rotation is lazy, so an idle server accepts a
  token of any age; a token dies at the second rotation and not before
  (`IdleServerAcceptsAnyAge`, `AcceptedIffFewRotations`).
- Two of the twenty best candidates can share an address and are both contacted, so the
  answers can outnumber the addresses queried, and answers and timeouts then do not add up
  (`SharedAddressContactedTwice`, `DiagnosticsDoNotAddUp`, `OutcomeAddsUp`).
- An answer that delivers a value returns before its sender is added to the routing table
  (src/rpc.rs:613-678), although the documentation of `handle_response` says any expected
  response adds it. The model follows the code.

## Model

| member | source | states |
|---|---|---|
| `RpcRuns.EveryStateIsSound` | src/rpc.rs:111-152 | In every state a new node can reach by valid iterations (hash orders enumerate, the thread lives, ids are not reused), built with overflow checks or without: no waiting caller without a live query, table and cache invariants, answers within requests, every put's errors the byte tally of what it received, no id with two owners, reachability, and every request still waiting was sent by now |
| `RpcRuns.ReportsAreFinal` | src/rpc.rs:1046-1083 | Whenever a node reports a lookup its twenty best candidates have been visited, and no later iteration of any continuation delivers an answer to one of its requests |
| `RpcRuns.EveryLookupEnds` | src/rpc/iterative_query.rs:275-309 | From every reachable state, a lookup whose candidates stay in a finite set of addresses makes at most one further round per address not yet visited, and is reported before a deadline of one timeout plus a timeout and a tick gap per unvisited address |
| `RpcRuns.EveryPutResolves` | src/rpc.rs:315-345 | From every reachable state, a live put that has started or has a live value or peers lookup, and that no admitted put displaces, is reported before that lookup's deadline plus one gap and one timeout |
| `RpcRuns.UnstalledPutResolves` | src/rpc.rs:315-345 | The same whenever no put admitted on its target ever stalled |
| `RpcRuns.LifeGoesOn` | src/dht.rs:524-618 | A run can be continued by every valid iteration in which no live query sees 2^32 requests |
| `Actor.NoCallerIsOrphaned` | src/dht.rs:521-618 | Over every valid run, which the thread survives, each waiting put channel has a live put and each waiting get channel a live lookup; waiting plus final answers equals what waited before plus what was submitted, per target and channel. What the answers say is in `Answers.EndedLookupsTold` and `EndedPutsTold` |
| `Actor.EveryCallerAnsweredOnce` | src/dht.rs:582-615 | Once no query is live for a target, every channel has had exactly as many final answers as it asked for, each of them one that `Answers.EveryAnswerIsTold` describes |
| `Answers.EndedLookupsTold` | src/dht.rs:591-608 | In one iteration each caller of a reported lookup is told once, in the order in which they came, how it ended: the nodes reported for a caller that asked for nodes, the counters reported or zeros for one that asked for diagnostics, only the end for any other; and every final lookup answer sent is one of these |
| `Answers.EndedPutsTold` | src/dht.rs:535-553 | In one iteration each caller of a reported put gets exactly its result, once and in order; a put turned away gets its conflict at once; nobody else gets a final put answer |
| `Answers.EveryAnswerIsTold` | src/dht.rs:591-608 | Over every run each final lookup answer says of a lookup reported in some iteration, to a caller waiting for it there, how it ended |
| `Answers.ValuesReach` | src/dht.rs:554-589 | The values sent in one iteration are exactly the response of the tick, to each waiting caller that asked for its kind, and what a lookup delivered before, to a caller that joins it |
| `Answers.AcceptPutSpeaks` | src/rpc.rs:284-313 | A put in a message is turned away if and only if it is mutable, meets a mutable put of its target with another signature, and is older (`NotMostRecent`), names another sequence number in `cas` (`CasFailed`) or has no `cas` (`ConflictRisk`); otherwise its caller is queued |
| `Panics.SurvivesExactly` | src/rpc/put_query.rs:53-56 | The thread survives a run, with or without overflow checks, if and only if in every iteration an admitted put with a usable cache finds at most 255 cached nodes, a lookup reported to a waiting put found at most 255, and with overflow checks no accepted answer finds its `u8` error count or `u16` vote count at its largest |
| `Panics.CallersOfTheProgram` | src/dht.rs:521-618 | With panics in the model: the thread lives exactly as long as the run fits, and while it lives nobody is orphaned and every channel handed in waits or was answered |
| `RpcReports.TickSurvivesExactly` | src/rpc.rs:1046-1077 | A tick meets the assertion at each of its calls of `start` and overflows nothing where that is checked, if and only if every lookup it reports to a waiting put found at most 255 nodes and its message overflows nothing |
| `PanicScenario.TooManyNodesPanic` | src/rpc/closest_nodes.rs:79-106 | 256 bootstrap nodes of one private network answer the lookup of an announcement: the thread of a new node, alive until then with its caller waiting, panics at the timeout |
| `PanicScenario.AnswersArrive` | src/rpc.rs:362-428 | The run up to there is one a new node makes, and after it exactly the first k nodes are responders |
| `OverflowScenario.OverflowPanics` | src/rpc/put_query.rs:92-113 | With overflow checks: one node and 255 nodes handed in with an announcement all answer 203, and the thread of a new node, alive until then with its caller waiting, panics at the 256th |
| `OverflowScenario.OverflowWraps` | src/rpc/put_query.rs:92-113 | Without overflow checks: the same run goes on, and 256 errors are counted as none |
| `SentScenario.RefusalsArrive` | src/rpc/put_query.rs:39-77 | The runs up to there are runs of a new node: the put goes to the answering node and to all nodes handed in, and every refusal is tallied |
| `RpcReports.TickReports` | src/rpc.rs:231-251 | A tick reports only live queries and no id twice; puts that leave are exactly those reported, and every lookup that leaves is reported |
| `RpcReports.SettleReports` | src/rpc.rs:984-1083 | After polling and cleanup exactly the reported queries are gone, and no id is reported twice even when a put fails for want of nodes |
| `RpcLiveness.LookupsTerminate` | src/rpc/iterative_query.rs:207-222 | The bound on rounds and the deadline, from any state whose requests were sent by a known time |
| `RpcLiveness.TickProgress` | src/rpc/iterative_query.rs:275-292 | One tick of the whole engine reports the lookup, or strictly enlarges its visited set, or its last request is younger than the timeout |
| `RpcFinality.DoneIsFinal` | src/rpc/iterative_query.rs:275-292 | When a tick reports a lookup its best candidates are visited, all its ids are dead, and the answer received in that very tick is not for it |
| `RpcFinality.FinishedStaysFinal` | src/rpc/socket.rs:226-237 | No later iteration delivers an answer to a dead id |
| `RpcFinality.ReportsWhatItFound` | src/rpc.rs:999-1043 | A tick reports of a find_node lookup its first twenty candidates and of any other the secure cut of its responders; of a value lookup its counters with the number of addresses visited, and of others no counters |
| `RpcPuts.StallsExactly` | src/rpc.rs:317-342 | One call of `put` leaves a new put without progress if and only if the usable cached nodes carry no token and no value lookup is live, or a find_node lookup occupies the target |
| `RpcPuts.StartsAtOnce` | src/rpc.rs:315-342 | A put that meets no mutable put starts at once if and only if some cached node of its target was seen within five minutes, with one request, in order, to each cached or extra node that has a token; otherwise it waits for the live lookup or for a value lookup launched with its salt |
| `RpcPuts.PutsKeepMoving` | src/rpc.rs:1046-1083 | Over every run, a live put has at every moment started with at least one id or has a live value or peers lookup, if and only if no put admitted on its target met the stalling condition at its submission |
| `RpcPuts.ForsakenPutWaits` | src/rpc.rs:1046-1083 | A put that has not started stays unstarted and unreported, and its channels keep waiting, as long as no put on its target is admitted and no value or peers lookup on it is reported |
| `RpcPuts.StallsOnlyByFindNode` | src/rpc.rs:1012-1022 | Every stall comes from a find_node lookup on the target, running or cached |
| `StallScenario.CallsStall` | src/rpc.rs:374-376 | A find_node and then an announcement on one target, by two callers of a new node: the put is admitted, stalls and its caller waits |
| `StallScenario.AnnouncerWaits` | src/rpc.rs:1058-1061 | After those two calls the announcer waits over every continuation that leaves the put forsaken |
| `StallScenario.LookupEndsPutStays` | src/rpc.rs:1058-1061 | The timeout of the find_node lookup is such a continuation: it is reported, and the announcer still waits |
| `CachedStallScenario.CachedNodesStall` | src/rpc.rs:317-325 | Four iterations of a new node: a find_node lookup on a target is answered, ends and is cached without tokens; an announcement to the target is then admitted, stalls, and its caller waits |
| `RpcPuts.FinishOneStarts` | src/rpc.rs:1063-1077 | Finishing a value or peers lookup starts the put that waits for it (its call of `start` passing the assertion of `FinishFits`) or reports it failed; any other lookup leaves the put as it is |
| `RpcPuts.TickMoves` | src/rpc.rs:231-251 | Through a whole tick a moving put keeps moving, and an unstarted one stays as it is unless a value or peers lookup on its target is reported |
| `RpcResolution.StartedPutCompletes` | src/rpc/put_query.rs:116-167 | A started put whose requests are all older than the timeout is reported by the next tick |
| `RpcResolution.PutsResolve` | src/rpc/put_query.rs:39-81 | The resolution deadline, from any state in which the put has started or has a value or peers lookup, through any messages but an admitted put on its target |
| `RpcPuts.MutablePutMeetsAnother` | src/rpc.rs:284-313 | A mutable put replaces one in flight if and only if signatures differ, its cas names the other's sequence number and it is not older; an error changes nothing |
| `RpcPuts.DisplacedOnlyByCas` | src/rpc.rs:284-313 | Over a whole iteration a mutable put in flight gives way to another mutable put only to one with matching cas and no lower sequence number |
| `RpcReachability.TickReachable` | src/rpc.rs:772-806 | A tick keeps "not firewalled implies a public address our identifier is valid for"; the firewall opens only for a ping from that address; server mode starts only when open and never ends |
| `RpcReachability.ReachabilityOverRuns` | src/rpc.rs:492-517 | The same over every run: a node that started firewalled and not a server becomes reachable or a server only after such a ping was received |
| `RpcMaintenance.MaintainDoes` | src/rpc.rs:772-806 | Refresh due after fifteen minutes, a ping round after five: a due refresh turns on server mode unless firewalled, a due round purges exactly the nodes unseen for fifteen minutes, an empty table or a due refresh launches the lookup of the own identifier unless there is no bootstrap node or one is live; both timers are reset exactly then; nothing else changes |
| `RpcMaintenance.PurgeIsExact` | src/rpc.rs:824-850 | A purge takes out exactly the nodes not seen for more than fifteen minutes |
| `RpcMaintenance.MaintainPings` | src/rpc.rs:812-862 | A due round sends one request, in table order, to exactly the nodes seen within fifteen minutes but not within ten seconds |
| `RpcMaintenance.WinnerIsPublic` | src/rpc.rs:889-910 | An address with the most votes becomes public; if it was not, the node counts as firewalled and pings it; without votes nothing changes |
| `RpcMaintenance.RequestEffects` | src/rpc.rs:459-517 | Only two requests change anything: a find_node received without bootstrap nodes adds its sender, and a ping from the own public address opens the firewall and, when the identifier does not fit that address, replaces it by one that does, empties the table and looks the new one up |
| `RpcMaintenance.LaunchStarts` | src/rpc.rs:378-428 | A new lookup starts from the closest nodes of the table and then the cached nodes of its target, and visits the extra addresses, its twenty best candidates, and the bootstrap nodes exactly when the table offered none or fewer nodes than there are of those |
| `RpcMaintenance.OneLookupPerTarget` | src/rpc.rs:362-377 | A request for a target under lookup changes nothing; any other launches one lookup under its target, stamped with the requests sent so far, and touches the cached entry |
| `RpcMaintenance.SeedsAre` | src/rpc.rs:386-394 | The nodes a lookup takes from the table: all of them, sorted, and cut for the expected distance and the average subnets over the cached lookups and a cold start of a million nodes and twenty subnets |
| `RpcEngine.EngineOverRuns` | src/rpc.rs:231-251 | Over every run the routing table invariant, the cache accounting and the sorted, address-limited shape of every lookup hold, and nodes cached by other than find_node lookups carry tokens |
| `RpcEngine.NewStateInv` | src/rpc.rs:120-151 | A new node satisfies the engine invariant |
| `RpcEngine.FinishedIsCached` | src/rpc.rs:912-951 | A finished lookup with candidates leaves under its target the nodes it reports, the estimates from its candidates and from its responders, the subnets of its candidates and its kind; one without leaves nothing |
| `RpcCounts.TickCounts` | src/rpc.rs:544-574 | A tick keeps: answers recorded plus ids still waiting never exceed the requests of each lookup and each put, each put's errors are the byte tally of the errors it received, and no id belongs to two live queries |
| `RpcCounts.OutcomeAddsUp` | src/rpc/iterative_query.rs:35-79 | Answers are at most primary requests; answers plus timeouts equal `queried` exactly when answers are no more than addresses, hence always when no address was contacted twice |
| `SharedScenario.DiagnosticsDoNotAddUp` | src/rpc/iterative_query.rs:35-79 | In three iterations of a new node a value lookup has queried one address, counted two responses, and answers plus timeouts differ from `queried` |
| `RpcOutcomes.CountsOverRuns` | src/rpc.rs:544-765 | The books of `TickCounts` over every run |
| `RpcOutcomes.PutTallyOverRuns` | src/rpc/put_query.rs:169-194 | After any run the tally of a live put is the histogram of the errors it received if and only if no code came more than 255 times, which 255 requests ensure; it is then in order, and with fewer than 510 requests a mutable put is rejected early exactly by a strict majority of 301 or 302 |
| `RpcTallies.PutTallyIsExact` | src/rpc.rs:559-574 | Over every run in which a new put waits, `stored_at` is the number of acknowledgements accepted for its ids and `errors` the byte tally of exactly the errors accepted for them, which is their histogram if and only if no code was accepted more than 255 times |
| `RpcTallies.OverflowsExactly` | src/rpc/put_query.rs:92-113 | Over every run in which a new put waits, no count of it overflows if and only if no code is accepted for it more than 255 times |
| `RpcTallies.OverflowEndsThread` | src/rpc/put_query.rs:92-113 | With overflow checks, an error accepted for a waiting put passes the tick if and only if its code was accepted for that put fewer than 255 times before |
| `RpcTallies.RejectedByContactedMajority` | src/rpc/put_query.rs:169-194 | A waiting mutable put of fewer than 510 requests is rejected early with 301, or with 302, exactly when a strict majority of its requests was answered with that code, even when the count of another code has wrapped |
| `RpcTallies.TickTallies` | src/rpc.rs:559-574 | One whole tick tallies for a put, modulo 256, exactly the answer accepted for one of its ids, and a read-only answer not at all |
| `RpcTallies.PlainPutConflicts` | src/rpc/put_query.rs:138-151 | Over every run in which a put that is not mutable waits, the next tick reports a concurrency error for it if and only if it has started, none of its requests is in flight, no acknowledgement was accepted, and 301 or 302 leads the byte tally of the accepted errors |
| `RpcTallies.LeadingCode` | src/rpc/put_query.rs:186-194 | As long as no code came more than 255 times, 301 or 302 leads the tally only if no code is more common than both, and whenever one of them is the most common code |
| `ConflictScenario.AnnouncementConflicts` | src/dht.rs:264-286 | In three valid iterations of a new node with one bootstrap node, which answers 301, the announcer's channel gets a concurrency error |
| `RpcOutcomes.ValuesAreVerified` | src/rpc.rs:639-678 | A counted answer counts as a value exactly when it delivers a verified item of the target, and as an invalid value exactly when it is a mutable answer that does not |
| `RpcResponses.AnswerTeaches` | src/rpc.rs:595-599 | For each kind of answer that can list nodes, the candidates are afterwards the sorted arrangement of those there were followed by exactly the listed nodes, each taken if those before it allow it; a ping answer or an error adds none |
| `RpcResponses.AnswerRecords` | src/rpc.rs:601-609 | An answer with a token makes its sender a responder under the address it came from; the address it reports gets one vote modulo 2^16; nothing else votes or responds |
| `RpcResponses.AnswerBumps` | src/rpc.rs:613-764 | Only an answer to a primary request of a value lookup counts, and it raises exactly the one counter of its kind, a mutable answer that of values or of invalid values as the item verifies or not |
| `RpcResponses.AnswerDelivers` | src/rpc.rs:613-678 | Peers are delivered as received, an immutable value if and only if its bencoding hashes to the target, a mutable item if and only if its key, signature and target check; nothing else delivers anything |
| `RpcResponses.ResponseReachesLookup` | src/rpc.rs:544-765 | An answer is handled by the lookup that sent the request and by no other query; its sender goes to the routing table exactly when it delivers nothing and is no error |
| `RpcResponses.ReadOnlyIsOnlyCounted` | src/rpc.rs:545-556 | A read-only answer only counts one invalid response for the lookup whose primary request it answers |
| `RpcResponses.AcceptedAnswersTeach` | src/rpc.rs:1086-1096 | In the life of a node: whenever a tick accepts an answer to a request of a live lookup, the nodes it lists become candidates of that lookup, and the tick reports for its callers exactly what it delivers |
| `RpcResponses.CountedCameFromAsked` | src/rpc/socket/inflight_requests.rs:12-22 | In the life of a node: whatever a lookup or a put counts as an answer came in time from the port, and the IP unless that was 0.0.0.0, its request went to; and a lookup has visited that address |
| `RpcResponses.StoredAtIsAcknowledged` | src/rpc/put_query.rs:150-156 | Over every run in which a new put waits, if the next tick reports it stored, then under its own target and at exactly as many nodes as acknowledgements were accepted for it, at least one |
| `RpcOutcomes.ResponseReachesOwner` | src/rpc.rs:544-612 | An accepted answer to a primary request bumps exactly one counter of the lookup that sent it, and any other answer bumps none |
| `RpcOutcomes.TickCountsAnswer` | src/rpc.rs:544-765 | One whole tick raises `responded()` by one for an accepted primary answer and not at all otherwise |
| `RpcOutcomes.RespondedIsExact` | src/rpc/iterative_query.rs:35-45 | Over every run in which a value lookup stays open `responded()` rises by exactly the number of its accepted primary answers |
| `RpcSockets.TickEvolves` | src/rpc.rs:231-251 | A tick only adds requests, numbered onward and dated now, and only drops others |
| `RpcObject.Engine.Get` | src/rpc.rs:362-428 | Returns the responses of a live lookup of any kind, or launches one: the engine's transition |
| `RpcObject.Engine.Put` | src/rpc.rs:277-345 | Computes the transition of `put` with its errors, given that the cached nodes pass the assertion of `start` |
| `RpcObject.Engine.StartPut` | src/rpc/put_query.rs:39-77 | With its two assertions as preconditions, sends one request to each node that has a token |
| `RpcObject.Engine.Poll` | src/rpc/put_query.rs:116-167 | Polls one put against the socket |
| `RpcObject.Engine.TickPutQueries` | src/rpc.rs:984-996 | Polls every put once; changes nothing |
| `RpcObject.Engine.TickLookup` | src/rpc/iterative_query.rs:275-292 | Visits the next round of one lookup and tests its ids |
| `RpcObject.Engine.TickGetQueries` | src/rpc.rs:999-1043 | The loop over the lookups computes the transition the liveness proofs are about |
| `RpcObject.Engine.UpdateAddressVotes` | src/rpc.rs:889-910 | A new winner becomes the public address, closes the firewall and is pinged |
| `RpcObject.Engine.FinishQuery` | src/rpc.rs:1052-1077 | One finished lookup: removed, votes counted, cached, waiting put started or failed, given that its nodes pass the assertion of `start` |
| `RpcObject.Engine.CleanupDoneQueries` | src/rpc.rs:1046-1083 | The loop over finished lookups, each passing the assertion in the state it finds, and the removal of finished puts |
| `RpcObject.Engine.PingAndPurgeNodes` | src/rpc.rs:812-862 | Stale nodes removed, nodes due pinged, over the nodes of the table at the start |
| `RpcObject.Engine.PeriodicNodeMaintenance` | src/rpc.rs:772-798 | Decides first, then switches mode, purges and populates |
| `RpcObject.Engine.AnswerRequest` | src/rpc.rs:459-517 | Firewall, identifier change and the bootstrap exception |
| `RpcObject.Engine.AnswerResponse` | src/rpc.rs:544-765 | Computes the transition of `handle_response` and the value delivered, given that with overflow checks no count overflows; `RpcResponses` says what that transition teaches, counts, stores and delivers |
| `RpcObject.Engine.ReceiveMessage` | src/rpc.rs:1086-1096 | At most one message per tick, dispatched by kind, given that with overflow checks it overflows no count |
| `RpcObject.Engine.Advance` | src/rpc.rs:231-251 | `tick` computes the engine's transition and report whenever it survives the assertion |
| `ActorObject.ActorLoop.AcceptMessage` | src/dht.rs:525-577 | The message half of an iteration, with replayed responses and immediate errors |
| `ActorObject.ActorLoop.SendToAll` | src/dht.rs:582-588 | A response goes, in order, to exactly the senders that asked for its kind |
| `ActorObject.ActorLoop.CloseLookups` | src/dht.rs:591-608 | Each sender of a finished lookup is told how it ended and dropped, in order, and nobody else is told anything |
| `ActorObject.ActorLoop.CloseStores` | src/dht.rs:611-617 | Each sender of a finished put gets its result and is dropped, and nobody else gets one |
| `ActorObject.ActorLoop.Turn` | src/dht.rs:524-618 | One turn that survives the assertion computes the iteration the run theorems are about |
| `Sockets.SweepsAreInvisible` | src/rpc/socket/inflight_requests.rs:79-85 | Over every run in time order the periodic cleanup changes no answer of `contains` or `remove` |
| `Sockets.AcceptedAtMostOnce` | src/rpc/socket/inflight_requests.rs:61-76 | While fewer than 2^32 requests go out every id is accepted at most once |
| `Sockets.DeliveredMeans` | src/rpc/socket.rs:139-237 | Delivered if and only if not from port 0 and a request, or an answer whose id waits unexpired and that comes from the port, and the IP unless that was 0.0.0.0, the request went to; an accepted answer is forgotten |
| `Sockets.InflightRequests.Take` | src/rpc/socket/inflight_requests.rs:12-76 | Accepts if and only if the id is waiting and unexpired, the ports are equal, and the IP sent to is 0.0.0.0 or equals the sender's; it is then no longer live |
| `Sockets.InflightRequests.Contains` | src/rpc/socket/inflight_requests.rs:52-57 | True exactly for a recorded request younger than the timeout |
| `Sockets.InflightRequests.Clean` | src/rpc/socket/inflight_requests.rs:79-85 | Keeps exactly the live requests |
| `Sockets.KrpcSocket.NextTid` | src/rpc/socket.rs:240-248 | The ids handed out are the request numbers modulo 2^32 |
| `Sockets.KrpcSocket.SendRequest` | src/rpc/socket.rs:102-112 | Records the request under its id at the current time |
| `Sockets.KrpcSocket.Sweep` | src/rpc/socket.rs:142-146 | Sweeps the table exactly when more than the interval has passed |
| `Sockets.KrpcSocket.Recv` | src/rpc/socket.rs:139-237 | Sweeps when due; delivers, from any port but 0, every request, and an answer exactly under the rule of `Take` |
| `IterativeQueries.VisitClosestEffect` | src/rpc/iterative_query.rs:296-309 | After a round all twenty best candidates are visited; a round that contacts anyone strictly enlarges `visited`, and only by candidate addresses |
| `IterativeQueries.RoundAsks` | src/rpc/iterative_query.rs:207-222 | A round asks exactly the addresses of the twenty best candidates not visited before: for each, with consecutive ids, a primary request to it and then a ping to it |
| `IterativeQueries.SharedAddressContactedTwice` | src/rpc/iterative_query.rs:297-308 | Two candidates of one exempt address with different prefixes are both kept, and one round makes two primary requests to one visited address |
| `IterativeQueries.SharedAddressExample` | src/rpc/iterative_query.rs:297-308 | 10.0.0.1 with two identifiers is such an address |
| `IterativeQueries.ComputeBestAddress` | src/rpc/iterative_query.rs:170-183 | None exactly without a vote above zero; otherwise a voted address no other outvotes, whatever the hash order |
| `IterativeQueries.IterativeQuery.VisitAddress` | src/rpc/iterative_query.rs:207-222 | One primary request and one ping, both recorded, and the address visited |
| `IterativeQueries.IterativeQuery.VisitClosestNodes` | src/rpc/iterative_query.rs:296-309 | The loop computes the round `VisitClosestEffect` is about |
| `IterativeQueries.IterativeQuery.Tick` | src/rpc/iterative_query.rs:275-292 | Done implies that no id is in flight; the best candidates are visited in any case |
| `PutQueries.TallyIsHistogram` | src/rpc/put_query.rs:92-113 | After any errors of which no code came more than 255 times, the tally is their exact histogram by code, distinct codes, highest count first |
| `PutQueries.TallyModulo` | src/rpc/put_query.rs:92-113 | After any errors the tally has one entry for each of their codes, which counts it modulo 256 |
| `PutQueries.TallyIsExactly` | src/rpc/put_query.rs:92-113 | The tally is the histogram of the errors if and only if no code came more than 255 times |
| `PutQueries.RarerCodeLeads` | src/rpc/put_query.rs:92-113 | After 256 errors of 203 and two of 301 the tally is led by 301, and 203 counts zero |
| `PutQueries.RecordErrorCounts` | src/rpc/put_query.rs:92-113 | An error whose count is below 255 keeps the order and raises exactly the count of its code by one |
| `PutQueries.RecordErrorModulo` | src/rpc/put_query.rs:92-113 | Any error keeps one entry per code and raises exactly the count of its code, modulo 256 |
| `PutQueries.TallyFitsByte` | src/rpc/put_query.rs:23-23 | At most 255 errors overflow no count |
| `PutQueries.FirstIsMostCommon` | src/rpc/put_query.rs:186-194 | As long as no code came more than 255 times, the first code of the tally occurs, and no code occurs more often |
| `PutQueries.RejectedByMajority` | src/rpc/put_query.rs:169-194 | With fewer than 510 requests: rejected with 301 or 302 exactly when a strict majority answered that code |
| `PutQueries.RejectedByReceived` | src/rpc/put_query.rs:169-194 | With fewer than 510 requests and 301 and 302 within 255: rejected with 301 or 302 exactly when a strict majority of the requests was answered with that code, whatever the other counts have done |
| `PutQueries.RejectedByMinority` | src/rpc/put_query.rs:175-178 | For every number of requests from 510 on some ordered byte tally is rejected without a majority |
| `PutQueries.ExtraNodesLetMinorityReject` | src/rpc/put_query.rs:58-76 | A mutable put started with extra nodes, 510 or more in all, sends to each of them, and at most 255 answers of 301 then reject it |
| `PutQueries.PollOutcomes` | src/rpc/put_query.rs:116-167 | When a poll is pending, succeeds (under the put's target, with its number of acknowledgements), or ends in a timeout; `ErrorResponse` never; which concurrency error a majority or a leading code gives; and for a put that is not mutable exactly when it ends in one |
| `PutQueries.StartSendsToTokenHolders` | src/rpc/put_query.rs:39-77 | A put starts with exactly one request, in order, to each closest or extra node that has a token, and fails exactly when there is no closest node |
| `PutQueries.PutQuery.StartAt` | src/rpc/put_query.rs:39-77 | One request to each node that has a token; started whenever a closest node has one |
| `PutQueries.PutQuery.Success` | src/rpc/put_query.rs:87-90 | One more acknowledgement, nothing else |
| `PutQueries.PutQuery.Error` | src/rpc/put_query.rs:92-113 | The byte count wraps around, and the swap loop computes the tally step |
| `QueryCache.RunBalanced` | src/rpc.rs:912-979 | Over every run each running sum is its starting value plus the sum over the cached entries, with at most 1000 entries under distinct keys |
| `QueryCache.CacheQueryBalanced` | src/rpc.rs:912-951 | Caching keeps the books and stores the entry: the room made first means the LRU never evicts silently |
| `QueryCache.OldestLeaves` | src/rpc.rs:912-951 | Caching keeps every other entry but, in a full cache, the one used longest ago, and makes the new entry the one used last; a lookup without candidates is not cached |
| `QueryCache.UsedIsNewest` | src/rpc.rs:317-321 | Reading an entry makes it the one used last and keeps the order of the others |
| `QueryCache.RespondersCountExact` | src/rpc.rs:950-977 | The responder count is never below the number of cached lookups that are not find_node, and equal to it if and only if no find_node lookup was ever cached; the subnet sum is at least 20 |
| `QueryCache.LookupCache.CacheFinished` | src/rpc.rs:912-951 | The unsigned fields never underflow and the transition is computed |
| `QueryCache.LookupCache.DecrementStats` | src/rpc.rs:962-979 | Takes one counted entry out of the sums |
| `QueryCache.LookupCache.Lookup` | src/rpc.rs:317-321 | Finds what is cached, makes it the most recently used entry, and keeps the books |
| `QueryCache.LookupCache.Subnets` | src/rpc.rs:958-960 | The average number of subnets |
| `Ids.DistanceIsBitLength` | mainline-next/src/distance.rs:21-29 | The distance is the bit length of the XOR: 2^(d-1) <= xor < 2^d |
| `Ids.DistanceIsUltrametric` | src/common/id.rs:50-52 | Zero only for equal identifiers, symmetric, and bounded by the larger of the two distances through any third |
| `Ids.LexLessIsIntegerOrder` | mainline-next/src/distance.rs:13-19 | Comparing bytes left to right is the order of the big-endian integers |
| `Ids.XorInjective` | src/common/id.rs:67-75 | XOR with a fixed target confuses no two identifiers |
| `Ids.ComputeXor` | src/common/id.rs:67-75 | The byte loop computes the XOR |
| `Ids.LeadingZeros` | src/common/id.rs:55-64 | 160 minus the result is the bit length |
| `Ids.ComputeDistance` | src/common/id.rs:50-52 | The first crate's distance is the second crate's bucket number |
| `Bep42.SecureIdIsValid` | src/common/id.rs:125-139 | Every generated identifier validates for its address and keeps the other random bytes |
| `Bep42.FromIpv4AndR` | src/common/id.rs:125-139 | The overwritten bytes form a valid identifier with all unconstrained bits kept |
| `Bep42.FromRandomBytes` | mainline-next/src/bep42.rs:45-56 | The second crate's generation is accepted by its own test and agrees with the first crate's |
| `Bep42.ValidityTestsCoincide` | mainline-next/src/bep42.rs:92-107 | Both crates accept the same identifiers for every address |
| `Bep42.RandomBitsFixPrefix` | src/common/id.rs:141-154 | For a constrained address the three random bits determine the 21-bit prefix |
| `Bep42.ExemptOctets` | src/common/id.rs:106-109 | Addresses exempt from BEP 42 are exactly 10/8, 127/8, 172.16/12, 192.168/16 and 169.254/16, by their octets |
| `Bep42.PublishedVector` | src/common/id.rs:320-350 | The first vector of BEP 42, 124.31.75.21, validates under the modelled CRC-32C |
| `Bep42.SecondVector` | src/common/id.rs:296-345 | The second vector, 21.75.31.124, validates |
| `Bep42.ThirdVector` | src/common/id.rs:296-345 | The third vector, 65.23.51.170, validates |
| `Bep42.FourthVector` | src/common/id.rs:296-345 | The fourth vector, 84.124.73.14, validates |
| `Bep42.FifthVector` | src/common/id.rs:296-345 | The fifth vector, 43.213.53.83, validates |
| `Nodes.CapacityPerAddress` | src/common/node.rs:129-141 | Nodes the duplicate rule leaves together: at most eight secure and one insecure per constrained address |
| `Nodes.UnblockedIsCompatible` | src/common/node.rs:135-141 | An accepted newcomer is compatible with every earlier node in both directions, although the rule is not symmetric |
| `ClosestNodes.CompareFollowsKey` | src/rpc/closest_nodes.rs:55-64 | The comparator is the strict total order "secure first, then XOR", equal only for same identifier and security |
| `ClosestNodes.AddAllRefinesGreedy` | src/rpc/closest_nodes.rs:48-68 | After any arrivals the set is strictly sorted and holds exactly the greedily accepted nodes |
| `ClosestNodes.AddAllIsSortedGreedy` | src/rpc/closest_nodes.rs:48-68 | It is the only sorted arrangement of them |
| `ClosestNodes.AddAllRefinesOnto` | src/rpc/closest_nodes.rs:48-68 | The same from any sorted set: the nodes it holds and then those accepted one after the other |
| `ClosestNodes.InsertTakes` | src/rpc/closest_nodes.rs:48-68 | A node is taken if and only if no member of its IP is insecure or shares its 21-bit prefix and no member has its identifier and security; the set is otherwise unchanged |
| `ClosestNodes.CandidatesPerAddress` | src/rpc/closest_nodes.rs:48-68 | At most eight secure and one insecure node per constrained address, whatever arrives |
| `ClosestNodes.CandidateSet.Search` | src/rpc/closest_nodes.rs:55-64 | Binary search finds a same entry exactly when there is one, else the place where the node belongs |
| `ClosestNodes.CandidateSet.Add` | src/rpc/closest_nodes.rs:48-68 | Stays strictly sorted and computes the insertion |
| `ClosestNodes.ComputeTakeUntilSecure` | src/rpc/closest_nodes.rs:79-106 | The loop computes the cut, whose length is at least min(20, len) |
| `ClosestNodes.TakeKeepsNearSecureNodes` | src/rpc/closest_nodes.rs:79-106 | The cut never omits a secure node closer than the expected distance |
| `ClosestNodes.TakeSpansSubnets` | src/rpc/closest_nodes.rs:79-106 | A cut that stops short spans, with the next node, the wanted number of subnets |
| `ClosestNodes.TakeIsShortest` | src/rpc/closest_nodes.rs:79-106 | The cut is the shortest prefix of at least twenty nodes that is the whole set or reaches a node at the expected distance with the wanted subnets so far |
| `ClosestNodes.TopDistanceIsQuotient` | src/rpc/closest_nodes.rs:141-146 | The distance compared is the XOR without its low 32 bits |
| `ClosestNodes.SubnetIsTopBits` | src/rpc/closest_nodes.rs:137-139 | The subnet is the address without its low 26 bits |
| `ClosestNodes.SubnetsCountIs` | src/rpc/closest_nodes.rs:109-121 | The count is that of the distinct subnets of the first twenty nodes, and 20 without any |
| `ClosestNodes.TakeMonotone` | src/rpc/closest_nodes.rs:79-106 | More subnets or a larger expected distance never shorten the cut |
| `ClosestNodes.ComputeSubnetsCount` | src/rpc/closest_nodes.rs:109-121 | Distinct subnets of the first twenty, between 1 and 20 |
| `RoutingTable.RunKeepsInv` | src/common/routing_table.rs:40-68 | Over any adds and removals every node sits in the bucket of its distance, identifiers are unique, self is absent, buckets hold at most 20, and nodes are pairwise compatible |
| `RoutingTable.AddDropsOnly` | src/common/routing_table.rs:201-235 | `add` loses only a stale node, or one whose identifier a secure node takes over, and then holds the new node |
| `RoutingTable.AddTakes` | src/common/routing_table.rs:40-59 | `add` takes a node if and only if it is not self, no stored node of its IP is insecure or shares its 21-bit prefix, and in its bucket either its identifier is stored and it is secure, or neither is secure and the IP is the same, or it is not stored and there is room or the first node is stale; the new node goes last, and what leaves is the node of its identifier or, from a full bucket, the first |
| `RoutingTable.RemoveTakesOut` | src/common/routing_table.rs:62-68 | `remove` takes out exactly the nodes of that identifier |
| `RoutingTable.AddNeverRefreshes` | src/common/routing_table.rs:48-54 | A node of the same identifier and IP never changes the table |
| `RoutingTable.AllNodesExact` | src/common/routing_table.rs:157-180 | The enumeration holds every stored node exactly once and never self |
| `RoutingTable.AllNodesInOrder` | src/common/routing_table.rs:157-180 | The enumeration goes through the buckets in the order of distance |
| `RoutingTable.NodesIterator.Next` | src/common/routing_table.rs:157-180 | Yields the enumeration one node at a time in bucket order and ends exactly when it is used up |
| `RoutingTable.TablePerAddress` | src/common/routing_table.rs:40-68 | Across all buckets and any run, at most eight secure and one insecure node per constrained address |
| `RoutingTable.ClosestIsLeast` | src/common/routing_table.rs:72-82 | `closest` is the twenty least nodes if and only if none of them is hidden by an earlier insecure node of its address |
| `RoutingTable.ClosestMissesSecureNode` | src/common/routing_table.rs:72-82 | A table reached by two additions, with the address of the first BEP 42 vector, whose `closest` is not its least nodes: a secure node is missing |
| `RoutingTable.ClosestOfUnmixedTable` | src/common/routing_table.rs:72-82 | It always is when no address mixes secure and insecure nodes |
| `RoutingTable.RoutingTable.Add` | src/common/routing_table.rs:40-59 | Keeps the invariant and computes the table's transition and answer |
| `RoutingTable.RoutingTable.Remove` | src/common/routing_table.rs:62-68 | The same for `remove` |
| `RoutingTable.RoutingTable.ClosestTo` | src/common/routing_table.rs:72-82 | The nested loops compute `closest` |
| `RoutingTable.RoutingTable.ClosestSecureTo` | src/common/routing_table.rs:85-100 | The iterator feeds every node to a candidate set, which is then cut |
| `RoutingTable.RoutingTable.Nodes` | src/common/routing_table.rs:115-126 | Everything the iterator yields is the enumeration |
| `RoutingTable.RoutingTable.IsEmpty` | src/common/routing_table.rs:103-105 | True exactly when the enumeration is empty |
| `RoutingTable.RoutingTable.Size` | src/common/routing_table.rs:108-112 | Bucket lengths add up to the number of enumerated nodes |
| `MutableItems.EncodeSignableInjective` | src/common/mutable.rs:144-156 | Equal signed strings come from equal sequence number, value and salt, for all byte strings and all integers, an absent salt differing from an empty one |
| `MutableItems.SignableExamples` | src/common/mutable.rs:205-222 | The two encodings the tests give, with and without salt, and one with a negative sequence number |
| `MutableItems.ComputeSignable` | src/common/mutable.rs:144-156 | Extending the buffer computes the encoding |
| `MutableItems.FromDhtMessage` | src/common/mutable.rs:80-108 | Succeeds exactly on a verified item of that target, and returns that item |
| `MutableItems.FoldIsMaximum` | src/common/mutable.rs:158-171 | Folding responses returns one of them, and none is newer in the order `ChosenIsMostRecent` spells out |
| `MutableItems.ChosenIsMostRecent` | src/common/mutable.rs:158-171 | No response has a higher sequence number than the one chosen, and at the same number none has a value that comes later byte by byte |
| `MutableItems.FoldIgnoresOrder` | src/dht.rs:365-420 | The order of arrival does not change the chosen sequence number and value |
| `Tokens.TokenLifetime` | src/rpc/server/tokens.rs:45-70 | A token is accepted from its IP by every request up to five minutes after issue, whatever requests and rotations come between |
| `Tokens.AcceptedIffFewRotations` | src/rpc/server/tokens.rs:50-65 | Without a token collision, accepted if and only if at most one rotation has happened since |
| `Tokens.IdleServerAcceptsAnyAge` | src/rpc/server/tokens.rs:45-56 | The first request to an idle server is accepted with a token of any age |
| `TokenBinding.TokensTellIpsApart` | src/rpc/server/tokens.rs:68-88 | Under one secret different IPs are given different tokens, for every secret: the CRC-32C behind them loses nothing of the four octets |
| `ServerRules.TokenVector` | src/rpc/server/tokens.rs:74-88 | The standard check value of CRC-32C, as a token |
| `ServerRules.FreshTokenIsAccepted` | src/common/node.rs:100-106 | A token taken when a node was last seen, and which the client still considers valid, is accepted by the server, whatever it served in between |
| `Tokens.TokenStore.RotateSecrets` | src/rpc/server/tokens.rs:58-65 | The current secret becomes the previous one, at the current time |
| `Server.PutMutableKeeps` | src/rpc/server.rs:290-377 | An accepted put is stored, is not older than what it replaces, and its cas if any named exactly that item; a refused one changes no stored value |
| `Server.SequenceNeverDecreases` | src/rpc/server.rs:145-380 | Over every run everything stored was verified, and while a target stays stored its sequence number never decreases |
| `ServerRules.BadTokenIsRefused` | src/rpc/server.rs:208-310 | A write of any of the three kinds whose token is not that of the sender's IP under the current or previous secret, after the lazy rotation, is answered 203 and stores nothing |
| `ServerRules.StoredCameWithToken` | src/rpc/server.rs:208-380 | Over every run, whatever is stored and was not before, immutable, mutable or peer, was written in some arrival that carried a token of its sender's IP, with that content, a peer at that IP |
| `ServerRules.PlainWrites` | src/rpc/server.rs:208-290 | With a token an announcement is stored for the sender's address or its IP and the given port, and an immutable value is answered 205 when over 1000 bytes, 203 when its hash is not the target, and stored otherwise |
| `ServerRules.MutableWrites` | src/rpc/server.rs:290-380 | With a token a mutable put is answered by the first that applies of 205, 207, 301, 302 and 206, each with its exact condition, and accepted otherwise |
| `ServerRules.Reads` | src/rpc/server.rs:189-206 | Which of the four answers a read gets, always with the token of the asker's IP; reading changes no stored value |
| `ServerRules.PeersAnswerHasToken` | src/rpc/server.rs:170-188 | A question for peers is answered with the token, and without peers exactly when none is stored |
| `Server.WriteThenRead` | src/rpc/server.rs:189-206 | After an accepted mutable put the next plain read of its target returns the item, to anyone, if and only if no immutable value is stored there; that value is returned otherwise |
| `Server.AnnounceThenAsk` | src/rpc/server.rs:170-244 | After an accepted announcement the next get_peers of its info hash answers with at most ten stored peers, the announced address among them whenever fewer than ten are stored |
| `Server.OnlyAnnouncementsAdd` | src/rpc/server.rs:208-244 | Only an accepted announcement changes the peers stored under an info hash |
| `Server.StorageServer.HandleRequest` | src/rpc/server.rs:145-380 | A filtered request changes nothing; any other rotates the secrets when they are older than five minutes and is then handled; a put whose token is not that of the sender's IP under either secret is answered 203 and stores nothing; the transition computed is the one `ServerRules` is about |
| `Server.StorageServer.HandleGetMutable` | src/rpc/server.rs:383-420 | No values, no more recent value, or the item, and the LRU order |
| `Server.StorageServer.HandlePutMutable` | src/rpc/server.rs:311-377 | Size, salt, cas, sequence number and signature checks in order |
| `Peers.AnswerIsStored` | src/rpc/server/peers.rs:41-86 | Whatever the random draws, get_peers lists only stored peers and at most ten, all of them when fewer than ten are stored, and answers nothing exactly when none is stored |
| `Peers.SampleIs` | src/rpc/server/peers.rs:41-86 | The sample in full: from the peer used last on, all of them when fewer than ten are stored, else the first ten whose draw succeeds |
| `Peers.StoredWasAnnounced` | src/rpc/server/peers.rs:30-38 | Over every run the bounds on info hashes and peers hold, and everything stored under an info hash was announced for it by that identifier |
| `Peers.AddPeerKeeps` | src/rpc/server/peers.rs:30-38 | An announcement stores exactly its peer, keeps the bounds, and leaves the peers of any other info hash alone or evicts them |
| `Peers.PeersStore.Announce` | src/rpc/server/peers.rs:30-38 | Adds the peer to the swarm of the info hash, or opens one |
| `Peers.PeersStore.Sample` | src/rpc/server/peers.rs:41-86 | The sampling loop computes the answer `AnswerIsStored` is about |

## Left out

- UDP binding, DNS, read timeouts, tracing, threads and the async wrappers: I/O and thin wrappers.
- Bencode and serde: the model starts at decoded messages. A datagram that does not decode is a tick without a message.
- Cryptographic strength: SHA-1 and Ed25519 are opaque functions; CRC-32C is modelled, but nothing is claimed about two secrets giving one token.
- Floating point: `dht_size_estimate` and the expected distance are functions of the environment, running sums are real numbers, so rounding drift of the `f64` sums is not modelled.
- The `f32` chances of `get_random_peers`: whether each draw succeeds is an input.
- Nodes listed in the server's replies, and the forwarding of requests from the engine to the server: the server is proved on its own, since its replies do not feed back into the engine.
- Counter widths: the `u8` error counts, the `u16` votes and the truncated majority threshold wrap as in the source; `stored_at`, the outcome counters and the number of visited addresses, all `u32`, are unbounded numbers, since overflowing one takes 2^32 answers to one query.
- Panics of the platform (no random bytes, a configured timeout longer than the clock has run): not modelled.
- The clock is read once per step: the model does not have time pass between two reads in one tick.
- Lookups and stores inside the engine's maps are values; in-place mutation through aliases into those maps is not captured. `IterativeQuery` and `PutQuery` are modelled as objects on their own, while the socket, the table and the cache of the engine are objects it holds.
- What a panic does beyond ending the thread (poisoned state, the caller's own `.expect`): `Panics` ends the run there.
- `Info`, `Check` and `ToBootstrap` messages change nothing and are an idle step.
- Message fields a node does not act on (version, requester identifier of its own requests) and `Display`/`Debug`, builders, examples and `docs/`.
- The `mainline-next` reactor, wire format and join state.
- `ClosestNodes::dht_size_estimate` and the statistics of the size estimate.
- OutcomeAddsUp: `timed_out()` saturates at zero, so the equality is stated with its exact condition and not for all lookups.
- FoldIgnoresOrder: two items may share sequence number and value and differ in signature, so the chosen pair is stated and not the chosen item.
