# Kung Fu Chess: matchmaking, gateways, and the algorithms under them

A Dafny model of the parts of Kung Fu Chess in which many processes, threads or in-place buffers have to
agree, with proofs of what they keep. `dafny verify dfyconfig.toml` checks all of it.

**Matchmaking.** A `POST /play` request becomes a ticket held open at one API gateway. One matchmaker replica
pairs it or pools it under a 60 second search timer; a pair is watched for 10 seconds; one allocator replica names a
room on a least-loaded shard and publishes the assignment to every gateway and matchmaker. `Protocol.dfy` is that
system as a state machine over any number of replicas of each kind. Everything that still has to happen, a message in
flight to one subscriber or a thread between two of its visible actions, is a task, and a step may pick any of them, so
all interleavings and all delivery orders are covered; critical sections are split where a thread holds the mutex. On
top of it:

- `Coverage`, `Termination`: no open request is ever without something that will answer it; every run without new
  requests is bounded by an explicit measure, and if it goes as far as it can, every request ever made has been sent
  exactly one response.
- `Timing`, `Overtime`: every request is answered within 70 seconds, that bound is reached, and the exact condition
  under which a request outlasts the 60 second search, at the moment its ticket is popped.
- `Conservation`: no ticket is matched twice, no match is assigned twice, no room name is used twice.
- `Watchdog`: with the mutex free a replica watches both tickets of a match or neither, so a watchdog times out both
  players or neither, whatever runs between its two halves.
- `Hearing`: every published assignment reaches every matchmaker replica, and nothing else does.
- `Answers`: each request is still open or has been sent exactly one response, to the first event about it that its
  gateway processes.
- `Matchmaker`, `Allocator`, `ApiGateway`: the handlers themselves, as classes whose methods update the same fields as
  the source; `Handlers` proves that the protocol's small steps, run through, do what these methods promise.

**The WebSocket gateway.** `WsGateway` keeps two maps of links that stay mutually inverse, and each link refines a pair
of first-in-first-out pipes. `RoundRobin` proves the choice of shards fair.

**Vendored algorithms.** From doctest: the wildcard matcher (`Wildcmp`), the traversal that reruns a test case until
every leaf of its decision tree has been visited (`Traversal`), and the 24-byte string (`SmallString`). From WebSocket++:
frame headers and word-at-a-time masking (`FrameHeader`, `FrameMask`; sections 5.2 and 5.3 of RFC 6455).

## What the surroundings are assumed to do

A queue group hands each message to exactly one member and a fan-out subject to every subscriber; messages are neither
lost nor duplicated, and processes do not crash. `findMatch` removes and returns some waiting ticket in range, or
returns none, `remove` is idempotent, the Redis sequence never repeats (Kung_Fu_Chess/shared/db/RedisSequence.cpp:21-29), and tokens and connection handles are fresh. A
shard's reply, an allocator's choice and an allocator's delay are arbitrary.

## Where the documentation and the code differ

- README.md:234 of the repository describes `/play` as "matchmaking (blocks up to 60s for a match)". A ticket popped
  just before its search timer fires still waits for its watchdog: the bound the code meets is 70 seconds
  (`Timing.AnsweredInTime`), and it is reached (`Timing.BoundIsTight`). `Overtime.OutlastsTheSearchExactly` says when a
  request is open for longer than 60 seconds: if and only if its ticket was popped as the one who waited, more than 50
  seconds after it asked and before its search timer saw it, the 10 seconds since are not over, and no assignment
  naming it has been published.
- Kung_Fu_Chess/gateway/WsGateway.h:6-8 promises that text frames are passed on verbatim, and they are. Binary frames
  are outside that promise: one that arrives before the upstream opens is sent on as text
  (`WsGateway.QueuedBinaryBecomesText`), and `WsGateway.FramesVerbatimExactly` gives the exact condition for all frames.
- Kung_Fu_Chess/shared/matchmaking/RedisMatchPool.h:50-52 says that `findMatch` returns none only when no waiting
  ticket qualifies. A call keeps that promise if and only if the first ticket in range, when there is one, has its
  record (`Matchmaker.NobodyMeansNobodyExactly`). A ticket cancelled between the two commands that add it waits without
  one: the request that meets it is told that nobody qualifies, and the ticket is lost
  (`Matchmaker.MatchPool.CancelledWhileAdded`).
- The comments on the masking functions in frame.hpp let them touch a buffer rounded up to whole words. The code writes
  exactly `length` bytes, and the contracts in `FrameMask` say so.

## Model

| member | source | states |
|---|---|---|
| Protocol.Broadcast | Kung_Fu_Chess/matchmaker/matchmaker_main.cpp:109-117 | a fan-out event has exactly one copy in flight for each gateway |
| Protocol.TellMatchmakers | Kung_Fu_Chess/matchmaker/matchmaker_main.cpp:109-117 | a published assignment has exactly one copy in flight for each matchmaker replica |
| Protocol.TellCancel | Kung_Fu_Chess/matchmaker/matchmaker_main.cpp:170-177 | a cancellation has exactly one copy in flight for each matchmaker replica |
| Protocol.TaskStays | Kung_Fu_Chess/matchmaker/matchmaker_main.cpp:142-149 | a message or thread that a step does not run is still there afterwards: nothing is lost |
| Coverage.ScopedStep | Kung_Fu_Chess/gateway/ApiGateway.cpp:370-384 | every step keeps: no message, thread, pool entry or watch mentions a ticket that was never issued |
| Coverage.AssignmentsReachStep | Kung_Fu_Chess/gateway/ApiGateway.cpp:244-256 | every step keeps: a published assignment is on its way to each gateway, or that gateway holds neither of its tickets |
| Coverage.ConsumedCover | Kung_Fu_Chess/matchmaker/matchmaker_main.cpp:87-168 | when the very thing that would answer a ticket takes its step, what it leaves behind will answer the ticket |
| Coverage.LostWatch | Kung_Fu_Chess/matchmaker/matchmaker_main.cpp:113-138 | a watched ticket dropped by a replica has its timeout, or its assignment, on the way to its gateway |
| Coverage.LostCover | Kung_Fu_Chess/matchmaker/matchmaker_main.cpp:89-94 | a pool entry or watch that another thread removes is taken over by something that covers the ticket: a ticket popped under its search timer stays covered |
| Coverage.InvStep | Kung_Fu_Chess/matchmaker/matchmaker_main.cpp:27-40 | the whole invariant is kept by every step of every replica |
| Coverage.NoPlayerHangs | Kung_Fu_Chess/matchmaker/matchmaker_main.cpp:27-40 | after any run whatever, every ticket still open at a gateway is covered by a message, thread or timer that will answer it |
| Termination.LockWork | Kung_Fu_Chess/matchmaker/matchmaker_main.cpp:113-138 | taking the mutex leaves less work, in the section and the published events, than it took up |
| Termination.MeasureDecreases | Kung_Fu_Chess/matchmaker/matchmaker_main.cpp:84-168 | every step that is not a new request, a cancellation or the clock strictly reduces the measure |
| Termination.RunsAreBounded | Kung_Fu_Chess/matchmaker/matchmaker_main.cpp:84-168 | a run without new requests takes at most as many steps as the measure it starts from |
| Termination.NeverStuck | Kung_Fu_Chess/matchmaker/matchmaker_main.cpp:84-168 | while anything is left to do, some step is possible after waiting long enough: no deadlock on the mutex |
| Termination.QuiescentMeansAnswered | Kung_Fu_Chess/gateway/ApiGateway.cpp:244-266 | when nothing is left to do, no gateway holds an open ticket, and every /play request ever made has been sent exactly one response |
| Termination.EveryRequestIsAnswered | Kung_Fu_Chess/gateway/ApiGateway.cpp:370-384 | from every reachable state the work in progress alone leads to a state in which every /play request has been sent exactly one response |
| Termination.EveryFullRunAnswers | Kung_Fu_Chess/gateway/ApiGateway.cpp:370-384 | every run without new requests, in any order and after any history, takes a bounded number of steps, and when it can go no further every /play request ever made has been sent exactly one response |
| Timing.TimelyStep | Kung_Fu_Chess/matchmaker/matchmaker_main.cpp:87-140 | every step keeps each timer's deadline within 60 or 70 seconds of the request it serves, and every pooled ticket under a timer that has not passed its check |
| Timing.AnsweredInTime | Kung_Fu_Chess/matchmaker/matchmaker_main.cpp:20-40 | when messages and handlers take no clock time, a request still open is at most 60 + 10 seconds old, however slow the allocators are |
| Timing.BoundIsTight | Kung_Fu_Chess/matchmaker/matchmaker_main.cpp:27-40 | a run in which a request is still open after exactly 70 seconds |
| Overtime.AllCausedStep | Kung_Fu_Chess/matchmaker/matchmaker_main.cpp:87-140 | every step keeps: each thread of a match goes back to a pop at its own time, and each timeout to a search timer that saw the ticket or to a watchdog that is due |
| Overtime.SeenForGood | Kung_Fu_Chess/matchmaker/matchmaker_main.cpp:89-94 | once popped, a ticket is never seen waiting by its search timer |
| Overtime.OnlyLatePopsOutlastTheSearch | Kung_Fu_Chess/matchmaker/matchmaker_main.cpp:87-97 | after any run in which messages take no clock time, a request open longer than 60 seconds was popped, as the one who waited and unseen by its search timer, more than 50 seconds after it asked, and at most 10 seconds ago |
| Overtime.PoppedStaysOpen | Kung_Fu_Chess/matchmaker/matchmaker_main.cpp:121-140 | conversely, a /play ticket popped unseen and named by no assignment stays open until its watchdog is due |
| Overtime.OutlastsTheSearchExactly | Kung_Fu_Chess/matchmaker/matchmaker_main.cpp:20-40 | once everything due at a moment has been done, a request older than 60 seconds is open if and only if it was popped that late and unseen, its watchdog is due later, and no assignment naming it was published |
| Conservation.RightsStep | Kung_Fu_Chess/matchmaker/matchmaker_main.cpp:150-168 | a ticket's one right to be matched moves between request, pool and match and is never duplicated |
| Conservation.ClaimsStep | Kung_Fu_Chess/matchmaker/matchmaker_main.cpp:150-168 | a ticket is pooled or popped at most once: its claim moves from request to pool to pop |
| Conservation.PoppedOnce | Kung_Fu_Chess/shared/matchmaking/RedisMatchPool.cpp:80-101 | no ticket is in two pops, and none is in the pool once popped |
| Conservation.ConservedStep | Kung_Fu_Chess/allocator/allocator_main.cpp:99-133 | every step conserves rights, unassigned matches and reserved room numbers |
| Conservation.NoTicketMatchedTwice | Kung_Fu_Chess/matchmaker/matchmaker_main.cpp:142-163 | over all replicas and runs the tickets in all published matches are pairwise distinct |
| Conservation.NoMatchAssignedTwice | Kung_Fu_Chess/allocator/allocator_main.cpp:94-133 | every assignment is for a published match, no match is assigned twice, and no two assignments share a room name |
| Watchdog.LockedReplica | Kung_Fu_Chess/matchmaker/matchmaker_main.cpp:106-138 | each half of each of the three critical sections keeps every pair whole, up to the pair in hand |
| Watchdog.AtomicStep | Kung_Fu_Chess/matchmaker/matchmaker_main.cpp:106-140 | every step keeps: each replica watches pairs of published matches, each of them as a whole |
| Watchdog.WatchedTogether | Kung_Fu_Chess/matchmaker/matchmaker_main.cpp:106-140 | after any run, with the mutex free, both tickets of a match are pending at a replica or neither is |
| Watchdog.WatchdogFirstHalf | Kung_Fu_Chess/matchmaker/matchmaker_main.cpp:129-138 | in any reachable state a firing watchdog publishes the first player's timeout exactly when both are still watched |
| Watchdog.TimesOutBothOrNeither | Kung_Fu_Chess/matchmaker/matchmaker_main.cpp:129-138 | whatever ran in between, the second player's timeout is published exactly when the first one's was |
| Hearing.AllHearStep | Kung_Fu_Chess/matchmaker/matchmaker_main.cpp:109-117 | every step keeps: an assignment is on its way to a matchmaker replica or was handled there, and only published ones are handled |
| Hearing.EveryMatchmakerHears | Kung_Fu_Chess/matchmaker/matchmaker_main.cpp:109-117 | after any run, for every published assignment and every matchmaker replica, its copy is in flight to that replica or the replica has handled it |
| Hearing.OnlyPublishedIsHeard | Kung_Fu_Chess/matchmaker/matchmaker_main.cpp:109-117 | after any run, what a replica has handled was published |
| Answers.EventOnce | Kung_Fu_Chess/gateway/ApiGateway.cpp:244-266 | a gateway handling an event keeps: answers are unique and each comes from the first event about its ticket |
| Answers.OnceStep | Kung_Fu_Chess/gateway/ApiGateway.cpp:244-266 | so does every other step |
| Answers.AnsweredAtMostOnce | Kung_Fu_Chess/gateway/ApiGateway.cpp:244-266 | after any run no ticket has two answers, and each answer comes from the first event about the ticket that its gateway processed |
| Answers.AccountedStep | Kung_Fu_Chess/gateway/ApiGateway.cpp:244-266 | every step keeps: a /play ticket that is open nowhere has been sent a response, also when one event names two tickets of one gateway |
| Answers.EveryRequestOpenOrAnsweredOnce | Kung_Fu_Chess/gateway/ApiGateway.cpp:244-266 | after any run, a /play ticket is open nowhere exactly when exactly one response has been sent to it |
| Answers.LateEventChangesNothing | Kung_Fu_Chess/gateway/ApiGateway.cpp:250-253 | an event answers somebody if and only if it names a ticket held here; otherwise the table is unchanged |
| Handlers.WatchdogLoopIsTwoHalves | Kung_Fu_Chess/matchmaker/matchmaker_main.cpp:129-138 | the protocol's two halves of a watchdog, taken together, are the loop that Matchmaker.Replica.WatchdogFires runs |
| Handlers.RequestRunsThrough | Kung_Fu_Chess/matchmaker/matchmaker_main.cpp:155-164 | a matching request run without interruption does to the pool and to the replica what Matchmaker.Replica.OnRequest does, publishes the pair, and leaves only the allocator's message and the watchdog |
| Handlers.SearchTimerRunsThrough | Kung_Fu_Chess/matchmaker/matchmaker_main.cpp:91-94 | a search timer run without interruption does to the pool, and publishes, what Matchmaker.Replica.SearchTimerFires does |
| Handlers.AssignedRunsThrough | Kung_Fu_Chess/matchmaker/matchmaker_main.cpp:113-117 | both halves of an assignment at a matchmaker erase exactly its two tickets there, as Matchmaker.Replica.OnAssigned does |
| Handlers.MatchRunsThrough | Kung_Fu_Chess/allocator/allocator_main.cpp:99-133 | an allocation run through uses up one room number, and leaves one copy of the event in flight to each gateway and one to each matchmaker, with the two tickets, the room named match- and that number, and the shard |
| Handlers.MatchIsDropped | Kung_Fu_Chess/allocator/allocator_main.cpp:100-123 | without a shard or a successful reply nothing is published and nothing but the message is used up |
| Handlers.RequestWaits | Kung_Fu_Chess/matchmaker/matchmaker_main.cpp:87-97 | a request that finds nobody, run through, is in the pool with its rating and under a search timer due 60 seconds later |
| Handlers.PlayRequests | Kung_Fu_Chess/gateway/ApiGateway.cpp:370-384 | a /play request holds its ticket and puts exactly one request for it in flight, with the session's rating |
| Handlers.ShardFindRequests | Kung_Fu_Chess/matchmaker/matchmaker_main.cpp:150-153 | a shard's search puts exactly one request in flight and opens no /play ticket |
| Handlers.CancelRemoves | Kung_Fu_Chess/matchmaker/matchmaker_main.cpp:174-177 | each matchmaker gets a copy of a cancellation, and each copy removes exactly that ticket from the pool |
| Handlers.StepsWait | Kung_Fu_Chess/matchmaker/matchmaker_main.cpp:89-155 | no timer acts before it is due, no critical section starts while the mutex is held, and findMatch takes only waiting tickets within 100 points |
| Handlers.GatewayStepIsOnEvent | Kung_Fu_Chess/gateway/ApiGateway.cpp:244-266 | the protocol's gateway step and ApiGateway.Gateway.OnEvent drop the same tickets and answer the same connections in the same order |
| Matchmaker.TimeOutAllMeans | Kung_Fu_Chess/matchmaker/matchmaker_main.cpp:131-138 | whatever the list, nothing in it stays pending and exactly what was pending is timed out, each once |
| Matchmaker.PairTimesOutTogether | Kung_Fu_Chess/matchmaker/matchmaker_main.cpp:131-138 | a pair watched as a whole is timed out as a whole, first player first; an unwatched pair not at all |
| Matchmaker.MatchPool.AddToPool | Kung_Fu_Chess/shared/matchmaking/RedisMatchPool.cpp:45-65 | the ticket gets its record and then its place, as two commands; no other ticket is touched, and every waiting ticket still has its record |
| Matchmaker.MatchPool.Remove | Kung_Fu_Chess/shared/matchmaking/RedisMatchPool.cpp:67-78 | exactly that ticket loses its place and its record; idempotent |
| Matchmaker.NobodyMeansNobodyExactly | Kung_Fu_Chess/shared/matchmaking/RedisMatchPool.h:50-52 | the promise that nobody is returned only when nobody qualifies holds for a call if and only if the first ticket in range, when there is one, has its record |
| Matchmaker.FirstIs | Kung_Fu_Chess/shared/matchmaking/RedisMatchPool.cpp:18-20 | only one ticket can come first in range, so the script's choice is determined |
| Matchmaker.NameOrder | Kung_Fu_Chess/shared/matchmaking/RedisMatchPool.cpp:18 | the order of equal ratings is by the first position at which the names differ |
| Matchmaker.FirstIsLowest | Kung_Fu_Chess/shared/matchmaking/RedisMatchPool.cpp:18 | the script's choice is the waiting ticket within 100 points that has the lowest rating, and among equals the first name |
| Matchmaker.MatchPool.FindMatch | Kung_Fu_Chess/shared/matchmaking/RedisMatchPool.cpp:17-26 | of the waiting tickets within 100 points the one with the lowest rating, and among equals the first name, leaves the pool and is returned with its record; nobody is returned exactly when there is none or its record is missing, and never the latter while every waiting ticket has its record |
| Matchmaker.MatchPool.CancelledWhileAdded | Kung_Fu_Chess/shared/matchmaking/RedisMatchPool.cpp:45-78 | cancelled between the two commands that add it, a ticket waits in range, first and without a record, and then the request is told that nobody qualifies and the ticket is gone |
| Matchmaker.Replica.OnAssigned | Kung_Fu_Chess/matchmaker/matchmaker_main.cpp:113-117 | stops watching exactly the two tickets |
| Matchmaker.Replica.WatchForAssignment | Kung_Fu_Chess/matchmaker/matchmaker_main.cpp:121-140 | watches exactly the two tickets and leaves their watchdog |
| Matchmaker.Replica.WatchdogFires | Kung_Fu_Chess/matchmaker/matchmaker_main.cpp:129-138 | the loop publishes a timeout for exactly the pending tickets of the pair, in order, and counts them; both or none when the pair was whole |
| Matchmaker.Replica.WaitForMatch | Kung_Fu_Chess/matchmaker/matchmaker_main.cpp:87-97 | pools the ticket and leaves its search timer |
| Matchmaker.Replica.OnRequest | Kung_Fu_Chess/matchmaker/matchmaker_main.cpp:150-168 | pools the requester exactly when findMatch returns nobody, which with all records in place is exactly when nobody within 100 points waits; otherwise the lowest-rated within 100 points leaves the pool, the pair is published with the one who waited first, and both are watched |
| Matchmaker.Replica.SearchTimerFires | Kung_Fu_Chess/matchmaker/matchmaker_main.cpp:91-94 | undisturbed, removes and times out the ticket exactly when it still waits |
| Matchmaker.Replica.OnCancel | Kung_Fu_Chess/matchmaker/matchmaker_main.cpp:174-177 | removes the ticket from the pool and nothing else |
| Allocator.Allocator.OnHeartbeat | Kung_Fu_Chess/allocator/allocator_main.cpp:71-76 | after any history of heartbeats the table holds exactly each shard's last report |
| Allocator.Allocator.PickLeastLoadedShard | Kung_Fu_Chess/allocator/allocator_main.cpp:81-92 | for every iteration order, a shard of least reported load, or nothing when no load is below the maximum |
| Allocator.NothingChosenExactly | Kung_Fu_Chess/allocator/allocator_main.cpp:78-92 | with non-empty shard names, the empty answer means exactly that no shard has reported a count below the maximum |
| Allocator.Allocator.OnMatched | Kung_Fu_Chess/allocator/allocator_main.cpp:99-133 | a match is dropped without a shard or a successful reply; otherwise it is assigned to a newly named room on a least-loaded shard, with both players' names and ratings, the one who waited first as White |
| Allocator.Allocator.OnAllocationRequest | Kung_Fu_Chess/allocator/allocator_main.cpp:149-167 | the four answers and when each is given; a created room is on a least-loaded shard under the requested name |
| Allocator.DigitsDistinct | Kung_Fu_Chess/allocator/allocator_main.cpp:106 | decimal printing is injective |
| Allocator.DigitsValue | Kung_Fu_Chess/allocator/allocator_main.cpp:106 | what is printed is decimal digits that have the number's value, without leading zeros |
| Allocator.RoomNamesDistinct | Kung_Fu_Chess/allocator/allocator_main.cpp:106 | different room numbers have different room names |
| ApiGateway.EventAnswersExactly | Kung_Fu_Chess/gateway/ApiGateway.cpp:244-266 | a held ticket's connection is answered if and only if the event names the ticket |
| ApiGateway.Gateway.ExactlyOneResponse | Kung_Fu_Chess/gateway/ApiGateway.cpp:41-47 | after any order of events: a connection that was deferred and that no ticket, relay or thread holds any more has been sent exactly one response |
| ApiGateway.Gateway.PostPlay | Kung_Fu_Chess/gateway/ApiGateway.cpp:370-384 | without a session answered at once and nothing requested; with one deferred, held by its ticket and requested once |
| ApiGateway.Gateway.OnEvent | Kung_Fu_Chess/gateway/ApiGateway.cpp:244-266 | exactly the held tickets that are named are answered, 200 with room and shard or 200 with no players, and dropped; no connection is ever answered twice |
| ApiGateway.Gateway.PickShard | Kung_Fu_Chess/gateway/ApiGateway.cpp:155-162 | the next live shard in turn, or none and an unmoved counter |
| ApiGateway.Gateway.PostLogin | Kung_Fu_Chess/gateway/ApiGateway.cpp:292-321 | 503 at once without a live shard, 502 without a connection; otherwise deferred and held by exactly one relay to the next live shard in turn, which has not fired |
| ApiGateway.Gateway.OnRelayOpen | Kung_Fu_Chess/gateway/ApiGateway.cpp:195-201 | a relay still in the table sends what it was made with; any other sends nothing |
| ApiGateway.Gateway.OnRelayMessage | Kung_Fu_Chess/gateway/ApiGateway.cpp:203-221 | the first message answers the relay's connection exactly once and ends the relay: 502 if it is not JSON, 401 with the shard's own reply if the shard refused, 200 with the token if it agreed, and a session is stored under the token exactly in the last case; when a field cannot be read nothing is sent and the exception leaves the handler |
| ApiGateway.Gateway.OnRelayGone | Kung_Fu_Chess/gateway/ApiGateway.cpp:223-231 | a relay that has not fired is answered with 502 exactly once and dropped; any other event changes nothing |
| ApiGateway.Gateway.MessageThenClose | Kung_Fu_Chess/gateway/ApiGateway.cpp:41-47 | a message and the close it causes give one answer, the message's: 502, 401 or 200 as above |
| ApiGateway.Gateway.PostRooms | Kung_Fu_Chess/gateway/ApiGateway.cpp:323-354 | answered at once without a session; otherwise deferred and held by one waiting thread |
| ApiGateway.Gateway.OnRoomsReply | Kung_Fu_Chess/gateway/ApiGateway.cpp:354-367 | the thread's connection gets exactly one answer, 502 without a reply, 409 with the allocator's own refusal, 200 with room and shard, and is no longer deferred |
| WsGateway.PayloadsVerbatim | Kung_Fu_Chess/gateway/WsGateway.cpp:139-179 | payloads sent followed by the queue are the payloads received, in order, and the queue is empty once the upstream is open |
| WsGateway.FramesVerbatimExactly | Kung_Fu_Chess/gateway/WsGateway.cpp:166-179 | on an open link the frames sent are the frames received if and only if every frame that was queued was text |
| WsGateway.QueuedBinaryBecomesText | Kung_Fu_Chess/gateway/WsGateway.cpp:173-176 | an input for which frames are not passed on verbatim |
| WsGateway.LinkRefinesPipes | Kung_Fu_Chess/gateway/WsGateway.cpp:139-189 | over a link's whole life and any order of events, the shard is sent exactly the queued payloads as text at opening and every later frame as it came, and the client every frame of the shard |
| WsGateway.Link.Open | Kung_Fu_Chess/gateway/WsGateway.cpp:170-177 | the flush loop sends the queue in order and empties it |
| WsGateway.Link.Receive | Kung_Fu_Chess/gateway/WsGateway.cpp:144-150 | a client frame is passed on as it is once the upstream is open, and queued by payload before |
| WsGateway.Gateway.Unlink | Kung_Fu_Chess/gateway/WsGateway.cpp:161-162 | both entries of a link go together, and the maps stay inverse |
| WsGateway.Gateway.ChooseShard | Kung_Fu_Chess/gateway/WsGateway.cpp:110-121 | a hint that names a live shard is followed and leaves the counter alone; otherwise the live shard at the counter is taken and the counter goes one further in 64 bits; the choice is always live |
| WsGateway.Gateway.OnDownstreamOpen | Kung_Fu_Chess/gateway/WsGateway.cpp:89-137 | the three outcomes; a routed client gets one new link under both handles, to the live shard it names or else to the next in turn, and the maps stay inverse |
| WsGateway.Gateway.OnDownstreamMessage | Kung_Fu_Chess/gateway/WsGateway.cpp:139-151 | only the client's own link changes, and its two pipes stay pipes |
| WsGateway.Gateway.OnDownstreamClose | Kung_Fu_Chess/gateway/WsGateway.cpp:153-164 | both entries of the link vanish together, the upstream is closed, and the maps stay inverse |
| WsGateway.Gateway.OnUpstreamOpen | Kung_Fu_Chess/gateway/WsGateway.cpp:166-179 | only that link opens; its queue is flushed and the pipes stay pipes |
| WsGateway.Gateway.OnUpstreamMessage | Kung_Fu_Chess/gateway/WsGateway.cpp:181-189 | only that link's client is sent the frame |
| WsGateway.Gateway.OnUpstreamGone | Kung_Fu_Chess/gateway/WsGateway.cpp:194-207 | both entries of the link vanish together, the client is closed, and the maps stay inverse |
| WsGateway.Gateway.ClientLeavesAndUpstreamEchoes | Kung_Fu_Chess/gateway/WsGateway.cpp:153-207 | when the client leaves first, the upstream's close event is a no-op |
| WsGateway.Gateway.ShardLeavesAndClientEchoes | Kung_Fu_Chess/gateway/WsGateway.cpp:153-207 | when the shard leaves first, the client's close event is a no-op |
| RoundRobin.Fair | Kung_Fu_Chess/gateway/WsGateway.cpp:110-121 | of any k picks by turn over n live shards each shard gets floor(k/n) or ceil(k/n), wherever the counter stands and whatever hinted connections come between |
| Wildcmp.StarIsLater | Kung_Fu_Chess/doctest.h:6488-6504 | a star matches exactly when the rest of the pattern matches at some later position |
| Wildcmp.GreedyStar | Kung_Fu_Chess/doctest.h:6489-6495 | once a second star is reached, the first one's other choices need not be kept: why one saved point is enough |
| Wildcmp.WithoutStars | Kung_Fu_Chess/doctest.h:6481-6486 | a pattern without stars matches exactly the texts of its length that have, at each position, the same character, any character for a question mark, or without case sensitivity the other case of the same letter |
| Wildcmp.LiteralMatchesItself | Kung_Fu_Chess/doctest.h:6481-6486 | with case sensitivity, a pattern without wildcards matches itself and nothing else |
| Wildcmp.QuestionMarks | Kung_Fu_Chess/doctest.h:6481-6486 | n question marks match exactly the texts of length n |
| Wildcmp.FirstStar | Kung_Fu_Chess/doctest.h:6488-6504 | a star stands for any text: what precedes the first star is spelled at the front, and what follows it matches some rest |
| Wildcmp.WildCmp | Kung_Fu_Chess/doctest.h:6476-6510 | returns 1 exactly when the recursive glob relation holds, and for a pattern without stars exactly when it spells the text; reads stay inside both strings, and it terminates |
| Wildcmp.MatchesAny | Kung_Fu_Chess/doctest.h:6512-6519 | true exactly when some filter matches, or there are none and that is allowed |
| Traversal.SuccessorIsNext | Kung_Fu_Chess/doctest.h:8808-8820 | bumping the last decision that has a branch left, and completing with first branches, leads from each leaf to the next one |
| Traversal.EveryLeafOnce | Kung_Fu_Chess/doctest.h:8778-8868 | the list of leaves holds every leaf once, in increasing lexicographic order |
| Traversal.TraversalState.ResetForTestCase | Kung_Fu_Chess/doctest.h:8793-8799 | nothing is left of the previous test case |
| Traversal.TraversalState.ResetForRun | Kung_Fu_Chess/doctest.h:8801-8806 | only the path to follow is kept |
| Traversal.TraversalState.Advance | Kung_Fu_Chess/doctest.h:8808-8820 | the loop moves to the successor of the path just taken, and returns false exactly when it has none |
| Traversal.TraversalState.TryEnterSubcase | Kung_Fu_Chess/doctest.h:8822-8844 | registers a sibling once, and enters it exactly when it is the one the path asks for |
| Traversal.TraversalState.LeaveSubcase | Kung_Fu_Chess/doctest.h:8846-8850 | restores the depth of the innermost entered subcase |
| Traversal.TraversalState.AcquireGeneratorIndex | Kung_Fu_Chess/doctest.h:8861-8868 | records the number of values and returns the branch the path asks for, or 0 |
| Traversal.TraversalState.RunBody | Kung_Fu_Chess/doctest.h:8539-8578 | one run of a body visits exactly one leaf, the first that continues the path, and records its choices and branch counts |
| Traversal.TraversalState.RunGroup | Kung_Fu_Chess/doctest.h:8539-8578 | of a group of siblings exactly one is entered, and all of them are registered |
| Traversal.TraversalState.RunTestCase | Kung_Fu_Chess/doctest.h:6074-6121 | the rerun loop visits every leaf of the decision tree exactly once, in lexicographic order, and stops |
| SmallString.SmallString.constructor | Kung_Fu_Chess/doctest.h:8195-8198 | a valid, empty string |
| SmallString.SmallString.FromBytes | Kung_Fu_Chess/doctest.h:8208-8210 | holds exactly the given bytes, terminated, on either side of the 23-byte limit |
| SmallString.SmallString.Allocate | Kung_Fu_Chess/doctest.h:8150-8164 | a valid string of the given length, in the object exactly when it fits, whose block the caller may fill |
| SmallString.SmallString.SetSize | Kung_Fu_Chess/doctest.h:8175-8184 | keeps exactly the first n bytes, in place |
| SmallString.SmallString.Copied | Kung_Fu_Chess/doctest.h:8216-8218 | an equal string that shares no memory with the original |
| SmallString.SmallString.Copy | Kung_Fu_Chess/doctest.h:8186-8193 | takes over the value from either representation and puts it in a block of its own |
| SmallString.SmallString.Moved | Kung_Fu_Chess/doctest.h:8284-8288 | has the old value and heap block of the other string, which is left empty and owns nothing |
| SmallString.SmallString.Assign | Kung_Fu_Chess/doctest.h:8220-8229 | equal afterwards, the other untouched, no memory shared, self-assignment included |
| SmallString.SmallString.MoveAssign | Kung_Fu_Chess/doctest.h:8290-8299 | the value moves and the other is left empty, self-assignment included |
| SmallString.SmallString.Append | Kung_Fu_Chess/doctest.h:8231-8282 | the contents are the concatenation in all four cases, the other string is untouched, a block is reused exactly as far as its capacity allows |
| SmallString.SmallString.AppendLeavingTheStack | Kung_Fu_Chess/doctest.h:8242-8254 | the move to the heap loses no byte although the view overwrites the buffer it is copied from |
| SmallString.SmallString.AppendReallocating | Kung_Fu_Chess/doctest.h:8263-8278 | growing reads nothing from the released block, even when doubling the 32-bit capacity wraps around |
| SmallString.Grown | Kung_Fu_Chess/doctest.h:8264-8266 | the next capacity is the double, less 2^32 from 2^31 on, or one more than the length when that falls short |
| SmallString.SmallString.GetSize | Kung_Fu_Chess/doctest.h:8314-8318 | the length of the contents, from the tag byte or from the view |
| SmallString.SmallString.GetCapacity | Kung_Fu_Chess/doctest.h:8321-8325 | 24 inside the object, else the size of the heap block; always more than the length |
| SmallString.SmallString.CStr | Kung_Fu_Chess/doctest.h:955-967 | the contents followed by a terminator |
| SmallString.SmallString.SubstrMoved | Kung_Fu_Chess/doctest.h:8327-8333 | the requested range, cut off at the end, in the same heap block; the source is left empty |
| SmallString.SmallString.SubstrCopied | Kung_Fu_Chess/doctest.h:8335-8338 | the requested range, cut off at the end, in memory of its own |
| SmallString.Concat | Kung_Fu_Chess/doctest.h:8379-8381 | the concatenation, also of a string with itself |
| FrameHeader.NetworkRoundTrip | Kung_Fu_Chess/ThirdParty/websocketpp/frame.hpp:540-559 | reading back bytes in network order gives the value, in the 64-bit and the 16-bit form |
| FrameHeader.LittleEndianBytes | Kung_Fu_Chess/ThirdParty/websocketpp/common/network.hpp:66-85 | on a little-endian machine the least significant byte comes first in memory |
| FrameHeader.HtonllIsNetworkOrder | Kung_Fu_Chess/ThirdParty/websocketpp/common/network.hpp:66-85 | on a machine of either byte order, found out as the code does, the converted value lies in memory in network order |
| FrameHeader.NtohllReadsNetworkOrder | Kung_Fu_Chess/ThirdParty/websocketpp/common/network.hpp:98-100 | on a machine of either byte order, converting eight bytes from the wire gives the value they have in network order |
| FrameHeader.BasicHeader.constructor | Kung_Fu_Chess/ThirdParty/websocketpp/frame.hpp:194-228 | builds the two bytes the round trips are about |
| FrameHeader.ExtendedHeader.constructor | Kung_Fu_Chess/ThirdParty/websocketpp/frame.hpp:240-256 | length, then key, then zeros, in twelve bytes |
| FrameHeader.ExtendedHeader.CopyPayload | Kung_Fu_Chess/ThirdParty/websocketpp/frame.hpp:260-274 | writes the length bytes and nothing else, and returns where the key goes |
| FrameHeader.PrepareHeader | Kung_Fu_Chess/ThirdParty/websocketpp/frame.hpp:489-502 | the wire form is as long as the header announces and takes at most the twelve extended bytes |
| FrameHeader.FieldsRoundTrip | Kung_Fu_Chess/ThirdParty/websocketpp/frame.hpp:469-585 | the key offset read back is the one written, and key and size read back from there are the ones encoded |
| FrameHeader.HeaderRoundTrip | Kung_Fu_Chess/ThirdParty/websocketpp/frame.hpp:189-585 | for every opcode, size, flag and key, all getters return what the constructors were given |
| FrameHeader.WireRoundTrip | Kung_Fu_Chess/ThirdParty/websocketpp/frame.hpp:489-502 | an independent reader of section 5.2 of RFC 6455, with lengths as numbers in base 256, recovers the header and the payload's start from the bytes on the wire |
| FrameHeader.ShortestForm | Kung_Fu_Chess/ThirdParty/websocketpp/frame.hpp:216-228 | the length is encoded in the shortest form that can hold it |
| FrameMask.CircshiftRotates | Kung_Fu_Chess/ThirdParty/websocketpp/frame.hpp:612-623 | the two shifts rotate the key as it lies in memory, for both byte orders and both word sizes |
| FrameMask.PreparedHolds | Kung_Fu_Chess/ThirdParty/websocketpp/frame.hpp:595-604 | a prepared key lies in memory as the four key bytes repeated |
| FrameMask.MaskTwice | Kung_Fu_Chess/ThirdParty/websocketpp/frame.hpp:644-655 | masking twice with the same key is the identity |
| FrameMask.ByteMask | Kung_Fu_Chess/ThirdParty/websocketpp/frame.hpp:644-655 | each byte is combined with the key byte of its position, also in place |
| FrameMask.WordMaskExact | Kung_Fu_Chess/ThirdParty/websocketpp/frame.hpp:702-717 | word by word gives what byte by byte gives, for every length, and touches exactly that many bytes |
| FrameMask.WordMaskCirc | Kung_Fu_Chess/ThirdParty/websocketpp/frame.hpp:768-789 | the same for a prepared key that has been used before, with the key for what follows |
| FrameMask.ByteMaskCirc | Kung_Fu_Chess/ThirdParty/websocketpp/frame.hpp:830-841 | byte by byte with a prepared key |
| FrameMask.BothFormsAgree | Kung_Fu_Chess/ThirdParty/websocketpp/frame.hpp:768-841 | for a prepared key the two circular forms agree on output and returned key, and both are the byte mask |
| FrameMask.StreamingMask | Kung_Fu_Chess/ThirdParty/websocketpp/frame.hpp:768-789 | for any split of a message into chunks, threading the returned key gives the mask of the whole message |
| FrameMask.MaskStream | Kung_Fu_Chess/ThirdParty/websocketpp/frame.hpp:768-841 | for any list of buffers, masking each in place by either form and threading the returned key leaves the whole message masked at once |

## Left out

- Sockets, HTTP and JSON parsing, the NATS and Redis clients, logging and metrics text: only what they promise is used. Send failures, which the code only logs, are not modelled: "sent" means handed to the socket.
- Message loss and duplication, process crashes, and dead shards that stay in the allocator's table.
- Protocol.Effect: in the protocol findMatch may take any waiting ticket in range, or none, which covers the script's choice, missing records and a lost Redis connection; Matchmaker.MatchPool.FindMatch has the script's choice, with tickets compared character by character.
- Protocol.Enabled: assumes that the subjects deliver as described above. A cancelled ticket that findMatch drops for want of a record leaves the protocol's pool by the step of a late cancellation.
- Timing.AnsweredInTime: handlers and deliveries take no clock time; without that no bound in seconds holds. The theorems of Overtime assume the same.
- Cancelling a `/play` ticket: no gateway ever publishes it, so only tickets issued by game-server shards are cancelled in the protocol, and nothing is claimed about answers to those; FindGameHandler is not part of this model.
- ApiGateway.Gateway.OnRelayMessage: nothing is said about what follows an exception that leaves a handler, which ends the process; an unreadable reply to POST /rooms, malformed request bodies, and the routes that always answer at once (history, room lookup and joining, health, metrics) are not modelled.
- RoundRobin.Fair: holds while the counter does not wrap around, which takes 2^64 picks; the wrap itself is in the model.
- WsGateway.LinkRefinesPipes: fresh handles are assumed for new upstream connections.
- Wildcmp.WildCmp: `tolower` is that of the "C" locale on characters for which it is defined.
- Traversal.TraversalState.RunTestCase: no exception leaves the test body, no abort limit is set, no subcase filter is active; sibling subcases have distinct signatures and generators are not mixed into the depth of a group. unwindActiveSubcases is left out with the signal handling that calls it.
- SmallString.SmallString.Append: appending a string to itself is excluded, because in each of the four cases the last memcpy would read and write the same byte of one block, for which memcpy promises nothing; so are lengths of 2^32 - 1 and more. Concat covers adding a string to itself.
- SmallString.SmallString.SubstrMoved: a start position past the end is excluded; there `size() - pos` wraps around and the characters copied lie outside the string.
- SmallString.SmallString.SubstrCopied: the same.
- SmallString.SmallString.FromBytes: covers the constructor from a stream as well, as far as the bytes have been read; strlen, find, rfind, compare and element access are left out as easy.
- Releasing memory: a released block is given unknown contents, so reading one would be noticed; a block that is never released would not be.
- The header setters (set_fin and the like), reserved-bit and size validity checks, and WebSocket++ beyond frame.hpp.
- Game engine, arbiter, rules, ratings, the client, persistence and the remaining vendored headers.
