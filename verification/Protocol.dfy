/** The /play protocol as a state machine: any number of gateway, matchmaker and allocator
    replicas, every interleaving of their handlers, timer threads and message deliveries.

    Everything that still has to happen is a `Task`: a message that is in flight to one
    subscriber, or a handler or timer thread between two of its visible actions. A step picks
    any task, so messages and threads are reordered freely. The part of a critical section that
    is left while a thread holds a replica's pendingAssignmentMutex is that replica's `section`. */
module Protocol {
  import opened Options
  import opened Messages
  import Matchmaker
  import Allocator

  const SEARCH_TIMEOUT: nat := Matchmaker.SEARCH_TIMEOUT_SECONDS
  const ASSIGNMENT_TIMEOUT: nat := Matchmaker.ASSIGNMENT_TIMEOUT_SECONDS

  datatype Task =
    | Request(t: Ticket, elo: int)                    // matchmaking.request, not yet delivered
    | Pooling(t: Ticket, elo: int)                    // no opponent found; addToPool comes next
    | ArmSearch(t: Ticket)                            // pooled; the search timer is not started yet
    | Searching(t: Ticket, due: nat)                  // search timer asleep until `due`
    | SearchRemove(t: Ticket)                         // timer saw isWaiting; remove comes next
    | SearchPublish(t: Ticket)                        // timer removed; publish comes next
    | Paired(r: nat, a: Ticket, b: Ticket)            // opponent a popped for b; publish matched comes next
    | Watch(r: nat, a: Ticket, b: Ticket)             // matched published; watchForAssignment comes next
    | StartWatchdog(r: nat, a: Ticket, b: Ticket)     // both inserted, lock released; thread not started yet
    | Watching(r: nat, a: Ticket, b: Ticket, due: nat) // watchdog asleep until `due`
    | MatchedMsg(a: Ticket, b: Ticket)                // matchmaking.matched, not yet delivered
    | Allocating(a: Ticket, b: Ticket, room: nat, shard: string) // allocator waits for the shard's reply
    | AtGateway(g: nat, e: Event)                     // fan-out copy for gateway g
    | AtMatchmaker(r: nat, a: Ticket, b: Ticket)      // fan-out copy of assigned for matchmaker r
    | CancelAt(r: nat, t: Ticket)                     // fan-out copy of cancel for matchmaker r

  /** What the holder of a replica's mutex has left to do; `Free` when nobody holds it. */
  datatype Section =
    | Free
    | Arming(a: Ticket, b: Ticket)                    // a inserted, b to insert
    | Erasing(a: Ticket, b: Ticket)                   // a erased, b to erase
    | Firing(a: Ticket, b: Ticket, first: bool)       // a handled (timed out iff first), b to handle

  datatype Replica = Replica(pending: set<Ticket>, section: Section)

  datatype Assignment = Assignment(a: Ticket, b: Ticket, room: nat, shard: string)

  datatype Answer = Answer(g: nat, t: Ticket, at: nat)  // answered by processed event number `at`

  /** findMatch popped a for b at time `at`; `seen` when a's search timer had already found it waiting. */
  datatype Pop = Pop(a: Ticket, b: Ticket, at: nat, seen: bool)

  datatype State = State(
    now: nat,
    open: seq<set<Ticket>>,         // playTickets of each gateway
    pool: map<Ticket, int>,         // the shared Redis pool: ticket -> elo
    replicas: seq<Replica>,         // the matchmaker replicas
    tasks: seq<Task>,
    nextRoom: nat,                  // the shared Redis room counter
    shardTickets: set<Ticket>,      // tickets issued by game-server shards rather than gateways
    // history, read by no step
    born: map<Ticket, nat>,         // every ticket ever issued, with the time of its request
    expired: set<Ticket>,           // tickets whose search timer found them waiting
    pops: seq<Pop>,                 // every pair findMatch made
    matched: seq<(Ticket, Ticket)>, // every matchmaking.matched published
    assignments: seq<Assignment>,      // every matchmaking.assigned published
    heard: set<(nat, Ticket, Ticket)>, // the assignments each matchmaker replica has handled
    processed: seq<(nat, Event)>,   // every event a gateway has processed, in order
    answers: seq<Answer>            // every response sent to a /play request
  )

  datatype Action =
    | Play(g: nat, t: Ticket, elo: int)               // POST /play at gateway g mints ticket t
    | ShardFind(t: Ticket, elo: int)                  // a game-server shard requests a match
    | ShardCancel(t: Ticket)                          // a game-server shard cancels its own ticket
    | Tick(d: nat)
    | Deliver(i: nat, r: nat, opponent: Option<Ticket>) // request i handled by replica r, findMatch's result
    | Allocate(i: nat, shard: Option<string>)         // matched i handled by some allocator, its pick
    | Reply(i: nat, ok: bool)                         // the shard's reply to allocation i
    | Run(i: nat)                                     // any other task takes its next step
    | Finish(r: nat)                                  // the holder of replica r's mutex finishes

  ghost predicate Init(s: State) {
    && s.pool == map[] && s.tasks == [] && s.shardTickets == {} && s.born == map[]
    && s.nextRoom == 0 && s.expired == {} && s.pops == [] && s.heard == {}
    && s.matched == [] && s.assignments == [] && s.processed == [] && s.answers == []
    && (forall g :: 0 <= g < |s.open| ==> s.open[g] == {})
    && (forall r :: 0 <= r < |s.replicas| ==> s.replicas[r] == Replica({}, Free))
  }

  predicate Ready(s: State, k: Task) {
    match k
    case Searching(_, due) => due <= s.now
    case Watch(r, _, _) => r < |s.replicas| && s.replicas[r].section.Free?
    case Watching(r, _, _, due) => due <= s.now && r < |s.replicas| && s.replicas[r].section.Free?
    case AtMatchmaker(r, _, _) => r < |s.replicas| && s.replicas[r].section.Free?
    case AtGateway(g, _) => g < |s.open|
    case StartWatchdog(r, _, _) => r < |s.replicas|
    case _ => true
  }

  ghost predicate Enabled(s: State, act: Action) {
    match act
    case Play(g, t, _) => g < |s.open| && t !in s.born
    case ShardFind(t, _) => t !in s.born
    case ShardCancel(t) => t in s.shardTickets
    case Tick(_) => true
    case Deliver(i, r, opponent) =>
      && i < |s.tasks| && s.tasks[i].Request? && r < |s.replicas|
      && (opponent.Some? ==> Matchmaker.MayFind(s.pool, s.tasks[i].elo, opponent.value))
    case Allocate(i, _) => i < |s.tasks| && s.tasks[i].MatchedMsg?
    case Reply(i, _) => i < |s.tasks| && s.tasks[i].Allocating?
    case Run(i) =>
      && i < |s.tasks|
      && !s.tasks[i].Request? && !s.tasks[i].MatchedMsg? && !s.tasks[i].Allocating?
      && Ready(s, s.tasks[i])
    case Finish(r) => r < |s.replicas| && !s.replicas[r].section.Free?
  }

  function Broadcast(gateways: nat, e: Event): (out: seq<Task>)
    ensures |out| == gateways
    ensures forall g :: 0 <= g < gateways ==> AtGateway(g, e) in out
    ensures forall k :: k in out ==> k.AtGateway? && k.e == e && k.g < gateways
  {
    var out := seq(gateways, g requires 0 <= g < gateways => AtGateway(g, e));
    assert forall g :: 0 <= g < gateways ==> out[g] == AtGateway(g, e);
    out
  }

  function TellMatchmakers(replicas: nat, a: Ticket, b: Ticket): (out: seq<Task>)
    ensures |out| == replicas
    ensures forall r :: 0 <= r < replicas ==> AtMatchmaker(r, a, b) in out
    ensures forall k :: k in out ==> k.AtMatchmaker? && k.a == a && k.b == b && k.r < replicas
  {
    var out := seq(replicas, r requires 0 <= r < replicas => AtMatchmaker(r, a, b));
    assert forall r :: 0 <= r < replicas ==> out[r] == AtMatchmaker(r, a, b);
    out
  }

  function TellCancel(replicas: nat, t: Ticket): (out: seq<Task>)
    ensures |out| == replicas
    ensures forall r :: 0 <= r < replicas ==> CancelAt(r, t) in out
    ensures forall k :: k in out ==> k.CancelAt? && k.t == t && k.r < replicas
  {
    var out := seq(replicas, r requires 0 <= r < replicas => CancelAt(r, t));
    assert forall r :: 0 <= r < replicas ==> out[r] == CancelAt(r, t);
    out
  }

  function TimeoutTasks(s: State, timedOut: seq<Ticket>): seq<Task> {
    if timedOut == [] then [] else Broadcast(|s.open|, Timeout(timedOut[0])) + TimeoutTasks(s, timedOut[1..])
  }

  function WithReplica(s: State, r: nat, pending: set<Ticket>, section: Section): State
    requires r < |s.replicas|
  {
    s.(replicas := s.replicas[r := Replica(pending, section)])
  }

  /** The answers to the tickets a gateway holds of those an event names; `at` is the event's number. */
  function AnswersTo(g: nat, at: nat, held: set<Ticket>, e: Event): seq<Answer> {
    match e
    case Timeout(t) => if t in held then [Answer(g, t, at)] else []
    case Assigned(a, b, _, _) =>
      (if a in held then [Answer(g, a, at)] else []) + (if b in held - {a} then [Answer(g, b, at)] else [])
  }

  /** A gateway handles an event on its io thread: every mentioned ticket it still holds is answered and dropped. */
  function AtGatewayStep(s: State, g: nat, e: Event): State
    requires g < |s.open|
  {
    s.(open := s.open[g := s.open[g] - Mentions(e)],
       processed := s.processed + [(g, e)],
       answers := s.answers + AnswersTo(g, |s.processed|, s.open[g], e))
  }

  /** What a task that needs no outside choice does: the new state (tasks aside) and the tasks it leaves. */
  function RunTask(s: State, k: Task): (State, seq<Task>)
    requires Ready(s, k)
  {
    match k
    case Pooling(t, elo) => (s.(pool := s.pool[t := elo]), [ArmSearch(t)])
    case ArmSearch(t) => (s, [Searching(t, s.now + SEARCH_TIMEOUT)])
    case Searching(t, _) =>
      if t in s.pool then (s.(expired := s.expired + {t}), [SearchRemove(t)]) else (s, [])
    case SearchRemove(t) => (s.(pool := s.pool - {t}), [SearchPublish(t)])
    case SearchPublish(t) => (s, Broadcast(|s.open|, Timeout(t)))
    case Paired(r, a, b) => (s.(matched := s.matched + [(a, b)]), [MatchedMsg(a, b), Watch(r, a, b)])
    case Watch(r, a, b) => (WithReplica(s, r, s.replicas[r].pending + {a}, Arming(a, b)), [])
    case StartWatchdog(r, a, b) => (s, [Watching(r, a, b, s.now + ASSIGNMENT_TIMEOUT)])
    case Watching(r, a, b, _) =>
      var (pending, timedOut) := Matchmaker.TimeOutOne(s.replicas[r].pending, a);
      (WithReplica(s, r, pending, Firing(a, b, timedOut != [])), TimeoutTasks(s, timedOut))
    case AtGateway(g, e) => (AtGatewayStep(s, g, e), [])
    case AtMatchmaker(r, a, b) =>
      (WithReplica(s, r, s.replicas[r].pending - {a}, Erasing(a, b)).(heard := s.heard + {(r, a, b)}), [])
    case CancelAt(_, t) => (s.(pool := s.pool - {t}), [])
    case _ => (s, [])
  }

  function FinishSection(s: State, r: nat): (State, seq<Task>)
    requires r < |s.replicas|
  {
    var p := s.replicas[r].pending;
    match s.replicas[r].section
    case Free => (s, [])
    case Arming(a, b) => (WithReplica(s, r, p + {b}, Free), [StartWatchdog(r, a, b)])
    case Erasing(a, b) => (WithReplica(s, r, p - {b}, Free), [])
    case Firing(a, b, _) =>
      var (pending, timedOut) := Matchmaker.TimeOutOne(p, b);
      (WithReplica(s, r, pending, Free), TimeoutTasks(s, timedOut))
  }

  /** The effect of an action on everything but the list of tasks, and the tasks it adds. */
  ghost function Effect(s: State, act: Action): (State, seq<Task>)
    requires Enabled(s, act)
  {
    match act
    case Play(g, t, elo) =>
      (s.(open := s.open[g := s.open[g] + {t}], born := s.born[t := s.now]), [Request(t, elo)])
    case ShardFind(t, elo) =>
      (s.(shardTickets := s.shardTickets + {t}, born := s.born[t := s.now]), [Request(t, elo)])
    case ShardCancel(t) => (s, TellCancel(|s.replicas|, t))
    case Tick(d) => (s.(now := s.now + d), [])
    case Deliver(i, r, None) => (s, [Pooling(s.tasks[i].t, s.tasks[i].elo)])
    case Deliver(i, r, Some(a)) =>
      (s.(pool := s.pool - {a}, pops := s.pops + [Pop(a, s.tasks[i].t, s.now, a in s.expired)]),
       [Paired(r, a, s.tasks[i].t)])
    case Allocate(i, None) => (s, [])
    case Allocate(i, Some(shard)) =>
      var room := s.nextRoom + 1;
      (s.(nextRoom := room), [Allocating(s.tasks[i].a, s.tasks[i].b, room, shard)])
    case Reply(i, false) => (s, [])
    case Reply(i, true) =>
      var k := s.tasks[i];
      (s.(assignments := s.assignments + [Assignment(k.a, k.b, k.room, k.shard)]),
       Broadcast(|s.open|, AssignedEvent(Assignment(k.a, k.b, k.room, k.shard)))
       + TellMatchmakers(|s.replicas|, k.a, k.b))
    case Run(i) => RunTask(s, s.tasks[i])
    case Finish(r) => FinishSection(s, r)
  }

  function AssignedEvent(x: Assignment): Event {
    Assigned(x.a, x.b, Allocator.RoomName(x.room), x.shard)
  }

  function Without(tasks: seq<Task>, i: nat): seq<Task>
    requires i < |tasks|
  {
    tasks[..i] + tasks[i + 1..]
  }

  predicate Consumes(act: Action) { act.Deliver? || act.Allocate? || act.Reply? || act.Run? }

  /** The tasks an action leaves untouched. */
  ghost function Kept(s: State, act: Action): seq<Task>
    requires Enabled(s, act)
  {
    if Consumes(act) then Without(s.tasks, act.i) else s.tasks
  }

  ghost function Next(s: State, act: Action): State
    requires Enabled(s, act)
  {
    var (s', out) := Effect(s, act);
    s'.(tasks := Kept(s, act) + out)
  }

  ghost predicate ValidRun(s: State, acts: seq<Action>)
    decreases |acts|
  {
    acts == [] || (Enabled(s, acts[0]) && ValidRun(Next(s, acts[0]), acts[1..]))
  }

  ghost function After(s: State, acts: seq<Action>): State
    requires ValidRun(s, acts)
    decreases |acts|
  {
    if acts == [] then s else After(Next(s, acts[0]), acts[1..])
  }

  /** What no task touches: the clock, the tickets issued, pops, assignments, and how many replicas there are. */
  lemma TaskKeeps(s: State, k: Task)
    requires Ready(s, k)
    ensures var s' := RunTask(s, k).0;
      && s'.now == s.now && s'.born == s.born && s'.shardTickets == s.shardTickets && s'.nextRoom == s.nextRoom
      && s.heard <= s'.heard && s'.pops == s.pops && s'.assignments == s.assignments && s.expired <= s'.expired
      && |s'.open| == |s.open| && |s'.replicas| == |s.replicas|
  {
  }

  /** Replicas neither come nor go. */
  lemma SameSize(s: State, act: Action)
    requires Enabled(s, act)
    ensures |Next(s, act).open| == |s.open| && |Next(s, act).replicas| == |s.replicas|
  {
    if act.Run? { TaskKeeps(s, s.tasks[act.i]); }
  }

  lemma TaskAfter(s: State, act: Action, k: Task)
    requires Enabled(s, act)
    requires k in Next(s, act).tasks
    ensures k in s.tasks || k in Effect(s, act).1
  {
  }

  lemma TaskStays(s: State, act: Action, k: Task)
    requires Enabled(s, act)
    requires k in s.tasks
    requires Consumes(act) ==> k != s.tasks[act.i]
    ensures k in Next(s, act).tasks
  {
    var j :| 0 <= j < |s.tasks| && s.tasks[j] == k;
    if Consumes(act) {
      var left := Without(s.tasks, act.i);
      assert if j < act.i then left[j] == k else left[j - 1] == k;
    }
    assert k in Kept(s, act);
  }

  lemma RunPrepend(s: State, act: Action, rest: seq<Action>)
    requires Enabled(s, act) && ValidRun(Next(s, act), rest)
    ensures ValidRun(s, [act] + rest)
    ensures After(s, [act] + rest) == After(Next(s, act), rest)
  {
    assert ([act] + rest)[1..] == rest;
  }
}
