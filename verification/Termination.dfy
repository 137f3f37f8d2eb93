/** Every run ends: with no new requests the work left strictly shrinks, it is never stuck,
    and when nothing is left every /play request has been answered. */
module Termination {
  import opened Options
  import opened Messages
  import opened Protocol
  import opened Sums
  import opened Coverage
  import opened Answers

  /** How much work a task can still cause, with `gs` gateways and `ms` matchmakers. */
  function Work(gs: nat, ms: nat, k: Task): nat {
    match k
    case AtGateway(_, _) => 1
    case CancelAt(_, _) => 1
    case AtMatchmaker(_, _, _) => 2
    case SearchPublish(_) => gs + 1
    case SearchRemove(_) => gs + 2
    case Searching(_, _) => gs + 3
    case ArmSearch(_) => gs + 4
    case Pooling(_, _) => gs + 5
    case Allocating(_, _, _, _) => gs + 2 * ms + 1
    case MatchedMsg(_, _) => gs + 2 * ms + 2
    case Watching(_, _, _, _) => 2 * gs + 2
    case StartWatchdog(_, _, _) => 2 * gs + 3
    case Watch(_, _, _) => 2 * gs + 5
    case Paired(_, _, _) => 3 * gs + 2 * ms + 8
    case Request(_, _) => 3 * gs + 2 * ms + 9
  }

  function SectionWork(gs: nat, p: Replica): nat {
    match p.section
    case Free => 0
    case Erasing(_, _) => 1
    case Firing(_, _, _) => gs + 1
    case Arming(_, _) => 2 * gs + 4
  }

  function TaskWork(s: State): Task -> nat { (k: Task) => Work(|s.open|, |s.replicas|, k) }
  function ReplicaWork(s: State): Replica -> nat { (p: Replica) => SectionWork(|s.open|, p) }

  function Measure(s: State): nat {
    Sum(TaskWork(s), s.tasks) + Sum(ReplicaWork(s), s.replicas)
  }

  /** Actions from outside: new requests, cancellations and the clock. */
  predicate Internal(act: Action) { !act.Play? && !act.ShardFind? && !act.ShardCancel? && !act.Tick? }

  lemma SumPair(f: Task -> nat, k: Task, l: Task)
    ensures Sum(f, [k, l]) == f(k) + f(l)
  {
    assert [k, l][1..] == [l];
    SumOne(f, l);
  }

  lemma BroadcastWork(s: State, e: Event)
    ensures Sum(TaskWork(s), Broadcast(|s.open|, e)) == |s.open|
  {
    SumConstant(TaskWork(s), Broadcast(|s.open|, e), 1);
  }

  /** Steps that take a mutex: the work moves into the section and the events published. */
  lemma LockWork(s: State, i: nat)
    requires Enabled(s, Run(i)) && (s.tasks[i].Watch? || s.tasks[i].Watching? || s.tasks[i].AtMatchmaker?)
    ensures var (s', out) := Effect(s, Run(i));
            Sum(TaskWork(s), out) + Sum(ReplicaWork(s), s'.replicas)
            < Work(|s.open|, |s.replicas|, s.tasks[i]) + Sum(ReplicaWork(s), s.replicas)
  {
    match s.tasks[i]
    case Watch(_, _, _) => WatchWork(s, s.tasks[i]);
    case Watching(_, _, _, _) => WatchingWork(s, s.tasks[i]);
    case AtMatchmaker(_, _, _) => AtMatchmakerWork(s, s.tasks[i]);
  }

  /** A task run in s leaves less work than it took up. */
  predicate LessWork(s: State, k: Task)
    requires Ready(s, k)
  {
    var (s', out) := RunTask(s, k);
    Sum(TaskWork(s), out) + Sum(ReplicaWork(s), s'.replicas)
    < Work(|s.open|, |s.replicas|, k) + Sum(ReplicaWork(s), s.replicas)
  }

  lemma WatchWork(s: State, k: Task)
    requires Ready(s, k) && k.Watch?
    ensures LessWork(s, k)
  {
    SumUpdate(ReplicaWork(s), s.replicas, k.r, RunTask(s, k).0.replicas[k.r]);
  }

  lemma WatchingWork(s: State, k: Task)
    requires Ready(s, k) && k.Watching?
    ensures LessWork(s, k)
  {
    SumUpdate(ReplicaWork(s), s.replicas, k.r, RunTask(s, k).0.replicas[k.r]);
    TimeoutTaskShape(s, s.replicas[k.r].pending, k.a);
    BroadcastWork(s, Timeout(k.a));
  }

  lemma AtMatchmakerWork(s: State, k: Task)
    requires Ready(s, k) && k.AtMatchmaker?
    ensures LessWork(s, k)
  {
    SumUpdate(ReplicaWork(s), s.replicas, k.r, RunTask(s, k).0.replicas[k.r]);
  }

  /** The work of the tasks an internal step adds, plus that of the section it starts, is less than what it uses up. */
  lemma RunWork(s: State, i: nat)
    requires Enabled(s, Run(i))
    ensures var (s', out) := Effect(s, Run(i));
            Sum(TaskWork(s), out) + Sum(ReplicaWork(s), s'.replicas)
            < Work(|s.open|, |s.replicas|, s.tasks[i]) + Sum(ReplicaWork(s), s.replicas)
  {
    var c := s.tasks[i];
    var out := Effect(s, Run(i)).1;
    match c
    case SearchPublish(t) => BroadcastWork(s, Timeout(t));
    case Paired(r, a, b) => SumPair(TaskWork(s), MatchedMsg(a, b), Watch(r, a, b));
    case Watch(_, _, _) => LockWork(s, i);
    case Watching(_, _, _, _) => LockWork(s, i);
    case AtMatchmaker(_, _, _) => LockWork(s, i);
    case Pooling(t, _) => SumOne(TaskWork(s), ArmSearch(t));
    case ArmSearch(t) => SumOne(TaskWork(s), out[0]);
    case Searching(t, _) => if t in s.pool { SumOne(TaskWork(s), out[0]); }
    case SearchRemove(t) => SumOne(TaskWork(s), out[0]);
    case StartWatchdog(_, _, _) => SumOne(TaskWork(s), out[0]);
    case _ =>
  }

  lemma FinishWork(s: State, r: nat)
    requires Enabled(s, Finish(r))
    ensures var (s', out) := Effect(s, Finish(r));
            Sum(TaskWork(s), out) + Sum(ReplicaWork(s), s'.replicas) < Sum(ReplicaWork(s), s.replicas)
  {
    var (s', out) := Effect(s, Finish(r));
    SumUpdate(ReplicaWork(s), s.replicas, r, s'.replicas[r]);
    match s.replicas[r].section
    case Arming(a, b) => SumOne(TaskWork(s), StartWatchdog(r, a, b));
    case Firing(_, b, _) =>
      TimeoutTaskShape(s, s.replicas[r].pending, b);
      BroadcastWork(s, Timeout(b));
    case Erasing(_, _) =>
  }

  lemma ReplyWork(s: State, i: nat, ok: bool)
    requires Enabled(s, Reply(i, ok))
    ensures Sum(TaskWork(s), Effect(s, Reply(i, ok)).1) < Work(|s.open|, |s.replicas|, s.tasks[i])
  {
    if ok {
      var k := s.tasks[i];
      var e := AssignedEvent(Assignment(k.a, k.b, k.room, k.shard));
      var gs, ms := Broadcast(|s.open|, e), TellMatchmakers(|s.replicas|, k.a, k.b);
      SumConcat(TaskWork(s), gs, ms);
      BroadcastWork(s, e);
      SumConstant(TaskWork(s), ms, 2);
    }
  }

  lemma OutWork(s: State, act: Action)
    requires Enabled(s, act) && Scoped(s) && Internal(act)
    ensures var (s', out) := Effect(s, act);
            Sum(TaskWork(s), out) + Sum(ReplicaWork(s), s'.replicas)
            < (if Consumes(act) then Work(|s.open|, |s.replicas|, s.tasks[act.i]) else 0) + Sum(ReplicaWork(s), s.replicas)
  {
    match act
    case Run(i) => RunWork(s, i);
    case Finish(r) => FinishWork(s, r);
    case Reply(i, ok) => ReplyWork(s, i, ok);
    case Deliver(i, _, _) => SumOne(TaskWork(s), Effect(s, act).1[0]);
    case Allocate(i, shard) => if shard.Some? { SumOne(TaskWork(s), Effect(s, act).1[0]); }
  }

  lemma MeasureDecreases(s: State, act: Action)
    requires Enabled(s, act) && Scoped(s) && Internal(act)
    ensures Measure(Next(s, act)) < Measure(s)
  {
    var s' := Next(s, act);
    var (_, out) := Effect(s, act);
    assert |s'.open| == |s.open| && |s'.replicas| == |s.replicas|;
    assert TaskWork(s') == TaskWork(s) && ReplicaWork(s') == ReplicaWork(s) by { SameWork(s, s'); }
    OutWork(s, act);
    SumConcat(TaskWork(s), Kept(s, act), out);
    if Consumes(act) { SumSplit(TaskWork(s), s.tasks, act.i); }
  }

  lemma SameWork(s: State, s': State)
    requires |s'.open| == |s.open| && |s'.replicas| == |s.replicas|
    ensures TaskWork(s') == TaskWork(s) && ReplicaWork(s') == ReplicaWork(s)
  {
  }

  /** In every run without new requests there are at most Measure(s) steps besides the clock's. */
  function StepsOf(acts: seq<Action>): nat {
    if acts == [] then 0 else (if acts[0].Tick? then 0 else 1) + StepsOf(acts[1..])
  }

  lemma {:induction false} RunsAreBounded(s: State, acts: seq<Action>)
    requires Scoped(s) && ValidRun(s, acts)
    requires NoNewRequests(acts)
    ensures StepsOf(acts) + Measure(After(s, acts)) <= Measure(s)
    decreases |acts|
  {
    if acts != [] {
      var s' := Next(s, acts[0]);
      ScopedStep(s, acts[0]);
      if acts[0].Tick? {
        SameWork(s, s');
        assert s'.tasks == s.tasks;
      } else {
        MeasureDecreases(s, acts[0]);
      }
      RunsAreBounded(s', acts[1..]);
    }
  }

  ghost predicate Quiescent(s: State) {
    s.tasks == [] && forall r :: 0 <= r < |s.replicas| ==> s.replicas[r].section.Free?
  }

  /** Never stuck: while anything is left to do, some internal step is possible after waiting d seconds. */
  lemma NeverStuck(s: State) returns (d: nat, act: Action)
    requires Scoped(s) && |s.replicas| > 0 && !Quiescent(s)
    ensures Internal(act) && Enabled(Next(s, Tick(d)), act)
  {
    if r :| 0 <= r < |s.replicas| && !s.replicas[r].section.Free? {
      d, act := 0, Finish(r);
      return;
    }
    var k := s.tasks[0];
    assert TaskScoped(s, k);
    match k {
      case Request(_, _) => d, act := 0, Deliver(0, 0, None);
      case MatchedMsg(_, _) => d, act := 0, Allocate(0, None);
      case Allocating(_, _, _, _) => d, act := 0, Reply(0, false);
      case Searching(_, due) => d, act := due, Run(0);
      case Watching(_, _, _, due) => d, act := due, Run(0);
      case _ => d, act := 0, Run(0);
    }
    assert Next(s, Tick(d)).tasks == s.tasks;
  }

  /** Every /play request ever made has been sent exactly one response, and none is still open. */
  ghost predicate AllAnswered(s: State) {
    && (forall g :: 0 <= g < |s.open| ==> s.open[g] == {})
    && (forall t :: t in s.born && t !in s.shardTickets ==> AnsweredExactlyOnce(s, t))
  }

  /** What holds of every reachable state. */
  ghost predicate Reliable(s: State) { Inv(s) && Once(s) && Accounted(s) }

  lemma QuiescentMeansEmpty(s: State, g: nat)
    requires Inv(s) && Quiescent(s) && g < |s.open|
    ensures s.open[g] == {}
  {
    forall t ensures t !in s.open[g] { assert !Covered(s, g, t); }
  }

  lemma QuiescentMeansAnswered(s: State)
    requires Reliable(s) && Quiescent(s)
    ensures AllAnswered(s)
  {
    forall g | 0 <= g < |s.open| ensures s.open[g] == {} { QuiescentMeansEmpty(s, g); }
    forall t | t in s.born && t !in s.shardTickets ensures AnsweredExactlyOnce(s, t) { OpenOrAnsweredOnce(s, t); }
  }

  predicate NoNewRequests(acts: seq<Action>) {
    forall i :: 0 <= i < |acts| ==> Internal(acts[i]) || acts[i].Tick?
  }

  lemma ReliableStep(s: State, act: Action)
    requires Reliable(s) && Enabled(s, act)
    ensures Reliable(Next(s, act))
  {
    InvStep(s, act);
    OnceStep(s, act);
    AccountedStep(s, act);
  }

  lemma {:induction false} ReliableRun(s: State, acts: seq<Action>)
    requires Reliable(s) && ValidRun(s, acts)
    ensures Reliable(After(s, acts)) && |After(s, acts).replicas| == |s.replicas|
    decreases |acts|
  {
    if acts != [] {
      ReliableStep(s, acts[0]);
      SameSize(s, acts[0]);
      ReliableRun(Next(s, acts[0]), acts[1..]);
    }
  }

  lemma ReliableAtStart(s: State)
    requires Init(s)
    ensures Reliable(s)
  {
  }

  /** Waiting and then taking the step leaves less work. */
  lemma WaitThenStep(s: State, d: nat, act: Action)
    requires Reliable(s) && Internal(act) && Enabled(Next(s, Tick(d)), act)
    ensures var s' := Next(Next(s, Tick(d)), act);
            Reliable(s') && Measure(s') < Measure(s) && |s'.replicas| == |s.replicas|
  {
    var mid := Next(s, Tick(d));
    ReliableStep(s, Tick(d));
    SameWork(s, mid);
    assert mid.tasks == s.tasks;
    MeasureDecreases(mid, act);
    ReliableStep(mid, act);
    SameSize(mid, act);
  }

  /** From every reachable state, the work in progress alone answers every request. */
  lemma {:induction false} EveryRequestIsAnswered(s: State) returns (acts: seq<Action>)
    requires Reliable(s) && |s.replicas| > 0
    ensures NoNewRequests(acts) && ValidRun(s, acts)
    ensures Quiescent(After(s, acts)) && AllAnswered(After(s, acts))
    decreases Measure(s)
  {
    if Quiescent(s) {
      acts := [];
      QuiescentMeansAnswered(s);
    } else {
      var d, act := NeverStuck(s);
      WaitThenStep(s, d, act);
      var rest := EveryRequestIsAnswered(Next(Next(s, Tick(d)), act));
      acts := WaitStepGoOn(s, d, act, rest);
    }
  }

  lemma WaitStepGoOn(s: State, d: nat, act: Action, rest: seq<Action>) returns (acts: seq<Action>)
    requires Internal(act) && Enabled(Next(s, Tick(d)), act)
    requires ValidRun(Next(Next(s, Tick(d)), act), rest) && NoNewRequests(rest)
    ensures ValidRun(s, acts) && NoNewRequests(acts)
    ensures After(s, acts) == After(Next(Next(s, Tick(d)), act), rest)
  {
    RunPrepend(Next(s, Tick(d)), act, rest);
    RunPrepend(s, Tick(d), [act] + rest);
    acts := [Tick(d)] + ([act] + rest);
  }

  /** No internal step is possible, however long one waits. */
  ghost predicate Halted(s: State) {
    forall d: nat, act :: Internal(act) ==> !Enabled(Next(s, Tick(d)), act)
  }

  lemma HaltedMeansAnswered(s: State)
    requires Reliable(s) && |s.replicas| > 0 && Halted(s)
    ensures AllAnswered(s)
  {
    if !Quiescent(s) {
      var _, _ := NeverStuck(s);
      assert false;
    }
    QuiescentMeansAnswered(s);
  }

  /** Over all runs: once no new requests come, the run takes at most as many steps as there is work, whatever their
      order, and when it can go no further every /play request ever made has been sent exactly one response. */
  lemma EveryFullRunAnswers(s: State, before: seq<Action>, acts: seq<Action>)
    requires Init(s) && |s.replicas| > 0 && ValidRun(s, before)
    requires ValidRun(After(s, before), acts) && NoNewRequests(acts)
    ensures StepsOf(acts) <= Measure(After(s, before))
    ensures Halted(After(After(s, before), acts)) ==> AllAnswered(After(After(s, before), acts))
  {
    ReliableAtStart(s);
    ReliableRun(s, before);
    var mid := After(s, before);
    RunsAreBounded(mid, acts);
    ReliableRun(mid, acts);
    if Halted(After(mid, acts)) { HaltedMeansAnswered(After(mid, acts)); }
  }
}
