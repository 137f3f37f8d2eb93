/** The timed bound: when messages and handlers take no clock time, every /play request is
    answered within SEARCH_TIMEOUT + ASSIGNMENT_TIMEOUT seconds, whatever the allocators do. */
module Timing {
  import opened Options
  import opened Messages
  import opened Protocol
  import opened Coverage

  /** Sleeping timers and the allocator's work may take time; everything else happens at once. */
  predicate MayWait(k: Task) {
    k.Searching? || k.Watching? || k.MatchedMsg? || k.Allocating?
  }

  /** The clock may advance by d: nothing is due to happen before. Allocators may be arbitrarily slow. */
  ghost predicate PromptTick(s: State, d: nat) {
    && (forall k :: k in s.tasks ==> MayWait(k))
    && (forall k :: k in s.tasks && (k.Searching? || k.Watching?) ==> s.now + d <= k.due)
    && (forall r :: 0 <= r < |s.replicas| ==> s.replicas[r].section.Free?)
  }

  ghost predicate PromptRun(s: State, acts: seq<Action>)
    requires ValidRun(s, acts)
    decreases |acts|
  {
    acts == [] || ((acts[0].Tick? ==> PromptTick(s, acts[0].d)) && PromptRun(Next(s, acts[0]), acts[1..]))
  }

  /** t's request is at most n seconds old at time `at`. */
  predicate Within(s: State, t: Ticket, at: nat, n: nat) {
    t in s.born ==> at <= s.born[t] + n
  }

  predicate OnTime(s: State, k: Task) {
    match k
    case Request(t, _) => Within(s, t, s.now, 0)
    case Pooling(t, _) => Within(s, t, s.now, 0)
    case ArmSearch(t) => Within(s, t, s.now, 0)
    case Searching(t, due) => Within(s, t, due, SEARCH_TIMEOUT)
    case Paired(_, a, b) => PairOnTime(s, a, b, s.now, SEARCH_TIMEOUT)
    case Watch(_, a, b) => PairOnTime(s, a, b, s.now, SEARCH_TIMEOUT)
    case StartWatchdog(_, a, b) => PairOnTime(s, a, b, s.now, SEARCH_TIMEOUT)
    case Watching(_, a, b, due) => PairOnTime(s, a, b, due, SEARCH_TIMEOUT + ASSIGNMENT_TIMEOUT)
    case _ => true
  }

  predicate PairOnTime(s: State, a: Ticket, b: Ticket, at: nat, n: nat) {
    Within(s, a, at, n) && Within(s, b, at, n)
  }

  /** t's search timer has not yet passed its check. */
  predicate Times(k: Task, t: Ticket) {
    (k.ArmSearch? || k.Searching? || k.SearchRemove?) && k.t == t
  }

  ghost predicate PoolOnTime(s: State, t: Ticket) {
    Within(s, t, s.now, SEARCH_TIMEOUT) && exists k :: k in s.tasks && Times(k, t)
  }

  ghost predicate SectionOnTime(s: State, p: Replica) {
    p.section.Arming? ==> PairOnTime(s, p.section.a, p.section.b, s.now, SEARCH_TIMEOUT)
  }

  ghost predicate Timely(s: State) {
    && (forall k :: k in s.tasks ==> OnTime(s, k))
    && (forall t :: t in s.pool ==> PoolOnTime(s, t))
    && (forall r :: 0 <= r < |s.replicas| ==> SectionOnTime(s, s.replicas[r]))
    && (forall g, t :: 0 <= g < |s.open| && t in s.open[g] ==> Within(s, t, s.now, SEARCH_TIMEOUT + ASSIGNMENT_TIMEOUT))
  }

  // ---- the clock ----

  lemma TickOnTime(s: State, d: nat, k: Task)
    requires Timely(s) && PromptTick(s, d) && k in s.tasks
    ensures OnTime(Next(s, Tick(d)), k)
  {
    assert MayWait(k) && OnTime(s, k);
  }

  lemma TickPool(s: State, d: nat, t: Ticket)
    requires Timely(s) && PromptTick(s, d) && t in s.pool
    ensures PoolOnTime(Next(s, Tick(d)), t)
  {
    assert PoolOnTime(s, t);
    var k :| k in s.tasks && Times(k, t);
    assert MayWait(k) && OnTime(s, k);
    assert k in Next(s, Tick(d)).tasks;
  }

  /** While the clock advances, what covers an open ticket is a timer. */
  lemma CoveringTimer(s: State, d: nat, g: nat, t: Ticket) returns (k: Task)
    requires Inv(s) && PromptTick(s, d) && g < |s.open| && t in s.open[g]
    ensures k in s.tasks && (k.Searching? || k.Watching?) && Covers(s, k, g, t) && s.now + d <= k.due
  {
    assert Covered(s, g, t);
    assert !exists r :: 0 <= r < |s.replicas| && SectionCovers(s.replicas[r], t);
    k :| k in s.tasks && Covers(s, k, g, t);
    assert MayWait(k);
  }

  /** No such timer is due. */
  lemma TickOpen(s: State, d: nat, g: nat, t: Ticket)
    requires Inv(s) && Timely(s) && PromptTick(s, d) && g < |s.open| && t in s.open[g]
    ensures Within(s, t, s.now + d, SEARCH_TIMEOUT + ASSIGNMENT_TIMEOUT)
  {
    var k := CoveringTimer(s, d, g, t);
    assert OnTime(s, k);
  }

  lemma TimelyTick(s: State, d: nat)
    requires Inv(s) && Timely(s) && PromptTick(s, d)
    ensures Timely(Next(s, Tick(d)))
  {
    var s' := Next(s, Tick(d));
    assert s'.tasks == s.tasks;
    forall k | k in s'.tasks ensures OnTime(s', k) { TickOnTime(s, d, k); }
    forall t | t in s'.pool ensures PoolOnTime(s', t) { TickPool(s, d, t); }
    forall g, t | 0 <= g < |s'.open| && t in s'.open[g]
      ensures Within(s', t, s'.now, SEARCH_TIMEOUT + ASSIGNMENT_TIMEOUT)
    { TickOpen(s, d, g, t); }
  }

  // ---- every other step ----

  lemma WithinStays(s: State, act: Action, t: Ticket, at: nat, n: nat)
    requires Enabled(s, act) && t in s.born
    ensures t in Next(s, act).born && Next(s, act).born[t] == s.born[t]
    ensures Within(s, t, at, n) == Within(Next(s, act), t, at, n)
  {
    if act.Run? { TaskKeeps(s, s.tasks[act.i]); }
  }

  lemma OldTaskOnTime(s: State, act: Action, k: Task)
    requires Enabled(s, act) && Scoped(s) && Timely(s) && !act.Tick? && k in s.tasks
    ensures OnTime(Next(s, act), k)
  {
    assert OnTime(s, k) && TaskScoped(s, k);
    forall t | t in Tickets(k) ensures t in s.born && Next(s, act).born[t] == s.born[t] { WithinStays(s, act, t, 0, 0); }
  }

  lemma NewTaskOnTime(s: State, act: Action, k: Task)
    requires Enabled(s, act) && Scoped(s) && Timely(s) && !act.Tick? && k in Effect(s, act).1
    ensures OnTime(Next(s, act), k)
  {
    match act
    case Run(i) =>
      var c := s.tasks[i];
      OldTaskOnTime(s, act, c);
      if c.Watching? { TimeoutTaskShape(s, s.replicas[c.r].pending, c.a); }
    case Finish(r) =>
      var sec := s.replicas[r].section;
      assert SectionOnTime(s, s.replicas[r]);
      if sec.Firing? { TimeoutTaskShape(s, s.replicas[r].pending, sec.b); }
    case Deliver(i, r, opponent) =>
      assert OnTime(s, s.tasks[i]);
      if opponent.Some? { assert PoolOnTime(s, opponent.value); }
    case _ =>
  }

  lemma PoolStep(s: State, act: Action, t: Ticket)
    requires Enabled(s, act) && Scoped(s) && Timely(s) && !act.Tick? && t in Next(s, act).pool
    ensures PoolOnTime(Next(s, act), t)
  {
    if act.Run? && s.tasks[act.i].Pooling? && s.tasks[act.i].t == t {
      OldTaskOnTime(s, act, s.tasks[act.i]);
      TimerGoesOn(s, act.i, t);
    } else {
      PooledBefore(s, act, t);
      assert PoolOnTime(s, t);
      WithinStays(s, act, t, s.now, SEARCH_TIMEOUT);
      var k :| k in s.tasks && Times(k, t);
      if Consumes(act) && s.tasks[act.i] == k { TimerGoesOn(s, act.i, t); } else { TaskStays(s, act, k); }
    }
  }

  lemma TaskPooled(s: State, k: Task, t: Ticket)
    requires Ready(s, k) && t in RunTask(s, k).0.pool && !(k.Pooling? && k.t == t)
    ensures t in s.pool
  {
  }

  lemma PooledBefore(s: State, act: Action, t: Ticket)
    requires Enabled(s, act) && t in Next(s, act).pool
    requires !(act.Run? && s.tasks[act.i].Pooling? && s.tasks[act.i].t == t)
    ensures t in s.pool && Next(s, act).now >= s.now && (!act.Tick? ==> Next(s, act).now == s.now)
  {
    if act.Run? {
      TaskPooled(s, s.tasks[act.i], t);
      TaskKeeps(s, s.tasks[act.i]);
    }
  }

  lemma TimerTaskGoesOn(s: State, k: Task, t: Ticket)
    requires Ready(s, k) && (Times(k, t) || (k.Pooling? && k.t == t)) && t in RunTask(s, k).0.pool
    ensures |RunTask(s, k).1| == 1 && Times(RunTask(s, k).1[0], t)
  {
  }

  /** A pooled ticket's timer that takes a step is still before its check. */
  lemma TimerGoesOn(s: State, i: nat, t: Ticket)
    requires Enabled(s, Run(i)) && t in Next(s, Run(i)).pool
    requires Times(s.tasks[i], t) || (s.tasks[i].Pooling? && s.tasks[i].t == t)
    ensures exists k :: k in Next(s, Run(i)).tasks && Times(k, t)
  {
    TimerTaskGoesOn(s, s.tasks[i], t);
    var out := RunTask(s, s.tasks[i]).1[0];
    assert out in Next(s, Run(i)).tasks;
  }

  lemma SectionStep(s: State, act: Action, r: nat)
    requires Enabled(s, act) && Scoped(s) && Timely(s) && !act.Tick? && r < |s.replicas|
    ensures SectionOnTime(Next(s, act), Next(s, act).replicas[r])
  {
    assert SectionOnTime(s, s.replicas[r]) && ReplicaScoped(s, s.replicas[r]);
    var sec := Next(s, act).replicas[r].section;
    if sec.Arming? {
      ArmedBy(s, act, r);
      if sec == s.replicas[r].section {
        PairStays(s, act, sec.a, sec.b);
      } else {
        OldTaskOnTime(s, act, s.tasks[act.i]);
      }
    }
  }

  lemma PairStays(s: State, act: Action, a: Ticket, b: Ticket)
    requires Enabled(s, act) && !act.Tick? && a in s.born && b in s.born
    ensures PairOnTime(Next(s, act), a, b, Next(s, act).now, SEARCH_TIMEOUT) == PairOnTime(s, a, b, s.now, SEARCH_TIMEOUT)
  {
    WithinStays(s, act, a, s.now, SEARCH_TIMEOUT);
    WithinStays(s, act, b, s.now, SEARCH_TIMEOUT);
    if act.Run? { TaskKeeps(s, s.tasks[act.i]); }
  }

  lemma TaskArms(s: State, k: Task, r: nat)
    requires Ready(s, k) && r < |s.replicas|
    ensures |RunTask(s, k).0.replicas| == |s.replicas|
    ensures var sec := RunTask(s, k).0.replicas[r].section;
            sec.Arming? && sec != s.replicas[r].section ==> k.Watch? && sec == Arming(k.a, k.b)
  {
  }

  /** A replica starts arming a pair only when a Watch task takes its mutex. */
  lemma ArmedBy(s: State, act: Action, r: nat)
    requires Enabled(s, act) && r < |s.replicas|
    ensures |Next(s, act).replicas| == |s.replicas|
    ensures var sec := Next(s, act).replicas[r].section;
      sec.Arming? && sec != s.replicas[r].section ==>
        && act.Run? && s.tasks[act.i].Watch? && sec == Arming(s.tasks[act.i].a, s.tasks[act.i].b)
        && Next(s, act).now == s.now
  {
    if act.Run? {
      TaskArms(s, s.tasks[act.i], r);
      TaskKeeps(s, s.tasks[act.i]);
    }
  }

  lemma TimelyStep(s: State, act: Action)
    requires Inv(s) && Timely(s) && Enabled(s, act) && (act.Tick? ==> PromptTick(s, act.d))
    ensures Timely(Next(s, act))
  {
    var s' := Next(s, act);
    if act.Tick? {
      TimelyTick(s, act.d);
      return;
    }
    forall k | k in s'.tasks ensures OnTime(s', k) {
      TaskAfter(s, act, k);
      if k in s.tasks { OldTaskOnTime(s, act, k); } else { NewTaskOnTime(s, act, k); }
    }
    forall t | t in s'.pool ensures PoolOnTime(s', t) { PoolStep(s, act, t); }
    forall r | 0 <= r < |s'.replicas| ensures SectionOnTime(s', s'.replicas[r]) { SectionStep(s, act, r); }
    forall g, t | 0 <= g < |s'.open| && t in s'.open[g]
      ensures Within(s', t, s'.now, SEARCH_TIMEOUT + ASSIGNMENT_TIMEOUT)
    {
      OpenBefore(s, act, g, t);
      if t in s.open[g] { WithinStays(s, act, t, s.now, SEARCH_TIMEOUT + ASSIGNMENT_TIMEOUT); }
    }
  }

  lemma {:induction false} TimelyRun(s: State, acts: seq<Action>)
    requires Inv(s) && Timely(s) && ValidRun(s, acts) && PromptRun(s, acts)
    ensures Timely(After(s, acts))
    decreases |acts|
  {
    if acts != [] {
      InvStep(s, acts[0]);
      TimelyStep(s, acts[0]);
      TimelyRun(Next(s, acts[0]), acts[1..]);
    }
  }

  lemma AnsweredInTime(s: State, acts: seq<Action>, g: nat, t: Ticket)
    requires Init(s) && ValidRun(s, acts) && PromptRun(s, acts)
    requires var s' := After(s, acts); g < |s'.open| && t in s'.open[g]
    ensures var s' := After(s, acts);
            t in s'.born && s'.now <= s'.born[t] + SEARCH_TIMEOUT + ASSIGNMENT_TIMEOUT
  {
    assert Inv(s) && Timely(s);
    TimelyRun(s, acts);
    InvRun(s, acts);
  }

  // ---- the bound is tight: 60 seconds alone is not enough ----

  ghost predicate LeadsTo(s: State, acts: seq<Action>, s': State) {
    ValidRun(s, acts) && PromptRun(s, acts) && After(s, acts) == s'
  }

  lemma {:induction false} Extend(s: State, acts: seq<Action>, s': State, act: Action)
    requires LeadsTo(s, acts, s') && Enabled(s', act) && (act.Tick? ==> PromptTick(s', act.d))
    ensures LeadsTo(s, acts + [act], Next(s', act))
    decreases |acts|
  {
    if acts == [] {
      assert (acts + [act])[1..] == [];
    } else {
      assert (acts + [act])[1..] == acts[1..] + [act];
      Extend(Next(s, acts[0]), acts[1..], s', act);
    }
  }

  lemma AsksFirst(s: State) returns (acts: seq<Action>)
    requires Init(s) && s.now == 0 && |s.open| == |s.replicas| == 1
    ensures LeadsTo(s, acts, s.(open := [{"a"}], born := map["a" := 0], tasks := [Pooling("a", 1200)]))
  {
    var s1 := Next(s, Play(0, "a", 1200));
    Extend(s, [], s, Play(0, "a", 1200));
    acts := [Play(0, "a", 1200)];
    Extend(s, acts, s1, Deliver(0, 0, None));
    acts := acts + [Deliver(0, 0, None)];
    assert s1.open[0] == {"a"};
    assert Next(s1, Deliver(0, 0, None)).tasks == [Pooling("a", 1200)];
  }

  /** a asks at time 0 and waits in the pool until its search timer is due; nothing has been checked yet. */
  lemma WaitsSixtySeconds(s: State) returns (acts: seq<Action>)
    requires Init(s) && s.now == 0 && |s.open| == |s.replicas| == 1
    ensures var s' := s.(now := 60, open := [{"a"}], born := map["a" := 0], pool := map["a" := 1200],
                         tasks := [Searching("a", 60)]);
            LeadsTo(s, acts, s')
  {
    acts := AsksFirst(s);
    var s2 := After(s, acts);
    Extend(s, acts, s2, Run(0));
    var s3 := Next(s2, Run(0));
    assert s3.tasks == [ArmSearch("a")];
    Extend(s, acts + [Run(0)], s3, Run(0));
    var s4 := Next(s3, Run(0));
    assert s4.tasks == [Searching("a", 60)];
    Extend(s, acts + [Run(0)] + [Run(0)], s4, Tick(60));
    acts := acts + [Run(0)] + [Run(0)] + [Tick(60)];
    assert Next(s4, Tick(60)).tasks == [Searching("a", 60)];
  }

  /** At that moment b arrives and finds a. */
  lemma PairedAtTheLastMoment(s: State) returns (acts: seq<Action>, s': State)
    requires s.now == 60 && s.open == [{"a"}] && s.born == map["a" := 0] && s.pool == map["a" := 1200]
    requires s.replicas == [Replica({}, Free)] && s.tasks == [Searching("a", 60)]
    ensures LeadsTo(s, acts, s')
    ensures s'.now == 60 && s'.open == [{"a", "b"}] && s'.born == map["a" := 0, "b" := 60] && s'.pool == map[]
    ensures s'.replicas == s.replicas && s'.tasks == [Searching("a", 60), Paired(0, "a", "b")]
  {
    var s1 := Next(s, Play(0, "b", 1200));
    assert "b"[0] != "a"[0];
    Extend(s, [], s, Play(0, "b", 1200));
    assert s1.tasks == [Searching("a", 60), Request("b", 1200)];
    assert s1.open[0] == {"a", "b"};
    acts := [Play(0, "b", 1200)];
    Extend(s, acts, s1, Deliver(1, 0, Some("a")));
    acts, s' := acts + [Deliver(1, 0, Some("a"))], Next(s1, Deliver(1, 0, Some("a")));
    assert s'.pool == map[];
  }

  /** The match is published and watched, and no allocator has handled it yet. */
  lemma WatchedAtTheLastMoment(s: State) returns (acts: seq<Action>, s': State)
    requires s.replicas == [Replica({}, Free)] && s.tasks == [Searching("a", 60), Paired(0, "a", "b")]
    ensures LeadsTo(s, acts, s')
    ensures s'.now == s.now && s'.open == s.open && s'.born == s.born && s'.pool == s.pool
    ensures s'.replicas == [Replica({"a", "b"}, Free)]
    ensures s'.tasks == [Searching("a", 60), MatchedMsg("a", "b"), StartWatchdog(0, "a", "b")]
  {
    Extend(s, [], s, Run(1));
    var s1 := Next(s, Run(1));
    assert s1.tasks == [Searching("a", 60), MatchedMsg("a", "b"), Watch(0, "a", "b")];
    Extend(s, [Run(1)], s1, Run(2));
    var s2 := Next(s1, Run(2));
    assert s2.tasks == [Searching("a", 60), MatchedMsg("a", "b")];
    Extend(s, [Run(1)] + [Run(2)], s2, Finish(0));
    acts, s' := [Run(1)] + [Run(2)] + [Finish(0)], Next(s2, Finish(0));
    assert s'.replicas[0].pending == {"a", "b"};
  }

  /** a's search timer finds nothing, and ten more seconds pass: a has been waiting for 70 seconds. */
  lemma WaitsTenMore(s: State) returns (acts: seq<Action>, s': State)
    requires s.now == 60 && s.pool == map[] && s.replicas == [Replica({"a", "b"}, Free)]
    requires s.tasks == [Searching("a", 60), MatchedMsg("a", "b"), StartWatchdog(0, "a", "b")]
    ensures LeadsTo(s, acts, s')
    ensures s'.now == 70 && s'.open == s.open && s'.born == s.born
  {
    var s1;
    acts, s1 := BothTimersPass(s);
    Extend(s, acts, s1, Tick(10));
    acts, s' := acts + [Tick(10)], Next(s1, Tick(10));
  }

  lemma BothTimersPass(s: State) returns (acts: seq<Action>, s': State)
    requires s.now == 60 && s.pool == map[] && s.replicas == [Replica({"a", "b"}, Free)]
    requires s.tasks == [Searching("a", 60), MatchedMsg("a", "b"), StartWatchdog(0, "a", "b")]
    ensures LeadsTo(s, acts, s')
    ensures s'.now == 60 && s'.open == s.open && s'.born == s.born && s'.replicas == s.replicas
    ensures s'.tasks == [MatchedMsg("a", "b"), Watching(0, "a", "b", 70)]
  {
    Extend(s, [], s, Run(2));
    var s1 := Next(s, Run(2));
    assert s1.tasks == [Searching("a", 60), MatchedMsg("a", "b"), Watching(0, "a", "b", 70)];
    Extend(s, [Run(2)], s1, Run(0));
    acts, s' := [Run(2)] + [Run(0)], Next(s1, Run(0));
  }

  lemma {:induction false} Chain(s: State, acts: seq<Action>, mid: State, more: seq<Action>, s': State)
    requires LeadsTo(s, acts, mid) && LeadsTo(mid, more, s')
    ensures LeadsTo(s, acts + more, s')
    decreases |acts|
  {
    if acts == [] {
      assert acts + more == more;
    } else {
      assert (acts + more)[1..] == acts[1..] + more;
      Chain(Next(s, acts[0]), acts[1..], mid, more, s');
    }
  }

  /** The search timeout alone does not bound a request: here one is still open after 70 seconds. */
  lemma BoundIsTight(s: State) returns (acts: seq<Action>)
    requires Init(s) && s.now == 0 && |s.open| == |s.replicas| == 1
    ensures ValidRun(s, acts) && PromptRun(s, acts)
    ensures var s' := After(s, acts);
            && s'.open == [{"a", "b"}] && "a" in s'.born
            && s'.now == s'.born["a"] + SEARCH_TIMEOUT + ASSIGNMENT_TIMEOUT
  {
    var acts1 := WaitsSixtySeconds(s);
    var s1 := After(s, acts1);
    var acts2, s2 := PairedAtTheLastMoment(s1);
    var acts3, s3 := WatchedAtTheLastMoment(s2);
    var acts4, s4 := WaitsTenMore(s3);
    Chain(s, acts1, s1, acts2, s2);
    Chain(s, acts1 + acts2, s2, acts3, s3);
    Chain(s, acts1 + acts2 + acts3, s3, acts4, s4);
    acts := acts1 + acts2 + acts3 + acts4;
  }
}
