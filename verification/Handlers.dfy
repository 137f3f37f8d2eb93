/** The handlers as whole calls: run without interruption, the protocol's small steps do what the
    matchmaker's and the gateway's methods promise. */
module Handlers {
  import opened Options
  import opened Messages
  import opened Protocol
  import Matchmaker
  import Allocator
  import ApiGateway

  lemma TimeoutTasksLast(s: State, ts: seq<Ticket>, more: seq<Ticket>)
    ensures TimeoutTasks(s, ts + more) == TimeoutTasks(s, ts) + TimeoutTasks(s, more)
  {
    if ts == [] {
      assert ts + more == more;
    } else {
      assert (ts + more)[1..] == ts[1..] + more;
      TimeoutTasksLast(s, ts[1..], more);
    }
  }

  lemma SameGatewaysSameTimeouts(s: State, s': State, ts: seq<Ticket>)
    requires |s.open| == |s'.open|
    ensures TimeoutTasks(s, ts) == TimeoutTasks(s', ts)
  {
  }

  /** The two halves of a firing watchdog are the loop over the pair that Replica.WatchdogFires runs. */
  lemma WatchdogLoopIsTwoHalves(s: State, i: nat)
    requires Enabled(s, Run(i)) && s.tasks[i].Watching?
    ensures var c := s.tasks[i];
            var mid := Next(s, Run(i));
            var all := Matchmaker.TimeOutAll(s.replicas[c.r].pending, [c.a, c.b]);
            && Next(mid, Finish(c.r)).replicas[c.r] == Replica(all.0, Free)
            && Effect(s, Run(i)).1 + Effect(mid, Finish(c.r)).1 == TimeoutTasks(s, all.1)
  {
    var c := s.tasks[i];
    var p := s.replicas[c.r].pending;
    var mid := Next(s, Run(i));
    Matchmaker.TimeOutFirst(p, c.a);
    Matchmaker.TimeOutLast(p, [c.a], c.b);
    assert [c.a] + [c.b] == [c.a, c.b];
    var first := Matchmaker.TimeOutOne(p, c.a);
    TimeoutTasksLast(s, first.1, Matchmaker.TimeOutOne(first.0, c.b).1);
    SameGatewaysSameTimeouts(s, mid, Matchmaker.TimeOutOne(first.0, c.b).1);
  }

  /** A popped pair is published, and watched by the thread that popped it. */
  lemma PublishAndWatch(s: State, r: nat, a: Ticket, b: Ticket, rest: seq<Task>) returns (acts: seq<Action>)
    requires s.tasks == rest + [Paired(r, a, b)] && r < |s.replicas| && s.replicas[r].section.Free?
    ensures ValidRun(s, acts)
    ensures After(s, acts) == s.(
        matched := s.matched + [(a, b)],
        replicas := s.replicas[r := Replica(s.replicas[r].pending + {a, b}, Free)],
        tasks := rest + [MatchedMsg(a, b), StartWatchdog(r, a, b)])
  {
    var n := |rest|;
    var s1 := Next(s, Run(n));
    assert Without(s.tasks, n) == rest;
    assert s1.tasks == (rest + [MatchedMsg(a, b)]) + [Watch(r, a, b)];
    var more := WatchThrough(s1, r, a, b, rest + [MatchedMsg(a, b)]);
    acts := [Run(n)] + more;
    RunPrepend(s, Run(n), more);
    assert (rest + [MatchedMsg(a, b)]) + [StartWatchdog(r, a, b)] == rest + [MatchedMsg(a, b), StartWatchdog(r, a, b)];
  }

  /** Both halves of watchForAssignment. */
  lemma WatchThrough(s: State, r: nat, a: Ticket, b: Ticket, rest: seq<Task>) returns (acts: seq<Action>)
    requires s.tasks == rest + [Watch(r, a, b)] && r < |s.replicas| && s.replicas[r].section.Free?
    ensures ValidRun(s, acts)
    ensures After(s, acts) == s.(
        replicas := s.replicas[r := Replica(s.replicas[r].pending + {a, b}, Free)],
        tasks := rest + [StartWatchdog(r, a, b)])
  {
    var n := |rest|;
    assert Without(s.tasks, n) == rest;
    var s1 := Next(s, Run(n));
    assert s1.tasks == rest;
    var s2 := Next(s1, Finish(r));
    assert s.replicas[r].pending + {a} + {b} == s.replicas[r].pending + {a, b};
    assert s2.replicas == s.replicas[r := Replica(s.replicas[r].pending + {a, b}, Free)];
    assert ValidRun(s2, []) && After(s2, []) == s2;
    RunPrepend(s1, Finish(r), []);
    acts := [Run(n)] + ([Finish(r)] + []);
    RunPrepend(s, Run(n), [Finish(r)] + []);
  }

  /** A request that finds opponent a at replica r, run through: a leaves the pool, the pair is published with
      the one who waited first, both are watched, and the only threads left are the allocator's message and the watchdog. */
  lemma RequestRunsThrough(s: State, i: nat, r: nat, a: Ticket) returns (acts: seq<Action>)
    requires Enabled(s, Deliver(i, r, Some(a))) && s.replicas[r].section.Free?
    ensures ValidRun(s, acts)
    ensures var b := s.tasks[i].t;
      After(s, acts) == s.(
        pool := s.pool - {a},
        matched := s.matched + [(a, b)],
        replicas := s.replicas[r := Replica(s.replicas[r].pending + {a, b}, Free)],
        pops := s.pops + [Pop(a, b, s.now, a in s.expired)],
        tasks := Without(s.tasks, i) + [MatchedMsg(a, b), StartWatchdog(r, a, b)])
    ensures Matchmaker.PairsUp(s.pool, s.replicas[r].pending, s.tasks[i].elo, a, s.tasks[i].t,
                               After(s, acts).pool, After(s, acts).replicas[r].pending)
  {
    var b := s.tasks[i].t;
    var rest := Without(s.tasks, i);
    var s1 := Next(s, Deliver(i, r, Some(a)));
    assert s1.tasks == rest + [Paired(r, a, b)];
    var more := PublishAndWatch(s1, r, a, b, rest);
    acts := [Deliver(i, r, Some(a))] + more;
    RunPrepend(s, Deliver(i, r, Some(a)), more);
  }

  /** A search timer run through does to the pool, and publishes, what Replica.SearchTimerFires does. */
  lemma SearchTimerRunsThrough(s: State, i: nat) returns (acts: seq<Action>)
    requires Enabled(s, Run(i)) && s.tasks[i].Searching?
    ensures ValidRun(s, acts)
    ensures var (pool, timedOut) := Matchmaker.TimeOutSearch(s.pool, s.tasks[i].t);
      && After(s, acts).pool == pool
      && After(s, acts).tasks == Without(s.tasks, i) + TimeoutTasks(s, timedOut)
  {
    var t := s.tasks[i].t;
    var rest := Without(s.tasks, i);
    var s1 := Next(s, Run(i));
    if t in s.pool {
      var more := RemoveAndPublish(s1, rest, t);
      acts := [Run(i)] + more;
      RunPrepend(s, Run(i), more);
      TimeoutOfOne(s, s1, t);
    } else {
      assert ValidRun(s1, []) && After(s1, []) == s1;
      acts := [Run(i)] + [];
      RunPrepend(s, Run(i), []);
      assert s.pool - {t} == s.pool;
    }
  }

  lemma TimeoutOfOne(s: State, s': State, t: Ticket)
    requires |s.open| == |s'.open|
    ensures TimeoutTasks(s, [t]) == Broadcast(|s'.open|, Timeout(t))
  {
    assert TimeoutTasks(s, []) == [];
    assert TimeoutTasks(s, [t]) == Broadcast(|s.open|, Timeout(t)) + [];
  }

  lemma RemoveAndPublish(s: State, rest: seq<Task>, t: Ticket) returns (acts: seq<Action>)
    requires s.tasks == rest + [SearchRemove(t)]
    ensures ValidRun(s, acts)
    ensures After(s, acts) == s.(pool := s.pool - {t}, tasks := rest + Broadcast(|s.open|, Timeout(t)))
  {
    var n := |rest|;
    var s1 := Next(s, Run(n));
    assert Without(s.tasks, n) == rest;
    assert s1.tasks == rest + [SearchPublish(t)];
    var s2 := Next(s1, Run(n));
    assert Without(s1.tasks, n) == rest;
    assert ValidRun(s2, []) && After(s2, []) == s2;
    RunPrepend(s1, Run(n), []);
    acts := [Run(n)] + ([Run(n)] + []);
    RunPrepend(s, Run(n), [Run(n)] + []);
  }

  /** An assignment reaching a matchmaker, run through, stops its watching exactly those two, as Replica.OnAssigned does. */
  lemma AssignedRunsThrough(s: State, i: nat) returns (acts: seq<Action>)
    requires Enabled(s, Run(i)) && s.tasks[i].AtMatchmaker?
    ensures ValidRun(s, acts)
    ensures var k := s.tasks[i];
      After(s, acts) == s.(
        replicas := s.replicas[k.r := Replica(s.replicas[k.r].pending - {k.a, k.b}, Free)],
        heard := s.heard + {(k.r, k.a, k.b)},
        tasks := Without(s.tasks, i))
  {
    var k := s.tasks[i];
    var s1 := Next(s, Run(i));
    var s2 := Next(s1, Finish(k.r));
    assert s1.tasks == Without(s.tasks, i) && s2.tasks == s1.tasks;
    assert s.replicas[k.r].pending - {k.a} - {k.b} == s.replicas[k.r].pending - {k.a, k.b};
    assert s2.replicas == s.replicas[k.r := Replica(s.replicas[k.r].pending - {k.a, k.b}, Free)];
    assert ValidRun(s2, []) && After(s2, []) == s2;
    RunPrepend(s1, Finish(k.r), []);
    acts := [Run(i)] + ([Finish(k.r)] + []);
    RunPrepend(s, Run(i), [Finish(k.r)] + []);
  }

  /** A match handled by an allocator whose shard agrees, run through: the next room number is used up, and one copy
      of what Allocator.OnMatched publishes for that number and shard is in flight to each gateway and each matchmaker. */
  lemma MatchRunsThrough(s: State, i: nat, shard: string, white: Candidate, black: Candidate) returns (acts: seq<Action>)
    requires i < |s.tasks| && s.tasks[i] == MatchedMsg(white.ticketId, black.ticketId)
    ensures ValidRun(s, acts)
    ensures var next := s.nextRoom + 1;
      var rest := Without(s.tasks, i);
      var s' := After(s, acts);
      && s' == s.(
           nextRoom := next,
           assignments := s.assignments + [Assignment(white.ticketId, black.ticketId, next, shard)],
           tasks := s'.tasks)
      && |s'.tasks| == |rest| + |s.open| + |s.replicas| && s'.tasks[..|rest|] == rest
      && (forall g :: 0 <= g < |s.open| ==>
            s'.tasks[|rest| + g]
            == AtGateway(g, Assigned(white.ticketId, black.ticketId, "match-" + Allocator.Digits(next), shard)))
      && (forall r :: 0 <= r < |s.replicas| ==>
            s'.tasks[|rest| + |s.open| + r] == AtMatchmaker(r, white.ticketId, black.ticketId))
    ensures Assigned(white.ticketId, black.ticketId, "match-" + Allocator.Digits(s.nextRoom + 1), shard)
      == Allocator.EventOf(Allocator.RoomAssignment(white, black, Allocator.RoomName(s.nextRoom + 1), shard))
  {
    var rest := Without(s.tasks, i);
    acts := MatchReplies(s, i, shard, white.ticketId, black.ticketId);
    CopiesBehind(rest, |s.open|, |s.replicas|,
                 AssignedEvent(Assignment(white.ticketId, black.ticketId, s.nextRoom + 1, shard)),
                 white.ticketId, black.ticketId);
  }

  lemma MatchReplies(s: State, i: nat, shard: string, a: Ticket, b: Ticket) returns (acts: seq<Action>)
    requires i < |s.tasks| && s.tasks[i] == MatchedMsg(a, b)
    ensures ValidRun(s, acts)
    ensures var x := Assignment(a, b, s.nextRoom + 1, shard);
      After(s, acts) == s.(
        nextRoom := s.nextRoom + 1,
        assignments := s.assignments + [x],
        tasks := Without(s.tasks, i)
                 + (Broadcast(|s.open|, AssignedEvent(x)) + TellMatchmakers(|s.replicas|, a, b)))
  {
    var rest := Without(s.tasks, i);
    var n := |rest|;
    var s1 := Next(s, Allocate(i, Some(shard)));
    assert s1.tasks == rest + [Allocating(a, b, s.nextRoom + 1, shard)];
    assert Without(s1.tasks, n) == rest;
    ReplyPublishes(s1, n, a, b, s.nextRoom + 1, shard);
    var s2 := Next(s1, Reply(n, true));
    assert ValidRun(s2, []) && After(s2, []) == s2;
    RunPrepend(s1, Reply(n, true), []);
    acts := [Allocate(i, Some(shard))] + ([Reply(n, true)] + []);
    RunPrepend(s, Allocate(i, Some(shard)), [Reply(n, true)] + []);
  }

  lemma ReplyPublishes(s: State, i: nat, a: Ticket, b: Ticket, room: nat, shard: string)
    requires i < |s.tasks| && s.tasks[i] == Allocating(a, b, room, shard)
    ensures Next(s, Reply(i, true)) == s.(
      assignments := s.assignments + [Assignment(a, b, room, shard)],
      tasks := Without(s.tasks, i)
               + (Broadcast(|s.open|, AssignedEvent(Assignment(a, b, room, shard))) + TellMatchmakers(|s.replicas|, a, b)))
  {
  }

  /** The copies of a fan-out, one by one, behind other tasks. */
  lemma CopiesBehind(rest: seq<Task>, gateways: nat, replicas: nat, e: Event, a: Ticket, b: Ticket)
    ensures var all := rest + (Broadcast(gateways, e) + TellMatchmakers(replicas, a, b));
      && |all| == |rest| + gateways + replicas && all[..|rest|] == rest
      && (forall g :: 0 <= g < gateways ==> all[|rest| + g] == AtGateway(g, e))
      && (forall r :: 0 <= r < replicas ==> all[|rest| + gateways + r] == AtMatchmaker(r, a, b))
  {
    var gs, ms := Broadcast(gateways, e), TellMatchmakers(replicas, a, b);
    var all := rest + (gs + ms);
    forall g | 0 <= g < gateways ensures all[|rest| + g] == AtGateway(g, e) { assert all[|rest| + g] == gs[g]; }
    forall r | 0 <= r < replicas ensures all[|rest| + gateways + r] == AtMatchmaker(r, a, b) {
      assert all[|rest| + gateways + r] == ms[r];
    }
  }

  /** Without a shard, or without a successful reply, a match is dropped: nothing is published and nothing else changes. */
  lemma MatchIsDropped(s: State, i: nat)
    requires i < |s.tasks|
    ensures s.tasks[i].MatchedMsg? ==> Next(s, Allocate(i, None)) == s.(tasks := Without(s.tasks, i))
    ensures s.tasks[i].Allocating? ==> Next(s, Reply(i, false)) == s.(tasks := Without(s.tasks, i))
  {
    if s.tasks[i].MatchedMsg? { assert Next(s, Allocate(i, None)).tasks == Without(s.tasks, i) + []; }
    if s.tasks[i].Allocating? { assert Next(s, Reply(i, false)).tasks == Without(s.tasks, i) + []; }
  }

  /** A request that finds nobody, run through, waits in the pool with its rating under a search timer, as after
      Replica.WaitForMatch. */
  lemma RequestWaits(s: State, i: nat, r: nat) returns (acts: seq<Action>)
    requires i < |s.tasks| && s.tasks[i].Request? && r < |s.replicas|
    ensures ValidRun(s, acts)
    ensures var k := s.tasks[i];
      After(s, acts) == s.(
        pool := s.pool[k.t := k.elo],
        tasks := Without(s.tasks, i) + [Searching(k.t, s.now + 60)])
  {
    var k := s.tasks[i];
    var rest := Without(s.tasks, i);
    var n := |rest|;
    var s1 := Next(s, Deliver(i, r, None));
    assert s1.tasks == rest + [Pooling(k.t, k.elo)] && Without(s1.tasks, n) == rest;
    var s2 := Next(s1, Run(n));
    assert s2.tasks == rest + [ArmSearch(k.t)] && Without(s2.tasks, n) == rest;
    var s3 := Next(s2, Run(n));
    assert s3.tasks == rest + [Searching(k.t, s.now + 60)];
    assert ValidRun(s3, []) && After(s3, []) == s3;
    RunPrepend(s2, Run(n), []);
    RunPrepend(s1, Run(n), [Run(n)] + []);
    acts := [Deliver(i, r, None)] + ([Run(n)] + ([Run(n)] + []));
    RunPrepend(s, Deliver(i, r, None), [Run(n)] + ([Run(n)] + []));
  }

  /** POST /play, as ApiGateway.Gateway.PostPlay with a session: the ticket is held and one request for it is in flight. */
  lemma PlayRequests(s: State, g: nat, t: Ticket, elo: int)
    requires Enabled(s, Play(g, t, elo))
    ensures Next(s, Play(g, t, elo)) == s.(
      open := s.open[g := s.open[g] + {t}], born := s.born[t := s.now], tasks := s.tasks + [Request(t, elo)])
  {
  }

  /** A search by a game-server shard requests a match in the same way, and no gateway holds its ticket. */
  lemma ShardFindRequests(s: State, t: Ticket, elo: int)
    requires Enabled(s, ShardFind(t, elo))
    ensures Next(s, ShardFind(t, elo)) == s.(
      shardTickets := s.shardTickets + {t}, born := s.born[t := s.now], tasks := s.tasks + [Request(t, elo)])
  {
  }

  /** Timers sleep until they are due, critical sections wait for the mutex, and findMatch takes waiting tickets
      within 100 points only. */
  lemma StepsWait(s: State, act: Action)
    requires Enabled(s, act)
    ensures act.Run? && s.tasks[act.i].Searching? ==> s.tasks[act.i].due <= s.now
    ensures act.Run? && s.tasks[act.i].Watching? ==> s.tasks[act.i].due <= s.now
    ensures act.Run? && (s.tasks[act.i].Watch? || s.tasks[act.i].Watching? || s.tasks[act.i].AtMatchmaker?) ==>
              s.tasks[act.i].r < |s.replicas| && s.replicas[s.tasks[act.i].r].section.Free?
    ensures act.Deliver? && act.opponent.Some? ==>
              && act.opponent.value in s.pool
              && s.tasks[act.i].elo - 100 <= s.pool[act.opponent.value] <= s.tasks[act.i].elo + 100
  {
  }

  /** A cancellation has a copy in flight to each matchmaker, and each copy does what Replica.OnCancel does. */
  lemma CancelRemoves(s: State, t: Ticket, r: nat, i: nat)
    requires t in s.shardTickets && r < |s.replicas|
    requires i < |s.tasks| && s.tasks[i] == CancelAt(r, t)
    ensures CancelAt(r, t) in Next(s, ShardCancel(t)).tasks[|s.tasks|..]
    ensures |Next(s, ShardCancel(t)).tasks| == |s.tasks| + |s.replicas|
    ensures Next(s, Run(i)) == s.(pool := s.pool - {t}, tasks := Without(s.tasks, i))
  {
    var out := TellCancel(|s.replicas|, t);
    assert Next(s, ShardCancel(t)).tasks == s.tasks + out;
    assert (s.tasks + out)[|s.tasks|..] == out;
    assert Without(s.tasks, i) + [] == Without(s.tasks, i);
  }

  lemma SameAnswers(g: nat, at: nat, held: set<Ticket>, e: Event, open: map<Ticket, ApiGateway.Conn>)
    requires open.Keys == held
    ensures var answers := AnswersTo(g, at, held, e);
            var responses := ApiGateway.EventAnswers(open, e);
            && |answers| == |responses|
            && forall k :: 0 <= k < |responses| ==>
                 answers[k].g == g && answers[k].t in open && responses[k].con == open[answers[k].t]
  {
  }

  /** The step a gateway takes on an event is what ApiGateway.Gateway.OnEvent does to the same table of tickets:
      the same tickets leave it, and the same connections are answered in the same order. */
  lemma GatewayStepIsOnEvent(s: State, g: nat, e: Event, open: map<Ticket, ApiGateway.Conn>)
    requires g < |s.open| && open.Keys == s.open[g]
    ensures var s' := AtGatewayStep(s, g, e);
            var responses := ApiGateway.EventAnswers(open, e);
            && s'.open[g] == (open - Mentions(e)).Keys
            && |s'.answers| == |s.answers| + |responses|
            && forall k :: 0 <= k < |responses| ==>
                 var x := s'.answers[|s.answers| + k];
                 x.g == g && x.t in open && responses[k].con == open[x.t]
  {
    SameAnswers(g, |s.processed|, s.open[g], e, open);
  }
}
