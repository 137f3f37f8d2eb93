/** Watchdog atomicity: while no thread holds a replica's pendingAssignmentMutex, that replica watches
    both tickets of a match or neither, so a watchdog times out both players of its pair or neither. */
module Watchdog {
  import opened Messages
  import opened Protocol
  import opened Sums
  import opened Coverage
  import opened Conservation

  /** The pair a task works for once its match has been published. */
  predicate WorksForPair(k: Task) {
    k.Watch? || k.StartWatchdog? || k.Watching? || k.MatchedMsg? || k.Allocating? || k.AtMatchmaker?
  }

  ghost predicate Of(ps: seq<(Ticket, Ticket)>, sec: Section) {
    sec.Free? || (sec.a, sec.b) in ps
  }

  /** p is watched as a whole, up to what the thread in the critical section has done so far. */
  predicate Whole(r: Replica, p: (Ticket, Ticket)) {
    if r.section.Free? || (r.section.a, r.section.b) != p then p.0 in r.pending <==> p.1 in r.pending
    else match r.section
      case Arming(a, b) => a in r.pending
      case Erasing(a, b) => a !in r.pending
      case Firing(a, b, first) => a !in r.pending && (b in r.pending <==> first)
  }

  ghost predicate MatchedTicket(ps: seq<(Ticket, Ticket)>, t: Ticket) {
    exists i :: 0 <= i < |ps| && (ps[i].0 == t || ps[i].1 == t)
  }

  ghost predicate WatchesPairs(s: State, r: Replica) {
    && Of(s.matched, r.section)
    && (forall t :: t in r.pending ==> MatchedTicket(s.matched, t))
    && (forall p :: p in s.matched ==> Whole(r, p))
  }

  ghost predicate Atomic(s: State) {
    && Conserved(s)
    && (forall k :: k in s.tasks && WorksForPair(k) ==> (k.a, k.b) in s.matched)
    && (forall r :: 0 <= r < |s.replicas| ==> WatchesPairs(s, s.replicas[r]))
  }

  lemma NewPairTask(s: State, act: Action, k: Task)
    requires Enabled(s, act) && Atomic(s) && k in Effect(s, act).1 && WorksForPair(k)
    ensures (k.a, k.b) in Next(s, act).matched
  {
    match act
    case Run(i) =>
      var c := s.tasks[i];
      if c.Watching? { TimeoutTaskShape(s, s.replicas[c.r].pending, c.a); }
      if c.Paired? { assert Next(s, act).matched[|s.matched|] == (c.a, c.b); }
    case Finish(r) =>
      var sec := s.replicas[r].section;
      assert WatchesPairs(s, s.replicas[r]);
      if sec.Firing? { TimeoutTaskShape(s, s.replicas[r].pending, sec.b); }
    case Allocate(i, _) => assert s.tasks[i] in s.tasks;
    case Reply(i, _) => assert s.tasks[i] in s.tasks;
    case _ =>
  }

  /** Distinct entries of a list of distinct pairs share no ticket. */
  lemma Apart(ps: seq<(Ticket, Ticket)>, p: (Ticket, Ticket), q: (Ticket, Ticket))
    requires PairsDistinct(ps) && p in ps && q in ps
    ensures p.0 != p.1
    ensures p != q ==> Disjoint(p, q)
  {
    var i :| 0 <= i < |ps| && ps[i] == p;
    var j :| 0 <= j < |ps| && ps[j] == q;
    if p != q { assert if i < j then Disjoint(ps[i], ps[j]) else Disjoint(ps[j], ps[i]); }
  }

  /** A pair that is only now being published is watched nowhere. */
  lemma FreshPair(s: State, i: nat, r: Replica)
    requires Atomic(s) && i < |s.tasks| && s.tasks[i].Paired? && r in s.replicas
    ensures s.tasks[i].a !in r.pending && s.tasks[i].b !in r.pending
    ensures !r.section.Free? ==> (r.section.a, r.section.b) != (s.tasks[i].a, s.tasks[i].b)
  {
    var c := s.tasks[i];
    forall t | t == c.a || t == c.b ensures !MatchedTicket(s.matched, t) {
      SumAtLeast(Right(t), s.tasks, c);
      assert Rights(s, t) <= 1;
      if j :| 0 <= j < |s.matched| && (s.matched[j].0 == t || s.matched[j].1 == t) {
        SumAtLeast(InPair(t), s.matched, s.matched[j]);
      }
    }
    assert WatchesPairs(s, r);
    if !r.section.Free? {
      var j :| 0 <= j < |s.matched| && s.matched[j] == (r.section.a, r.section.b);
      assert MatchedTicket(s.matched, r.section.a);
    }
  }

  /** The list of published matches only grows, and only by what a Paired task carries. */
  lemma MatchedGrows(s: State, act: Action, p: (Ticket, Ticket))
    requires Enabled(s, act)
    ensures p in s.matched ==> p in Next(s, act).matched
    ensures p in Next(s, act).matched && p !in s.matched ==>
              act.Run? && s.tasks[act.i].Paired? && p == (s.tasks[act.i].a, s.tasks[act.i].b)
  {
  }

  lemma MatchedTicketStays(s: State, act: Action, t: Ticket)
    requires Enabled(s, act) && MatchedTicket(s.matched, t)
    ensures MatchedTicket(Next(s, act).matched, t)
  {
    var i :| 0 <= i < |s.matched| && (s.matched[i].0 == t || s.matched[i].1 == t);
    MatchedGrows(s, act, s.matched[i]);
    var ps := Next(s, act).matched;
    var j :| 0 <= j < |ps| && ps[j] == s.matched[i];
  }

  /** Publishing a new match does not disturb what a replica watches. */
  lemma UntouchedReplica(s: State, act: Action, r: nat)
    requires Enabled(s, act) && Atomic(s) && r < |s.replicas| && Next(s, act).replicas[r] == s.replicas[r]
    ensures WatchesPairs(Next(s, act), s.replicas[r])
  {
    var s' := Next(s, act);
    var x := s.replicas[r];
    assert WatchesPairs(s, x);
    if !x.section.Free? { MatchedGrows(s, act, (x.section.a, x.section.b)); }
    forall t | t in x.pending ensures MatchedTicket(s'.matched, t) { MatchedTicketStays(s, act, t); }
    forall p | p in s'.matched ensures Whole(x, p) {
      MatchedGrows(s, act, p);
      if p !in s.matched { FreshPair(s, act.i, x); }
    }
  }

  /** The three critical sections, each half of each: pairs stay whole. */
  lemma LockedReplica(s: State, act: Action, r: nat)
    requires Enabled(s, act) && Atomic(s) && r < |s.replicas|
    requires act == Finish(r)
          || (act.Run? && (s.tasks[act.i].Watch? || s.tasks[act.i].Watching? || s.tasks[act.i].AtMatchmaker?)
              && s.tasks[act.i].r == r)
    ensures WatchesPairs(Next(s, act), Next(s, act).replicas[r])
  {
    var s' := Next(s, act);
    var x := s.replicas[r];
    var x' := s'.replicas[r];
    assert WatchesPairs(s, x);
    var q := if act.Run? then (s.tasks[act.i].a, s.tasks[act.i].b) else (x.section.a, x.section.b);
    if act.Run? { assert s.tasks[act.i] in s.tasks; }
    assert q in s.matched && s'.matched == s.matched;
    MatchedAreDistinct(s);
    var j :| 0 <= j < |s.matched| && s.matched[j] == q;
    assert MatchedTicket(s.matched, q.0) && MatchedTicket(s.matched, q.1);
    forall p | p in s'.matched ensures Whole(x', p) {
      Apart(s.matched, p, q);
      assert Whole(x, p);
    }
  }

  lemma PairTasksStep(s: State, act: Action, k: Task)
    requires Enabled(s, act) && Atomic(s) && k in Next(s, act).tasks && WorksForPair(k)
    ensures (k.a, k.b) in Next(s, act).matched
  {
    TaskAfter(s, act, k);
    if k in s.tasks { MatchedGrows(s, act, (k.a, k.b)); } else { NewPairTask(s, act, k); }
  }

  /** Only the three critical sections change what a replica watches. */
  lemma ReplicaStep(s: State, act: Action, r: nat)
    requires Enabled(s, act) && Atomic(s) && r < |s.replicas|
    ensures WatchesPairs(Next(s, act), Next(s, act).replicas[r])
  {
    if Next(s, act).replicas[r] == s.replicas[r] { UntouchedReplica(s, act, r); } else { LockedReplica(s, act, r); }
  }

  lemma AllPairTasksStep(s: State, act: Action)
    requires Enabled(s, act) && Atomic(s)
    ensures forall k :: k in Next(s, act).tasks && WorksForPair(k) ==> (k.a, k.b) in Next(s, act).matched
  {
    forall k | k in Next(s, act).tasks && WorksForPair(k) ensures (k.a, k.b) in Next(s, act).matched {
      PairTasksStep(s, act, k);
    }
  }

  lemma AllReplicasStep(s: State, act: Action)
    requires Enabled(s, act) && Atomic(s)
    ensures var s' := Next(s, act); forall r :: 0 <= r < |s'.replicas| ==> WatchesPairs(s', s'.replicas[r])
  {
    var s' := Next(s, act);
    SameSize(s, act);
    forall r | 0 <= r < |s'.replicas| ensures WatchesPairs(s', s'.replicas[r]) { ReplicaStep(s, act, r); }
  }

  lemma AtomicStep(s: State, act: Action)
    requires Enabled(s, act) && Atomic(s)
    ensures Atomic(Next(s, act))
  {
    ConservedStep(s, act);
    AllPairTasksStep(s, act);
    AllReplicasStep(s, act);
  }

  lemma {:induction false} AtomicRun(s: State, acts: seq<Action>)
    requires Atomic(s) && ValidRun(s, acts)
    ensures Atomic(After(s, acts))
    decreases |acts|
  {
    if acts != [] {
      AtomicStep(s, acts[0]);
      AtomicRun(Next(s, acts[0]), acts[1..]);
    }
  }

  /** Over all runs: with the mutex free, both tickets of every match are watched or neither is. */
  lemma WatchedTogether(s: State, acts: seq<Action>, r: nat, i: nat)
    requires Init(s) && ValidRun(s, acts)
    requires var s' := After(s, acts); r < |s'.replicas| && s'.replicas[r].section.Free? && i < |s'.matched|
    ensures var s' := After(s, acts);
            s'.matched[i].0 in s'.replicas[r].pending <==> s'.matched[i].1 in s'.replicas[r].pending
  {
    ConservedAtStart(s);
    AtomicRun(s, acts);
    var s' := After(s, acts);
    assert WatchesPairs(s', s'.replicas[r]) && Whole(s'.replicas[r], s'.matched[i]);
  }

  /** In every reachable state a watched or half-handled pair is whole. */
  lemma PairIsWhole(s: State, acts: seq<Action>, r: nat, p: (Ticket, Ticket))
    requires Init(s) && ValidRun(s, acts)
    requires var s' := After(s, acts);
      && r < |s'.replicas|
      && ((exists k :: k in s'.tasks && k.Watching? && (k.a, k.b) == p)
          || (!s'.replicas[r].section.Free? && (s'.replicas[r].section.a, s'.replicas[r].section.b) == p))
    ensures p in After(s, acts).matched && Whole(After(s, acts).replicas[r], p)
  {
    ConservedAtStart(s);
    AtomicRun(s, acts);
    assert WatchesPairs(After(s, acts), After(s, acts).replicas[r]);
  }

  /** Task i is a watchdog that may fire. */
  ghost predicate WatchdogReady(s: State, i: nat) { Enabled(s, Run(i)) && s.tasks[i].Watching? }

  /** Firing watchdog i publishes a's timeout exactly when the whole pair is still watched, and the section remembers which. */
  ghost predicate FirstHalfGoesByPair(s: State, i: nat)
    requires WatchdogReady(s, i)
  {
    var c := s.tasks[i];
    var pending := s.replicas[c.r].pending;
    var watched := c.a in pending && c.b in pending;
    && Effect(s, Run(i)).1 == (if watched then Broadcast(|s.open|, Timeout(c.a)) else [])
    && Next(s, Run(i)).replicas[c.r] == Replica(pending - {c.a}, Firing(c.a, c.b, watched))
  }

  lemma FirstHalf(s: State, i: nat)
    requires WatchdogReady(s, i)
    requires Whole(s.replicas[s.tasks[i].r], (s.tasks[i].a, s.tasks[i].b))
    ensures FirstHalfGoesByPair(s, i)
  {
    TimeoutTaskShape(s, s.replicas[s.tasks[i].r].pending, s.tasks[i].a);
  }

  lemma SecondHalf(s: State, r: nat)
    requires r < |s.replicas| && s.replicas[r].section.Firing?
    requires Whole(s.replicas[r], (s.replicas[r].section.a, s.replicas[r].section.b))
    ensures var sec := s.replicas[r].section;
            && Effect(s, Finish(r)).1 == (if sec.first then Broadcast(|s.open|, Timeout(sec.b)) else [])
            && Next(s, Finish(r)).replicas[r].pending !! {sec.a, sec.b}
  {
    TimeoutTaskShape(s, s.replicas[r].pending, s.replicas[r].section.b);
  }

  /** A firing watchdog's first half, in any reachable state. */
  lemma WatchdogFirstHalf(s: State, acts: seq<Action>, i: nat)
    requires Init(s) && ValidRun(s, acts)
    requires WatchdogReady(After(s, acts), i)
    ensures FirstHalfGoesByPair(After(s, acts), i)
  {
    var c := After(s, acts).tasks[i];
    PairIsWhole(s, acts, c.r, (c.a, c.b));
    FirstHalf(After(s, acts), i);
  }

  /** Whatever other threads did in between, the second half publishes b's timeout exactly when the first
      half published a's: a watchdog times out both players of its pair or neither. */
  lemma TimesOutBothOrNeither(s: State, acts: seq<Action>, r: nat)
    requires Init(s) && ValidRun(s, acts)
    requires r < |After(s, acts).replicas| && After(s, acts).replicas[r].section.Firing?
    ensures var s' := After(s, acts);
            var sec := s'.replicas[r].section;
            && Effect(s', Finish(r)).1 == (if sec.first then Broadcast(|s'.open|, Timeout(sec.b)) else [])
            && Next(s', Finish(r)).replicas[r].pending !! {sec.a, sec.b}
  {
    var sec := After(s, acts).replicas[r].section;
    PairIsWhole(s, acts, r, (sec.a, sec.b));
    SecondHalf(After(s, acts), r);
  }
}
