/** No player hangs: every /play request still open is covered by something that will answer it. */
module Coverage {
  import opened Messages
  import opened Protocol
  import Matchmaker

  function Tickets(k: Task): set<Ticket> {
    match k
    case Request(t, _) => {t}
    case Pooling(t, _) => {t}
    case ArmSearch(t) => {t}
    case Searching(t, _) => {t}
    case SearchRemove(t) => {t}
    case SearchPublish(t) => {t}
    case Paired(_, a, b) => {a, b}
    case Watch(_, a, b) => {a, b}
    case StartWatchdog(_, a, b) => {a, b}
    case Watching(_, a, b, _) => {a, b}
    case MatchedMsg(a, b) => {a, b}
    case Allocating(a, b, _, _) => {a, b}
    case AtGateway(_, e) => Mentions(e)
    case AtMatchmaker(_, a, b) => {a, b}
    case CancelAt(_, t) => {t}
  }

  function SectionTickets(sec: Section): set<Ticket> {
    match sec
    case Free => {}
    case Arming(a, b) => {a, b}
    case Erasing(a, b) => {a, b}
    case Firing(a, b, _) => {a, b}
  }

  predicate InBounds(s: State, k: Task) {
    match k
    case Paired(r, _, _) => r < |s.replicas|
    case Watch(r, _, _) => r < |s.replicas|
    case StartWatchdog(r, _, _) => r < |s.replicas|
    case Watching(r, _, _, _) => r < |s.replicas|
    case AtGateway(g, _) => g < |s.open|
    case AtMatchmaker(r, _, _) => r < |s.replicas|
    case _ => true
  }

  /** Every task addresses a replica that exists and mentions issued tickets only. */
  ghost predicate TaskScoped(s: State, k: Task) {
    && Tickets(k) <= s.born.Keys
    && InBounds(s, k)
    && (k.CancelAt? ==> k.t in s.shardTickets)
  }

  ghost predicate ReplicaScoped(s: State, p: Replica) {
    p.pending <= s.born.Keys && SectionTickets(p.section) <= s.born.Keys
  }

  /** Nothing mentions a ticket that was never issued. */
  ghost predicate Scoped(s: State) {
    && (forall k :: k in s.tasks ==> TaskScoped(s, k))
    && s.pool.Keys <= s.born.Keys
    && s.shardTickets <= s.born.Keys
    && (forall g :: 0 <= g < |s.open| ==> s.open[g] <= s.born.Keys && s.open[g] !! s.shardTickets)
    && (forall r :: 0 <= r < |s.replicas| ==> ReplicaScoped(s, s.replicas[r]))
    && (forall x :: x in s.assignments ==> {x.a, x.b} <= s.born.Keys)
    && (forall i :: 0 <= i < |s.processed| ==> Mentions(s.processed[i].1) <= s.born.Keys)
  }

  lemma TimeoutTaskShape(s: State, p: set<Ticket>, t: Ticket)
    ensures var out := TimeoutTasks(s, Matchmaker.TimeOutOne(p, t).1);
            && out == (if t in p then Broadcast(|s.open|, Timeout(t)) else [])
  {
    if t in p {
      assert TimeoutTasks(s, []) == [];
      assert TimeoutTasks(s, [t]) == Broadcast(|s.open|, Timeout(t)) + [];
    }
  }

  lemma RunOutScoped(s: State, i: nat, k: Task)
    requires Enabled(s, Run(i)) && Scoped(s)
    requires k in Effect(s, Run(i)).1
    ensures TaskScoped(Next(s, Run(i)), k)
  {
    var c := s.tasks[i];
    assert TaskScoped(s, c);
    if c.Watching? { TimeoutTaskShape(s, s.replicas[c.r].pending, c.a); }
  }

  /** What an action may add to the list of tasks. */
  lemma OutScoped(s: State, act: Action, k: Task)
    requires Enabled(s, act) && Scoped(s)
    requires k in Effect(s, act).1
    ensures TaskScoped(Next(s, act), k)
  {
    match act
    case Run(i) => RunOutScoped(s, i, k);
    case Finish(r) =>
      var sec := s.replicas[r].section;
      assert ReplicaScoped(s, s.replicas[r]);
      if sec.Firing? { TimeoutTaskShape(s, s.replicas[r].pending, sec.b); }
    case Deliver(i, _, _) => assert TaskScoped(s, s.tasks[i]);
    case Allocate(i, _) => assert TaskScoped(s, s.tasks[i]);
    case Reply(i, _) => assert TaskScoped(s, s.tasks[i]);
    case _ =>
  }

  /** Nothing is forgotten that a task may address or mention. */
  lemma ScopeGrows(s: State, act: Action)
    requires Enabled(s, act)
    ensures var s' := Next(s, act);
      && s.born.Keys <= s'.born.Keys && s.shardTickets <= s'.shardTickets
      && |s'.open| == |s.open| && |s'.replicas| == |s.replicas|
  {
    if act.Run? { TaskKeeps(s, s.tasks[act.i]); }
  }

  lemma StillScoped(s: State, s': State, k: Task)
    requires TaskScoped(s, k)
    requires s.born.Keys <= s'.born.Keys && s.shardTickets <= s'.shardTickets
    requires |s'.open| == |s.open| && |s'.replicas| == |s.replicas|
    ensures TaskScoped(s', k)
  {
  }

  lemma TasksScopedStep(s: State, act: Action, k: Task)
    requires Enabled(s, act) && Scoped(s)
    requires k in Next(s, act).tasks
    ensures TaskScoped(Next(s, act), k)
  {
    TaskAfter(s, act, k);
    if k in Effect(s, act).1 {
      OutScoped(s, act, k);
    } else {
      assert TaskScoped(s, k);
      ScopeGrows(s, act);
      StillScoped(s, Next(s, act), k);
    }
  }

  lemma ReplicasScopedStep(s: State, act: Action, r: nat)
    requires Enabled(s, act) && Scoped(s) && r < |s.replicas|
    ensures ReplicaScoped(Next(s, act), Next(s, act).replicas[r])
  {
    assert ReplicaScoped(s, s.replicas[r]);
    if Consumes(act) { assert TaskScoped(s, s.tasks[act.i]); }
  }

  lemma OpenScopedStep(s: State, act: Action, g: nat)
    requires Enabled(s, act) && Scoped(s) && g < |s.open|
    ensures var s' := Next(s, act); s'.open[g] <= s'.born.Keys && s'.open[g] !! s'.shardTickets
  {
    assert s.open[g] <= s.born.Keys && s.open[g] !! s.shardTickets;
  }

  lemma HistoryScopedStep(s: State, act: Action)
    requires Enabled(s, act) && Scoped(s)
    ensures var s' := Next(s, act);
      && (forall x :: x in s'.assignments ==> {x.a, x.b} <= s'.born.Keys)
      && (forall i :: 0 <= i < |s'.processed| ==> Mentions(s'.processed[i].1) <= s'.born.Keys)
  {
    if Consumes(act) { assert TaskScoped(s, s.tasks[act.i]); }
  }

  lemma ScopedStep(s: State, act: Action)
    requires Enabled(s, act) && Scoped(s)
    ensures Scoped(Next(s, act))
  {
    var s' := Next(s, act);
    forall k | k in s'.tasks ensures TaskScoped(s', k) { TasksScopedStep(s, act, k); }
    forall r | 0 <= r < |s'.replicas| ensures ReplicaScoped(s', s'.replicas[r]) { ReplicasScopedStep(s, act, r); }
    forall g | 0 <= g < |s'.open| ensures s'.open[g] <= s'.born.Keys && s'.open[g] !! s'.shardTickets {
      OpenScopedStep(s, act, g);
    }
    HistoryScopedStep(s, act);
    if Consumes(act) { assert TaskScoped(s, s.tasks[act.i]); }
  }

  // ---- coverage ----

  /** Task k will lead to an answer for ticket t at gateway g. */
  predicate Covers(s: State, k: Task, g: nat, t: Ticket) {
    match k
    case Request(x, _) => x == t
    case Pooling(x, _) => x == t
    case ArmSearch(x) => x == t && t in s.pool
    case Searching(x, _) => x == t && t in s.pool
    case SearchRemove(x) => x == t
    case SearchPublish(x) => x == t
    case Paired(_, a, b) => t == a || t == b
    case Watch(_, a, b) => t == a || t == b
    case StartWatchdog(r, a, b) => (t == a || t == b) && r < |s.replicas| && t in s.replicas[r].pending
    case Watching(r, a, b, _) => (t == a || t == b) && r < |s.replicas| && t in s.replicas[r].pending
    case AtGateway(h, e) => h == g && t in Mentions(e)
    case _ => false
  }

  /** The critical section in progress at a replica will lead to an answer for t. */
  predicate SectionCovers(p: Replica, t: Ticket) {
    match p.section
    case Arming(a, b) => t == b || (t == a && t in p.pending)
    case Firing(_, b, _) => t == b && t in p.pending
    case _ => false
  }

  ghost predicate Covered(s: State, g: nat, t: Ticket) {
    || (exists k :: k in s.tasks && Covers(s, k, g, t))
    || (exists r :: 0 <= r < |s.replicas| && SectionCovers(s.replicas[r], t))
  }

  ghost predicate AllCovered(s: State) {
    forall g, t :: 0 <= g < |s.open| && t in s.open[g] ==> Covered(s, g, t)
  }

  /** A published assignment has reached gateway g or is on its way there. */
  ghost predicate Reaches(s: State, x: Assignment, g: nat) {
    AtGateway(g, AssignedEvent(x)) in s.tasks || (0 <= g < |s.open| ==> s.open[g] !! {x.a, x.b})
  }

  ghost predicate Published(s: State, a: Ticket, b: Ticket) {
    exists x :: x in s.assignments && x.a == a && x.b == b
  }

  ghost predicate AssignmentsReach(s: State) {
    && (forall x, g :: x in s.assignments && 0 <= g < |s.open| ==> Reaches(s, x, g))
    && (forall k :: k in s.tasks && k.AtMatchmaker? ==> Published(s, k.a, k.b))
    && (forall r :: 0 <= r < |s.replicas| && s.replicas[r].section.Erasing? ==>
          Published(s, s.replicas[r].section.a, s.replicas[r].section.b))
  }

  lemma OpenBefore(s: State, act: Action, g: nat, t: Ticket)
    requires Enabled(s, act) && g < |s.open| && t in Next(s, act).open[g]
    ensures t in s.open[g] || (act.Play? && act.g == g && act.t == t)
  {
  }

  lemma PublishedStays(s: State, act: Action, a: Ticket, b: Ticket)
    requires Enabled(s, act) && Published(s, a, b)
    ensures Published(Next(s, act), a, b)
  {
    var x :| x in s.assignments && x.a == a && x.b == b;
    assert x in Next(s, act).assignments;
  }

  lemma ReachesStays(s: State, act: Action, x: Assignment, g: nat)
    requires Enabled(s, act) && Scoped(s) && x in s.assignments && g < |s.open| && Reaches(s, x, g)
    ensures Reaches(Next(s, act), x, g)
  {
    var k := AtGateway(g, AssignedEvent(x));
    if k in s.tasks {
      if !(Consumes(act) && s.tasks[act.i] == k) { TaskStays(s, act, k); }
    }
  }

  lemma AssignmentsReachStep(s: State, act: Action)
    requires Enabled(s, act) && Scoped(s) && AssignmentsReach(s)
    ensures AssignmentsReach(Next(s, act))
  {
    var s' := Next(s, act);
    forall x, g | x in s'.assignments && 0 <= g < |s'.open| ensures Reaches(s', x, g) {
      if x in s.assignments { ReachesStays(s, act, x, g); }
      else { assert AtGateway(g, AssignedEvent(x)) in Effect(s, act).1; }
    }
    forall k | k in s'.tasks && k.AtMatchmaker? ensures Published(s', k.a, k.b) {
      TaskAfter(s, act, k);
      if k in s.tasks { PublishedStays(s, act, k.a, k.b); }
      else { NewAtMatchmaker(s, act, k); }
    }
    forall r | 0 <= r < |s'.replicas| && s'.replicas[r].section.Erasing?
      ensures Published(s', s'.replicas[r].section.a, s'.replicas[r].section.b)
    {
      if s.replicas[r] == s'.replicas[r] { PublishedStays(s, act, s.replicas[r].section.a, s.replicas[r].section.b); }
      else {
        assert act.Run? && s.tasks[act.i].AtMatchmaker?;
        PublishedStays(s, act, s.tasks[act.i].a, s.tasks[act.i].b);
      }
    }
  }

  lemma NewAtMatchmaker(s: State, act: Action, k: Task)
    requires Enabled(s, act) && k in Effect(s, act).1 && k.AtMatchmaker?
    ensures Published(Next(s, act), k.a, k.b)
  {
    match act
    case Reply(i, ok) =>
      var c := s.tasks[i];
      var x := Assignment(c.a, c.b, c.room, c.shard);
      assert x in Next(s, act).assignments;
    case Run(i) =>
      var c := s.tasks[i];
      if c.Watching? { TimeoutTaskShape(s, s.replicas[c.r].pending, c.a); assert false; } else { assert false; }
    case Finish(r) =>
      var sec := s.replicas[r].section;
      if sec.Firing? { TimeoutTaskShape(s, s.replicas[r].pending, sec.b); assert false; } else { assert false; }
    case _ => assert false;
  }

  lemma CoveredBy(s: State, k: Task, g: nat, t: Ticket)
    requires k in s.tasks && Covers(s, k, g, t)
    ensures Covered(s, g, t)
  {
  }

  lemma CoveredBySection(s: State, r: nat, g: nat, t: Ticket)
    requires r < |s.replicas| && SectionCovers(s.replicas[r], t)
    ensures Covered(s, g, t)
  {
  }

  /** Once an assignment naming t is published, an open t has that event on its way. */
  lemma CoveredByAssignment(s: State, act: Action, a: Ticket, b: Ticket, g: nat, t: Ticket)
    requires Enabled(s, act) && AssignmentsReach(s) && Published(s, a, b)
    requires g < |s.open| && t in s.open[g] && t in {a, b}
    requires Consumes(act) ==> !s.tasks[act.i].AtGateway?
    ensures Covered(Next(s, act), g, t)
  {
    var x :| x in s.assignments && x.a == a && x.b == b;
    assert Reaches(s, x, g);
    var k := AtGateway(g, AssignedEvent(x));
    TaskStays(s, act, k);
    CoveredBy(Next(s, act), k, g, t);
  }

  lemma CoveredByTimeout(s: State, g: nat, t: Ticket)
    requires g < |s.open| && AtGateway(g, Timeout(t)) in s.tasks
    ensures Covered(s, g, t)
  {
    CoveredBy(s, AtGateway(g, Timeout(t)), g, t);
  }

  /** What covered t has just taken its step: its successor covers t. */
  lemma ConsumedCover(s: State, act: Action, g: nat, t: Ticket)
    requires Enabled(s, act) && Scoped(s) && Consumes(act)
    requires g < |s.open| && t in Next(s, act).open[g]
    requires Covers(s, s.tasks[act.i], g, t)
    ensures Covered(Next(s, act), g, t)
  {
    var s' := Next(s, act);
    var c := s.tasks[act.i];
    var out := Effect(s, act).1;
    match c
    case Request(_, _) => CoveredBy(s', out[0], g, t);
    case Pooling(_, _) => CoveredBy(s', out[0], g, t);
    case ArmSearch(_) => CoveredBy(s', out[0], g, t);
    case Searching(_, _) => CoveredBy(s', out[0], g, t);
    case SearchRemove(_) => CoveredBy(s', out[0], g, t);
    case SearchPublish(_) => CoveredByTimeout(s', g, t);
    case Paired(_, _, _) => CoveredBy(s', out[1], g, t);
    case Watch(r, _, _) => CoveredBySection(s', r, g, t);
    case StartWatchdog(_, _, _) => CoveredBy(s', out[0], g, t);
    case Watching(r, a, _, _) =>
      TimeoutTaskShape(s, s.replicas[r].pending, a);
      if t == a { CoveredByTimeout(s', g, t); } else { CoveredBySection(s', r, g, t); }
    case AtGateway(_, _) => assert false;
  }

  /** A task takes t out of a replica's pending set only by timing it out or on its assignment. */
  lemma UnwatchedByTask(s: State, i: nat, r: nat, t: Ticket)
    requires Enabled(s, Run(i)) && r < |s.replicas|
    requires t in s.replicas[r].pending && t !in Next(s, Run(i)).replicas[r].pending
    ensures var c := s.tasks[i]; (c.Watching? || c.AtMatchmaker?) && c.r == r && c.a == t
  {
  }

  /** The watch that task k relies on is gone: t was timed out, or assigned. */
  lemma LostWatch(s: State, act: Action, r: nat, g: nat, t: Ticket)
    requires Enabled(s, act) && AssignmentsReach(s) && g < |s.open| && t in s.open[g] && r < |s.replicas|
    requires t in s.replicas[r].pending && t !in Next(s, act).replicas[r].pending
    ensures Covered(Next(s, act), g, t)
  {
    var s' := Next(s, act);
    match act
    case Run(i) =>
      var c := s.tasks[i];
      UnwatchedByTask(s, i, r, t);
      if c.Watching? {
        TimeoutTaskShape(s, s.replicas[r].pending, t);
        CoveredByTimeout(s', g, t);
      } else {
        CoveredByAssignment(s, act, c.a, c.b, g, t);
      }
    case Finish(_) =>
      var sec := s.replicas[r].section;
      if sec.Firing? {
        TimeoutTaskShape(s, s.replicas[r].pending, sec.b);
        CoveredByTimeout(s', g, t);
      } else {
        CoveredByAssignment(s, act, sec.a, sec.b, g, t);
      }
  }

  /** Task k still waits, but the pool entry or watch it relies on is gone: whoever took it covers t. */
  lemma LostCover(s: State, act: Action, k: Task, g: nat, t: Ticket)
    requires Enabled(s, act) && Scoped(s) && AssignmentsReach(s)
    requires g < |s.open| && t in s.open[g]
    requires Covers(s, k, g, t) && !Covers(Next(s, act), k, g, t)
    ensures Covered(Next(s, act), g, t)
  {
    var s' := Next(s, act);
    var out := Effect(s, act).1;
    if Consumes(act) { assert TaskScoped(s, s.tasks[act.i]); }
    if k.ArmSearch? || k.Searching? {
      assert t in s.pool && t !in s'.pool;
      CoveredBy(s', out[0], g, t);
    } else {
      LostWatch(s, act, k.r, g, t);
    }
  }

  lemma SectionCoverStep(s: State, act: Action, r: nat, g: nat, t: Ticket)
    requires Enabled(s, act) && g < |s.open|
    requires r < |s.replicas| && SectionCovers(s.replicas[r], t)
    ensures Covered(Next(s, act), g, t)
  {
    var s' := Next(s, act);
    if act == Finish(r) {
      var sec := s.replicas[r].section;
      if sec.Arming? {
        CoveredBy(s', StartWatchdog(r, sec.a, sec.b), g, t);
      } else {
        TimeoutTaskShape(s, s.replicas[r].pending, sec.b);
        CoveredByTimeout(s', g, t);
      }
    } else {
      assert s'.replicas[r] == s.replicas[r];
      CoveredBySection(s', r, g, t);
    }
  }

  lemma CoverStep(s: State, act: Action, g: nat, t: Ticket)
    requires Enabled(s, act) && Scoped(s) && AllCovered(s) && AssignmentsReach(s)
    requires g < |s.open| && t in Next(s, act).open[g]
    ensures Covered(Next(s, act), g, t)
  {
    var s' := Next(s, act);
    OpenBefore(s, act, g, t);
    if t !in s.open[g] {
      CoveredBy(s', Request(t, act.elo), g, t);
      return;
    }
    assert Covered(s, g, t);
    if r :| 0 <= r < |s.replicas| && SectionCovers(s.replicas[r], t) {
      SectionCoverStep(s, act, r, g, t);
    } else {
      var k :| k in s.tasks && Covers(s, k, g, t);
      if Consumes(act) && s.tasks[act.i] == k {
        ConsumedCover(s, act, g, t);
      } else if Covers(s', k, g, t) {
        TaskStays(s, act, k);
        CoveredBy(s', k, g, t);
      } else {
        LostCover(s, act, k, g, t);
      }
    }
  }

  ghost predicate Inv(s: State) {
    Scoped(s) && AssignmentsReach(s) && AllCovered(s)
  }

  lemma InvStep(s: State, act: Action)
    requires Inv(s) && Enabled(s, act)
    ensures Inv(Next(s, act))
  {
    var s' := Next(s, act);
    ScopedStep(s, act);
    AssignmentsReachStep(s, act);
    forall g, t | 0 <= g < |s'.open| && t in s'.open[g] ensures Covered(s', g, t) { CoverStep(s, act, g, t); }
  }

  lemma {:induction false} InvRun(s: State, acts: seq<Action>)
    requires Inv(s) && ValidRun(s, acts)
    ensures Inv(After(s, acts))
    decreases |acts|
  {
    if acts != [] {
      InvStep(s, acts[0]);
      InvRun(Next(s, acts[0]), acts[1..]);
    }
  }

  /** Safety over all runs: whatever happened since the start, an open /play request is covered. */
  lemma NoPlayerHangs(s: State, acts: seq<Action>, g: nat, t: Ticket)
    requires Init(s) && ValidRun(s, acts)
    requires var s' := After(s, acts); g < |s'.open| && t in s'.open[g]
    ensures Covered(After(s, acts), g, t)
  {
    assert Inv(s);
    InvRun(s, acts);
  }
}
