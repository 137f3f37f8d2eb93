/** Conservation over all replicas and runs: no ticket is ever matched twice, no match is assigned
    twice, and no room name is handed out twice. */
module Conservation {
  import opened Options
  import opened Messages
  import opened Protocol
  import opened Sums
  import opened Coverage
  import Allocator

  function One(yes: bool): nat { if yes then 1 else 0 }

  /** The unmatched right of ticket t that task k carries. */
  function Right(t: Ticket): Task -> nat {
    (k: Task) =>
      match k
      case Request(x, _) => One(x == t)
      case Pooling(x, _) => One(x == t)
      case Paired(_, a, b) => One(a == t) + One(b == t)
      case _ => 0
  }

  function InPair(t: Ticket): ((Ticket, Ticket)) -> nat { (p: (Ticket, Ticket)) => One(p.0 == t) + One(p.1 == t) }

  /** Where t's one right to be matched is: in a request, in the pool, or spent in a published match. */
  function Rights(s: State, t: Ticket): nat {
    Sum(Right(t), s.tasks) + One(t in s.pool) + Sum(InPair(t), s.matched)
  }

  /** The unassigned match p that task k carries. */
  function Unassigned(p: (Ticket, Ticket)): Task -> nat {
    (k: Task) =>
      match k
      case MatchedMsg(a, b) => One((a, b) == p)
      case Allocating(a, b, _, _) => One((a, b) == p)
      case _ => 0
  }

  function Same(p: (Ticket, Ticket)): ((Ticket, Ticket)) -> nat { (q: (Ticket, Ticket)) => One(q == p) }
  function For(p: (Ticket, Ticket)): Assignment -> nat { (x: Assignment) => One((x.a, x.b) == p) }

  function Matches(s: State, p: (Ticket, Ticket)): nat { Sum(Same(p), s.matched) }
  function Uses(s: State, p: (Ticket, Ticket)): nat { Sum(Unassigned(p), s.tasks) + Sum(For(p), s.assignments) }

  function Reserved(n: nat): Task -> nat { (k: Task) => One(k.Allocating? && k.room == n) }
  function InRoom(n: nat): Assignment -> nat { (x: Assignment) => One(x.room == n) }
  function Seats(s: State, n: nat): nat { Sum(Reserved(n), s.tasks) + Sum(InRoom(n), s.assignments) }

  ghost predicate Conserved(s: State) {
    && (forall t :: Rights(s, t) <= One(t in s.born))
    && (forall p :: Uses(s, p) <= Matches(s, p))
    && (forall n: nat :: Seats(s, n) <= One(n <= s.nextRoom))
  }

  // ---- one step ----

  /** The tasks that carry a ticket's right, a match or a room; timers, watches and events carry nothing. */
  predicate Counts(k: Task) { k.Request? || k.Pooling? || k.Paired? || k.MatchedMsg? || k.Allocating? }

  /** What the tasks an action adds carry. */
  ghost function Added(s: State, act: Action, f: Task -> nat): nat
    requires Enabled(s, act)
  {
    match act
    case Play(_, t, elo) => f(Request(t, elo))
    case ShardFind(t, elo) => f(Request(t, elo))
    case Deliver(i, _, None) => f(Pooling(s.tasks[i].t, s.tasks[i].elo))
    case Deliver(i, r, Some(a)) => f(Paired(r, a, s.tasks[i].t))
    case Allocate(i, Some(shard)) => f(Allocating(s.tasks[i].a, s.tasks[i].b, s.nextRoom + 1, shard))
    case Run(i) => if s.tasks[i].Paired? then f(MatchedMsg(s.tasks[i].a, s.tasks[i].b)) else 0
    case _ => 0
  }

  lemma NothingIn(f: Task -> nat, out: seq<Task>)
    requires forall k :: !Counts(k) ==> f(k) == 0
    requires forall k :: k in out ==> !Counts(k)
    ensures Sum(f, out) == 0
  {
    SumConstant(f, out, 0);
  }

  lemma AddedByRun(s: State, i: nat, f: Task -> nat)
    requires Enabled(s, Run(i))
    requires forall k :: !Counts(k) ==> f(k) == 0
    ensures Sum(f, Effect(s, Run(i)).1) == Added(s, Run(i), f)
  {
    var c := s.tasks[i];
    var out := Effect(s, Run(i)).1;
    if c.Paired? {
      assert out[1..] == [out[1]];
      SumOne(f, out[1]);
    } else {
      if c.Watching? { TimeoutTaskShape(s, s.replicas[c.r].pending, c.a); }
      NothingIn(f, out);
    }
  }

  lemma AddedIs(s: State, act: Action, f: Task -> nat)
    requires Enabled(s, act)
    requires forall k :: !Counts(k) ==> f(k) == 0
    ensures Sum(f, Effect(s, act).1) == Added(s, act, f)
  {
    var out := Effect(s, act).1;
    match act
    case Run(i) => AddedByRun(s, i, f);
    case Finish(r) =>
      if s.replicas[r].section.Firing? { TimeoutTaskShape(s, s.replicas[r].pending, s.replicas[r].section.b); }
      NothingIn(f, out);
    case Reply(_, _) => NothingIn(f, out);
    case ShardCancel(_) => NothingIn(f, out);
    case Tick(_) =>
    case _ => if |out| == 1 { assert out == [out[0]]; SumOne(f, out[0]); }
  }

  /** How an action changes a sum over the tasks. */
  lemma TasksSum(s: State, act: Action, f: Task -> nat)
    requires Enabled(s, act)
    requires forall k :: !Counts(k) ==> f(k) == 0
    ensures Sum(f, Next(s, act).tasks) + (if Consumes(act) then f(s.tasks[act.i]) else 0)
         == Sum(f, s.tasks) + Added(s, act, f)
  {
    SumConcat(f, Kept(s, act), Effect(s, act).1);
    if Consumes(act) { SumSplit(f, s.tasks, act.i); }
    AddedIs(s, act, f);
  }

  lemma MatchedSum(s: State, act: Action, f: ((Ticket, Ticket)) -> nat)
    requires Enabled(s, act)
    ensures Sum(f, Next(s, act).matched) == Sum(f, s.matched)
      + if act.Run? && s.tasks[act.i].Paired? then f((s.tasks[act.i].a, s.tasks[act.i].b)) else 0
  {
    if act.Run? && s.tasks[act.i].Paired? {
      var p := (s.tasks[act.i].a, s.tasks[act.i].b);
      SumConcat(f, s.matched, [p]);
      SumOne(f, p);
    }
  }

  lemma AssignmentsSum(s: State, act: Action, f: Assignment -> nat)
    requires Enabled(s, act)
    ensures Sum(f, Next(s, act).assignments) == Sum(f, s.assignments)
      + if act.Reply? && act.ok
        then f(Assignment(s.tasks[act.i].a, s.tasks[act.i].b, s.tasks[act.i].room, s.tasks[act.i].shard))
        else 0
  {
    if act.Reply? && act.ok {
      var k := s.tasks[act.i];
      var x := Assignment(k.a, k.b, k.room, k.shard);
      SumConcat(f, s.assignments, [x]);
      SumOne(f, x);
    }
  }

  lemma TaskPoolChange(s: State, k: Task, t: Ticket)
    requires Ready(s, k)
    ensures One(t in RunTask(s, k).0.pool) <= One(t in s.pool) + One(k.Pooling? && k.t == t)
  {
  }

  lemma PoolChange(s: State, act: Action, t: Ticket)
    requires Enabled(s, act)
    ensures One(t in Next(s, act).pool) + One(act.Deliver? && act.opponent == Some(t))
         <= One(t in s.pool) + One(act.Run? && s.tasks[act.i].Pooling? && s.tasks[act.i].t == t)
  {
    if act.Run? { TaskPoolChange(s, s.tasks[act.i], t); }
  }

  lemma RightsStep(s: State, act: Action, t: Ticket)
    requires Enabled(s, act)
    ensures Rights(Next(s, act), t) <= Rights(s, t) + One((act.Play? || act.ShardFind?) && act.t == t)
  {
    TasksSum(s, act, Right(t));
    MatchedSum(s, act, InPair(t));
    PoolChange(s, act, t);
    var used := if Consumes(act) then Right(t)(s.tasks[act.i]) else 0;
    assert Added(s, act, Right(t)) + One(act.Run? && s.tasks[act.i].Pooling? && s.tasks[act.i].t == t)
      + (if act.Run? && s.tasks[act.i].Paired? then InPair(t)((s.tasks[act.i].a, s.tasks[act.i].b)) else 0)
      <= used + One(act.Deliver? && act.opponent == Some(t)) + One((act.Play? || act.ShardFind?) && act.t == t);
  }

  /** A published match, and an allocation that has begun, carry their own pair. */
  lemma AddedUses(s: State, act: Action, p: (Ticket, Ticket))
    requires Enabled(s, act)
    ensures Added(s, act, Unassigned(p))
         == One(((act.Allocate? && act.shard.Some?) || (act.Run? && s.tasks[act.i].Paired?))
                && (s.tasks[act.i].a, s.tasks[act.i].b) == p)
  {
  }

  lemma UsesStep(s: State, act: Action, p: (Ticket, Ticket))
    requires Enabled(s, act) && Uses(s, p) <= Matches(s, p)
    ensures Uses(Next(s, act), p) <= Matches(Next(s, act), p)
  {
    TasksSum(s, act, Unassigned(p));
    MatchedSum(s, act, Same(p));
    AssignmentsSum(s, act, For(p));
    AddedUses(s, act, p);
  }

  lemma RoomStep(s: State, act: Action)
    requires Enabled(s, act)
    ensures Next(s, act).nextRoom == s.nextRoom + One(act.Allocate? && act.shard.Some?)
  {
    if act.Run? { TaskKeeps(s, s.tasks[act.i]); }
  }

  /** Only an allocation reserves a room number, and it is the next one. */
  lemma AddedSeats(s: State, act: Action, n: nat)
    requires Enabled(s, act)
    ensures Added(s, act, Reserved(n)) == One(act.Allocate? && act.shard.Some? && n == s.nextRoom + 1)
  {
  }

  lemma SeatsStep(s: State, act: Action, n: nat)
    requires Enabled(s, act) && Seats(s, n) <= One(n <= s.nextRoom)
    ensures Seats(Next(s, act), n) <= One(n <= Next(s, act).nextRoom)
  {
    TasksSum(s, act, Reserved(n));
    AssignmentsSum(s, act, InRoom(n));
    AddedSeats(s, act, n);
    RoomStep(s, act);
  }

  /** A new ticket is new, and an issued one stays issued. */
  lemma BornStep(s: State, act: Action, t: Ticket)
    requires Enabled(s, act)
    ensures One(t in s.born) + One((act.Play? || act.ShardFind?) && act.t == t) <= One(t in Next(s, act).born)
  {
    if act.Run? { TaskKeeps(s, s.tasks[act.i]); }
  }

  lemma AllRightsStep(s: State, act: Action)
    requires Enabled(s, act) && Conserved(s)
    ensures forall t :: Rights(Next(s, act), t) <= One(t in Next(s, act).born)
  {
    var s' := Next(s, act);
    forall t ensures Rights(s', t) <= One(t in s'.born) {
      RightsStep(s, act, t);
      BornStep(s, act, t);
    }
  }

  lemma AllUsesStep(s: State, act: Action)
    requires Enabled(s, act) && Conserved(s)
    ensures forall p :: Uses(Next(s, act), p) <= Matches(Next(s, act), p)
  {
    forall p ensures Uses(Next(s, act), p) <= Matches(Next(s, act), p) { UsesStep(s, act, p); }
  }

  lemma AllSeatsStep(s: State, act: Action)
    requires Enabled(s, act) && Conserved(s)
    ensures forall n: nat :: Seats(Next(s, act), n) <= One(n <= Next(s, act).nextRoom)
  {
    forall n: nat ensures Seats(Next(s, act), n) <= One(n <= Next(s, act).nextRoom) { SeatsStep(s, act, n); }
  }

  lemma ConservedStep(s: State, act: Action)
    requires Enabled(s, act) && Conserved(s)
    ensures Conserved(Next(s, act))
  {
    AllRightsStep(s, act);
    AllUsesStep(s, act);
    AllSeatsStep(s, act);
  }

  // ---- no ticket is popped twice, or pooled again once popped ----

  /** The right of ticket t to be pooled or paired that task k carries. */
  function Unpopped(t: Ticket): Task -> nat {
    (k: Task) =>
      match k
      case Request(x, _) => One(x == t)
      case Pooling(x, _) => One(x == t)
      case _ => 0
  }

  function InPop(t: Ticket): Pop -> nat { (p: Pop) => One(p.a == t) + One(p.b == t) }

  /** Where t's one right to be paired is: in a request, in the pool, or spent in a pop. */
  function Claims(s: State, t: Ticket): nat {
    Sum(Unpopped(t), s.tasks) + One(t in s.pool) + Sum(InPop(t), s.pops)
  }

  lemma PopsSum(s: State, act: Action, f: Pop -> nat)
    requires Enabled(s, act)
    ensures Sum(f, Next(s, act).pops) == Sum(f, s.pops)
      + if act.Deliver? && act.opponent.Some?
        then f(Pop(act.opponent.value, s.tasks[act.i].t, s.now, act.opponent.value in s.expired))
        else 0
  {
    if act.Deliver? && act.opponent.Some? {
      var p := Pop(act.opponent.value, s.tasks[act.i].t, s.now, act.opponent.value in s.expired);
      SumConcat(f, s.pops, [p]);
      SumOne(f, p);
    }
  }

  lemma ClaimsStep(s: State, act: Action, t: Ticket)
    requires Enabled(s, act) && Claims(s, t) <= One(t in s.born)
    ensures Claims(Next(s, act), t) <= One(t in Next(s, act).born)
  {
    TasksSum(s, act, Unpopped(t));
    PopsSum(s, act, InPop(t));
    PoolChange(s, act, t);
    BornStep(s, act, t);
  }

  lemma PoppedOnce(s: State, i: nat, j: nat, t: Ticket)
    requires Claims(s, t) <= 1 && i < |s.pops| && j < |s.pops|
    requires t in {s.pops[i].a, s.pops[i].b} && t in {s.pops[j].a, s.pops[j].b}
    ensures i == j && t !in s.pool
  {
    SumAtLeast(InPop(t), s.pops, s.pops[i]);
    if i < j { SumTwoElements(InPop(t), s.pops, i, j); }
    if j < i { SumTwoElements(InPop(t), s.pops, j, i); }
  }

  lemma {:induction false} ConservedRun(s: State, acts: seq<Action>)
    requires Conserved(s) && ValidRun(s, acts)
    ensures Conserved(After(s, acts))
    decreases |acts|
  {
    if acts != [] {
      ConservedStep(s, acts[0]);
      ConservedRun(Next(s, acts[0]), acts[1..]);
    }
  }

  lemma ConservedAtStart(s: State)
    requires Init(s)
    ensures Conserved(s)
  {
  }

  // ---- what it means for the published events ----

  predicate Disjoint(p: (Ticket, Ticket), q: (Ticket, Ticket)) { {p.0, p.1} !! {q.0, q.1} }

  ghost predicate PairsDistinct(ps: seq<(Ticket, Ticket)>) {
    && (forall i :: 0 <= i < |ps| ==> ps[i].0 != ps[i].1)
    && (forall i, j :: 0 <= i < j < |ps| ==> Disjoint(ps[i], ps[j]))
  }

  lemma MatchedAreDistinct(s: State)
    requires Conserved(s)
    ensures PairsDistinct(s.matched)
  {
    forall i | 0 <= i < |s.matched| ensures s.matched[i].0 != s.matched[i].1 {
      SumAtLeast(InPair(s.matched[i].0), s.matched, s.matched[i]);
      assert Rights(s, s.matched[i].0) <= 1;
    }
    forall i, j | 0 <= i < j < |s.matched| ensures Disjoint(s.matched[i], s.matched[j]) {
      var p := s.matched[i];
      SumTwoElements(InPair(p.0), s.matched, i, j);
      SumTwoElements(InPair(p.1), s.matched, i, j);
      assert Rights(s, p.0) <= 1 && Rights(s, p.1) <= 1;
    }
  }

  /** Over all runs: the tickets of all published matches are pairwise distinct. */
  lemma NoTicketMatchedTwice(s: State, acts: seq<Action>)
    requires Init(s) && ValidRun(s, acts)
    ensures PairsDistinct(After(s, acts).matched)
  {
    ConservedAtStart(s);
    ConservedRun(s, acts);
    MatchedAreDistinct(After(s, acts));
  }

  lemma NotAgain(ps: seq<(Ticket, Ticket)>, i: nat, q: (Ticket, Ticket))
    requires PairsDistinct(ps) && i < |ps| && q in ps[..i] + ps[i + 1..]
    ensures q != ps[i]
  {
    var rest := ps[..i] + ps[i + 1..];
    var j :| 0 <= j < |rest| && rest[j] == q;
    assert if j < i then Disjoint(ps[j], ps[i]) else Disjoint(ps[i], ps[j + 1]);
  }

  lemma MatchesAtMostOnce(s: State, p: (Ticket, Ticket))
    requires Conserved(s)
    ensures Matches(s, p) <= One(p in s.matched)
  {
    MatchedAreDistinct(s);
    if p in s.matched {
      var i :| 0 <= i < |s.matched| && s.matched[i] == p;
      SumSplit(Same(p), s.matched, i);
      var rest := s.matched[..i] + s.matched[i + 1..];
      forall q | q in rest ensures Same(p)(q) == 0 { NotAgain(s.matched, i, q); }
      SumConstant(Same(p), rest, 0);
    } else {
      SumConstant(Same(p), s.matched, 0);
    }
  }

  /** Over all runs: every assignment is for a published match, no match is assigned twice, and no two
      assignments share a room name. */
  lemma NoMatchAssignedTwice(s: State, acts: seq<Action>)
    requires Init(s) && ValidRun(s, acts)
    ensures var xs := After(s, acts).assignments;
      && (forall i :: 0 <= i < |xs| ==> (xs[i].a, xs[i].b) in After(s, acts).matched)
      && (forall i, j :: 0 <= i < j < |xs| ==>
            (xs[i].a, xs[i].b) != (xs[j].a, xs[j].b) && AssignedEvent(xs[i]).room != AssignedEvent(xs[j]).room)
  {
    ConservedAtStart(s);
    ConservedRun(s, acts);
    var s' := After(s, acts);
    var xs := s'.assignments;
    forall i | 0 <= i < |xs| ensures (xs[i].a, xs[i].b) in s'.matched {
      var p := (xs[i].a, xs[i].b);
      SumAtLeast(For(p), xs, xs[i]);
      MatchesAtMostOnce(s', p);
      assert Uses(s', p) <= Matches(s', p);
    }
    forall i, j | 0 <= i < j < |xs|
      ensures (xs[i].a, xs[i].b) != (xs[j].a, xs[j].b) && AssignedEvent(xs[i]).room != AssignedEvent(xs[j]).room
    {
      var p := (xs[i].a, xs[i].b);
      SumTwoElements(For(p), xs, i, j);
      MatchesAtMostOnce(s', p);
      assert Uses(s', p) <= Matches(s', p);
      SumTwoElements(InRoom(xs[i].room), xs, i, j);
      assert Seats(s', xs[i].room) <= 1;
      if xs[i].room != xs[j].room { Allocator.RoomNamesDistinct(xs[i].room, xs[j].room); }
    }
  }
}
