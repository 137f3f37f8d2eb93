/** Fan-out to the matchmakers: every published assignment reaches every replica. */
module Hearing {
  import opened Options
  import opened Messages
  import opened Protocol
  import opened Coverage

  /** Assignment x is on its way to matchmaker r, or r has handled it. */
  ghost predicate Hears(s: State, x: Assignment, r: nat) {
    AtMatchmaker(r, x.a, x.b) in s.tasks || (r, x.a, x.b) in s.heard
  }

  /** Every published assignment is heard by every replica, and nothing else is. */
  ghost predicate AllHear(s: State) {
    && (forall x, r: nat :: x in s.assignments && r < |s.replicas| ==> Hears(s, x, r))
    && (forall h :: h in s.heard ==> h.0 < |s.replicas| && Published(s, h.1, h.2))
  }

  lemma HeardStays(s: State, act: Action)
    requires Enabled(s, act)
    ensures s.heard <= Next(s, act).heard
  {
    if act.Run? { TaskKeeps(s, s.tasks[act.i]); }
  }

  lemma HearsStays(s: State, act: Action, x: Assignment, r: nat)
    requires Enabled(s, act) && Hears(s, x, r)
    ensures Hears(Next(s, act), x, r)
  {
    HeardStays(s, act);
    var k := AtMatchmaker(r, x.a, x.b);
    if k in s.tasks {
      if Consumes(act) && s.tasks[act.i] == k {
        assert (r, x.a, x.b) in Next(s, act).heard;
      } else {
        TaskStays(s, act, k);
      }
    }
  }

  /** An assignment that is new was published by this step, and its copies are in flight. */
  lemma NewAssignmentHeard(s: State, act: Action, x: Assignment, r: nat)
    requires Enabled(s, act) && r < |s.replicas|
    requires x in Next(s, act).assignments && x !in s.assignments
    ensures Hears(Next(s, act), x, r)
  {
    if act.Run? { TaskKeeps(s, s.tasks[act.i]); }
    assert AtMatchmaker(r, x.a, x.b) in Effect(s, act).1;
  }

  lemma TaskHears(s: State, k: Task, h: (nat, Ticket, Ticket))
    requires Ready(s, k) && h in RunTask(s, k).0.heard && h !in s.heard
    ensures k == AtMatchmaker(h.0, h.1, h.2)
  {
  }

  lemma NewHeard(s: State, act: Action, h: (nat, Ticket, Ticket))
    requires Enabled(s, act) && h in Next(s, act).heard && h !in s.heard
    ensures act.Run? && s.tasks[act.i] == AtMatchmaker(h.0, h.1, h.2)
  {
    if act.Run? { TaskHears(s, s.tasks[act.i], h); }
  }

  lemma AllHearStep(s: State, act: Action)
    requires Enabled(s, act) && Inv(s) && AllHear(s)
    ensures AllHear(Next(s, act))
  {
    var s' := Next(s, act);
    SameSize(s, act);
    forall x, r: nat | x in s'.assignments && r < |s'.replicas| ensures Hears(s', x, r) {
      if x in s.assignments { HearsStays(s, act, x, r); } else { NewAssignmentHeard(s, act, x, r); }
    }
    forall h | h in s'.heard ensures h.0 < |s'.replicas| && Published(s', h.1, h.2) {
      if h !in s.heard {
        NewHeard(s, act, h);
        assert TaskScoped(s, s.tasks[act.i]);
      }
      PublishedStays(s, act, h.1, h.2);
    }
  }

  lemma {:induction false} AllHearRun(s: State, acts: seq<Action>)
    requires Inv(s) && AllHear(s) && ValidRun(s, acts)
    ensures AllHear(After(s, acts)) && |After(s, acts).replicas| == |s.replicas|
    decreases |acts|
  {
    if acts != [] {
      InvStep(s, acts[0]);
      AllHearStep(s, acts[0]);
      SameSize(s, acts[0]);
      AllHearRun(Next(s, acts[0]), acts[1..]);
    }
  }

  /** Over all runs: a published assignment is on its way to every matchmaker replica that has not handled it. */
  lemma EveryMatchmakerHears(s: State, acts: seq<Action>, x: Assignment, r: nat)
    requires Init(s) && ValidRun(s, acts)
    requires x in After(s, acts).assignments && r < |After(s, acts).replicas|
    ensures AtMatchmaker(r, x.a, x.b) in After(s, acts).tasks || (r, x.a, x.b) in After(s, acts).heard
  {
    AllHearRun(s, acts);
    HearsIn(After(s, acts), x, r);
  }

  lemma HearsIn(s: State, x: Assignment, r: nat)
    requires AllHear(s) && x in s.assignments && r < |s.replicas|
    ensures AtMatchmaker(r, x.a, x.b) in s.tasks || (r, x.a, x.b) in s.heard
  {
    assert Hears(s, x, r);
  }

  /** Over all runs: a replica handles published assignments only. */
  lemma OnlyPublishedIsHeard(s: State, acts: seq<Action>, r: nat, a: Ticket, b: Ticket)
    requires Init(s) && ValidRun(s, acts) && (r, a, b) in After(s, acts).heard
    ensures r < |After(s, acts).replicas| && Published(After(s, acts), a, b)
  {
    AllHearRun(s, acts);
  }
}
