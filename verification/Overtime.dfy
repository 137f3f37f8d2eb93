/** When a /play request outlasts the search timeout: exactly when findMatch pops its ticket so late that the
    watchdog of its match is due after that, its search timer has not yet seen it, and no assignment comes. */
module Overtime {
  import opened Options
  import opened Messages
  import opened Protocol
  import opened Coverage
  import opened Conservation
  import opened Timing
  import opened Answers

  // ---- what every task, section and event goes back to ----

  ghost predicate PoppedAt(s: State, a: Ticket, b: Ticket, at: nat) {
    exists i :: 0 <= i < |s.pops| && s.pops[i].a == a && s.pops[i].b == b && s.pops[i].at == at
  }

  /** t belongs to a pair whose watchdog is due. */
  ghost predicate WatchDue(s: State, t: Ticket) {
    exists i :: 0 <= i < |s.pops| && t in {s.pops[i].a, s.pops[i].b} && s.pops[i].at + ASSIGNMENT_TIMEOUT <= s.now
  }

  ghost predicate Caused(s: State, e: Event) {
    match e
    case Timeout(t) => t in s.expired || WatchDue(s, t)
    case Assigned(a, b, _, _) => Published(s, a, b)
  }

  ghost predicate TaskCaused(s: State, k: Task) {
    match k
    case SearchRemove(t) => t in s.expired
    case SearchPublish(t) => t in s.expired
    case Paired(_, a, b) => PoppedAt(s, a, b, s.now)
    case Watch(_, a, b) => PoppedAt(s, a, b, s.now)
    case StartWatchdog(_, a, b) => PoppedAt(s, a, b, s.now)
    case Watching(_, a, b, due) => due >= ASSIGNMENT_TIMEOUT && PoppedAt(s, a, b, due - ASSIGNMENT_TIMEOUT)
    case AtGateway(_, e) => Caused(s, e)
    case _ => true
  }

  ghost predicate SectionCaused(s: State, sec: Section) {
    match sec
    case Arming(a, b) => PoppedAt(s, a, b, s.now)
    case Firing(_, b, _) => WatchDue(s, b)
    case _ => true
  }

  ghost predicate AllCaused(s: State) {
    && (forall k :: k in s.tasks ==> TaskCaused(s, k))
    && (forall r :: 0 <= r < |s.replicas| ==> SectionCaused(s, s.replicas[r].section))
    && (forall n :: 0 <= n < |s.processed| ==> Caused(s, s.processed[n].1))
  }

  /** A ticket whose search timer found it waiting has its timeout on the way to every gateway that holds it. */
  ghost predicate TimeoutComing(s: State, t: Ticket, g: nat) {
    || (g < |s.open| ==> t !in s.open[g])
    || SearchRemove(t) in s.tasks || SearchPublish(t) in s.tasks || AtGateway(g, Timeout(t)) in s.tasks
  }

  ghost predicate AllComing(s: State) {
    && s.expired <= s.born.Keys
    && forall t, g: nat :: t in s.expired && g < |s.open| ==> TimeoutComing(s, t, g)
  }

  /** Pops: each ticket in at most one, the second ticket at its own request, and `seen` as recorded for good. */
  ghost predicate PopsKept(s: State) {
    && (forall t :: Claims(s, t) <= One(t in s.born))
    && (forall i :: 0 <= i < |s.pops| ==> Within(s, s.pops[i].b, s.pops[i].at, 0))
    && (forall i :: 0 <= i < |s.pops| ==> s.pops[i].a in s.born && s.pops[i].b in s.born)
    && (forall i :: 0 <= i < |s.pops| ==> (s.pops[i].seen <==> s.pops[i].a in s.expired))
  }

  /** Pop i put t's request at risk: t was popped for a ticket that came later, unseen by its search timer, and so
      late that the watchdog of the match is not due within the search timeout. */
  predicate PoppedLate(s: State, i: int, t: Ticket) {
    && 0 <= i < |s.pops| && t in s.born
    && s.pops[i].a == t && !s.pops[i].seen
    && s.pops[i].at + ASSIGNMENT_TIMEOUT > s.born[t] + SEARCH_TIMEOUT
  }

  /** t was put at risk, and at time n its watchdog is not overdue. */
  ghost predicate AtRisk(s: State, t: Ticket, n: nat) {
    exists i :: PoppedLate(s, i, t) && n <= s.pops[i].at + ASSIGNMENT_TIMEOUT
  }

  predicate Late(s: State, t: Ticket) { t in s.born && s.now > s.born[t] + SEARCH_TIMEOUT }

  ghost predicate LatePops(s: State) {
    forall g, t :: 0 <= g < |s.open| && t in s.open[g] && Late(s, t) ==> AtRisk(s, t, s.now)
  }

  ghost predicate Known(s: State) {
    && Inv(s) && Timely(s) && Once(s) && Accounted(s)
    && AllCaused(s) && AllComing(s) && PopsKept(s) && LatePops(s)
  }

  // ---- history only grows ----

  lemma HistoryGrows(s: State, act: Action)
    requires Enabled(s, act)
    ensures var s' := Next(s, act);
            && s.pops <= s'.pops && s.expired <= s'.expired && s.now <= s'.now && s.born.Keys <= s'.born.Keys
            && (!act.Tick? ==> s'.now == s.now)
  {
    if act.Run? { TaskKeeps(s, s.tasks[act.i]); }
  }

  lemma PoppedAtStays(s: State, act: Action, a: Ticket, b: Ticket, at: nat)
    requires Enabled(s, act) && PoppedAt(s, a, b, at)
    ensures PoppedAt(Next(s, act), a, b, at)
  {
    HistoryGrows(s, act);
    var i :| 0 <= i < |s.pops| && s.pops[i].a == a && s.pops[i].b == b && s.pops[i].at == at;
    assert Next(s, act).pops[i] == s.pops[i];
  }

  lemma WatchDueStays(s: State, act: Action, t: Ticket)
    requires Enabled(s, act) && WatchDue(s, t)
    ensures WatchDue(Next(s, act), t)
  {
    HistoryGrows(s, act);
    var i :| 0 <= i < |s.pops| && t in {s.pops[i].a, s.pops[i].b} && s.pops[i].at + ASSIGNMENT_TIMEOUT <= s.now;
    assert Next(s, act).pops[i] == s.pops[i];
  }

  lemma CausedStays(s: State, act: Action, e: Event)
    requires Enabled(s, act) && Caused(s, e)
    ensures Caused(Next(s, act), e)
  {
    match e
    case Timeout(t) =>
      HistoryGrows(s, act);
      if t !in s.expired { WatchDueStays(s, act, t); }
    case Assigned(a, b, _, _) => PublishedStays(s, act, a, b);
  }

  // ---- causes ----

  lemma OldTaskCaused(s: State, act: Action, k: Task)
    requires Enabled(s, act) && k in s.tasks && TaskCaused(s, k) && (act.Tick? ==> PromptTick(s, act.d))
    ensures TaskCaused(Next(s, act), k)
  {
    HistoryGrows(s, act);
    if act.Tick? { assert MayWait(k); }
    match k
    case Paired(_, a, b) => PoppedAtStays(s, act, a, b, s.now);
    case Watch(_, a, b) => PoppedAtStays(s, act, a, b, s.now);
    case StartWatchdog(_, a, b) => PoppedAtStays(s, act, a, b, s.now);
    case Watching(_, a, b, due) => PoppedAtStays(s, act, a, b, due - ASSIGNMENT_TIMEOUT);
    case AtGateway(_, e) => CausedStays(s, act, e);
    case _ =>
  }

  lemma WatchingIsDue(s: State, a: Ticket, b: Ticket, due: nat)
    requires due <= s.now && due >= ASSIGNMENT_TIMEOUT && PoppedAt(s, a, b, due - ASSIGNMENT_TIMEOUT)
    ensures WatchDue(s, a) && WatchDue(s, b)
  {
    var i :| 0 <= i < |s.pops| && s.pops[i].a == a && s.pops[i].b == b && s.pops[i].at == due - ASSIGNMENT_TIMEOUT;
    assert a in {s.pops[i].a, s.pops[i].b} && b in {s.pops[i].a, s.pops[i].b};
  }

  lemma RunTaskCaused(s: State, i: nat, k: Task)
    requires Enabled(s, Run(i)) && AllCaused(s) && k in Effect(s, Run(i)).1
    ensures TaskCaused(Next(s, Run(i)), k)
  {
    var c := s.tasks[i];
    var act := Run(i);
    TaskKeeps(s, c);
    assert TaskCaused(s, c);
    match c
    case Paired(_, a, b) => PoppedAtStays(s, act, a, b, s.now);
    case StartWatchdog(_, a, b) => PoppedAtStays(s, act, a, b, s.now);
    case Watching(r, a, b, due) =>
      TimeoutTaskShape(s, s.replicas[r].pending, a);
      WatchingIsDue(s, a, b, due);
      WatchDueStays(s, act, a);
    case _ =>
  }

  lemma FinishTaskCaused(s: State, r: nat, k: Task)
    requires Enabled(s, Finish(r)) && AllCaused(s) && k in Effect(s, Finish(r)).1
    ensures TaskCaused(Next(s, Finish(r)), k)
  {
    var sec := s.replicas[r].section;
    assert SectionCaused(s, sec);
    match sec
    case Arming(a, b) => PoppedAtStays(s, Finish(r), a, b, s.now);
    case Firing(_, b, _) =>
      TimeoutTaskShape(s, s.replicas[r].pending, b);
      WatchDueStays(s, Finish(r), b);
    case Erasing(_, _) =>
  }

  lemma ReplyTaskCaused(s: State, i: nat, ok: bool, k: Task)
    requires Enabled(s, Reply(i, ok)) && k in Effect(s, Reply(i, ok)).1
    ensures TaskCaused(Next(s, Reply(i, ok)), k)
  {
    var c := s.tasks[i];
    assert Assignment(c.a, c.b, c.room, c.shard) in Next(s, Reply(i, ok)).assignments;
  }

  lemma NewTaskCaused(s: State, act: Action, k: Task)
    requires Enabled(s, act) && AllCaused(s) && k in Effect(s, act).1
    ensures TaskCaused(Next(s, act), k)
  {
    match act
    case Run(i) => RunTaskCaused(s, i, k);
    case Finish(r) => FinishTaskCaused(s, r, k);
    case Reply(i, ok) => ReplyTaskCaused(s, i, ok, k);
    case Deliver(i, r, Some(a)) => assert Next(s, act).pops[|s.pops|] == Pop(a, s.tasks[i].t, s.now, a in s.expired);
    case _ =>
  }

  lemma SectionCausedStep(s: State, act: Action, r: nat)
    requires Enabled(s, act) && AllCaused(s) && r < |s.replicas| && (act.Tick? ==> PromptTick(s, act.d))
    ensures SectionCaused(Next(s, act), Next(s, act).replicas[r].section)
  {
    var sec := s.replicas[r].section;
    HistoryGrows(s, act);
    assert SectionCaused(s, sec);
    if Next(s, act).replicas[r].section == sec {
      match sec
      case Arming(a, b) => PoppedAtStays(s, act, a, b, s.now);
      case Firing(_, b, _) => WatchDueStays(s, act, b);
      case _ =>
    } else if act.Run? {
      NewSectionCaused(s, act.i, r);
    }
  }

  lemma NewSectionCaused(s: State, i: nat, r: nat)
    requires Enabled(s, Run(i)) && AllCaused(s) && r < |s.replicas|
    requires Next(s, Run(i)).replicas[r].section != s.replicas[r].section
    ensures SectionCaused(Next(s, Run(i)), Next(s, Run(i)).replicas[r].section)
  {
    var c := s.tasks[i];
    assert TaskCaused(s, c);
    match c
    case Watch(_, a, b) => PoppedAtStays(s, Run(i), a, b, s.now);
    case Watching(_, a, b, due) =>
      WatchingIsDue(s, a, b, due);
      WatchDueStays(s, Run(i), b);
    case _ =>
  }

  lemma ProcessedCausedStep(s: State, act: Action, n: nat)
    requires Enabled(s, act) && AllCaused(s) && n < |Next(s, act).processed|
    ensures Caused(Next(s, act), Next(s, act).processed[n].1)
  {
    if act.Run? && s.tasks[act.i].AtGateway? {
      var k := s.tasks[act.i];
      assert TaskCaused(s, k);
      CausedStays(s, act, if n < |s.processed| then s.processed[n].1 else k.e);
    } else if act.Play? {
      CausedStays(s, act, s.processed[n].1);
    } else {
      OtherUntouched(s, act);
      CausedStays(s, act, s.processed[n].1);
    }
  }

  lemma AllCausedStep(s: State, act: Action)
    requires Enabled(s, act) && AllCaused(s) && (act.Tick? ==> PromptTick(s, act.d))
    ensures AllCaused(Next(s, act))
  {
    var s' := Next(s, act);
    SameSize(s, act);
    forall k | k in s'.tasks ensures TaskCaused(s', k) {
      TaskAfter(s, act, k);
      if k in s.tasks { OldTaskCaused(s, act, k); } else { NewTaskCaused(s, act, k); }
    }
    forall r | 0 <= r < |s'.replicas| ensures SectionCaused(s', s'.replicas[r].section) { SectionCausedStep(s, act, r); }
    forall n | 0 <= n < |s'.processed| ensures Caused(s', s'.processed[n].1) { ProcessedCausedStep(s, act, n); }
  }

  // ---- the search timer's own timeouts ----

  lemma ExpiredBy(s: State, act: Action, t: Ticket)
    requires Enabled(s, act) && t in Next(s, act).expired && t !in s.expired
    ensures act.Run? && s.tasks[act.i].Searching? && s.tasks[act.i].t == t && t in s.pool
    ensures SearchRemove(t) in Next(s, act).tasks
  {
    assert SearchRemove(t) in Effect(s, act).1;
  }

  lemma ComingStays(s: State, act: Action, t: Ticket, g: nat)
    requires Enabled(s, act) && t in s.born && g < |s.open| && TimeoutComing(s, t, g)
    ensures TimeoutComing(Next(s, act), t, g)
  {
    var s' := Next(s, act);
    if t in s'.open[g] {
      OpenBefore(s, act, g, t);
      var k := if SearchRemove(t) in s.tasks then SearchRemove(t)
               else if SearchPublish(t) in s.tasks then SearchPublish(t) else AtGateway(g, Timeout(t));
      if Consumes(act) && s.tasks[act.i] == k { ComingMoves(s, act.i, t, g); } else { TaskStays(s, act, k); }
    }
  }

  lemma ComingMoves(s: State, i: nat, t: Ticket, g: nat)
    requires Enabled(s, Run(i)) && g < |s.open| && t in Next(s, Run(i)).open[g]
    requires s.tasks[i] in {SearchRemove(t), SearchPublish(t), AtGateway(g, Timeout(t))}
    ensures TimeoutComing(Next(s, Run(i)), t, g)
  {
    var out := Effect(s, Run(i)).1;
    assert SearchPublish(t) in out || AtGateway(g, Timeout(t)) in out;
  }

  lemma AllComingStep(s: State, act: Action)
    requires Enabled(s, act) && Scoped(s) && AllComing(s)
    ensures AllComing(Next(s, act))
  {
    var s' := Next(s, act);
    SameSize(s, act);
    HistoryGrows(s, act);
    forall t | t in s'.expired && t !in s.expired ensures t in s.born { ExpiredBy(s, act, t); }
    forall t, g: nat | t in s'.expired && g < |s'.open| ensures TimeoutComing(s', t, g) {
      if t in s.expired { ComingStays(s, act, t, g); } else { ExpiredBy(s, act, t); }
    }
  }

  // ---- pops ----

  lemma NewPop(s: State, act: Action, i: nat)
    requires Enabled(s, act) && Scoped(s) && Timely(s) && |s.pops| <= i < |Next(s, act).pops|
    ensures var s' := Next(s, act);
            && i == |s.pops| && s'.pops[i].a in s'.born && s'.pops[i].b in s'.born && s'.pops[i].at == s'.now
            && (s'.pops[i].seen <==> s'.pops[i].a in s'.expired)
            && Within(s', s'.pops[i].b, s'.now, 0)
  {
    if act.Run? { TaskKeeps(s, s.tasks[act.i]); }
    var k := s.tasks[act.i];
    assert OnTime(s, k) && TaskScoped(s, k);
  }

  /** Once popped, a ticket is in the pool no more, so its search timer cannot find it there. */
  lemma SeenForGood(s: State, act: Action, i: nat)
    requires Enabled(s, act) && PopsKept(s) && i < |s.pops|
    ensures s.pops[i].a in Next(s, act).expired <==> s.pops[i].a in s.expired
  {
    var a := s.pops[i].a;
    HistoryGrows(s, act);
    PoppedOnce(s, i, i, a);
    if a in Next(s, act).expired && a !in s.expired {
      ExpiredBy(s, act, a);
      assert false;
    }
  }

  lemma OldPop(s: State, act: Action, i: nat)
    requires Enabled(s, act) && PopsKept(s) && i < |s.pops|
    ensures var s' := Next(s, act);
            && i < |s'.pops| && s'.pops[i] == s.pops[i]
            && s'.pops[i].a in s'.born && s'.pops[i].b in s'.born
            && (s'.pops[i].seen <==> s'.pops[i].a in s'.expired)
            && Within(s', s'.pops[i].b, s'.pops[i].at, 0)
  {
    HistoryGrows(s, act);
    SeenForGood(s, act, i);
    WithinStays(s, act, s.pops[i].b, s.pops[i].at, 0);
    assert Next(s, act).pops[i] == s.pops[i];
  }

  lemma PopsKeptStep(s: State, act: Action)
    requires Enabled(s, act) && Scoped(s) && Timely(s) && PopsKept(s)
    ensures PopsKept(Next(s, act))
  {
    var s' := Next(s, act);
    forall t ensures Claims(s', t) <= One(t in s'.born) { ClaimsStep(s, act, t); }
    forall i | 0 <= i < |s'.pops|
      ensures s'.pops[i].a in s'.born && s'.pops[i].b in s'.born && (s'.pops[i].seen <==> s'.pops[i].a in s'.expired)
      ensures Within(s', s'.pops[i].b, s'.pops[i].at, 0)
    {
      if i < |s.pops| { OldPop(s, act, i); } else { NewPop(s, act, i); }
    }
  }

  // ---- late requests ----

  /** Where everything due has been done, a late open request is covered by the watchdog of a late pop. */
  lemma LateIsPoppedLate(s: State, d: nat, g: nat, t: Ticket)
    requires Inv(s) && Timely(s) && AllCaused(s) && AllComing(s) && PopsKept(s)
    requires PromptTick(s, d) && g < |s.open| && t in s.open[g]
    requires t in s.born && s.now + d > s.born[t] + SEARCH_TIMEOUT
    ensures AtRisk(s, t, s.now + d)
  {
    var k := CoveringTimer(s, d, g, t);
    assert OnTime(s, k);
    var i := WatchedPop(s, k);
    assert Within(s, s.pops[i].b, s.pops[i].at, 0);
    OpenIsUnseen(s, d, g, t);
    assert PoppedLate(s, i, t);
  }

  lemma WatchedPop(s: State, k: Task) returns (i: nat)
    requires AllCaused(s) && k in s.tasks && k.Watching?
    ensures i < |s.pops| && s.pops[i].a == k.a && s.pops[i].b == k.b && k.due == s.pops[i].at + ASSIGNMENT_TIMEOUT
  {
    assert TaskCaused(s, k);
    var j :| 0 <= j < |s.pops| && s.pops[j].a == k.a && s.pops[j].b == k.b && s.pops[j].at == k.due - ASSIGNMENT_TIMEOUT;
    i := j;
  }

  lemma OpenIsUnseen(s: State, d: nat, g: nat, t: Ticket)
    requires AllComing(s) && PromptTick(s, d) && g < |s.open| && t in s.open[g]
    ensures t !in s.expired
  {
    assert t in s.expired ==> TimeoutComing(s, t, g);
  }

  lemma AtRiskStays(s: State, act: Action, t: Ticket, n: nat)
    requires Enabled(s, act) && AtRisk(s, t, n)
    ensures AtRisk(Next(s, act), t, n)
  {
    HistoryGrows(s, act);
    WithinStays(s, act, t, 0, 0);
    var i :| PoppedLate(s, i, t) && n <= s.pops[i].at + ASSIGNMENT_TIMEOUT;
    assert Next(s, act).pops[i] == s.pops[i];
    assert PoppedLate(Next(s, act), i, t);
  }

  lemma LateBefore(s: State, act: Action, g: nat, t: Ticket)
    requires Enabled(s, act) && Scoped(s) && !act.Tick? && g < |s.open|
    requires t in Next(s, act).open[g] && Late(Next(s, act), t)
    ensures t in s.open[g] && Late(s, t)
  {
    HistoryGrows(s, act);
    OpenBefore(s, act, g, t);
    if t in s.open[g] { WithinStays(s, act, t, 0, 0); }
  }

  lemma LatePopStep(s: State, act: Action, g: nat, t: Ticket)
    requires Known(s) && Enabled(s, act) && (act.Tick? ==> PromptTick(s, act.d))
    requires g < |s.open| && t in Next(s, act).open[g] && Late(Next(s, act), t)
    ensures AtRisk(Next(s, act), t, Next(s, act).now)
  {
    if act.Tick? {
      LateIsPoppedLate(s, act.d, g, t);
    } else {
      LateBefore(s, act, g, t);
      HistoryGrows(s, act);
    }
    AtRiskStays(s, act, t, Next(s, act).now);
  }

  lemma LatePopsStep(s: State, act: Action)
    requires Known(s) && Enabled(s, act) && (act.Tick? ==> PromptTick(s, act.d))
    ensures LatePops(Next(s, act))
  {
    var s' := Next(s, act);
    SameSize(s, act);
    forall g, t | 0 <= g < |s'.open| && t in s'.open[g] && Late(s', t)
      ensures AtRisk(s', t, s'.now)
    { LatePopStep(s, act, g, t); }
  }

  lemma KnownStep(s: State, act: Action)
    requires Known(s) && Enabled(s, act) && (act.Tick? ==> PromptTick(s, act.d))
    ensures Known(Next(s, act))
  {
    InvStep(s, act);
    TimelyStep(s, act);
    OnceStep(s, act);
    AccountedStep(s, act);
    AllCausedStep(s, act);
    AllComingStep(s, act);
    PopsKeptStep(s, act);
    LatePopsStep(s, act);
  }

  lemma {:induction false} KnownRun(s: State, acts: seq<Action>)
    requires Known(s) && ValidRun(s, acts) && PromptRun(s, acts)
    ensures Known(After(s, acts))
    decreases |acts|
  {
    if acts != [] {
      KnownStep(s, acts[0]);
      KnownRun(Next(s, acts[0]), acts[1..]);
    }
  }

  lemma KnownAtStart(s: State)
    requires Init(s)
    ensures Known(s)
  {
  }

  // ---- the exact condition ----

  ghost predicate NeverAssigned(s: State, t: Ticket) {
    forall x :: x in s.assignments ==> t !in {x.a, x.b}
  }

  /** A ticket popped before its search timer saw it stays open until its watchdog is due, unless it is assigned. */
  lemma StaysOpen(s: State, i: nat)
    requires Known(s) && i < |s.pops| && !s.pops[i].seen && s.pops[i].a !in s.shardTickets
    requires s.now < s.pops[i].at + ASSIGNMENT_TIMEOUT && NeverAssigned(s, s.pops[i].a)
    ensures OpenSomewhere(s, s.pops[i].a)
  {
    var t := s.pops[i].a;
    NoWatchDue(s, i);
    if HasAnswer(s, t) {
      AnswerCaused(s, t);
      assert false;
    }
  }

  /** Behind every answer is an event with a cause. */
  lemma AnswerCaused(s: State, t: Ticket)
    requires Once(s) && AllCaused(s) && HasAnswer(s, t)
    ensures t in s.expired || WatchDue(s, t) || !NeverAssigned(s, t)
  {
    var n :| 0 <= n < |s.answers| && s.answers[n].t == t;
    var x := s.answers[n];
    assert ByFirst(s, x);
    var e := s.processed[x.at].1;
    assert Caused(s, e) && t in Mentions(e);
    match e
    case Timeout(_) =>
    case Assigned(a, b, _, _) =>
      var y :| y in s.assignments && y.a == a && y.b == b;
      assert t in {y.a, y.b};
  }

  lemma NoWatchDue(s: State, i: nat)
    requires PopsKept(s) && i < |s.pops| && s.now < s.pops[i].at + ASSIGNMENT_TIMEOUT
    ensures !WatchDue(s, s.pops[i].a)
  {
    var t := s.pops[i].a;
    forall j | 0 <= j < |s.pops| && t in {s.pops[j].a, s.pops[j].b} ensures j == i { PoppedOnce(s, i, j, t); }
  }

  /** An assigned ticket has been answered once everything due at this moment has been done. */
  lemma OpenIsUnassigned(s: State, d: nat, g: nat, t: Ticket)
    requires AssignmentsReach(s) && PromptTick(s, d) && g < |s.open| && t in s.open[g]
    ensures NeverAssigned(s, t)
  {
    forall x | x in s.assignments ensures t !in {x.a, x.b} {
      assert Reaches(s, x, g);
      assert forall k :: k in s.tasks ==> MayWait(k);
    }
  }

  /** Over all prompt runs: a request open longer than the search timeout was popped, as the one who waited, more
      than SEARCH_TIMEOUT - ASSIGNMENT_TIMEOUT seconds after it came, before its search timer saw it. */
  lemma OnlyLatePopsOutlastTheSearch(s: State, acts: seq<Action>, t: Ticket)
    requires Init(s) && ValidRun(s, acts) && PromptRun(s, acts)
    requires OpenSomewhere(After(s, acts), t) && Late(After(s, acts), t)
    ensures AtRisk(After(s, acts), t, After(s, acts).now)
  {
    KnownAtStart(s);
    KnownRun(s, acts);
    LateOpenAtRisk(After(s, acts), t);
  }

  lemma LateOpenAtRisk(s: State, t: Ticket)
    requires LatePops(s) && OpenSomewhere(s, t) && Late(s, t)
    ensures AtRisk(s, t, s.now)
  {
  }

  /** Conversely, popped that late or earlier, unseen and not assigned, it is open until the watchdog is due. */
  lemma PoppedStaysOpen(s: State, acts: seq<Action>, i: nat)
    requires Init(s) && ValidRun(s, acts) && PromptRun(s, acts)
    requires var s' := After(s, acts);
      && i < |s'.pops| && !s'.pops[i].seen && s'.pops[i].a !in s'.shardTickets
      && s'.now < s'.pops[i].at + ASSIGNMENT_TIMEOUT && NeverAssigned(s', s'.pops[i].a)
    ensures OpenSomewhere(After(s, acts), After(s, acts).pops[i].a)
  {
    KnownAtStart(s);
    KnownRun(s, acts);
    StaysOpen(After(s, acts), i);
  }

  /** Exactly when the search timeout does not bound a /play request: at a moment when everything due has been
      done, a request older than the search timeout is still open if and only if its ticket was popped late,
      unseen, its watchdog is not due yet, and no assignment naming it has been published. */
  lemma OutlastsTheSearchExactly(s: State, acts: seq<Action>, t: Ticket)
    requires Init(s) && ValidRun(s, acts) && PromptRun(s, acts) && PromptTick(After(s, acts), 1)
    requires Late(After(s, acts), t) && t !in After(s, acts).shardTickets
    ensures OpenExactlyAtRisk(After(s, acts), t)
  {
    KnownAtStart(s);
    KnownRun(s, acts);
    LateOpenExactly(After(s, acts), t);
  }

  /** t is open if and only if it was popped late and unseen, its watchdog is due later than now, and it is not assigned. */
  ghost predicate OpenExactlyAtRisk(s: State, t: Ticket) {
    OpenSomewhere(s, t) <==> NeverAssigned(s, t) && AtRisk(s, t, s.now + 1)
  }

  lemma LateOpenExactly(s: State, t: Ticket)
    requires Known(s) && PromptTick(s, 1) && Late(s, t) && t !in s.shardTickets
    ensures OpenExactlyAtRisk(s, t)
  {
    if OpenSomewhere(s, t) {
      var g :| 0 <= g < |s.open| && t in s.open[g];
      LateIsPoppedLate(s, 1, g, t);
      OpenIsUnassigned(s, 1, g, t);
    } else if NeverAssigned(s, t) && AtRisk(s, t, s.now + 1) {
      var i :| PoppedLate(s, i, t) && s.now + 1 <= s.pops[i].at + ASSIGNMENT_TIMEOUT;
      StaysOpen(s, i);
      assert false;
    }
  }
}
