/** Each deferred /play connection is answered at most once, by the first event about its ticket
    that its gateway processes; everything that comes later changes nothing. */
module Answers {
  import opened Messages
  import opened Protocol
  import opened Coverage

  /** Event number n was processed by gateway g and names t. */
  predicate Names(s: State, n: nat, g: nat, t: Ticket) {
    n < |s.processed| && s.processed[n].0 == g && t in Mentions(s.processed[n].1)
  }

  /** The event behind an answer is the first that its gateway processed about the ticket. */
  ghost predicate ByFirst(s: State, x: Answer) {
    && x.t in s.born
    && Names(s, x.at, x.g, x.t)
    && (forall n :: 0 <= n < x.at ==> !Names(s, n, x.g, x.t))
    && (forall g :: 0 <= g < |s.open| ==> x.t !in s.open[g])
  }

  ghost predicate Once(s: State) {
    && Scoped(s)
    && (forall x :: x in s.answers ==> ByFirst(s, x))
    && (forall i, j :: 0 <= i < j < |s.answers| ==> s.answers[i].t != s.answers[j].t)
    && (forall g, h :: 0 <= g < h < |s.open| ==> s.open[g] !! s.open[h])
    && (forall g, n, t :: 0 <= g < |s.open| && 0 <= n < |s.processed| && t in s.open[g] ==> !Names(s, n, g, t))
  }

  lemma PlayOnce(s: State, g: nat, t: Ticket, elo: int)
    requires Enabled(s, Play(g, t, elo)) && Once(s)
    ensures Once(Next(s, Play(g, t, elo)))
  {
    var s' := Next(s, Play(g, t, elo));
    ScopedStep(s, Play(g, t, elo));
    forall x | x in s'.answers ensures ByFirst(s', x) {
      assert ByFirst(s, x);
      assert forall n :: 0 <= n ==> Names(s, n, x.g, x.t) == Names(s', n, x.g, x.t);
    }
    forall h, n, u | 0 <= h < |s'.open| && 0 <= n < |s'.processed| && u in s'.open[h] ensures !Names(s', n, h, u) {
      if u in s.open[h] { assert !Names(s, n, h, u); }
    }
  }

  lemma NamesStays(s: State, g: nat, e: Event, n: nat, h: nat, t: Ticket)
    requires g < |s.open| && n < |s.processed|
    ensures Names(AtGatewayStep(s, g, e), n, h, t) == Names(s, n, h, t)
  {
  }

  lemma EventByFirst(s: State, g: nat, e: Event, x: Answer)
    requires g < |s.open| && Once(s) && Mentions(e) <= s.born.Keys
    requires x in AtGatewayStep(s, g, e).answers
    ensures ByFirst(AtGatewayStep(s, g, e), x)
  {
    var s' := AtGatewayStep(s, g, e);
    forall n: nat, h, t | n < |s.processed| ensures Names(s', n, h, t) == Names(s, n, h, t) { NamesStays(s, g, e, n, h, t); }
    if x in s.answers {
      assert ByFirst(s, x);
    } else {
      assert x.t in s.open[g] && x.g == g && x.at == |s.processed|;
      forall h | 0 <= h < |s'.open| ensures x.t !in s'.open[h] {
        if h < g { assert s.open[h] !! s.open[g]; }
        if g < h { assert s.open[g] !! s.open[h]; }
      }
    }
  }

  lemma EventOnce(s: State, i: nat)
    requires Enabled(s, Run(i)) && s.tasks[i].AtGateway? && Once(s)
    ensures Once(Next(s, Run(i)))
  {
    var (g, e) := (s.tasks[i].g, s.tasks[i].e);
    var s' := Next(s, Run(i));
    var s1 := AtGatewayStep(s, g, e);
    ScopedStep(s, Run(i));
    forall x | x in s'.answers ensures ByFirst(s', x) {
      assert TaskScoped(s, s.tasks[i]);
      EventByFirst(s, g, e, x);
      assert ByFirst(s1, x);
      assert forall n :: 0 <= n ==> Names(s', n, x.g, x.t) == Names(s1, n, x.g, x.t);
    }
    forall x | x in s.answers ensures x.t !in s.open[g] { assert ByFirst(s, x); }
    forall j, k | 0 <= j < k < |s'.answers| ensures s'.answers[j].t != s'.answers[k].t {
      if j < |s.answers| { assert s'.answers[j] == s.answers[j] && s.answers[j] in s.answers; }
    }
    forall h, n, t | 0 <= h < |s'.open| && 0 <= n < |s'.processed| && t in s'.open[h] ensures !Names(s', n, h, t) {
      if n < |s.processed| {
        NamesStays(s, g, e, n, h, t);
        assert t in s.open[h] && !Names(s, n, h, t);
      }
    }
  }

  lemma OnceStep(s: State, act: Action)
    requires Enabled(s, act) && Once(s)
    ensures Once(Next(s, act))
  {
    if act.Play? {
      PlayOnce(s, act.g, act.t, act.elo);
    } else if act.Run? && s.tasks[act.i].AtGateway? {
      EventOnce(s, act.i);
    } else {
      OtherOnce(s, act);
    }
  }

  lemma OtherTaskUntouched(s: State, k: Task)
    requires Ready(s, k) && !k.AtGateway?
    ensures var s' := RunTask(s, k).0;
            s'.open == s.open && s'.processed == s.processed && s'.answers == s.answers && s'.born == s.born
  {
  }

  lemma OtherUntouched(s: State, act: Action)
    requires Enabled(s, act) && !act.Play? && !(act.Run? && s.tasks[act.i].AtGateway?)
    ensures var s' := Next(s, act);
            s'.open == s.open && s'.processed == s.processed && s'.answers == s.answers
            && s.born.Keys <= s'.born.Keys
  {
    if act.Run? { OtherTaskUntouched(s, s.tasks[act.i]); }
  }

  lemma OtherOnce(s: State, act: Action)
    requires Enabled(s, act) && Once(s) && !act.Play? && !(act.Run? && s.tasks[act.i].AtGateway?)
    ensures Once(Next(s, act))
  {
    var s' := Next(s, act);
    ScopedStep(s, act);
    OtherUntouched(s, act);
    assert forall n, g, t :: 0 <= n ==> Names(s', n, g, t) == Names(s, n, g, t);
    forall x | x in s'.answers ensures ByFirst(s', x) { assert ByFirst(s, x); }
  }

  lemma {:induction false} OnceRun(s: State, acts: seq<Action>)
    requires Once(s) && ValidRun(s, acts)
    ensures Once(After(s, acts))
    decreases |acts|
  {
    if acts != [] {
      OnceStep(s, acts[0]);
      OnceRun(Next(s, acts[0]), acts[1..]);
    }
  }

  /** Over all runs: no ticket is answered twice, an answered ticket is open nowhere, and the answer
      comes from the first event about the ticket that its gateway processed. */
  lemma AnsweredAtMostOnce(s: State, acts: seq<Action>)
    requires Init(s) && ValidRun(s, acts)
    ensures var s' := After(s, acts);
      && (forall i, j :: 0 <= i < j < |s'.answers| ==> s'.answers[i].t != s'.answers[j].t)
      && (forall x :: x in s'.answers ==> ByFirst(s', x))
  {
    OnceRun(s, acts);
  }

  // ---- every request is answered or still open ----

  ghost predicate OpenSomewhere(s: State, t: Ticket) { exists g :: 0 <= g < |s.open| && t in s.open[g] }

  ghost predicate HasAnswer(s: State, t: Ticket) { exists i :: 0 <= i < |s.answers| && s.answers[i].t == t }

  /** No /play ticket leaves its gateway's table without a response. */
  ghost predicate Accounted(s: State) {
    forall t :: t in s.born && t !in s.shardTickets ==> OpenSomewhere(s, t) || HasAnswer(s, t)
  }

  lemma AnsweredWhenDropped(s: State, g: nat, e: Event, t: Ticket)
    requires g < |s.open| && t in s.open[g] && t in Mentions(e)
    ensures HasAnswer(AtGatewayStep(s, g, e), t)
  {
    var answers := AtGatewayStep(s, g, e).answers;
    var n := |s.answers|;
    match e
    case Timeout(_) => assert answers[n].t == t;
    case Assigned(a, _, _, _) => assert answers[if a == t || a !in s.open[g] then n else n + 1].t == t;
  }

  lemma HasAnswerStays(s: State, g: nat, e: Event, t: Ticket)
    requires g < |s.open| && HasAnswer(s, t)
    ensures HasAnswer(AtGatewayStep(s, g, e), t)
  {
    var i :| 0 <= i < |s.answers| && s.answers[i].t == t;
    assert AtGatewayStep(s, g, e).answers[i].t == t;
  }

  lemma AccountedAtGateway(s: State, g: nat, e: Event, t: Ticket)
    requires g < |s.open| && (OpenSomewhere(s, t) || HasAnswer(s, t))
    ensures OpenSomewhere(AtGatewayStep(s, g, e), t) || HasAnswer(AtGatewayStep(s, g, e), t)
  {
    if HasAnswer(s, t) {
      HasAnswerStays(s, g, e, t);
    } else {
      var h :| 0 <= h < |s.open| && t in s.open[h];
      if h == g && t in Mentions(e) {
        AnsweredWhenDropped(s, g, e, t);
      } else {
        assert t in AtGatewayStep(s, g, e).open[h];
      }
    }
  }

  lemma OpenAfterPlay(s: State, g: nat, t: Ticket, elo: int, u: Ticket)
    requires Enabled(s, Play(g, t, elo)) && (u == t || OpenSomewhere(s, u))
    ensures OpenSomewhere(Next(s, Play(g, t, elo)), u)
  {
    var s' := Next(s, Play(g, t, elo));
    if u == t {
      assert t in s'.open[g];
    } else {
      var h :| 0 <= h < |s.open| && u in s.open[h];
      assert u in s'.open[h];
    }
  }

  lemma AccountedStep(s: State, act: Action)
    requires Enabled(s, act) && Accounted(s)
    ensures Accounted(Next(s, act))
  {
    var s' := Next(s, act);
    if act.Play? {
      forall u | u in s'.born && u !in s'.shardTickets ensures OpenSomewhere(s', u) || HasAnswer(s', u) {
        if u == act.t || OpenSomewhere(s, u) { OpenAfterPlay(s, act.g, act.t, act.elo, u); }
      }
    } else if act.Run? && s.tasks[act.i].AtGateway? {
      var (g, e) := (s.tasks[act.i].g, s.tasks[act.i].e);
      forall u | u in s'.born && u !in s'.shardTickets ensures OpenSomewhere(s', u) || HasAnswer(s', u) {
        AccountedAtGateway(s, g, e, u);
      }
    } else {
      OtherUntouched(s, act);
      OtherBorn(s, act);
    }
  }

  lemma OtherBorn(s: State, act: Action)
    requires Enabled(s, act) && !act.Play?
    ensures Next(s, act).born.Keys - Next(s, act).shardTickets <= s.born.Keys - s.shardTickets
  {
    if act.Run? { TaskKeeps(s, s.tasks[act.i]); }
  }

  ghost predicate AnsweredExactlyOnce(s: State, t: Ticket) {
    exists i :: 0 <= i < |s.answers| && s.answers[i].t == t
      && forall j :: 0 <= j < |s.answers| && s.answers[j].t == t ==> j == i
  }

  lemma {:induction false} AccountedRun(s: State, acts: seq<Action>)
    requires Accounted(s) && ValidRun(s, acts)
    ensures Accounted(After(s, acts))
    decreases |acts|
  {
    if acts != [] {
      AccountedStep(s, acts[0]);
      AccountedRun(Next(s, acts[0]), acts[1..]);
    }
  }

  /** A /play ticket is open nowhere exactly when it has been answered, and then exactly once. */
  lemma OpenOrAnsweredOnce(s: State, t: Ticket)
    requires Once(s) && Accounted(s) && t in s.born && t !in s.shardTickets
    ensures !OpenSomewhere(s, t) <==> AnsweredExactlyOnce(s, t)
  {
    if HasAnswer(s, t) {
      var i :| 0 <= i < |s.answers| && s.answers[i].t == t;
      assert ByFirst(s, s.answers[i]);
      assert forall j :: 0 <= j < |s.answers| && s.answers[j].t == t ==> j == i;
    }
  }

  /** Over all runs: every /play request ever made is still open, or has been sent exactly one response. */
  lemma EveryRequestOpenOrAnsweredOnce(s: State, acts: seq<Action>, t: Ticket)
    requires Init(s) && ValidRun(s, acts)
    requires t in After(s, acts).born && t !in After(s, acts).shardTickets
    ensures !OpenSomewhere(After(s, acts), t) <==> AnsweredExactlyOnce(After(s, acts), t)
  {
    OnceRun(s, acts);
    AccountedRun(s, acts);
    OpenOrAnsweredOnce(After(s, acts), t);
  }

  /** Late and spurious events: a gateway that holds none of the named tickets answers nobody and keeps its table. */
  lemma LateEventChangesNothing(s: State, g: nat, e: Event)
    requires g < |s.open|
    ensures s.open[g] !! Mentions(e) <==> AtGatewayStep(s, g, e).answers == s.answers
    ensures s.open[g] !! Mentions(e) ==> AtGatewayStep(s, g, e).open == s.open
  {
    var s' := AtGatewayStep(s, g, e);
    if s.open[g] !! Mentions(e) {
      assert s.open[g] - Mentions(e) == s.open[g];
    } else {
      assert |s'.answers| > |s.answers|;
    }
  }
}
