/** One matchmaker replica: its handlers and timer threads over the shared waiting pool. */
module Matchmaker {
  import opened Options
  import opened Messages

  const SEARCH_TIMEOUT_SECONDS: nat := 60
  const ASSIGNMENT_TIMEOUT_SECONDS: nat := 10
  const ELO_RANGE: nat := 100

  predicate InRange(elo: int, other: int) { elo - ELO_RANGE <= other <= elo + ELO_RANGE }

  /** Ticket a waits in range: findMatch may answer it for a pool of ticket -> elo. */
  predicate MayFind(pool: map<Ticket, int>, elo: int, a: Ticket) { a in pool && InRange(elo, pool[a]) }

  /** The watchdog's turn for one ticket: the pending set it leaves and the tickets it times out. */
  function TimeOutOne(pending: set<Ticket>, t: Ticket): (set<Ticket>, seq<Ticket>) {
    if t in pending then (pending - {t}, [t]) else (pending, [])
  }

  /** The watchdog's turns for a list of tickets, in order. */
  function TimeOutAll(pending: set<Ticket>, ts: seq<Ticket>): (set<Ticket>, seq<Ticket>)
    decreases |ts|
  {
    if ts == [] then (pending, [])
    else
      var (before, timedOut) := TimeOutAll(pending, ts[..|ts| - 1]);
      var (after, more) := TimeOutOne(before, ts[|ts| - 1]);
      (after, timedOut + more)
  }

  /** Whatever the list, nothing in it is pending afterwards, and exactly what was pending is timed out, once. */
  lemma {:induction false} TimeOutAllMeans(pending: set<Ticket>, ts: seq<Ticket>)
    ensures var (after, timedOut) := TimeOutAll(pending, ts);
      && after == pending - (set t | t in ts)
      && (forall t :: t in timedOut <==> t in ts && t in pending)
      && (forall i, j :: 0 <= i < j < |timedOut| ==> timedOut[i] != timedOut[j])
    decreases |ts|
  {
    if ts != [] {
      var front := ts[..|ts| - 1];
      TimeOutAllMeans(pending, front);
      assert (set t | t in ts) == (set t | t in front) + {ts[|ts| - 1]} by { assert ts == front + [ts[|ts| - 1]]; }
    }
  }

  lemma TimeOutLast(pending: set<Ticket>, ts: seq<Ticket>, t: Ticket)
    ensures var (before, timedOut) := TimeOutAll(pending, ts);
            var (after, more) := TimeOutOne(before, t);
            TimeOutAll(pending, ts + [t]) == (after, timedOut + more)
  {
    var all := ts + [t];
    assert all[..|all| - 1] == ts && all[|all| - 1] == t;
  }

  lemma TimeOutFirst(pending: set<Ticket>, a: Ticket)
    ensures TimeOutAll(pending, [a]) == TimeOutOne(pending, a)
  {
    var none: seq<Ticket> := [];
    TimeOutLast(pending, none, a);
    assert none + [a] == [a];
    assert TimeOutAll(pending, none) == (pending, none);
    assert none + TimeOutOne(pending, a).1 == TimeOutOne(pending, a).1;
  }

  /** A pair watched as a whole is timed out as a whole, first player first; a pair not watched, not at all. */
  lemma PairTimesOutTogether(pending: set<Ticket>, a: Ticket, b: Ticket)
    requires a != b && (a in pending <==> b in pending)
    ensures TimeOutAll(pending, [a, b]).0 == pending - {a, b}
    ensures TimeOutAll(pending, [a, b]).1 == if a in pending then [a, b] else []
  {
    TimeOutFirst(pending, a);
    TimeOutLast(pending, [a], b);
    assert [a] + [b] == [a, b];
  }

  /** A search timer's turn: the pool it leaves and the tickets it times out. */
  function TimeOutSearch(pool: map<Ticket, int>, t: Ticket): (map<Ticket, int>, seq<Ticket>) {
    (pool - {t}, if t in pool then [t] else [])
  }

  /** What pairing b with a ticket a that waits in range does to the pool and to what a replica watches. */
  predicate PairsUp(pool: map<Ticket, int>, pending: set<Ticket>, elo: int, a: Ticket, b: Ticket,
                    pool': map<Ticket, int>, pending': set<Ticket>)
  {
    MayFind(pool, elo, a) && pool' == pool - {a} && pending' == pending + {a, b}
  }

  // ---- the shared pool ----

  datatype Waiting = Waiting(username: string, elo: int)

  /** The order of members with equal ratings in a sorted set. */
  predicate LexLeq(a: Ticket, b: Ticket) {
    a == [] || (b != [] && (a[0] < b[0] || (a[0] == b[0] && LexLeq(a[1..], b[1..]))))
  }

  predicate Before(scores: map<Ticket, int>, t: Ticket, u: Ticket)
    requires t in scores && u in scores
  {
    scores[t] < scores[u] || (scores[t] == scores[u] && LexLeq(t, u))
  }

  /** t comes first among the tickets in range. */
  predicate IsFirst(scores: map<Ticket, int>, elo: int, t: Ticket) {
    MayFind(scores, elo, t) && forall u :: u in scores && MayFind(scores, elo, u) ==> Before(scores, t, u)
  }

  lemma {:induction false} LexTotal(a: Ticket, b: Ticket)
    ensures LexLeq(a, b) || LexLeq(b, a)
    ensures LexLeq(a, b) && LexLeq(b, a) ==> a == b
  {
    if a != [] && b != [] && a[0] == b[0] {
      LexTotal(a[1..], b[1..]);
      assert a == [a[0]] + a[1..] && b == [b[0]] + b[1..];
    }
  }

  lemma {:induction false} LexTransitive(a: Ticket, b: Ticket, c: Ticket)
    requires LexLeq(a, b) && LexLeq(b, c)
    ensures LexLeq(a, c)
  {
    if a != [] && a[0] == b[0] == c[0] { LexTransitive(a[1..], b[1..], c[1..]); }
  }

  lemma BeforeTransitive(scores: map<Ticket, int>, t: Ticket, u: Ticket, v: Ticket)
    requires t in scores && u in scores && v in scores && Before(scores, t, u) && Before(scores, u, v)
    ensures Before(scores, t, v)
  {
    if scores[t] == scores[u] == scores[v] { LexTransitive(t, u, v); }
  }

  lemma {:induction false} FirstOf(scores: map<Ticket, int>, some: set<Ticket>) returns (t: Ticket)
    requires some != {} && some <= scores.Keys
    ensures t in some && forall u :: u in some ==> Before(scores, t, u)
    decreases |some|
  {
    var x :| x in some;
    LexTotal(x, x);
    t := x;
    if some != {x} {
      var y := FirstOf(scores, some - {x});
      LexTotal(x, y);
      t := if Before(scores, x, y) then x else y;
      forall u | u in some ensures Before(scores, t, u) {
        if u != x && t == x { BeforeTransitive(scores, x, y, u); }
      }
    }
  }

  lemma FirstExists(scores: map<Ticket, int>, elo: int)
    requires exists t :: MayFind(scores, elo, t)
    ensures exists t :: IsFirst(scores, elo, t)
  {
    var some := set t | t in scores && MayFind(scores, elo, t);
    var x :| MayFind(scores, elo, x);
    assert x in some;
    var t := FirstOf(scores, some);
    assert IsFirst(scores, elo, t);
  }

  /** The ticket that findMatch's script takes out of the pool, if there is one in range. */
  ghost function First(scores: map<Ticket, int>, elo: int): (first: Option<Ticket>)
    ensures first.Some? ==> IsFirst(scores, elo, first.value)
    ensures first.None? ==> forall t :: !MayFind(scores, elo, t)
  {
    if exists t :: MayFind(scores, elo, t) then
      FirstExists(scores, elo);
      var t :| IsFirst(scores, elo, t);
      Some(t)
    else None
  }

  lemma FirstIs(scores: map<Ticket, int>, elo: int, t: Ticket)
    requires IsFirst(scores, elo, t)
    ensures First(scores, elo) == Some(t)
  {
    LexTotal(t, First(scores, elo).value);
  }

  lemma OnlyOneIsFirst(scores: map<Ticket, int>, elo: int, t: Ticket)
    requires forall u :: !MayFind(scores, elo, u)
    ensures IsFirst(scores[t := elo], elo, t)
  {
    LexTotal(t, t);
    var after := scores[t := elo];
    forall u | u in after && MayFind(after, elo, u) ensures u == t {
      assert u == t || MayFind(scores, elo, u);
    }
  }

  /** Name a comes before name b: at the first position where they differ a has the smaller character, or a ends there. */
  predicate NameBefore(a: Ticket, b: Ticket) {
    exists i :: 0 <= i <= |a| && i <= |b| && a[..i] == b[..i] && i < |b| && (i == |a| || a[i] < b[i])
  }

  /** The same first character in front of both names changes nothing. */
  lemma NameBeforeDeeper(x: char, c: Ticket, d: Ticket)
    ensures NameBefore(c, d) ==> NameBefore([x] + c, [x] + d)
  {
    var a, b := [x] + c, [x] + d;
    if i :| 0 <= i <= |c| && i <= |d| && c[..i] == d[..i] && i < |d| && (i == |c| || c[i] < d[i]) {
      assert a[..i + 1] == [x] + c[..i] && b[..i + 1] == [x] + d[..i];
      assert NameBefore(a, b);
    }
  }

  lemma NameBeforeShallower(x: char, c: Ticket, d: Ticket)
    ensures NameBefore([x] + c, [x] + d) ==> NameBefore(c, d)
  {
    var a, b := [x] + c, [x] + d;
    if i :| 0 <= i <= |a| && i <= |b| && a[..i] == b[..i] && i < |b| && (i == |a| || a[i] < b[i]) {
      assert i > 0;
      assert c[..i - 1] == a[..i][1..] && d[..i - 1] == b[..i][1..];
      assert NameBefore(c, d);
    }
  }

  lemma FirstCharacterDecides(a: Ticket, b: Ticket)
    requires a != [] && b != [] && a[0] != b[0]
    ensures NameBefore(a, b) <==> a[0] < b[0]
  {
    assert a[..0] == b[..0];
    forall i | 0 < i <= |a| && i <= |b| ensures a[..i] != b[..i] { assert a[..i][0] != b[..i][0]; }
  }

  lemma {:induction false} NameOrder(a: Ticket, b: Ticket)
    requires a != b
    ensures LexLeq(a, b) <==> NameBefore(a, b)
  {
    if a == [] {
      assert a[..0] == b[..0];
    } else if b != [] {
      if a[0] == b[0] {
        assert a == [a[0]] + a[1..] && b == [a[0]] + b[1..];
        NameOrder(a[1..], b[1..]);
        NameBeforeDeeper(a[0], a[1..], b[1..]);
        NameBeforeShallower(a[0], a[1..], b[1..]);
      } else {
        FirstCharacterDecides(a, b);
      }
    }
  }

  /** Waiting ticket a is within 100 points of the rating, and every other that is has a higher rating, or the same
      and a later name. */
  predicate LowestWithin100(scores: map<Ticket, int>, elo: int, a: Ticket) {
    && a in scores && elo - 100 <= scores[a] <= elo + 100
    && forall u :: u in scores && u != a && elo - 100 <= scores[u] <= elo + 100 ==>
         scores[a] < scores[u] || (scores[a] == scores[u] && NameBefore(a, u))
  }

  lemma FirstIsLowest(scores: map<Ticket, int>, elo: int, a: Ticket)
    ensures IsFirst(scores, elo, a) <==> LowestWithin100(scores, elo, a)
  {
    if a in scores {
      forall u | u in scores && u != a ensures Before(scores, a, u) <==>
        scores[a] < scores[u] || (scores[a] == scores[u] && NameBefore(a, u))
      { NameOrder(a, u); }
      LexTotal(a, a);
    }
  }

  /** What findMatch returns: the first ticket in range, if its record is there. */
  ghost function Found(scores: map<Ticket, int>, info: map<Ticket, Waiting>, elo: int): Option<Candidate> {
    match First(scores, elo)
    case None => None
    case Some(t) => if t in info then Some(Candidate(t, info[t].username, info[t].elo)) else None
  }

  /** What is left of a map of the pool once the first ticket in range has been taken out. */
  ghost function Rest<V>(m: map<Ticket, V>, first: Option<Ticket>): map<Ticket, V> {
    if first.Some? then m - {first.value} else m
  }

  /** findMatch returns nobody only when no waiting ticket qualifies, if and only if the first that qualifies, when
      there is one, has its record. */
  lemma NobodyMeansNobodyExactly(scores: map<Ticket, int>, info: map<Ticket, Waiting>, elo: int)
    ensures (Found(scores, info, elo).None? ==> forall t :: !MayFind(scores, elo, t))
       <==> (forall t :: IsFirst(scores, elo, t) ==> t in info)
  {
    forall t | IsFirst(scores, elo, t) ensures First(scores, elo) == Some(t) { FirstIs(scores, elo, t); }
  }

  /** The waiting pool every replica shares: a sorted set of ratings and a record for each ticket. Adding and
      removing are two commands each, finding a match is one. */
  class MatchPool {
    var scores: map<Ticket, int>
    var info: map<Ticket, Waiting>

    /** Every waiting ticket has its record. */
    ghost predicate Consistent() reads this { forall t :: t in scores ==> t in info && info[t].elo == scores[t] }

    constructor ()
      ensures Consistent() && scores == map[] && info == map[]
    {
      scores, info := map[], map[];
    }

    method PutInfo(t: Ticket, username: string, elo: int)
      modifies this`info
      ensures info == old(info)[t := Waiting(username, elo)]
    {
      info := info[t := Waiting(username, elo)];
    }

    method PutScore(t: Ticket, elo: int)
      modifies this`scores
      ensures scores == old(scores)[t := elo]
    {
      scores := scores[t := elo];
    }

    /** The record first, so that findMatch never meets a ticket that has none yet. */
    method AddToPool(t: Ticket, username: string, elo: int)
      modifies this
      ensures scores == old(scores)[t := elo] && info == old(info)[t := Waiting(username, elo)]
      ensures old(Consistent()) ==> Consistent()
    {
      PutInfo(t, username, elo);
      PutScore(t, elo);
    }

    /** Idempotent: removing a ticket that is not there changes nothing. */
    method Remove(t: Ticket)
      modifies this
      ensures scores == old(scores) - {t} && info == old(info) - {t}
      ensures old(Consistent()) ==> Consistent()
    {
      scores := scores - {t};
      info := info - {t};
    }

    method IsWaiting(t: Ticket) returns (waiting: bool)
      ensures waiting <==> t in scores
    {
      waiting := t in scores;
    }

    /** One script: takes the first ticket in range out of the pool, and returns it unless its record is missing. */
    method FindMatch(elo: int) returns (found: Option<Candidate>)
      modifies this
      ensures found == Found(old(scores), old(info), elo)
      ensures scores == Rest(old(scores), First(old(scores), elo))
      ensures info == Rest(old(info), First(old(scores), elo))
      ensures old(Consistent()) ==> Consistent() && (found.None? <==> forall t :: !MayFind(old(scores), elo, t))
      ensures (forall u :: u in old(scores) ==> !(elo - 100 <= old(scores)[u] <= elo + 100)) ==>
        found.None? && scores == old(scores)
      ensures scores == old(scores) ==> forall u :: u in old(scores) ==> !(elo - 100 <= old(scores)[u] <= elo + 100)
      ensures forall a :: LowestWithin100(old(scores), elo, a) ==>
        && scores == old(scores) - {a} && info == old(info) - {a}
        && found == if a in old(info) then Some(Candidate(a, old(info)[a].username, old(info)[a].elo)) else None
    {
      forall a | LowestWithin100(scores, elo, a) ensures First(scores, elo) == Some(a) {
        FirstIsLowest(scores, elo, a);
        FirstIs(scores, elo, a);
      }
      found := None;
      if t: Ticket :| t in scores && IsFirst(scores, elo, t) {
        FirstIs(scores, elo, t);
        if t in info {
          found := Some(Candidate(t, info[t].username, info[t].elo));
        }
        scores := scores - {t};
        info := info - {t};
      }
    }

    /** A ticket cancelled between the two commands that add it waits without a record: when a request comes for
        which it is the first in range, the request is told that nobody qualifies, and the ticket is lost. The
        pool as it is when the request comes is returned for reference. */
    method CancelledWhileAdded(t: Ticket, username: string, elo: int)
      returns (found: Option<Candidate>, ghost scoresThen: map<Ticket, int>, ghost infoThen: map<Ticket, Waiting>)
      requires forall u :: !MayFind(scores, elo, u)
      modifies this
      ensures scoresThen == old(scores)[t := elo] && infoThen == old(info) - {t}
      ensures MayFind(scoresThen, elo, t) && IsFirst(scoresThen, elo, t) && t !in infoThen
      ensures found == Found(scoresThen, infoThen, elo) == None
      ensures scores == scoresThen - {t}
    {
      LoseRecord(t, username, elo);
      scoresThen, infoThen := scores, info;
      OnlyOneIsFirst(old(scores), elo, t);
      FirstIs(scores, elo, t);
      found := FindMatch(elo);
    }

    method LoseRecord(t: Ticket, username: string, elo: int)
      modifies this
      ensures scores == old(scores)[t := elo] && info == old(info) - {t}
    {
      PutInfo(t, username, elo);
      Remove(t);
      PutScore(t, elo);
    }
  }

  // ---- the replica ----

  datatype Publication =
    | Matched(a: Candidate, b: Candidate)
    | TimedOut(ticket: Ticket)

  /** The timer thread a request leaves behind. */
  datatype Timer = SearchTimer(t: Ticket) | Watchdog(a: Ticket, b: Ticket)

  function TimeoutsFor(ts: seq<Ticket>): seq<Publication> {
    seq(|ts|, i requires 0 <= i < |ts| => TimedOut(ts[i]))
  }

  class Replica {
    const pool: MatchPool
    var pendingAssignment: set<Ticket>
    var published: seq<Publication>
    var matchesFound: nat
    var assignmentTimeouts: nat

    constructor (pool: MatchPool)
      ensures this.pool == pool
      ensures pendingAssignment == {} && published == [] && matchesFound == 0 && assignmentTimeouts == 0
    {
      this.pool := pool;
      pendingAssignment, published, matchesFound, assignmentTimeouts := {}, [], 0, 0;
    }

    method OnAssigned(ticketA: Ticket, ticketB: Ticket)
      modifies this`pendingAssignment
      ensures pendingAssignment == old(pendingAssignment) - {ticketA, ticketB}
    {
      pendingAssignment := pendingAssignment - {ticketA};
      pendingAssignment := pendingAssignment - {ticketB};
    }

    method WatchForAssignment(ticketA: Ticket, ticketB: Ticket) returns (timer: Timer)
      modifies this`pendingAssignment
      ensures pendingAssignment == old(pendingAssignment) + {ticketA, ticketB}
      ensures timer == Watchdog(ticketA, ticketB)
    {
      pendingAssignment := pendingAssignment + {ticketA};
      pendingAssignment := pendingAssignment + {ticketB};
      timer := Watchdog(ticketA, ticketB);
    }

    /** The watchdog's critical section: every ticket still pending is dropped, counted and timed out, in order. */
    method WatchdogFires(ticketA: Ticket, ticketB: Ticket)
      modifies this`pendingAssignment, this`published, this`assignmentTimeouts
      ensures var (after, timedOut) := TimeOutAll(old(pendingAssignment), [ticketA, ticketB]);
        && pendingAssignment == after
        && published == old(published) + TimeoutsFor(timedOut)
        && assignmentTimeouts == old(assignmentTimeouts) + |timedOut|
      ensures ticketA != ticketB && (ticketA in old(pendingAssignment) <==> ticketB in old(pendingAssignment)) ==>
        published == old(published)
          + if ticketA in old(pendingAssignment) then [TimedOut(ticketA), TimedOut(ticketB)] else []
    {
      var tickets := [ticketA, ticketB];
      ghost var timedOut: seq<Ticket> := [];
      for i := 0 to |tickets|
        invariant (pendingAssignment, timedOut) == TimeOutAll(old(pendingAssignment), tickets[..i])
        invariant published == old(published) + TimeoutsFor(timedOut)
        invariant assignmentTimeouts == old(assignmentTimeouts) + |timedOut|
      {
        var ticketId := tickets[i];
        assert tickets[..i + 1][..i] == tickets[..i];
        if ticketId !in pendingAssignment {
          assert timedOut + [] == timedOut;
          continue;
        }
        pendingAssignment := pendingAssignment - {ticketId};
        assignmentTimeouts := assignmentTimeouts + 1;
        published := published + [TimedOut(ticketId)];
        timedOut := timedOut + [ticketId];
      }
      assert tickets[..2] == tickets;
      if ticketA != ticketB && (ticketA in old(pendingAssignment) <==> ticketB in old(pendingAssignment)) {
        PairTimesOutTogether(old(pendingAssignment), ticketA, ticketB);
      }
    }

    method WaitForMatch(ticketId: Ticket, username: string, elo: int) returns (timer: Timer)
      modifies pool
      ensures pool.scores == old(pool.scores)[ticketId := elo]
      ensures pool.info == old(pool.info)[ticketId := Waiting(username, elo)]
      ensures old(pool.Consistent()) ==> pool.Consistent()
      ensures timer == SearchTimer(ticketId)
    {
      pool.AddToPool(ticketId, username, elo);
      timer := SearchTimer(ticketId);
    }

    /** Either the requester is pooled, when findMatch returned nobody, or somebody in range leaves the pool,
        the pair is published with the one who waited first, and both tickets are watched. */
    method OnRequest(ticketId: Ticket, username: string, elo: int) returns (timer: Timer)
      modifies this`pendingAssignment, this`published, this`matchesFound, pool
      ensures timer == SearchTimer(ticketId) || (timer.Watchdog? && timer.b == ticketId)
      ensures old(pool.Consistent()) ==>
        && pool.Consistent()
        && (timer.SearchTimer? <==>
              forall u :: u in old(pool.scores) ==> !(elo - 100 <= old(pool.scores)[u] <= elo + 100))
      ensures timer.SearchTimer? <==> Found(old(pool.scores), old(pool.info), elo).None?
      ensures timer.SearchTimer? ==>
        var first := First(old(pool.scores), elo);
        && pool.scores == Rest(old(pool.scores), first)[ticketId := elo]
        && pool.info == Rest(old(pool.info), first)[ticketId := Waiting(username, elo)]
        && pendingAssignment == old(pendingAssignment) && published == old(published)
        && matchesFound == old(matchesFound)
      ensures timer.Watchdog? ==>
        && First(old(pool.scores), elo) == Some(timer.a) && LowestWithin100(old(pool.scores), elo, timer.a)
        && PairsUp(old(pool.scores), old(pendingAssignment), elo, timer.a, ticketId, pool.scores, pendingAssignment)
        && timer.a in old(pool.info) && pool.info == old(pool.info) - {timer.a}
        && var opponent := old(pool.info)[timer.a];
        && published == old(published)
             + [Matched(Candidate(timer.a, opponent.username, opponent.elo), Candidate(ticketId, username, elo))]
        && matchesFound == old(matchesFound) + 1
    {
      var opponent := pool.FindMatch(elo);
      assert forall u :: u in old(pool.scores) ==>
        (MayFind(old(pool.scores), elo, u) <==> elo - 100 <= old(pool.scores)[u] <= elo + 100);
      if opponent.Some? {
        FirstIsLowest(old(pool.scores), elo, opponent.value.ticketId);
        matchesFound := matchesFound + 1;
        published := published + [Matched(opponent.value, Candidate(ticketId, username, elo))];
        timer := WatchForAssignment(opponent.value.ticketId, ticketId);
        return;
      }
      timer := WaitForMatch(ticketId, username, elo);
    }

    /** Undisturbed, a search timer removes and times out exactly the ticket that is still waiting. */
    method SearchTimerFires(ticketId: Ticket)
      modifies this`published, pool
      ensures var (waiting, timedOut) := TimeOutSearch(old(pool.scores), ticketId);
        pool.scores == waiting && published == old(published) + TimeoutsFor(timedOut)
      ensures pool.info == if ticketId in old(pool.scores) then old(pool.info) - {ticketId} else old(pool.info)
    {
      var waiting := pool.IsWaiting(ticketId);
      if !waiting {
        assert pool.scores - {ticketId} == pool.scores;
        return;
      }
      pool.Remove(ticketId);
      published := published + [TimedOut(ticketId)];
    }

    method OnCancel(ticketId: Ticket)
      modifies pool
      ensures pool.scores == old(pool.scores) - {ticketId} && pool.info == old(pool.info) - {ticketId}
    {
      pool.Remove(ticketId);
    }
  }
}
