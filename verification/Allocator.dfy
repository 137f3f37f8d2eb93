/** One allocator replica: shard load from heartbeats, the least-loaded choice, and the rooms it names. */
module Allocator {
  import opened Options
  import opened Messages

  /** The largest long long: the load `best` starts from. */
  const MAX_COUNT: int := 0x7FFF_FFFF_FFFF_FFFF

  type Count = n: int | -0x8000_0000_0000_0000 <= n <= MAX_COUNT

  datatype Heartbeat = Heartbeat(shard: string, roomCount: Count)

  /** What each shard last reported in a history of heartbeats. */
  ghost predicate LastReport(history: seq<Heartbeat>, shard: string, load: Count) {
    exists i :: 0 <= i < |history| && history[i] == Heartbeat(shard, load)
      && forall j :: i < j < |history| ==> history[j].shard != shard
  }

  /** Some shard has reported a load below the maximum. */
  ghost predicate Choosable(load: map<string, Count>) { exists s :: s in load && load[s] < MAX_COUNT }

  /** A right answer for pickLeastLoadedShard: a shard of least load, or nothing ("") when every load is at the maximum. */
  ghost predicate LeastLoaded(load: map<string, Count>, chosen: string) {
    if Choosable(load)
    then chosen in load && forall s :: s in load ==> load[chosen] <= load[s]
    else chosen == ""
  }

  datatype AllocateReply = NoReply | Refused(message: string) | Success

  /** matchmaking.assigned, with the roles, names and ratings it carries. */
  datatype RoomAssignment = RoomAssignment(white: Candidate, black: Candidate, room: string, shard: string)

  /** What gateways and matchmakers read of it. */
  function EventOf(x: RoomAssignment): Event { Assigned(x.white.ticketId, x.black.ticketId, x.room, x.shard) }

  datatype AllocationAnswer = NoShard | Unavailable | PassedThrough(message: string) | Created(room: string, shard: string)

  class Allocator {
    var shardLoad: map<string, Count>
    var allocations: nat
    ghost var history: seq<Heartbeat>

    /** shardLoad holds exactly the last report of every shard ever heard from. */
    ghost predicate Valid() reads this {
      && (forall s :: s in shardLoad ==> LastReport(history, s, shardLoad[s]))
      && (forall i :: 0 <= i < |history| ==> history[i].shard in shardLoad)
    }

    constructor ()
      ensures Valid() && history == [] && allocations == 0
    {
      shardLoad, allocations, history := map[], 0, [];
    }

    method OnHeartbeat(shard: string, roomCount: Count)
      requires Valid()
      modifies this`shardLoad, this`history
      ensures Valid() && history == old(history) + [Heartbeat(shard, roomCount)]
      ensures shardLoad == old(shardLoad)[shard := roomCount]
    {
      shardLoad := shardLoad[shard := roomCount];
      history := history + [Heartbeat(shard, roomCount)];
      forall s | s in shardLoad ensures LastReport(history, s, shardLoad[s]) {
        if s == shard {
          assert history[|history| - 1] == Heartbeat(s, shardLoad[s]);
        } else {
          var i :| 0 <= i < |old(history)| && old(history)[i] == Heartbeat(s, shardLoad[s])
            && forall j :: i < j < |old(history)| ==> old(history)[j].shard != s;
          assert history[i] == Heartbeat(s, shardLoad[s]);
        }
      }
    }

    /** Scans the hash map in whatever order it iterates. */
    method PickLeastLoadedShard() returns (chosen: string)
      ensures LeastLoaded(shardLoad, chosen)
    {
      chosen := "";
      var best := MAX_COUNT;
      var remaining := shardLoad.Keys;
      while remaining != {}
        invariant remaining <= shardLoad.Keys
        invariant forall s :: s in shardLoad && s !in remaining ==> best <= shardLoad[s]
        invariant if best < MAX_COUNT then chosen in shardLoad && shardLoad[chosen] == best
                  else chosen == "" && best == MAX_COUNT
        decreases |remaining|
      {
        var shard :| shard in remaining;
        remaining := remaining - {shard};
        if shardLoad[shard] < best {
          best := shardLoad[shard];
          chosen := shard;
        }
      }
      if s :| s in shardLoad && shardLoad[s] < MAX_COUNT {
        assert best <= shardLoad[s];
      }
    }

    /** A matched pair: dropped when no shard can be chosen or the shard fails, otherwise assigned to the
        freshly named room on a least-loaded shard, the player who waited first as White. */
    method OnMatched(a: Candidate, b: Candidate, next: nat, reply: AllocateReply)
      returns (minted: Option<string>, published: Option<RoomAssignment>)
      modifies this`allocations
      ensures minted.Some? ==> minted.value == RoomName(next) == "match-" + Digits(next)
      ensures minted.None? ==> LeastLoaded(shardLoad, "")
      ensures minted.Some? ==> Choosable(shardLoad)
      ensures published.Some? <==> minted.Some? && reply == Success
      ensures published.Some? ==>
        && published.value == RoomAssignment(a, b, RoomName(next), published.value.shard)
        && LeastLoaded(shardLoad, published.value.shard) && published.value.shard != ""
      ensures allocations == old(allocations) + if published.Some? then 1 else 0
    {
      var chosenShard := PickLeastLoadedShard();
      if chosenShard == "" {
        return None, None;
      }
      var roomName := RoomName(next);
      if reply != Success {
        return Some(roomName), None;
      }
      allocations := allocations + 1;
      return Some(roomName), Some(RoomAssignment(a, b, roomName, chosenShard));
    }

    /** POST /rooms: the room keeps the name the user typed. */
    method OnAllocationRequest(roomName: string, reply: AllocateReply) returns (answer: AllocationAnswer)
      modifies this`allocations
      ensures answer == NoShard ==> LeastLoaded(shardLoad, "")
      ensures answer != NoShard ==> Choosable(shardLoad)
      ensures answer.Created? <==> answer != NoShard && reply == Success
      ensures answer.Created? ==>
        answer.room == roomName && LeastLoaded(shardLoad, answer.shard) && answer.shard != ""
      ensures answer.PassedThrough? ==> reply == Refused(answer.message)
      ensures answer.Unavailable? ==> reply == NoReply
      ensures allocations == old(allocations) + if answer.Created? then 1 else 0
    {
      var chosenShard := PickLeastLoadedShard();
      if chosenShard == "" {
        return NoShard;
      }
      match reply {
        case NoReply => return Unavailable;
        case Refused(message) => return PassedThrough(message);
        case Success =>
          allocations := allocations + 1;
          return Created(roomName, chosenShard);
      }
    }
  }

  /** With named shards only, nothing is chosen exactly when no shard has reported a load below the maximum. */
  lemma NothingChosenExactly(load: map<string, Count>, chosen: string)
    requires LeastLoaded(load, chosen) && "" !in load
    ensures chosen == "" <==> forall s :: s in load ==> load[s] == 0x7FFF_FFFF_FFFF_FFFF
  {
    if chosen == "" {
      forall s | s in load ensures load[s] == MAX_COUNT {
        if load[s] < MAX_COUNT { assert false; }
      }
    }
  }

  // ---- room names ----

  function Digits(n: nat): (r: string)
    ensures |r| > 0
  {
    if n < 10 then [('0' as int + n) as char] else Digits(n / 10) + [('0' as int + n % 10) as char]
  }

  /** The number that decimal digits stand for. */
  function Value(s: string): int {
    if s == [] then 0 else Value(s[..|s| - 1]) * 10 + (s[|s| - 1] as int - '0' as int)
  }

  /** Digits(n) is how n is written in base ten: decimal digits, with value n, and no zero in front. */
  lemma {:induction false} DigitsValue(n: nat)
    ensures Value(Digits(n)) == n
    ensures forall i :: 0 <= i < |Digits(n)| ==> '0' <= Digits(n)[i] <= '9'
    ensures n > 0 ==> Digits(n)[0] != '0'
  {
    var d := Digits(n);
    if n < 10 {
      assert d[..0] == [];
    } else {
      DigitsValue(n / 10);
      assert d[..|d| - 1] == Digits(n / 10);
    }
  }

  function RoomName(n: nat): string { "match-" + Digits(n) }

  lemma {:induction false} DigitsDistinct(m: nat, n: nat)
    requires Digits(m) == Digits(n)
    ensures m == n
  {
    var d, e := Digits(m), Digits(n);
    assert d[|d| - 1] == ('0' as int + m % 10) as char;
    assert e[|e| - 1] == ('0' as int + n % 10) as char;
    assert ('0' as int + m % 10) == d[|d| - 1] as int == ('0' as int + n % 10);
    if m >= 10 && n >= 10 {
      assert d[..|d| - 1] == Digits(m / 10) && e[..|e| - 1] == Digits(n / 10);
      DigitsDistinct(m / 10, n / 10);
    }
  }

  /** Different counter values name different rooms. */
  lemma RoomNamesDistinct(m: nat, n: nat)
    requires m != n
    ensures RoomName(m) != RoomName(n)
  {
    if RoomName(m) == RoomName(n) {
      assert RoomName(m)[6..] == Digits(m) && RoomName(n)[6..] == Digits(n);
      DigitsDistinct(m, n);
    }
  }
}
