/** The round-robin choice both gateways make over the live shards, and how fair it is. */
module RoundRobin {
  import opened Options

  /** size_t arithmetic. */
  const SIZE_T: nat := 0x1_0000_0000_0000_0000

  function Bump(next: nat): (bumped: nat)
    ensures bumped == (next + 1) % 0x1_0000_0000_0000_0000
  {
    (next + 1) % SIZE_T
  }

  /** The connection names a live shard. */
  predicate Hinted(live: seq<string>, hint: Option<string>) {
    hint.Some? && hint.value != "" && hint.value in live
  }

  /** The WebSocket gateway's choice for one connection: a live hinted shard, or the next one in turn.
      Returns the counter afterwards. */
  function Choose(live: seq<string>, hint: Option<string>, next: nat): (choice: (string, nat))
    requires |live| > 0
  {
    if Hinted(live, hint) then (hint.value, next)
    else (live[next % |live|], Bump(next))
  }

  /** The shards picked in turn, unhinted connections only, over a history of connections. */
  function TurnPicks(live: seq<string>, hints: seq<Option<string>>, next: nat): seq<string>
    requires |live| > 0
  {
    if hints == [] then []
    else
      var (shard, after) := Choose(live, hints[0], next);
      (if Hinted(live, hints[0]) then [] else [shard]) + TurnPicks(live, hints[1..], after)
  }

  function Unhinted(live: seq<string>, hints: seq<Option<string>>): nat {
    if hints == [] then 0 else (if Hinted(live, hints[0]) then 0 else 1) + Unhinted(live, hints[1..])
  }

  function Count(picks: seq<string>, shard: string): nat {
    if picks == [] then 0 else (if picks[0] == shard then 1 else 0) + Count(picks[1..], shard)
  }

  /** How many of the numbers below m are j modulo n. */
  function Below(m: nat, n: nat, j: nat): nat
    requires j < n
  {
    if m == 0 then 0 else Below(m - 1, n, j) + if (m - 1) % n == j then 1 else 0
  }

  lemma MulAtLeast(d: int, n: nat)
    requires d >= 1
    ensures d * n >= n
  {
    assert (d - 1) * n >= 0;
    assert d * n == (d - 1) * n + n;
  }

  lemma MulDistributes(p: int, d: int, n: int)
    ensures (p + d) * n == p * n + d * n
  {
  }

  lemma DivUnique(x: nat, n: nat, q: nat, r: nat)
    requires n > 0 && r < n && x == q * n + r
    ensures x / n == q && x % n == r
  {
    var p := x / n;
    assert x == p * n + x % n;
    if p > q {
      MulDistributes(q, p - q, n);
      MulAtLeast(p - q, n);
      assert false;
    }
    if p < q {
      MulDistributes(p, q - p, n);
      MulAtLeast(q - p, n);
      assert false;
    }
  }

  lemma ModStep(m: nat, n: nat)
    requires n > 0
    ensures (m + 1) % n == if m % n + 1 == n then 0 else m % n + 1
  {
    var q, r := m / n, m % n;
    assert m == q * n + r;
    if r + 1 == n {
      MulDistributes(q, 1, n);
      DivUnique(m + 1, n, q + 1, 0);
    } else {
      DivUnique(m + 1, n, q, r + 1);
    }
  }

  /** n times the count, exactly. */
  lemma {:induction false} BelowTimes(m: nat, n: nat, j: nat)
    requires j < n
    ensures Below(m, n, j) * n == m - m % n + (if m % n > j then n else 0)
    decreases m
  {
    if m == 0 {
      DivUnique(0, n, 0, 0);
    } else {
      BelowTimes(m - 1, n, j);
      ModStep(m - 1, n);
      MulDistributes(Below(m - 1, n, j), 1, n);
    }
  }

  /** A number whose n-fold is less than n away from k is the floor or the ceiling of k/n. */
  lemma FloorOrCeiling(count: int, k: nat, n: nat)
    requires n > 0 && k - n < count * n < k + n
    ensures k / n <= count <= (k + n - 1) / n
  {
    var p := k / n;
    assert k == p * n + k % n;
    if count < p {
      MulDistributes(count, p - count, n);
      MulAtLeast(p - count, n);
      assert false;
    }
    var u := (k + n - 1) / n;
    assert k + n - 1 == u * n + (k + n - 1) % n;
    if count > u {
      MulDistributes(u, count - u, n);
      MulAtLeast(count - u, n);
      assert false;
    }
  }

  /** Any k consecutive numbers hold floor(k/n) or ceil(k/n) that are j modulo n. */
  lemma Window(c: nat, k: nat, n: nat, j: nat)
    requires j < n
    ensures k / n <= Below(c + k, n, j) - Below(c, n, j) <= (k + n - 1) / n
  {
    var count := Below(c + k, n, j) - Below(c, n, j);
    BelowTimes(c + k, n, j);
    BelowTimes(c, n, j);
    MulDistributes(count, Below(c, n, j), n);
    FloorOrCeiling(count, k, n);
  }

  lemma CountConcat(p: seq<string>, q: seq<string>, shard: string)
    ensures Count(p + q, shard) == Count(p, shard) + Count(q, shard)
  {
    if p == [] {
      assert p + q == q;
    } else {
      assert (p + q)[1..] == p[1..] + q;
      CountConcat(p[1..], q, shard);
    }
  }

  predicate DistinctShards(live: seq<string>) {
    forall i, j :: 0 <= i < j < |live| ==> live[i] != live[j]
  }

  /** The j-th shard's turns since the counter stood at `next`, given how many turns there have been. */
  predicate TurnsAre(live: seq<string>, hints: seq<Option<string>>, next: nat, j: nat)
    requires j < |live|
  {
    Count(TurnPicks(live, hints, next), live[j])
      == Below(next + Unhinted(live, hints), |live|, j) - Below(next, |live|, j)
  }

  lemma OneTurn(live: seq<string>, hints: seq<Option<string>>, next: nat, j: nat)
    requires DistinctShards(live) && j < |live| && hints != [] && !Hinted(live, hints[0])
    requires TurnsAre(live, hints[1..], next + 1, j) && Bump(next) == next + 1
    ensures TurnsAre(live, hints, next, j)
  {
    var shard := live[next % |live|];
    var rest := TurnPicks(live, hints[1..], next + 1);
    assert TurnPicks(live, hints, next) == [shard] + rest;
    CountConcat([shard], rest, live[j]);
    assert [shard][1..] == [];
    assert next + Unhinted(live, hints) == (next + 1) + Unhinted(live, hints[1..]);
  }

  lemma {:induction false} TurnsCount(live: seq<string>, hints: seq<Option<string>>, next: nat, j: nat)
    requires DistinctShards(live) && j < |live|
    requires next + Unhinted(live, hints) < SIZE_T
    ensures TurnsAre(live, hints, next, j)
    decreases |hints|
  {
    if hints != [] {
      if Hinted(live, hints[0]) {
        TurnsCount(live, hints[1..], next, j);
        assert TurnPicks(live, hints, next) == TurnPicks(live, hints[1..], next);
      } else {
        TurnsCount(live, hints[1..], next + 1, j);
        OneTurn(live, hints, next, j);
      }
    }
  }

  /** While the live shards stay the same and the counter does not wrap, the k connections without a usable
      hint are spread as evenly as possible, however hinted connections are interleaved with them. */
  lemma Fair(live: seq<string>, hints: seq<Option<string>>, next: nat, shard: string)
    requires |live| > 0 && DistinctShards(live) && shard in live
    requires next + Unhinted(live, hints) < SIZE_T
    ensures var k := Unhinted(live, hints);
            k / |live| <= Count(TurnPicks(live, hints, next), shard) <= (k + |live| - 1) / |live|
  {
    var j :| 0 <= j < |live| && live[j] == shard;
    TurnsCount(live, hints, next, j);
    Window(next, Unhinted(live, hints), |live|, j);
  }
}
