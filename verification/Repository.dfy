/** The order store as one flat map, which is all its users rely on. */
module Store {
  import opened Wrappers
  import opened Orders

  datatype RepoError = NotFound | VersionConflict | Duplicate

  type Book = map<string, Snapshot>

  /** Save refuses an id already present. */
  function SaveError(orders: Book, s: Snapshot): Option<RepoError> {
    if s.id in orders then Some(Duplicate) else None
  }

  /** Update insists on the version the caller read. */
  function UpdateError(orders: Book, s: Snapshot, expectedVersion: int): Option<RepoError> {
    if s.id !in orders then Some(NotFound)
    else if orders[s.id].version != expectedVersion then Some(VersionConflict)
    else None
  }
}

/** Powers of two and bit masks, for choosing a shard. */
module Masks {
  import opened Int64

  function Pow2(k: nat): (p: nat)
    ensures p > 0
  {
    if k == 0 then 1 else 2 * Pow2(k - 1)
  }

  ghost predicate IsPow2(p: int) {
    exists k: nat :: p == Pow2(k)
  }

  /** Bitwise and, bit by bit. */
  function BitAnd(a: nat, b: nat): nat {
    if a == 0 || b == 0 then 0
    else (if a % 2 == 1 && b % 2 == 1 then 1 else 0) + 2 * BitAnd(a / 2, b / 2)
  }

  lemma {:induction false} MaskSplits(a: nat, k: nat) returns (q: nat)
    ensures a == q * Pow2(k) + BitAnd(a, Pow2(k) - 1)
    ensures 0 <= BitAnd(a, Pow2(k) - 1) < Pow2(k)
  {
    if k == 0 {
      q := a;
    } else if a == 0 {
      q := 0;
    } else {
      var p := Pow2(k - 1);
      q := MaskSplits(a / 2, k - 1);
      assert (2 * p - 1) / 2 == p - 1 && (2 * p - 1) % 2 == 1;
      DoubleFirst(p, q);
      assert q * (2 * p) == (2 * p) * q && q * p == p * q;
    }
  }

  /** Masking with 2^k - 1 keeps the remainder modulo 2^k, so every residue can occur and none is out of range. */
  lemma MaskIsModulo(a: nat, k: nat)
    ensures BitAnd(a, Pow2(k) - 1) == a % Pow2(k)
  {
    hide BitAnd, Pow2;
    var q := MaskSplits(a, k);
    RemainderUnique(a, Pow2(k), q, BitAnd(a, Pow2(k) - 1));
  }

  lemma RemainderUnique(n: int, m: int, q: int, r: int)
    requires m > 0 && n == q * m + r && 0 <= r < m
    ensures n % m == r
  {
    var q' := n / m;
    assert n == q' * m + n % m;
    if q' > q { MultiplesApart(q, q', m); }
    if q' < q { MultiplesApart(q', q, m); }
  }

  /** The value of p after k left shifts of a 64-bit 1. */
  function Shifted(k: nat): int64 {
    if k == 0 then 1 else Wrap(2 * Shifted(k - 1))
  }

  lemma {:induction false} Pow2Add(a: nat, b: nat)
    ensures Pow2(a + b) == Pow2(a) * Pow2(b)
  {
    if a > 0 {
      Pow2Add(a - 1, b);
      DoubleFirst(Pow2(a - 1), Pow2(b));
    }
  }

  lemma DoubleFirst(x: int, y: int)
    ensures (2 * x) * y == 2 * (x * y)
  {}

  lemma SmallPowers()
    ensures Pow2(2) == 4 && Pow2(3) == 8
  {}

  lemma Pow2Of62()
    ensures Pow2(62) == 0x4000_0000_0000_0000
  {
    hide Pow2;
    SmallPowers();
    Pow2Add(3, 3);
    Pow2Add(6, 6);
    Pow2Add(12, 12);
    Pow2Add(24, 24);
    Pow2Add(48, 12);
    Pow2Add(60, 2);
  }

  lemma {:induction false} Pow2Monotone(a: nat, b: nat)
    requires a <= b
    ensures Pow2(a) <= Pow2(b)
  {
    if a < b { Pow2Monotone(a, b - 1); }
  }

  lemma {:induction false} ShiftedValue(k: nat)
    ensures Shifted(k) == if k <= 62 then Pow2(k) else if k == 63 then MIN_INT64 else 0
  {
    Pow2Of62();
    if k <= 62 { Pow2Monotone(k, 62); }
    if k > 0 { ShiftedValue(k - 1); }
    WrapUnique(0x8000_0000_0000_0000, MIN_INT64, 1);
    WrapUnique(2 * MIN_INT64, 0, -1);
  }

  /** The shifting loop can stop at all exactly for requests up to 2^62. */
  lemma NextPow2Terminates(n: int64)
    ensures (exists k: nat :: Shifted(k) >= n) <==> n <= 0x4000_0000_0000_0000
  {
    Pow2Of62();
    ShiftedValue(62);
    forall k: nat ensures Shifted(k) <= 0x4000_0000_0000_0000 {
      ShiftedValue(k);
      if k <= 62 { Pow2Monotone(k, 62); }
    }
    if n <= 0x4000_0000_0000_0000 { assert Shifted(62) >= n; }
  }

  /** The least power of two that is at least n, and 1 for anything below. */
  method NextPow2(n: int64) returns (p: int64)
    requires n <= 0x4000_0000_0000_0000
    ensures p >= 1 && p >= n && IsPow2(p)
    ensures forall k: nat :: Pow2(k) >= n ==> p <= Pow2(k)
  {
    if n < 1 {
      assert Pow2(0) == 1;
      return 1;
    }
    p := 1;
    ghost var e: nat := 0;
    while p < n
      invariant p == Pow2(e) && 1 <= p
      invariant e > 0 ==> Pow2(e - 1) < n
      decreases n - p
    {
      p := Wrap(2 * p);
      e := e + 1;
    }
    forall k: nat | Pow2(k) >= n ensures p <= Pow2(k) {
      if k < e { Pow2Monotone(k, e - 1); } else { Pow2Monotone(e, k); }
    }
  }
}

/** The sharded repository of internal/adapters/memory/repository.go. */
module Repository {
  import opened Wrappers
  import opened Int64
  import opened Orders
  import opened Store
  import opened Masks

  /** Newest first by creation time. */
  ghost predicate NewestFirst(s: seq<Snapshot>) {
    forall i, j :: 0 <= i < j < |s| ==> s[i].createdAt >= s[j].createdAt
  }

  ghost predicate NoRepeats(s: seq<Snapshot>) {
    forall i, j :: 0 <= i < j < |s| ==> s[i] != s[j]
  }

  /** Each element is the stored order of its own id. */
  ghost predicate FromStore(s: seq<Snapshot>, orders: Book) {
    forall i :: 0 <= i < |s| ==> s[i].id in orders && orders[s[i].id] == s[i]
  }

  method InsertByAge(sorted: seq<Snapshot>, x: Snapshot) returns (out: seq<Snapshot>)
    requires NewestFirst(sorted)
    ensures NewestFirst(out) && multiset(out) == multiset(sorted) + multiset{x}
  {
    var i := 0;
    while i < |sorted| && sorted[i].createdAt >= x.createdAt
      invariant 0 <= i <= |sorted|
      invariant forall j :: 0 <= j < i ==> sorted[j].createdAt >= x.createdAt
    {
      i := i + 1;
    }
    out := sorted[..i] + [x] + sorted[i..];
    Inserted(sorted, i, x);
  }

  lemma Inserted(sorted: seq<Snapshot>, i: nat, x: Snapshot)
    requires NewestFirst(sorted) && i <= |sorted|
    requires forall j :: 0 <= j < i ==> sorted[j].createdAt >= x.createdAt
    requires i < |sorted| ==> x.createdAt >= sorted[i].createdAt
    ensures var out := sorted[..i] + [x] + sorted[i..];
      NewestFirst(out) && multiset(out) == multiset(sorted) + multiset{x}
  {
    InsertedCounts(sorted, i, x);
    var out := sorted[..i] + [x] + sorted[i..];
    forall a, b | 0 <= a < b < |out| ensures out[a].createdAt >= out[b].createdAt {
      assert out[a] == if a < i then sorted[a] else if a == i then x else sorted[a - 1];
      assert out[b] == if b < i then sorted[b] else if b == i then x else sorted[b - 1];
    }
  }

  lemma InsertedCounts(sorted: seq<Snapshot>, i: nat, x: Snapshot)
    requires i <= |sorted|
    ensures multiset(sorted[..i] + [x] + sorted[i..]) == multiset(sorted) + multiset{x}
  {
    assert sorted == sorted[..i] + sorted[i..];
  }

  /** Stands for sort.Slice, which promises only a sorted permutation. */
  method SortNewestFirst(s: seq<Snapshot>) returns (out: seq<Snapshot>)
    ensures NewestFirst(out) && multiset(out) == multiset(s)
  {
    out := [];
    for i := 0 to |s|
      invariant NewestFirst(out) && multiset(out) == multiset(s[..i])
    {
      out := InsertByAge(out, s[i]);
      assert s[..i + 1] == s[..i] + [s[i]];
    }
    assert s[..|s|] == s;
  }

  lemma {:induction false} CountsOfDistinct(s: seq<Snapshot>)
    ensures NoRepeats(s) <==> forall x :: multiset(s)[x] <= 1
  {
    if s != [] {
      var t, y := s[..|s| - 1], s[|s| - 1];
      assert s == t + [y];
      CountsOfDistinct(t);
      if NoRepeats(s) {
        assert y !in t;
      } else if forall x :: multiset(s)[x] <= 1 {
        assert multiset(s) == multiset(t) + multiset{y};
        assert forall x :: multiset(t)[x] <= multiset(s)[x];
        assert y !in multiset(t);
      }
    }
  }

  class OrderRepository {
    const hash: string -> nat
    const mask: nat
    var shards: seq<map<string, Snapshot>>
    var idem: map<string, string>

    /** The flat map the shards together represent. */
    ghost var orders: Book

    function ShardIndex(id: string): nat {
      BitAnd(hash(id), mask)
    }

    /** Each order sits in the shard of its own id and nowhere else; together the shards are the flat map. */
    ghost predicate Holds(shards: seq<map<string, Snapshot>>, orders: Book) {
      && (forall i, id :: 0 <= i < |shards| && id in shards[i] ==>
            ShardIndex(id) == i && id in orders && orders[id] == shards[i][id])
      && (forall id :: id in orders ==>
            ShardIndex(id) < |shards| && id in shards[ShardIndex(id)] && orders[id].id == id)
    }

    ghost predicate Valid()
      reads this
    {
      && IsPow2(|shards|) && mask == |shards| - 1
      && (forall id :: ShardIndex(id) < |shards|)
      && Holds(shards, orders)
      && "" !in idem && (forall key :: key in idem ==> idem[key] in orders)
    }

    lemma Lookup(shards: seq<map<string, Snapshot>>, orders: Book, id: string)
      requires Holds(shards, orders) && ShardIndex(id) < |shards|
      ensures id in shards[ShardIndex(id)] <==> id in orders
      ensures id in orders ==> shards[ShardIndex(id)][id] == orders[id]
    {}

    lemma Put(shards: seq<map<string, Snapshot>>, orders: Book, s: Snapshot)
      requires Holds(shards, orders) && ShardIndex(s.id) < |shards|
      ensures var i := ShardIndex(s.id);
        Holds(shards[i := shards[i][s.id := s]], orders[s.id := s])
    {
      hide ShardIndex;
    }

    lemma IndexInRange(k: nat)
      requires mask == Pow2(k) - 1
      ensures forall id :: ShardIndex(id) == hash(id) % Pow2(k) && ShardIndex(id) < Pow2(k)
    {
      forall id ensures ShardIndex(id) == hash(id) % Pow2(k) {
        MaskIsModulo(hash(id), k);
      }
    }

    constructor (requestedShards: int64, hash: string -> nat)
      requires requestedShards <= 0x4000_0000_0000_0000
      ensures Valid() && orders == map[] && idem == map[]
      ensures |shards| >= requestedShards && |shards| >= 1 && this.hash == hash
      ensures forall k: nat :: Pow2(k) >= requestedShards ==> |shards| <= Pow2(k)
    {
      var n := NextPow2(requestedShards);
      this.hash := hash;
      this.mask := n - 1;
      shards := seq(n, _ => map[]);
      idem := map[];
      orders := map[];
      new;
      var k :| n == Pow2(k);
      IndexInRange(k);
    }

    /** Stores a new order and binds its key; an id already present is refused and binds nothing. */
    method Save(s: Snapshot, idempotencyKey: string) returns (err: Option<RepoError>)
      requires Valid()
      modifies this`shards, this`idem, this`orders
      ensures Valid() && err == SaveError(old(orders), s)
      ensures err == if s.id in old(orders) then Some(Duplicate) else None
      ensures orders == if err == None then old(orders)[s.id := s] else old(orders)
      ensures idem == if err == None && idempotencyKey != "" then old(idem)[idempotencyKey := s.id] else old(idem)
    {
      hide ShardIndex, IsPow2, Holds;
      var i := ShardIndex(s.id);
      Lookup(shards, orders, s.id);
      Put(shards, orders, s);
      if s.id in shards[i] {
        return Some(Duplicate);
      }
      shards := shards[i := shards[i][s.id := s]];
      orders := orders[s.id := s];
      if idempotencyKey != "" {
        idem := idem[idempotencyKey := s.id];
      }
      err := None;
    }

    method Update(s: Snapshot, expectedVersion: int) returns (err: Option<RepoError>)
      requires Valid()
      modifies this`shards, this`orders
      ensures Valid() && err == UpdateError(old(orders), s, expectedVersion)
      ensures err == Some(NotFound) <==> s.id !in old(orders)
      ensures err == Some(VersionConflict) <==> s.id in old(orders) && old(orders)[s.id].version != expectedVersion
      ensures err == None <==> s.id in old(orders) && old(orders)[s.id].version == expectedVersion
      ensures orders == if err == None then old(orders)[s.id := s] else old(orders)
    {
      hide ShardIndex, IsPow2, Holds;
      var i := ShardIndex(s.id);
      Lookup(shards, orders, s.id);
      Put(shards, orders, s);
      if s.id !in shards[i] {
        return Some(NotFound);
      }
      if shards[i][s.id].version != expectedVersion {
        return Some(VersionConflict);
      }
      shards := shards[i := shards[i][s.id := s]];
      orders := orders[s.id := s];
      err := None;
    }

    method Get(id: string) returns (s: Option<Snapshot>)
      requires Valid()
      ensures s == if id in orders then Some(orders[id]) else None
    {
      hide ShardIndex, IsPow2, Holds;
      Lookup(shards, orders, id);
      var shard := shards[ShardIndex(id)];
      s := if id in shard then Some(shard[id]) else None;
    }

    /** What a key is bound to is always a stored order, so the caller's Get of it succeeds. */
    method FindByIdempotencyKey(key: string) returns (id: Option<string>)
      requires Valid()
      ensures id.Some? <==> key in idem
      ensures id.Some? ==> key != "" && idem[key] == id.value && id.value in orders && orders[id.value].id == id.value
    {
      id := if key in idem then Some(idem[key]) else None;
    }

    /** The orders gathered so far are exactly those whose ids have been seen, each once. */
    ghost predicate Gathered(snaps: seq<Snapshot>, seen: set<string>)
      reads this
    {
      && FromStore(snaps, orders) && NoRepeats(snaps) && |snaps| == |seen|
      && seen <= orders.Keys
      && (forall id :: id in orders ==> (id in seen <==> orders[id] in snaps))
    }

    lemma GatherOne(snaps: seq<Snapshot>, seen: set<string>, id: string)
      requires forall k :: k in orders ==> orders[k].id == k
      requires Gathered(snaps, seen) && id in orders && id !in seen
      ensures Gathered(snaps + [orders[id]], seen + {id})
    {
      var longer := snaps + [orders[id]];
      forall k | k in orders ensures k in seen + {id} <==> orders[k] in longer {
        if orders[k] in snaps { assert orders[k] in longer; }
        if k == id { assert longer[|snaps|] == orders[id]; }
      }
    }

    /** Every stored order exactly once, in no particular order. */
    method Collect() returns (snaps: seq<Snapshot>)
      requires Valid()
      ensures FromStore(snaps, orders) && NoRepeats(snaps) && |snaps| == |orders|
      ensures forall id :: id in orders ==> orders[id] in snaps
    {
      hide ShardIndex, IsPow2;
      snaps := [];
      ghost var seen: set<string> := {};
      for i := 0 to |shards|
        invariant Gathered(snaps, seen)
        invariant forall id :: id in seen <==> id in orders && ShardIndex(id) < i
      {
        hide Gathered;
        var keys := shards[i].Keys;
        while keys != {}
          invariant keys <= shards[i].Keys
          invariant Gathered(snaps, seen)
          invariant forall id :: id in seen <==>
            (id in orders && ShardIndex(id) < i) || (id in shards[i] && id !in keys)
          decreases keys
        {
          var id :| id in keys;
          GatherOne(snaps, seen, id);
          snaps := snaps + [shards[i][id]];
          keys := keys - {id};
          seen := seen + {id};
        }
      }
      assert seen == orders.Keys;
    }

    /**
     Up to limit orders (all of them when limit is not positive), newest first: each is a stored
     order, none comes twice, and nothing left out is newer than anything returned.
     */
    method List(limit: int) returns (out: seq<Snapshot>)
      requires Valid()
      ensures FromStore(out, orders) && NoRepeats(out) && NewestFirst(out)
      ensures |out| == if 0 < limit < |orders| then limit else |orders|
      ensures forall id, i :: id in orders && orders[id] !in out && 0 <= i < |out| ==>
        out[i].createdAt >= orders[id].createdAt
    {
      hide Valid, NoRepeats, NewestFirst, FromStore;
      var snaps := Collect();
      var sorted := SortNewestFirst(snaps);
      Permuted(snaps, sorted);
      assert |sorted| == |orders| by { assert |multiset(snaps)| == |multiset(sorted)|; }
      out := sorted;
      if limit > 0 && |sorted| > limit {
        Truncated(sorted, limit);
        out := sorted[..limit];
      }
    }

    lemma Truncated(sorted: seq<Snapshot>, limit: nat)
      requires FromStore(sorted, orders) && NoRepeats(sorted) && NewestFirst(sorted) && limit <= |sorted|
      requires forall id :: id in orders ==> orders[id] in sorted
      ensures var out := sorted[..limit];
        && FromStore(out, orders) && NoRepeats(out) && NewestFirst(out)
        && forall id, i :: id in orders && orders[id] !in out && 0 <= i < |out| ==>
             out[i].createdAt >= orders[id].createdAt
    {
      var out := sorted[..limit];
      forall id, i | id in orders && orders[id] !in out && 0 <= i < |out|
        ensures out[i].createdAt >= orders[id].createdAt
      {
        var j :| 0 <= j < |sorted| && sorted[j] == orders[id];
        assert j >= limit;
      }
    }

    lemma Permuted(snaps: seq<Snapshot>, sorted: seq<Snapshot>)
      requires FromStore(snaps, orders) && NoRepeats(snaps) && multiset(snaps) == multiset(sorted)
      requires forall id :: id in orders ==> orders[id] in snaps
      ensures FromStore(sorted, orders) && NoRepeats(sorted)
      ensures forall id :: id in orders ==> orders[id] in sorted
    {
      CountsOfDistinct(snaps);
      CountsOfDistinct(sorted);
      forall i | 0 <= i < |sorted| ensures sorted[i].id in orders && orders[sorted[i].id] == sorted[i] {
        assert sorted[i] in multiset(snaps);
      }
      forall id | id in orders ensures orders[id] in sorted {
        assert orders[id] in multiset(snaps);
      }
    }
  }
}
