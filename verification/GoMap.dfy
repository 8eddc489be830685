/**
  The hash table header and its operations. The abstract value of a table is the finite map M.
 */
module GoMap {
  import opened Options
  import opened Bits
  import opened MapCells
  import opened MapTable
  import opened MapBuckets

  /** Result of a read: the element, or the detected misuse (a write is in progress). */
  datatype Access<V> = Value(elem: V) | ConcurrentReadWrite

  /**
    Result of `mapassign`: the cell for the key; or the detected misuse; or the point where the table
    has just started to grow and the listing hands over to the evacuation code.
   */
  datatype Assigned<K, V> = Slot(b: Bucket<K, V>, i: nat) | ConcurrentWrites | GrowthStarted

  datatype Op<K, V> = Assign(key: K, elem: V, tooMany: bool) | Delete(key: K, freshSeed: nat) | Read(key: K)

  /** What an operation does to a plain map. */
  function Apply<K, V>(M: map<K, V>, op: Op<K, V>): map<K, V> {
    match op
    case Assign(k, v, _) => M[k := v]
    case Delete(k, _) => M - {k}
    case Read(_) => M
  }

  /** What it answers: the element read, a missing key reads as zero. */
  function Answer<K(==), V>(M: map<K, V>, op: Op<K, V>, zero: V): seq<V> {
    if op.Read? then [if op.key in M then M[op.key] else zero] else []
  }

  /** The plain map after a sequence of operations. */
  ghost function After<K, V>(M: map<K, V>, ops: seq<Op<K, V>>): map<K, V> {
    if ops == [] then M else Apply(After(M, ops[..|ops| - 1]), ops[|ops| - 1])
  }

  /** What its reads return. */
  ghost function Answers<K, V>(M: map<K, V>, ops: seq<Op<K, V>>, zero: V): seq<V> {
    if ops == [] then []
    else Answers(M, ops[..|ops| - 1], zero) + Answer(After(M, ops[..|ops| - 1]), ops[|ops| - 1], zero)
  }

  /** Whether one of the first n operations, each on the plain map it meets, makes the table start growing. */
  ghost predicate GrowsWithin<K, V>(M: map<K, V>, ops: seq<Op<K, V>>, n: nat, B: nat)
    requires n <= |ops|
  {
    exists d {:trigger ops[d]} :: 0 <= d < n && GrowthDue(ops[d], After(M, ops[..d]), B)
  }

  /** The first n operations, none of which made the table grow, lead to `now` and these answers. */
  ghost predicate Tracks<K, V>(M: map<K, V>, ops: seq<Op<K, V>>, n: nat, now: map<K, V>, answers: seq<V>, zero: V, B: nat)
    requires n <= |ops|
  {
    now == After(M, ops[..n]) && answers == Answers(M, ops[..n], zero) && !GrowsWithin(M, ops, n, B)
  }

  /** One more operation that does not make the table grow. */
  lemma OneMore<K, V>(M: map<K, V>, ops: seq<Op<K, V>>, n: nat, now: map<K, V>, answers: seq<V>, zero: V, B: nat)
    requires n < |ops| && Tracks(M, ops, n, now, answers, zero, B) && !GrowthDue(ops[n], now, B)
    ensures Tracks(M, ops, n + 1, Apply(now, ops[n]), answers + Answer(now, ops[n], zero), zero, B)
  {
    assert ops[..n + 1][..n] == ops[..n];
  }

  /** The documented load factor is 6.5, and a single bucket is never overloaded. */
  predicate OverLoadFactor(count: int, B: nat) {
    count > BUCKET_CNT && count > 13 * (Pow2(B) / 2)
  }

  /** That is: more than eight elements, and more than 6.5 for each of the 2^B buckets. */
  lemma LoadFactorAsDocumented(count: int, B: nat)
    ensures OverLoadFactor(count, B) <==> count > 8 && 10 * count > 65 * Pow2(B)
  {
    if B > 0 {
      assert Pow2(B) == 2 * Pow2(B - 1);
    }
  }

  /** An assignment of a new key to a table of 2^B buckets that makes it start growing. */
  predicate GrowthDue<K(==), V>(op: Op<K, V>, M: map<K, V>, B: nat) {
    op.Assign? && op.key !in M && (OverLoadFactor(|M| + 1, B) || op.tooMany)
  }

  const UINTPTRS := 0x1_0000_0000_0000_0000

  /** A product of machine words, and whether it overflowed. */
  function MulUintptr(a: nat, b: nat): (nat, bool) {
    (a * b % UINTPTRS, a * b >= UINTPTRS)
  }

  /** The hint that `makemap` goes by: none, if as many buckets as elements would not fit into memory. */
  function FittingHint(hint: int, bucketSize: nat, maxAlloc: nat): int {
    if hint % UINTPTRS * bucketSize <= maxAlloc then hint else 0
  }

  /** An int64 hint is kept just when it is not negative and its buckets fit; the other hints count as zero. */
  lemma HintsThatFit(hint: int, bucketSize: nat, maxAlloc: nat)
    requires -0x8000_0000_0000_0000 <= hint < 0x8000_0000_0000_0000 && bucketSize > 0 && maxAlloc < 0x8000_0000_0000_0000
    ensures FittingHint(hint, bucketSize, maxAlloc) == if 0 <= hint && hint * bucketSize <= maxAlloc then hint else 0
  {
    if hint < 0 {
      assert hint % UINTPTRS == hint + UINTPTRS;
      AtLeastFactor(hint + UINTPTRS, bucketSize);
    } else {
      assert hint % UINTPTRS == hint;
    }
  }

  lemma AtLeastFactor(a: nat, b: nat)
    requires b > 0
    ensures a * b >= a
  {
    assert a * b == a * (b - 1) + a;
  }

  /** A bucket whose first mark lies between the empty marks and the hash bytes has been moved away. */
  predicate Evacuated(mark: nat) {
    EMPTY_ONE < mark < MIN_TOP_HASH
  }

  type Chain<K, V> = seq<Bucket<K, V>>

  /** The heads array leads to these chains, which show this table. */
  ghost predicate Stored<K, V>(heads: array<Bucket?<K, V>>, chains: seq<Chain<K, V>>, table: Table<K, V>,
                               nodes: set<Bucket<K, V>>)
    reads heads, nodes
  {
    && heads.Length == |chains| == |table|
    && (forall j, r :: 0 <= j < |chains| && 0 <= r < |chains[j]| ==> chains[j][r] in nodes)
    && (forall j {:trigger Shows(chains[j], j, table[j])} :: 0 <= j < |chains| ==> Shows(chains[j], j, table[j]))
    && (forall j :: 0 <= j < |chains| ==> |chains[j]| >= 1)
    && (forall j {:trigger heads[j]} :: 0 <= j < |chains| ==> heads[j] == chains[j][0])
  }

  lemma ChainOf<K, V>(heads: array<Bucket?<K, V>>, chains: seq<Chain<K, V>>, table: Table<K, V>,
                      nodes: set<Bucket<K, V>>, j: nat)
    requires Stored(heads, chains, table, nodes) && j < |chains|
    ensures Shows(chains[j], j, table[j]) && heads[j] == chains[j][0]
    ensures forall r :: 0 <= r < |chains[j]| ==> chains[j][r] in nodes
  {
  }

  lemma CellOf<K, V>(heads: array<Bucket?<K, V>>, chains: seq<Chain<K, V>>, table: Table<K, V>,
                     nodes: set<Bucket<K, V>>, j: nat, b: Bucket<K, V>, i: nat)
    requires Stored(heads, chains, table, nodes) && j < |chains|
    requires Member(chains[j], b) && i < BUCKET_CNT
    ensures b.Shaped() && BUCKET_CNT * b.rank + i < |table[j]|
    ensures table[j][BUCKET_CNT * b.rank + i] == b.At(i)
  {
    ChainOf(heads, chains, table, nodes, j);
  }

  /** A fresh array of n blank buckets. */
  method MakeBucketArray<K, V>(n: nat, zero: V)
    returns (heads: array<Bucket?<K, V>>, ghost chains: seq<Chain<K, V>>, ghost table: Table<K, V>,
             ghost nodes: set<Bucket<K, V>>)
    ensures fresh(heads) && fresh(nodes) && heads.Length == n
    ensures Stored(heads, chains, table, nodes)
    ensures forall j, p :: 0 <= j < |table| && 0 <= p < |table[j]| ==> table[j][p] == Cell(EMPTY_REST, None, zero)
  {
    heads := new Bucket?<K, V>[n](_ => null);
    chains, table, nodes := [], [], {};
    var j := 0;
    while j < n
      invariant 0 <= j <= n && |chains| == |table| == j
      invariant fresh(nodes)
      invariant forall k, r :: 0 <= k < j && 0 <= r < |chains[k]| ==> chains[k][r] in nodes
      invariant forall k :: 0 <= k < j ==> Shows(chains[k], k, table[k]) && heads[k] == chains[k][0]
      invariant forall k, p :: 0 <= k < j && 0 <= p < |table[k]| ==> table[k][p] == Cell(EMPTY_REST, None, zero)
      modifies heads
    {
      var b := new Bucket(zero, j, 0);
      heads[j] := b;
      chains := chains + [[b]];
      table := table + [seq(BUCKET_CNT, _ => Cell(EMPTY_REST, None, zero))];
      nodes := nodes + {b};
      j := j + 1;
    }
  }

  /** Removing a key in one chain of the table; the other chains are not touched. */
  method ClearIn<K, V>(bOrig: Bucket<K, V>, b: Bucket<K, V>, i: nat, zero: V, clearKey: bool, heads: array<Bucket?<K, V>>,
                       ghost chains: seq<Chain<K, V>>, ghost table: Table<K, V>, ghost nodes: set<Bucket<K, V>>, ghost j: nat)
    returns (ghost cells: seq<Cell<K, V>>)
    requires Stored(heads, chains, table, nodes) && j < |chains| && bOrig == chains[j][0] && Marked(table[j])
    requires Member(chains[j], b) && i < |b.tophash| == BUCKET_CNT && !IsEmpty(b.tophash[i])
    modifies nodes
    ensures Stored(heads, chains, table[j := cells], nodes)
    ensures BUCKET_CNT * b.rank + i < |table[j]|
    ensures Erased(table[j], BUCKET_CNT * b.rank + i, zero, KeptKey(table[j][BUCKET_CNT * b.rank + i], clearKey), cells)
  {
    ChainOf(heads, chains, table, nodes, j);
    cells := ClearCell(bOrig, b, i, zero, clearKey, chains[j], j, table[j]);
    forall k | 0 <= k < |chains| && k != j ensures Shows(chains[k], k, table[k]) {
      assert old(Shows(chains[k], k, table[k]));
      assert forall r :: 0 <= r < |chains[k]| ==> chains[k][r].home == k;
      assert unchanged(chains[k]);
    }
  }

  /** Writing a cell in one chain of the table. */
  method SetIn<K, V>(b: Bucket<K, V>, i: nat, top: nat, key: Option<K>, elem: V, heads: array<Bucket?<K, V>>,
                     ghost chains: seq<Chain<K, V>>, ghost table: Table<K, V>, ghost nodes: set<Bucket<K, V>>, ghost j: nat)
    returns (ghost cells: seq<Cell<K, V>>)
    requires Stored(heads, chains, table, nodes) && j < |chains|
    requires Member(chains[j], b) && i < BUCKET_CNT
    modifies nodes
    ensures BUCKET_CNT * b.rank + i < |table[j]|
    ensures cells == table[j][BUCKET_CNT * b.rank + i := Cell(top, key, elem)]
    ensures Stored(heads, chains, table[j := cells], nodes)
  {
    ChainOf(heads, chains, table, nodes, j);
    cells := SetCell(b, i, top, key, elem, chains[j], j, table[j]);
    forall k | 0 <= k < |chains| && k != j ensures Shows(chains[k], k, table[k]) {
      assert old(Shows(chains[k], k, table[k]));
      assert forall r :: 0 <= r < |chains[k]| ==> chains[k][r].home == k;
      assert unchanged(chains[k]);
    }
  }

  /** Hanging a blank overflow bucket onto one chain of the table. */
  method ExtendIn<K, V>(last: Bucket<K, V>, zero: V, heads: array<Bucket?<K, V>>,
                        ghost chains: seq<Chain<K, V>>, ghost table: Table<K, V>, ghost nodes: set<Bucket<K, V>>, ghost j: nat)
    returns (newb: Bucket<K, V>)
    requires Stored(heads, chains, table, nodes) && j < |chains| && last == chains[j][|chains[j]| - 1]
    modifies nodes
    ensures fresh(newb) && newb.rank == |chains[j]|
    ensures Stored(heads, chains[j := chains[j] + [newb]], table[j := Roomy(table[j], |table[j]|, zero)], nodes + {newb})
  {
    ChainOf(heads, chains, table, nodes, j);
    newb := NewOverflow(last, zero, chains[j], j, table[j]);
    forall k | 0 <= k < |chains| && k != j ensures Shows(chains[k], k, table[k]) {
      assert old(Shows(chains[k], k, table[k]));
      assert forall r :: 0 <= r < |chains[k]| ==> chains[k][r].home == k;
      assert unchanged(chains[k]);
    }
  }

  /** Writing byte and key into a free cell of one chain, or into the first cell of a new overflow bucket. */
  method ClaimIn<K, V>(full: bool, c: Bucket<K, V>, ci: nat, top: nat, key: K, zero: V, heads: array<Bucket?<K, V>>,
                       ghost chains: seq<Chain<K, V>>, ghost table: Table<K, V>, ghost nodes: set<Bucket<K, V>>,
                       ghost j: nat, ghost p: nat)
    returns (b: Bucket<K, V>, i: nat, ghost chains': seq<Chain<K, V>>, ghost nodes': set<Bucket<K, V>>,
             ghost cells: seq<Cell<K, V>>)
    requires Stored(heads, chains, table, nodes) && j < |chains| && Member(chains[j], c) && ci < BUCKET_CNT
    requires if full then c == chains[j][|chains[j]| - 1] && ci == 0 && p == |table[j]|
             else p == BUCKET_CNT * c.rank + ci && p < |table[j]|
    requires Roomy(table[j], p, zero)[p].elem == zero
    modifies nodes
    ensures fresh(nodes' - nodes) && i < BUCKET_CNT && j < |chains'| && Member(chains'[j], b) && BUCKET_CNT * b.rank + i == p
    ensures cells == Roomy(table[j], p, zero)[p := Cell(top, Some(key), zero)]
    ensures Stored(heads, chains', table[j := cells], nodes')
  {
    b, i, chains', nodes' := c, ci, chains, nodes;
    ghost var table' := table;
    if full {
      ChainOf(heads, chains, table, nodes, j);
      b := ExtendIn(c, zero, heads, chains, table, nodes, j);
      chains', table', nodes' := chains[j := chains[j] + [b]], table[j := Roomy(table[j], p, zero)], nodes + {b};
    }
    CellOf(heads, chains', table', nodes', j, b, i);
    cells := SetIn(b, i, top, Some(key), b.elems[i], heads, chains', table', nodes', j);
    assert table'[j := cells] == table[j := cells];
  }

  /** The chains behind a heads array, what they show, and all their buckets. */
  datatype Store<!K, !V> = Store(chains: seq<Chain<K, V>>, table: Table<K, V>, nodes: set<Bucket<K, V>>)

  /** The buckets on the heap are in order and stand for M. */
  ghost predicate Backs<K(!new), V>(heads: array<Bucket?<K, V>>, store: Store<K, V>, M: map<K, V>,
                                    zero: V, hasher: (K, nat) -> nat, seed: nat, bits: nat)
    reads heads, store.nodes
  {
    && Stored(heads, store.chains, store.table, store.nodes)
    && Sound(store.table, M, zero, hasher, seed, bits)
  }

  class HMap<K(!new, ==), V> {
    const hasher: (K, nat) -> nat
    const zero: V
    const keyHasPointers: bool

    var count: nat
    var hashWriting: bool
    var sameSizeGrow: bool
    var B: nat
    var hash0: nat
    var buckets: array?<Bucket?<K, V>>
    var oldbuckets: array?<Bucket?<K, V>>

    ghost var M: map<K, V>
    // Where the entries are: the current buckets, or the old ones while the table has only begun to grow.
    ghost var store: Store<K, V>

    ghost function DataBits(): nat
      reads this
    {
      if oldbuckets == null || sameSizeGrow || B == 0 then B else B - 1
    }

    ghost function Heads(): array?<Bucket?<K, V>>
      reads this
    {
      if oldbuckets == null then buckets else oldbuckets
    }

    ghost predicate Valid()
      reads this, Heads(), store.nodes
    {
      && count == |M|
      && (oldbuckets != null ==> buckets != null && buckets.Length == Pow2(B) && buckets != oldbuckets
                                 && (sameSizeGrow || B >= 1))
      && (Heads() == null ==> M == map[] && B == 0)
      && (Heads() != null ==>
            Backs(Heads(), store, M, zero, hasher, hash0, DataBits()))
    }

    /** make(map[K]V, hint): as many buckets as the hint needs; a single bucket is allocated lazily. */
    constructor MakeMap(hint: int, bucketSize: nat, maxAlloc: nat, hasher: (K, nat) -> nat, zero: V,
                        keyHasPointers: bool, seed: nat)
      requires maxAlloc < UINTPTRS
      ensures Valid() && M == map[] && oldbuckets == null && !hashWriting && fresh(store.nodes)
      ensures var n := FittingHint(hint, bucketSize, maxAlloc);
              !OverLoadFactor(n, B) && (B > 0 ==> OverLoadFactor(n, B - 1))
      ensures this.zero == zero && this.hasher == hasher
    {
      this.hasher, this.zero, this.keyHasPointers := hasher, zero, keyHasPointers;
      count, hashWriting, sameSizeGrow, hash0 := 0, false, false, seed;
      var n := CheckHint(hint, bucketSize, maxAlloc);
      var b := BitsFor(n);
      B := b;
      buckets, oldbuckets := null, null;
      M, store := map[], Store([], [], {});
      if b != 0 {
        var heads;
        ghost var cs, t, ns;
        heads, cs, t, ns := MakeBucketArray<K, V>(Pow2(b), zero);
        buckets := heads;
        store := Store(cs, t, ns);
        BlankTable(t, zero, hasher, seed, b);
      }
    }

    /** A hint whose memory would overflow a machine word or exceed the limit is dropped. */
    static method CheckHint(hint: int, bucketSize: nat, maxAlloc: nat) returns (n: int)
      requires maxAlloc < UINTPTRS
      ensures n == FittingHint(hint, bucketSize, maxAlloc)
    {
      n := hint;
      var (mem, overflow) := MulUintptr(hint % UINTPTRS, bucketSize);
      if overflow || mem > maxAlloc {
        n := 0;
      }
    }

    /** The least size parameter that is not overloaded. */
    static method BitsFor(n: int) returns (b: nat)
      ensures !OverLoadFactor(n, b) && (b > 0 ==> OverLoadFactor(n, b - 1))
    {
      b := 0;
      while OverLoadFactor(n, b)
        invariant b > 0 ==> OverLoadFactor(n, b - 1)
        decreases n - 13 * (Pow2(b) / 2)
      {
        b := b + 1;
      }
    }

    /** v := m[key]. A missing key reads as the zero element, also while the table has just begun to grow. */
    method MapAccess1(key: K) returns (r: Access<V>)
      requires Valid()
      ensures r == if count > 0 && hashWriting then ConcurrentReadWrite
                   else Value(if key in M then M[key] else zero)
    {
      if count == 0 {
        assert M == map[];
        return Value(zero);
      }
      if hashWriting {
        return ConcurrentReadWrite;
      }
      var hash := hasher(key, hash0);
      var _, hit, i := SearchFor(key, hash);
      if hit == null {
        return Value(zero);
      }
      return Value(hit.elems[i]);
    }

    /** The search of the key's chain: the first bucket of the chain, and the cell that holds the key, if any. */
    method SearchFor(key: K, hash: nat) returns (bOrig: Bucket<K, V>, b: Bucket?<K, V>, i: nat)
      requires Valid() && Heads() != null && hash == hasher(key, hash0)
      ensures bOrig == store.chains[Home(key, hasher, hash0, DataBits())][0]
      ensures b == null <==> key !in M
      ensures b != null ==> IsCellOf(key, b, i) && b.Shaped() && b.elems[i] == M[key]
    {
      bOrig := BucketFor(hash);
      ghost var j := Home(key, hasher, hash0, DataBits());
      LookupByHome(store.table, M, zero, hasher, hash0, DataBits(), key);
      ChainOf(Heads(), store.chains, store.table, store.nodes, j);
      b, i := FindCell(bOrig, TopHash(hash), key, store.chains[j], store.table[j], zero, hasher, hash0, DataBits(), j);
      if b != null {
        CellOf(Heads(), store.chains, store.table, store.nodes, j, b, i);
      }
    }

    /** The first bucket of the chain to search: in the old buckets as long as they have not been evacuated. */
    method BucketFor(hash: nat) returns (b: Bucket<K, V>)
      requires Valid() && Heads() != null
      ensures And(hash, BucketMask(DataBits())) < |store.chains|
      ensures b == store.chains[And(hash, BucketMask(DataBits()))][0]
    {
      var m := BucketMask(B);
      MaskIsRemainder(hash, B);
      var cur := buckets[And(hash, m)];
      if oldbuckets != null {
        if !sameSizeGrow {
          // The old array has one bit less to choose a bucket by.
          ShiftedMask(B - 1);
          m := ShiftRight(m);
        }
        MaskIsRemainder(hash, DataBits());
        NotEvacuated(And(hash, m));
        var oldb := oldbuckets[And(hash, m)];
        if !Evacuated(oldb.tophash[0]) {
          cur := oldb;
        }
      }
      b := cur;
    }

    /** No bucket holding entries carries an evacuation mark. */
    lemma NotEvacuated(j: nat)
      requires Valid() && Heads() != null && j < Heads().Length
      ensures Heads()[j] != null && Heads()[j].Shaped() && !Evacuated(Heads()[j].tophash[0])
    {
      ChainOf(Heads(), store.chains, store.table, store.nodes, j);
      CellOf(Heads(), store.chains, store.table, store.nodes, j, store.chains[j][0], 0);
      if !IsEmpty(store.table[j][0].top) {
        CellInOrder(store.table, zero, hasher, hash0, DataBits(), j, 0);
      }
    }

    /** Cell (b, i) is the cell of the key. */
    ghost predicate IsCellOf(key: K, b: Bucket<K, V>, i: nat)
      requires Valid() && Heads() != null
      reads this, Heads(), store.nodes
    {
      var j := Home(key, hasher, hash0, DataBits());
      Member(store.chains[j], b) && i < BUCKET_CNT && Holds(store.table[j], BUCKET_CNT * b.rank + i, key)
    }

    /**
      Starting to grow: a new array, twice the size if the load factor is hit and the same size otherwise.
      Nothing is copied yet, and no entry is lost: the table stands for the same map.
     */
    method HashGrow()
      requires Valid() && oldbuckets == null && buckets != null
      modifies this
      ensures Valid() && M == old(M) && count == old(count) && hash0 == old(hash0) && hashWriting == old(hashWriting)
      ensures oldbuckets == old(buckets) && fresh(buckets) && store.nodes == old(store.nodes)
      ensures B == old(B) + (if OverLoadFactor(old(count) + 1, old(B)) then 1 else 0) && (sameSizeGrow <==> B == old(B))
    {
      var bigger := 1;
      sameSizeGrow := false;
      if !OverLoadFactor(count + 1, B) {
        bigger := 0;
        sameSizeGrow := true;
      }
      var newbuckets, _, _, _ := MakeBucketArray<K, V>(Pow2(B + bigger), zero);
      oldbuckets := buckets;
      B := B + bigger;
      buckets := newbuckets;
    }

    /**
      The cell for m[key]: the one that holds the key, or else the first empty cell of its chain, claimed
      for the key and still zero. `tooMany` is the answer of the overflow-bucket heuristic.
     */
    method MapAssign(key: K, tooMany: bool) returns (r: Assigned<K, V>)
      requires Valid() && oldbuckets == null
      modifies this, store.nodes
      ensures r.ConcurrentWrites? <==> old(hashWriting)
      ensures r.ConcurrentWrites? ==> unchanged(this) && unchanged(store.nodes)
      ensures r.GrowthStarted? <==> !old(hashWriting) && key !in old(M) && (OverLoadFactor(old(count) + 1, old(B)) || tooMany)
      ensures Valid() && fresh(store.nodes - old(store.nodes)) && hash0 == old(hash0)
      ensures r.GrowthStarted? ==> M == old(M) && oldbuckets != null
      ensures r.Slot? ==> oldbuckets == null && Heads() != null && !hashWriting && IsCellOf(key, r.b, r.i)
      ensures r.Slot? ==> M == (if key in old(M) then old(M) else old(M)[key := zero]) && B == old(B)
    {
      if hashWriting {
        return ConcurrentWrites;
      }
      hashWriting := true;
      if buckets == null {
        AllocateFirst();
      }
      r := FindOrClaim(key, tooMany);
      if r.Slot? {
        hashWriting := false;
      }
    }

    /** The body of `mapassign`, once the misuse check is passed and there are buckets. */
    method FindOrClaim(key: K, tooMany: bool) returns (r: Assigned<K, V>)
      requires Valid() && oldbuckets == null && buckets != null
      modifies this, store.nodes
      ensures !r.ConcurrentWrites?
      ensures r.GrowthStarted? <==> key !in old(M) && (OverLoadFactor(old(count) + 1, old(B)) || tooMany)
      ensures Valid() && fresh(store.nodes - old(store.nodes)) && hash0 == old(hash0)
      ensures r.GrowthStarted? ==> M == old(M) && oldbuckets != null
      ensures r.Slot? ==> oldbuckets == null && Heads() != null && IsCellOf(key, r.b, r.i)
      ensures r.Slot? ==> M == (if key in old(M) then old(M) else old(M)[key := zero]) && B == old(B)
    {
      var probe, c, i := ProbeFor(key, hasher(key, hash0));
      if probe == Found {
        return Slot(c, i);
      }
      if OverLoadFactor(count + 1, B) || tooMany {
        HashGrow();
        return GrowthStarted;
      }
      r := Claim(key, probe, c, i);
    }

    /** The search before an insertion, in the chain of the key. */
    method ProbeFor(key: K, hash: nat) returns (probe: Probe, c: Bucket<K, V>, i: nat)
      requires Valid() && oldbuckets == null && buckets != null && hash == hasher(key, hash0)
      ensures probe == Found <==> key in M
      ensures probe == Found ==> IsCellOf(key, c, i)
      ensures probe != Found ==> CanClaim(key, probe, c, i)
    {
      var b := BucketFor(hash);
      ghost var j := Home(key, hasher, hash0, B);
      LookupByHome(store.table, M, zero, hasher, hash0, B, key);
      ChainOf(buckets, store.chains, store.table, store.nodes, j);
      probe, c, i := FindOrReserve(b, TopHash(hash), key, store.chains[j], store.table[j], zero, hasher, hash0, B, j);
    }

    /** (c, i) is the first empty cell of the key's chain; or there is none and c is the chain's last bucket. */
    ghost predicate CanClaim(key: K, probe: Probe, c: Bucket<K, V>, i: nat)
      requires Valid() && Heads() != null
      reads this, Heads(), store.nodes
    {
      var j := Home(key, hasher, hash0, DataBits());
      && Member(store.chains[j], c) && i < BUCKET_CNT
      && (probe == Free ==> FirstEmpty(store.table[j], BUCKET_CNT * c.rank + i))
      && (probe == Full ==> c == store.chains[j][|store.chains[j]| - 1] && i == 0 && FirstEmpty(store.table[j], |store.table[j]|))
    }

    /** The single bucket of a table made without a hint, allocated at the first write. */
    method AllocateFirst()
      requires Valid() && oldbuckets == null && buckets == null
      modifies this
      ensures Valid() && oldbuckets == null && buckets != null && fresh(store.nodes) && B == old(B)
      ensures M == old(M) && count == old(count) && hash0 == old(hash0) && hashWriting == old(hashWriting)
    {
      var heads;
      ghost var cs, t, ns;
      heads, cs, t, ns := MakeBucketArray<K, V>(1, zero);
      buckets, store := heads, Store(cs, t, ns);
      BlankTable(t, zero, hasher, hash0, 0);
    }

    /** Claims the free cell that the probe found, or the first cell of a new overflow bucket. */
    method Claim(key: K, probe: Probe, c: Bucket<K, V>, ci: nat) returns (r: Assigned<K, V>)
      requires Valid() && oldbuckets == null && buckets != null && key !in M
      requires probe != Found && CanClaim(key, probe, c, ci)
      modifies this, store.nodes
      ensures Valid() && fresh(store.nodes - old(store.nodes)) && hash0 == old(hash0) && hashWriting == old(hashWriting)
      ensures oldbuckets == null && buckets != null && B == old(B) && M == old(M)[key := zero]
      ensures r.Slot? && IsCellOf(key, r.b, r.i)
    {
      ghost var j := Home(key, hasher, hash0, B);
      ghost var p := if probe == Free then BUCKET_CNT * c.rank + ci else |store.table[j]|;
      TableInsert(store.table, M, zero, hasher, hash0, B, key, p);
      CellOf(buckets, store.chains, store.table, store.nodes, j, c, ci);
      var b, i;
      ghost var chains', nodes', cells;
      b, i, chains', nodes', cells := ClaimIn(probe == Full, c, ci, TopHash(hasher(key, hash0)), key, zero,
                                              buckets, store.chains, store.table, store.nodes, j, p);
      store, M, count := Store(chains', store.table[j := cells], nodes'), M[key := zero], count + 1;
      r := Slot(b, i);
    }

    /** m[key] = value: `mapassign`, then the store through the returned cell. */
    method Put(key: K, value: V, tooMany: bool) returns (r: Assigned<K, V>)
      requires Valid() && oldbuckets == null
      modifies this, store.nodes
      ensures Valid() && fresh(store.nodes - old(store.nodes)) && hash0 == old(hash0)
      ensures r.ConcurrentWrites? <==> old(hashWriting)
      ensures r.ConcurrentWrites? ==> unchanged(this) && unchanged(store.nodes)
      ensures r.GrowthStarted? <==> !old(hashWriting) && key !in old(M) && (OverLoadFactor(old(count) + 1, old(B)) || tooMany)
      ensures r.GrowthStarted? ==> M == old(M) && oldbuckets != null
      ensures r.Slot? ==> M == old(M)[key := value] && B == old(B) && oldbuckets == null && !hashWriting
    {
      r := MapAssign(key, tooMany);
      if r.Slot? {
        StoreAt(key, r.b, r.i, value);
      }
    }

    /** The caller's store through the cell that `mapassign` returned. */
    method StoreAt(key: K, b: Bucket<K, V>, i: nat, value: V)
      requires Valid() && oldbuckets == null && buckets != null && IsCellOf(key, b, i)
      modifies this, store.nodes
      ensures Valid() && oldbuckets == null && store.nodes == old(store.nodes) && B == old(B)
      ensures hash0 == old(hash0) && hashWriting == old(hashWriting) && M == old(M)[key := value]
    {
      ghost var j := Home(key, hasher, hash0, B);
      CellOf(buckets, store.chains, store.table, store.nodes, j, b, i);
      TableStore(store.table, M, zero, hasher, hash0, B, key, BUCKET_CNT * b.rank + i, value);
      ghost var cells := SetIn(b, i, b.tophash[i], b.keys[i], value, buckets, store.chains, store.table, store.nodes, j);
      store, M := store.(table := store.table[j := cells]), M[key := value];
    }

    /** delete(m, key): true when the operation went through. `freshSeed` replaces the seed of an emptied table. */
    method MapDelete(key: K, freshSeed: nat) returns (ok: bool)
      requires Valid() && oldbuckets == null
      modifies this, store.nodes
      ensures (ok <==> old(count) == 0 || !old(hashWriting)) && hashWriting == old(hashWriting)
      ensures !ok ==> unchanged(this) && unchanged(store.nodes)
      ensures ok ==> Valid() && M == old(M) - {key} && oldbuckets == null && store.nodes == old(store.nodes) && B == old(B)
      ensures hash0 == if ok && key in old(M) && |old(M)| == 1 then freshSeed else old(hash0)
    {
      if count == 0 {
        assert M == map[];
        return true;
      }
      if hashWriting {
        return false;
      }
      hashWriting := true;
      FindAndDelete(key, freshSeed);
      hashWriting := false;
      ok := true;
    }

    /** The body of `mapdelete`, once the misuse check is passed. */
    method FindAndDelete(key: K, freshSeed: nat)
      requires Valid() && oldbuckets == null && buckets != null
      modifies this, store.nodes
      ensures Valid() && oldbuckets == null && store.nodes == old(store.nodes) && hashWriting == old(hashWriting)
      ensures M == old(M) - {key} && B == old(B)
      ensures hash0 == if key in old(M) && |old(M)| == 1 then freshSeed else old(hash0)
    {
      var bOrig, b, i := SearchFor(key, hasher(key, hash0));
      if b != null {
        DeleteAt(key, bOrig, b, i, freshSeed);
      }
    }

    /** Removes the key from its cell, and re-seeds the hash once the table is empty. */
    method DeleteAt(key: K, bOrig: Bucket<K, V>, b: Bucket<K, V>, i: nat, freshSeed: nat)
      requires Valid() && oldbuckets == null && buckets != null && IsCellOf(key, b, i)
      requires bOrig == store.chains[Home(key, hasher, hash0, B)][0]
      modifies this, store.nodes
      ensures Valid() && oldbuckets == null && store.nodes == old(store.nodes) && hashWriting == old(hashWriting)
      ensures key in old(M) && M == old(M) - {key} && B == old(B)
      ensures hash0 == if |old(M)| == 1 then freshSeed else old(hash0)
    {
      ghost var j := Home(key, hasher, hash0, B);
      CellOf(buckets, store.chains, store.table, store.nodes, j, b, i);
      LookupByHome(store.table, M, zero, hasher, hash0, B, key);
      ghost var kept := KeptKey(store.table[j][BUCKET_CNT * b.rank + i], keyHasPointers);
      ghost var cells := ClearIn(bOrig, b, i, zero, keyHasPointers, buckets, store.chains, store.table, store.nodes, j);
      TableErase(store.table, M, zero, hasher, hash0, B, key, BUCKET_CNT * b.rank + i, kept, cells);
      if count == 1 {
        assert M - {key} == map[];
        AnySeedFitsEmpty(store.table[j := cells], zero, hasher, hash0, B, freshSeed);
      }
      CountDown(store.(table := store.table[j := cells]), key, freshSeed);
    }

    /** One entry fewer, and a new seed once there is none. */
    method CountDown(ghost left: Store<K, V>, ghost key: K, freshSeed: nat)
      requires oldbuckets == null && buckets != null && key in M && count == |M|
      requires Backs(buckets, left, M - {key}, zero, hasher, if count == 1 then freshSeed else hash0, B)
      modifies this
      ensures Valid() && oldbuckets == null && store == left && hashWriting == old(hashWriting)
      ensures M == old(M) - {key} && B == old(B)
      ensures hash0 == if |old(M)| == 1 then freshSeed else old(hash0)
    {
      store, M, count := left, M - {key}, count - 1;
      if count == 0 {
        hash0 := freshSeed;
      }
    }

    /** `count`, what len(m) reports, is the number of occupied cells. */
    lemma CountIsOccupied()
      requires Valid() && Heads() != null
      ensures count == |Occupied(store.table)|
    {
      OccupiedMatchesEntries(store.table, M, zero, hasher, hash0, DataBits());
    }

    /** One operation: as on a plain map, unless it makes the table start growing. */
    method Do(op: Op<K, V>) returns (grew: bool, answer: seq<V>)
      requires Valid() && oldbuckets == null && !hashWriting
      modifies this, store.nodes
      ensures Valid() && fresh(store.nodes - old(store.nodes))
      ensures grew <==> GrowthDue(op, old(M), old(B))
      ensures grew ==> oldbuckets != null && M == old(M)
      ensures !grew ==> oldbuckets == null && !hashWriting && B == old(B)
      ensures !grew ==> M == Apply(old(M), op) && answer == Answer(old(M), op, zero)
    {
      grew, answer := false, [];
      match op {
        case Assign(k, v, tooMany) =>
          var r := Put(k, v, tooMany);
          grew := r.GrowthStarted?;
        case Delete(k, freshSeed) =>
          var _ := MapDelete(k, freshSeed);
        case Read(k) =>
          var r := MapAccess1(k);
          answer := [r.elem];
      }
    }

    /**
      A whole run of operations answers every read as a plain map would, up to the end of the list or to the
      first assignment that makes the table start growing.
     */
    method Run(ops: seq<Op<K, V>>) returns (done: nat, answers: seq<V>)
      requires Valid() && oldbuckets == null && !hashWriting
      modifies this, store.nodes
      ensures done <= |ops| && (done < |ops| <==> oldbuckets != null)
      ensures done < |ops| ==> GrowthDue(ops[done], M, old(B))
      ensures !GrowsWithin(old(M), ops, done, old(B))
      ensures Valid() && M == After(old(M), ops[..done])
      ensures answers == Answers(old(M), ops[..done], zero)
    {
      done, answers := 0, [];
      while done < |ops|
        invariant 0 <= done <= |ops|
        invariant Valid() && oldbuckets == null && !hashWriting && fresh(store.nodes - old(store.nodes)) && B == old(B)
        invariant Tracks(old(M), ops, done, M, answers, zero, B)
      {
        ghost var now := M;
        var grew, answer := Do(ops[done]);
        if grew {
          return;
        }
        OneMore(old(M), ops, done, now, answers, zero, B);
        answers := answers + answer;
        done := done + 1;
      }
    }
  }
}
