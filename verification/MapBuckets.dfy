/**
  The buckets of the hash table on the heap: eight cells each, linked through overflow pointers.
  The three inner loops of the table (search, search for a free cell, clear a cell) work on one chain.
 */
module MapBuckets {
  import opened Options
  import opened MapCells

  /**
    A bucket. Its three arrays are stored inline in the bucket itself, as Go arrays are values;
    `home` and `rank` say where the bucket sits (which chain, how far down) and never change.
   */
  class Bucket<K, V> {
    var tophash: seq<nat>
    var keys: seq<Option<K>>
    var elems: seq<V>
    var overflow: Bucket?<K, V>
    ghost const home: nat
    ghost const rank: nat

    /** A bucket of zeroed memory. */
    constructor (zero: V, ghost home: nat, ghost rank: nat)
      ensures Shaped() && overflow == null && this.home == home && this.rank == rank
      ensures forall i :: 0 <= i < BUCKET_CNT ==> At(i) == Cell(EMPTY_REST, None, zero)
    {
      this.home, this.rank := home, rank;
      tophash := seq(BUCKET_CNT, _ => EMPTY_REST);
      keys := seq(BUCKET_CNT, _ => None);
      elems := seq(BUCKET_CNT, _ => zero);
      overflow := null;
    }

    ghost predicate Shaped()
      reads this
    {
      |tophash| == BUCKET_CNT && |keys| == BUCKET_CNT && |elems| == BUCKET_CNT
    }

    ghost function At(i: nat): Cell<K, V>
      requires Shaped() && i < BUCKET_CNT
      reads this
    {
      Cell(tophash[i], keys[i], elems[i])
    }
  }

  /** `chain` lists the buckets reached from its first one by overflow pointers, all of them in table slot `home`. */
  ghost predicate Linked<K, V>(chain: seq<Bucket<K, V>>, home: nat)
    reads chain
  {
    && |chain| >= 1
    && (forall r :: 0 <= r < |chain| ==> chain[r].Shaped() && chain[r].home == home && chain[r].rank == r)
    && (forall r {:trigger chain[r].overflow} :: 0 <= r < |chain| - 1 ==> chain[r].overflow == chain[r + 1])
    && chain[|chain| - 1].overflow == null
  }

  /** The bucket belongs to the chain, at its rank. */
  ghost predicate Member<K, V>(chain: seq<Bucket<K, V>>, b: Bucket<K, V>) {
    b.rank < |chain| && chain[b.rank] == b
  }

  /** `cells` are the cells of the chain, laid end to end. */
  ghost predicate Shows<K, V>(chain: seq<Bucket<K, V>>, home: nat, cells: seq<Cell<K, V>>)
    reads chain
  {
    && Linked(chain, home)
    && |cells| == BUCKET_CNT * |chain|
    && (forall r, i {:trigger chain[r].At(i)} :: 0 <= r < |chain| && 0 <= i < BUCKET_CNT
                                                 ==> cells[BUCKET_CNT * r + i] == chain[r].At(i))
  }

  /**
    Searching a chain for a key, with the early exit at the first `emptyRest` cell. The exit loses
    nothing: the search reports "absent" exactly when no cell of the whole chain holds the key.
   */
  method FindCell<K(!new, ==), V>(head: Bucket<K, V>, top: nat, key: K, ghost chain: seq<Bucket<K, V>>, ghost cells: seq<Cell<K, V>>,
                            ghost zero: V, ghost hasher: (K, nat) -> nat, ghost seed: nat, ghost B: nat, ghost home: nat)
    returns (b: Bucket?<K, V>, i: nat)
    requires Shows(chain, home, cells) && head == chain[0]
    requires ChainInv(cells, zero, hasher, seed, B, home) && top == TopHash(hasher(key, seed))
    ensures b != null ==> Member(chain, b) && i < BUCKET_CNT
                          && Holds(cells, BUCKET_CNT * b.rank + i, key)
    ensures b == null ==> forall p: nat :: !Holds(cells, p, key)
  {
    ghost var r: nat, w: nat := 0, 0;
    b, i := head, 0;
    while b != null
      invariant 0 <= r <= |chain| && b == (if r < |chain| then chain[r] else null)
      invariant Scanned(cells, BUCKET_CNT * r, key, w)
      decreases |chain| - r
    {
      i := 0;
      while i < BUCKET_CNT
        invariant 0 <= i <= BUCKET_CNT
        invariant Scanned(cells, BUCKET_CNT * r + i, key, w)
      {
        ghost var p := BUCKET_CNT * r + i;
        assert cells[p] == b.At(i);
        if b.tophash[i] != top {
          if b.tophash[i] == EMPTY_REST {
            ScanStopsAtRest(cells, p, key, w);
            return null, i;
          }
        } else if b.keys[i] == Some(key) {
          return;
        }
        ScanStep(cells, p, key, w, zero, hasher, seed, B, home);
        w := if w == p && !IsEmpty(cells[p].top) then p + 1 else w;
        i := i + 1;
      }
      b := b.overflow;
      r := r + 1;
    }
  }

  /** (b, i) is the cell at position w, once a scan of the first p cells has met an empty one at w < p. */
  ghost predicate Remembers<K, V>(chain: seq<Bucket<K, V>>, b: Bucket?<K, V>, i: nat, w: nat, p: nat) {
    if b == null then w == p
    else w < p && Member(chain, b) && i < BUCKET_CNT && w == BUCKET_CNT * b.rank + i
  }

  datatype Probe = Found | Free | Full

  /**
    Searching a chain for a key before inserting it, while remembering the first empty cell seen.
    Found: (b, i) holds the key. Free: the key is absent and (b, i) is the first empty cell.
    Full: the key is absent, no cell is empty, and b is the last bucket of the chain.
   */
  method FindOrReserve<K(!new, ==), V>(head: Bucket<K, V>, top: nat, key: K, ghost chain: seq<Bucket<K, V>>, ghost cells: seq<Cell<K, V>>,
                                 ghost zero: V, ghost hasher: (K, nat) -> nat, ghost seed: nat, ghost B: nat, ghost home: nat)
    returns (probe: Probe, b: Bucket<K, V>, i: nat)
    requires Shows(chain, home, cells) && head == chain[0]
    requires ChainInv(cells, zero, hasher, seed, B, home) && top == TopHash(hasher(key, seed))
    ensures Member(chain, b) && i < BUCKET_CNT
    ensures probe != Found ==> forall p: nat :: !Holds(cells, p, key)
    ensures probe == Found ==> Holds(cells, BUCKET_CNT * b.rank + i, key)
    ensures probe == Free ==> FirstEmpty(cells, BUCKET_CNT * b.rank + i)
    ensures probe == Full ==> b == chain[|chain| - 1] && i == 0 && FirstEmpty(cells, |cells|)
  {
    var cur: Bucket<K, V> := head;
    var insertb: Bucket?<K, V>, inserti := null, 0;
    ghost var r: nat, w: nat := 0, 0;
    while true
      invariant 0 <= r < |chain| && cur == chain[r]
      invariant Scanned(cells, BUCKET_CNT * r, key, w)
      invariant Remembers(chain, insertb, inserti, w, BUCKET_CNT * r)
      decreases |chain| - r
    {
      var j := 0;
      while j < BUCKET_CNT
        invariant 0 <= j <= BUCKET_CNT
        invariant Scanned(cells, BUCKET_CNT * r + j, key, w)
        invariant Remembers(chain, insertb, inserti, w, BUCKET_CNT * r + j)
      {
        ghost var p := BUCKET_CNT * r + j;
        assert cells[p] == cur.At(j);
        if cur.tophash[j] != top {
          if IsEmpty(cur.tophash[j]) && insertb == null {
            insertb, inserti := cur, j;
          }
          if cur.tophash[j] == EMPTY_REST {
            ScanStopsAtRest(cells, p, key, w);
            return Free, insertb, inserti;
          }
        } else if cur.keys[j] == Some(key) {
          return Found, cur, j;
        }
        ScanStep(cells, p, key, w, zero, hasher, seed, B, home);
        w := if w == p && !IsEmpty(cells[p].top) then p + 1 else w;
        j := j + 1;
      }
      var ovf := cur.overflow;
      if ovf == null {
        break;
      }
      cur := ovf;
      r := r + 1;
    }
    if insertb == null {
      return Full, cur, 0;
    }
    return Free, insertb, inserti;
  }

  /** Writing one cell of one bucket changes that cell of the chain and nothing else. */
  method SetCell<K, V>(b: Bucket<K, V>, i: nat, top: nat, key: Option<K>, elem: V,
                       ghost chain: seq<Bucket<K, V>>, ghost home: nat, ghost was: seq<Cell<K, V>>)
    returns (ghost now: seq<Cell<K, V>>)
    requires Shows(chain, home, was) && Member(chain, b) && i < BUCKET_CNT
    modifies b
    ensures BUCKET_CNT * b.rank + i < |was| && now == was[BUCKET_CNT * b.rank + i := Cell(top, key, elem)]
    ensures Shows(chain, home, now)
    ensures b.At(i) == Cell(top, key, elem) && b.overflow == old(b.overflow)
  {
    assert was[BUCKET_CNT * b.rank + i] == b.At(i);
    b.tophash := b.tophash[i := top];
    b.keys := b.keys[i := key];
    b.elems := b.elems[i := elem];
    now := was[BUCKET_CNT * b.rank + i := Cell(top, key, elem)];
    forall r, j | 0 <= r < |chain| && 0 <= j < BUCKET_CNT
      ensures now[BUCKET_CNT * r + j] == chain[r].At(j)
    {
      assert old(chain[r].At(j)) == was[BUCKET_CNT * r + j];
    }
  }

  /** A blank overflow bucket hung onto the last bucket of a chain. */
  method NewOverflow<K, V>(last: Bucket<K, V>, zero: V,
                           ghost chain: seq<Bucket<K, V>>, ghost home: nat, ghost cells: seq<Cell<K, V>>)
    returns (newb: Bucket<K, V>)
    requires Shows(chain, home, cells) && last == chain[|chain| - 1]
    modifies last
    ensures fresh(newb) && newb.home == home && newb.rank == |chain|
    ensures Shows(chain + [newb], home, Roomy(cells, |cells|, zero))
  {
    newb := new Bucket(zero, home, |chain|);
    last.overflow := newb;
    ghost var chain', cells' := chain + [newb], Roomy(cells, |cells|, zero);
    forall r, i | 0 <= r < |chain'| && 0 <= i < BUCKET_CNT
      ensures cells'[BUCKET_CNT * r + i] == chain'[r].At(i)
    {
      if r < |chain| {
        assert old(chain[r].At(i)) == cells[BUCKET_CNT * r + i];
      }
    }
  }

  /** What the look-ahead finds: the mark of the following cell, wherever it is stored. */
  lemma NextMark<K, V>(chain: seq<Bucket<K, V>>, home: nat, cells: seq<Cell<K, V>>, r: nat, i: nat)
    requires Shows(chain, home, cells) && r < |chain| && i < BUCKET_CNT
    ensures var p := BUCKET_CNT * r + i + 1;
            && (p == |cells| <==> i == BUCKET_CNT - 1 && chain[r].overflow == null)
            && (p < |cells| && i == BUCKET_CNT - 1 ==> cells[p].top == chain[r].overflow.tophash[0])
            && (p < |cells| && i < BUCKET_CNT - 1 ==> cells[p].top == chain[r].tophash[i + 1])
  {
    if i < BUCKET_CNT - 1 {
      assert cells[BUCKET_CNT * r + i + 1] == chain[r].At(i + 1);
    } else if r + 1 < |chain| {
      assert cells[BUCKET_CNT * (r + 1)] == chain[r + 1].At(0);
    }
  }

  /** The bucket before c, found from the front because the links only point forward. */
  method PreviousBucket<K, V>(bOrig: Bucket<K, V>, c: Bucket<K, V>, ghost chain: seq<Bucket<K, V>>, ghost home: nat)
    returns (b: Bucket<K, V>)
    requires Linked(chain, home) && bOrig == chain[0] && c != bOrig
    requires Member(chain, c)
    ensures b == chain[c.rank - 1]
  {
    b := bOrig;
    ghost var k := 0;
    while b.overflow != c
      invariant 0 <= k < c.rank && b == chain[k]
      decreases c.rank - k
    {
      b := b.overflow;
      k := k + 1;
    }
  }

  /** One conversion of the backwards walk: cell (b, i) becomes `emptyRest`. */
  method MarkRest<K, V>(b: Bucket<K, V>, i: nat, ghost chain: seq<Bucket<K, V>>, ghost home: nat,
                        ghost was: seq<Cell<K, V>>, ghost hit: nat, ghost zero: V, ghost kept: Option<K>,
                        ghost cells: seq<Cell<K, V>>)
    returns (ghost now: seq<Cell<K, V>>)
    requires Shows(chain, home, cells) && Member(chain, b) && i < BUCKET_CNT
    requires var p := BUCKET_CNT * b.rank + i;
             p <= hit && Swept(was, cells, hit, zero, kept, p + 1) && cells[p].top == EMPTY_ONE
    modifies b
    ensures Shows(chain, home, now)
    ensures Swept(was, now, hit, zero, kept, BUCKET_CNT * b.rank + i)
  {
    ghost var p := BUCKET_CNT * b.rank + i;
    assert cells[p] == b.At(i);
    now := SetCell(b, i, EMPTY_REST, b.keys[i], b.elems[i], chain, home, cells);
    SweepStep(was, cells, hit, zero, kept, p, now);
  }

  /** One cell back: the previous cell of the bucket, or the last cell of the bucket before. */
  method StepBack<K, V>(bOrig: Bucket<K, V>, b: Bucket<K, V>, i: nat,
                        ghost chain: seq<Bucket<K, V>>, ghost home: nat, ghost cells: seq<Cell<K, V>>)
    returns (b': Bucket<K, V>, i': nat)
    requires Shows(chain, home, cells) && bOrig == chain[0]
    requires Member(chain, b) && i < BUCKET_CNT && (i > 0 || b != bOrig)
    ensures Member(chain, b') && i' < BUCKET_CNT
    ensures BUCKET_CNT * b'.rank + i' == BUCKET_CNT * b.rank + i - 1
    ensures cells[BUCKET_CNT * b'.rank + i'].top == b'.tophash[i']
  {
    if i == 0 {
      b' := PreviousBucket(bOrig, b, chain, home);
      i' := BUCKET_CNT - 1;
    } else {
      b', i' := b, i - 1;
    }
    assert cells[BUCKET_CNT * b'.rank + i'] == b'.At(i');
  }

  /**
    The backwards walk of a removal: from the cleared cell (bHit, iHit), turning it and every `emptyOne`
    cell directly before it into `emptyRest`, over earlier buckets too, down to an occupied cell or the start.
   */
  method SweepBack<K, V>(bOrig: Bucket<K, V>, bHit: Bucket<K, V>, iHit: nat, ghost chain: seq<Bucket<K, V>>,
                         ghost home: nat, ghost was: seq<Cell<K, V>>, ghost zero: V, ghost kept: Option<K>,
                         ghost cells: seq<Cell<K, V>>)
    returns (ghost now: seq<Cell<K, V>>)
    requires Shows(chain, home, cells) && bOrig == chain[0] && Marked(was)
    requires Member(chain, bHit) && iHit < BUCKET_CNT && bHit.tophash[iHit] == EMPTY_ONE
    requires var hit := BUCKET_CNT * bHit.rank + iHit;
             Swept(was, cells, hit, zero, kept, hit + 1) && !IsEmpty(was[hit].top)
    modifies chain
    ensures Shows(chain, home, now)
    ensures Erased(was, BUCKET_CNT * bHit.rank + iHit, zero, kept, now)
  {
    var b, i := bHit, iHit;
    ghost var r := b.rank;
    ghost var hit := BUCKET_CNT * r + i;
    now := cells;
    assert now[hit] == b.At(i);
    while true
      invariant Shows(chain, home, now)
      invariant 0 <= r < |chain| && b == chain[r] && 0 <= i < BUCKET_CNT && now[BUCKET_CNT * r + i].top == EMPTY_ONE
      invariant Swept(was, now, hit, zero, kept, BUCKET_CNT * r + i + 1)
      decreases r, i
    {
      ghost var p := BUCKET_CNT * r + i;
      now := MarkRest(b, i, chain, home, was, hit, zero, kept, now);
      if i == 0 && b == bOrig {
        SweepEnds(was, now, hit, zero, kept, p);
        break;
      }
      b, i := StepBack(bOrig, b, i, chain, home, now);
      r := b.rank;
      if b.tophash[i] != EMPTY_ONE {
        SweepEnds(was, now, hit, zero, kept, p);
        break;
      }
    }
  }

  /**
    Removing the key in cell i of bucket b, and repairing the marks: if nothing occupied follows the
    cell, it and every `emptyOne` cell directly before it, back over earlier buckets of the singly
    linked chain, become `emptyRest`.
   */
  method ClearCell<K, V>(bOrig: Bucket<K, V>, b: Bucket<K, V>, i: nat, zero: V, clearKey: bool,
                         ghost chain: seq<Bucket<K, V>>, ghost home: nat, ghost was: seq<Cell<K, V>>)
    returns (ghost now: seq<Cell<K, V>>)
    requires Shows(chain, home, was) && bOrig == chain[0] && Marked(was)
    requires Member(chain, b) && i < BUCKET_CNT && !IsEmpty(b.tophash[i])
    modifies chain
    ensures Shows(chain, home, now)
    ensures BUCKET_CNT * b.rank + i < |was|
    ensures Erased(was, BUCKET_CNT * b.rank + i, zero, KeptKey(was[BUCKET_CNT * b.rank + i], clearKey), now)
  {
    ghost var r := b.rank;
    ghost var hit := BUCKET_CNT * r + i;
    assert was[hit] == b.At(i);
    ghost var kept := if clearKey then None else b.keys[i];
    now := SetCell(b, i, EMPTY_ONE, if clearKey then None else b.keys[i], zero, chain, home, was);

    // Does anything occupied follow? The next cell's mark tells.
    NextMark(chain, home, now, r, i);
    var notLast: bool;
    if i == BUCKET_CNT - 1 {
      notLast := b.overflow != null && b.overflow.tophash[0] != EMPTY_REST;
    } else {
      notLast := b.tophash[i + 1] != EMPTY_REST;
    }
    if notLast {
      OccupiedFollows(was, now, hit, zero, kept);
    } else {
      NothingFollows(was, now, hit, zero, kept);
      now := SweepBack(bOrig, b, i, chain, home, was, zero, kept, now);
    }
  }
}
