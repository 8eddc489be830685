/**
  One bucket chain of the hash table, seen as the list of its cells: the eight cells of the
  first bucket, then the eight of the first overflow bucket, and so on.
 */
module MapCells {
  import opened Options
  import opened Bits

  const BUCKET_CNT := 8

  // Cell markers. Values 2, 3 and 4 mark evacuated buckets; real hash bytes start at 5.
  const EMPTY_REST := 0
  const EMPTY_ONE := 1
  const MIN_TOP_HASH := 5

  datatype Cell<K, V> = Cell(top: nat, key: Option<K>, elem: V)

  predicate IsEmpty(top: nat) {
    top <= EMPTY_ONE
  }

  /** The byte kept in a cell for a 64-bit hash: its top byte, moved out of the marker range. */
  function TopHash(hash: nat): (top: nat)
    ensures top >= MIN_TOP_HASH
  {
    var top := (hash / 0x100_0000_0000_0000) % 256;
    if top < MIN_TOP_HASH then top + MIN_TOP_HASH else top
  }

  /**
    The byte is one of 5 to 255, and two hashes share it just when their top bytes are equal, or one is a marker value
    and the other is five more.
   */
  lemma TopHashTellsApart(h: nat, h': nat)
    requires h < 0x1_0000_0000_0000_0000 && h' < 0x1_0000_0000_0000_0000
    ensures MIN_TOP_HASH <= TopHash(h) <= 255
    ensures var t, t' := h / 0x100_0000_0000_0000, h' / 0x100_0000_0000_0000;
            TopHash(h) == TopHash(h') <==> t == t' || (t < 5 && t' == t + 5) || (t' < 5 && t == t' + 5)
  {
  }

  /** No cell at position p or later is occupied. */
  ghost predicate Exhausted<K, V>(cells: seq<Cell<K, V>>, p: nat) {
    forall q :: p <= q < |cells| ==> IsEmpty(cells[q].top)
  }

  /**
    The marking invariant, in both directions: a cell says "empty, and so is everything after me"
    exactly when that is so.
   */
  ghost predicate Marked<K, V>(cells: seq<Cell<K, V>>) {
    forall p {:trigger Exhausted(cells, p)} :: 0 <= p < |cells| ==> (cells[p].top == EMPTY_REST <==> Exhausted(cells, p))
  }

  ghost predicate Holds<K, V>(cells: seq<Cell<K, V>>, p: nat, key: K) {
    p < |cells| && !IsEmpty(cells[p].top) && cells[p].key == Some(key)
  }

  /**
    Cell p is in order: an empty one has the zero element, an occupied one carries a key that belongs in
    bucket `home`, with the top byte of that key's hash.
   */
  ghost predicate InPlace<K, V>(cells: seq<Cell<K, V>>, p: nat, zero: V, hasher: (K, nat) -> nat, seed: nat, B: nat, home: nat)
    requires p < |cells|
  {
    if IsEmpty(cells[p].top) then cells[p].elem == zero
    else
      && cells[p].key.Some?
      && cells[p].top == TopHash(hasher(cells[p].key.value, seed))
      && And(hasher(cells[p].key.value, seed), BucketMask(B)) == home
  }

  /** No key is held twice. */
  ghost predicate Distinct<K(!new), V>(cells: seq<Cell<K, V>>) {
    forall p: nat, q: nat, key: K :: Holds(cells, p, key) && Holds(cells, q, key) ==> p == q
  }

  /** What holds of every chain of the table between two operations. */
  ghost predicate ChainInv<K(!new), V>(cells: seq<Cell<K, V>>, zero: V, hasher: (K, nat) -> nat, seed: nat, B: nat, home: nat) {
    && Marked(cells)
    && (forall p {:trigger InPlace(cells, p, zero, hasher, seed, B, home)} ::
          0 <= p < |cells| ==> InPlace(cells, p, zero, hasher, seed, B, home))
    && Distinct(cells)
  }

  /** The list after the key at p was removed, `kept` being what is left in its key slot: every other occupied cell is as before, and the marks are right again. */
  ghost predicate Erased<K, V>(before: seq<Cell<K, V>>, p: nat, zero: V, kept: Option<K>, after: seq<Cell<K, V>>) {
    && |after| == |before|
    && p < |before|
    && Marked(after)
    && IsEmpty(after[p].top) && after[p].elem == zero && after[p].key == kept
    && (forall q :: 0 <= q < |before| && q != p && IsEmpty(before[q].top) ==>
          IsEmpty(after[q].top) && after[q].elem == before[q].elem && after[q].key == before[q].key)
    && (forall q :: 0 <= q < |before| && q != p && !IsEmpty(before[q].top) ==> after[q] == before[q])
  }

  /** What a removal leaves in the key slot of a cell: nothing, if keys hold pointers. */
  function KeptKey<K, V>(cell: Cell<K, V>, clearKey: bool): Option<K> {
    if clearKey then None else cell.key
  }

  /** p is the first empty position of the list (its length if there is none). */
  ghost predicate FirstEmpty<K, V>(cells: seq<Cell<K, V>>, p: nat) {
    && p <= |cells|
    && (p < |cells| ==> IsEmpty(cells[p].top))
    && (forall q :: 0 <= q < p ==> !IsEmpty(cells[q].top))
  }

  /** The list extended by an overflow bucket's blank cells when there is no room left. */
  ghost function Roomy<K, V>(cells: seq<Cell<K, V>>, p: nat, zero: V): seq<Cell<K, V>> {
    if p < |cells| then cells else cells + seq(BUCKET_CNT, _ => Cell(EMPTY_REST, None, zero))
  }

  /**
    An `emptyRest` cell can be believed: once a search meets one at p, the key is nowhere at p or later.
    With it goes the suffix law that all cells after an `emptyRest` cell are `emptyRest` themselves.
   */
  lemma RestIsSuffix<K, V>(cells: seq<Cell<K, V>>, p: nat, q: nat)
    requires Marked(cells) && p <= q < |cells| && cells[p].top == EMPTY_REST
    ensures cells[q].top == EMPTY_REST
  {
    assert Exhausted(cells, p) && Exhausted(cells, q);
  }

  /** The marks of a list are determined by which cells are occupied: there is only one right marking. */
  lemma MarksAreDetermined<K, V>(a: seq<Cell<K, V>>, b: seq<Cell<K, V>>)
    requires Marked(a) && Marked(b) && |a| == |b|
    requires forall p :: 0 <= p < |a| ==> (IsEmpty(a[p].top) <==> IsEmpty(b[p].top))
    requires forall p :: 0 <= p < |a| && !IsEmpty(a[p].top) ==> a[p].top == b[p].top
    ensures forall p :: 0 <= p < |a| ==> a[p].top == b[p].top
  {
    forall p | 0 <= p < |a| ensures a[p].top == b[p].top {
      assert Exhausted(a, p) <==> Exhausted(b, p);
    }
  }

  /** Removing a key keeps the chain invariant, and the key is gone. */
  lemma ErasedKeepsInv<K(!new), V>(before: seq<Cell<K, V>>, p: nat, after: seq<Cell<K, V>>, key: K, zero: V, kept: Option<K>,
                                 hasher: (K, nat) -> nat, seed: nat, B: nat, home: nat)
    requires ChainInv(before, zero, hasher, seed, B, home) && Holds(before, p, key) && Erased(before, p, zero, kept, after)
    ensures ChainInv(after, zero, hasher, seed, B, home)
    ensures forall q: nat :: !Holds(after, q, key)
    ensures forall q: nat, k: K :: k != key ==> (Holds(before, q, k) <==> Holds(after, q, k))
  {
    forall q | 0 <= q < |after| ensures InPlace(after, q, zero, hasher, seed, B, home) {
      assert InPlace(before, q, zero, hasher, seed, B, home);
    }
    forall q: nat, k | Holds(after, q, k) ensures Holds(before, q, k) && k != key {
      assert Holds(before, q, k);
      assert q != p;
    }
  }

  /** Writing a new key at the first empty position keeps the chain invariant. */
  lemma InsertKeepsInv<K(!new), V>(before: seq<Cell<K, V>>, p: nat, key: K, elem: V, zero: V,
                                 hasher: (K, nat) -> nat, seed: nat, B: nat, home: nat)
    requires ChainInv(before, zero, hasher, seed, B, home) && FirstEmpty(before, p)
    requires forall q: nat :: !Holds(before, q, key)
    requires And(hasher(key, seed), BucketMask(B)) == home
    ensures p < |Roomy(before, p, zero)|
    ensures var after := Roomy(before, p, zero)[p := Cell(TopHash(hasher(key, seed)), Some(key), elem)];
            && ChainInv(after, zero, hasher, seed, B, home)
            && Holds(after, p, key)
            && (forall q: nat, k: K :: k != key ==> (Holds(before, q, k) <==> Holds(after, q, k)))
            && (forall q: nat, k: K :: k != key && Holds(after, q, k) ==> before[q] == after[q])
  {
    var wide := Roomy(before, p, zero);
    var after := wide[p := Cell(TopHash(hasher(key, seed)), Some(key), elem)];
    MarkedAfterInsert(before, p, wide, after);
    forall q | 0 <= q < |after| ensures InPlace(after, q, zero, hasher, seed, B, home) {
      if q < |before| {
        assert InPlace(before, q, zero, hasher, seed, B, home);
      }
    }
    forall q: nat, k | Holds(after, q, k) && q != p ensures Holds(before, q, k) {
      assert q < |before| && after[q] == before[q];
    }
    forall q: nat, k | Holds(before, q, k) ensures Holds(after, q, k) {
      assert q != p && after[q] == before[q];
    }
  }

  /** Filling the first empty position leaves the marks right. */
  lemma MarkedAfterInsert<K, V>(before: seq<Cell<K, V>>, p: nat, wide: seq<Cell<K, V>>, after: seq<Cell<K, V>>)
    requires Marked(before) && FirstEmpty(before, p) && p < |wide| == |after| && before <= wide
    requires forall q :: |before| <= q < |wide| ==> wide[q].top == EMPTY_REST
    requires forall q :: 0 <= q < |wide| && q != p ==> after[q] == wide[q]
    requires !IsEmpty(after[p].top) && (p < |before| ==> wide == before)
    ensures Marked(after)
  {
    forall q | 0 <= q < |after|
      ensures after[q].top == EMPTY_REST <==> Exhausted(after, q)
    {
      if q <= p {
        assert !IsEmpty(after[p].top);
      } else if q < |before| {
        assert forall r :: q <= r < |after| ==> after[r] == before[r];
        assert Exhausted(after, q) <==> Exhausted(before, q);
      }
    }
  }

  /** Overwriting the element of the key at p keeps the chain invariant. */
  lemma OverwriteKeepsInv<K(!new), V>(before: seq<Cell<K, V>>, p: nat, key: K, elem: V, zero: V,
                                    hasher: (K, nat) -> nat, seed: nat, B: nat, home: nat)
    requires ChainInv(before, zero, hasher, seed, B, home) && Holds(before, p, key)
    ensures var after := before[p := before[p].(elem := elem)];
            && ChainInv(after, zero, hasher, seed, B, home)
            && (forall q: nat, k: K :: Holds(before, q, k) <==> Holds(after, q, k))
            && (forall q: nat, k: K :: k != key && Holds(after, q, k) ==> before[q] == after[q])
  {
    var after := before[p := before[p].(elem := elem)];
    assert forall q :: 0 <= q < |after| ==> after[q].top == before[q].top && after[q].key == before[q].key;
    forall q | 0 <= q < |after|
      ensures Exhausted(after, q) <==> Exhausted(before, q)
    {
      if Exhausted(after, q) {
        assert forall r :: q <= r < |before| ==> IsEmpty(before[r].top) by {
          forall r | q <= r < |before| ensures IsEmpty(before[r].top) { assert IsEmpty(after[r].top); }
        }
      }
    }
    forall q | 0 <= q < |after| ensures InPlace(after, q, zero, hasher, seed, B, home) {
      assert InPlace(before, q, zero, hasher, seed, B, home);
    }
    assert forall q: nat, k: K :: Holds(before, q, k) <==> Holds(after, q, k);
  }

  /**
    The state of a removal at `hit` while it walks backwards: cells s..hit are `emptyRest`, every cell
    after them is too, and everything before s is as it was.
   */
  ghost predicate Swept<K, V>(was: seq<Cell<K, V>>, now: seq<Cell<K, V>>, hit: nat, zero: V, kept: Option<K>, s: nat) {
    && |now| == |was| && s <= hit + 1 && hit < |was|
    && (forall q :: 0 <= q < s && q != hit ==> now[q] == was[q])
    && now[hit].elem == zero && now[hit].key == kept
    && (forall q :: s <= q <= hit ==> now[q].top == EMPTY_REST)
    && (forall q :: s <= q < hit ==> now[q].elem == was[q].elem && now[q].key == was[q].key)
    && (forall q :: s <= q < hit ==> IsEmpty(was[q].top))
    && (forall q :: hit < q < |was| ==> now[q] == was[q] && was[q].top == EMPTY_REST)
  }

  /** An occupied cell follows: leaving `emptyOne` at the hole is the right marking. */
  lemma OccupiedFollows<K, V>(was: seq<Cell<K, V>>, now: seq<Cell<K, V>>, hit: nat, zero: V, kept: Option<K>)
    requires Marked(was) && hit + 1 < |was| && !IsEmpty(was[hit].top)
    requires |now| == |was| && now == was[hit := now[hit]] && now[hit].top == EMPTY_ONE && now[hit].elem == zero && now[hit].key == kept && now[hit + 1].top != EMPTY_REST
    ensures Erased(was, hit, zero, kept, now)
  {
    assert !Exhausted(was, hit + 1);
    var o :| hit + 1 <= o < |was| && !IsEmpty(was[o].top);
    forall q | 0 <= q < |now| ensures now[q].top == EMPTY_REST <==> Exhausted(now, q) {
      assert Exhausted(was, q) || !Exhausted(was, q);
      if q <= o {
        assert !IsEmpty(now[o].top);
      } else {
        assert forall x :: q <= x < |was| ==> now[x] == was[x];
      }
    }
  }

  /** Nothing follows: the walk back may begin. */
  lemma NothingFollows<K, V>(was: seq<Cell<K, V>>, now: seq<Cell<K, V>>, hit: nat, zero: V, kept: Option<K>)
    requires Marked(was) && hit < |was| && !IsEmpty(was[hit].top)
    requires |now| == |was| && now == was[hit := now[hit]] && now[hit].top == EMPTY_ONE && now[hit].elem == zero && now[hit].key == kept
    requires hit + 1 < |was| ==> now[hit + 1].top == EMPTY_REST
    ensures Swept(was, now, hit, zero, kept, hit + 1)
  {
    forall q | hit < q < |was| ensures was[q].top == EMPTY_REST {
      RestIsSuffix(was, hit + 1, q);
    }
  }

  /**
    The walk back stops at the right place: either the beginning of the chain, or just after a cell
    that is occupied, so the marks are right again and no cell before an occupied one was converted.
   */
  lemma SweepEnds<K, V>(was: seq<Cell<K, V>>, now: seq<Cell<K, V>>, hit: nat, zero: V, kept: Option<K>, s: nat)
    requires Marked(was) && Swept(was, now, hit, zero, kept, s) && s <= hit && !IsEmpty(was[hit].top)
    requires s == 0 || now[s - 1].top != EMPTY_ONE
    ensures Erased(was, hit, zero, kept, now)
  {
    if s > 0 {
      assert !Exhausted(was, s - 1);
      assert !IsEmpty(was[s - 1].top);
    }
    forall q | 0 <= q < |now| ensures now[q].top == EMPTY_REST <==> Exhausted(now, q) {
      if q < s {
        assert !Exhausted(was, q);
        assert !IsEmpty(now[s - 1].top);
      }
    }
  }

  /** One step of the walk back. */
  lemma SweepStep<K, V>(was: seq<Cell<K, V>>, now: seq<Cell<K, V>>, hit: nat, zero: V, kept: Option<K>, p: nat,
                        now': seq<Cell<K, V>>)
    requires Swept(was, now, hit, zero, kept, p + 1) && p <= hit && IsEmpty(now[p].top)
    requires now' == now[p := now[p].(top := EMPTY_REST)]
    ensures Swept(was, now', hit, zero, kept, p)
  {
  }

  /** What a scan of the first p cells for a key has found: not the key; and at w the first empty cell, if w < p. */
  ghost predicate Scanned<K, V>(cells: seq<Cell<K, V>>, p: nat, key: K, w: nat) {
    && p <= |cells| && w <= p
    && (forall q: nat :: q < p ==> !Holds(cells, q, key))
    && (forall q :: 0 <= q < w ==> !IsEmpty(cells[q].top))
    && (w < p ==> IsEmpty(cells[w].top))
  }

  /** A cell whose byte differs from the key's, or whose key does, is passed over. */
  lemma ScanStep<K(!new), V>(cells: seq<Cell<K, V>>, p: nat, key: K, w: nat,
                       zero: V, hasher: (K, nat) -> nat, seed: nat, B: nat, home: nat)
    requires ChainInv(cells, zero, hasher, seed, B, home) && Scanned(cells, p, key, w) && p < |cells|
    requires cells[p].top != TopHash(hasher(key, seed)) || cells[p].key != Some(key)
    ensures Scanned(cells, p + 1, key, if w == p && !IsEmpty(cells[p].top) then p + 1 else w)
  {
    if !IsEmpty(cells[p].top) {
      assert InPlace(cells, p, zero, hasher, seed, B, home);
    }
  }

  /** An `emptyRest` cell ends the scan: the key is nowhere, and the first empty cell is known. */
  lemma ScanStopsAtRest<K, V>(cells: seq<Cell<K, V>>, p: nat, key: K, w: nat)
    requires Marked(cells) && Scanned(cells, p, key, w) && p < |cells| && cells[p].top == EMPTY_REST
    ensures forall q: nat :: !Holds(cells, q, key)
    ensures FirstEmpty(cells, w)
  {
    assert Exhausted(cells, p);
  }
}
