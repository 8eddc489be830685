/**
  The whole hash table as a list of chains, and the finite map it stands for.
 */
module MapTable {
  import opened Options
  import opened Bits
  import opened MapCells

  type Table<K, V> = seq<seq<Cell<K, V>>>

  /** The chain a key belongs to in a table with 2^bits buckets. */
  function Home<K>(key: K, hasher: (K, nat) -> nat, seed: nat, bits: nat): (home: nat)
    ensures home < Pow2(bits)
  {
    MaskIsRemainder(hasher(key, seed), bits);
    And(hasher(key, seed), BucketMask(bits))
  }

  ghost predicate TableInv<K(!new), V>(table: Table<K, V>, zero: V, hasher: (K, nat) -> nat, seed: nat, bits: nat) {
    && |table| == Pow2(bits)
    && (forall j {:trigger ChainInv(table[j], zero, hasher, seed, bits, j)} ::
          0 <= j < |table| ==> ChainInv(table[j], zero, hasher, seed, bits, j))
  }

  /** The occupied cells are exactly the entries of M, each in its key's own chain. */
  ghost predicate Represents<K(!new), V>(table: Table<K, V>, M: map<K, V>,
                                         hasher: (K, nat) -> nat, seed: nat, bits: nat)
    requires |table| == Pow2(bits)
  {
    && (forall j: nat, p: nat, k: K {:trigger Holds(table[j], p, k)} ::
          j < |table| && Holds(table[j], p, k) ==> k in M && table[j][p].elem == M[k])
    && (forall k: K {:trigger Home(k, hasher, seed, bits)} ::
          k in M ==> exists p: nat :: Holds(table[Home(k, hasher, seed, bits)], p, k))
  }

  /** The table is in order and stands for M. */
  ghost predicate Sound<K(!new), V>(table: Table<K, V>, M: map<K, V>, zero: V,
                                    hasher: (K, nat) -> nat, seed: nat, bits: nat)
  {
    TableInv(table, zero, hasher, seed, bits) && Represents(table, M, hasher, seed, bits)
  }

  lemma CellInOrder<K(!new), V>(table: Table<K, V>, zero: V, hasher: (K, nat) -> nat, seed: nat, bits: nat, j: nat, p: nat)
    requires TableInv(table, zero, hasher, seed, bits) && j < |table| && p < |table[j]|
    ensures ChainInv(table[j], zero, hasher, seed, bits, j)
    ensures InPlace(table[j], p, zero, hasher, seed, bits, j)
  {
  }

  /** A key held in its home chain is held nowhere else in the table. */
  lemma HeldOnce<K(!new), V>(table: Table<K, V>, zero: V, hasher: (K, nat) -> nat, seed: nat, bits: nat,
                       key: K, j: nat, p: nat, j': nat, p': nat)
    requires TableInv(table, zero, hasher, seed, bits)
    requires j < |table| && Holds(table[j], p, key) && j' < |table| && Holds(table[j'], p', key)
    ensures j == j' == Home(key, hasher, seed, bits) && p == p'
  {
    CellInOrder(table, zero, hasher, seed, bits, j, p);
    CellInOrder(table, zero, hasher, seed, bits, j', p');
  }

  /** Searching one chain answers for the whole map. */
  lemma LookupByHome<K(!new), V>(table: Table<K, V>, M: map<K, V>, zero: V,
                                 hasher: (K, nat) -> nat, seed: nat, bits: nat, key: K)
    requires Sound(table, M, zero, hasher, seed, bits)
    ensures var j := Home(key, hasher, seed, bits);
            && ChainInv(table[j], zero, hasher, seed, bits, j)
            && (key !in M <==> forall p: nat :: !Holds(table[j], p, key))
            && (forall p: nat :: Holds(table[j], p, key) ==> key in M && table[j][p].elem == M[key])
  {
  }

  /** Replacing one chain by one that holds (key, v) and agrees on every other key updates the map at key. */
  lemma ChainPut<K(!new), V>(table: Table<K, V>, M: map<K, V>, zero: V,
                             hasher: (K, nat) -> nat, seed: nat, bits: nat,
                             key: K, v: V, chain': seq<Cell<K, V>>, p: nat)
    requires Sound(table, M, zero, hasher, seed, bits)
    requires var j := Home(key, hasher, seed, bits);
             && ChainInv(chain', zero, hasher, seed, bits, j) && Holds(chain', p, key) && chain'[p].elem == v
             && (forall q: nat, k: K :: k != key ==> (Holds(table[j], q, k) <==> Holds(chain', q, k)))
             && (forall q: nat, k: K :: k != key && Holds(chain', q, k) ==> table[j][q] == chain'[q])
    ensures Sound(table[Home(key, hasher, seed, bits) := chain'], M[key := v], zero, hasher, seed, bits)
  {
    var j := Home(key, hasher, seed, bits);
    var table', M' := table[j := chain'], M[key := v];
    forall i: nat, q: nat, k: K | i < |table'| && Holds(table'[i], q, k)
      ensures k in M' && table'[i][q].elem == M'[k]
    {
      if k == key {
        HeldOnce(table', zero, hasher, seed, bits, key, i, q, j, p);
      } else if i == j {
        assert Holds(table[j], q, k);
      } else {
        assert Holds(table[i], q, k);
      }
    }
    forall k | k in M' ensures exists q: nat :: Holds(table'[Home(k, hasher, seed, bits)], q, k) {
      if k == key {
        assert Holds(table'[j], p, key);
      } else {
        var q: nat :| Holds(table[Home(k, hasher, seed, bits)], q, k);
        assert Holds(table'[Home(k, hasher, seed, bits)], q, k);
      }
    }
  }

  /** Replacing one chain by one without the key, and otherwise the same, removes the key from the map. */
  lemma ChainRemove<K(!new), V>(table: Table<K, V>, M: map<K, V>, zero: V,
                                hasher: (K, nat) -> nat, seed: nat, bits: nat, key: K, chain': seq<Cell<K, V>>)
    requires Sound(table, M, zero, hasher, seed, bits)
    requires var j := Home(key, hasher, seed, bits);
             && ChainInv(chain', zero, hasher, seed, bits, j) && (forall q: nat :: !Holds(chain', q, key))
             && (forall q: nat, k: K :: k != key ==> (Holds(table[j], q, k) <==> Holds(chain', q, k)))
             && (forall q: nat, k: K :: k != key && Holds(chain', q, k) ==> table[j][q] == chain'[q])
    ensures Sound(table[Home(key, hasher, seed, bits) := chain'], M - {key}, zero, hasher, seed, bits)
  {
    var j := Home(key, hasher, seed, bits);
    var table', M' := table[j := chain'], M - {key};
    forall i: nat, q: nat, k: K | i < |table'| && Holds(table'[i], q, k)
      ensures k in M' && table'[i][q].elem == M'[k]
    {
      assert Holds(table[i], q, k);
      if i != j {
        CellInOrder(table, zero, hasher, seed, bits, i, q);
      }
    }
    forall k | k in M' ensures exists q: nat :: Holds(table'[Home(k, hasher, seed, bits)], q, k) {
      var q: nat :| Holds(table[Home(k, hasher, seed, bits)], q, k);
      assert Holds(table'[Home(k, hasher, seed, bits)], q, k);
    }
  }

  /** Inserting an absent key at the first empty position of its chain, with the zero element. */
  lemma TableInsert<K(!new), V>(table: Table<K, V>, M: map<K, V>, zero: V,
                                hasher: (K, nat) -> nat, seed: nat, bits: nat, key: K, p: nat)
    requires Sound(table, M, zero, hasher, seed, bits) && key !in M
    requires FirstEmpty(table[Home(key, hasher, seed, bits)], p)
    ensures var j := Home(key, hasher, seed, bits);
            var wide := Roomy(table[j], p, zero);
            && p < |wide| && wide[p].elem == zero
            && var cells := wide[p := Cell(TopHash(hasher(key, seed)), Some(key), zero)];
               Sound(table[j := cells], M[key := zero], zero, hasher, seed, bits) && Holds(cells, p, key)
    ensures |M[key := zero]| == |M| + 1
  {
    assert M[key := zero].Keys == M.Keys + {key};
    var j := Home(key, hasher, seed, bits);
    var cells := Roomy(table[j], p, zero)[p := Cell(TopHash(hasher(key, seed)), Some(key), zero)];
    LookupByHome(table, M, zero, hasher, seed, bits, key);
    if p < |table[j]| {
      CellInOrder(table, zero, hasher, seed, bits, j, p);
    }
    InsertKeepsInv(table[j], p, key, zero, zero, hasher, seed, bits, j);
    ChainPut(table, M, zero, hasher, seed, bits, key, zero, cells, p);
  }

  /** Overwriting the element of a present key. */
  lemma TableStore<K(!new), V>(table: Table<K, V>, M: map<K, V>, zero: V,
                               hasher: (K, nat) -> nat, seed: nat, bits: nat, key: K, p: nat, v: V)
    requires Sound(table, M, zero, hasher, seed, bits)
    requires Holds(table[Home(key, hasher, seed, bits)], p, key)
    ensures var j := Home(key, hasher, seed, bits);
            Sound(table[j := table[j][p := table[j][p].(elem := v)]], M[key := v], zero, hasher, seed, bits)
    ensures |M[key := v]| == |M|
  {
    LookupByHome(table, M, zero, hasher, seed, bits, key);
    assert M[key := v].Keys == M.Keys;
    var j := Home(key, hasher, seed, bits);
    OverwriteKeepsInv(table[j], p, key, v, zero, hasher, seed, bits, j);
    ChainPut(table, M, zero, hasher, seed, bits, key, v, table[j][p := table[j][p].(elem := v)], p);
  }

  /** Removing a present key. */
  lemma TableErase<K(!new), V>(table: Table<K, V>, M: map<K, V>, zero: V,
                               hasher: (K, nat) -> nat, seed: nat, bits: nat, key: K, p: nat, kept: Option<K>, cells: seq<Cell<K, V>>)
    requires Sound(table, M, zero, hasher, seed, bits)
    requires Holds(table[Home(key, hasher, seed, bits)], p, key)
    requires Erased(table[Home(key, hasher, seed, bits)], p, zero, kept, cells)
    ensures key in M && |M - {key}| == |M| - 1
    ensures Sound(table[Home(key, hasher, seed, bits) := cells], M - {key}, zero, hasher, seed, bits)
  {
    LookupByHome(table, M, zero, hasher, seed, bits, key);
    assert M.Keys == (M - {key}).Keys + {key};
    var j := Home(key, hasher, seed, bits);
    ErasedKeepsInv(table[j], p, cells, key, zero, kept, hasher, seed, bits, j);
    ChainRemove(table, M, zero, hasher, seed, bits, key, cells);
  }

  /** An empty table fits every hash seed, so the seed may be replaced once the last key is gone. */
  lemma AnySeedFitsEmpty<K(!new), V>(table: Table<K, V>, zero: V, hasher: (K, nat) -> nat, seed: nat, bits: nat, seed': nat)
    requires Sound(table, map[], zero, hasher, seed, bits)
    ensures Sound(table, map[], zero, hasher, seed', bits)
  {
    forall j, p: nat | 0 <= j < |table| && p < |table[j]| ensures IsEmpty(table[j][p].top) {
      if !IsEmpty(table[j][p].top) {
        CellInOrder(table, zero, hasher, seed, bits, j, p);
        assert Holds(table[j], p, table[j][p].key.value);
      }
    }
    forall j | 0 <= j < |table| ensures ChainInv(table[j], zero, hasher, seed', bits, j) {
      forall p | 0 <= p < |table[j]| ensures InPlace(table[j], p, zero, hasher, seed', bits, j) {
        CellInOrder(table, zero, hasher, seed, bits, j, p);
      }
      assert ChainInv(table[j], zero, hasher, seed, bits, j);
    }
  }

  /** A table of blank cells represents the empty map. */
  lemma BlankTable<K(!new), V>(table: Table<K, V>, zero: V, hasher: (K, nat) -> nat, seed: nat, bits: nat)
    requires |table| == Pow2(bits)
    requires forall j, p :: 0 <= j < |table| && 0 <= p < |table[j]| ==> table[j][p] == Cell(EMPTY_REST, None, zero)
    ensures Sound(table, map[], zero, hasher, seed, bits)
  {
  }

  // ----- counting -----

  /** The positions of all occupied cells. */
  ghost function Occupied<K, V>(table: Table<K, V>): set<(nat, nat)> {
    set j: nat, p: nat | j < |table| && p < |table[j]| && !IsEmpty(table[j][p].top) :: (j, p)
  }

  /** There are as many occupied cells as the map has entries: no key sits in two cells and none is missing. */
  lemma OccupiedMatchesEntries<K(!new), V>(table: Table<K, V>, M: map<K, V>, zero: V,
                                           hasher: (K, nat) -> nat, seed: nat, bits: nat)
    requires Sound(table, M, zero, hasher, seed, bits)
    ensures |Occupied(table)| == |M|
  {
    KeyAtIsInjective(table, zero, hasher, seed, bits);
    KeyAtCovers(table, M, zero, hasher, seed, bits);
    InjectiveSize(KeyAt(table));
  }

  lemma KeyAtIsInjective<K(!new), V>(table: Table<K, V>, zero: V, hasher: (K, nat) -> nat, seed: nat, bits: nat)
    requires TableInv(table, zero, hasher, seed, bits)
    ensures KeyAt(table).Keys == Occupied(table)
    ensures forall x, y :: x in KeyAt(table) && y in KeyAt(table) && KeyAt(table)[x] == KeyAt(table)[y] ==> x == y
  {
    var keyAt := KeyAt(table);
    forall x | x in Occupied(table) ensures x in keyAt && Holds(table[x.0], x.1, keyAt[x]) {
      CellInOrder(table, zero, hasher, seed, bits, x.0, x.1);
    }
    forall x, y | x in keyAt && y in keyAt && keyAt[x] == keyAt[y] ensures x == y {
      HeldOnce(table, zero, hasher, seed, bits, keyAt[x], x.0, x.1, y.0, y.1);
    }
  }

  lemma KeyAtCovers<K(!new), V>(table: Table<K, V>, M: map<K, V>, zero: V,
                                hasher: (K, nat) -> nat, seed: nat, bits: nat)
    requires Sound(table, M, zero, hasher, seed, bits)
    ensures KeyAt(table).Values == M.Keys
  {
    var keyAt := KeyAt(table);
    forall x | x in keyAt ensures keyAt[x] in M {
      assert Holds(table[x.0], x.1, keyAt[x]);
    }
    forall k | k in M ensures k in keyAt.Values {
      var p: nat :| Holds(table[Home(k, hasher, seed, bits)], p, k);
      assert (Home(k, hasher, seed, bits), p) in keyAt;
      assert keyAt[(Home(k, hasher, seed, bits), p)] == k;
    }
  }

  /** The key in each occupied cell (cells without a key, which an orderly table does not have, are left out). */
  ghost function KeyAt<K, V>(table: Table<K, V>): map<(nat, nat), K> {
    map x | x in Occupied(table) && table[x.0][x.1].key.Some? :: table[x.0][x.1].key.value
  }

  /** A map with distinct values has as many values as keys. */
  lemma {:induction false} InjectiveSize<A, B>(m: map<A, B>)
    requires forall x, y :: x in m && y in m && m[x] == m[y] ==> x == y
    ensures |m.Values| == |m|
    decreases |m|
  {
    if m == map[] {
      assert m.Values == {};
    } else {
      var x :| x in m;
      var rest := m - {x};
      InjectiveSize(rest);
      assert m.Values == rest.Values + {m[x]} by {
        forall v | v in m.Values ensures v in rest.Values + {m[x]} {
          var y :| y in m && m[y] == v;
          assert y == x || y in rest;
        }
      }
      assert m.Keys == rest.Keys + {x};
    }
  }
}
