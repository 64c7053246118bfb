// The chained hash table of the refactored C engine (src/lib/hdict.c):
// an array of chains, each chain a sequence of entries standing for the
// linked list of nodes, with the size and capacity kept beside it. The
// client's functions (entry_key, hash and key_equiv) are fields of the
// table; the equivalence they supply must be an equivalence relation that
// the hash respects, as the table's promises depend on it.

module HashDict {
  import opened DataStructs

  /** The largest C `int`. */
  const INT_MAX := 0x7fff_ffff

  /** C's `%`: the remainder takes the sign of the dividend, and its size is the size's remainder. */
  function CRem(a: int, b: int): (r: int)
    requires b > 0
    ensures -b < r < b
    ensures (a >= 0 ==> r >= 0) && (a <= 0 ==> r <= 0)
    ensures Abs(r) == Abs(a) % b
  {
    if a >= 0 then a % b else -((-a) % b)
  }

  function Abs(x: int): (y: int)
    ensures y >= 0 && (y == x || y == -x)
  {
    if x < 0 then -x else x
  }

  /** `index_of_key` for a hash value `h`: `abs(h % capacity)`, which is `abs(h) mod capacity`. */
  function IndexOf(h: int, capacity: int): (i: int)
    requires capacity > 0
    ensures 0 <= i < capacity
    ensures i == Abs(h) % capacity
  {
    Abs(CRem(h, capacity))
  }

  /** A hash and its negation share a chain, so the index agrees with the
      Euclidean remainder only on non-negative hashes. */
  lemma IndexOfMirrors(h: int, capacity: int)
    requires capacity > 0
    ensures IndexOf(-h, capacity) == IndexOf(h, capacity)
    ensures h >= 0 ==> IndexOf(h, capacity) == h % capacity
    ensures IndexOf(-1, 8) == 1 && -1 % 8 == 7
  {
  }

  /** What the table needs of the client: `equiv` is an equivalence and equivalent keys hash alike. */
  ghost predicate Laws<Key(!new)>(hash: Key -> int, equiv: (Key, Key) -> bool)
  {
    && (forall a :: equiv(a, a))
    && (forall a, b :: equiv(a, b) ==> equiv(b, a))
    && (forall a, b, c :: equiv(a, b) && equiv(b, c) ==> equiv(a, c))
    && (forall a, b :: equiv(a, b) ==> hash(a) == hash(b))
  }

  /** The walk of one chain: the first entry whose key is equivalent to `k`. */
  function Find<Entry, Key>(chain: seq<Entry>, k: Key, key: Entry -> Key, equiv: (Key, Key) -> bool): (r: Option<Entry>)
    ensures r.Some? ==> r.value in chain && equiv(key(r.value), k)
    ensures r.None? <==> forall x :: x in chain ==> !equiv(key(x), k)
  {
    if chain == [] then None
    else if equiv(key(chain[0]), k) then Some(chain[0])
    else Find(chain[1..], k, key, equiv)
  }

  /** The walk stops at the first match. */
  lemma {:induction false} FindFirst<Entry, Key>(chain: seq<Entry>, j: int, k: Key, key: Entry -> Key, equiv: (Key, Key) -> bool)
    requires 0 <= j < |chain| && equiv(key(chain[j]), k)
    requires forall t :: 0 <= t < j ==> !equiv(key(chain[t]), k)
    ensures Find(chain, k, key, equiv) == Some(chain[j])
  {
    if j > 0 {
      FindFirst(chain[1..], j - 1, k, key, equiv);
    }
  }

  /** All entries of a table, with their multiplicities. */
  ghost function Bag<Entry>(chains: seq<seq<Entry>>): multiset<Entry>
  {
    if chains == [] then multiset{} else Bag(chains[..|chains| - 1]) + multiset(chains[|chains| - 1])
  }

  lemma {:induction false} BagEmpty<Entry>(chains: seq<seq<Entry>>)
    requires forall j :: 0 <= j < |chains| ==> chains[j] == []
    ensures Bag(chains) == multiset{}
  {
    if chains != [] {
      BagEmpty(chains[..|chains| - 1]);
    }
  }

  /** The entries of the first `i + 1` chains: those of the first `i` and of chain `i`. */
  lemma BagSnoc<Entry>(chains: seq<seq<Entry>>, i: int)
    requires 0 <= i < |chains|
    ensures Bag(chains[..i + 1]) == Bag(chains[..i]) + multiset(chains[i])
  {
    assert chains[..i + 1][..i] == chains[..i];
  }

  /** An entry is in the table exactly when it is in one of its chains. */
  lemma {:induction false} BagMember<Entry>(chains: seq<seq<Entry>>, x: Entry)
    ensures x in Bag(chains) <==> exists j :: 0 <= j < |chains| && x in chains[j]
  {
    if chains != [] {
      var front := chains[..|chains| - 1];
      BagMember(front, x);
      if x in Bag(chains) && x !in multiset(chains[|chains| - 1]) {
        var j :| 0 <= j < |front| && x in front[j];
        assert chains[j] == front[j];
      }
      if j :| 0 <= j < |chains| - 1 && x in chains[j] {
        assert front[j] == chains[j];
      }
    }
  }

  /** Putting `e` at the front of chain `h` adds it to the table. */
  lemma {:induction false} BagPrepend<Entry>(chains: seq<seq<Entry>>, h: int, e: Entry)
    requires 0 <= h < |chains|
    ensures Bag(chains[h := [e] + chains[h]]) == Bag(chains) + multiset{e}
  {
    var n := |chains| - 1;
    var after := chains[h := [e] + chains[h]];
    assert after[..n] == if h < n then chains[..n][h := [e] + chains[h]] else chains[..n];
    if h < n {
      BagPrepend(chains[..n], h, e);
    } else {
      assert multiset(after[n]) == multiset{e} + multiset(chains[n]);
    }
  }

  /** Overwriting entry `j` of chain `i` with `e` swaps that entry for `e` in the table. */
  lemma {:induction false} BagReplace<Entry>(chains: seq<seq<Entry>>, i: int, j: int, e: Entry)
    requires 0 <= i < |chains| && 0 <= j < |chains[i]|
    ensures Bag(chains[i := chains[i][j := e]]) + multiset{chains[i][j]} == Bag(chains) + multiset{e}
  {
    var n := |chains| - 1;
    var after := chains[i := chains[i][j := e]];
    assert Bag(after) == Bag(after[..n]) + multiset(after[n]);
    assert Bag(chains) == Bag(chains[..n]) + multiset(chains[n]);
    if i < n {
      var front := chains[..n];
      assert front[i] == chains[i];
      assert after[..n] == front[i := front[i][j := e]];
      BagReplace(front, i, j, e);
      assert after[n] == chains[n];
      Shuffle(Bag(after[..n]), Bag(front), multiset(chains[n]), chains[i][j], e);
    } else {
      assert after[..n] == chains[..n];
      assert multiset(after[n]) + multiset{chains[i][j]} == multiset(chains[n]) + multiset{e};
    }
  }

  /** Adding the same entries to both sides of a multiset equation keeps it. */
  lemma Shuffle<Entry>(a: multiset<Entry>, b: multiset<Entry>, m: multiset<Entry>, x: Entry, e: Entry)
    requires a + multiset{x} == b + multiset{e}
    ensures a + m + multiset{x} == b + m + multiset{e}
  {
    forall o
      ensures (a + m + multiset{x})[o] == (b + m + multiset{e})[o]
    {
      assert (a + multiset{x})[o] == (b + multiset{e})[o];
    }
  }

  /** Taking back out the entry added on one side. */
  lemma Unshuffle<Entry>(a: multiset<Entry>, b: multiset<Entry>, x: Entry, e: Entry)
    requires a + multiset{x} == b + multiset{e} && x in b
    ensures a == b - multiset{x} + multiset{e}
  {
    forall o
      ensures a[o] == (b - multiset{x} + multiset{e})[o]
    {
      assert (a + multiset{x})[o] == (b + multiset{e})[o];
    }
  }

  /** Adding an entry whose key is new keeps the keys distinct. */
  lemma DistinctAdd<Entry(!new), Key(!new)>(m: multiset<Entry>, e: Entry, key: Entry -> Key, hash: Key -> int, equiv: (Key, Key) -> bool)
    requires Laws(hash, equiv) && Distinct(m, key, equiv)
    requires forall y :: y in m ==> !equiv(key(y), key(e))
    ensures Distinct(m + multiset{e}, key, equiv)
  {
    assert e !in m;
  }

  /** Swapping an entry for one with an equivalent key keeps the keys distinct. */
  lemma DistinctReplace<Entry(!new), Key(!new)>(m: multiset<Entry>, x: Entry, e: Entry, key: Entry -> Key, hash: Key -> int, equiv: (Key, Key) -> bool)
    requires Laws(hash, equiv) && Distinct(m, key, equiv)
    requires x in m && equiv(key(x), key(e))
    ensures Distinct(m - multiset{x} + multiset{e}, key, equiv)
  {
    var m' := m - multiset{x} + multiset{e};
    forall y | y in m' && y != e
      ensures y in m && y != x && !equiv(key(y), key(e))
    {
    }
  }

  /** No two entries with equivalent keys, and no entry twice. */
  ghost predicate Distinct<Entry(!new), Key>(m: multiset<Entry>, key: Entry -> Key, equiv: (Key, Key) -> bool)
  {
    forall x, y :: x in m && y in m && equiv(key(x), key(y)) ==> x == y && m[x] == 1
  }

  /** Every entry of `chains` sits in the chain its key's hash selects. */
  ghost predicate Placed<Entry, Key>(chains: seq<seq<Entry>>, key: Entry -> Key, hash: Key -> int)
  {
    forall i, x :: 0 <= i < |chains| && x in chains[i] ==> IndexOf(hash(key(x)), |chains|) == i
  }

  /** An entry of chain `i` hashes to slot `i`. */
  lemma PlacedAt<Entry, Key>(chains: seq<seq<Entry>>, i: int, x: Entry, key: Entry -> Key, hash: Key -> int)
    requires Placed(chains, key, hash) && 0 <= i < |chains| && x in chains[i]
    ensures IndexOf(hash(key(x)), |chains|) == i
  {
  }

  /** A chain whose entries all belong to slot `i` may replace chain `i`. */
  lemma PlacedUpdate<Entry, Key>(chains: seq<seq<Entry>>, i: int, c: seq<Entry>, key: Entry -> Key, hash: Key -> int)
    requires Placed(chains, key, hash) && 0 <= i < |chains|
    requires forall x :: x in c ==> IndexOf(hash(key(x)), |chains|) == i
    ensures Placed(chains[i := c], key, hash)
  {
  }

  /** What the operations keep true of the chains: placement, the count, distinct keys, under the client's laws. */
  ghost predicate Kept<Entry(!new), Key(!new)>(chains: seq<seq<Entry>>, size: int,
                                                key: Entry -> Key, hash: Key -> int, equiv: (Key, Key) -> bool)
  {
    && Laws(hash, equiv)
    && Placed(chains, key, hash)
    && size == |Bag(chains)|
    && Distinct(Bag(chains), key, equiv)
  }

  /** A lookup in a table of chains: the walk of the chain the key's hash selects. */
  function TableLookup<Entry, Key>(chains: seq<seq<Entry>>, k: Key, key: Entry -> Key, hash: Key -> int, equiv: (Key, Key) -> bool): (r: Option<Entry>)
    requires |chains| > 0
    ensures r.Some? ==> r.value in chains[IndexOf(hash(k), |chains|)] && equiv(key(r.value), k)
    ensures r.None? <==> forall x :: x in chains[IndexOf(hash(k), |chains|)] ==> !equiv(key(x), k)
  {
    Find(chains[IndexOf(hash(k), |chains|)], k, key, equiv)
  }

  /** In a table that keeps the invariants, the walk of `k`'s chain finds the one stored entry whose key is equivalent to `k`, if any. */
  lemma FindInTable<Entry(!new), Key(!new)>(chains: seq<seq<Entry>>, size: int, k: Key,
                                            key: Entry -> Key, hash: Key -> int, equiv: (Key, Key) -> bool)
    requires Kept(chains, size, key, hash, equiv) && |chains| > 0
    ensures var r := TableLookup(chains, k, key, hash, equiv);
      && (r.Some? ==> r.value in Bag(chains))
      && (r.None? <==> forall x :: x in Bag(chains) ==> !equiv(key(x), k))
      && (forall x :: x in Bag(chains) && equiv(key(x), k) ==> r == Some(x))
  {
    var i := IndexOf(hash(k), |chains|);
    var r := Find(chains[i], k, key, equiv);
    if r.Some? {
      BagMember(chains, r.value);
    }
    forall x | x in Bag(chains) && equiv(key(x), k)
      ensures r == Some(x)
    {
      BagMember(chains, x);
      var j :| 0 <= j < |chains| && x in chains[j];
      assert j == i;
      assert equiv(key(x), key(r.value));
    }
  }

  /** Two tables that hold the same entries with keys equivalent to `k` answer a lookup of `k` alike. */
  lemma SameLookups<Entry(!new), Key(!new)>(c1: seq<seq<Entry>>, s1: int, c2: seq<seq<Entry>>, s2: int, k: Key,
                                            key: Entry -> Key, hash: Key -> int, equiv: (Key, Key) -> bool)
    requires Kept(c1, s1, key, hash, equiv) && Kept(c2, s2, key, hash, equiv) && |c1| > 0 && |c2| > 0
    requires forall y :: equiv(key(y), k) ==> (y in Bag(c1) <==> y in Bag(c2))
    ensures TableLookup(c1, k, key, hash, equiv) == TableLookup(c2, k, key, hash, equiv)
  {
    FindInTable(c1, s1, k, key, hash, equiv);
    FindInTable(c2, s2, k, key, hash, equiv);
  }

  /** Swapping `x` for `e`, or adding `e`, where `x` and `e` have equivalent keys, changes no entry whose key is not equivalent to theirs. */
  lemma OnlyKeyChanged<Entry(!new), Key(!new)>(b1: multiset<Entry>, b2: multiset<Entry>, x: Entry, e: Entry, k: Key,
                                               key: Entry -> Key, hash: Key -> int, equiv: (Key, Key) -> bool)
    requires Laws(hash, equiv) && !equiv(key(e), k) && equiv(key(x), key(e))
    requires b2 == b1 - multiset{x} + multiset{e} || b2 == b1 + multiset{e}
    ensures forall y :: equiv(key(y), k) ==> (y in b1 <==> y in b2)
  {
    forall y | equiv(key(y), k)
      ensures y != x && y != e
    {
    }
  }

  /** Swapping `x` for `e`, or adding `e`, leaves the lookup of every key not equivalent to `e`'s as it was. */
  lemma KeepsOtherLookups<Entry(!new), Key(!new)>(c1: seq<seq<Entry>>, s1: int, c2: seq<seq<Entry>>, s2: int, x: Entry, e: Entry,
                                                  key: Entry -> Key, hash: Key -> int, equiv: (Key, Key) -> bool)
    requires Kept(c1, s1, key, hash, equiv) && Kept(c2, s2, key, hash, equiv) && |c1| > 0 && |c2| > 0
    requires equiv(key(x), key(e))
    requires Bag(c2) == Bag(c1) - multiset{x} + multiset{e} || Bag(c2) == Bag(c1) + multiset{e}
    ensures forall k :: !equiv(key(e), k) ==>
      TableLookup(c1, k, key, hash, equiv) == TableLookup(c2, k, key, hash, equiv)
  {
    forall k | !equiv(key(e), k)
      ensures TableLookup(c1, k, key, hash, equiv) == TableLookup(c2, k, key, hash, equiv)
    {
      OnlyKeyChanged(Bag(c1), Bag(c2), x, e, k, key, hash, equiv);
      SameLookups(c1, s1, c2, s2, k, key, hash, equiv);
    }
  }

  /** Overwriting an entry with one of an equivalent key keeps the placement and the distinct keys. */
  lemma ReplaceKeepsInvariants<Entry(!new), Key(!new)>(chains: seq<seq<Entry>>, size: int, i: int, j: int, e: Entry,
                                                      key: Entry -> Key, hash: Key -> int, equiv: (Key, Key) -> bool)
    requires Laws(hash, equiv) && Placed(chains, key, hash) && Distinct(Bag(chains), key, equiv)
    requires 0 <= i < |chains| && 0 <= j < |chains[i]| && IndexOf(hash(key(e)), |chains|) == i
    requires equiv(key(chains[i][j]), key(e))
    ensures var after := chains[i := chains[i][j := e]];
      && Placed(after, key, hash)
      && Bag(after) == Bag(chains) - multiset{chains[i][j]} + multiset{e}
      && (Kept(chains, size, key, hash, equiv) ==> Kept(after, size, key, hash, equiv))
  {
    hide Laws, Distinct, Placed;
    var x := chains[i][j];
    var chain := chains[i][j := e];
    forall y | y in chain
      ensures IndexOf(hash(key(y)), |chains|) == i
    {
      if y != e {
        assert y in chains[i];
        PlacedAt(chains, i, y, key, hash);
      }
    }
    PlacedUpdate(chains, i, chain, key, hash);
    BagMember(chains, x);
    BagReplace(chains, i, j, e);
    Unshuffle(Bag(chains[i := chain]), Bag(chains), x, e);
    DistinctReplace(Bag(chains), x, e, key, hash, equiv);
  }

  class Hdict<Entry(==, !new), Key(!new)> {
    var size: int
    var capacity: int
    var table: array<seq<Entry>>
    const key: Entry -> Key
    const hash: Key -> int
    const equiv: (Key, Key) -> bool

    /** `is_hdict`: a non-negative size and a positive capacity that is the table's length. */
    predicate IsHdict()
      reads this
    {
      size >= 0 && capacity > 0 && table.Length == capacity
    }

    /** The entries stored in the table. */
    ghost function Elements(): multiset<Entry>
      reads this, table
    {
      Bag(table[..])
    }

    /** `is_hdict` together with what the table's operations keep true of the chains. */
    ghost predicate Valid()
      reads this, table
    {
      IsHdict() && Kept(table[..], size, key, hash, equiv)
    }

    /** What a lookup of `k` returns: the walk of the chain `k` selects. */
    function Get(k: Key): (r: Option<Entry>)
      reads this, table
      requires IsHdict()
      ensures r.Some? ==> r.value in table[IndexOf(hash(k), capacity)] && equiv(key(r.value), k)
      ensures r.None? <==> forall x :: x in table[IndexOf(hash(k), capacity)] ==> !equiv(key(x), k)
    {
      TableLookup(table[..], k, key, hash, equiv)
    }

    /** A lookup finds the one stored entry whose key is equivalent to `k`, and nothing when there is none. */
    lemma GetMeaning(k: Key)
      requires Valid()
      ensures Get(k).Some? ==> Get(k).value in Elements() && equiv(key(Get(k).value), k)
      ensures Get(k).None? <==> forall x :: x in Elements() ==> !equiv(key(x), k)
      ensures forall x :: x in Elements() && equiv(key(x), k) ==> Get(k) == Some(x)
    {
      assert table[IndexOf(hash(k), capacity)] == table[..][IndexOf(hash(k), capacity)];
      FindInTable(table[..], size, k, key, hash, equiv);
    }

    /** `hdict_new`: an empty table of the given capacity. */
    constructor (capacity: int, key: Entry -> Key, hash: Key -> int, equiv: (Key, Key) -> bool)
      requires capacity > 0
      requires Laws(hash, equiv)
      ensures Valid() && fresh(table)
      ensures this.capacity == capacity && size == 0 && Elements() == multiset{}
      ensures this.key == key && this.hash == hash && this.equiv == equiv
      ensures forall i :: 0 <= i < capacity ==> table[i] == []
    {
      size := 0;
      this.capacity := capacity;
      table := new seq<Entry>[capacity](_ => []);
      this.key := key;
      this.hash := hash;
      this.equiv := equiv;
      new;
      BagEmpty(table[..]);
    }

    /** `hdict_size`: the number of stored entries. */
    method Size() returns (n: int)
      requires Valid()
      ensures n >= 0 && n == |Elements()|
    {
      n := size;
    }

    /** `hdict_lookup`: walks the chain of `k`; `None` is C's NULL. */
    method Lookup(k: Key) returns (r: Option<Entry>)
      requires Valid()
      ensures r == Get(k)
      ensures r.None? || equiv(key(r.value), k)
    {
      var i := IndexOf(hash(k), capacity);
      var p := table[i];
      var j := 0;
      while j < |p|
        invariant 0 <= j <= |p|
        invariant forall t :: 0 <= t < j ==> !equiv(key(p[t]), k)
      {
        if equiv(key(p[j]), k) {
          FindFirst(p, j, k, key, equiv);
          return Some(p[j]);
        }
        j := j + 1;
      }
      return None;
    }

    /**
     * `hdict_resize`: relinks every entry into the chain of a fresh table of
     * `newCapacity` chains that its hash selects there.
     */
    method Resize(newCapacity: int)
      requires Valid() && newCapacity > 0
      modifies this
      ensures Valid() && fresh(table)
      ensures capacity == newCapacity && size == old(size) && Elements() == old(Elements())
      ensures forall k :: Get(k) == old(Get(k))
    {
      var oldTable := table;
      var newTable := Rehash(oldTable, newCapacity);
      assert Kept(newTable[..], size, key, hash, equiv);
      hide Laws, Distinct, Bag, Placed;
      forall k
        ensures TableLookup(newTable[..], k, key, hash, equiv) == TableLookup(oldTable[..], k, key, hash, equiv)
      {
        SameLookups(newTable[..], size, oldTable[..], size, k, key, hash, equiv);
      }
      capacity := newCapacity;
      table := newTable;
    }

    /** The loops of `hdict_resize`: a fresh table of `newCapacity` chains holding the entries of `oldTable`, each in the chain its hash selects. */
    method Rehash(oldTable: array<seq<Entry>>, newCapacity: int) returns (newTable: array<seq<Entry>>)
      requires newCapacity > 0
      ensures fresh(newTable) && newTable.Length == newCapacity
      ensures Placed(newTable[..], key, hash) && Bag(newTable[..]) == Bag(oldTable[..])
    {
      newTable := new seq<Entry>[newCapacity](_ => []);
      BagEmpty(newTable[..]);
      assert Bag(oldTable[..0]) == multiset{} && Placed(newTable[..], key, hash);
      hide Bag, Placed;
      for i := 0 to oldTable.Length
        modifies newTable
        invariant Placed(newTable[..], key, hash)
        invariant Bag(newTable[..]) == Bag(oldTable[..i])
      {
        RelinkChain(newTable, oldTable[i]);
        BagSnoc(oldTable[..], i);
      }
      assert oldTable[..oldTable.Length] == oldTable[..];
    }

    /** The inner loop of `hdict_resize`: every node of chain `p`, front to back, is relinked into `newTable`. */
    method RelinkChain(newTable: array<seq<Entry>>, p: seq<Entry>)
      requires newTable.Length > 0 && Placed(newTable[..], key, hash)
      modifies newTable
      ensures Placed(newTable[..], key, hash)
      ensures Bag(newTable[..]) == Bag(old(newTable[..])) + multiset(p)
    {
      hide Bag, Placed;
      var rest := p;
      while rest != []
        invariant Placed(newTable[..], key, hash)
        invariant Bag(newTable[..]) + multiset(rest) == Bag(old(newTable[..])) + multiset(p)
      {
        var e := rest[0];
        var h := IndexOf(hash(key(e)), newTable.Length);
        Relink(newTable, h, e);
        assert rest == [e] + rest[1..];
        rest := rest[1..];
      }
    }

    /** One step of the relinking: `e` goes to the front of chain `h`. */
    method Relink(newTable: array<seq<Entry>>, h: int, e: Entry)
      requires 0 <= h < newTable.Length && IndexOf(hash(key(e)), newTable.Length) == h
      requires Placed(newTable[..], key, hash)
      modifies newTable
      ensures Placed(newTable[..], key, hash)
      ensures Bag(newTable[..]) == Bag(old(newTable[..])) + multiset{e}
    {
      ghost var before := newTable[..];
      newTable[h] := [e] + newTable[h];
      assert newTable[..] == before[h := [e] + before[h]];
      BagPrepend(before, h, e);
    }

    /**
     * `hdict_insert`: overwrites the entry whose key is equivalent to `e`'s
     * in place, or else puts `e` at the front of its chain, counts it, and
     * doubles the capacity once the entries outnumber the chains.
     */
    method Insert(e: Entry)
      requires Valid()
      modifies this, table
      ensures Valid()
      ensures Get(key(e)) == Some(e)
      ensures old(Get(key(e))).Some? ==>
        size == old(size) && Elements() == old(Elements()) - multiset{old(Get(key(e))).value} + multiset{e}
      ensures old(Get(key(e))).None? ==>
        size == old(size) + 1 && Elements() == old(Elements()) + multiset{e}
      ensures capacity ==
        if old(Get(key(e))).None? && old(size) + 1 > old(capacity) && old(capacity) < INT_MAX / 2
        then 2 * old(capacity) else old(capacity)
      ensures forall k :: !equiv(key(e), k) ==> Get(k) == old(Get(k))
    {
      var k := key(e);
      assert equiv(k, k) && capacity > 0 && table.Length == capacity;
      hide *;
      var i := IndexOf(hash(k), capacity);
      var p := table[i];
      var j := 0;
      while j < |p|
        invariant 0 <= j <= |p|
        invariant forall t :: 0 <= t < j ==> !equiv(key(p[t]), k)
      {
        if equiv(key(p[j]), k) {
          Overwrite(i, j, e);
          return;
        }
        j := j + 1;
      }
      Prepend(i, e);
      if size > capacity && capacity < INT_MAX / 2 {
        Resize(2 * capacity);
        GetMeaning(k);
      }
    }

    /** The overwrite branch of `hdict_insert`: the matching node's entry becomes `e`. */
    method Overwrite(i: int, j: int, e: Entry)
      requires Valid() && i == IndexOf(hash(key(e)), capacity)
      requires 0 <= j < |table[i]| && equiv(key(table[i][j]), key(e))
      requires forall t :: 0 <= t < j ==> !equiv(key(table[i][t]), key(e))
      modifies table
      ensures Valid() && Get(key(e)) == Some(e) && old(Get(key(e))) == Some(old(table[i][j]))
      ensures Elements() == old(Elements()) - multiset{old(table[i][j])} + multiset{e}
      ensures forall k :: !equiv(key(e), k) ==> Get(k) == old(Get(k))
    {
      var k := key(e);
      ghost var before := table[..];
      var chain := table[i][j := e];
      assert equiv(k, k);
      ReplaceKeepsInvariants(before, size, i, j, e, key, hash, equiv);
      hide Kept, Laws, Distinct, Placed, Bag;
      FindFirst(table[i], j, k, key, equiv);
      FindFirst(chain, j, k, key, equiv);
      table[i] := chain;
      assert table[..] == before[i := chain];
      KeepsOtherLookups(before, size, table[..], size, old(table[i][j]), e, key, hash, equiv);
    }

    /** The prepend branch of `hdict_insert`: `e` starts chain `i` and is counted. */
    method Prepend(i: int, e: Entry)
      requires Valid() && i == IndexOf(hash(key(e)), capacity)
      requires forall x :: x in table[i] ==> !equiv(key(x), key(e))
      modifies this, table
      ensures table == old(table) && capacity == old(capacity)
      ensures Valid() && Get(key(e)) == Some(e) && old(Get(key(e))) == None
      ensures size == old(size) + 1 && Elements() == old(Elements()) + multiset{e}
      ensures forall k :: !equiv(key(e), k) ==> Get(k) == old(Get(k))
    {
      var k := key(e);
      assert equiv(k, k);
      GetMeaning(k);
      hide Laws, Distinct, Placed;
      ghost var before := table[..];
      DistinctAdd(Bag(before), e, key, hash, equiv);
      var chain := [e] + table[i];
      forall y | y in chain
        ensures IndexOf(hash(key(y)), |before|) == i
      {
        if y != e {
          PlacedAt(before, i, y, key, hash);
        }
      }
      PlacedUpdate(before, i, chain, key, hash);
      table[i] := chain;
      size := size + 1;
      assert table[..] == before[i := chain];
      BagPrepend(before, i, e);
      KeepsOtherLookups(before, size - 1, table[..], size, e, e, key, hash, equiv);
    }
  }
}
