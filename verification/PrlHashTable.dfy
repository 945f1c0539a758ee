/** The pointer-stable hash table behind grouping and hash joins. */
module PrlHashTable {
  import opened LinearProbing
  import opened GroupTable
  import opened JoinTable

  const INITIAL_CAPACITY: nat := 1024
  const BLOCK_SIZE: nat := 262144

  // ---------------------------------------------------------------- where rows live

  /** A payload block. Its identity is what a row address points into. */
  class Block {
    const capacity: nat

    constructor (capacity: nat)
      ensures this.capacity == capacity
    {
      this.capacity := capacity;
    }
  }

  /** The bytes of one row. */
  datatype Extent = Extent(block: Block, offset: nat, size: nat)

  predicate Apart(a: Extent, b: Extent) {
    a.block != b.block || a.offset + a.size <= b.offset || b.offset + b.size <= a.offset
  }

  /** No two rows share bytes. */
  predicate AllApart(es: seq<Extent>) {
    forall i, j | 0 <= i < j < |es| :: Apart(es[i], es[j])
  }

  predicate Inside(es: seq<Extent>, blocks: seq<Block>) {
    forall e | e in es :: e.block in blocks && e.offset + e.size <= e.block.capacity
  }

  /** Rows are apart and inside their blocks, and everything at or past the bump cursor is free. */
  predicate StoreOk(es: seq<Extent>, blocks: seq<Block>, used: nat, capacity: nat) {
    && AllApart(es) && Inside(es, blocks) && used <= capacity
    && (capacity > 0 ==>
       blocks != [] && capacity == blocks[|blocks| - 1].capacity && FreeFrom(es, blocks[|blocks| - 1], used))
  }

  predicate FreeFrom(es: seq<Extent>, block: Block, used: nat) {
    forall e | e in es && e.block == block :: e.offset + e.size <= used
  }

  lemma Bumped(es: seq<Extent>, blocks: seq<Block>, used: nat, capacity: nat, size: nat)
    requires StoreOk(es, blocks, used, capacity) && blocks != [] && used + size <= capacity
    ensures StoreOk(es + [Extent(blocks[|blocks| - 1], used, size)], blocks, used + size, capacity)
  {
    var block := blocks[|blocks| - 1];
    var e := Extent(block, used, size);
    if capacity > 0 {
      forall i, j | 0 <= i < j < |es + [e]| ensures Apart((es + [e])[i], (es + [e])[j]) {
        if j == |es| {
          assert es[i] in es;
        }
      }
    } else {
      forall i, j | 0 <= i < j < |es + [e]| ensures Apart((es + [e])[i], (es + [e])[j]) {
      }
    }
  }

  lemma Opened(es: seq<Extent>, blocks: seq<Block>, used: nat, capacity: nat, block: Block)
    requires StoreOk(es, blocks, used, capacity) && block !in blocks
    ensures StoreOk(es, blocks + [block], 0, block.capacity)
  {
  }

  lemma Merged(es: seq<Extent>, blocks: seq<Block>, used: nat, capacity: nat, fs: seq<Extent>, others: seq<Block>,
          used': nat, capacity': nat)
    requires StoreOk(es, blocks, used, capacity) && StoreOk(fs, others, used', capacity')
    requires forall b | b in others :: b !in blocks
    ensures StoreOk(es + fs, blocks + others, 0, 0)
  {
    forall i, j | 0 <= i < j < |es + fs| ensures Apart((es + fs)[i], (es + fs)[j]) {
      if i < |es| <= j {
        assert es[i] in es && fs[j - |es|] in fs;
      }
    }
  }

  // ---------------------------------------------------------------- capacities

  predicate PowerOfTwo(n: nat) {
    n == 1 || (n > 1 && n % 2 == 0 && PowerOfTwo(n / 2))
  }

  method NextPowerOfTwo(n: nat) returns (p: nat)
    ensures PowerOfTwo(p) && n <= p && (p > 1 ==> p / 2 < n)
  {
    p := 1;
    while p < n
      invariant PowerOfTwo(p) && (p > 1 ==> p / 2 < n)
    {
      p := p * 2;
    }
  }

  /** The load factor is three quarters. */
  predicate Overloaded(rows: nat, capacity: nat) {
    rows >= capacity || 4 * rows > 3 * capacity
  }

  // ---------------------------------------------------------------- the table

  class PRLHashTable<R(!new)> {
    /** How a key hashes, and when two keys are equal. */
    const hashOf: R -> nat
    const matches: (R, R) -> bool

    var directory: Directory
    var rows: seq<R>
    var hashes: seq<nat>
    var extents: seq<Extent>
    var blocks: seq<Block>
    var blockUsed: nat
    var blockCapacity: nat
    var stale: bool

    ghost predicate Valid()
      reads this
    {
      && StoreOk(extents, blocks, blockUsed, blockCapacity) && |extents| == |rows| && Hashed(rows, hashes, hashOf)
      && PowerOfTwo(|directory|)
      && (!stale ==> Table(directory, rows, hashes, hashOf) && |rows| < |directory|)
    }

    constructor (hashOf: R -> nat, matches: (R, R) -> bool, initialCapacity: nat)
      ensures Valid() && this.hashOf == hashOf && this.matches == matches && rows == [] && blocks == [] && !stale
    {
      this.hashOf, this.matches := hashOf, matches;
      var p := NextPowerOfTwo(initialCapacity);
      var capacity := if p < INITIAL_CAPACITY then INITIAL_CAPACITY else p;
      directory := seq(capacity, _ => Empty);
      rows, hashes, extents, blocks, blockUsed, blockCapacity, stale := [], [], [], [], 0, 0, false;
      new;
      EmptyDirectory(capacity);
      PowersOfTwo();
    }

    /** Reserve bytes for one row. */
    method AllocateRow(size: nat)
      requires StoreOk(extents, blocks, blockUsed, blockCapacity)
      modifies this`extents, this`blocks, this`blockUsed, this`blockCapacity
      ensures StoreOk(extents, blocks, blockUsed, blockCapacity)
      ensures |extents| == |old(extents)| + 1 && extents[..|old(extents)|] == old(extents)
      ensures extents[|old(extents)|].size == size
      ensures forall b | b in blocks :: b in old(blocks) || fresh(b)
    {
      if blocks == [] || blockUsed + size > blockCapacity {
        var block := new Block(if size > BLOCK_SIZE then size else BLOCK_SIZE);
        Opened(extents, blocks, blockUsed, blockCapacity, block);
        blocks, blockUsed, blockCapacity := blocks + [block], 0, block.capacity;
      }
      Bumped(extents, blocks, blockUsed, blockCapacity, size);
      extents := extents + [Extent(blocks[|blocks| - 1], blockUsed, size)];
      blockUsed := blockUsed + size;
    }

    /** Reserve bytes for several rows. */
    method AllocateRows(sizes: seq<nat>)
      requires StoreOk(extents, blocks, blockUsed, blockCapacity)
      modifies this`extents, this`blocks, this`blockUsed, this`blockCapacity
      ensures StoreOk(extents, blocks, blockUsed, blockCapacity)
      ensures |extents| == |old(extents)| + |sizes| && extents[..|old(extents)|] == old(extents)
      ensures forall b | b in blocks :: b in old(blocks) || fresh(b)
    {
      for i := 0 to |sizes|
        invariant StoreOk(extents, blocks, blockUsed, blockCapacity)
        invariant |extents| == |old(extents)| + i && extents[..|old(extents)|] == old(extents)
        invariant forall b | b in blocks :: b in old(blocks) || fresh(b)
      {
        hide StoreOk;
        AllocateRow(sizes[i]);
      }
    }

    /** Grow the directory, linking every row again. */
    method Resize(capacity: nat)
      requires Valid() && !stale && capacity == 2 * |directory|
      modifies this`directory
      ensures Valid() && |directory| == capacity
    {
      hide StoreOk, Hashed;
      directory := Rehash(directory, hashes, capacity);
    }

    /** Grow until `count` more rows stay within the load factor. */
    method Reserve(count: nat)
      requires Valid() && !stale
      modifies this`directory
      ensures Valid() && !Overloaded(|rows| + count, |directory|)
    {
      while Overloaded(|rows| + count, |directory|)
        invariant Valid()
        decreases 2 * (|rows| + count) - |directory|
      {
        Resize(2 * |directory|);
      }
    }

    /** Store and link one row. */
    method AppendOne(x: R, size: nat)
      requires Valid() && !stale && |rows| + 1 < |directory|
      modifies this
      ensures Valid() && !stale && rows == old(rows) + [x] && |directory| == |old(directory)|
      ensures |old(extents)| <= |extents| && extents[..|old(extents)|] == old(extents)
      ensures forall b | b in blocks :: b in old(blocks) || fresh(b)
    {
      hide StoreOk, PowerOfTwo, Table;
      directory := LinkNext(directory, rows, hashes, hashOf, x);
      HashedAppend(rows, hashes, [x], hashOf);
      assert HashesOf([x], hashOf) == [hashOf(x)];
      rows, hashes := rows + [x], hashes + [hashOf(x)];
      AllocateRow(size);
    }

    /** Store and link the selected rows. */
    method Append(batch: seq<R>, sel: seq<nat>, sizes: seq<nat>)
      requires Valid() && !stale && |sizes| == |batch| && forall i | 0 <= i < |sel| :: sel[i] < |batch|
      modifies this
      ensures Valid() && !stale && rows == old(rows) + Chosen(batch, sel)
      ensures extents[..|old(extents)|] == old(extents) && forall b | b in blocks :: b in old(blocks) || fresh(b)
    {
      hide Valid;
      if sel == [] {
        return;
      }
      Reserve(|sel|);
      ghost var chosen := Chosen(batch, sel);
      for k := 0 to |sel|
        invariant Valid() && !stale && |rows| + |sel| - k < |directory|
        invariant rows == old(rows) + chosen[..k]
        invariant |old(extents)| <= |extents| && extents[..|old(extents)|] == old(extents)
        invariant forall b | b in blocks :: b in old(blocks) || fresh(b)
      {
        AppendOne(batch[sel[k]], sizes[sel[k]]);
        assert chosen[..k + 1] == chosen[..k] + [batch[sel[k]]];
      }
      assert chosen[..|sel|] == chosen;
    }

    /** Store the selected rows without linking them. */
    method AppendUnbuilt(batch: seq<R>, sel: seq<nat>, sizes: seq<nat>)
      requires Valid() && |sizes| == |batch| && forall i | 0 <= i < |sel| :: sel[i] < |batch|
      modifies this
      ensures Valid() && (stale <==> old(stale) || sel != []) && rows == old(rows) + Chosen(batch, sel)
      ensures extents[..|old(extents)|] == old(extents) && forall b | b in blocks :: b in old(blocks) || fresh(b)
    {
      if sel == [] {
        return;
      }
      AllocateRows(Chosen(sizes, sel));
      HashedAppend(rows, hashes, Chosen(batch, sel), hashOf);
      rows, hashes := rows + Chosen(batch, sel), hashes + HashesOf(Chosen(batch, sel), hashOf);
      stale := true;
    }

    /** Take over another table's rows without copying them; the other table is left empty. */
    method Merge(other: PRLHashTable<R>)
      requires Valid() && other.Valid() && other != this && other.hashOf == hashOf && other.matches == matches
      requires forall b | b in other.blocks :: b !in blocks
      modifies this, other
      ensures Valid() && rows == old(rows) + old(other.rows) && extents == old(extents) + old(other.extents)
      ensures stale <==> old(stale) || old(other.rows) != []
      ensures old(other.rows) != [] ==> other.rows == [] && other.blocks == [] && other.extents == []
    {
      if other.rows == [] {
        return;
      }
      Merged(extents, blocks, blockUsed, blockCapacity, other.extents, other.blocks, other.blockUsed,
        other.blockCapacity);
      blocks := blocks + other.blocks;
      extents := extents + other.extents;
      rows, hashes := rows + other.rows, hashes + other.hashes;
      stale, blockUsed, blockCapacity := true, 0, 0;
      other.blocks, other.extents, other.rows, other.hashes := [], [], [], [];
      other.blockUsed, other.blockCapacity := 0, 0;
    }

    /** Link every stored row into a fresh directory. */
    method BuildDirectory()
      requires Valid()
      modifies this`directory, this`stale
      ensures Valid() && !stale && 2 * |rows| <= |directory|
    {
      var p := NextPowerOfTwo(2 * |rows|);
      var capacity := if p < INITIAL_CAPACITY then INITIAL_CAPACITY else p;
      PowersOfTwo();
      directory := BuildFrom(hashes, capacity);
      stale := false;
    }

    /** The stored row of every batch row, creating a row for each key that has none. */
    method FindOrCreateGroups(batch: seq<R>, sizes: seq<nat>) returns (addr: seq<nat>, created: seq<nat>)
      requires Valid() && !stale && OneRowPerKey(rows, matches) && Consistent(hashOf, matches) && |sizes| == |batch|
      requires forall x {:trigger matches(x, x)} :: matches(x, x)
      modifies this
      ensures Valid() && !stale && OneRowPerKey(rows, matches)
      ensures forall c | 0 <= c < |created| :: created[c] < |batch|
      ensures rows == old(rows) + Chosen(batch, created) && |addr| == |batch|
      ensures forall i | 0 <= i < |batch| :: addr[i] < |rows| && matches(rows[addr[i]], batch[i])
      ensures extents[..|old(extents)|] == old(extents) && forall b | b in blocks :: b in old(blocks) || fresh(b)
    {
      if batch == [] {
        return [], [];
      }
      addr, created := PlaceBatch(batch, sizes);
    }

    method PlaceBatch(batch: seq<R>, sizes: seq<nat>) returns (addr: seq<nat>, created: seq<nat>)
      requires Valid() && !stale && OneRowPerKey(rows, matches) && Consistent(hashOf, matches) && |sizes| == |batch|
      requires forall x {:trigger matches(x, x)} :: matches(x, x)
      modifies this
      ensures Valid() && !stale && OneRowPerKey(rows, matches)
      ensures forall c | 0 <= c < |created| :: created[c] < |batch|
      ensures rows == old(rows) + Chosen(batch, created) && |addr| == |batch|
      ensures forall i | 0 <= i < |batch| :: addr[i] < |rows| && matches(rows[addr[i]], batch[i])
      ensures extents[..|old(extents)|] == old(extents) && forall b | b in blocks :: b in old(blocks) || fresh(b)
    {
      hide StoreOk, PowerOfTwo, OneRowPerKey, Sound, Table, Found, Consistent, Hashed;
      Reserve(|batch|);
      var g := FindOrCreate(directory, rows, hashes, batch, hashOf, matches);
      Placed(g, rows, batch, hashOf, matches);
      addr, created := g.addr, g.created;
      AllocateRows(Chosen(sizes, created));
      directory, rows, hashes := g.d, g.rows, g.hashes;
    }

    /** The pairs of a stored row and a selected probe row with equal keys, each once. */
    method ProbeTable(keys: seq<R>, sel: seq<nat>) returns (out: seq<Pair>)
      requires Valid() && !stale && Consistent(hashOf, matches) && Selects(sel, |keys|)
      ensures NoPairTwice(out)
      ensures forall c: Pair {:trigger c in out} :: c in out <==> c.probe in sel && Agrees(rows, keys, matches, c)
    {
      if sel == [] || rows == [] {
        return [];
      }
      out := Probe(directory, rows, hashes, keys, hashOf, matches, sel);
      ProbeExact(directory, rows, hashes, keys, hashOf, matches, sel);
    }
  }

  /** The selected elements, in selection order. */
  function Chosen<T>(xs: seq<T>, sel: seq<nat>): seq<T>
    requires forall i | 0 <= i < |sel| :: sel[i] < |xs|
  {
    seq(|sel|, i requires 0 <= i < |sel| => xs[sel[i]])
  }

  function HashesOf<R>(rows: seq<R>, hashOf: R -> nat): seq<nat> {
    seq(|rows|, i requires 0 <= i < |rows| => hashOf(rows[i]))
  }

  lemma HashedAppend<R>(rows: seq<R>, hashes: seq<nat>, more: seq<R>, hashOf: R -> nat)
    requires Hashed(rows, hashes, hashOf)
    ensures Hashed(rows + more, hashes + HashesOf(more, hashOf), hashOf)
  {
  }

  /** What placing a batch leaves behind. */
  lemma Placed<R>(g: Groups<R>, rows: seq<R>, batch: seq<R>, hashOf: R -> nat, matches: (R, R) -> bool)
    requires Sound(g, |rows|, batch, hashOf, matches) && |rows| <= |g.rows| && g.rows[..|rows|] == rows
    requires forall i: nat | i < |batch| :: Found(g, batch, matches, i)
    ensures Table(g.d, g.rows, g.hashes, hashOf) && Hashed(g.rows, g.hashes, hashOf) && OneRowPerKey(g.rows, matches)
    ensures (forall c | 0 <= c < |g.created| :: g.created[c] < |batch|) && g.rows == rows + Chosen(batch, g.created)
    ensures |g.addr| == |batch| && forall i | 0 <= i < |batch| ::
            g.addr[i] < |g.rows| && matches(g.rows[g.addr[i]], batch[i])
  {
    forall c | 0 <= c < |g.created| ensures g.created[c] < |batch| && g.rows[|rows| + c] == batch[g.created[c]] {
    }
    forall i | 0 <= i < |batch| ensures g.addr[i] < |g.rows| && matches(g.rows[g.addr[i]], batch[i]) {
      assert Found(g, batch, matches, i);
    }
  }

  /** Link the next row to be stored. */
  method LinkNext<R(!new)>(d: Directory, rows: seq<R>, hashes: seq<nat>, hashOf: R -> nat, x: R) returns (d': Directory)
    requires Table(d, rows, hashes, hashOf) && |rows| < |d|
    ensures |d'| == |d| && Table(d', rows + [x], hashes + [hashOf(x)], hashOf)
  {
    hide Links, Clustered, LinksAt, Below, Reached;
    ghost var more := hashes + [hashOf(x)];
    MoreRows(d, hashes, [hashOf(x)], Below(|hashes|));
    BelowSize(|hashes|);
    d' := Link(d, more, Below(|hashes|), hashOf(x), |rows|);
    NextBelow(|hashes|);
  }

  predicate Hashed<R>(rows: seq<R>, hashes: seq<nat>, hashOf: R -> nat) {
    |hashes| == |rows| && forall r | 0 <= r < |rows| :: hashes[r] == hashOf(rows[r])
  }

  lemma PowersOfTwo()
    ensures PowerOfTwo(INITIAL_CAPACITY)
  {
    assert PowerOfTwo(1) && PowerOfTwo(2) && PowerOfTwo(4) && PowerOfTwo(8) && PowerOfTwo(16) && PowerOfTwo(32);
    assert PowerOfTwo(64) && PowerOfTwo(128) && PowerOfTwo(256) && PowerOfTwo(512);
  }
}
