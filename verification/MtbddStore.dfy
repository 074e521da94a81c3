/** The unique tables and the reference counts of the decision diagrams. */
module MtbddStore {
  import opened Collections
  import opened MtbddNodes

  datatype Address = Address(low: Id, high: Id, variable: Var)

  /** The nodes in memory, their counts, and the tables by content. */
  datatype Tables = Tables(nodes: Dag, refs: map<Id, nat>, leafCache: map<Data, Id>, internalCache: map<Address, Id>, next: Id)

  function AddressOf(node: Node): Address
    requires node.Internal?
  {
    Address(node.low, node.high, node.variable)
  }

  ghost predicate LeafCached(t: Dag, leafCache: map<Data, Id>) {
    && (forall d :: d in leafCache ==> leafCache[d] in t && t[leafCache[d]] == Leaf(d))
    && (forall n :: n in t && t[n].Leaf? ==> t[n].data in leafCache && leafCache[t[n].data] == n)
  }

  ghost predicate InternalCached(t: Dag, internalCache: map<Address, Id>) {
    && (forall a :: a in internalCache ==> internalCache[a] in t && t[internalCache[a]] == Internal(a.low, a.high, a.variable))
    && (forall n :: n in t && t[n].Internal? ==> AddressOf(t[n]) in internalCache && internalCache[AddressOf(t[n])] == n)
  }

  ghost predicate CountIs(t: Dag, refs: map<Id, nat>, handles: multiset<Id>, n: Id) {
    n in refs && refs[n] == Incoming(t, n) + handles[n]
  }

  /** Every count is the number of edges into the node and of its handles. */
  ghost predicate Counted(t: Dag, refs: map<Id, nat>, handles: multiset<Id>) {
    && refs.Keys == t.Keys
    && (forall n {:trigger CountIs(t, refs, handles, n)} :: n in t ==> CountIs(t, refs, handles, n))
    && (forall h :: h in handles ==> h in t)
  }

  ghost predicate Below(t: Dag, next: Id) {
    forall n :: n in t ==> n < next
  }

  ghost predicate Ok(T: Tables, handles: multiset<Id>) {
    && Ordered(T.nodes) && LeafCached(T.nodes, T.leafCache) && InternalCached(T.nodes, T.internalCache)
    && Counted(T.nodes, T.refs, handles) && Below(T.nodes, T.next)
  }

  lemma TablesUnique(T: Tables)
    requires LeafCached(T.nodes, T.leafCache) && InternalCached(T.nodes, T.internalCache)
    ensures Unique(T.nodes)
  {
    forall a, b | a in T.nodes && b in T.nodes && T.nodes[a] == T.nodes[b] ensures a == b {
      assert T.nodes[a].Internal? ==> AddressOf(T.nodes[a]) == AddressOf(T.nodes[b]);
    }
  }

  ghost predicate Zero(T: Tables, n: Id) {
    n in T.nodes && n in T.refs && T.refs[n] == 0
  }

  /** No node is kept without a reference. */
  ghost predicate NoGarbage(T: Tables) {
    forall n :: !Zero(T, n)
  }

  /** The only new node without references, if any, is n. */
  ghost predicate OnlyNewZero(T: Tables, T': Tables, n: Id) {
    forall m :: Zero(T', m) ==> Zero(T, m) || m == n
  }

  /** The only new node, if any, is n. */
  ghost predicate OnlyNew(t: Dag, t': Dag, n: Id) {
    forall m :: m in t' ==> m in t || m == n
  }

  ghost predicate NoNewZero(T: Tables, T': Tables) {
    forall m :: Zero(T', m) ==> Zero(T, m)
  }

  /** Nodes without references stay. */
  ghost predicate ZerosStay(T: Tables, T': Tables) {
    forall m :: Zero(T, m) ==> Zero(T', m)
  }

  /** Without garbage, the tables hold exactly the nodes that can be reached from handles. */
  lemma TablesAreReachable(T: Tables, handles: multiset<Id>, n: Id)
    requires Ok(T, handles) && NoGarbage(T)
    ensures n in T.nodes <==> Reachable(T.nodes, handles, n)
  {
    if n in T.nodes {
      var top := HighestLevel(T.nodes);
      forall m | m in T.nodes && m !in handles ensures Incoming(T.nodes, m) > 0 {
        assert !Zero(T, m) && CountIs(T.nodes, T.refs, handles, m);
      }
      AllReachable(T.nodes, handles, n, top);
    }
    if Reachable(T.nodes, handles, n) {
      var k :| Reached(T.nodes, handles, n, k);
      ReachedInside(T.nodes, handles, n, k);
    }
  }

  // ---------------------------------------------------------------- single steps

  function WithLeaf(T: Tables, d: Data): Tables {
    T.(nodes := T.nodes[T.next := Leaf(d)], refs := T.refs[T.next := 0], leafCache := T.leafCache[d := T.next], next := T.next + 1)
  }

  lemma WithLeafOk(T: Tables, handles: multiset<Id>, d: Data)
    requires Ok(T, handles) && d !in T.leafCache
    ensures Ok(WithLeaf(T, d), handles) && Grows(T.nodes, WithLeaf(T, d).nodes) && OnlyNewZero(T, WithLeaf(T, d), T.next)
  {
    assert T.next !in T.nodes;
    StillOrdered(T.nodes, T.next, Leaf(d));
    CountedAdd(T.nodes, T.refs, handles, T.next, Leaf(d), WithLeaf(T, d).refs);
  }

  /** A new node starts without references and adds one to each of its children. */
  lemma CountedAdd(t: Dag, refs: map<Id, nat>, handles: multiset<Id>, p: Id, node: Node, refs': map<Id, nat>)
    requires Ordered(t) && Counted(t, refs, handles) && p !in t && Placed(t, node)
    requires refs'.Keys == refs.Keys + {p} && refs'[p] == 0
    requires forall n :: n in refs ==> refs'[n] == refs[n] + One(node.Internal? && node.low == n) + One(node.Internal? && node.high == n)
    ensures Counted(t[p := node], refs', handles)
  {
    var t' := t[p := node];
    NothingInto(t, p);
    forall n | n in t' ensures CountIs(t', refs', handles, n) {
      IncomingAdd(t, p, node, n);
      assert n != p ==> CountIs(t, refs, handles, n);
    }
  }

  lemma StillOrdered(t: Dag, n: Id, node: Node)
    requires Ordered(t) && n !in t && Placed(t, node)
    ensures Ordered(t[n := node])
  {
    var t' := t[n := node];
    forall m | m in t' ensures Placed(t', t'[m]) {
      assert m != n ==> Placed(t, t[m]);
    }
  }

  function WithInternal(T: Tables, low: Id, high: Id, v: Var): Tables
    requires low in T.refs && high in T.refs && low != high
  {
    T.(nodes := T.nodes[T.next := Internal(low, high, v)],
       refs := T.refs[low := T.refs[low] + 1][high := T.refs[high] + 1][T.next := 0],
       internalCache := T.internalCache[Address(low, high, v) := T.next],
       next := T.next + 1)
  }

  lemma WithInternalOk(T: Tables, handles: multiset<Id>, low: Id, high: Id, v: Var)
    requires Ok(T, handles) && low in T.nodes && high in T.nodes && low != high
    requires Level(T.nodes, low) <= v && Level(T.nodes, high) <= v && Address(low, high, v) !in T.internalCache
    ensures Ok(WithInternal(T, low, high, v), handles) && Grows(T.nodes, WithInternal(T, low, high, v).nodes)
    ensures OnlyNewZero(T, WithInternal(T, low, high, v), T.next)
    ensures !Zero(WithInternal(T, low, high, v), low) && !Zero(WithInternal(T, low, high, v), high)
  {
    assert T.next !in T.nodes;
    StillOrdered(T.nodes, T.next, Internal(low, high, v));
    CountedAdd(T.nodes, T.refs, handles, T.next, Internal(low, high, v), WithInternal(T, low, high, v).refs);
    WithInternalCached(T, low, high, v);
  }

  lemma WithInternalCached(T: Tables, low: Id, high: Id, v: Var)
    requires LeafCached(T.nodes, T.leafCache) && InternalCached(T.nodes, T.internalCache) && T.next !in T.nodes && low in T.refs && high in T.refs && low != high
    requires Address(low, high, v) !in T.internalCache
    ensures LeafCached(WithInternal(T, low, high, v).nodes, T.leafCache)
    ensures InternalCached(WithInternal(T, low, high, v).nodes, WithInternal(T, low, high, v).internalCache)
  {
  }

  /** New references only add to old ones. */
  lemma OldZero(T: Tables, h: multiset<Id>, T': Tables, h': multiset<Id>, z: Id)
    requires Ok(T, h) && Ok(T', h') && Grows(T.nodes, T'.nodes) && h <= h' && z in T.nodes && Zero(T', z)
    ensures Zero(T, z)
  {
    assert LowParents(T.nodes, z) <= LowParents(T'.nodes, z) && HighParents(T.nodes, z) <= HighParents(T'.nodes, z);
    SubsetSize(LowParents(T.nodes, z), LowParents(T'.nodes, z));
    SubsetSize(HighParents(T.nodes, z), HighParents(T'.nodes, z));
    assert CountIs(T.nodes, T.refs, h, z) && CountIs(T'.nodes, T'.refs, h', z);
  }

  function WithCount(T: Tables, n: Id, count: nat): Tables {
    T.(refs := T.refs[n := count])
  }

  /** A count and the handles change together. */
  lemma WithCountOk(T: Tables, handles: multiset<Id>, n: Id, count: nat, handles': multiset<Id>)
    requires Ok(T, handles) && n in T.nodes
    requires count + handles[n] == T.refs[n] + handles'[n] && forall m :: m != n ==> handles'[m] == handles[m]
    ensures Ok(WithCount(T, n, count), handles')
    ensures count > 0 ==> NoNewZero(T, WithCount(T, n, count)) && !Zero(WithCount(T, n, count), n)
  {
    CountedChange(T.nodes, T.refs, handles, n, count, handles');
  }

  lemma CountedChange(t: Dag, refs: map<Id, nat>, handles: multiset<Id>, n: Id, count: nat, handles': multiset<Id>)
    requires Counted(t, refs, handles) && n in t
    requires count + handles[n] == refs[n] + handles'[n] && forall m :: m != n ==> handles'[m] == handles[m]
    ensures Counted(t, refs[n := count], handles')
  {
    forall m | m in t ensures CountIs(t, refs[n := count], handles', m) {
      assert CountIs(t, refs, handles, m);
    }
    forall h | h in handles' ensures h in t {
      assert h != n ==> h in handles;
    }
  }

  function Without(T: Tables, n: Id): Tables
    requires n in T.nodes
  {
    T.(nodes := T.nodes - {n}, refs := T.refs - {n},
       leafCache := if T.nodes[n].Leaf? then T.leafCache - {T.nodes[n].data} else T.leafCache,
       internalCache := if T.nodes[n].Leaf? then T.internalCache else T.internalCache - {AddressOf(T.nodes[n])})
  }

  /** The references that a node gives up when it goes. */
  function Children(node: Node): multiset<Id> {
    if node.Leaf? then multiset{} else multiset{node.low, node.high}
  }

  /** Removing a node whose last reference was a handle leaves its edges to be given up. */
  lemma OthersStayZero(T: Tables, n: Id)
    requires n in T.nodes && !Zero(T, n)
    ensures ZerosStay(T, Without(T, n))
  {
  }

  lemma WithoutOk(T: Tables, handles: multiset<Id>, n: Id)
    requires Ok(T, handles) && n in handles && T.refs[n] == 1
    ensures Ok(Without(T, n), handles - multiset{n} + Children(T.nodes[n]))
    ensures Grows(Without(T, n).nodes, T.nodes) && NoNewZero(T, Without(T, n))
  {
    var T' := Without(T, n);
    var handles' := handles - multiset{n} + Children(T.nodes[n]);
    assert CountIs(T.nodes, T.refs, handles, n) && Placed(T.nodes, T.nodes[n]);
    ChildrenStay(T.nodes, n);
    forall m | m in T'.nodes ensures CountIs(T'.nodes, T'.refs, handles', m) {
      IncomingRemove(T.nodes, n, m);
      assert CountIs(T.nodes, T.refs, handles, m);
    }
    WithoutCached(T, n);
  }

  /** A node without parents can be taken out. */
  lemma ChildrenStay(t: Dag, n: Id)
    requires Ordered(t) && n in t && Incoming(t, n) == 0
    ensures Ordered(t - {n})
    ensures t[n].Internal? ==> t[n].low != n && t[n].high != n
  {
    forall m | m in t - {n} ensures Placed(t - {n}, (t - {n})[m]) {
      assert Placed(t, t[m]);
      if t[m].Internal? { ChildHasParent(t, m); }
    }
    if t[n].Internal? { ChildHasParent(t, n); }
  }

  /** A leaf without references can simply go. */
  lemma WithoutZeroOk(T: Tables, handles: multiset<Id>, n: Id)
    requires Ok(T, handles) && Zero(T, n) && T.nodes[n].Leaf?
    ensures Ok(Without(T, n), handles) && Grows(Without(T, n).nodes, T.nodes) && NoNewZero(T, Without(T, n)) && n !in Without(T, n).nodes
  {
    WithCountOk(T, handles, n, 1, handles + multiset{n});
    var T1 := WithCount(T, n, 1);
    WithoutOk(T1, handles + multiset{n}, n);
    assert Without(T1, n) == Without(T, n);
    assert handles + multiset{n} - multiset{n} + Children(T1.nodes[n]) == handles;
  }

  lemma WithoutCached(T: Tables, n: Id)
    requires LeafCached(T.nodes, T.leafCache) && InternalCached(T.nodes, T.internalCache) && n in T.nodes
    ensures LeafCached(Without(T, n).nodes, Without(T, n).leafCache)
    ensures InternalCached(Without(T, n).nodes, Without(T, n).internalCache)
  {
    TablesUnique(T);
  }

  // ---------------------------------------------------------------- the store

  /** The memory of the package. The handles are the references held by diagrams. */
  class Store {
    var tables: Tables
    ghost var handles: multiset<Id>

    ghost predicate Valid()
      reads this
    {
      Ok(tables, handles)
    }

    constructor ()
      ensures Valid() && handles == multiset{} && tables.nodes == map[] && tables.leafCache == map[] && NoGarbage(tables)
    {
      tables := Tables(map[], map[], map[], map[], 0);
      handles := multiset{};
    }

    /** The leaf with the given data, new if there is none. */
    method SpawnLeaf(data: Data) returns (n: Id)
      requires Valid()
      modifies `tables
      ensures Valid() && Grows(old(tables).nodes, tables.nodes) && OnlyNewZero(old(tables), tables, n)
      ensures n in tables.nodes && tables.nodes[n] == Leaf(data) && OnlyNew(old(tables).nodes, tables.nodes, n)
      ensures tables.leafCache.Keys == old(tables).leafCache.Keys + {data}
    {
      if data in tables.leafCache {
        n := tables.leafCache[data];
      } else {
        WithLeafOk(tables, handles, data);
        n := tables.next;
        tables := WithLeaf(tables, data);
      }
    }

    /** The node with the given children and variable, new if there is none. */
    method SpawnInternal(low: Id, high: Id, variable: Var) returns (n: Id)
      requires Valid() && low in tables.nodes && high in tables.nodes && low != high
      requires Level(tables.nodes, low) <= variable && Level(tables.nodes, high) <= variable
      modifies `tables
      ensures Valid() && Grows(old(tables).nodes, tables.nodes) && OnlyNewZero(old(tables), tables, n)
      ensures n in tables.nodes && tables.nodes[n] == Internal(low, high, variable) && OnlyNew(old(tables).nodes, tables.nodes, n)
      ensures !Zero(tables, low) && !Zero(tables, high) && tables.leafCache == old(tables).leafCache
    {
      var addr := Address(low, high, variable);
      if addr in tables.internalCache {
        n := tables.internalCache[addr];
        ChildrenCounted(tables, handles, n);
      } else {
        WithInternalOk(tables, handles, low, high, variable);
        n := tables.next;
        tables := WithInternal(tables, low, high, variable);
      }
    }

    /** Takes a handle on the node. */
    method IncrementRefCnt(n: Id)
      requires Valid() && n in tables.nodes
      modifies this
      ensures Valid() && handles == old(handles) + multiset{n} && tables.nodes == old(tables).nodes && tables.leafCache == old(tables).leafCache
      ensures NoNewZero(old(tables), tables) && !Zero(tables, n) && (!Zero(old(tables), n) ==> ZerosStay(old(tables), tables))
    {
      WithCountOk(tables, handles, n, tables.refs[n] + 1, handles + multiset{n});
      tables := WithCount(tables, n, tables.refs[n] + 1);
      handles := handles + multiset{n};
    }

    /** Gives up a handle; a node without references goes, and gives up its children. */
    method RecursivelyDelete(n: Id)
      requires Valid() && n in handles
      modifies this
      ensures Valid() && handles == old(handles) - multiset{n}
      ensures Grows(tables.nodes, old(tables).nodes) && NoNewZero(old(tables), tables) && ZerosStay(old(tables), tables)
      decreases Level(tables.nodes, n), 2
    {
      HandleCounted(tables, handles, n);
      if tables.refs[n] == 1 {
        Dispose(n);
      } else {
        WithCountOk(tables, handles, n, tables.refs[n] - 1, handles - multiset{n});
        tables := WithCount(tables, n, tables.refs[n] - 1);
        handles := handles - multiset{n};
      }
    }

    method DisposeOfLeafNode(n: Id)
      requires Valid() && Zero(tables, n) && tables.nodes[n].Leaf?
      modifies `tables
      ensures Valid() && Grows(tables.nodes, old(tables).nodes) && NoNewZero(old(tables), tables) && n !in tables.nodes
      ensures tables.nodes == old(tables).nodes - {n}
    {
      WithoutZeroOk(tables, handles, n);
      tables := Without(tables, n);
    }

    method Dispose(n: Id)
      requires Valid() && n in handles && n in tables.refs && tables.refs[n] == 1
      modifies this
      ensures Valid() && handles == old(handles) - multiset{n}
      ensures Grows(tables.nodes, old(tables).nodes) && NoNewZero(old(tables), tables) && ZerosStay(old(tables), tables)
      decreases Level(tables.nodes, n), 1
    {
      var node := tables.nodes[n];
      WithoutOk(tables, handles, n);
      OthersStayZero(tables, n);
      assert Placed(tables.nodes, node);
      ghost var rest := handles - multiset{n};
      tables := Without(tables, n);
      handles := rest + Children(node);
      if node.Internal? {
        HandlesInside(tables, handles, node.low);
        HandlesInside(tables, handles, node.high);
        DeleteBoth(node.low, node.high, rest, node.variable + 1);
      }
    }

    method DeleteBoth(low: Id, high: Id, ghost rest: multiset<Id>, ghost bound: nat)
      requires Valid() && handles == rest + multiset{low, high} && low in tables.nodes && high in tables.nodes
      requires Level(tables.nodes, low) < bound && Level(tables.nodes, high) < bound
      modifies this
      ensures Valid() && handles == rest && Grows(tables.nodes, old(tables).nodes) && NoNewZero(old(tables), tables)
      ensures ZerosStay(old(tables), tables)
      decreases bound, 0
    {
      RecursivelyDelete(low);
      assert handles == rest + multiset{high};
      HandlesInside(tables, handles, high);
      RecursivelyDelete(high);
    }

    lemma HandlesInside(T: Tables, handles: multiset<Id>, n: Id)
      requires Ok(T, handles) && n in handles
      ensures n in T.nodes
    {
    }
  }

  lemma HandleCounted(T: Tables, handles: multiset<Id>, n: Id)
    requires Ok(T, handles) && n in handles
    ensures n in T.nodes && n in T.refs && T.refs[n] >= 1
  {
    assert CountIs(T.nodes, T.refs, handles, n);
  }

  lemma ChildrenCounted(T: Tables, handles: multiset<Id>, n: Id)
    requires Ok(T, handles) && n in T.nodes && T.nodes[n].Internal?
    ensures !Zero(T, T.nodes[n].low) && !Zero(T, T.nodes[n].high)
  {
    assert Placed(T.nodes, T.nodes[n]);
    ChildHasParent(T.nodes, n);
    assert CountIs(T.nodes, T.refs, handles, T.nodes[n].low) && CountIs(T.nodes, T.refs, handles, T.nodes[n].high);
  }
}
