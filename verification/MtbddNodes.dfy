/** Ordered and reduced decision diagrams with shared nodes: their meaning, and why equal
    meaning is equal root. */
module MtbddNodes {
  import opened Collections

  type Id = nat
  type Var = nat
  type Data = int

  /** The children of an internal node test lower variables. */
  datatype Node = Leaf(data: Data) | Internal(low: Id, high: Id, variable: Var)

  type Dag = map<Id, Node>

  /** One above the tested variable; zero for leaves. */
  function Level(t: Dag, n: Id): nat
    requires n in t
  {
    if t[n].Leaf? then 0 else t[n].variable + 1
  }

  /** A node may stand above its children: they exist, differ, and test lower variables. */
  ghost predicate Placed(t: Dag, node: Node) {
    node.Internal? ==>
      && node.low in t && node.high in t && node.low != node.high
      && Level(t, node.low) <= node.variable && Level(t, node.high) <= node.variable
  }

  ghost predicate Ordered(t: Dag) {
    forall n {:trigger Placed(t, t[n])} :: n in t ==> Placed(t, t[n])
  }

  /** No two nodes are alike. */
  ghost predicate Unique(t: Dag) {
    forall a, b :: a in t && b in t && t[a] == t[b] ==> a == b
  }

  /** The value at the assignment that makes the variables in S true. */
  ghost function Eval(t: Dag, n: Id, S: set<Var>): Data
    requires Ordered(t) && n in t
    decreases Level(t, n)
  {
    if t[n].Leaf? then t[n].data
    else if t[n].variable in S then assert Placed(t, t[n]); Eval(t, t[n].high, S)
    else assert Placed(t, t[n]); Eval(t, t[n].low, S)
  }

  /** The assignments agree below the bound. */
  ghost predicate Agree(S: set<Var>, T: set<Var>, bound: nat) {
    forall v: Var :: v < bound ==> (v in S <==> v in T)
  }

  /** Only the variables from the root's down matter. */
  lemma {:induction false} EvalAgree(t: Dag, n: Id, S: set<Var>, T: set<Var>)
    requires Ordered(t) && n in t && Agree(S, T, Level(t, n))
    ensures Eval(t, n, S) == Eval(t, n, T)
    decreases Level(t, n)
  {
    if t[n].Internal? {
      assert Placed(t, t[n]);
      EvalAgree(t, t[n].low, S, T);
      EvalAgree(t, t[n].high, S, T);
    }
  }

  ghost predicate SameValues(t: Dag, a: Id, b: Id)
    requires Ordered(t) && a in t && b in t
  {
    forall S :: Eval(t, a, S) == Eval(t, b, S)
  }

  /** If a node has the values of another that does not test its variable, so have its children. */
  lemma ChildrenSame(t: Dag, a: Id, b: Id)
    requires Ordered(t) && a in t && b in t && t[a].Internal? && Level(t, b) <= t[a].variable && SameValues(t, a, b)
    ensures t[a].low in t && t[a].high in t && SameValues(t, t[a].low, b) && SameValues(t, t[a].high, b)
  {
    assert Placed(t, t[a]);
    var v := t[a].variable;
    forall S ensures Eval(t, t[a].low, S) == Eval(t, b, S) && Eval(t, t[a].high, S) == Eval(t, b, S) {
      EvalAgree(t, t[a].low, S, S - {v});
      EvalAgree(t, t[a].high, S, S + {v});
      EvalAgree(t, b, S, S - {v});
      EvalAgree(t, b, S, S + {v});
      assert Eval(t, a, S - {v}) == Eval(t, b, S - {v});
      assert Eval(t, a, S + {v}) == Eval(t, b, S + {v});
    }
  }

  lemma SameVariable(t: Dag, a: Id, b: Id)
    requires Ordered(t) && a in t && b in t && t[a].Internal? && t[b].Internal? && t[a].variable == t[b].variable && SameValues(t, a, b)
    ensures t[a].low in t && t[a].high in t && t[b].low in t && t[b].high in t
    ensures SameValues(t, t[a].low, t[b].low) && SameValues(t, t[a].high, t[b].high)
  {
    assert Placed(t, t[a]) && Placed(t, t[b]);
    var v := t[a].variable;
    forall S ensures Eval(t, t[a].low, S) == Eval(t, t[b].low, S) && Eval(t, t[a].high, S) == Eval(t, t[b].high, S) {
      EvalAgree(t, t[a].low, S, S - {v});
      EvalAgree(t, t[b].low, S, S - {v});
      EvalAgree(t, t[a].high, S, S + {v});
      EvalAgree(t, t[b].high, S, S + {v});
      assert Eval(t, a, S - {v}) == Eval(t, b, S - {v});
      assert Eval(t, a, S + {v}) == Eval(t, b, S + {v});
    }
  }

  /** Canonicity: nodes with the same values are the same node. */
  lemma {:induction false} Canonical(t: Dag, a: Id, b: Id)
    requires Ordered(t) && Unique(t) && a in t && b in t && SameValues(t, a, b)
    ensures a == b
    decreases Level(t, a) + Level(t, b)
  {
    if t[a].Leaf? && t[b].Leaf? {
      assert Eval(t, a, {}) == Eval(t, b, {});
    } else if Level(t, a) > Level(t, b) {
      ChildrenSame(t, a, b);
      assert Placed(t, t[a]);
      Canonical(t, t[a].low, b);
      Canonical(t, t[a].high, b);
    } else if Level(t, b) > Level(t, a) {
      Symmetric(t, a, b);
      ChildrenSame(t, b, a);
      assert Placed(t, t[b]);
      Canonical(t, t[b].low, a);
      Canonical(t, t[b].high, a);
    } else {
      SameVariable(t, a, b);
      assert Placed(t, t[a]) && Placed(t, t[b]);
      Canonical(t, t[a].low, t[b].low);
      Canonical(t, t[a].high, t[b].high);
      assert t[a] == t[b];
    }
  }

  lemma Symmetric(t: Dag, a: Id, b: Id)
    requires Ordered(t) && a in t && b in t && SameValues(t, a, b)
    ensures SameValues(t, b, a)
  {
  }

  // ---------------------------------------------------------------- growing and shrinking

  /** All the nodes of t are in t'. */
  ghost predicate Grows(t: Dag, t': Dag) {
    forall n :: n in t ==> n in t' && t'[n] == t[n]
  }

  /** The nodes in both are the same. */
  ghost predicate Agrees(t: Dag, t': Dag) {
    forall n :: n in t && n in t' ==> t[n] == t'[n]
  }

  /** A node that stays keeps its values. */
  lemma {:induction false} EvalStays(t: Dag, t': Dag, n: Id, S: set<Var>)
    requires Ordered(t) && Ordered(t') && Agrees(t, t') && n in t && n in t'
    ensures Eval(t', n, S) == Eval(t, n, S)
    decreases Level(t, n)
  {
    if t[n].Internal? {
      assert Placed(t, t[n]) && Placed(t', t'[n]);
      EvalStays(t, t', t[n].low, S);
      EvalStays(t, t', t[n].high, S);
    }
  }

  // ---------------------------------------------------------------- counting references

  ghost function LowParents(t: Dag, n: Id): set<Id> {
    set p | p in t && t[p].Internal? && t[p].low == n
  }

  ghost function HighParents(t: Dag, n: Id): set<Id> {
    set p | p in t && t[p].Internal? && t[p].high == n
  }

  /** The number of edges into n. */
  ghost function Incoming(t: Dag, n: Id): nat {
    |LowParents(t, n)| + |HighParents(t, n)|
  }

  function One(b: bool): nat { if b then 1 else 0 }

  /** A new node brings one edge to each of its children. */
  lemma IncomingAdd(t: Dag, p: Id, node: Node, n: Id)
    requires p !in t
    ensures Incoming(t[p := node], n) ==
              Incoming(t, n) + One(node.Internal? && node.low == n) + One(node.Internal? && node.high == n)
  {
    var t' := t[p := node];
    if node.Internal? && node.low == n {
      assert LowParents(t', n) == LowParents(t, n) + {p};
    } else {
      assert LowParents(t', n) == LowParents(t, n);
    }
    if node.Internal? && node.high == n {
      assert HighParents(t', n) == HighParents(t, n) + {p};
    } else {
      assert HighParents(t', n) == HighParents(t, n);
    }
  }

  lemma IncomingRemove(t: Dag, p: Id, n: Id)
    requires p in t
    ensures Incoming(t, n) == Incoming(t - {p}, n) + One(t[p].Internal? && t[p].low == n) + One(t[p].Internal? && t[p].high == n)
  {
    IncomingAdd(t - {p}, p, t[p], n);
    assert (t - {p})[p := t[p]] == t;
  }

  lemma NothingInto(t: Dag, n: Id)
    requires Ordered(t) && n !in t
    ensures Incoming(t, n) == 0
  {
    forall p | p in t ensures t[p].Internal? ==> t[p].low != n && t[p].high != n {
      assert Placed(t, t[p]);
    }
    assert LowParents(t, n) == {} && HighParents(t, n) == {};
  }

  lemma ChildHasParent(t: Dag, p: Id)
    requires p in t && t[p].Internal?
    ensures Incoming(t, t[p].low) > 0 && Incoming(t, t[p].high) > 0
  {
    assert p in LowParents(t, t[p].low) && p in HighParents(t, t[p].high);
  }

  // ---------------------------------------------------------------- reachability

  ghost predicate ParentOf(t: Dag, p: Id, n: Id) {
    p in t && t[p].Internal? && (t[p].low == n || t[p].high == n)
  }

  /** At most k edges lead from a handle to n. */
  ghost predicate Reached(t: Dag, handles: multiset<Id>, n: Id, k: nat)
    decreases k
  {
    n in handles || (k > 0 && exists p :: ParentOf(t, p, n) && Reached(t, handles, p, k - 1))
  }

  ghost predicate Reachable(t: Dag, handles: multiset<Id>, n: Id) {
    exists k :: Reached(t, handles, n, k)
  }

  lemma HasParent(t: Dag, n: Id) returns (p: Id)
    requires Incoming(t, n) > 0
    ensures ParentOf(t, p, n)
  {
    if LowParents(t, n) != {} {
      p :| p in LowParents(t, n);
    } else {
      p :| p in HighParents(t, n);
    }
  }

  /** If every node without a handle has a parent, every node is reachable from a handle:
      going up, the variables grow, and there is a highest one. */
  lemma {:induction false} AllReachable(t: Dag, handles: multiset<Id>, n: Id, top: nat)
    requires Ordered(t) && n in t && forall m :: m in t ==> Level(t, m) <= top
    requires forall m :: m in t && m !in handles ==> Incoming(t, m) > 0
    ensures Reached(t, handles, n, top - Level(t, n))
    decreases top - Level(t, n)
  {
    if n !in handles {
      var p := HasParent(t, n);
      assert Placed(t, t[p]);
      AllReachable(t, handles, p, top);
      ReachedSooner(t, handles, p, top - Level(t, p), top - Level(t, n) - 1);
    }
  }

  lemma {:induction false} ReachedSooner(t: Dag, handles: multiset<Id>, n: Id, k: nat, l: nat)
    requires Reached(t, handles, n, k) && k <= l
    ensures Reached(t, handles, n, l)
    decreases k
  {
    if n !in handles {
      var p :| ParentOf(t, p, n) && Reached(t, handles, p, k - 1);
      ReachedSooner(t, handles, p, k - 1, l - 1);
    }
  }

  lemma {:induction false} ReachedInside(t: Dag, handles: multiset<Id>, n: Id, k: nat)
    requires Ordered(t) && Reached(t, handles, n, k) && forall h :: h in handles ==> h in t
    ensures n in t
    decreases k
  {
    if n !in handles {
      var p :| ParentOf(t, p, n) && Reached(t, handles, p, k - 1);
      assert Placed(t, t[p]);
    }
  }

  lemma HighestLevel(t: Dag) returns (top: nat)
    ensures forall m :: m in t ==> Level(t, m) <= top
  {
    top := 0;
    var todo := t.Keys;
    while todo != {}
      invariant todo <= t.Keys && forall m :: m in t && m !in todo ==> Level(t, m) <= top
      decreases todo
    {
      var m :| m in todo;
      if Level(t, m) > top { top := Level(t, m); }
      todo := todo - {m};
    }
  }
}
