/** Binary operations on decision diagrams, node by node with a memo table. */
module MtbddApply {
  import opened MtbddNodes
  import opened MtbddStore

  type Op = (Data, Data) -> Data

  datatype NodePair = NodePair(first: Id, second: Id)

  function Max(x: nat, y: nat): nat { if x < y then y else x }

  /** r has at every assignment the value of the operation on the values of a and b. */
  ghost predicate Applied(t: Dag, op: Op, a: Id, b: Id, r: Id)
    requires Ordered(t)
  {
    && a in t && b in t && r in t && Level(t, r) <= Max(Level(t, a), Level(t, b))
    && forall S :: Eval(t, r, S) == op(Eval(t, a, S), Eval(t, b, S))
  }

  ghost predicate MemoOk(t: Dag, op: Op, ht: map<NodePair, Id>)
    requires Ordered(t)
  {
    forall p :: p in ht ==> Applied(t, op, p.first, p.second, ht[p])
  }

  lemma AppliedGrows(t: Dag, t': Dag, op: Op, a: Id, b: Id, r: Id)
    requires Ordered(t) && Ordered(t') && Grows(t, t') && Applied(t, op, a, b, r)
    ensures Applied(t', op, a, b, r)
  {
    forall S ensures Eval(t', r, S) == op(Eval(t', a, S), Eval(t', b, S)) {
      EvalStays(t, t', a, S);
      EvalStays(t, t', b, S);
      EvalStays(t, t', r, S);
    }
  }

  lemma MemoGrows(t: Dag, t': Dag, op: Op, ht: map<NodePair, Id>)
    requires Ordered(t) && Ordered(t') && Grows(t, t') && MemoOk(t, op, ht)
    ensures MemoOk(t', op, ht)
  {
    forall p | p in ht ensures Applied(t', op, p.first, p.second, ht[p]) {
      AppliedGrows(t, t', op, p.first, p.second, ht[p]);
    }
  }

  /** The cofactors of node n when variable v, which is not below n's, is tested. */
  function LowOf(t: Dag, n: Id, branch: bool): Id
    requires n in t && (branch ==> t[n].Internal?)
  {
    if branch then t[n].low else n
  }

  function HighOf(t: Dag, n: Id, branch: bool): Id
    requires n in t && (branch ==> t[n].Internal?)
  {
    if branch then t[n].high else n
  }

  /** Which of the two nodes test the higher variable. */
  function ClassifyCase2(a: Node, b: Node): (r: (bool, bool))
    ensures r.0 ==> a.Internal?
    ensures r.1 ==> b.Internal?
    ensures !r.0 && !r.1 <==> a.Leaf? && b.Leaf?
    ensures r.0 ==> b.Internal? ==> b.variable <= a.variable
    ensures r.1 ==> a.Internal? ==> a.variable <= b.variable
    ensures r.0 && b.Internal? && !r.1 ==> b.variable < a.variable
    ensures r.1 && a.Internal? && !r.0 ==> a.variable < b.variable
    ensures r.0 && r.1 ==> a.variable == b.variable
  {
    (a.Internal? && (b.Leaf? || a.variable >= b.variable), b.Internal? && (a.Leaf? || b.variable >= a.variable))
  }

  /** Testing variable v, a node has the value of its cofactor. */
  lemma CofactorValue(t: Dag, n: Id, branch: bool, v: Var, S: set<Var>)
    requires Ordered(t) && n in t && (branch ==> t[n].Internal? && t[n].variable == v)
    ensures LowOf(t, n, branch) in t && HighOf(t, n, branch) in t
    ensures v in S ==> Eval(t, n, S) == Eval(t, HighOf(t, n, branch), S)
    ensures v !in S ==> Eval(t, n, S) == Eval(t, LowOf(t, n, branch), S)
    ensures branch ==> Level(t, LowOf(t, n, branch)) <= v && Level(t, HighOf(t, n, branch)) <= v
  {
    assert Placed(t, t[n]);
  }

  /** r stands for the choice between low and high by variable v. */
  ghost predicate Choice(t: Dag, r: Id, low: Id, high: Id, v: Var) {
    r in t && if low == high then r == low else t[r] == Internal(low, high, v)
  }

  lemma ChoiceValue(t: Dag, r: Id, low: Id, high: Id, v: Var, S: set<Var>)
    requires Ordered(t) && low in t && high in t && Choice(t, r, low, high, v)
    ensures Eval(t, r, S) == if v in S then Eval(t, high, S) else Eval(t, low, S)
  {
  }

  lemma ApplyStep(t: Dag, op: Op, a: Id, b: Id, r: Id, low: Id, high: Id, v: Var, branches: (bool, bool))
    requires Ordered(t) && a in t && b in t && Choice(t, r, low, high, v)
    requires branches.0 ==> t[a].Internal? && t[a].variable == v
    requires branches.1 ==> t[b].Internal? && t[b].variable == v
    requires branches.0 || branches.1
    requires Applied(t, op, LowOf(t, a, branches.0), LowOf(t, b, branches.1), low)
    requires Applied(t, op, HighOf(t, a, branches.0), HighOf(t, b, branches.1), high)
    requires Level(t, low) <= v && Level(t, high) <= v
    ensures Applied(t, op, a, b, r)
  {
    forall S ensures Eval(t, r, S) == op(Eval(t, a, S), Eval(t, b, S)) {
      CofactorValue(t, a, branches.0, v, S);
      CofactorValue(t, b, branches.1, v, S);
      ChoiceValue(t, r, low, high, v, S);
    }
  }

  /** Besides a and b, no node has come to be without references. */
  ghost predicate TwoNewZeros(T: Tables, T': Tables, a: Id, b: Id) {
    forall m :: Zero(T', m) ==> Zero(T, m) || m == a || m == b
  }

  lemma Cofactors(t: Dag, a: Id, b: Id, relation: (bool, bool), v: Var)
    requires Ordered(t) && a in t && b in t && relation == ClassifyCase2(t[a], t[b]) && (relation.0 || relation.1)
    requires v == if relation.1 then t[b].variable else t[a].variable
    ensures LowOf(t, a, relation.0) in t && LowOf(t, b, relation.1) in t && HighOf(t, a, relation.0) in t && HighOf(t, b, relation.1) in t
    ensures Max(Level(t, LowOf(t, a, relation.0)), Level(t, LowOf(t, b, relation.1))) <= v
    ensures Max(Level(t, HighOf(t, a, relation.0)), Level(t, HighOf(t, b, relation.1))) <= v
    ensures Level(t, LowOf(t, a, relation.0)) + Level(t, LowOf(t, b, relation.1)) < Level(t, a) + Level(t, b)
    ensures Level(t, HighOf(t, a, relation.0)) + Level(t, HighOf(t, b, relation.1)) < Level(t, a) + Level(t, b)
  {
    CofactorValue(t, a, relation.0, v, {});
    CofactorValue(t, b, relation.1, v, {});
  }

  /** Putting the two halves together. */
  lemma BranchApplied(T: Tables, T1: Tables, T2: Tables, op: Op, a: Id, b: Id, relation: (bool, bool), v: Var,
          low: Id, high: Id, r: Id)
    requires Ordered(T.nodes) && Ordered(T1.nodes) && Ordered(T2.nodes) && Grows(T.nodes, T1.nodes) && Grows(T1.nodes, T2.nodes)
    requires a in T.nodes && b in T.nodes && relation == ClassifyCase2(T.nodes[a], T.nodes[b]) && (relation.0 || relation.1)
    requires v == if relation.1 then T.nodes[b].variable else T.nodes[a].variable
    requires Applied(T1.nodes, op, LowOf(T.nodes, a, relation.0), LowOf(T.nodes, b, relation.1), low)
    requires Applied(T1.nodes, op, HighOf(T.nodes, a, relation.0), HighOf(T.nodes, b, relation.1), high)
    requires TwoNewZeros(T, T1, low, high) && OnlyNewZero(T1, T2, r) && Choice(T2.nodes, r, low, high, v)
    requires low != high ==> !Zero(T2, low) && !Zero(T2, high)
    ensures Applied(T2.nodes, op, a, b, r) && OnlyNewZero(T, T2, r)
  {
    Cofactors(T.nodes, a, b, relation, v);
    AppliedGrows(T1.nodes, T2.nodes, op, LowOf(T.nodes, a, relation.0), LowOf(T.nodes, b, relation.1), low);
    AppliedGrows(T1.nodes, T2.nodes, op, HighOf(T.nodes, a, relation.0), HighOf(T.nodes, b, relation.1), high);
    ApplyStep(T2.nodes, op, a, b, r, low, high, v, relation);
  }

  class Apply2Functor {
    const store: Store
    const op: Op
    var ht: map<NodePair, Id>

    ghost predicate Valid()
      reads this, store
    {
      store.Valid() && MemoOk(store.tables.nodes, op, ht)
    }

    constructor (store: Store, op: Op)
      requires store.Valid()
      ensures this.store == store && this.op == op && Valid()
    {
      this.store, this.op := store, op;
      ht := map[];
    }

    /** Applies the operation to two nodes, with an empty memo table. */
    method ApplyNodes(a: Id, b: Id) returns (r: Id)
      requires store.Valid() && a in store.tables.nodes && b in store.tables.nodes
      modifies this`ht, store`tables
      ensures store.Valid() && Grows(old(store.tables).nodes, store.tables.nodes)
      ensures Applied(store.tables.nodes, op, a, b, r) && OnlyNewZero(old(store.tables), store.tables, r)
      ensures old(store.tables).nodes[a].Leaf? && old(store.tables).nodes[b].Leaf? ==>
                OnlyNew(old(store.tables).nodes, store.tables.nodes, r)
    {
      ht := map[];
      r := RecDescend(a, b);
    }

    method Memoize(a: Id, b: Id, r: Id)
      requires Valid() && Applied(store.tables.nodes, op, a, b, r)
      modifies `ht
      ensures Valid()
    {
      ht := ht[NodePair(a, b) := r];
    }

    /** The node for the operation on two nodes. */
    method RecDescend(a: Id, b: Id) returns (r: Id)
      requires Valid() && a in store.tables.nodes && b in store.tables.nodes
      modifies this`ht, store`tables
      ensures Valid() && Grows(old(store.tables).nodes, store.tables.nodes)
      ensures Applied(store.tables.nodes, op, a, b, r) && OnlyNewZero(old(store.tables), store.tables, r)
      ensures old(store.tables).nodes[a].Leaf? && old(store.tables).nodes[b].Leaf? ==>
                OnlyNew(old(store.tables).nodes, store.tables.nodes, r)
      decreases Level(store.tables.nodes, a) + Level(store.tables.nodes, b)
    {
      if NodePair(a, b) in ht {
        return ht[NodePair(a, b)];
      }
      var nodeA, nodeB := store.tables.nodes[a], store.tables.nodes[b];
      var relation := ClassifyCase2(nodeA, nodeB);
      if !relation.0 && !relation.1 {
        r := SpawnValue(a, b, nodeA, nodeB);
      } else {
        r := Branch(a, b, relation, if relation.1 then nodeB.variable else nodeA.variable);
      }
      Memoize(a, b, r);
    }

    method SpawnValue(a: Id, b: Id, nodeA: Node, nodeB: Node) returns (r: Id)
      requires Valid() && a in store.tables.nodes && b in store.tables.nodes
      requires store.tables.nodes[a] == nodeA && store.tables.nodes[b] == nodeB && nodeA.Leaf? && nodeB.Leaf?
      modifies store`tables
      ensures Valid() && Grows(old(store.tables).nodes, store.tables.nodes)
      ensures Applied(store.tables.nodes, op, a, b, r) && OnlyNewZero(old(store.tables), store.tables, r)
      ensures OnlyNew(old(store.tables).nodes, store.tables.nodes, r)
    {
      ghost var t := store.tables.nodes;
      r := store.SpawnLeaf(op(nodeA.data, nodeB.data));
      MemoGrows(t, store.tables.nodes, op, ht);
    }

    method Branch(a: Id, b: Id, relation: (bool, bool), v: Var) returns (r: Id)
      requires Valid() && a in store.tables.nodes && b in store.tables.nodes
      requires relation == ClassifyCase2(store.tables.nodes[a], store.tables.nodes[b]) && (relation.0 || relation.1)
      requires v == if relation.1 then store.tables.nodes[b].variable else store.tables.nodes[a].variable
      modifies this`ht, store`tables
      ensures Valid() && Grows(old(store.tables).nodes, store.tables.nodes)
      ensures Applied(store.tables.nodes, op, a, b, r) && OnlyNewZero(old(store.tables), store.tables, r)
      decreases Level(store.tables.nodes, a) + Level(store.tables.nodes, b), 1
    {
      ghost var before := store.tables;
      Cofactors(before.nodes, a, b, relation, v);
      var t := store.tables.nodes;
      var low, high := DescendBoth(LowOf(t, a, relation.0), LowOf(t, b, relation.1), HighOf(t, a, relation.0), HighOf(t, b, relation.1));
      ghost var middle := store.tables;
      r := MakeNode(low, high, v);
      BranchApplied(before, middle, store.tables, op, a, b, relation, v, low, high, r);
    }

    /** Both recursive calls. */
    method DescendBoth(lowA: Id, lowB: Id, highA: Id, highB: Id) returns (low: Id, high: Id)
      requires Valid() && lowA in store.tables.nodes && lowB in store.tables.nodes
      requires highA in store.tables.nodes && highB in store.tables.nodes
      modifies this`ht, store`tables
      ensures Valid() && Grows(old(store.tables).nodes, store.tables.nodes)
      ensures Applied(store.tables.nodes, op, lowA, lowB, low) && Applied(store.tables.nodes, op, highA, highB, high)
      ensures TwoNewZeros(old(store.tables), store.tables, low, high)
      decreases Max(Level(store.tables.nodes, lowA) + Level(store.tables.nodes, lowB), Level(store.tables.nodes, highA) + Level(store.tables.nodes, highB)) + 1, 0
    {
      low := RecDescend(lowA, lowB);
      ghost var t := store.tables.nodes;
      high := RecDescend(highA, highB);
      AppliedGrows(t, store.tables.nodes, op, lowA, lowB, low);
    }

    /** Equal branches need no test. */
    method MakeNode(low: Id, high: Id, v: Var) returns (r: Id)
      requires Valid() && low in store.tables.nodes && high in store.tables.nodes
      requires Level(store.tables.nodes, low) <= v && Level(store.tables.nodes, high) <= v
      modifies store`tables
      ensures Valid() && Grows(old(store.tables).nodes, store.tables.nodes) && Choice(store.tables.nodes, r, low, high, v)
      ensures OnlyNewZero(old(store.tables), store.tables, r) && (low != high ==> !Zero(store.tables, low) && !Zero(store.tables, high))
    {
      if low == high {
        return low;
      }
      ghost var t := store.tables.nodes;
      r := store.SpawnInternal(low, high, v);
      MemoGrows(t, store.tables.nodes, op, ht);
    }
  }
}
