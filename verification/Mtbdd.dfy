/** Multi-terminal binary decision diagrams: construction, evaluation, copies and deletion. */
module Mtbdd {
  import opened MtbddApply
  import opened MtbddNodes
  import opened MtbddStore

  datatype VarValue = ZERO | ONE | DONT_CARE

  /** A value, or none, for every variable from zero on. */
  type SymbolicVarAsgn = seq<VarValue>

  /** A diagram: its root, on which it holds a handle, and the value it was made with. */
  datatype Mtbdd = Mtbdd(root: Id, defaultValue: Data)

  /** S gives the variables, moved up by offset, the values they are assigned. */
  ghost predicate Matches(asgn: SymbolicVarAsgn, offset: nat, S: set<Var>) {
    forall i :: 0 <= i < |asgn| ==> (asgn[i] == ONE ==> i + offset in S) && (asgn[i] == ZERO ==> i + offset !in S)
  }

  /** The variables, moved up by offset, that are assigned one. */
  ghost function Ones(asgn: SymbolicVarAsgn, offset: nat): set<Var> {
    set i | 0 <= i < |asgn| && asgn[i] == ONE :: i + offset
  }

  lemma InOnes(asgn: SymbolicVarAsgn, offset: nat, v: Var)
    ensures v in Ones(asgn, offset) <==> offset <= v < offset + |asgn| && asgn[v - offset] == ONE
  {
    if offset <= v < offset + |asgn| {
      assert v == (v - offset) + offset;
    }
  }

  /** n has the value of node where the assignment matches, and the default elsewhere. */
  ghost predicate Extends(t: Dag, n: Id, asgn: SymbolicVarAsgn, offset: nat, node: Id, defaultValue: Data)
    requires Ordered(t)
  {
    && n in t && node in t && Level(t, n) <= offset + |asgn|
    && forall S :: Eval(t, n, S) == if Matches(asgn, offset, S) then Eval(t, node, S) else defaultValue
  }

  lemma ExtendsStays(t: Dag, t': Dag, n: Id, asgn: SymbolicVarAsgn, offset: nat, node: Id, defaultValue: Data)
    requires Ordered(t) && Ordered(t') && Agrees(t, t') && Extends(t, n, asgn, offset, node, defaultValue) && n in t' && node in t'
    ensures Extends(t', n, asgn, offset, node, defaultValue)
  {
    forall S ensures Eval(t', n, S) == if Matches(asgn, offset, S) then Eval(t', node, S) else defaultValue {
      EvalStays(t, t', n, S);
      EvalStays(t, t', node, S);
    }
  }

  lemma MatchesMore(asgn: SymbolicVarAsgn, offset: nat, i: nat, S: set<Var>)
    requires i < |asgn|
    ensures Matches(asgn[..i + 1], offset, S) <==>
              Matches(asgn[..i], offset, S) && (asgn[i] == ONE ==> i + offset in S) && (asgn[i] == ZERO ==> i + offset !in S)
  {
    assert asgn[..i + 1] == asgn[..i] + [asgn[i]];
    if Matches(asgn[..i + 1], offset, S) {
      forall k | 0 <= k < i ensures (asgn[..i][k] == ONE ==> k + offset in S) && (asgn[..i][k] == ZERO ==> k + offset !in S) {
        assert asgn[..i + 1][k] == asgn[k];
      }
      assert asgn[..i + 1][i] == asgn[i];
    }
    if Matches(asgn[..i], offset, S) {
      forall k | 0 <= k < i ensures (asgn[k] == ONE ==> k + offset in S) && (asgn[k] == ZERO ==> k + offset !in S) {
        assert asgn[..i][k] == asgn[k];
      }
    }
  }

  /** Testing one more variable against the sink. */
  lemma ExtendStep(t: Dag, p: Id, sink: Id, r: Id, asgn: SymbolicVarAsgn, offset: nat, i: nat, node: Id,
          defaultValue: Data)
    requires Ordered(t) && i < |asgn| && Extends(t, p, asgn[..i], offset, node, defaultValue) && sink in t && t[sink] == Leaf(defaultValue)
    requires asgn[i] == ONE ==> r in t && t[r] == Internal(sink, p, i + offset)
    requires asgn[i] == ZERO ==> r in t && t[r] == Internal(p, sink, i + offset)
    requires asgn[i] == DONT_CARE ==> r == p
    ensures Extends(t, r, asgn[..i + 1], offset, node, defaultValue)
  {
    forall S ensures Eval(t, r, S) == if Matches(asgn[..i + 1], offset, S) then Eval(t, node, S) else defaultValue {
      MatchesMore(asgn, offset, i, S);
    }
  }

  /** While a diagram is built, with the working node p: nothing new is without references but
      p, or the sink as long as nothing has been built. */
  ghost predicate Constructing(T0: Tables, T: Tables, p: Id, sink: Id, node: Id) {
    && Grows(T0.nodes, T.nodes)
    && forall m :: Zero(T, m) ==>
         if p == node then Zero(T0, m) || m == sink else (Zero(T0, m) || m == p) && m != sink && m != node
  }

  lemma ConstructingStep(T0: Tables, T: Tables, T': Tables, p: Id, sink: Id, node: Id, r: Id)
    requires Constructing(T0, T, p, sink, node) && Grows(T.nodes, T'.nodes) && OnlyNewZero(T, T', r)
    requires !Zero(T', sink) && !Zero(T', p) && r != node && r != sink
    ensures Constructing(T0, T', r, sink, node)
  {
  }

  /** The working node after i variables. */
  ghost predicate Working(t: Dag, p: Id, sink: Id, asgn: SymbolicVarAsgn, offset: nat, i: nat, node: Id, defaultValue: Data)
    requires Ordered(t)
  {
    && i <= |asgn| && sink in t && t[sink] == Leaf(defaultValue) && p != sink
    && Extends(t, p, asgn[..i], offset, node, defaultValue)
    && Level(t, node) <= offset && (p == node || Level(t, p) > offset)
  }

  lemma WorkingStep(t: Dag, t': Dag, p: Id, sink: Id, r: Id, asgn: SymbolicVarAsgn, offset: nat, i: nat, node: Id,
          defaultValue: Data)
    requires Ordered(t) && Ordered(t') && Grows(t, t') && i < |asgn| && Working(t, p, sink, asgn, offset, i, node, defaultValue)
    requires asgn[i] == ONE ==> r in t' && t'[r] == Internal(sink, p, i + offset)
    requires asgn[i] == ZERO ==> r in t' && t'[r] == Internal(p, sink, i + offset)
    requires asgn[i] == DONT_CARE ==> r == p
    ensures Working(t', r, sink, asgn, offset, i + 1, node, defaultValue)
    ensures asgn[i] != DONT_CARE ==> r != node && r != sink
  {
    ExtendsStays(t, t', p, asgn[..i], offset, node, defaultValue);
    ExtendStep(t', p, sink, r, asgn, offset, i, node, defaultValue);
  }

  /** One variable of the assignment; others are not tested. */
  method TestVariable(s: Store, asgn: SymbolicVarAsgn, offset: nat, i: nat, p: Id, sink: Id, ghost node: Id,
          ghost defaultValue: Data, ghost T0: Tables) returns (r: Id)
    requires s.Valid() && i < |asgn| && Working(s.tables.nodes, p, sink, asgn, offset, i, node, defaultValue)
    requires Constructing(T0, s.tables, p, sink, node)
    modifies s`tables
    ensures s.Valid() && Working(s.tables.nodes, r, sink, asgn, offset, i + 1, node, defaultValue)
    ensures Constructing(T0, s.tables, r, sink, node)
  {
    ghost var T := s.tables;
    if asgn[i] == ONE {
      r := s.SpawnInternal(sink, p, i + offset);
    } else if asgn[i] == ZERO {
      r := s.SpawnInternal(p, sink, i + offset);
    } else {
      r := p;
    }
    WorkingStep(T.nodes, s.tables.nodes, p, sink, r, asgn, offset, i, node, defaultValue);
    if asgn[i] != DONT_CARE {
      ConstructingStep(T0, T, s.tables, p, sink, node, r);
    }
  }

  /** A handle on root has been taken; besides, nodes have only come or gone without
      touching those that are referenced. */
  ghost predicate Taken(T: Tables, handles: multiset<Id>, T': Tables, handles': multiset<Id>, root: Id) {
    Agrees(T.nodes, T'.nodes) && NoNewZero(T, T') && handles' == handles + multiset{root}
  }

  /** Nothing is gone but possibly the leaf with the default, if it was without references. */
  ghost predicate OnlyDefaultGone(T: Tables, T': Tables, defaultValue: Data) {
    forall m :: m in T.nodes && m !in T'.nodes ==> Zero(T, m) && T.nodes[m] == Leaf(defaultValue)
  }

  /** The node with the values of node where the assignment, moved up by offset, matches, and
      the default elsewhere. */
  method ConstructMTBDD(s: Store, asgn: SymbolicVarAsgn, node: Id, defaultValue: Data, offset: nat) returns (root: Id)
    requires s.Valid() && node in s.tables.nodes && Level(s.tables.nodes, node) <= offset
    modifies s
    ensures s.Valid() && Taken(old(s.tables), old(s.handles), s.tables, s.handles, root) && !Zero(s.tables, node)
    ensures Extends(s.tables.nodes, root, asgn, offset, node, defaultValue) && OnlyDefaultGone(old(s.tables), s.tables, defaultValue)
  {
    if s.tables.nodes[node] == Leaf(defaultValue) {
      s.IncrementRefCnt(node);
      return node;
    }
    ghost var T0 := s.tables;
    var sink := s.SpawnLeaf(defaultValue);
    var p := node;
    var i := 0;
    assert asgn[..0] == [];
    while i < |asgn|
      invariant 0 <= i <= |asgn| && s.Valid() && s.handles == old(s.handles)
      invariant Working(s.tables.nodes, p, sink, asgn, offset, i, node, defaultValue)
      invariant Constructing(T0, s.tables, p, sink, node)
    {
      p := TestVariable(s, asgn, offset, i, p, sink, node, defaultValue, T0);
      i := i + 1;
    }
    assert asgn[..i] == asgn;
    root := FinishConstruction(s, asgn, offset, p, sink, node, defaultValue, T0);
  }

  /** Drops the sink if nothing leads to it, and takes a handle on the result. */
  method FinishConstruction(s: Store, asgn: SymbolicVarAsgn, offset: nat, p: Id, sink: Id, node: Id,
          ghost defaultValue: Data, ghost T0: Tables) returns (root: Id)
    requires s.Valid() && Working(s.tables.nodes, p, sink, asgn, offset, |asgn|, node, defaultValue)
    requires Constructing(T0, s.tables, p, sink, node) && Ok(T0, s.handles)
    modifies s
    ensures s.Valid() && Taken(T0, old(s.handles), s.tables, s.handles, root) && !Zero(s.tables, node)
    ensures Extends(s.tables.nodes, root, asgn, offset, node, defaultValue) && OnlyDefaultGone(T0, s.tables, defaultValue)
  {
    ghost var t := s.tables.nodes;
    assert asgn[..|asgn|] == asgn;
    if p == node && s.tables.refs[sink] == 0 {
      DropSink(s, sink, T0, defaultValue);
    }
    ExtendsStays(t, s.tables.nodes, p, asgn, offset, node, defaultValue);
    s.IncrementRefCnt(p);
    root := p;
  }

  method DropSink(s: Store, sink: Id, ghost T0: Tables, ghost defaultValue: Data)
    requires s.Valid() && Ok(T0, s.handles) && Grows(T0.nodes, s.tables.nodes)
    requires Zero(s.tables, sink) && s.tables.nodes[sink] == Leaf(defaultValue)
    modifies s`tables
    ensures s.Valid() && s.tables.nodes == old(s.tables).nodes - {sink} && NoNewZero(old(s.tables), s.tables)
    ensures OnlyDefaultGone(T0, s.tables, defaultValue)
  {
    if sink in T0.nodes { OldZero(T0, s.handles, s.tables, s.handles, sink); }
    s.DisposeOfLeafNode(sink);
  }

  // ---------------------------------------------------------------- public operations

  /** m is a live diagram: it holds a handle. */
  ghost predicate Live(s: Store, m: Mtbdd)
    reads s
  {
    m.root in s.handles
  }

  lemma LiveInside(T: Tables, handles: multiset<Id>, n: Id)
    requires Ok(T, handles) && n in handles
    ensures n in T.nodes
  {
  }

  lemma LiveNotZero(T: Tables, handles: multiset<Id>, n: Id)
    requires Ok(T, handles) && n in handles
    ensures !Zero(T, n)
  {
    assert CountIs(T.nodes, T.refs, handles, n);
  }

  /** Live diagrams have the values that they had. */
  ghost predicate ValuesKept(t: Dag, t': Dag, handles: multiset<Id>)
    requires Ordered(t) && Ordered(t')
  {
    forall n, S :: n in handles ==> n in t && n in t' && Eval(t', n, S) == Eval(t, n, S)
  }

  lemma LiveStays(T: Tables, T': Tables, handles: multiset<Id>)
    requires Ordered(T.nodes) && Ok(T', handles) && Grows(T'.nodes, T.nodes)
    ensures ValuesKept(T.nodes, T'.nodes, handles)
  {
    forall n, S | n in handles ensures n in T.nodes && n in T'.nodes && Eval(T'.nodes, n, S) == Eval(T.nodes, n, S) {
      LiveInside(T', handles, n);
      EvalStays(T.nodes, T'.nodes, n, S);
    }
  }

  /** Also when another handle is taken. */
  lemma OthersStay(T: Tables, handles: multiset<Id>, T': Tables, handles': multiset<Id>, root: Id)
    requires Ok(T, handles) && Ok(T', handles') && Taken(T, handles, T', handles', root)
    ensures ValuesKept(T.nodes, T'.nodes, handles)
  {
    forall n, S | n in handles ensures n in T.nodes && n in T'.nodes && Eval(T'.nodes, n, S) == Eval(T.nodes, n, S) {
      assert n in handles';
      EvalStays(T.nodes, T'.nodes, n, S);
    }
  }

  /** Diagrams are equal, root by root, exactly when they have the same values. */
  lemma EqualIffSameValues(T: Tables, handles: multiset<Id>, a: Mtbdd, b: Mtbdd)
    requires Ok(T, handles) && a.root in T.nodes && b.root in T.nodes
    ensures a.root == b.root <==> SameValues(T.nodes, a.root, b.root)
  {
    TablesUnique(T);
    if SameValues(T.nodes, a.root, b.root) {
      Canonical(T.nodes, a.root, b.root);
    }
  }

  method NewMtbdd(s: Store, asgn: SymbolicVarAsgn, value: Data, defaultValue: Data) returns (m: Mtbdd)
    requires s.Valid()
    modifies s
    ensures s.Valid() && Taken(old(s.tables), old(s.handles), s.tables, s.handles, m.root) && m.defaultValue == defaultValue
    ensures m.root in s.tables.nodes
    ensures forall S :: Eval(s.tables.nodes, m.root, S) == if Matches(asgn, 0, S) then value else defaultValue
    ensures OnlyDefaultGone(old(s.tables), s.tables, defaultValue)
  {
    var node := s.SpawnLeaf(value);
    ghost var T := s.tables;
    var root := ConstructMTBDD(s, asgn, node, defaultValue, 0);
    assert Extends(s.tables.nodes, root, asgn, 0, node, defaultValue);
    assert s.tables.nodes[node] == Leaf(value);
    m := Mtbdd(root, defaultValue);
  }

  /** The diagram with one value throughout. */
  method NewConstant(s: Store, value: Data) returns (m: Mtbdd)
    requires s.Valid()
    modifies s
    ensures s.Valid() && Taken(old(s.tables), old(s.handles), s.tables, s.handles, m.root) && m.defaultValue == value
    ensures m.root in s.tables.nodes && forall S :: Eval(s.tables.nodes, m.root, S) == value
    ensures Grows(old(s.tables).nodes, s.tables.nodes)
  {
    var root := s.SpawnLeaf(value);
    s.IncrementRefCnt(root);
    m := Mtbdd(root, value);
  }

  method Copy(s: Store, m: Mtbdd) returns (copy: Mtbdd)
    requires s.Valid() && Live(s, m)
    modifies s
    ensures s.Valid() && Taken(old(s.tables), old(s.handles), s.tables, s.handles, copy.root) && copy == m
    ensures s.tables.nodes == old(s.tables).nodes
  {
    LiveInside(s.tables, s.handles, m.root);
    s.IncrementRefCnt(m.root);
    copy := m;
  }

  method Delete(s: Store, m: Mtbdd)
    requires s.Valid() && Live(s, m)
    modifies s
    ensures s.Valid() && s.handles == old(s.handles) - multiset{m.root}
    ensures Grows(s.tables.nodes, old(s.tables).nodes) && NoNewZero(old(s.tables), s.tables) && ZerosStay(old(s.tables), s.tables)
    ensures ValuesKept(old(s.tables).nodes, s.tables.nodes, s.handles)
  {
    s.RecursivelyDelete(m.root);
    LiveStays(old(s.tables), s.tables, s.handles);
  }

  /** The target gives up its root and takes the one of the source, which is another object. */
  method Assign(s: Store, target: Mtbdd, source: Mtbdd) returns (m: Mtbdd)
    requires s.Valid() && multiset{target.root, source.root} <= s.handles
    modifies s
    ensures s.Valid() && m == source && s.handles == old(s.handles) - multiset{target.root} + multiset{source.root}
    ensures Grows(s.tables.nodes, old(s.tables).nodes) && NoNewZero(old(s.tables), s.tables) && ZerosStay(old(s.tables), s.tables)
    ensures ValuesKept(old(s.tables).nodes, s.tables.nodes, s.handles)
  {
    s.RecursivelyDelete(target.root);
    assert source.root in s.handles;
    LiveInside(s.tables, s.handles, source.root);
    LiveNotZero(s.tables, s.handles, source.root);
    s.IncrementRefCnt(source.root);
    LiveStays(old(s.tables), s.tables, s.handles);
    m := source;
  }

  method Apply(s: Store, op: Op, a: Mtbdd, b: Mtbdd) returns (m: Mtbdd)
    requires s.Valid() && Live(s, a) && Live(s, b)
    modifies s
    ensures s.Valid() && Taken(old(s.tables), old(s.handles), s.tables, s.handles, m.root)
    ensures Applied(s.tables.nodes, op, a.root, b.root, m.root) && m.defaultValue == op(a.defaultValue, b.defaultValue)
    ensures ValuesKept(old(s.tables).nodes, s.tables.nodes, old(s.handles)) && Grows(old(s.tables).nodes, s.tables.nodes)
  {
    LiveInside(s.tables, s.handles, a.root);
    LiveInside(s.tables, s.handles, b.root);
    var functor := new Apply2Functor(s, op);
    ghost var T := s.tables;
    var root := functor.RecDescend(a.root, b.root);
    s.IncrementRefCnt(root);
    OthersStay(old(s.tables), old(s.handles), s.tables, s.handles, root);
    m := Mtbdd(root, op(a.defaultValue, b.defaultValue));
  }

  /** The value at an assignment; a variable without a value counts as zero. */
  method GetValue(s: Store, m: Mtbdd, asgn: SymbolicVarAsgn) returns (d: Data)
    requires s.Valid() && m.root in s.tables.nodes && Level(s.tables.nodes, m.root) <= |asgn|
    ensures d == Eval(s.tables.nodes, m.root, Ones(asgn, 0))
  {
    var t := s.tables.nodes;
    var node := m.root;
    while t[node].Internal?
      invariant node in t && Level(t, node) <= |asgn|
      invariant Eval(t, node, Ones(asgn, 0)) == Eval(t, m.root, Ones(asgn, 0))
      decreases Level(t, node)
    {
      assert Placed(t, t[node]);
      var v := t[node].variable;
      InOnes(asgn, 0, v);
      node := if asgn[v] == ONE then t[node].high else t[node].low;
    }
    d := t[node].data;
  }

  /** With values for all its variables, the assignment determines the value. */
  lemma TotalAssignment(t: Dag, n: Id, asgn: SymbolicVarAsgn, S: set<Var>)
    requires Ordered(t) && n in t && Level(t, n) <= |asgn| && DONT_CARE !in asgn && Matches(asgn, 0, S)
    ensures Eval(t, n, S) == Eval(t, n, Ones(asgn, 0))
  {
    forall v: Var | v < Level(t, n) ensures v in S <==> v in Ones(asgn, 0) {
      assert asgn[v] in asgn;
      InOnes(asgn, 0, v);
    }
    EvalAgree(t, n, S, Ones(asgn, 0));
  }

  /** Moves the variables of a prefix above those of the diagram. */
  method ExtendWith(s: Store, m: Mtbdd, asgn: SymbolicVarAsgn, offset: nat) returns (r: Mtbdd)
    requires s.Valid() && Live(s, m) && m.root in s.tables.nodes && Level(s.tables.nodes, m.root) <= offset
    modifies s
    ensures s.Valid() && Taken(old(s.tables), old(s.handles), s.tables, s.handles, r.root) && r.defaultValue == m.defaultValue
    ensures Extends(s.tables.nodes, r.root, asgn, offset, m.root, m.defaultValue) && OnlyDefaultGone(old(s.tables), s.tables, m.defaultValue)
  {
    var root := ConstructMTBDD(s, asgn, m.root, m.defaultValue, offset);
    r := Mtbdd(root, m.defaultValue);
  }

  /** r has the values that n has when the variables from offset on are set by asgn. */
  ghost predicate IsUnder(t: Dag, r: Id, n: Id, asgn: SymbolicVarAsgn, offset: nat)
    requires Ordered(t)
  {
    && r in t && n in t && Level(t, r) <= offset
    && forall S :: Eval(t, r, S) == Eval(t, n, Prefixed(S, asgn, offset))
  }

  /** S below the offset, and the assignment from there on. */
  ghost function Prefixed(S: set<Var>, asgn: SymbolicVarAsgn, offset: nat): set<Var> {
    (set v | v in S && v < offset) + Ones(asgn, offset)
  }

  lemma PrefixedBelow(S: set<Var>, asgn: SymbolicVarAsgn, offset: nat)
    ensures Agree(S, Prefixed(S, asgn, offset), offset)
  {
    forall v: Var | v < offset ensures v in S <==> v in Prefixed(S, asgn, offset) {
      InOnes(asgn, offset, v);
    }
  }

  /** The diagram below a prefix; where the prefix has no value, the low branch is taken. */
  method GetMtbddForPrefix(s: Store, m: Mtbdd, asgn: SymbolicVarAsgn, offset: nat) returns (r: Mtbdd)
    requires s.Valid() && m.root in s.tables.nodes && Level(s.tables.nodes, m.root) <= offset + |asgn|
    modifies s
    ensures s.Valid() && Taken(old(s.tables), old(s.handles), s.tables, s.handles, r.root) && r.defaultValue == m.defaultValue
    ensures s.tables.nodes == old(s.tables).nodes && IsUnder(s.tables.nodes, r.root, m.root, asgn, offset)
  {
    var t := s.tables.nodes;
    var newRoot := m.root;
    while t[newRoot].Internal? && t[newRoot].variable >= offset
      invariant newRoot in t && Level(t, newRoot) <= offset + |asgn|
      invariant forall S :: Eval(t, newRoot, Prefixed(S, asgn, offset)) == Eval(t, m.root, Prefixed(S, asgn, offset))
      modifies {}
      decreases Level(t, newRoot)
    {
      assert Placed(t, t[newRoot]);
      var v := t[newRoot].variable;
      InOnes(asgn, offset, v);
      assert forall S :: v in Prefixed(S, asgn, offset) <==> asgn[v - offset] == ONE;
      newRoot := if asgn[v - offset] == ONE then t[newRoot].high else t[newRoot].low;
    }
    forall S ensures Eval(t, newRoot, S) == Eval(t, m.root, Prefixed(S, asgn, offset)) {
      PrefixedBelow(S, asgn, offset);
      EvalAgree(t, newRoot, S, Prefixed(S, asgn, offset));
    }
    s.IncrementRefCnt(newRoot);
    r := Mtbdd(newRoot, m.defaultValue);
  }

  /** Two assignments choose the same values for the same variables. */
  ghost predicate Compatible(asgn: SymbolicVarAsgn, other: SymbolicVarAsgn) {
    |asgn| == |other| && forall i :: 0 <= i < |asgn| ==> (asgn[i] == ONE ==> other[i] == ONE) && (asgn[i] == ZERO ==> other[i] != ONE)
  }

  lemma PrefixedMatches(asgn: SymbolicVarAsgn, other: SymbolicVarAsgn, offset: nat, S: set<Var>)
    requires |asgn| == |other|
    ensures Matches(asgn, offset, Prefixed(S, other, offset)) <==> Compatible(asgn, other)
  {
    var P := Prefixed(S, other, offset);
    forall i | 0 <= i < |asgn| ensures i + offset in P <==> other[i] == ONE {
      InOnes(other, offset, i + offset);
    }
  }

  /** Below the prefix with which it was extended, a diagram is found again: the very same node. */
  lemma PrefixUndoesExtension(T: Tables, handles: multiset<Id>, n: Id, e: Id, r: Id, asgn: SymbolicVarAsgn,
          other: SymbolicVarAsgn, offset: nat, defaultValue: Data)
    requires Ok(T, handles) && Extends(T.nodes, e, asgn, offset, n, defaultValue) && Level(T.nodes, n) <= offset
    requires IsUnder(T.nodes, r, e, other, offset) && Compatible(asgn, other)
    ensures r == n
  {
    var t := T.nodes;
    forall S ensures Eval(t, r, S) == Eval(t, n, S) {
      PrefixedMatches(asgn, other, offset, S);
      PrefixedBelow(S, other, offset);
      EvalAgree(t, n, S, Prefixed(S, other, offset));
    }
    TablesUnique(T);
    Canonical(t, r, n);
  }

  /** Below another prefix, only the default is left. */
  lemma OtherPrefixIsDefault(t: Dag, n: Id, e: Id, r: Id, asgn: SymbolicVarAsgn, other: SymbolicVarAsgn, offset: nat,
          defaultValue: Data)
    requires Ordered(t) && Extends(t, e, asgn, offset, n, defaultValue)
    requires IsUnder(t, r, e, other, offset) && |asgn| == |other| && !Compatible(asgn, other)
    ensures forall S :: Eval(t, r, S) == defaultValue
  {
    forall S ensures Eval(t, r, S) == defaultValue {
      PrefixedMatches(asgn, other, offset, S);
    }
  }
}
