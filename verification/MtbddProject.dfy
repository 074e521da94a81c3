/** Renaming of the variables of a decision diagram, projection, and the list of its paths. */
module MtbddProject {
  import opened Collections
  import opened Mtbdd
  import opened MtbddApply
  import opened MtbddNodes
  import opened MtbddStore

  type Values = set<Var> -> Data

  ghost function ValuesOf(t: Dag, n: Id): Values
    requires Ordered(t) && n in t
  {
    (S: set<Var>) => Eval(t, n, S)
  }

  // ---------------------------------------------------------------- renaming

  /** The variables that are tested on the way down from n. */
  ghost function Tested(t: Dag, n: Id): set<Var>
    requires Ordered(t) && n in t
    decreases Level(t, n)
  {
    if t[n].Leaf? then {}
    else assert Placed(t, t[n]); {t[n].variable} + Tested(t, t[n].low) + Tested(t, t[n].high)
  }

  lemma {:induction false} TestedBelow(t: Dag, n: Id)
    requires Ordered(t) && n in t
    ensures forall v :: v in Tested(t, n) ==> v < Level(t, n)
    decreases Level(t, n)
  {
    if t[n].Internal? {
      assert Placed(t, t[n]);
      TestedBelow(t, t[n].low);
      TestedBelow(t, t[n].high);
    }
  }

  lemma {:induction false} TestedStays(t: Dag, t': Dag, n: Id)
    requires Ordered(t) && Ordered(t') && Grows(t, t') && n in t
    ensures Tested(t', n) == Tested(t, n)
    decreases Level(t, n)
  {
    if t[n].Internal? {
      assert Placed(t, t[n]);
      TestedStays(t, t', t[n].low);
      TestedStays(t, t', t[n].high);
    }
  }

  ghost predicate AgreeOn(S: set<Var>, T: set<Var>, V: set<Var>) {
    forall v :: v in V ==> (v in S <==> v in T)
  }

  /** Variables that are not tested do not matter. */
  lemma {:induction false} EvalTested(t: Dag, n: Id, S: set<Var>, T: set<Var>)
    requires Ordered(t) && n in t && AgreeOn(S, T, Tested(t, n))
    ensures Eval(t, n, S) == Eval(t, n, T)
    decreases Level(t, n)
  {
    if t[n].Internal? {
      assert Placed(t, t[n]);
      assert t[n].variable in Tested(t, n);
      EvalTested(t, t[n].low, S, T);
      EvalTested(t, t[n].high, S, T);
    }
  }

  /** The renaming keeps the order of the variables in V. */
  ghost predicate Increasing(renamer: Var -> Var, V: set<Var>) {
    forall v, w :: v in V && w in V && v < w ==> renamer(v) < renamer(w)
  }

  /** The variables below the bound whose new names are in S. */
  ghost function Before(renamer: Var -> Var, bound: nat, S: set<Var>): set<Var> {
    set v: Var | v < bound && renamer(v) in S
  }

  /** r has the values of n under the old names. */
  ghost predicate IsRenamed(t: Dag, renamer: Var -> Var, n: Id, r: Id)
    requires Ordered(t)
  {
    && n in t && r in t
    && (if t[n].Leaf? then Level(t, r) == 0 else Level(t, r) == renamer(t[n].variable) + 1)
    && forall S :: Eval(t, r, S) == Eval(t, n, Before(renamer, Level(t, n), S))
  }

  lemma RenamedStays(t: Dag, t': Dag, renamer: Var -> Var, n: Id, r: Id)
    requires Ordered(t) && Ordered(t') && Grows(t, t') && IsRenamed(t, renamer, n, r)
    ensures IsRenamed(t', renamer, n, r)
  {
    forall S ensures Eval(t', r, S) == Eval(t', n, Before(renamer, Level(t', n), S)) {
      EvalStays(t, t', r, S);
      EvalStays(t, t', n, Before(renamer, Level(t, n), S));
    }
  }

  /** On the variables in V, every assignment is what some assignment looks like under the old names. */
  lemma RenamedOnto(renamer: Var -> Var, V: set<Var>, T: set<Var>) returns (S: set<Var>)
    requires Increasing(renamer, V)
    ensures forall v :: v in V ==> (renamer(v) in S <==> v in T)
  {
    S := set v | v in V && v in T :: renamer(v);
    forall v | v in V ensures renamer(v) in S <==> v in T {
      if renamer(v) in S {
        var w: Var :| w in V && w in T && renamer(w) == renamer(v);
        NewNameOnce(renamer, V, v, w);
      }
    }
  }

  lemma NewNameOnce(renamer: Var -> Var, V: set<Var>, v: Var, w: Var)
    requires Increasing(renamer, V) && v in V && w in V
    ensures renamer(v) == renamer(w) <==> v == w
  {
  }

  lemma BeforeAgrees(renamer: Var -> Var, bound: nat, bound': nat, S: set<Var>)
    requires bound <= bound'
    ensures Agree(Before(renamer, bound, S), Before(renamer, bound', S), bound)
  {
  }

  lemma BeforeOn(t: Dag, n: Id, renamer: Var -> Var, V: set<Var>, S: set<Var>, S': set<Var>)
    requires Ordered(t) && n in t && Tested(t, n) <= V && forall v :: v in V ==> (renamer(v) in S' <==> v in S)
    ensures Eval(t, n, S) == Eval(t, n, Before(renamer, Level(t, n), S'))
  {
    TestedBelow(t, n);
    EvalTested(t, n, S, Before(renamer, Level(t, n), S'));
  }

  /** Different nodes stay different. */
  lemma RenamedDiffer(T: Tables, handles: multiset<Id>, renamer: Var -> Var, V: set<Var>, a: Id, b: Id, a': Id, b': Id)
    requires Ok(T, handles) && Increasing(renamer, V) && a != b
    requires IsRenamed(T.nodes, renamer, a, a') && IsRenamed(T.nodes, renamer, b, b')
    requires Tested(T.nodes, a) <= V && Tested(T.nodes, b) <= V
    ensures a' != b'
  {
    var t := T.nodes;
    if a' == b' {
      forall S ensures Eval(t, a, S) == Eval(t, b, S) {
        var S' := RenamedOnto(renamer, V, S);
        BeforeOn(t, a, renamer, V, S, S');
        BeforeOn(t, b, renamer, V, S, S');
        assert Eval(t, a', S') == Eval(t, b', S');
      }
      TablesUnique(T);
      Canonical(t, a, b);
    }
  }

  lemma RenameStep(t: Dag, renamer: Var -> Var, n: Id, low: Id, high: Id, r: Id)
    requires Ordered(t) && n in t && t[n].Internal?
    requires IsRenamed(t, renamer, t[n].low, low) && IsRenamed(t, renamer, t[n].high, high)
    requires r in t && t[r] == Internal(low, high, renamer(t[n].variable))
    ensures IsRenamed(t, renamer, n, r)
  {
    assert Placed(t, t[n]) && Placed(t, t[r]);
    var v := t[n].variable;
    forall S ensures Eval(t, r, S) == Eval(t, n, Before(renamer, Level(t, n), S)) {
      var B := Before(renamer, Level(t, n), S);
      assert v in B <==> renamer(v) in S;
      BeforeAgrees(renamer, Level(t, t[n].low), Level(t, n), S);
      BeforeAgrees(renamer, Level(t, t[n].high), Level(t, n), S);
      EvalAgree(t, t[n].low, Before(renamer, Level(t, t[n].low), S), B);
      EvalAgree(t, t[n].high, Before(renamer, Level(t, t[n].high), S), B);
    }
  }

  lemma RenamedLevel(t: Dag, renamer: Var -> Var, V: set<Var>, n: Id, r: Id, v: Var)
    requires Ordered(t) && Increasing(renamer, V) && IsRenamed(t, renamer, n, r) && Level(t, n) <= v
    requires Tested(t, n) <= V && v in V
    ensures Level(t, r) <= renamer(v)
  {
    if t[n].Internal? {
      assert t[n].variable in Tested(t, n);
      assert renamer(t[n].variable) < renamer(v);
    }
  }

  method RenameNode(s: Store, n: Id, renamer: Var -> Var, ghost V: set<Var>) returns (r: Id)
    requires s.Valid() && n in s.tables.nodes && Increasing(renamer, V) && Tested(s.tables.nodes, n) <= V
    modifies s`tables
    ensures s.Valid() && Grows(old(s.tables).nodes, s.tables.nodes) && OnlyNewZero(old(s.tables), s.tables, r)
    ensures IsRenamed(s.tables.nodes, renamer, n, r)
    decreases Level(s.tables.nodes, n), 2
  {
    var node := s.tables.nodes[n];
    if node.Leaf? {
      r := s.SpawnLeaf(node.data);
    } else {
      r := RenameInternal(s, n, node, renamer, V);
    }
  }

  method RenameInternal(s: Store, n: Id, node: Node, renamer: Var -> Var, ghost V: set<Var>) returns (r: Id)
    requires s.Valid() && n in s.tables.nodes && s.tables.nodes[n] == node && node.Internal?
    requires Increasing(renamer, V) && Tested(s.tables.nodes, n) <= V
    modifies s`tables
    ensures s.Valid() && Grows(old(s.tables).nodes, s.tables.nodes) && OnlyNewZero(old(s.tables), s.tables, r)
    ensures IsRenamed(s.tables.nodes, renamer, n, r)
    decreases Level(s.tables.nodes, n), 1
  {
    ghost var t := s.tables.nodes;
    TestedParts(t, n, V);
    var low, high := RenameBoth(s, node.low, node.high, renamer, V);
    TestedStays(t, s.tables.nodes, n);
    r := RenameTop(s, n, node, renamer, V, low, high);
  }

  /** Besides low and high, only nodes that were so before are without references. */
  method RenameBoth(s: Store, a: Id, b: Id, renamer: Var -> Var, ghost V: set<Var>) returns (low: Id, high: Id)
    requires s.Valid() && a in s.tables.nodes && b in s.tables.nodes && Increasing(renamer, V)
    requires Tested(s.tables.nodes, a) <= V && Tested(s.tables.nodes, b) <= V
    modifies s`tables
    ensures s.Valid() && Grows(old(s.tables).nodes, s.tables.nodes) && TwoNewZeros(old(s.tables), s.tables, low, high)
    ensures IsRenamed(s.tables.nodes, renamer, a, low) && IsRenamed(s.tables.nodes, renamer, b, high)
    decreases Max(Level(s.tables.nodes, a), Level(s.tables.nodes, b)) + 1, 0
  {
    ghost var t0 := s.tables.nodes;
    low := RenameNode(s, a, renamer, V);
    ghost var t := s.tables.nodes;
    TestedStays(t0, t, b);
    high := RenameNode(s, b, renamer, V);
    RenamedStays(t, s.tables.nodes, renamer, a, low);
  }

  lemma TestedParts(t: Dag, n: Id, V: set<Var>)
    requires Ordered(t) && n in t && t[n].Internal? && Tested(t, n) <= V
    ensures Placed(t, t[n]) && t[n].variable in V && Tested(t, t[n].low) <= V && Tested(t, t[n].high) <= V
  {
    assert Placed(t, t[n]);
    assert t[n].variable in Tested(t, n) && Tested(t, t[n].low) <= Tested(t, n) && Tested(t, t[n].high) <= Tested(t, n);
  }

  method RenameTop(s: Store, n: Id, node: Node, renamer: Var -> Var, ghost V: set<Var>, low: Id, high: Id) returns (r: Id)
    requires s.Valid() && n in s.tables.nodes && s.tables.nodes[n] == node && node.Internal?
    requires Increasing(renamer, V) && Tested(s.tables.nodes, n) <= V
    requires IsRenamed(s.tables.nodes, renamer, node.low, low) && IsRenamed(s.tables.nodes, renamer, node.high, high)
    modifies s`tables
    ensures s.Valid() && Grows(old(s.tables).nodes, s.tables.nodes) && OnlyNewZero(old(s.tables), s.tables, r)
    ensures !Zero(s.tables, low) && !Zero(s.tables, high) && IsRenamed(s.tables.nodes, renamer, n, r)
  {
    ghost var t := s.tables.nodes;
    TestedParts(t, n, V);
    RenamedDiffer(s.tables, s.handles, renamer, V, node.low, node.high, low, high);
    RenamedLevel(t, renamer, V, node.low, low, node.variable);
    RenamedLevel(t, renamer, V, node.high, high, node.variable);
    r := s.SpawnInternal(low, high, renamer(node.variable));
    RenamedStays(t, s.tables.nodes, renamer, node.low, low);
    RenamedStays(t, s.tables.nodes, renamer, node.high, high);
    RenameStep(s.tables.nodes, renamer, n, low, high, r);
  }

  /** Renames the variables of a diagram. The order of those that it tests must be kept. */
  method Rename(s: Store, m: Mtbdd, renamer: Var -> Var) returns (r: Mtbdd)
    requires s.Valid() && m.root in s.tables.nodes && Increasing(renamer, Tested(s.tables.nodes, m.root))
    modifies s
    ensures s.Valid() && Taken(old(s.tables), old(s.handles), s.tables, s.handles, r.root) && r.defaultValue == m.defaultValue
    ensures IsRenamed(s.tables.nodes, renamer, m.root, r.root) && Grows(old(s.tables).nodes, s.tables.nodes)
  {
    var root := RenameNode(s, m.root, renamer, Tested(s.tables.nodes, m.root));
    s.IncrementRefCnt(root);
    r := Mtbdd(root, m.defaultValue);
  }

  // ---------------------------------------------------------------- projection

  /** Combines the values for both choices of every variable below k that is to be removed. */
  ghost function Fold(f: Values, k: nat, pred: Var -> bool, op: Op, S: set<Var>): Data {
    if k == 0 then f(S)
    else if pred(k - 1) then op(Fold(f, k - 1, pred, op, S - {k - 1}), Fold(f, k - 1, pred, op, S + {k - 1}))
    else Fold(f, k - 1, pred, op, S)
  }

  ghost predicate Idempotent(op: Op) {
    forall x :: op(x, x) == x
  }

  /** Only the variables below the bound matter. */
  ghost predicate DependsBelow(f: Values, bound: nat) {
    forall S, T :: Agree(S, T, bound) ==> f(S) == f(T)
  }

  lemma NodeDepends(t: Dag, n: Id)
    requires Ordered(t) && n in t
    ensures DependsBelow(ValuesOf(t, n), Level(t, n))
  {
    forall S, T | Agree(S, T, Level(t, n)) ensures ValuesOf(t, n)(S) == ValuesOf(t, n)(T) {
      EvalAgree(t, n, S, T);
    }
  }

  lemma {:induction false} FoldAgree(f: Values, bound: nat, k: nat, pred: Var -> bool, op: Op, S: set<Var>, T: set<Var>)
    requires DependsBelow(f, bound) && Agree(S, T, bound)
    ensures Fold(f, k, pred, op, S) == Fold(f, k, pred, op, T)
    decreases k
  {
    if k > 0 {
      FoldAgree(f, bound, k - 1, pred, op, S - {k - 1}, T - {k - 1});
      FoldAgree(f, bound, k - 1, pred, op, S + {k - 1}, T + {k - 1});
      FoldAgree(f, bound, k - 1, pred, op, S, T);
    }
  }

  ghost predicate SameFrom(S: set<Var>, T: set<Var>, k: nat) {
    forall v: Var :: v >= k ==> (v in S <==> v in T)
  }

  /** The fold only looks at assignments that agree from k on. */
  lemma {:induction false} FoldSame(f: Values, g: Values, k: nat, pred: Var -> bool, op: Op, S: set<Var>)
    requires forall T :: SameFrom(S, T, k) ==> f(T) == g(T)
    ensures Fold(f, k, pred, op, S) == Fold(g, k, pred, op, S)
    decreases k
  {
    if k > 0 {
      forall T | SameFrom(S - {k - 1}, T, k - 1) || SameFrom(S + {k - 1}, T, k - 1) || SameFrom(S, T, k - 1) ensures f(T) == g(T) {
        assert SameFrom(S, T, k);
      }
      FoldSame(f, g, k - 1, pred, op, S - {k - 1});
      FoldSame(f, g, k - 1, pred, op, S + {k - 1});
      FoldSame(f, g, k - 1, pred, op, S);
    }
  }

  /** Variables that do not matter are folded away: their two values are the same. */
  lemma {:induction false} FoldAbove(f: Values, bound: nat, k: nat, pred: Var -> bool, op: Op, S: set<Var>)
    requires DependsBelow(f, bound) && bound <= k && Idempotent(op)
    ensures Fold(f, k, pred, op, S) == Fold(f, bound, pred, op, S)
    decreases k
  {
    if k > bound {
      FoldAgree(f, bound, k - 1, pred, op, S - {k - 1}, S);
      FoldAgree(f, bound, k - 1, pred, op, S + {k - 1}, S);
      FoldAbove(f, bound, k - 1, pred, op, S);
    }
  }

  /** The fold is the combination of all the values, in whatever order: what the operation
      collects from its arguments is collected from all the assignments that differ only in
      removed variables. */
  lemma {:induction false} FoldCollects(f: Values, k: nat, pred: Var -> bool, op: Op, S: set<Var>, has: Data -> bool)
    requires forall x, y :: has(op(x, y)) <==> has(x) || has(y)
    ensures has(Fold(f, k, pred, op, S)) <==> exists T :: Differs(S, T, k, pred) && has(f(T))
    decreases k
  {
    if k == 0 {
      forall T | Differs(S, T, 0, pred) ensures T == S { }
      assert Differs(S, S, 0, pred);
    } else {
      FoldCollects(f, k - 1, pred, op, S - {k - 1}, has);
      FoldCollects(f, k - 1, pred, op, S + {k - 1}, has);
      FoldCollects(f, k - 1, pred, op, S, has);
      forall T ensures Differs(S, T, k, pred) <==>
        if pred(k - 1) then Differs(S - {k - 1}, T, k - 1, pred) || Differs(S + {k - 1}, T, k - 1, pred) else Differs(S, T, k - 1, pred)
      {
        DiffersStep(S, T, k, pred);
      }
    }
  }

  /** The assignments differ at most in removed variables below k. */
  ghost predicate Differs(S: set<Var>, T: set<Var>, k: nat, pred: Var -> bool) {
    forall v: Var :: !(v < k && pred(v)) ==> (v in S <==> v in T)
  }

  lemma DiffersStep(S: set<Var>, T: set<Var>, k: nat, pred: Var -> bool)
    requires k > 0
    ensures Differs(S, T, k, pred) <==>
              if pred(k - 1) then Differs(S - {k - 1}, T, k - 1, pred) || Differs(S + {k - 1}, T, k - 1, pred) else Differs(S, T, k - 1, pred)
  {
    if pred(k - 1) && Differs(S, T, k, pred) {
      if k - 1 in T {
        assert Differs(S + {k - 1}, T, k - 1, pred);
      } else {
        assert Differs(S - {k - 1}, T, k - 1, pred);
      }
    }
  }

  /** r has the folded values of n. */
  ghost predicate Projected(t: Dag, pred: Var -> bool, op: Op, n: Id, r: Id)
    requires Ordered(t)
  {
    && n in t && r in t && Level(t, r) <= Level(t, n)
    && forall S :: Eval(t, r, S) == Fold(ValuesOf(t, n), Level(t, n), pred, op, S)
  }

  lemma ProjectedStays(t: Dag, t': Dag, pred: Var -> bool, op: Op, n: Id, r: Id)
    requires Ordered(t) && Ordered(t') && Grows(t, t') && Projected(t, pred, op, n, r)
    ensures Projected(t', pred, op, n, r)
  {
    forall S ensures Eval(t', r, S) == Fold(ValuesOf(t', n), Level(t', n), pred, op, S) {
      EvalStays(t, t', r, S);
      forall T ensures ValuesOf(t, n)(T) == ValuesOf(t', n)(T) {
        EvalStays(t, t', n, T);
      }
      FoldSame(ValuesOf(t, n), ValuesOf(t', n), Level(t, n), pred, op, S);
    }
  }

  /** Where the variable of the node is fixed, the node folds like its child. */
  lemma FoldChild(t: Dag, n: Id, child: Id, pred: Var -> bool, op: Op, S: set<Var>)
    requires Ordered(t) && n in t && t[n].Internal? && Idempotent(op)
    requires child == if t[n].variable in S then t[n].high else t[n].low
    ensures child in t && Level(t, child) <= t[n].variable
    ensures Fold(ValuesOf(t, n), t[n].variable, pred, op, S) == Fold(ValuesOf(t, child), Level(t, child), pred, op, S)
  {
    assert Placed(t, t[n]);
    var v := t[n].variable;
    forall T | SameFrom(S, T, v) ensures ValuesOf(t, n)(T) == ValuesOf(t, child)(T) { }
    FoldSame(ValuesOf(t, n), ValuesOf(t, child), v, pred, op, S);
    NodeDepends(t, child);
    FoldAbove(ValuesOf(t, child), Level(t, child), v, pred, op, S);
  }

  /** A node whose variable stays. */
  lemma ProjectKept(t: Dag, pred: Var -> bool, op: Op, n: Id, low: Id, high: Id, r: Id)
    requires Ordered(t) && n in t && t[n].Internal? && !pred(t[n].variable) && Idempotent(op)
    requires Projected(t, pred, op, t[n].low, low) && Projected(t, pred, op, t[n].high, high)
    requires Choice(t, r, low, high, t[n].variable)
    ensures Projected(t, pred, op, n, r)
  {
    assert Placed(t, t[n]);
    forall S ensures Eval(t, r, S) == Fold(ValuesOf(t, n), Level(t, n), pred, op, S) {
      ChoiceValue(t, r, low, high, t[n].variable, S);
      FoldChild(t, n, if t[n].variable in S then t[n].high else t[n].low, pred, op, S);
    }
  }

  /** A node whose variable is removed. */
  lemma ProjectRemoved(t: Dag, pred: Var -> bool, op: Op, n: Id, low: Id, high: Id, r: Id)
    requires Ordered(t) && n in t && t[n].Internal? && pred(t[n].variable) && Idempotent(op)
    requires Projected(t, pred, op, t[n].low, low) && Projected(t, pred, op, t[n].high, high)
    requires Applied(t, op, low, high, r)
    ensures Projected(t, pred, op, n, r)
  {
    assert Placed(t, t[n]);
    var v := t[n].variable;
    forall S ensures Eval(t, r, S) == Fold(ValuesOf(t, n), Level(t, n), pred, op, S) {
      FoldChild(t, n, t[n].low, pred, op, S - {v});
      FoldChild(t, n, t[n].high, pred, op, S + {v});
      NodeDepends(t, t[n].low);
      NodeDepends(t, t[n].high);
      FoldAgree(ValuesOf(t, t[n].low), Level(t, t[n].low), Level(t, t[n].low), pred, op, S, S - {v});
      FoldAgree(ValuesOf(t, t[n].high), Level(t, t[n].high), Level(t, t[n].high), pred, op, S, S + {v});
    }
  }

  // ---------------------------------------------------------------- what projection leaves behind

  /** No variable that is tested on the way down from n is to be removed. */
  ghost predicate Untouched(t: Dag, n: Id, pred: Var -> bool)
    requires Ordered(t) && n in t
  {
    forall v :: v in Tested(t, n) ==> !pred(v)
  }

  /** No path down from n tests two variables that are to be removed. */
  ghost predicate OncePerPath(t: Dag, n: Id, pred: Var -> bool)
    requires Ordered(t) && n in t
    decreases Level(t, n)
  {
    t[n].Internal? ==>
      && Placed(t, t[n])
      && (pred(t[n].variable) ==> Untouched(t, t[n].low, pred) && Untouched(t, t[n].high, pred))
      && OncePerPath(t, t[n].low, pred) && OncePerPath(t, t[n].high, pred)
  }

  lemma {:induction false} OncePerPathStays(t: Dag, t': Dag, n: Id, pred: Var -> bool)
    requires Ordered(t) && Ordered(t') && Grows(t, t') && n in t && OncePerPath(t, n, pred)
    ensures OncePerPath(t', n, pred)
    decreases Level(t, n)
  {
    if t[n].Internal? {
      assert Placed(t, t[n]) && Placed(t', t'[n]);
      OncePerPathStays(t, t', t[n].low, pred);
      OncePerPathStays(t, t', t[n].high, pred);
      TestedStays(t, t', t[n].low);
      TestedStays(t, t', t[n].high);
    }
  }

  /** Nothing happens to values that no removed variable changes. */
  lemma {:induction false} FoldNothing(t: Dag, n: Id, k: nat, pred: Var -> bool, op: Op, S: set<Var>)
    requires Ordered(t) && n in t && Untouched(t, n, pred) && Idempotent(op)
    ensures Fold(ValuesOf(t, n), k, pred, op, S) == Eval(t, n, S)
    decreases k
  {
    if k > 0 {
      FoldNothing(t, n, k - 1, pred, op, S);
      if pred(k - 1) {
        FoldNothing(t, n, k - 1, pred, op, S - {k - 1});
        FoldNothing(t, n, k - 1, pred, op, S + {k - 1});
        EvalTested(t, n, S, S - {k - 1});
        EvalTested(t, n, S, S + {k - 1});
      }
    }
  }

  /** A node without variables to remove is its own projection. */
  lemma UntouchedIsItself(T: Tables, handles: multiset<Id>, pred: Var -> bool, op: Op, n: Id, r: Id)
    requires Ok(T, handles) && Idempotent(op) && Projected(T.nodes, pred, op, n, r) && Untouched(T.nodes, n, pred)
    ensures r == n
  {
    forall S ensures Eval(T.nodes, r, S) == Eval(T.nodes, n, S) {
      FoldNothing(T.nodes, n, Level(T.nodes, n), pred, op, S);
    }
    TablesUnique(T);
    Canonical(T.nodes, r, n);
  }

  /** Whatever is new and without references after both children is in use after the node:
      below a removed variable the children are old nodes, which have a parent. */
  lemma OnlyResultZero(T: Tables, T1: Tables, T2: Tables, h: multiset<Id>, pred: Var -> bool, op: Op, n: Id, low: Id, high: Id, r: Id)
    requires Ok(T, h) && Ok(T1, h) && Ok(T2, h) && Grows(T.nodes, T1.nodes) && Grows(T1.nodes, T2.nodes) && Idempotent(op)
    requires n in T.nodes && T.nodes[n].Internal? && OncePerPath(T.nodes, n, pred)
    requires Projected(T1.nodes, pred, op, T.nodes[n].low, low) && Projected(T1.nodes, pred, op, T.nodes[n].high, high)
    requires TwoNewZeros(T, T1, low, high) && OnlyNewZero(T1, T2, r)
    requires !pred(T.nodes[n].variable) ==> r == low == high || (!Zero(T2, low) && !Zero(T2, high))
    ensures OnlyNewZero(T, T2, r)
  {
    if pred(T.nodes[n].variable) {
      assert Placed(T.nodes, T.nodes[n]);
      TestedStays(T.nodes, T1.nodes, T.nodes[n].low);
      TestedStays(T.nodes, T1.nodes, T.nodes[n].high);
      UntouchedIsItself(T1, h, pred, op, T.nodes[n].low, low);
      UntouchedIsItself(T1, h, pred, op, T.nodes[n].high, high);
      ChildrenCounted(T2, h, n);
    }
  }

  /** All variables tested below n are to be removed. */
  ghost predicate AllRemoved(t: Dag, n: Id, pred: Var -> bool)
    requires Ordered(t) && n in t
  {
    forall v :: v in Tested(t, n) ==> pred(v)
  }

  /** The operation applied to all values below n, leaf by leaf. */
  ghost function Total(t: Dag, n: Id, op: Op): Data
    requires Ordered(t) && n in t
    decreases Level(t, n)
  {
    if t[n].Leaf? then t[n].data
    else assert Placed(t, t[n]); op(Total(t, t[n].low, op), Total(t, t[n].high, op))
  }

  /** The totals of n and of all nodes below it. */
  ghost function Totals(t: Dag, n: Id, op: Op): set<Data>
    requires Ordered(t) && n in t
    decreases Level(t, n)
  {
    if t[n].Leaf? then {t[n].data}
    else assert Placed(t, t[n]); {Total(t, n, op)} + Totals(t, t[n].low, op) + Totals(t, t[n].high, op)
  }

  lemma {:induction false} TotalsStay(t: Dag, t': Dag, n: Id, op: Op)
    requires Ordered(t) && Ordered(t') && Grows(t, t') && n in t
    ensures Total(t', n, op) == Total(t, n, op) && Totals(t', n, op) == Totals(t, n, op)
    decreases Level(t, n)
  {
    if t[n].Internal? {
      assert Placed(t, t[n]);
      TotalsStay(t, t', t[n].low, op);
      TotalsStay(t, t', t[n].high, op);
    }
  }

  /** Internal nodes are old ones. */
  ghost predicate NoNewInternal(t: Dag, t': Dag) {
    forall m :: m in t' && t'[m].Internal? ==> m in t
  }

  /** From T to T' nothing came but leaves for the totals, and r is the one for n. */
  ghost predicate Totalled(T: Tables, T': Tables, op: Op, n: Id, r: Id)
    requires Ordered(T.nodes) && n in T.nodes
  {
    && r in T'.nodes && T'.nodes[r] == Leaf(Total(T.nodes, n, op)) && NoNewInternal(T.nodes, T'.nodes)
    && T'.leafCache.Keys == T.leafCache.Keys + Totals(T.nodes, n, op)
  }

  lemma TotalledLeaf(T: Tables, T': Tables, h: multiset<Id>, op: Op, n: Id, r: Id)
    requires Ok(T, h) && Ok(T', h) && n in T.nodes && T.nodes[n].Leaf? && Grows(T.nodes, T'.nodes)
    requires OnlyNew(T.nodes, T'.nodes, r) && r in T'.nodes && T'.nodes[r] == T.nodes[n]
    ensures Totalled(T, T', op, n, r)
  {
    OneNewLeaf(T, T', h, r);
  }

  lemma OneNewLeaf(T: Tables, T': Tables, h: multiset<Id>, r: Id)
    requires Ok(T, h) && Ok(T', h) && Grows(T.nodes, T'.nodes) && OnlyNew(T.nodes, T'.nodes, r) && r in T'.nodes && T'.nodes[r].Leaf?
    ensures T'.leafCache.Keys == T.leafCache.Keys + {T'.nodes[r].data} && NoNewInternal(T.nodes, T'.nodes)
  {
    forall d ensures d in T'.leafCache <==> d in T.leafCache || d == T'.nodes[r].data {
      if d in T.leafCache {
        assert T'.nodes[T.leafCache[d]] == Leaf(d);
      }
    }
  }

  lemma TotalledStep(T: Tables, T1: Tables, T2: Tables, T3: Tables, h: multiset<Id>, op: Op, n: Id, low: Id, high: Id, r: Id)
    requires Ok(T, h) && Ok(T1, h) && Ok(T2, h) && Ok(T3, h) && Grows(T.nodes, T1.nodes) && Grows(T1.nodes, T2.nodes) && Grows(T2.nodes, T3.nodes)
    requires n in T.nodes && T.nodes[n].Internal? && Placed(T.nodes, T.nodes[n])
    requires Totalled(T, T1, op, T.nodes[n].low, low) && Totalled(T1, T2, op, T.nodes[n].high, high)
    requires Applied(T3.nodes, op, low, high, r) && OnlyNew(T2.nodes, T3.nodes, r)
    ensures Totalled(T, T3, op, n, r)
  {
    TotalsStay(T.nodes, T1.nodes, T.nodes[n].high, op);
    assert Eval(T3.nodes, r, {}) == op(Eval(T3.nodes, low, {}), Eval(T3.nodes, high, {}));
    OneNewLeaf(T2, T3, h, r);
  }

  /** Removing all variables leaves nothing without references behind exactly when, besides the
      result, every total of a node below was the value of a leaf before. */
  lemma LeftBehindExact(T: Tables, h: multiset<Id>, T': Tables, op: Op, n: Id, r: Id)
    requires Ok(T, h) && Ok(T', h + multiset{r}) && Grows(T.nodes, T'.nodes) && n in T.nodes && Totalled(T, T', op, n, r)
    ensures NoNewZero(T, T') <==> Totals(T.nodes, n, op) <= T.leafCache.Keys + {Total(T.nodes, n, op)}
  {
    forall m | m in T'.nodes && m !in T.nodes ensures Zero(T', m) <==> m != r {
      NewUnreferenced(T, h, T', r, m);
    }
    forall m | m in T.nodes && Zero(T', m) ensures Zero(T, m) {
      OldReferenced(T, h, T', r, m);
    }
    if NoNewZero(T, T') {
      forall d | d in Totals(T.nodes, n, op) && d !in T.leafCache ensures d == Total(T.nodes, n, op) {
        OldLeaf(T, h, T', h + multiset{r}, d);
      }
    }
    if Totals(T.nodes, n, op) <= T.leafCache.Keys + {Total(T.nodes, n, op)} {
      forall m | Zero(T', m) ensures Zero(T, m) {
        if m !in T.nodes {
          NewLeafIsTotal(T, h, T', h + multiset{r}, op, n, r, m);
        }
      }
    }
  }

  lemma NewLeafIsTotal(T: Tables, h: multiset<Id>, T': Tables, h': multiset<Id>, op: Op, n: Id, r: Id, m: Id)
    requires Ok(T, h) && Ok(T', h') && Grows(T.nodes, T'.nodes) && n in T.nodes && Totalled(T, T', op, n, r)
    requires Totals(T.nodes, n, op) <= T.leafCache.Keys + {Total(T.nodes, n, op)} && m in T'.nodes && m !in T.nodes
    ensures m == r
  {
    OldLeaf(T, h, T', h', T'.nodes[m].data);
  }

  lemma OldLeaf(T: Tables, h: multiset<Id>, T': Tables, h': multiset<Id>, d: Data)
    requires Ok(T, h) && Ok(T', h') && Grows(T.nodes, T'.nodes) && d in T'.leafCache
    ensures T'.leafCache[d] in T.nodes <==> d in T.leafCache
  {
    if d in T.leafCache {
      assert T'.nodes[T.leafCache[d]] == Leaf(d);
    }
  }

  /** No edge leads to a new node when all parents are old. */
  lemma NewUnreferenced(T: Tables, h: multiset<Id>, T': Tables, r: Id, m: Id)
    requires Ok(T, h) && Ok(T', h + multiset{r}) && Grows(T.nodes, T'.nodes) && NoNewInternal(T.nodes, T'.nodes)
    requires m in T'.nodes && m !in T.nodes
    ensures Zero(T', m) <==> m != r
  {
    forall p | p in T'.nodes && T'.nodes[p].Internal? ensures T'.nodes[p].low != m && T'.nodes[p].high != m {
      assert Placed(T.nodes, T.nodes[p]);
    }
    assert LowParents(T'.nodes, m) == {} && HighParents(T'.nodes, m) == {};
    assert CountIs(T'.nodes, T'.refs, h + multiset{r}, m);
  }

  lemma OldReferenced(T: Tables, h: multiset<Id>, T': Tables, r: Id, m: Id)
    requires Ok(T, h) && Ok(T', h + multiset{r}) && Grows(T.nodes, T'.nodes) && NoNewInternal(T.nodes, T'.nodes)
    requires m in T.nodes && Zero(T', m)
    ensures Zero(T, m)
  {
    assert LowParents(T'.nodes, m) == LowParents(T.nodes, m) && HighParents(T'.nodes, m) == HighParents(T.nodes, m);
    assert CountIs(T.nodes, T.refs, h, m) && CountIs(T'.nodes, T'.refs, h + multiset{r}, m);
  }

  /** The nodes on the way down from n. */
  ghost function NodesBelow(t: Dag, n: Id): set<Id>
    requires Ordered(t) && n in t
    decreases Level(t, n)
  {
    if t[n].Leaf? then {n}
    else assert Placed(t, t[n]); {n} + NodesBelow(t, t[n].low) + NodesBelow(t, t[n].high)
  }

  lemma {:induction false} NodesBelowStay(t: Dag, t': Dag, n: Id)
    requires Ordered(t) && Ordered(t') && Grows(t, t') && n in t
    ensures NodesBelow(t', n) == NodesBelow(t, n)
    decreases Level(t, n)
  {
    if t[n].Internal? {
      assert Placed(t, t[n]);
      NodesBelowStay(t, t', t[n].low);
      NodesBelowStay(t, t', t[n].high);
    }
  }

  /** z is the projection of one of the nodes in M. */
  ghost predicate ProjectionOf(t: Dag, pred: Var -> bool, op: Op, M: set<Id>, z: Id)
    requires Ordered(t)
  {
    exists m :: m in M && Projected(t, pred, op, m, z)
  }

  /** Every node in M has its projection. */
  ghost predicate AllProjected(t: Dag, pred: Var -> bool, op: Op, M: set<Id>)
    requires Ordered(t)
  {
    forall m :: m in M ==> exists z :: Projected(t, pred, op, m, z)
  }

  /** What is newly without references is the projection of a node in M. */
  ghost predicate LeftFrom(T: Tables, T': Tables, pred: Var -> bool, op: Op, M: set<Id>)
    requires Ordered(T'.nodes)
  {
    forall z :: Zero(T', z) ==> Zero(T, z) || ProjectionOf(T'.nodes, pred, op, M, z)
  }

  lemma ProjectionsStay(t: Dag, t': Dag, pred: Var -> bool, op: Op, M: set<Id>, M': set<Id>)
    requires Ordered(t) && Ordered(t') && Grows(t, t') && M <= M'
    ensures forall z :: ProjectionOf(t, pred, op, M, z) ==> ProjectionOf(t', pred, op, M', z)
    ensures AllProjected(t, pred, op, M) ==> AllProjected(t', pred, op, M)
  {
    forall m, z | Projected(t, pred, op, m, z) ensures Projected(t', pred, op, m, z) {
      ProjectedStays(t, t', pred, op, m, z);
    }
  }

  lemma LeftFromLeaf(T: Tables, T': Tables, pred: Var -> bool, op: Op, n: Id, r: Id)
    requires Ordered(T'.nodes) && OnlyNewZero(T, T', r) && Projected(T'.nodes, pred, op, n, r)
    ensures LeftFrom(T, T', pred, op, {n}) && AllProjected(T'.nodes, pred, op, {n})
  {
    assert ProjectionOf(T'.nodes, pred, op, {n}, r);
  }

  /** One step after another. */
  lemma LeftFromBoth(T: Tables, T1: Tables, T2: Tables, pred: Var -> bool, op: Op, M: set<Id>, N: set<Id>)
    requires Ordered(T1.nodes) && Ordered(T2.nodes) && Grows(T1.nodes, T2.nodes) && LeftFrom(T, T1, pred, op, M) && LeftFrom(T1, T2, pred, op, N)
    ensures LeftFrom(T, T2, pred, op, M + N)
  {
    ProjectionsStay(T1.nodes, T2.nodes, pred, op, M, M + N);
    ProjectionsStay(T2.nodes, T2.nodes, pred, op, N, M + N);
  }

  /** The last step, which leaves at most the projection of n. */
  lemma LeftFromTop(T: Tables, T1: Tables, T2: Tables, pred: Var -> bool, op: Op, M: set<Id>, n: Id, r: Id)
    requires Ordered(T1.nodes) && Ordered(T2.nodes) && Grows(T1.nodes, T2.nodes)
    requires LeftFrom(T, T1, pred, op, M) && AllProjected(T1.nodes, pred, op, M) && OnlyNewZero(T1, T2, r) && Projected(T2.nodes, pred, op, n, r)
    ensures LeftFrom(T, T2, pred, op, {n} + M) && AllProjected(T2.nodes, pred, op, {n} + M)
  {
    forall z | Zero(T2, z) && !Zero(T1, z) ensures ProjectionOf(T2.nodes, pred, op, {n} + M, z) {
      assert n in {n} + M && z == r;
    }
    ProjectionsStay(T1.nodes, T2.nodes, pred, op, M, {n} + M);
    ProjectionsStay(T1.nodes, T2.nodes, pred, op, M, M);
  }

  lemma LeftFromNode(T: Tables, T1: Tables, T2: Tables, pred: Var -> bool, op: Op, n: Id, r: Id)
    requires Ordered(T.nodes) && n in T.nodes && T.nodes[n].Internal? && Placed(T.nodes, T.nodes[n])
    requires Ordered(T1.nodes) && Ordered(T2.nodes) && Grows(T1.nodes, T2.nodes) && OnlyNewZero(T1, T2, r) && Projected(T2.nodes, pred, op, n, r)
    requires LeftFrom(T, T1, pred, op, NodesBelow(T.nodes, T.nodes[n].low) + NodesBelow(T.nodes, T.nodes[n].high))
    requires AllProjected(T1.nodes, pred, op, NodesBelow(T.nodes, T.nodes[n].low) + NodesBelow(T.nodes, T.nodes[n].high))
    ensures LeftFrom(T, T2, pred, op, NodesBelow(T.nodes, n)) && AllProjected(T2.nodes, pred, op, NodesBelow(T.nodes, n))
  {
    var M := NodesBelow(T.nodes, T.nodes[n].low) + NodesBelow(T.nodes, T.nodes[n].high);
    LeftFromTop(T, T1, T2, pred, op, M, n, r);
    assert NodesBelow(T.nodes, n) == {n} + M;
  }

  lemma LeftFromTwo(T: Tables, T1: Tables, T2: Tables, pred: Var -> bool, op: Op, a: Id, b: Id)
    requires Ordered(T.nodes) && Ordered(T1.nodes) && Ordered(T2.nodes) && Grows(T.nodes, T1.nodes) && Grows(T1.nodes, T2.nodes)
    requires a in T.nodes && b in T.nodes
    requires LeftFrom(T, T1, pred, op, NodesBelow(T.nodes, a)) && AllProjected(T1.nodes, pred, op, NodesBelow(T.nodes, a))
    requires LeftFrom(T1, T2, pred, op, NodesBelow(T1.nodes, b)) && AllProjected(T2.nodes, pred, op, NodesBelow(T1.nodes, b))
    ensures LeftFrom(T, T2, pred, op, NodesBelow(T.nodes, a) + NodesBelow(T.nodes, b))
    ensures AllProjected(T2.nodes, pred, op, NodesBelow(T.nodes, a) + NodesBelow(T.nodes, b))
  {
    NodesBelowStay(T.nodes, T1.nodes, b);
    LeftFromBoth(T, T1, T2, pred, op, NodesBelow(T.nodes, a), NodesBelow(T.nodes, b));
    ProjectionsStay(T1.nodes, T2.nodes, pred, op, NodesBelow(T.nodes, a), NodesBelow(T.nodes, a));
  }

  /** What lies below the result has references. */
  lemma BelowNotZero(T: Tables, h: multiset<Id>, r: Id, z: Id)
    requires Ok(T, h) && r in h && Reachable(T.nodes, multiset{r}, z)
    ensures !Zero(T, z)
  {
    var k: nat :| Reached(T.nodes, multiset{r}, z, k);
    if z in T.nodes { assert CountIs(T.nodes, T.refs, h, z); }
    if z != r {
      var p :| ParentOf(T.nodes, p, z) && Reached(T.nodes, multiset{r}, p, k - 1);
      ChildHasParent(T.nodes, p);
    }
  }

  lemma OldChild(t: Dag, t': Dag, p: Id, z: Id)
    requires Ordered(t) && Grows(t, t') && p in t && ParentOf(t', p, z)
    ensures z in t
  {
    assert Placed(t, t[p]);
  }

  /** When nothing new is without references, every new node lies below the result: going up from it,
      parents are new nodes too. */
  lemma {:induction false} NewBelowResult(T: Tables, h: multiset<Id>, T': Tables, r: Id, z: Id, top: nat)
    requires Ok(T, h) && Ok(T', h + multiset{r}) && Grows(T.nodes, T'.nodes) && NoNewZero(T, T')
    requires z in T'.nodes && z !in T.nodes && forall m :: m in T'.nodes ==> Level(T'.nodes, m) <= top
    ensures Reached(T'.nodes, multiset{r}, z, top - Level(T'.nodes, z))
    decreases top - Level(T'.nodes, z)
  {
    if z != r {
      assert CountIs(T'.nodes, T'.refs, h + multiset{r}, z) && !Zero(T', z);
      var p := HasParent(T'.nodes, z);
      assert Placed(T'.nodes, T'.nodes[p]);
      if p in T.nodes { OldChild(T.nodes, T'.nodes, p, z); }
      NewBelowResult(T, h, T', r, p, top);
      ReachedSooner(T'.nodes, multiset{r}, p, top - Level(T'.nodes, p), top - Level(T'.nodes, z) - 1);
    }
  }

  /** z was there before, or lies below r. */
  ghost predicate InUse(t: Dag, t': Dag, r: Id, z: Id) {
    z in t || Reachable(t', multiset{r}, z)
  }

  /** Projection leaves nothing without references behind if and only if the projection of every node
      on the way was there before or lies below the result. */
  lemma NothingLeftExact(T: Tables, h: multiset<Id>, T': Tables, pred: Var -> bool, op: Op, M: set<Id>, r: Id)
    requires Ok(T, h) && Ok(T', h + multiset{r}) && Grows(T.nodes, T'.nodes) && LeftFrom(T, T', pred, op, M)
    ensures NoNewZero(T, T') <==> forall z :: ProjectionOf(T'.nodes, pred, op, M, z) ==> InUse(T.nodes, T'.nodes, r, z)
  {
    if NoNewZero(T, T') {
      var top := HighestLevel(T'.nodes);
      forall z | ProjectionOf(T'.nodes, pred, op, M, z) ensures InUse(T.nodes, T'.nodes, r, z) {
        if z !in T.nodes { NewBelowResult(T, h, T', r, z, top); }
      }
    }
    if forall z :: ProjectionOf(T'.nodes, pred, op, M, z) ==> InUse(T.nodes, T'.nodes, r, z) {
      forall z | Zero(T', z) ensures Zero(T, z) {
        if z in T.nodes {
          OldZero(T, h, T', h + multiset{r}, z);
        } else if Reachable(T'.nodes, multiset{r}, z) {
          BelowNotZero(T', h + multiset{r}, r, z);
        }
      }
    }
  }

  // ---------------------------------------------------------------- the recursion

  method ProjectNode(s: Store, n: Id, pred: Var -> bool, applyFunc: Apply2Functor) returns (r: Id)
    requires s.Valid() && n in s.tables.nodes && applyFunc.store == s && Idempotent(applyFunc.op)
    modifies s`tables, applyFunc`ht
    ensures s.Valid() && Grows(old(s.tables).nodes, s.tables.nodes)
    ensures Projected(s.tables.nodes, pred, applyFunc.op, n, r)
    ensures OncePerPath(old(s.tables).nodes, n, pred) ==> OnlyNewZero(old(s.tables), s.tables, r)
    ensures AllRemoved(old(s.tables).nodes, n, pred) ==> Totalled(old(s.tables), s.tables, applyFunc.op, n, r)
    ensures LeftFrom(old(s.tables), s.tables, pred, applyFunc.op, NodesBelow(old(s.tables).nodes, n))
    ensures AllProjected(s.tables.nodes, pred, applyFunc.op, NodesBelow(old(s.tables).nodes, n))
    decreases Level(s.tables.nodes, n), 2
  {
    var node := s.tables.nodes[n];
    if node.Leaf? {
      ghost var T := s.tables;
      r := s.SpawnLeaf(node.data);
      TotalledLeaf(T, s.tables, s.handles, applyFunc.op, n, r);
      LeftFromLeaf(T, s.tables, pred, applyFunc.op, n, r);
    } else {
      r := ProjectInternal(s, n, node, pred, applyFunc);
    }
  }

  method ProjectInternal(s: Store, n: Id, node: Node, pred: Var -> bool, applyFunc: Apply2Functor) returns (r: Id)
    requires s.Valid() && n in s.tables.nodes && s.tables.nodes[n] == node && node.Internal?
    requires applyFunc.store == s && Idempotent(applyFunc.op)
    modifies s`tables, applyFunc`ht
    ensures s.Valid() && Grows(old(s.tables).nodes, s.tables.nodes)
    ensures Projected(s.tables.nodes, pred, applyFunc.op, n, r)
    ensures OncePerPath(old(s.tables).nodes, n, pred) ==> OnlyNewZero(old(s.tables), s.tables, r)
    ensures AllRemoved(old(s.tables).nodes, n, pred) ==> Totalled(old(s.tables), s.tables, applyFunc.op, n, r)
    ensures LeftFrom(old(s.tables), s.tables, pred, applyFunc.op, NodesBelow(old(s.tables).nodes, n))
    ensures AllProjected(s.tables.nodes, pred, applyFunc.op, NodesBelow(old(s.tables).nodes, n))
    decreases Level(s.tables.nodes, n), 1
  {
    assert Placed(s.tables.nodes, node);
    ghost var T := s.tables;
    ghost var T1: Tables;
    var low, high;
    low, high, T1 := ProjectBoth(s, node.low, node.high, pred, applyFunc);
    ghost var T2 := s.tables;
    r := ProjectTop(s, n, node, pred, applyFunc, low, high);
    LeftFromNode(T, T2, s.tables, pred, applyFunc.op, n, r);
    OnceNode(T, T2, s.tables, s.handles, pred, applyFunc.op, n, low, high, r);
    RemovedNode(T, T1, T2, s.tables, s.handles, pred, applyFunc.op, n, low, high, r);
  }

  lemma OnceNode(T: Tables, T1: Tables, T2: Tables, h: multiset<Id>, pred: Var -> bool, op: Op, n: Id, low: Id, high: Id, r: Id)
    requires Ok(T, h) && Ok(T1, h) && Ok(T2, h) && Grows(T.nodes, T1.nodes) && Grows(T1.nodes, T2.nodes) && Idempotent(op)
    requires n in T.nodes && T.nodes[n].Internal? && Placed(T.nodes, T.nodes[n]) && OnlyNewZero(T1, T2, r)
    requires Projected(T1.nodes, pred, op, T.nodes[n].low, low) && Projected(T1.nodes, pred, op, T.nodes[n].high, high)
    requires OncePerPath(T.nodes, T.nodes[n].low, pred) && OncePerPath(T.nodes, T.nodes[n].high, pred) ==> TwoNewZeros(T, T1, low, high)
    requires !pred(T.nodes[n].variable) ==> r == low == high || (!Zero(T2, low) && !Zero(T2, high))
    ensures OncePerPath(T.nodes, n, pred) ==> OnlyNewZero(T, T2, r)
  {
    if OncePerPath(T.nodes, n, pred) {
      OnlyResultZero(T, T1, T2, h, pred, op, n, low, high, r);
    }
  }

  lemma RemovedNode(T: Tables, T1: Tables, T2: Tables, T3: Tables, h: multiset<Id>, pred: Var -> bool, op: Op, n: Id, low: Id, high: Id, r: Id)
    requires Ok(T, h) && Ok(T1, h) && Ok(T2, h) && Ok(T3, h) && Grows(T.nodes, T1.nodes) && Grows(T1.nodes, T2.nodes) && Grows(T2.nodes, T3.nodes)
    requires n in T.nodes && T.nodes[n].Internal? && Placed(T.nodes, T.nodes[n])
    requires AllRemoved(T.nodes, T.nodes[n].low, pred) ==> Totalled(T, T1, op, T.nodes[n].low, low)
    requires AllRemoved(T.nodes, T.nodes[n].high, pred) ==> Totalled(T1, T2, op, T.nodes[n].high, high)
    requires pred(T.nodes[n].variable) ==> Applied(T3.nodes, op, low, high, r)
    requires low in T2.nodes && high in T2.nodes
    requires pred(T.nodes[n].variable) && T2.nodes[low].Leaf? && T2.nodes[high].Leaf? ==> OnlyNew(T2.nodes, T3.nodes, r)
    ensures AllRemoved(T.nodes, n, pred) ==> Totalled(T, T3, op, n, r)
  {
    if AllRemoved(T.nodes, n, pred) {
      TestedParts(T.nodes, n, Tested(T.nodes, n));
      assert T.nodes[n].variable in Tested(T.nodes, n);
      TotalledStep(T, T1, T2, T3, h, op, n, low, high, r);
    }
  }

  /** Both recursive calls; T1 is the state between them. */
  method ProjectBoth(s: Store, a: Id, b: Id, pred: Var -> bool, applyFunc: Apply2Functor) returns (low: Id, high: Id, ghost T1: Tables)
    requires s.Valid() && a in s.tables.nodes && b in s.tables.nodes && applyFunc.store == s && Idempotent(applyFunc.op)
    modifies s`tables, applyFunc`ht
    ensures s.Valid() && Grows(old(s.tables).nodes, s.tables.nodes)
    ensures Projected(s.tables.nodes, pred, applyFunc.op, a, low) && Projected(s.tables.nodes, pred, applyFunc.op, b, high)
    ensures OncePerPath(old(s.tables).nodes, a, pred) && OncePerPath(old(s.tables).nodes, b, pred) ==>
              TwoNewZeros(old(s.tables), s.tables, low, high)
    ensures Ok(T1, s.handles) && Grows(old(s.tables).nodes, T1.nodes) && Grows(T1.nodes, s.tables.nodes)
    ensures AllRemoved(old(s.tables).nodes, a, pred) ==> Totalled(old(s.tables), T1, applyFunc.op, a, low)
    ensures AllRemoved(old(s.tables).nodes, b, pred) ==> Totalled(T1, s.tables, applyFunc.op, b, high)
    ensures LeftFrom(old(s.tables), s.tables, pred, applyFunc.op, NodesBelow(old(s.tables).nodes, a) + NodesBelow(old(s.tables).nodes, b))
    ensures AllProjected(s.tables.nodes, pred, applyFunc.op, NodesBelow(old(s.tables).nodes, a) + NodesBelow(old(s.tables).nodes, b))
    decreases Max(Level(s.tables.nodes, a), Level(s.tables.nodes, b)) + 1, 0
  {
    ghost var T := s.tables;
    low := ProjectNode(s, a, pred, applyFunc);
    T1 := s.tables;
    high := ProjectNode(s, b, pred, applyFunc);
    ProjectedStays(T1.nodes, s.tables.nodes, pred, applyFunc.op, a, low);
    TestedStays(T.nodes, T1.nodes, b);
    LeftFromTwo(T, T1, s.tables, pred, applyFunc.op, a, b);
    if OncePerPath(T.nodes, b, pred) {
      OncePerPathStays(T.nodes, T1.nodes, b, pred);
    }
  }

  method ProjectTop(s: Store, n: Id, node: Node,
          pred: Var -> bool, applyFunc: Apply2Functor, low: Id, high: Id) returns (r: Id)
    requires s.Valid() && n in s.tables.nodes && s.tables.nodes[n] == node && node.Internal?
    requires applyFunc.store == s && Idempotent(applyFunc.op)
    requires Projected(s.tables.nodes, pred, applyFunc.op, node.low, low) && Projected(s.tables.nodes, pred, applyFunc.op, node.high, high)
    modifies s`tables, applyFunc`ht
    ensures s.Valid() && Grows(old(s.tables).nodes, s.tables.nodes) && OnlyNewZero(old(s.tables), s.tables, r)
    ensures Projected(s.tables.nodes, pred, applyFunc.op, n, r)
    ensures !pred(node.variable) ==> r == low == high || (!Zero(s.tables, low) && !Zero(s.tables, high))
    ensures pred(node.variable) ==> Applied(s.tables.nodes, applyFunc.op, low, high, r)
    ensures pred(node.variable) && old(s.tables).nodes[low].Leaf? && old(s.tables).nodes[high].Leaf? ==>
              OnlyNew(old(s.tables).nodes, s.tables.nodes, r)
  {
    ghost var t := s.tables.nodes;
    assert Placed(t, node);
    if pred(node.variable) {
      r := applyFunc.ApplyNodes(low, high);
    } else if low == high {
      r := low;
    } else {
      r := s.SpawnInternal(low, high, node.variable);
    }
    ProjectedStays(t, s.tables.nodes, pred, applyFunc.op, node.low, low);
    ProjectedStays(t, s.tables.nodes, pred, applyFunc.op, node.high, high);
    if pred(node.variable) {
      ProjectRemoved(s.tables.nodes, pred, applyFunc.op, n, low, high, r);
    } else {
      ProjectKept(s.tables.nodes, pred, applyFunc.op, n, low, high, r);
    }
  }

  /** Removes variables by combining the values of both their choices. Nodes that were needed
      on the way may stay in memory without references: they are projections of nodes on the way,
      and none stays if and only if all of these were there before or lie below the result. None
      stays when no path tests two variables to remove. */
  method Project(s: Store, m: Mtbdd, pred: Var -> bool, op: Op) returns (r: Mtbdd)
    requires s.Valid() && m.root in s.tables.nodes && Idempotent(op)
    modifies s
    ensures s.Valid() && s.handles == old(s.handles) + multiset{r.root} && Grows(old(s.tables).nodes, s.tables.nodes)
    ensures Projected(s.tables.nodes, pred, op, m.root, r.root) && r.defaultValue == m.defaultValue
    ensures OncePerPath(old(s.tables).nodes, m.root, pred) ==> NoNewZero(old(s.tables), s.tables)
    ensures AllRemoved(old(s.tables).nodes, m.root, pred) ==>
              && s.tables.nodes[r.root] == Leaf(Total(old(s.tables).nodes, m.root, op))
              && (NoNewZero(old(s.tables), s.tables) <==>
                 Totals(old(s.tables).nodes, m.root, op) <= old(s.tables).leafCache.Keys + {Total(old(s.tables).nodes, m.root, op)})
    ensures LeftFrom(old(s.tables), s.tables, pred, op, NodesBelow(old(s.tables).nodes, m.root))
    ensures AllProjected(s.tables.nodes, pred, op, NodesBelow(old(s.tables).nodes, m.root))
    ensures NoNewZero(old(s.tables), s.tables) <==>
              forall z :: ProjectionOf(s.tables.nodes, pred, op, NodesBelow(old(s.tables).nodes, m.root), z) ==>
                            InUse(old(s.tables).nodes, s.tables.nodes, r.root, z)
  {
    var applyFunc := new Apply2Functor(s, op);
    ghost var T := s.tables;
    var newRoot := ProjectNode(s, m.root, pred, applyFunc);
    s.IncrementRefCnt(newRoot);
    r := Mtbdd(newRoot, m.defaultValue);
    NothingLeftExact(T, old(s.handles), s.tables, pred, op, NodesBelow(T.nodes, m.root), newRoot);
    if AllRemoved(T.nodes, m.root, pred) {
      LeftBehindExact(T, old(s.handles), s.tables, op, m.root, newRoot);
    }
  }

  // ---------------------------------------------------------------- an input with a remainder

  /** The bits that are in x or in y. */
  function BitOr(x: Data, y: Data): (r: Data)
    decreases if x < 0 || y < 0 then 0 else x + y
  {
    if x == y then x else if x < 0 || y < 0 then -1
    else 2 * BitOr(x / 2, y / 2) + (if x % 2 == 1 || y % 2 == 1 then 1 else 0)
  }

  /** An operation that is idempotent and puts the bits of 1 and 2, 4 and 8, 3 and 12 together. */
  ghost predicate PutsTogether(op: Op) {
    Idempotent(op) && op(1, 2) == 3 && op(4, 8) == 12 && op(3, 12) == 15
  }

  lemma OrPutsTogether()
    ensures PutsTogether(BitOr)
  {
    assert BitOr(1, 2) == 3 && BitOr(4, 8) == 12;
  }

  /** Only the nodes in Z are without references. */
  ghost predicate ZeroOnly(T: Tables, Z: set<Id>) {
    forall m :: Zero(T, m) ==> m in Z
  }

  /** The choice between two values by variable 0. */
  ghost predicate IsPair(t: Dag, n: Id, x: Data, y: Data) {
    && n in t && t[n].Internal? && t[n].variable == 0 && t[n].low in t && t[n].high in t
    && t[t[n].low] == Leaf(x) && t[t[n].high] == Leaf(y)
  }

  lemma PairTotal(t: Dag, n: Id, x: Data, y: Data, op: Op)
    requires Ordered(t) && IsPair(t, n, x, y)
    ensures Total(t, n, op) == op(x, y) && op(x, y) in Totals(t, n, op)
  {
  }

  method Pair(s: Store, x: Data, y: Data, ghost Z: set<Id>) returns (n: Id)
    requires s.Valid() && ZeroOnly(s.tables, Z) && x != y
    modifies s`tables
    ensures s.Valid() && Grows(old(s.tables).nodes, s.tables.nodes) && ZeroOnly(s.tables, Z + {n})
    ensures IsPair(s.tables.nodes, n, x, y) && s.tables.leafCache.Keys == old(s.tables).leafCache.Keys + {x, y}
  {
    var low := s.SpawnLeaf(x);
    var high := s.SpawnLeaf(y);
    n := s.SpawnInternal(low, high, 0);
  }

  method TwoPairs(s: Store) returns (a: Id, b: Id)
    requires s.Valid() && NoGarbage(s.tables) && s.tables.leafCache == map[]
    modifies s`tables
    ensures s.Valid() && ZeroOnly(s.tables, {a, b}) && s.tables.leafCache.Keys == {1, 2, 4, 8} && a != b
    ensures IsPair(s.tables.nodes, a, 1, 2) && IsPair(s.tables.nodes, b, 4, 8)
  {
    a := Pair(s, 1, 2, {});
    assert s.tables.leafCache.Keys == {1, 2};
    ghost var t := s.tables.nodes;
    b := Pair(s, 4, 8, {a});
    PairStays(t, s.tables.nodes, a, 1, 2);
    assert s.tables.nodes[s.tables.nodes[a].low] != s.tables.nodes[s.tables.nodes[b].low];
  }

  lemma PairStays(t: Dag, t': Dag, n: Id, x: Data, y: Data)
    requires Grows(t, t') && IsPair(t, n, x, y)
    ensures IsPair(t', n, x, y)
  {
  }

  /** The choice between two nodes by variable 1. */
  method Top(s: Store, a: Id, b: Id) returns (root: Id)
    requires s.Valid() && ZeroOnly(s.tables, {a, b}) && a in s.tables.nodes && b in s.tables.nodes && a != b
    requires Level(s.tables.nodes, a) <= 1 && Level(s.tables.nodes, b) <= 1
    modifies s`tables
    ensures s.Valid() && ZeroOnly(s.tables, {root}) && s.tables.leafCache == old(s.tables).leafCache
    ensures Grows(old(s.tables).nodes, s.tables.nodes) && root in s.tables.nodes && s.tables.nodes[root] == Internal(a, b, 1)
  {
    root := s.SpawnInternal(a, b, 1);
  }

  /** A diagram over two variables with four different bits as its values. */
  method FourBits(s: Store, ghost op: Op) returns (m: Mtbdd)
    requires s.Valid() && NoGarbage(s.tables) && s.tables.leafCache == map[] && PutsTogether(op)
    modifies s
    ensures s.Valid() && NoGarbage(s.tables) && m.root in s.tables.nodes && s.tables.leafCache.Keys == {1, 2, 4, 8}
    ensures Total(s.tables.nodes, m.root, op) == 15 && 3 in Totals(s.tables.nodes, m.root, op)
  {
    var a, b := TwoPairs(s);
    var root := Top(s, a, b);
    FourTotals(s.tables.nodes, root, a, b, op);
    s.IncrementRefCnt(root);
    m := Mtbdd(root, 0);
  }

  lemma FourTotals(t: Dag, root: Id, a: Id, b: Id, op: Op)
    requires Ordered(t) && root in t && t[root] == Internal(a, b, 1) && IsPair(t, a, 1, 2) && IsPair(t, b, 4, 8) && PutsTogether(op)
    ensures Total(t, root, op) == 15 && 3 in Totals(t, root, op)
  {
    PairTotal(t, a, 1, 2, op);
    PairTotal(t, b, 4, 8, op);
  }

  /** Putting all four bits together leaves nodes behind. */
  method LeavesBehind(s: Store, op: Op) returns (r: Mtbdd, ghost before: Tables)
    requires s.Valid() && NoGarbage(s.tables) && s.tables.leafCache == map[] && PutsTogether(op)
    modifies s
    ensures NoGarbage(before) && !NoGarbage(s.tables)
  {
    var m := FourBits(s, op);
    before := s.tables;
    r := Project(s, m, _ => true, op);
    assert 3 !in before.leafCache.Keys + {15};
  }

  // ---------------------------------------------------------------- paths

  datatype PathValue = PathValue(asgn: SymbolicVarAsgn, data: Data)

  /** Extends the assignment with variables without values. */
  function AddVariablesUpTo(asgn: SymbolicVarAsgn, v: Var): (r: SymbolicVarAsgn)
    ensures |r| == Max(|asgn|, v + 1)
    ensures forall i :: 0 <= i < |r| ==> r[i] == if i < |asgn| then asgn[i] else DONT_CARE
  {
    if |asgn| > v then asgn else asgn + seq(v + 1 - |asgn|, _ => DONT_CARE)
  }

  /** No variable below the bound has a value. */
  ghost predicate Free(asgn: SymbolicVarAsgn, bound: nat) {
    forall i :: 0 <= i < |asgn| && i < bound ==> asgn[i] == DONT_CARE
  }

  /** The assignments that lead to the leaves below node n, low branch first. */
  function GetPathsRec(t: Dag, n: Id, asgn: SymbolicVarAsgn): seq<PathValue>
    requires Ordered(t) && n in t
    decreases Level(t, n)
  {
    if t[n].Leaf? then [PathValue(asgn, t[n].data)] else
      assert Placed(t, t[n]);
      var longer := AddVariablesUpTo(asgn, t[n].variable);
      GetPathsRec(t, t[n].low, longer[t[n].variable := ZERO]) + GetPathsRec(t, t[n].high, longer[t[n].variable := ONE])
  }

  /** How many of the paths match S. */
  ghost function Matching(paths: seq<PathValue>, S: set<Var>): nat {
    if paths == [] then 0 else One(Matches(paths[0].asgn, 0, S)) + Matching(paths[1..], S)
  }

  lemma {:induction false} MatchingBoth(a: seq<PathValue>, b: seq<PathValue>, S: set<Var>)
    ensures Matching(a + b, S) == Matching(a, S) + Matching(b, S)
  {
    if a == [] {
      assert a + b == b;
    } else {
      MatchingBoth(a[1..], b, S);
      assert (a + b)[1..] == a[1..] + b;
    }
  }

  /** With one more variable set, the assignment matches if that variable has the value. */
  lemma MatchesSet(asgn: SymbolicVarAsgn, v: Var, value: VarValue, S: set<Var>)
    requires Free(asgn, v + 1) && value != DONT_CARE
    ensures Matches(AddVariablesUpTo(asgn, v)[v := value], 0, S) <==> Matches(asgn, 0, S) && (v in S <==> value == ONE)
    ensures Free(AddVariablesUpTo(asgn, v)[v := value], v)
  {
    var longer := AddVariablesUpTo(asgn, v);
    var set_ := longer[v := value];
    if Matches(set_, 0, S) {
      forall i | 0 <= i < |asgn| ensures (asgn[i] == ONE ==> i + 0 in S) && (asgn[i] == ZERO ==> i + 0 !in S) {
        assert i != v ==> set_[i] == asgn[i];
      }
      assert set_[v] == value && (value == ONE ==> v + 0 in S) && (value == ZERO ==> v + 0 !in S);
    }
    if Matches(asgn, 0, S) && (v in S <==> value == ONE) {
      forall i | 0 <= i < |set_| ensures (set_[i] == ONE ==> i + 0 in S) && (set_[i] == ZERO ==> i + 0 !in S) {
        assert i != v && i < |asgn| ==> set_[i] == asgn[i];
      }
    }
  }

  /** The variables tested on the way that S takes down from n. */
  ghost function TestedOn(t: Dag, n: Id, S: set<Var>): set<Var>
    requires Ordered(t) && n in t
    decreases Level(t, n)
  {
    if t[n].Leaf? then {} else
      assert Placed(t, t[n]);
      {t[n].variable} + TestedOn(t, if t[n].variable in S then t[n].high else t[n].low, S)
  }

  /** The variables that have a value. */
  ghost function Given(asgn: SymbolicVarAsgn): set<Var> {
    set i | 0 <= i < |asgn| && asgn[i] != DONT_CARE
  }

  lemma GivenSet(asgn: SymbolicVarAsgn, v: Var, value: VarValue)
    requires value != DONT_CARE
    ensures Given(AddVariablesUpTo(asgn, v)[v := value]) == Given(asgn) + {v}
  {
    var longer := AddVariablesUpTo(asgn, v);
    forall i ensures i in Given(longer[v := value]) <==> i in Given(asgn) + {v} { }
  }

  /** The path that S takes: it gives values to the variables tested there and to no others,
      and leads to the value at S. */
  ghost predicate PathOf(t: Dag, n: Id, asgn: SymbolicVarAsgn, S: set<Var>, p: PathValue)
    requires Ordered(t) && n in t
  {
    p.data == Eval(t, n, S) && Given(p.asgn) == Given(asgn) + TestedOn(t, n, S)
  }

  lemma PathOfBelow(t: Dag, n: Id, asgn: SymbolicVarAsgn, S: set<Var>, p: PathValue, value: VarValue)
    requires Ordered(t) && n in t && t[n].Internal? && value != DONT_CARE && (t[n].variable in S <==> value == ONE)
    requires var m := if value == ONE then t[n].high else t[n].low;
             Placed(t, t[n]) && PathOf(t, m, AddVariablesUpTo(asgn, t[n].variable)[t[n].variable := value], S, p)
    ensures PathOf(t, n, asgn, S, p)
  {
    GivenSet(asgn, t[n].variable, value);
  }

  /** The paths partition the assignments: every S that matches the assignment to start from matches
      exactly one of them, which is its path. */
  lemma {:induction false} PathsExact(t: Dag, n: Id, asgn: SymbolicVarAsgn, S: set<Var>)
    requires Ordered(t) && n in t && Free(asgn, Level(t, n))
    ensures Matching(GetPathsRec(t, n, asgn), S) == One(Matches(asgn, 0, S))
    ensures forall p :: p in GetPathsRec(t, n, asgn) && Matches(p.asgn, 0, S) ==> PathOf(t, n, asgn, S, p)
    decreases Level(t, n)
  {
    if t[n].Internal? {
      assert Placed(t, t[n]);
      var v := t[n].variable;
      var longer := AddVariablesUpTo(asgn, v);
      MatchesSet(asgn, v, ZERO, S);
      MatchesSet(asgn, v, ONE, S);
      PathsExact(t, t[n].low, longer[v := ZERO], S);
      PathsExact(t, t[n].high, longer[v := ONE], S);
      var low, high := GetPathsRec(t, t[n].low, longer[v := ZERO]), GetPathsRec(t, t[n].high, longer[v := ONE]);
      MatchingBoth(low, high, S);
      forall p: PathValue | p in low + high && Matches(p.asgn, 0, S) ensures PathOf(t, n, asgn, S, p) {
        if p in low {
          MatchingSome(low, p, S);
          PathOfBelow(t, n, asgn, S, p, ZERO);
        } else {
          MatchingSome(high, p, S);
          PathOfBelow(t, n, asgn, S, p, ONE);
        }
      }
    }
  }

  /** The paths are as long as the variables tested need, and keep the values from the level of n on. */
  ghost predicate Prolongs(asgn: SymbolicVarAsgn, level: nat, p: SymbolicVarAsgn) {
    |p| == Max(|asgn|, level) && forall i :: level <= i < |asgn| ==> p[i] == asgn[i]
  }

  /** At the highest variable at which they differ, the first is zero and the second one. */
  ghost predicate LowerPath(p: SymbolicVarAsgn, q: SymbolicVarAsgn) {
    |p| == |q| && exists v :: 0 <= v < |p| && p[v] == ZERO && q[v] == ONE && forall i :: v < i < |p| ==> p[i] == q[i]
  }

  ghost predicate AllProlong(asgn: SymbolicVarAsgn, level: nat, paths: seq<PathValue>) {
    forall i :: 0 <= i < |paths| ==> Prolongs(asgn, level, paths[i].asgn)
  }

  ghost predicate LowFirst(paths: seq<PathValue>) {
    forall i, j {:trigger LowerPath(paths[i].asgn, paths[j].asgn)} :: 0 <= i < j < |paths| ==> LowerPath(paths[i].asgn, paths[j].asgn)
  }

  /** The paths are listed in order, low branch first. */
  lemma {:induction false} PathsInOrder(t: Dag, n: Id, asgn: SymbolicVarAsgn)
    requires Ordered(t) && n in t
    ensures AllProlong(asgn, Level(t, n), GetPathsRec(t, n, asgn)) && LowFirst(GetPathsRec(t, n, asgn))
    decreases Level(t, n)
  {
    if t[n].Internal? {
      assert Placed(t, t[n]);
      var v := t[n].variable;
      var longer := AddVariablesUpTo(asgn, v);
      PathsInOrder(t, t[n].low, longer[v := ZERO]);
      PathsInOrder(t, t[n].high, longer[v := ONE]);
      var low, high := GetPathsRec(t, t[n].low, longer[v := ZERO]), GetPathsRec(t, t[n].high, longer[v := ONE]);
      OrderBoth(asgn, v, Level(t, t[n].low), Level(t, t[n].high), low, high);
    }
  }

  lemma OrderBoth(asgn: SymbolicVarAsgn, v: Var, lowLevel: nat, highLevel: nat, low: seq<PathValue>, high: seq<PathValue>)
    requires lowLevel <= v && highLevel <= v && LowFirst(low) && LowFirst(high)
    requires AllProlong(AddVariablesUpTo(asgn, v)[v := ZERO], lowLevel, low) && AllProlong(AddVariablesUpTo(asgn, v)[v := ONE], highLevel, high)
    ensures AllProlong(asgn, v + 1, low + high) && LowFirst(low + high)
  {
    var paths := low + high;
    forall i, j | 0 <= i < j < |paths| ensures LowerPath(paths[i].asgn, paths[j].asgn) {
      if i < |low| <= j {
        assert paths[i] == low[i] && paths[j] == high[j - |low|];
        Branches(asgn, v, lowLevel, highLevel, low[i].asgn, high[j - |low|].asgn);
      } else if j < |low| {
        assert LowerPath(low[i].asgn, low[j].asgn);
      } else {
        assert LowerPath(high[i - |low|].asgn, high[j - |low|].asgn);
      }
    }
  }

  lemma Branches(asgn: SymbolicVarAsgn, v: Var, lowLevel: nat, highLevel: nat, p: SymbolicVarAsgn, q: SymbolicVarAsgn)
    requires lowLevel <= v && highLevel <= v
    requires Prolongs(AddVariablesUpTo(asgn, v)[v := ZERO], lowLevel, p) && Prolongs(AddVariablesUpTo(asgn, v)[v := ONE], highLevel, q)
    ensures LowerPath(p, q)
  {
    assert p[v] == ZERO && q[v] == ONE;
  }

  lemma {:induction false} MatchingSome(paths: seq<PathValue>, p: PathValue, S: set<Var>)
    requires p in paths && Matches(p.asgn, 0, S)
    ensures Matching(paths, S) > 0
  {
    if p != paths[0] {
      MatchingSome(paths[1..], p, S);
    }
  }
}
