/** The two bottom-up indexes of the transitions of an automaton: by child state, symbol and
    position, and by symbol, position and child state. Nullary transitions are kept apart. */
module BottomUpIndexes {
  import opened Collections
  import opened TreeAutomata

  type SymbolLists = map<Symbol, seq<Transition>>
  type IndexedLists = map<State, map<Symbol, seq<seq<Transition>>>>
  type DoubleIndexedLists = map<Symbol, seq<seq<seq<Transition>>>>

  /** How an index answers a look-up. */
  type Lists = (State, Symbol, nat) -> seq<Transition>

  ghost predicate Occurs(tr: Transition, q: State, a: Symbol, j: nat) {
    tr.sym == a && j < |tr.kids| && tr.kids[j] == q
  }

  /** The list kept for state q at position j of symbol a. */
  function Entry(index: IndexedLists, q: State, a: Symbol, j: nat): seq<Transition> {
    if q in index && a in index[q] && j < |index[q][a]| then index[q][a][j] else []
  }

  function Entry2(index: DoubleIndexedLists, q: State, a: Symbol, j: nat): seq<Transition> {
    if a in index && j < |index[a]| && q < |index[a][j]| then index[a][j][q] else []
  }

  function Entries(index: IndexedLists): Lists {
    (q: State, a: Symbol, j: nat) => Entry(index, q, a, j)
  }

  function Entries2(index: DoubleIndexedLists): Lists {
    (q: State, a: Symbol, j: nat) => Entry2(index, q, a, j)
  }

  function Leaves(leaves: SymbolLists, a: Symbol): seq<Transition> {
    if a in leaves then leaves[a] else []
  }

  /** The index holds the transitions T, and tr at its first i positions. */
  ghost predicate Indexes(entry: Lists, T: set<Transition>, tr: Transition, i: nat) {
    forall q, a, j: nat, x {:trigger x in entry(q, a, j)} ::
      x in entry(q, a, j) <==> (x in T && Occurs(x, q, a, j)) || (x == tr && j < i && Occurs(x, q, a, j))
  }

  ghost predicate IndexOf(entry: Lists, T: set<Transition>) {
    forall q, a, j: nat, x {:trigger x in entry(q, a, j)} :: x in entry(q, a, j) <==> x in T && Occurs(x, q, a, j)
  }

  /** The leaf lists hold the nullary transitions among T, and no list is empty. */
  ghost predicate LeavesOf(leaves: SymbolLists, T: set<Transition>) {
    && (forall a, x {:trigger x in Leaves(leaves, a)} :: x in Leaves(leaves, a) <==> x in T && x.sym == a && x.kids == [])
    && (forall a {:trigger a in leaves} :: a in leaves ==> exists x :: x in leaves[a])
  }

  /** Appends the transition to the list for q at position i. */
  method Put(index: IndexedLists, q: State, i: nat, tr: Transition) returns (r: IndexedLists)
    ensures forall p, a, j: nat :: Entry(r, p, a, j) == Entry(index, p, a, j) + if p == q && a == tr.sym && j == i then [tr] else []
  {
    var lists: map<Symbol, seq<seq<Transition>>> := if q in index then index[q] else map[];
    var list := Resized(if tr.sym in lists then lists[tr.sym] else [], i + 1);
    var list' := list[i := list[i] + [tr]];
    r := index[q := lists[tr.sym := list']];
    forall p, a, j: nat ensures Entry(r, p, a, j) == Entry(index, p, a, j) + if p == q && a == tr.sym && j == i then [tr] else [] {
      if p == q && a == tr.sym {
        assert r[p][a] == list';
        assert j < |list| ==> list[j] == Entry(index, p, a, j);
      }
    }
  }

  method Put2(index: DoubleIndexedLists, q: State, i: nat, tr: Transition) returns (r: DoubleIndexedLists)
    requires tr.sym in index && i < |index[tr.sym]|
    ensures r.Keys == index.Keys && |r[tr.sym]| == |index[tr.sym]|
    ensures forall p, a, j: nat :: Entry2(r, p, a, j) == Entry2(index, p, a, j) + if p == q && a == tr.sym && j == i then [tr] else []
  {
    var list := Resized(index[tr.sym][i], q + 1);
    r := index[tr.sym := index[tr.sym][i := list[q := list[q] + [tr]]]];
  }

  /** Enters the transition under each of its children. */
  method PutAll(index: IndexedLists, tr: Transition, ghost T: set<Transition>) returns (r: IndexedLists)
    requires IndexOf(Entries(index), T)
    ensures IndexOf(Entries(r), T + {tr})
  {
    r := index;
    var i := 0;
    while i < |tr.kids|
      invariant 0 <= i <= |tr.kids| && Indexes(Entries(r), T, tr, i)
    {
      ghost var before := r;
      r := Put(r, tr.kids[i], i, tr);
      PutStep(Entries(before), Entries(r), T, tr, i);
      i := i + 1;
    }
    AllPositions(Entries(r), T, tr);
  }

  method PutAll2(index: DoubleIndexedLists, tr: Transition, ghost T: set<Transition>) returns (r: DoubleIndexedLists)
    requires IndexOf(Entries2(index), T)
    requires tr.sym in index && |tr.kids| <= |index[tr.sym]|
    ensures r.Keys == index.Keys && |r[tr.sym]| == |index[tr.sym]|
    ensures IndexOf(Entries2(r), T + {tr})
  {
    r := index;
    var i := 0;
    while i < |tr.kids|
      invariant 0 <= i <= |tr.kids| && r.Keys == index.Keys && |r[tr.sym]| == |index[tr.sym]|
      invariant Indexes(Entries2(r), T, tr, i)
    {
      ghost var before := r;
      r := Put2(r, tr.kids[i], i, tr);
      PutStep(Entries2(before), Entries2(r), T, tr, i);
      i := i + 1;
    }
    AllPositions(Entries2(r), T, tr);
  }

  lemma PutStep(entry: Lists, entry': Lists,
      T: set<Transition>, tr: Transition, i: nat)
    requires i < |tr.kids| && Indexes(entry, T, tr, i)
    requires forall q, a, j: nat :: entry'(q, a, j) == entry(q, a, j) + if q == tr.kids[i] && a == tr.sym && j == i then [tr] else []
    ensures Indexes(entry', T, tr, i + 1)
  {
    forall q, a, j: nat, x ensures x in entry'(q, a, j) <==> (x in T && Occurs(x, q, a, j)) || (x == tr && j < i + 1 && Occurs(x, q, a, j)) {
      assert x in entry(q, a, j) <==> (x in T && Occurs(x, q, a, j)) || (x == tr && j < i && Occurs(x, q, a, j));
    }
  }

  lemma AllPositions(entry: Lists, T: set<Transition>, tr: Transition)
    requires Indexes(entry, T, tr, |tr.kids|)
    ensures IndexOf(entry, T + {tr})
  {
  }

  method AddLeaf(leaves: SymbolLists, tr: Transition, ghost T: set<Transition>) returns (r: SymbolLists)
    requires tr.kids == [] && LeavesOf(leaves, T)
    ensures LeavesOf(r, T + {tr})
  {
    r := leaves[tr.sym := Leaves(leaves, tr.sym) + [tr]];
    forall a, x ensures x in Leaves(r, a) <==> x in T + {tr} && x.sym == a && x.kids == [] {
      assert x in Leaves(leaves, a) <==> x in T && x.sym == a && x.kids == [];
    }
    forall a | a in r ensures exists x :: x in r[a] {
      if a == tr.sym { assert tr in r[a]; } else { assert a in leaves; }
    }
  }

  lemma KeepLeaves(leaves: SymbolLists, T: set<Transition>, tr: Transition)
    requires tr.kids != [] && LeavesOf(leaves, T)
    ensures LeavesOf(leaves, T + {tr})
  {
    forall a, x ensures x in Leaves(leaves, a) <==> x in T + {tr} && x.sym == a && x.kids == [] {
      assert x in Leaves(leaves, a) <==> x in T && x.sym == a && x.kids == [];
    }
  }

  lemma KeepIndex(entry: Lists, T: set<Transition>, tr: Transition)
    requires tr.kids == [] && IndexOf(entry, T)
    ensures IndexOf(entry, T + {tr})
  {
    forall q, a, j: nat, x ensures x in entry(q, a, j) <==> x in T + {tr} && Occurs(x, q, a, j) {
      assert x in entry(q, a, j) <==> x in T && Occurs(x, q, a, j);
    }
  }

  // ---------------------------------------------------------------- whole automata

  /** The transitions from q under a into the tuples. */
  ghost function Cluster(q: State, a: Symbol, tuples: set<seq<State>>): set<Transition> {
    set t | t in tuples :: Transition(q, a, t)
  }

  /** All tuples are as long as the first one: the symbol has a rank. */
  ghost predicate SameLength(tuples: set<seq<State>>) {
    forall t, u :: t in tuples && u in tuples ==> |t| == |u|
  }

  method AddCluster(index: IndexedLists, leaves: SymbolLists, q: State, a: Symbol, tuples: set<seq<State>>,
          ghost T: set<Transition>)
      returns (index': IndexedLists, leaves': SymbolLists)
    requires IndexOf(Entries(index), T) && LeavesOf(leaves, T)
    requires tuples != {} && SameLength(tuples)
    ensures IndexOf(Entries(index'), T + Cluster(q, a, tuples)) && LeavesOf(leaves', T + Cluster(q, a, tuples))
  {
    index', leaves' := index, leaves;
    var first :| first in tuples;
    var todo := tuples;
    ghost var T' := T;
    while todo != {}
      invariant todo <= tuples && T' == T + Cluster(q, a, tuples - todo)
      invariant IndexOf(Entries(index'), T') && LeavesOf(leaves', T')
      decreases todo
    {
      var t :| t in todo;
      var tr := Transition(q, a, t);
      if first == [] {
        leaves' := AddLeaf(leaves', tr, T');
        KeepIndex(Entries(index'), T', tr);
      } else {
        index' := PutAll(index', tr, T');
        KeepLeaves(leaves', T', tr);
      }
      OneMore(q, a, tuples, todo, t);
      T' := T' + {tr};
      todo := todo - {t};
    }
    assert tuples - todo == tuples;
  }

  lemma OneMore(q: State, a: Symbol, tuples: set<seq<State>>, todo: set<seq<State>>, t: seq<State>)
    requires t in todo && todo <= tuples
    ensures Cluster(q, a, tuples - (todo - {t})) == Cluster(q, a, tuples - todo) + {Transition(q, a, t)}
  {
  }

  method AddCluster2(index: DoubleIndexedLists, leaves: SymbolLists, q: State, a: Symbol, tuples: set<seq<State>>,
          ghost T: set<Transition>)
      returns (index': DoubleIndexedLists, leaves': SymbolLists)
    requires IndexOf(Entries2(index), T) && LeavesOf(leaves, T)
    requires tuples != {} && SameLength(tuples)
    ensures IndexOf(Entries2(index'), T + Cluster(q, a, tuples)) && LeavesOf(leaves', T + Cluster(q, a, tuples))
  {
    index', leaves' := index, leaves;
    var first :| first in tuples;
    if first != [] {
      var lists: seq<seq<seq<Transition>>> := if a in index then index[a] else [];
      index' := index[a := Resized(lists, |first|)];
      forall p, b, j: nat ensures Entry2(index', p, b, j) == Entry2(index, p, b, j) { }
      SameEntries(Entries2(index), Entries2(index'), T);
    }
    var todo := tuples;
    ghost var T' := T;
    while todo != {}
      invariant todo <= tuples && T' == T + Cluster(q, a, tuples - todo)
      invariant IndexOf(Entries2(index'), T') && LeavesOf(leaves', T')
      invariant first != [] ==> a in index' && |first| <= |index'[a]|
      decreases todo
    {
      var t :| t in todo;
      var tr := Transition(q, a, t);
      if first == [] {
        leaves' := AddLeaf(leaves', tr, T');
        KeepIndex(Entries2(index'), T', tr);
      } else {
        index' := PutAll2(index', tr, T');
        KeepLeaves(leaves', T', tr);
      }
      OneMore(q, a, tuples, todo, t);
      T' := T' + {tr};
      todo := todo - {t};
    }
    assert tuples - todo == tuples;
  }

  lemma SameEntries(entry: Lists, entry': Lists, T: set<Transition>)
    requires IndexOf(entry, T) && forall p, b, j: nat :: entry'(p, b, j) == entry(p, b, j)
    ensures IndexOf(entry', T)
  {
  }

  /** The transitions of the states in Q, and of q under the symbols in S. */
  ghost function Visited(A: Aut, Q: set<State>, q: State, S: set<Symbol>): set<Transition> {
    set tr | tr in A.trans && (tr.parent in Q || (tr.parent == q && tr.sym in S))
  }

  lemma VisitSymbol(A: Aut, Q: set<State>, q: State, S: set<Symbol>, a: Symbol)
    ensures Visited(A, Q, q, S) + Cluster(q, a, A.Tuples(q, a)) == Visited(A, Q, q, S + {a})
  {
    forall tr | tr in A.trans && tr.parent == q && tr.sym == a ensures tr in Cluster(q, a, A.Tuples(q, a)) {
      assert tr == Transition(q, a, tr.kids) && tr.kids in A.Tuples(q, a);
    }
    forall tr | tr in Cluster(q, a, A.Tuples(q, a)) ensures tr in Visited(A, Q, q, S + {a}) {
      var t :| t in A.Tuples(q, a) && tr == Transition(q, a, t);
    }
  }

  lemma RankedTuples(A: Aut, rank: Symbol -> nat, q: State, a: Symbol)
    requires Ranked(A.trans, rank) && a in A.Symbols(q)
    ensures A.Tuples(q, a) != {} && SameLength(A.Tuples(q, a))
  {
    var tr :| tr in A.trans && tr.parent == q && tr.sym == a;
    assert tr.kids in A.Tuples(q, a);
  }

  /** By child state, symbol and position. */
  method IndexBottomUp(A: Aut, ghost rank: Symbol -> nat) returns (index: IndexedLists, leaves: SymbolLists)
    requires Ranked(A.trans, rank)
    ensures IndexOf(Entries(index), A.trans) && LeavesOf(leaves, A.trans)
  {
    index, leaves := map[], map[];
    var todo := A.Parents();
    while todo != {}
      invariant todo <= A.Parents()
      invariant IndexOf(Entries(index), Visited(A, A.Parents() - todo, 0, {}))
      invariant LeavesOf(leaves, Visited(A, A.Parents() - todo, 0, {}))
      decreases todo
    {
      var q :| q in todo;
      ghost var Q := A.Parents() - todo;
      var symbols := A.Symbols(q);
      assert Visited(A, Q, 0, {}) == Visited(A, Q, q, A.Symbols(q) - symbols);
      while symbols != {}
        invariant symbols <= A.Symbols(q)
        invariant IndexOf(Entries(index), Visited(A, Q, q, A.Symbols(q) - symbols))
        invariant LeavesOf(leaves, Visited(A, Q, q, A.Symbols(q) - symbols))
        decreases symbols
      {
        var a :| a in symbols;
        RankedTuples(A, rank, q, a);
        index, leaves := AddCluster(index, leaves, q, a, A.Tuples(q, a), Visited(A, Q, q, A.Symbols(q) - symbols));
        VisitSymbol(A, Q, q, A.Symbols(q) - symbols, a);
        assert A.Symbols(q) - symbols + {a} == A.Symbols(q) - (symbols - {a});
        symbols := symbols - {a};
      }
      VisitedState(A, Q, q);
      assert Q + {q} == A.Parents() - (todo - {q});
      todo := todo - {q};
    }
    assert Visited(A, A.Parents() - todo, 0, {}) == A.trans;
  }

  lemma VisitedState(A: Aut, Q: set<State>, q: State)
    ensures Visited(A, Q, q, A.Symbols(q) - {}) == Visited(A, Q + {q}, 0, {})
  {
  }

  /** By symbol, position and child state. */
  method IndexBottomUp2(A: Aut, ghost rank: Symbol -> nat) returns (index: DoubleIndexedLists, leaves: SymbolLists)
    requires Ranked(A.trans, rank)
    ensures IndexOf(Entries2(index), A.trans) && LeavesOf(leaves, A.trans)
  {
    index, leaves := map[], map[];
    var todo := A.Parents();
    while todo != {}
      invariant todo <= A.Parents()
      invariant IndexOf(Entries2(index), Visited(A, A.Parents() - todo, 0, {}))
      invariant LeavesOf(leaves, Visited(A, A.Parents() - todo, 0, {}))
      decreases todo
    {
      var q :| q in todo;
      ghost var Q := A.Parents() - todo;
      var symbols := A.Symbols(q);
      assert Visited(A, Q, 0, {}) == Visited(A, Q, q, A.Symbols(q) - symbols);
      while symbols != {}
        invariant symbols <= A.Symbols(q)
        invariant IndexOf(Entries2(index), Visited(A, Q, q, A.Symbols(q) - symbols))
        invariant LeavesOf(leaves, Visited(A, Q, q, A.Symbols(q) - symbols))
        decreases symbols
      {
        var a :| a in symbols;
        RankedTuples(A, rank, q, a);
        index, leaves := AddCluster2(index, leaves, q, a, A.Tuples(q, a), Visited(A, Q, q, A.Symbols(q) - symbols));
        VisitSymbol(A, Q, q, A.Symbols(q) - symbols, a);
        assert A.Symbols(q) - symbols + {a} == A.Symbols(q) - (symbols - {a});
        symbols := symbols - {a};
      }
      VisitedState(A, Q, q);
      assert Q + {q} == A.Parents() - (todo - {q});
      todo := todo - {q};
    }
    assert Visited(A, A.Parents() - todo, 0, {}) == A.trans;
  }
}
