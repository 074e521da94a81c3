/** Builds the transition system that encodes a tree automaton. */
module TranslateDown {
  import opened Collections
  import opened DownSim
  import opened Lts
  import opened Reindex
  import opened Translators
  import opened TreeAutomata

  type Edges = multiset<(nat, nat, nat)>

  ghost predicate Has(edges: Edges, x: int, c: int, y: int) {
    x >= 0 && c >= 0 && y >= 0 && (x, c, y) in edges
  }

  /** The edges are those of the transitions T and of the tuples L. */
  ghost predicate EdgesAre(edges: Edges, N: Numbering, T: set<Transition>, L: set<seq<State>>) {
    forall x, c, y {:trigger Has(edges, x, c, y)} :: Has(edges, x, c, y) <==> TransEdge(N, T, x, c, y) || TupleEdge(N, L, x, c, y)
  }

  ghost predicate KnownTransitions(N: Numbering, T: set<Transition>) {
    forall tr :: tr in T ==> tr.parent in N.state && tr.sym in N.sym && TargetKnown(N, tr.kids)
  }

  ghost predicate KnownTuples(N: Numbering, L: set<seq<State>>) {
    forall l :: l in L ==> l in N.lhs && forall i :: 0 <= i < |l| ==> l[i] in N.state
  }

  ghost predicate MapGrows<T(!new)>(m: map<T, nat>, m': map<T, nat>) {
    forall x :: x in m ==> x in m' && m'[x] == m[x]
  }

  /** m' is m with a number for x. */
  ghost predicate GrowsTo<T(!new)>(m: map<T, nat>, m': map<T, nat>, x: T) {
    MapGrows(m, m') && m'.Keys == m.Keys + {x}
  }

  ghost predicate NumberingGrows(N: Numbering, N': Numbering) {
    MapGrows(N.state, N'.state) && MapGrows(N.sym, N'.sym) && MapGrows(N.lhs, N'.lhs)
  }

  lemma TransEdgeStays(N: Numbering, N': Numbering, T: set<Transition>, x: int, c: int, y: int)
    requires KnownTransitions(N, T) && NumberingGrows(N, N')
    ensures TransEdge(N', T, x, c, y) <==> TransEdge(N, T, x, c, y)
  {
    if TransEdge(N, T, x, c, y) {
      var tr :| tr in T && tr.parent in N.state && tr.sym in N.sym && TargetKnown(N, tr.kids)
        && x == N.state[tr.parent] && c == N.sym[tr.sym] && y == Target(N, tr.kids);
      assert TargetKnown(N', tr.kids) && Target(N', tr.kids) == Target(N, tr.kids);
    }
    if TransEdge(N', T, x, c, y) {
      var tr :| tr in T && tr.parent in N'.state && tr.sym in N'.sym && TargetKnown(N', tr.kids)
        && x == N'.state[tr.parent] && c == N'.sym[tr.sym] && y == Target(N', tr.kids);
      assert TargetKnown(N, tr.kids) && Target(N', tr.kids) == Target(N, tr.kids);
    }
  }

  lemma TupleEdgeStays(N: Numbering, N': Numbering, L: set<seq<State>>, x: int, c: int, y: int)
    requires KnownTuples(N, L) && NumberingGrows(N, N') && N'.sym == N.sym
    ensures TupleEdge(N', L, x, c, y) <==> TupleEdge(N, L, x, c, y)
  {
    if TupleEdge(N', L, x, c, y) {
      var l, i :| l in L && l in N'.lhs && 0 <= i < |l| && l[i] in N'.state
        && x == N'.lhs[l] && c == |N'.sym| + i && y == N'.state[l[i]];
      assert l in N.lhs && l[i] in N.state;
    }
  }

  /** The edges are those of the transitions T and of the tuples L, and what they need is known. */
  ghost predicate Complete(edges: Edges, N: Numbering, T: set<Transition>, L: set<seq<State>>) {
    EdgesAre(edges, N, T, L) && KnownTransitions(N, T) && KnownTuples(N, L)
  }

  /** A transition's edge has been added. */
  lemma TransAdded(edges: Edges, N: Numbering, N': Numbering, T: set<Transition>, tr: Transition)
    requires Complete(edges, N, T, {}) && NumberingGrows(N, N') && KnownTransitions(N', {tr})
    ensures Complete(edges + multiset{(N'.state[tr.parent], N'.sym[tr.sym], Target(N', tr.kids))}, N', T + {tr}, {})
  {
    var edges' := edges + multiset{(N'.state[tr.parent], N'.sym[tr.sym], Target(N', tr.kids))};
    forall x, c, y ensures Has(edges', x, c, y) <==> TransEdge(N', T + {tr}, x, c, y) {
      assert Has(edges', x, c, y) <==> Has(edges, x, c, y) || TransEdge(N', {tr}, x, c, y);
      assert Has(edges, x, c, y) <==> TransEdge(N, T, x, c, y);
      TransEdgeStays(N, N', T, x, c, y);
    }
    forall x | x in T ensures TargetKnown(N', x.kids) {
      assert TargetKnown(N, x.kids);
    }
  }

  /** The edges of one tuple up to position i. */
  ghost predicate TuplePart(N: Numbering, l: seq<State>, i: nat, x: int, c: int, y: int) {
    exists j :: l in N.lhs && 0 <= j < |l| && j < i && l[j] in N.state && x == N.lhs[l] && c == |N.sym| + j && y == N.state[l[j]]
  }

  /** The edges are those of all the transitions, of the tuples L, and of l up to position i. */
  ghost predicate EdgesUpTo(edges: Edges, N: Numbering, T: set<Transition>, L: set<seq<State>>, l: seq<State>, i: nat) {
    forall x, c, y {:trigger Has(edges, x, c, y)} :: Has(edges, x, c, y) <==>
      TransEdge(N, T, x, c, y) || TupleEdge(N, L, x, c, y) || TuplePart(N, l, i, x, c, y)
  }

  /** Besides, everything these edges need is known. */
  ghost predicate Progress(edges: Edges, N: Numbering, T: set<Transition>, L: set<seq<State>>, l: seq<State>, i: nat) {
    && EdgesUpTo(edges, N, T, L, l, i) && KnownTransitions(N, T) && KnownTuples(N, L)
    && i <= |l| && l in N.lhs && forall j :: 0 <= j < i ==> l[j] in N.state
  }

  lemma ComponentAdded(edges: Edges, N: Numbering, N': Numbering, T: set<Transition>, L: set<seq<State>>,
          l: seq<State>, i: nat, node: nat, symbol: nat, dest: nat)
    requires Progress(edges, N, T, L, l, i) && i < |l|
    requires NumberingGrows(N, N') && N'.sym == N.sym && l[i] in N'.state
    requires node == N'.lhs[l] && symbol == |N'.sym| + i && dest == N'.state[l[i]]
    ensures Progress(edges + multiset{(node, symbol, dest)}, N', T, L, l, i + 1)
  {
    var edges' := edges + multiset{(node, symbol, dest)};
    forall x, c, y ensures Has(edges', x, c, y) <==>
      TransEdge(N', T, x, c, y) || TupleEdge(N', L, x, c, y) || TuplePart(N', l, i + 1, x, c, y)
    {
      TransEdgeStays(N, N', T, x, c, y);
      TupleEdgeStays(N, N', L, x, c, y);
      PartStays(N, N', l, i, x, c, y);
      assert Has(edges, x, c, y) <==> TransEdge(N, T, x, c, y) || TupleEdge(N, L, x, c, y) || TuplePart(N, l, i, x, c, y);
    }
    forall x | x in T ensures TargetKnown(N', x.kids) {
      assert TargetKnown(N, x.kids);
    }
  }

  lemma PartStays(N: Numbering, N': Numbering, l: seq<State>, i: nat, x: int, c: int, y: int)
    requires NumberingGrows(N, N') && N'.sym == N.sym && l in N.lhs && i < |l| && l[i] in N'.state
    requires forall j :: 0 <= j < i ==> l[j] in N.state
    ensures TuplePart(N', l, i + 1, x, c, y) <==>
              TuplePart(N, l, i, x, c, y) || (x == N'.lhs[l] && c == |N'.sym| + i && y == N'.state[l[i]])
  {
    if TuplePart(N, l, i, x, c, y) {
      var j :| l in N.lhs && 0 <= j < |l| && j < i && l[j] in N.state && x == N.lhs[l] && c == |N.sym| + j && y == N.state[l[j]];
      assert l[j] in N'.state && y == N'.state[l[j]];
    }
    if TuplePart(N', l, i + 1, x, c, y) {
      var j :| l in N'.lhs && 0 <= j < |l| && j < i + 1 && l[j] in N'.state && x == N'.lhs[l] && c == |N'.sym| + j && y == N'.state[l[j]];
      assert j < i ==> l[j] in N.state;
    }
  }

  lemma PartStarts(edges: Edges, N: Numbering, T: set<Transition>, L: set<seq<State>>, l: seq<State>)
    requires Complete(edges, N, T, L) && l in N.lhs
    ensures Progress(edges, N, T, L, l, 0)
  {
  }

  lemma PartEnds(edges: Edges, N: Numbering, T: set<Transition>, L: set<seq<State>>, l: seq<State>)
    requires Progress(edges, N, T, L, l, |l|)
    ensures Complete(edges, N, T, L + {l})
  {
    forall x, c, y ensures TupleEdge(N, L + {l}, x, c, y) <==> TupleEdge(N, L, x, c, y) || TuplePart(N, l, |l|, x, c, y) {
      assert l in {l} && l in N.lhs;
      if TuplePart(N, l, |l|, x, c, y) {
        var j :| 0 <= j < |l| && l[j] in N.state && x == N.lhs[l] && c == |N.sym| + j && y == N.state[l[j]];
        assert l in L + {l};
      }
    }
  }

  ghost predicate Touches(edges: Edges, n: int) {
    exists e :: e in edges && (e.0 == n || e.2 == n)
  }

  /** There are no more states than at the beginning, or than the edges need. */
  ghost predicate Tight(states: nat, start: nat, edges: Edges) {
    states == start || Touches(edges, states - 1)
  }

  lemma TightMore(states: nat, start: nat, edges: Edges, x: nat, c: nat, y: nat)
    requires Tight(states, start, edges)
    ensures Tight(Max(states, Max(x, y) + 1), start, edges + multiset{(x, c, y)})
  {
    var edges' := edges + multiset{(x, c, y)};
    assert (x, c, y) in edges';
    if Touches(edges, states - 1) {
      var e :| e in edges && (e.0 == states - 1 || e.2 == states - 1);
      assert e in edges';
    }
  }

  ghost predicate Within<T>(lo: set<T>, X: set<T>, hi: set<T>) {
    lo <= X && X <= hi
  }

  ghost predicate Components(k: seq<State>, states: set<State>) {
    forall i :: 0 <= i < |k| ==> k[i] in states
  }

  // ---------------------------------------------------------------- the translation

  /** The translators and the transition system under construction. */
  class Translation {
    const stateIndex: Translator<State>
    const symbolTranslator: Translator<Symbol>
    const lhsTranslator: Translator<seq<State>>
    const result: ExplicitLTS
    const numStates: nat

    constructor (numStates: nat, stateIndex: Translator<State>)
      requires stateIndex.dict == map[] && stateIndex.next == 0
      ensures this.stateIndex == stateIndex && this.numStates == numStates
      ensures fresh(symbolTranslator) && fresh(lhsTranslator) && fresh(result)
      ensures Valid() && Num() == Numbering(map[], map[], map[]) && result.edges == multiset{} && result.states == numStates
    {
      this.stateIndex, this.numStates := stateIndex, numStates;
      symbolTranslator := new Translator<Symbol>(map[], 0);
      lhsTranslator := new Translator<seq<State>>(map[], numStates);
      result := new ExplicitLTS(numStates);
    }

    ghost predicate Valid()
      reads stateIndex, symbolTranslator, lhsTranslator, result
    {
      Numbered() && result.Valid() && numStates <= result.states
    }

    ghost predicate Numbered()
      reads stateIndex, symbolTranslator, lhsTranslator
    {
      && stateIndex != symbolTranslator
      && stateIndex.Numbers(0) && symbolTranslator.Numbers(0) && lhsTranslator.Numbers(numStates)
    }

    ghost function Num(): Numbering
      reads stateIndex, symbolTranslator, lhsTranslator
    {
      Numbering(stateIndex.dict, symbolTranslator.dict, lhsTranslator.dict)
    }

    method NumberState(q: State) returns (n: nat)
      requires Numbered()
      modifies stateIndex
      ensures Numbered() && GrowsTo(old(Num().state), Num().state, q)
      ensures n == Num().state[q]
    {
      n := stateIndex.Translate(q);
    }

    method NumberSymbol(a: Symbol) returns (n: nat)
      requires Numbered()
      modifies symbolTranslator
      ensures Numbered() && GrowsTo(old(Num().sym), Num().sym, a)
      ensures n == Num().sym[a]
    {
      n := symbolTranslator.Translate(a);
    }

    method NumberTuple(k: seq<State>) returns (n: nat)
      requires Numbered()
      modifies lhsTranslator
      ensures Numbered() && GrowsTo(old(Num().lhs), Num().lhs, k)
      ensures n == Num().lhs[k]
    {
      n := lhsTranslator.Translate(k);
    }

    /** The numbers of a transition: a single child is the target itself, other tuples are nodes. */
    method NumberTransition(tr: Transition) returns (state: nat, symbol: nat, dest: nat)
      requires Numbered()
      modifies stateIndex, symbolTranslator, lhsTranslator
      ensures Numbered() && NumberingGrows(old(Num()), Num()) && KnownTransitions(Num(), {tr})
      ensures state == Num().state[tr.parent] && symbol == Num().sym[tr.sym] && dest == Target(Num(), tr.kids)
      ensures stateIndex.dict.Keys == old(stateIndex.dict.Keys) + {tr.parent} + if |tr.kids| == 1 then {tr.kids[0]} else {}
      ensures lhsTranslator.dict.Keys == old(lhsTranslator.dict.Keys) + if |tr.kids| == 1 then {} else {tr.kids}
      ensures symbolTranslator.dict.Keys == old(symbolTranslator.dict.Keys) + {tr.sym}
    {
      state := NumberState(tr.parent);
      symbol := NumberSymbol(tr.sym);
      if |tr.kids| == 1 {
        dest := NumberState(tr.kids[0]);
      } else {
        dest := NumberTuple(tr.kids);
      }
    }

    method AddEdge(x: nat, c: nat, y: nat)
      requires result.Valid() && numStates <= result.states && Tight(result.states, numStates, result.edges)
      modifies result
      ensures result.Valid() && numStates <= result.states && Tight(result.states, numStates, result.edges)
      ensures result.edges == old(result.edges) + multiset{(x, c, y)}
    {
      TightMore(result.states, numStates, result.edges, x, c, y);
      result.AddTransition(x, c, y);
    }

    /** Adds the edge of one transition. */
    method AddTransition(tr: Transition, ghost T: set<Transition>)
      requires Valid() && Complete(result.edges, Num(), T, {}) && Tight(result.states, numStates, result.edges)
      modifies stateIndex, symbolTranslator, lhsTranslator, result
      ensures Valid() && Complete(result.edges, Num(), T + {tr}, {}) && Tight(result.states, numStates, result.edges)
      ensures stateIndex.dict.Keys == old(stateIndex.dict.Keys) + {tr.parent} + if |tr.kids| == 1 then {tr.kids[0]} else {}
      ensures lhsTranslator.dict.Keys == old(lhsTranslator.dict.Keys) + if |tr.kids| == 1 then {} else {tr.kids}
      ensures symbolTranslator.dict.Keys == old(symbolTranslator.dict.Keys) + {tr.sym} && MapGrows(old(Num().state), Num().state)
    {
      ghost var N, edges := Num(), result.edges;
      var state, symbol, dest := NumberTransition(tr);
      TransAdded(edges, N, Num(), T, tr);
      AddEdge(state, symbol, dest);
    }

    method AddComponent(l: seq<State>, i: nat, ghost T: set<Transition>, ghost L: set<seq<State>>)
      requires Valid() && Progress(result.edges, Num(), T, L, l, i) && i < |l| && Tight(result.states, numStates, result.edges)
      modifies stateIndex, result
      ensures Valid() && Progress(result.edges, Num(), T, L, l, i + 1) && Tight(result.states, numStates, result.edges)
      ensures stateIndex.dict.Keys == old(stateIndex.dict.Keys) + {l[i]} && MapGrows(old(Num().state), Num().state)
    {
      ghost var N, edges := Num(), result.edges;
      var dest := NumberState(l[i]);
      var node, symbol := lhsTranslator.dict[l], |symbolTranslator.dict| + i;
      ComponentAdded(edges, N, Num(), T, L, l, i, node, symbol, dest);
      AddEdge(node, symbol, dest);
    }

    /** Adds the edges from the node of a tuple to the components. */
    method AddTuple(l: seq<State>, ghost T: set<Transition>, ghost L: set<seq<State>>, ghost states: set<State>)
      requires Valid() && Complete(result.edges, Num(), T, L) && Tight(result.states, numStates, result.edges)
      requires l in lhsTranslator.dict && Num().state.Keys <= states && Components(l, states)
      modifies stateIndex, result
      ensures Valid() && Complete(result.edges, Num(), T, L + {l}) && Tight(result.states, numStates, result.edges)
      ensures Within(old(Num().state.Keys), Num().state.Keys, states) && MapGrows(old(Num().state), Num().state)
    {
      PartStarts(result.edges, Num(), T, L, l);
      var i := 0;
      while i < |l|
        invariant 0 <= i <= |l| && Valid() && Progress(result.edges, Num(), T, L, l, i) && Tight(result.states, numStates, result.edges)
        invariant Within(old(Num().state.Keys), Num().state.Keys, states) && MapGrows(old(Num().state), Num().state)
      {
        AddComponent(l, i, T, L);
        i := i + 1;
      }
      PartEnds(result.edges, Num(), T, L, l);
    }
  }

  /** The tuples of T that become nodes. */
  ghost function NodeTuples(T: set<Transition>): set<seq<State>> {
    set tr | tr in T && |tr.kids| != 1 :: tr.kids
  }

  /** The final states have the first numbers. */
  ghost predicate FinalsFirst(A: Aut, state: map<State, nat>) {
    A.finals <= state.Keys && forall q {:trigger state[q]} :: q in A.finals ==> state[q] < |A.finals|
  }

  method AddFinals(t: Translation, A: Aut)
    requires t.Valid() && t.Num() == Numbering(map[], map[], map[])
    modifies t.stateIndex
    ensures t.Valid() && t.Num().state.Keys == A.finals && t.Num().sym == map[] && t.Num().lhs == map[]
    ensures FinalsFirst(A, t.Num().state)
  {
    var todo := A.finals;
    while todo != {}
      invariant todo <= A.finals && t.Valid() && t.Num().state.Keys == A.finals - todo
      invariant t.Num().sym == map[] && t.Num().lhs == map[]
      decreases todo
    {
      var q :| q in todo;
      todo := todo - {q};
      var _ := t.NumberState(q);
    }
    FinalsCounted(t, A);
  }

  lemma FinalsCounted(t: Translation, A: Aut)
    requires t.Numbered() && t.stateIndex.dict.Keys == A.finals
    ensures FinalsFirst(A, t.stateIndex.dict)
  {
    t.stateIndex.NextIsSize();
    assert |t.stateIndex.dict| == |t.stateIndex.dict.Keys|;
  }

  lemma StillFirst(A: Aut, m: map<State, nat>, m': map<State, nat>)
    requires FinalsFirst(A, m) && MapGrows(m, m')
    ensures FinalsFirst(A, m')
  {
  }

  /** What is numbered belongs to the automaton, and final states have the first numbers. */
  ghost predicate Inside(A: Aut, N: Numbering, states: set<State>, nodes: set<seq<State>>) {
    && Within(A.finals, N.state.Keys, states) && N.lhs.Keys <= nodes && N.sym.Keys <= SymbolsOf(A.trans)
    && FinalsFirst(A, N.state)
  }

  lemma InsideMore(A: Aut, N: Numbering, N': Numbering, states: set<State>, nodes: set<seq<State>>, tr: Transition)
    requires Inside(A, N, states, nodes) && tr in A.trans && Bounded(tr, states, nodes) && MapGrows(N.state, N'.state)
    requires N'.state.Keys == N.state.Keys + {tr.parent} + if |tr.kids| == 1 then {tr.kids[0]} else {}
    requires N'.lhs.Keys == N.lhs.Keys + if |tr.kids| == 1 then {} else {tr.kids}
    requires N'.sym.Keys == N.sym.Keys + {tr.sym}
    ensures Inside(A, N', states, nodes)
  {
    StillFirst(A, N.state, N'.state);
    StatesWithin(A, N.state.Keys, N'.state.Keys, states, nodes, tr);
    assert tr.sym in SymbolsOf(A.trans);
  }

  lemma StatesWithin(A: Aut, known: set<State>, known': set<State>, states: set<State>, nodes: set<seq<State>>, tr: Transition)
    requires Within(A.finals, known, states) && Bounded(tr, states, nodes)
    requires known' == known + {tr.parent} + if |tr.kids| == 1 then {tr.kids[0]} else {}
    ensures Within(A.finals, known', states)
  {
  }

  method AddTransitions(t: Translation, A: Aut, ghost states: set<State>, ghost nodes: set<seq<State>>)
    requires t.Valid() && Inside(A, t.Num(), states, nodes) && t.Num().sym == map[] && t.Num().lhs == map[]
    requires t.result.edges == multiset{} && t.result.states == t.numStates && forall tr :: tr in A.trans ==> Bounded(tr, states, nodes)
    modifies t.stateIndex, t.symbolTranslator, t.lhsTranslator, t.result
    ensures t.Valid() && Complete(t.result.edges, t.Num(), A.trans, {}) && Inside(A, t.Num(), states, nodes)
    ensures Tight(t.result.states, t.numStates, t.result.edges)
  {
    var todo := A.trans;
    assert A.trans - todo == {};
    while todo != {}
      invariant todo <= A.trans && t.Valid() && Complete(t.result.edges, t.Num(), A.trans - todo, {})
      invariant Inside(A, t.Num(), states, nodes) && Tight(t.result.states, t.numStates, t.result.edges)
      decreases todo
    {
      var tr :| tr in todo;
      AddNext(t, A, tr, A.trans - todo, states, nodes);
      assert A.trans - (todo - {tr}) == A.trans - todo + {tr};
      todo := todo - {tr};
    }
    assert A.trans - todo == A.trans;
  }

  method AddNext(t: Translation, ghost A: Aut, tr: Transition, ghost T: set<Transition>, ghost states: set<State>, ghost nodes: set<seq<State>>)
    requires t.Valid() && Complete(t.result.edges, t.Num(), T, {}) && Inside(A, t.Num(), states, nodes)
    requires tr in A.trans && Bounded(tr, states, nodes) && Tight(t.result.states, t.numStates, t.result.edges)
    modifies t.stateIndex, t.symbolTranslator, t.lhsTranslator, t.result
    ensures t.Valid() && Complete(t.result.edges, t.Num(), T + {tr}, {}) && Inside(A, t.Num(), states, nodes)
    ensures Tight(t.result.states, t.numStates, t.result.edges)
  {
    ghost var N := t.Num();
    t.AddTransition(tr, T);
    InsideMore(A, N, t.Num(), states, nodes, tr);
  }

  /** The states that the transition makes known lie in states, and its node in nodes. */
  ghost predicate Bounded(tr: Transition, states: set<State>, nodes: set<seq<State>>) {
    tr.parent in states && if |tr.kids| == 1 then tr.kids[0] in states else tr.kids in nodes
  }

  lemma AllBounded(A: Aut)
    ensures forall tr :: tr in A.trans ==> Bounded(tr, A.States(), NodeTuples(A.trans))
    ensures forall k :: k in NodeTuples(A.trans) ==> Components(k, A.States())
    ensures A.finals <= A.States()
  {
    forall tr | tr in A.trans ensures Components(tr.kids, A.States()) && Bounded(tr, A.States(), NodeTuples(A.trans)) {
      TransitionStates(A, tr);
      assert forall i :: 0 <= i < |tr.kids| ==> tr.kids[i] in SetOf(tr.kids);
    }
  }

  /** Decomposes the tuples that became nodes. */
  method AddTuples(t: Translation, ghost T: set<Transition>, ghost states: set<State>)
    requires t.Valid() && Complete(t.result.edges, t.Num(), T, {}) && Tight(t.result.states, t.numStates, t.result.edges)
    requires t.Num().state.Keys <= states && forall k :: k in t.Num().lhs ==> Components(k, states)
    modifies t.stateIndex, t.result
    ensures t.Valid() && Complete(t.result.edges, t.Num(), T, t.Num().lhs.Keys)
    ensures Within(old(t.Num().state.Keys), t.Num().state.Keys, states) && t.Num().lhs == old(t.Num().lhs)
    ensures MapGrows(old(t.Num().state), t.Num().state) && t.Num().sym == old(t.Num().sym) && Tight(t.result.states, t.numStates, t.result.edges)
  {
    ghost var before := t.Num().state.Keys;
    var tuples := t.lhsTranslator.dict.Keys;
    var todo := tuples;
    while todo != {}
      invariant todo <= tuples && t.Valid() && Complete(t.result.edges, t.Num(), T, tuples - todo)
      invariant Within(before, t.Num().state.Keys, states) && MapGrows(old(t.Num().state), t.Num().state) && Tight(t.result.states, t.numStates, t.result.edges)
      decreases todo
    {
      var k :| k in todo;
      t.AddTuple(k, T, tuples - todo, states);
      assert tuples - (todo - {k}) == tuples - todo + {k};
      todo := todo - {k};
    }
    assert tuples - todo == tuples;
  }

  /** All states have numbers. */
  lemma AllNumbered(A: Aut, edges: Edges, N: Numbering)
    requires Complete(edges, N, A.trans, N.lhs.Keys) && A.finals <= N.state.Keys <= A.States()
    ensures N.state.Keys == A.States()
  {
    forall tr | tr in A.trans ensures tr.parent in N.state && Components(tr.kids, N.state.Keys) {
      assert TargetKnown(N, tr.kids);
      assert |tr.kids| != 1 ==> tr.kids in N.lhs.Keys;
    }
    StatesInside(A, N.state.Keys);
  }

  lemma StatesInside(A: Aut, states: set<State>)
    requires A.finals <= states && forall tr :: tr in A.trans ==> tr.parent in states && Components(tr.kids, states)
    ensures A.States() <= states
  {
  }

  lemma EncodingComplete(A: Aut, n: nat, N: Numbering, lhsCnt: nat, edges: Edges, l: Lts)
    requires Complete(edges, N, A.trans, N.lhs.Keys)
    requires N.state.Keys == A.States() && N.lhs.Keys <= NodeTuples(A.trans) && n <= l.states && l.Valid()
    requires OneToOne(N.state, 0, n) && OneToOne(N.sym, 0, |N.sym|) && OneToOne(N.lhs, n, lhsCnt)
    requires forall q, a, r :: l.Edge(q, a, r) <==> q >= 0 && a >= 0 && r >= 0 && (q, a, r) in edges
    ensures Encodes(A, n, N, lhsCnt, l)
  {
    forall x, c, y ensures l.Edge(x, c, y) <==> TransEdge(N, A.trans, x, c, y) || TupleEdge(N, N.lhs.Keys, x, c, y) {
      assert l.Edge(x, c, y) <==> Has(edges, x, c, y);
    }
    forall k | k in N.lhs ensures N.lhs[k] < l.states && |k| != 1 {
      var tr :| tr in A.trans && |tr.kids| != 1 && tr.kids == k;
      var x, c := N.state[tr.parent], N.sym[tr.sym];
      assert TransEdge(N, A.trans, x, c, N.lhs[k]);
      assert l.Edge(x, c, N.lhs[k]);
    }
  }

  lemma NumbersFit(t: Translation, A: Aut)
    requires t.Valid() && t.Num().state.Keys == A.States() && |A.States()| <= t.numStates
    ensures OneToOne(t.Num().state, 0, t.numStates) && OneToOne(t.Num().sym, 0, |t.Num().sym|)
    ensures OneToOne(t.Num().lhs, t.numStates, t.lhsTranslator.next)
  {
    t.stateIndex.NextIsSize();
    t.symbolTranslator.NextIsSize();
    assert |t.stateIndex.dict| == |t.stateIndex.dict.Keys|;
  }

  method AddAll(t: Translation, A: Aut)
    requires t.Valid() && t.Num() == Numbering(map[], map[], map[]) && t.result.edges == multiset{} && t.result.states == t.numStates
    modifies t.stateIndex, t.symbolTranslator, t.lhsTranslator, t.result
    ensures t.Valid() && Complete(t.result.edges, t.Num(), A.trans, t.Num().lhs.Keys)
    ensures A.finals <= t.Num().state.Keys <= A.States() && t.Num().lhs.Keys <= NodeTuples(A.trans)
    ensures t.Num().sym.Keys <= SymbolsOf(A.trans) && FinalsFirst(A, t.Num().state) && Tight(t.result.states, t.numStates, t.result.edges)
  {
    AddFinals(t, A);
    AllBounded(A);
    AddTransitions(t, A, A.States(), NodeTuples(A.trans));
    ghost var before := t.Num().state;
    AddTuples(t, A.trans, A.States());
    StillFirst(A, before, t.Num().state);
  }

  /** Nothing else than what the transitions have is numbered, and there are no other states. */
  ghost predicate NothingElse(A: Aut, numStates: nat, N: Numbering, lhsCnt: nat, l: Lts) {
    && N.lhs.Keys == NodeTuples(A.trans) && N.sym.Keys == SymbolsOf(A.trans)
    && lhsCnt == numStates + |NodeTuples(A.trans)| && l.states == lhsCnt
  }

  lemma NodesCounted(t: Translation, A: Aut)
    requires t.Valid() && Complete(t.result.edges, t.Num(), A.trans, t.Num().lhs.Keys)
    requires t.Num().lhs.Keys <= NodeTuples(A.trans) && t.Num().sym.Keys <= SymbolsOf(A.trans)
    ensures t.Num().lhs.Keys == NodeTuples(A.trans) && t.Num().sym.Keys == SymbolsOf(A.trans)
    ensures t.lhsTranslator.next == t.numStates + |NodeTuples(A.trans)|
  {
    forall tr | tr in A.trans ensures tr.sym in t.Num().sym && (|tr.kids| != 1 ==> tr.kids in t.Num().lhs) {
      assert TargetKnown(t.Num(), tr.kids);
    }
    RangeSize(t.lhsTranslator.dict, t.numStates, t.lhsTranslator.next);
  }

  /** The numbers from lo on, given one to one, are as many as the things numbered. */
  lemma RangeSize(m: map<seq<State>, nat>, lo: nat, hi: nat)
    requires lo <= hi && OneToOne(m, lo, hi) && forall n :: lo <= n < hi ==> n in m.Values
    ensures hi == lo + |m.Keys|
  {
    NumbersUsed(m, m.Keys);
    var used := Used(m, m.Keys);
    assert used == Below(hi) - Below(lo) by {
      forall n: nat | lo <= n < hi ensures n in used {
        assert n in m.Values;
      }
    }
    assert Below(hi) == (Below(hi) - Below(lo)) + Below(lo);
  }

  /** Edges lead to numbers given, so there are no more states than these. */
  lemma StatesCounted(A: Aut, n: nat, N: Numbering, lhsCnt: nat, edges: Edges, l: Lts)
    requires Encodes(A, n, N, lhsCnt, l) && n <= lhsCnt && Tight(l.states, n, edges)
    requires forall q, a, r :: l.Edge(q, a, r) <==> q >= 0 && a >= 0 && r >= 0 && (q, a, r) in edges
    ensures l.states <= lhsCnt
  {
    if l.states != n {
      var e :| e in edges && (e.0 == l.states - 1 || e.2 == l.states - 1);
      assert l.Edge(e.0, e.1, e.2);
      EdgeBelow(A, n, N, lhsCnt, l, e.0, e.1, e.2);
    }
  }

  lemma EdgeBelow(A: Aut, n: nat, N: Numbering, lhsCnt: nat, l: Lts, x: int, c: int, y: int)
    requires Encodes(A, n, N, lhsCnt, l) && n <= lhsCnt && l.Edge(x, c, y)
    ensures x < lhsCnt && y < lhsCnt
  {
    if TransEdge(N, A.trans, x, c, y) {
      var tr :| tr in A.trans && tr.parent in N.state && tr.sym in N.sym && TargetKnown(N, tr.kids)
        && x == N.state[tr.parent] && c == N.sym[tr.sym] && y == Target(N, tr.kids);
    }
  }

  /** All numbers of tuples are states. */
  lemma NodesThere(A: Aut, n: nat, N: Numbering, lhsCnt: nat, l: Lts)
    requires Encodes(A, n, N, lhsCnt, l) && lhsCnt == n + |N.lhs.Keys|
    ensures lhsCnt <= l.states
  {
    RangeRoom(N.lhs, n, l.states);
  }

  lemma RangeRoom(m: map<seq<State>, nat>, lo: nat, hi: nat)
    requires lo <= hi && OneToOne(m, lo, hi)
    ensures lo + |m.Keys| <= hi
  {
    NumbersUsed(m, m.Keys);
    var used := Used(m, m.Keys);
    assert used <= Below(hi) - Below(lo);
    SubsetSize(used, Below(hi) - Below(lo));
    assert Below(hi) == (Below(hi) - Below(lo)) + Below(lo);
  }

  method Finish(result: ExplicitLTS, ghost A: Aut, ghost n: nat, ghost N: Numbering, ghost lhsCnt: nat) returns (l: Lts)
    requires result.Valid() && n <= result.states && Complete(result.edges, N, A.trans, N.lhs.Keys) && Tight(result.states, n, result.edges)
    requires N.state.Keys == A.States() && N.lhs.Keys == NodeTuples(A.trans) && N.sym.Keys == SymbolsOf(A.trans)
    requires OneToOne(N.state, 0, n) && OneToOne(N.sym, 0, |N.sym|) && OneToOne(N.lhs, n, lhsCnt) && lhsCnt == n + |NodeTuples(A.trans)|
    modifies result
    ensures l.Valid() && Encodes(A, n, N, lhsCnt, l) && NothingElse(A, n, N, lhsCnt, l)
  {
    ghost var edges := result.edges;
    l := result.Init();
    SystemComplete(A, n, N, lhsCnt, edges, l);
  }

  lemma AllCounted(t: Translation, A: Aut)
    requires t.Valid() && Complete(t.result.edges, t.Num(), A.trans, t.Num().lhs.Keys)
    requires A.finals <= t.Num().state.Keys <= A.States() && t.Num().lhs.Keys <= NodeTuples(A.trans) && |A.States()| <= t.numStates
    requires t.Num().sym.Keys <= SymbolsOf(A.trans)
    ensures t.Num().state.Keys == A.States() && t.Num().lhs.Keys == NodeTuples(A.trans) && t.Num().sym.Keys == SymbolsOf(A.trans)
    ensures t.lhsTranslator.next == t.numStates + |NodeTuples(A.trans)|
    ensures OneToOne(t.Num().state, 0, t.numStates) && OneToOne(t.Num().sym, 0, |t.Num().sym|)
    ensures OneToOne(t.Num().lhs, t.numStates, t.lhsTranslator.next)
  {
    AllNumbered(A, t.result.edges, t.Num());
    NumbersFit(t, A);
    NodesCounted(t, A);
  }

  lemma SystemComplete(A: Aut, n: nat, N: Numbering, lhsCnt: nat, edges: Edges, l: Lts)
    requires Complete(edges, N, A.trans, N.lhs.Keys) && Tight(l.states, n, edges)
    requires N.state.Keys == A.States() && N.lhs.Keys == NodeTuples(A.trans) && N.sym.Keys == SymbolsOf(A.trans)
    requires n <= l.states && l.Valid() && lhsCnt == n + |NodeTuples(A.trans)|
    requires OneToOne(N.state, 0, n) && OneToOne(N.sym, 0, |N.sym|) && OneToOne(N.lhs, n, lhsCnt)
    requires forall q, a, r :: l.Edge(q, a, r) <==> q >= 0 && a >= 0 && r >= 0 && (q, a, r) in edges
    ensures Encodes(A, n, N, lhsCnt, l) && NothingElse(A, n, N, lhsCnt, l)
  {
    EncodingComplete(A, n, N, lhsCnt, edges, l);
    StatesCounted(A, n, N, lhsCnt, edges, l);
    NodesThere(A, n, N, lhsCnt, l);
  }

  method AddCounted(t: Translation, A: Aut) returns (ghost N: Numbering, ghost lhsCnt: nat)
    requires t.Valid() && t.Num() == Numbering(map[], map[], map[]) && t.result.edges == multiset{} && t.result.states == t.numStates
    requires |A.States()| <= t.numStates
    modifies t.stateIndex, t.symbolTranslator, t.lhsTranslator, t.result
    ensures t.result.Valid() && t.numStates <= t.result.states && Complete(t.result.edges, N, A.trans, N.lhs.Keys)
    ensures Tight(t.result.states, t.numStates, t.result.edges) && FinalsFirst(A, N.state) && N.state == t.stateIndex.dict
    ensures N.state.Keys == A.States() && N.lhs.Keys == NodeTuples(A.trans) && N.sym.Keys == SymbolsOf(A.trans)
    ensures OneToOne(N.state, 0, t.numStates) && OneToOne(N.sym, 0, |N.sym|) && OneToOne(N.lhs, t.numStates, lhsCnt)
    ensures lhsCnt == t.numStates + |NodeTuples(A.trans)|
  {
    AddAll(t, A);
    N, lhsCnt := t.Num(), t.lhsTranslator.next;
    AllCounted(t, A);
  }

  /** Translates an automaton. The states are numbered in the order in which they are met. */
  method TranslateDownward(A: Aut, numStates: nat, stateIndex: Translator<State>) returns (l: Lts,
          ghost N: Numbering, ghost lhsCnt: nat)
    requires stateIndex.dict == map[] && stateIndex.next == 0 && |A.States()| <= numStates
    modifies stateIndex
    ensures l.Valid() && Encodes(A, numStates, N, lhsCnt, l) && N.state == stateIndex.dict
    ensures NothingElse(A, numStates, N, lhsCnt, l) && FinalsFirst(A, N.state)
  {
    var t := new Translation(numStates, stateIndex);
    N, lhsCnt := AddCounted(t, A);
    l := Finish(t.result, A, numStates, N, lhsCnt);
  }
}
