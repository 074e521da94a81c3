/** Downward simulation on the states of a tree automaton, and its encoding into a transition
    system whose states are the states of the automaton and the tuples of its transitions. */
module DownSim {
  import opened Collections
  import opened Lts
  import opened TreeAutomata

  ghost predicate RelatedAll(D: Relation, ps: seq<State>, qs: seq<State>) {
    |ps| == |qs| && forall i :: 0 <= i < |ps| ==> In(ps[i], qs[i], D)
  }

  /** Some transition of q with the same symbol has bigger children. */
  ghost predicate Matched(A: Aut, D: Relation, tr: Transition, q: State) {
    exists tr' :: tr' in A.trans && tr'.parent == q && tr'.sym == tr.sym && RelatedAll(D, tr.kids, tr'.kids)
  }

  ghost predicate DownwardSimulation(A: Aut, D: Relation) {
    && (forall p: State, q: State :: In(p, q, D) ==> p in A.States() && q in A.States())
    && (forall tr, q: State {:trigger Matched(A, D, tr, q)} :: tr in A.trans && In(tr.parent, q, D) ==> Matched(A, D, tr, q))
  }

  /** q simulates p downward. */
  ghost predicate Similar(A: Aut, p: State, q: State) {
    exists D :: DownwardSimulation(A, D) && In(p, q, D)
  }

  lemma SimulatedAccepts(A: Aut, D: Relation, p: State, q: State, t: Tree)
    requires DownwardSimulation(A, D) && In(p, q, D) && A.Accepts(p, t)
    ensures A.Accepts(q, t)
    decreases t
  {
    A.Unfold(p, t);
    var tr :| A.Step(tr, p, t);
    assert Matched(A, D, tr, q);
    var tr' :| tr' in A.trans && tr'.parent == q && tr'.sym == tr.sym && RelatedAll(D, tr.kids, tr'.kids);
    forall i | 0 <= i < |t.kids| ensures A.Accepts(tr'.kids[i], t.kids[i]) {
      SimulatedAccepts(A, D, tr.kids[i], tr'.kids[i], t.kids[i]);
    }
    assert A.Step(tr', q, t);
    A.Unfold(q, t);
  }

  /** A bigger state accepts at least the same trees. */
  lemma SimilarAccepts(A: Aut, p: State, q: State, t: Tree)
    requires Similar(A, p, q) && A.Accepts(p, t)
    ensures A.Accepts(q, t)
  {
    var D :| DownwardSimulation(A, D) && In(p, q, D);
    SimulatedAccepts(A, D, p, q, t);
  }

  lemma SimilarReflexive(A: Aut, q: State)
    requires q in A.States()
    ensures Similar(A, q, q)
  {
    var D: Relation := set s | s in A.States() :: (s, s);
    forall tr, r: State | tr in A.trans && In(tr.parent, r, D) ensures Matched(A, D, tr, r) {
      TransitionStates(A, tr);
      forall i | 0 <= i < |tr.kids| ensures In(tr.kids[i], tr.kids[i], D) {
        assert tr.kids[i] in SetOf(tr.kids);
      }
      assert RelatedAll(D, tr.kids, tr.kids);
    }
    assert DownwardSimulation(A, D) && In(q, q, D);
  }

  ghost predicate Through(D: Relation, E: Relation, p: State, r: State) {
    exists q: State :: In(p, q, D) && In(q, r, E)
  }

  lemma SimilarTransitive(A: Aut, p: State, q: State, r: State)
    requires Similar(A, p, q) && Similar(A, q, r)
    ensures Similar(A, p, r)
  {
    var D :| DownwardSimulation(A, D) && In(p, q, D);
    var E :| DownwardSimulation(A, E) && In(q, r, E);
    var DE: Relation := set x, y | x in A.States() && y in A.States() && Through(D, E, x, y) :: (x, y);
    assert In(p, r, DE) by { assert Through(D, E, p, r); }
    forall tr, y: State | tr in A.trans && In(tr.parent, y, DE) ensures Matched(A, DE, tr, y) {
      assert Through(D, E, tr.parent, y);
      var x: State :| In(tr.parent, x, D) && In(x, y, E);
      MatchedTwice(A, D, E, DE, tr, x, y);
    }
    assert DownwardSimulation(A, DE);
  }

  lemma MatchedTwice(A: Aut, D: Relation, E: Relation, DE: Relation, tr: Transition, x: State, y: State)
    requires DownwardSimulation(A, D) && DownwardSimulation(A, E) && tr in A.trans && In(tr.parent, x, D) && In(x, y, E)
    requires forall u: State, v: State :: u in A.States() && v in A.States() && Through(D, E, u, v) ==> In(u, v, DE)
    ensures Matched(A, DE, tr, y)
  {
    assert Matched(A, D, tr, x);
    var tr1 :| tr1 in A.trans && tr1.parent == x && tr1.sym == tr.sym && RelatedAll(D, tr.kids, tr1.kids);
    assert Matched(A, E, tr1, y);
    var tr2 :| tr2 in A.trans && tr2.parent == y && tr2.sym == tr1.sym && RelatedAll(E, tr1.kids, tr2.kids);
    forall i | 0 <= i < |tr.kids| ensures In(tr.kids[i], tr2.kids[i], DE) {
      assert In(tr.kids[i], tr1.kids[i], D) && In(tr1.kids[i], tr2.kids[i], E);
      assert Through(D, E, tr.kids[i], tr2.kids[i]);
    }
    assert RelatedAll(DE, tr.kids, tr2.kids);
  }

  // ---------------------------------------------------------------- the encoding

  /** The numbers of the states, of the symbols and of the tuples. */
  datatype Numbering = Numbering(state: map<State, nat>, sym: map<Symbol, nat>, lhs: map<seq<State>, nat>)

  ghost function SymbolsOf(T: set<Transition>): set<Symbol> {
    set tr | tr in T :: tr.sym
  }

  ghost predicate OneToOne<T(!new)>(m: map<T, nat>, lo: nat, hi: nat) {
    && (forall x :: x in m ==> lo <= m[x] < hi)
    && (forall x, y :: x in m && y in m && m[x] == m[y] ==> x == y)
  }

  /** Everything in T has a number: states below n, tuples of other lengths than one from n on. */
  ghost predicate Covers(N: Numbering, n: nat, lhsCnt: nat, T: set<Transition>) {
    && OneToOne(N.state, 0, n) && OneToOne(N.sym, 0, |N.sym|) && OneToOne(N.lhs, n, lhsCnt)
    && (forall tr {:trigger tr in T} :: tr in T ==> tr.parent in N.state && tr.sym in N.sym && TargetKnown(N, tr.kids))
  }

  /** A tuple of one state is represented by the state itself. */
  ghost predicate TargetKnown(N: Numbering, kids: seq<State>) {
    if |kids| == 1 then kids[0] in N.state else kids in N.lhs
  }

  function Target(N: Numbering, kids: seq<State>): nat
    requires TargetKnown(N, kids)
  {
    if |kids| == 1 then N.state[kids[0]] else N.lhs[kids]
  }

  /** The edge of a transition. */
  ghost predicate TransEdge(N: Numbering, T: set<Transition>, x: int, c: int, y: int) {
    exists tr :: tr in T && tr.parent in N.state && tr.sym in N.sym && TargetKnown(N, tr.kids)
      && x == N.state[tr.parent] && c == N.sym[tr.sym] && y == Target(N, tr.kids)
  }

  /** The edge from a tuple to its component at one position. */
  ghost predicate TupleEdge(N: Numbering, L: set<seq<State>>, x: int, c: int, y: int) {
    exists l, i :: l in L && l in N.lhs && 0 <= i < |l| && l[i] in N.state
      && x == N.lhs[l] && c == |N.sym| + i && y == N.state[l[i]]
  }

  ghost predicate Encodes(A: Aut, n: nat, N: Numbering, lhsCnt: nat, l: Lts) {
    && Covers(N, n, lhsCnt, A.trans) && N.state.Keys == A.States()
    && (forall k :: k in N.lhs ==> |k| != 1 && forall i :: 0 <= i < |k| ==> k[i] in N.state)
    && n <= l.states
    && (forall q :: q in N.state ==> N.state[q] < l.states) && (forall k :: k in N.lhs ==> N.lhs[k] < l.states)
    && (forall x, c, y :: l.Edge(x, c, y) <==> TransEdge(N, A.trans, x, c, y) || TupleEdge(N, N.lhs.Keys, x, c, y))
  }

  /** What the relation on the transition system says about states. */
  ghost function OnStates(A: Aut, N: Numbering, G: Relation): (D: Relation)
    requires N.state.Keys == A.States()
    ensures forall p: State, q: State :: In(p, q, D) <==> p in N.state && q in N.state && In(N.state[p], N.state[q], G)
  {
    set p, q | p in A.States() && q in A.States() && In(N.state[p], N.state[q], G) :: (p, q)
  }

  /** From a state, the edges are those of its transitions. */
  lemma StateEdge(A: Aut, n: nat, N: Numbering, lhsCnt: nat, l: Lts, q: State, c: nat, y: nat) returns (tr: Transition)
    requires Encodes(A, n, N, lhsCnt, l) && q in N.state && l.Edge(N.state[q], c, y)
    ensures tr in A.trans && tr.parent == q && c == N.sym[tr.sym] && y == Target(N, tr.kids)
  {
    assert !TupleEdge(N, N.lhs.Keys, N.state[q], c, y);
    tr :| tr in A.trans && tr.parent in N.state && tr.sym in N.sym && TargetKnown(N, tr.kids)
      && N.state[q] == N.state[tr.parent] && c == N.sym[tr.sym] && y == Target(N, tr.kids);
  }

  /** From a tuple, the edges are those to its components. */
  lemma ComponentEdge(A: Aut, n: nat, N: Numbering, lhsCnt: nat, l: Lts, k: seq<State>, c: nat, y: nat) returns (i: nat)
    requires Encodes(A, n, N, lhsCnt, l) && k in N.lhs && l.Edge(N.lhs[k], c, y)
    ensures i < |k| && k[i] in N.state && c == |N.sym| + i && y == N.state[k[i]]
  {
    assert !TransEdge(N, A.trans, N.lhs[k], c, y);
    var k' :| k' in N.lhs.Keys && N.lhs[k] == N.lhs[k'] && exists i :: 0 <= i < |k'| && k'[i] in N.state && c == |N.sym| + i && y == N.state[k'[i]];
    i :| 0 <= i < |k'| && k'[i] in N.state && c == |N.sym| + i && y == N.state[k'[i]];
  }

  /** A simulation of the transition system is a downward simulation on the states. */
  lemma RestrictedIsDownward(A: Aut, rank: Symbol -> nat, n: nat, N: Numbering, lhsCnt: nat, l: Lts, G: Relation)
    requires Encodes(A, n, N, lhsCnt, l) && Ranked(A.trans, rank) && l.Simulation(G)
    ensures DownwardSimulation(A, OnStates(A, N, G))
  {
    var D := OnStates(A, N, G);
    forall tr, q: State | tr in A.trans && In(tr.parent, q, D) ensures Matched(A, D, tr, q) {
      var tr' := AnsweringTransition(A, n, N, lhsCnt, l, G, tr, q);
      assert |tr.kids| == rank(tr.sym) == |tr'.kids|;
      if |tr.kids| != 1 {
        NodesRelate(A, n, N, lhsCnt, l, G, tr.kids, tr'.kids);
      } else {
        SingleRelates(A, N, G, tr.kids, tr'.kids);
      }
    }
  }

  /** The move by which the bigger state answers a transition is a transition with the same symbol. */
  lemma AnsweringTransition(A: Aut, n: nat, N: Numbering, lhsCnt: nat, l: Lts, G: Relation, tr: Transition,
          q: State) returns (tr': Transition)
    requires Encodes(A, n, N, lhsCnt, l) && l.Simulation(G) && tr in A.trans && q in N.state
    requires In(N.state[tr.parent], N.state[q], G)
    ensures tr' in A.trans && tr'.parent == q && tr'.sym == tr.sym && In(Target(N, tr.kids), Target(N, tr'.kids), G)
  {
    var x, c, y := N.state[tr.parent], N.sym[tr.sym], Target(N, tr.kids);
    assert TransEdge(N, A.trans, x, c, y);
    assert l.Edge(x, c, y) && l.Answers(N.state[q], c, y, G);
    var y' :| l.Edge(N.state[q], c, y') && In(y, y', G);
    tr' := StateEdge(A, n, N, lhsCnt, l, q, c, y');
  }

  lemma SingleRelates(A: Aut, N: Numbering, G: Relation, k: seq<State>, k': seq<State>)
    requires N.state.Keys == A.States() && |k| == |k'| == 1 && k[0] in N.state && k'[0] in N.state
    requires In(N.state[k[0]], N.state[k'[0]], G)
    ensures RelatedAll(OnStates(A, N, G), k, k')
  {
  }

  /** Related tuples of one length are related at every position. */
  lemma NodesRelate(A: Aut, n: nat, N: Numbering, lhsCnt: nat, l: Lts, G: Relation, k: seq<State>, k': seq<State>)
    requires Encodes(A, n, N, lhsCnt, l) && l.Simulation(G) && |k| == |k'|
    requires k in N.lhs && k' in N.lhs && In(N.lhs[k], N.lhs[k'], G)
    ensures RelatedAll(OnStates(A, N, G), k, k')
  {
    forall i | 0 <= i < |k| ensures In(k[i], k'[i], OnStates(A, N, G)) {
      var c, y := |N.sym| + i, N.state[k[i]];
      assert k in N.lhs.Keys && TupleEdge(N, N.lhs.Keys, N.lhs[k], c, y);
      assert l.Edge(N.lhs[k], c, y) && l.Answers(N.lhs[k'], c, y, G);
      var y' :| l.Edge(N.lhs[k'], c, y') && In(y, y', G);
      var i' := ComponentEdge(A, n, N, lhsCnt, l, k', c, y');
    }
  }

  /** The pairs of numbers of states that D relates, and of tuples that it relates throughout. */
  ghost predicate LiftedPair(N: Numbering, D: Relation, x: int, y: int) {
    || (exists p, q :: p in N.state && q in N.state && In(p, q, D) && x == N.state[p] && y == N.state[q])
    || (exists k, k' :: k in N.lhs && k' in N.lhs && RelatedAll(D, k, k') && x == N.lhs[k] && y == N.lhs[k'])
  }

  ghost function Lifted(n: nat, N: Numbering, D: Relation): (G: Relation)
    ensures forall x: nat, y: nat :: In(x, y, G) <==> x < n && y < n && LiftedPair(N, D, x, y)
  {
    set x: nat, y: nat | x in Below(n) && y in Below(n) && LiftedPair(N, D, x, y) :: (x, y)
  }

  /** A downward simulation lifts to a simulation of the transition system. */
  lemma LiftedIsSimulation(A: Aut, n: nat, N: Numbering, lhsCnt: nat, l: Lts, D: Relation)
    requires Encodes(A, n, N, lhsCnt, l) && DownwardSimulation(A, D)
    ensures l.Simulation(Lifted(l.states, N, D))
  {
    var G := Lifted(l.states, N, D);
    forall x, y, c, z | In(x, y, G) && l.Edge(x, c, z) ensures l.Answers(y, c, z, G) {
      assert LiftedPair(N, D, x, y);
      if p, q :| p in N.state && q in N.state && In(p, q, D) && x == N.state[p] && y == N.state[q] {
        StateAnswers(A, n, N, lhsCnt, l, D, p, q, c, z);
      } else {
        var k, k' :| k in N.lhs && k' in N.lhs && RelatedAll(D, k, k') && x == N.lhs[k] && y == N.lhs[k'];
        TupleAnswers(A, n, N, lhsCnt, l, D, k, k', c, z);
      }
    }
  }

  lemma StateAnswers(A: Aut, n: nat, N: Numbering, lhsCnt: nat, l: Lts, D: Relation, p: State, q: State, c: int, z: int)
    requires Encodes(A, n, N, lhsCnt, l) && DownwardSimulation(A, D) && p in N.state && q in N.state && In(p, q, D)
    requires l.Edge(N.state[p], c, z)
    ensures l.Answers(N.state[q], c, z, Lifted(l.states, N, D))
  {
    var tr := StateEdge(A, n, N, lhsCnt, l, p, c, z);
    assert Matched(A, D, tr, q);
    var tr' :| tr' in A.trans && tr'.parent == q && tr'.sym == tr.sym && RelatedAll(D, tr.kids, tr'.kids);
    var z' := Target(N, tr'.kids);
    assert TransEdge(N, A.trans, N.state[q], c, z');
    assert LiftedPair(N, D, z, z') by {
      if |tr.kids| == 1 {
        assert In(tr.kids[0], tr'.kids[0], D);
      }
    }
  }

  lemma TupleAnswers(A: Aut, n: nat, N: Numbering, lhsCnt: nat, l: Lts, D: Relation, k: seq<State>, k': seq<State>,
          c: int, z: int)
    requires Encodes(A, n, N, lhsCnt, l) && DownwardSimulation(A, D) && k in N.lhs && k' in N.lhs && RelatedAll(D, k, k')
    requires l.Edge(N.lhs[k], c, z)
    ensures l.Answers(N.lhs[k'], c, z, Lifted(l.states, N, D))
  {
    var i := ComponentEdge(A, n, N, lhsCnt, l, k, c, z);
    var z' := N.state[k'[i]];
    assert k' in N.lhs.Keys && TupleEdge(N, N.lhs.Keys, N.lhs[k'], c, z');
    assert In(k[i], k'[i], D) && LiftedPair(N, D, z, z');
  }

  /** The greatest simulation of the transition system, seen on the states, is downward similarity. */
  lemma EncodingFaithful(A: Aut,
          rank: Symbol -> nat, n: nat, N: Numbering, lhsCnt: nat, l: Lts, R: Relation, p: State, q: State)
    requires Encodes(A, n, N, lhsCnt, l) && Ranked(A.trans, rank) && p in N.state && q in N.state
    requires forall x: nat, y: nat :: x < l.states && y < l.states ==> In(x, y, R)
    ensures In(N.state[p], N.state[q], l.Greatest(R)) <==> Similar(A, p, q)
  {
    var G := l.Greatest(R);
    l.GreatestIsSimulation(R);
    if In(N.state[p], N.state[q], G) {
      RestrictedIsDownward(A, rank, n, N, lhsCnt, l, G);
      assert In(p, q, OnStates(A, N, G));
    }
    if Similar(A, p, q) {
      var D :| DownwardSimulation(A, D) && In(p, q, D);
      var S := Lifted(l.states, N, D);
      LiftedIsSimulation(A, n, N, lhsCnt, l, D);
      forall xy | xy in S ensures xy in R {
        assert In(xy.0, xy.1, S);
        assert In(xy.0, xy.1, R);
      }
      assert LiftedPair(N, D, N.state[p], N.state[q]);
      assert In(N.state[p], N.state[q], S);
      assert S <= G;
    }
  }
}
