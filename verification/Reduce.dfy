/** Reduction: states that simulate each other downward are collapsed. */
module Reduce {
  import opened BinaryRelation
  import opened Collections
  import opened DownSim
  import opened Lts
  import opened LtsEngine
  import opened Quotients
  import opened Reindex
  import opened TranslateDown
  import opened Translators
  import opened TreeAutomata
  import opened Useless
  import UpSim
  import TranslateUp
  import LtsInit

  /** Carries a projection of numbers over to the states. */
  method TranslateBack(dict: map<State, nat>, back: map<nat, State>, inner: seq<nat>) returns (proj: map<State, State>)
    requires OneToOne(dict, 0, |dict|) && |inner| == |dict| && forall i :: 0 <= i < |inner| ==> inner[i] < |dict|
    requires forall i: nat :: i in back <==> i < |dict|
    requires forall i :: i in back ==> back[i] in dict && dict[back[i]] == i
    ensures proj.Keys == dict.Keys && forall q :: q in dict ==> proj[q] == back[inner[dict[q]]]
  {
    proj := map[];
    var i := 0;
    while i < |inner|
      invariant 0 <= i <= |inner|
      invariant forall q :: q in proj <==> q in dict && dict[q] < i
      invariant forall q :: q in proj ==> proj[q] == back[inner[dict[q]]]
    {
      proj := proj[back[i] := back[inner[i]]];
      i := i + 1;
    }
  }

  /** A relation on arbitrary states, kept as a relation on their numbers. */
  class DiscontBinaryRelation {
    const rel: BinaryRelation
    const dict: map<State, nat>
    const back: map<nat, State>

    ghost predicate Valid()
      reads rel
    {
      && rel.Valid() && rel.size == |dict| && OneToOne(dict, 0, |dict|)
      && (forall i: nat :: i in back <==> i < |dict|)
      && (forall i :: i in back ==> back[i] in dict && dict[back[i]] == i)
    }

    ghost predicate Related(p: State, q: State)
      reads rel
    {
      p in dict && q in dict && rel.Get(dict[p], dict[q])
    }

    constructor (rel: BinaryRelation, dict: map<State, nat>)
      requires rel.Valid() && rel.size == |dict| && OneToOne(dict, 0, |dict|)
      ensures Valid() && this.rel == rel && this.dict == dict
    {
      this.rel, this.dict := rel, dict;
      back := map q | q in dict :: dict[q] := q;
      IsOnto(dict);
      new;
      forall i: nat ensures i in back <==> i < |dict| {
        assert IsNumber(dict, i) <==> i < |dict|;
      }
    }

    /** Keeps the pairs of states related in both directions. */
    method RestrictToSymmetric()
      requires Valid()
      modifies rel
      ensures Valid() && forall p, q :: Related(p, q) <==> old(Related(p, q)) && old(Related(q, p))
    {
      rel.RestrictToSymmetric();
    }

    ghost predicate Equivalence()
      reads rel
    {
      && (forall p :: p in dict ==> Related(p, p))
      && (forall p, q :: Related(p, q) ==> Related(q, p))
      && (forall p, q, r :: Related(p, q) && Related(q, r) ==> Related(p, r))
    }

    lemma NumbersEquivalent()
      requires Valid() && Equivalence()
      ensures rel.Equivalence()
    {
      forall i | 0 <= i < rel.size ensures rel.Get(i, i) {
        assert Related(back[i], back[i]);
      }
      forall i, j | rel.Get(i, j) ensures i in back && j in back && Related(back[i], back[j]) && rel.Get(j, i) {
        assert Related(back[i], back[j]);
        assert Related(back[j], back[i]);
      }
      forall i, j, k | rel.Get(i, j) && rel.Get(j, k) ensures rel.Get(i, k) {
        assert Related(back[i], back[j]) && Related(back[j], back[k]);
        assert Related(back[i], back[k]);
      }
    }

    /** Maps every state to the representative of its class, the one with the least number. */
    method GetQuotientProjection() returns (proj: map<State, State>)
      requires Valid() && Equivalence()
      ensures proj.Keys == dict.Keys
      ensures forall q :: q in dict ==> Related(q, proj[q])
      ensures forall p, q :: Related(p, q) ==> proj[p] == proj[q]
      ensures forall p, q :: p in dict && q in proj && proj[q] in dict && Related(p, q) ==> dict[proj[q]] <= dict[p]
    {
      NumbersEquivalent();
      var inner: seq<nat> := rel.GetQuotientProjection();
      forall i | 0 <= i < |inner| ensures inner[i] < |dict| {
        assert rel.Get(i, inner[i]);
      }
      proj := TranslateBack(dict, back, inner);
      forall q | q in dict ensures Related(q, proj[q]) {
        assert rel.Get(dict[q], inner[dict[q]]);
      }
      forall p, q | Related(p, q) ensures proj[p] == proj[q] && dict[proj[q]] <= dict[p] {
        assert rel.Get(dict[p], dict[q]) && rel.Get(dict[q], dict[p]);
      }
    }
  }

  ghost predicate IsNumber(dict: map<State, nat>, i: nat) {
    exists q :: q in dict && dict[q] == i
  }

  /** Distinct numbers below the size are all numbers below the size. */
  lemma IsOnto(dict: map<State, nat>)
    requires OneToOne(dict, 0, |dict|)
    ensures forall i: nat :: i < |dict| <==> IsNumber(dict, i)
  {
    NumbersUsed(dict, dict.Keys);
    var used := Used(dict, dict.Keys);
    assert |dict| == |dict.Keys| && used <= Below(|dict|);
    SubsetSameSize(used, Below(|dict|));
    forall i: nat | i < |dict| ensures IsNumber(dict, i) {
      assert i in used;
    }
  }

  /** Downward simulation, by way of the transition system. */
  method ComputeDownwardSimulation(A: Aut, size: nat, ghost rank: Symbol -> nat) returns (sim: DiscontBinaryRelation)
    requires Ranked(A.trans, rank) && size == |A.States()|
    ensures fresh(sim.rel) && sim.Valid() && sim.dict.Keys == A.States() && FinalsFirst(A, sim.dict)
    ensures forall p, q :: sim.Related(p, q) <==> p in A.States() && q in A.States() && Similar(A, p, q)
  {
    var transl := new Translator<State>(map[], 0);
    ghost var N, lhsCnt;
    var lts;
    lts, N, lhsCnt := TranslateDownward(A, size, transl);
    AllFaithful(A, rank, size, N, lhsCnt, lts);
    assert |transl.dict| == |transl.dict.Keys| == |A.States()|;
    sim := RelateAll(lts, size, transl.dict);
  }

  /** The greatest simulation of the system, seen on the states. */
  method RelateAll(l: Lts, size: nat, state: map<State, nat>) returns (sim: DiscontBinaryRelation)
    requires l.Valid() && size <= l.states && OneToOne(state, 0, size) && |state| == size
    ensures fresh(sim.rel) && sim.Valid() && sim.dict == state
    ensures forall p, q {:trigger sim.Related(p, q)} :: sim.Related(p, q) <==>
              p in state && q in state && In(state[p], state[q], l.Greatest(AllPairs(l.states)))
  {
    var ltsSim := ComputeSimulation(l, size);
    sim := new DiscontBinaryRelation(ltsSim, state);
  }

  lemma AllFaithful(A: Aut, rank: Symbol -> nat, n: nat, N: Numbering, lhsCnt: nat, l: Lts)
    requires Encodes(A, n, N, lhsCnt, l) && Ranked(A.trans, rank)
    ensures OneToOne(N.state, 0, n) && N.state.Keys == A.States()
    ensures forall p, q :: p in N.state && q in N.state ==> (In(N.state[p], N.state[q], l.Greatest(AllPairs(l.states))) <==> Similar(A, p, q))
  {
    forall p, q | p in N.state && q in N.state ensures In(N.state[p], N.state[q], l.Greatest(AllPairs(l.states))) <==> Similar(A, p, q) {
      EncodingFaithful(A, rank, n, N, lhsCnt, l, AllPairs(l.states), p, q);
    }
  }

  /** Every state has a transition, and if there are states there are leaves. */
  ghost predicate FitForUpward(A: Aut) {
    A.States() == A.Parents() && (A.States() != {} ==> TranslateUp.HasLeaf(A))
  }

  /** The states are the numbers below the size. */
  ghost predicate StatesAreNumbers(A: Aut, size: nat) {
    forall q: State :: q in A.States() <==> q < size
  }

  /** What is related is upward similarity in the automaton itself. */
  ghost predicate IsUpward(A: Aut, sim: DiscontBinaryRelation)
    requires sim.Valid()
    reads sim, sim.rel
  {
    forall p, q {:trigger sim.Related(p, q)} :: sim.Related(p, q) <==> p in A.States() && q in A.States() && UpSim.UpSimilar(A, p, q)
  }

  /** What is related is upward similarity in the automaton whose transitions with several children
      lead to the number of their parent. */
  ghost predicate IsUpwardByNumbers(A: Aut, sim: DiscontBinaryRelation)
    requires sim.Valid()
    reads sim, sim.rel
  {
    forall p, q {:trigger sim.Related(p, q)} :: sim.Related(p, q) <==> p in A.States() && q in A.States() && UpSim.UpSimilarVia(A, sim.dict, p, q)
  }

  /** What is related is what the greatest simulation of the system relates inside R. */
  ghost predicate IsOfSystem(sim: DiscontBinaryRelation, l: Lts, R: Relation)
    requires sim.Valid()
    reads sim, sim.rel
  {
    forall p, q {:trigger sim.Related(p, q)} :: sim.Related(p, q) <==>
      p in sim.dict && q in sim.dict && In(sim.dict[p], sim.dict[q], l.Greatest(R))
  }

  /** Upward simulation, by way of the transition system, with the states listed in some order. */
  method ComputeUpwardSimulation(A: Aut, size: nat, order: seq<State>)
    returns (sim: DiscontBinaryRelation, ghost N: UpSim.UpNumbering, ghost l: Lts, ghost R: Relation)
    requires FitForUpward(A) && size == |A.States()| && TranslateUp.Lists(order, A)
    ensures fresh(sim.rel) && sim.Valid() && sim.dict.Keys == A.States() && TranslateUp.Positions(order, sim.dict)
    ensures size > 0 ==> UpSim.UpBuilds(A, size, N, l) && TranslateUp.LooksUp(N) && N.state == sim.dict
    ensures size > 0 ==> UpSim.Admits(A, size, N, R) && IsOfSystem(sim, l, R)
    ensures TranslateUp.InPlace(A, order) ==> IsUpward(A, sim)
    ensures StatesAreNumbers(A, size) ==> IsUpwardByNumbers(A, sim)
  {
    if size == 0 {
      var empty := new BinaryRelation(0, false);
      sim := new DiscontBinaryRelation(empty, map[]);
      N, l, R := UpSim.UpNumbering(map[], map[], map[], map[]), Lts(0, [], []), {};
      return;
    }
    var lts, part, rel, state;
    lts, part, rel, N, state := TranslateUp.TranslateUpward(A, order);
    l, R := lts, LtsInit.Lift(lts.states, part, rel);
    assert |state| == |state.Keys| == |A.States()|;
    sim := RelateByNumbers(lts, part, rel, size, state, R);
    if TranslateUp.InPlace(A, order) { AllUpFaithful(A, order, size, N, l, R); }
    if StatesAreNumbers(A, size) { AllUpByNumbers(A, size, N, l, R); }
  }

  /** The simulation of the system, seen on the states. */
  method RelateByNumbers(l: Lts, part: seq<seq<nat>>, rel: Relation, size: nat, state: map<State, nat>, ghost R: Relation)
    returns (sim: DiscontBinaryRelation)
    requires l.Valid() && LtsInit.PartitionOf(l.states, part) && Reflexive(|part|, rel) && Transitive(rel)
    requires R == LtsInit.Lift(l.states, part, rel)
    requires OneToOne(state, 0, size) && |state| == size
    ensures fresh(sim.rel) && sim.Valid() && sim.dict == state
    ensures IsOfSystem(sim, l, R)
  {
    var ltsSim := ComputeSimulationFrom(l, part, rel, size);
    sim := new DiscontBinaryRelation(ltsSim, state);
  }

  lemma AllUpFaithful(A: Aut, order: seq<State>, n: nat, N: UpSim.UpNumbering, l: Lts, R: Relation)
    requires UpSim.UpBuilds(A, n, N, l) && UpSim.Admits(A, n, N, R) && TranslateUp.LooksUp(N)
    requires TranslateUp.Positions(order, N.state) && TranslateUp.InPlace(A, order)
    ensures forall p, q :: p in N.state && q in N.state ==> (In(N.state[p], N.state[q], l.Greatest(R)) <==> UpSim.UpSimilar(A, p, q))
  {
    TranslateUp.InPlaceExact(A, order, n, N, l);
    forall p, q | p in N.state && q in N.state ensures In(N.state[p], N.state[q], l.Greatest(R)) <==> UpSim.UpSimilar(A, p, q) {
      UpSim.UpEncodingFaithful(A, n, N, l, R, p, q);
    }
  }

  lemma AllUpByNumbers(A: Aut, n: nat, N: UpSim.UpNumbering, l: Lts, R: Relation)
    requires UpSim.UpBuilds(A, n, N, l) && UpSim.Admits(A, n, N, R) && TranslateUp.LooksUp(N) && StatesAreNumbers(A, n)
    ensures forall p, q :: p in N.state && q in N.state ==> (In(N.state[p], N.state[q], l.Greatest(R)) <==> UpSim.UpSimilarVia(A, N.state, p, q))
  {
    NumbersTaken(A, n, N, l);
    UpSim.NumbersFollow(A, n, N, l);
    forall p, q | p in N.state && q in N.state ensures In(N.state[p], N.state[q], l.Greatest(R)) <==> UpSim.UpSimilarVia(A, N.state, p, q) {
      UpSim.UpSystemExact(A, N.state, n, N, l, R, p, q);
    }
  }

  lemma NumbersTaken(A: Aut, n: nat, N: UpSim.UpNumbering, l: Lts)
    requires UpSim.UpBuilds(A, n, N, l) && TranslateUp.LooksUp(N) && StatesAreNumbers(A, n)
    ensures UpSim.NumbersAreStates(N)
  {
  }

  /** Numbers all the states. */
  method BuildStateIndex(A: Aut, index: Translator<State>)
    requires index.dict == map[] && index.next == 0
    modifies index
    ensures index.dict.Keys == A.States() && index.next == |A.States()|
  {
    assert index.Numbers(0);
    var todo := A.States();
    ghost var states := todo;
    while todo != {}
      invariant todo <= states && index.Numbers(0) && index.dict.Keys == states - todo
      decreases todo
    {
      var q :| q in todo;
      todo := todo - {q};
      var _ := index.Translate(q);
    }
    index.NextIsSize();
    assert |index.dict| == |index.dict.Keys|;
  }

  ghost predicate FewerTrees(A: Aut, p: State, q: State) {
    forall t :: A.Accepts(p, t) ==> A.Accepts(q, t)
  }

  /** Only states that accept the same trees are merged. */
  ghost predicate Merging(A: Aut, m: map<State, State>) {
    forall p, q :: p in m && q in m && m[p] == m[q] ==> FewerTrees(A, p, q)
  }

  lemma MutualTrees(A: Aut, p: State, q: State)
    requires Mutual(A, p, q)
    ensures FewerTrees(A, p, q)
  {
    forall t | A.Accepts(p, t) ensures A.Accepts(q, t) {
      SimilarAccepts(A, p, q, t);
    }
  }

  lemma QuotientMerges(A: Aut, m: map<State, State>)
    requires Quotient(A, m)
    ensures Merging(A, m)
  {
    forall p, q | p in m && q in m && m[p] == m[q] ensures FewerTrees(A, p, q) {
      assert MutualOf(A)(p, q);
      MutualTrees(A, p, q);
    }
  }

  /** What the representative accepts after the collapse, the state accepted before. */
  lemma CollapseReflects(A: Aut, m: map<State, State>, C: Aut, q: State, t: Tree)
    requires Merging(A, m) && RenamedAut(A, m, C) && q in m && C.Accepts(m[q], t)
    ensures A.Accepts(q, t)
    decreases t
  {
    C.Unfold(m[q], t);
    var tr' :| C.Step(tr', m[q], t);
    var tr :| tr in A.trans && Renamed(m, tr) == tr';
    forall i | 0 <= i < |t.kids| ensures A.Accepts(tr.kids[i], t.kids[i]) {
      CollapseReflects(A, m, C, tr.kids[i], t.kids[i]);
    }
    CollapseStep(A, m, tr, q, t);
  }

  lemma CollapseStep(A: Aut, m: map<State, State>, tr: Transition, q: State, t: Tree)
    requires Merging(A, m) && tr in A.trans && q in m && tr.parent in m && m[tr.parent] == m[q]
    requires tr.sym == t.sym && A.AcceptsAll(tr.kids, t.kids)
    ensures A.Accepts(q, t)
  {
    assert A.Step(tr, tr.parent, t);
    A.Unfold(tr.parent, t);
    assert FewerTrees(A, tr.parent, q);
  }

  /** Collapsing states that accept the same trees keeps the language. */
  lemma CollapseSameLang(A: Aut, m: map<State, State>, C: Aut)
    requires Merging(A, m) && RenamedAut(A, m, C)
    ensures SameLang(A, C)
  {
    forall t ensures A.InLang(t) <==> C.InLang(t) {
      if A.InLang(t) {
        var q :| q in A.finals && A.Accepts(q, t);
        RenamedAccepts(A, m, C, q, t);
      }
      if C.InLang(t) {
        var c :| c in C.finals && C.Accepts(c, t);
        var q :| q in A.finals && m[q] == c;
        CollapseReflects(A, m, C, q, t);
      }
    }
  }

  /** Renames the states by a map of all of them, which may merge some. */
  method CollapseStates(A: Aut, stateMap: map<State, State>) returns (C: Aut)
    requires stateMap.Keys == A.States()
    ensures RenamedAut(A, stateMap, C)
  {
    var transl := new Translator<State>(stateMap, 0);
    C := ReindexStates(A, transl);
    assert transl.dict == stateMap;
  }

  /** The relation is the given one. */
  ghost predicate Represents(sim: DiscontBinaryRelation, related: (State, State) -> bool)
    reads sim.rel
  {
    forall p, q :: sim.Related(p, q) <==> related(p, q)
  }

  /** The symmetric part of downward simulation. */
  method ComputeMutual(A: Aut, size: nat, ghost rank: Symbol -> nat) returns (sim: DiscontBinaryRelation)
    requires Ranked(A.trans, rank) && size == |A.States()|
    ensures fresh(sim.rel) && sim.Valid() && sim.dict.Keys == A.States() && FinalsFirst(A, sim.dict)
    ensures Represents(sim, MutualOf(A))
  {
    sim := ComputeDownwardSimulation(A, size, rank);
    sim.RestrictToSymmetric();
  }

  ghost predicate EquivalenceOn(S: set<State>, related: (State, State) -> bool) {
    && (forall p :: p in S ==> related(p, p))
    && (forall p, q :: related(p, q) ==> related(q, p))
    && (forall p, q, r :: related(p, q) && related(q, r) ==> related(p, r))
  }

  lemma RepresentsEquivalence(sim: DiscontBinaryRelation, related: (State, State) -> bool)
    requires Represents(sim, related) && EquivalenceOn(sim.dict.Keys, related)
    ensures sim.Equivalence()
  {
    forall p, q | sim.Related(p, q) ensures sim.Related(q, p) {
      assert related(p, q) && related(q, p);
    }
    forall p, q, r | sim.Related(p, q) && sim.Related(q, r) ensures sim.Related(p, r) {
      assert related(p, q) && related(q, r) && related(p, r);
    }
  }

  lemma MutualEquivalence(A: Aut)
    ensures EquivalenceOn(A.States(), MutualOf(A))
  {
    MutualIsEquivalence(A);
  }

  /** Nothing related has a lower number than the representative. */
  ghost predicate LeastOfClass(dict: map<State, nat>, related: (State, State) -> bool, m: map<State, State>) {
    forall p, q :: p in dict && q in m && related(p, q) ==> m[q] in dict && dict[m[q]] <= dict[p]
  }

  /** The projection to representatives of the relation that sim represents. */
  method ProjectOn(sim: DiscontBinaryRelation, ghost related: (State, State) -> bool) returns (proj: map<State, State>)
    requires sim.Valid() && Represents(sim, related) && EquivalenceOn(sim.dict.Keys, related)
    ensures QuotientBy(sim.dict.Keys, related, proj) && LeastOfClass(sim.dict, related, proj)
  {
    RepresentsEquivalence(sim, related);
    proj := sim.GetQuotientProjection();
    forall q | q in proj ensures related(q, proj[q]) {
      assert sim.Related(q, proj[q]);
    }
    forall p, q | p in proj && q in proj ensures proj[p] == proj[q] <==> related(p, q) {
      assert sim.Related(p, q) <==> related(p, q);
      assert related(p, proj[p]) && related(q, proj[q]) && related(proj[q], q);
    }
    forall p, q | p in sim.dict && q in proj && related(p, q) ensures sim.dict[proj[q]] <= sim.dict[p] {
      assert sim.Related(p, q);
    }
  }

  /** The numbers given to states: all of them below their number, the final states first. */
  ghost predicate StateNumbers(A: Aut, dict: map<State, nat>) {
    dict.Keys == A.States() && OneToOne(dict, 0, |A.States()|) && FinalsFirst(A, dict)
  }

  method ComputeCollapseMap(A: Aut, ghost rank: Symbol -> nat) returns (collapseMap: map<State, State>, ghost dict: map<State, nat>)
    requires Ranked(A.trans, rank)
    ensures Quotient(A, collapseMap) && StateNumbers(A, dict) && LeastOfClass(dict, MutualOf(A), collapseMap)
  {
    var stateTranslator := new Translator<State>(map[], 0);
    BuildStateIndex(A, stateTranslator);
    var sim := ComputeMutual(A, stateTranslator.next, rank);
    MutualEquivalence(A);
    collapseMap := ProjectOn(sim, MutualOf(A));
    dict := sim.dict;
    assert |dict| == |dict.Keys|;
  }

  /** The quotient by mutual simulation, with unreachable states removed as far as the shortcut on
      equal sizes does that. The language is the same, and no two states simulate each other. */
  method ReduceAut(A: Aut, ghost rank: Symbol -> nat) returns (B: Aut)
    requires Ranked(A.trans, rank)
    ensures SameLang(A, B) && NothingToCollapse(B)
    ensures exists dict, m, C :: IsReduced(A, dict, m, C, B)
  {
    var collapseMap;
    ghost var dict;
    collapseMap, dict := ComputeCollapseMap(A, rank);
    var C := CollapseStates(A, collapseMap);
    QuotientMerges(A, collapseMap);
    CollapseSameLang(A, collapseMap, C);
    UnreachableKeepsLang(C);
    QuotientIsCollapsed(A, collapseMap, C);
    UnreachableCollapsed(C);
    UnreachableExact(C);
    B := RemoveUnreachableStates(C);
    assert IsReduced(A, dict, collapseMap, C, B);
  }

  /** B is the quotient C, whose states are the representatives with the least numbers, without the
      transitions of unreachable states if and only if the sizes differ or every reached state of C
      has transitions. */
  ghost predicate IsReduced(A: Aut, dict: map<State, nat>, m: map<State, State>, C: Aut, B: Aut) {
    && Quotient(A, m) && StateNumbers(A, dict) && LeastOfClass(dict, MutualOf(A), m) && RenamedAut(A, m, C)
    && B.finals == C.finals
    && (forall tr :: tr in B.trans <==> tr in C.trans && (|TopReach(C)| == |C.Parents()| || Reached(C, tr.parent)))
    && (B.Parents() <= TopReach(C) <==> |TopReach(C)| != |C.Parents()| || TopReach(C) <= C.Parents())
  }
}
