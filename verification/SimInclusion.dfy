/** Inclusion through the downward or the upward simulation of both automata together. */
module SimInclusion {
  import BR = BinaryRelation
  import opened Collections
  import opened DownIncl
  import opened DownSim
  import opened Inclusion
  import opened Preorders
  import opened Reindex
  import opened TreeAutomata
  import opened UpIncl
  import opened UpSpec
  import opened UpWorklist
  import opened Useless
  import UpSim
  import Lts
  import Reduce
  import TranslateUp

  function UnionDisjointStates(A: Aut, B: Aut): Aut {
    Aut(A.finals + B.finals, A.trans + B.trans)
  }

  lemma UnionStates(A: Aut, B: Aut)
    ensures UnionDisjointStates(A, B).States() == A.States() + B.States()
  {
    var U := UnionDisjointStates(A, B);
    forall q ensures q in U.States() <==> q in A.States() + B.States() {
      if q in U.States() && q !in U.finals && q !in U.Parents() {
        var tr, i :| tr in U.trans && 0 <= i < |tr.kids| && tr.kids[i] == q;
        assert tr in A.trans || tr in B.trans;
      }
    }
  }

  /** One part of a disjoint union accepts from its states what the union does. */
  lemma PartAccepts(A: Aut, B: Aut, q: State, t: Tree)
    requires DisjointStates(A, B) && q in A.States()
    ensures Aut(A.finals + B.finals, A.trans + B.trans).Accepts(q, t) <==> A.Accepts(q, t)
  {
    var U := UnionDisjointStates(A, B);
    forall tr | tr in U.trans && tr.parent in A.States() ensures tr in A.trans && SetOf(tr.kids) <= A.States() {
      if tr in B.trans { TransitionStates(B, tr); }
      if tr in A.trans { TransitionStates(A, tr); }
    }
    SameAccepts(U, A, A.States(), q, t);
  }

  /** The union accepts from a state what the automaton of the state does. */
  lemma UnionAccepts(A: Aut, B: Aut, q: State, t: Tree)
    requires DisjointStates(A, B)
    ensures UnionDisjointStates(A, B).Accepts(q, t) <==> Lang(A, B, q, t)
  {
    var U := UnionDisjointStates(A, B);
    UnionStates(A, B);
    assert A.finals + B.finals == B.finals + A.finals && A.trans + B.trans == B.trans + A.trans;
    if U.Accepts(q, t) { OwnStates(U, q, t); }
    if A.Accepts(q, t) { OwnStates(A, q, t); }
    if B.Accepts(q, t) { OwnStates(B, q, t); }
    if q in A.States() { PartAccepts(A, B, q, t); }
    if q in B.States() { PartAccepts(B, A, q, t); }
  }

  /** It accepts what either automaton accepts. */
  lemma UnionLang(A: Aut, B: Aut, t: Tree)
    requires DisjointStates(A, B)
    ensures UnionDisjointStates(A, B).InLang(t) <==> A.InLang(t) || B.InLang(t)
  {
    var U := UnionDisjointStates(A, B);
    forall q ensures U.Accepts(q, t) <==> Lang(A, B, q, t) {
      UnionAccepts(A, B, q, t);
    }
    if U.InLang(t) {
      var q :| q in U.finals && U.Accepts(q, t);
      OwnFinal(A, B, q, t);
    }
  }

  /** A final state is one of the automaton that accepts from it. */
  lemma OwnFinal(A: Aut, B: Aut, q: State, t: Tree)
    requires DisjointStates(A, B) && q in A.finals + B.finals && Lang(A, B, q, t)
    ensures A.InLang(t) || B.InLang(t)
  {
    if A.Accepts(q, t) { OwnStates(A, q, t); }
    if B.Accepts(q, t) { OwnStates(B, q, t); }
  }

  ghost predicate IsSimilarity(A: Aut, R: Preorder) {
    forall p, q :: Rel(R, p, q) <==> p in A.States() && q in A.States() && Similar(A, p, q)
  }

  /** The downward simulation of the union is a preorder through which inclusion may be checked. */
  lemma SimilarityIsSound(A: Aut, B: Aut, R: Preorder)
    requires DisjointStates(A, B) && IsSimilarity(UnionDisjointStates(A, B), R)
    ensures SoundPreorder(A, B, R)
  {
    var U := UnionDisjointStates(A, B);
    UnionStates(A, B);
    forall q | q in A.States() + B.States() ensures Rel(R, q, q) {
      SimilarReflexive(U, q);
    }
    forall p, q, t | Rel(R, p, q) && Lang(A, B, p, t) ensures Lang(A, B, q, t) {
      UnionAccepts(A, B, p, t);
      UnionAccepts(A, B, q, t);
      SimilarAccepts(U, p, q, t);
    }
  }

  lemma InnerIndex(sim: Reduce.DiscontBinaryRelation, inner: seq<seq<nat>>)
    requires sim.Valid() && |inner| == |sim.dict| && forall i: nat, j: nat :: i < |inner| ==> (j in inner[i] <==> sim.rel.Get(i, j))
    ensures InDictionary(inner, sim.back) && Inclusion.OneToOne(sim.back)
  {
    forall i | 0 <= i < |inner| ensures i in sim.back && forall j :: j in inner[i] ==> j in sim.back {
      forall j | j in inner[i] ensures j in sim.back {
        assert sim.rel.Get(i, j);
      }
    }
  }

  function PairsOf(ind: map<State, seq<State>>): (R: Preorder)
    ensures forall p, q :: Rel(R, p, q) <==> p in ind && q in ind[p]
  {
    set p, q | p in ind && q in ind[p] :: (p, q)
  }

  /** The relation with the lists of bigger states, numbers translated back to states. */
  method BuildIndex(sim: Reduce.DiscontBinaryRelation) returns (R: Preorder, ind: map<State, seq<State>>)
    requires sim.Valid()
    ensures (forall p, q :: Rel(R, p, q) <==> sim.Related(p, q)) && ListsBigger(ind, R) && ind.Keys == sim.dict.Keys
    ensures InNumberOrder(ind, sim.dict) && SameLists(ind)
  {
    var inner, _ := sim.rel.BuildIndex();
    InnerIndex(sim, inner);
    ind := TranslateIndex(inner, sim.back);
    IndexExact(sim, inner, ind);
    IndexUniform(sim, inner, ind);
    IndexOrdered(sim, inner, ind);
    R := PairsOf(ind);
  }

  /** Every list has its states by ascending numbers. */
  ghost predicate InNumberOrder(ind: map<State, seq<State>>, dict: map<State, nat>) {
    forall s :: s in ind ==> Climbs(ind[s], dict)
  }

  ghost predicate Climbs(list: seq<State>, dict: map<State, nat>) {
    && (forall k :: 0 <= k < |list| ==> list[k] in dict)
    && (forall k, l :: 0 <= k < l < |list| ==> dict[list[k]] < dict[list[l]])
  }

  lemma IndexOrdered(sim: Reduce.DiscontBinaryRelation, inner: seq<seq<nat>>, ind: map<State, seq<State>>)
    requires sim.Valid() && forall i :: 0 <= i < |inner| ==> BR.Ascending(inner[i])
    requires InDictionary(inner, sim.back) && Inclusion.OneToOne(sim.back) && ind == TranslateIndex(inner, sim.back)
    ensures InNumberOrder(ind, sim.dict)
  {
    forall s | s in ind ensures Climbs(ind[s], sim.dict) {
      var i :| 0 <= i < |inner| && s == sim.back[i];
      MappedClimbs(sim, inner[i]);
    }
  }

  lemma MappedClimbs(sim: Reduce.DiscontBinaryRelation, xs: seq<nat>)
    requires sim.Valid() && BR.Ascending(xs) && forall x :: x in xs ==> x in sim.back
    ensures Climbs(Mapping(xs, sim.back), sim.dict)
  {
    var list := Mapping(xs, sim.back);
    forall k | 0 <= k < |list| ensures list[k] in sim.dict && sim.dict[list[k]] == xs[k] { }
  }

  /** States with the same bigger states have the same list. */
  ghost predicate SameLists(ind: map<State, seq<State>>) {
    forall s, t :: s in ind && t in ind && (forall y :: y in ind[s] <==> y in ind[t]) ==> ind[s] == ind[t]
  }

  lemma {:induction false} AscendingUnique(xs: seq<nat>, ys: seq<nat>)
    requires BR.Ascending(xs) && BR.Ascending(ys) && forall x :: x in xs <==> x in ys
    ensures xs == ys
  {
    assert ys == [] || ys[0] in ys;
    if xs != [] {
      assert xs[0] in ys && ys[0] in xs;
      FirstIsLeast(xs, ys[0]);
      FirstIsLeast(ys, xs[0]);
      forall x ensures x in xs[1..] <==> x in ys[1..] {
        RestHas(xs, x);
        RestHas(ys, x);
      }
      AscendingUnique(xs[1..], ys[1..]);
    }
  }

  lemma FirstIsLeast(xs: seq<nat>, x: nat)
    requires BR.Ascending(xs) && x in xs
    ensures xs[0] <= x
  {
  }

  lemma RestHas(xs: seq<nat>, x: nat)
    requires BR.Ascending(xs) && xs != []
    ensures x in xs[1..] <==> x in xs && x != xs[0]
  {
    if x in xs[1..] {
      var k :| 0 <= k < |xs| - 1 && xs[1..][k] == x;
      assert xs[k + 1] == x;
    }
  }

  lemma IndexUniform(sim: Reduce.DiscontBinaryRelation, inner: seq<seq<nat>>, ind: map<State, seq<State>>)
    requires sim.Valid() && |inner| == |sim.dict| && forall i :: 0 <= i < |inner| ==> BR.Ascending(inner[i])
    requires InDictionary(inner, sim.back) && Inclusion.OneToOne(sim.back) && ind == TranslateIndex(inner, sim.back)
    ensures SameLists(ind)
  {
    forall s, t | s in ind && t in ind && (forall y :: y in ind[s] <==> y in ind[t]) ensures ind[s] == ind[t] {
      var i :| 0 <= i < |inner| && s == sim.back[i];
      var j :| 0 <= j < |inner| && t == sim.back[j];
      SameRows(inner[i], inner[j], sim.back);
    }
  }

  lemma SameRows(xs: seq<nat>, ys: seq<nat>, back: map<nat, State>)
    requires BR.Ascending(xs) && BR.Ascending(ys) && Inclusion.OneToOne(back)
    requires (forall x :: x in xs ==> x in back) && (forall y :: y in ys ==> y in back)
    requires forall q :: q in Mapping(xs, back) <==> q in Mapping(ys, back)
    ensures xs == ys
  {
    forall x ensures x in xs <==> x in ys {
      MappedBack(xs, back, x);
      MappedBack(ys, back, x);
    }
    AscendingUnique(xs, ys);
  }

  lemma MappedBack(xs: seq<nat>, back: map<nat, State>, x: nat)
    requires Inclusion.OneToOne(back) && forall y :: y in xs ==> y in back
    ensures x in xs <==> x in back && back[x] in Mapping(xs, back)
  {
    var r := Mapping(xs, back);
    if x in xs {
      var k :| 0 <= k < |xs| && xs[k] == x;
      assert r[k] == back[x];
    }
    if x in back && back[x] in r {
      var k :| 0 <= k < |r| && r[k] == back[x];
    }
  }

  lemma IndexExact(sim: Reduce.DiscontBinaryRelation, inner: seq<seq<nat>>, ind: map<State, seq<State>>)
    requires sim.Valid() && |inner| == |sim.dict| && forall i: nat, j: nat :: i < |inner| ==> (j in inner[i] <==> sim.rel.Get(i, j))
    requires InDictionary(inner, sim.back) && Inclusion.OneToOne(sim.back) && ind == TranslateIndex(inner, sim.back)
    ensures ind.Keys == sim.dict.Keys && forall p, q :: p in ind && q in ind[p] <==> sim.Related(p, q)
  {
    forall p ensures p in ind <==> p in sim.dict {
      if p in sim.dict { assert sim.back[sim.dict[p]] == p; }
    }
    forall p, q ensures p in ind && q in ind[p] <==> sim.Related(p, q) {
      if p in sim.dict {
        ListExact(sim, inner, ind, p, q);
      }
    }
  }

  lemma ListExact(sim: Reduce.DiscontBinaryRelation, inner: seq<seq<nat>>, ind: map<State, seq<State>>, p: State, q: State)
    requires sim.Valid() && |inner| == |sim.dict| && forall i: nat, j: nat :: i < |inner| ==> (j in inner[i] <==> sim.rel.Get(i, j))
    requires InDictionary(inner, sim.back) && Inclusion.OneToOne(sim.back) && ind == TranslateIndex(inner, sim.back) && p in sim.dict
    ensures p in ind && (q in ind[p] <==> sim.Related(p, q))
  {
    var i := sim.dict[p];
    assert sim.back[i] == p && ind[p] == Mapping(inner[i], sim.back);
    if q in ind[p] {
      var k :| 0 <= k < |ind[p]| && ind[p][k] == q;
      assert inner[i][k] in inner[i] && sim.rel.Get(i, inner[i][k]);
    }
    if sim.Related(p, q) {
      var k :| 0 <= k < |inner[i]| && inner[i][k] == sim.dict[q];
      assert ind[p][k] == q;
    }
  }

  /** The downward simulation of the union of both automata, with its index. */
  method UnionSimulation(smaller: Aut, bigger: Aut, states: nat, ghost rank: Symbol -> nat)
    returns (R: Preorder, ind: map<State, seq<State>>)
    requires Ranked(smaller.trans, rank) && Ranked(bigger.trans, rank) && DisjointStates(smaller, bigger)
    requires forall q: nat :: q in smaller.States() + bigger.States() <==> q < states
    ensures IsSimilarity(UnionDisjointStates(smaller, bigger), R) && ListsBigger(ind, R)
  {
    var unionAut := UnionDisjointStates(smaller, bigger);
    AllNumbered(smaller, bigger, states);
    var sim := Reduce.ComputeDownwardSimulation(unionAut, states, rank);
    R, ind := BuildIndex(sim);
  }

  /** Prepares the automata, computes the downward simulation of both together, and decides
      inclusion with it. */
  method CheckInclusionWithSimulation(smaller: Aut, bigger: Aut, ghost rank: Symbol -> nat) returns (r: bool)
    requires Ranked(smaller.trans, rank) && Ranked(bigger.trans, rank)
    ensures r <==> Included(smaller, bigger)
  {
    var newSmaller, newBigger, states := SanitizeAutsForInclusion(smaller, bigger);
    StillRanked(smaller, newSmaller, rank);
    StillRanked(bigger, newBigger, rank);
    var R, ind := UnionSimulation(newSmaller, newBigger, states, rank);
    TrimmedIsProductive(newSmaller);
    SimilarityIsSound(newSmaller, newBigger, R);
    LteSound(ind, R);
    r := CheckDownwardTreeInclusion(newSmaller, newBigger, R, LteByIndex(ind));
  }

  lemma AllNumbered(A: Aut, B: Aut, states: nat)
    requires forall q: nat :: q in A.States() + B.States() <==> q < states
    ensures |UnionDisjointStates(A, B).States()| == states
  {
    UnionStates(A, B);
    assert UnionDisjointStates(A, B).States() == Below(states);
  }

  // ---------------------------------------------------------------- upward

  /** The relation is upward similarity in the automaton with transitions of several children redirected. */
  ghost predicate IsUpSimilarity(A: Aut, to: map<State, State>, R: Preorder) {
    forall p, q {:trigger Rel(R, p, q)} :: Rel(R, p, q) <==> p in A.States() && q in A.States() && UpSim.UpSimilarVia(A, to, p, q)
  }

  /** Wherever transitions are redirected, it is a preorder that keeps final states. */
  lemma UpSimilarityKeepsFinals(A: Aut, B: Aut, to: map<State, State>, R: Preorder)
    requires IsUpSimilarity(UnionDisjointStates(A, B), to, R) && UpSim.Redirects(UnionDisjointStates(A, B), to)
    ensures KeepsFinals(A, B, R)
  {
    var U := UnionDisjointStates(A, B);
    UnionStates(A, B);
    forall q | q in A.States() + B.States() ensures Rel(R, q, q) {
      UpSim.UpReflexive(U, to, q);
    }
    forall p, q, r ensures TransitiveAt(R, p, q, r) {
      if Rel(R, p, q) && Rel(R, q, r) { UpSim.UpTransitive(U, to, p, q, r); }
    }
    forall p, q ensures FinalAt(A, B, R, p, q) {
      if Rel(R, p, q) { UpSimilarFinal(U, to, p, q); }
    }
  }

  lemma UpSimilarFinal(U: Aut, to: map<State, State>, p: State, q: State)
    requires UpSim.UpSimilarVia(U, to, p, q)
    ensures p in U.finals ==> q in U.finals
  {
    var D :| UpSim.UpwardVia(U, to, D) && Lts.In(p, q, D);
  }

  /** If nothing is redirected, it is an upward simulation through which the upward check may prune. */
  lemma UpSimilarityIsUpward(A: Aut, B: Aut, to: map<State, State>, R: Preorder)
    requires IsUpSimilarity(UnionDisjointStates(A, B), to, R) && UpSim.Redirects(UnionDisjointStates(A, B), to)
    requires UpSim.StaysPut(UnionDisjointStates(A, B), to)
    ensures Upward(A, B, R)
  {
    var U := UnionDisjointStates(A, B);
    UpSimilarityKeepsFinals(A, B, to, R);
    forall tr, i: nat, q: State | tr in A.trans + B.trans && i < |tr.kids| && Rel(R, tr.kids[i], q) ensures Answered(A, B, R, tr, i, q) {
      UpSimilarAnswers(U, to, R, tr, i, q);
      var tr' :| tr' in U.trans && tr'.sym == tr.sym && tr'.kids == tr.kids[i := q] && Rel(R, tr.parent, tr'.parent);
    }
  }

  lemma UpSimilarAnswers(U: Aut, to: map<State, State>, R: Preorder, tr: Transition, i: nat, q: State)
    requires IsUpSimilarity(U, to, R) && UpSim.StaysPut(U, to) && tr in U.trans && i < |tr.kids| && Rel(R, tr.kids[i], q)
    ensures exists tr' :: tr' in U.trans && tr'.sym == tr.sym && tr'.kids == tr.kids[i := q] && Rel(R, tr.parent, tr'.parent)
  {
    var D := UpSim.Up(U, to);
    UpSim.UpIsSimulation(U, to);
    assert Lts.In(tr.kids[i], q, D);
    assert UpSim.RaisedVia(U, to, D, tr, i, q);
    var tr' :| tr' in U.trans && tr'.sym == tr.sym && tr'.kids == tr.kids[i := q] && Lts.In(UpSim.Dest(to, tr), UpSim.Dest(to, tr'), D);
    assert UpSim.Dest(to, tr) == tr.parent && UpSim.Dest(to, tr') == tr'.parent;
    TransitionStates(U, tr);
    TransitionStates(U, tr');
  }

  /** Trimmed automata with disjoint states have a union that can be translated upward. */
  lemma UnionFit(A: Aut, B: Aut)
    requires A.Trimmed() && B.Trimmed()
    ensures Reduce.FitForUpward(UnionDisjointStates(A, B))
  {
    var U := UnionDisjointStates(A, B);
    UnionStates(A, B);
    forall q | q in U.States() ensures q in U.Parents() && TranslateUp.HasLeaf(U) {
      if q in A.States() { UsefulFit(A, U, q); } else { UsefulFit(B, U, q); }
    }
    FitByState(U);
  }

  lemma FitByState(U: Aut)
    requires forall q :: q in U.States() ==> q in U.Parents() && TranslateUp.HasLeaf(U)
    ensures Reduce.FitForUpward(U)
  {
  }

  lemma UsefulFit(A: Aut, U: Aut, q: State)
    requires A.Trimmed() && q in A.States() && A.trans <= U.trans
    ensures q in U.Parents() && TranslateUp.HasLeaf(U)
  {
    var u := UsefulTree(A, q);
    A.Unfold(q, u);
    var tr :| A.Step(tr, q, u);
    assert tr in U.trans;
    LeafBelow(A, q, u);
    LeafStays(A, U);
  }

  lemma UsefulTree(A: Aut, q: State) returns (u: Tree)
    requires A.Trimmed() && q in A.States()
    ensures A.Accepts(q, u)
  {
    assert A.Useful(q);
    var p, t :| p in A.finals && A.RunUses(p, t, q);
    UsedIsProductive(A, p, t, q);
    u := SomeTree(A, q);
  }

  lemma LeafStays(A: Aut, U: Aut)
    requires TranslateUp.HasLeaf(A) && A.trans <= U.trans
    ensures TranslateUp.HasLeaf(U)
  {
    var leaf :| leaf in A.trans && leaf.kids == [];
    assert leaf in U.trans;
  }

  lemma LeafBelow(A: Aut, q: State, t: Tree)
    requires A.Accepts(q, t)
    ensures TranslateUp.HasLeaf(A)
    decreases t
  {
    A.Unfold(q, t);
    var tr :| A.Step(tr, q, t);
    if tr.kids != [] {
      LeafBelow(A, tr.kids[0], t.kids[0]);
    }
  }

  /** The upward simulation of the union of both automata, with its index. */
  method UnionUpSimulation(smaller: Aut, bigger: Aut, states: nat, order: seq<State>)
    returns (R: Preorder, ind: map<State, seq<State>>, ghost to: map<State, State>)
    requires smaller.Trimmed() && bigger.Trimmed() && TranslateUp.Lists(order, UnionDisjointStates(smaller, bigger))
    requires forall q: nat :: q in smaller.States() + bigger.States() <==> q < states
    ensures IsUpSimilarity(UnionDisjointStates(smaller, bigger), to, R) && TranslateUp.Positions(order, to)
    ensures UpSim.Redirects(UnionDisjointStates(smaller, bigger), to)
    ensures ListsBigger(ind, R) && SameLists(ind) && ind.Keys == UnionDisjointStates(smaller, bigger).States()
  {
    var unionAut := UnionDisjointStates(smaller, bigger);
    AllNumbered(smaller, bigger, states);
    UnionFit(smaller, bigger);
    ghost var N, l, S;
    var sim;
    sim, N, l, S := Reduce.ComputeUpwardSimulation(unionAut, states, order);
    R, ind := BuildIndex(sim);
    to := sim.dict;
    ByNumbers(smaller, bigger, states, order, to);
  }

  /** The numbers are states, and positions of states. */
  lemma ByNumbers(A: Aut, B: Aut, states: nat, order: seq<State>, to: map<State, State>)
    requires forall q: nat :: q in A.States() + B.States() <==> q < states
    requires |UnionDisjointStates(A, B).States()| == states && TranslateUp.Positions(order, to)
    requires to.Keys == UnionDisjointStates(A, B).States() && DownSim.OneToOne(to, 0, states)
    ensures Reduce.StatesAreNumbers(UnionDisjointStates(A, B), states) && UpSim.Redirects(UnionDisjointStates(A, B), to)
  {
    UnionStates(A, B);
  }

  /** When parents of several children stand in place, nothing is redirected. */
  lemma PlacesArePut(U: Aut, order: seq<State>, to: map<State, State>)
    requires TranslateUp.Positions(order, to) && TranslateUp.InPlace(U, order)
    ensures UpSim.StaysPut(U, to)
  {
    forall tr | tr in U.trans ensures UpSim.Dest(to, tr) == tr.parent {
      if |tr.kids| > 1 { assert to[order[tr.parent]] == tr.parent; }
    }
  }

  /** Equivalent states have the same bigger states, hence the same list. */
  lemma ListsByClass(A: Aut, B: Aut, R: Preorder, ind: map<State, seq<State>>)
    requires KeepsFinals(A, B, R) && ListsBigger(ind, R) && SameLists(ind)
    requires ind.Keys == UnionDisjointStates(A, B).States()
    ensures SoundComparer(R, LteByIndex(ind)) && ByClass(B, R, LteByIndex(ind))
  {
    LteSound(ind, R);
    UnionStates(A, B);
    forall s, t | s in ind && t in B.States() && Rel(R, s, t) && Rel(R, t, s) ensures t in ind && ind[t] == ind[s] {
      forall y ensures y in ind[s] <==> y in ind[t] {
        if Rel(R, s, y) { RelTrans(R, t, s, y); }
        if Rel(R, t, y) { RelTrans(R, s, t, y); }
      }
    }
    LteByClass(B, ind, R);
  }

  /** Automata that the preparation returns. */
  ghost predicate Prepared(A: Aut, B: Aut, states: nat) {
    A.Trimmed() && B.Trimmed() && DisjointStates(A, B) && forall q: nat :: q in A.States() + B.States() <==> q < states
  }

  /** Computes the upward simulation of both automata together, whose states are listed in the given
      order, and checks inclusion upward with it. */
  method CheckPreparedUpward(smaller: Aut, bigger: Aut, states: nat, order: seq<State>, ghost rank: Symbol -> nat)
    returns (r: bool, R: Preorder, ghost to: map<State, State>)
    requires Prepared(smaller, bigger, states) && TranslateUp.Lists(order, UnionDisjointStates(smaller, bigger))
    requires Ranked(smaller.trans, rank) && Ranked(bigger.trans, rank)
    ensures TranslateUp.Positions(order, to) && IsUpSimilarity(UnionDisjointStates(smaller, bigger), to, R)
    ensures if r then Certified(smaller, bigger, R) else Refuted(smaller, bigger, R)
    ensures TranslateUp.InPlace(UnionDisjointStates(smaller, bigger), order) ==> (r <==> Included(smaller, bigger))
  {
    var ind;
    R, ind, to := UnionUpSimulation(smaller, bigger, states, order);
    UpSimilarityKeepsFinals(smaller, bigger, to, R);
    ListsByClass(smaller, bigger, R, ind);
    if TranslateUp.InPlace(UnionDisjointStates(smaller, bigger), order) {
      PlacesArePut(UnionDisjointStates(smaller, bigger), order, to);
      UpSimilarityIsUpward(smaller, bigger, to, R);
    }
    r := CheckUpwardInclusion(smaller, bigger, R, LteByIndex(ind), rank);
  }

  /** The order in which an automaton lists the states that have transitions is not specified. */
  method ListStates(A: Aut) returns (order: seq<State>)
    ensures TranslateUp.Lists(order, A)
  {
    order := [];
    var parents := A.Parents();
    var todo := parents;
    while todo != {}
      invariant todo <= parents && NoDup(order) && SetOf(order) == parents - todo
      decreases todo
    {
      var q :| q in todo;
      NoDupAppend(order, q);
      assert SetOf(order + [q]) == SetOf(order) + {q};
      order := order + [q];
      todo := todo - {q};
    }
  }

  /** No transition has more than one child. */
  ghost predicate Unary(A: Aut) {
    forall tr :: tr in A.trans ==> |tr.kids| <= 1
  }

  /** Prepares the automata, computes the upward simulation of both together, and checks inclusion
      upward with it. */
  method CheckInclusionWithUpwardSimulation(smaller: Aut, bigger: Aut, ghost rank: Symbol -> nat)
    returns (r: bool, ghost newSmaller: Aut, ghost newBigger: Aut, states: nat, ghost order: seq<State>, R: Preorder, ghost to: map<State, State>)
    requires Ranked(smaller.trans, rank) && Ranked(bigger.trans, rank)
    ensures Sanitized(smaller, newSmaller) && Sanitized(bigger, newBigger) && SameLang(smaller, newSmaller) && SameLang(bigger, newBigger)
    ensures Prepared(newSmaller, newBigger, states)
    ensures TranslateUp.Lists(order, UnionDisjointStates(newSmaller, newBigger)) && TranslateUp.Positions(order, to)
    ensures IsUpSimilarity(UnionDisjointStates(newSmaller, newBigger), to, R)
    ensures if r then Certified(newSmaller, newBigger, R) else Refuted(newSmaller, newBigger, R)
    ensures TranslateUp.InPlace(UnionDisjointStates(newSmaller, newBigger), order) ==> (r <==> Included(smaller, bigger))
    ensures Unary(smaller) && Unary(bigger) ==> (r <==> Included(smaller, bigger))
  {
    var preparedSmaller, preparedBigger;
    preparedSmaller, preparedBigger, states := SanitizeAutsForInclusion(smaller, bigger);
    newSmaller, newBigger := preparedSmaller, preparedBigger;
    StillRanked(smaller, newSmaller, rank);
    StillRanked(bigger, newBigger, rank);
    var listed := ListStates(UnionDisjointStates(preparedSmaller, preparedBigger));
    order := listed;
    UnaryInPlace(smaller, bigger, newSmaller, newBigger, order);
    r, R, to := CheckPreparedUpward(preparedSmaller, preparedBigger, states, listed, rank);
  }

  lemma UnaryInPlace(A: Aut, B: Aut, A': Aut, B': Aut, order: seq<State>)
    requires SameArities(A, A') && SameArities(B, B')
    ensures Unary(A) && Unary(B) ==> TranslateUp.InPlace(UnionDisjointStates(A', B'), order)
  {
  }
}
