/** The quotient of an automaton by mutual downward simulation: collapsing keeps the simulation,
    so that nothing is left to collapse. */
module Quotients {
  import opened Collections
  import opened DownSim
  import opened Lts
  import opened Reindex
  import opened TreeAutomata
  import opened Useless

  /** Each state simulates the other. */
  ghost predicate Mutual(A: Aut, p: State, q: State) {
    p in A.States() && q in A.States() && Similar(A, p, q) && Similar(A, q, p)
  }

  ghost function MutualOf(A: Aut): (State, State) -> bool {
    (p: State, q: State) => Mutual(A, p, q)
  }

  lemma MutualIsEquivalence(A: Aut)
    ensures forall p :: p in A.States() ==> Mutual(A, p, p)
    ensures forall p, q, r :: Mutual(A, p, q) && Mutual(A, q, r) ==> Mutual(A, p, r)
  {
    forall p | p in A.States() ensures Mutual(A, p, p) {
      SimilarReflexive(A, p);
    }
    forall p, q, r | Mutual(A, p, q) && Mutual(A, q, r) ensures Mutual(A, p, r) {
      SimilarTransitive(A, p, q, r);
      SimilarTransitive(A, r, q, p);
    }
  }

  /** Related elements, and no others, have one representative, which is related to them. */
  ghost predicate QuotientBy(S: set<State>, related: (State, State) -> bool, m: map<State, State>) {
    && m.Keys == S
    && (forall q :: q in m ==> related(q, m[q]))
    && (forall p, q :: p in m && q in m ==> (m[p] == m[q] <==> related(p, q)))
  }

  /** States have one representative exactly when each simulates the other. */
  ghost predicate Quotient(A: Aut, m: map<State, State>) {
    QuotientBy(A.States(), MutualOf(A), m)
  }

  ghost predicate AllSimilar(A: Aut, ps: seq<State>, qs: seq<State>) {
    |ps| == |qs| && forall i :: 0 <= i < |ps| ==> Similar(A, ps[i], qs[i])
  }

  /** A bigger state answers every transition, with bigger children. */
  lemma SimilarStep(A: Aut, tr: Transition, q: State) returns (tr': Transition)
    requires tr in A.trans && Similar(A, tr.parent, q)
    ensures tr' in A.trans && tr'.parent == q && tr'.sym == tr.sym && AllSimilar(A, tr.kids, tr'.kids)
  {
    var D :| DownwardSimulation(A, D) && In(tr.parent, q, D);
    assert Matched(A, D, tr, q);
    tr' :| tr' in A.trans && tr'.parent == q && tr'.sym == tr.sym && RelatedAll(D, tr.kids, tr'.kids);
    forall i | 0 <= i < |tr.kids| ensures Similar(A, tr.kids[i], tr'.kids[i]) {
      assert In(tr.kids[i], tr'.kids[i], D);
    }
  }

  lemma SameRepresentative(A: Aut, m: map<State, State>, p: State, q: State)
    requires Quotient(A, m) && p in m && q in m && m[p] == m[q]
    ensures Similar(A, p, q)
  {
    assert MutualOf(A)(p, q);
  }

  // ---------------------------------------------------------------- from the automaton to the quotient

  /** Representatives of states that are similar. */
  ghost predicate Image(A: Aut, m: map<State, State>, x: State, y: State) {
    exists p, q :: p in m && q in m && m[p] == x && m[q] == y && Similar(A, p, q)
  }

  ghost function Images(A: Aut, m: map<State, State>, C: Aut): Relation {
    set x, y | x in C.States() && y in C.States() && Image(A, m, x, y) :: (x, y)
  }

  ghost predicate Represented(m: map<State, State>, ps: seq<State>, xs: seq<State>) {
    |ps| == |xs| && forall i :: 0 <= i < |ps| ==> ps[i] in m && m[ps[i]] == xs[i]
  }

  lemma ImageKids(A: Aut, m: map<State, State>, C: Aut, ps: seq<State>, qs: seq<State>, xs: seq<State>, ys: seq<State>)
    requires AllSimilar(A, ps, qs) && Represented(m, ps, xs) && Represented(m, qs, ys)
    requires SetOf(xs) <= C.States() && SetOf(ys) <= C.States()
    ensures RelatedAll(Images(A, m, C), xs, ys)
  {
    forall i | 0 <= i < |xs| ensures In(xs[i], ys[i], Images(A, m, C)) {
      assert xs[i] in SetOf(xs) && ys[i] in SetOf(ys);
      assert m[ps[i]] == xs[i] && m[qs[i]] == ys[i] && Similar(A, ps[i], qs[i]);
      assert Image(A, m, xs[i], ys[i]);
    }
  }

  lemma ImageMatched(A: Aut, m: map<State, State>, C: Aut, tr': Transition, y: State)
    requires Quotient(A, m) && RenamedAut(A, m, C) && tr' in C.trans && Image(A, m, tr'.parent, y)
    ensures Matched(C, Images(A, m, C), tr', y)
  {
    var p, q :| p in m && q in m && m[p] == tr'.parent && m[q] == y && Similar(A, p, q);
    var tr := TransitionBehind(A, m, C, tr');
    SameRepresentative(A, m, tr.parent, p);
    SimilarTransitive(A, tr.parent, p, q);
    var answer := SimilarStep(A, tr, q);
    var image := Renamed(m, answer);
    assert image in C.trans && image.parent == y;
    TransitionStates(C, tr');
    TransitionStates(C, image);
    ImageKids(A, m, C, tr.kids, answer.kids, tr'.kids, image.kids);
  }

  lemma CollapseSimilar(A: Aut, m: map<State, State>, C: Aut, p: State, q: State)
    requires Quotient(A, m) && RenamedAut(A, m, C) && p in m && q in m && Similar(A, p, q)
    ensures Similar(C, m[p], m[q])
  {
    var E := Images(A, m, C);
    forall tr, y: State | tr in C.trans && In(tr.parent, y, E) ensures Matched(C, E, tr, y) {
      ImageMatched(A, m, C, tr, y);
    }
    ImageState(A, m, C, p);
    ImageState(A, m, C, q);
    assert Image(A, m, m[p], m[q]);
    assert DownwardSimulation(C, E) && In(m[p], m[q], E);
  }

  // ---------------------------------------------------------------- and back

  ghost function Preimages(A: Aut, m: map<State, State>, C: Aut): Relation
    requires m.Keys == A.States()
  {
    set p, q | p in A.States() && q in A.States() && Similar(C, m[p], m[q]) :: (p, q)
  }

  lemma PreimageKids(A: Aut, m: map<State, State>, C: Aut, ps: seq<State>, xs: seq<State>, ys: seq<State>, qs: seq<State>, rs: seq<State>)
    requires Quotient(A, m) && RenamedAut(A, m, C) && SetOf(ps) <= A.States() && SetOf(rs) <= A.States()
    requires Represented(m, ps, xs) && AllSimilar(C, xs, ys) && Represented(m, qs, ys) && AllSimilar(A, qs, rs)
    ensures RelatedAll(Preimages(A, m, C), ps, rs)
  {
    forall i | 0 <= i < |ps| ensures In(ps[i], rs[i], Preimages(A, m, C)) {
      assert ps[i] in SetOf(ps) && rs[i] in SetOf(rs);
      assert m[ps[i]] == xs[i] && m[qs[i]] == ys[i];
      CollapseSimilar(A, m, C, qs[i], rs[i]);
      SimilarTransitive(C, xs[i], ys[i], m[rs[i]]);
    }
  }

  lemma PreimageMatched(A: Aut, m: map<State, State>, C: Aut, tr: Transition, q: State)
    requires Quotient(A, m) && RenamedAut(A, m, C) && tr in A.trans && q in m && Similar(C, m[tr.parent], m[q])
    ensures Matched(A, Preimages(A, m, C), tr, q)
  {
    var above := SimilarStep(C, Renamed(m, tr), m[q]);
    var behind := TransitionBehind(A, m, C, above);
    SameRepresentative(A, m, behind.parent, q);
    var answer := SimilarStep(A, behind, q);
    TransitionStates(A, tr);
    TransitionStates(A, answer);
    PreimageKids(A, m, C, tr.kids, Renamed(m, tr).kids, above.kids, behind.kids, answer.kids);
  }

  /** Collapsing neither loses nor adds simulation. */
  lemma CollapseKeepsSimulation(A: Aut, m: map<State, State>, C: Aut, p: State, q: State)
    requires Quotient(A, m) && RenamedAut(A, m, C) && p in m && q in m
    ensures Similar(A, p, q) <==> Similar(C, m[p], m[q])
  {
    if Similar(A, p, q) {
      CollapseSimilar(A, m, C, p, q);
    }
    if Similar(C, m[p], m[q]) {
      var D := Preimages(A, m, C);
      forall tr, r: State | tr in A.trans && In(tr.parent, r, D) ensures Matched(A, D, tr, r) {
        PreimageMatched(A, m, C, tr, r);
      }
      assert DownwardSimulation(A, D) && In(p, q, D);
    }
  }

  /** No two states simulate each other. */
  ghost predicate NothingToCollapse(A: Aut) {
    forall p, q :: Mutual(A, p, q) ==> p == q
  }

  lemma QuotientIsCollapsed(A: Aut, m: map<State, State>, C: Aut)
    requires Quotient(A, m) && RenamedAut(A, m, C)
    ensures NothingToCollapse(C)
  {
    forall x, y | Mutual(C, x, y) ensures x == y {
      var p := StateBehind(A, m, C, x);
      var q := StateBehind(A, m, C, y);
      CollapseKeepsSimulation(A, m, C, p, q);
      CollapseKeepsSimulation(A, m, C, q, p);
      assert MutualOf(A)(p, q);
    }
  }

  /** Without its unreachable states an automaton simulates as with them. */
  lemma UnreachableSimilar(A: Aut, p: State, q: State)
    requires Similar(UnreachableRemoved(A), p, q)
    ensures Similar(A, p, q)
  {
    var B := UnreachableRemoved(A);
    if B != A {
      var D :| DownwardSimulation(B, D) && In(p, q, D);
      KeepStates(A);
      forall tr, r: State | tr in A.trans && In(tr.parent, r, D) ensures Matched(A, D, tr, r) {
        assert Matched(B, D, tr, r);
      }
      assert DownwardSimulation(A, D);
    }
  }

  lemma KeepStates(A: Aut)
    ensures Keep(A, TopReach(A)).States() <= TopReach(A) && TopReach(A) <= A.States()
  {
    TopReachClosed(A);
    var B := Keep(A, TopReach(A));
    forall q | q in B.States() ensures q in TopReach(A) {
      if q !in B.finals && q !in B.Parents() {
        var tr, i :| tr in B.trans && 0 <= i < |tr.kids| && tr.kids[i] == q;
        assert q in SetOf(tr.kids);
      }
    }
  }

  lemma UnreachableCollapsed(A: Aut)
    requires NothingToCollapse(A)
    ensures NothingToCollapse(UnreachableRemoved(A))
  {
    KeepStates(A);
    forall p, q | Mutual(UnreachableRemoved(A), p, q) ensures p == q {
      UnreachableSimilar(A, p, q);
      UnreachableSimilar(A, q, p);
      assert Mutual(A, p, q);
    }
  }
}
