/** Relations on states, and the order on sets of states that they give. */
module Preorders {
  import opened Antichain
  import opened Collections
  import opened TreeAutomata

  type Preorder = set<(State, State)>

  ghost predicate Rel(R: Preorder, p: State, q: State) {
    (p, q) in R
  }

  /** Some state of Y is above s. */
  ghost predicate Meets(R: Preorder, s: State, Y: set<State>) {
    exists y :: y in Y && Rel(R, s, y)
  }

  /** Every state on the left is below some state on the right. */
  ghost predicate Covered(R: Preorder, X: set<State>, Y: set<State>) {
    forall s {:trigger Meets(R, s, Y)} :: s in X ==> Meets(R, s, Y)
  }

  function Bigger(R: Preorder, p: State): (r: set<State>)
    ensures forall q :: q in r <==> Rel(R, p, q)
  {
    set pq | pq in R && pq.0 == p :: pq.1
  }

  function Smaller(R: Preorder, p: State): (r: set<State>)
    ensures forall q :: q in r <==> Rel(R, q, p)
  {
    set pq | pq in R && pq.1 == p :: pq.0
  }

  ghost predicate Reflexive(R: Preorder, S: set<State>) {
    forall q :: q in S ==> Rel(R, q, q)
  }

  ghost predicate TransitiveAt(R: Preorder, p: State, q: State, r: State) {
    Rel(R, p, q) && Rel(R, q, r) ==> Rel(R, p, r)
  }

  ghost predicate Transitive(R: Preorder) {
    forall p, q, r {:trigger TransitiveAt(R, p, q, r)} :: TransitiveAt(R, p, q, r)
  }

  lemma RelTrans(R: Preorder, p: State, q: State, r: State)
    requires Transitive(R) && Rel(R, p, q) && Rel(R, q, r)
    ensures Rel(R, p, r)
  {
    assert TransitiveAt(R, p, q, r);
  }

  lemma CoveredTrans(R: Preorder, X: set<State>, Y: set<State>, Z: set<State>)
    requires Transitive(R) && Covered(R, X, Y) && Covered(R, Y, Z)
    ensures Covered(R, X, Z)
  {
    forall x | x in X ensures Meets(R, x, Z) {
      assert Meets(R, x, Y);
      var y :| y in Y && Rel(R, x, y);
      assert Meets(R, y, Z);
      var z :| z in Z && Rel(R, y, z);
      RelTrans(R, x, y, z);
    }
  }

  lemma CoveredBySuperset(R: Preorder, X: set<State>, Y: set<State>)
    requires Reflexive(R, X) && X <= Y
    ensures Covered(R, X, Y)
  {
    forall x | x in X ensures Meets(R, x, Y) {
      assert Rel(R, x, x);
    }
  }

  /** S is what remains of X when states below others are left out. */
  ghost predicate Pruned(R: Preorder, X: set<State>, S: set<State>) {
    S <= X && Covered(R, X, S)
  }

  /** A further state takes the place of those below it. */
  lemma PruneStep(R: Preorder, X: set<State>, S: set<State>, s: State, below: set<State>)
    requires Transitive(R) && Pruned(R, X, S) && Rel(R, s, s) && forall x :: x in below ==> Rel(R, x, s)
    ensures Pruned(R, X + {s}, S - below + {s})
  {
    var S' := S - below + {s};
    assert s in S';
    forall x | x in X + {s} ensures Meets(R, x, S') {
      if x != s {
        assert Meets(R, x, S);
        var y :| y in S && Rel(R, x, y);
        if y in below { RelTrans(R, x, y, s); }
        assert y in S' || s in S';
      }
    }
  }

  lemma IsMet(R: Preorder, q: State, S: set<State>)
    requires Bigger(R, q) * S != {}
    ensures Meets(R, q, S)
  {
    var s :| s in Bigger(R, q) * S;
  }

  function Identity(size: nat): (R: Preorder)
    ensures forall p: State, q: State :: Rel(R, p, q) <==> p == q < size
  {
    set q | q in Below(size) :: (q, q)
  }

  /** A comparison of sets that holds for equal sets, and otherwise only if every state on the
      left is below some state on the right. It need not find all such sets. */
  ghost predicate SoundComparer(R: Preorder, lte: Comparer) {
    && (forall X :: lte(X, X))
    && (forall X, Y :: lte(X, Y) && X != Y ==> Covered(R, X, Y))
  }

  /** No state is below another one. */
  ghost predicate Flat(R: Preorder, S: set<State>) {
    forall x, y :: x in S && y in S && Rel(R, x, y) ==> x == y
  }
}
