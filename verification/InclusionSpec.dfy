/** Inclusion of the trees of a state in those of a set of states, up to a height and
    relative to assumptions: what the downward check establishes. */
module InclusionSpec {
  import opened ChoiceFunctions
  import opened Collections
  import opened TreeAutomata

  type Goal = (State, set<State>)

  /** All the goals there can be. */
  ghost function Space(A: Aut, B: Aut): set<Goal> {
    set p, P: set<State> | p in A.States() && P <= B.States() :: (p, P)
  }

  ghost predicate InSpace(A: Aut, B: Aut, p: State, P: set<State>) {
    p in A.States() && P <= B.States()
  }

  lemma SpaceHas(A: Aut, B: Aut, p: State, P: set<State>)
    ensures (p, P) in Space(A, B) <==> InSpace(A, B, p, P)
  {
  }

  /** The tree has at most n levels. */
  ghost predicate Within(t: Tree, n: nat)
    decreases t
  {
    n > 0 && forall i :: 0 <= i < |t.kids| ==> Within(t.kids[i], n - 1)
  }

  lemma WithinMore(t: Tree, n: nat, m: nat)
    requires Within(t, n) && n <= m
    ensures Within(t, m)
    decreases t
  {
    forall i | 0 <= i < |t.kids| ensures Within(t.kids[i], m - 1) {
      WithinMore(t.kids[i], n - 1, m - 1);
    }
  }

  lemma SomeHeight(t: Tree) returns (n: nat)
    ensures Within(t, n)
    decreases t
  {
    var m := 0;
    var i := 0;
    while i < |t.kids|
      invariant 0 <= i <= |t.kids|
      invariant forall j :: 0 <= j < i ==> Within(t.kids[j], m)
    {
      var k := SomeHeight(t.kids[i]);
      var m' := if k < m then m else k;
      forall j | 0 <= j <= i ensures Within(t.kids[j], m') {
        WithinMore(t.kids[j], if j < i then m else k, m');
      }
      m := m';
      i := i + 1;
    }
    n := m + 1;
  }

  /** Every tree of p with at most n levels is a tree of some state in P. */
  ghost predicate InclAt(A: Aut, B: Aut, p: State, P: set<State>, n: nat) {
    forall t :: Within(t, n) && A.Accepts(p, t) ==> B.AcceptsSome(P, t)
  }

  ghost predicate Incl(A: Aut, B: Aut, p: State, P: set<State>) {
    forall t :: A.Accepts(p, t) ==> B.AcceptsSome(P, t)
  }

  ghost predicate AllAt(A: Aut, B: Aut, W: set<Goal>, n: nat) {
    forall w :: w in W ==> InclAt(A, B, w.0, w.1, n)
  }

  /** At every height, the goal follows from the assumptions W at that height. */
  ghost predicate Follows(A: Aut, B: Aut, W: set<Goal>, p: State, P: set<State>) {
    forall n :: AllAt(A, B, W, n) ==> InclAt(A, B, p, P, n)
  }

  /** Without assumptions this is inclusion. */
  lemma FollowsFromNothing(A: Aut, B: Aut, p: State, P: set<State>)
    ensures Follows(A, B, {}, p, P) <==> Incl(A, B, p, P)
  {
    if Follows(A, B, {}, p, P) {
      forall t | A.Accepts(p, t) ensures B.AcceptsSome(P, t) {
        var n := SomeHeight(t);
        assert AllAt(A, B, {}, n);
      }
    }
  }

  // ---------------------------------------------------------------- tuples

  ghost predicate AllWithin(ts: seq<Tree>, n: nat) {
    forall i :: 0 <= i < |ts| ==> Within(ts[i], n)
  }

  ghost predicate SomeTuple(B: Aut, rhs: set<seq<State>>, ts: seq<Tree>) {
    exists r :: r in rhs && B.AcceptsAll(r, ts)
  }

  /** Every vector of trees of the tuple with at most n levels is accepted by some tuple of rhs. */
  ghost predicate TupleAt(A: Aut, B: Aut, lhs: seq<State>, rhs: set<seq<State>>, n: nat) {
    forall ts :: AllWithin(ts, n) && A.AcceptsAll(lhs, ts) ==> SomeTuple(B, rhs, ts)
  }

  ghost predicate TupleFollows(A: Aut, B: Aut, W: set<Goal>, lhs: seq<State>, rhs: set<seq<State>>) {
    forall n :: AllAt(A, B, W, n) ==> TupleAt(A, B, lhs, rhs, n)
  }

  ghost predicate TupleFails(A: Aut, B: Aut, lhs: seq<State>, rhs: set<seq<State>>) {
    exists ts :: A.AcceptsAll(lhs, ts) && !SomeTuple(B, rhs, ts)
  }

  /** The tuples under symbol a of all the states in P. */
  function TuplesOf(B: Aut, P: set<State>, a: Symbol): set<seq<State>> {
    set tr | tr in B.trans && tr.parent in P && tr.sym == a :: tr.kids
  }

  lemma SomeStateSomeTuple(B: Aut, P: set<State>, t: Tree)
    ensures B.AcceptsSome(P, t) <==> SomeTuple(B, TuplesOf(B, P, t.sym), t.kids)
  {
    if B.AcceptsSome(P, t) {
      var q :| q in P && B.Accepts(q, t);
      B.Unfold(q, t);
      var tr :| B.Step(tr, q, t);
      assert tr.kids in TuplesOf(B, P, t.sym);
    }
    if SomeTuple(B, TuplesOf(B, P, t.sym), t.kids) {
      var r :| r in TuplesOf(B, P, t.sym) && B.AcceptsAll(r, t.kids);
      var tr :| tr in B.trans && tr.parent in P && tr.sym == t.sym && tr.kids == r;
      assert B.Step(tr, tr.parent, t);
      B.Unfold(tr.parent, t);
    }
  }

  /** All the transitions of p follow from W. */
  ghost predicate TransFollow(A: Aut, B: Aut, W: set<Goal>, p: State, P: set<State>) {
    forall tr :: tr in A.trans && tr.parent == p ==> TupleFollows(A, B, W, tr.kids, TuplesOf(B, P, tr.sym))
  }

  /** If the transitions of p follow from W and the goal itself, the goal follows from W:
      the assumption is only used below the root, where the trees are lower. */
  lemma {:induction false} DischargeAt(A: Aut, B: Aut, W: set<Goal>, p: State, P: set<State>, n: nat)
    requires TransFollow(A, B, W + {(p, P)}, p, P) && AllAt(A, B, W, n)
    ensures InclAt(A, B, p, P, n)
  {
    if n > 0 {
      forall w | w in W ensures InclAt(A, B, w.0, w.1, n - 1) {
        InclLower(A, B, w.0, w.1, n - 1, n);
      }
      DischargeAt(A, B, W, p, P, n - 1);
      assert AllAt(A, B, W + {(p, P)}, n - 1);
      forall t | Within(t, n) && A.Accepts(p, t) ensures B.AcceptsSome(P, t) {
        A.Unfold(p, t);
        var tr :| A.Step(tr, p, t);
        assert TupleAt(A, B, tr.kids, TuplesOf(B, P, tr.sym), n - 1);
        assert AllWithin(t.kids, n - 1);
        SomeStateSomeTuple(B, P, t);
      }
    }
  }

  lemma InclLower(A: Aut, B: Aut, p: State, P: set<State>, m: nat, n: nat)
    requires InclAt(A, B, p, P, n) && m <= n
    ensures InclAt(A, B, p, P, m)
  {
    forall t | Within(t, m) && A.Accepts(p, t) ensures B.AcceptsSome(P, t) {
      WithinMore(t, m, n);
    }
  }

  lemma Discharge(A: Aut, B: Aut, W: set<Goal>, p: State, P: set<State>)
    requires TransFollow(A, B, W + {(p, P)}, p, P)
    ensures Follows(A, B, W, p, P)
  {
    forall n | AllAt(A, B, W, n) ensures InclAt(A, B, p, P, n) {
      DischargeAt(A, B, W, p, P, n);
    }
  }

  /** A transition whose tuple fails gives a tree of p that no state of P accepts. */
  lemma FailRefutes(A: Aut, B: Aut, tr: Transition, P: set<State>)
    requires tr in A.trans && TupleFails(A, B, tr.kids, TuplesOf(B, P, tr.sym))
    ensures !Incl(A, B, tr.parent, P)
  {
    var ts :| A.AcceptsAll(tr.kids, ts) && !SomeTuple(B, TuplesOf(B, P, tr.sym), ts);
    var t := Node(tr.sym, ts);
    assert A.Step(tr, tr.parent, t);
    A.Unfold(tr.parent, t);
    SomeStateSomeTuple(B, P, t);
  }

  // ---------------------------------------------------------------- choice functions

  /** The states that the tuples choosing position i have there. */
  function Chosen(rhs: seq<seq<State>>, cf: seq<nat>, i: nat): (S: set<State>)
    requires |cf| == |rhs| && forall k :: 0 <= k < |rhs| ==> i < |rhs[k]|
    ensures forall k :: 0 <= k < |rhs| && cf[k] == i ==> rhs[k][i] in S
    ensures forall s :: s in S ==> exists k :: 0 <= k < |rhs| && cf[k] == i && rhs[k][i] == s
  {
    set k | 0 <= k < |rhs| && cf[k] == i :: rhs[k][i]
  }

  /** For some position chosen by cf, the goal follows. */
  ghost predicate ChoiceFollows(A: Aut, B: Aut, W: set<Goal>, lhs: seq<State>, rhs: seq<seq<State>>, cf: seq<nat>)
    requires |cf| == |rhs| && forall k :: 0 <= k < |rhs| ==> |rhs[k]| == |lhs|
  {
    exists i :: 0 <= i < |lhs| && Follows(A, B, W, lhs[i], Chosen(rhs, cf, i))
  }

  /** If every choice function has such a position, the tuple follows: a vector that no tuple
      accepts would give a choice function by a rejecting position of each. */
  lemma ChoicesSuffice(A: Aut, B: Aut, W: set<Goal>, lhs: seq<State>, rhs: seq<seq<State>>)
    requires forall k :: 0 <= k < |rhs| ==> |rhs[k]| == |lhs|
    requires forall cf :: IsChoice(cf, |rhs|, |lhs|) ==> ChoiceFollows(A, B, W, lhs, rhs, cf)
    ensures TupleFollows(A, B, W, lhs, SetOf(rhs))
  {
    forall n | AllAt(A, B, W, n) ensures TupleAt(A, B, lhs, SetOf(rhs), n) {
      forall ts | AllWithin(ts, n) && A.AcceptsAll(lhs, ts) ensures SomeTuple(B, SetOf(rhs), ts) {
        if forall k :: 0 <= k < |rhs| ==> Rejects(B, rhs[k], ts) {
          var cf := RejectingChoice(B, rhs, ts);
          NoRejectingChoice(A, B, W, lhs, rhs, n, ts, cf);
        } else {
          var k :| 0 <= k < |rhs| && !Rejects(B, rhs[k], ts);
          assert rhs[k] in SetOf(rhs) && B.AcceptsAll(rhs[k], ts);
        }
      }
    }
  }

  lemma NoRejectingChoice(A: Aut, B: Aut, W: set<Goal>, lhs: seq<State>, rhs: seq<seq<State>>, n: nat, ts: seq<Tree>,
          cf: seq<nat>)
    requires forall k :: 0 <= k < |rhs| ==> |rhs[k]| == |lhs|
    requires IsChoice(cf, |rhs|, |lhs|) && ChoiceFollows(A, B, W, lhs, rhs, cf)
    requires AllAt(A, B, W, n) && AllWithin(ts, n) && A.AcceptsAll(lhs, ts)
    ensures exists k :: 0 <= k < |rhs| && B.Accepts(rhs[k][cf[k]], ts[cf[k]])
  {
    var i :| 0 <= i < |lhs| && Follows(A, B, W, lhs[i], Chosen(rhs, cf, i));
    assert InclAt(A, B, lhs[i], Chosen(rhs, cf, i), n);
    var s :| s in Chosen(rhs, cf, i) && B.Accepts(s, ts[i]);
    var k :| 0 <= k < |rhs| && cf[k] == i && rhs[k][i] == s;
    assert B.Accepts(rhs[k][cf[k]], ts[cf[k]]);
  }

  ghost predicate Rejects(B: Aut, r: seq<State>, ts: seq<Tree>) {
    exists i: nat :: i < |r| && i < |ts| && !B.Accepts(r[i], ts[i])
  }

  lemma RejectingChoice(B: Aut, rhs: seq<seq<State>>, ts: seq<Tree>) returns (cf: seq<nat>)
    requires forall k :: 0 <= k < |rhs| ==> |rhs[k]| == |ts|
    requires forall k :: 0 <= k < |rhs| ==> Rejects(B, rhs[k], ts)
    ensures IsChoice(cf, |rhs|, |ts|)
    ensures forall k :: 0 <= k < |rhs| ==> !B.Accepts(rhs[k][cf[k]], ts[cf[k]])
  {
    cf := [];
    while |cf| < |rhs|
      invariant |cf| <= |rhs|
      invariant forall k :: 0 <= k < |cf| ==> cf[k] < |ts| && !B.Accepts(rhs[k][cf[k]], ts[cf[k]])
    {
      assert Rejects(B, rhs[|cf|], ts);
      var i: nat :| i < |ts| && !B.Accepts(rhs[|cf|][i], ts[i]);
      cf := cf + [i];
    }
  }

  /** A choice function refuted at every position refutes the tuple. */
  lemma ChoiceRefutes(A: Aut, B: Aut, lhs: seq<State>, rhs: seq<seq<State>>, cf: seq<nat>, ts: seq<Tree>)
    requires forall k :: 0 <= k < |rhs| ==> |rhs[k]| == |lhs|
    requires IsChoice(cf, |rhs|, |lhs|) && A.AcceptsAll(lhs, ts)
    requires forall i :: 0 <= i < |lhs| ==> !B.AcceptsSome(Chosen(rhs, cf, i), ts[i])
    ensures TupleFails(A, B, lhs, SetOf(rhs))
  {
    forall r | r in SetOf(rhs) ensures !B.AcceptsAll(r, ts) {
      var k :| 0 <= k < |rhs| && rhs[k] == r;
      assert r[cf[k]] in Chosen(rhs, cf, cf[k]);
      assert !B.Accepts(r[cf[k]], ts[cf[k]]);
    }
  }

  /** A bigger tuple, position by position, suffices. */
  lemma TupleBelow(A: Aut, B: Aut, W: set<Goal>, lhs: seq<State>, r: seq<State>, rhs: set<seq<State>>)
    requires r in rhs && |r| == |lhs| && forall i :: 0 <= i < |lhs| ==> Follows(A, B, W, lhs[i], {r[i]})
    ensures TupleFollows(A, B, W, lhs, rhs)
  {
    forall n, ts | AllAt(A, B, W, n) && AllWithin(ts, n) && A.AcceptsAll(lhs, ts) ensures SomeTuple(B, rhs, ts) {
      forall i | 0 <= i < |r| ensures B.Accepts(r[i], ts[i]) {
        assert InclAt(A, B, lhs[i], {r[i]}, n);
        assert B.AcceptsSome({r[i]}, ts[i]);
      }
      assert B.AcceptsAll(r, ts);
    }
    forall n | AllAt(A, B, W, n) ensures TupleAt(A, B, lhs, rhs, n) { }
  }
}
