/** What the upward inclusion check rests on: pairs of a state of the smaller automaton and states
    of the bigger one, derived step by step and pruned through a preorder. When this is an upward
    simulation, they represent what trees reach. */
module UpSpec {
  import opened Collections
  import opened InclusionSpec
  import opened Preorders
  import opened TreeAutomata
  import opened Useless

  ghost predicate InH(H: set<Goal>, q: State, P: set<State>) {
    (q, P) in H
  }

  // ---------------------------------------------------------------- upward simulation

  /** With q instead of its child at position i, the transition has one that leads higher. */
  ghost predicate Answered(A: Aut, B: Aut, R: Preorder, tr: Transition, i: nat, q: State)
    requires i < |tr.kids|
  {
    exists tr' :: tr' in A.trans + B.trans && tr'.sym == tr.sym && tr'.kids == tr.kids[i := q] && Rel(R, tr.parent, tr'.parent)
  }

  ghost predicate FinalAt(A: Aut, B: Aut, R: Preorder, p: State, q: State) {
    Rel(R, p, q) && p in A.finals + B.finals ==> q in A.finals + B.finals
  }

  /** A preorder on the states of both automata that keeps final states. */
  ghost predicate KeepsFinals(A: Aut, B: Aut, R: Preorder) {
    && Reflexive(R, A.States() + B.States()) && Transitive(R)
    && (forall p, q {:trigger FinalAt(A, B, R, p, q)} :: FinalAt(A, B, R, p, q))
  }

  /** Besides, bigger children, with the siblings unchanged, lead to bigger parents. */
  ghost predicate Upward(A: Aut, B: Aut, R: Preorder) {
    && KeepsFinals(A, B, R)
    && (forall tr, i: nat, q: State {:trigger Answered(A, B, R, tr, i, q)} ::
          tr in A.trans + B.trans && i < |tr.kids| && Rel(R, tr.kids[i], q) ==> Answered(A, B, R, tr, i, q))
  }

  lemma InOne(A: Aut, B: Aut, tr: Transition, i: nat)
    requires DisjointStates(A, B) && tr in A.trans + B.trans && i < |tr.kids|
    ensures tr.kids[i] in A.States() ==> tr in A.trans
    ensures tr.kids[i] in B.States() ==> tr in B.trans
    ensures tr in A.trans ==> forall k :: 0 <= k < |tr.kids| ==> tr.kids[k] in A.States()
    ensures tr in B.trans ==> forall k :: 0 <= k < |tr.kids| ==> tr.kids[k] in B.States()
  {
    forall k | 0 <= k < |tr.kids| ensures tr.kids[k] in SetOf(tr.kids) { }
    if tr in A.trans { TransitionStates(A, tr); }
    if tr in B.trans { TransitionStates(B, tr); }
  }

  /** The transition with a bigger child of the bigger automaton. */
  lemma BiggerKid(A: Aut, B: Aut, R: Preorder, tr: Transition, i: nat, q: State) returns (tr': Transition)
    requires Upward(A, B, R) && DisjointStates(A, B) && tr in A.trans + B.trans && i < |tr.kids| && Rel(R, tr.kids[i], q)
    ensures tr' in A.trans + B.trans && tr'.sym == tr.sym && tr'.kids == tr.kids[i := q] && Rel(R, tr.parent, tr'.parent)
    ensures q in A.States() ==> tr' in A.trans
    ensures q in B.States() ==> tr' in B.trans
  {
    assert Answered(A, B, R, tr, i, q);
    tr' :| tr' in A.trans + B.trans && tr'.sym == tr.sym && tr'.kids == tr.kids[i := q] && Rel(R, tr.parent, tr'.parent);
    InOne(A, B, tr', i);
  }

  /** The states that the tree reaches. */
  ghost function Reach(B: Aut, t: Tree): (r: set<State>)
    ensures forall s :: s in r <==> B.Accepts(s, t)
    ensures r <= B.States()
  {
    forall s | B.Accepts(s, t) ensures s in B.States() {
      B.Unfold(s, t);
    }
    set s | s in B.States() && B.Accepts(s, t)
  }

  ghost predicate Fits(tr: Transition, a: Symbol, Ps: seq<set<State>>) {
    tr.sym == a && |tr.kids| == |Ps| && forall i :: 0 <= i < |Ps| ==> tr.kids[i] in Ps[i]
  }

  /** The states reached under symbol a from children in the given sets. */
  ghost function Post(B: Aut, a: Symbol, Ps: seq<set<State>>): (r: set<State>)
    ensures r <= B.States()
  {
    set tr | tr in B.trans && Fits(tr, a, Ps) :: tr.parent
  }

  ghost function ReachOf(B: Aut, ts: seq<Tree>): (Ps: seq<set<State>>)
    ensures |Ps| == |ts| && forall i :: 0 <= i < |Ps| ==> Ps[i] == Reach(B, ts[i])
  {
    seq(|ts|, i requires 0 <= i < |ts| => Reach(B, ts[i]))
  }

  lemma PostOfReach(B: Aut, a: Symbol, ts: seq<Tree>)
    ensures Post(B, a, ReachOf(B, ts)) == Reach(B, Node(a, ts))
  {
    var t, Ps := Node(a, ts), ReachOf(B, ts);
    forall s ensures s in Post(B, a, Ps) <==> B.Accepts(s, t) {
      B.Unfold(s, t);
      if B.Accepts(s, t) {
        var tr :| B.Step(tr, s, t);
        assert Fits(tr, a, Ps);
      }
      if s in Post(B, a, Ps) {
        var tr :| tr in B.trans && Fits(tr, a, Ps) && tr.parent == s;
        assert B.Step(tr, s, t);
      }
    }
  }

  lemma PostMonotonic(B: Aut, a: Symbol, Ps: seq<set<State>>, Qs: seq<set<State>>)
    requires |Ps| == |Qs| && forall i :: 0 <= i < |Ps| ==> Ps[i] <= Qs[i]
    ensures Post(B, a, Ps) <= Post(B, a, Qs)
  {
    forall s | s in Post(B, a, Ps) ensures s in Post(B, a, Qs) {
      var tr :| tr in B.trans && Fits(tr, a, Ps) && tr.parent == s;
      assert Fits(tr, a, Qs);
    }
  }

  ghost predicate AllCovered(B: Aut, R: Preorder, Ps: seq<set<State>>, Qs: seq<set<State>>) {
    |Ps| == |Qs| && forall i :: 0 <= i < |Ps| ==> Covered(R, Ps[i], Qs[i]) && Qs[i] <= B.States()
  }

  /** A transition from covered sets has a bigger one from the sets that cover them, child by child. */
  lemma BiggerKids(A: Aut, B: Aut, R: Preorder, tr: Transition, Ps: seq<set<State>>, Qs: seq<set<State>>) returns (tr': Transition)
    requires Upward(A, B, R) && DisjointStates(A, B) && AllCovered(B, R, Ps, Qs) && tr in B.trans && Fits(tr, tr.sym, Ps)
    ensures tr' in B.trans && Fits(tr', tr.sym, Qs) && Rel(R, tr.parent, tr'.parent)
  {
    tr' := tr;
    TransitionStates(B, tr);
    for i := 0 to |Ps|
      invariant tr' in B.trans && tr'.sym == tr.sym && |tr'.kids| == |Ps| && Rel(R, tr.parent, tr'.parent)
      invariant forall k :: 0 <= k < i ==> tr'.kids[k] in Qs[k]
      invariant forall k :: i <= k < |Ps| ==> tr'.kids[k] == tr.kids[k]
    {
      assert tr.kids[i] in Ps[i] && Covered(R, Ps[i], Qs[i]) && Meets(R, tr.kids[i], Qs[i]);
      var q :| q in Qs[i] && Rel(R, tr.kids[i], q);
      ghost var parent := tr'.parent;
      tr' := BiggerKid(A, B, R, tr', i, q);
      RelTrans(R, tr.parent, parent, tr'.parent);
    }
  }

  lemma PostCovered(A: Aut, B: Aut, R: Preorder, a: Symbol, Ps: seq<set<State>>, Qs: seq<set<State>>)
    requires Upward(A, B, R) && DisjointStates(A, B) && AllCovered(B, R, Ps, Qs)
    ensures Covered(R, Post(B, a, Ps), Post(B, a, Qs))
  {
    forall s | s in Post(B, a, Ps) ensures Meets(R, s, Post(B, a, Qs)) {
      var tr :| tr in B.trans && Fits(tr, a, Ps) && tr.parent == s;
      var tr' := BiggerKids(A, B, R, tr, Ps, Qs);
      assert tr'.parent in Post(B, a, Qs);
    }
  }

  // ---------------------------------------------------------------- pairs that stand for trees

  /** Some of the states that the tree reaches, above which there is nothing else that it reaches. */
  ghost predicate Represents(B: Aut, R: Preorder, t: Tree, P: set<State>) {
    P <= Reach(B, t) && Covered(R, Reach(B, t), P)
  }

  /** Reading the tree upward leads to the pair, with pruning after every step. */
  ghost predicate DerivedBy(A: Aut, B: Aut, R: Preorder, q: State, P: set<State>, t: Tree)
    decreases t
  {
    exists tr, Ps: seq<set<State>> ::
      && tr in A.trans && tr.parent == q && tr.sym == t.sym && |tr.kids| == |Ps| == |t.kids|
      && Pruned(R, Post(B, tr.sym, Ps), P) && Flat(R, P)
      && forall i :: 0 <= i < |t.kids| ==> DerivedBy(A, B, R, tr.kids[i], Ps[i], t.kids[i])
  }

  ghost predicate Derived(A: Aut, B: Aut, R: Preorder, q: State, P: set<State>) {
    exists t :: DerivedBy(A, B, R, q, P, t)
  }

  ghost predicate AllDerived(A: Aut, B: Aut, R: Preorder, qs: seq<State>, Ps: seq<set<State>>) {
    |qs| == |Ps| && forall i :: 0 <= i < |qs| ==> Derived(A, B, R, qs[i], Ps[i])
  }

  lemma Combine(A: Aut, B: Aut, R: Preorder, tr: Transition, Ps: seq<set<State>>, S: set<State>)
    requires tr in A.trans && AllDerived(A, B, R, tr.kids, Ps)
    requires Pruned(R, Post(B, tr.sym, Ps), S) && Flat(R, S)
    ensures Derived(A, B, R, tr.parent, S)
  {
    var ts := Derivations(A, B, R, tr.kids, Ps);
    assert DerivedBy(A, B, R, tr.parent, S, Node(tr.sym, ts));
  }

  lemma Derivations(A: Aut, B: Aut, R: Preorder, qs: seq<State>, Ps: seq<set<State>>) returns (ts: seq<Tree>)
    requires AllDerived(A, B, R, qs, Ps)
    ensures |ts| == |qs| && forall i :: 0 <= i < |ts| ==> DerivedBy(A, B, R, qs[i], Ps[i], ts[i])
  {
    ts := [];
    while |ts| < |qs|
      invariant |ts| <= |qs|
      invariant forall i :: 0 <= i < |ts| ==> DerivedBy(A, B, R, qs[i], Ps[i], ts[i])
    {
      assert Derived(A, B, R, qs[|ts|], Ps[|ts|]);
      var t :| DerivedBy(A, B, R, qs[|ts|], Ps[|ts|], t);
      ts := ts + [t];
    }
  }

  /** In an upward simulation, pruning loses nothing: the pair represents what the tree reaches. */
  lemma {:induction false} DerivedRepresents(A: Aut, B: Aut, R: Preorder, q: State, P: set<State>, t: Tree)
    requires Upward(A, B, R) && DisjointStates(A, B) && DerivedBy(A, B, R, q, P, t)
    ensures A.Accepts(q, t) && Represents(B, R, t, P)
    decreases t
  {
    var tr, Ps: seq<set<State>> :|
      && tr in A.trans && tr.parent == q && tr.sym == t.sym && |tr.kids| == |Ps| == |t.kids|
      && Pruned(R, Post(B, tr.sym, Ps), P) && Flat(R, P)
      && forall i :: 0 <= i < |t.kids| ==> DerivedBy(A, B, R, tr.kids[i], Ps[i], t.kids[i]);
    forall i | 0 <= i < |t.kids| ensures A.Accepts(tr.kids[i], t.kids[i]) && Represents(B, R, t.kids[i], Ps[i]) {
      DerivedRepresents(A, B, R, tr.kids[i], Ps[i], t.kids[i]);
    }
    StepRepresents(A, B, R, t, Ps, P);
    assert A.Step(tr, q, t);
    A.Unfold(q, t);
  }

  lemma StepRepresents(A: Aut, B: Aut, R: Preorder, t: Tree, Ps: seq<set<State>>, P: set<State>)
    requires Upward(A, B, R) && DisjointStates(A, B) && |Ps| == |t.kids| && Pruned(R, Post(B, t.sym, Ps), P)
    requires forall i :: 0 <= i < |t.kids| ==> Represents(B, R, t.kids[i], Ps[i])
    ensures Represents(B, R, t, P)
  {
    PostOfReach(B, t.sym, t.kids);
    PostMonotonic(B, t.sym, Ps, ReachOf(B, t.kids));
    PostCovered(A, B, R, t.sym, ReachOf(B, t.kids), Ps);
    assert t == Node(t.sym, t.kids);
    CoveredTrans(R, Reach(B, t), Post(B, t.sym, Ps), P);
  }

  lemma FinalAbove(A: Aut, B: Aut, R: Preorder, f: State, X: set<State>, P: set<State>)
    requires Upward(A, B, R) && DisjointStates(A, B) && f in X && f in A.finals + B.finals && Covered(R, X, P) && P <= B.States()
    ensures P * B.finals != {}
  {
    assert Meets(R, f, P);
    var p :| p in P && Rel(R, f, p);
    assert FinalAt(A, B, R, f, p);
    assert p in B.States() && p !in A.States();
    assert p in P * B.finals;
  }

  /** An accepted tree that reaches no final state of the bigger automaton. */
  lemma Rejected(A: Aut, B: Aut, R: Preorder, q: State, P: set<State>)
    requires Upward(A, B, R) && DisjointStates(A, B)
    requires Derived(A, B, R, q, P) && q in A.finals && P * B.finals == {}
    ensures !Included(A, B)
  {
    var t :| DerivedBy(A, B, R, q, P, t);
    DerivedRepresents(A, B, R, q, P, t);
    forall f | f in B.finals ensures !B.Accepts(f, t) {
      if f in Reach(B, t) { FinalAbove(A, B, R, f, Reach(B, t), P); }
    }
    assert A.InLang(t) && !B.InLang(t);
  }

  lemma StuckChild(B: Aut, tr: Transition, s: State, t: Tree, i: nat)
    requires i < |t.kids| && Reach(B, t.kids[i]) == {}
    ensures !B.Step(tr, s, t)
  {
    if |tr.kids| == |t.kids| {
      assert tr.kids[i] !in Reach(B, t.kids[i]);
    }
  }

  /** A tree that reaches nothing can be put into an accepted tree, which then reaches nothing. */
  lemma Plug(A: Aut, B: Aut, p: State, t: Tree, q: State, u: Tree) returns (t': Tree)
    requires A.RunUses(p, t, q) && A.Accepts(q, u) && Reach(B, u) == {}
    ensures A.Accepts(p, t') && Reach(B, t') == {}
    decreases t
  {
    if p == q {
      return u;
    }
    var tr, i :| A.Step(tr, p, t) && 0 <= i < |t.kids| && A.RunUses(tr.kids[i], t.kids[i], q);
    var v := Plug(A, B, tr.kids[i], t.kids[i], q, u);
    t' := PlugChild(A, B, tr, p, t, i, v);
  }

  lemma PlugChild(A: Aut, B: Aut, tr: Transition, p: State, t: Tree, i: nat, v: Tree) returns (t': Tree)
    requires A.Step(tr, p, t) && i < |t.kids| && A.Accepts(tr.kids[i], v) && Reach(B, v) == {}
    ensures A.Accepts(p, t') && Reach(B, t') == {}
  {
    t' := Node(t.sym, t.kids[i := v]);
    assert A.Step(tr, p, t');
    A.Unfold(p, t');
    forall s ensures !B.Accepts(s, t') {
      B.Unfold(s, t');
      forall tr' ensures !B.Step(tr', s, t') {
        StuckChild(B, tr', s, t', i);
      }
    }
  }

  lemma Stuck(A: Aut, B: Aut, R: Preorder, q: State)
    requires Upward(A, B, R) && DisjointStates(A, B) && A.Trimmed() && q in A.States() && Derived(A, B, R, q, {})
    ensures !Included(A, B)
  {
    var u :| DerivedBy(A, B, R, q, {}, u);
    DerivedRepresents(A, B, R, q, {}, u);
    forall s ensures s !in Reach(B, u) {
      assert s in Reach(B, u) ==> Meets(R, s, {});
    }
    assert Reach(B, u) == {};
    assert A.Useful(q);
    var p, t :| p in A.finals && A.RunUses(p, t, q);
    var t' := Plug(A, B, p, t, q, u);
    UnreachedRefutes(A, B, p, t');
  }

  lemma UnreachedRefutes(A: Aut, B: Aut, p: State, t: Tree)
    requires p in A.finals && A.Accepts(p, t) && Reach(B, t) == {}
    ensures !Included(A, B)
  {
    assert A.InLang(t);
    forall f | f in B.finals ensures !B.Accepts(f, t) {
      assert f !in Reach(B, t);
    }
    assert !B.InLang(t);
  }

  // ---------------------------------------------------------------- antichains

  /** Some stored pair has a state above q, and its set is covered by S. */
  ghost predicate Subsumed(R: Preorder, H: set<Goal>, q: State, S: set<State>) {
    exists p, P :: InH(H, p, P) && Rel(R, q, p) && Covered(R, P, S)
  }

  /** The pair needs no attention. */
  ghost predicate Covers(R: Preorder, H: set<Goal>, q: State, S: set<State>) {
    Meets(R, q, S) || Subsumed(R, H, q, S)
  }

  lemma CoversUp(R: Preorder, H: set<Goal>, q: State, S: set<State>, q': State, S': set<State>)
    requires Transitive(R) && Covers(R, H, q', S') && Rel(R, q, q') && Covered(R, S', S)
    ensures Covers(R, H, q, S)
  {
    if Meets(R, q', S') {
      var s' :| s' in S' && Rel(R, q', s');
      assert Meets(R, s', S);
      var s :| s in S && Rel(R, s', s);
      RelTrans(R, q, q', s');
      RelTrans(R, q, s', s);
    } else {
      SubsumedUp(R, H, q, S, q', S');
    }
  }

  lemma SubsumedUp(R: Preorder, H: set<Goal>, q: State, S: set<State>, q': State, S': set<State>)
    requires Transitive(R) && Subsumed(R, H, q', S') && Rel(R, q, q') && Covered(R, S', S)
    ensures Subsumed(R, H, q, S)
  {
    var p, P :| InH(H, p, P) && Rel(R, q', p) && Covered(R, P, S');
    CoveredTrans(R, P, S', S);
    RelTrans(R, q, q', p);
  }

  ghost predicate CoversMore(R: Preorder, H: set<Goal>, H': set<Goal>) {
    forall q, S :: Subsumed(R, H, q, S) ==> Subsumed(R, H', q, S)
  }

  ghost predicate From(D: set<Goal>, qs: seq<State>, Ps: seq<set<State>>) {
    |qs| == |Ps| && forall i :: 0 <= i < |qs| ==> InH(D, qs[i], Ps[i])
  }

  /** Whatever the transitions give on children from D is covered by H. */
  ghost predicate Saturated(A: Aut, B: Aut, R: Preorder, H: set<Goal>, D: set<Goal>) {
    forall tr, Ps {:trigger Post(B, tr.sym, Ps), tr in A.trans} :: tr in A.trans && From(D, tr.kids, Ps) ==>
      Covers(R, H, tr.parent, Post(B, tr.sym, Ps))
  }

  ghost predicate Typed(A: Aut, B: Aut, H: set<Goal>) {
    forall q, P :: InH(H, q, P) ==> q in A.States() && P <= B.States()
  }

  /** A tuple with a child from each automaton. */
  lemma OtherKid(A: Aut, B: Aut, tr: Transition, i: nat, s: State) returns (k: nat)
    requires DisjointStates(A, B) && tr in A.trans && i < |tr.kids| && |tr.kids| > 1
    ensures k < |tr.kids| && tr.kids[i := s][k] !in B.States()
  {
    InOne(A, B, tr, i);
    k := if i == 0 then 1 else 0;
  }

  /** A child that is below a state of the bigger automaton must be the only one, and then so is
      the parent. */
  lemma OnlyKid(A: Aut, B: Aut, R: Preorder, tr: Transition, i: nat, t: Tree)
    requires Upward(A, B, R) && DisjointStates(A, B) && tr in A.trans && i < |tr.kids| == |t.kids| && tr.sym == t.sym
    requires Meets(R, tr.kids[i], Reach(B, t.kids[i]))
    ensures Meets(R, tr.parent, Reach(B, t))
  {
    var s :| s in Reach(B, t.kids[i]) && Rel(R, tr.kids[i], s);
    var tr' := BiggerKid(A, B, R, tr, i, s);
    InOne(A, B, tr, i);
    InOne(A, B, tr', i);
    if |tr.kids| > 1 { var k := OtherKid(A, B, tr, i, s); }
    assert tr'.kids == [s];
    assert B.Step(tr', tr'.parent, t);
    B.Unfold(tr'.parent, t);
  }

  ghost predicate KidsCovered(B: Aut, R: Preorder, H: set<Goal>, tr: Transition, t: Tree) {
    |tr.kids| == |t.kids| && forall i :: 0 <= i < |tr.kids| ==> Covers(R, H, tr.kids[i], Reach(B, t.kids[i]))
  }

  /** Child by child, the transition is lifted to one whose children are stored. */
  lemma Lift(A: Aut, B: Aut, R: Preorder, H: set<Goal>, tr: Transition, t: Tree) returns (tr': Transition, Ps: seq<set<State>>)
    requires Upward(A, B, R) && DisjointStates(A, B) && Typed(A, B, H)
    requires tr in A.trans && tr.sym == t.sym && KidsCovered(B, R, H, tr, t)
    requires forall i :: 0 <= i < |tr.kids| ==> !Meets(R, tr.kids[i], Reach(B, t.kids[i]))
    ensures tr' in A.trans && tr'.sym == tr.sym && Rel(R, tr.parent, tr'.parent) && From(H, tr'.kids, Ps)
    ensures AllCovered(B, R, Ps, ReachOf(B, t.kids))
  {
    tr', Ps := tr, [];
    TransitionStates(A, tr);
    while |Ps| < |tr.kids|
      invariant |Ps| <= |tr.kids| == |tr'.kids| && tr' in A.trans && tr'.sym == tr.sym && Rel(R, tr.parent, tr'.parent)
      invariant forall k :: 0 <= k < |Ps| ==> InH(H, tr'.kids[k], Ps[k]) && Covered(R, Ps[k], Reach(B, t.kids[k]))
      invariant forall k :: |Ps| <= k < |tr.kids| ==> tr'.kids[k] == tr.kids[k]
    {
      var i := |Ps|;
      assert Covers(R, H, tr.kids[i], Reach(B, t.kids[i]));
      var p, P :| InH(H, p, P) && Rel(R, tr.kids[i], p) && Covered(R, P, Reach(B, t.kids[i]));
      ghost var parent := tr'.parent;
      tr' := BiggerKid(A, B, R, tr', i, p);
      RelTrans(R, tr.parent, parent, tr'.parent);
      Ps := Ps + [P];
    }
  }

  /** In a saturated set every tree is covered. */
  lemma SaturatedCovers(A: Aut, B: Aut, R: Preorder, H: set<Goal>, q: State, t: Tree)
    requires Upward(A, B, R) && DisjointStates(A, B) && Typed(A, B, H) && Saturated(A, B, R, H, H) && A.Accepts(q, t)
    ensures Covers(R, H, q, Reach(B, t))
    decreases t
  {
    A.Unfold(q, t);
    var tr :| A.Step(tr, q, t);
    forall i | 0 <= i < |tr.kids| ensures Covers(R, H, tr.kids[i], Reach(B, t.kids[i])) {
      SaturatedCovers(A, B, R, H, tr.kids[i], t.kids[i]);
    }
    if i :| 0 <= i < |tr.kids| && Meets(R, tr.kids[i], Reach(B, t.kids[i])) {
      OnlyKid(A, B, R, tr, i, t);
    } else {
      var tr', Ps := Lift(A, B, R, H, tr, t);
      PostCovered(A, B, R, t.sym, Ps, ReachOf(B, t.kids));
      PostOfReach(B, t.sym, t.kids);
      assert Covers(R, H, tr'.parent, Post(B, tr'.sym, Ps));
      assert t == Node(t.sym, t.kids);
      CoversUp(R, H, q, Reach(B, t), tr'.parent, Post(B, t.sym, Ps));
    }
  }

  /** A pair that the check may store: derived, and accepting on the right if on the left. */
  ghost predicate Good(A: Aut, B: Aut, R: Preorder, q: State, P: set<State>) {
    q in A.States() && P <= B.States() && Derived(A, B, R, q, P) && (q in A.finals ==> P * B.finals != {})
  }

  lemma SaturatedIncluded(A: Aut, B: Aut, R: Preorder, H: set<Goal>)
    requires Upward(A, B, R) && DisjointStates(A, B) && Saturated(A, B, R, H, H)
    requires forall q, P :: InH(H, q, P) ==> Good(A, B, R, q, P)
    ensures Included(A, B)
  {
    forall t | A.InLang(t) ensures B.InLang(t) {
      var q :| q in A.finals && A.Accepts(q, t);
      SaturatedCovers(A, B, R, H, q, t);
      FinalCovered(A, B, R, H, q, Reach(B, t));
      var f :| f in Reach(B, t) * B.finals;
    }
  }

  /** What an answer of the check is based on: a saturated set of good pairs, or a derived pair
      that has no states, or no final state where one is needed. */
  ghost predicate Certified(A: Aut, B: Aut, R: Preorder) {
    exists H :: Saturated(A, B, R, H, H) && AllGoodIn(A, B, R, H)
  }

  ghost predicate AllGoodIn(A: Aut, B: Aut, R: Preorder, H: set<Goal>) {
    forall q, P :: InH(H, q, P) ==> Good(A, B, R, q, P)
  }

  ghost predicate Refuted(A: Aut, B: Aut, R: Preorder) {
    exists q, P :: q in A.States() && Derived(A, B, R, q, P) && (P == {} || (q in A.finals && P * B.finals == {}))
  }

  /** In an upward simulation, either basis decides inclusion. */
  lemma BasisDecides(A: Aut, B: Aut, R: Preorder)
    requires Upward(A, B, R) && DisjointStates(A, B) && A.Trimmed()
    ensures Certified(A, B, R) ==> Included(A, B)
    ensures Refuted(A, B, R) ==> !Included(A, B)
  {
    if Certified(A, B, R) {
      var H :| Saturated(A, B, R, H, H) && AllGoodIn(A, B, R, H);
      SaturatedIncluded(A, B, R, H);
    }
    if Refuted(A, B, R) {
      var q, P :| q in A.States() && Derived(A, B, R, q, P) && (P == {} || (q in A.finals && P * B.finals == {}));
      if P == {} { Stuck(A, B, R, q); } else { Rejected(A, B, R, q, P); }
    }
  }

  lemma FinalCovered(A: Aut, B: Aut, R: Preorder, H: set<Goal>, q: State, S: set<State>)
    requires Upward(A, B, R) && DisjointStates(A, B) && (forall p, P :: InH(H, p, P) ==> Good(A, B, R, p, P))
    requires q in A.finals && Covers(R, H, q, S) && S <= B.States()
    ensures S * B.finals != {}
  {
    if Meets(R, q, S) {
      FinalAbove(A, B, R, q, {q}, S);
    } else {
      var p, P :| InH(H, p, P) && Rel(R, q, p) && Covered(R, P, S);
      assert Good(A, B, R, p, P);
      FinalAccepts(A, B, R, q, p, P, S);
    }
  }

  lemma FinalAccepts(A: Aut, B: Aut, R: Preorder, q: State, p: State, P: set<State>, S: set<State>)
    requires Upward(A, B, R) && DisjointStates(A, B) && Good(A, B, R, p, P) && q in A.finals && Rel(R, q, p)
    requires Covered(R, P, S) && S <= B.States()
    ensures S * B.finals != {}
  {
    assert FinalAt(A, B, R, q, p);
    assert p in A.finals by { assert p in A.States() && p !in B.States(); }
    var f :| f in P * B.finals;
    FinalAbove(A, B, R, f, P, S);
  }

  /** With Q at position j of transition tr, and stored pairs from E elsewhere, H covers the result. */
  ghost predicate HandledAt(A: Aut, B: Aut, R: Preorder, H: set<Goal>, Q: set<State>, tr: Transition, j: nat, E: set<Goal>) {
    forall Ps {:trigger Post(B, tr.sym, Ps)} :: FromExcept(E, tr.kids, Ps, j, Q) ==> Covers(R, H, tr.parent, Post(B, tr.sym, Ps))
  }

  ghost predicate FromExcept(E: set<Goal>, qs: seq<State>, Ps: seq<set<State>>, j: nat, Q: set<State>) {
    |qs| == |Ps| && j < |Ps| && Ps[j] == Q && forall i :: 0 <= i < |qs| && i != j ==> InH(E, qs[i], Ps[i])
  }

  lemma HandledMore(A: Aut, B: Aut, R: Preorder, H: set<Goal>, H': set<Goal>, Q: set<State>, tr: Transition, j: nat, E: set<Goal>,
          E': set<Goal>)
    requires HandledAt(A, B, R, H, Q, tr, j, E) && CoversMore(R, H, H') && E' <= E
    ensures HandledAt(A, B, R, H', Q, tr, j, E')
  {
    forall Ps | FromExcept(E', tr.kids, Ps, j, Q) ensures Covers(R, H', tr.parent, Post(B, tr.sym, Ps)) {
      forall i | 0 <= i < |tr.kids| && i != j ensures InH(E, tr.kids[i], Ps[i]) {
        assert InH(E', tr.kids[i], Ps[i]);
      }
      assert FromExcept(E, tr.kids, Ps, j, Q);
      assert Covers(R, H, tr.parent, Post(B, tr.sym, Ps));
    }
  }

  /** When all the transitions with q have been handled at q's positions, the popped pair can
      be counted among the processed ones. */
  lemma PopSaturates(A: Aut, B: Aut, R: Preorder, H0: set<Goal>, D: set<Goal>, H: set<Goal>, E: set<Goal>, q: State, Q: set<State>)
    requires Saturated(A, B, R, H0, D) && CoversMore(R, H0, H) && E <= D + {(q, Q)}
    requires forall tr, j {:trigger HandledAt(A, B, R, H, Q, tr, j, E)} ::
               tr in A.trans && 0 <= j < |tr.kids| && tr.kids[j] == q ==> HandledAt(A, B, R, H, Q, tr, j, E)
    ensures Saturated(A, B, R, H, E)
  {
    forall tr, Ps | tr in A.trans && From(E, tr.kids, Ps) ensures Covers(R, H, tr.parent, Post(B, tr.sym, Ps)) {
      if j :| 0 <= j < |tr.kids| && tr.kids[j] == q && Ps[j] == Q {
        assert HandledAt(A, B, R, H, Q, tr, j, E);
        assert FromExcept(E, tr.kids, Ps, j, Q);
      } else {
        forall i | 0 <= i < |tr.kids| ensures InH(D, tr.kids[i], Ps[i]) {
          assert InH(E, tr.kids[i], Ps[i]);
        }
        assert From(D, tr.kids, Ps);
        assert Covers(R, H0, tr.parent, Post(B, tr.sym, Ps));
      }
    }
  }
}
