/** Removal of unreachable and of useless states. */
module Useless {
  import opened Collections
  import opened TreeAutomata

  /** Reading the transitions of path downwards leads from p to q. */
  ghost predicate Above(A: Aut, p: State, path: seq<Transition>, q: State)
    decreases |path|
  {
    if path == [] then p == q else
      path[0] in A.trans && path[0].parent == p
      && exists i :: 0 <= i < |path[0].kids| && Above(A, path[0].kids[i], path[1..], q)
  }

  ghost predicate Reached(A: Aut, q: State) {
    exists f, path :: f in A.finals && Above(A, f, path, q)
  }

  /** The states below some final state. */
  ghost function TopReach(A: Aut): set<State> {
    set q | q in A.States() && Reached(A, q)
  }

  function Keep(A: Aut, reach: set<State>): Aut {
    Aut(A.finals, set tr | tr in A.trans && tr.parent in reach)
  }

  /** What the removal of unreachable states returns: the automaton itself when the numbers
      of reached states and of clusters agree. */
  ghost function UnreachableRemoved(A: Aut): Aut {
    if |TopReach(A)| == |A.Parents()| then A else Keep(A, TopReach(A))
  }

  lemma AboveStep(A: Aut, p: State, path: seq<Transition>, tr: Transition, i: nat)
    requires Above(A, p, path, tr.parent) && tr in A.trans && i < |tr.kids|
    ensures exists path' :: Above(A, p, path', tr.kids[i])
    decreases |path|
  {
    if path == [] {
      assert Above(A, tr.kids[i], [], tr.kids[i]);
      assert [tr][1..] == [];
      assert Above(A, p, [tr], tr.kids[i]);
    } else {
      var j :| 0 <= j < |path[0].kids| && Above(A, path[0].kids[j], path[1..], tr.parent);
      AboveStep(A, path[0].kids[j], path[1..], tr, i);
      var rest :| Above(A, path[0].kids[j], rest, tr.kids[i]);
      assert ([path[0]] + rest)[1..] == rest;
      assert Above(A, p, [path[0]] + rest, tr.kids[i]);
    }
  }

  /** A set with the final states that is closed downwards holds all reached states. */
  lemma AboveStays(A: Aut, T: set<State>, p: State, path: seq<Transition>, q: State)
    requires p in T && Above(A, p, path, q) && Closed(A, T)
    ensures q in T
    decreases |path|
  {
    if path != [] {
      var i :| 0 <= i < |path[0].kids| && Above(A, path[0].kids[i], path[1..], q);
      assert path[0].kids[i] in SetOf(path[0].kids);
      AboveStays(A, T, path[0].kids[i], path[1..], q);
    }
  }

  lemma ReachIsTop(A: Aut, reach: set<State>)
    requires A.finals <= reach <= TopReach(A) && Closed(A, reach)
    ensures reach == TopReach(A)
  {
    forall q | q in TopReach(A) ensures q in reach {
      var f, path :| f in A.finals && Above(A, f, path, q);
      AboveStays(A, reach, f, path, q);
    }
  }

  ghost predicate Closed(A: Aut, T: set<State>) {
    forall tr :: tr in A.trans && tr.parent in T ==> SetOf(tr.kids) <= T
  }

  lemma TopReachClosed(A: Aut)
    ensures A.finals <= TopReach(A) && Closed(A, TopReach(A))
  {
    forall f | f in A.finals ensures f in TopReach(A) {
      assert Above(A, f, [], f);
    }
    forall tr, k | tr in A.trans && tr.parent in TopReach(A) && k in tr.kids ensures k in TopReach(A) {
      var i :| 0 <= i < |tr.kids| && tr.kids[i] == k;
      var f, path :| f in A.finals && Above(A, f, path, tr.parent);
      AboveStep(A, f, path, tr, i);
    }
  }

  /** B accepts like A from the states of T, when it keeps the transitions of T that runs can use. */
  lemma SameAccepts(A: Aut, B: Aut, T: set<State>, q: State, t: Tree)
    requires B.trans <= A.trans && Closed(A, T) && q in T
    requires forall tr :: tr in A.trans && tr.parent in T && (forall i :: 0 <= i < |tr.kids| ==> A.Productive(tr.kids[i])) ==> tr in B.trans
    ensures A.Accepts(q, t) <==> B.Accepts(q, t)
    decreases t
  {
    forall tr, i | tr in A.trans && tr.parent in T && 0 <= i < |tr.kids| == |t.kids|
      ensures A.Accepts(tr.kids[i], t.kids[i]) <==> B.Accepts(tr.kids[i], t.kids[i])
    {
      assert tr.kids[i] in SetOf(tr.kids);
      SameAccepts(A, B, T, tr.kids[i], t.kids[i]);
    }
    A.Unfold(q, t);
    B.Unfold(q, t);
    if A.Accepts(q, t) {
      var tr :| A.Step(tr, q, t);
      assert B.Step(tr, q, t);
    }
    if B.Accepts(q, t) {
      var tr :| B.Step(tr, q, t);
      assert A.Step(tr, q, t);
    }
  }

  lemma UnreachableKeepsLang(A: Aut)
    ensures SameLang(A, UnreachableRemoved(A))
  {
    TopReachClosed(A);
    var B := UnreachableRemoved(A);
    forall t, q | q in A.finals ensures A.Accepts(q, t) <==> B.Accepts(q, t) {
      SameAccepts(A, B, TopReach(A), q, t);
    }
    assert forall t :: A.InLang(t) <==> B.InLang(t);
  }

  /** The returned automaton has only reached states on the left exactly when the sizes differ,
      so that the shortcut is not taken, or every reached state has a transition. */
  lemma UnreachableExact(A: Aut)
    ensures UnreachableRemoved(A).Parents() <= TopReach(A) <==> |TopReach(A)| != |A.Parents()| || TopReach(A) <= A.Parents()
  {
    if |TopReach(A)| == |A.Parents()| {
      if TopReach(A) <= A.Parents() {
        SubsetSameSize(TopReach(A), A.Parents());
      }
      if A.Parents() <= TopReach(A) {
        SubsetSameSize(A.Parents(), TopReach(A));
      }
    }
  }

  /** The shortcut can keep an unreachable state: the only final state has no transitions, and
      the only transitions belong to another state. */
  lemma UnreachableKept()
    ensures var A := Aut({0}, {Transition(1, 7, [])});
            UnreachableRemoved(A) == A && 1 in A.Parents() && 1 !in TopReach(A)
  {
    var A := Aut({0}, {Transition(1, 7, [])});
    TopReachClosed(A);
    forall q | q in TopReach(A) ensures q == 0 {
      var f, path :| f in A.finals && Above(A, f, path, q);
    }
    assert TopReach(A) == {0};
    assert Transition(1, 7, []) in A.trans;
    assert A.Parents() == {1};
  }

  /** Inserts the states of a tuple into the reached ones; the new ones go onto the stack. */
  method Visit(kids: seq<State>, reach: set<State>, stack: seq<State>) returns (reach': set<State>, stack': seq<State>)
    ensures reach' == reach + SetOf(kids)
    ensures SetOf(stack') == SetOf(stack) + (reach' - reach)
    ensures reach' == reach ==> stack' == stack
  {
    reach', stack' := reach, stack;
    var i := 0;
    while i < |kids|
      invariant 0 <= i <= |kids|
      invariant reach' == reach + SetOf(kids[..i])
      invariant SetOf(stack') == SetOf(stack) + (reach' - reach)
      invariant reach' == reach ==> stack' == stack
    {
      assert kids[..i + 1] == kids[..i] + [kids[i]];
      if kids[i] !in reach' {
        stack' := stack' + [kids[i]];
        reach' := reach' + {kids[i]};
      }
      i := i + 1;
    }
    assert kids[..i] == kids;
  }

  /** Visits the children of all transitions of state q. */
  method VisitCluster(A: Aut, q: State, reach: set<State>, stack: seq<State>, ghost bound: set<State>)
    returns (reach': set<State>, stack': seq<State>)
    requires q in reach && reach <= bound && Closed(A, bound)
    ensures reach <= reach' <= bound
    ensures forall tr :: tr in A.trans && tr.parent == q ==> SetOf(tr.kids) <= reach'
    ensures SetOf(stack') == SetOf(stack) + (reach' - reach)
    ensures reach' == reach ==> stack' == stack
  {
    reach', stack' := reach, stack;
    var todo := set tr | tr in A.trans && tr.parent == q;
    while todo != {}
      invariant forall tr :: tr in todo ==> tr in A.trans && tr.parent == q
      invariant reach <= reach' <= bound
      invariant SetOf(stack') == SetOf(stack) + (reach' - reach)
      invariant reach' == reach ==> stack' == stack
      invariant forall tr :: tr in A.trans && tr.parent == q && tr !in todo ==> SetOf(tr.kids) <= reach'
      decreases todo
    {
      var tr :| tr in todo;
      todo := todo - {tr};
      reach', stack' := Visit(tr.kids, reach', stack');
    }
  }

  /** The states below the final ones: closed downwards, and within every such set. */
  method ReachDown(A: Aut, ghost bound: set<State>) returns (reach: set<State>)
    requires A.finals <= bound && Closed(A, bound)
    ensures A.finals <= reach <= bound && Closed(A, reach)
  {
    reach := A.finals;
    var newStates := SetToSeq(A.finals);
    while newStates != []
      invariant A.finals <= reach <= bound && SetOf(newStates) <= reach
      invariant forall tr :: tr in A.trans && tr.parent in reach && tr.parent !in SetOf(newStates) ==> SetOf(tr.kids) <= reach
      decreases bound - reach, |newStates|
    {
      var q := newStates[|newStates| - 1];
      var rest := newStates[..|newStates| - 1];
      assert newStates == rest + [q];
      assert SetOf(newStates) == SetOf(rest) + {q};
      reach, newStates := VisitCluster(A, q, reach, rest, bound);
    }
  }

  /** Removes the transitions of states that are not reached, unless as many states are reached
      as have transitions. The final states stay as they are. */
  method RemoveUnreachableStates(A: Aut) returns (B: Aut)
    ensures B.finals == A.finals
    ensures forall tr :: tr in B.trans <==> tr in A.trans && (|TopReach(A)| == |A.Parents()| || Reached(A, tr.parent))
    ensures B == UnreachableRemoved(A)
  {
    ParentsAreStates(A);
    TopReachClosed(A);
    var reach := ReachDown(A, TopReach(A));
    ReachIsTop(A, reach);
    if |reach| == |A.Parents()| {
      return A;
    }
    B := Keep(A, reach);
  }

  lemma ParentsAreStates(A: Aut)
    ensures forall tr :: tr in A.trans ==> (tr.parent in TopReach(A) <==> Reached(A, tr.parent))
  {
    forall tr | tr in A.trans ensures tr.parent in A.States() {
      TransitionStates(A, tr);
    }
  }

  method SetToSeq(s: set<State>) returns (r: seq<State>)
    ensures SetOf(r) == s
  {
    r := [];
    var todo := s;
    while todo != {}
      invariant todo <= s && SetOf(r) == s - todo
      decreases todo
    {
      var x :| x in todo;
      todo := todo - {x};
      r := r + [x];
    }
  }

  // ---------------------------------------------------------------- useless states

  ghost function Productives(A: Aut): set<State> {
    set q | q in A.States() && A.Productive(q)
  }

  /** The final states and transitions that lie on runs. */
  ghost function ProductivePart(A: Aut): Aut {
    Aut(A.finals * Productives(A), set tr | tr in A.trans && SetOf(tr.kids) <= Productives(A))
  }

  ghost function UselessRemoved(A: Aut): Aut {
    UnreachableRemoved(ProductivePart(A))
  }

  /** A tree that transition tr accepts, with the tree u as child i. */
  lemma TreeWith(A: Aut, tr: Transition, i: nat, u: Tree) returns (t: Tree)
    requires ProductiveKids(A) && tr in A.trans && i < |tr.kids| && A.Accepts(tr.kids[i], u)
    ensures A.Step(tr, tr.parent, t) && A.Accepts(tr.parent, t) && |t.kids| == |tr.kids| && t.kids[i] == u
  {
    t := Node(tr.sym, seq(|tr.kids|, j requires 0 <= j < |tr.kids| => if j == i then u else SomeTree(A, tr.kids[j])));
    A.Unfold(tr.parent, t);
  }

  lemma TreeOf(A: Aut, tr: Transition) returns (t: Tree)
    requires ProductiveKids(A) && tr in A.trans
    ensures A.Step(tr, tr.parent, t) && A.Accepts(tr.parent, t)
  {
    t := Node(tr.sym, seq(|tr.kids|, j requires 0 <= j < |tr.kids| => SomeTree(A, tr.kids[j])));
    A.Unfold(tr.parent, t);
  }

  lemma AboveTakes(A: Aut, p: State, path: seq<Transition>, tr: Transition) returns (t: Tree)
    requires ProductiveKids(A) && Above(A, p, path, tr.parent) && tr in A.trans
    ensures A.RunTakes(p, t, tr)
    decreases |path|
  {
    if path == [] {
      t := TreeOf(A, tr);
    } else {
      var i :| 0 <= i < |path[0].kids| && Above(A, path[0].kids[i], path[1..], tr.parent);
      var u := AboveTakes(A, path[0].kids[i], path[1..], tr);
      t := TreeWith(A, path[0], i, u);
    }
  }

  /** A run that takes tr uses its parent and its children. */
  lemma TakesUses(A: Aut, p: State, t: Tree, tr: Transition, q: State)
    requires A.RunTakes(p, t, tr) && (q == tr.parent || q in tr.kids)
    ensures A.RunUses(p, t, q)
    decreases t
  {
    if A.Step(tr, p, t) {
      if q in tr.kids {
        var i :| 0 <= i < |tr.kids| && tr.kids[i] == q;
        assert A.RunUses(tr.kids[i], t.kids[i], q);
      }
    } else {
      var tr', i :| A.Step(tr', p, t) && 0 <= i < |t.kids| && A.RunTakes(tr'.kids[i], t.kids[i], tr);
      TakesUses(A, tr'.kids[i], t.kids[i], tr, q);
    }
  }

  /** In an automaton with a bigger set of transitions the same runs are possible. */
  lemma MoreTransitions(A: Aut, B: Aut, p: State, t: Tree)
    requires B.trans <= A.trans && B.Accepts(p, t)
    ensures A.Accepts(p, t)
    decreases t
  {
    B.Unfold(p, t);
    var tr :| B.Step(tr, p, t);
    forall i | 0 <= i < |t.kids| ensures A.Accepts(tr.kids[i], t.kids[i]) {
      MoreTransitions(A, B, tr.kids[i], t.kids[i]);
    }
    assert A.Step(tr, p, t);
    A.Unfold(p, t);
  }

  lemma MoreSteps(A: Aut, B: Aut, tr: Transition, p: State, t: Tree)
    requires B.trans <= A.trans && B.Step(tr, p, t)
    ensures A.Step(tr, p, t)
  {
    forall j | 0 <= j < |t.kids| ensures A.Accepts(tr.kids[j], t.kids[j]) {
      MoreTransitions(A, B, tr.kids[j], t.kids[j]);
    }
  }

  lemma MoreTakes(A: Aut, B: Aut, p: State, t: Tree, tr: Transition)
    requires B.trans <= A.trans && B.RunTakes(p, t, tr)
    ensures A.RunTakes(p, t, tr)
    decreases t
  {
    MoreTransitions(A, B, p, t);
    if B.Step(tr, p, t) {
      MoreSteps(A, B, tr, p, t);
    } else {
      var tr', i :| B.Step(tr', p, t) && 0 <= i < |t.kids| && B.RunTakes(tr'.kids[i], t.kids[i], tr);
      MoreTakes(A, B, tr'.kids[i], t.kids[i], tr);
      MoreSteps(A, B, tr', p, t);
    }
  }

  /** Every run stays inside the reached states of the productive part. */
  lemma TakenIsReached(A: Aut, B: Aut, p: State, t: Tree, tr: Transition)
    requires B == ProductivePart(A) && p in TopReach(B) && A.RunTakes(p, t, tr)
    ensures tr in B.trans && tr.parent in TopReach(B)
    decreases t
  {
    forall tr' | A.Step(tr', p, t) ensures tr' in B.trans && SetOf(tr'.kids) <= TopReach(B) {
      StepIsProductive(A, tr', p, t);
      TopReachClosed(B);
    }
    if !A.Step(tr, p, t) {
      var tr', i :| A.Step(tr', p, t) && 0 <= i < |t.kids| && A.RunTakes(tr'.kids[i], t.kids[i], tr);
      assert tr'.kids[i] in SetOf(tr'.kids);
      TakenIsReached(A, B, tr'.kids[i], t.kids[i], tr);
    }
  }

  lemma StepIsProductive(A: Aut, tr: Transition, p: State, t: Tree)
    requires A.Step(tr, p, t)
    ensures tr in ProductivePart(A).trans
  {
    forall k | k in tr.kids ensures k in Productives(A) {
      var i :| 0 <= i < |tr.kids| && tr.kids[i] == k;
      assert A.Accepts(tr.kids[i], t.kids[i]);
      assert tr.kids[i] in A.States();
    }
  }

  lemma ProductivePartAccepts(A: Aut, q: State, t: Tree)
    requires q in A.States()
    ensures A.Accepts(q, t) <==> ProductivePart(A).Accepts(q, t)
  {
    var B := ProductivePart(A);
    forall tr, k | tr in A.trans && k in tr.kids ensures k in A.States() {
      var i :| 0 <= i < |tr.kids| && tr.kids[i] == k;
    }
    assert Closed(A, A.States());
    SameAccepts(A, B, A.States(), q, t);
  }

  lemma ProductivePartIs(A: Aut)
    ensures ProductiveKids(ProductivePart(A)) && SameLang(A, ProductivePart(A))
    ensures forall q :: q in TopReach(ProductivePart(A)) ==> ProductivePart(A).Productive(q)
  {
    var B := ProductivePart(A);
    forall q | q in Productives(A) ensures B.Productive(q) {
      ProductivePartAccepts(A, q, SomeTree(A, q));
    }
    forall tr, k | tr in B.trans && k in tr.kids ensures k in Productives(A) {
      assert k in SetOf(tr.kids);
    }
    assert Closed(B, Productives(A));
    forall q | q in TopReach(B) ensures q in Productives(A) {
      var f, path :| f in B.finals && Above(B, f, path, q);
      AboveStays(B, Productives(A), f, path, q);
    }
    forall t ensures A.InLang(t) <==> B.InLang(t) {
      forall q | q in A.finals ensures A.Accepts(q, t) <==> q in B.finals && B.Accepts(q, t) {
        ProductivePartAccepts(A, q, t);
      }
    }
  }

  /** After the removal of unproductive states the shortcut on equal sizes does no harm. */
  lemma ShortcutHarmless(B: Aut)
    requires forall q :: q in TopReach(B) ==> B.Productive(q)
    ensures UnreachableRemoved(B) == Keep(B, TopReach(B))
  {
    forall q | q in TopReach(B) ensures q in B.Parents() {
      B.Unfold(q, SomeTree(B, q));
    }
    if |TopReach(B)| == |B.Parents()| {
      assert B.Parents() == TopReach(B) + (B.Parents() - TopReach(B));
      assert Keep(B, TopReach(B)).trans == B.trans;
    }
  }

  /** T is A without the transitions and final states that no accepting run uses. */
  ghost predicate OnlyUsed(A: Aut, T: Aut) {
    && (forall tr :: tr in T.trans <==> tr in A.trans && A.Used(tr))
    && (forall q :: q in T.finals <==> q in A.finals && A.Productive(q))
  }

  /** Exactly the transitions of accepting runs are left, every state left is useful, and
      the language is the same. */
  lemma UselessRemovedExact(A: Aut)
    ensures SameLang(A, UselessRemoved(A))
    ensures forall tr :: tr in UselessRemoved(A).trans <==> tr in A.trans && A.Used(tr)
    ensures forall q :: q in UselessRemoved(A).finals <==> q in A.finals && A.Productive(q)
    ensures UselessRemoved(A).Trimmed()
  {
    var P := ProductivePart(A);
    var B := UselessRemoved(A);
    ProductivePartIs(A);
    UnreachableKeepsLang(P);
    ShortcutHarmless(P);
    TopReachClosed(P);
    forall tr | tr in A.trans ensures tr in B.trans <==> A.Used(tr) {
      KeptIffUsed(A, tr);
    }
    forall q | q in B.States() ensures B.Useful(q) {
      StateIsUseful(B, P, q);
    }
  }

  lemma KeptIffUsed(A: Aut, tr: Transition)
    requires tr in A.trans && ProductiveKids(ProductivePart(A))
    ensures tr in Keep(ProductivePart(A), TopReach(ProductivePart(A))).trans <==> A.Used(tr)
  {
    var P := ProductivePart(A);
    var B := Keep(P, TopReach(P));
    if A.Used(tr) { UsedIsKept(A, tr); }
    if tr in B.trans {
      var f, t := KeptIsUsed(P, tr);
      MoreTakes(A, B, f, t, tr);
    }
  }

  lemma UsedIsKept(A: Aut, tr: Transition)
    requires A.Used(tr)
    ensures tr in Keep(ProductivePart(A), TopReach(ProductivePart(A))).trans
  {
    var P := ProductivePart(A);
    var p, t :| p in A.finals && A.RunTakes(p, t, tr);
    assert p in Productives(A);
    TopReachClosed(P);
    TakenIsReached(A, P, p, t, tr);
  }

  /** Restricting to the reached states keeps their runs. */
  lemma KeptAccepts(P: Aut, q: State, t: Tree)
    requires q in TopReach(P)
    ensures P.Accepts(q, t) <==> Keep(P, TopReach(P)).Accepts(q, t)
  {
    TopReachClosed(P);
    SameAccepts(P, Keep(P, TopReach(P)), TopReach(P), q, t);
  }

  lemma KeptKidsProductive(P: Aut)
    requires ProductiveKids(P)
    ensures ProductiveKids(Keep(P, TopReach(P)))
  {
    TopReachClosed(P);
    forall tr, k | tr in Keep(P, TopReach(P)).trans && k in tr.kids ensures Keep(P, TopReach(P)).Productive(k) {
      assert k in SetOf(tr.kids);
      KeptAccepts(P, k, SomeTree(P, k));
    }
  }

  lemma KeptAbove(P: Aut, p: State, path: seq<Transition>, q: State)
    requires p in TopReach(P) && Above(P, p, path, q)
    ensures Above(Keep(P, TopReach(P)), p, path, q)
    decreases |path|
  {
    TopReachClosed(P);
    if path != [] {
      var i :| 0 <= i < |path[0].kids| && Above(P, path[0].kids[i], path[1..], q);
      assert path[0].kids[i] in SetOf(path[0].kids);
      KeptAbove(P, path[0].kids[i], path[1..], q);
    }
  }

  lemma KeptIsUsed(P: Aut, tr: Transition) returns (f: State, t: Tree)
    requires ProductiveKids(P) && tr in Keep(P, TopReach(P)).trans
    ensures f in P.finals && Keep(P, TopReach(P)).RunTakes(f, t, tr)
  {
    var path;
    f, path :| f in P.finals && Above(P, f, path, tr.parent);
    TopReachClosed(P);
    KeptAbove(P, f, path, tr.parent);
    KeptKidsProductive(P);
    t := AboveTakes(Keep(P, TopReach(P)), f, path, tr);
  }

  lemma FinalIsUseful(B: Aut, P: Aut, q: State)
    requires B == Keep(P, TopReach(P)) && q in B.finals && P.Productive(q)
    ensures B.Useful(q)
  {
    TopReachClosed(P);
    KeptAccepts(P, q, SomeTree(P, q));
    assert B.RunUses(q, SomeTree(P, q), q);
  }

  lemma StateIsUseful(B: Aut, P: Aut, q: State)
    requires B == Keep(P, TopReach(P)) && ProductiveKids(P) && q in B.States()
    requires forall q :: q in TopReach(P) ==> P.Productive(q)
    ensures B.Useful(q)
  {
    if tr :| tr in B.trans && (q == tr.parent || q in tr.kids) {
      var f, t := KeptIsUsed(P, tr);
      TakesUses(B, f, t, tr, q);
    } else {
      TopReachClosed(P);
      FinalIsUseful(B, P, q);
    }
  }

  // ---------------------------------------------------------------- the countdown

  /** For every transition with children, the children not yet known to be productive. */
  type Open = map<Transition, set<State>>

  ghost function Completed(open: Open): set<Transition> {
    set tr | tr in open && open[tr] == {}
  }

  /** The children of the transitions that are still open are those outside of popped. */
  ghost predicate Counting(A: Aut, open: Open, popped: set<State>) {
    && (forall tr :: tr in open <==> tr in A.trans && tr.kids != [])
    && (forall tr :: tr in open ==> open[tr] == SetOf(tr.kids) - popped)
  }

  /** Every open transition is listed at each of its children, and nothing else is. */
  ghost predicate Occurrences(open: Open, stateMap: map<State, set<Transition>>) {
    && (forall tr, s {:trigger tr in open, s in tr.kids} :: tr in open && s in tr.kids ==> s in stateMap && tr in stateMap[s])
    && (forall s, tr {:trigger tr in stateMap[s]} :: s in stateMap && tr in stateMap[s] ==> tr in open && s in tr.kids)
  }

  /** The transitions found to lie on runs, and the states they reach. */
  ghost predicate Found(A: Aut, open: Open, reach: set<State>, done: set<Transition>) {
    && reach <= Productives(A)
    && (forall tr :: tr in done <==> tr in A.trans && (tr.kids == [] || (tr in open && open[tr] == {})))
    && (forall tr :: tr in done ==> tr.parent in reach)
  }

  lemma ReachIsProductive(A: Aut, reach: set<State>, q: State, t: Tree)
    requires A.Accepts(q, t)
    requires forall tr :: tr in A.trans && SetOf(tr.kids) <= reach ==> tr.parent in reach
    ensures q in reach
    decreases t
  {
    A.Unfold(q, t);
    var tr :| A.Step(tr, q, t);
    forall k | k in tr.kids ensures k in reach {
      var i :| 0 <= i < |tr.kids| && tr.kids[i] == k;
      ReachIsProductive(A, reach, tr.kids[i], t.kids[i]);
    }
  }

  lemma NothingLeft(S: set<State>, T: set<State>)
    ensures S <= T <==> S - T == {}
  {
    if S - T == {} {
      forall x | x in S ensures x in T { assert x !in S - T; }
    }
  }

  /** With nothing left to pop, the states found are the productive ones. */
  lemma CountdownDone(A: Aut, open: Open, reach: set<State>, done: set<Transition>)
    requires Counting(A, open, reach) && Found(A, open, reach, done)
    ensures reach == Productives(A)
    ensures done == ProductivePart(A).trans
  {
    forall q | q in Productives(A) ensures q in reach {
      ReachIsProductive(A, reach, q, SomeTree(A, q));
    }
    forall tr | tr in A.trans ensures tr in done <==> SetOf(tr.kids) <= reach {
      NothingLeft(SetOf(tr.kids), reach);
    }
  }

  /** The parent of a completed transition is productive. */
  lemma CompletedParent(A: Aut, tr: Transition, reach: set<State>)
    requires tr in A.trans && SetOf(tr.kids) <= reach && reach <= Productives(A)
    ensures tr.parent in Productives(A)
  {
    assert forall i :: 0 <= i < |tr.kids| ==> tr.kids[i] in SetOf(tr.kids);
    var t := Node(tr.sym, seq(|tr.kids|, i requires 0 <= i < |tr.kids| => SomeTree(A, tr.kids[i])));
    assert A.Step(tr, tr.parent, t);
    A.Unfold(tr.parent, t);
  }

  /** The leaf transitions outside of todo have been entered. */
  ghost predicate Leaves(A: Aut, todo: set<Transition>, reach: set<State>, done: set<Transition>, newStates: seq<State>) {
    && reach <= Productives(A) && NoDup(newStates) && SetOf(newStates) == reach
    && (forall tr :: tr in done <==> tr in A.trans - todo && tr.kids == [])
    && (forall tr :: tr in done ==> tr.parent in reach)
  }

  /** The other transitions outside of todo have been entered; remaining counts their children. */
  ghost predicate Infos(A: Aut, todo: set<Transition>, open: Open, stateMap: map<State, set<Transition>>, remaining: nat) {
    && (forall tr :: tr in open <==> tr in A.trans - todo && tr.kids != [])
    && (forall tr :: tr in open ==> open[tr] == SetOf(tr.kids))
    && Occurrences(open, stateMap) && remaining >= |open|
  }

  method AddLeaf(A: Aut, tr: Transition, ghost todo: set<Transition>, reach: set<State>, done: set<Transition>,
          newStates: seq<State>)
    returns (reach': set<State>, done': set<Transition>, newStates': seq<State>)
    requires Leaves(A, todo, reach, done, newStates) && tr in todo && tr in A.trans && tr.kids == []
    ensures Leaves(A, todo - {tr}, reach', done', newStates')
  {
    reach', done', newStates' := reach, done + {tr}, newStates;
    CompletedParent(A, tr, {});
    if tr.parent !in reach {
      newStates' := newStates + [tr.parent];
      reach' := reach + {tr.parent};
      assert tr.parent !in SetOf(newStates);
    }
  }

  /** Enters transition tr into the lists of its children. */
  method AddInfo(A: Aut, tr: Transition, ghost todo: set<Transition>, open: Open,
          stateMap: map<State, set<Transition>>, remaining: nat)
    returns (open': Open, stateMap': map<State, set<Transition>>, remaining': nat)
    requires Infos(A, todo, open, stateMap, remaining) && tr in todo && tr in A.trans && tr.kids != []
    ensures Infos(A, todo - {tr}, open', stateMap', remaining')
  {
    open' := open[tr := SetOf(tr.kids)];
    var n;
    stateMap', n := ListAtKids(tr, stateMap);
    remaining' := remaining + n;
    assert open'.Keys == open.Keys + {tr};
    Listed(open, open', stateMap, stateMap', tr);
    Entered(A, tr, todo, open, open');
  }

  lemma Entered(A: Aut, tr: Transition, todo: set<Transition>, open: Open, open': Open)
    requires forall x :: x in open <==> x in A.trans - todo && x.kids != []
    requires forall x :: x in open ==> open[x] == SetOf(x.kids)
    requires open' == open[tr := SetOf(tr.kids)] && tr in todo && tr in A.trans && tr.kids != []
    ensures forall x :: x in open' <==> x in A.trans - (todo - {tr}) && x.kids != []
    ensures forall x :: x in open' ==> open'[x] == SetOf(x.kids)
    ensures |open'| == |open| + 1
  {
    assert tr !in open;
  }

  lemma Listed(open: Open, open': Open, stateMap: map<State, set<Transition>>,
          stateMap': map<State, set<Transition>>, tr: Transition)
    requires Occurrences(open, stateMap) && open'.Keys == open.Keys + {tr}
    requires forall s :: s in stateMap' <==> s in stateMap || s in tr.kids
    requires forall s :: s in stateMap' ==>
               stateMap'[s] == (if s in stateMap then stateMap[s] else {}) + if s in tr.kids then {tr} else {}
    ensures Occurrences(open', stateMap')
  {
    forall x, s | x in open' && s in x.kids ensures s in stateMap' && x in stateMap'[s] {
      if x != tr { assert x in open; }
    }
    forall s, x | s in stateMap' && x in stateMap'[s] ensures x in open' && s in x.kids {
      if x != tr { assert x in stateMap[s]; }
    }
  }

  method ListAtKids(tr: Transition,
          stateMap: map<State, set<Transition>>) returns (stateMap': map<State, set<Transition>>, n: nat)
    requires tr.kids != []
    ensures forall s :: s in stateMap' <==> s in stateMap || s in tr.kids
    ensures forall s :: s in stateMap' ==>
              stateMap'[s] == (if s in stateMap then stateMap[s] else {}) + if s in tr.kids then {tr} else {}
    ensures n >= 1
  {
    stateMap', n := stateMap, 0;
    var kids := SetOf(tr.kids);
    var todo := kids;
    assert tr.kids[0] in todo;
    while todo != {}
      invariant todo <= kids && (todo == kids || n >= 1)
      invariant forall s :: s in stateMap' <==> s in stateMap || s in kids - todo
      invariant forall s :: s in stateMap' ==>
                  stateMap'[s] == (if s in stateMap then stateMap[s] else {}) + if s in kids - todo then {tr} else {}
      decreases todo
    {
      var s :| s in todo;
      todo := todo - {s};
      stateMap' := stateMap'[s := (if s in stateMap' then stateMap'[s] else {}) + {tr}];
      n := n + 1;
    }
  }

  method BuildInfos(A: Aut)
    returns (open: Open, stateMap: map<State, set<Transition>>, reach: set<State>, done: set<Transition>, newStates: seq<State>, remaining: nat)
    ensures Leaves(A, {}, reach, done, newStates) && Infos(A, {}, open, stateMap, remaining)
  {
    open, stateMap, reach, done, newStates, remaining := map[], map[], {}, {}, [], 0;
    var todo := A.trans;
    while todo != {}
      invariant todo <= A.trans
      invariant Leaves(A, todo, reach, done, newStates) && Infos(A, todo, open, stateMap, remaining)
      decreases todo
    {
      var tr :| tr in todo;
      if tr.kids == [] {
        reach, done, newStates := AddLeaf(A, tr, todo, reach, done, newStates);
      } else {
        open, stateMap, remaining := AddInfo(A, tr, todo, open, stateMap, remaining);
      }
      todo := todo - {tr};
    }
  }

  /** While the lists of state q are gone through: q is struck out of the transitions not in todo. */
  ghost predicate Striking(A: Aut, open: Open, popped: set<State>, q: State, todo: set<Transition>) {
    && (forall tr :: tr in open <==> tr in A.trans && tr.kids != [])
    && (forall tr :: tr in open ==> open[tr] == SetOf(tr.kids) - popped - if tr in todo then {} else {q})
  }

  /** The states found but not popped are on the stack, once each; completed transitions are
      counted off remaining. */
  ghost predicate Stacked(open: Open, reach: set<State>, newStates: seq<State>, popped: set<State>, remaining: int) {
    && NoDup(newStates) && reach == popped + SetOf(newStates) && popped !! SetOf(newStates)
    && remaining + |Completed(open)| >= |open|
  }

  /** Notes that the child q of transition tr is productive. */
  method ReachedBy(A: Aut, tr: Transition, q: State, open: Open, reach: set<State>, done: set<Transition>,
          newStates: seq<State>,
                   remaining: nat, ghost popped: set<State>, ghost todo: set<Transition>)
    returns (open': Open, reach': set<State>, done': set<Transition>, newStates': seq<State>, remaining': nat)
    requires Striking(A, open, popped, q, todo) && tr in todo && tr in open && q in tr.kids
    requires Found(A, open, reach, done) && Stacked(open, reach, newStates, popped + {q}, remaining)
    requires q !in popped
    ensures Striking(A, open', popped, q, todo - {tr})
    ensures Found(A, open', reach', done') && Stacked(open', reach', newStates', popped + {q}, remaining')
    ensures open'.Keys == open.Keys && reach <= reach'
  {
    StrikeOne(A, tr, q, open, popped, todo);
    StrikeCompletes(open, tr, q);
    open' := open[tr := open[tr] - {q}];
    if open'[tr] != {} {
      FoundKept(A, open, open', reach, done, tr);
      return open', reach, done, newStates, remaining;
    }
    NothingLeft(SetOf(tr.kids), popped + {q});
    CompletedParent(A, tr, reach);
    CompletedAtMost(open');
    done' := done + {tr};
    remaining' := remaining - 1;
    FoundMore(A, open, open', reach, done, tr);
    if tr.parent in reach {
      return open', reach, done', newStates, remaining';
    }
    newStates' := newStates + [tr.parent];
    reach' := reach + {tr.parent};
    PushFound(open, open', reach, newStates, popped + {q}, remaining, tr.parent);
  }

  lemma FoundKept(A: Aut, open: Open, open': Open, reach: set<State>, done: set<Transition>, tr: Transition)
    requires Found(A, open, reach, done) && tr in open && open[tr] != {}
    requires tr in open' && open' == open[tr := open'[tr]] && open'[tr] != {}
    ensures Found(A, open', reach, done)
  {
  }

  lemma FoundMore(A: Aut, open: Open, open': Open, reach: set<State>, done: set<Transition>, tr: Transition)
    requires Found(A, open, reach, done) && tr in open && tr in A.trans && tr.parent in Productives(A)
    requires open' == open[tr := {}]
    ensures Found(A, open', reach + {tr.parent}, done + {tr})
    ensures tr.parent in reach ==> Found(A, open', reach, done + {tr})
  {
  }

  lemma PushFound(open: Open, open': Open, reach: set<State>, newStates: seq<State>, popped: set<State>,
          remaining: int, p: State)
    requires Stacked(open, reach, newStates, popped, remaining) && p !in reach
    requires |open'| == |open| && |Completed(open')| == |Completed(open)| + 1
    ensures Stacked(open', reach + {p}, newStates + [p], popped, remaining - 1)
  {
    PushDistinct(newStates, p);
  }

  lemma PushDistinct(s: seq<State>, x: State)
    requires NoDup(s) && x !in SetOf(s)
    ensures NoDup(s + [x]) && SetOf(s + [x]) == SetOf(s) + {x}
  {
  }

  lemma StrikeOne(A: Aut, tr: Transition, q: State, open: Open, popped: set<State>, todo: set<Transition>)
    requires Striking(A, open, popped, q, todo) && tr in todo && tr in open
    ensures Striking(A, open[tr := open[tr] - {q}], popped, q, todo - {tr})
    ensures open[tr] - {q} == SetOf(tr.kids) - (popped + {q})
    ensures q in tr.kids && q !in popped ==> q in open[tr]
  {
  }

  lemma StrikeCompletes(open: Open, tr: Transition, q: State)
    requires tr in open && q in open[tr]
    ensures |open[tr := open[tr] - {q}]| == |open|
    ensures |Completed(open[tr := open[tr] - {q}])| == |Completed(open)| + if open[tr] - {q} == {} then 1 else 0
  {
    var open' := open[tr := open[tr] - {q}];
    assert open'.Keys == open.Keys;
    assert tr !in Completed(open);
    assert Completed(open') == Completed(open) + if open'[tr] == {} then {tr} else {};
  }

  lemma CompletedAtMost(open: Open)
    ensures |Completed(open)| <= |open|
    ensures |Completed(open)| == |open| ==> forall tr :: tr in open ==> open[tr] == {}
  {
    assert Completed(open) <= open.Keys;
    assert open.Keys == Completed(open) + (open.Keys - Completed(open));
    if |Completed(open)| == |open| {
      assert open.Keys - Completed(open) == {};
      forall tr | tr in open ensures open[tr] == {} { assert tr !in open.Keys - Completed(open); }
    }
  }

  /** Strikes the productive state q out of all the transitions that have it as a child. */
  method Strike(A: Aut, q: State, infos: set<Transition>, open: Open, reach: set<State>, done: set<Transition>,
          newStates: seq<State>,
                remaining: nat, ghost popped: set<State>)
    returns (open': Open, reach': set<State>, done': set<Transition>, newStates': seq<State>, remaining': nat)
    requires Counting(A, open, popped) && q !in popped
    requires forall tr :: tr in infos <==> tr in open && q in tr.kids
    requires Found(A, open, reach, done) && Stacked(open, reach, newStates, popped + {q}, remaining)
    ensures Counting(A, open', popped + {q}) && open'.Keys == open.Keys
    ensures Found(A, open', reach', done') && Stacked(open', reach', newStates', popped + {q}, remaining')
    ensures reach <= reach'
  {
    open', reach', done', newStates', remaining' := open, reach, done, newStates, remaining;
    var todo := infos;
    forall tr | tr in open && tr !in infos ensures SetOf(tr.kids) - popped == SetOf(tr.kids) - popped - {q} {
      assert q !in SetOf(tr.kids);
    }
    while todo != {}
      invariant todo <= infos && Striking(A, open', popped, q, todo) && open'.Keys == open.Keys
      invariant Found(A, open', reach', done') && Stacked(open', reach', newStates', popped + {q}, remaining')
      invariant reach <= reach'
      decreases todo
    {
      var tr :| tr in todo;
      open', reach', done', newStates', remaining' := ReachedBy(A, tr, q, open', reach', done', newStates', remaining', popped, todo);
      todo := todo - {tr};
    }
    forall tr | tr in open' ensures open'[tr] == SetOf(tr.kids) - (popped + {q}) {
      assert SetOf(tr.kids) - (popped + {q}) == SetOf(tr.kids) - popped - {q};
    }
  }

  lemma CountdownStart(A: Aut, open: Open, stateMap: map<State, set<Transition>>, reach: set<State>,
          done: set<Transition>, newStates: seq<State>, remaining: nat)
    requires Leaves(A, {}, reach, done, newStates) && Infos(A, {}, open, stateMap, remaining)
    ensures Counting(A, open, {}) && Occurrences(open, stateMap)
    ensures Found(A, open, reach, done) && Stacked(open, reach, newStates, {}, remaining)
  {
    forall tr | tr in open ensures open[tr] == SetOf(tr.kids) - {} && open[tr] != {} {
      assert tr.kids[0] in SetOf(tr.kids);
    }
  }

  lemma PopState(open: Open, reach: set<State>, newStates: seq<State>, popped: set<State>, remaining: int)
    requires Stacked(open, reach, newStates, popped, remaining) && newStates != []
    ensures var q := newStates[|newStates| - 1];
            q in reach && q !in popped && Stacked(open, reach, newStates[..|newStates| - 1], popped + {q}, remaining)
  {
    var q, rest := newStates[|newStates| - 1], newStates[..|newStates| - 1];
    assert newStates == rest + [q];
    assert q in SetOf(newStates) && SetOf(newStates) == SetOf(rest) + {q} && q !in SetOf(rest);
  }

  lemma InfosOf(open: Open, stateMap: map<State, set<Transition>>, q: State)
    requires Occurrences(open, stateMap)
    ensures forall tr :: tr in (if q in stateMap then stateMap[q] else {}) <==> tr in open && q in tr.kids
  {
  }

  lemma OccurrencesKeys(open: Open, open': Open, stateMap: map<State, set<Transition>>)
    requires Occurrences(open, stateMap) && open'.Keys == open.Keys
    ensures Occurrences(open', stateMap)
  {
    assert forall tr :: tr in open' <==> tr in open.Keys;
  }

  /** The countdown: afterwards the states found are the productive ones, and remaining is
      zero only if all transitions have been completed. */
  method FindProductive(A: Aut) returns (reach: set<State>, done: set<Transition>, remaining: nat)
    ensures reach == Productives(A) && done == ProductivePart(A).trans
    ensures remaining == 0 ==> done == A.trans
  {
    var open, stateMap, newStates;
    open, stateMap, reach, done, newStates, remaining := BuildInfos(A);
    CountdownStart(A, open, stateMap, reach, done, newStates, remaining);
    ghost var popped: set<State> := {};
    while newStates != []
      invariant Counting(A, open, popped) && Occurrences(open, stateMap)
      invariant Found(A, open, reach, done) && Stacked(open, reach, newStates, popped, remaining)
      decreases Productives(A) - popped
    {
      var q := newStates[|newStates| - 1];
      PopState(open, reach, newStates, popped, remaining);
      InfosOf(open, stateMap, q);
      newStates := newStates[..|newStates| - 1];
      ghost var open0 := open;
      open, reach, done, newStates, remaining :=
        Strike(A, q, if q in stateMap then stateMap[q] else {}, open, reach, done, newStates, remaining, popped);
      OccurrencesKeys(open0, open, stateMap);
      popped := popped + {q};
    }
    AllCompleted(A, open, reach, done, popped, remaining);
  }

  /** At the end, remaining is zero only when every transition has been completed. */
  lemma AllCompleted(A: Aut, open: Open, reach: set<State>, done: set<Transition>, popped: set<State>, remaining: nat)
    requires Counting(A, open, popped) && Found(A, open, reach, done) && Stacked(open, reach, [], popped, remaining)
    ensures reach == Productives(A) && done == ProductivePart(A).trans
    ensures remaining == 0 ==> done == A.trans
  {
    assert reach == popped;
    CountdownDone(A, open, reach, done);
    CompletedAtMost(open);
    if remaining == 0 {
      forall tr | tr in A.trans ensures tr in done { }
    }
  }

  method RemoveUselessStates(A: Aut) returns (B: Aut)
    ensures B == UselessRemoved(A)
    ensures SameLang(A, B) && B.Trimmed()
    ensures forall tr :: tr in B.trans <==> tr in A.trans && A.Used(tr)
    ensures forall q :: q in B.finals <==> q in A.finals && A.Productive(q)
  {
    UselessRemovedExact(A);
    var reach, done, remaining := FindProductive(A);
    var finals := set q | q in A.finals && q in reach;
    assert finals == ProductivePart(A).finals;
    if remaining == 0 {
      B := RemoveUnreachableStates(Aut(finals, A.trans));
    } else {
      B := RemoveUnreachableStates(Aut(finals, done));
    }
  }

}
