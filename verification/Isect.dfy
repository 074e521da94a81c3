/** Intersection: the product of two automata, built from the pairs of final states. */
module Isect {
  import opened Collections
  import opened Translators
  import opened TreeAutomata

  datatype Pair = Pair(left: State, right: State)

  type ProductTranslMap = map<Pair, State>

  /** Tuples of the two automata under one symbol. */
  datatype Join = Join(sym: Symbol, left: seq<State>, right: seq<State>)

  /** Distinct numbers below the size. */
  ghost predicate Dense(m: ProductTranslMap) {
    && (forall p :: p in m ==> m[p] < |m|)
    && (forall p, q :: p in m && q in m && m[p] == m[q] ==> p == q)
  }

  /** So they are all the numbers below the size. */
  lemma DenseIsOnto(m: ProductTranslMap)
    requires Dense(m)
    ensures m.Values == Below(|m|)
  {
    var numbers := Used(m, m.Keys);
    NumbersUsed(m, m.Keys);
    assert |m| == |m.Keys| && numbers <= Below(|m|);
    SubsetSameSize(numbers, Below(|m|));
    assert numbers == m.Values;
  }

  ghost predicate Has(m: ProductTranslMap, q: State, r: State) {
    Pair(q, r) in m
  }

  ghost predicate MapExtends(m': ProductTranslMap, m: ProductTranslMap) {
    forall p :: p in m ==> p in m' && m'[p] == m[p]
  }

  ghost predicate Knows(m: ProductTranslMap, j: Join) {
    |j.left| == |j.right| && forall i :: 0 <= i < |j.left| ==> Has(m, j.left[i], j.right[i])
  }

  /** The numbers of the pairs of children. */
  ghost function Numbers(m: ProductTranslMap, j: Join): (kids: seq<State>)
    requires Knows(m, j)
    ensures |kids| == |j.left| && forall i :: 0 <= i < |kids| ==> Has(m, j.left[i], j.right[i]) && kids[i] == m[Pair(j.left[i], j.right[i])]
  {
    seq(|j.left|, i requires 0 <= i < |j.left| => assert Has(m, j.left[i], j.right[i]); m[Pair(j.left[i], j.right[i])])
  }

  /** Transitions of both automata from the two states. */
  ghost predicate Joined(L: Aut, R: Aut, q: State, r: State, j: Join) {
    Transition(q, j.sym, j.left) in L.trans && Transition(r, j.sym, j.right) in R.trans
  }

  /** The transitions of a pair are those of its joins. */
  ghost predicate Row(L: Aut, R: Aut, m: ProductTranslMap, trans: set<Transition>, q: State, r: State) {
    Has(m, q, r) ==>
      && (forall j {:trigger Joined(L, R, q, r, j)} :: Joined(L, R, q, r, j) ==> Knows(m, j) && Transition(m[Pair(q, r)], j.sym, Numbers(m, j)) in trans)
      && (forall tr :: tr in trans && tr.parent == m[Pair(q, r)] ==> exists j :: Joined(L, R, q, r, j) && j.sym == tr.sym && Knows(m, j) && Numbers(m, j) == tr.kids)
  }

  lemma RowStays(L: Aut, R: Aut, m: ProductTranslMap, trans: set<Transition>, m': ProductTranslMap,
          trans': set<Transition>, q: State, r: State)
    requires Row(L, R, m, trans, q, r) && Has(m, q, r) && MapExtends(m', m)
    requires forall tr: Transition :: tr.parent == m[Pair(q, r)] ==> (tr in trans <==> tr in trans')
    ensures Row(L, R, m', trans', q, r)
  {
    forall j | Knows(m, j) ensures Knows(m', j) && Numbers(m', j) == Numbers(m, j) {
      KnowsStill(m, m', j);
    }
  }

  lemma KnowsStill(m: ProductTranslMap, m': ProductTranslMap, j: Join)
    requires Knows(m, j) && MapExtends(m', m)
    ensures Knows(m', j) && Numbers(m', j) == Numbers(m, j)
  {
    forall i | 0 <= i < |j.left| ensures Has(m', j.left[i], j.right[i]) && m'[Pair(j.left[i], j.right[i])] == m[Pair(j.left[i], j.right[i])] {
      assert Has(m, j.left[i], j.right[i]);
    }
  }

  /** The number of a pair accepts what both states accept. */
  lemma {:induction false} PairAccepts(L: Aut, R: Aut, m: ProductTranslMap, D: Aut, q: State, r: State, t: Tree)
    requires forall q, r :: Has(m, q, r) ==> Row(L, R, m, D.trans, q, r)
    requires Has(m, q, r)
    ensures D.Accepts(m[Pair(q, r)], t) <==> L.Accepts(q, t) && R.Accepts(r, t)
    decreases t
  {
    forall j | Knows(m, j) ensures KidsMeet(L, R, m, D, j, t) {
      KidsAccept(L, R, m, D, j, t);
    }
    L.Unfold(q, t);
    R.Unfold(r, t);
    D.Unfold(m[Pair(q, r)], t);
    if tr :| D.Step(tr, m[Pair(q, r)], t) {
      StepToBoth(L, R, m, D, q, r, t, tr);
    }
    if tl, tr :| L.Step(tl, q, t) && R.Step(tr, r, t) {
      StepFromBoth(L, R, m, D, q, r, t, tl, tr);
    }
  }

  /** The numbers of a join accept what both its tuples accept. */
  ghost predicate KidsMeet(L: Aut, R: Aut, m: ProductTranslMap, D: Aut, j: Join, t: Tree)
    requires Knows(m, j)
  {
    D.AcceptsAll(Numbers(m, j), t.kids) <==> L.AcceptsAll(j.left, t.kids) && R.AcceptsAll(j.right, t.kids)
  }

  lemma StepToBoth(L: Aut, R: Aut, m: ProductTranslMap, D: Aut, q: State, r: State, t: Tree, tr: Transition)
    requires Has(m, q, r) && Row(L, R, m, D.trans, q, r) && D.Step(tr, m[Pair(q, r)], t)
    requires forall j :: Knows(m, j) ==> KidsMeet(L, R, m, D, j, t)
    ensures (exists tl :: L.Step(tl, q, t)) && (exists tr' :: R.Step(tr', r, t))
  {
    var j :| Joined(L, R, q, r, j) && j.sym == tr.sym && Knows(m, j) && Numbers(m, j) == tr.kids;
    assert KidsMeet(L, R, m, D, j, t);
    assert L.Step(Transition(q, j.sym, j.left), q, t);
    assert R.Step(Transition(r, j.sym, j.right), r, t);
  }

  lemma StepFromBoth(L: Aut, R: Aut, m: ProductTranslMap, D: Aut, q: State, r: State, t: Tree, tl: Transition,
          tr: Transition)
    requires Has(m, q, r) && Row(L, R, m, D.trans, q, r) && L.Step(tl, q, t) && R.Step(tr, r, t)
    requires forall j :: Knows(m, j) ==> KidsMeet(L, R, m, D, j, t)
    ensures exists tr' :: D.Step(tr', m[Pair(q, r)], t)
  {
    var j := Join(t.sym, tl.kids, tr.kids);
    assert tl == Transition(q, j.sym, j.left) && tr == Transition(r, j.sym, j.right);
    assert Joined(L, R, q, r, j);
    assert KidsMeet(L, R, m, D, j, t);
    assert D.Step(Transition(m[Pair(q, r)], j.sym, Numbers(m, j)), m[Pair(q, r)], t);
  }

  lemma {:induction false} KidsAccept(L: Aut, R: Aut, m: ProductTranslMap, D: Aut, j: Join, t: Tree)
    requires forall q, r :: Has(m, q, r) ==> Row(L, R, m, D.trans, q, r)
    requires Knows(m, j)
    ensures KidsMeet(L, R, m, D, j, t)
    decreases t, 0
  {
    if |j.left| == |t.kids| {
      forall i | 0 <= i < |t.kids|
        ensures D.Accepts(Numbers(m, j)[i], t.kids[i]) <==> L.Accepts(j.left[i], t.kids[i]) && R.Accepts(j.right[i], t.kids[i])
      {
        PairAccepts(L, R, m, D, j.left[i], j.right[i], t.kids[i]);
      }
    }
  }

  ghost predicate FinalPairs(L: Aut, R: Aut, m: ProductTranslMap, finals: set<State>) {
    && (forall q, r :: q in L.finals && r in R.finals ==> Has(m, q, r) && m[Pair(q, r)] in finals)
    && (forall n :: n in finals ==> exists q, r :: q in L.finals && r in R.finals && Has(m, q, r) && m[Pair(q, r)] == n)
  }

  /** The product accepts exactly what both automata accept. */
  lemma ProductExact(L: Aut, R: Aut, m: ProductTranslMap, D: Aut)
    requires forall q, r :: Has(m, q, r) ==> Row(L, R, m, D.trans, q, r)
    requires FinalPairs(L, R, m, D.finals)
    ensures forall t :: D.InLang(t) <==> L.InLang(t) && R.InLang(t)
  {
    forall t ensures D.InLang(t) <==> L.InLang(t) && R.InLang(t) {
      if D.InLang(t) {
        var n :| n in D.finals && D.Accepts(n, t);
        var q, r :| q in L.finals && r in R.finals && Has(m, q, r) && m[Pair(q, r)] == n;
        PairAccepts(L, R, m, D, q, r, t);
      }
      if L.InLang(t) && R.InLang(t) {
        var q :| q in L.finals && L.Accepts(q, t);
        var r :| r in R.finals && R.Accepts(r, t);
        assert Has(m, q, r) && m[Pair(q, r)] in D.finals;
        PairAccepts(L, R, m, D, q, r, t);
      }
    }
  }

  // ---------------------------------------------------------------- the pairs that are needed

  /** A joint transition of the first pair has the second one at some position. */
  ghost predicate JoinStep(L: Aut, R: Aut, p: Pair, p': Pair) {
    exists j, i: nat :: Joined(L, R, p.left, p.right, j) && i < |j.left| == |j.right| && p' == Pair(j.left[i], j.right[i])
  }

  /** Joint transitions through the pairs of the path lead from f to p. */
  ghost predicate Leading(L: Aut, R: Aut, f: Pair, path: seq<Pair>, p: Pair)
    decreases |path|
  {
    if path == [] then p == f else
      Leading(L, R, f, path[..|path| - 1], path[|path| - 1]) && JoinStep(L, R, path[|path| - 1], p)
  }

  /** Joint transitions lead from a pair of final states to the pair. */
  ghost predicate PairReached(L: Aut, R: Aut, p: Pair) {
    exists f: Pair, path :: f.left in L.finals && f.right in R.finals && Leading(L, R, f, path, p)
  }

  lemma PairReachedStep(L: Aut, R: Aut, p: Pair, p': Pair)
    requires PairReached(L, R, p) && JoinStep(L, R, p, p')
    ensures PairReached(L, R, p')
  {
    var f: Pair, path :| f.left in L.finals && f.right in R.finals && Leading(L, R, f, path, p);
    assert (path + [p])[..|path|] == path;
    assert Leading(L, R, f, path + [p], p');
  }

  ghost function PairsOf(L: Aut, R: Aut): set<Pair> {
    set q, r | q in L.States() && r in R.States() :: Pair(q, r)
  }

  ghost function ReachedPairs(L: Aut, R: Aut): set<Pair> {
    set p | p in PairsOf(L, R) && PairReached(L, R, p)
  }

  /** The product: all pairs that are reached from final ones are numbered, and no others; the pairs of
      final states are final, and every pair has exactly its joint transitions. */
  ghost predicate IsProduct(L: Aut, R: Aut, m: ProductTranslMap, D: Aut) {
    && Dense(m) && FinalPairs(L, R, m, D.finals) && (forall p :: p in m ==> PairReached(L, R, p))
    && (forall q, r {:trigger Row(L, R, m, D.trans, q, r)} :: Has(m, q, r) ==> Row(L, R, m, D.trans, q, r))
    && (forall tr :: tr in D.trans ==> exists p :: p in m && m[p] == tr.parent)
  }

  /** No pair that is reached is missing. */
  lemma {:induction false} ProductComplete(L: Aut, R: Aut, m: ProductTranslMap, D: Aut, f: Pair, path: seq<Pair>, p: Pair)
    requires IsProduct(L, R, m, D) && f.left in L.finals && f.right in R.finals && Leading(L, R, f, path, p)
    ensures p in m
    decreases |path|
  {
    if path == [] {
      assert Has(m, f.left, f.right);
    } else {
      var last := path[|path| - 1];
      ProductComplete(L, R, m, D, f, path[..|path| - 1], last);
      assert Has(m, last.left, last.right) && Row(L, R, m, D.trans, last.left, last.right);
      var j, i: nat :| Joined(L, R, last.left, last.right, j) && i < |j.left| == |j.right| && p == Pair(j.left[i], j.right[i]);
      assert Knows(m, j) && Has(m, j.left[i], j.right[i]);
    }
  }

  // ---------------------------------------------------------------- the construction

  /** The map, and the pairs still to be expanded. */
  datatype Table = Table(m: ProductTranslMap, stack: seq<Pair>)

  ghost predicate Proper(U: set<Pair>, tab: Table) {
    && Dense(tab.m) && NoDup(tab.stack) && tab.m.Keys <= U
    && forall p :: p in tab.stack ==> p in tab.m
  }

  ghost function Expanded(tab: Table): set<Pair> {
    tab.m.Keys - SetOf(tab.stack)
  }

  ghost predicate IsExpanded(tab: Table, q: State, r: State) {
    Pair(q, r) in Expanded(tab)
  }

  ghost predicate Extended(tab: Table, tab': Table) {
    MapExtends(tab'.m, tab.m) && Expanded(tab') == Expanded(tab)
  }

  /** The number of a pair; a new pair is pushed. */
  method Intern(tab: Table, q: State, r: State, ghost U: set<Pair>) returns (tab': Table, n: State)
    requires Proper(U, tab) && Pair(q, r) in U
    ensures Proper(U, tab') && Extended(tab, tab')
    ensures Has(tab'.m, q, r) && tab'.m[Pair(q, r)] == n
    ensures tab' == if Pair(q, r) in tab.m then tab else Table(tab.m[Pair(q, r) := |tab.m|], tab.stack + [Pair(q, r)])
  {
    tab' := tab;
    if Pair(q, r) !in tab.m {
      tab' := Table(tab.m[Pair(q, r) := |tab.m|], tab.stack + [Pair(q, r)]);
      NoDupAppend(tab.stack, Pair(q, r));
    }
    n := tab'.m[Pair(q, r)];
  }

  /** The first pairs of children have numbers. */
  ghost predicate KnowsFirst(m: ProductTranslMap, j: Join, children: seq<State>) {
    && |children| <= |j.left| == |j.right|
    && forall i :: 0 <= i < |children| ==> Has(m, j.left[i], j.right[i]) && children[i] == m[Pair(j.left[i], j.right[i])]
  }

  method JoinNext(tab: Table, j: Join, children: seq<State>, ghost U: set<Pair>) returns (tab': Table, children': seq<State>)
    requires Proper(U, tab) && Matches(j, U) && KnowsFirst(tab.m, j, children) && |children| < |j.left|
    ensures Proper(U, tab') && Extended(tab, tab') && KnowsFirst(tab'.m, j, children') && |children'| == |children| + 1
  {
    var n;
    tab', n := Intern(tab, j.left[|children|], j.right[|children|], U);
    children' := children + [n];
  }

  /** Numbers the pairs of children of two tuples. */
  method JoinTuples(tab: Table, j: Join, ghost U: set<Pair>) returns (tab': Table, children: seq<State>)
    requires Proper(U, tab) && Matches(j, U)
    ensures Proper(U, tab') && Extended(tab, tab') && Knows(tab'.m, j) && children == Numbers(tab'.m, j)
  {
    tab', children := tab, [];
    while |children| < |j.left|
      invariant Proper(U, tab') && Extended(tab, tab') && KnowsFirst(tab'.m, j, children)
    {
      ghost var before := tab';
      tab', children := JoinNext(tab', j, children, U);
      ExtendedTwice(tab, before, tab');
    }
    AllKnown(tab'.m, j, children);
  }

  lemma AllKnown(m: ProductTranslMap, j: Join, children: seq<State>)
    requires KnowsFirst(m, j, children) && |children| == |j.left|
    ensures Knows(m, j) && children == Numbers(m, j)
  {
  }

  ghost predicate KnowsAll(m: ProductTranslMap, J: set<Join>) {
    forall j :: j in J ==> Knows(m, j)
  }

  /** The transitions, and those of the joins from state n. */
  ghost function Added(trans: set<Transition>, m: ProductTranslMap, n: State, J: set<Join>): set<Transition>
    requires KnowsAll(m, J)
  {
    trans + set j | j in J :: Transition(n, j.sym, Numbers(m, j))
  }

  lemma AddedStays(trans: set<Transition>, m: ProductTranslMap, m': ProductTranslMap, n: State, J: set<Join>)
    requires KnowsAll(m, J) && MapExtends(m', m)
    ensures KnowsAll(m', J) && Added(trans, m', n, J) == Added(trans, m, n, J)
  {
    forall j | j in J ensures Knows(m', j) && Numbers(m', j) == Numbers(m, j) {
      KnowsStill(m, m', j);
    }
  }

  ghost predicate Joining(base: set<Transition>, m: ProductTranslMap, n: State, J: set<Join>, trans: set<Transition>) {
    KnowsAll(m, J) && trans == Added(base, m, n, J)
  }

  lemma JoiningStep(base: set<Transition>, m: ProductTranslMap, m': ProductTranslMap, n: State, J: set<Join>,
          trans: set<Transition>, j: Join)
    requires Joining(base, m, n, J, trans) && MapExtends(m', m) && Knows(m', j)
    ensures Joining(base, m', n, J + {j}, trans + {Transition(n, j.sym, Numbers(m', j))})
  {
    AddedStays(base, m, m', n, J);
    AddedOne(base, m', n, J, j);
  }

  function JoinsOf(a: Symbol, lefts: set<seq<State>>, rights: set<seq<State>>): set<Join> {
    set l, r | l in lefts && r in rights :: Join(a, l, r)
  }

  lemma AddedOne(trans: set<Transition>, m: ProductTranslMap, n: State, J: set<Join>, j: Join)
    requires KnowsAll(m, J) && Knows(m, j)
    ensures KnowsAll(m, J + {j}) && Added(trans, m, n, J + {j}) == Added(trans, m, n, J) + {Transition(n, j.sym, Numbers(m, j))}
  {
    assert j in J + {j};
  }

  /** Both tuples have the same length, and their pairs lie in U. */
  ghost predicate Matches(j: Join, U: set<Pair>) {
    |j.left| == |j.right| && forall i {:trigger j.left[i]} :: 0 <= i < |j.left| ==> Pair(j.left[i], j.right[i]) in U
  }

  /** The joins done have been added to the transitions. */
  ghost predicate Stage(U: set<Pair>, tab0: Table, tab: Table, n: State, done: set<Join>, base: set<Transition>, trans: set<Transition>) {
    Proper(U, tab) && Extended(tab0, tab) && Joining(base, tab.m, n, done, trans)
  }

  method JoinOne(ghost tab0: Table, tab: Table, trans: set<Transition>, n: State, todo: set<Join>, ghost done: set<Join>, ghost base: set<Transition>,
          ghost U: set<Pair>)
    returns (tab': Table, trans': set<Transition>, todo': set<Join>, ghost done': set<Join>)
    requires todo != {} && (forall j :: j in todo ==> Matches(j, U)) && Stage(U, tab0, tab, n, done, base, trans)
    ensures Stage(U, tab0, tab', n, done', base, trans') && todo' < todo && done' + todo' == done + todo
  {
    var j :| j in todo;
    assert Matches(j, U);
    var children;
    tab', children := JoinTuples(tab, j, U);
    JoiningStep(base, tab.m, tab'.m, n, done, trans, j);
    trans' := trans + {Transition(n, j.sym, children)};
    todo', done' := todo - {j}, done + {j};
    ExtendedTwice(tab0, tab, tab');
  }

  /** Joins every tuple on the left with every tuple on the right. */
  method JoinAll(tab: Table, trans: set<Transition>, n: State, joins: set<Join>, ghost J: set<Join>,
          ghost base: set<Transition>, ghost U: set<Pair>)
    returns (tab': Table, trans': set<Transition>)
    requires Proper(U, tab) && (forall j :: j in joins ==> Matches(j, U)) && Joining(base, tab.m, n, J, trans)
    ensures Proper(U, tab') && Extended(tab, tab') && Joining(base, tab'.m, n, J + joins, trans')
  {
    tab', trans' := tab, trans;
    var todo := joins;
    ghost var done := J;
    while todo != {}
      invariant todo <= joins && Stage(U, tab, tab', n, done, base, trans') && done + todo == J + joins
      decreases todo
    {
      tab', trans', todo, done := JoinOne(tab, tab', trans', n, todo, done, base, U);
    }
    assert done == J + joins;
  }

  lemma ExtendedTwice(tab: Table, tab1: Table, tab2: Table)
    requires Extended(tab, tab1) && Extended(tab1, tab2)
    ensures Extended(tab, tab2)
  {
  }

  /** The joins of two states under the symbols S. */
  ghost function JoinsUnder(L: Aut, R: Aut, q: State, r: State, S: set<Symbol>): set<Join> {
    set tl, tr | tl in L.trans && tr in R.trans && tl.parent == q && tr.parent == r && tl.sym == tr.sym && tl.sym in S :: Join(tl.sym, tl.kids, tr.kids)
  }

  lemma JoinsUnderStep(L: Aut, R: Aut, q: State, r: State, S: set<Symbol>, a: Symbol)
    ensures JoinsUnder(L, R, q, r, S + {a}) == JoinsUnder(L, R, q, r, S) + JoinsOf(a, L.Tuples(q, a), R.Tuples(r, a))
  {
    forall j | j in JoinsOf(a, L.Tuples(q, a), R.Tuples(r, a)) ensures j in JoinsUnder(L, R, q, r, S + {a}) {
      var tl :| tl in L.trans && tl.parent == q && tl.sym == a && tl.kids == j.left;
      var tr :| tr in R.trans && tr.parent == r && tr.sym == a && tr.kids == j.right;
      assert j == Join(tl.sym, tl.kids, tr.kids);
    }
    forall j | j in JoinsUnder(L, R, q, r, S + {a}) && j.sym == a ensures j in JoinsOf(a, L.Tuples(q, a), R.Tuples(r, a)) {
      assert j.left in L.Tuples(q, a) && j.right in R.Tuples(r, a);
    }
  }

  lemma JoinsUnderAll(L: Aut, R: Aut, q: State, r: State, j: Join)
    ensures j in JoinsUnder(L, R, q, r, L.Symbols(q)) <==> Joined(L, R, q, r, j)
  {
    if j in JoinsUnder(L, R, q, r, L.Symbols(q)) {
      var tl, tr :| tl in L.trans && tr in R.trans && tl.parent == q && tr.parent == r && tl.sym == tr.sym && j == Join(tl.sym, tl.kids, tr.kids);
      assert tl == Transition(q, j.sym, j.left) && tr == Transition(r, j.sym, j.right);
    }
    if Joined(L, R, q, r, j) {
      var tl, tr := Transition(q, j.sym, j.left), Transition(r, j.sym, j.right);
      assert tl.sym in L.Symbols(q) && j == Join(tl.sym, tl.kids, tr.kids);
    }
  }

  lemma TuplesMatch(L: Aut, R: Aut, rank: Symbol -> nat, q: State, r: State, a: Symbol)
    requires Ranked(L.trans, rank) && Ranked(R.trans, rank) && Pair(q, r) in ReachedPairs(L, R)
    ensures forall j :: j in JoinsOf(a, L.Tuples(q, a), R.Tuples(r, a)) ==> Matches(j, ReachedPairs(L, R))
  {
    forall j | j in JoinsOf(a, L.Tuples(q, a), R.Tuples(r, a)) ensures Matches(j, ReachedPairs(L, R)) {
      var tl :| tl in L.trans && tl.parent == q && tl.sym == a && tl.kids == j.left;
      var tr :| tr in R.trans && tr.parent == r && tr.sym == a && tr.kids == j.right;
      assert tl == Transition(q, j.sym, j.left) && tr == Transition(r, j.sym, j.right);
      JoinMatches(L, R, q, r, j);
    }
  }

  lemma JoinMatches(L: Aut, R: Aut, q: State, r: State, j: Join)
    requires Joined(L, R, q, r, j) && |j.left| == |j.right| && Pair(q, r) in ReachedPairs(L, R)
    ensures Matches(j, ReachedPairs(L, R))
  {
    TransitionStates(L, Transition(q, j.sym, j.left));
    TransitionStates(R, Transition(r, j.sym, j.right));
    forall i | 0 <= i < |j.left| ensures Pair(j.left[i], j.right[i]) in ReachedPairs(L, R) {
      assert j.left[i] in SetOf(j.left) && j.right[i] in SetOf(j.right);
      assert JoinStep(L, R, Pair(q, r), Pair(j.left[i], j.right[i]));
      PairReachedStep(L, R, Pair(q, r), Pair(j.left[i], j.right[i]));
    }
  }

  /** The transitions of one pair under one symbol, if both states have it. */
  method ExpandSymbol(L: Aut, R: Aut, tab: Table, trans: set<Transition>, q: State, r: State, n: State, a: Symbol, ghost J: set<Join>,
          ghost base: set<Transition>, ghost rank: Symbol -> nat)
    returns (tab': Table, trans': set<Transition>)
    requires Ranked(L.trans, rank) && Ranked(R.trans, rank) && Proper(ReachedPairs(L, R), tab) && Pair(q, r) in ReachedPairs(L, R)
    requires Joining(base, tab.m, n, J, trans)
    ensures Proper(ReachedPairs(L, R), tab') && Extended(tab, tab')
    ensures Joining(base, tab'.m, n, J + JoinsOf(a, L.Tuples(q, a), R.Tuples(r, a)), trans')
  {
    if a in R.Symbols(r) {
      TuplesMatch(L, R, rank, q, r, a);
      tab', trans' := JoinAll(tab, trans, n, JoinsOf(a, L.Tuples(q, a), R.Tuples(r, a)), J, base, ReachedPairs(L, R));
    } else {
      NoTuples(R, r, a);
      assert J + JoinsOf(a, L.Tuples(q, a), R.Tuples(r, a)) == J;
      tab', trans' := tab, trans;
    }
  }

  /** The transitions of one pair: for every symbol that both states have. */
  method ExpandPair(L: Aut, R: Aut, tab: Table, trans: set<Transition>, q: State, r: State, ghost rank: Symbol -> nat)
    returns (tab': Table, trans': set<Transition>)
    requires Ranked(L.trans, rank) && Ranked(R.trans, rank)
    requires Proper(ReachedPairs(L, R), tab) && Has(tab.m, q, r)
    requires forall tr :: tr in trans ==> tr.parent != tab.m[Pair(q, r)]
    ensures Proper(ReachedPairs(L, R), tab') && Extended(tab, tab') && Row(L, R, tab'.m, trans', q, r)
    ensures forall tr: Transition :: tr.parent != tab.m[Pair(q, r)] ==> (tr in trans <==> tr in trans')
  {
    var n := tab.m[Pair(q, r)];
    tab', trans' := ExpandSymbols(L, R, tab, trans, q, r, n, rank);
    RowFromJoins(L, R, tab'.m, trans, q, r, JoinsUnder(L, R, q, r, L.Symbols(q)));
  }

  method ExpandSymbols(L: Aut, R: Aut, tab: Table, trans: set<Transition>, q: State, r: State, n: State, ghost rank: Symbol -> nat)
    returns (tab': Table, trans': set<Transition>)
    requires Ranked(L.trans, rank) && Ranked(R.trans, rank) && Proper(ReachedPairs(L, R), tab) && Pair(q, r) in ReachedPairs(L, R)
    ensures Proper(ReachedPairs(L, R), tab') && Extended(tab, tab')
    ensures Joining(trans, tab'.m, n, JoinsUnder(L, R, q, r, L.Symbols(q)), trans')
  {
    tab', trans' := tab, trans;
    var symbols := L.Symbols(q);
    var todo := symbols;
    assert JoinsUnder(L, R, q, r, symbols - todo) == {};
    while todo != {}
      invariant todo <= symbols && Proper(ReachedPairs(L, R), tab') && Extended(tab, tab')
      invariant Joining(trans, tab'.m, n, JoinsUnder(L, R, q, r, symbols - todo), trans')
      decreases todo
    {
      var a :| a in todo;
      ghost var before := tab';
      tab', trans' := ExpandSymbol(L, R, tab', trans', q, r, n, a, JoinsUnder(L, R, q, r, symbols - todo), trans, rank);
      ExtendedTwice(tab, before, tab');
      JoinsUnderStep(L, R, q, r, symbols - todo, a);
      assert symbols - (todo - {a}) == (symbols - todo) + {a};
      todo := todo - {a};
    }
    assert symbols - todo == symbols;
  }

  lemma NoTuples(A: Aut, q: State, a: Symbol)
    requires a !in A.Symbols(q)
    ensures A.Tuples(q, a) == {}
  {
  }

  lemma RowFromJoins(L: Aut, R: Aut, m: ProductTranslMap, trans: set<Transition>, q: State, r: State, J: set<Join>)
    requires Has(m, q, r) && J == JoinsUnder(L, R, q, r, L.Symbols(q)) && KnowsAll(m, J)
    requires forall tr :: tr in trans ==> tr.parent != m[Pair(q, r)]
    ensures Row(L, R, m, Added(trans, m, m[Pair(q, r)], J), q, r)
  {
    var trans' := Added(trans, m, m[Pair(q, r)], J);
    forall j ensures j in J <==> Joined(L, R, q, r, j) {
      JoinsUnderAll(L, R, q, r, j);
    }
    forall tr | tr in trans' && tr.parent == m[Pair(q, r)] ensures exists j :: Joined(L, R, q, r, j) && j.sym == tr.sym && Knows(m, j) && Numbers(m, j) == tr.kids {
      var j :| j in J && tr == Transition(m[Pair(q, r)], j.sym, Numbers(m, j));
    }
  }

  /** The expanded pairs have their transitions, and no others have any. */
  ghost predicate Rows(L: Aut, R: Aut, tab: Table, trans: set<Transition>) {
    && (forall q, r :: Has(tab.m, q, r) && IsExpanded(tab, q, r) ==> Row(L, R, tab.m, trans, q, r))
    && (forall tr :: tr in trans ==> exists p :: p in Expanded(tab) && tab.m[p] == tr.parent)
  }

  lemma PairDone(L: Aut, R: Aut, U: set<Pair>, tab: Table, trans: set<Transition>, q: State, r: State, tab0: Table,
          tab': Table, trans': set<Transition>)
    requires Proper(U, tab) && Rows(L, R, tab, trans) && Has(tab.m, q, r) && Pair(q, r) !in Expanded(tab)
    requires tab0.m == tab.m && Expanded(tab0) == Expanded(tab) + {Pair(q, r)} && Extended(tab0, tab') && Proper(U, tab')
    requires Row(L, R, tab'.m, trans', q, r)
    requires forall tr: Transition :: tr.parent != tab.m[Pair(q, r)] ==> (tr in trans <==> tr in trans')
    ensures Rows(L, R, tab', trans')
  {
    forall x: State, y: State | Has(tab'.m, x, y) && IsExpanded(tab', x, y) ensures Row(L, R, tab'.m, trans', x, y) {
      if Pair(x, y) != Pair(q, r) {
        assert Pair(x, y) in Expanded(tab') && IsExpanded(tab, x, y) && Has(tab.m, x, y);
        RowStays(L, R, tab.m, trans, tab'.m, trans', x, y);
      }
    }
    forall tr | tr in trans' ensures exists p :: p in Expanded(tab') && tab'.m[p] == tr.parent {
      if tr.parent == tab.m[Pair(q, r)] {
        assert Pair(q, r) in Expanded(tab');
      } else {
        var p :| p in Expanded(tab) && tab.m[p] == tr.parent;
        assert p in Expanded(tab') && tab'.m[p] == tr.parent;
      }
    }
  }

  method NumberOne(tab: Table, numbers: set<State>, p: Pair, ghost U: set<Pair>) returns (tab': Table,
          numbers': set<State>)
    requires Proper(U, tab) && p in U && p !in tab.m && NumbersOf(tab.m, numbers)
    ensures Proper(U, tab') && NumbersOf(tab'.m, numbers')
    ensures tab' == Table(tab.m[p := |tab.m|], tab.stack + [p])
  {
    OneMoreNumber(tab.m, p, numbers);
    var n;
    tab', n := Intern(tab, p.left, p.right, U);
    numbers' := numbers + {n};
  }

  method NumberAll(pairs: set<Pair>, ghost U: set<Pair>) returns (tab: Table, numbers: set<State>)
    requires pairs <= U
    ensures Proper(U, tab) && Expanded(tab) == {} && tab.m.Keys == pairs && NumbersOf(tab.m, numbers)
  {
    tab, numbers := Table(map[], []), {};
    var todo := pairs;
    while todo != {}
      invariant todo <= pairs && Proper(U, tab) && forall p :: p in tab.m ==> p in tab.stack
      invariant (forall p :: p in tab.m <==> p in pairs && p !in todo) && NumbersOf(tab.m, numbers)
      decreases todo
    {
      var p: Pair :| p in todo;
      todo := todo - {p};
      tab, numbers := NumberOne(tab, numbers, p, U);
    }
  }

  /** Numbers the pairs of final states. */
  method FinalsOf(L: Aut, R: Aut) returns (tab: Table, finals: set<State>)
    ensures Proper(ReachedPairs(L, R), tab) && Expanded(tab) == {} && FinalPairs(L, R, tab.m, finals)
  {
    tab, finals := Table(map[], []), {};
    var todo: set<Pair> := set q, r | q in L.finals && r in R.finals :: Pair(q, r);
    FinalsInside(L, R);
    tab, finals := NumberAll(todo, ReachedPairs(L, R));
    assert forall q, r :: q in L.finals && r in R.finals ==> Pair(q, r) in todo;
    forall n | n in finals ensures exists q, r :: q in L.finals && r in R.finals && Has(tab.m, q, r) && tab.m[Pair(q, r)] == n {
      assert IsNumber(tab.m, n);
      var p :| p in tab.m && tab.m[p] == n;
      assert Has(tab.m, p.left, p.right);
    }
  }

  lemma FinalsInside(L: Aut, R: Aut)
    ensures forall q, r :: q in L.finals && r in R.finals ==> Pair(q, r) in ReachedPairs(L, R)
  {
    forall q, r | q in L.finals && r in R.finals ensures Pair(q, r) in ReachedPairs(L, R) {
      assert Leading(L, R, Pair(q, r), [], Pair(q, r));
    }
  }

  ghost predicate IsNumber(m: ProductTranslMap, n: State) {
    exists p :: p in m && m[p] == n
  }

  ghost predicate NumbersOf(m: ProductTranslMap, numbers: set<State>) {
    (forall p :: p in m ==> m[p] in numbers) && (forall n :: n in numbers ==> IsNumber(m, n))
  }

  lemma OneMoreNumber(m: ProductTranslMap, p: Pair, numbers: set<State>)
    requires p !in m && NumbersOf(m, numbers)
    ensures NumbersOf(m[p := |m|], numbers + {|m|})
  {
    var m' := m[p := |m|];
    assert p in m' && m'[p] == |m|;
    forall n | n in numbers ensures IsNumber(m', n) {
      var x :| x in m && m[x] == n;
      assert x in m' && m'[x] == n;
    }
  }

  /** What holds between the expansions of two pairs. */
  ghost predicate Growing(L: Aut, R: Aut, U: set<Pair>, tab: Table, res: Aut) {
    Proper(U, tab) && Rows(L, R, tab, res.trans) && FinalPairs(L, R, tab.m, res.finals)
  }

  lemma Grown(L: Aut, R: Aut, U: set<Pair>, tab: Table, res: Aut, q: State, r: State, tab0: Table, tab': Table,
          trans': set<Transition>)
    requires Growing(L, R, U, tab, res) && Has(tab.m, q, r) && Pair(q, r) !in Expanded(tab)
    requires tab0.m == tab.m && Expanded(tab0) == Expanded(tab) + {Pair(q, r)} && Extended(tab0, tab') && Proper(U, tab')
    requires Row(L, R, tab'.m, trans', q, r)
    requires forall tr: Transition :: tr.parent != tab.m[Pair(q, r)] ==> (tr in res.trans <==> tr in trans')
    ensures Growing(L, R, U, tab', res.(trans := trans'))
  {
    PairDone(L, R, U, tab, res.trans, q, r, tab0, tab', trans');
    FinalPairsStill(L, R, tab.m, tab'.m, res.finals);
  }

  lemma Finished(L: Aut, R: Aut, tab: Table, res: Aut)
    requires Growing(L, R, ReachedPairs(L, R), tab, res) && tab.stack == []
    ensures IsProduct(L, R, tab.m, res)
  {
    forall q, r | Has(tab.m, q, r) ensures Row(L, R, tab.m, res.trans, q, r) {
      assert IsExpanded(tab, q, r);
    }
    forall p | p in tab.m ensures PairReached(L, R, p) {
      assert p in ReachedPairs(L, R);
    }
    assert Expanded(tab) <= tab.m.Keys;
  }

  lemma NoTransitionsYet(L: Aut, R: Aut, U: set<Pair>, tab: Table, res: Aut, p: Pair)
    requires Growing(L, R, U, tab, res) && p in tab.m && p !in Expanded(tab)
    ensures forall tr :: tr in res.trans ==> tr.parent != tab.m[p]
  {
  }

  /** Takes a pair off the stack and adds its transitions. */
  method ExpandNext(L: Aut, R: Aut, tab: Table, res: Aut, ghost rank: Symbol -> nat) returns (tab': Table, res': Aut)
    requires Ranked(L.trans, rank) && Ranked(R.trans, rank) && tab.stack != [] && Growing(L, R, ReachedPairs(L, R), tab, res)
    ensures Growing(L, R, ReachedPairs(L, R), tab', res') && Expanded(tab) < Expanded(tab') <= ReachedPairs(L, R)
  {
    var p := tab.stack[|tab.stack| - 1];
    Popped(tab);
    var popped := tab.(stack := tab.stack[..|tab.stack| - 1]);
    NoTransitionsYet(L, R, ReachedPairs(L, R), tab, res, p);
    var trans;
    tab', trans := ExpandPair(L, R, popped, res.trans, p.left, p.right, rank);
    Grown(L, R, ReachedPairs(L, R), tab, res, p.left, p.right, popped, tab', trans);
    res' := res.(trans := trans);
  }

  /** The product automaton, and the numbers of its pairs. */
  method Intersection(L: Aut, R: Aut, ghost rank: Symbol -> nat) returns (res: Aut, pTranslMap: ProductTranslMap)
    requires Ranked(L.trans, rank) && Ranked(R.trans, rank)
    ensures IsProduct(L, R, pTranslMap, res)
    ensures forall t :: res.InLang(t) <==> L.InLang(t) && R.InLang(t)
    ensures forall q, r, t :: Has(pTranslMap, q, r) ==> (res.Accepts(pTranslMap[Pair(q, r)], t) <==> L.Accepts(q, t) && R.Accepts(r, t))
  {
    res, pTranslMap := BuildProduct(L, R, rank);
    ProductAccepts(L, R, pTranslMap, res);
  }

  method BuildProduct(L: Aut, R: Aut, ghost rank: Symbol -> nat) returns (res: Aut, pTranslMap: ProductTranslMap)
    requires Ranked(L.trans, rank) && Ranked(R.trans, rank)
    ensures IsProduct(L, R, pTranslMap, res)
  {
    var tab, finals := FinalsOf(L, R);
    res := Aut(finals, {});
    while tab.stack != []
      invariant Growing(L, R, ReachedPairs(L, R), tab, res)
      decreases ReachedPairs(L, R) - Expanded(tab)
    {
      tab, res := ExpandNext(L, R, tab, res, rank);
    }
    pTranslMap := tab.m;
    Finished(L, R, tab, res);
  }

  lemma ProductAccepts(L: Aut, R: Aut, m: ProductTranslMap, D: Aut)
    requires IsProduct(L, R, m, D)
    ensures forall t :: D.InLang(t) <==> L.InLang(t) && R.InLang(t)
    ensures forall q, r, t :: Has(m, q, r) ==> (D.Accepts(m[Pair(q, r)], t) <==> L.Accepts(q, t) && R.Accepts(r, t))
  {
    ProductExact(L, R, m, D);
    forall q, r, t | Has(m, q, r) ensures D.Accepts(m[Pair(q, r)], t) <==> L.Accepts(q, t) && R.Accepts(r, t) {
      PairAccepts(L, R, m, D, q, r, t);
    }
  }

  lemma Popped(tab: Table)
    requires tab.stack != [] && NoDup(tab.stack) && forall p :: p in tab.stack ==> p in tab.m
    ensures Expanded(tab.(stack := tab.stack[..|tab.stack| - 1])) == Expanded(tab) + {tab.stack[|tab.stack| - 1]}
    ensures tab.stack[|tab.stack| - 1] !in Expanded(tab)
  {
    var n := |tab.stack| - 1;
    assert tab.stack == tab.stack[..n] + [tab.stack[n]];
  }

  lemma FinalPairsStill(L: Aut, R: Aut, m: ProductTranslMap, m': ProductTranslMap, finals: set<State>)
    requires FinalPairs(L, R, m, finals) && MapExtends(m', m)
    ensures FinalPairs(L, R, m', finals)
  {
    forall q, r | Has(m, q, r) ensures Has(m', q, r) && m'[Pair(q, r)] == m[Pair(q, r)] { }
  }
}
