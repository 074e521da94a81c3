/** The numbers of parents are looked up as if they were states: two automata for which the upward
    translation does not encode what it should. */
module SecondLookup {
  import opened Collections
  import opened InclusionSpec
  import opened Preorders
  import opened SimInclusion
  import opened TreeAutomata
  import opened UpSim
  import opened UpSpec
  import opened Useless
  import DownSim
  import Lts
  import TranslateUp

  // ---------------------------------------------------------------- in whatever order

  /** Numbers 0 and 1 for the states 10 and 20, so that neither number is a state. */
  function TwoStates(): Aut {
    Aut({20}, {Transition(10, 0, []), Transition(20, 1, [10, 10])})
  }

  lemma TwoStatesFit()
    ensures TranslateUp.Suitable(TwoStates()) && TwoStates().States() == {10, 20}
  {
    var A := TwoStates();
    assert Transition(10, 0, []) in A.trans && Transition(20, 1, [10, 10]) in A.trans;
    assert A.Parents() == {10, 20};
    assert A.States() == {10, 20};
  }

  /** Every environment leads to the node of the leaves, instead of that of the parent. */
  lemma LeadsToLeaves(N: UpNumbering, l: Lts.Lts, e: Env)
    requires UpBuilds(TwoStates(), 2, N, l) && TranslateUp.LooksUp(N) && e in N.env
    ensures forall c: nat, y: nat {:trigger l.Edge(N.env[e], c, y)} :: l.Edge(N.env[e], c, y) <==> c == e.sym && y == 2
    ensures 20 in N.state && N.state[20] < 2
  {
    ParentNumber(N, l, e);
    LookedUpKeys(N, l, e);
    NextNumber(N.state, N.look, e.state);
    OnlyEdge(TwoStates(), 2, N, l, e);
  }

  ghost predicate AllLeadToLeaves(N: UpNumbering, l: Lts.Lts) {
    forall e, c: nat, y: nat {:trigger l.Edge(N.env[e], c, y)} :: e in N.env ==> (l.Edge(N.env[e], c, y) <==> c == e.sym && y == 2)
  }

  lemma AllLead(N: UpNumbering, l: Lts.Lts)
    requires UpBuilds(TwoStates(), 2, N, l) && TranslateUp.LooksUp(N)
    ensures N.env != map[] && AllLeadToLeaves(N, l)
  {
    SomeEnv(N, l);
    forall e, c: nat, y: nat | e in N.env ensures l.Edge(N.env[e], c, y) <==> c == e.sym && y == 2 {
      LeadsToLeaves(N, l, e);
    }
  }

  /** So it is in the system that is built, whatever the order of the two states. */
  method TranslateTwoStates(A: Aut, order: seq<State>) returns (l: Lts.Lts, ghost N: UpNumbering)
    requires A == TwoStates() && TranslateUp.Lists(order, A)
    ensures UpBuilds(A, 2, N, l) && N.env != map[] && AllLeadToLeaves(N, l)
  {
    TwoStatesFit();
    assert |A.States()| == |{10, 20}| == 2;
    var part, rel, state;
    l, part, rel, N, state := TranslateUp.TranslateUpward(A, order);
    AllLead(N, l);
  }

  lemma SomeEnv(N: UpNumbering, l: Lts.Lts)
    requires UpBuilds(TwoStates(), 2, N, l)
    ensures N.env != map[]
  {
    var tr := Transition(20, 1, [10, 10]);
    assert tr in TwoStates().trans && Knows(N, tr);
    assert EnvOf(N.state, N.sym, tr, 0) in N.env;
  }

  lemma OnlyEdge(A: Aut, n: nat, N: UpNumbering, l: Lts.Lts, e: Env)
    requires UpBuilds(A, n, N, l) && e in N.env
    ensures e.state in N.look
    ensures forall c: nat, y: nat {:trigger l.Edge(N.env[e], c, y)} :: l.Edge(N.env[e], c, y) <==> c == e.sym && y == N.look[e.state]
  {
    assert OutEdge(N, N.env.Keys, N.env[e], e.sym, N.look[e.state]);
    forall c: nat, y: nat | l.Edge(N.env[e], c, y) ensures c == e.sym && y == N.look[e.state] {
      OutMove(A, n, N, l, e, c, y);
    }
  }

  lemma ParentNumber(N: UpNumbering, l: Lts.Lts, e: Env)
    requires UpBuilds(TwoStates(), 2, N, l) && e in N.env
    ensures N.state.Keys == {10, 20} && DownSim.OneToOne(N.state, 0, 2) && e.state == N.state[20]
  {
    TwoStatesFit();
    EnvOfTwenty(N, e);
  }

  lemma EnvOfTwenty(N: UpNumbering, e: Env)
    requires EnvOfSome(N, TwoStates().trans, e)
    ensures 20 in N.state && e.state == N.state[20]
  {
    var tr, i: nat :| tr in TwoStates().trans && Knows(N, tr) && |tr.kids| > 1 && i < |tr.kids| && EnvOf(N.state, N.sym, tr, i) == e;
  }

  lemma LookedUpKeys(N: UpNumbering, l: Lts.Lts, e: Env)
    requires UpBuilds(TwoStates(), 2, N, l) && e in N.env && N.state.Keys == {10, 20}
    ensures TranslateUp.ParentNumbers(N.env.Keys) == {N.state[20]}
  {
    forall f | f in N.env ensures f.state == N.state[20] {
      ParentNumber(N, l, f);
    }
    assert e.state in TranslateUp.ParentNumbers(N.env.Keys);
  }

  /** The number of the state 20 is a new key, and gets the next number. */
  lemma NextNumber(state: map<State, nat>, look: map<State, nat>, s: nat)
    requires state.Keys == {10, 20} && DownSim.OneToOne(state, 0, 2) && TranslateUp.LooksOn(state, look) && s < 2
    requires look.Keys == {10, 20} + {s}
    ensures look[s] == 2
  {
    var a, b := state[10], state[20];
    assert a < 2 && b < 2 && a != b;
    assert look[10] == a && look[20] == b;
    ThirdKey(look, s, a, b);
  }

  lemma ThirdKey(look: map<State, nat>, s: nat, a: nat, b: nat)
    requires look.Keys == {10, 20} + {s} && s < 2 && look[10] == a && look[20] == b && a < 2 && b < 2 && a != b
    requires forall x {:trigger look[x]} :: x in look ==> look[x] < |look|
    requires forall x, y {:trigger TranslateUp.Apart(look, x, y)} :: TranslateUp.Apart(look, x, y)
    ensures look[s] == 2
  {
    assert |look| == |look.Keys| == 3;
    assert TranslateUp.Apart(look, s, 10) && TranslateUp.Apart(look, s, 20);
  }

  // ---------------------------------------------------------------- with two numbers swapped

  /** Accepts f(x, c) and nothing else. */
  function Smaller(): Aut {
    Aut({2}, {Transition(0, 0, []), Transition(1, 1, []), Transition(2, 2, [0, 1])})
  }

  function Bigger(): Aut {
    Aut({4}, {Transition(5, 0, []), Transition(6, 0, []), Transition(7, 1, []), Transition(3, 2, [5, 7]), Transition(4, 2, [6, 7]),
        Transition(4, 3, [3]), Transition(4, 3, [4])})
  }

  function Both(): Aut {
    UnionDisjointStates(Smaller(), Bigger())
  }

  /** The states 3 and 4 are listed the other way round. */
  function Swapped(): seq<State> {
    [0, 1, 2, 4, 3, 5, 6, 7]
  }

  lemma Numbered(to: map<State, State>)
    requires TranslateUp.Positions(Swapped(), to)
    ensures to[2] == 2 && to[3] == 4 && to[4] == 3
  {
    assert Swapped()[2] == 2 && Swapped()[3] == 4 && Swapped()[4] == 3;
  }

  lemma Members()
    ensures Transition(2, 2, [0, 1]) in Both().trans && Transition(3, 2, [5, 7]) in Both().trans && Transition(4, 2, [6, 7]) in Both().trans
    ensures Both().finals == {2, 4}
  {
  }

  /** In place of 0 there is nothing else under the symbol of f with 1, and in place of 1 with 0. */
  lemma OnlyItself(to: map<State, State>, p: State, q: State)
    requires UpSimilarVia(Both(), to, p, q)
    ensures p == 0 ==> q == 0
    ensures p == 1 ==> q == 1
  {
    Members();
    var D :| UpwardVia(Both(), to, D) && Lts.In(p, q, D);
    var tr := Transition(2, 2, [0, 1]);
    if p == 0 {
      assert tr.kids[0 := q] == [q, 1] && RaisedVia(Both(), to, D, tr, 0, q);
    }
    if p == 1 {
      assert tr.kids[1 := q] == [0, q] && RaisedVia(Both(), to, D, tr, 1, q);
    }
  }

  lemma OnlyFinal(to: map<State, State>, p: State, q: State)
    requires UpSimilarVia(Both(), to, p, q) && (p == 2 || p == 4)
    ensures q == 2 || q == 4
  {
    Members();
    var D :| UpwardVia(Both(), to, D) && Lts.In(p, q, D);
  }

  /** As redirected, 6 is below 5 and 5 is not below 6. */
  lemma SwappedSimilar(to: map<State, State>)
    requires TranslateUp.Positions(Swapped(), to)
    ensures UpSimilarVia(Both(), to, 6, 5) && !UpSimilarVia(Both(), to, 5, 6) && Redirects(Both(), to)
  {
    Numbered(to);
    BaseFinal(to, 5, 6);
    PairsUpward(to, 6, 5);
    assert Lts.In(6, 5, Pairs(6, 5));
  }

  /** In the automaton itself, 5 is below 6 and 6 is not below 5. */
  lemma ReallySimilar()
    ensures UpSimilar(Both(), 5, 6) && !UpSimilar(Both(), 6, 5)
  {
    BaseFinal(map[], 6, 5);
    PairsUpward(map[], 5, 6);
    assert Lts.In(5, 6, Pairs(5, 6));
    PutIsUpward(Both(), map[], 5, 6);
    PutIsUpward(Both(), map[], 6, 5);
  }

  /** If x is below y, then where x leads with 7 is below where y leads with 7. */
  lemma BaseFinal(to: map<State, State>, x: State, y: State)
    requires (x == 5 && y == 6) || (x == 6 && y == 5)
    ensures UpSimilarVia(Both(), to, x, y) && Dest(to, Base(x)) in Both().finals ==> Dest(to, Base(y)) in Both().finals
  {
    Members();
    if UpSimilarVia(Both(), to, x, y) {
      var D :| UpwardVia(Both(), to, D) && Lts.In(x, y, D);
      LeadsAlike(to, D, x, y);
    }
  }

  lemma LeadsAlike(to: map<State, State>, D: Lts.Relation, x: State, y: State)
    requires ((x == 5 && y == 6) || (x == 6 && y == 5)) && UpwardVia(Both(), to, D) && Lts.In(x, y, D)
    ensures Lts.In(Dest(to, Base(x)), Dest(to, Base(y)), D)
  {
    Members();
    var tr := Base(x);
    assert tr.kids[0 := y] == [y, 7] && RaisedVia(Both(), to, D, tr, 0, y);
    var tr' :| tr' in Both().trans && tr'.sym == 2 && tr'.kids == [y, 7] && Lts.In(Dest(to, tr), Dest(to, tr'), D);
    assert tr' == Base(y);
  }

  function Base(p: State): Transition {
    if p == 5 then Transition(3, 2, [5, 7]) else Transition(4, 2, [6, 7])
  }

  /** Besides equal states, x below y, and 3 below 4. */
  ghost function Pairs(x: State, y: State): Lts.Relation {
    (set s | s in Both().States() :: (s, s)) + {(x, y), (3, 4)}
  }

  lemma PairsUpward(to: map<State, State>, x: State, y: State)
    requires Redirects(Both(), to) && ((x == 5 && y == 6) || (x == 6 && y == 5)) && Dest(to, Base(x)) == 3 && Dest(to, Base(y)) == 4
    ensures UpwardVia(Both(), to, Pairs(x, y))
  {
    var U, D := Both(), Pairs(x, y);
    StatesOfBoth();
    forall tr, i: nat, q: State | tr in U.trans && i < |tr.kids| && Lts.In(tr.kids[i], q, D) ensures RaisedVia(U, to, D, tr, i, q) {
      if tr.kids[i] == q {
        DestState(U, to, tr);
        assert tr.kids[i := q] == tr.kids && Lts.In(Dest(to, tr), Dest(to, tr), D);
      } else {
        PairRaised(to, x, y, tr, i, q);
      }
    }
  }

  lemma PairRaised(to: map<State, State>, x: State, y: State, tr: Transition, i: nat, q: State)
    requires ((x == 5 && y == 6) || (x == 6 && y == 5)) && Dest(to, Base(x)) == 3 && Dest(to, Base(y)) == 4
    requires tr in Both().trans && i < |tr.kids| && ((tr.kids[i] == x && q == y) || (tr.kids[i] == 3 && q == 4))
    ensures RaisedVia(Both(), to, Pairs(x, y), tr, i, q)
  {
    StatesOfBoth();
    if tr.kids[i] == x {
      assert tr == Base(x) && i == 0 && tr.kids[0 := q] == [y, 7] && Base(y) in Both().trans;
    } else {
      var tr' := Transition(4, 3, [4]);
      assert tr == Transition(4, 3, [3]) && i == 0 && tr.kids[0 := q] == [4] && tr' in Both().trans;
      assert Lts.In(4, 4, Pairs(x, y));
    }
  }

  lemma StatesOfBoth()
    ensures Both().States() == {0, 1, 2, 3, 4, 5, 6, 7} && Both().Parents() == {0, 1, 2, 3, 4, 5, 6, 7}
  {
  }

  // ---------------------------------------------------------------- the answer of the check

  ghost predicate Relates(to: map<State, State>, R: Preorder) {
    TranslateUp.Positions(Swapped(), to) && IsUpSimilarity(Both(), to, R)
  }

  lemma RelatedPairs(to: map<State, State>, R: Preorder)
    requires Relates(to, R)
    ensures Rel(R, 6, 5) && !Rel(R, 5, 6) && !Rel(R, 2, 3) && !Rel(R, 4, 3)
    ensures forall q :: (Rel(R, 0, q) ==> q == 0) && (Rel(R, 1, q) ==> q == 1) && (Rel(R, 2, q) ==> q == 2 || q == 4)
  {
    StatesOfBoth();
    SwappedSimilar(to);
    forall q ensures (Rel(R, 0, q) ==> q == 0) && (Rel(R, 1, q) ==> q == 1) && (Rel(R, 2, q) ==> q == 2 || q == 4) {
      if Rel(R, 0, q) { OnlyItself(to, 0, q); }
      if Rel(R, 1, q) { OnlyItself(to, 1, q); }
      if Rel(R, 2, q) { OnlyFinal(to, 2, q); }
    }
    if Rel(R, 4, 3) { OnlyFinal(to, 4, 3); }
  }

  /** Of the states 5 and 6 that the leaf reaches, only 5 stays. */
  lemma LeafPair(R: Preorder, P: set<State>)
    requires Derived(Smaller(), Bigger(), R, 0, P) && Rel(R, 6, 5) && !Rel(R, 5, 6)
    ensures P == {5}
  {
    var t :| DerivedBy(Smaller(), Bigger(), R, 0, P, t);
    var tr, Ps: seq<set<State>> :| tr in Smaller().trans && tr.parent == 0 && tr.sym == t.sym && |tr.kids| == |Ps| == |t.kids|
      && Pruned(R, Post(Bigger(), tr.sym, Ps), P) && Flat(R, P);
    assert Ps == [];
    PostX();
    assert Meets(R, 5, P);
  }

  lemma PostX()
    ensures Post(Bigger(), 0, []) == {5, 6} && Post(Bigger(), 1, []) == {7} && Post(Bigger(), 2, [{5}, {7}]) == {3}
  {
    var Ps: seq<set<State>> := [{5}, {7}];
    assert Fits(Transition(3, 2, [5, 7]), 2, Ps);
    forall tr | tr in Bigger().trans && Fits(tr, 2, Ps) ensures tr.parent == 3 {
      assert tr.kids[0] in Ps[0];
    }
  }

  lemma OtherLeafPair(R: Preorder, P: set<State>)
    requires Derived(Smaller(), Bigger(), R, 1, P)
    ensures P == {7}
  {
    var t :| DerivedBy(Smaller(), Bigger(), R, 1, P, t);
    var tr, Ps: seq<set<State>> :| tr in Smaller().trans && tr.parent == 1 && tr.sym == t.sym && |tr.kids| == |Ps| == |t.kids|
      && Pruned(R, Post(Bigger(), tr.sym, Ps), P) && Flat(R, P);
    assert Ps == [];
    PostX();
    assert Meets(R, 7, P);
  }

  /** Both leaves must be stored, each with the one state that is left. */
  lemma StoredLeaves(to: map<State, State>, R: Preorder, H: set<Goal>)
    requires Relates(to, R) && Saturated(Smaller(), Bigger(), R, H, H) && AllGoodIn(Smaller(), Bigger(), R, H)
    ensures InH(H, 0, {5}) && InH(H, 1, {7})
  {
    RelatedPairs(to, R);
    PostX();
    var x, c := Transition(0, 0, []), Transition(1, 1, []);
    assert x in Smaller().trans && c in Smaller().trans && From(H, x.kids, []) && From(H, c.kids, []);
    assert Covers(R, H, 0, Post(Bigger(), x.sym, [])) && Covers(R, H, 1, Post(Bigger(), c.sym, []));
    var P :| InH(H, 0, P) && Covered(R, P, {5, 6});
    assert Good(Smaller(), Bigger(), R, 0, P);
    LeafPair(R, P);
    var Q :| InH(H, 1, Q) && Covered(R, Q, {7});
    assert Good(Smaller(), Bigger(), R, 1, Q);
    OtherLeafPair(R, Q);
  }

  /** From there the step leads to the state 3 alone. */
  lemma StepStored(to: map<State, State>, R: Preorder, H: set<Goal>)
    requires Relates(to, R) && Saturated(Smaller(), Bigger(), R, H, H) && AllGoodIn(Smaller(), Bigger(), R, H)
    ensures exists q, P :: InH(H, q, P) && Rel(R, 2, q) && Covered(R, P, {3})
  {
    StoredLeaves(to, R, H);
    RelatedPairs(to, R);
    PostX();
    StepCovered(R, H, Transition(2, 2, [0, 1]));
    assert !Meets(R, 2, {3});
  }

  lemma StepCovered(R: Preorder, H: set<Goal>, tr: Transition)
    requires Saturated(Smaller(), Bigger(), R, H, H) && tr in Smaller().trans && tr.kids == [0, 1] && InH(H, 0, {5}) && InH(H, 1, {7})
    ensures Covers(R, H, tr.parent, Post(Bigger(), tr.sym, [{5}, {7}]))
  {
    var Ps: seq<set<State>> := [{5}, {7}];
    assert From(H, tr.kids, Ps);
    assert Covers(R, H, tr.parent, Post(Bigger(), tr.sym, Ps));
  }

  lemma NotGood(to: map<State, State>, R: Preorder, q: State, P: set<State>)
    requires Relates(to, R) && Rel(R, 2, q) && Covered(R, P, {3})
    ensures !Good(Smaller(), Bigger(), R, q, P)
  {
    RelatedPairs(to, R);
    assert 4 in P ==> Meets(R, 4, {3});
    assert 4 !in Smaller().States();
  }

  lemma NotCertified(to: map<State, State>, R: Preorder)
    requires Relates(to, R)
    ensures !Certified(Smaller(), Bigger(), R)
  {
    forall H | Saturated(Smaller(), Bigger(), R, H, H) ensures !AllGoodIn(Smaller(), Bigger(), R, H) {
      if AllGoodIn(Smaller(), Bigger(), R, H) {
        StepStored(to, R, H);
        var q, P :| InH(H, q, P) && Rel(R, 2, q) && Covered(R, P, {3});
        NotGood(to, R, q, P);
      }
    }
  }

  function X(): Tree { Node(0, []) }

  function C(): Tree { Node(1, []) }

  function FXC(): Tree { Node(2, [X(), C()]) }

  lemma LeafAccepted(A: Aut, q: State, a: Symbol)
    requires Transition(q, a, []) in A.trans
    ensures A.Accepts(q, Node(a, []))
  {
    assert A.Step(Transition(q, a, []), q, Node(a, []));
    A.Unfold(q, Node(a, []));
  }

  lemma KidUsed(A: Aut, tr: Transition, p: State, t: Tree, i: nat, q: State)
    requires A.Step(tr, p, t) && i < |t.kids| && A.RunUses(tr.kids[i], t.kids[i], q)
    ensures A.RunUses(p, t, q)
  {
    A.Unfold(p, t);
  }

  /** The tree f(x, c) is accepted by p, and its run uses all three states. */
  lemma WholeTree(A: Aut, q: State, r: State, p: State)
    requires Transition(q, 0, []) in A.trans && Transition(r, 1, []) in A.trans && Transition(p, 2, [q, r]) in A.trans
    ensures A.Accepts(p, FXC()) && A.RunUses(p, FXC(), p) && A.RunUses(p, FXC(), q) && A.RunUses(p, FXC(), r)
  {
    LeafAccepted(A, q, 0);
    LeafAccepted(A, r, 1);
    var tr := Transition(p, 2, [q, r]);
    assert A.Step(tr, p, FXC());
    KidUsed(A, tr, p, FXC(), 0, q);
    KidUsed(A, tr, p, FXC(), 1, r);
  }

  lemma TrimmedBy(A: Aut, S: set<State>, f: State, t: Tree, u: Tree)
    requires A.States() == S && f in A.finals && forall q :: q in S ==> A.RunUses(f, t, q) || A.RunUses(f, u, q)
    ensures A.Trimmed()
  {
    forall q | q in A.States() ensures A.Useful(q) { }
  }

  lemma TrimmedLikeSmaller(A: Aut, q: State, r: State, p: State)
    requires Transition(q, 0, []) in A.trans && Transition(r, 1, []) in A.trans && Transition(p, 2, [q, r]) in A.trans
    requires A.States() == {q, r, p} && p in A.finals
    ensures A.Trimmed()
  {
    WholeTree(A, q, r, p);
    TrimmedBy(A, {q, r, p}, p, FXC(), FXC());
  }

  lemma StatesOfParts()
    ensures Smaller().States() == {0, 1, 2} && Bigger().States() == {3, 4, 5, 6, 7}
    ensures Smaller().finals == {2} && Bigger().finals == {4}
  {
  }

  lemma MembersOfParts()
    ensures Transition(0, 0, []) in Smaller().trans && Transition(1, 1, []) in Smaller().trans && Transition(2, 2, [0, 1]) in Smaller().trans
    ensures Transition(5, 0, []) in Bigger().trans && Transition(6, 0, []) in Bigger().trans && Transition(7, 1, []) in Bigger().trans
    ensures Transition(3, 2, [5, 7]) in Bigger().trans && Transition(4, 2, [6, 7]) in Bigger().trans && Transition(4, 3, [3]) in Bigger().trans
  {
  }

  lemma TrimmedLikeBigger(B: Aut, q: State, q': State, r: State, p: State, p': State)
    requires Transition(q, 0, []) in B.trans && Transition(q', 0, []) in B.trans && Transition(r, 1, []) in B.trans
    requires Transition(p, 2, [q, r]) in B.trans && Transition(p', 2, [q', r]) in B.trans && Transition(p', 3, [p]) in B.trans
    requires B.States() == {p, p', q, q', r} && p' in B.finals
    ensures B.Trimmed() && B.Accepts(p', FXC())
  {
    WholeTree(B, q', r, p');
    UsedAbove(B, q, r, p, p');
    TrimmedBy(B, {p, p', q, q', r}, p', FXC(), Node(3, [FXC()]));
  }

  lemma UsedAbove(B: Aut, q: State, r: State, p: State, p': State)
    requires Transition(q, 0, []) in B.trans && Transition(r, 1, []) in B.trans && Transition(p, 2, [q, r]) in B.trans
    requires Transition(p', 3, [p]) in B.trans
    ensures B.RunUses(p', Node(3, [FXC()]), p) && B.RunUses(p', Node(3, [FXC()]), q)
  {
    WholeTree(B, q, r, p);
    StepAbove(B, p, p', q);
    StepAbove(B, p, p', p);
  }

  lemma StepAbove(B: Aut, p: State, p': State, q: State)
    requires Transition(p', 3, [p]) in B.trans && B.Accepts(p, FXC()) && B.RunUses(p, FXC(), q)
    ensures B.RunUses(p', Node(3, [FXC()]), q)
  {
    var t := Node(3, [FXC()]);
    assert B.Step(Transition(p', 3, [p]), p', t);
    KidUsed(B, Transition(p', 3, [p]), p', t, 0, q);
  }

  lemma OnlyTree(t: Tree)
    requires Smaller().InLang(t)
    ensures t == FXC()
  {
    var A := Smaller();
    A.Unfold(2, t);
    var tr :| A.Step(tr, 2, t);
    A.Unfold(0, t.kids[0]);
    A.Unfold(1, t.kids[1]);
  }

  lemma IsIncluded(B: Aut)
    requires 4 in B.finals && B.Accepts(4, FXC())
    ensures Included(Smaller(), B)
  {
    forall t | Smaller().InLang(t) ensures B.InLang(t) {
      OnlyTree(t);
    }
  }

  function Rank(a: Symbol): nat {
    if a == 2 then 2 else if a == 3 then 1 else 0
  }

  lemma BothPrepared()
    ensures Prepared(Smaller(), Bigger(), 8) && Included(Smaller(), Bigger())
  {
    StatesOfParts();
    MembersOfParts();
    TrimmedLikeSmaller(Smaller(), 0, 1, 2);
    TrimmedLikeBigger(Bigger(), 5, 6, 7, 3, 4);
    Numbers(Smaller(), Bigger());
    IsIncluded(Bigger());
  }

  lemma Numbers(A: Aut, B: Aut)
    requires A.States() == {0, 1, 2} && B.States() == {3, 4, 5, 6, 7}
    ensures DisjointStates(A, B) && forall q: nat :: q in A.States() + B.States() <==> q < 8
  {
  }

  lemma SwappedLists()
    ensures TranslateUp.Lists(Swapped(), Both())
  {
    StatesOfBoth();
    var order := Swapped();
    assert order[0] == 0 && order[1] == 1 && order[2] == 2 && order[3] == 4 && order[4] == 3 && order[5] == 5 && order[6] == 6 && order[7] == 7;
  }

  lemma BothRanked()
    ensures Ranked(Smaller().trans, Rank) && Ranked(Bigger().trans, Rank)
  {
  }

  /** The language is included, and with the states listed in this order the check says that it is not. */
  method RefusesIncluded() returns (r: bool)
    ensures Included(Smaller(), Bigger()) && !r
  {
    BothPrepared();
    r := Answer(Smaller(), Bigger(), Swapped());
  }

  method Answer(smaller: Aut, bigger: Aut, order: seq<State>) returns (r: bool)
    requires smaller == Smaller() && bigger == Bigger() && order == Swapped() && Prepared(smaller, bigger, 8)
    ensures !r
  {
    SwappedLists();
    BothRanked();
    var R;
    ghost var to;
    r, R, to := CheckPreparedUpward(smaller, bigger, 8, order, Rank);
    NotCertified(to, R);
  }
}
