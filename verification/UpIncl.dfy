/** The upward inclusion check: a worklist of pairs of a state of the smaller automaton and the
    states of the bigger one that some tree reaches together, kept as an antichain. */
module UpIncl {
  import opened Antichain
  import opened BottomUpIndexes
  import opened ChoiceFunctions
  import opened Collections
  import opened InclusionSpec
  import opened Preorders
  import opened TreeAutomata
  import opened UpSpec
  import opened UpWorklist

  /** The pairs that the lists hold. */
  function PairsOf(data: map<State, seq<set<State>>>): (r: set<Goal>)
    ensures forall q, P :: InH(r, q, P) <==> q in data && P in data[q]
  {
    set q, P | q in data && P in data[q] :: (q, P)
  }

  /** The vector that the odometer shows. */
  function Pick(lists: seq<seq<set<State>>>, f: seq<nat>): (Ps: seq<set<State>>)
    requires InRange(f, Lengths(lists))
    ensures |Ps| == |lists| && forall i :: 0 <= i < |Ps| ==> Ps[i] == lists[i][f[i]]
  {
    seq(|lists|, i requires 0 <= i < |lists| => lists[i][f[i]])
  }

  function Lengths(lists: seq<seq<set<State>>>): (r: seq<nat>)
    ensures |r| == |lists| && forall i :: 0 <= i < |r| ==> r[i] == |lists[i]|
  {
    seq(|lists|, i requires 0 <= i < |lists| => |lists[i]|)
  }

  lemma PickAny(lists: seq<seq<set<State>>>, Ps: seq<set<State>>) returns (f: seq<nat>)
    requires |Ps| == |lists| && forall i :: 0 <= i < |Ps| ==> Ps[i] in lists[i]
    ensures InRange(f, Lengths(lists)) && Pick(lists, f) == Ps
  {
    f := [];
    while |f| < |Ps|
      invariant |f| <= |Ps| && forall i :: 0 <= i < |f| ==> f[i] < |lists[i]| && lists[i][f[i]] == Ps[i]
    {
      var d: nat :| d < |lists[|f|]| && lists[|f|][d] == Ps[|f|];
      f := f + [d];
    }
  }

  /** T covers what the transition gives for the vectors shown so far. */
  ghost predicate Shown(B: Aut, R: Preorder, T: set<Goal>, tr: Transition, lists: seq<seq<set<State>>>, f: seq<nat>, all: bool)
    requires |f| == |lists|
  {
    forall g {:trigger Pick(lists, g)} :: InRange(g, Lengths(lists)) && (all || Before(g, f)) ==> Covers(R, T, tr.parent, Post(B, tr.sym, Pick(lists, g)))
  }

  lemma ShowNext(B: Aut, R: Preorder, T: set<Goal>, T': set<Goal>, tr: Transition, lists: seq<seq<set<State>>>, f: seq<nat>)
    requires InRange(f, Lengths(lists)) && lists != [] && Shown(B, R, T, tr, lists, f, false)
    requires CoversMore(R, T, T') && Covers(R, T', tr.parent, Post(B, tr.sym, Pick(lists, f)))
    ensures Shown(B, R, T', tr, lists, Succ(f, Lengths(lists)), IsMax(f, Lengths(lists)))
  {
    var radix := Lengths(lists);
    forall g | InRange(g, radix) && (IsMax(f, radix) || Before(g, Succ(f, radix))) ensures Covers(R, T', tr.parent, Post(B, tr.sym, Pick(lists, g))) {
      if IsMax(f, radix) { MaxIsLast(g, f, radix); } else { SuccIsNext(g, f, radix); }
      if g != f { assert Covers(R, T, tr.parent, Post(B, tr.sym, Pick(lists, g))); }
    }
  }

  lemma ShowNone(B: Aut, R: Preorder, T: set<Goal>, tr: Transition, lists: seq<seq<set<State>>>)
    ensures Shown(B, R, T, tr, lists, Uniform(|lists|, 0), false)
  {
    forall g | InRange(g, Lengths(lists)) ensures !Before(g, Uniform(|lists|, 0)) {
      ZeroIsFirst(g, Uniform(|lists|, 0));
    }
  }

  /** The lists offer every pair of E, and Q at position j. */
  ghost predicate Offers(lists: seq<seq<set<State>>>, H: set<Goal>, qs: seq<State>, j: nat, Q: set<State>) {
    |lists| == |qs| && j < |lists| && lists[j] == [Q]
    && forall i, P {:trigger P in lists[i]} :: 0 <= i < |lists| && i != j ==> (P in lists[i] <==> InH(H, qs[i], P))
  }

  /** When all vectors have been shown and what they give is stored, the transition is handled. */
  lemma AllShown(A: Aut, B: Aut, R: Preorder, T: set<Goal>, H0: set<Goal>, H: set<Goal>, Q: set<State>, tr: Transition, j: nat,
          lists: seq<seq<set<State>>>, f: seq<nat>, E: set<Goal>)
    requires Offers(lists, H0, tr.kids, j, Q) && |f| == |lists| && Shown(B, R, T, tr, lists, f, true)
    requires Transitive(R) && E <= H0 && forall p, P :: InH(T, p, P) ==> Subsumed(R, H, p, P)
    ensures HandledAt(A, B, R, H, Q, tr, j, E)
  {
    forall Ps | FromExcept(E, tr.kids, Ps, j, Q) ensures Covers(R, H, tr.parent, Post(B, tr.sym, Ps)) {
      forall i | 0 <= i < |Ps| ensures Ps[i] in lists[i] {
        if i != j { assert InH(E, tr.kids[i], Ps[i]); assert InH(H0, tr.kids[i], Ps[i]); }
      }
      var g := PickAny(lists, Ps);
      assert Covers(R, T, tr.parent, Post(B, tr.sym, Pick(lists, g)));
      if !Meets(R, tr.parent, Post(B, tr.sym, Ps)) {
        var p, P :| InH(T, p, P) && Rel(R, tr.parent, p) && Covered(R, P, Post(B, tr.sym, Ps));
        SubsumedUp(R, H, tr.parent, Post(B, tr.sym, Ps), p, P);
      }
    }
  }

  /** A vector that the lists offer is derived, so what it gives is too. */
  lemma PickDerived(A: Aut, B: Aut, R: Preorder, H: set<Goal>, tr: Transition, j: nat, Q: set<State>,
          lists: seq<seq<set<State>>>, f: seq<nat>, S: set<State>)
    requires tr in A.trans && Offers(lists, H, tr.kids, j, Q) && InRange(f, Lengths(lists))
    requires forall q, P :: InH(H, q, P) ==> Derived(A, B, R, q, P)
    requires Derived(A, B, R, tr.kids[j], Q) && Pruned(R, Post(B, tr.sym, Pick(lists, f)), S) && Flat(R, S)
    ensures Derived(A, B, R, tr.parent, S)
  {
    var Ps := Pick(lists, f);
    forall i | 0 <= i < |Ps| ensures Derived(A, B, R, tr.kids[i], Ps[i]) {
      if i != j { assert Ps[i] in lists[i]; assert InH(H, tr.kids[i], Ps[i]); }
    }
    Combine(A, B, R, tr, Ps, S);
  }

  /** What the check makes of a derived pair: a refutation if the set is empty or lacks a
      final state that it needs, and else a good pair. */
  ghost predicate Judged(A: Aut, B: Aut, R: Preorder, q: State, S: set<State>) {
    && (S == {} || (q in A.finals && S * B.finals == {}) ==> Refuted(A, B, R))
    && (!(q in A.finals && S * B.finals == {}) ==> Good(A, B, R, q, S))
  }

  lemma Judge(A: Aut, B: Aut, R: Preorder, q: State, S: set<State>)
    requires q in A.States() && S <= B.States() && Derived(A, B, R, q, S)
    ensures Judged(A, B, R, q, S)
  {
  }

  lemma JudgePick(A: Aut, B: Aut, R: Preorder, H: set<Goal>, tr: Transition, j: nat, Q: set<State>,
          lists: seq<seq<set<State>>>, f: seq<nat>, S: set<State>)
    requires tr in A.trans && Offers(lists, H, tr.kids, j, Q) && InRange(f, Lengths(lists)) && Flat(R, S)
    requires (forall q, P :: InH(H, q, P) ==> Good(A, B, R, q, P)) && Derived(A, B, R, tr.kids[j], Q) && Pruned(R, Post(B, tr.sym, Pick(lists, f)), S)
    ensures Judged(A, B, R, tr.parent, S) && tr.parent in A.States() && S <= B.States()
  {
    PickDerived(A, B, R, H, tr, j, Q, lists, f, S);
    TransitionStates(A, tr);
    Judge(A, B, R, tr.parent, S);
  }

  /** Is the pair found to be subsumed? */
  method Contains(antichain: Antichain, q: State, S: set<State>, P: Problem) returns (r: bool)
    ensures r <==> Found(P, PairsOf(antichain.data), q, S)
  {
    r := antichain.Contains(Bigger(P.R, q), S, P.lte);
    ghost var H := PairsOf(antichain.data);
    forall p, T ensures (p in Bigger(P.R, q) && antichain.Has(p, T) && P.lte(T, S)) <==> (InH(H, p, T) && Rel(P.R, q, p) && P.lte(T, S)) {
      assert antichain.Has(p, T) <==> InH(H, p, T);
    }
  }

  /** Drops the pairs that the new one is found to subsume, and inserts it. */
  method Replace(antichain: Antichain, q: State, S: set<State>, P: Problem) returns (erased: set<Goal>)
    requires antichain.Valid()
    modifies antichain
    ensures antichain.Valid() && Stored(P, old(PairsOf(antichain.data)), q, S, PairsOf(antichain.data))
    ensures forall g :: g in erased <==> InH(old(PairsOf(antichain.data)), g.0, g.1) && Rel(P.R, g.0, q) && P.lte(S, g.1)
  {
    ghost var h := PairsOf(antichain.data);
    var lte := P.lte;
    erased := antichain.Refine(Smaller(P.R, q), S, (X, Y) => lte(Y, X));
    label L:
    antichain.Insert(q, S);
    ghost var h' := PairsOf(antichain.data);
    forall p, T ensures InH(h', p, T) <==> (InH(h, p, T) && !(Rel(P.R, p, q) && P.lte(S, T))) || (p == q && T == S) {
      assert antichain.Has(p, T) <==> old@L(antichain.Has(p, T)) || (p == q && T == S);
      assert old(antichain.Has(p, T)) <==> InH(h, p, T);
    }
    forall g ensures g in erased <==> InH(h, g.0, g.1) && Rel(P.R, g.0, q) && P.lte(S, g.1) {
      assert old(antichain.Has(g.0, g.1)) <==> InH(h, g.0, g.1);
    }
  }

  function ParentsOf(T: set<Transition>): set<State> {
    set tr | tr in T :: tr.parent
  }

  lemma PruneFinal(A: Aut, B: Aut, R: Preorder, S: set<State>, s: State, below: set<State>)
    requires KeepsFinals(A, B, R) && DisjointStates(A, B) && s in B.States() && forall x :: x in below ==> Rel(R, x, s)
    ensures (S - below + {s}) * B.finals != {} <==> s in B.finals || S * B.finals != {}
  {
    var S' := S - below + {s};
    if s in B.finals {
      assert s in S' * B.finals;
    }
    if f :| f in S * B.finals {
      assert FinalAt(A, B, R, f, s);
      assert f in S' * B.finals || s in S' * B.finals;
    }
    if f :| f in S' * B.finals {
      assert f == s || f in S * B.finals;
    }
  }

  /** The parent of one more transition is taken into the set, in place of the states below it. */
  lemma CollectStep(A: Aut, B: Aut, R: Preorder, D: set<Transition>, S: set<State>, tr: Transition, below: set<State>)
    requires KeepsFinals(A, B, R) && DisjointStates(A, B) && D <= B.trans && tr in B.trans && Pruned(R, ParentsOf(D), S)
    requires forall x :: x in below ==> Rel(R, x, tr.parent)
    ensures Pruned(R, ParentsOf(D + {tr}), S - below + {tr.parent})
    ensures (S - below + {tr.parent}) * B.finals != {} <==> tr.parent in B.finals || S * B.finals != {}
    ensures Meets(R, tr.parent, S) ==> Pruned(R, ParentsOf(D + {tr}), S)
    ensures Flat(R, S) && !Meets(R, tr.parent, S) && (forall x :: Rel(R, x, tr.parent) ==> x in below) ==> Flat(R, S - below + {tr.parent})
  {
    TransitionStates(B, tr);
    assert ParentsOf(D + {tr}) == ParentsOf(D) + {tr.parent};
    PruneStep(R, ParentsOf(D), S, tr.parent, below);
    PruneFinal(A, B, R, S, tr.parent, below);
  }

  class ExplicitUpwardInclusion {
    const smaller: Aut
    const bigger: Aut
    const R: Preorder
    const lte: Comparer
    ghost const rank: Symbol -> nat
    const smallerIndex: IndexedLists
    const smallerLeaves: SymbolLists
    const biggerIndex: DoubleIndexedLists
    const biggerLeaves: SymbolLists
    const temporary: Antichain
    const processed: Antichain
    var next: set<Goal>

    function Prob(): Problem {
      Problem(smaller, bigger, R, lte)
    }

    ghost function Now(): Stage
      reads this, processed
    {
      Stage(H(), next)
    }

    ghost predicate Indexed() {
      && WellSet(Prob()) && DisjointStates(smaller, bigger) && KeepsFinals(smaller, bigger, R)
      && Ranked(smaller.trans, rank) && Ranked(bigger.trans, rank)
      && IndexOf(Entries(smallerIndex), smaller.trans) && LeavesOf(smallerLeaves, smaller.trans)
      && IndexOf(Entries2(biggerIndex), bigger.trans) && LeavesOf(biggerLeaves, bigger.trans)
    }

    constructor (smaller: Aut, bigger: Aut, R: Preorder, lte: Comparer, ghost rank: Symbol -> nat)
      requires KeepsFinals(smaller, bigger, R) && SoundComparer(R, lte) && ByClass(bigger, R, lte)
      requires DisjointStates(smaller, bigger) && Ranked(smaller.trans, rank) && Ranked(bigger.trans, rank)
      ensures this.smaller == smaller && this.bigger == bigger && this.R == R
      ensures Indexed() && Valid() && fresh(temporary) && fresh(processed)
      ensures processed.data == map[] && temporary.data == map[] && next == {}
    {
      this.smaller, this.bigger, this.R, this.lte, this.rank := smaller, bigger, R, lte, rank;
      var index, leaves := IndexBottomUp(smaller, rank);
      smallerIndex, smallerLeaves := index, leaves;
      var index2, leaves2 := IndexBottomUp2(bigger, rank);
      biggerIndex, biggerLeaves := index2, leaves2;
      temporary := new Antichain();
      processed := new Antichain();
      next := {};
    }

    ghost function H(): set<Goal>
      reads processed
    {
      PairsOf(processed.data)
    }

    ghost predicate Valid()
      reads this, temporary, processed
    {
      && temporary != processed && temporary.Valid() && processed.Valid()
      && Worklist(Prob(), Now())
    }

    /** The transitions with symbol a that have one of the states at position i. */
    method EvalTransitions(a: Symbol, i: nat, states: set<State>) returns (r: set<Transition>)
      requires Indexed()
      ensures forall tr :: tr in r <==> tr in bigger.trans && tr.sym == a && i < |tr.kids| && tr.kids[i] in states
    {
      r := {};
      if a !in biggerIndex || |biggerIndex[a]| <= i {
        forall tr | tr in bigger.trans && i < |tr.kids| ensures tr.sym != a {
          assert Entry2(biggerIndex, tr.kids[i], a, i) == [];
          assert tr !in Entries2(biggerIndex)(tr.kids[i], a, i);
        }
        return;
      }
      var todo := states;
      while todo != {}
        invariant todo <= states
        invariant forall tr :: tr in r <==> tr in bigger.trans && tr.sym == a && i < |tr.kids| && tr.kids[i] in states - todo
        decreases todo
      {
        var s :| s in todo;
        todo := todo - {s};
        forall tr ensures tr in Entry2(biggerIndex, s, a, i) <==> tr in bigger.trans && Occurs(tr, s, a, i) {
          assert tr in Entries2(biggerIndex)(s, a, i) <==> tr in bigger.trans && Occurs(tr, s, a, i);
        }
        if s < |biggerIndex[a][i]| {
          r := r + SetOf(biggerIndex[a][i][s]);
        }
      }
    }

    /** The states reached from the vector, without those below others, and whether one of them is final. */
    method EvalPost(a: Symbol, Ps: seq<set<State>>) returns (post: set<State>, isAccepting: bool)
      requires Indexed() && |Ps| == rank(a) > 0
      ensures Pruned(R, Post(bigger, a, Ps), post) && Flat(R, post) && (isAccepting <==> post * bigger.finals != {})
    {
      var transitions := EvalTransitions(a, 0, Ps[0]);
      var k := 1;
      while k < |Ps|
        invariant 1 <= k <= |Ps|
        invariant forall tr :: tr in transitions <==> tr in bigger.trans && tr.sym == a && |tr.kids| == |Ps| && forall i :: 0 <= i < k ==> tr.kids[i] in Ps[i]
      {
        var others := EvalTransitions(a, k, Ps[k]);
        transitions := set tr | tr in transitions && tr in others;
        k := k + 1;
      }
      post, isAccepting := CollectParents(transitions);
      forall tr ensures tr in transitions <==> tr in bigger.trans && Fits(tr, a, Ps) { }
      assert ParentsOf(transitions) == Post(bigger, a, Ps);
    }

    method CollectParents(transitions: set<Transition>) returns (post: set<State>, isAccepting: bool)
      requires Indexed() && transitions <= bigger.trans
      ensures Pruned(R, ParentsOf(transitions), post) && Flat(R, post) && (isAccepting <==> post * bigger.finals != {})
    {
      post, isAccepting := {}, false;
      var todo := transitions;
      while todo != {}
        invariant todo <= transitions && Pruned(R, ParentsOf(transitions - todo), post) && Flat(R, post)
        invariant isAccepting <==> post * bigger.finals != {}
        decreases todo
      {
        var tr :| tr in todo;
        assert transitions - (todo - {tr}) == transitions - todo + {tr};
        todo := todo - {tr};
        var bigger_, smaller_ := Bigger(R, tr.parent), Smaller(R, tr.parent);
        CollectStep(smaller, bigger, R, transitions - (todo + {tr}), post, tr, smaller_);
        if bigger_ * post == {} {
          NotMet(R, tr.parent, post);
          post := post - smaller_ + {tr.parent};
          isAccepting := isAccepting || tr.parent in bigger.finals;
        } else {
          IsMet(R, tr.parent, post);
        }
      }
      assert transitions - todo == transitions;
    }

    /** Stores a pair unless it is subsumed, and drops those that it subsumes. */
    method Store(q: State, S: set<State>)
      requires Indexed() && Valid() && AllGood(Prob(), {(q, S)})
      modifies processed, `next
      ensures Valid() && Grown(Prob(), old(Now()), Now()) && Subsumed(R, H(), q, S)
    {
      ghost var before := Now();
      GoodPairs(Prob(), before.H);
      var found := Contains(processed, q, S, Prob());
      if found {
        FoundSubsumes(Prob(), before.H, q, S);
        return;
      }
      var erased := Replace(processed, q, S, Prob());
      NextKept(before.H, q, S, H(), next, erased);
      StoreKeeps(Prob(), before, q, S, H());
      next := next - erased + {(q, S)};
    }

    lemma NextKept(h: set<Goal>, q: State, S: set<State>, h': set<Goal>, next: set<Goal>, erased: set<Goal>)
      requires Stored(Prob(), h, q, S, h') && next <= h
      requires forall g :: g in erased <==> InH(h, g.0, g.1) && Rel(R, g.0, q) && lte(S, g.1)
      ensures next - erased + {(q, S)} == next * h' + {(q, S)}
    {
      forall g | g in next ensures g !in erased || g == (q, S) <==> g in h' {
        assert InH(h, g.0, g.1);
        assert InH(h', g.0, g.1) <==> g in h';
      }
    }

    /** Collects the stored sets of all children but one, which is fixed; fails if a child has none. */
    method BuildChoices(children: seq<State>, index: nat, Q: set<State>) returns (ok: bool, lists: seq<seq<set<State>>>)
      requires Indexed() && Valid() && index < |children|
      ensures ok ==> Offers(lists, H(), children, index, Q) && forall i :: 0 <= i < |lists| ==> lists[i] != []
      ensures !ok ==> exists i: nat :: i < |children| && i != index && NoPairs(H(), children[i])
    {
      lists := [];
      while |lists| < |children|
        invariant |lists| <= |children|
        invariant forall i :: 0 <= i < |lists| ==> lists[i] != []
        invariant index < |lists| ==> lists[index] == [Q]
        invariant forall i, P {:trigger P in lists[i]} :: 0 <= i < |lists| && i != index ==> (P in lists[i] <==> InH(H(), children[i], P))
      {
        var i := |lists|;
        if i == index {
          lists := lists + [[Q]];
        } else if children[i] in processed.data {
          lists := lists + [processed.data[children[i]]];
        } else {
          assert NoPairs(H(), children[i]);
          return false, lists;
        }
      }
      ok := true;
    }

    /** Evaluates the transition on every vector offered, and collects what it gives. */
    method Enumerate(tr: Transition, j: nat, Q: set<State>, lists: seq<seq<set<State>>>) returns (ok: bool)
      requires Indexed() && Valid() && temporary.data == map[]
      requires tr in smaller.trans && Offers(lists, H(), tr.kids, j, Q) && Derived(smaller, bigger, R, tr.kids[j], Q)
      requires forall i :: 0 <= i < |lists| ==> lists[i] != []
      modifies temporary
      ensures !ok ==> Refuted(smaller, bigger, R)
      ensures ok ==> temporary.Valid() && AllGood(Prob(), PairsOf(temporary.data))
      ensures ok ==> Shown(bigger, R, PairsOf(temporary.data), tr, lists, Uniform(|lists|, 0), true)
    {
      var f := Uniform(|lists|, 0);
      var wrapped := false;
      ShowNone(bigger, R, PairsOf(temporary.data), tr, lists);
      while !wrapped
        invariant InRange(f, Lengths(lists)) && temporary.Valid() && AllGood(Prob(), PairsOf(temporary.data))
        invariant Shown(bigger, R, PairsOf(temporary.data), tr, lists, f, wrapped)
        decreases !wrapped, Left(f, Lengths(lists))
      {
        ghost var before := f;
        ok := Evaluate(tr, j, Q, lists, f);
        if !ok { return; }
        SuccInRange(f, Lengths(lists));
        f, wrapped := Advance(f, Lengths(lists));
        if !wrapped { SuccLeavesFewer(before, Lengths(lists)); }
      }
      ok := true;
    }

    /** One vector: refutes the inclusion, or keeps what the transition gives. */
    method Evaluate(tr: Transition, j: nat, Q: set<State>, lists: seq<seq<set<State>>>, f: seq<nat>) returns (ok: bool)
      requires Indexed() && Valid()
      requires tr in smaller.trans && Offers(lists, H(), tr.kids, j, Q) && Derived(smaller, bigger, R, tr.kids[j], Q)
      requires InRange(f, Lengths(lists)) && AllGood(Prob(), PairsOf(temporary.data))
      requires Shown(bigger, R, PairsOf(temporary.data), tr, lists, f, false)
      modifies temporary
      ensures !ok ==> Refuted(smaller, bigger, R)
      ensures ok ==> temporary.Valid() && AllGood(Prob(), PairsOf(temporary.data))
      ensures ok ==> Shown(bigger, R, PairsOf(temporary.data), tr, lists, Succ(f, Lengths(lists)), IsMax(f, Lengths(lists)))
    {
      ghost var T := PairsOf(temporary.data);
      var S, isAccepting := EvalPost(tr.sym, Pick(lists, f));
      JudgePick(smaller, bigger, R, H(), tr, j, Q, lists, f, S);
      if S == {} {
        return false;
      }
      if !isAccepting && tr.parent in smaller.finals {
        return false;
      }
      Keep(tr.parent, S);
      CoversPost(smaller, bigger, R, PairsOf(temporary.data), tr.parent, Post(bigger, tr.sym, Pick(lists, f)), S);
      ShowNext(bigger, R, T, PairsOf(temporary.data), tr, lists, f);
      ok := true;
    }

    /** Keeps a pair among the temporary ones, unless it is covered by the preorder or by them. */
    method Keep(q: State, S: set<State>)
      requires Indexed() && temporary.Valid() && AllGood(Prob(), {(q, S)}) && AllGood(Prob(), PairsOf(temporary.data))
      modifies temporary
      ensures temporary.Valid() && AllGood(Prob(), PairsOf(temporary.data))
      ensures CoversMore(R, old(PairsOf(temporary.data)), PairsOf(temporary.data)) && Covers(R, PairsOf(temporary.data), q, S)
    {
      ghost var T := PairsOf(temporary.data);
      assert InH({(q, S)}, q, S);
      GoodPairs(Prob(), T);
      GoodPairs(Prob(), {(q, S)});
      if lte({q}, S) {
        SkipMeets(Prob(), q, S);
        return;
      }
      var found := Contains(temporary, q, S, Prob());
      if found {
        FoundSubsumes(Prob(), T, q, S);
        return;
      }
      var _ := Replace(temporary, q, S, Prob());
      StoreCovers(Prob(), T, q, S, PairsOf(temporary.data));
    }

    /** Moves the temporary pairs to the processed ones. */
    method Merge()
      requires Indexed() && Valid() && AllGood(Prob(), PairsOf(temporary.data))
      modifies processed, temporary, `next
      ensures Valid() && temporary.data == map[]
      ensures Grown(Prob(), old(Now()), Now())
      ensures forall p, P :: InH(old(PairsOf(temporary.data)), p, P) ==> Subsumed(R, H(), p, P)
    {
      ghost var T := PairsOf(temporary.data);
      var data := temporary.data;
      var todo := data.Keys;
      while todo != {}
        invariant todo <= data.Keys && temporary.data == data && Valid()
        invariant Grown(Prob(), old(Now()), Now())
        invariant forall p, P :: InH(T, p, P) && p !in todo ==> Subsumed(R, H(), p, P)
        decreases todo
      {
        var q :| q in todo;
        ghost var h := Now();
        MergeList(q, data[q], T);
        GrownTrans(Prob(), old(Now()), h, Now());
        todo := todo - {q};
      }
      temporary.data := map[];
    }

    method MergeList(q: State, list: seq<set<State>>, ghost T: set<Goal>)
      requires Indexed() && Valid() && AllGood(Prob(), T) && forall P :: P in list ==> InH(T, q, P)
      modifies processed, `next
      ensures Valid() && Grown(Prob(), old(Now()), Now()) && AllSubsumed(R, H(), q, list)
    {
      var i := 0;
      while i < |list|
        invariant 0 <= i <= |list| && Valid()
        invariant Grown(Prob(), old(Now()), Now()) && AllSubsumed(R, H(), q, list[..i])
      {
        ghost var h := Now();
        MergeOne(q, list[i], T);
        GrownTrans(Prob(), old(Now()), h, Now());
        SubsumedStill(R, h.H, H(), q, list[..i]);
        assert list[..i + 1] == list[..i] + [list[i]];
        i := i + 1;
      }
      assert list[..i] == list;
    }

    method MergeOne(q: State, S: set<State>, ghost T: set<Goal>)
      requires Indexed() && Valid() && AllGood(Prob(), T) && InH(T, q, S)
      modifies processed, `next
      ensures Valid() && Grown(Prob(), old(Now()), Now()) && Subsumed(R, H(), q, S)
    {
      assert AllGood(Prob(), {(q, S)});
      Store(q, S);
    }

    /** Combines Q at position j of the transition with the stored sets of the other children. */
    method HandleTransition(tr: Transition, j: nat, Q: set<State>) returns (ok: bool)
      requires Indexed() && Valid() && temporary.data == map[]
      requires tr in smaller.trans && j < |tr.kids| && Derived(smaller, bigger, R, tr.kids[j], Q)
      modifies processed, temporary, `next
      ensures !ok ==> Refuted(smaller, bigger, R)
      ensures ok ==> Valid() && temporary.data == map[] && Grown(Prob(), old(Now()), Now())
      ensures ok ==> HandledAt(smaller, bigger, R, H(), Q, tr, j, Done(Now()))
    {
      ghost var h := Now();
      var built, lists := BuildChoices(tr.kids, j, Q);
      if !built {
        NothingToHandle(smaller, bigger, R, h.H, Q, tr, j, Done(h));
        return true;
      }
      ok := Enumerate(tr, j, Q, lists);
      if ok {
        ghost var T := PairsOf(temporary.data);
        Merge();
        AllShown(smaller, bigger, R, T, h.H, H(), Q, tr, j, lists, Uniform(|lists|, 0), Done(Now()));
      }
    }

    method HandleList(list: seq<Transition>, j: nat, q: State, Q: set<State>) returns (ok: bool)
      requires Indexed() && Valid() && temporary.data == map[] && Derived(smaller, bigger, R, q, Q)
      requires forall tr :: tr in list ==> tr in smaller.trans && j < |tr.kids| && tr.kids[j] == q
      modifies processed, temporary, `next
      ensures !ok ==> Refuted(smaller, bigger, R)
      ensures ok ==> Valid() && temporary.data == map[] && Grown(Prob(), old(Now()), Now())
      ensures ok ==> forall tr :: tr in list ==> HandledAt(smaller, bigger, R, H(), Q, tr, j, Done(Now()))
    {
      var k := 0;
      while k < |list|
        invariant 0 <= k <= |list| && Valid() && temporary.data == map[]
        invariant Grown(Prob(), old(Now()), Now())
        invariant HandledFirst(smaller, bigger, R, H(), Q, list[..k], j, Done(Now()))
      {
        ghost var h := Now();
        ok := HandleTransition(list[k], j, Q);
        if !ok { return; }
        GrownTrans(Prob(), old(Now()), h, Now());
        HandledStill(smaller, bigger, R, h.H, H(), Q, list[..k], j, Done(h), Done(Now()));
        assert list[..k + 1] == list[..k] + [list[k]];
        k := k + 1;
      }
      assert list[..k] == list;
      ok := true;
    }

    method HandleLists(lists: seq<seq<Transition>>, q: State, Q: set<State>) returns (ok: bool)
      requires Indexed() && Valid() && temporary.data == map[] && Derived(smaller, bigger, R, q, Q)
      requires forall j, tr :: 0 <= j < |lists| && tr in lists[j] ==> tr in smaller.trans && j < |tr.kids| && tr.kids[j] == q
      modifies processed, temporary, `next
      ensures !ok ==> Refuted(smaller, bigger, R)
      ensures ok ==> Valid() && temporary.data == map[] && Grown(Prob(), old(Now()), Now())
      ensures ok ==> forall j: nat :: j < |lists| ==> HandledFirst(smaller, bigger, R, H(), Q, lists[j], j, Done(Now()))
    {
      var j: nat := 0;
      while j < |lists|
        invariant 0 <= j <= |lists| && Valid() && temporary.data == map[]
        invariant Grown(Prob(), old(Now()), Now())
        invariant forall i: nat :: i < j ==> HandledFirst(smaller, bigger, R, H(), Q, lists[i], i, Done(Now()))
      {
        ghost var h := Now();
        ok := HandleList(lists[j], j, q, Q);
        if !ok { return; }
        GrownTrans(Prob(), old(Now()), h, Now());
        forall i: nat | i < j ensures HandledFirst(smaller, bigger, R, H(), Q, lists[i], i, Done(Now())) {
          HandledStill(smaller, bigger, R, h.H, H(), Q, lists[i], i, Done(h), Done(Now()));
        }
        j := j + 1;
      }
      ok := true;
    }

    /** The transitions of all symbols that have q among their children. */
    method HandleState(q: State, Q: set<State>) returns (ok: bool)
      requires Indexed() && Valid() && temporary.data == map[] && Derived(smaller, bigger, R, q, Q)
      modifies processed, temporary, `next
      ensures !ok ==> Refuted(smaller, bigger, R)
      ensures ok ==> Valid() && temporary.data == map[] && Grown(Prob(), old(Now()), Now())
      ensures ok ==> forall tr, j {:trigger HandledAt(smaller, bigger, R, H(), Q, tr, j, Done(Now()))} :: tr in smaller.trans && 0 <= j < |tr.kids| && tr.kids[j] == q ==> HandledAt(smaller, bigger, R, H(), Q, tr, j, Done(Now()))
    {
      if q !in smallerIndex {
        forall tr, j: nat | tr in smaller.trans && j < |tr.kids| ensures tr.kids[j] != q {
          assert Entry(smallerIndex, q, tr.sym, j) == [];
          assert tr !in Entries(smallerIndex)(q, tr.sym, j);
        }
        return true;
      }
      var index := smallerIndex[q];
      var todo := index.Keys;
      while todo != {}
        invariant todo <= index.Keys && Valid() && temporary.data == map[]
        invariant Grown(Prob(), old(Now()), Now())
        invariant forall a, j: nat {:trigger index[a][j]} :: a in index && a !in todo && j < |index[a]| ==> HandledFirst(smaller, bigger, R, H(), Q, index[a][j], j, Done(Now()))
        decreases todo
      {
        var a :| a in todo;
        ghost var h := Now();
        ListsOf(q, a);
        ok := HandleLists(index[a], q, Q);
        if !ok { return; }
        GrownTrans(Prob(), old(Now()), h, Now());
        forall b, j: nat | b in index && b !in todo && j < |index[b]| ensures HandledFirst(smaller, bigger, R, H(), Q, index[b][j], j, Done(Now())) {
          HandledStill(smaller, bigger, R, h.H, H(), Q, index[b][j], j, Done(h), Done(Now()));
        }
        todo := todo - {a};
      }
      forall tr, j: nat | tr in smaller.trans && j < |tr.kids| && tr.kids[j] == q ensures HandledAt(smaller, bigger, R, H(), Q, tr, j, Done(Now())) {
        assert tr in Entries(smallerIndex)(q, tr.sym, j) <==> Occurs(tr, q, tr.sym, j);
        assert HandledFirst(smaller, bigger, R, H(), Q, index[tr.sym][j], j, Done(Now()));
      }
      ok := true;
    }

    lemma ListsOf(q: State, a: Symbol)
      requires Indexed() && q in smallerIndex && a in smallerIndex[q]
      ensures forall j, tr :: 0 <= j < |smallerIndex[q][a]| && tr in smallerIndex[q][a][j] ==> tr in smaller.trans && j < |tr.kids| && tr.kids[j] == q
    {
      forall j: nat, tr | j < |smallerIndex[q][a]| && tr in smallerIndex[q][a][j] ensures tr in smaller.trans && j < |tr.kids| && tr.kids[j] == q {
        assert tr in Entries(smallerIndex)(q, a, j);
      }
    }

    /** Takes a pair with the smallest set, and among these with the least state. */
    method PopLeast() returns (q: State, Q: set<State>)
      requires next != {}
      modifies `next
      ensures (q, Q) in old(next) && next == old(next) - {(q, Q)}
      ensures forall g :: g in old(next) ==> |Q| < |g.1| || (|Q| == |g.1| && q <= g.0)
    {
      var g :| g in next;
      var todo := next - {g};
      while todo != {}
        invariant todo <= next && g in next
        invariant forall h :: h in next - todo ==> |g.1| < |h.1| || (|g.1| == |h.1| && g.0 <= h.0)
        decreases todo
      {
        var h :| h in todo;
        todo := todo - {h};
        if |h.1| < |g.1| || (|h.1| == |g.1| && h.0 < g.0) { g := h; }
      }
      q, Q := g.0, g.1;
      next := next - {g};
    }

    /** What the leaves reach. */
    method PostOfLeaves() returns (ok: bool)
      requires Indexed() && Valid()
      modifies processed, `next
      ensures !ok ==> Refuted(smaller, bigger, R)
      ensures ok ==> Valid() && Grown(Prob(), old(Now()), Now()) && forall tr :: tr in smaller.trans && tr.kids == [] ==> Covers(R, H(), tr.parent, Post(bigger, tr.sym, []))
    {
      if |biggerLeaves| < |smallerLeaves| {
        FewerLeaves();
        return false;
      }
      var todo := smallerLeaves.Keys;
      while todo != {}
        invariant todo <= smallerLeaves.Keys && Valid() && Grown(Prob(), old(Now()), Now())
        invariant LeavesCovered(smaller, bigger, R, H(), smallerLeaves.Keys - todo)
        decreases todo
      {
        var a :| a in todo;
        ghost var h := Now();
        BiggerLeaf(a);
        var S, isAccepting := CollectParents(if a in biggerLeaves then SetOf(biggerLeaves[a]) else {});
        forall tr | tr in smallerLeaves[a] ensures tr in smaller.trans && tr.sym == a && tr.kids == [] {
          assert tr in Leaves(smallerLeaves, a);
        }
        ok := StoreLeaves(a, S, isAccepting, smallerLeaves[a]);
        if !ok { return; }
        GrownTrans(Prob(), old(Now()), h, Now());
        LeavesStill(smaller, bigger, R, h.H, H(), smallerLeaves.Keys - todo);
        forall tr | tr in smaller.trans && tr.kids == [] && tr.sym == a ensures Covers(R, H(), tr.parent, Post(bigger, a, [])) {
          assert tr in Leaves(smallerLeaves, a);
        }
        assert smallerLeaves.Keys - (todo - {a}) == (smallerLeaves.Keys - todo) + {a};
        todo := todo - {a};
      }
      forall tr | tr in smaller.trans && tr.kids == [] ensures Covers(R, H(), tr.parent, Post(bigger, tr.sym, [])) {
        assert tr in Leaves(smallerLeaves, tr.sym);
      }
      ok := true;
    }

    lemma BiggerLeaf(a: Symbol)
      requires Indexed()
      ensures ParentsOf(SetOf(Leaves(biggerLeaves, a))) == Post(bigger, a, []) && SetOf(Leaves(biggerLeaves, a)) <= bigger.trans
    {
      forall tr ensures tr in Leaves(biggerLeaves, a) <==> tr in bigger.trans && Fits(tr, a, []) { }
    }

    method StoreLeaf(tr: Transition, S: set<State>, isAccepting: bool) returns (ok: bool)
      requires Indexed() && Valid() && tr in smaller.trans && tr.kids == []
      requires Pruned(R, Post(bigger, tr.sym, []), S) && Flat(R, S) && (isAccepting <==> S * bigger.finals != {})
      modifies processed, `next
      ensures !ok ==> Refuted(smaller, bigger, R)
      ensures ok ==> Valid() && Grown(Prob(), old(Now()), Now()) && Covers(R, H(), tr.parent, Post(bigger, tr.sym, []))
    {
      JudgeLeaf(smaller, bigger, R, tr, S);
      if !isAccepting && tr.parent in smaller.finals {
        return false;
      }
      assert Good(smaller, bigger, R, tr.parent, S);
      if lte({tr.parent}, S) {
        SkipMeets(Prob(), tr.parent, S);
      } else {
        Store(tr.parent, S);
      }
      CoversPost(smaller, bigger, R, H(), tr.parent, Post(bigger, tr.sym, []), S);
      ok := true;
    }

    method StoreLeaves(a: Symbol, S: set<State>, isAccepting: bool, list: seq<Transition>) returns (ok: bool)
      requires Indexed() && Valid() && Pruned(R, Post(bigger, a, []), S) && Flat(R, S) && (isAccepting <==> S * bigger.finals != {})
      requires forall tr :: tr in list ==> tr in smaller.trans && tr.sym == a && tr.kids == []
      modifies processed, `next
      ensures !ok ==> Refuted(smaller, bigger, R)
      ensures ok ==> Valid() && Grown(Prob(), old(Now()), Now()) && forall tr :: tr in list ==> Covers(R, H(), tr.parent, Post(bigger, a, []))
    {
      var i := 0;
      while i < |list|
        invariant 0 <= i <= |list| && Valid() && Grown(Prob(), old(Now()), Now())
        invariant forall k :: 0 <= k < i ==> Covers(R, H(), list[k].parent, Post(bigger, a, []))
      {
        ghost var h := Now();
        ok := StoreLeaf(list[i], S, isAccepting);
        if !ok { return; }
        GrownTrans(Prob(), old(Now()), h, Now());
        i := i + 1;
      }
      ok := true;
    }

    /** A leaf symbol of the smaller automaton that is not one of the bigger one refutes the inclusion. */
    lemma FewerLeaves()
      requires Indexed() && |biggerLeaves| < |smallerLeaves|
      ensures Refuted(smaller, bigger, R)
    {
      if smallerLeaves.Keys <= biggerLeaves.Keys {
        SubsetSize(smallerLeaves.Keys, biggerLeaves.Keys);
      }
      var a :| a in smallerLeaves && a !in biggerLeaves;
      var tr :| tr in smallerLeaves[a];
      assert tr in Leaves(smallerLeaves, a);
      BiggerLeaf(a);
      assert Leaves(biggerLeaves, a) == [];
      assert Post(bigger, a, []) == {};
      JudgeLeaf(smaller, bigger, R, tr, {});
    }

    method CheckInternal() returns (r: bool)
      requires Indexed() && Valid() && temporary.data == map[] && processed.data == map[]
      modifies this, processed, temporary
      ensures if r then Certified(smaller, bigger, R) else Refuted(smaller, bigger, R)
    {
      assert Done(Now()) == {};
      var ok := PostOfLeaves();
      if !ok { return false; }
      LeavesSaturate(smaller, bigger, R, H(), Done(Now()));
      while next != {}
        invariant Valid() && temporary.data == map[]
        invariant Saturated(smaller, bigger, R, H(), Done(Now()))
        decreases Measure(Prob(), H()), |next|
      {
        ghost var before := Now();
        var q, Q := PopLeast();
        Popped(Prob(), before, Now(), q, Q);
        ok := HandleState(q, Q);
        if !ok { return false; }
        PopSaturates(smaller, bigger, R, before.H, Done(before), H(), Done(Now()), q, Q);
      }
      assert Done(Now()) == H();
      assert AllGoodIn(smaller, bigger, R, H());
      r := true;
    }
  }

  /** The upward check with any preorder that keeps final states: it ends, and the answer has a
      basis. When the preorder is an upward simulation, the answer is right. */
  method CheckUpwardInclusion(smaller: Aut, bigger: Aut, R: Preorder, lte: Comparer, ghost rank: Symbol -> nat) returns (r: bool)
    requires smaller.Trimmed() && DisjointStates(smaller, bigger) && Ranked(smaller.trans, rank) && Ranked(bigger.trans, rank)
    requires KeepsFinals(smaller, bigger, R) && SoundComparer(R, lte) && ByClass(bigger, R, lte)
    ensures if r then Certified(smaller, bigger, R) else Refuted(smaller, bigger, R)
    ensures Upward(smaller, bigger, R) ==> (r <==> Included(smaller, bigger))
  {
    var check := new ExplicitUpwardInclusion(smaller, bigger, R, lte, rank);
    r := check.CheckInternal();
    if Upward(smaller, bigger, R) { BasisDecides(smaller, bigger, R); }
  }

  ghost predicate AllSubsumed(R: Preorder, H: set<Goal>, q: State, list: seq<set<State>>) {
    forall P :: P in list ==> Subsumed(R, H, q, P)
  }

  lemma SubsumedStill(R: Preorder, H: set<Goal>, H': set<Goal>, q: State, list: seq<set<State>>)
    requires AllSubsumed(R, H, q, list) && CoversMore(R, H, H')
    ensures AllSubsumed(R, H', q, list)
  {
  }

  lemma NotMet(R: Preorder, q: State, S: set<State>)
    requires Bigger(R, q) * S == {}
    ensures !Meets(R, q, S)
  {
    forall s | s in S ensures !Rel(R, q, s) {
      assert s !in Bigger(R, q) * S;
    }
  }

  /** The comparison with the state alone tells that a state of the set is above it. */
  lemma SkipMeets(P: Problem, q: State, S: set<State>)
    requires WellSet(P) && q in P.A.States() && S <= P.B.States() && P.lte({q}, S)
    ensures Meets(P.R, q, S)
  {
    assert q in {q} && q !in S;
    assert Covered(P.R, {q}, S);
  }

  /** What covers the pair with the pruned set covers the one with the whole set. */
  lemma CoversPost(A: Aut, B: Aut, R: Preorder, H: set<Goal>, q: State, X: set<State>, S: set<State>)
    requires KeepsFinals(A, B, R) && q in A.States() && X <= B.States() && Pruned(R, X, S) && Covers(R, H, q, S)
    ensures Covers(R, H, q, X)
  {
    CoveredBySuperset(R, S, X);
    CoversUp(R, H, q, X, q, S);
  }

  ghost predicate LeavesCovered(A: Aut, B: Aut, R: Preorder, H: set<Goal>, symbols: set<Symbol>) {
    forall tr :: tr in A.trans && tr.kids == [] && tr.sym in symbols ==> Covers(R, H, tr.parent, Post(B, tr.sym, []))
  }

  lemma LeavesStill(A: Aut, B: Aut, R: Preorder, H: set<Goal>, H': set<Goal>, symbols: set<Symbol>)
    requires LeavesCovered(A, B, R, H, symbols) && CoversMore(R, H, H')
    ensures LeavesCovered(A, B, R, H', symbols)
  {
  }

  lemma LeavesSaturate(A: Aut, B: Aut, R: Preorder, H: set<Goal>, D: set<Goal>)
    requires D == {} && forall tr :: tr in A.trans && tr.kids == [] ==> Covers(R, H, tr.parent, Post(B, tr.sym, []))
    ensures Saturated(A, B, R, H, D)
  {
    forall tr, Ps | tr in A.trans && From(D, tr.kids, Ps) ensures Covers(R, H, tr.parent, Post(B, tr.sym, Ps)) {
      assert |tr.kids| > 0 ==> InH(D, tr.kids[0], Ps[0]);
      assert Ps == [];
    }
  }

  lemma JudgeLeaf(A: Aut, B: Aut, R: Preorder, tr: Transition, S: set<State>)
    requires tr in A.trans && tr.kids == [] && Pruned(R, Post(B, tr.sym, []), S) && Flat(R, S)
    ensures Judged(A, B, R, tr.parent, S) && tr.parent in A.States()
  {
    Combine(A, B, R, tr, [], S);
    TransitionStates(A, tr);
  }

  lemma Popped(P: Problem, s: Stage, s': Stage, q: State, Q: set<State>)
    requires Worklist(P, s) && (q, Q) in s.next && s' == Stage(s.H, s.next - {(q, Q)})
    ensures Worklist(P, s') && Done(s') <= Done(s) + {(q, Q)} && |s'.next| < |s.next| && Derived(P.A, P.B, P.R, q, Q)
  {
    assert InH(s.H, q, Q);
  }

  ghost predicate HandledFirst(A: Aut, B: Aut, R: Preorder, H: set<Goal>, Q: set<State>, list: seq<Transition>, j: nat, E: set<Goal>) {
    forall tr :: tr in list ==> HandledAt(A, B, R, H, Q, tr, j, E)
  }

  lemma HandledStill(A: Aut, B: Aut, R: Preorder, H: set<Goal>, H': set<Goal>, Q: set<State>, list: seq<Transition>, j: nat,
          E: set<Goal>, E': set<Goal>)
    requires HandledFirst(A, B, R, H, Q, list, j, E) && CoversMore(R, H, H') && E' <= E
    ensures HandledFirst(A, B, R, H', Q, list, j, E')
  {
    forall tr | tr in list ensures HandledAt(A, B, R, H', Q, tr, j, E') {
      HandledMore(A, B, R, H, H', Q, tr, j, E, E');
    }
  }

  ghost predicate NoPairs(H: set<Goal>, q: State) {
    forall P :: !InH(H, q, P)
  }

  lemma NothingToHandle(A: Aut, B: Aut, R: Preorder, H: set<Goal>, Q: set<State>, tr: Transition, j: nat, E: set<Goal>)
    requires E <= H && exists i: nat :: i < |tr.kids| && i != j && NoPairs(H, tr.kids[i])
    ensures HandledAt(A, B, R, H, Q, tr, j, E)
  {
    var i: nat :| i < |tr.kids| && i != j && NoPairs(H, tr.kids[i]);
    forall Ps | FromExcept(E, tr.kids, Ps, j, Q) ensures false {
      assert InH(E, tr.kids[i], Ps[i]);
      assert InH(H, tr.kids[i], Ps[i]);
    }
  }
}
