/** The recursive downward inclusion check: goals under examination are assumptions, refuted
    goals are cached for good, and found inclusions as long as the assumptions stand. */
module DownIncl {
  import opened Antichain
  import opened ChoiceFunctions
  import opened Collections
  import opened InclusionSpec
  import opened Preorders
  import opened TreeAutomata

  /** The trees of a state that belongs to one of two automata. */
  ghost predicate Lang(A: Aut, B: Aut, q: State, t: Tree) {
    A.Accepts(q, t) || B.Accepts(q, t)
  }

  /** The preorder relates every state to itself, and implies inclusion of languages. */
  ghost predicate SoundPreorder(A: Aut, B: Aut, R: Preorder) {
    && (forall q :: q in A.States() + B.States() ==> Rel(R, q, q))
    && (forall p, q, t :: Rel(R, p, q) && Lang(A, B, p, t) ==> Lang(A, B, q, t))
  }

  /** What both automata and the comparisons have to satisfy. */
  ghost predicate Setting(A: Aut, B: Aut, R: Preorder, lte: Comparer) {
    && DisjointStates(A, B) && ProductiveKids(A)
    && SoundPreorder(A, B, R) && SoundComparer(R, lte)
    && exists rank: Symbol -> nat :: Ranked(A.trans, rank) && Ranked(B.trans, rank)
  }

  lemma OwnStates(A: Aut, q: State, t: Tree)
    requires A.Accepts(q, t)
    ensures q in A.States()
  {
    A.Unfold(q, t);
  }

  /** A set covered by another has no more trees. */
  lemma CoveredIncl(A: Aut, B: Aut, R: Preorder, X: set<State>, Y: set<State>, t: Tree)
    requires DisjointStates(A, B) && SoundPreorder(A, B, R) && X <= B.States() && Y <= B.States()
    requires X == Y || Covered(R, X, Y)
    requires B.AcceptsSome(X, t)
    ensures B.AcceptsSome(Y, t)
  {
    var s :| s in X && B.Accepts(s, t);
    if X != Y {
      assert Meets(R, s, Y);
      var y :| y in Y && Rel(R, s, y);
      assert Lang(A, B, s, t);
      assert Lang(A, B, y, t);
      if A.Accepts(y, t) { OwnStates(A, y, t); }
    }
  }

  lemma RelatedIncl(A: Aut, B: Aut, R: Preorder, p: State, q: State, t: Tree)
    requires DisjointStates(A, B) && SoundPreorder(A, B, R) && Rel(R, p, q) && A.Accepts(p, t)
    ensures q in A.States() ==> A.Accepts(q, t)
    ensures q in B.States() ==> B.Accepts(q, t)
  {
    assert Lang(A, B, p, t);
    assert Lang(A, B, q, t);
    if A.Accepts(q, t) { OwnStates(A, q, t); }
    if B.Accepts(q, t) { OwnStates(B, q, t); }
  }

  /** A goal follows when a goal with a bigger state and a smaller set does. */
  lemma ImpliedFollows(A: Aut, B: Aut, R: Preorder, lte: Comparer, W: set<Goal>, p: State, P: set<State>, q: State,
          Q: set<State>)
    requires Setting(A, B, R, lte) && P <= B.States() && Q <= B.States() && q in A.States()
    requires Rel(R, p, q) && lte(Q, P) && Follows(A, B, W, q, Q)
    ensures Follows(A, B, W, p, P)
  {
    forall n | AllAt(A, B, W, n) ensures InclAt(A, B, p, P, n) {
      assert InclAt(A, B, q, Q, n);
      forall t | Within(t, n) && A.Accepts(p, t) ensures B.AcceptsSome(P, t) {
        RelatedIncl(A, B, R, p, q, t);
        CoveredIncl(A, B, R, Q, P, t);
      }
    }
  }

  /** A goal is refuted when a goal with a smaller state and a bigger set is. */
  lemma ImpliedFails(A: Aut, B: Aut, R: Preorder, lte: Comparer, p: State, P: set<State>, q: State, Q: set<State>)
    requires Setting(A, B, R, lte) && P <= B.States() && Q <= B.States() && p in A.States()
    requires Rel(R, q, p) && lte(P, Q) && !Incl(A, B, q, Q)
    ensures !Incl(A, B, p, P)
  {
    var t :| A.Accepts(q, t) && !B.AcceptsSome(Q, t);
    RelatedIncl(A, B, R, q, p, t);
    if B.AcceptsSome(P, t) {
      CoveredIncl(A, B, R, P, Q, t);
    }
  }

  lemma PreorderIncl(A: Aut, B: Aut, R: Preorder, lte: Comparer, p: State, P: set<State>, b: State)
    requires Setting(A, B, R, lte) && P <= B.States() && b in P && Rel(R, p, b)
    ensures Incl(A, B, p, P)
  {
    forall t | A.Accepts(p, t) ensures B.AcceptsSome(P, t) {
      RelatedIncl(A, B, R, p, b, t);
    }
  }

  lemma FollowsWeaker(A: Aut, B: Aut, W: set<Goal>, p: State, P: set<State>)
    requires Incl(A, B, p, P) || (p, P) in W
    ensures Follows(A, B, W, p, P)
  {
    forall n | AllAt(A, B, W, n) ensures InclAt(A, B, p, P, n) {
      if (p, P) in W { assert InclAt(A, B, (p, P).0, (p, P).1, n); }
    }
  }

  /** What all functors of one check share. */
  class Context {
    const A: Aut
    const B: Aut
    const R: Preorder
    const lte: Comparer
    var workset: set<Goal>
    const nonIncl: Antichain

    constructor (A: Aut, B: Aut, R: Preorder, lte: Comparer)
      ensures this.A == A && this.B == B && this.R == R && this.lte == lte
      ensures workset == {} && fresh(nonIncl) && nonIncl.Valid() && nonIncl.data == map[]
    {
      this.A, this.B, this.R, this.lte := A, B, R, lte;
      workset := {};
      nonIncl := new Antichain();
    }

    /** Refuted goals are really refuted. */
    ghost predicate Valid()
      reads this, nonIncl
    {
      && workset <= Space(A, B) && nonIncl.Valid()
      && forall q, Q :: nonIncl.Has(q, Q) ==> InSpace(A, B, q, Q) && !Incl(A, B, q, Q)
    }
  }

  class DownwardInclusionFunctor {
    const ctx: Context
    const childrenCache: Antichain
    var inclusionHolds: bool
    var processingStopped: bool

    constructor (ctx: Context)
      ensures this.ctx == ctx && fresh(childrenCache) && childrenCache.Valid() && childrenCache.data == map[]
      ensures inclusionHolds && !processingStopped
    {
      this.ctx := ctx;
      childrenCache := new Antichain();
      inclusionHolds, processingStopped := true, false;
    }

    ghost predicate Ready() {
      Setting(ctx.A, ctx.B, ctx.R, ctx.lte)
    }

    /** Besides, the inclusions cached here follow from the workset. */
    ghost predicate Valid()
      reads this, ctx, ctx.nonIncl, childrenCache
    {
      && ctx.Valid() && childrenCache != ctx.nonIncl && childrenCache.Valid()
      && forall q, Q :: childrenCache.Has(q, Q) ==> InSpace(ctx.A, ctx.B, q, Q) && Follows(ctx.A, ctx.B, ctx.workset, q, Q)
    }

    /** An assumption is at least as strong as the goal. */
    ghost predicate Assumed(p: State, P: set<State>)
      reads ctx
    {
      exists q, Q :: (q, Q) in ctx.workset && Rel(ctx.R, p, q) && ctx.lte(Q, P)
    }

    /** A stronger goal has been refuted: some pair below. */
    ghost predicate KnownToFail(p: State, P: set<State>)
      reads ctx, ctx.nonIncl
    {
      exists q, Q :: q in Smaller(ctx.R, p) && ctx.nonIncl.Has(q, Q) && ctx.lte(P, Q)
    }

    /** A stronger goal has been established among the children. */
    ghost predicate KnownToFollow(p: State, P: set<State>)
      reads ctx, childrenCache
    {
      exists q, Q :: q in Bigger(ctx.R, p) && childrenCache.Has(q, Q) && ctx.lte(Q, P)
    }

    /** Is the goal an assumption, or weaker than one? */
    method IsInWorkset(p: State, P: set<State>) returns (r: bool)
      requires Ready() && Valid() && InSpace(ctx.A, ctx.B, p, P)
      ensures r <==> Assumed(p, P)
      ensures r ==> Follows(ctx.A, ctx.B, ctx.workset, p, P)
      ensures !r ==> (p, P) !in ctx.workset
    {
      var todo := ctx.workset;
      while todo != {}
        invariant todo <= ctx.workset
        invariant (p, P) in ctx.workset ==> (p, P) in todo
        invariant forall q, Q :: (q, Q) in ctx.workset && Rel(ctx.R, p, q) && ctx.lte(Q, P) ==> (q, Q) in todo
        decreases todo
      {
        var w :| w in todo;
        todo := todo - {w};
        if (p, w.0) in ctx.R && ctx.lte(w.1, P) {
          assert (w.0, w.1) in ctx.workset && Rel(ctx.R, p, w.0);
          SpaceHas(ctx.A, ctx.B, w.0, w.1);
          FollowsWeaker(ctx.A, ctx.B, ctx.workset, w.0, w.1);
          ImpliedFollows(ctx.A, ctx.B, ctx.R, ctx.lte, ctx.workset, p, P, w.0, w.1);
          return true;
        }
        assert Rel(ctx.R, p, p) && ctx.lte(P, P);
      }
      return false;
    }

    method IsNoninclusionImplied(p: State, P: set<State>) returns (r: bool)
      requires Ready() && Valid() && InSpace(ctx.A, ctx.B, p, P)
      ensures r ==> !Incl(ctx.A, ctx.B, p, P)
      ensures r <==> KnownToFail(p, P)
    {
      var lte := ctx.lte;
      r := ctx.nonIncl.Contains(Smaller(ctx.R, p), P, (X, Y) => lte(Y, X));
      if r {
        var q, Q :| q in Smaller(ctx.R, p) && ctx.nonIncl.Has(q, Q) && lte(P, Q);
        ImpliedFails(ctx.A, ctx.B, ctx.R, ctx.lte, p, P, q, Q);
      }
    }

    method IsImpliedByChildren(p: State, P: set<State>) returns (r: bool)
      requires Ready() && Valid() && InSpace(ctx.A, ctx.B, p, P)
      ensures r ==> Follows(ctx.A, ctx.B, ctx.workset, p, P)
      ensures r <==> KnownToFollow(p, P)
    {
      r := childrenCache.Contains(Bigger(ctx.R, p), P, ctx.lte);
      if r {
        var q, Q :| q in Bigger(ctx.R, p) && childrenCache.Has(q, Q) && ctx.lte(Q, P);
        ImpliedFollows(ctx.A, ctx.B, ctx.R, ctx.lte, ctx.workset, p, P, q, Q);
      }
    }

    method IsImpliedByPreorder(p: State, P: set<State>) returns (r: bool)
      requires Ready() && Valid() && InSpace(ctx.A, ctx.B, p, P)
      ensures r ==> Incl(ctx.A, ctx.B, p, P)
      ensures r <==> exists b :: b in P && Rel(ctx.R, p, b)
    {
      var todo := P;
      while todo != {}
        invariant todo <= P && forall b :: b in P && Rel(ctx.R, p, b) ==> b in todo
        decreases todo
      {
        var b :| b in todo;
        todo := todo - {b};
        if (p, b) in ctx.R {
          assert Rel(ctx.R, p, b);
          PreorderIncl(ctx.A, ctx.B, ctx.R, ctx.lte, p, P, b);
          return true;
        }
      }
      return false;
    }

    method ProcessFoundInclusion(p: State, P: set<State>)
      requires Ready() && Valid() && InSpace(ctx.A, ctx.B, p, P) && Follows(ctx.A, ctx.B, ctx.workset, p, P)
      modifies childrenCache
      ensures Valid()
      ensures old(KnownToFollow(p, P)) ==> childrenCache.data == old(childrenCache.data)
      ensures !old(KnownToFollow(p, P)) ==> forall q, Q :: childrenCache.Has(q, Q) <==>
                (q == p && Q == P) || (old(childrenCache.Has(q, Q)) && !(q in Smaller(ctx.R, p) && ctx.lte(P, Q)))
    {
      var known := IsImpliedByChildren(p, P);
      if !known {
        var lte := ctx.lte;
        var _ := childrenCache.Refine(Smaller(ctx.R, p), P, (X, Y) => lte(Y, X));
        childrenCache.Insert(p, P);
      }
    }

    method ProcessFoundNoninclusion(p: State, P: set<State>)
      requires Ready() && Valid() && InSpace(ctx.A, ctx.B, p, P) && !Incl(ctx.A, ctx.B, p, P)
      modifies ctx.nonIncl
      ensures Valid()
      ensures old(KnownToFail(p, P)) ==> ctx.nonIncl.data == old(ctx.nonIncl.data)
      ensures !old(KnownToFail(p, P)) ==> forall q, Q :: ctx.nonIncl.Has(q, Q) <==>
                (q == p && Q == P) || (old(ctx.nonIncl.Has(q, Q)) && !(q in Bigger(ctx.R, p) && ctx.lte(Q, P)))
    {
      var known := IsNoninclusionImplied(p, P);
      if !known {
        var _ := ctx.nonIncl.Refine(Bigger(ctx.R, p), P, ctx.lte);
        ctx.nonIncl.Insert(p, P);
      }
    }

    ghost function Measure(): set<Goal>
      reads ctx
    {
      Space(ctx.A, ctx.B) - ctx.workset
    }

    /** The tuples of both sides under one symbol. */
    ghost predicate Operands(lhs: set<seq<State>>, rhs: set<seq<State>>, arity: nat)
      reads ctx
    {
      && (forall l :: l in lhs ==> |l| == arity && SetOf(l) <= ctx.A.States() && forall k :: k in l ==> ctx.A.Productive(k))
      && (forall r :: r in rhs ==> |r| == arity && SetOf(r) <= ctx.B.States())
    }

    /** Decides the goal, on the assumption of the workset if the answer is yes. */
    method Expand(p: State, P: set<State>) returns (r: bool)
      requires Ready() && Valid() && InSpace(ctx.A, ctx.B, p, P)
      modifies ctx`workset, ctx.nonIncl, childrenCache
      ensures Valid() && ctx.workset == old(ctx.workset)
      ensures r ==> Follows(ctx.A, ctx.B, ctx.workset, p, P)
      ensures !r ==> !Incl(ctx.A, ctx.B, p, P)
      decreases Measure(), 1
    {
      r := IsInWorkset(p, P);
      if r { return true; }
      r := IsNoninclusionImplied(p, P);
      if r { return false; }
      r := IsImpliedByChildren(p, P);
      if r { return true; }
      r := IsImpliedByPreorder(p, P);
      if r {
        FollowsWeaker(ctx.A, ctx.B, ctx.workset, p, P);
        return true;
      }
      r := Examine(p, P);
    }

    /** Examines the transitions with the goal among the assumptions, and records the answer. */
    method Examine(p: State, P: set<State>) returns (r: bool)
      requires Ready() && Valid() && InSpace(ctx.A, ctx.B, p, P) && (p, P) !in ctx.workset
      modifies ctx`workset, ctx.nonIncl, childrenCache
      ensures Valid() && ctx.workset == old(ctx.workset)
      ensures r ==> Follows(ctx.A, ctx.B, ctx.workset, p, P)
      ensures !r ==> !Incl(ctx.A, ctx.B, p, P)
      decreases Measure(), 0, 1
    {
      r := ExamineInner(p, P);
      if r {
        ProcessFoundInclusion(p, P);
      } else {
        ProcessFoundNoninclusion(p, P);
      }
    }

    method ExamineInner(p: State, P: set<State>) returns (r: bool)
      requires Ready() && Valid() && InSpace(ctx.A, ctx.B, p, P) && (p, P) !in ctx.workset
      modifies ctx`workset, ctx.nonIncl
      ensures Valid() && ctx.workset == old(ctx.workset)
      ensures r ==> Follows(ctx.A, ctx.B, ctx.workset, p, P)
      ensures !r ==> !Incl(ctx.A, ctx.B, p, P)
      decreases Measure(), 0, 0
    {
      ghost var W := ctx.workset;
      SpaceHas(ctx.A, ctx.B, p, P);
      var inner := new DownwardInclusionFunctor(ctx);
      ctx.workset := ctx.workset + {(p, P)};
      assert (p, P) in Space(ctx.A, ctx.B) - W;
      inner.ForeachDownSymbol(p, P);
      ctx.workset := ctx.workset - {(p, P)};
      assert ctx.workset == W;
      r := inner.inclusionHolds;
      if r {
        Discharge(ctx.A, ctx.B, W, p, P);
      }
    }

    method FailProcessing()
      modifies `inclusionHolds, `processingStopped
      ensures !inclusionHolds && processingStopped
    {
      inclusionHolds, processingStopped := false, true;
    }

    method Reset()
      modifies `inclusionHolds, `processingStopped
      ensures inclusionHolds && !processingStopped
    {
      inclusionHolds, processingStopped := true, false;
    }

    /** Compares all the transitions of p with those of the states in P, symbol by symbol. */
    method ForeachDownSymbol(p: State, P: set<State>)
      requires Ready() && Valid() && InSpace(ctx.A, ctx.B, p, P) && inclusionHolds
      modifies this`inclusionHolds, this`processingStopped, ctx`workset, ctx.nonIncl, childrenCache
      ensures Valid() && ctx.workset == old(ctx.workset)
      ensures inclusionHolds ==> TransFollow(ctx.A, ctx.B, ctx.workset, p, P)
      ensures !inclusionHolds ==> !Incl(ctx.A, ctx.B, p, P)
      decreases Measure(), 7
    {
      var todo := ctx.A.Symbols(p);
      while todo != {}
        invariant todo <= ctx.A.Symbols(p)
        invariant Valid() && ctx.workset == old(ctx.workset)
        invariant inclusionHolds ==> forall tr :: tr in ctx.A.trans && tr.parent == p && tr.sym !in todo ==>
                    TupleFollows(ctx.A, ctx.B, ctx.workset, tr.kids, TuplesOf(ctx.B, P, tr.sym))
        invariant !inclusionHolds ==> !Incl(ctx.A, ctx.B, p, P)
        decreases todo
      {
        var a :| a in todo;
        todo := todo - {a};
        var lhs, rhs := ctx.A.Tuples(p, a), TuplesOf(ctx.B, P, a);
        ghost var arity := SymbolArity(ctx.A, ctx.B, p, P, a);
        Apply(lhs, rhs, arity);
        if !inclusionHolds {
          if l :| l in lhs && TupleFails(ctx.A, ctx.B, l, rhs) {
            var tr :| tr in ctx.A.trans && tr.parent == p && tr.sym == a && tr.kids == l;
            FailRefutes(ctx.A, ctx.B, tr, P);
          }
        }
      }
    }

    /** Compares the tuples of one symbol. */
    method Apply(lhs: set<seq<State>>, rhs: set<seq<State>>, ghost arity: nat)
      requires Ready() && Valid() && Operands(lhs, rhs, arity)
      modifies this`inclusionHolds, this`processingStopped, ctx`workset, ctx.nonIncl, childrenCache
      ensures Valid() && ctx.workset == old(ctx.workset)
      ensures inclusionHolds ==> old(inclusionHolds)
      ensures inclusionHolds ==> forall l :: l in lhs ==> TupleFollows(ctx.A, ctx.B, ctx.workset, l, rhs)
      ensures !inclusionHolds ==> !old(inclusionHolds) || exists l :: l in lhs && TupleFails(ctx.A, ctx.B, l, rhs)
      decreases Measure(), 6
    {
      if lhs == {} {
        return;
      }
      var first :| first in lhs;
      if |first| == 0 {
        EmptyTuples(ctx.A, ctx.B, ctx.workset, lhs, rhs);
        if rhs == {} {
          FailProcessing();
        }
        return;
      }
      if rhs == {} {
        NoTuple(ctx.A, ctx.B, first);
        FailProcessing();
        return;
      }
      var todo := lhs;
      while todo != {}
        invariant todo <= lhs
        invariant Valid() && ctx.workset == old(ctx.workset) && inclusionHolds == old(inclusionHolds)
        invariant forall l :: l in lhs - todo ==> TupleFollows(ctx.A, ctx.B, ctx.workset, l, rhs)
        decreases todo
      {
        var l :| l in todo;
        todo := todo - {l};
        var ok := CheckTuple(l, rhs, arity);
        if !ok {
          FailProcessing();
          return;
        }
      }
    }

    /** Compares one tuple with those of the other side: first with each alone, then with all
        together by choice functions. */
    method CheckTuple(l: seq<State>, rhs: set<seq<State>>, ghost arity: nat) returns (ok: bool)
      requires Ready() && Valid() && Operands({l}, rhs, arity) && l != [] && rhs != {}
      modifies ctx`workset, ctx.nonIncl, childrenCache
      ensures Valid() && ctx.workset == old(ctx.workset)
      ensures ok ==> TupleFollows(ctx.A, ctx.B, ctx.workset, l, rhs)
      ensures !ok ==> TupleFails(ctx.A, ctx.B, l, rhs)
      decreases Measure(), 5
    {
      var todo := rhs;
      while todo != {}
        invariant todo <= rhs
        invariant Valid() && ctx.workset == old(ctx.workset)
        decreases todo
      {
        var r :| r in todo;
        todo := todo - {r};
        var valid := TupleLeq(l, r, arity);
        if valid {
          TupleBelow(ctx.A, ctx.B, ctx.workset, l, r, rhs);
          return true;
        }
      }
      var rhsVector := TuplesToSeq(rhs);
      ok := CheckChoices(l, rhsVector, arity);
      assert SetOf(rhsVector) == rhs;
    }

    /** Is every state of l covered by the state of r at the same position? */
    method TupleLeq(l: seq<State>, r: seq<State>, ghost arity: nat) returns (valid: bool)
      requires Ready() && Valid() && Operands({l}, {r}, arity)
      modifies ctx`workset, ctx.nonIncl, childrenCache
      ensures Valid() && ctx.workset == old(ctx.workset)
      ensures valid ==> |r| == |l| && forall i :: 0 <= i < |l| ==> Follows(ctx.A, ctx.B, ctx.workset, l[i], {r[i]})
      decreases Measure(), 2
    {
      assert l in {l} && r in {r};
      var i := 0;
      while i < |l|
        invariant 0 <= i <= |l|
        invariant Valid() && ctx.workset == old(ctx.workset)
        invariant forall j :: 0 <= j < i ==> Follows(ctx.A, ctx.B, ctx.workset, l[j], {r[j]})
      {
        assert l[i] in SetOf(l) && r[i] in SetOf(r);
        var e := Expand(l[i], {r[i]});
        if !e {
          return false;
        }
        i := i + 1;
      }
      return true;
    }

    /** For every choice of positions of the tuples, is there a position of l that is covered? */
    method CheckChoices(l: seq<State>, rhs: seq<seq<State>>, ghost arity: nat) returns (ok: bool)
      requires Ready() && Valid() && Operands({l}, SetOf(rhs), arity) && l != [] && rhs != []
      modifies ctx`workset, ctx.nonIncl, childrenCache
      ensures Valid() && ctx.workset == old(ctx.workset)
      ensures ok ==> TupleFollows(ctx.A, ctx.B, ctx.workset, l, SetOf(rhs))
      ensures !ok ==> TupleFails(ctx.A, ctx.B, l, SetOf(rhs))
      decreases Measure(), 4
    {
      assert l in {l} && forall k :: 0 <= k < |rhs| ==> rhs[k] in SetOf(rhs);
      assert forall k :: k in l ==> k in SetOf(l);
      var cfGen := new SequentialChoiceFunctionGenerator(|rhs|, |l|);
      while cfGen.lastCnt != 0
        invariant cfGen.Valid() && |cfGen.currentCf| == |rhs| && fresh(cfGen)
        invariant Valid() && ctx.workset == old(ctx.workset)
        invariant forall cf :: IsChoice(cf, |rhs|, |l|) && cfGen.Seen(cf) ==> ChoiceFollows(ctx.A, ctx.B, ctx.workset, l, rhs, cf)
        decreases cfGen.lastCnt, cfGen.Remaining()
      {
        var cf := cfGen.GetNext();
        var found := CheckChoice(l, rhs, cf);
        if !found {
          return false;
        }
      }
      ChoicesSuffice(ctx.A, ctx.B, ctx.workset, l, rhs);
      return true;
    }

    /** Is the state covered by the set? If not, t is a tree that shows it. */
    method CheckPosition(p: State, S: set<State>) returns (found: bool, ghost t: Tree)
      requires Ready() && Valid() && InSpace(ctx.A, ctx.B, p, S) && ctx.A.Productive(p)
      modifies ctx`workset, ctx.nonIncl, childrenCache
      ensures Valid() && ctx.workset == old(ctx.workset)
      ensures found ==> Follows(ctx.A, ctx.B, ctx.workset, p, S)
      ensures !found ==> ctx.A.Accepts(p, t) && !ctx.B.AcceptsSome(S, t)
      decreases Measure(), 2
    {
      t := SomeTree(ctx.A, p);
      if S == {} {
        return false, t;
      }
      found := Expand(p, S);
      if !found {
        t :| ctx.A.Accepts(p, t) && !ctx.B.AcceptsSome(S, t);
      }
    }

    method CheckChoice(l: seq<State>, rhs: seq<seq<State>>, cf: seq<nat>) returns (found: bool)
      requires Ready() && Valid() && IsChoice(cf, |rhs|, |l|)
      requires forall k :: k in l ==> k in ctx.A.States() && ctx.A.Productive(k)
      requires forall k :: 0 <= k < |rhs| ==> |rhs[k]| == |l| && SetOf(rhs[k]) <= ctx.B.States()
      modifies ctx`workset, ctx.nonIncl, childrenCache
      ensures Valid() && ctx.workset == old(ctx.workset)
      ensures found ==> ChoiceFollows(ctx.A, ctx.B, ctx.workset, l, rhs, cf)
      ensures !found ==> TupleFails(ctx.A, ctx.B, l, SetOf(rhs))
      decreases Measure(), 3
    {
      ghost var ts: seq<Tree> := [];
      var i := 0;
      while i < |l|
        invariant 0 <= i == |ts| <= |l|
        invariant Valid() && ctx.workset == old(ctx.workset)
        invariant forall j :: 0 <= j < i ==> ctx.A.Accepts(l[j], ts[j]) && !ctx.B.AcceptsSome(Chosen(rhs, cf, j), ts[j])
      {
        ChosenStates(ctx.B, rhs, cf, i);
        assert l[i] in l;
        ghost var t;
        found, t := CheckPosition(l[i], Chosen(rhs, cf, i));
        if found {
          return true;
        }
        ts := ts + [t];
        i := i + 1;
      }
      ChoiceRefutes(ctx.A, ctx.B, l, rhs, cf, ts);
      return false;
    }
  }

  lemma ChosenStates(B: Aut, rhs: seq<seq<State>>, cf: seq<nat>, i: nat)
    requires |cf| == |rhs| && forall k :: 0 <= k < |rhs| ==> i < |rhs[k]| && SetOf(rhs[k]) <= B.States()
    ensures Chosen(rhs, cf, i) <= B.States()
  {
    forall s | s in Chosen(rhs, cf, i) ensures s in B.States() {
      var k :| 0 <= k < |rhs| && cf[k] == i && rhs[k][i] == s;
      assert s in SetOf(rhs[k]);
    }
  }

  /** Nullary symbols: the empty tuple follows if it is also on the other side. */
  lemma EmptyTuples(A: Aut, B: Aut, W: set<Goal>, lhs: set<seq<State>>, rhs: set<seq<State>>)
    requires forall l :: l in lhs ==> l == []
    requires forall r :: r in rhs ==> r == []
    ensures rhs != {} ==> forall l :: l in lhs ==> TupleFollows(A, B, W, l, rhs)
    ensures rhs == {} ==> forall l :: l in lhs ==> TupleFails(A, B, l, rhs)
  {
    if rhs == {} {
      forall l | l in lhs ensures TupleFails(A, B, l, rhs) {
        assert A.AcceptsAll(l, []);
        assert !SomeTuple(B, rhs, []);
      }
    } else {
      var r :| r in rhs;
      forall l, n | l in lhs ensures TupleAt(A, B, l, rhs, n) {
        forall ts | A.AcceptsAll(l, ts) ensures SomeTuple(B, rhs, ts) {
          assert B.AcceptsAll(r, ts);
        }
      }
    }
  }

  lemma NoTuple(A: Aut, B: Aut, l: seq<State>)
    requires forall k :: k in l ==> A.Productive(k)
    ensures TupleFails(A, B, l, {})
  {
    var ts := seq(|l|, i requires 0 <= i < |l| => SomeTree(A, l[i]));
    assert A.AcceptsAll(l, ts) && !SomeTuple(B, {}, ts);
  }

  /** The tuples of one symbol have one arity, and their states belong to the automata. */
  lemma SymbolArity(A: Aut, B: Aut, p: State, P: set<State>, a: Symbol) returns (arity: nat)
    requires ProductiveKids(A)
    requires exists rank: Symbol -> nat :: Ranked(A.trans, rank) && Ranked(B.trans, rank)
    ensures forall l :: l in A.Tuples(p, a) ==> |l| == arity && SetOf(l) <= A.States() && forall k :: k in l ==> A.Productive(k)
    ensures forall r :: r in TuplesOf(B, P, a) ==> |r| == arity && SetOf(r) <= B.States()
  {
    var rank: Symbol -> nat :| Ranked(A.trans, rank) && Ranked(B.trans, rank);
    arity := rank(a);
    forall l | l in A.Tuples(p, a) ensures |l| == arity && SetOf(l) <= A.States() && forall k :: k in l ==> A.Productive(k) {
      var tr :| tr in A.trans && tr.sym == a && tr.kids == l;
      TransitionStates(A, tr);
    }
    forall r | r in TuplesOf(B, P, a) ensures |r| == arity && SetOf(r) <= B.States() {
      var tr :| tr in B.trans && tr.sym == a && tr.kids == r;
      TransitionStates(B, tr);
    }
  }

  method TuplesToSeq(s: set<seq<State>>) returns (r: seq<seq<State>>)
    ensures SetOf(r) == s
  {
    r := [];
    var todo := s;
    while todo != {}
      invariant todo <= s && SetOf(r) == s - todo
      decreases todo
    {
      var x :| x in todo;
      todo := todo - {x};
      r := r + [x];
    }
  }

  /** Downward inclusion: examines every final state of the smaller automaton against the
      final states of the bigger one. */
  method CheckDownwardTreeInclusion(A: Aut, B: Aut, R: Preorder, lte: Comparer) returns (r: bool)
    requires Setting(A, B, R, lte)
    ensures r <==> Included(A, B)
  {
    var ctx := new Context(A, B, R, lte);
    var functor := new DownwardInclusionFunctor(ctx);
    var todo := A.finals;
    while todo != {}
      invariant todo <= A.finals
      invariant functor.Valid() && ctx.workset == {} && fresh(ctx) && fresh(ctx.nonIncl) && fresh(functor) && fresh(functor.childrenCache)
      invariant functor.inclusionHolds
      invariant forall q :: q in A.finals - todo ==> Incl(A, B, q, B.finals)
      decreases todo
    {
      var q :| q in todo;
      todo := todo - {q};
      var implied := functor.IsImpliedByPreorder(q, B.finals);
      if !implied {
        functor.Reset();
        functor.ForeachDownSymbol(q, B.finals);
        if !functor.inclusionHolds {
          NotIncluded(A, B, q);
          return false;
        }
        Discharge(A, B, {}, q, B.finals);
        FollowsFromNothing(A, B, q, B.finals);
      }
    }
    AllIncluded(A, B);
    return true;
  }

  lemma AllIncluded(A: Aut, B: Aut)
    requires forall q :: q in A.finals ==> Incl(A, B, q, B.finals)
    ensures Included(A, B)
  {
    forall t | A.InLang(t) ensures B.InLang(t) {
      var q :| q in A.finals && A.Accepts(q, t);
      assert Incl(A, B, q, B.finals);
    }
  }

  lemma NotIncluded(A: Aut, B: Aut, q: State)
    requires q in A.finals && !Incl(A, B, q, B.finals)
    ensures !Included(A, B)
  {
    var t :| A.Accepts(q, t) && !B.AcceptsSome(B.finals, t);
    assert A.InLang(t) && !B.InLang(t);
  }
}
