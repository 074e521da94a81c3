/** The worklist of the upward check: what storing a pair keeps, and why the check ends although
    comparisons need not find everything. A pair may come again after it was dropped, but only
    after a strictly lower one has come. */
module UpWorklist {
  import opened Antichain
  import opened Collections
  import opened InclusionSpec
  import opened Preorders
  import opened TreeAutomata
  import opened UpSpec

  /** Both automata, a preorder on their states, and the comparison of sets by its lists. */
  datatype Problem = Problem(A: Aut, B: Aut, R: Preorder, lte: Comparer)

  /** Where g is stored, h is not needed. */
  ghost predicate Under(R: Preorder, g: Goal, h: Goal) {
    Rel(R, h.0, g.0) && Covered(R, g.1, h.1)
  }

  ghost predicate Alike(R: Preorder, g: Goal, h: Goal) {
    Under(R, g, h) && Under(R, h, g)
  }

  ghost predicate StrictlyUnder(R: Preorder, g: Goal, h: Goal) {
    Under(R, g, h) && !Under(R, h, g)
  }

  /** The pairs that can come, and those strictly above g among them. */
  ghost function Pairs(P: Problem): set<Goal> {
    set g | g in Space(P.A, P.B) && Flat(P.R, g.1)
  }

  ghost function Higher(P: Problem, g: Goal): set<Goal> {
    set h | h in Pairs(P) && StrictlyUnder(P.R, g, h)
  }

  ghost predicate Equivalent(R: Preorder, X: set<State>, Y: set<State>) {
    Covered(R, X, Y) && Covered(R, Y, X)
  }

  ghost predicate Plain(B: Aut, R: Preorder, X: set<State>) {
    X <= B.States() && Flat(R, X)
  }

  /** Whether the comparison finds X below another set does not depend on how the states of X are
      chosen among equivalent ones. */
  ghost predicate ByClass(B: Aut, R: Preorder, lte: Comparer) {
    forall X, X', Y {:trigger lte(X, Y), lte(X', Y)} ::
      Plain(B, R, X) && Plain(B, R, X') && Equivalent(R, X, X') && X != Y && X' != Y && lte(X, Y) ==> lte(X', Y)
  }

  ghost predicate WellSet(P: Problem) {
    KeepsFinals(P.A, P.B, P.R) && DisjointStates(P.A, P.B) && SoundComparer(P.R, P.lte) && ByClass(P.B, P.R, P.lte)
  }

  lemma LteCovers(P: Problem, X: set<State>, Y: set<State>)
    requires WellSet(P) && X <= P.B.States() && P.lte(X, Y)
    ensures Covered(P.R, X, Y)
  {
    if X == Y { CoveredBySuperset(P.R, X, Y); }
  }

  lemma UnderTrans(P: Problem, f: Goal, g: Goal, h: Goal)
    requires WellSet(P) && Under(P.R, f, g) && Under(P.R, g, h)
    ensures Under(P.R, f, h)
  {
    RelTrans(P.R, h.0, g.0, f.0);
    CoveredTrans(P.R, f.1, g.1, h.1);
  }

  lemma UnderItself(P: Problem, g: Goal)
    requires WellSet(P) && g in Pairs(P)
    ensures Under(P.R, g, g)
  {
    CoveredBySuperset(P.R, g.1, g.1);
  }

  lemma HigherShrinks(P: Problem, g: Goal, h: Goal)
    requires WellSet(P) && StrictlyUnder(P.R, g, h) && h in Pairs(P)
    ensures |Higher(P, h)| < |Higher(P, g)|
  {
    UnderItself(P, h);
    forall x | x in Higher(P, h) ensures x in Higher(P, g) && x != h {
      UnderTrans(P, g, h, x);
      if Under(P.R, x, g) { UnderTrans(P, h, x, g); }
    }
    SubsetSize(Higher(P, h) + {h}, Higher(P, g));
  }

  // ---------------------------------------------------------------- what can still come

  /** Equivalent sets are found to be below S. */
  ghost predicate Detectable(P: Problem, S: set<State>) {
    exists X {:trigger P.lte(X, S)} :: Plain(P.B, P.R, X) && X != S && Equivalent(P.R, X, S) && P.lte(X, S)
  }

  ghost predicate SomeAlike(R: Preorder, H: set<Goal>, g: Goal) {
    exists h :: h in H && Alike(R, h, g)
  }

  /** The pair g can still come before something lower does. */
  ghost predicate Open(P: Problem, H: set<Goal>, g: Goal) {
    if Detectable(P, g.1) then !SomeAlike(P.R, H, g) else g !in H
  }

  ghost function Potential(P: Problem, H: set<Goal>): set<Goal> {
    set g | g in Pairs(P) && Open(P, H, g)
  }

  /** Some stored pair is found to subsume (q, S). */
  ghost predicate Found(P: Problem, H: set<Goal>, q: State, S: set<State>) {
    exists p, T :: InH(H, p, T) && Rel(P.R, q, p) && P.lte(T, S)
  }

  /** The pair is stored, and those that it is found to subsume are dropped. */
  ghost predicate Stored(P: Problem, H: set<Goal>, q: State, S: set<State>, H': set<Goal>) {
    forall p, T :: InH(H', p, T) <==> (InH(H, p, T) && !(Rel(P.R, p, q) && P.lte(S, T))) || (p == q && T == S)
  }

  lemma FoundSubsumes(P: Problem, H: set<Goal>, q: State, S: set<State>)
    requires WellSet(P) && H <= Pairs(P) && Found(P, H, q, S)
    ensures Subsumed(P.R, H, q, S)
  {
    var p, T :| InH(H, p, T) && Rel(P.R, q, p) && P.lte(T, S);
    LteCovers(P, T, S);
  }

  /** When the comparison does not find that a pair is subsumed, the pair was open. */
  lemma NotFoundOpen(P: Problem, H: set<Goal>, g: Goal)
    requires WellSet(P) && H <= Pairs(P) && g in Pairs(P) && !Found(P, H, g.0, g.1)
    ensures Open(P, H, g)
  {
    if g in H { StoredFound(P, H, g); }
    if h :| h in H && Alike(P.R, h, g) && Detectable(P, g.1) {
      AlikeFound(P, h, g);
      assert InH(H, h.0, h.1);
    }
  }

  lemma StoredFound(P: Problem, H: set<Goal>, g: Goal)
    requires WellSet(P) && g in Pairs(P) && g in H
    ensures Found(P, H, g.0, g.1)
  {
    UnderItself(P, g);
    assert InH(H, g.0, g.1) && P.lte(g.1, g.1);
  }

  lemma AlikeFound(P: Problem, h: Goal, g: Goal)
    requires WellSet(P) && g in Pairs(P) && h in Pairs(P) && Alike(P.R, h, g) && Detectable(P, g.1)
    ensures Rel(P.R, g.0, h.0) && P.lte(h.1, g.1)
  {
    if h.1 != g.1 {
      var X :| Plain(P.B, P.R, X) && X != g.1 && Equivalent(P.R, X, g.1) && P.lte(X, g.1);
      CoveredTrans(P.R, X, g.1, h.1);
      CoveredTrans(P.R, h.1, g.1, X);
      assert P.lte(X, g.1) ==> P.lte(h.1, g.1);
    }
  }

  /** Afterwards it is not open. */
  lemma StoredClosed(P: Problem, H: set<Goal>, g: Goal, H': set<Goal>)
    requires WellSet(P) && g in Pairs(P) && Stored(P, H, g.0, g.1, H')
    ensures !Open(P, H', g)
  {
    assert InH(H', g.0, g.1);
    UnderItself(P, g);
  }

  /** What becomes open is strictly above. */
  lemma Opened(P: Problem, H: set<Goal>, g: Goal, H': set<Goal>, x: Goal)
    requires WellSet(P) && H <= Pairs(P) && g in Pairs(P) && !Found(P, H, g.0, g.1) && Stored(P, H, g.0, g.1, H')
    requires x in Pairs(P) && Open(P, H', x) && !Open(P, H, x)
    ensures StrictlyUnder(P.R, g, x)
  {
    if Detectable(P, x.1) {
      var h :| h in H && Alike(P.R, h, x);
      DroppedUnder(P, H, g, H', h, x);
      NewAlike(P, H, g, H', x);
    } else {
      UnderItself(P, x);
      DroppedUnder(P, H, g, H', x, x);
      if Under(P.R, x, g) { DroppedDetectable(P, H, g, H', x); }
    }
  }

  lemma NewAlike(P: Problem, H: set<Goal>, g: Goal, H': set<Goal>, x: Goal)
    requires Stored(P, H, g.0, g.1, H')
    ensures Alike(P.R, g, x) ==> SomeAlike(P.R, H', x)
  {
    assert InH(H', g.0, g.1);
  }

  lemma DroppedUnder(P: Problem, H: set<Goal>, g: Goal, H': set<Goal>, h: Goal, x: Goal)
    requires WellSet(P) && g in Pairs(P) && Stored(P, H, g.0, g.1, H') && h in H && Under(P.R, h, x)
    requires h !in H'
    ensures Under(P.R, g, x)
  {
    assert InH(H, h.0, h.1) && !InH(H', h.0, h.1);
    LteCovers(P, g.1, h.1);
    UnderTrans(P, g, h, x);
  }

  lemma DroppedDetectable(P: Problem, H: set<Goal>, g: Goal, H': set<Goal>, x: Goal)
    requires WellSet(P) && g in Pairs(P) && !Found(P, H, g.0, g.1) && Stored(P, H, g.0, g.1, H')
    requires x in H && x !in H' && Alike(P.R, g, x)
    ensures Detectable(P, x.1)
  {
    assert InH(H, x.0, x.1) && !InH(H', x.0, x.1);
    assert x.1 == g.1 ==> P.lte(x.1, g.1);
    assert P.lte(g.1, x.1);
  }

  // ---------------------------------------------------------------- the measure

  function Power(b: nat, n: nat): (r: nat)
    ensures b > 0 ==> r > 0
  {
    if n == 0 then 1 else b * Power(b, n - 1)
  }

  lemma {:induction false} PowerGrows(b: nat, m: nat, n: nat)
    requires b > 0 && m <= n
    ensures Power(b, m) <= Power(b, n)
  {
    if m < n {
      PowerGrows(b, m, n - 1);
      assert Power(b, n - 1) <= b * Power(b, n - 1);
    }
  }

  /** A pair counts for more than all those above it together. */
  ghost function WeightOf(P: Problem, g: Goal): nat {
    Power(|Pairs(P)| + 1, |Higher(P, g)|)
  }

  ghost function Sum(P: Problem, S: set<Goal>): nat {
    if S == {} then 0 else var g :| g in S; WeightOf(P, g) + Sum(P, S - {g})
  }

  lemma {:induction false} SumWithout(P: Problem, S: set<Goal>, x: Goal)
    requires x in S
    ensures Sum(P, S) == WeightOf(P, x) + Sum(P, S - {x})
  {
    var g :| g in S && Sum(P, S) == WeightOf(P, g) + Sum(P, S - {g});
    if g != x {
      SumWithout(P, S - {g}, x);
      SumWithout(P, S - {x}, g);
      assert S - {g} - {x} == S - {x} - {g};
    }
  }

  lemma {:induction false} SumSubset(P: Problem, S: set<Goal>, T: set<Goal>)
    requires S <= T
    ensures Sum(P, S) <= Sum(P, T)
    decreases |T|
  {
    if x :| x in T && x !in S {
      SumWithout(P, T, x);
      SumSubset(P, S, T - {x});
    } else {
      assert S == T;
    }
  }

  lemma {:induction false} SumBelow(P: Problem, S: set<Goal>, bound: nat)
    requires forall g :: g in S ==> WeightOf(P, g) <= bound
    ensures Sum(P, S) <= |S| * bound
  {
    if S != {} {
      var g :| g in S;
      SumWithout(P, S, g);
      SumBelow(P, S - {g}, bound);
      assert |S| * bound == (|S| - 1) * bound + bound;
    }
  }

  lemma {:induction false} SumBoth(P: Problem, S: set<Goal>, T: set<Goal>)
    requires S !! T
    ensures Sum(P, S + T) == Sum(P, S) + Sum(P, T)
    decreases |S|
  {
    if S == {} {
      assert S + T == T;
    } else {
      var x :| x in S;
      SumWithout(P, S, x);
      SumWithout(P, S + T, x);
      assert S + T - {x} == (S - {x}) + T;
      SumBoth(P, S - {x}, T);
    }
  }

  ghost function Measure(P: Problem, H: set<Goal>): nat {
    Sum(P, Potential(P, H))
  }

  /** All pairs strictly above g together count for less than g. */
  lemma HigherCountLess(P: Problem, g: Goal, S: set<Goal>)
    requires WellSet(P) && S <= Higher(P, g)
    ensures Sum(P, S) < WeightOf(P, g)
  {
    var b, n := |Pairs(P)| + 1, |Higher(P, g)|;
    if S == {} {
      assert Power(b, n) > 0;
    } else {
      var y :| y in S;
      SubsetSize({y}, Higher(P, g));
      forall x | x in S ensures WeightOf(P, x) <= Power(b, n - 1) {
        HigherShrinks(P, g, x);
        PowerGrows(b, |Higher(P, x)|, n - 1);
      }
      SumBelow(P, S, Power(b, n - 1));
      SubsetSize(S, Pairs(P));
      LessTimes(|S|, b, Power(b, n - 1));
    }
  }

  lemma LessTimes(x: nat, y: nat, d: nat)
    requires x < y && d > 0
    ensures x * d < y * d
  {
  }

  /** Storing a pair that was not found to be subsumed makes the measure smaller. */
  lemma StoreDecreases(P: Problem, H: set<Goal>, g: Goal, H': set<Goal>)
    requires WellSet(P) && H <= Pairs(P) && g in Pairs(P) && !Found(P, H, g.0, g.1) && Stored(P, H, g.0, g.1, H')
    ensures Measure(P, H') < Measure(P, H)
  {
    var K, K' := Potential(P, H), Potential(P, H');
    NotFoundOpen(P, H, g);
    StoredClosed(P, H, g, H');
    forall x | x in K' - K ensures x in Higher(P, g) {
      Opened(P, H, g, H', x);
    }
    HigherCountLess(P, g, K' - K);
    SumWithout(P, K, g);
    SumSubset(P, K' * K, K - {g});
    SumBoth(P, K' * K, K' - K);
    assert K' == K' * K + (K' - K);
  }

  // ---------------------------------------------------------------- the worklist

  /** The pairs stored, and those of them that are waiting; the others have been processed. */
  datatype Stage = Stage(H: set<Goal>, next: set<Goal>)

  ghost function Done(s: Stage): set<Goal> {
    s.H - s.next
  }

  ghost predicate AllGood(P: Problem, T: set<Goal>) {
    forall q, S :: InH(T, q, S) ==> Good(P.A, P.B, P.R, q, S) && Flat(P.R, S)
  }

  ghost predicate Worklist(P: Problem, s: Stage) {
    s.next <= s.H && AllGood(P, s.H)
  }

  lemma GoodPairs(P: Problem, T: set<Goal>)
    requires AllGood(P, T)
    ensures T <= Pairs(P)
  {
    forall g | g in T ensures g in Pairs(P) {
      assert InH(T, g.0, g.1);
      SpaceHas(P.A, P.B, g.0, g.1);
    }
  }

  /** More is covered, nothing has come to be processed, and if anything changed there is less to come. */
  ghost predicate Grown(P: Problem, s: Stage, s': Stage) {
    && CoversMore(P.R, s.H, s'.H) && Done(s') <= Done(s)
    && (s' == s || Measure(P, s'.H) < Measure(P, s.H))
  }

  lemma GrownTrans(P: Problem, s: Stage, s': Stage, s'': Stage)
    requires Grown(P, s, s') && Grown(P, s', s'')
    ensures Grown(P, s, s'')
  {
  }

  /** The stage after a pair is stored: those dropped no longer wait. */
  ghost function After(s: Stage, q: State, S: set<State>, H': set<Goal>): Stage {
    Stage(H', s.next * H' + {(q, S)})
  }

  lemma StoreCovers(P: Problem, H: set<Goal>, q: State, S: set<State>, H': set<Goal>)
    requires WellSet(P) && H <= Pairs(P) && (q, S) in Pairs(P) && Stored(P, H, q, S, H')
    ensures CoversMore(P.R, H, H') && Subsumed(P.R, H', q, S)
  {
    UnderItself(P, (q, S));
    assert InH(H', q, S);
    forall p, T | Subsumed(P.R, H, p, T) ensures Subsumed(P.R, H', p, T) {
      var p', X :| InH(H, p', X) && Rel(P.R, p, p') && Covered(P.R, X, T);
      if Rel(P.R, p', q) && P.lte(S, X) {
        LteCovers(P, S, X);
        UnderTrans(P, (q, S), (p', X), (p, T));
      } else {
        assert InH(H', p', X);
      }
    }
  }

  /** Storing keeps everything processed or waiting, and there is less to come. */
  lemma StoreKeeps(P: Problem, s: Stage, q: State, S: set<State>, H': set<Goal>)
    requires WellSet(P) && Worklist(P, s) && AllGood(P, {(q, S)}) && !Found(P, s.H, q, S) && Stored(P, s.H, q, S, H')
    ensures Worklist(P, After(s, q, S, H')) && Grown(P, s, After(s, q, S, H')) && Subsumed(P.R, H', q, S)
  {
    GoodPairs(P, s.H);
    GoodPairs(P, {(q, S)});
    StoreCovers(P, s.H, q, S, H');
    StoreDecreases(P, s.H, (q, S), H');
    StoreParts(P, s, q, S, H');
  }

  lemma StoreParts(P: Problem, s: Stage, q: State, S: set<State>, H': set<Goal>)
    requires Worklist(P, s) && AllGood(P, {(q, S)}) && Stored(P, s.H, q, S, H')
    ensures Worklist(P, After(s, q, S, H')) && Done(After(s, q, S, H')) <= Done(s)
  {
    assert InH(H', q, S) && InH({(q, S)}, q, S);
    forall g | g in H' ensures g in s.H || g == (q, S) {
      assert InH(H', g.0, g.1);
      assert InH(s.H, g.0, g.1) || g == (q, S);
    }
    forall p, T | InH(H', p, T) ensures Good(P.A, P.B, P.R, p, T) && Flat(P.R, T) {
      assert InH(s.H, p, T) || InH({(q, S)}, p, T);
    }
  }
}
