/** Language inclusion of arbitrary automata, and the comparison of sets of states through a
    preorder given by lists. */
module Inclusion {
  import opened Antichain
  import opened Collections
  import opened DownIncl
  import opened Preorders
  import opened Reindex
  import opened TreeAutomata
  import opened UpIncl
  import opened UpSpec
  import opened UpWorklist
  import opened Useless

  // ---------------------------------------------------------------- comparing sets by merging

  /** Walks through both lists at once, always past the lower head, until the heads agree. */
  function Meet(xs: seq<State>, ys: seq<State>): bool {
    if xs == [] || ys == [] then false
    else if xs[0] < ys[0] then Meet(xs[1..], ys)
    else if ys[0] < xs[0] then Meet(xs, ys[1..])
    else true
  }

  ghost predicate Sorted(xs: seq<State>) {
    forall i, j :: 0 <= i < j < |xs| ==> xs[i] < xs[j]
  }

  /** In whatever order the lists are, a meeting is a common element. */
  lemma {:induction false} MeetIsCommon(xs: seq<State>, ys: seq<State>)
    requires Meet(xs, ys)
    ensures exists x :: x in xs && x in ys
  {
    if xs[0] < ys[0] {
      MeetIsCommon(xs[1..], ys);
    } else if ys[0] < xs[0] {
      MeetIsCommon(xs, ys[1..]);
    } else {
      assert xs[0] in xs && xs[0] in ys;
    }
  }

  /** In sorted lists every common element is met. */
  lemma {:induction false} CommonIsMet(xs: seq<State>, ys: seq<State>, x: State)
    requires Sorted(xs) && Sorted(ys) && x in xs && x in ys
    ensures Meet(xs, ys)
  {
    if xs[0] < ys[0] {
      assert x != xs[0];
      CommonIsMet(xs[1..], ys, x);
    } else if ys[0] < xs[0] {
      assert x != ys[0];
      CommonIsMet(xs, ys[1..], x);
    }
  }

  /** Behind a higher entry the only common element is missed. */
  lemma {:induction false} Overtaken(xs: seq<State>, ys: seq<State>, y: State, i: nat)
    requires i < |xs| && xs[i] > y && y !in xs[..i] && Sorted(ys)
    requires forall x :: x in xs && x in ys ==> x == y
    ensures !Meet(xs, ys)
  {
    if ys != [] {
      HeadsDiffer(xs, ys, y, i);
      if xs[0] < ys[0] {
        if i == 0 {
          NothingMet(xs[1..], ys, y);
        } else {
          assert xs[1..][..i - 1] == xs[..i][1..];
          Overtaken(xs[1..], ys, y, i - 1);
        }
      } else {
        Overtaken(xs, ys[1..], y, i);
      }
    }
  }

  lemma HeadsDiffer(xs: seq<State>, ys: seq<State>, y: State, i: nat)
    requires i < |xs| && xs[i] > y && y !in xs[..i] && ys != []
    requires forall x :: x in xs && x in ys ==> x == y
    ensures xs[0] != ys[0]
  {
    assert xs[0] in xs && ys[0] in ys;
    if i > 0 { assert xs[0] in xs[..i]; }
  }

  /** Nothing is met when all entries on the right are above the only possible common element. */
  lemma NothingMet(xs: seq<State>, ys: seq<State>, y: State)
    requires ys != [] && ys[0] > y && Sorted(ys) && forall x :: x in xs && x in ys ==> x == y
    ensures !Meet(xs, ys)
  {
    forall x | x in ys ensures x > y {
      var k :| 0 <= k < |ys| && ys[k] == x;
      assert ys[0] <= ys[k];
    }
    if Meet(xs, ys) { MeetIsCommon(xs, ys); }
  }

  ghost predicate Common(xs: seq<State>, ys: seq<State>) {
    exists x :: x in xs && x in ys
  }

  /** The merge finds the common elements of a list with every sorted list, if and only if the
      list is sorted itself. */
  lemma MeetExact(xs: seq<State>)
    requires NoDup(xs)
    ensures Sorted(xs) <==> forall ys :: Sorted(ys) && Common(xs, ys) ==> Meet(xs, ys)
  {
    if Sorted(xs) {
      forall ys | Sorted(ys) && Common(xs, ys) ensures Meet(xs, ys) {
        var x :| x in xs && x in ys;
        CommonIsMet(xs, ys, x);
      }
    } else {
      var i, j := Inversion(xs);
      Overtaken(xs, [xs[j]], xs[j], i);
      assert xs[j] in xs && xs[j] in [xs[j]];
      assert Common(xs, [xs[j]]) && Sorted([xs[j]]);
    }
  }

  lemma Inversion(xs: seq<State>) returns (i: nat, j: nat)
    requires NoDup(xs) && !Sorted(xs)
    ensures i < j < |xs| && xs[i] > xs[j] && xs[j] !in xs[..i]
  {
    i, j :| 0 <= i < j < |xs| && !(xs[i] < xs[j]);
  }

  lemma LeastOf(Y: set<State>) returns (m: State)
    requires Y != {}
    ensures m in Y && forall y :: y in Y ==> m <= y
  {
    m :| m in Y;
    if Y != {m} {
      var l := LeastOf(Y - {m});
      LeastOfBoth(Y, m, l);
      m := if m < l then m else l;
    }
  }

  lemma LeastOfBoth(Y: set<State>, x: State, l: State)
    requires x in Y && l in Y && forall y :: y in Y - {x} ==> l <= y
    ensures forall y :: y in Y ==> l <= y || x <= y
    ensures x < l ==> forall y :: y in Y ==> x <= y
    ensures l <= x ==> forall y :: y in Y ==> l <= y
  {
    forall y | y in Y ensures y == x || y in Y - {x} {}
  }

  lemma LeastExists(Y: set<State>)
    requires Y != {}
    ensures exists m :: m in Y && forall y :: y in Y ==> m <= y
  {
    var m := LeastOf(Y);
  }

  function Least(Y: set<State>): (m: State)
    requires Y != {}
    ensures m in Y && forall y :: y in Y ==> m <= y
  {
    LeastExists(Y);
    var m :| m in Y && forall y :: y in Y ==> m <= y;
    m
  }

  /** The set as a sorted list. */
  function Ascending(Y: set<State>): (r: seq<State>)
    ensures forall x :: x in r <==> x in Y
    ensures Sorted(r)
  {
    if Y == {} then [] else [Least(Y)] + Ascending(Y - {Least(Y)})
  }

  /** Equal sets are comparable; others are if the list of every state on the left meets the right. */
  function LteByIndex(ind: map<State, seq<State>>): Comparer {
    (X: set<State>, Y: set<State>) => X == Y || forall s :: s in X ==> s in ind && Meet(ind[s], Ascending(Y))
  }

  /** The lists hold the bigger states of each state. */
  ghost predicate ListsBigger(ind: map<State, seq<State>>, R: Preorder) {
    forall s :: s in ind ==> forall y :: y in ind[s] <==> Rel(R, s, y)
  }

  /** Whatever the order of the lists, the comparison is sound. */
  lemma LteSound(ind: map<State, seq<State>>, R: Preorder)
    requires ListsBigger(ind, R)
    ensures SoundComparer(R, LteByIndex(ind))
  {
    var lte := LteByIndex(ind);
    forall X, Y | lte(X, Y) && X != Y ensures Covered(R, X, Y) {
      forall s | s in X ensures exists y :: y in Y && Rel(R, s, y) {
        MeetIsCommon(ind[s], Ascending(Y));
      }
    }
  }

  /** With sorted lists it finds all the sets it should. */
  lemma LteComplete(ind: map<State, seq<State>>, R: Preorder, X: set<State>, Y: set<State>)
    requires ListsBigger(ind, R) && (forall s :: s in ind ==> Sorted(ind[s])) && X <= ind.Keys && Covered(R, X, Y)
    ensures LteByIndex(ind)(X, Y)
  {
    forall s | s in X ensures Meet(ind[s], Ascending(Y)) {
      assert Meets(R, s, Y);
      var y :| y in Y && Rel(R, s, y);
      CommonIsMet(ind[s], Ascending(Y), y);
    }
  }

  /** Every set that is covered by another is found to be below it. */
  ghost predicate FindsAll(ind: map<State, seq<State>>, R: Preorder) {
    forall X: set<State>, Y: set<State> :: X <= ind.Keys && Covered(R, X, Y) ==> LteByIndex(ind)(X, Y)
  }

  /** That is so if and only if all the lists are sorted. Equal sets compare below in any case;
      a further state on the right keeps that from hiding what the merge misses. */
  lemma FindsAllExact(ind: map<State, seq<State>>, R: Preorder)
    requires ListsBigger(ind, R) && forall s :: s in ind ==> NoDup(ind[s])
    ensures FindsAll(ind, R) <==> forall s :: s in ind ==> Sorted(ind[s])
  {
    if forall s :: s in ind ==> Sorted(ind[s]) {
      forall X: set<State>, Y: set<State> | X <= ind.Keys && Covered(R, X, Y) ensures LteByIndex(ind)(X, Y) {
        LteComplete(ind, R, X, Y);
      }
    } else {
      var s :| s in ind && !Sorted(ind[s]);
      MissedBySome(ind, R, s);
    }
  }

  lemma MissedBySome(ind: map<State, seq<State>>, R: Preorder, s: State)
    requires ListsBigger(ind, R) && s in ind && NoDup(ind[s]) && !Sorted(ind[s])
    ensures exists Y: set<State> :: Covered(R, {s}, Y) && !LteByIndex(ind)({s}, Y)
  {
    var xs := ind[s];
    var i, j := Inversion(xs);
    var z := Above(xs, s);
    var y := xs[j];
    var Y := {y, z};
    assert y in xs && Rel(R, s, y);
    Overtaken(xs, Ascending(Y), y, i);
    assert z in Y && z !in {s};
    assert !LteByIndex(ind)({s}, Y);
    assert Covered(R, {s}, Y);
  }

  /** A number above all entries and s. */
  function Above(xs: seq<State>, s: State): (z: State)
    ensures z > s && forall x :: x in xs ==> x < z
  {
    if xs == [] then s + 1
    else
      var z := Above(xs[1..], s);
      assert forall x :: x in xs ==> x == xs[0] || x in xs[1..];
      if z <= xs[0] then xs[0] + 1 else z
  }

  // ---------------------------------------------------------------- index lists by state numbers

  function Mapping(xs: seq<nat>, back: map<nat, State>): (r: seq<State>)
    requires forall x :: x in xs ==> x in back
    ensures |r| == |xs| && forall k :: 0 <= k < |r| ==> xs[k] in back && r[k] == back[xs[k]]
  {
    seq(|xs|, k requires 0 <= k < |xs| => assert xs[k] in xs; back[xs[k]])
  }

  /** The lists of an index on 0..n-1 are entries of the dictionary. */
  ghost predicate InDictionary(inner: seq<seq<nat>>, back: map<nat, State>) {
    forall i :: 0 <= i < |inner| ==> i in back && forall x :: x in inner[i] ==> x in back
  }

  ghost predicate OneToOne(back: map<nat, State>) {
    forall x, y :: x in back && y in back && back[x] == back[y] ==> x == y
  }

  /** The index with numbers replaced by the states that they stand for, in the same order. */
  function TranslateIndex(inner: seq<seq<nat>>, back: map<nat, State>): (ind: map<State, seq<State>>)
    requires InDictionary(inner, back) && OneToOne(back)
    ensures forall i :: 0 <= i < |inner| ==> back[i] in ind && ind[back[i]] == Mapping(inner[i], back)
    ensures forall s :: s in ind ==> exists i :: 0 <= i < |inner| && s == back[i]
  {
    map i | 0 <= i < |inner| :: back[i] := Mapping(inner[i], back)
  }

  /** With ascending lists of numbers the comparison finds everything if and only if the
      dictionary keeps the order of every list. */
  lemma TranslatedExact(inner: seq<seq<nat>>, back: map<nat, State>, R: Preorder)
    requires InDictionary(inner, back) && OneToOne(back) && (forall i :: 0 <= i < |inner| ==> Sorted(inner[i]))
    requires ListsBigger(TranslateIndex(inner, back), R)
    ensures FindsAll(TranslateIndex(inner, back), R) <==> forall i :: 0 <= i < |inner| ==> Sorted(Mapping(inner[i], back))
  {
    var ind := TranslateIndex(inner, back);
    forall s | s in ind ensures NoDup(ind[s]) {
      var i :| 0 <= i < |inner| && s == back[i];
    }
    FindsAllExact(ind, R);
    if forall s :: s in ind ==> Sorted(ind[s]) {
      forall i | 0 <= i < |inner| ensures Sorted(Mapping(inner[i], back)) {
        assert ind[back[i]] == Mapping(inner[i], back);
      }
    }
    if forall i :: 0 <= i < |inner| ==> Sorted(Mapping(inner[i], back)) {
      forall s | s in ind ensures Sorted(ind[s]) {
        var i :| 0 <= i < |inner| && s == back[i];
      }
    }
  }

  /** The full relation on the states 1 and 2. */
  function AllRelated(): Preorder { {(2, 2), (2, 1), (1, 2), (1, 1)} }

  function Numbers(): (inner: seq<seq<nat>>)
    ensures |inner| == 2 && inner[0] == [0, 1] && inner[1] == [0, 1]
  {
    [[0, 1], [0, 1]]
  }

  function Dictionary(): map<nat, State> { map[0 := 2, 1 := 1] }

  lemma DictionaryOk()
    ensures InDictionary(Numbers(), Dictionary()) && OneToOne(Dictionary())
    ensures forall i :: 0 <= i < |Numbers()| ==> Sorted(Numbers()[i])
    ensures Mapping([0, 1], Dictionary()) == [2, 1]
  {
  }

  lemma DictionaryIndex()
    ensures InDictionary(Numbers(), Dictionary()) && OneToOne(Dictionary())
    ensures var ind := TranslateIndex(Numbers(), Dictionary());
            (forall s :: s in ind <==> s == 1 || s == 2) && ind[1] == [2, 1] && ind[2] == [2, 1]
  {
    DictionaryOk();
    var inner, back := Numbers(), Dictionary();
    var ind := TranslateIndex(inner, back);
    assert back[0] in ind && ind[back[0]] == Mapping(inner[0], back);
    assert back[1] in ind && ind[back[1]] == Mapping(inner[1], back);
  }

  /** Two states numbered against their order, each related to both: the one covers the other, but
      the merge does not find it. */
  lemma TranslatedMisses()
    ensures InDictionary(Numbers(), Dictionary()) && OneToOne(Dictionary())
    ensures forall i :: 0 <= i < |Numbers()| ==> Sorted(Numbers()[i])
    ensures ListsBigger(TranslateIndex(Numbers(), Dictionary()), AllRelated()) && Covered(AllRelated(), {2}, {1})
    ensures !LteByIndex(TranslateIndex(Numbers(), Dictionary()))({2}, {1})
  {
    DictionaryOk();
    DictionaryIndex();
    MissedIn(TranslateIndex(Numbers(), Dictionary()));
  }

  lemma MissedIn(ind: map<State, seq<State>>)
    requires (forall s :: s in ind <==> s == 1 || s == 2) && ind[1] == [2, 1] && ind[2] == [2, 1]
    ensures ListsBigger(ind, AllRelated()) && Covered(AllRelated(), {2}, {1}) && !LteByIndex(ind)({2}, {1})
  {
    forall s | s in ind ensures forall y :: y in ind[s] <==> Rel(AllRelated(), s, y) {
      assert ind[s] == [2, 1];
    }
    assert Rel(AllRelated(), 2, 1) && 1 in {1};
    Overtaken([2, 1], Ascending({1}), 1, 0);
    assert 2 in {2} && 2 !in {1} && !Meet(ind[2], Ascending({1}));
  }

  // ---------------------------------------------------------------- the checks

  function IdentityIndex(size: nat): map<State, seq<State>> {
    map q | q in Below(size) :: [q]
  }

  datatype InclOption = AntichainsUpNosim | AntichainsDownRecNosim

  /** Prepares the automata, and decides inclusion upward or downward. */
  method CheckInclusion(smaller: Aut, bigger: Aut, option: InclOption, ghost rank: Symbol -> nat) returns (r: bool)
    requires Ranked(smaller.trans, rank) && Ranked(bigger.trans, rank)
    ensures r <==> Included(smaller, bigger)
  {
    var newSmaller, newBigger, states := SanitizeAutsForInclusion(smaller, bigger);
    StillRanked(smaller, newSmaller, rank);
    StillRanked(bigger, newBigger, rank);
    match option
    case AntichainsUpNosim =>
      r := CheckUpNosim(newSmaller, newBigger, states, rank);
    case AntichainsDownRecNosim =>
      r := CheckDownRecNosim(newSmaller, newBigger, states, rank);
  }

  method CheckUpNosim(smaller: Aut, bigger: Aut, states: nat, ghost rank: Symbol -> nat) returns (r: bool)
    requires smaller.Trimmed() && DisjointStates(smaller, bigger) && Ranked(smaller.trans, rank) && Ranked(bigger.trans, rank)
    requires forall q: nat :: q in smaller.States() + bigger.States() ==> q < states
    ensures r <==> Included(smaller, bigger)
  {
    IdentityIsUpward(smaller, bigger, states);
    r := CheckUpwardInclusion(smaller, bigger, Identity(states), LteByIndex(IdentityIndex(states)), rank);
  }

  method CheckDownRecNosim(smaller: Aut, bigger: Aut, states: nat, ghost rank: Symbol -> nat) returns (r: bool)
    requires smaller.Trimmed() && DisjointStates(smaller, bigger) && Ranked(smaller.trans, rank) && Ranked(bigger.trans, rank)
    requires forall q: nat :: q in smaller.States() + bigger.States() ==> q < states
    ensures r <==> Included(smaller, bigger)
  {
    var ind := IdentityIndex(states);
    LteSound(ind, Identity(states));
    TrimmedIsProductive(smaller);
    IdentityIsSound(smaller, bigger, states);
    r := CheckDownwardTreeInclusion(smaller, bigger, Identity(states), LteByIndex(ind));
  }

  /** When equivalent states have the same list, the comparison does not depend on which of them
      make up a set. */
  lemma LteByClass(B: Aut, ind: map<State, seq<State>>, R: Preorder)
    requires forall s, t :: s in ind && t in B.States() && Rel(R, s, t) && Rel(R, t, s) ==> t in ind && ind[t] == ind[s]
    requires Transitive(R)
    ensures ByClass(B, R, LteByIndex(ind))
  {
    var lte := LteByIndex(ind);
    forall X, X', Y | Plain(B, R, X) && Plain(B, R, X') && Equivalent(R, X, X') && X != Y && X' != Y && lte(X, Y) ensures lte(X', Y) {
      forall t | t in X' ensures t in ind && Meet(ind[t], Ascending(Y)) {
        var s := EquivalentState(R, X', X, t);
      }
    }
  }

  /** In sets without states below others, equivalence is state by state. */
  lemma EquivalentState(R: Preorder, X: set<State>, Y: set<State>, x: State) returns (y: State)
    requires Transitive(R) && Equivalent(R, X, Y) && Flat(R, X) && x in X
    ensures y in Y && Rel(R, x, y) && Rel(R, y, x)
  {
    assert Meets(R, x, Y);
    y :| y in Y && Rel(R, x, y);
    assert Meets(R, y, X);
    var x' :| x' in X && Rel(R, y, x');
    RelTrans(R, x, y, x');
  }

  lemma IdentityIsUpward(A: Aut, B: Aut, states: nat)
    requires forall q: nat :: q in A.States() + B.States() ==> q < states
    ensures Upward(A, B, Identity(states))
    ensures SoundComparer(Identity(states), LteByIndex(IdentityIndex(states))) && ByClass(B, Identity(states), LteByIndex(IdentityIndex(states)))
  {
    var R := Identity(states);
    forall q | q in A.States() + B.States() ensures Rel(R, q, q) { }
    forall q | q in B.States() ensures q in A.States() + B.States() { }
    forall tr, i: nat, q: State | tr in A.trans + B.trans && i < |tr.kids| && Rel(R, tr.kids[i], q) ensures Answered(A, B, R, tr, i, q) {
      assert tr.kids[i := q] == tr.kids;
      if tr in A.trans { TransitionStates(A, tr); } else { TransitionStates(B, tr); }
      assert tr.parent in A.States() + B.States() && Rel(R, tr.parent, tr.parent);
    }
    forall p, q, r ensures TransitiveAt(R, p, q, r) { }
    forall p, q ensures FinalAt(A, B, R, p, q) { }
    LteSound(IdentityIndex(states), R);
    LteByClass(B, IdentityIndex(states), R);
  }

  lemma IdentityIsSound(A: Aut, B: Aut, states: nat)
    requires forall q :: q in A.States() + B.States() ==> q < states
    ensures SoundPreorder(A, B, Identity(states))
  {
  }

  lemma UsedIsProductive(A: Aut, p: State, t: Tree, q: State)
    requires A.RunUses(p, t, q)
    ensures A.Productive(q)
    decreases t
  {
    if p != q {
      var tr, i :| A.Step(tr, p, t) && 0 <= i < |t.kids| && A.RunUses(tr.kids[i], t.kids[i], q);
      UsedIsProductive(A, tr.kids[i], t.kids[i], q);
    }
  }

  lemma TrimmedIsProductive(A: Aut)
    requires A.Trimmed()
    ensures ProductiveKids(A)
  {
    forall tr, k | tr in A.trans && k in tr.kids ensures A.Productive(k) {
      TransitionStates(A, tr);
      assert k in SetOf(tr.kids) && A.Useful(k);
      var p, t :| p in A.finals && A.RunUses(p, t, k);
      UsedIsProductive(A, p, t, k);
    }
  }
}
