/** The complement of a tree automaton over sets of states: a set accepts the trees that none
    of its states accepts. */
module ComplementSpec {
  import opened ChoiceFunctions
  import opened Collections
  import opened InclusionSpec
  import opened Preorders
  import opened TreeAutomata

  /** The rank of every symbol. */
  type Alphabet = map<Symbol, nat>

  /** The numbers given to the sets of states. */
  type StateCache = map<set<State>, nat>

  /** A position for every tuple. */
  type Choice = map<seq<State>, nat>

  ghost predicate TreeOver(alphabet: Alphabet, t: Tree)
    decreases t
  {
    t.sym in alphabet && |t.kids| == alphabet[t.sym] && forall i :: 0 <= i < |t.kids| ==> TreeOver(alphabet, t.kids[i])
  }

  ghost predicate AlphabetOf(A: Aut, alphabet: Alphabet) {
    forall tr :: tr in A.trans ==> tr.sym in alphabet && |tr.kids| == alphabet[tr.sym]
  }

  ghost predicate HaveLength(W: set<seq<State>>, n: nat) {
    forall r :: r in W ==> |r| == n
  }

  ghost predicate ChoiceOf(W: set<seq<State>>, n: nat, choice: Choice) {
    choice.Keys == W && HaveLength(W, n) && forall r :: r in W ==> choice[r] < n
  }

  /** The states at position i of the tuples for which i is chosen. */
  ghost function ChosenAt(choice: Choice, i: nat): set<State>
    requires forall r :: r in choice ==> i < |r|
  {
    set r | r in choice && choice[r] == i :: r[i]
  }

  /** Ps is what some choice makes of the tuples: the children that the complement needs. */
  ghost predicate Target(W: set<seq<State>>, n: nat, Ps: seq<set<State>>) {
    |Ps| == n && exists choice :: ChoiceOf(W, n, choice) && forall i: nat :: i < n ==> Ps[i] == ChosenAt(choice, i)
  }

  ghost predicate NoneAccepted(A: Aut, Ps: seq<set<State>>, ts: seq<Tree>) {
    |Ps| == |ts| && forall i :: 0 <= i < |ts| ==> !A.AcceptsSome(Ps[i], ts[i])
  }

  /** No tuple accepts the trees exactly when some choice rejects every tuple at its position. */
  lemma ChoiceLemma(A: Aut, W: set<seq<State>>, ts: seq<Tree>)
    requires HaveLength(W, |ts|)
    ensures !SomeTuple(A, W, ts) <==> exists Ps :: Target(W, |ts|, Ps) && NoneAccepted(A, Ps, ts)
  {
    if !SomeTuple(A, W, ts) {
      var Ps := RejectingTarget(A, W, ts);
    }
    forall Ps | Target(W, |ts|, Ps) && NoneAccepted(A, Ps, ts) ensures !SomeTuple(A, W, ts) {
      var choice :| ChoiceOf(W, |ts|, choice) && forall i: nat :: i < |ts| ==> Ps[i] == ChosenAt(choice, i);
      forall r | r in W ensures !A.AcceptsAll(r, ts) {
        assert r[choice[r]] in ChosenAt(choice, choice[r]);
        assert !A.AcceptsSome(Ps[choice[r]], ts[choice[r]]);
      }
    }
  }

  ghost function RejectedAt(A: Aut, r: seq<State>, ts: seq<Tree>): (i: nat)
    requires |r| == |ts| && !A.AcceptsAll(r, ts)
    ensures i < |r| && !A.Accepts(r[i], ts[i])
  {
    var i: nat :| i < |r| && !A.Accepts(r[i], ts[i]); i
  }

  lemma RejectingTarget(A: Aut, W: set<seq<State>>, ts: seq<Tree>) returns (Ps: seq<set<State>>)
    requires HaveLength(W, |ts|) && !SomeTuple(A, W, ts)
    ensures Target(W, |ts|, Ps) && NoneAccepted(A, Ps, ts)
  {
    forall r | r in W ensures |r| == |ts| && !A.AcceptsAll(r, ts) { }
    var choice: Choice := map r | r in W :: RejectedAt(A, r, ts);
    assert ChoiceOf(W, |ts|, choice);
    Ps := seq(|ts|, i requires 0 <= i < |ts| => ChosenAt(choice, i));
    assert Target(W, |ts|, Ps);
    forall i | 0 <= i < |ts| ensures !A.AcceptsSome(Ps[i], ts[i]) {
      forall s | s in Ps[i] ensures !A.Accepts(s, ts[i]) {
        var r :| r in choice && choice[r] == i && r[i] == s;
      }
    }
  }

  // ---------------------------------------------------------------- the automaton

  ghost predicate Numbering(cache: StateCache) {
    && (forall S :: S in cache ==> cache[S] < |cache|)
    && (forall S, T :: S in cache && T in cache && cache[S] == cache[T] ==> S == T)
  }

  ghost predicate Numbered(cache: StateCache, Ps: seq<set<State>>, kids: seq<State>) {
    |kids| == |Ps| && forall i :: 0 <= i < |Ps| ==> Ps[i] in cache && cache[Ps[i]] == kids[i]
  }

  ghost predicate CacheExtends(cache': StateCache, cache: StateCache) {
    forall S :: S in cache ==> S in cache' && cache'[S] == cache[S]
  }

  /** The preorder implies inclusion of languages. */
  ghost predicate Implies(A: Aut, R: Preorder) {
    && Reflexive(R, A.States()) && Transitive(R)
    && forall p, q, t {:trigger Rel(R, p, q), A.Accepts(p, t)} :: Rel(R, p, q) && A.Accepts(p, t) ==> A.Accepts(q, t)
  }

  /** States below others are left out, and no others. */
  ghost predicate AllPruned(R: Preorder, Ps: seq<set<State>>, Xs: seq<set<State>>) {
    |Ps| == |Xs| && forall i :: 0 <= i < |Ps| ==> Pruned(R, Ps[i], Xs[i]) && Flat(R, Xs[i])
  }

  /** Leaving out states below others does not change what a set accepts. */
  lemma PrunedAccepts(A: Aut, R: Preorder, P: set<State>, X: set<State>, t: Tree)
    requires Implies(A, R) && Pruned(R, P, X)
    ensures A.AcceptsSome(P, t) <==> A.AcceptsSome(X, t)
  {
    if A.AcceptsSome(P, t) {
      var p :| p in P && A.Accepts(p, t);
      assert Meets(R, p, X);
      var x :| x in X && Rel(R, p, x);
    }
  }

  lemma NonePruned(A: Aut, R: Preorder, Ps: seq<set<State>>, Xs: seq<set<State>>, ts: seq<Tree>)
    requires Implies(A, R) && AllPruned(R, Ps, Xs)
    ensures NoneAccepted(A, Ps, ts) <==> NoneAccepted(A, Xs, ts)
  {
    forall i | 0 <= i < |Ps| && i < |ts| ensures A.AcceptsSome(Ps[i], ts[i]) <==> A.AcceptsSome(Xs[i], ts[i]) {
      PrunedAccepts(A, R, Ps[i], Xs[i], ts[i]);
    }
  }

  /** The children are numbers of sets that some choice gives, pruned. */
  ghost predicate Leads(R: Preorder, W: set<seq<State>>, n: nat, cache: StateCache, kids: seq<State>) {
    exists Ps, Xs :: Target(W, n, Ps) && AllPruned(R, Ps, Xs) && Numbered(cache, Xs, kids)
  }

  /** There is a transition to numbers of the sets, pruned. */
  ghost predicate Offered(R: Preorder, cache: StateCache, trans: set<Transition>, p: State, a: Symbol, Ps: seq<set<State>>) {
    exists Xs, kids :: AllPruned(R, Ps, Xs) && Numbered(cache, Xs, kids) && Transition(p, a, kids) in trans
  }

  /** The transitions of set P under symbol a are those that some choice gives, and there is one for
      every choice. */
  ghost predicate Row(A: Aut, alphabet: Alphabet, R: Preorder, cache: StateCache, trans: set<Transition>, P: set<State>, a: Symbol) {
    P in cache && a in alphabet ==>
      && (forall kids {:trigger Transition(cache[P], a, kids)} ::
           Transition(cache[P], a, kids) in trans ==> Leads(R, TuplesOf(A, P, a), alphabet[a], cache, kids))
      && (forall Ps {:trigger Target(TuplesOf(A, P, a), alphabet[a], Ps)} ::
           Target(TuplesOf(A, P, a), alphabet[a], Ps) ==> Offered(R, cache, trans, cache[P], a, Ps))
  }

  lemma RowStays(A: Aut, alphabet: Alphabet, R: Preorder, cache: StateCache, trans: set<Transition>, cache': StateCache,
          trans': set<Transition>, P: set<State>, a: Symbol)
    requires Row(A, alphabet, R, cache, trans, P, a) && P in cache && a in alphabet && CacheExtends(cache', cache)
    requires forall kids :: Transition(cache[P], a, kids) in trans' <==> Transition(cache[P], a, kids) in trans
    ensures Row(A, alphabet, R, cache', trans', P, a)
  {
    var W, n := TuplesOf(A, P, a), alphabet[a];
    forall kids | Transition(cache'[P], a, kids) in trans' ensures Leads(R, W, n, cache', kids) {
      assert Leads(R, W, n, cache, kids);
      var Ps, Xs :| Target(W, n, Ps) && AllPruned(R, Ps, Xs) && Numbered(cache, Xs, kids);
      assert Numbered(cache', Xs, kids);
    }
    forall Ps | Target(W, n, Ps) ensures Offered(R, cache', trans', cache'[P], a, Ps) {
      assert Offered(R, cache, trans, cache[P], a, Ps);
      var Xs, kids :| AllPruned(R, Ps, Xs) && Numbered(cache, Xs, kids) && Transition(cache[P], a, kids) in trans;
      assert Numbered(cache', Xs, kids);
    }
  }

  ghost predicate Complete(A: Aut, alphabet: Alphabet, R: Preorder, cache: StateCache, D: Aut) {
    && AlphabetOf(A, alphabet) && AlphabetOf(D, alphabet) && Numbering(cache) && Implies(A, R)
    && (forall P, a {:trigger Row(A, alphabet, R, cache, D.trans, P, a)} :: P in cache && a in alphabet ==> Row(A, alphabet, R, cache, D.trans, P, a))
  }

  /** The number of a set accepts the trees over the alphabet that no state of the set accepts. */
  lemma {:induction false} SetAccepts(A: Aut, alphabet: Alphabet, R: Preorder, cache: StateCache, D: Aut, P: set<State>, t: Tree)
    requires Complete(A, alphabet, R, cache, D) && P in cache
    ensures D.Accepts(cache[P], t) <==> TreeOver(alphabet, t) && !A.AcceptsSome(P, t)
    decreases t, 1
  {
    D.Unfold(cache[P], t);
    if t.sym in alphabet && |t.kids| == alphabet[t.sym] {
      var W, n := TuplesOf(A, P, t.sym), |t.kids|;
      assert Row(A, alphabet, R, cache, D.trans, P, t.sym);
      SomeStateSomeTuple(A, P, t);
      TuplesHaveLength(A, alphabet, P, t.sym);
      ChoiceLemma(A, W, t.kids);
      forall Xs, kids | |Xs| == n && Numbered(cache, Xs, kids)
        ensures D.AcceptsAll(kids, t.kids) <==> KidsOver(alphabet, t) && NoneAccepted(A, Xs, t.kids)
      {
        SetsAccept(A, alphabet, R, cache, D, Xs, kids, t);
      }
      SetStep(A, alphabet, R, cache, D, P, t);
    }
  }

  lemma SetsAccept(A: Aut, alphabet: Alphabet, R: Preorder, cache: StateCache, D: Aut, Xs: seq<set<State>>, kids: seq<State>, t: Tree)
    requires Complete(A, alphabet, R, cache, D) && |Xs| == |t.kids| && Numbered(cache, Xs, kids)
    ensures D.AcceptsAll(kids, t.kids) <==> KidsOver(alphabet, t) && NoneAccepted(A, Xs, t.kids)
    decreases t, 0
  {
    forall i | 0 <= i < |t.kids| ensures D.Accepts(kids[i], t.kids[i]) <==> TreeOver(alphabet, t.kids[i]) && !A.AcceptsSome(Xs[i], t.kids[i]) {
      SetAccepts(A, alphabet, R, cache, D, Xs[i], t.kids[i]);
    }
  }

  ghost predicate KidsOver(alphabet: Alphabet, t: Tree) {
    forall i :: 0 <= i < |t.kids| ==> TreeOver(alphabet, t.kids[i])
  }

  lemma SetStep(A: Aut, alphabet: Alphabet, R: Preorder, cache: StateCache, D: Aut, P: set<State>, t: Tree)
    requires Implies(A, R)
    requires P in cache && t.sym in alphabet && |t.kids| == alphabet[t.sym] && Row(A, alphabet, R, cache, D.trans, P, t.sym)
    requires forall Xs, kids {:trigger Numbered(cache, Xs, kids)} :: |Xs| == |t.kids| && Numbered(cache, Xs, kids) ==>
               (D.AcceptsAll(kids, t.kids) <==> KidsOver(alphabet, t) && NoneAccepted(A, Xs, t.kids))
    ensures (exists tr :: D.Step(tr, cache[P], t)) <==>
              KidsOver(alphabet, t) && exists Ps :: Target(TuplesOf(A, P, t.sym), |t.kids|, Ps) && NoneAccepted(A, Ps, t.kids)
  {
    var W, n := TuplesOf(A, P, t.sym), |t.kids|;
    if tr :| D.Step(tr, cache[P], t) {
      assert tr == Transition(cache[P], t.sym, tr.kids);
      var Ps, Xs :| Target(W, n, Ps) && AllPruned(R, Ps, Xs) && Numbered(cache, Xs, tr.kids);
      NonePruned(A, R, Ps, Xs, t.kids);
    }
    if KidsOver(alphabet, t) {
      forall Ps | Target(W, n, Ps) && NoneAccepted(A, Ps, t.kids) ensures exists tr :: D.Step(tr, cache[P], t) {
        assert Offered(R, cache, D.trans, cache[P], t.sym, Ps);
        var Xs, kids :| AllPruned(R, Ps, Xs) && Numbered(cache, Xs, kids) && Transition(cache[P], t.sym, kids) in D.trans;
        NonePruned(A, R, Ps, Xs, t.kids);
        assert D.Step(Transition(cache[P], t.sym, kids), cache[P], t);
      }
    }
  }

  lemma TuplesHaveLength(A: Aut, alphabet: Alphabet, P: set<State>, a: Symbol)
    requires AlphabetOf(A, alphabet) && a in alphabet
    ensures HaveLength(TuplesOf(A, P, a), alphabet[a])
  {
  }

  /** The complement, whose final state is the number of the set of final states, pruned, accepts
      exactly the trees over the alphabet that A rejects. */
  lemma ComplementExact(A: Aut, alphabet: Alphabet, R: Preorder, cache: StateCache, D: Aut, X: set<State>)
    requires Complete(A, alphabet, R, cache, D) && Pruned(R, A.finals, X) && X in cache && D.finals == {cache[X]}
    ensures forall t :: D.InLang(t) <==> TreeOver(alphabet, t) && !A.InLang(t)
  {
    forall t ensures D.InLang(t) <==> TreeOver(alphabet, t) && !A.InLang(t) {
      SetAccepts(A, alphabet, R, cache, D, X, t);
      PrunedAccepts(A, R, A.finals, X, t);
      assert D.InLang(t) <==> D.Accepts(cache[X], t);
      assert A.InLang(t) <==> A.AcceptsSome(A.finals, t);
    }
  }

  // ---------------------------------------------------------------- the sets that are needed

  /** Some choice of tuples of P under symbol a makes the set S, pruned, at some position. */
  ghost predicate StepsTo(A: Aut, alphabet: Alphabet, R: Preorder, P: set<State>, a: Symbol, S: set<State>) {
    a in alphabet && exists Ps, Xs, i: nat :: Target(TuplesOf(A, P, a), alphabet[a], Ps) && AllPruned(R, Ps, Xs) && i < |Xs| && Xs[i] == S
  }

  /** Steps through the sets of the path lead from T to S. */
  ghost predicate Leading(A: Aut, alphabet: Alphabet, R: Preorder, T: set<State>, path: seq<set<State>>, S: set<State>)
    decreases |path|
  {
    if path == [] then S == T else
      var P := path[|path| - 1];
      Leading(A, alphabet, R, T, path[..|path| - 1], P) && exists a :: StepsTo(A, alphabet, R, P, a, S)
  }

  ghost predicate SetReached(A: Aut, alphabet: Alphabet, R: Preorder, T: set<State>, S: set<State>) {
    exists path :: Leading(A, alphabet, R, T, path, S)
  }

  lemma SetReachedStep(A: Aut, alphabet: Alphabet, R: Preorder, T: set<State>, P: set<State>, a: Symbol, S: set<State>)
    requires SetReached(A, alphabet, R, T, P) && StepsTo(A, alphabet, R, P, a, S)
    ensures SetReached(A, alphabet, R, T, S)
  {
    var path :| Leading(A, alphabet, R, T, path, P);
    assert (path + [P])[..|path|] == path;
    assert Leading(A, alphabet, R, T, path + [P], S);
  }

  /** Stepping from sets of states gives sets of states. */
  lemma StepsInside(A: Aut, alphabet: Alphabet, R: Preorder, P: set<State>, a: Symbol, S: set<State>)
    requires StepsTo(A, alphabet, R, P, a, S)
    ensures S <= A.States()
  {
    var Ps, Xs, i: nat :| Target(TuplesOf(A, P, a), alphabet[a], Ps) && AllPruned(R, Ps, Xs) && i < |Xs| && Xs[i] == S;
    var choice :| ChoiceOf(TuplesOf(A, P, a), alphabet[a], choice) && forall j: nat :: j < alphabet[a] ==> Ps[j] == ChosenAt(choice, j);
    forall s | s in S ensures s in A.States() {
      assert s in ChosenAt(choice, i);
      var r :| r in choice && choice[r] == i && r[i] == s;
      var tr :| tr in A.trans && tr.parent in P && tr.sym == a && tr.kids == r;
      TransitionStates(A, tr);
      assert r[i] in SetOf(r);
    }
  }

  /** The sets that must be numbered when T is. */
  ghost function ReachedSets(A: Aut, alphabet: Alphabet, R: Preorder, T: set<State>): (U: set<set<State>>)
    ensures forall S :: S in U <==> S <= A.States() && SetReached(A, alphabet, R, T, S)
  {
    set S: set<State> | S <= A.States() && SetReached(A, alphabet, R, T, S)
  }

  /** What choices of the tuples W make lies in U. */
  ghost predicate MakesIn(R: Preorder, W: set<seq<State>>, n: nat, U: set<set<State>>) {
    forall Ps, Xs, i: nat {:trigger Target(W, n, Ps), AllPruned(R, Ps, Xs), Xs[i]} ::
      Target(W, n, Ps) && AllPruned(R, Ps, Xs) && i < |Xs| ==> Xs[i] in U
  }

  lemma ReachedClosed(A: Aut, alphabet: Alphabet, R: Preorder, T: set<State>, P: set<State>, a: Symbol)
    requires P in ReachedSets(A, alphabet, R, T) && a in alphabet
    ensures MakesIn(R, TuplesOf(A, P, a), alphabet[a], ReachedSets(A, alphabet, R, T))
  {
    forall Ps, Xs, i: nat | Target(TuplesOf(A, P, a), alphabet[a], Ps) && AllPruned(R, Ps, Xs) && i < |Xs|
      ensures Xs[i] in ReachedSets(A, alphabet, R, T)
    {
      assert StepsTo(A, alphabet, R, P, a, Xs[i]);
      SetReachedStep(A, alphabet, R, T, P, a, Xs[i]);
      StepsInside(A, alphabet, R, P, a, Xs[i]);
    }
  }

  /** The automaton that the construction gives: from the set T of final states, pruned, all sets
      that are reached and no others, each with exactly its rows. */
  ghost predicate IsComplement(A: Aut, alphabet: Alphabet, R: Preorder, cache: StateCache, T: set<State>, D: Aut) {
    && Pruned(R, A.finals, T) && Flat(R, T) && T in cache && cache[T] == 0 && D.finals == {0}
    && Complete(A, alphabet, R, cache, D) && (forall S :: S in cache ==> SetReached(A, alphabet, R, T, S))
    && (forall tr :: tr in D.trans ==> exists P :: P in cache && cache[P] == tr.parent)
  }

  // ---------------------------------------------------------------- choices as vectors

  /** The sets that the vector of positions makes of the listed tuples. */
  function ChosenSets(ws: seq<seq<State>>, cf: seq<nat>, n: nat): (Ps: seq<set<State>>)
    requires |cf| == |ws| && forall k :: 0 <= k < |ws| ==> |ws[k]| == n
    ensures |Ps| == n && forall i :: 0 <= i < n ==> Ps[i] == Chosen(ws, cf, i)
  {
    seq(n, i requires 0 <= i < n => Chosen(ws, cf, i))
  }

  /** A vector of positions is a choice. */
  lemma VectorIsTarget(ws: seq<seq<State>>, cf: seq<nat>, n: nat)
    requires NoDup(ws) && IsChoice(cf, |ws|, n) && forall k :: 0 <= k < |ws| ==> |ws[k]| == n
    ensures Target(SetOf(ws), n, ChosenSets(ws, cf, n))
  {
    var choice: Choice := map r | r in SetOf(ws) :: var k :| 0 <= k < |ws| && ws[k] == r; cf[k];
    forall k | 0 <= k < |ws| ensures ws[k] in choice && choice[ws[k]] == cf[k] {
      assert ws[k] in SetOf(ws);
    }
    assert ChoiceOf(SetOf(ws), n, choice);
    forall i: nat | i < n ensures Chosen(ws, cf, i) == ChosenAt(choice, i) {
      forall s | s in ChosenAt(choice, i) ensures s in Chosen(ws, cf, i) {
        var r :| r in choice && choice[r] == i && r[i] == s;
        var k :| 0 <= k < |ws| && ws[k] == r;
      }
      forall s | s in Chosen(ws, cf, i) ensures s in ChosenAt(choice, i) {
        var k :| 0 <= k < |ws| && cf[k] == i && ws[k][i] == s;
        assert ws[k] in choice;
      }
    }
  }

  /** A choice is a vector of positions. */
  lemma TargetIsVector(ws: seq<seq<State>>, n: nat, Ps: seq<set<State>>) returns (cf: seq<nat>)
    requires Target(SetOf(ws), n, Ps) && forall k :: 0 <= k < |ws| ==> |ws[k]| == n
    ensures IsChoice(cf, |ws|, n) && Ps == ChosenSets(ws, cf, n)
  {
    var choice :| ChoiceOf(SetOf(ws), n, choice) && forall i: nat :: i < n ==> Ps[i] == ChosenAt(choice, i);
    forall k | 0 <= k < |ws| ensures ws[k] in choice {
      assert ws[k] in SetOf(ws);
    }
    cf := seq(|ws|, k requires 0 <= k < |ws| => choice[ws[k]]);
    forall i: nat | i < n ensures Ps[i] == Chosen(ws, cf, i) {
      forall s | s in ChosenAt(choice, i) ensures s in Chosen(ws, cf, i) {
        var r :| r in choice && choice[r] == i && r[i] == s;
        var k :| 0 <= k < |ws| && ws[k] == r;
      }
      forall s | s in Chosen(ws, cf, i) ensures s in ChosenAt(choice, i) {
        var k :| 0 <= k < |ws| && cf[k] == i && ws[k][i] == s;
      }
    }
  }
}
