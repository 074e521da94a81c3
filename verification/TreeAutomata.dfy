/** Finite tree automata and the languages they accept: the vocabulary shared by
    the inclusion checks, the constructions on automata and the simulation quotient. */
module TreeAutomata {

  import opened Collections

  type State = nat
  type Symbol = nat

  datatype Tree = Node(sym: Symbol, kids: seq<Tree>)

  datatype Transition = Transition(parent: State, sym: Symbol, kids: seq<State>)

  datatype Aut = Aut(finals: set<State>, trans: set<Transition>) {

    /** The keys of the map from states to transition clusters. */
    function Parents(): set<State> {
      set tr | tr in trans :: tr.parent
    }

    function States(): set<State> {
      finals + Parents() + set tr, i | tr in trans && 0 <= i < |tr.kids| :: tr.kids[i]
    }

    /** The tuples that the cluster of q holds under symbol a. */
    function Tuples(q: State, a: Symbol): set<seq<State>> {
      set tr | tr in trans && tr.parent == q && tr.sym == a :: tr.kids
    }

    /** The symbols that the cluster of q holds. */
    function Symbols(q: State): set<Symbol> {
      set tr | tr in trans && tr.parent == q :: tr.sym
    }

    /** Some run on t has q at the root. */
    ghost predicate Accepts(q: State, t: Tree)
      decreases t
    {
      exists tr :: tr in trans && tr.parent == q && tr.sym == t.sym && |tr.kids| == |t.kids|
        && forall i :: 0 <= i < |t.kids| ==> Accepts(tr.kids[i], t.kids[i])
    }

    /** Transition tr can be applied at the root of t to reach q. */
    ghost predicate Step(tr: Transition, q: State, t: Tree) {
      tr in trans && tr.parent == q && tr.sym == t.sym && AcceptsAll(tr.kids, t.kids)
    }

    ghost predicate AcceptsAll(qs: seq<State>, ts: seq<Tree>) {
      |qs| == |ts| && forall i :: 0 <= i < |qs| ==> Accepts(qs[i], ts[i])
    }

    lemma Unfold(q: State, t: Tree)
      ensures Accepts(q, t) <==> exists tr :: Step(tr, q, t)
    {
      if Accepts(q, t) {
        var tr :| tr in trans && tr.parent == q && tr.sym == t.sym && |tr.kids| == |t.kids|
          && forall i :: 0 <= i < |t.kids| ==> Accepts(tr.kids[i], t.kids[i]);
        assert Step(tr, q, t);
      }
    }

    ghost predicate InLang(t: Tree) {
      exists q :: q in finals && Accepts(q, t)
    }

    ghost predicate AcceptsSome(Q: set<State>, t: Tree) {
      exists q :: q in Q && Accepts(q, t)
    }

    /** q labels the root of some run. */
    ghost predicate Productive(q: State) {
      exists t :: Accepts(q, t)
    }

    /** Some run on t with p at the root uses the state q. */
    ghost predicate RunUses(p: State, t: Tree, q: State)
      decreases t
    {
      Accepts(p, t)
      && (p == q
          || exists tr, i :: Step(tr, p, t) && 0 <= i < |t.kids| && RunUses(tr.kids[i], t.kids[i], q))
    }

    /** Some run on t with p at the root takes the transition tr. */
    ghost predicate RunTakes(p: State, t: Tree, tr: Transition)
      decreases t
    {
      Accepts(p, t)
      && (Step(tr, p, t)
          || exists tr', i :: Step(tr', p, t) && 0 <= i < |t.kids| && RunTakes(tr'.kids[i], t.kids[i], tr))
    }

    /** tr occurs in some accepting run. */
    ghost predicate Used(tr: Transition) {
      exists p, t :: p in finals && RunTakes(p, t, tr)
    }

    /** q occurs in some accepting run. */
    ghost predicate Useful(q: State) {
      exists p, t :: p in finals && RunUses(p, t, q)
    }

    /** Every state occurs in some accepting run. */
    ghost predicate Trimmed() {
      forall q :: q in States() ==> Useful(q)
    }
  }

  /** Some tree that the productive state q accepts. */
  ghost function SomeTree(A: Aut, q: State): (t: Tree)
    requires A.Productive(q)
    ensures A.Accepts(q, t)
  {
    var t :| A.Accepts(q, t); t
  }

  /** The alphabet is ranked: every transition has as many children as its symbol demands. */
  ghost predicate Ranked(trans: set<Transition>, rank: Symbol -> nat) {
    forall tr :: tr in trans ==> |tr.kids| == rank(tr.sym)
  }

  /** Every child of a transition is the root of some run. */
  ghost predicate ProductiveKids(A: Aut) {
    forall tr :: tr in A.trans ==> forall k :: k in tr.kids ==> A.Productive(k)
  }

  ghost predicate DisjointStates(A: Aut, B: Aut) {
    A.States() !! B.States()
  }

  lemma TransitionStates(A: Aut, tr: Transition)
    requires tr in A.trans
    ensures tr.parent in A.States() && SetOf(tr.kids) <= A.States()
  {
    forall k | k in tr.kids ensures k in A.States() {
      var i :| 0 <= i < |tr.kids| && tr.kids[i] == k;
    }
  }

  ghost predicate SameLang(A: Aut, B: Aut) {
    forall t :: A.InLang(t) <==> B.InLang(t)
  }

  ghost predicate Included(A: Aut, B: Aut) {
    forall t :: A.InLang(t) ==> B.InLang(t)
  }
}
