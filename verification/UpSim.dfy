/** Upward simulation on the states of a tree automaton, and the transition system by which it is
    computed: its states are the states of the automaton, one for the leaves, and the environments
    of the children of transitions. */
module UpSim {
  import opened Collections
  import opened DownSim
  import opened Lts
  import opened TreeAutomata

  /** With q instead of its child at position i, the transition has one that leads higher. */
  ghost predicate Raised(A: Aut, D: Relation, tr: Transition, i: nat, q: State)
    requires i < |tr.kids|
  {
    exists tr' :: tr' in A.trans && tr'.sym == tr.sym && tr'.kids == tr.kids[i := q] && In(tr.parent, tr'.parent, D)
  }

  ghost predicate KeepsFinals(A: Aut, D: Relation) {
    forall p: State, q: State :: In(p, q, D) ==> p in A.States() && q in A.States() && (p in A.finals ==> q in A.finals)
  }

  ghost predicate UpwardSimulation(A: Aut, D: Relation) {
    && KeepsFinals(A, D)
    && (forall tr, i: nat, q: State {:trigger Raised(A, D, tr, i, q)} ::
          tr in A.trans && i < |tr.kids| && In(tr.kids[i], q, D) ==> Raised(A, D, tr, i, q))
  }

  /** q simulates p upward. */
  ghost predicate UpSimilar(A: Aut, p: State, q: State) {
    exists D :: UpwardSimulation(A, D) && In(p, q, D)
  }

  // ---------------------------------------------------------------- transitions that lead elsewhere

  /** Where a transition leads when those with several children are redirected. */
  function Dest(to: map<State, State>, tr: Transition): State {
    if |tr.kids| > 1 && tr.parent in to then to[tr.parent] else tr.parent
  }

  ghost predicate Redirects(A: Aut, to: map<State, State>) {
    forall p :: p in to ==> to[p] in A.States()
  }

  ghost predicate RaisedVia(A: Aut, to: map<State, State>, D: Relation, tr: Transition, i: nat, q: State)
    requires i < |tr.kids|
  {
    exists tr' :: tr' in A.trans && tr'.sym == tr.sym && tr'.kids == tr.kids[i := q] && In(Dest(to, tr), Dest(to, tr'), D)
  }

  ghost predicate UpwardVia(A: Aut, to: map<State, State>, D: Relation) {
    && KeepsFinals(A, D)
    && (forall tr, i: nat, q: State {:trigger RaisedVia(A, to, D, tr, i, q)} ::
          tr in A.trans && i < |tr.kids| && In(tr.kids[i], q, D) ==> RaisedVia(A, to, D, tr, i, q))
  }

  ghost predicate UpSimilarVia(A: Aut, to: map<State, State>, p: State, q: State) {
    exists D :: UpwardVia(A, to, D) && In(p, q, D)
  }

  /** No transition with several children is led away from its parent. */
  ghost predicate StaysPut(A: Aut, to: map<State, State>) {
    forall tr :: tr in A.trans ==> Dest(to, tr) == tr.parent
  }

  /** When nothing is redirected, this is upward simulation. */
  lemma PutIsUpward(A: Aut, to: map<State, State>, p: State, q: State)
    requires StaysPut(A, to)
    ensures UpSimilarVia(A, to, p, q) <==> UpSimilar(A, p, q)
  {
    forall D ensures UpwardVia(A, to, D) <==> UpwardSimulation(A, D) {
      forall tr, i: nat, r: State | tr in A.trans && i < |tr.kids| ensures RaisedVia(A, to, D, tr, i, r) <==> Raised(A, D, tr, i, r) { }
    }
  }

  /** The greatest upward simulation with redirection. */
  ghost function Up(A: Aut, to: map<State, State>): Relation {
    set p, q | p in A.States() && q in A.States() && UpSimilarVia(A, to, p, q) :: (p, q)
  }

  lemma RaisedMore(A: Aut, to: map<State, State>, D: Relation, E: Relation, tr: Transition, i: nat, q: State)
    requires i < |tr.kids| && RaisedVia(A, to, D, tr, i, q) && forall x: State, y: State :: In(x, y, D) ==> In(x, y, E)
    ensures RaisedVia(A, to, E, tr, i, q)
  {
  }

  lemma UpIsSimulation(A: Aut, to: map<State, State>)
    ensures UpwardVia(A, to, Up(A, to)) && forall p: State, q: State :: In(p, q, Up(A, to)) <==> UpSimilarVia(A, to, p, q)
  {
    forall p: State, q: State | UpSimilarVia(A, to, p, q)
      ensures p in A.States() && q in A.States() && (p in A.finals ==> q in A.finals)
    {
      var D :| UpwardVia(A, to, D) && In(p, q, D);
    }
    forall tr, i: nat, q: State | tr in A.trans && i < |tr.kids| && In(tr.kids[i], q, Up(A, to)) ensures RaisedVia(A, to, Up(A, to), tr, i, q) {
      var D :| UpwardVia(A, to, D) && In(tr.kids[i], q, D);
      assert RaisedVia(A, to, D, tr, i, q);
      forall x: State, y: State | In(x, y, D) ensures In(x, y, Up(A, to)) {
        assert UpSimilarVia(A, to, x, y);
      }
      RaisedMore(A, to, D, Up(A, to), tr, i, q);
    }
  }

  lemma DestState(A: Aut, to: map<State, State>, tr: Transition)
    requires tr in A.trans && Redirects(A, to)
    ensures Dest(to, tr) in A.States()
  {
    TransitionStates(A, tr);
  }

  lemma UpReflexive(A: Aut, to: map<State, State>, q: State)
    requires q in A.States() && Redirects(A, to)
    ensures UpSimilarVia(A, to, q, q)
  {
    var D: Relation := set s | s in A.States() :: (s, s);
    forall tr, i: nat, r: State | tr in A.trans && i < |tr.kids| && In(tr.kids[i], r, D) ensures RaisedVia(A, to, D, tr, i, r) {
      DestState(A, to, tr);
      assert tr.kids[i := r] == tr.kids && In(Dest(to, tr), Dest(to, tr), D);
    }
    assert UpwardVia(A, to, D) && In(q, q, D);
  }

  lemma UpTransitive(A: Aut, to: map<State, State>, p: State, q: State, r: State)
    requires UpSimilarVia(A, to, p, q) && UpSimilarVia(A, to, q, r)
    ensures UpSimilarVia(A, to, p, r)
  {
    var D := Up(A, to);
    UpIsSimulation(A, to);
    var E: Relation := set x, y | x in A.States() && y in A.States() && Through(D, D, x, y) :: (x, y);
    forall x: State, y: State | In(x, y, E) ensures x in A.finals ==> y in A.finals {
      assert Through(D, D, x, y);
    }
    forall tr, i: nat, y: State | tr in A.trans && i < |tr.kids| && In(tr.kids[i], y, E) ensures RaisedVia(A, to, E, tr, i, y) {
      assert Through(D, D, tr.kids[i], y);
      var x: State :| In(tr.kids[i], x, D) && In(x, y, D);
      RaisedTwice(A, to, D, E, tr, i, x, y);
    }
    assert Through(D, D, p, r);
    assert UpwardVia(A, to, E) && In(p, r, E);
  }

  lemma RaisedTwice(A: Aut, to: map<State, State>, D: Relation, E: Relation, tr: Transition, i: nat, x: State, y: State)
    requires UpwardVia(A, to, D) && tr in A.trans && i < |tr.kids| && In(tr.kids[i], x, D) && In(x, y, D)
    requires forall u: State, v: State :: u in A.States() && v in A.States() && Through(D, D, u, v) ==> In(u, v, E)
    ensures RaisedVia(A, to, E, tr, i, y)
  {
    assert RaisedVia(A, to, D, tr, i, x);
    var tr1 :| tr1 in A.trans && tr1.sym == tr.sym && tr1.kids == tr.kids[i := x] && In(Dest(to, tr), Dest(to, tr1), D);
    assert RaisedVia(A, to, D, tr1, i, y);
    var tr2 :| tr2 in A.trans && tr2.sym == tr1.sym && tr2.kids == tr1.kids[i := y] && In(Dest(to, tr1), Dest(to, tr2), D);
    assert tr2.kids == tr.kids[i := y];
    assert Through(D, D, Dest(to, tr), Dest(to, tr2));
  }

  // ---------------------------------------------------------------- the system

  /** A transition without its child at one position: the other children, and the numbers of
      symbol and parent. */
  datatype Env = Env(others: seq<State>, index: nat, sym: nat, state: nat)

  function EnvOf(state: map<State, nat>, sym: map<Symbol, nat>, tr: Transition, i: nat): Env
    requires i < |tr.kids| && tr.parent in state && tr.sym in sym
  {
    Env(tr.kids[..i] + tr.kids[i + 1..], i, sym[tr.sym], state[tr.parent])
  }

  predicate SameEnv(e: Env, e': Env) {
    e.others == e'.others && e.index == e'.index && e.sym == e'.sym
  }

  /** Transitions with the same environment differ in one child at most. */
  lemma SameEnvKids(state: map<State, nat>, sym: map<Symbol, nat>, tr: Transition, i: nat, tr': Transition, i': nat)
    requires i < |tr.kids| && tr.parent in state && tr.sym in sym && i' < |tr'.kids| && tr'.parent in state && tr'.sym in sym
    requires DownSim.OneToOne(sym, 0, |sym|)
    ensures SameEnv(EnvOf(state, sym, tr, i), EnvOf(state, sym, tr', i'))
       <==> i == i' && tr'.sym == tr.sym && tr'.kids == tr.kids[i := tr'.kids[i']]
  {
    var e, e' := EnvOf(state, sym, tr, i), EnvOf(state, sym, tr', i');
    if SameEnv(e, e') {
      assert tr.kids == tr.kids[..i] + [tr.kids[i]] + tr.kids[i + 1..];
      assert tr'.kids == tr'.kids[..i] + [tr'.kids[i]] + tr'.kids[i + 1..];
      assert tr.kids[..i] == e.others[..i] && tr'.kids[..i] == e'.others[..i];
      assert tr.kids[i + 1..] == e.others[i..] && tr'.kids[i + 1..] == e'.others[i..];
    }
    if i == i' && tr'.sym == tr.sym && tr'.kids == tr.kids[i := tr'.kids[i']] {
      assert tr.kids[..i] == tr'.kids[..i] && tr.kids[i + 1..] == tr'.kids[i + 1..];
    }
  }

  /** The numbers of the states, of the symbols and of the environments, and the numbers under which
      the numbers of parents were looked up in their turn. */
  datatype UpNumbering = UpNumbering(state: map<State, nat>, sym: map<Symbol, nat>, env: map<Env, nat>, look: map<State, nat>)

  ghost predicate Knows(N: UpNumbering, tr: Transition) {
    && tr.parent in N.state && tr.sym in N.sym && (forall i :: 0 <= i < |tr.kids| ==> tr.kids[i] in N.state)
    && (|tr.kids| > 1 ==> forall i :: 0 <= i < |tr.kids| ==> EnvOf(N.state, N.sym, tr, i) in N.env)
  }

  /** From the node of the leaves, n, to the parent of a leaf transition. */
  ghost predicate LeafEdge(N: UpNumbering, n: nat, T: set<Transition>, x: int, c: int, y: int) {
    exists tr :: tr in T && Knows(N, tr) && tr.kids == [] && x == n && c == N.sym[tr.sym] && y == N.state[tr.parent]
  }

  /** From an only child to the parent. */
  ghost predicate UnaryEdge(N: UpNumbering, T: set<Transition>, x: int, c: int, y: int) {
    exists tr :: tr in T && Knows(N, tr) && |tr.kids| == 1 && x == N.state[tr.kids[0]] && c == N.sym[tr.sym] && y == N.state[tr.parent]
  }

  /** From a child to its environment, under a label of its own. */
  ghost predicate InEdge(N: UpNumbering, T: set<Transition>, x: int, c: int, y: int) {
    exists tr, i: nat :: tr in T && Knows(N, tr) && |tr.kids| > 1 && i < |tr.kids|
      && x == N.state[tr.kids[i]] && c == |N.sym| && y == N.env[EnvOf(N.state, N.sym, tr, i)]
  }

  /** From an environment to where the number of its parent, taken for a state, was looked up. */
  ghost predicate OutEdge(N: UpNumbering, E: set<Env>, x: int, c: int, y: int) {
    exists e :: e in E && e in N.env && e.state in N.look && x == N.env[e] && c == e.sym && y == N.look[e.state]
  }

  ghost predicate EnvOfSome(N: UpNumbering, T: set<Transition>, e: Env) {
    exists tr, i: nat :: tr in T && Knows(N, tr) && |tr.kids| > 1 && i < |tr.kids| && EnvOf(N.state, N.sym, tr, i) == e
  }

  /** The system built from the transitions. */
  ghost predicate UpBuilds(A: Aut, n: nat, N: UpNumbering, l: Lts) {
    && DownSim.OneToOne(N.state, 0, n) && N.state.Keys == A.States() && DownSim.OneToOne(N.sym, 0, |N.sym|)
    && DownSim.OneToOne(N.env, n + 1, l.states) && n < l.states
    && (forall tr :: tr in A.trans ==> Knows(N, tr)) && (forall e :: e in N.env ==> EnvOfSome(N, A.trans, e) && e.state in N.look)
    && (forall x, c, y {:trigger l.Edge(x, c, y)} :: l.Edge(x, c, y) <==>
          LeafEdge(N, n, A.trans, x, c, y) || UnaryEdge(N, A.trans, x, c, y) || InEdge(N, A.trans, x, c, y) || OutEdge(N, N.env.Keys, x, c, y))
  }

  // ---------------------------------------------------------------- the second look-up

  /** From an environment to its parent, as an encoding of the automaton has it. */
  ghost predicate ParentEdge(N: UpNumbering, E: set<Env>, x: int, c: int, y: int) {
    exists e :: e in E && e in N.env && x == N.env[e] && c == e.sym && y == e.state
  }

  /** The look-up does not change the number of any parent of several children. */
  ghost predicate LookFixes(A: Aut, N: UpNumbering) {
    forall tr {:trigger tr in A.trans} :: tr in A.trans && |tr.kids| > 1 ==>
      tr.parent in N.state && N.state[tr.parent] in N.look && N.look[N.state[tr.parent]] == N.state[tr.parent]
  }

  ghost predicate OutEdgesLeadToParents(N: UpNumbering) {
    forall x, c, y {:trigger ParentEdge(N, N.env.Keys, x, c, y)} {:trigger OutEdge(N, N.env.Keys, x, c, y)} ::
      OutEdge(N, N.env.Keys, x, c, y) <==> ParentEdge(N, N.env.Keys, x, c, y)
  }

  /** The edges out of environments are those of the encoding if and only if the look-up does not
      change the number of any parent of several children. */
  lemma OutEdgesExact(A: Aut, n: nat, N: UpNumbering, l: Lts)
    requires UpBuilds(A, n, N, l)
    ensures OutEdgesLeadToParents(N) <==> LookFixes(A, N)
  {
    if LookFixes(A, N) {
      FixedLeads(A, n, N, l);
    }
    if OutEdgesLeadToParents(N) {
      forall tr | tr in A.trans && |tr.kids| > 1
        ensures tr.parent in N.state && N.state[tr.parent] in N.look && N.look[N.state[tr.parent]] == N.state[tr.parent]
      {
        LedIsFixed(A, n, N, l, tr);
      }
    }
  }

  lemma FixedLeads(A: Aut, n: nat, N: UpNumbering, l: Lts)
    requires UpBuilds(A, n, N, l) && LookFixes(A, N)
    ensures OutEdgesLeadToParents(N)
  {
    forall e | e in N.env ensures e.state in N.look && N.look[e.state] == e.state {
      assert EnvOfSome(N, A.trans, e);
      var tr, i: nat :| tr in A.trans && Knows(N, tr) && |tr.kids| > 1 && i < |tr.kids| && EnvOf(N.state, N.sym, tr, i) == e;
    }
    forall x, c, y ensures OutEdge(N, N.env.Keys, x, c, y) <==> ParentEdge(N, N.env.Keys, x, c, y) { }
  }

  lemma LedIsFixed(A: Aut, n: nat, N: UpNumbering, l: Lts, tr: Transition)
    requires UpBuilds(A, n, N, l) && OutEdgesLeadToParents(N) && tr in A.trans && |tr.kids| > 1
    ensures tr.parent in N.state && N.state[tr.parent] in N.look && N.look[N.state[tr.parent]] == N.state[tr.parent]
  {
    assert Knows(N, tr);
    var e := EnvOf(N.state, N.sym, tr, 0);
    assert OutEdge(N, N.env.Keys, N.env[e], e.sym, N.look[e.state]);
    ParentEdgeFrom(A, n, N, l, e, e.sym, N.look[e.state]);
  }

  lemma ParentEdgeFrom(A: Aut, n: nat, N: UpNumbering, l: Lts, e: Env, c: nat, y: nat)
    requires UpBuilds(A, n, N, l) && e in N.env && ParentEdge(N, N.env.Keys, N.env[e], c, y)
    ensures y == e.state
  {
    var f :| f in N.env.Keys && f in N.env && N.env[e] == N.env[f] && c == f.sym && y == f.state;
    assert f == e;
  }

  /** The system leads where the transitions do after redirection. */
  ghost predicate Follows(A: Aut, to: map<State, State>, N: UpNumbering) {
    && Redirects(A, to)
    && forall tr {:trigger tr in A.trans} :: tr in A.trans && |tr.kids| > 1 ==>
         && tr.parent in N.state && N.state[tr.parent] in N.look && Dest(to, tr) in N.state
         && N.look[N.state[tr.parent]] == N.state[Dest(to, tr)]
  }

  // ---------------------------------------------------------------- which nodes may be related

  /** Final states are below final states only, and an environment is related to those that differ
      from it in the parent at most. */
  ghost predicate Admitted(A: Aut, n: nat, N: UpNumbering, x: int, y: int) {
    || (exists p, q :: p in N.state && q in N.state && (p in A.finals ==> q in A.finals) && x == N.state[p] && y == N.state[q])
    || x == y == n
    || (exists e, e' :: e in N.env && e' in N.env && SameEnv(e, e') && x == N.env[e] && y == N.env[e'])
  }

  ghost predicate Admits(A: Aut, n: nat, N: UpNumbering, R: Relation) {
    forall x: nat, y: nat {:trigger Admitted(A, n, N, x, y)} :: In(x, y, R) <==> Admitted(A, n, N, x, y)
  }

  ghost function OnStates(A: Aut, N: UpNumbering, G: Relation): (D: Relation)
    requires N.state.Keys == A.States()
    ensures forall p: State, q: State :: In(p, q, D) <==> p in N.state && q in N.state && In(N.state[p], N.state[q], G)
  {
    set p, q | p in A.States() && q in A.States() && In(N.state[p], N.state[q], G) :: (p, q)
  }

  // ---------------------------------------------------------------- from the system to the automaton

  lemma StateAdmitted(A: Aut, n: nat, N: UpNumbering, l: Lts, p: State, q: State)
    requires UpBuilds(A, n, N, l) && p in N.state && q in N.state && Admitted(A, n, N, N.state[p], N.state[q])
    ensures p in A.finals ==> q in A.finals
  {
  }

  lemma EnvAdmitted(A: Aut, n: nat, N: UpNumbering, l: Lts, e: Env, y: nat) returns (e': Env)
    requires UpBuilds(A, n, N, l) && e in N.env && Admitted(A, n, N, N.env[e], y)
    ensures e' in N.env && y == N.env[e'] && SameEnv(e, e')
  {
    var f, f' :| f in N.env && f' in N.env && SameEnv(f, f') && N.env[e] == N.env[f] && y == N.env[f'];
    e' := f';
  }

  /** From the node of a state, under a symbol: an only child. */
  lemma UnaryMove(A: Aut, n: nat, N: UpNumbering, l: Lts, q: State, a: Symbol, y: nat) returns (tr: Transition)
    requires UpBuilds(A, n, N, l) && q in N.state && a in N.sym && l.Edge(N.state[q], N.sym[a], y)
    ensures tr in A.trans && tr.kids == [q] && tr.sym == a && y == N.state[tr.parent]
  {
    assert UnaryEdge(N, A.trans, N.state[q], N.sym[a], y);
    tr :| tr in A.trans && Knows(N, tr) && |tr.kids| == 1 && N.state[q] == N.state[tr.kids[0]] && N.sym[a] == N.sym[tr.sym] && y == N.state[tr.parent];
  }

  /** From the node of a state, under the last label: a child among others. */
  lemma InMove(A: Aut, n: nat, N: UpNumbering, l: Lts, q: State, y: nat) returns (tr: Transition, i: nat)
    requires UpBuilds(A, n, N, l) && q in N.state && l.Edge(N.state[q], |N.sym|, y)
    ensures tr in A.trans && Knows(N, tr) && |tr.kids| > 1 && i < |tr.kids| && tr.kids[i] == q && y == N.env[EnvOf(N.state, N.sym, tr, i)]
  {
    assert InEdge(N, A.trans, N.state[q], |N.sym|, y);
    tr, i :| tr in A.trans && Knows(N, tr) && |tr.kids| > 1 && i < |tr.kids|
      && N.state[q] == N.state[tr.kids[i]] && y == N.env[EnvOf(N.state, N.sym, tr, i)];
  }

  /** From the node of an environment: one move. */
  lemma OutMove(A: Aut, n: nat, N: UpNumbering, l: Lts, e: Env, c: nat, y: nat)
    requires UpBuilds(A, n, N, l) && e in N.env && l.Edge(N.env[e], c, y)
    ensures e.state in N.look && c == e.sym && y == N.look[e.state]
  {
    assert OutEdge(N, N.env.Keys, N.env[e], c, y);
  }

  /** A simulation inside the admitted pairs is an upward simulation on the states, with the
      transitions redirected as the system leads. */
  lemma RestrictedIsUpward(A: Aut, to: map<State, State>, n: nat, N: UpNumbering, l: Lts, R: Relation, G: Relation)
    requires UpBuilds(A, n, N, l) && Follows(A, to, N) && Admits(A, n, N, R) && l.Simulation(G) && G <= R
    ensures UpwardVia(A, to, OnStates(A, N, G))
  {
    var D := OnStates(A, N, G);
    forall p: State, q: State | In(p, q, D) ensures p in A.finals ==> q in A.finals {
      assert In(N.state[p], N.state[q], R);
      assert Admitted(A, n, N, N.state[p], N.state[q]);
      StateAdmitted(A, n, N, l, p, q);
    }
    forall tr, i: nat, q: State | tr in A.trans && i < |tr.kids| && In(tr.kids[i], q, D) ensures RaisedVia(A, to, D, tr, i, q) {
      assert Knows(N, tr);
      if |tr.kids| == 1 {
        UnaryRaised(A, to, n, N, l, G, tr, q);
      } else {
        EnvRaised(A, to, n, N, l, R, G, tr, i, q);
      }
    }
  }

  lemma UnaryRaised(A: Aut, to: map<State, State>, n: nat, N: UpNumbering, l: Lts, G: Relation, tr: Transition, q: State)
    requires UpBuilds(A, n, N, l) && l.Simulation(G) && tr in A.trans && |tr.kids| == 1 && Knows(N, tr)
    requires q in N.state && In(N.state[tr.kids[0]], N.state[q], G)
    ensures RaisedVia(A, to, OnStates(A, N, G), tr, 0, q)
  {
    var x, c, y := N.state[tr.kids[0]], N.sym[tr.sym], N.state[tr.parent];
    assert UnaryEdge(N, A.trans, x, c, y);
    assert l.Edge(x, c, y) && l.Answers(N.state[q], c, y, G);
    var y' :| l.Edge(N.state[q], c, y') && In(y, y', G);
    var tr' := UnaryMove(A, n, N, l, q, tr.sym, y');
    assert tr'.kids == tr.kids[0 := q];
  }

  lemma EnvRaised(A: Aut, to: map<State, State>, n: nat, N: UpNumbering, l: Lts, R: Relation, G: Relation, tr: Transition, i: nat, q: State)
    requires UpBuilds(A, n, N, l) && Follows(A, to, N) && Admits(A, n, N, R) && l.Simulation(G) && G <= R
    requires tr in A.trans && |tr.kids| > 1 && i < |tr.kids| && Knows(N, tr) && q in N.state && In(N.state[tr.kids[i]], N.state[q], G)
    ensures RaisedVia(A, to, OnStates(A, N, G), tr, i, q)
  {
    var e := EnvOf(N.state, N.sym, tr, i);
    var tr', i' := EnvAnswer(A, n, N, l, G, tr, i, q);
    var e' := EnvOf(N.state, N.sym, tr', i');
    assert In(N.env[e], N.env[e'], R) && Admitted(A, n, N, N.env[e], N.env[e']);
    var f := EnvAdmitted(A, n, N, l, e, N.env[e']);
    assert f == e';
    SameEnvKids(N.state, N.sym, tr, i, tr', i');
    EnvParents(A, n, N, l, G, e, e');
  }

  lemma EnvAnswer(A: Aut, n: nat, N: UpNumbering, l: Lts, G: Relation, tr: Transition, i: nat, q: State)
    returns (tr': Transition, i': nat)
    requires UpBuilds(A, n, N, l) && l.Simulation(G)
    requires tr in A.trans && |tr.kids| > 1 && i < |tr.kids| && Knows(N, tr) && q in N.state && In(N.state[tr.kids[i]], N.state[q], G)
    ensures tr' in A.trans && Knows(N, tr') && |tr'.kids| > 1 && i' < |tr'.kids| && tr'.kids[i'] == q
    ensures In(N.env[EnvOf(N.state, N.sym, tr, i)], N.env[EnvOf(N.state, N.sym, tr', i')], G)
  {
    var x, c, y := N.state[tr.kids[i]], |N.sym|, N.env[EnvOf(N.state, N.sym, tr, i)];
    assert InEdge(N, A.trans, x, c, y);
    assert l.Edge(x, c, y) && l.Answers(N.state[q], c, y, G);
    var y' :| l.Edge(N.state[q], c, y') && In(y, y', G);
    tr', i' := InMove(A, n, N, l, q, y');
  }

  lemma EnvParents(A: Aut, n: nat, N: UpNumbering, l: Lts, G: Relation, e: Env, e': Env)
    requires UpBuilds(A, n, N, l) && l.Simulation(G) && e in N.env && e' in N.env && In(N.env[e], N.env[e'], G)
    ensures e.state in N.look && e'.state in N.look && In(N.look[e.state], N.look[e'.state], G)
  {
    var c, y := e.sym, N.look[e.state];
    assert OutEdge(N, N.env.Keys, N.env[e], c, y);
    assert l.Edge(N.env[e], c, y) && l.Answers(N.env[e'], c, y, G);
    var y' :| l.Edge(N.env[e'], c, y') && In(y, y', G);
    OutMove(A, n, N, l, e', c, y');
  }

  // ---------------------------------------------------------------- and back

  /** The environments lead to related states. */
  ghost predicate LeadRelated(N: UpNumbering, D: Relation, e: Env, e': Env) {
    && e.state in N.look && e'.state in N.look
    && exists p, p' :: p in N.state && p' in N.state && In(p, p', D) && N.look[e.state] == N.state[p] && N.look[e'.state] == N.state[p']
  }

  /** Pairs of nodes of related states, the node of the leaves, and environments that lead to related states. */
  ghost predicate LiftedPair(n: nat, N: UpNumbering, D: Relation, x: int, y: int) {
    || (exists p, q :: p in N.state && q in N.state && In(p, q, D) && x == N.state[p] && y == N.state[q])
    || x == y == n
    || (exists e, e' :: e in N.env && e' in N.env && SameEnv(e, e') && LeadRelated(N, D, e, e') && x == N.env[e] && y == N.env[e'])
  }

  ghost function Lifted(n: nat, N: UpNumbering, D: Relation, states: nat): (G: Relation)
    ensures forall x: nat, y: nat :: In(x, y, G) <==> x < states && y < states && LiftedPair(n, N, D, x, y)
  {
    set x: nat, y: nat | x in Below(states) && y in Below(states) && LiftedPair(n, N, D, x, y) :: (x, y)
  }

  lemma LiftedIsSimulation(A: Aut, to: map<State, State>, n: nat, N: UpNumbering, l: Lts, D: Relation)
    requires UpBuilds(A, n, N, l) && Follows(A, to, N) && UpwardVia(A, to, D) && forall q :: q in A.States() ==> In(q, q, D)
    ensures l.Simulation(Lifted(n, N, D, l.states))
  {
    var G := Lifted(n, N, D, l.states);
    forall x, y, c, z | In(x, y, G) && l.Edge(x, c, z) ensures l.Answers(y, c, z, G) {
      assert LiftedPair(n, N, D, x, y);
      if p, q :| p in N.state && q in N.state && In(p, q, D) && x == N.state[p] && y == N.state[q] {
        StateAnswers(A, to, n, N, l, D, p, q, c, z);
      } else if x == y == n {
        LeafAnswers(A, n, N, l, D, c, z);
      } else {
        var e, e' :| e in N.env && e' in N.env && SameEnv(e, e') && LeadRelated(N, D, e, e') && x == N.env[e] && y == N.env[e'];
        EnvAnswers(A, n, N, l, D, e, e', c, z);
      }
    }
  }

  lemma LeafAnswers(A: Aut, n: nat, N: UpNumbering, l: Lts, D: Relation, c: int, z: int)
    requires UpBuilds(A, n, N, l) && (forall q :: q in A.States() ==> In(q, q, D)) && l.Edge(n, c, z)
    ensures l.Answers(n, c, z, Lifted(n, N, D, l.states))
  {
    assert LeafEdge(N, n, A.trans, n, c, z);
    var tr :| tr in A.trans && Knows(N, tr) && tr.kids == [] && c == N.sym[tr.sym] && z == N.state[tr.parent];
    assert In(tr.parent, tr.parent, D) && LiftedPair(n, N, D, z, z);
  }

  lemma EnvAnswers(A: Aut, n: nat, N: UpNumbering, l: Lts, D: Relation, e: Env, e': Env, c: int, z: int)
    requires UpBuilds(A, n, N, l) && e in N.env && e' in N.env && SameEnv(e, e') && LeadRelated(N, D, e, e')
    requires l.Edge(N.env[e], c, z)
    ensures l.Answers(N.env[e'], c, z, Lifted(n, N, D, l.states))
  {
    OutMove(A, n, N, l, e, c, z);
    var z' := N.look[e'.state];
    assert OutEdge(N, N.env.Keys, N.env[e'], c, z');
    assert l.Edge(N.env[e'], c, z') && LiftedPair(n, N, D, z, z');
  }

  lemma StateAnswers(A: Aut, to: map<State, State>, n: nat, N: UpNumbering, l: Lts, D: Relation, p: State, q: State, c: int, z: int)
    requires UpBuilds(A, n, N, l) && Follows(A, to, N) && UpwardVia(A, to, D) && p in N.state && q in N.state && In(p, q, D)
    requires l.Edge(N.state[p], c, z)
    ensures l.Answers(N.state[q], c, z, Lifted(n, N, D, l.states))
  {
    if UnaryEdge(N, A.trans, N.state[p], c, z) {
      var tr :| tr in A.trans && Knows(N, tr) && |tr.kids| == 1 && N.state[p] == N.state[tr.kids[0]] && c == N.sym[tr.sym] && z == N.state[tr.parent];
      assert RaisedVia(A, to, D, tr, 0, q);
      var tr' :| tr' in A.trans && tr'.sym == tr.sym && tr'.kids == tr.kids[0 := q] && In(Dest(to, tr), Dest(to, tr'), D);
      assert Knows(N, tr');
      var z' := N.state[tr'.parent];
      assert UnaryEdge(N, A.trans, N.state[q], c, z');
      assert l.Edge(N.state[q], c, z') && LiftedPair(n, N, D, z, z');
    } else {
      assert InEdge(N, A.trans, N.state[p], c, z);
      var tr, i: nat :| tr in A.trans && Knows(N, tr) && |tr.kids| > 1 && i < |tr.kids|
        && N.state[p] == N.state[tr.kids[i]] && c == |N.sym| && z == N.env[EnvOf(N.state, N.sym, tr, i)];
      InAnswers(A, to, n, N, l, D, tr, i, q);
    }
  }

  lemma InAnswers(A: Aut, to: map<State, State>, n: nat, N: UpNumbering, l: Lts, D: Relation, tr: Transition, i: nat, q: State)
    requires UpBuilds(A, n, N, l) && Follows(A, to, N) && UpwardVia(A, to, D)
    requires tr in A.trans && Knows(N, tr) && |tr.kids| > 1 && i < |tr.kids| && q in N.state && In(tr.kids[i], q, D)
    ensures l.Answers(N.state[q], |N.sym|, N.env[EnvOf(N.state, N.sym, tr, i)], Lifted(n, N, D, l.states))
  {
    assert RaisedVia(A, to, D, tr, i, q);
    var tr' :| tr' in A.trans && tr'.sym == tr.sym && tr'.kids == tr.kids[i := q] && In(Dest(to, tr), Dest(to, tr'), D);
    assert Knows(N, tr');
    SameEnvKids(N.state, N.sym, tr, i, tr', i);
    var e, e' := EnvOf(N.state, N.sym, tr, i), EnvOf(N.state, N.sym, tr', i);
    assert LeadRelated(N, D, e, e');
    assert InEdge(N, A.trans, N.state[q], |N.sym|, N.env[e']);
    assert l.Edge(N.state[q], |N.sym|, N.env[e']) && LiftedPair(n, N, D, N.env[e], N.env[e']);
  }

  lemma LiftedAdmitted(A: Aut, to: map<State, State>, n: nat, N: UpNumbering, l: Lts, D: Relation, R: Relation)
    requires UpBuilds(A, n, N, l) && UpwardVia(A, to, D) && Admits(A, n, N, R)
    ensures Lifted(n, N, D, l.states) <= R
  {
    forall xy | xy in Lifted(n, N, D, l.states) ensures xy in R {
      assert In(xy.0, xy.1, Lifted(n, N, D, l.states)) && LiftedPair(n, N, D, xy.0, xy.1);
      assert Admitted(A, n, N, xy.0, xy.1);
      assert In(xy.0, xy.1, R);
    }
  }

  /** The greatest simulation of the transition system inside the admitted pairs, seen on the states,
      is upward similarity, with the transitions redirected as the system leads. */
  lemma UpSystemExact(A: Aut, to: map<State, State>, n: nat, N: UpNumbering, l: Lts, R: Relation, p: State, q: State)
    requires UpBuilds(A, n, N, l) && Follows(A, to, N) && Admits(A, n, N, R) && p in N.state && q in N.state
    ensures In(N.state[p], N.state[q], l.Greatest(R)) <==> UpSimilarVia(A, to, p, q)
  {
    var G := l.Greatest(R);
    l.GreatestIsSimulation(R);
    if In(N.state[p], N.state[q], G) {
      RestrictedIsUpward(A, to, n, N, l, R, G);
      assert In(p, q, OnStates(A, N, G));
    }
    if UpSimilarVia(A, to, p, q) {
      var D := Up(A, to);
      UpIsSimulation(A, to);
      forall s | s in A.States() ensures In(s, s, D) {
        UpReflexive(A, to, s);
      }
      var S := Lifted(n, N, D, l.states);
      LiftedIsSimulation(A, to, n, N, l, D);
      LiftedAdmitted(A, to, n, N, l, D, R);
      assert LiftedPair(n, N, D, N.state[p], N.state[q]);
      assert In(N.state[p], N.state[q], S);
      assert S <= G;
    }
  }

  /** When the look-up does not change the number of any parent of several children, the system
      encodes the automaton: what is computed is upward similarity. */
  lemma UpEncodingFaithful(A: Aut, n: nat, N: UpNumbering, l: Lts, R: Relation, p: State, q: State)
    requires UpBuilds(A, n, N, l) && LookFixes(A, N) && Admits(A, n, N, R) && p in N.state && q in N.state
    ensures In(N.state[p], N.state[q], l.Greatest(R)) <==> UpSimilar(A, p, q)
  {
    assert Follows(A, map[], N);
    UpSystemExact(A, map[], n, N, l, R, p, q);
    PutIsUpward(A, map[], p, q);
  }

  /** The states are the numbers, and the look-up knows them. */
  ghost predicate NumbersAreStates(N: UpNumbering) {
    forall x :: x in N.state ==> N.state[x] in N.state && x in N.look && N.look[x] == N.state[x]
  }

  /** Then the system leads to the number of the parent, as to a state. */
  lemma NumbersFollow(A: Aut, n: nat, N: UpNumbering, l: Lts)
    requires UpBuilds(A, n, N, l) && NumbersAreStates(N)
    ensures Follows(A, N.state, N)
  {
    forall tr | tr in A.trans && |tr.kids| > 1
      ensures tr.parent in N.state && N.state[tr.parent] in N.look && Dest(N.state, tr) in N.state
      ensures N.look[N.state[tr.parent]] == N.state[Dest(N.state, tr)]
    {
      assert Knows(N, tr);
    }
  }
}
