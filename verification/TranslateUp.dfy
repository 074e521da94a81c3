/** Builds the transition system that encodes a tree automaton upward, with the partition and the
    relation on its classes from which simulation starts. */
module TranslateUp {
  import opened Collections
  import opened Lts
  import opened LtsInit
  import opened Translators
  import opened TreeAutomata
  import opened UpSim
  import DownSim

  type Triple = (nat, nat, nat)

  // ---------------------------------------------------------------- environments

  /** The numbers of the environments, the next number, and the classes of environments that
      differ in the parent at most, each with its first member. */
  datatype Envs = Envs(env: map<Env, nat>, cnt: nat, head: seq<Env>, blocks: seq<seq<nat>>)

  ghost predicate InClass(env: map<Env, nat>, h: Env, x: nat) {
    exists e :: e in env && env[e] == x && SameEnv(h, e)
  }

  ghost predicate ClassIs(env: map<Env, nat>, h: Env, block: seq<nat>) {
    block != [] && NoDup(block) && forall x :: x in block <==> InClass(env, h, x)
  }

  ghost predicate HasHead(head: seq<Env>, e: Env) {
    exists i :: 0 <= i < |head| && SameEnv(head[i], e)
  }

  /** Some environment has the number. */
  ghost predicate GivenEnv(env: map<Env, nat>, x: nat) {
    exists e :: e in env && env[e] == x
  }

  /** Some state has the number. */
  ghost predicate GivenState(state: map<State, nat>, x: nat) {
    exists q :: q in state && state[q] == x
  }

  ghost predicate Dense(env: map<Env, nat>, lo: nat, cnt: nat) {
    && lo <= cnt == lo + |env| && DownSim.OneToOne(env, lo, cnt)
    && forall x: nat {:trigger GivenEnv(env, x)} :: lo <= x < cnt ==> GivenEnv(env, x)
  }

  ghost predicate AllApart(head: seq<Env>) {
    forall i, j {:trigger SameEnv(head[i], head[j])} :: 0 <= i < |head| && 0 <= j < |head| && SameEnv(head[i], head[j]) ==> i == j
  }

  ghost predicate EnvsOk(E: Envs, lo: nat) {
    && Dense(E.env, lo, E.cnt) && |E.head| == |E.blocks|
    && (forall i {:trigger E.blocks[i]} :: 0 <= i < |E.head| ==> ClassIs(E.env, E.head[i], E.blocks[i]))
    && AllApart(E.head)
    && (forall e :: e in E.env ==> HasHead(E.head, e))
  }

  lemma DenseMore(env: map<Env, nat>, lo: nat, cnt: nat, e: Env)
    requires Dense(env, lo, cnt) && e !in env
    ensures Dense(env[e := cnt], lo, cnt + 1)
  {
    var env' := env[e := cnt];
    forall x: nat | lo <= x < cnt + 1 ensures GivenEnv(env', x) {
      if x == cnt {
        assert env'[e] == x;
      } else {
        assert GivenEnv(env, x);
        var f :| f in env && env[f] == x;
        assert f in env' && env'[f] == x;
      }
    }
  }

  /** The class of the new environment gains its number, others stay. */
  lemma ClassMore(env: map<Env, nat>, lo: nat, cnt: nat, e: Env, h: Env, block: seq<nat>)
    requires Dense(env, lo, cnt) && e !in env && ClassIs(env, h, block)
    ensures ClassIs(env[e := cnt], h, if SameEnv(h, e) then block + [cnt] else block)
  {
    var env' := env[e := cnt];
    forall x ensures InClass(env', h, x) <==> InClass(env, h, x) || (x == cnt && SameEnv(h, e)) {
      if InClass(env, h, x) {
        var f :| f in env && env[f] == x && SameEnv(h, f);
        assert f in env' && env'[f] == x;
      }
      if x == cnt && SameEnv(h, e) { assert env'[e] == x; }
    }
    assert cnt in block <==> InClass(env, h, cnt);
    assert !InClass(env, h, cnt);
    NoDupAppend(block, cnt);
  }

  /** A class of its own. */
  lemma ClassNew(env: map<Env, nat>, lo: nat, cnt: nat, head: seq<Env>, e: Env)
    requires Dense(env, lo, cnt) && e !in env && !HasHead(head, e) && forall f :: f in env ==> HasHead(head, f)
    ensures ClassIs(env[e := cnt], e, [cnt])
  {
    var env' := env[e := cnt];
    assert env'[e] == cnt && SameEnv(e, e);
    forall x | InClass(env', e, x) ensures x == cnt {
      var f :| f in env' && env'[f] == x && SameEnv(e, f);
      HeadShared(head, f, e);
    }
  }

  lemma HeadShared(head: seq<Env>, f: Env, e: Env)
    ensures HasHead(head, f) && SameEnv(e, f) ==> HasHead(head, e)
  {
    if i :| 0 <= i < |head| && SameEnv(head[i], f) && SameEnv(e, f) {
      assert SameEnv(head[i], e);
    }
  }

  ghost predicate Gains(env: map<Env, nat>, env': map<Env, nat>, e: Env) {
    env'.Keys == env.Keys + {e} && forall f :: f in env ==> env'[f] == env[f]
  }

  /** The number of an environment; a new one joins the class with the same environment, or starts one. */
  method NumberEnv(E: Envs, e: Env, ghost lo: nat) returns (E': Envs, k: nat)
    requires EnvsOk(E, lo)
    ensures EnvsOk(E', lo) && Gains(E.env, E'.env, e) && E'.env[e] == k && k < E'.cnt && E.cnt <= E'.cnt
  {
    if e in E.env {
      return E, E.env[e];
    }
    k := E.cnt;
    var i := 0;
    while i < |E.head| && !SameEnv(E.head[i], e)
      invariant 0 <= i <= |E.head| && forall j :: 0 <= j < i ==> !SameEnv(E.head[j], e)
    {
      i := i + 1;
    }
    var env := E.env[e := k];
    if i < |E.head| {
      E' := Envs(env, k + 1, E.head, E.blocks[i := E.blocks[i] + [k]]);
    } else {
      E' := Envs(env, k + 1, E.head + [e], E.blocks + [[k]]);
    }
    EnvsMore(E, lo, e, i, E');
  }

  lemma EnvsMore(E: Envs, lo: nat, e: Env, i: nat, E': Envs)
    requires EnvsOk(E, lo) && e !in E.env && i <= |E.head| && (forall j :: 0 <= j < i ==> !SameEnv(E.head[j], e))
    requires i < |E.head| ==> SameEnv(E.head[i], e) && E' == Envs(E.env[e := E.cnt], E.cnt + 1, E.head, E.blocks[i := E.blocks[i] + [E.cnt]])
    requires i == |E.head| ==> E' == Envs(E.env[e := E.cnt], E.cnt + 1, E.head + [e], E.blocks + [[E.cnt]])
    ensures EnvsOk(E', lo)
  {
    DenseMore(E.env, lo, E.cnt, e);
    forall j | 0 <= j < |E'.head| ensures ClassIs(E'.env, E'.head[j], E'.blocks[j]) {
      if j < |E.head| {
        ClassMore(E.env, lo, E.cnt, e, E.head[j], E.blocks[j]);
        assert i < |E.head| && SameEnv(E.head[j], e) ==> SameEnv(E.head[i], E.head[j]);
      } else {
        ClassNew(E.env, lo, E.cnt, E.head, e);
      }
    }
    forall f | f in E'.env ensures HasHead(E'.head, f) {
      if f == e {
        assert SameEnv(E'.head[i], e);
      } else {
        assert HasHead(E.head, f);
        var j :| 0 <= j < |E.head| && SameEnv(E.head[j], f);
        assert E'.head[j] == E.head[j];
      }
    }
  }

  // ---------------------------------------------------------------- edges

  ghost predicate KnowsTo(N: UpNumbering, tr: Transition, k: nat) {
    && k <= |tr.kids| && tr.parent in N.state && tr.sym in N.sym
    && forall i :: 0 <= i < k ==> tr.kids[i] in N.state && EnvOf(N.state, N.sym, tr, i) in N.env
  }

  /** The edges from the first k children to their environments. */
  ghost function InEdges(N: UpNumbering, tr: Transition, k: nat): set<Triple>
    requires KnowsTo(N, tr, k)
  {
    set i | 0 <= i < k :: (N.state[tr.kids[i]], |N.sym|, N.env[EnvOf(N.state, N.sym, tr, i)])
  }

  ghost function TransEdges(N: UpNumbering, n: nat, tr: Transition): set<Triple>
    requires Knows(N, tr)
  {
    if tr.kids == [] then {(n, N.sym[tr.sym], N.state[tr.parent])}
    else if |tr.kids| == 1 then {(N.state[tr.kids[0]], N.sym[tr.sym], N.state[tr.parent])}
    else InEdges(N, tr, |tr.kids|)
  }

  ghost predicate SomeEdge(N: UpNumbering, n: nat, T: set<Transition>, e: Triple) {
    exists tr :: tr in T && Knows(N, tr) && e in TransEdges(N, n, tr)
  }

  /** The edges are those of the transitions T. */
  ghost predicate EdgesAre(edges: multiset<Triple>, N: UpNumbering, n: nat, T: set<Transition>) {
    (forall tr :: tr in T ==> Knows(N, tr)) && forall e :: e in edges <==> SomeEdge(N, n, T, e)
  }

  ghost predicate EnvGrows(N: UpNumbering, N': UpNumbering) {
    N'.state == N.state && N'.sym == N.sym && forall e :: e in N.env ==> e in N'.env && N'.env[e] == N.env[e]
  }

  lemma TransStays(N: UpNumbering, N': UpNumbering, n: nat, tr: Transition)
    requires EnvGrows(N, N') && Knows(N, tr)
    ensures Knows(N', tr) && TransEdges(N', n, tr) == TransEdges(N, n, tr)
  {
    if |tr.kids| > 1 {
      forall i | 0 <= i < |tr.kids| ensures N'.env[EnvOf(N'.state, N'.sym, tr, i)] == N.env[EnvOf(N.state, N.sym, tr, i)] { }
    }
  }

  lemma OneMore(edges: multiset<Triple>, N: UpNumbering, n: nat, T: set<Transition>, tr: Transition, edges': multiset<Triple>)
    requires EdgesAre(edges, N, n, T) && Knows(N, tr) && forall e :: e in edges' <==> e in edges || e in TransEdges(N, n, tr)
    ensures EdgesAre(edges', N, n, T + {tr})
  {
    forall e ensures SomeEdge(N, n, T + {tr}, e) <==> SomeEdge(N, n, T, e) || e in TransEdges(N, n, tr) {
      if SomeEdge(N, n, T, e) {
        var t :| t in T && Knows(N, t) && e in TransEdges(N, n, t);
        assert t in T + {tr};
      }
      if e in TransEdges(N, n, tr) { assert tr in T + {tr}; }
    }
  }

  /** The edges are those of the transitions T, and of the first k children of tr. */
  ghost predicate EdgesTo(edges: multiset<Triple>, N: UpNumbering, n: nat, T: set<Transition>, tr: Transition, k: nat) {
    && (forall t :: t in T ==> Knows(N, t)) && KnowsTo(N, tr, k)
    && forall e :: e in edges <==> SomeEdge(N, n, T, e) || e in InEdges(N, tr, k)
  }

  lemma ChildAdded(edges: multiset<Triple>, N: UpNumbering, N': UpNumbering, n: nat, T: set<Transition>, tr: Transition, k: nat)
    requires EdgesTo(edges, N, n, T, tr, k) && EnvGrows(N, N') && KnowsTo(N', tr, k + 1)
    ensures EdgesTo(edges + multiset{(N'.state[tr.kids[k]], |N'.sym|, N'.env[EnvOf(N'.state, N'.sym, tr, k)])}, N', n, T, tr, k + 1)
  {
    forall t | t in T ensures Knows(N', t) && TransEdges(N', n, t) == TransEdges(N, n, t) {
      TransStays(N, N', n, t);
    }
    forall e ensures SomeEdge(N', n, T, e) <==> SomeEdge(N, n, T, e) { }
    forall e ensures e in InEdges(N', tr, k + 1) <==> e in InEdges(N, tr, k) || e == (N'.state[tr.kids[k]], |N'.sym|, N'.env[EnvOf(N'.state, N'.sym, tr, k)]) {
      if e in InEdges(N, tr, k) {
        var i :| 0 <= i < k && e == (N.state[tr.kids[i]], |N.sym|, N.env[EnvOf(N.state, N.sym, tr, i)]);
        assert e == (N'.state[tr.kids[i]], |N'.sym|, N'.env[EnvOf(N'.state, N'.sym, tr, i)]);
      }
    }
  }

  // ---------------------------------------------------------------- the translation

  /** What the first pass has fixed: numbers of states and symbols. */
  ghost predicate Fixed(A: Aut, n: nat, state: map<State, nat>, sym: map<Symbol, nat>) {
    && state.Keys == A.States() == A.Parents() && |state| == n && DownSim.OneToOne(state, 0, n)
    && (forall x: nat {:trigger GivenState(state, x)} :: x < n ==> GivenState(state, x))
    && DownSim.OneToOne(sym, 0, |sym|) && forall tr :: tr in A.trans ==> tr.sym in sym
  }

  /** The states and the symbol of the transition have numbers. */
  ghost predicate Usable(state: map<State, nat>, sym: map<Symbol, nat>, n: nat, tr: Transition) {
    && tr.parent in state && tr.sym in sym && state[tr.parent] < n
    && forall i :: 0 <= i < |tr.kids| ==> tr.kids[i] in state && state[tr.kids[i]] < n
  }

  lemma AllUsable(A: Aut, n: nat, state: map<State, nat>, sym: map<Symbol, nat>)
    requires Fixed(A, n, state, sym)
    ensures forall tr :: tr in A.trans ==> Usable(state, sym, n, tr)
  {
    forall tr | tr in A.trans ensures Usable(state, sym, n, tr) {
      TransitionStates(A, tr);
      assert forall i :: 0 <= i < |tr.kids| ==> tr.kids[i] in SetOf(tr.kids);
    }
  }

  ghost function Num(state: map<State, nat>, sym: map<Symbol, nat>, E: Envs): UpNumbering {
    UpNumbering(state, sym, E.env, state)
  }

  /** The environments of the first k children. */
  ghost function KidEnvs(state: map<State, nat>, sym: map<Symbol, nat>, tr: Transition, k: nat): set<Env>
    requires tr.parent in state && tr.sym in sym && k <= |tr.kids|
  {
    set i | 0 <= i < k :: EnvOf(state, sym, tr, i)
  }

  /** The edges of a transition with several children, and the numbers of their environments. */
  method AddChildren(lts: ExplicitLTS, state: map<State, nat>, sym: map<Symbol, nat>, n: nat, E: Envs, tr: Transition, ghost T: set<Transition>)
    returns (E': Envs)
    requires lts.Valid() && EnvsOk(E, n + 1) && EdgesAre(lts.edges, Num(state, sym, E), n, T) && lts.states <= E.cnt
    requires |tr.kids| > 1 && Usable(state, sym, n, tr)
    modifies lts
    ensures lts.Valid() && EnvsOk(E', n + 1) && EdgesAre(lts.edges, Num(state, sym, E'), n, T + {tr}) && lts.states <= E'.cnt
    ensures HasKids(E'.env.Keys, E.env.Keys, state, sym, tr, |tr.kids|)
  {
    E' := E;
    FirstChild(lts.edges, Num(state, sym, E), n, T, tr, E.env.Keys);
    for i := 0 to |tr.kids|
      invariant lts.Valid() && EnvsOk(E', n + 1) && EdgesTo(lts.edges, Num(state, sym, E'), n, T, tr, i) && lts.states <= E'.cnt
      invariant HasKids(E'.env.Keys, E.env.Keys, state, sym, tr, i)
    {
      E' := AddChild(lts, state, sym, n, E', tr, i, T, E.env.Keys);
    }
    OneMoreTo(lts.edges, Num(state, sym, E'), n, T, tr);
  }

  ghost predicate HasKids(envs: set<Env>, K: set<Env>, state: map<State, nat>, sym: map<Symbol, nat>, tr: Transition, k: nat) {
    tr.parent in state && tr.sym in sym && k <= |tr.kids| && envs == K + KidEnvs(state, sym, tr, k)
  }

  lemma FirstChild(edges: multiset<Triple>, N: UpNumbering, n: nat, T: set<Transition>, tr: Transition, K: set<Env>)
    requires EdgesAre(edges, N, n, T) && tr.parent in N.state && tr.sym in N.sym
    ensures EdgesTo(edges, N, n, T, tr, 0) && HasKids(K, K, N.state, N.sym, tr, 0)
  {
  }

  lemma KidEnvsMore(env: map<Env, nat>, env': map<Env, nat>, K: set<Env>, state: map<State, nat>, sym: map<Symbol, nat>, tr: Transition, i: nat)
    requires i < |tr.kids| && HasKids(env.Keys, K, state, sym, tr, i) && Gains(env, env', EnvOf(state, sym, tr, i))
    ensures HasKids(env'.Keys, K, state, sym, tr, i + 1)
  {
    assert KidEnvs(state, sym, tr, i + 1) == KidEnvs(state, sym, tr, i) + {EnvOf(state, sym, tr, i)};
  }

  /** The edge from the child at position i to its environment. */
  method AddChild(lts: ExplicitLTS, state: map<State, nat>, sym: map<Symbol, nat>, n: nat, E: Envs, tr: Transition, i: nat, ghost T: set<Transition>,
          ghost K: set<Env>)
    returns (E': Envs)
    requires lts.Valid() && EnvsOk(E, n + 1) && i < |tr.kids| && EdgesTo(lts.edges, Num(state, sym, E), n, T, tr, i) && lts.states <= E.cnt
    requires Usable(state, sym, n, tr) && HasKids(E.env.Keys, K, state, sym, tr, i)
    modifies lts
    ensures lts.Valid() && EnvsOk(E', n + 1) && EdgesTo(lts.edges, Num(state, sym, E'), n, T, tr, i + 1) && lts.states <= E'.cnt
    ensures HasKids(E'.env.Keys, K, state, sym, tr, i + 1)
  {
    var dest;
    E', dest := NumberEnv(E, EnvOf(state, sym, tr, i), n + 1);
    CountPositive(E', n + 1);
    KidEnvsMore(E.env, E'.env, K, state, sym, tr, i);
    AddInEdge(lts, state[tr.kids[i]], |sym|, dest, n, tr, i, T, Num(state, sym, E), Num(state, sym, E'), E'.cnt);
  }

  lemma CountPositive(E: Envs, lo: nat)
    requires EnvsOk(E, lo)
    ensures lo <= E.cnt
  {
  }

  method AddInEdge(lts: ExplicitLTS, source: nat, symbolCnt: nat, dest: nat, ghost n: nat, ghost tr: Transition, ghost i: nat,
          ghost T: set<Transition>, ghost N: UpNumbering, ghost N': UpNumbering, ghost bound: nat)
    requires lts.Valid() && lts.states <= bound && source < bound && dest < bound
    requires EdgesTo(lts.edges, N, n, T, tr, i) && i < |tr.kids| && tr.kids[i] in N.state && Gains(N.env, N'.env, EnvOf(N.state, N.sym, tr, i))
    requires N'.state == N.state && N'.sym == N.sym
    requires source == N'.state[tr.kids[i]] && symbolCnt == |N'.sym| && dest == N'.env[EnvOf(N'.state, N'.sym, tr, i)]
    modifies lts
    ensures lts.Valid() && lts.states <= bound && EdgesTo(lts.edges, N', n, T, tr, i + 1)
  {
    KnowsMore(N, N', tr, i);
    ChildAdded(lts.edges, N, N', n, T, tr, i);
    lts.AddTransition(source, symbolCnt, dest);
  }

  lemma KnowsMore(N: UpNumbering, N': UpNumbering, tr: Transition, i: nat)
    requires KnowsTo(N, tr, i) && i < |tr.kids| && EnvGrows(N, N') && tr.kids[i] in N'.state && EnvOf(N.state, N.sym, tr, i) in N'.env
    ensures KnowsTo(N', tr, i + 1)
  {
  }

  lemma OneMoreTo(edges: multiset<Triple>, N: UpNumbering, n: nat, T: set<Transition>, tr: Transition)
    requires EdgesTo(edges, N, n, T, tr, |tr.kids|) && |tr.kids| > 1 && tr.parent in N.state && tr.sym in N.sym
    ensures EdgesAre(edges, N, n, T + {tr})
  {
    assert Knows(N, tr);
    forall e ensures e in edges <==> SomeEdge(N, n, T + {tr}, e) {
      if SomeEdge(N, n, T, e) {
        var t :| t in T && Knows(N, t) && e in TransEdges(N, n, t);
        assert t in T + {tr};
      }
      if e in TransEdges(N, n, tr) { assert tr in T + {tr}; }
    }
  }

  ghost function EnvsOf(state: map<State, nat>, sym: map<Symbol, nat>, T: set<Transition>): set<Env> {
    set tr, i | tr in T && tr.parent in state && tr.sym in sym && |tr.kids| > 1 && 0 <= i < |tr.kids| :: EnvOf(state, sym, tr, i)
  }

  lemma EnvsOfMore(state: map<State, nat>, sym: map<Symbol, nat>, T: set<Transition>, tr: Transition, envs: set<Env>)
    requires |tr.kids| > 1 && HasKids(envs, EnvsOf(state, sym, T), state, sym, tr, |tr.kids|)
    ensures envs == EnvsOf(state, sym, T + {tr})
  {
    forall e | e in EnvsOf(state, sym, T) ensures e in EnvsOf(state, sym, T + {tr}) {
      var t, i :| t in T && t.parent in state && t.sym in sym && |t.kids| > 1 && 0 <= i < |t.kids| && EnvOf(state, sym, t, i) == e;
      assert t in T + {tr};
    }
    forall i | 0 <= i < |tr.kids| ensures EnvOf(state, sym, tr, i) in EnvsOf(state, sym, T + {tr}) {
      assert tr in T + {tr};
    }
  }

  lemma EnvsOfSame(state: map<State, nat>, sym: map<Symbol, nat>, T: set<Transition>, tr: Transition)
    requires |tr.kids| <= 1
    ensures EnvsOf(state, sym, T + {tr}) == EnvsOf(state, sym, T)
  {
    forall e | e in EnvsOf(state, sym, T) ensures e in EnvsOf(state, sym, T + {tr}) {
      var t, i :| t in T && t.parent in state && t.sym in sym && |t.kids| > 1 && 0 <= i < |t.kids| && EnvOf(state, sym, t, i) == e;
      assert t in T + {tr};
    }
  }

  /** The edges of one transition. */
  method AddTransition(lts: ExplicitLTS, state: map<State, nat>, sym: map<Symbol, nat>, n: nat, E: Envs, tr: Transition, ghost T: set<Transition>)
    returns (E': Envs)
    requires lts.Valid() && EnvsOk(E, n + 1) && EdgesAre(lts.edges, Num(state, sym, E), n, T) && lts.states <= E.cnt
    requires Usable(state, sym, n, tr) && E.env.Keys == EnvsOf(state, sym, T)
    modifies lts
    ensures lts.Valid() && EnvsOk(E', n + 1) && EdgesAre(lts.edges, Num(state, sym, E'), n, T + {tr}) && lts.states <= E'.cnt
    ensures E'.env.Keys == EnvsOf(state, sym, T + {tr})
  {
    if |tr.kids| > 1 {
      E' := AddChildren(lts, state, sym, n, E, tr, T);
      EnvsOfMore(state, sym, T, tr, E'.env.Keys);
    } else {
      E' := E;
      CountPositive(E, n + 1);
      AddDirect(lts, state, sym, n, tr, T, Num(state, sym, E), E.cnt);
      EnvsOfSame(state, sym, T, tr);
    }
  }

  /** The edge of a leaf transition, or from an only child. */
  method AddDirect(lts: ExplicitLTS, state: map<State, nat>, sym: map<Symbol, nat>, n: nat, tr: Transition, ghost T: set<Transition>,
          ghost N: UpNumbering, ghost bound: nat)
    requires lts.Valid() && EdgesAre(lts.edges, N, n, T) && lts.states <= bound && n < bound && N.state == state && N.sym == sym
    requires |tr.kids| <= 1 && Usable(state, sym, n, tr)
    modifies lts
    ensures lts.Valid() && EdgesAre(lts.edges, N, n, T + {tr}) && lts.states <= bound
  {
    ghost var edges := lts.edges;
    var source := if tr.kids == [] then n else state[tr.kids[0]];
    lts.AddTransition(source, sym[tr.sym], state[tr.parent]);
    OneMore(edges, N, n, T, tr, lts.edges);
  }

  lemma NothingYet(N: UpNumbering, n: nat)
    requires N.env == map[]
    ensures EdgesAre(multiset{}, N, n, {}) && EnvsOf(N.state, N.sym, {}) == {} && EnvsOk(Envs(map[], n + 1, [], []), n + 1)
  {
  }

  method AddTransitions(lts: ExplicitLTS, trans: set<Transition>, state: map<State, nat>, sym: map<Symbol, nat>, n: nat) returns (E: Envs)
    requires lts.Valid() && lts.edges == multiset{} && lts.states == 0 && forall tr :: tr in trans ==> Usable(state, sym, n, tr)
    modifies lts
    ensures lts.Valid() && EnvsOk(E, n + 1) && EdgesAre(lts.edges, Num(state, sym, E), n, trans) && lts.states <= E.cnt
    ensures E.env.Keys == EnvsOf(state, sym, trans)
  {
    E := Envs(map[], n + 1, [], []);
    NothingYet(Num(state, sym, E), n);
    var todo := trans;
    assert trans - todo == {};
    while todo != {}
      invariant todo <= trans && lts.Valid() && EnvsOk(E, n + 1) && lts.states <= E.cnt
      invariant EdgesAre(lts.edges, Num(state, sym, E), n, trans - todo) && E.env.Keys == EnvsOf(state, sym, trans - todo)
      decreases todo
    {
      var tr :| tr in todo;
      assert trans - (todo - {tr}) == trans - todo + {tr};
      E := AddTransition(lts, state, sym, n, E, tr, trans - todo);
      todo := todo - {tr};
    }
    assert trans - todo == trans;
  }

  // ---------------------------------------------------------------- the second look-up

  ghost function Looked(N: UpNumbering, look: map<State, nat>): UpNumbering {
    N.(look := look)
  }

  /** The edges are those of the transitions T, and those out of the environments X. */
  ghost predicate EdgesWithOut(edges: multiset<Triple>, N: UpNumbering, n: nat, T: set<Transition>, X: set<Env>) {
    && (forall tr :: tr in T ==> Knows(N, tr)) && X <= N.env.Keys && (forall e :: e in X ==> e.state in N.look)
    && forall e :: e in edges <==> SomeEdge(N, n, T, e) || OutEdge(N, X, e.0, e.1, e.2)
  }

  lemma SomeEdgeStays(N: UpNumbering, look: map<State, nat>, n: nat, T: set<Transition>, t: Triple)
    ensures SomeEdge(Looked(N, look), n, T, t) <==> SomeEdge(N, n, T, t)
  {
    forall tr | tr in T ensures Knows(Looked(N, look), tr) <==> Knows(N, tr) { }
    forall tr | tr in T && Knows(N, tr) ensures TransEdges(Looked(N, look), n, tr) == TransEdges(N, n, tr) {
      TransStays(N, Looked(N, look), n, tr);
    }
  }

  lemma OutAdded(edges: multiset<Triple>, N: UpNumbering, n: nat, T: set<Transition>, X: set<Env>, e: Env, look: map<State, nat>)
    requires EdgesWithOut(edges, N, n, T, X) && e in N.env && e.state in look && (forall q :: q in N.look ==> q in look && look[q] == N.look[q])
    ensures EdgesWithOut(edges + multiset{(N.env[e], e.sym, look[e.state])}, Looked(N, look), n, T, X + {e})
  {
    var N' := Looked(N, look);
    forall t: Triple ensures OutEdge(N', X + {e}, t.0, t.1, t.2) <==> OutEdge(N, X, t.0, t.1, t.2) || t == (N.env[e], e.sym, look[e.state]) {
      OutEdgeMore(N, X, e, look, t);
    }
    forall t: Triple ensures SomeEdge(N', n, T, t) <==> SomeEdge(N, n, T, t) {
      SomeEdgeStays(N, look, n, T, t);
    }
    forall tr | tr in T ensures Knows(N', tr) {
      assert Knows(N, tr);
    }
  }

  lemma OutEdgeMore(N: UpNumbering, X: set<Env>, e: Env, look: map<State, nat>, t: Triple)
    requires e in N.env && e.state in look && (forall q :: q in N.look ==> q in look && look[q] == N.look[q])
    requires forall f :: f in X ==> f.state in N.look
    ensures OutEdge(Looked(N, look), X + {e}, t.0, t.1, t.2) <==> OutEdge(N, X, t.0, t.1, t.2) || t == (N.env[e], e.sym, look[e.state])
  {
    var N' := Looked(N, look);
    if OutEdge(N, X, t.0, t.1, t.2) {
      var f :| f in X && f in N.env && f.state in N.look && t.0 == N.env[f] && t.1 == f.sym && t.2 == N.look[f.state];
      assert f in X + {e} && f in N'.env && t.0 == N'.env[f];
    }
    if t == (N.env[e], e.sym, look[e.state]) { assert e in X + {e} && t.0 == N'.env[e]; }
  }

  lemma OutStarts(edges: multiset<Triple>, N: UpNumbering, n: nat, T: set<Transition>)
    requires EdgesAre(edges, N, n, T)
    ensures EdgesWithOut(edges, N, n, T, {})
  {
    forall t: Triple ensures !OutEdge(N, {}, t.0, t.1, t.2) { }
  }

  /** The numbers of the parents. */
  ghost function ParentNumbers(X: set<Env>): set<State> {
    set e | e in X :: e.state
  }

  ghost predicate Apart(look: map<State, nat>, x: State, y: State) {
    x in look && y in look && look[x] == look[y] ==> x == y
  }

  /** The dictionary keeps its numbers, which are different and below its size. */
  ghost predicate LooksOn(state: map<State, nat>, look: map<State, nat>) {
    && (forall x {:trigger look[x]} :: x in look ==> look[x] < |look|) && (forall x, y {:trigger Apart(look, x, y)} :: Apart(look, x, y))
    && (forall x {:trigger state[x]} :: x in state ==> x in look && look[x] == state[x])
  }

  /** The look-up keeps the numbers of the states, puts in the numbers of parents of several children
      that are not states themselves, and gives everything a number of its own. */
  ghost predicate LooksUp(N: UpNumbering) {
    LooksOn(N.state, N.look) && N.look.Keys == N.state.Keys + ParentNumbers(N.env.Keys)
  }

  /** Looks a key up: one not yet known gets the next number. */
  ghost function LookUp(look: map<State, nat>, q: State): map<State, nat> {
    if q in look then look else look[q := |look|]
  }

  ghost function LookAll(look: map<State, nat>, keys: seq<State>): map<State, nat> {
    if keys == [] then look else LookUp(LookAll(look, keys[..|keys| - 1]), keys[|keys| - 1])
  }

  lemma LooksOnMore(state: map<State, nat>, look: map<State, nat>, q: State)
    requires LooksOn(state, look)
    ensures LooksOn(state, LookUp(look, q))
  {
    forall x, y ensures Apart(LookUp(look, q), x, y) {
      assert Apart(look, x, y);
    }
  }

  lemma {:induction false} LookAllOn(state: map<State, nat>, keys: seq<State>)
    requires LooksOn(state, state)
    ensures LooksOn(state, LookAll(state, keys))
  {
    if keys != [] {
      var before := keys[..|keys| - 1];
      LookAllOn(state, before);
      LooksOnMore(state, LookAll(state, before), keys[|keys| - 1]);
    }
  }

  lemma {:induction false} LookAllKeys(look: map<State, nat>, keys: seq<State>)
    ensures LookAll(look, keys).Keys == look.Keys + SetOf(keys)
  {
    if keys != [] {
      var before := keys[..|keys| - 1];
      LookAllKeys(look, before);
      assert SetOf(keys) == SetOf(before) + {keys[|keys| - 1]};
    }
  }

  lemma LookBelow(state: map<State, nat>, keys: seq<State>, q: State)
    requires LooksOn(state, state)
    ensures q in LookAll(state, keys) ==> LookAll(state, keys)[q] < |LookAll(state, keys)|
  {
    LookAllOn(state, keys);
  }

  /** The keys are the numbers of the parents of X, in some order. */
  ghost predicate KeysOf(keys: seq<State>, X: set<Env>) {
    SetOf(keys) == ParentNumbers(X)
  }

  /** How far the edges out of environments are: those of todo are missing. */
  ghost predicate Leading(edges: multiset<Triple>, N: UpNumbering, n: nat, T: set<Transition>, look: map<State, nat>, next: nat, todo: set<Env>,
          keys: seq<State>, bound: nat)
  {
    && todo <= N.env.Keys && KeysOf(keys, N.env.Keys - todo) && look == LookAll(N.look, keys) && next == |look| && next + |todo| < bound
    && EdgesWithOut(edges, Looked(N, look), n, T, N.env.Keys - todo)
  }

  /** The edges out of the environments: each to the number under which the number of its parent is
      found, or put in now, as if it were a state. */
  method AddParents(lts: ExplicitLTS, ghost trans: set<Transition>, stateIndex: Translator<State>, ghost n: nat, env: map<Env, nat>, ghost bound: nat,
          ghost N: UpNumbering)
    returns (ghost keys: seq<State>)
    requires lts.Valid() && lts.states <= bound && N.env == env && forall e {:trigger env[e]} :: e in env ==> env[e] < bound
    requires LooksOn(N.look, N.look) && Leading(lts.edges, N, n, trans, stateIndex.dict, stateIndex.next, env.Keys, [], bound)
    modifies lts, stateIndex
    ensures lts.Valid() && lts.states <= bound && Leading(lts.edges, N, n, trans, stateIndex.dict, stateIndex.next, {}, keys, bound)
  {
    keys := [];
    var todo := env.Keys;
    while todo != {}
      invariant lts.Valid() && lts.states <= bound && Leading(lts.edges, N, n, trans, stateIndex.dict, stateIndex.next, todo, keys, bound)
      decreases todo
    {
      todo, keys := AddParent(lts, trans, stateIndex, n, env, bound, N, todo, keys);
    }
  }

  method AddParent(lts: ExplicitLTS, ghost T: set<Transition>, stateIndex: Translator<State>, ghost n: nat, env: map<Env, nat>, ghost bound: nat,
          ghost N: UpNumbering, todo: set<Env>, ghost keys: seq<State>)
    returns (todo': set<Env>, ghost keys': seq<State>)
    requires lts.Valid() && lts.states <= bound && N.env == env && forall e {:trigger env[e]} :: e in env ==> env[e] < bound
    requires LooksOn(N.look, N.look) && todo != {} && Leading(lts.edges, N, n, T, stateIndex.dict, stateIndex.next, todo, keys, bound)
    modifies lts, stateIndex
    ensures todo' < todo
    ensures lts.Valid() && lts.states <= bound && Leading(lts.edges, N, n, T, stateIndex.dict, stateIndex.next, todo', keys', bound)
  {
    var e :| e in todo;
    todo' := todo - {e};
    keys' := keys + [e.state];
    ghost var edges, look, next := lts.edges, stateIndex.dict, stateIndex.next;
    LookBelow(N.look, keys, e.state);
    var dest := stateIndex.Translate(e.state);
    LeadsFurther(edges, N, n, T, look, next, todo, keys, bound, e, stateIndex.dict, stateIndex.next);
    lts.AddTransition(env[e], e.sym, dest);
  }

  lemma LeadsFurther(edges: multiset<Triple>, N: UpNumbering, n: nat, T: set<Transition>, look: map<State, nat>, next: nat, todo: set<Env>,
          keys: seq<State>, bound: nat, e: Env, look': map<State, nat>, next': nat)
    requires Leading(edges, N, n, T, look, next, todo, keys, bound) && e in todo && look' == LookUp(look, e.state) && next' == |look'|
    ensures Leading(edges + multiset{(N.env[e], e.sym, look'[e.state])}, N, n, T, look', next', todo - {e}, keys + [e.state], bound)
  {
    OutAdded(edges, Looked(N, look), n, T, N.env.Keys - todo, e, look');
    KeysMore(N.look, keys, N.env.Keys - todo, e);
    assert N.env.Keys - (todo - {e}) == N.env.Keys - todo + {e};
    assert Looked(Looked(N, look), look') == Looked(N, look');
  }

  lemma KeysMore(look: map<State, nat>, keys: seq<State>, X: set<Env>, e: Env)
    requires KeysOf(keys, X)
    ensures KeysOf(keys + [e.state], X + {e}) && LookAll(look, keys + [e.state]) == LookUp(LookAll(look, keys), e.state)
  {
    assert ParentNumbers(X + {e}) == ParentNumbers(X) + {e.state};
    assert (keys + [e.state])[..|keys|] == keys;
  }

  lemma LookStarts(A: Aut, n: nat, N: UpNumbering, E: Envs, edges: multiset<Triple>)
    requires Fixed(A, n, N.state, N.sym) && N == Num(N.state, N.sym, E) && EnvsOk(E, n + 1) && EdgesAre(edges, N, n, A.trans)
    ensures forall e {:trigger E.env[e]} :: e in E.env ==> E.env[e] < E.cnt
    ensures LooksOn(N.look, N.look) && Leading(edges, N, n, A.trans, N.look, n, E.env.Keys, [], E.cnt)
  {
    CountIs(E, n + 1);
    OutStarts(edges, N, n, A.trans);
    forall x, y ensures Apart(N.look, x, y) { }
    assert N.env.Keys - E.env.Keys == {} && Looked(N, N.look) == N;
  }

  lemma CountIs(E: Envs, lo: nat)
    requires EnvsOk(E, lo)
    ensures E.cnt == lo + |E.env.Keys| && forall e :: e in E.env ==> E.env[e] < E.cnt
  {
    assert |E.env| == |E.env.Keys|;
  }

  lemma LookEnds(edges: multiset<Triple>, first: UpNumbering, n: nat, T: set<Transition>, look: map<State, nat>, next: nat, keys: seq<State>, bound: nat)
    requires LooksOn(first.look, first.look) && first.look == first.state && Leading(edges, first, n, T, look, next, {}, keys, bound)
    ensures LooksUp(Looked(first, look)) && EdgesWithOut(edges, Looked(first, look), n, T, first.env.Keys)
  {
    LookAllOn(first.look, keys);
    LookAllKeys(first.look, keys);
    assert first.env.Keys - {} == first.env.Keys;
  }

  // ---------------------------------------------------------------- the first pass

  /** Which of the first classes a state belongs to. */
  function FinalClass(A: Aut, base: nat, q: State): nat
    requires base >= 2
  {
    if q in A.finals then 0 else base - 2
  }

  ghost predicate InStates(A: Aut, base: nat, state: map<State, nat>, b: nat, x: nat)
    requires base >= 2
  {
    exists q :: q in state && state[q] == x && FinalClass(A, base, q) == b
  }

  ghost predicate StateClassIs(A: Aut, base: nat, state: map<State, nat>, b: nat, block: seq<nat>)
    requires base >= 2
  {
    NoDup(block) && forall x :: x in block <==> InStates(A, base, state, b, x)
  }

  ghost predicate StateClasses(A: Aut, base: nat, state: map<State, nat>, blocks: seq<seq<nat>>) {
    base >= 2 && |blocks| == base - 1
    && forall b: nat {:trigger blocks[b]} :: b < |blocks| ==> StateClassIs(A, base, state, b, blocks[b])
  }

  ghost predicate NumbersStates(state: map<State, nat>, done: set<State>, next: nat) {
    && state.Keys == done && DownSim.OneToOne(state, 0, next) && forall x: nat {:trigger GivenState(state, x)} :: x < next ==> GivenState(state, x)
  }

  lemma StateClassMore(A: Aut, base: nat, state: map<State, nat>, next: nat, q: State, b: nat, block: seq<nat>)
    requires base >= 2 && NumbersStates(state, state.Keys, next) && q !in state && StateClassIs(A, base, state, b, block)
    ensures StateClassIs(A, base, state[q := next], b, if FinalClass(A, base, q) == b then block + [next] else block)
  {
    var state' := state[q := next];
    forall x ensures InStates(A, base, state', b, x) <==> InStates(A, base, state, b, x) || (x == next && FinalClass(A, base, q) == b) {
      if InStates(A, base, state, b, x) {
        var p :| p in state && state[p] == x && FinalClass(A, base, p) == b;
        assert p in state' && state'[p] == x;
      }
      if x == next && FinalClass(A, base, q) == b { assert state'[q] == x; }
    }
    assert next in block <==> InStates(A, base, state, b, next);
    assert !InStates(A, base, state, b, next);
    NoDupAppend(block, next);
  }

  lemma StateClassesMore(A: Aut, base: nat, state: map<State, nat>, next: nat, q: State, blocks: seq<seq<nat>>)
    requires StateClasses(A, base, state, blocks) && NumbersStates(state, state.Keys, next) && q !in state
    ensures FinalClass(A, base, q) < |blocks|
    ensures StateClasses(A, base, state[q := next], blocks[FinalClass(A, base, q) := blocks[FinalClass(A, base, q)] + [next]])
  {
    forall c: nat | c < |blocks|
      ensures StateClassIs(A, base, state[q := next], c, if c == FinalClass(A, base, q) then blocks[c] + [next] else blocks[c])
    {
      StateClassMore(A, base, state, next, q, c, blocks[c]);
    }
  }

  lemma StateNumbered(state: map<State, nat>, done: set<State>, next: nat, q: State)
    requires NumbersStates(state, done, next) && q !in done
    ensures NumbersStates(state[q := next], done + {q}, next + 1)
  {
    var state' := state[q := next];
    forall x: nat | x < next + 1 ensures GivenState(state', x) {
      if x == next {
        assert q in state' && state'[q] == x;
      } else {
        assert GivenState(state, x);
        var p :| p in state && state[p] == x;
        assert p in state' && state'[p] == x;
      }
    }
  }

  /** The states in the order in which the automaton lists them have the numbers from zero on. */
  ghost predicate Positions(order: seq<State>, state: map<State, nat>) {
    state.Keys == SetOf(order) && forall i :: 0 <= i < |order| ==> order[i] in state && state[order[i]] == i
  }

  /** Every state that has transitions is listed once. */
  ghost predicate Lists(order: seq<State>, A: Aut) {
    NoDup(order) && SetOf(order) == A.Parents()
  }

  /** Numbers the states that have transitions, and sorts them into final and other ones. */
  method NumberStates(A: Aut, order: seq<State>, base: nat, stateIndex: Translator<State>) returns (blocks: seq<seq<nat>>)
    requires (base == 2 || base == 3) && Lists(order, A) && stateIndex.dict == map[] && stateIndex.next == 0
    modifies stateIndex
    ensures NumbersStates(stateIndex.dict, A.Parents(), |order|) && stateIndex.next == |order| && Positions(order, stateIndex.dict)
    ensures StateClasses(A, base, stateIndex.dict, blocks)
  {
    blocks := seq(base - 1, _ => []);
    for i := 0 to |order|
      invariant stateIndex.next == i && NumbersStates(stateIndex.dict, SetOf(order[..i]), i) && Positions(order[..i], stateIndex.dict)
      invariant StateClasses(A, base, stateIndex.dict, blocks)
    {
      blocks := NumberState(A, order, base, stateIndex, i, blocks);
    }
    assert order[..|order|] == order;
  }

  method NumberState(A: Aut, order: seq<State>, base: nat, stateIndex: Translator<State>, i: nat, blocks: seq<seq<nat>>)
    returns (blocks': seq<seq<nat>>)
    requires i < |order| && NoDup(order) && stateIndex.next == i
    requires NumbersStates(stateIndex.dict, SetOf(order[..i]), i) && Positions(order[..i], stateIndex.dict)
    requires StateClasses(A, base, stateIndex.dict, blocks)
    modifies stateIndex
    ensures stateIndex.next == i + 1 && NumbersStates(stateIndex.dict, SetOf(order[..i + 1]), i + 1) && Positions(order[..i + 1], stateIndex.dict)
    ensures StateClasses(A, base, stateIndex.dict, blocks')
  {
    var q := order[i];
    PrefixMore(order, i);
    ghost var state := stateIndex.dict;
    StateNumbered(state, SetOf(order[..i]), i, q);
    StateClassesMore(A, base, state, i, q, blocks);
    var b := FinalClass(A, base, q);
    var number := stateIndex.Translate(q);
    blocks' := blocks[b := blocks[b] + [number]];
  }

  lemma PrefixMore(order: seq<State>, i: nat)
    requires i < |order| && NoDup(order)
    ensures order[i] !in SetOf(order[..i]) && order[..i + 1] == order[..i] + [order[i]] && SetOf(order[..i + 1]) == SetOf(order[..i]) + {order[i]}
  {
  }

  method NumberSymbols(A: Aut) returns (sym: map<Symbol, nat>)
    ensures DownSim.OneToOne(sym, 0, |sym|) && sym.Keys == DownSim.SymbolsOf(A.trans)
  {
    var transl := new Translator<Symbol>(map[], 0);
    assert transl.Numbers(0);
    var todo := A.trans;
    while todo != {}
      invariant todo <= A.trans && transl.Numbers(0) && transl.dict.Keys == DownSim.SymbolsOf(A.trans - todo)
      decreases todo
    {
      var tr :| tr in todo;
      assert A.trans - (todo - {tr}) == A.trans - todo + {tr};
      assert DownSim.SymbolsOf(A.trans - todo + {tr}) == DownSim.SymbolsOf(A.trans - todo) + {tr.sym};
      todo := todo - {tr};
      var _ := transl.Translate(tr.sym);
    }
    assert A.trans - todo == A.trans;
    transl.NextIsSize();
    sym := transl.dict;
  }

  // ---------------------------------------------------------------- the result

  /** The edges built are those of the system. */
  lemma EdgesBuilt(A: Aut, n: nat, N: UpNumbering, edges: multiset<Triple>, x: nat, c: nat, y: nat)
    requires EdgesWithOut(edges, N, n, A.trans, N.env.Keys)
    ensures (x, c, y) in edges <==>
              LeafEdge(N, n, A.trans, x, c, y) || UnaryEdge(N, A.trans, x, c, y) || InEdge(N, A.trans, x, c, y) || OutEdge(N, N.env.Keys, x, c, y)
  {
    var e: Triple := (x, c, y);
    if SomeEdge(N, n, A.trans, e) {
      var tr :| tr in A.trans && Knows(N, tr) && e in TransEdges(N, n, tr);
      if |tr.kids| > 1 {
        var i :| 0 <= i < |tr.kids| && e == (N.state[tr.kids[i]], |N.sym|, N.env[EnvOf(N.state, N.sym, tr, i)]);
        assert InEdge(N, A.trans, x, c, y);
      }
    }
    if LeafEdge(N, n, A.trans, x, c, y) {
      var tr :| tr in A.trans && Knows(N, tr) && tr.kids == [] && x == n && c == N.sym[tr.sym] && y == N.state[tr.parent];
      assert e in TransEdges(N, n, tr);
    }
    if UnaryEdge(N, A.trans, x, c, y) {
      var tr :| tr in A.trans && Knows(N, tr) && |tr.kids| == 1 && x == N.state[tr.kids[0]] && c == N.sym[tr.sym] && y == N.state[tr.parent];
      assert e in TransEdges(N, n, tr);
    }
    if InEdge(N, A.trans, x, c, y) {
      var tr, i: nat :| tr in A.trans && Knows(N, tr) && |tr.kids| > 1 && i < |tr.kids|
        && x == N.state[tr.kids[i]] && c == |N.sym| && y == N.env[EnvOf(N.state, N.sym, tr, i)];
      assert e in TransEdges(N, n, tr);
    }
  }

  /** Some leaf transition exists. */
  ghost predicate HasLeaf(A: Aut) {
    exists tr :: tr in A.trans && tr.kids == []
  }

  lemma EdgesRight(A: Aut, n: nat, N: UpNumbering, edges: multiset<Triple>, l: Lts)
    requires EdgesWithOut(edges, N, n, A.trans, N.env.Keys)
    requires forall x, c, y :: l.Edge(x, c, y) <==> x >= 0 && c >= 0 && y >= 0 && (x, c, y) in edges
    ensures forall x, c, y {:trigger l.Edge(x, c, y)} :: l.Edge(x, c, y) <==>
              LeafEdge(N, n, A.trans, x, c, y) || UnaryEdge(N, A.trans, x, c, y) || InEdge(N, A.trans, x, c, y) || OutEdge(N, N.env.Keys, x, c, y)
  {
    forall x, c, y ensures l.Edge(x, c, y) <==>
      LeafEdge(N, n, A.trans, x, c, y) || UnaryEdge(N, A.trans, x, c, y) || InEdge(N, A.trans, x, c, y) || OutEdge(N, N.env.Keys, x, c, y)
    {
      if x >= 0 && c >= 0 && y >= 0 { EdgesBuilt(A, n, N, edges, x, c, y); }
    }
  }

  lemma SystemBuilt(A: Aut, n: nat, N: UpNumbering, E: Envs, edges: multiset<Triple>, l: Lts)
    requires Fixed(A, n, N.state, N.sym) && EnvsOk(E, n + 1) && N.env == E.env && N.env.Keys == EnvsOf(N.state, N.sym, A.trans) && HasLeaf(A)
    requires EdgesWithOut(edges, N, n, A.trans, N.env.Keys) && l.Valid() && l.states <= E.cnt
    requires forall x, c, y :: l.Edge(x, c, y) <==> x >= 0 && c >= 0 && y >= 0 && (x, c, y) in edges
    ensures UpBuilds(A, n, N, l) && l.states == E.cnt
  {
    EdgesRight(A, n, N, edges, l);
    AllReached(A, n, N, E, l);
    EnvsArise(A, N);
  }

  lemma EnvsArise(A: Aut, N: UpNumbering)
    requires N.env.Keys == EnvsOf(N.state, N.sym, A.trans) && forall tr :: tr in A.trans ==> Knows(N, tr)
    ensures forall e :: e in N.env ==> EnvOfSome(N, A.trans, e)
  {
    forall e | e in N.env ensures EnvOfSome(N, A.trans, e) {
      var tr, i: nat :| tr in A.trans && tr.parent in N.state && tr.sym in N.sym && |tr.kids| > 1 && i < |tr.kids| && EnvOf(N.state, N.sym, tr, i) == e;
      assert Knows(N, tr);
    }
  }

  /** The system is as big as the numbers given. */
  lemma AllReached(A: Aut, n: nat, N: UpNumbering, E: Envs, l: Lts)
    requires EnvsOk(E, n + 1) && N.env == E.env && HasLeaf(A) && l.Valid() && (forall tr :: tr in A.trans ==> Knows(N, tr))
    requires forall e :: e in N.env ==> e.state in N.look
    requires forall x, c, y {:trigger l.Edge(x, c, y)} :: LeafEdge(N, n, A.trans, x, c, y) || OutEdge(N, N.env.Keys, x, c, y) ==> l.Edge(x, c, y)
    ensures E.cnt <= l.states
  {
    if E.cnt == n + 1 {
      var tr :| tr in A.trans && tr.kids == [];
      assert LeafEdge(N, n, A.trans, n, N.sym[tr.sym], N.state[tr.parent]);
      assert l.Edge(n, N.sym[tr.sym], N.state[tr.parent]);
    } else {
      assert GivenEnv(E.env, E.cnt - 1);
      var e :| e in E.env && E.env[e] == E.cnt - 1;
      assert OutEdge(N, N.env.Keys, N.env[e], e.sym, N.look[e.state]);
      assert l.Edge(N.env[e], e.sym, N.look[e.state]);
    }
  }

  /** Classes are related to themselves, and that of the other states to that of the final ones. */
  ghost predicate RelIs(rel: Relation, base: nat, size: nat) {
    forall b, b' :: In(b, b', rel) <==> 0 <= b < size && 0 <= b' < size && (b == b' || (base == 3 && b == 1 && b' == 0))
  }

  method BuildRelation(base: nat, head: seq<Env>) returns (rel: Relation)
    requires (base == 2 || base == 3) && AllApart(head)
    ensures RelIs(rel, base, base + |head|)
  {
    rel := {(0, 0)};
    if base == 3 { rel := rel + {(1, 0), (1, 1)}; }
    rel := rel + {(base - 1, base - 1)};
    ghost var first := rel;
    for i := 0 to |head|
      invariant forall b, b' :: In(b, b', rel) <==> In(b, b', first) || (base <= b == b' < base + i)
    {
      ghost var before := rel;
      for j := 0 to |head|
        invariant forall b, b' :: In(b, b', rel) <==> In(b, b', before) || (i < j && b == b' == base + i)
      {
        if SameEnv(head[i], head[j]) {
          rel := rel + {(base + i, base + j)};
        }
      }
    }
  }

  lemma RelPreorder(rel: Relation, base: nat, size: nat)
    requires RelIs(rel, base, size)
    ensures Reflexive(size, rel) && Transitive(rel)
  {
  }

  /** What it means for a number to be in class b. */
  ghost predicate Member(A: Aut, base: nat, n: nat, N: UpNumbering, head: seq<Env>, b: nat, x: nat)
    requires base >= 2
  {
    if b < base - 1 then InStates(A, base, N.state, b, x)
    else if b == base - 1 then x == n
    else b - base < |head| && InClass(N.env, head[b - base], x)
  }

  ghost predicate PartIs(A: Aut, base: nat, n: nat, N: UpNumbering, head: seq<Env>, part: seq<seq<nat>>) {
    base >= 2 && |part| == base + |head|
    && forall b: nat, x: nat {:trigger x in part[b]} :: b < |part| ==> (x in part[b] <==> Member(A, base, n, N, head, b, x))
  }

  lemma PartBuilt(A: Aut, base: nat, n: nat, N: UpNumbering, E: Envs, blocks: seq<seq<nat>>)
    requires StateClasses(A, base, N.state, blocks) && EnvsOk(E, n + 1) && N.env == E.env
    ensures PartIs(A, base, n, N, E.head, blocks + [[n]] + E.blocks)
  {
    var part := blocks + [[n]] + E.blocks;
    forall b: nat, x: nat | b < |part| ensures x in part[b] <==> Member(A, base, n, N, E.head, b, x) {
      if b < base - 1 {
        assert part[b] == blocks[b];
      } else if b == base - 1 {
        assert part[b] == [n];
      } else {
        assert part[b] == E.blocks[b - base];
      }
    }
  }

  /** Every number is in the class of what it stands for, and in no other. */
  ghost function ClassNumber(A: Aut, base: nat, n: nat, N: UpNumbering, head: seq<Env>, x: nat): nat
    requires base >= 2
  {
    if exists q :: q in N.state && N.state[q] == x then var q :| q in N.state && N.state[q] == x; FinalClass(A, base, q)
    else if x == n then base - 1
    else if exists i, e :: 0 <= i < |head| && e in N.env && N.env[e] == x && SameEnv(head[i], e)
      then var i, e :| 0 <= i < |head| && e in N.env && N.env[e] == x && SameEnv(head[i], e); base + i
    else 0
  }

  lemma MemberUnique(A: Aut, base: nat, n: nat, N: UpNumbering, E: Envs, b: nat, x: nat)
    requires (base == 2 || base == 3) && DownSim.OneToOne(N.state, 0, n) && EnvsOk(E, n + 1) && N.env == E.env
    requires b < base + |E.head| && Member(A, base, n, N, E.head, b, x)
    ensures b == ClassNumber(A, base, n, N, E.head, x)
  {
    if b < base - 1 {
      var q :| q in N.state && N.state[q] == x && FinalClass(A, base, q) == b;
    } else if b > base - 1 {
      var i := b - base;
      var e :| e in N.env && N.env[e] == x && SameEnv(E.head[i], e);
      var j, f :| 0 <= j < |E.head| && f in N.env && N.env[f] == x && SameEnv(E.head[j], f) && ClassNumber(A, base, n, N, E.head, x) == base + j;
      assert f == e;
      assert SameEnv(E.head[i], E.head[j]);
    }
  }

  lemma MemberExists(A: Aut, base: nat, n: nat, N: UpNumbering, E: Envs, x: nat) returns (b: nat)
    requires (base == 2 || base == 3) && NumbersStates(N.state, N.state.Keys, n) && EnvsOk(E, n + 1) && N.env == E.env && x < E.cnt
    ensures b < base + |E.head| && Member(A, base, n, N, E.head, b, x)
  {
    if x < n {
      assert GivenState(N.state, x);
      var q :| q in N.state && N.state[q] == x;
      b := FinalClass(A, base, q);
    } else if x == n {
      b := base - 1;
    } else {
      assert GivenEnv(N.env, x);
      var e :| e in N.env && N.env[e] == x;
      assert HasHead(E.head, e);
      var i :| 0 <= i < |E.head| && SameEnv(E.head[i], e);
      b := base + i;
    }
  }

  /** The numbering is complete: states, then the leaves, then environments. */
  ghost predicate Numbered(A: Aut, base: nat, n: nat, N: UpNumbering, E: Envs) {
    (base == 2 || base == 3) && NumbersStates(N.state, N.state.Keys, n) && EnvsOk(E, n + 1) && N.env == E.env
  }

  lemma MemberBounded(A: Aut, base: nat, n: nat, N: UpNumbering, E: Envs, b: nat, x: nat)
    requires Numbered(A, base, n, N, E) && b < base + |E.head| && Member(A, base, n, N, E.head, b, x)
    ensures x < E.cnt
  {
  }

  lemma PartIsPartition(A: Aut, base: nat, n: nat, N: UpNumbering, E: Envs, part: seq<seq<nat>>)
    requires Numbered(A, base, n, N, E) && PartIs(A, base, n, N, E.head, part)
    requires forall b :: 0 <= b < |part| ==> part[b] != [] && NoDup(part[b])
    ensures PartitionOf(E.cnt, part)
  {
    forall b, q {:trigger q in part[b]} | 0 <= b < |part| && q in part[b] ensures q < E.cnt && b == ClassNumber(A, base, n, N, E.head, q) {
      assert Member(A, base, n, N, E.head, b, q);
      MemberBounded(A, base, n, N, E, b, q);
      MemberUnique(A, base, n, N, E, b, q);
    }
    forall q: nat | q < E.cnt ensures ClassOf(part, q) {
      var b := MemberExists(A, base, n, N, E, q);
      assert q in part[b];
    }
  }

  /** With two classes before the environments, final states are all or none. */
  ghost predicate BaseFits(A: Aut, base: nat, N: UpNumbering) {
    && (base == 2 || base == 3)
    && (base == 2 ==> A.finals == {} || forall q :: q in N.state ==> q in A.finals)
  }

  lemma RelatedAdmitted(A: Aut, base: nat, n: nat, N: UpNumbering, E: Envs, rel: Relation, b: nat, b': nat, x: nat, y: nat)
    requires Numbered(A, base, n, N, E) && BaseFits(A, base, N) && RelIs(rel, base, base + |E.head|) && In(b, b', rel)
    requires Member(A, base, n, N, E.head, b, x) && Member(A, base, n, N, E.head, b', y)
    ensures Admitted(A, n, N, x, y)
  {
    if b < base - 1 {
      var p :| p in N.state && N.state[p] == x && FinalClass(A, base, p) == b;
      var q :| q in N.state && N.state[q] == y && FinalClass(A, base, q) == b';
      assert p in A.finals ==> q in A.finals;
    } else if b > base - 1 {
      var e :| e in N.env && N.env[e] == x && SameEnv(E.head[b - base], e);
      var e' :| e' in N.env && N.env[e'] == y && SameEnv(E.head[b - base], e');
      assert SameEnv(e, e');
    }
  }

  lemma AdmittedRelated(A: Aut, base: nat, n: nat, N: UpNumbering, E: Envs, rel: Relation, x: nat, y: nat)
    returns (b: nat, b': nat)
    requires Numbered(A, base, n, N, E) && BaseFits(A, base, N) && RelIs(rel, base, base + |E.head|) && Admitted(A, n, N, x, y)
    ensures b < base + |E.head| && b' < base + |E.head| && In(b, b', rel)
    ensures Member(A, base, n, N, E.head, b, x) && Member(A, base, n, N, E.head, b', y)
  {
    if p, q :| p in N.state && q in N.state && (p in A.finals ==> q in A.finals) && x == N.state[p] && y == N.state[q] {
      b, b' := FinalClass(A, base, p), FinalClass(A, base, q);
    } else if x == y == n {
      b, b' := base - 1, base - 1;
    } else {
      var e, e' :| e in N.env && e' in N.env && SameEnv(e, e') && x == N.env[e] && y == N.env[e'];
      assert HasHead(E.head, e);
      var i :| 0 <= i < |E.head| && SameEnv(E.head[i], e);
      assert SameEnv(E.head[i], e');
      b, b' := base + i, base + i;
    }
  }

  /** The partition and the relation on its classes stand for the admitted pairs. */
  lemma LiftAdmits(A: Aut, base: nat, n: nat, N: UpNumbering, E: Envs, part: seq<seq<nat>>, rel: Relation)
    requires Numbered(A, base, n, N, E) && BaseFits(A, base, N) && RelIs(rel, base, base + |E.head|)
    requires PartIs(A, base, n, N, E.head, part)
    ensures Admits(A, n, N, Lift(E.cnt, part, rel))
  {
    forall x: nat, y: nat ensures In(x, y, Lift(E.cnt, part, rel)) <==> Admitted(A, n, N, x, y) {
      if In(x, y, Lift(E.cnt, part, rel)) {
        var b, b' :| 0 <= b < |part| && 0 <= b' < |part| && x in part[b] && y in part[b'] && In(b, b', rel);
        RelatedAdmitted(A, base, n, N, E, rel, b, b', x, y);
      }
      if Admitted(A, n, N, x, y) {
        var b, b' := AdmittedRelated(A, base, n, N, E, rel, x, y);
        MemberBounded(A, base, n, N, E, b, x);
        MemberBounded(A, base, n, N, E, b', y);
        assert x in part[b] && y in part[b'];
        assert RelatedIn(part, rel, x, y);
      }
    }
  }

  /** Every state has a transition, as the source asserts, and leaves exist. */
  ghost predicate Suitable(A: Aut) {
    A.States() == A.Parents() && HasLeaf(A)
  }

  /** The number of classes before those of environments: final states, other states, and leaves. */
  function BaseOf(A: Aut): nat {
    if 0 < |A.finals| < |A.Parents()| then 3 else 2
  }

  lemma BlocksFilled(A: Aut, base: nat, state: map<State, nat>, blocks: seq<seq<nat>>)
    requires Suitable(A) && StateClasses(A, base, state, blocks) && state.Keys == A.Parents()
    requires base == BaseOf(A)
    ensures forall b :: 0 <= b < |blocks| ==> blocks[b] != [] && NoDup(blocks[b])
    ensures base == 2 ==> A.finals == {} || forall q :: q in state ==> q in A.finals
  {
    var tr :| tr in A.trans && tr.kids == [];
    assert tr.parent in A.Parents() && A.finals <= A.Parents();
    if base == 3 {
      var f :| f in A.finals;
      assert InStates(A, base, state, 0, state[f]);
      assert A.Parents() != A.finals;
      var q :| q in A.Parents() && q !in A.finals;
      assert InStates(A, base, state, 1, state[q]);
    } else {
      assert InStates(A, base, state, 0, state[tr.parent]);
      if |A.finals| >= |A.Parents()| {
        SubsetSize(A.finals, A.Parents());
        SubsetSameSize(A.finals, A.Parents());
      }
    }
  }

  /** What the first pass computes. */
  datatype Pass = Pass(base: nat, n: nat, state: map<State, nat>, sym: map<Symbol, nat>, blocks: seq<seq<nat>>)

  ghost predicate PassOk(A: Aut, p: Pass) {
    && (p.base == 2 || p.base == 3) && p.n == |A.States()| && Fixed(A, p.n, p.state, p.sym) && NumbersStates(p.state, p.state.Keys, p.n)
    && (p.base == 2 ==> A.finals == {} || forall q :: q in p.state ==> q in A.finals)
    && StateClasses(A, p.base, p.state, p.blocks) && forall b :: 0 <= b < |p.blocks| ==> p.blocks[b] != [] && NoDup(p.blocks[b])
  }

  method FirstPass(A: Aut, order: seq<State>, stateIndex: Translator<State>) returns (p: Pass)
    requires Suitable(A) && Lists(order, A) && stateIndex.dict == map[] && stateIndex.next == 0
    modifies stateIndex
    ensures PassOk(A, p) && Positions(order, p.state) && stateIndex.dict == p.state && stateIndex.next == p.n
    ensures p.sym.Keys == DownSim.SymbolsOf(A.trans)
  {
    var base := BaseOf(A);
    var blocks := NumberStates(A, order, base, stateIndex);
    var sym := NumberSymbols(A);
    BlocksFilled(A, base, stateIndex.dict, blocks);
    NoDupCard(order);
    assert |stateIndex.dict| == |stateIndex.dict.Keys|;
    p := Pass(base, |order|, stateIndex.dict, sym, blocks);
  }

  /** Translates an automaton. */
  method TranslateUpward(A: Aut, order: seq<State>)
    returns (l: Lts, part: seq<seq<nat>>, rel: Relation, ghost N: UpNumbering, state: map<State, nat>)
    requires Suitable(A) && Lists(order, A)
    ensures l.Valid() && PartitionOf(l.states, part) && Reflexive(|part|, rel) && Transitive(rel)
    ensures UpBuilds(A, |A.States()|, N, l) && Admits(A, |A.States()|, N, Lift(l.states, part, rel))
    ensures N.state == state && Positions(order, state) && LooksUp(N)
    ensures N.sym.Keys == DownSim.SymbolsOf(A.trans) && l.states == |A.States()| + 1 + |N.env|
  {
    var stateIndex := new Translator<State>(map[], 0);
    var p := FirstPass(A, order, stateIndex);
    state := p.state;
    l, part, rel, N := BuildAll(A, p, stateIndex);
  }

  method BuildAll(A: Aut, p: Pass, stateIndex: Translator<State>) returns (l: Lts, part: seq<seq<nat>>, rel: Relation, ghost N: UpNumbering)
    requires Suitable(A) && PassOk(A, p) && stateIndex.dict == p.state && stateIndex.next == p.n
    modifies stateIndex
    ensures l.Valid() && PartitionOf(l.states, part) && Reflexive(|part|, rel) && Transitive(rel)
    ensures UpBuilds(A, p.n, N, l) && Admits(A, p.n, N, Lift(l.states, part, rel)) && LooksUp(N)
    ensures N.state == p.state && N.sym == p.sym && l.states == p.n + 1 + |N.env|
  {
    var E;
    l, E, N := BuildSystem(A, p.n, stateIndex, p.sym);
    part, rel := BuildClasses(A, p, N, E);
  }

  method BuildClasses(A: Aut, p: Pass, ghost N: UpNumbering, E: Envs) returns (part: seq<seq<nat>>, rel: Relation)
    requires PassOk(A, p) && N.state == p.state && N.env == E.env && EnvsOk(E, p.n + 1)
    ensures PartitionOf(E.cnt, part) && Reflexive(|part|, rel) && Transitive(rel) && Admits(A, p.n, N, Lift(E.cnt, part, rel))
  {
    part := p.blocks + [[p.n]] + E.blocks;
    rel := BuildRelation(p.base, E.head);
    PassPartition(A, p, N, E, part, rel);
  }

  lemma PassPartition(A: Aut, p: Pass, N: UpNumbering, E: Envs, part: seq<seq<nat>>, rel: Relation)
    requires PassOk(A, p) && N.state == p.state && N.env == E.env && EnvsOk(E, p.n + 1) && RelIs(rel, p.base, p.base + |E.head|)
    requires part == p.blocks + [[p.n]] + E.blocks
    ensures PartitionOf(E.cnt, part) && Reflexive(|part|, rel) && Transitive(rel) && Admits(A, p.n, N, Lift(E.cnt, part, rel))
  {
    PartitionRight(A, p.base, p.n, N, E, p.blocks, part, rel);
  }

  /** Every state that is the parent of several children stands at the position that it names. */
  ghost predicate InPlace(A: Aut, order: seq<State>) {
    forall tr {:trigger tr in A.trans} :: tr in A.trans && |tr.kids| > 1 ==> tr.parent < |order| && order[tr.parent] == tr.parent
  }

  /** The edges out of environments are those of the encoding if and only if every parent of several
      children stands at the position that it names. */
  lemma InPlaceExact(A: Aut, order: seq<State>, n: nat, N: UpNumbering, l: Lts)
    requires UpBuilds(A, n, N, l) && LooksUp(N) && Positions(order, N.state)
    ensures OutEdgesLeadToParents(N) <==> InPlace(A, order)
    ensures LookFixes(A, N) <==> InPlace(A, order)
  {
    OutEdgesExact(A, n, N, l);
    forall tr | tr in A.trans && |tr.kids| > 1 ensures ParentFits(order, N, tr) {
      ParentInPlace(A, order, n, N, l, tr);
    }
    FixesInPlace(A, order, N);
  }

  ghost predicate ParentFits(order: seq<State>, N: UpNumbering, tr: Transition) {
    && tr.parent in N.state && N.state[tr.parent] in N.look
    && (N.look[N.state[tr.parent]] == N.state[tr.parent] <==> tr.parent < |order| && order[tr.parent] == tr.parent)
  }

  lemma FixesInPlace(A: Aut, order: seq<State>, N: UpNumbering)
    requires forall tr :: tr in A.trans && |tr.kids| > 1 ==> ParentFits(order, N, tr)
    ensures LookFixes(A, N) <==> InPlace(A, order)
  {
  }

  lemma ParentInPlace(A: Aut, order: seq<State>, n: nat, N: UpNumbering, l: Lts, tr: Transition)
    requires UpBuilds(A, n, N, l) && LooksUp(N) && Positions(order, N.state) && tr in A.trans && |tr.kids| > 1
    ensures ParentFits(order, N, tr)
  {
    assert Knows(N, tr);
    var e := EnvOf(N.state, N.sym, tr, 0);
    assert e in N.env && e.state == N.state[tr.parent];
    assert Apart(N.look, tr.parent, N.state[tr.parent]);
    InPositions(order, N.state, tr.parent);
  }

  lemma InPositions(order: seq<State>, state: map<State, nat>, p: State)
    requires Positions(order, state) && p in state
    ensures state[p] == p <==> p < |order| && order[p] == p
  {
    var i :| 0 <= i < |order| && order[i] == p;
  }

  lemma PartitionRight(A: Aut, base: nat, n: nat, N: UpNumbering, E: Envs, blocks: seq<seq<nat>>, part: seq<seq<nat>>, rel: Relation)
    requires Numbered(A, base, n, N, E) && BaseFits(A, base, N) && RelIs(rel, base, base + |E.head|)
    requires StateClasses(A, base, N.state, blocks) && part == blocks + [[n]] + E.blocks
    requires forall b :: 0 <= b < |blocks| ==> blocks[b] != [] && NoDup(blocks[b])
    ensures PartitionOf(E.cnt, part) && Reflexive(|part|, rel) && Transitive(rel) && Admits(A, n, N, Lift(E.cnt, part, rel))
  {
    RelPreorder(rel, base, |part|);
    PartBuilt(A, base, n, N, E, blocks);
    PartFilled(E, n, blocks, part);
    PartIsPartition(A, base, n, N, E, part);
    LiftAdmits(A, base, n, N, E, part, rel);
  }

  lemma PartFilled(E: Envs, n: nat, blocks: seq<seq<nat>>, part: seq<seq<nat>>)
    requires EnvsOk(E, n + 1) && part == blocks + [[n]] + E.blocks && forall b :: 0 <= b < |blocks| ==> blocks[b] != [] && NoDup(blocks[b])
    ensures forall b :: 0 <= b < |part| ==> part[b] != [] && NoDup(part[b])
  {
    forall b | 0 <= b < |part| ensures part[b] != [] && NoDup(part[b]) {
      if b > |blocks| {
        var i := b - |blocks| - 1;
        assert part[b] == E.blocks[i] && ClassIs(E.env, E.head[i], E.blocks[i]);
      }
    }
  }

  method BuildSystem(A: Aut, n: nat, stateIndex: Translator<State>, sym: map<Symbol, nat>) returns (l: Lts, E: Envs, ghost N: UpNumbering)
    requires Suitable(A) && Fixed(A, n, stateIndex.dict, sym) && stateIndex.next == n
    modifies stateIndex
    ensures N.state == old(stateIndex.dict) && N.sym == sym && N.env == E.env && EnvsOk(E, n + 1) && LooksUp(N)
    ensures l.Valid() && UpBuilds(A, n, N, l) && l.states == E.cnt
  {
    var result := new ExplicitLTS(0);
    E, N := AddAll(A, n, stateIndex, sym, result);
    ghost var edges := result.edges;
    l := result.Init();
    SystemBuilt(A, n, N, E, edges, l);
  }

  /** The second and the third pass. */
  method AddAll(A: Aut, n: nat, stateIndex: Translator<State>, sym: map<Symbol, nat>, lts: ExplicitLTS) returns (E: Envs, ghost N: UpNumbering)
    requires Fixed(A, n, stateIndex.dict, sym) && stateIndex.next == n && lts.Valid() && lts.edges == multiset{} && lts.states == 0
    modifies stateIndex, lts
    ensures N.state == old(stateIndex.dict) && N.sym == sym && N.env == E.env && E.env.Keys == EnvsOf(N.state, N.sym, A.trans)
    ensures EnvsOk(E, n + 1) && LooksUp(N) && lts.Valid() && lts.states <= E.cnt && EdgesWithOut(lts.edges, N, n, A.trans, E.env.Keys)
  {
    var state := stateIndex.dict;
    AllUsable(A, n, state, sym);
    E := AddTransitions(lts, A.trans, state, sym, n);
    ghost var first := Num(state, sym, E);
    LookStarts(A, n, first, E, lts.edges);
    ghost var keys := AddParents(lts, A.trans, stateIndex, n, E.env, E.cnt, first);
    N := Looked(first, stateIndex.dict);
    LookEnds(lts.edges, first, n, A.trans, stateIndex.dict, stateIndex.next, keys, E.cnt);
  }

  // ---------------------------------------------------------------- states without transitions

  /** The children of transitions. */
  function Kids(A: Aut): (r: set<State>)
    ensures A.States() == A.finals + A.Parents() + r
  {
    set tr, i | tr in A.trans && 0 <= i < |tr.kids| :: tr.kids[i]
  }

  /** The numbers of the parents of several children, which are looked up as if they were states. */
  function SeveralNumbers(A: Aut, state: map<State, nat>): set<State> {
    set tr | tr in A.trans && |tr.kids| > 1 && tr.parent in state :: state[tr.parent]
  }

  /** The numbers given to states over the whole translation: first to those that have transitions,
      then to children as they are met, then to numbers of parents. The number of the leaf node, which
      is the number of states with transitions, is given once more if and only if some child has no
      transition, or some number of a parent of several children is not a state with transitions. */
  method NumberOnDemand(A: Aut, order: seq<State>) returns (stateIndex: Translator<State>)
    requires Lists(order, A)
    ensures forall i :: 0 <= i < |order| ==> order[i] in stateIndex.dict && stateIndex.dict[order[i]] == i
    ensures stateIndex.dict.Keys == A.Parents() + (Kids(A) + SeveralNumbers(A, stateIndex.dict))
    ensures GivenState(stateIndex.dict, |A.Parents()|) <==> !(Kids(A) + SeveralNumbers(A, stateIndex.dict) <= A.Parents())
  {
    stateIndex := new Translator<State>(map[], 0);
    NumberSeq(stateIndex, order);
    stateIndex.NextIsSize();
    ghost var first := stateIndex.dict;
    IsFilled(first);
    NumberSet(stateIndex, Kids(A));
    ghost var second := stateIndex.dict;
    NumberSet(stateIndex, SeveralNumbers(A, stateIndex.dict));
    stateIndex.NextIsSize();
    IsFilled(stateIndex.dict);
    LeafOnDemand(A, order, first, second, stateIndex.dict);
  }

  ghost predicate Filled(dict: map<State, nat>) {
    && (forall q {:trigger dict[q]} :: q in dict ==> dict[q] < |dict|)
    && (forall n: nat {:trigger GivenState(dict, n)} :: n < |dict| ==> GivenState(dict, n))
  }

  lemma IsFilled(dict: map<State, nat>)
    requires (forall q :: q in dict ==> dict[q] < |dict|) && forall n :: 0 <= n < |dict| ==> n in dict.Values
    ensures Filled(dict)
  {
    forall n: nat | n < |dict| ensures GivenState(dict, n) {
      assert n in dict.Values;
    }
  }

  lemma LeafOnDemand(A: Aut, order: seq<State>, first: map<State, nat>, second: map<State, nat>, dict: map<State, nat>)
    requires Lists(order, A) && Positions(order, first) && Filled(first) && Filled(dict)
    requires Adds(first, second, Kids(A)) && Adds(second, dict, SeveralNumbers(A, second))
    ensures forall i :: 0 <= i < |order| ==> order[i] in dict && dict[order[i]] == i
    ensures dict.Keys == A.Parents() + (Kids(A) + SeveralNumbers(A, dict))
    ensures GivenState(dict, |A.Parents()|) <==> !(Kids(A) + SeveralNumbers(A, dict) <= A.Parents())
  {
    OnDemand(A, order, first, second, dict);
    LeafNumber(first, dict, A.Parents(), Kids(A) + SeveralNumbers(A, dict));
  }

  lemma OnDemand(A: Aut, order: seq<State>, first: map<State, nat>, second: map<State, nat>, dict: map<State, nat>)
    requires Lists(order, A) && Positions(order, first)
    requires Adds(first, second, Kids(A)) && Adds(second, dict, SeveralNumbers(A, second))
    ensures forall i :: 0 <= i < |order| ==> order[i] in dict && dict[order[i]] == i
    ensures dict.Keys == A.Parents() + (Kids(A) + SeveralNumbers(A, dict)) && forall q :: q in first ==> q in dict && dict[q] == first[q]
  {
    forall q | q in first ensures q in dict && dict[q] == first[q] {
      assert q in second;
    }
    SeveralStay(A, first, second);
    SeveralStay(A, first, dict);
  }

  lemma SeveralStay(A: Aut, first: map<State, nat>, dict: map<State, nat>)
    requires first.Keys == A.Parents() && forall q :: q in first ==> q in dict && dict[q] == first[q]
    ensures SeveralNumbers(A, dict) == SeveralNumbers(A, first)
  {
    forall tr | tr in A.trans ensures tr.parent in first { }
  }

  method NumberSeq(stateIndex: Translator<State>, order: seq<State>)
    requires NoDup(order) && stateIndex.dict == map[] && stateIndex.next == 0
    modifies stateIndex
    ensures stateIndex.Numbers(0) && Positions(order, stateIndex.dict)
  {
    for i := 0 to |order|
      invariant stateIndex.Numbers(0) && stateIndex.next == i && Positions(order[..i], stateIndex.dict)
    {
      PositionsMore(order, i, stateIndex.dict);
      var _ := stateIndex.Translate(order[i]);
    }
    assert order[..|order|] == order;
  }

  lemma PositionsMore(order: seq<State>, i: nat, state: map<State, nat>)
    requires i < |order| && NoDup(order) && Positions(order[..i], state)
    ensures order[i] !in state && Positions(order[..i + 1], state[order[i] := i])
  {
    PrefixMore(order, i);
  }

  method NumberSet(stateIndex: Translator<State>, S: set<State>)
    requires stateIndex.Numbers(0)
    modifies stateIndex
    ensures stateIndex.Numbers(0) && Adds(old(stateIndex.dict), stateIndex.dict, S)
  {
    var todo := S;
    while todo != {}
      invariant todo <= S && stateIndex.Numbers(0) && Adds(old(stateIndex.dict), stateIndex.dict, S - todo)
      decreases todo
    {
      var q :| q in todo;
      ghost var before := stateIndex.dict;
      NumberOne(stateIndex, q);
      AddsOne(old(stateIndex.dict), before, stateIndex.dict, S - todo, q);
      assert S - (todo - {q}) == S - todo + {q};
      todo := todo - {q};
    }
    assert S - todo == S;
  }

  method NumberOne(stateIndex: Translator<State>, q: State)
    requires stateIndex.Numbers(0)
    modifies stateIndex
    ensures stateIndex.Numbers(0) && Adds(old(stateIndex.dict), stateIndex.dict, {q})
  {
    var _ := stateIndex.Translate(q);
  }

  ghost predicate Adds(dict: map<State, nat>, dict': map<State, nat>, S: set<State>) {
    dict'.Keys == dict.Keys + S && forall q :: q in dict ==> dict'[q] == dict[q]
  }

  lemma AddsOne(dict: map<State, nat>, dict1: map<State, nat>, dict2: map<State, nat>, S: set<State>, q: State)
    requires Adds(dict, dict1, S) && Adds(dict1, dict2, {q})
    ensures Adds(dict, dict2, S + {q})
  {
    forall p | p in dict ensures dict2[p] == dict[p] {
      assert dict1[p] == dict[p];
    }
  }

  lemma LeafNumber(first: map<State, nat>, dict: map<State, nat>, parents: set<State>, kids: set<State>)
    requires first.Keys == parents && dict.Keys == parents + kids && (forall q :: q in first ==> dict[q] == first[q] < |first|) && Filled(dict)
    ensures |first| == |parents| && (GivenState(dict, |parents|) <==> !(kids <= parents))
  {
    assert |first| == |first.Keys| && |dict| == |dict.Keys|;
    if kids <= parents {
      assert parents + kids == parents;
    } else {
      var q :| q in kids && q !in parents;
      SubsetSize(parents + {q}, parents + kids);
      assert |parents + {q}| == |parents| + 1;
    }
  }

  /** A final and another state come into one class if and only if there are both, and at least as
      many final states as states with transitions. */
  lemma OneClassExact(A: Aut)
    ensures (exists p, q :: OneClass(A, p, q)) <==> |A.finals| >= |A.Parents()| && A.finals * A.Parents() != {} && !(A.Parents() <= A.finals)
  {
    if p, q :| OneClass(A, p, q) {
      assert p in A.finals * A.Parents();
    }
    if |A.finals| >= |A.Parents()| && A.finals * A.Parents() != {} && !(A.Parents() <= A.finals) {
      var p :| p in A.finals * A.Parents();
      var q :| q in A.Parents() && q !in A.finals;
      assert OneClass(A, p, q);
    }
  }

  ghost predicate OneClass(A: Aut, p: State, q: State) {
    && p in A.Parents() && q in A.Parents() && p in A.finals && q !in A.finals
    && FinalClass(A, BaseOf(A), p) == FinalClass(A, BaseOf(A), q)
  }

  /** A final state without transitions makes up the number: a final state and another one start as
      equivalent. */
  lemma FinalityLost()
    ensures var A := Aut({0, 1}, {Transition(1, 7, []), Transition(2, 7, [])});
            OneClass(A, 1, 2)
  {
    var A := Aut({0, 1}, {Transition(1, 7, []), Transition(2, 7, [])});
    assert Transition(1, 7, []) in A.trans && Transition(2, 7, []) in A.trans;
    assert A.Parents() == {1, 2};
    assert |A.finals| == 2;
  }
}
