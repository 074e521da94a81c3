/** The downward complementation: a worklist of sets of states, and for every set, symbol and
    choice function one transition. */
module Complement {
  import opened ChoiceFunctions
  import opened Collections
  import opened ComplementSpec
  import opened InclusionSpec
  import opened Preorders
  import opened TreeAutomata
  import opened Useless

  /** The sets numbered so far, and those of them still to be treated. */
  datatype Table = Table(cache: StateCache, todo: set<set<State>>)

  ghost predicate Proper(U: set<set<State>>, tab: Table) {
    Numbering(tab.cache) && tab.todo <= tab.cache.Keys && tab.cache.Keys <= U
  }

  /** More sets may have been numbered, and all of these are still to be treated. */
  ghost predicate Extended(tab: Table, tab': Table) {
    && CacheExtends(tab'.cache, tab.cache)
    && tab'.cache.Keys - tab'.todo == tab.cache.Keys - tab.todo
  }

  /** The number of set S; a new set is put on the worklist. */
  method Intern(tab: Table, S: set<State>, ghost U: set<set<State>>) returns (tab': Table, n: State)
    requires Proper(U, tab) && S in U
    ensures Proper(U, tab') && Extended(tab, tab')
    ensures S in tab'.cache && tab'.cache[S] == n
  {
    tab' := tab;
    if S !in tab.cache {
      tab' := Table(tab.cache[S := |tab.cache|], tab.todo + {S});
    }
    n := tab'.cache[S];
  }

  method InternAll(tab: Table, Ps: seq<set<State>>, ghost U: set<set<State>>) returns (tab': Table, kids: seq<State>)
    requires Proper(U, tab) && forall i :: 0 <= i < |Ps| ==> Ps[i] in U
    ensures Proper(U, tab') && Extended(tab, tab') && Numbered(tab'.cache, Ps, kids)
  {
    tab', kids := tab, [];
    while |kids| < |Ps|
      invariant |kids| <= |Ps| && Proper(U, tab') && Extended(tab, tab')
      invariant forall i :: 0 <= i < |kids| ==> Ps[i] in tab'.cache && tab'.cache[Ps[i]] == kids[i]
    {
      var n;
      tab', n := Intern(tab', Ps[|kids|], U);
      kids := kids + [n];
    }
  }

  /** Distributes the states over the positions: each tuple gives its state at the chosen one, and
      at every position only states that are not below others are kept. */
  method Distribute(ws: seq<seq<State>>, cf: seq<nat>, n: nat, R: Preorder, ghost states: set<State>) returns (post: seq<set<State>>)
    requires IsChoice(cf, |ws|, n) && Reflexive(R, states) && Transitive(R)
    requires forall k :: 0 <= k < |ws| ==> |ws[k]| == n && SetOf(ws[k]) <= states
    ensures AllPruned(R, ChosenSets(ws, cf, n), post)
  {
    post := seq(n, _ => {});
    var i := 0;
    while i < |ws|
      invariant 0 <= i <= |ws| && |post| == n
      invariant forall j :: 0 <= j < n ==> Pruned(R, Chosen(ws[..i], cf[..i], j), post[j]) && Flat(R, post[j])
    {
      var choice := cf[i];
      var state := ws[i][choice];
      assert state in SetOf(ws[i]);
      ghost var before := post;
      post := post[choice := PutState(R, post[choice], state)];
      forall j | 0 <= j < n ensures Pruned(R, Chosen(ws[..i + 1], cf[..i + 1], j), post[j]) && Flat(R, post[j]) {
        ChosenStep(ws, cf, i, j);
        PutPruned(R, Chosen(ws[..i], cf[..i], j), before[j], state);
      }
      i := i + 1;
    }
    assert ws[..i] == ws && cf[..i] == cf;
  }

  /** A state is put into the set unless it is below one there, in place of the states below it. */
  function PutState(R: Preorder, S: set<State>, s: State): set<State> {
    if Bigger(R, s) * S != {} then S else S - Smaller(R, s) + {s}
  }

  lemma PutPruned(R: Preorder, X: set<State>, S: set<State>, s: State)
    requires Transitive(R) && Rel(R, s, s) && Pruned(R, X, S)
    ensures Pruned(R, X + {s}, PutState(R, S, s)) && (Flat(R, S) ==> Flat(R, PutState(R, S, s)))
  {
    if Flat(R, S) { PutFlat(R, S, s); }
    if Bigger(R, s) * S != {} {
      IsMet(R, s, S);
    } else {
      PruneStep(R, X, S, s, Smaller(R, s));
    }
  }

  lemma PutFlat(R: Preorder, S: set<State>, s: State)
    requires Flat(R, S)
    ensures Flat(R, PutState(R, S, s))
  {
    if Bigger(R, s) * S == {} {
      forall x | x in S ensures !Rel(R, s, x) {
        assert x !in Bigger(R, s) * S;
      }
    }
  }

  /** The final states that are not below others. */
  method PruneFinals(A: Aut, R: Preorder) returns (post: set<State>)
    requires Reflexive(R, A.States()) && Transitive(R)
    ensures Pruned(R, A.finals, post) && Flat(R, post)
  {
    post := {};
    var todo := A.finals;
    while todo != {}
      invariant todo <= A.finals && Pruned(R, A.finals - todo, post) && Flat(R, post)
      decreases todo
    {
      var s :| s in todo;
      assert A.finals - (todo - {s}) == A.finals - todo + {s} && s in A.States();
      PutPruned(R, A.finals - todo, post, s);
      post := PutState(R, post, s);
      todo := todo - {s};
    }
    assert A.finals - todo == A.finals;
  }

  lemma ChosenStep(ws: seq<seq<State>>, cf: seq<nat>, i: nat, j: nat)
    requires i < |ws| == |cf| && forall k :: 0 <= k < |ws| ==> j < |ws[k]|
    ensures Chosen(ws[..i + 1], cf[..i + 1], j) == Chosen(ws[..i], cf[..i], j) + if cf[i] == j then {ws[i][j]} else {}
  {
    var S, S' := Chosen(ws[..i], cf[..i], j), Chosen(ws[..i + 1], cf[..i + 1], j);
    forall s | s in S' ensures s in S || (cf[i] == j && s == ws[i][j]) {
      var k :| 0 <= k < i + 1 && cf[..i + 1][k] == j && ws[..i + 1][k][j] == s;
      assert k < i ==> ws[..i][k][j] == s && cf[..i][k] == j;
    }
    forall s | s in S ensures s in S' {
      var k :| 0 <= k < i && cf[..i][k] == j && ws[..i][k][j] == s;
      assert ws[..i + 1][k][j] == s && cf[..i + 1][k] == j;
    }
    assert cf[..i + 1][i] == cf[i] && ws[..i + 1][i] == ws[i];
  }

  /** The numbers of the sets that the choice function makes, pruned. */
  ghost predicate Shows(R: Preorder, ws: seq<seq<State>>, n: nat, cf: seq<nat>, cache: StateCache, kids: seq<State>) {
    && IsChoice(cf, |ws|, n) && (forall k :: 0 <= k < |ws| ==> |ws[k]| == n)
    && exists Xs :: AllPruned(R, ChosenSets(ws, cf, n), Xs) && Numbered(cache, Xs, kids)
  }

  ghost predicate AllShown(R: Preorder, ws: seq<seq<State>>, n: nat, cache: StateCache, seen: seq<seq<nat>>, given: seq<seq<State>>) {
    |given| == |seen| && forall i :: 0 <= i < |seen| ==> Shows(R, ws, n, seen[i], cache, given[i])
  }

  /** The transitions, and those of p under a to the given tuples. */
  ghost function Added(trans: set<Transition>, p: State, a: Symbol, given: seq<seq<State>>): set<Transition> {
    trans + set kids | kids in given :: Transition(p, a, kids)
  }

  ghost predicate NoRow(trans: set<Transition>, p: State, a: Symbol) {
    forall tr :: tr in trans ==> !(tr.parent == p && tr.sym == a)
  }

  /** All the choice functions have been treated, so the row is as it should be. */
  lemma RowFromChoices(A: Aut, alphabet: Alphabet, R: Preorder, cache: StateCache, trans: set<Transition>, P: set<State>, a: Symbol,
                       ws: seq<seq<State>>, seen: seq<seq<nat>>, given: seq<seq<State>>)
    requires P in cache && a in alphabet && NoDup(ws) && SetOf(ws) == TuplesOf(A, P, a)
    requires forall k :: 0 <= k < |ws| ==> |ws[k]| == alphabet[a]
    requires AllShown(R, ws, alphabet[a], cache, seen, given) && NoRow(trans, cache[P], a)
    requires forall cf :: IsChoice(cf, |ws|, alphabet[a]) ==> cf in seen
    ensures Row(A, alphabet, R, cache, Added(trans, cache[P], a, given), P, a)
  {
    var W, n, trans' := SetOf(ws), alphabet[a], Added(trans, cache[P], a, given);
    forall kids | Transition(cache[P], a, kids) in trans' ensures Leads(R, W, n, cache, kids) {
      assert Transition(cache[P], a, kids) !in trans && kids in given;
      var i :| 0 <= i < |given| && given[i] == kids;
      assert Shows(R, ws, n, seen[i], cache, given[i]);
      VectorIsTarget(ws, seen[i], n);
    }
    forall Ps | Target(W, n, Ps) ensures Offered(R, cache, trans', cache[P], a, Ps) {
      var cf := TargetIsVector(ws, n, Ps);
      var i :| 0 <= i < |seen| && seen[i] == cf;
      assert Shows(R, ws, n, seen[i], cache, given[i]) && given[i] in given;
    }
  }

  lemma ShownStill(R: Preorder, ws: seq<seq<State>>, n: nat, cache: StateCache, cache': StateCache, seen: seq<seq<nat>>,
          given: seq<seq<State>>)
    requires AllShown(R, ws, n, cache, seen, given) && CacheExtends(cache', cache)
    ensures AllShown(R, ws, n, cache', seen, given)
  {
    forall i | 0 <= i < |seen| ensures Shows(R, ws, n, seen[i], cache', given[i]) {
      assert Shows(R, ws, n, seen[i], cache, given[i]);
      var Xs :| AllPruned(R, ChosenSets(ws, seen[i], n), Xs) && Numbered(cache, Xs, given[i]);
      assert Numbered(cache', Xs, given[i]);
    }
  }

  /** The numbers of the sets that one choice function makes. */
  method NumberChoice(tab: Table, ws: seq<seq<State>>, n: nat, cf: seq<nat>, R: Preorder,
          ghost states: set<State>, ghost U: set<set<State>>) returns (tab': Table, kids: seq<State>)
    requires Proper(U, tab) && NoDup(ws) && IsChoice(cf, |ws|, n) && Reflexive(R, states) && Transitive(R)
    requires (forall k :: 0 <= k < |ws| ==> |ws[k]| == n && SetOf(ws[k]) <= states) && MakesIn(R, SetOf(ws), n, U)
    ensures Proper(U, tab') && Extended(tab, tab') && Shows(R, ws, n, cf, tab'.cache, kids)
  {
    var post := Distribute(ws, cf, n, R, states);
    VectorIsTarget(ws, cf, n);
    forall i | 0 <= i < |post| ensures post[i] in U {
      assert AllPruned(R, ChosenSets(ws, cf, n), post);
    }
    tab', kids := InternAll(tab, post, U);
  }

  /** One transition for every choice function. Each function is treated exactly once. */
  method AddChoices(tab: Table, trans: set<Transition>, p: State, a: Symbol, ws: seq<seq<State>>, n: nat,
          R: Preorder, ghost states: set<State>, ghost U: set<set<State>>)
    returns (tab': Table, trans': set<Transition>, ghost seen: seq<seq<nat>>, ghost given: seq<seq<State>>)
    requires Proper(U, tab) && ws != [] && n > 0 && Reflexive(R, states) && Transitive(R)
    requires NoDup(ws) && (forall k :: 0 <= k < |ws| ==> |ws[k]| == n && SetOf(ws[k]) <= states) && MakesIn(R, SetOf(ws), n, U)
    ensures Proper(U, tab') && Extended(tab, tab')
    ensures AllShown(R, ws, n, tab'.cache, seen, given) && trans' == Added(trans, p, a, given)
    ensures NoDup(seen) && forall cf :: IsChoice(cf, |ws|, n) <==> cf in seen
  {
    tab', trans', seen, given := tab, trans, [], [];
    var choiceFunction := new ChoiceFunction(|ws|, n);
    var more := true;
    SeenNone(choiceFunction.data, |ws|, n);
    while more
      invariant fresh(choiceFunction) && choiceFunction.Valid() && |choiceFunction.data| == |ws| && choiceFunction.arity == n
      invariant Proper(U, tab') && Extended(tab, tab')
      invariant AllShown(R, ws, n, tab'.cache, seen, given) && trans' == Added(trans, p, a, given)
      invariant NoDup(seen) && SeenUpTo(seen, choiceFunction.data, |ws|, n, !more)
      decreases more, Left(choiceFunction.data, Uniform(|ws|, n))
    {
      ghost var cf, before := choiceFunction.data, tab';
      var kids;
      tab', kids := NumberChoice(tab', ws, n, choiceFunction.data, R, states, U);
      trans' := trans' + {Transition(p, a, kids)};
      ShownStill(R, ws, n, before.cache, tab'.cache, seen, given);
      AddedOne(trans, p, a, given, kids);
      more := choiceFunction.Next();
      SeenNext(seen, cf, |ws|, n);
      seen, given := seen + [cf], given + [kids];
      if more { SuccLeavesFewer(cf, Uniform(|ws|, n)); }
    }
  }

  lemma AddedOne(trans: set<Transition>, p: State, a: Symbol, given: seq<seq<State>>, kids: seq<State>)
    ensures Added(trans, p, a, given + [kids]) == Added(trans, p, a, given) + {Transition(p, a, kids)}
  {
    assert kids in given + [kids];
    forall ks ensures ks in given + [kids] <==> ks in given || ks == kids { }
  }

  lemma SeenNone(current: seq<nat>, length: nat, n: nat)
    requires current == Uniform(length, 0)
    ensures SeenUpTo([], current, length, n, false)
  {
    forall cf | IsChoice(cf, length, n) ensures !Before(cf, current) {
      ZeroIsFirst(cf, current);
    }
  }

  /** The functions seen are those before the current one, or all. */
  ghost predicate SeenUpTo(seen: seq<seq<nat>>, current: seq<nat>, length: nat, n: nat, all: bool)
    requires |current| == length
  {
    forall cf :: cf in seen <==> IsChoice(cf, length, n) && (all || Before(cf, current))
  }

  lemma SeenNext(seen: seq<seq<nat>>, cf: seq<nat>, length: nat, n: nat)
    requires length > 0 && IsChoice(cf, length, n) && NoDup(seen) && SeenUpTo(seen, cf, length, n, false)
    ensures NoDup(seen + [cf])
    ensures SeenUpTo(seen + [cf], Succ(cf, Uniform(length, n)), length, n, IsMax(cf, Uniform(length, n)))
  {
    NotBeforeItself(cf);
    var radix := Uniform(length, n);
    forall f | IsChoice(f, length, n)
      ensures f in seen + [cf] <==> IsMax(cf, radix) || Before(f, Succ(cf, radix))
    {
      if IsMax(cf, radix) { MaxIsLast(f, cf, radix); } else { SuccIsNext(f, cf, radix); }
    }
  }

  // ---------------------------------------------------------------- the tables

  /** For every state and symbol number, the tuples. */
  type TupleIndex = seq<seq<seq<seq<State>>>>

  function TuplesAt(index: TupleIndex, q: State, k: nat): seq<seq<State>> {
    if q < |index| && k < |index[q]| then index[q][k] else []
  }

  ghost predicate InjectiveMap(m: map<Symbol, nat>) {
    forall a, b :: a in m && b in m && m[a] == m[b] ==> a == b
  }

  /** The lists hold the tuples of the transitions T. */
  ghost predicate IndexedAs(index: TupleIndex, symbolMap: map<Symbol, nat>, T: set<Transition>) {
    forall q, a, t {:trigger t in TuplesAt(index, q, symbolMap[a])} :: a in symbolMap ==>
      (t in TuplesAt(index, q, symbolMap[a]) <==> Transition(q, a, t) in T)
  }

  /** Numbers the symbols of the alphabet, and lists their ranks by number. */
  method NumberSymbols(alphabet: Alphabet) returns (symbolMap: map<Symbol, nat>, ranks: seq<nat>)
    ensures symbolMap.Keys == alphabet.Keys && InjectiveMap(symbolMap)
    ensures forall a :: a in alphabet ==> symbolMap[a] < |ranks| && ranks[symbolMap[a]] == alphabet[a]
  {
    symbolMap, ranks := map[], [];
    var todo := alphabet.Keys;
    while todo != {}
      invariant todo <= alphabet.Keys && symbolMap.Keys == alphabet.Keys - todo && InjectiveMap(symbolMap)
      invariant forall a :: a in symbolMap ==> symbolMap[a] < |ranks| && ranks[symbolMap[a]] == alphabet[a]
      decreases todo
    {
      var a :| a in todo;
      todo := todo - {a};
      symbolMap := symbolMap[a := |ranks|];
      ranks := ranks + [alphabet[a]];
    }
  }

  method PutTuple(index: TupleIndex, q: State, k: nat, t: seq<State>) returns (index': TupleIndex)
    ensures forall p: State, j: nat :: TuplesAt(index', p, j) == TuplesAt(index, p, j) + if p == q && j == k then [t] else []
  {
    var bigger := Resized(index, q + 1);
    var lists := Resized(bigger[q], k + 1);
    assert forall p: State, j: nat :: TuplesAt(bigger, p, j) == TuplesAt(index, p, j);
    var lists' := lists[k := lists[k] + [t]];
    index' := bigger[q := lists'];
    forall p: State, j: nat ensures TuplesAt(index', p, j) == TuplesAt(bigger, p, j) + if p == q && j == k then [t] else [] {
      assert p != q ==> p < |bigger| ==> index'[p] == bigger[p];
    }
  }

  method TopDownIndex(A: Aut, symbolMap: map<Symbol, nat>) returns (index: TupleIndex)
    requires InjectiveMap(symbolMap) && forall tr :: tr in A.trans ==> tr.sym in symbolMap
    ensures IndexedAs(index, symbolMap, A.trans)
  {
    index := [];
    var todo := A.trans;
    while todo != {}
      invariant todo <= A.trans && IndexedAs(index, symbolMap, A.trans - todo)
      decreases todo
    {
      var tr :| tr in todo;
      ghost var before := index;
      index := PutTuple(index, tr.parent, symbolMap[tr.sym], tr.kids);
      forall q, a, t | a in symbolMap
        ensures t in TuplesAt(index, q, symbolMap[a]) <==> Transition(q, a, t) in A.trans - (todo - {tr})
      {
        assert t in TuplesAt(before, q, symbolMap[a]) <==> Transition(q, a, t) in A.trans - todo;
      }
      todo := todo - {tr};
    }
    assert A.trans - todo == A.trans;
  }

  /** The tuples of the states in P under one symbol, each once. */
  method CollectTuples(index: TupleIndex, P: set<State>, k: nat) returns (ws: seq<seq<State>>)
    ensures NoDup(ws)
    ensures forall t :: t in ws <==> exists q :: q in P && t in TuplesAt(index, q, k)
  {
    ws := [];
    var todo := P;
    while todo != {}
      invariant todo <= P && NoDup(ws)
      invariant forall t :: t in ws <==> exists q :: q in P - todo && t in TuplesAt(index, q, k)
      decreases todo
    {
      var q :| q in todo;
      todo := todo - {q};
      ws := AddTuples(ws, TuplesAt(index, q, k));
    }
  }

  method AddTuples(ws: seq<seq<State>>, list: seq<seq<State>>) returns (ws': seq<seq<State>>)
    requires NoDup(ws)
    ensures NoDup(ws') && forall t :: t in ws' <==> t in ws || t in list
  {
    ws' := ws;
    var i := 0;
    while i < |list|
      invariant 0 <= i <= |list| && NoDup(ws')
      invariant forall t :: t in ws' <==> t in ws || t in list[..i]
    {
      assert list[..i + 1] == list[..i] + [list[i]];
      if list[i] !in ws' {
        NoDupAppend(ws', list[i]);
        ws' := ws' + [list[i]];
      }
      i := i + 1;
    }
    assert list[..i] == list;
  }

  // ---------------------------------------------------------------- the construction

  ghost predicate SameElsewhere(trans: set<Transition>, trans': set<Transition>, p: State) {
    forall tr: Transition :: tr.parent != p ==> (tr in trans <==> tr in trans')
  }

  ghost predicate Fitting(alphabet: Alphabet, trans: set<Transition>) {
    forall tr :: tr in trans ==> tr.sym in alphabet && |tr.kids| == alphabet[tr.sym]
  }

  lemma AddedFits(alphabet: Alphabet, R: Preorder, trans: set<Transition>, p: State, a: Symbol, ws: seq<seq<State>>,
          cache: StateCache, seen: seq<seq<nat>>, given: seq<seq<State>>)
    requires Fitting(alphabet, trans) && a in alphabet && AllShown(R, ws, alphabet[a], cache, seen, given)
    ensures Fitting(alphabet, Added(trans, p, a, given))
  {
    forall kids | kids in given ensures |kids| == alphabet[a] {
      var i :| 0 <= i < |given| && given[i] == kids;
      assert Shows(R, ws, alphabet[a], seen[i], cache, given[i]);
    }
  }

  /** The transitions of set P under symbol a. */
  method ComputeRow(ghost A: Aut, ghost alphabet: Alphabet, tab: Table, trans: set<Transition>, P: set<State>,
          a: Symbol, ws: seq<seq<State>>, n: nat, R: Preorder, ghost U: set<set<State>>)
    returns (tab': Table, trans': set<Transition>, ghost given: seq<seq<State>>)
    requires AlphabetOf(A, alphabet) && a in alphabet && n == alphabet[a] && Reflexive(R, A.States()) && Transitive(R)
    requires Proper(U, tab) && P in tab.cache && NoDup(ws) && SetOf(ws) == TuplesOf(A, P, a)
    requires NoRow(trans, tab.cache[P], a) && Fitting(alphabet, trans) && MakesIn(R, SetOf(ws), n, U)
    ensures Proper(U, tab') && Extended(tab, tab') && Fitting(alphabet, trans')
    ensures Row(A, alphabet, R, tab'.cache, trans', P, a) && trans' == Added(trans, tab.cache[P], a, given)
  {
    ghost var seen;
    TuplesInside(A, alphabet, P, a, ws);
    if ws == [] && n == 0 {
      tab', trans' := tab, trans + {Transition(tab.cache[P], a, [])};
      seen, given := [[]], [[]];
      NullaryShown(R, ws, tab.cache);
    } else if ws == [] {
      var sink;
      EmptyIn(R, ws, n, U);
      tab', sink := Intern(tab, {}, U);
      trans' := trans + {Transition(tab.cache[P], a, Uniform(n, sink))};
      seen, given := [[]], [Uniform(n, sink)];
      SinkShown(R, ws, n, tab'.cache, sink);
    } else if n == 0 {
      tab', trans', seen, given := tab, trans, [], [];
      forall cf ensures !IsChoice(cf, |ws|, 0) {
        assert |cf| == |ws| ==> cf[0] >= 0;
      }
    } else {
      tab', trans', seen, given := AddChoices(tab, trans, tab.cache[P], a, ws, n, R, A.States(), U);
    }
    assert trans' == Added(trans, tab.cache[P], a, given);
    RowFromChoices(A, alphabet, R, tab'.cache, trans, P, a, ws, seen, given);
    AddedFits(alphabet, R, trans, tab.cache[P], a, ws, tab'.cache, seen, given);
  }

  /** With no tuples, the choice makes the empty set at every position. */
  lemma EmptyIn(R: Preorder, ws: seq<seq<State>>, n: nat, U: set<set<State>>)
    requires ws == [] && n > 0 && MakesIn(R, SetOf(ws), n, U)
    ensures {} in U
  {
    VectorIsTarget(ws, [], n);
    var Xs: seq<set<State>> := seq(n, _ => {});
    forall i | 0 <= i < n ensures ChosenSets(ws, [], n)[i] == {} {
      assert Chosen(ws, [], i) == {};
    }
    assert AllPruned(R, ChosenSets(ws, [], n), Xs) && Xs[0] == {};
  }

  /** With no tuples there is one choice, and it makes empty sets. */
  lemma SinkShown(R: Preorder, ws: seq<seq<State>>, n: nat, cache: StateCache, sink: State)
    requires ws == [] && {} in cache && cache[{}] == sink
    ensures AllShown(R, ws, n, cache, [[]], [Uniform(n, sink)])
    ensures forall cf :: IsChoice(cf, |ws|, n) ==> cf in [[]]
  {
    var Xs: seq<set<State>> := seq(n, _ => {});
    forall i | 0 <= i < n ensures ChosenSets(ws, [], n)[i] == {} {
      assert Chosen(ws, [], i) == {};
    }
    assert AllPruned(R, ChosenSets(ws, [], n), Xs) && Numbered(cache, Xs, Uniform(n, sink));
  }

  /** Without positions, the one choice makes no sets at all. */
  lemma NullaryShown(R: Preorder, ws: seq<seq<State>>, cache: StateCache)
    requires ws == []
    ensures AllShown(R, ws, 0, cache, [[]], [[]])
    ensures forall cf :: IsChoice(cf, |ws|, 0) ==> cf in [[]]
  {
    assert ChosenSets(ws, [], 0) == [] && AllPruned(R, [], []) && Numbered(cache, [], []);
  }

  lemma TuplesInside(A: Aut, alphabet: Alphabet, P: set<State>, a: Symbol, ws: seq<seq<State>>)
    requires AlphabetOf(A, alphabet) && a in alphabet && SetOf(ws) == TuplesOf(A, P, a)
    ensures forall k :: 0 <= k < |ws| ==> |ws[k]| == alphabet[a] && SetOf(ws[k]) <= A.States()
  {
    forall k | 0 <= k < |ws| ensures |ws[k]| == alphabet[a] && SetOf(ws[k]) <= A.States() {
      assert ws[k] in SetOf(ws);
      var tr :| tr in A.trans && tr.parent in P && tr.sym == a && tr.kids == ws[k];
      TransitionStates(A, tr);
    }
  }

  /** The sets treated have their rows, and no other set has transitions. */
  ghost predicate Rows(A: Aut, alphabet: Alphabet, R: Preorder, tab: Table, trans: set<Transition>) {
    && (forall P, a {:trigger Row(A, alphabet, R, tab.cache, trans, P, a)} :: P in tab.cache && P !in tab.todo && a in alphabet ==> Row(A, alphabet, R, tab.cache, trans, P, a))
    && (forall tr :: tr in trans ==> exists P :: P in tab.cache && P !in tab.todo && tab.cache[P] == tr.parent)
  }

  /** While set P is treated: its rows under the symbols not in todo. */
  ghost predicate RowsOf(A: Aut, alphabet: Alphabet, R: Preorder, cache: StateCache, trans: set<Transition>, P: set<State>, todo: set<Symbol>)
  {
    P in cache
    && (forall a {:trigger Row(A, alphabet, R, cache, trans, P, a)} :: a in alphabet && a !in todo ==> Row(A, alphabet, R, cache, trans, P, a))
    && (forall a :: a in todo ==> NoRow(trans, cache[P], a))
  }

  lemma RowsOfStep(A: Aut, alphabet: Alphabet, R: Preorder, cache: StateCache, trans: set<Transition>, P: set<State>,
          todo: set<Symbol>,
                   a: Symbol, cache': StateCache, given: seq<seq<State>>)
    requires RowsOf(A, alphabet, R, cache, trans, P, todo) && a in todo && a in alphabet && CacheExtends(cache', cache)
    requires Row(A, alphabet, R, cache', Added(trans, cache[P], a, given), P, a)
    ensures RowsOf(A, alphabet, R, cache', Added(trans, cache[P], a, given), P, todo - {a})
  {
    var trans' := Added(trans, cache[P], a, given);
    forall b | b in alphabet && b !in todo - {a} ensures Row(A, alphabet, R, cache', trans', P, b) {
      if b != a {
        RowStays(A, alphabet, R, cache, trans, cache', trans', P, b);
      }
    }
    forall b | b in todo - {a} ensures NoRow(trans', cache'[P], b) { }
  }

  /** The transitions of set P under all symbols. */
  method ComputeState(ghost A: Aut, ghost alphabet: Alphabet, index: TupleIndex, symbolMap: map<Symbol, nat>,
          ranks: seq<nat>, R: Preorder,
                      tab: Table, trans: set<Transition>, P: set<State>, ghost U: set<set<State>>) returns (tab': Table, trans': set<Transition>)
    requires AlphabetOf(A, alphabet) && IndexedAs(index, symbolMap, A.trans) && symbolMap.Keys == alphabet.Keys
    requires Reflexive(R, A.States()) && Transitive(R)
    requires forall a :: a in alphabet ==> symbolMap[a] < |ranks| && ranks[symbolMap[a]] == alphabet[a]
    requires Proper(U, tab) && P in tab.cache && Fitting(alphabet, trans)
    requires (forall a :: NoRow(trans, tab.cache[P], a)) && forall a :: a in alphabet ==> MakesIn(R, TuplesOf(A, P, a), alphabet[a], U)
    ensures Proper(U, tab') && Extended(tab, tab') && Fitting(alphabet, trans')
    ensures RowsOf(A, alphabet, R, tab'.cache, trans', P, {}) && SameElsewhere(trans, trans', tab.cache[P])
  {
    tab', trans' := tab, trans;
    var todo := symbolMap.Keys;
    while todo != {}
      invariant todo <= symbolMap.Keys
      invariant Proper(U, tab') && Extended(tab, tab') && Fitting(alphabet, trans')
      invariant RowsOf(A, alphabet, R, tab'.cache, trans', P, todo) && SameElsewhere(trans, trans', tab.cache[P])
      decreases todo
    {
      var a :| a in todo;
      var ws := CollectTuples(index, P, symbolMap[a]);
      Collected(A, index, symbolMap, P, a, ws);
      ghost var before, given := tab', [];
      ghost var trans0 := trans';
      tab', trans', given := ComputeRow(A, alphabet, tab', trans', P, a, ws, ranks[symbolMap[a]], R, U);
      RowsOfStep(A, alphabet, R, before.cache, trans0, P, todo, a, tab'.cache, given);
      todo := todo - {a};
    }
  }

  lemma Collected(A: Aut, index: TupleIndex, symbolMap: map<Symbol, nat>, P: set<State>, a: Symbol, ws: seq<seq<State>>)
    requires IndexedAs(index, symbolMap, A.trans) && a in symbolMap
    requires forall t :: t in ws <==> exists q :: q in P && t in TuplesAt(index, q, symbolMap[a])
    ensures SetOf(ws) == TuplesOf(A, P, a)
  {
    forall t ensures t in ws <==> t in TuplesOf(A, P, a) {
      if t in ws {
        var q :| q in P && t in TuplesAt(index, q, symbolMap[a]);
        assert Transition(q, a, t) in A.trans;
      }
      if t in TuplesOf(A, P, a) {
        var tr :| tr in A.trans && tr.parent in P && tr.sym == a && tr.kids == t;
        assert tr == Transition(tr.parent, a, t);
        assert t in TuplesAt(index, tr.parent, symbolMap[a]);
      }
    }
  }

  lemma StateDone(A: Aut, alphabet: Alphabet, R: Preorder, U: set<set<State>>, tab: Table, trans: set<Transition>, P: set<State>,
          tab': Table, trans': set<Transition>)
    requires Proper(U, tab) && Rows(A, alphabet, R, tab, trans) && P in tab.todo
    requires Proper(U, tab') && Extended(tab.(todo := tab.todo - {P}), tab')
    requires RowsOf(A, alphabet, R, tab'.cache, trans', P, {}) && SameElsewhere(trans, trans', tab.cache[P])
    ensures Rows(A, alphabet, R, tab', trans')
  {
    forall Q, a | Q in tab'.cache && Q !in tab'.todo && a in alphabet ensures Row(A, alphabet, R, tab'.cache, trans', Q, a) {
      if Q != P {
        assert Q in tab'.cache.Keys - tab'.todo;
        assert Row(A, alphabet, R, tab.cache, trans, Q, a);
        RowStays(A, alphabet, R, tab.cache, trans, tab'.cache, trans', Q, a);
      }
    }
    assert P in tab.cache.Keys - (tab.todo - {P});
    forall tr | tr in trans' ensures exists Q :: Q in tab'.cache && Q !in tab'.todo && tab'.cache[Q] == tr.parent {
      if tr.parent == tab.cache[P] {
        assert P in tab'.cache.Keys - tab'.todo;
      } else {
        var Q :| Q in tab.cache && Q !in tab.todo && tab.cache[Q] == tr.parent;
        assert Q in tab.cache.Keys - (tab.todo - {P});
        assert Q in tab'.cache.Keys - tab'.todo;
      }
    }
  }

  /** Builds the complement. Its only final state is the number of the set of final states, pruned. */
  method Compute(src: Aut, alphabet: Alphabet, R: Preorder) returns (dst: Aut, ghost cache: StateCache, ghost tmp: set<State>)
    requires AlphabetOf(src, alphabet) && Implies(src, R)
    ensures IsComplement(src, alphabet, R, cache, tmp, dst)
    ensures forall t :: dst.InLang(t) <==> TreeOver(alphabet, t) && !src.InLang(t)
  {
    var symbolMap, ranks := NumberSymbols(alphabet);
    var index := TopDownIndex(src, symbolMap);
    var first := PruneFinals(src, R);
    tmp := first;
    ghost var U := ReachedSets(src, alphabet, R, tmp);
    StartReached(src, alphabet, R, tmp);
    var tab := Table(map[first := 0], {first});
    dst := Aut({0}, {});
    while tab.todo != {}
      invariant Proper(U, tab) && Rows(src, alphabet, R, tab, dst.trans) && Fitting(alphabet, dst.trans)
      invariant tmp in tab.cache && tab.cache[tmp] == 0 && dst.finals == {0}
      decreases U - (tab.cache.Keys - tab.todo)
    {
      var P :| P in tab.todo;
      ghost var before := tab;
      tab := tab.(todo := tab.todo - {P});
      NoRowsYet(src, alphabet, R, U, before, dst.trans, P);
      AllClosed(src, alphabet, R, tmp, P);
      var trans;
      var tab1;
      tab1, trans := ComputeState(src, alphabet, index, symbolMap, ranks, R, tab, dst.trans, P, U);
      StateDone(src, alphabet, R, U, before, dst.trans, P, tab1, trans);
      assert P in tab1.cache.Keys - tab1.todo && P in U;
      tab := tab1;
      dst := Aut(dst.finals, trans);
    }
    cache := tab.cache;
    Built(src, alphabet, R, tab, tmp, dst);
    ComplementExact(src, alphabet, R, cache, dst, tmp);
  }

  lemma StartReached(A: Aut, alphabet: Alphabet, R: Preorder, T: set<State>)
    requires T <= A.finals
    ensures T in ReachedSets(A, alphabet, R, T)
  {
    assert Leading(A, alphabet, R, T, [], T);
  }

  lemma AllClosed(A: Aut, alphabet: Alphabet, R: Preorder, T: set<State>, P: set<State>)
    requires P in ReachedSets(A, alphabet, R, T)
    ensures forall a :: a in alphabet ==> MakesIn(R, TuplesOf(A, P, a), alphabet[a], ReachedSets(A, alphabet, R, T))
  {
    forall a | a in alphabet ensures MakesIn(R, TuplesOf(A, P, a), alphabet[a], ReachedSets(A, alphabet, R, T)) {
      ReachedClosed(A, alphabet, R, T, P, a);
    }
  }

  /** With nothing left to treat, the complement is there. */
  lemma Built(A: Aut, alphabet: Alphabet, R: Preorder, tab: Table, T: set<State>, D: Aut)
    requires AlphabetOf(A, alphabet) && Implies(A, R) && tab.todo == {} && Proper(ReachedSets(A, alphabet, R, T), tab)
    requires Rows(A, alphabet, R, tab, D.trans) && Fitting(alphabet, D.trans) && T in tab.cache && tab.cache[T] == 0 && D.finals == {0}
    requires Pruned(R, A.finals, T) && Flat(R, T)
    ensures IsComplement(A, alphabet, R, tab.cache, T, D)
  {
    assert Complete(A, alphabet, R, tab.cache, D);
  }

  lemma NoRowsYet(A: Aut, alphabet: Alphabet, R: Preorder, U: set<set<State>>, tab: Table, trans: set<Transition>, P: set<State>)
    requires Proper(U, tab) && Rows(A, alphabet, R, tab, trans) && P in tab.todo
    ensures P in tab.cache && forall a :: NoRow(trans, tab.cache[P], a)
  {
  }

  /** The trees over the alphabet that A rejects: the complement without useless states. */
  method ComplementWithPreorder(A: Aut, alphabet: Alphabet, R: Preorder)
    returns (B: Aut, ghost dst: Aut, ghost cache: StateCache, ghost tmp: set<State>)
    requires AlphabetOf(A, alphabet) && Implies(A, R)
    ensures IsComplement(A, alphabet, R, cache, tmp, dst) && OnlyUsed(dst, B)
    ensures forall t :: B.InLang(t) <==> TreeOver(alphabet, t) && !A.InLang(t)
    ensures B.Trimmed()
  {
    var res;
    res, cache, tmp := Compute(A, alphabet, R);
    dst := res;
    B := RemoveUselessStates(res);
  }

  /** With the identity on as many numbers as there are states, which must be enough for them. */
  method ComplementOf(A: Aut, alphabet: Alphabet) returns (B: Aut, ghost dst: Aut, ghost cache: StateCache, ghost tmp: set<State>)
    requires AlphabetOf(A, alphabet) && forall q :: q in A.States() ==> q < |A.States()|
    ensures IsComplement(A, alphabet, Identity(|A.States()|), cache, tmp, dst) && OnlyUsed(dst, B)
    ensures forall t :: B.InLang(t) <==> TreeOver(alphabet, t) && !A.InLang(t)
    ensures B.Trimmed()
  {
    IdentityImplies(A, |A.States()|);
    B, dst, cache, tmp := ComplementWithPreorder(A, alphabet, Identity(|A.States()|));
  }

  lemma IdentityImplies(A: Aut, size: nat)
    requires forall q :: q in A.States() ==> q < size
    ensures Implies(A, Identity(size))
  {
    forall p, q, r ensures TransitiveAt(Identity(size), p, q, r) { }
  }
}
