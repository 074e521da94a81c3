/** Renaming and collapsing of states, and the preparation of two automata for the inclusion
    checks: useless states removed, and the state sets made disjoint. */
module Reindex {
  import opened Collections
  import opened Translators
  import opened TreeAutomata
  import opened Useless

  /** m extended by m' agrees with m. */
  ghost predicate Extends(m': map<nat, nat>, m: map<nat, nat>) {
    m.Keys <= m'.Keys && forall x :: x in m ==> m'[x] == m[x]
  }

  function Mapped(m: map<nat, nat>, qs: seq<nat>): (r: seq<nat>)
    requires SetOf(qs) <= m.Keys
    ensures |r| == |qs| && forall i :: 0 <= i < |qs| ==> qs[i] in m && r[i] == m[qs[i]]
  {
    assert forall i :: 0 <= i < |qs| ==> qs[i] in SetOf(qs);
    seq(|qs|, i requires 0 <= i < |qs| => m[qs[i]])
  }

  ghost predicate Knows(m: map<nat, nat>, tr: Transition) {
    tr.parent in m && SetOf(tr.kids) <= m.Keys
  }

  function Renamed(m: map<nat, nat>, tr: Transition): Transition
    requires Knows(m, tr)
  {
    Transition(m[tr.parent], tr.sym, Mapped(m, tr.kids))
  }

  /** B is A with the states replaced by their images. */
  ghost predicate RenamedAut(A: Aut, m: map<nat, nat>, B: Aut) {
    && A.finals <= m.Keys && (forall tr :: tr in A.trans ==> Knows(m, tr))
    && (forall q :: q in B.finals <==> exists p :: p in A.finals && m[p] == q)
    && (forall tr :: tr in A.trans ==> Renamed(m, tr) in B.trans)
    && (forall tr :: tr in B.trans ==> exists tr' :: tr' in A.trans && Renamed(m, tr') == tr)
  }

  /** What A accepts, B accepts, whether or not states are merged. */
  lemma RenamedAccepts(A: Aut, m: map<nat, nat>, B: Aut, q: State, t: Tree)
    requires RenamedAut(A, m, B) && A.Accepts(q, t)
    ensures q in m && B.Accepts(m[q], t)
    decreases t
  {
    A.Unfold(q, t);
    var tr :| A.Step(tr, q, t);
    var tr' := Renamed(m, tr);
    forall i | 0 <= i < |t.kids| ensures B.Accepts(tr'.kids[i], t.kids[i]) {
      RenamedAccepts(A, m, B, tr.kids[i], t.kids[i]);
    }
    assert B.Step(tr', m[q], t);
    B.Unfold(m[q], t);
  }

  ghost predicate Injective(m: map<nat, nat>) {
    forall x, y :: x in m && y in m && m[x] == m[y] ==> x == y
  }

  /** Without merging, B accepts nothing else. */
  lemma RenamedReflects(A: Aut, m: map<nat, nat>, B: Aut, q: State, t: Tree)
    requires RenamedAut(A, m, B) && Injective(m) && q in m && B.Accepts(m[q], t)
    ensures A.Accepts(q, t)
    decreases t
  {
    B.Unfold(m[q], t);
    var tr' :| B.Step(tr', m[q], t);
    var tr := TransitionBehind(A, m, B, tr');
    forall i | 0 <= i < |t.kids| ensures A.Accepts(tr.kids[i], t.kids[i]) {
      RenamedReflects(A, m, B, tr.kids[i], t.kids[i]);
    }
    StepBack(A, m, tr, q, t);
  }

  lemma TransitionBehind(A: Aut, m: map<nat, nat>, B: Aut, tr': Transition) returns (tr: Transition)
    requires RenamedAut(A, m, B) && tr' in B.trans
    ensures tr in A.trans && Knows(m, tr) && m[tr.parent] == tr'.parent && tr.sym == tr'.sym && |tr.kids| == |tr'.kids|
    ensures forall i :: 0 <= i < |tr.kids| ==> tr.kids[i] in m && m[tr.kids[i]] == tr'.kids[i]
  {
    tr :| tr in A.trans && Renamed(m, tr) == tr';
  }

  lemma StepBack(A: Aut, m: map<nat, nat>, tr: Transition, q: State, t: Tree)
    requires Injective(m) && tr in A.trans && Knows(m, tr) && q in m && m[q] == m[tr.parent]
    requires tr.sym == t.sym && A.AcceptsAll(tr.kids, t.kids)
    ensures A.Accepts(q, t)
  {
    assert A.Step(tr, q, t);
    A.Unfold(q, t);
  }

  lemma RenamedSameLang(A: Aut, m: map<nat, nat>, B: Aut)
    requires RenamedAut(A, m, B) && Injective(m)
    ensures SameLang(A, B)
  {
    forall t ensures A.InLang(t) <==> B.InLang(t) {
      if A.InLang(t) {
        var q :| q in A.finals && A.Accepts(q, t);
        RenamedAccepts(A, m, B, q, t);
      }
      if B.InLang(t) {
        var q :| q in B.finals && B.Accepts(q, t);
        var p :| p in A.finals && m[p] == q;
        RenamedReflects(A, m, B, p, t);
      }
    }
  }

  lemma RenamedUses(A: Aut, m: map<nat, nat>, B: Aut, p: State, t: Tree, q: State)
    requires RenamedAut(A, m, B) && A.RunUses(p, t, q)
    ensures p in m && q in m && B.RunUses(m[p], t, m[q])
    decreases t
  {
    RenamedAccepts(A, m, B, p, t);
    if p != q {
      var tr, i :| A.Step(tr, p, t) && 0 <= i < |t.kids| && A.RunUses(tr.kids[i], t.kids[i], q);
      RenamedUses(A, m, B, tr.kids[i], t.kids[i], q);
      var tr' := Renamed(m, tr);
      forall j | 0 <= j < |t.kids| ensures B.Accepts(tr'.kids[j], t.kids[j]) {
        RenamedAccepts(A, m, B, tr.kids[j], t.kids[j]);
      }
      assert B.Step(tr', m[p], t);
      assert B.RunUses(tr'.kids[i], t.kids[i], m[q]);
    }
  }

  /** Renaming keeps every state useful. */
  lemma RenamedTrimmed(A: Aut, m: map<nat, nat>, B: Aut)
    requires RenamedAut(A, m, B) && A.Trimmed()
    ensures B.Trimmed()
  {
    forall q' | q' in B.States() ensures B.Useful(q') {
      var q := StateBehind(A, m, B, q');
      RenamedUseful(A, m, B, q);
    }
  }

  lemma RenamedUseful(A: Aut, m: map<nat, nat>, B: Aut, q: State)
    requires RenamedAut(A, m, B) && A.Useful(q)
    ensures q in m && B.Useful(m[q])
  {
    var p, t :| p in A.finals && A.RunUses(p, t, q);
    RenamedUses(A, m, B, p, t, q);
    assert m[p] in B.finals;
  }

  lemma StateBehind(A: Aut, m: map<nat, nat>, B: Aut, q': State) returns (q: State)
    requires RenamedAut(A, m, B) && q' in B.States()
    ensures q in A.States() && q in m && m[q] == q'
  {
    if q' in B.finals {
      q :| q in A.finals && m[q] == q';
    } else {
      var tr' :| tr' in B.trans && (tr'.parent == q' || q' in tr'.kids);
      var tr :| tr in A.trans && Renamed(m, tr) == tr';
      if tr'.parent == q' {
        q := tr.parent;
      } else {
        var i :| 0 <= i < |tr'.kids| && tr'.kids[i] == q';
        q := tr.kids[i];
      }
    }
  }

  lemma ImageState(A: Aut, m: map<nat, nat>, B: Aut, q: State)
    requires RenamedAut(A, m, B) && q in A.States()
    ensures q in m && m[q] in B.States()
  {
    if q !in A.finals {
      var tr :| tr in A.trans && (tr.parent == q || q in tr.kids);
      var tr' := Renamed(m, tr);
      if q in tr.kids {
        var i :| 0 <= i < |tr.kids| && tr.kids[i] == q;
        assert q in SetOf(tr.kids) && tr'.kids[i] == m[q];
      }
    }
  }

  method TranslateTuple(transl: Translator<State>, qs: seq<nat>) returns (r: seq<nat>)
    modifies transl
    ensures Extends(transl.dict, old(transl.dict)) && SetOf(qs) <= transl.dict.Keys
    ensures r == Mapped(transl.dict, qs)
    ensures transl.dict.Keys <= old(transl.dict.Keys) + SetOf(qs)
    ensures forall start :: old(transl.Numbers(start)) ==> transl.Numbers(start)
  {
    r := [];
    var i := 0;
    while i < |qs|
      invariant 0 <= i == |r| <= |qs|
      invariant Extends(transl.dict, old(transl.dict))
      invariant forall j :: 0 <= j < i ==> qs[j] in transl.dict && r[j] == transl.dict[qs[j]]
      invariant transl.dict.Keys <= old(transl.dict.Keys) + SetOf(qs)
      invariant forall start :: old(transl.Numbers(start)) ==> transl.Numbers(start)
    {
      assert qs[i] in SetOf(qs);
      var y := transl.Translate(qs[i]);
      r := r + [y];
      i := i + 1;
    }
  }

  /** A bigger translation gives the same automaton. */
  lemma RenamedExtends(A: Aut, m: map<nat, nat>, m': map<nat, nat>, B: Aut)
    requires RenamedAut(A, m, B) && Extends(m', m)
    ensures RenamedAut(A, m', B)
  {
    forall tr | tr in A.trans ensures Knows(m', tr) && Renamed(m', tr) == Renamed(m, tr) {
      assert Knows(m, tr);
    }
    assert forall p :: p in A.finals ==> m'[p] == m[p];
    forall tr | tr in B.trans ensures exists tr' :: tr' in A.trans && Renamed(m', tr') == tr {
      var tr' :| tr' in A.trans && Renamed(m, tr') == tr;
    }
  }

  lemma RenamedAddFinal(A: Aut, m: map<nat, nat>, B: Aut, p: State)
    requires RenamedAut(A, m, B) && p in m
    ensures RenamedAut(A.(finals := A.finals + {p}), m, B.(finals := B.finals + {m[p]}))
  {
  }

  lemma RenamedAddTrans(A: Aut, m: map<nat, nat>, B: Aut, tr: Transition)
    requires RenamedAut(A, m, B) && Knows(m, tr)
    ensures RenamedAut(A.(trans := A.trans + {tr}), m, B.(trans := B.trans + {Renamed(m, tr)}))
  {
    var A', B' := A.(trans := A.trans + {tr}), B.(trans := B.trans + {Renamed(m, tr)});
    forall x | x in B'.trans ensures exists y :: y in A'.trans && Renamed(m, y) == x {
      if x == Renamed(m, tr) {
        assert tr in A'.trans;
      } else {
        var y :| y in A.trans && Renamed(m, y) == x;
        assert y in A'.trans;
      }
    }
  }

  method ReindexFinals(A: Aut, transl: Translator<State>) returns (finals: set<State>)
    modifies transl
    ensures Extends(transl.dict, old(transl.dict)) && RenamedAut(Aut(A.finals, {}), transl.dict, Aut(finals, {}))
    ensures transl.dict.Keys <= old(transl.dict.Keys) + A.finals
    ensures forall start :: old(transl.Numbers(start)) ==> transl.Numbers(start)
  {
    finals := {};
    var todo := A.finals;
    while todo != {}
      invariant todo <= A.finals
      invariant Extends(transl.dict, old(transl.dict))
      invariant RenamedAut(Aut(A.finals - todo, {}), transl.dict, Aut(finals, {}))
      invariant transl.dict.Keys <= old(transl.dict.Keys) + A.finals
      invariant forall start :: old(transl.Numbers(start)) ==> transl.Numbers(start)
      decreases todo
    {
      var p :| p in todo;
      ghost var m := transl.dict;
      var q := transl.Translate(p);
      RenamedExtends(Aut(A.finals - todo, {}), m, transl.dict, Aut(finals, {}));
      RenamedAddFinal(Aut(A.finals - todo, {}), transl.dict, Aut(finals, {}), p);
      assert A.finals - (todo - {p}) == A.finals - todo + {p};
      finals := finals + {q};
      todo := todo - {p};
    }
    assert A.finals - todo == A.finals;
  }

  method ReindexTransition(tr: Transition, transl: Translator<State>) returns (tr': Transition)
    modifies transl
    ensures Extends(transl.dict, old(transl.dict)) && Knows(transl.dict, tr) && tr' == Renamed(transl.dict, tr)
    ensures transl.dict.Keys <= old(transl.dict.Keys) + {tr.parent} + SetOf(tr.kids)
    ensures forall start :: old(transl.Numbers(start)) ==> transl.Numbers(start)
  {
    var parent := transl.Translate(tr.parent);
    var kids := TranslateTuple(transl, tr.kids);
    tr' := Transition(parent, tr.sym, kids);
  }

  /** Adds one translated transition. */
  method ReindexNext(finals: set<State>, done: set<Transition>, B: Aut, tr: Transition,
          transl: Translator<State>) returns (B': Aut)
    requires RenamedAut(Aut(finals, done), transl.dict, B)
    modifies transl
    ensures Extends(transl.dict, old(transl.dict)) && RenamedAut(Aut(finals, done + {tr}), transl.dict, B')
    ensures transl.dict.Keys <= old(transl.dict.Keys) + {tr.parent} + SetOf(tr.kids)
    ensures forall start :: old(transl.Numbers(start)) ==> transl.Numbers(start)
  {
    ghost var m := transl.dict;
    var tr' := ReindexTransition(tr, transl);
    RenamedExtends(Aut(finals, done), m, transl.dict, B);
    RenamedAddTrans(Aut(finals, done), transl.dict, B, tr);
    B' := B.(trans := B.trans + {tr'});
  }

  /** Builds the automaton with translated states; states not translated before get new numbers. */
  method ReindexStates(A: Aut, transl: Translator<State>) returns (B: Aut)
    modifies transl
    ensures Extends(transl.dict, old(transl.dict)) && RenamedAut(A, transl.dict, B)
    ensures transl.dict.Keys <= old(transl.dict.Keys) + A.States()
    ensures forall start :: old(transl.Numbers(start)) ==> transl.Numbers(start)
  {
    var finals := ReindexFinals(A, transl);
    B := Aut(finals, {});
    ghost var states := A.States();
    assert A.finals <= states;
    var todo := A.trans;
    while todo != {}
      invariant todo <= A.trans
      invariant Extends(transl.dict, old(transl.dict))
      invariant RenamedAut(Aut(A.finals, A.trans - todo), transl.dict, B)
      invariant transl.dict.Keys <= old(transl.dict.Keys) + states
      invariant forall start :: old(transl.Numbers(start)) ==> transl.Numbers(start)
      decreases todo
    {
      var tr :| tr in todo;
      TransitionStates(A, tr);
      B := ReindexNext(A.finals, A.trans - todo, B, tr, transl);
      assert A.trans - (todo - {tr}) == A.trans - todo + {tr};
      todo := todo - {tr};
    }
    assert Aut(A.finals, A.trans - todo) == A;
  }

  /** The states are the numbers from lo up to hi. */
  ghost predicate HasRange(A: Aut, lo: nat, hi: nat) {
    forall q: nat :: q in A.States() <==> lo <= q < hi
  }

  lemma RenamedRange(A: Aut, m: map<nat, nat>, B: Aut, lo: nat, hi: nat)
    requires RenamedAut(A, m, B) && m.Keys <= A.States()
    requires (forall x :: x in m ==> lo <= m[x] < hi) && forall n: nat :: lo <= n < hi ==> n in m.Values
    ensures HasRange(B, lo, hi)
  {
    forall q | q in B.States() ensures lo <= q < hi {
      var p := StateBehind(A, m, B, q);
    }
    forall n: nat | lo <= n < hi ensures n in B.States() {
      assert n in m.Values;
      var p :| p in m && m[p] == n;
      ImageState(A, m, B, p);
    }
  }

  /** Every transition of B has the symbol and the arity of one of A. */
  ghost predicate SameArities(A: Aut, B: Aut) {
    forall tr :: tr in B.trans ==> exists tr' :: tr' in A.trans && tr'.sym == tr.sym && |tr'.kids| == |tr.kids|
  }

  lemma StillRanked(A: Aut, B: Aut, rank: Symbol -> nat)
    requires SameArities(A, B) && Ranked(A.trans, rank)
    ensures Ranked(B.trans, rank)
  {
  }

  lemma RenamedArities(A: Aut, T: Aut, m: map<nat, nat>, B: Aut)
    requires T.trans <= A.trans && RenamedAut(T, m, B)
    ensures SameArities(A, B)
  {
    forall tr | tr in B.trans ensures exists tr' :: tr' in A.trans && tr'.sym == tr.sym && |tr'.kids| == |tr.kids| {
      var tr' :| tr' in T.trans && Renamed(m, tr') == tr;
    }
  }

  /** B is A without useless parts, and with the states renamed one to one. */
  ghost predicate Sanitized(A: Aut, B: Aut) {
    exists T, m :: OnlyUsed(A, T) && Injective(m) && RenamedAut(T, m, B)
  }

  /** Removes useless states and numbers the rest from start up to next. */
  method Sanitize(A: Aut, start: nat) returns (B: Aut, next: nat)
    ensures Sanitized(A, B) && HasRange(B, start, next)
    ensures SameLang(A, B) && SameArities(A, B) && B.Trimmed() && start <= next
  {
    var tmp := RemoveUselessStates(A);
    var transl := new Translator<State>(map[], start);
    assert transl.Numbers(start);
    B := ReindexStates(tmp, transl);
    next := transl.next;
    assert OnlyUsed(A, tmp) && Injective(transl.dict);
    RenamedSameLang(tmp, transl.dict, B);
    RenamedArities(A, tmp, transl.dict, B);
    RenamedTrimmed(tmp, transl.dict, B);
    RenamedRange(tmp, transl.dict, B, start, next);
  }

  lemma RangesMeet(A: Aut, B: Aut, mid: nat, hi: nat)
    requires HasRange(A, 0, mid) && HasRange(B, mid, hi) && mid <= hi
    ensures DisjointStates(A, B) && forall q: nat :: q in A.States() + B.States() <==> q < hi
  {
  }

  /** Removes useless states and numbers the states of both automata from 0 without overlap. */
  method SanitizeAutsForInclusion(smaller: Aut, bigger: Aut) returns (newSmaller: Aut, newBigger: Aut, stateCnt: nat)
    ensures Sanitized(smaller, newSmaller) && Sanitized(bigger, newBigger)
    ensures SameLang(smaller, newSmaller) && SameLang(bigger, newBigger)
    ensures SameArities(smaller, newSmaller) && SameArities(bigger, newBigger)
    ensures newSmaller.Trimmed() && newBigger.Trimmed() && DisjointStates(newSmaller, newBigger)
    ensures exists mid: nat :: mid <= stateCnt && HasRange(newSmaller, 0, mid) && HasRange(newBigger, mid, stateCnt)
    ensures forall q: nat :: q in newSmaller.States() + newBigger.States() <==> q < stateCnt
  {
    var mid;
    newSmaller, mid := Sanitize(smaller, 0);
    newBigger, stateCnt := Sanitize(bigger, mid);
    RangesMeet(newSmaller, newBigger, mid, stateCnt);
  }
}
