/** Pairs of a state and a set of states, kept in lists by state. */
module Antichain {
  import opened Collections
  import opened TreeAutomata

  type Comparer = (set<State>, set<State>) -> bool

  /** The subset of list s whose elements do not satisfy drop. */
  function Dropped(s: seq<set<State>>, drop: set<State> -> bool): (r: seq<set<State>>)
    ensures forall P :: P in r <==> P in s && !drop(P)
  {
    if s == [] then [] else (if drop(s[0]) then [] else [s[0]]) + Dropped(s[1..], drop)
  }

  class Antichain {
    var data: map<State, seq<set<State>>>

    /** The pair (q, Q) is stored. */
    predicate Has(q: State, Q: set<State>)
      reads this
    {
      q in data && Q in data[q]
    }

    /** Only non-empty lists are kept. */
    ghost predicate Valid()
      reads this
    {
      forall q :: q in data ==> data[q] != []
    }

    constructor ()
      ensures Valid() && data == map[]
    {
      data := map[];
    }

    /** Is there a stored pair (p, P) with p among the candidates and P below Q? */
    method Contains(candidates: set<State>, Q: set<State>, cmp: Comparer) returns (r: bool)
      ensures r <==> exists p, P :: p in candidates && Has(p, P) && cmp(P, Q)
    {
      var todo := candidates;
      while todo != {}
        invariant todo <= candidates
        invariant forall p, P :: p in candidates - todo && Has(p, P) ==> !cmp(P, Q)
        decreases todo
      {
        var p :| p in todo;
        todo := todo - {p};
        if p in data {
          var i := 0;
          while i < |data[p]|
            invariant 0 <= i <= |data[p]|
            invariant forall j :: 0 <= j < i ==> !cmp(data[p][j], Q)
          {
            if cmp(data[p][i], Q) {
              assert Has(p, data[p][i]);
              return true;
            }
            i := i + 1;
          }
        }
      }
      return false;
    }

    /** Removes the stored pairs (p, P) with p among the candidates and P above Q. */
    method Refine(candidates: set<State>, Q: set<State>, cmp: Comparer) returns (erased: set<(State, set<State>)>)
      requires Valid()
      modifies this
      ensures Valid()
      ensures forall p, P :: Has(p, P) <==> old(Has(p, P)) && !(p in candidates && cmp(P, Q))
      ensures forall g :: g in erased <==> old(Has(g.0, g.1)) && g.0 in candidates && cmp(g.1, Q)
    {
      erased := {};
      var todo := candidates;
      while todo != {}
        invariant todo <= candidates && Valid()
        invariant forall p, P :: Has(p, P) <==> old(Has(p, P)) && !(p in candidates - todo && cmp(P, Q))
        invariant forall g :: g in erased <==> old(Has(g.0, g.1)) && g.0 in candidates - todo && cmp(g.1, Q)
        decreases todo
      {
        var p :| p in todo;
        todo := todo - {p};
        if p in data {
          erased := erased + set P | P in data[p] && cmp(P, Q) :: (p, P);
          var list := Dropped(data[p], P => cmp(P, Q));
          data := if list == [] then data - {p} else data[p := list];
        }
      }
    }

    method Insert(q: State, Q: set<State>)
      requires Valid()
      modifies this
      ensures Valid()
      ensures forall p, P :: Has(p, P) <==> old(Has(p, P)) || (p == q && P == Q)
    {
      var list := if q in data then data[q] else [];
      data := data[q := list + [Q]];
    }
  }
}
