/** Labelled transition systems, and the greatest simulation contained in a relation. */
module Lts {

  type Relation = set<(nat, nat)>

  /** Successor and predecessor lists, addressed by label and then by state.
      A transition added twice is listed twice, in both tables. */
  datatype Lts = Lts(states: nat, post: seq<seq<seq<nat>>>, pre: seq<seq<seq<nat>>>) {

    ghost predicate Valid() {
      && |post| == |pre|
      && (forall a :: 0 <= a < |post| ==> |post[a]| == states && |pre[a]| == states)
      && (forall a, q, r :: 0 <= a < |post| && 0 <= q < states && r in post[a][q] ==> r < states)
      && (forall a, r, q :: 0 <= a < |post| && 0 <= r < states && q in pre[a][r] ==> q < states)
      && (forall a, q, r :: 0 <= a < |post| && 0 <= q < states && 0 <= r < states ==>
            multiset(post[a][q])[r] == multiset(pre[a][r])[q])
    }

    /** There is a transition from q to r under a. */
    ghost predicate Edge(q: int, a: int, r: int) {
      0 <= a < |post| && 0 <= q < |post[a]| && r in post[a][q]
    }

    lemma PreIsInverse(q: nat, a: nat, r: nat)
      requires Valid() && a < |post| && r < states
      ensures q in pre[a][r] <==> Edge(q, a, r)
    {
      if q < states {
        assert multiset(post[a][q])[r] == multiset(pre[a][r])[q];
        assert q in pre[a][r] <==> q in multiset(pre[a][r]);
        assert r in post[a][q] <==> r in multiset(post[a][q]);
      }
    }

    /** Some move of q under a leads to a state that S relates to r. */
    ghost predicate Answers(q: int, a: int, r: int, S: Relation) {
      exists s :: Edge(q, a, s) && In(r, s, S)
    }

    /** S matches every move of the smaller state by a move of the bigger one. */
    ghost predicate Simulation(S: Relation) {
      && (forall p, q :: In(p, q, S) ==> p < states && q < states)
      && (forall p, q, a, r :: In(p, q, S) && Edge(p, a, r) ==> Answers(q, a, r, S))
    }

    /** The pair lies in some simulation contained in R. */
    ghost predicate Simulated(R: Relation, p: int, q: int) {
      exists S :: Simulation(S) && S <= R && In(p, q, S)
    }

    /** Union of all the simulations contained in R. */
    ghost function Greatest(R: Relation): Relation {
      set pq | pq in R && Simulated(R, pq.0, pq.1)
    }

    lemma GreatestIsSimulation(R: Relation)
      ensures Simulation(Greatest(R)) && Greatest(R) <= R
      ensures forall S :: Simulation(S) && S <= R ==> S <= Greatest(R)
    {
      var G := Greatest(R);
      forall p, q | In(p, q, G)
        ensures p < states && q < states
        ensures forall a, r :: Edge(p, a, r) ==> Answers(q, a, r, G)
      {
        var S :| Simulation(S) && S <= R && In(p, q, S);
        Contained(R, S);
        forall a, r | Edge(p, a, r)
          ensures Answers(q, a, r, G)
        {
          var s :| Edge(q, a, s) && In(r, s, S);
          assert In(r, s, G);
        }
      }
      forall S | Simulation(S) && S <= R ensures S <= G {
        Contained(R, S);
      }
    }

    lemma Contained(R: Relation, S: Relation)
      requires Simulation(S) && S <= R
      ensures S <= Greatest(R)
    {
      forall pq | pq in S ensures pq in Greatest(R) {
        assert In(pq.0, pq.1, S);
      }
    }

    /** A relation is the greatest simulation when it is one and contains them all. */
    lemma GreatestUnique(R: Relation, S: Relation)
      requires Simulation(S) && Greatest(R) <= S <= R
      ensures S == Greatest(R)
    {
      Contained(R, S);
    }
  }

  ghost predicate In(p: int, q: int, S: Relation) {
    p >= 0 && q >= 0 && (p, q) in S
  }

  ghost predicate Reflexive(n: nat, R: Relation) {
    forall q :: 0 <= q < n ==> In(q, q, R)
  }

  ghost predicate Transitive(R: Relation) {
    forall p, q, r :: In(p, q, R) && In(q, r, R) ==> In(p, r, R)
  }

  type Table = seq<(seq<seq<nat>>, seq<seq<nat>>)>

  /** The class that collects the transitions; Init completes the tables. */
  class ExplicitLTS {
    var states: nat
    var transitions: nat
    var data: Table
    ghost var edges: multiset<(nat, nat, nat)>

    static function Fwd(d: Table, a: int, q: int): seq<nat> {
      if 0 <= a < |d| && 0 <= q < |d[a].0| then d[a].0[q] else []
    }

    static function Bwd(d: Table, a: int, r: int): seq<nat> {
      if 0 <= a < |d| && 0 <= r < |d[a].1| then d[a].1[r] else []
    }

    /** Both directions of the table list the transition as often as it was added. */
    static ghost predicate Listed(d: Table, edges: multiset<(nat, nat, nat)>, q: nat, a: nat, r: nat) {
      multiset(Fwd(d, a, q))[r] == edges[(q, a, r)] == multiset(Bwd(d, a, r))[q]
    }

    static ghost predicate Holds(d: Table, edges: multiset<(nat, nat, nat)>) {
      forall q: nat, a: nat, r: nat :: Listed(d, edges, q, a, r)
    }

    static ghost predicate SameRows(d: Table, d': Table) {
      && (forall a: nat, q: nat :: Fwd(d, a, q) == Fwd(d', a, q))
      && (forall a: nat, r: nat :: Bwd(d, a, r) == Bwd(d', a, r))
    }

    static lemma SameRowsHold(d: Table, d': Table, edges: multiset<(nat, nat, nat)>)
      requires Holds(d, edges) && SameRows(d, d')
      ensures Holds(d', edges)
    {
      forall q: nat, a: nat, r: nat ensures Listed(d', edges, q, a, r) {
        assert Listed(d, edges, q, a, r);
      }
    }

    static lemma ResizedRows(d: Table, a: nat, n: nat, m: nat)
      requires a < |d|
      ensures SameRows(d, d[a := (Resize(d[a].0, n), Resize(d[a].1, m))])
    {
    }

    static lemma AddedHolds(d: Table, d': Table, edges: multiset<(nat, nat, nat)>, q: nat, a: nat, r: nat)
      requires Holds(d, edges)
      requires forall b: nat, x: nat :: Fwd(d', b, x) == if b == a && x == q then Fwd(d, a, q) + [r] else Fwd(d, b, x)
      requires forall b: nat, x: nat :: Bwd(d', b, x) == if b == a && x == r then Bwd(d, a, r) + [q] else Bwd(d, b, x)
      ensures Holds(d', edges + multiset{(q, a, r)})
    {
      forall x: nat, b: nat, y: nat ensures Listed(d', edges + multiset{(q, a, r)}, x, b, y) {
        assert Listed(d, edges, x, b, y);
      }
    }

    ghost predicate Valid()
      reads this
    {
      && (forall a :: 0 <= a < |data| ==> |data[a].0| <= states && |data[a].1| <= states)
      && Holds(data, edges)
    }

    constructor (states: nat)
      ensures Valid() && this.states == states && edges == multiset{} && data == []
    {
      this.states := states;
      transitions := 0;
      data := [];
      edges := multiset{};
    }

    static function Resize(s: seq<seq<nat>>, n: nat): (r: seq<seq<nat>>)
      ensures |r| == Max(n, |s|)
      ensures forall i :: 0 <= i < |r| ==> r[i] == if i < |s| then s[i] else []
    {
      if n > |s| then s + seq(n - |s|, _ => []) else s
    }

    static function ResizeLabels(d: Table, n: nat): (r: Table)
      ensures |r| == Max(n, |d|)
      ensures forall i :: 0 <= i < |r| ==> r[i] == if i < |d| then d[i] else ([], [])
    {
      if n > |d| then d + seq(n - |d|, _ => ([], [])) else d
    }

    /** Makes room for the row (a, q) of successors. */
    method GrowPost(a: nat, q: nat)
      requires Valid() && a < |data|
      modifies `data, `states
      ensures Valid() && states == Max(old(states), q + 1)
      ensures |data| == old(|data|) && q < |data[a].0| && |data[a].1| == old(|data[a].1|)
    {
      if q >= |data[a].0| {
        if q >= states { states := q + 1; }
        ghost var d := data;
        ResizedRows(data, a, q + 1, 0);
        data := data[a := (Resize(data[a].0, q + 1), data[a].1)];
        assert data == d[a := (Resize(d[a].0, q + 1), Resize(d[a].1, 0))];
        SameRowsHold(d, data, edges);
      }
    }

    /** Makes room for the row (a, r) of predecessors. */
    method GrowPre(a: nat, r: nat)
      requires Valid() && a < |data|
      modifies `data, `states
      ensures Valid() && states == Max(old(states), r + 1)
      ensures |data| == old(|data|) && r < |data[a].1| && |data[a].0| == old(|data[a].0|)
    {
      if r >= |data[a].1| {
        if r >= states { states := r + 1; }
        ghost var d := data;
        ResizedRows(data, a, 0, r + 1);
        data := data[a := (data[a].0, Resize(data[a].1, r + 1))];
        assert data == d[a := (Resize(d[a].0, 0), Resize(d[a].1, r + 1))];
        SameRowsHold(d, data, edges);
      }
    }

    method AddTransition(q: nat, a: nat, r: nat)
      requires Valid()
      modifies this
      ensures Valid() && edges == old(edges) + multiset{(q, a, r)}
      ensures states == Max(old(states), Max(q, r) + 1)
      ensures |data| == Max(old(|data|), a + 1)
      ensures transitions == old(transitions) + 1
    {
      ghost var d := data;
      data := ResizeLabels(data, a + 1);
      SameRowsHold(d, data, edges);
      GrowPost(a, q);
      GrowPre(a, r);
      d := data;
      var (fwd, bwd) := data[a];
      data := data[a := (fwd[q := fwd[q] + [r]], bwd[r := bwd[r] + [q]])];
      edges := edges + multiset{(q, a, r)};
      transitions := transitions + 1;
      AddedHolds(d, data, old(edges), q, a, r);
    }

    /** Brings every table to the final number of states. */
    method Init() returns (l: Lts)
      requires Valid()
      modifies `data
      ensures Valid()
      ensures l.Valid() && l.states == states && |l.post| == |data| == |old(data)|
      ensures forall q, a, r :: l.Edge(q, a, r) <==> q >= 0 && a >= 0 && r >= 0 && (q, a, r) in edges
    {
      var a := 0;
      while a < |data|
        invariant 0 <= a <= |data| == |old(data)|
        invariant Valid()
        invariant forall b :: 0 <= b < a ==> |data[b].0| == states && |data[b].1| == states
      {
        ResizedRows(data, a, states, states);
        SameRowsHold(data, data[a := (Resize(data[a].0, states), Resize(data[a].1, states))], edges);
        data := data[a := (Resize(data[a].0, states), Resize(data[a].1, states))];
        a := a + 1;
      }
      var d := data;
      l := Lts(states, seq(|d|, i requires 0 <= i < |d| => d[i].0), seq(|d|, i requires 0 <= i < |d| => d[i].1));
      InitComplete(d, edges, l);
    }

    static lemma InitComplete(d: Table, edges: multiset<(nat, nat, nat)>, l: Lts)
      requires Holds(d, edges)
      requires |l.post| == |l.pre| == |d|
      requires forall a :: 0 <= a < |d| ==> l.post[a] == d[a].0 && l.pre[a] == d[a].1
      requires forall a :: 0 <= a < |d| ==> |d[a].0| == |d[a].1| == l.states
      ensures l.Valid()
      ensures forall q, a, r :: l.Edge(q, a, r) <==> q >= 0 && a >= 0 && r >= 0 && (q, a, r) in edges
    {
      forall q: nat, a: nat, r: nat
        ensures l.Edge(q, a, r) <==> (q, a, r) in edges
        ensures (q, a, r) in edges <==> a < |d| && r < l.states && q in l.pre[a][r]
        ensures (q, a, r) in edges ==> q < l.states && r < l.states
        ensures a < |d| && q < l.states && r < l.states ==> multiset(l.post[a][q])[r] == multiset(l.pre[a][r])[q]
      {
        ListedOnce(d, edges, l, q, a, r);
      }
      forall a, q, r | 0 <= a < |l.post| && 0 <= q < l.states && r in l.post[a][q] ensures r < l.states {
        assert l.Edge(q, a, r);
      }
    }

    static lemma ListedOnce(d: Table, edges: multiset<(nat, nat, nat)>, l: Lts, q: nat, a: nat, r: nat)
      requires Holds(d, edges)
      requires |l.post| == |l.pre| == |d|
      requires forall a :: 0 <= a < |d| ==> l.post[a] == d[a].0 && l.pre[a] == d[a].1
      requires forall a :: 0 <= a < |d| ==> |d[a].0| == |d[a].1| == l.states
      ensures l.Edge(q, a, r) <==> (q, a, r) in edges
      ensures (q, a, r) in edges <==> a < |d| && r < l.states && q in l.pre[a][r]
      ensures (q, a, r) in edges ==> q < l.states && r < l.states
      ensures a < |d| && q < l.states && r < l.states ==> multiset(l.post[a][q])[r] == multiset(l.pre[a][r])[q]
    {
      assert Listed(d, edges, q, a, r);
      assert r in Fwd(d, a, q) <==> r in multiset(Fwd(d, a, q));
      assert q in Bwd(d, a, r) <==> q in multiset(Bwd(d, a, r));
    }
  }

  function Max(x: nat, y: nat): nat { if x < y then y else x }
}
