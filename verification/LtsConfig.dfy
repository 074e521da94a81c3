/** The configuration of the simulation engine as a value: blocks, block relation,
    state index and work queue, with the invariants that every step keeps. */
module LtsConfig {
  import opened Collections
  import opened Lts

  /** remove: the pending remove lists by label; counter: the counts by (label, state);
      inset: the labels under which the block is entered, one copy for each entered state. */
  datatype Block = Block(
    states: seq<nat>,
    remove: map<nat, seq<nat>>,
    counter: map<(nat, nat), nat>,
    inset: multiset<nat>)

  datatype Config = Config(
    blocks: seq<Block>,
    rel: seq<set<nat>>,
    index: seq<nat>,
    queue: seq<(nat, nat)>) {

    /** The states of all the blocks related to block b. */
    ghost function Col(b: int): set<nat> {
      if 0 <= b < |rel| then set q | 0 <= q < |index| && index[q] in rel[b] else {}
    }

    ghost predicate Pend(b: int, a: int, q: int) {
      0 <= b < |blocks| && a in blocks[b].remove && q in blocks[b].remove[a]
    }

    /** The relation on states that the block relation stands for. */
    ghost function Induced(): Relation {
      set p, q | 0 <= p < |index| && 0 <= q < |index| && index[q] in RowOf(index[p]) :: (p, q)
    }

    ghost function RowOf(b: int): set<nat> {
      if 0 <= b < |rel| then rel[b] else {}
    }

    ghost function Pairs(): Relation {
      set b, x | 0 <= b < |rel| && x in rel[b] :: (b, x)
    }
  }

  function Without(s: seq<nat>, gone: set<nat>): (r: seq<nat>)
    ensures forall q :: q in r <==> q in s && q !in gone
  {
    if s == [] then [] else (if s[0] in gone then [] else [s[0]]) + Without(s[1..], gone)
  }

  lemma {:induction false} WithoutNoDup(s: seq<nat>, gone: set<nat>)
    requires NoDup(s)
    ensures NoDup(Without(s, gone))
  {
    if s != [] {
      WithoutNoDup(s[1..], gone);
      assert s[0] !in s[1..];
    }
  }

  /** How many entries of s lie in T. */
  function Count(s: seq<nat>, T: set<nat>): nat {
    if s == [] then 0 else (if s[0] in T then 1 else 0) + Count(s[1..], T)
  }

  lemma CountZero(s: seq<nat>, T: set<nat>)
    ensures Count(s, T) == 0 <==> forall r :: r in s ==> r !in T
  {
    if s != [] {
      assert s == [s[0]] + s[1..];
      CountZero(s[1..], T);
    }
  }

  lemma {:induction false} CountWithout(s: seq<nat>, T: set<nat>, r: nat)
    requires r in T
    ensures Count(s, T) == Count(s, T - {r}) + multiset(s)[r]
  {
    if s != [] {
      assert s == [s[0]] + s[1..];
      CountWithout(s[1..], T, r);
    }
  }

  lemma {:induction false} CountSame(s: seq<nat>, T: set<nat>, T': set<nat>)
    requires forall r :: r in s ==> (r in T <==> r in T')
    ensures Count(s, T) == Count(s, T')
  {
    if s != [] {
      assert s == [s[0]] + s[1..];
      CountSame(s[1..], T, T');
    }
  }

  function Cell(m: map<(nat, nat), nat>, a: nat, q: nat): nat {
    if (a, q) in m then m[(a, q)] else 0
  }

  /** The states of s that are entered under label a. */
  function Entered(l: Lts, a: nat, s: seq<nat>): set<nat> {
    set r | r in s && a < |l.pre| && r < |l.pre[a]| && l.pre[a][r] != []
  }

  /** One if state q is entered under label a. */
  function Entry(l: Lts, a: nat, q: nat): nat {
    if a < |l.pre| && q < |l.pre[a]| && l.pre[a][q] != [] then 1 else 0
  }

  lemma EnteredStep(l: Lts, a: nat, s: seq<nat>, i: nat)
    requires NoDup(s) && i < |s|
    ensures |Entered(l, a, s[..i + 1])| == |Entered(l, a, s[..i])| + Entry(l, a, s[i])
  {
    assert s[..i + 1] == s[..i] + [s[i]];
    assert s[i] !in s[..i];
    if Entry(l, a, s[i]) == 1 {
      assert Entered(l, a, s[..i + 1]) == Entered(l, a, s[..i]) + {s[i]};
    } else {
      assert Entered(l, a, s[..i + 1]) == Entered(l, a, s[..i]);
    }
  }

  lemma EnteredSplit(l: Lts, a: nat, s: seq<nat>, kept: seq<nat>, moved: seq<nat>)
    requires forall q :: q in kept || q in moved <==> q in s
    requires forall q :: q in kept ==> q !in moved
    ensures |Entered(l, a, s)| == |Entered(l, a, kept)| + |Entered(l, a, moved)|
  {
    assert Entered(l, a, s) == Entered(l, a, kept) + Entered(l, a, moved);
    assert Entered(l, a, kept) !! Entered(l, a, moved);
  }

  ghost predicate Partitioned(n: nat, c: Config) {
    && |c.index| == n
    && (forall q :: 0 <= q < |c.index| ==> c.index[q] < |c.blocks|)
    && (forall q :: 0 <= q < |c.index| ==> q in c.blocks[c.index[q]].states)
    && (forall b, q {:trigger q in c.blocks[b].states} :: 0 <= b < |c.blocks| && q in c.blocks[b].states ==> q < |c.index| && c.index[q] == b)
    && (forall b :: 0 <= b < |c.blocks| ==> c.blocks[b].states != [] && NoDup(c.blocks[b].states))
  }

  ghost predicate OverBlocks(c: Config) {
    && |c.rel| == |c.blocks|
    && (forall b, x :: 0 <= b < |c.rel| && x in c.rel[b] ==> x < |c.blocks|)
    && (forall b :: 0 <= b < |c.rel| ==> b in c.rel[b])
  }

  /** Blocks partition the states, the relation is over blocks and reflexive. */
  ghost predicate Shape(l: Lts, c: Config) {
    Partitioned(l.states, c) && OverBlocks(c)
  }

  ghost predicate InsetOf(l: Lts, b: Block) {
    forall a: nat :: b.inset[a] == |Entered(l, a, b.states)|
  }

  ghost predicate Insets(l: Lts, c: Config) {
    forall b :: 0 <= b < |c.blocks| ==> InsetOf(l, c.blocks[b])
  }

  /** Block b, seen with the related states T, counts the successors in T. */
  ghost predicate CountsIn(l: Lts, b: Block, T: set<nat>) {
    forall a: nat, q: nat :: a in b.inset && 0 <= a < |l.post| && 0 <= q < |l.post[a]| ==>
      Cell(b.counter, a, q) == Count(l.post[a][q], T)
  }

  ghost predicate Counters(l: Lts, c: Config) {
    forall b :: 0 <= b < |c.blocks| ==> CountsIn(l, c.blocks[b], c.Col(b))
  }

  /** The pending states have lost all their successors in T. */
  ghost predicate RemovesIn(l: Lts, b: Block, T: set<nat>) {
    forall a :: a in b.remove ==>
      && a < |l.post| && b.remove[a] != [] && NoDup(b.remove[a])
      && forall q :: q in b.remove[a] ==> Lost(l, a, q, T)
  }

  ghost predicate Lost(l: Lts, a: nat, q: nat, T: set<nat>) {
    q < l.states && forall s :: l.Edge(q, a, s) ==> s !in T
  }

  ghost predicate Removes(l: Lts, c: Config) {
    forall b :: 0 <= b < |c.blocks| ==> RemovesIn(l, c.blocks[b], c.Col(b))
  }

  /** The queue holds, once each, the pairs whose remove list is pending. */
  ghost predicate Queued(c: Config) {
    && NoDup(c.queue)
    && forall b, a :: (b, a) in c.queue <==> 0 <= b < |c.blocks| && a in c.blocks[b].remove
  }

  /** The lists that one running step has taken off the queue: label a, states rem,
      for the block that consisted of the states X. */
  datatype Taken = Nothing | Taken(a: nat, X: set<nat>, rem: set<nat>) {
    ghost predicate Has(a': int, r: int, q: int) {
      Taken? && a == a' && r in X && q in rem
    }
  }

  /** The blocks that make up X have no list pending under the label taken. */
  ghost predicate Cleared(c: Config, t: Taken) {
    t.Taken? ==> forall r :: r in t.X && 0 <= r < |c.index| && c.index[r] < |c.blocks| ==> t.a !in c.blocks[c.index[r]].remove
  }

  ghost predicate Matched(l: Lts, a: int, q: int, T: set<nat>) {
    exists s :: l.Edge(q, a, s) && s in T
  }

  /** A related state answers a move, or its failure is pending, or is being processed. */
  ghost predicate Justified(l: Lts, c: Config, t: Taken) {
    forall p, a, r, q {:trigger l.Edge(p, a, r), q in c.Col(c.index[p])} ::
      l.Edge(p, a, r) && 0 <= p < |c.index| && 0 <= r < |c.index| && q in c.Col(c.index[p]) ==>
      Matched(l, a, q, c.Col(c.index[r])) || c.Pend(c.index[r], a, q) || t.Has(a, r, q)
  }

  /** What is related to a block is closed upwards under S. */
  ghost predicate UpClosed(c: Config, S: Relation) {
    forall b, x, y :: 0 <= b < |c.blocks| && x in c.Col(b) && In(x, y, S) ==> y in c.Col(b)
  }

  ghost predicate Within(c: Config, R: Relation) {
    forall p, q :: 0 <= p < |c.index| && q in c.Col(c.index[p]) ==> In(p, q, R)
  }

  ghost predicate Core(l: Lts, c: Config, R: Relation, t: Taken) {
    && Shape(l, c)
    && Insets(l, c)
    && Counters(l, c)
    && Removes(l, c)
    && Queued(c)
    && Justified(l, c, t)
    && Within(c, R)
  }

  /** What holds of every configuration between two steps. */
  ghost predicate Inv(l: Lts, c: Config, R: Relation, t: Taken) {
    Core(l, c, R, t) && UpClosed(c, l.Greatest(R))
  }

  ghost predicate IsInduced(c: Config, S: Relation) {
    forall p, q :: In(p, q, S) <==> 0 <= p < |c.index| && q in c.Col(c.index[p])
  }

  lemma InducedIs(c: Config)
    ensures IsInduced(c, c.Induced())
  {
  }

  lemma QuietSimulates(l: Lts, c: Config, S: Relation)
    requires Shape(l, c) && Queued(c) && Justified(l, c, Nothing) && c.queue == []
    requires forall p, a, r :: l.Edge(p, a, r) ==> r < l.states
    requires IsInduced(c, S)
    ensures l.Simulation(S)
  {
    forall p, q, a, r | In(p, q, S) && l.Edge(p, a, r)
      ensures l.Answers(q, a, r, S)
    {
      assert q in c.Col(c.index[p]);
      assert (c.index[r], a) !in c.queue;
      assert !c.Pend(c.index[r], a, q);
      var s :| l.Edge(q, a, s) && s in c.Col(c.index[r]);
      assert In(r, s, S);
    }
  }

  /** With nothing pending, the related states are exactly the greatest simulation. */
  lemma QuietIsGreatest(l: Lts, c: Config, R: Relation)
    requires l.Valid() && Inv(l, c, R, Nothing) && c.queue == []
    ensures c.Induced() == l.Greatest(R)
  {
    InducedIs(c);
    QuietSimulates(l, c, c.Induced());
    l.GreatestIsSimulation(R);
    ContainsGreatest(l, c, R);
    l.GreatestUnique(R, c.Induced());
  }

  /** At every moment the block relation contains the greatest simulation. */
  lemma ContainsGreatest(l: Lts, c: Config, R: Relation)
    requires Shape(l, c) && Within(c, R) && UpClosed(c, l.Greatest(R))
    ensures l.Greatest(R) <= c.Induced() <= R
  {
    var G := l.Greatest(R);
    l.GreatestIsSimulation(R);
    InducedIs(c);
    forall pq | pq in G ensures pq in c.Induced() {
      var (p, q) := pq;
      assert In(p, q, G);
      assert p in c.Col(c.index[p]);
      assert In(p, q, c.Induced());
    }
    forall pq | pq in c.Induced() ensures pq in R {
      assert In(pq.0, pq.1, c.Induced());
      assert In(pq.0, pq.1, R);
    }
  }

  // ---------------------------------------------------------------- splitting a block

  /** The states kept and moved share out those of the block. */
  ghost predicate Shares(whole: seq<nat>, kept: seq<nat>, moved: seq<nat>) {
    && NoDup(kept) && NoDup(moved) && kept != [] && moved != []
    && (forall q :: q in kept || q in moved <==> q in whole)
    && (forall q :: q in kept ==> q !in moved)
  }

  /** c' is c with the states moved of block b put into a new block. */
  ghost predicate SplitOf(l: Lts, c: Config, c': Config, b: nat, kept: seq<nat>, moved: seq<nat>) {
    && b < |c.blocks| == |c.rel|
    && Shares(c.blocks[b].states, kept, moved)
    && var n := |c.blocks|;
      && |c'.blocks| == n + 1 == |c'.rel|
      && (forall x :: 0 <= x < n && x != b ==> c'.blocks[x] == c.blocks[x])
      && c'.blocks[b].states == kept && c'.blocks[b].remove == c.blocks[b].remove
      && c'.blocks[b].counter == c.blocks[b].counter
      && c'.blocks[n].states == moved
      && InsetOf(l, c'.blocks[b]) && InsetOf(l, c'.blocks[n])
      && c'.rel[n] == c.rel[b] + {n}
      && (forall x :: 0 <= x < n ==> c'.rel[x] == c.rel[x] + if b in c.rel[x] then {n} else {})
      && |c'.index| == |c.index|
      && (forall q :: 0 <= q < |c.index| ==> c'.index[q] == if q in moved then n else c.index[q])
  }

  /** The new block takes over the counters and the pending lists of its own labels. */
  ghost predicate Inherits(c: Config, c': Config, b: nat) {
    && b < |c.blocks| && |c'.blocks| == |c.blocks| + 1
    && var n := |c.blocks|;
      && (forall a, q :: a in c'.blocks[n].inset ==> Cell(c'.blocks[n].counter, a, q) == Cell(c.blocks[b].counter, a, q))
      && (forall a :: a in c'.blocks[n].remove <==> a in c'.blocks[n].inset && a in c.blocks[b].remove)
      && (forall a :: a in c'.blocks[n].remove ==> c'.blocks[n].remove[a] == c.blocks[b].remove[a])
  }

  lemma SplitCols(l: Lts, c: Config, c': Config, b: nat, kept: seq<nat>, moved: seq<nat>)
    requires Shape(l, c) && SplitOf(l, c, c', b, kept, moved)
    ensures forall x :: 0 <= x < |c.blocks| ==> c'.Col(x) == c.Col(x)
    ensures c'.Col(|c.blocks|) == c.Col(b)
    ensures forall q :: 0 <= q < |c.index| ==> c'.Col(c'.index[q]) == c.Col(c.index[q])
  {
  }

  lemma SplitPartitioned(m: nat, c: Config, c': Config, b: nat, kept: seq<nat>, moved: seq<nat>)
    requires Partitioned(m, c) && b < |c.blocks| && |c'.blocks| == |c.blocks| + 1
    requires Shares(c.blocks[b].states, kept, moved)
    requires forall x :: 0 <= x < |c.blocks| && x != b ==> c'.blocks[x] == c.blocks[x]
    requires c'.blocks[b].states == kept && c'.blocks[|c.blocks|].states == moved
    requires |c'.index| == |c.index|
    requires forall q :: 0 <= q < |c.index| ==> c'.index[q] == if q in moved then |c.blocks| else c.index[q]
    ensures Partitioned(m, c')
  {
    var n := |c.blocks|;
    forall x: nat, q: nat | x < |c'.blocks| && q in c'.blocks[x].states
      ensures q < |c'.index| && c'.index[q] == x
    {
      if x == n || x == b {
        assert q in moved || q in kept;
        assert q in c.blocks[b].states;
      }
    }
    forall q | 0 <= q < |c'.index| ensures c'.index[q] <= n && q in c'.blocks[c'.index[q]].states {
      assert q in c.blocks[c.index[q]].states;
    }
  }

  lemma SplitShape(l: Lts, c: Config, c': Config, b: nat, kept: seq<nat>, moved: seq<nat>)
    requires Shape(l, c) && SplitOf(l, c, c', b, kept, moved)
    ensures Shape(l, c')
  {
    SplitPartitioned(l.states, c, c', b, kept, moved);
  }

  /** The new block related to the same states as the old one keeps the rest of the invariant. */
  lemma SplitKeeps(l: Lts, c: Config, c': Config, R: Relation, t: Taken, b: nat, kept: seq<nat>, moved: seq<nat>)
    requires l.Valid() && Inv(l, c, R, t) && SplitOf(l, c, c', b, kept, moved) && Inherits(c, c', b) && Queued(c')
    ensures Inv(l, c', R, t)
  {
    SplitCols(l, c, c', b, kept, moved);
    SplitShape(l, c, c', b, kept, moved);
    SplitCounts(l, c, c', b, kept, moved);
    SplitJustified(l, c, c', t, b, kept, moved);
    SplitClosed(c, c', b, l.Greatest(R));
    assert Within(c', R);
  }

  lemma SplitKeepsCleared(l: Lts, c: Config, c': Config, t: Taken, b: nat, kept: seq<nat>, moved: seq<nat>)
    requires Shape(l, c) && Cleared(c, t) && SplitOf(l, c, c', b, kept, moved) && Inherits(c, c', b)
    ensures Cleared(c', t)
  {
    if t.Taken? {
      forall r | r in t.X && 0 <= r < |c'.index| ensures c'.index[r] <= |c.blocks| && t.a !in c'.blocks[c'.index[r]].remove {
        assert t.a !in c.blocks[c.index[r]].remove;
        if r in moved {
          assert r in c.blocks[b].states;
        }
      }
    }
  }

  lemma SplitClosed(c: Config, c': Config, b: nat, S: Relation)
    requires b < |c.blocks| && |c'.blocks| == |c.blocks| + 1
    requires forall x :: 0 <= x < |c.blocks| ==> c'.Col(x) == c.Col(x)
    requires c'.Col(|c.blocks|) == c.Col(b)
    requires UpClosed(c, S)
    ensures UpClosed(c', S)
  {
    forall x, y, z | 0 <= x < |c'.blocks| && y in c'.Col(x) && In(y, z, S) ensures z in c'.Col(x) {
      assert y in c.Col(if x < |c.blocks| then x else b);
    }
  }

  lemma CountsCopied(l: Lts, old_: Block, new_: Block, T: set<nat>)
    requires CountsIn(l, old_, T) && RemovesIn(l, old_, T)
    requires forall a :: a in new_.inset ==> a in old_.inset
    requires forall a, q :: a in new_.inset ==> Cell(new_.counter, a, q) == Cell(old_.counter, a, q)
    requires forall a :: a in new_.remove ==> a in old_.remove && new_.remove[a] == old_.remove[a]
    ensures CountsIn(l, new_, T) && RemovesIn(l, new_, T)
  {
  }

  lemma SplitCounts(l: Lts, c: Config, c': Config, b: nat, kept: seq<nat>, moved: seq<nat>)
    requires Shape(l, c) && Insets(l, c) && Counters(l, c) && Removes(l, c)
    requires SplitOf(l, c, c', b, kept, moved) && Inherits(c, c', b)
    ensures Insets(l, c') && Counters(l, c') && Removes(l, c')
  {
    SplitCols(l, c, c', b, kept, moved);
    var n := |c.blocks|;
    assert InsetOf(l, c.blocks[b]);
    assert CountsIn(l, c.blocks[b], c.Col(b)) && RemovesIn(l, c.blocks[b], c.Col(b));
    forall x | x == b || x == n
      ensures CountsIn(l, c'.blocks[x], c.Col(b)) && RemovesIn(l, c'.blocks[x], c.Col(b))
    {
      forall a | a in c'.blocks[x].inset ensures a in c.blocks[b].inset {
        InsetShrinks(l, a, c.blocks[b], c'.blocks[x]);
      }
      CountsCopied(l, c.blocks[b], c'.blocks[x], c.Col(b));
    }
  }

  lemma InsetShrinks(l: Lts, a: nat, whole: Block, part: Block)
    requires InsetOf(l, whole) && InsetOf(l, part) && a in part.inset
    requires forall q :: q in part.states ==> q in whole.states
    ensures a in whole.inset
  {
    assert part.inset[a] == |Entered(l, a, part.states)|;
    var r :| r in Entered(l, a, part.states);
    assert r in Entered(l, a, whole.states);
    assert whole.inset[a] == |Entered(l, a, whole.states)|;
  }

  /** A label under which a state of the block is entered is in the inset. */
  lemma InsetHas(l: Lts, b: Block, p: nat, a: nat, r: nat)
    requires l.Valid() && InsetOf(l, b) && l.Edge(p, a, r) && r in b.states
    ensures a in b.inset
  {
    l.PreIsInverse(p, a, r);
    assert r in Entered(l, a, b.states);
    assert b.inset[a] == |Entered(l, a, b.states)|;
  }

  lemma SplitJustified(l: Lts, c: Config, c': Config, t: Taken, b: nat, kept: seq<nat>, moved: seq<nat>)
    requires l.Valid() && Shape(l, c) && Justified(l, c, t)
    requires SplitOf(l, c, c', b, kept, moved) && Inherits(c, c', b)
    ensures Justified(l, c', t)
  {
    SplitCols(l, c, c', b, kept, moved);
    var n := |c.blocks|;
    forall p, a, r, q | l.Edge(p, a, r) && 0 <= p < |c'.index| && 0 <= r < |c'.index| && q in c'.Col(c'.index[p])
      ensures Matched(l, a, q, c'.Col(c'.index[r])) || c'.Pend(c'.index[r], a, q) || t.Has(a, r, q)
    {
      assert q in c.Col(c.index[p]);
      if c.Pend(c.index[r], a, q) && c'.index[r] == n {
        InsetHas(l, c'.blocks[n], p, a, r);
      }
    }
  }

  /** Every block lies inside rem or outside of it, and mask holds the former. */
  ghost predicate Masks(c: Config, mask: set<nat>, rem: set<nat>) {
    && (forall x :: x in mask ==> x < |c.blocks|)
    && (forall q :: 0 <= q < |c.index| ==> (q in rem <==> c.index[q] in mask))
  }

  /** Every state is still related to the same states. */
  ghost predicate SameCols(c: Config, c': Config) {
    |c'.index| == |c.index|
    && forall q {:trigger c'.index[q]} :: 0 <= q < |c.index| ==> c'.Col(c'.index[q]) == c.Col(c.index[q])
  }

  lemma SameColsTrans(c: Config, c': Config, c'': Config)
    requires SameCols(c, c') && SameCols(c', c'')
    ensures SameCols(c, c'')
  {
  }

  /** Progress of sorting the states by rem: the blocks todo are as they were in idx0, and
      elsewhere mask tells the blocks inside rem. */
  ghost predicate Sorted(idx0: seq<nat>, idx: seq<nat>, todo: seq<nat>, mask: set<nat>, rem: set<nat>, n: nat) {
    && |idx| == |idx0|
    && (forall x :: x in mask ==> x < n && x !in todo)
    && (forall x :: x in todo ==> x < n)
    && (forall q :: 0 <= q < |idx| ==> (idx[q] in todo <==> idx0[q] in todo))
    && (forall q :: 0 <= q < |idx| && idx0[q] in todo ==> idx[q] == idx0[q])
    && (forall q :: 0 <= q < |idx| && q !in rem ==> idx[q] == idx0[q])
    && (forall q :: 0 <= q < |idx| && idx0[q] !in todo ==> (q in rem <==> idx[q] in mask))
  }

  lemma SortedStep(idx0: seq<nat>, idx: seq<nat>, idx': seq<nat>, todo: seq<nat>, mask: set<nat>, rem: set<nat>,
          n: nat, isNew: bool)
    requires Sorted(idx0, idx, todo, mask, rem, n) && todo != [] && todo[0] !in todo[1..]
    requires |idx'| == |idx|
    requires forall q :: 0 <= q < |idx| ==> idx[q] < n
    requires forall q :: 0 <= q < |idx| ==> idx'[q] == if isNew && q in rem && idx0[q] == todo[0] then n else idx[q]
    requires !isNew ==> forall q :: 0 <= q < |idx| && idx[q] == todo[0] ==> q in rem
    ensures Sorted(idx0, idx', todo[1..], mask + {if isNew then n else todo[0]}, rem, if isNew then n + 1 else n)
  {
    assert todo == [todo[0]] + todo[1..];
    assert forall x :: x in todo <==> x == todo[0] || x in todo[1..];
  }

  // ---------------------------------------------------------------- erasing related blocks

  /** Some state of block x enters a state of X under a. */
  ghost predicate Enters(l: Lts, c: Config, X: set<nat>, a: nat, x: int) {
    exists p, r :: l.Edge(p, a, r) && r in X && 0 <= p < |c.index| && c.index[p] == x
  }

  /** A state above one that still answers is not among those that lost all their successors. */
  lemma StillAnswers(l: Lts, c: Config, S: Relation, t: Taken, T: set<nat>, x: nat, y: nat, z: nat)
    requires l.Simulation(S) && UpClosed(c, S) && t.Taken? && x < |c.blocks|
    requires forall r :: r in t.X ==> r < |c.index| && c.index[r] < |c.blocks| && c.Col(c.index[r]) == T
    requires forall q :: q in t.rem ==> Lost(l, t.a, q, T)
    requires forall p, r, q {:trigger l.Edge(p, t.a, r), q in c.Col(c.index[p])} ::
               l.Edge(p, t.a, r) && r in t.X && 0 <= p < |c.index| && q in c.Col(c.index[p]) ==>
                 Matched(l, t.a, q, T) || q in t.rem
    requires Enters(l, c, t.X, t.a, x) && y in c.Col(x) && y !in t.rem && In(y, z, S)
    ensures z !in t.rem
  {
    var p, r :| l.Edge(p, t.a, r) && r in t.X && 0 <= p < |c.index| && c.index[p] == x;
    assert y in c.Col(c.index[p]);
    var s :| l.Edge(y, t.a, s) && s in T;
    assert l.Answers(z, t.a, s, S);
    var s' :| l.Edge(z, t.a, s') && In(s, s', S);
    assert s' in c.Col(c.index[r]);
  }

  /** Relating the entering blocks to no state of rem keeps the closure: a state below a
      removed one would have kept a successor, and so would the removed one. */
  lemma EraseKeepsUpClosed(l: Lts, c: Config, c': Config, S: Relation, t: Taken, T: set<nat>)
    requires l.Simulation(S) && UpClosed(c, S) && t.Taken?
    requires |c'.blocks| == |c.blocks| && c'.index == c.index
    requires forall r :: r in t.X ==> r < |c.index| && c.index[r] < |c.blocks| && c.Col(c.index[r]) == T
    requires forall q :: q in t.rem ==> Lost(l, t.a, q, T)
    requires forall p, r, q {:trigger l.Edge(p, t.a, r), q in c.Col(c.index[p])} ::
               l.Edge(p, t.a, r) && r in t.X && 0 <= p < |c.index| && q in c.Col(c.index[p]) ==>
                 Matched(l, t.a, q, T) || q in t.rem
    requires forall x :: 0 <= x < |c.blocks| ==>
               c'.Col(x) == if Enters(l, c, t.X, t.a, x) then c.Col(x) - t.rem else c.Col(x)
    ensures UpClosed(c', S)
  {
    forall x, y, z | 0 <= x < |c'.blocks| && y in c'.Col(x) && In(y, z, S) ensures z in c'.Col(x) {
      assert y in c.Col(x) && z in c.Col(x);
      if Enters(l, c, t.X, t.a, x) {
        StillAnswers(l, c, S, t, T, x, y, z);
      }
    }
  }

  ghost predicate InList(lists: map<nat, seq<nat>>, a: int, q: int) {
    a in lists && q in lists[a]
  }

  /** The counter holds, for label a, the numbers of successors in T. */
  ghost predicate Counting(l: Lts, counter: map<(nat, nat), nat>, a: nat, T: set<nat>) {
    a < |l.post| && forall q: nat :: q < l.states && q < |l.post[a]| ==> Cell(counter, a, q) == Count(l.post[a][q], T)
  }

  ghost predicate ProperList(lists: map<nat, seq<nat>>, a: nat) {
    a in lists ==> lists[a] != [] && NoDup(lists[a])
  }

  /** The list of label a has gained exactly the states that had successors in T and whose
      count is now zero. */
  ghost predicate Gained(l: Lts, lists0: map<nat, seq<nat>>, lists: map<nat, seq<nat>>, counter: map<(nat, nat), nat>, a: nat, T: set<nat>) {
    && a < |l.post|
    && ProperList(lists, a)
    && forall q: nat :: InList(lists, a, q) <==>
         InList(lists0, a, q) || (q < l.states && q < |l.post[a]| && Count(l.post[a][q], T) > 0 && Cell(counter, a, q) == 0)
  }

  /** Block b has, for label x, the counters and the list of block b0. */
  ghost predicate SameLabel(b0: Block, b: Block, x: nat) {
    && (forall q: nat :: Cell(b.counter, x, q) == Cell(b0.counter, x, q))
    && (x in b.remove <==> x in b0.remove)
    && (x in b.remove ==> b.remove[x] == b0.remove[x])
  }

  /** Block b, which was b0 when related to T0, is up to date for label x and T1. */
  ghost predicate Handled(l: Lts, b0: Block, b: Block, x: nat, T0: set<nat>, T1: set<nat>) {
    if x in b0.inset then Counting(l, b.counter, x, T1) && Gained(l, b0.remove, b.remove, b.counter, x, T0)
    else SameLabel(b0, b, x)
  }

  /** The part of a block that only splitting changes. */
  ghost predicate SameBody(b0: Block, b: Block) {
    b.states == b0.states && b.inset == b0.inset
  }

  /** With block y out of the row of block x, and x up to date for all labels, the core of the
      invariant holds again. */
  lemma EraseKeepsCore(l: Lts, c: Config, c': Config, R: Relation, t: Taken, x: nat, y: nat)
    requires l.Valid() && Core(l, c, R, t) && x < |c.blocks| && y in c.rel[x] && x != y
    requires c'.rel == c.rel[x := c.rel[x] - {y}] && c'.index == c.index && |c'.blocks| == |c.blocks|
    requires forall z :: 0 <= z < |c.blocks| && z != x ==> c'.blocks[z] == c.blocks[z]
    requires SameBody(c.blocks[x], c'.blocks[x]) && Queued(c')
    requires forall a: nat :: a < |l.post| ==> Handled(l, c.blocks[x], c'.blocks[x], a, c.Col(x), c'.Col(x))
    requires forall a :: a in c'.blocks[x].remove ==> a < |l.post|
    ensures Core(l, c', R, t)
  {
    assert Shape(l, c');
    assert forall z :: 0 <= z < |c.blocks| && z != x ==> c'.Col(z) == c.Col(z);
    assert c'.Col(x) <= c.Col(x);
    EraseKeepsLists(l, c, c', x);
    EraseKeepsJustified(l, c, c', t, x);
  }

  lemma EraseKeepsLists(l: Lts, c: Config, c': Config, x: nat)
    requires l.Valid() && Counters(l, c) && Removes(l, c) && Insets(l, c) && x < |c.blocks| == |c'.blocks|
    requires forall z :: 0 <= z < |c.blocks| && z != x ==> c'.blocks[z] == c.blocks[z] && c'.Col(z) == c.Col(z)
    requires c'.Col(x) <= c.Col(x) && SameBody(c.blocks[x], c'.blocks[x])
    requires forall a: nat :: a < |l.post| ==> Handled(l, c.blocks[x], c'.blocks[x], a, c.Col(x), c'.Col(x))
    requires forall a :: a in c'.blocks[x].remove ==> a < |l.post|
    ensures Counters(l, c') && Removes(l, c') && Insets(l, c')
  {
    assert InsetOf(l, c.blocks[x]);
    var T := c'.Col(x);
    var b := c'.blocks[x];
    assert CountsIn(l, b, T) by {
      forall a: nat, q: nat | a in b.inset && a < |l.post| && q < |l.post[a]| ensures Cell(b.counter, a, q) == Count(l.post[a][q], T) {
        assert Handled(l, c.blocks[x], b, a, c.Col(x), T);
      }
    }
    forall a | a in b.remove
      ensures b.remove[a] != [] && NoDup(b.remove[a]) && forall q :: q in b.remove[a] ==> Lost(l, a, q, T)
    {
      assert Handled(l, c.blocks[x], b, a, c.Col(x), T);
      assert RemovesIn(l, c.blocks[x], c.Col(x));
      forall q | q in b.remove[a] ensures Lost(l, a, q, T) {
        if InList(c.blocks[x].remove, a, q) {
          assert Lost(l, a, q, c.Col(x));
        } else {
          assert InList(b.remove, a, q);
          CountZero(l.post[a][q], T);
        }
      }
    }
  }

  lemma EraseKeepsJustified(l: Lts, c: Config, c': Config, t: Taken, x: nat)
    requires l.Valid() && Shape(l, c) && Insets(l, c) && Justified(l, c, t) && x < |c.blocks| == |c'.blocks|
    requires c'.index == c.index
    requires forall z :: 0 <= z < |c.blocks| && z != x ==> c'.blocks[z] == c.blocks[z] && c'.Col(z) == c.Col(z)
    requires c'.Col(x) <= c.Col(x)
    requires forall a: nat :: a < |l.post| ==> Handled(l, c.blocks[x], c'.blocks[x], a, c.Col(x), c'.Col(x))
    ensures Justified(l, c', t)
  {
    forall p, a, r, q | l.Edge(p, a, r) && 0 <= p < |c'.index| && 0 <= r < |c'.index| && q in c'.Col(c'.index[p])
      ensures Matched(l, a, q, c'.Col(c'.index[r])) || c'.Pend(c'.index[r], a, q) || t.Has(a, r, q)
    {
      assert q in c.Col(c.index[p]);
      if c.index[r] == x {
        assert r in c.blocks[x].states && InsetOf(l, c.blocks[x]);
        InsetHas(l, c.blocks[x], p, a, r);
        assert Handled(l, c.blocks[x], c'.blocks[x], a, c.Col(x), c'.Col(x));
        if c.Pend(x, a, q) {
          assert InList(c.blocks[x].remove, a, q);
          assert InList(c'.blocks[x].remove, a, q);
        } else if Matched(l, a, q, c.Col(x)) && !Matched(l, a, q, c'.Col(x)) {
          CountZero(l.post[a][q], c.Col(x));
          CountZero(l.post[a][q], c'.Col(x));
          assert InList(c'.blocks[x].remove, a, q);
        }
      }
    }
  }

  /** Among blocks p, only what block b holds for label a differs from p0. */
  ghost predicate OnlyLabel(p0: seq<Block>, p: seq<Block>, b: nat, a: nat) {
    && |p| == |p0| && b < |p|
    && (forall x :: 0 <= x < |p| && x != b ==> p[x] == p0[x])
    && SameBody(p0[b], p[b])
    && forall y: nat :: y != a ==> SameLabel(p0[b], p[b], y)
  }

  lemma OnlyLabelTrans(p0: seq<Block>, p1: seq<Block>, p2: seq<Block>, b: nat, a: nat)
    requires OnlyLabel(p0, p1, b, a) && OnlyLabel(p1, p2, b, a)
    ensures OnlyLabel(p0, p2, b, a)
  {
    forall y: nat | y != a ensures SameLabel(p0[b], p2[b], y) {
      assert SameLabel(p0[b], p1[b], y) && SameLabel(p1[b], p2[b], y);
    }
  }

  lemma QueuePush(c: Config, c': Config, b: nat, a: nat)
    requires Queued(c) && |c'.blocks| == |c.blocks| && b < |c.blocks|
    requires a !in c.blocks[b].remove && c'.queue == c.queue + [(b, a)]
    requires forall x, y :: 0 <= x < |c.blocks| ==>
               (y in c'.blocks[x].remove <==> y in c.blocks[x].remove || (x == b && y == a))
    ensures Queued(c')
  {
    assert (b, a) !in c.queue;
    NoDupAppend(c.queue, (b, a));
    forall x, y ensures (x, y) in c'.queue <==> 0 <= x < |c'.blocks| && y in c'.blocks[x].remove {
      assert (x, y) in c'.queue <==> (x, y) in c.queue || (x, y) == (b, a);
    }
  }

  /** Among the blocks, only the counters and the lists of block x have changed. */
  ghost predicate OnlyBlock(p0: seq<Block>, p: seq<Block>, x: nat) {
    && |p| == |p0| && x < |p|
    && (forall z :: 0 <= z < |p| && z != x ==> p[z] == p0[z])
    && SameBody(p0[x], p[x])
  }

  /** Labels below a are up to date, the others untouched. */
  ghost predicate HandledUpTo(l: Lts, b0: Block, b: Block, a: nat, T0: set<nat>, T1: set<nat>) {
    forall x: nat :: x < |l.post| ==> if x < a then Handled(l, b0, b, x, T0, T1) else SameLabel(b0, b, x)
  }

  lemma HandledThenSame(l: Lts, b0: Block, b1: Block, b2: Block, y: nat, T0: set<nat>, T1: set<nat>)
    requires Handled(l, b0, b1, y, T0, T1) && SameLabel(b1, b2, y)
    ensures Handled(l, b0, b2, y, T0, T1)
  {
  }

  lemma SameThenHandled(l: Lts, b0: Block, b1: Block, b2: Block, y: nat, T0: set<nat>, T1: set<nat>)
    requires SameLabel(b0, b1, y) && y in b0.inset && Counting(l, b2.counter, y, T1)
    requires Gained(l, b1.remove, b2.remove, b2.counter, y, T0)
    ensures Handled(l, b0, b2, y, T0, T1)
  {
  }

  /** Label a has been counted down; the labels below stay up to date. */
  lemma HandledStep(l: Lts, p0: seq<Block>, p1: seq<Block>, p2: seq<Block>, x: nat, a: nat, T0: set<nat>, T1: set<nat>)
    requires OnlyBlock(p0, p1, x) && OnlyLabel(p1, p2, x, a) && a < |l.post|
    requires HandledUpTo(l, p0[x], p1[x], a, T0, T1)
    requires a in p0[x].inset && Counting(l, p2[x].counter, a, T1)
    requires Gained(l, p1[x].remove, p2[x].remove, p2[x].counter, a, T0)
    ensures OnlyBlock(p0, p2, x) && HandledUpTo(l, p0[x], p2[x], a + 1, T0, T1)
  {
    forall y: nat | y < |l.post|
      ensures y < a + 1 ==> Handled(l, p0[x], p2[x], y, T0, T1)
      ensures y >= a + 1 ==> SameLabel(p0[x], p2[x], y)
    {
      if y == a {
        SameThenHandled(l, p0[x], p1[x], p2[x], y, T0, T1);
      } else {
        assert SameLabel(p1[x], p2[x], y);
        if y < a {
          HandledThenSame(l, p0[x], p1[x], p2[x], y, T0, T1);
        } else {
          assert SameLabel(p0[x], p1[x], y);
        }
      }
    }
  }

  /** A label under which block b2 is not entered, or x not, needs no counting. */
  lemma HandledSkip(l: Lts, b0: Block, b: Block, b2: Block, a: nat, T0: set<nat>, T1: set<nat>)
    requires l.Valid() && HandledUpTo(l, b0, b, a, T0, T1) && a < |l.post|
    requires InsetOf(l, b2) && T1 == T0 - SetOf(b2.states)
    requires a !in b2.inset || a !in b0.inset
    requires CountsIn(l, b0, T0) && ProperList(b0.remove, a)
    requires forall q: nat :: InList(b0.remove, a, q) ==> Lost(l, a, q, T0)
    ensures HandledUpTo(l, b0, b, a + 1, T0, T1)
  {
    assert SameLabel(b0, b, a);
    if a in b0.inset {
      forall q: nat | q < l.states ensures Count(l.post[a][q], T0) == Count(l.post[a][q], T1) == Cell(b.counter, a, q) {
        forall r | r in l.post[a][q] ensures r !in b2.states {
          if r in b2.states {
            assert l.Edge(q, a, r);
            InsetHas(l, b2, q, a, r);
          }
        }
        CountSame(l.post[a][q], T0, T1);
      }
    }
  }

  lemma BodyShape(l: Lts, c: Config, c': Config, x: nat)
    requires Shape(l, c) && OnlyBlock(c.blocks, c'.blocks, x) && c'.rel == c.rel && c'.index == c.index
    ensures Shape(l, c') && forall b :: c'.Col(b) == c.Col(b)
  {
    assert forall b :: 0 <= b < |c.blocks| ==> c'.blocks[b].states == c.blocks[b].states;
  }

  lemma BodiesShape(l: Lts, c: Config, c': Config)
    requires Shape(l, c) && |c'.blocks| == |c.blocks| && c'.rel == c.rel && c'.index == c.index
    requires forall x :: 0 <= x < |c.blocks| ==> SameBody(c.blocks[x], c'.blocks[x])
    ensures Shape(l, c') && forall b :: c'.Col(b) == c.Col(b)
  {
    forall b | 0 <= b < |c.blocks| ensures c'.blocks[b].states == c.blocks[b].states {
      assert SameBody(c.blocks[b], c'.blocks[b]);
    }
  }

  lemma OnlyBlockTrans(p0: seq<Block>, p1: seq<Block>, p2: seq<Block>, x: nat)
    requires OnlyBlock(p0, p1, x) && OnlyBlock(p1, p2, x)
    ensures OnlyBlock(p0, p2, x)
  {
  }

  // ---------------------------------------------------------------- one step

  /** Taking a list off the queue makes it the one being processed. */
  lemma TakeList(l: Lts, c: Config, c': Config, R: Relation, b: nat, a: nat, t: Taken)
    requires Inv(l, c, R, Nothing) && b < |c.blocks| && a in c.blocks[b].remove
    requires c.queue == c'.queue + [(b, a)]
    requires c'.blocks == c.blocks[b := c.blocks[b].(remove := c.blocks[b].remove - {a})]
    requires c'.rel == c.rel && c'.index == c.index
    requires t == Taken(a, SetOf(c.blocks[b].states), SetOf(c.blocks[b].remove[a]))
    ensures Inv(l, c', R, t) && Cleared(c', t)
  {
    assert forall x :: c'.Col(x) == c.Col(x);
    assert Shape(l, c');
    assert Insets(l, c') && Counters(l, c') && Removes(l, c') by {
      assert InsetOf(l, c.blocks[b]) && CountsIn(l, c.blocks[b], c.Col(b)) && RemovesIn(l, c.blocks[b], c.Col(b));
    }
    TakeQueued(c, c', b, a);
    TakeJustified(l, c, c', b, a, t);
  }

  lemma TakeJustified(l: Lts, c: Config, c': Config, b: nat, a: nat, t: Taken)
    requires Shape(l, c) && Justified(l, c, Nothing) && b < |c.blocks| && a in c.blocks[b].remove
    requires c'.blocks == c.blocks[b := c.blocks[b].(remove := c.blocks[b].remove - {a})]
    requires c'.rel == c.rel && c'.index == c.index
    requires t == Taken(a, SetOf(c.blocks[b].states), SetOf(c.blocks[b].remove[a]))
    ensures Justified(l, c', t)
  {
    assert forall x :: c'.Col(x) == c.Col(x);
    forall p, y, r, q | l.Edge(p, y, r) && 0 <= p < |c'.index| && 0 <= r < |c'.index| && q in c'.Col(c'.index[p])
      ensures Matched(l, y, q, c'.Col(c'.index[r])) || c'.Pend(c'.index[r], y, q) || t.Has(y, r, q)
    {
      assert q in c.Col(c.index[p]);
      assert r in c.blocks[c.index[r]].states;
    }
  }

  lemma TakeQueued(c: Config, c': Config, b: nat, a: nat)
    requires Queued(c) && b < |c.blocks| && c.queue == c'.queue + [(b, a)]
    requires c'.blocks == c.blocks[b := c.blocks[b].(remove := c.blocks[b].remove - {a})]
    ensures Queued(c')
  {
    forall i, j | 0 <= i < j < |c'.queue| ensures c'.queue[i] != c'.queue[j] {
      assert c.queue[i] == c'.queue[i] && c.queue[j] == c'.queue[j];
    }
    assert c.queue[|c'.queue|] == (b, a);
    forall i | 0 <= i < |c'.queue| ensures c'.queue[i] != (b, a) {
      assert c.queue[i] == c'.queue[i];
    }
    forall x, y ensures (x, y) in c'.queue <==> 0 <= x < |c'.blocks| && y in c'.blocks[x].remove {
      assert (x, y) in c.queue <==> (x, y) in c'.queue || (x, y) == (b, a);
    }
  }

  /** Splitting by rem moves no state that enters X, since those have successors left. */
  lemma SplitKeepsEnters(l: Lts, c: Config, c': Config, t: Taken, T: set<nat>)
    requires t.Taken? && |c'.index| == |c.index|
    requires forall q :: 0 <= q < |c.index| && q !in t.rem ==> c'.index[q] == c.index[q]
    requires forall q :: q in t.rem ==> Lost(l, t.a, q, T)
    requires t.X <= T
    ensures forall x :: Enters(l, c', t.X, t.a, x) <==> Enters(l, c, t.X, t.a, x)
    ensures forall x :: Enters(l, c', t.X, t.a, x) ==> exists p :: 0 <= p < |c'.index| && c'.index[p] == x && p !in t.rem
  {
    forall x | Enters(l, c, t.X, t.a, x) ensures Enters(l, c', t.X, t.a, x) {
      var p, r :| l.Edge(p, t.a, r) && r in t.X && 0 <= p < |c.index| && c.index[p] == x;
      assert p !in t.rem;
    }
    forall x | Enters(l, c', t.X, t.a, x)
      ensures Enters(l, c, t.X, t.a, x)
      ensures exists p :: 0 <= p < |c'.index| && c'.index[p] == x && p !in t.rem
    {
      var p, r :| l.Edge(p, t.a, r) && r in t.X && 0 <= p < |c'.index| && c'.index[p] == x;
      assert p !in t.rem;
    }
  }

  /** Once no entering block is related to a state of rem, nothing is left being processed. */
  lemma StepDone(l: Lts, c: Config, c': Config, R: Relation, t: Taken, T: set<nat>, mask: set<nat>)
    requires l.Valid() && Inv(l, c, R, t) && Cleared(c, t) && t.Taken? && Core(l, c', R, t)
    requires Masks(c, mask, t.rem) && c'.index == c.index && |c'.blocks| == |c.blocks|
    requires forall r :: r in t.X ==> r < |c.index| && c.Col(c.index[r]) == T
    requires forall q :: q in t.rem ==> Lost(l, t.a, q, T)
    requires forall x :: 0 <= x < |c.blocks| ==>
               c'.rel[x] == if Enters(l, c, t.X, t.a, x) then c.rel[x] - mask else c.rel[x]
    ensures Inv(l, c', R, Nothing)
  {
    l.GreatestIsSimulation(R);
    assert forall x :: 0 <= x < |c.blocks| ==>
             c'.Col(x) == if Enters(l, c, t.X, t.a, x) then c.Col(x) - t.rem else c.Col(x);
    forall p, r, q {:trigger l.Edge(p, t.a, r), q in c.Col(c.index[p])} | l.Edge(p, t.a, r) && r in t.X && 0 <= p < |c.index| && q in c.Col(c.index[p])
      ensures Matched(l, t.a, q, T) || q in t.rem
    {
      assert !c.Pend(c.index[r], t.a, q);
    }
    EraseKeepsUpClosed(l, c, c', l.Greatest(R), t, T);
    forall p, a, r, q | l.Edge(p, a, r) && 0 <= p < |c'.index| && 0 <= r < |c'.index| && q in c'.Col(c'.index[p])
      ensures Matched(l, a, q, c'.Col(c'.index[r])) || c'.Pend(c'.index[r], a, q)
    {
      if t.Has(a, r, q) {
        assert Enters(l, c, t.X, t.a, c.index[p]);
      }
    }
  }

  /** The configuration between the two halves of a step: the blocks are split by rem, and
      pre lists the blocks that enter X, whose states are related to T. */
  ghost predicate Halfway(l: Lts, c: Config, R: Relation, t: Taken, T: set<nat>, pre: seq<nat>, mask: set<nat>) {
    && Inv(l, c, R, t) && t.Taken? && Cleared(c, t)
    && Masks(c, mask, t.rem)
    && NoDup(pre) && (forall x :: x in pre <==> Enters(l, c, t.X, t.a, x))
    && (forall x :: x in pre ==> x < |c.blocks| && x !in mask)
    && (forall r :: r in t.X ==> r < |c.index| && c.Col(c.index[r]) == T)
    && (forall q :: q in t.rem ==> Lost(l, t.a, q, T))
  }

  /** Rows that only lose blocks make a smaller relation, unless nothing is lost. */
  lemma PairsShrink(c: Config, c': Config)
    requires |c'.rel| == |c.rel| && forall x :: 0 <= x < |c.rel| ==> c'.rel[x] <= c.rel[x]
    ensures c'.rel == c.rel || c'.Pairs() < c.Pairs()
  {
    assert c'.Pairs() <= c.Pairs();
    if c'.rel != c.rel {
      var x :| 0 <= x < |c.rel| && c'.rel[x] != c.rel[x];
      var y :| y in c.rel[x] && y !in c'.rel[x];
      assert (x, y) in c.Pairs() && (x, y) !in c'.Pairs();
    }
  }

  /** There are at most as many blocks as states. */
  lemma FewBlocks(n: nat, c: Config)
    requires Partitioned(n, c)
    ensures |c.blocks| <= n
  {
    var first := seq(|c.blocks|, b requires 0 <= b < |c.blocks| => c.blocks[b].states[0]);
    forall i, j | 0 <= i < j < |first| ensures first[i] != first[j] {
      assert first[i] in c.blocks[i].states && first[j] in c.blocks[j].states;
    }
    NoDupCard(first);
    forall q | q in SetOf(first) ensures q in Below(n) {
      var b :| 0 <= b < |first| && first[b] == q;
      assert q in c.blocks[b].states;
    }
    SubsetSize(SetOf(first), Below(n));
  }

  lemma TopQueued(c: Config, b: nat, a: nat)
    requires Queued(c) && c.queue != [] && c.queue[|c.queue| - 1] == (b, a)
    ensures b < |c.blocks| && a in c.blocks[b].remove
  {
    assert (b, a) in c.queue;
  }

  lemma InBlock(l: Lts, c: Config, c': Config, b: nat)
    requires Shape(l, c) && SameCols(c, c') && b < |c.blocks|
    ensures forall r :: r in SetOf(c.blocks[b].states) ==> r < |c'.index| && c'.Col(c'.index[r]) == c.Col(b)
  {
  }
}
