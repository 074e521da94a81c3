/** The configuration from which the simulation engine starts: the initial partition split
    by the labels of the moves, and the relation pruned accordingly. */
module LtsInit {
  import opened Collections
  import opened Lts
  import opened LtsConfig

  /** The classes are non-empty, and every state lies in exactly one of them. */
  ghost predicate PartitionOf(n: nat, part: seq<seq<nat>>) {
    && (forall b :: 0 <= b < |part| ==> part[b] != [] && NoDup(part[b]))
    && (forall b, q {:trigger q in part[b]} :: 0 <= b < |part| && q in part[b] ==> q < n)
    && (forall q: nat :: q < n ==> ClassOf(part, q))
    && (forall b, b', q {:trigger q in part[b], q in part[b']} :: 0 <= b < |part| && 0 <= b' < |part| && q in part[b] && q in part[b'] ==> b == b')
  }

  ghost predicate ClassOf(part: seq<seq<nat>>, q: nat) {
    exists b :: 0 <= b < |part| && q in part[b]
  }

  /** The states related through their classes. */
  ghost predicate RelatedIn(part: seq<seq<nat>>, rel: Relation, p: int, q: int) {
    exists b, b' :: 0 <= b < |part| && 0 <= b' < |part| && p in part[b] && q in part[b'] && In(b, b', rel)
  }

  ghost function Lift(n: nat, part: seq<seq<nat>>, rel: Relation): Relation {
    set p: nat, q: nat | p in Below(n) && q in Below(n) && RelatedIn(part, rel, p, q) :: (p, q)
  }

  /** Before the counters are set: no lists, no counters, nothing queued. */
  ghost predicate Fresh(l: Lts, c: Config, R: Relation) {
    && Shape(l, c) && Insets(l, c) && Within(c, R) && UpClosed(c, l.Greatest(R))
    && c.queue == []
    && forall b :: 0 <= b < |c.blocks| ==> c.blocks[b].remove == map[] && c.blocks[b].counter == map[]
  }

  /** The states of a block agree on having successors under a. */
  ghost predicate Uniform(l: Lts, idx: seq<nat>, a: nat) {
    a < |l.post| && |idx| <= |l.post[a]|
    && forall p, q :: 0 <= p < |idx| && 0 <= q < |idx| && idx[p] == idx[q] ==> (l.post[a][p] == [] <==> l.post[a][q] == [])
  }

  ghost predicate Finer(idx: seq<nat>, idx': seq<nat>) {
    |idx'| == |idx| && forall p, q :: 0 <= p < |idx| && 0 <= q < |idx| && idx'[p] == idx'[q] ==> idx[p] == idx[q]
  }

  lemma SplitFresh(l: Lts, c: Config, c': Config, R: Relation, b: nat, kept: seq<nat>, moved: seq<nat>)
    requires Fresh(l, c, R) && SplitOf(l, c, c', b, kept, moved) && c'.queue == []
    requires c'.blocks[|c.blocks|].remove == map[] && c'.blocks[|c.blocks|].counter == map[]
    ensures Fresh(l, c', R) && SameCols(c, c') && Finer(c.index, c'.index)
  {
    SplitCols(l, c, c', b, kept, moved);
    SplitShape(l, c, c', b, kept, moved);
    SplitClosed(c, c', b, l.Greatest(R));
    forall p, q | 0 <= p < |c.index| && 0 <= q < |c.index| && c'.index[p] == c'.index[q] ensures c.index[p] == c.index[q] {
      assert p in moved ==> p in c.blocks[b].states;
      assert q in moved ==> q in c.blocks[b].states;
    }
  }

  lemma FinerUniform(l: Lts, idx: seq<nat>, idx': seq<nat>, a: nat)
    requires Uniform(l, idx, a) && Finer(idx, idx')
    ensures Uniform(l, idx', a)
  {
  }

  lemma UniformSplit(l: Lts, c: Config, a: nat, mask: set<nat>, delta: seq<nat>)
    requires Masks(c, mask, SetOf(delta)) && a < |l.post| && |c.index| <= |l.post[a]|
    requires forall q: nat :: q < |c.index| ==> (q in delta <==> l.post[a][q] != [])
    ensures Uniform(l, c.index, a)
  {
    forall p, q | 0 <= p < |c.index| && 0 <= q < |c.index| && c.index[p] == c.index[q]
      ensures l.post[a][p] == [] <==> l.post[a][q] == []
    {
      assert p in SetOf(delta) <==> q in SetOf(delta);
    }
  }

  /** Labels under which block b has moves, and labels under which some state of it has none. */
  ghost predicate OutLabels(l: Lts, b: Block, has: set<nat>, lacks: set<nat>) {
    && (forall a: nat :: a in has <==> a < |l.post| && exists q :: q in b.states && q < |l.post[a]| && l.post[a][q] != [])
    && (forall a: nat :: a in lacks <==> a < |l.post| && exists q :: q in b.states && q < |l.post[a]| && l.post[a][q] == [])
  }

  /** Related states have moves under all the labels of the smaller one. */
  ghost predicate Pruned(l: Lts, c: Config) {
    forall p, a, r, q {:trigger l.Edge(p, a, r), q in c.Col(c.index[p])} ::
      l.Edge(p, a, r) && 0 <= p < |c.index| && q in c.Col(c.index[p]) ==> q < |l.post[a]| && l.post[a][q] != []
  }

  lemma PruneKeeps(l: Lts, c: Config, c': Config, R: Relation, has: seq<set<nat>>, lacks: seq<set<nat>>)
    requires l.Valid() && Fresh(l, c, R) && |has| == |lacks| == |c.blocks|
    requires forall b :: 0 <= b < |c.blocks| ==> OutLabels(l, c.blocks[b], has[b], lacks[b])
    requires forall a: nat :: a < |l.post| ==> Uniform(l, c.index, a)
    requires c' == c.(rel := c'.rel) && |c'.rel| == |c.rel|
    requires forall b, x {:trigger x in c'.rel[b]} :: 0 <= b < |c.rel| ==> (x in c'.rel[b] <==> x in c.rel[b] && has[b] !! lacks[x])
    ensures Fresh(l, c', R) && Pruned(l, c')
  {
    forall b | 0 <= b < |c.rel| ensures b in c'.rel[b] {
      HasOrLacks(l, c, b, has[b], lacks[b]);
    }
    assert forall b, x :: 0 <= b < |c'.rel| && x in c'.rel[b] ==> x in c.rel[b];
    assert Partitioned(l.states, c') && OverBlocks(c');
    forall b, x, y | 0 <= b < |c'.blocks| && x in c'.Col(b) && In(x, y, l.Greatest(R)) ensures y in c'.Col(b) {
      PruneClosed(l, c, R, b, x, y, has, lacks);
    }
    forall p, a, r, q | l.Edge(p, a, r) && 0 <= p < |c'.index| && q in c'.Col(c'.index[p])
      ensures q < |l.post[a]| && l.post[a][q] != []
    {
      assert OutLabels(l, c.blocks[c.index[p]], has[c.index[p]], lacks[c.index[p]]);
      assert OutLabels(l, c.blocks[c.index[q]], has[c.index[q]], lacks[c.index[q]]);
      assert p in c.blocks[c.index[p]].states && q in c.blocks[c.index[q]].states;
      assert a in has[c.index[p]];
    }
  }

  lemma HasOrLacks(l: Lts, c: Config, b: nat, has: set<nat>, lacks: set<nat>)
    requires l.Valid() && Shape(l, c) && b < |c.blocks| && OutLabels(l, c.blocks[b], has, lacks)
    requires forall a: nat :: a < |l.post| ==> Uniform(l, c.index, a)
    ensures has !! lacks
  {
    forall a | a in has ensures a !in lacks {
      assert Uniform(l, c.index, a);
    }
  }

  lemma PruneClosed(l: Lts, c: Config, R: Relation, b: nat, x: int, y: int, has: seq<set<nat>>, lacks: seq<set<nat>>)
    requires l.Valid() && Fresh(l, c, R) && |has| == |lacks| == |c.blocks| && b < |c.blocks|
    requires forall b :: 0 <= b < |c.blocks| ==> OutLabels(l, c.blocks[b], has[b], lacks[b])
    requires forall a: nat :: a < |l.post| ==> Uniform(l, c.index, a)
    requires x in c.Col(b) && has[b] !! lacks[c.index[x]] && In(x, y, l.Greatest(R))
    ensures y in c.Col(b) && has[b] !! lacks[c.index[y]]
  {
    l.GreatestIsSimulation(R);
    var bx, b' := c.index[x], c.index[y];
    assert OutLabels(l, c.blocks[bx], has[bx], lacks[bx]) && OutLabels(l, c.blocks[b'], has[b'], lacks[b']);
    forall a | a in has[b] ensures a !in lacks[b'] {
      assert OutLabels(l, c.blocks[b], has[b], lacks[b]);
      assert a < |l.post| && Uniform(l, c.index, a);
      assert x in c.blocks[bx].states && y in c.blocks[b'].states;
      assert x < |l.post[a]| && l.post[a][x] != [];
      assert l.Edge(x, a, l.post[a][x][0]);
      assert l.Answers(y, a, l.post[a][x][0], l.Greatest(R));
      assert y < |l.post[a]| && l.post[a][y] != [];
    }
  }

  function Row(i: nat, n: nat, rel: Relation): (r: set<nat>)
    ensures forall j: nat {:trigger j in r} :: j in r <==> j < n && In(i, j, rel)
  {
    set j: nat | j in Below(n) && (i, j) in rel
  }

  /** The rows of a relation on 0..n-1. */
  function Rows(n: nat, rel: Relation): (r: seq<set<nat>>)
    ensures |r| == n && forall i :: 0 <= i < n ==> r[i] == Row(i, n, rel)
  {
    seq(n, i requires 0 <= i < n => Row(i, n, rel))
  }

  /** Block x is class x of the partition, without counters and lists. */
  ghost predicate ClassBlock(l: Lts, b: Block, states: seq<nat>) {
    b.states == states && b.remove == map[] && b.counter == map[] && InsetOf(l, b)
  }

  ghost predicate Classes(l: Lts, c: Config, part: seq<seq<nat>>) {
    && |c.blocks| == |part| && |c.index| == l.states
    && (forall b :: 0 <= b < |part| ==> ClassBlock(l, c.blocks[b], part[b]))
    && (forall b, q {:trigger q in part[b]} :: 0 <= b < |part| && q in part[b] && q < |c.index| ==> c.index[q] == b)
  }

  /** The classes as blocks, with the given preorder on them, are closed under the greatest
      simulation contained in it: this is where transitivity is needed. */
  lemma StartFresh(l: Lts, c: Config, part: seq<seq<nat>>, rel: Relation)
    requires PartitionOf(l.states, part) && Classes(l, c, part)
    requires Reflexive(|part|, rel) && Transitive(rel)
    requires c.rel == Rows(|part|, rel) && c.queue == []
    ensures Fresh(l, c, Lift(l.states, part, rel))
  {
    var R := Lift(l.states, part, rel);
    forall q: nat | q < |c.index| ensures c.index[q] < |c.blocks| && q in c.blocks[c.index[q]].states {
      assert ClassOf(part, q);
      var b :| 0 <= b < |part| && q in part[b];
      assert ClassBlock(l, c.blocks[b], part[b]);
    }
    forall b | 0 <= b < |part| ensures c.blocks[b].states == part[b] && InsetOf(l, c.blocks[b]) && c.blocks[b].remove == map[] && c.blocks[b].counter == map[] {
      assert ClassBlock(l, c.blocks[b], part[b]);
    }
    assert Partitioned(l.states, c);
    assert OverBlocks(c);
    forall p, q | 0 <= p < |c.index| && q in c.Col(c.index[p]) ensures In(p, q, R) {
      assert p in part[c.index[p]] && q in part[c.index[q]];
      assert In(c.index[p], c.index[q], rel);
      assert RelatedIn(part, rel, p, q);
    }
    l.GreatestIsSimulation(R);
    forall b, x, y | 0 <= b < |c.blocks| && x in c.Col(b) && In(x, y, l.Greatest(R)) ensures y in c.Col(b) {
      assert (x, y) in R;
      var b1, b2 :| 0 <= b1 < |part| && 0 <= b2 < |part| && x in part[b1] && y in part[b2] && In(b1, b2, rel);
      assert c.index[x] == b1 && c.index[y] == b2;
      assert In(b, b1, rel);
    }
  }

  /** The counters and the lists of block b are set for the related states. */
  ghost predicate Counted(l: Lts, b: Block, T: set<nat>) {
    && CountsIn(l, b, T) && RemovesIn(l, b, T)
    && forall a: nat, q: nat {:trigger InList(b.remove, a, q)} ::
         a in b.inset && a < |l.post| && q < l.states && q < |l.post[a]| && l.post[a][q] != [] && !Matched(l, a, q, T) ==> InList(b.remove, a, q)
  }

  /** Setting counters and lists completes the invariant. */
  lemma StartInv(l: Lts, c: Config, c': Config, R: Relation)
    requires l.Valid() && Fresh(l, c, R) && Pruned(l, c)
    requires c'.rel == c.rel && c'.index == c.index && |c'.blocks| == |c.blocks| && Queued(c')
    requires forall b :: 0 <= b < |c.blocks| ==> SameBody(c.blocks[b], c'.blocks[b]) && Counted(l, c'.blocks[b], c.Col(b))
    ensures Inv(l, c', R, Nothing)
  {
    assert forall b :: c'.Col(b) == c.Col(b);
    forall b | 0 <= b < |c.blocks|
      ensures InsetOf(l, c'.blocks[b]) && CountsIn(l, c'.blocks[b], c'.Col(b)) && RemovesIn(l, c'.blocks[b], c'.Col(b))
      ensures c'.blocks[b].states == c.blocks[b].states
    {
      assert InsetOf(l, c.blocks[b]) && SameBody(c.blocks[b], c'.blocks[b]);
    }
    assert Shape(l, c');
    forall p, a, r, q | l.Edge(p, a, r) && 0 <= p < |c'.index| && 0 <= r < |c'.index| && q in c'.Col(c'.index[p])
      ensures Matched(l, a, q, c'.Col(c'.index[r])) || c'.Pend(c'.index[r], a, q)
    {
      assert q in c.Col(c.index[p]);
      assert l.post[a][q] != [];
      var b := c.index[r];
      assert Counted(l, c'.blocks[b], c.Col(b)) && r in c'.blocks[b].states;
      InsetHas(l, c'.blocks[b], p, a, r);
      if !Matched(l, a, q, c'.Col(b)) {
        assert InList(c'.blocks[b].remove, a, q);
      }
    }
  }

  /** The states of s left in keep, in the order of s. */
  function Keep(s: seq<nat>, keep: set<nat>): (r: seq<nat>)
    ensures forall q :: q in r <==> q in s && q in keep
  {
    if s == [] then [] else (if s[0] in keep then [s[0]] else []) + Keep(s[1..], keep)
  }

  lemma {:induction false} KeepNoDup(s: seq<nat>, keep: set<nat>)
    requires NoDup(s)
    ensures NoDup(Keep(s, keep))
  {
    if s != [] {
      KeepNoDup(s[1..], keep);
      assert s[0] !in s[1..];
    }
  }

  /** After the predecessors of the states T have been struck out of the states with moves,
      those left have no move into T. */
  lemma NotStruck(l: Lts, a: nat, q: nat, T: set<nat>, s: set<nat>)
    requires l.Valid() && a < |l.post| && q < l.states
    requires forall r :: r in T ==> r < l.states
    requires forall p: nat :: p in s <==> p < l.states && l.post[a][p] != [] && forall r :: r in T ==> p !in l.pre[a][r]
    ensures q in s <==> l.post[a][q] != [] && !Matched(l, a, q, T)
  {
    forall r | r in T ensures q in l.pre[a][r] <==> l.Edge(q, a, r) {
      l.PreIsInverse(q, a, r);
    }
    if l.post[a][q] != [] && q !in s {
      var r :| r in T && q in l.pre[a][r];
      assert l.Edge(q, a, r);
    }
    if Matched(l, a, q, T) {
      var r :| l.Edge(q, a, r) && r in T;
      assert q in l.pre[a][r];
    }
  }

  /** Label a of block b is counted for the related states T. */
  ghost predicate CountedAt(l: Lts, b: Block, a: nat, T: set<nat>) {
    && a < |l.post|
    && Counting(l, b.counter, a, T) && ProperList(b.remove, a)
    && forall q: nat :: InList(b.remove, a, q) <==> q < l.states && q < |l.post[a]| && l.post[a][q] != [] && !Matched(l, a, q, T)
  }

  /** The labels of the inset below a are counted, and nothing else is set. */
  ghost predicate CountedUpTo(l: Lts, b: Block, a: nat, T: set<nat>) {
    && (forall x: nat :: x < |l.post| && x < a && x in b.inset ==> CountedAt(l, b, x, T))
    && (forall x: nat, q: nat :: x >= a || x !in b.inset ==> Cell(b.counter, x, q) == 0)
    && (forall x :: x in b.remove ==> x < a && x in b.inset && x < |l.post|)
  }

  lemma CountedAll(l: Lts, b: Block, T: set<nat>)
    requires l.Valid() && CountedUpTo(l, b, |l.post|, T)
    ensures Counted(l, b, T)
  {
    forall a | a in b.remove ensures b.remove[a] != [] && NoDup(b.remove[a]) && forall q :: q in b.remove[a] ==> Lost(l, a, q, T) {
      assert CountedAt(l, b, a, T);
      forall q | q in b.remove[a] ensures Lost(l, a, q, T) {
        assert InList(b.remove, a, q);
      }
    }
    forall a: nat, q: nat | a in b.inset && a < |l.post| && q < l.states && q < |l.post[a]|
      ensures Cell(b.counter, a, q) == Count(l.post[a][q], T)
      ensures l.post[a][q] != [] && !Matched(l, a, q, T) ==> InList(b.remove, a, q)
    {
      assert CountedAt(l, b, a, T);
    }
  }

  lemma CountedStep(l: Lts, b: Block, b': Block, a: nat, T: set<nat>)
    requires CountedUpTo(l, b, a, T) && a < |l.post| && SameBody(b, b') && a in b.inset
    requires CountedAt(l, b', a, T)
    requires forall x: nat, q: nat :: x != a ==> Cell(b'.counter, x, q) == Cell(b.counter, x, q)
    requires forall x :: x != a ==> (x in b'.remove <==> x in b.remove)
    requires forall x :: x != a && x in b'.remove ==> b'.remove[x] == b.remove[x]
    ensures CountedUpTo(l, b', a + 1, T)
  {
    forall x: nat | x < |l.post| && x < a && x in b.inset ensures CountedAt(l, b', x, T) {
      assert CountedAt(l, b, x, T);
      assert forall q: nat :: InList(b'.remove, x, q) == InList(b.remove, x, q);
    }
  }
}
