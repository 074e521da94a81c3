/** The simulation engine: partition refinement with a relation on blocks. */
module LtsEngine {
  import opened Collections
  import opened Lts
  import opened LtsConfig
  import opened LtsInit
  import opened BinaryRelation

  /** The block relation after block b has been split: the new block, which takes the
      last index, is related like b, and to itself. */
  function SplitRelation(rel: seq<set<nat>>, b: nat): (r: seq<set<nat>>)
    requires b < |rel|
    ensures |r| == |rel| + 1
    ensures forall x :: 0 <= x < |rel| ==> r[x] == rel[x] + if b in rel[x] then {|rel|} else {}
    ensures r[|rel|] == rel[b] + {|rel|}
  {
    seq(|rel|, x requires 0 <= x < |rel| => rel[x] + if b in rel[x] then {|rel|} else {}) + [rel[b] + {|rel|}]
  }

  function Monus(x: nat, y: nat): nat { if x < y then 0 else x - y }

  class SimulationEngine {
    const lts: Lts
    var partition: seq<Block>
    var relation: seq<set<nat>>
    var index: seq<nat>
    var queue: seq<(nat, nat)>

    ghost function View(): Config
      reads this
    {
      Config(partition, relation, index, queue)
    }

    /** Takes the labels under which state q is entered from one inset to the other. */
    method MoveState(q: nat, from: multiset<nat>, to: multiset<nat>) returns (rest: multiset<nat>, inset: multiset<nat>)
      requires lts.Valid() && q < lts.states
      ensures forall a: nat :: inset[a] == to[a] + Entry(lts, a, q)
      ensures forall a: nat :: rest[a] == Monus(from[a], Entry(lts, a, q))
    {
      rest, inset := from, to;
      var a := 0;
      while a < |lts.pre|
        invariant 0 <= a <= |lts.pre|
        invariant forall x: nat :: x < a ==> inset[x] == to[x] + Entry(lts, x, q) && rest[x] == Monus(from[x], Entry(lts, x, q))
        invariant forall x: nat :: x >= a ==> inset[x] == to[x] && rest[x] == from[x]
      {
        assert Entry(lts, a, q) == if lts.pre[a][q] != [] then 1 else 0;
        if lts.pre[a][q] != [] {
          rest := rest - multiset{a};
          inset := inset + multiset{a};
        }
        a := a + 1;
      }
    }

    /** Counts the labels under which the given states are entered, taking them out of from. */
    method MoveLabels(states: seq<nat>, from: multiset<nat>) returns (rest: multiset<nat>, inset: multiset<nat>)
      requires lts.Valid() && NoDup(states) && forall q :: q in states ==> q < lts.states
      ensures forall a: nat :: inset[a] == |Entered(lts, a, states)|
      ensures forall a: nat :: rest[a] == Monus(from[a], |Entered(lts, a, states)|)
    {
      rest, inset := from, multiset{};
      var i := 0;
      while i < |states|
        invariant 0 <= i <= |states|
        invariant forall a: nat :: inset[a] == |Entered(lts, a, states[..i])|
        invariant forall a: nat :: rest[a] == Monus(from[a], |Entered(lts, a, states[..i])|)
      {
        forall a: nat ensures |Entered(lts, a, states[..i + 1])| == |Entered(lts, a, states[..i])| + Entry(lts, a, states[i]) {
          EnteredStep(lts, a, states, i);
        }
        assert states[i] in states;
        rest, inset := MoveState(states[i], rest, inset);
        i := i + 1;
      }
      assert states[..i] == states;
    }

    /** Takes the states tmp out of the list of block b, unless they are all of it. */
    method TrySplit(b: nat, tmp: seq<nat>) returns (moved: seq<nat>)
      requires b < |partition| && NoDup(partition[b].states)
      requires tmp != [] && NoDup(tmp) && forall q :: q in tmp ==> q in partition[b].states
      modifies `partition
      ensures moved == [] ==> partition == old(partition) && forall q :: q in partition[b].states ==> q in tmp
      ensures moved != [] ==>
        && |partition| == old(|partition|)
        && partition == old(partition)[b := old(partition[b]).(states := partition[b].states)]
        && Shares(old(partition[b].states), partition[b].states, moved)
        && forall q :: q in moved <==> q in tmp
    {
      var whole := partition[b].states;
      if |tmp| == |whole| {
        AllTaken(whole, tmp);
        return [];
      }
      moved := [tmp[|tmp| - 1]] + tmp[..|tmp| - 1];
      assert tmp == tmp[..|tmp| - 1] + [tmp[|tmp| - 1]];
      WithoutNoDup(whole, SetOf(tmp));
      if forall q :: q in whole ==> q in tmp {
        SameMembersSameLength(whole, tmp);
      }
      partition := partition[b := partition[b].(states := Without(whole, SetOf(tmp)))];
    }

    /** Puts the states moved, already taken out of the list of block b, into a new block
        that has no counters and no pending lists yet. */
    method NewBlock(b: nat, moved: seq<nat>, ghost c: Config)
      requires lts.Valid() && Shape(lts, c) && Insets(lts, c) && b < |partition| == |c.blocks|
      requires View() == c.(blocks := c.blocks[b := c.blocks[b].(states := partition[b].states)])
      requires Shares(c.blocks[b].states, partition[b].states, moved)
      modifies `partition, `relation, `index
      ensures |partition| == |c.blocks| + 1 && queue == c.queue
      ensures SplitOf(lts, c, View(), b, partition[b].states, moved)
      ensures partition[|c.blocks|].remove == map[] && partition[|c.blocks|].counter == map[]
    {
      var n := |partition|;
      forall a: nat ensures |Entered(lts, a, c.blocks[b].states)| == |Entered(lts, a, partition[b].states)| + |Entered(lts, a, moved)| {
        EnteredSplit(lts, a, c.blocks[b].states, partition[b].states, moved);
      }
      assert InsetOf(lts, c.blocks[b]);
      var rest, inset := MoveLabels(moved, partition[b].inset);
      partition := partition[b := partition[b].(inset := rest)] + [Block(moved, map[], map[], inset)];
      var old_ := index;
      index := seq(|old_|, q requires 0 <= q < |old_| => if q in moved then n else old_[q]);
      relation := SplitRelation(relation, b);
    }

    /** Sorts the states to be moved by their blocks; modified lists each block once. */
    method InternalSplit(remove: seq<nat>) returns (modified: seq<nat>, tmp: map<nat, seq<nat>>)
      requires NoDup(remove) && forall q :: q in remove ==> q < |index|
      ensures NoDup(modified) && forall b :: b in modified <==> b in tmp
      ensures forall q {:trigger q in remove} :: q in remove ==> q < |index| && index[q] in tmp
      ensures forall b :: b in tmp ==> tmp[b] != [] && NoDup(tmp[b])
      ensures forall b, q {:trigger q in tmp[b]} :: b in tmp ==> (q in tmp[b] <==> q in remove && q < |index| && index[q] == b)
    {
      modified, tmp := [], map[];
      var i := 0;
      while i < |remove|
        invariant 0 <= i <= |remove|
        invariant NoDup(modified) && forall b :: b in modified <==> b in tmp
        invariant forall q {:trigger q in remove[..i]} :: q in remove[..i] ==> q < |index| && index[q] in tmp
        invariant forall b :: b in tmp ==> tmp[b] != [] && NoDup(tmp[b])
        invariant forall b, q {:trigger q in tmp[b]} :: b in tmp ==> (q in tmp[b] <==> q in remove[..i] && q < |index| && index[q] == b)
      {
        var q := remove[i];
        assert q in remove && q !in remove[..i];
        assert remove[..i + 1] == remove[..i] + [q];
        var b := index[q];
        if b in tmp {
          NoDupAppend(tmp[b], q);
          tmp := tmp[b := tmp[b] + [q]];
        } else {
          tmp := tmp[b := [q]];
          NoDupAppend(modified, b);
          modified := modified + [b];
        }
        i := i + 1;
      }
      assert remove[..i] == remove;
    }

    /** The pending lists that block n, entered under the labels inset, takes over. */
    method CopyLists(n: nat, inset: multiset<nat>, lists: map<nat, seq<nat>>)
      returns (copied: map<nat, seq<nat>>, pairs: seq<(nat, nat)>)
      requires forall a :: a in inset ==> a < |lts.pre|
      ensures forall a :: a in copied <==> a in inset && a in lists
      ensures forall a :: a in copied ==> copied[a] == lists[a]
      ensures NoDup(pairs) && forall x, a :: (x, a) in pairs <==> x == n && a in copied
    {
      copied, pairs := map[], [];
      var a := 0;
      while a < |lts.pre|
        invariant 0 <= a <= |lts.pre|
        invariant forall x :: x in copied <==> x < a && x in inset && x in lists
        invariant forall x :: x in copied ==> copied[x] == lists[x]
        invariant NoDup(pairs) && forall x, y :: (x, y) in pairs <==> x == n && y in copied
      {
        if a in inset && a in lists {
          NoDupAppend(pairs, (n, a));
          pairs := pairs + [(n, a)];
          copied := copied[a := lists[a]];
        }
        a := a + 1;
      }
    }

    /** Hands the counters and the pending lists of block b, for the labels of the new
        block n, over to block n, and queues those lists. */
    method Inherit(b: nat, n: nat, ghost c: Config)
      requires b < |c.blocks| == n == |partition| - 1
      requires partition[n].remove == map[] && InsetOf(lts, partition[n])
      requires partition[b].remove == c.blocks[b].remove && partition[b].counter == c.blocks[b].counter
      requires Queued(c) && queue == c.queue
      requires forall x :: 0 <= x < n ==> partition[x].remove == c.blocks[x].remove
      modifies `partition, `queue
      ensures |partition| == n + 1
      ensures partition == old(partition)[n := old(partition[n]).(counter := partition[n].counter, remove := partition[n].remove)]
      ensures Inherits(c, View(), b) && Queued(View())
    {
      var inset := partition[n].inset;
      forall a | a in inset ensures a < |lts.pre| {
        assert inset[a] == |Entered(lts, a, partition[n].states)|;
        var r :| r in Entered(lts, a, partition[n].states);
      }
      var counter := partition[b].counter;
      var copied, pairs := CopyLists(n, inset, partition[b].remove);
      partition := partition[n := partition[n].(counter := map k | k in counter && k.0 in inset :: counter[k], remove := copied)];
      queue := queue + pairs;
      QueueExtends(c, View(), pairs);
    }

    static lemma QueueExtends(c: Config, c': Config, pairs: seq<(nat, nat)>)
      requires Queued(c) && |c'.blocks| == |c.blocks| + 1 && c'.queue == c.queue + pairs && NoDup(pairs)
      requires forall x :: 0 <= x < |c.blocks| ==> c'.blocks[x].remove == c.blocks[x].remove
      requires forall x, a :: (x, a) in pairs <==> x == |c.blocks| && a in c'.blocks[|c.blocks|].remove
      ensures Queued(c')
    {
      forall i, j | 0 <= i < j < |c'.queue| ensures c'.queue[i] != c'.queue[j] {
        if i < |c.queue| <= j {
          assert c.queue[i] in c.queue && pairs[j - |c.queue|] in pairs;
          assert (c.queue[i].0, c.queue[i].1) in c.queue;
          assert (pairs[j - |c.queue|].0, pairs[j - |c.queue|].1) in pairs;
        }
      }
      forall b, a ensures (b, a) in c'.queue <==> 0 <= b < |c'.blocks| && a in c'.blocks[b].remove {
        assert (b, a) in c'.queue <==> (b, a) in c.queue || (b, a) in pairs;
      }
    }

    /** Splits the states tmp off block b. */
    method SplitOne(b: nat, tmp: seq<nat>, ghost R: Relation, ghost t: Taken) returns (isNew: bool)
      requires lts.Valid() && Inv(lts, View(), R, t) && Cleared(View(), t) && b < |partition|
      requires tmp != [] && NoDup(tmp) && forall q :: q in tmp ==> q < |index| && index[q] == b
      modifies `partition, `relation, `index, `queue
      ensures Inv(lts, View(), R, t) && Cleared(View(), t)
      ensures !isNew ==> View() == old(View()) && forall q :: 0 <= q < |index| && index[q] == b ==> q in tmp
      ensures isNew ==> |partition| == old(|partition|) + 1
      ensures |index| == old(|index|)
      ensures forall q :: 0 <= q < |index| ==> index[q] == if isNew && q in tmp then old(|partition|) else old(index)[q]
      ensures SameCols(old(View()), View())
    {
      ghost var c := View();
      var moved := TrySplit(b, tmp);
      if moved == [] {
        return false;
      }
      var n := |partition|;
      NewBlock(b, moved, c);
      Inherit(b, n, c);
      ghost var c' := View();
      SplitCols(lts, c, c', b, partition[b].states, moved);
      SplitKeeps(lts, c, c', R, t, b, partition[b].states, moved);
      SplitKeepsCleared(lts, c, c', t, b, partition[b].states, moved);
      return true;
    }

    /** Splits the next block of todo; mask notes the block that lies inside remove. */
    method SplitNext(tmp: seq<nat>, mask: set<nat>, ghost todo: seq<nat>, b: nat, ghost c: Config, ghost rem: set<nat>,
                     ghost R: Relation, ghost t: Taken) returns (mask': set<nat>)
      requires lts.Valid() && Inv(lts, View(), R, t) && Cleared(View(), t)
      requires todo != [] && todo[0] == b && b !in todo[1..] && SameCols(c, View())
      requires Sorted(c.index, index, todo, mask, rem, |partition|)
      requires tmp != [] && NoDup(tmp) && forall q :: q in tmp <==> q in rem && q < |c.index| && c.index[q] == b
      requires |partition| >= |c.blocks|
      requires |partition| == |c.blocks| ==> relation == c.rel && queue == c.queue
      modifies `partition, `relation, `index, `queue
      ensures Inv(lts, View(), R, t) && Cleared(View(), t) && SameCols(c, View())
      ensures Sorted(c.index, index, todo[1..], mask', rem, |partition|)
      ensures |partition| >= |c.blocks|
      ensures |partition| == |c.blocks| ==> relation == c.rel && queue == c.queue
    {
      ghost var m := View();
      assert b in todo;
      var isNew := SplitOne(b, tmp, R, t);
      SameColsTrans(c, m, View());
      SortedStep(c.index, m.index, index, todo, mask, rem, |m.blocks|, isNew);
      mask' := mask + {if isNew then |partition| - 1 else b};
    }

    /** Splits every block into its states in remove and the others; mask tells which blocks
        consist of states in remove. */
    method Split(remove: seq<nat>, ghost R: Relation, ghost t: Taken) returns (mask: set<nat>)
      requires lts.Valid() && Inv(lts, View(), R, t) && Cleared(View(), t)
      requires NoDup(remove) && forall q :: q in remove ==> q < |index|
      modifies `partition, `relation, `index, `queue
      ensures Inv(lts, View(), R, t) && Cleared(View(), t) && SameCols(old(View()), View())
      ensures Masks(View(), mask, SetOf(remove))
      ensures forall q :: 0 <= q < |index| && q !in remove ==> index[q] == old(index)[q]
      ensures |partition| >= old(|partition|)
      ensures |partition| == old(|partition|) ==> relation == old(relation) && queue == old(queue)
    {
      mask := {};
      var modified, tmp := InternalSplit(remove);
      ghost var c := View();
      forall x | x in modified ensures x < |partition| {
        assert tmp[x][0] in tmp[x];
      }
      assert modified[0..] == modified;
      var i := 0;
      while i < |modified|
        invariant 0 <= i <= |modified|
        invariant Inv(lts, View(), R, t) && Cleared(View(), t) && SameCols(c, View())
        invariant |partition| >= |c.blocks|
        invariant |partition| == |c.blocks| ==> relation == c.rel && queue == c.queue
        invariant Sorted(c.index, index, modified[i..], mask, SetOf(remove), |partition|)
      {
        var b := modified[i];
        assert b in modified && b in tmp;
        assert modified[i..][1..] == modified[i + 1..];
        mask := SplitNext(tmp[b], mask, modified[i..], b, c, SetOf(remove), R, t);
        i := i + 1;
      }
    }

    /** The blocks with a transition under label a into block b, each once. */
    method BuildPre(b: nat, a: nat) returns (pre: seq<nat>)
      requires lts.Valid() && Shape(lts, View()) && b < |partition| && a < |lts.post|
      ensures NoDup(pre)
      ensures forall x :: x in pre <==> Enters(lts, View(), SetOf(partition[b].states), a, x)
    {
      pre := [];
      var states := partition[b].states;
      var i := 0;
      while i < |states|
        invariant 0 <= i <= |states|
        invariant NoDup(pre)
        invariant forall x :: x in pre <==> Enters(lts, View(), SetOf(states[..i]), a, x)
      {
        assert states[i] in states;
        pre := AddSources(pre, lts.pre[a][states[i]]);
        EntersStep(lts, View(), states, i, a);
        i := i + 1;
      }
      assert states[..i] == states;
    }

    /** Adds the blocks of the given states. */
    method AddSources(pre: seq<nat>, sources: seq<nat>) returns (pre': seq<nat>)
      requires NoDup(pre) && forall p :: p in sources ==> p < |index|
      ensures NoDup(pre')
      ensures forall x :: x in pre' <==> x in pre || BlockOf(index, sources, x)
    {
      pre' := pre;
      var j := 0;
      while j < |sources|
        invariant 0 <= j <= |sources|
        invariant NoDup(pre')
        invariant forall x :: x in pre' <==> x in pre || BlockOf(index, sources[..j], x)
      {
        assert sources[j] in sources;
        var b := index[sources[j]];
        BlockOfStep(index, sources, j);
        if b !in pre' {
          NoDupAppend(pre', b);
          pre' := pre' + [b];
        }
        j := j + 1;
      }
      assert sources[..j] == sources;
    }

    /** Appends state q to the list of label a of block b; a list that becomes pending is queued. */
    method EnqueueToRemove(b: nat, a: nat, q: nat)
      requires b < |partition| && Queued(View())
      modifies `partition, `queue
      ensures Queued(View()) && |partition| == old(|partition|)
      ensures partition == old(partition)[b := old(partition[b]).(remove := old(partition[b].remove)[a :=
                if a in old(partition[b].remove) then old(partition[b].remove[a]) + [q] else [q]])]
    {
      var lists := partition[b].remove;
      if a in lists {
        partition := partition[b := partition[b].(remove := lists[a := lists[a] + [q]])];
      } else {
        ghost var c := View();
        partition := partition[b := partition[b].(remove := lists[a := [q]])];
        queue := queue + [(b, a)];
        QueuePush(c, View(), b, a);
      }
    }

    /** Takes one transition from q under label a out of the count of block b. */
    method Decr(b: nat, a: nat, q: nat)
      requires b < |partition| && Queued(View()) && Cell(partition[b].counter, a, q) > 0
      requires ProperList(partition[b].remove, a) && !InList(partition[b].remove, a, q)
      modifies `partition, `queue
      ensures Queued(View()) && OnlyLabel(old(partition), partition, b, a)
      ensures forall p: nat :: Cell(partition[b].counter, a, p) ==
                Cell(old(partition)[b].counter, a, p) - if p == q then 1 else 0
      ensures ProperList(partition[b].remove, a)
      ensures forall p: nat :: InList(partition[b].remove, a, p) <==>
                InList(old(partition)[b].remove, a, p) || (p == q && Cell(partition[b].counter, a, q) == 0)
    {
      var count := Cell(partition[b].counter, a, q) - 1;
      partition := partition[b := partition[b].(counter := partition[b].counter[(a, q) := count])];
      assert Queued(View());
      if count == 0 {
        if a in partition[b].remove { NoDupAppend(partition[b].remove[a], q); }
        EnqueueToRemove(b, a, q);
      }
    }

    /** Takes the transitions under label a into state r out of the counts of block b. */
    method DecrState(b: nat, a: nat, r: nat, ghost T: set<nat>, ghost T0: set<nat>, ghost lists0: map<nat, seq<nat>>)
      requires lts.Valid() && b < |partition| && Queued(View()) && a < |lts.post| && r < lts.states
      requires r in T && T <= T0
      requires Counting(lts, partition[b].counter, a, T)
      requires Gained(lts, lists0, partition[b].remove, partition[b].counter, a, T0)
      requires forall q: nat :: InList(lists0, a, q) ==> Lost(lts, a, q, T0)
      modifies `partition, `queue
      ensures Queued(View()) && OnlyLabel(old(partition), partition, b, a)
      ensures Counting(lts, partition[b].counter, a, T - {r})
      ensures Gained(lts, lists0, partition[b].remove, partition[b].counter, a, T0)
    {
      var sources := lts.pre[a][r];
      ghost var p0 := partition;
      forall q: nat | q < lts.states ensures Count(lts.post[a][q], T) == Count(lts.post[a][q], T - {r}) + multiset(sources)[q] {
        CountWithout(lts.post[a][q], T, r);
      }
      var j := 0;
      assert sources[0..] == sources;
      while j < |sources|
        invariant 0 <= j <= |sources|
        invariant Queued(View()) && OnlyLabel(p0, partition, b, a)
        invariant forall q: nat :: q < lts.states ==>
                    Cell(partition[b].counter, a, q) == Count(lts.post[a][q], T - {r}) + multiset(sources[j..])[q]
        invariant Gained(lts, lists0, partition[b].remove, partition[b].counter, a, T0)
      {
        var q := sources[j];
        assert q in sources && q < lts.states;
        assert sources[j..] == [q] + sources[j + 1..];
        CountZero(lts.post[a][q], T0);
        ghost var p1 := partition;
        Decr(b, a, q);
        OnlyLabelTrans(p0, p1, partition, b, a);
        j := j + 1;
      }
    }

    /** Takes the transitions under label a into the states of block b2 out of the counts of block b1. */
    method DecrLabel(b1: nat, a: nat, b2: nat, ghost T0: set<nat>)
      requires lts.Valid() && b1 < |partition| && b2 < |partition| && Queued(View()) && a < |lts.post|
      requires NoDup(partition[b2].states) && forall r :: r in partition[b2].states ==> r in T0 && r < lts.states
      requires Counting(lts, partition[b1].counter, a, T0) && ProperList(partition[b1].remove, a)
      requires forall q: nat :: InList(partition[b1].remove, a, q) ==> Lost(lts, a, q, T0)
      modifies `partition, `queue
      ensures Queued(View()) && OnlyLabel(old(partition), partition, b1, a)
      ensures Counting(lts, partition[b1].counter, a, T0 - SetOf(partition[b2].states))
      ensures Gained(lts, old(partition)[b1].remove, partition[b1].remove, partition[b1].counter, a, T0)
    {
      var states := partition[b2].states;
      ghost var p0 := partition;
      var i := 0;
      assert T0 - SetOf(states[..0]) == T0;
      while i < |states|
        invariant 0 <= i <= |states|
        invariant Queued(View()) && OnlyLabel(p0, partition, b1, a)
        invariant Counting(lts, partition[b1].counter, a, T0 - SetOf(states[..i]))
        invariant Gained(lts, p0[b1].remove, partition[b1].remove, partition[b1].counter, a, T0)
      {
        var r := states[i];
        assert r in states && r !in states[..i];
        assert states[..i + 1] == states[..i] + [r];
        assert T0 - SetOf(states[..i + 1]) == T0 - SetOf(states[..i]) - {r};
        ghost var p1 := partition;
        DecrState(b1, a, r, T0 - SetOf(states[..i]), T0, p0[b1].remove);
        OnlyLabelTrans(p0, p1, partition, b1, a);
        i := i + 1;
      }
      assert states[..i] == states;
    }

    /** Counts the transitions into block b2 out of the counts of block b1, label by label. */
    method DecrBlock(b1: nat, b2: nat, ghost T0: set<nat>)
      requires lts.Valid() && b1 < |partition| && b2 < |partition| && b1 != b2 && Queued(View())
      requires NoDup(partition[b2].states) && forall r :: r in partition[b2].states ==> r in T0 && r < lts.states
      requires CountsIn(lts, partition[b1], T0) && RemovesIn(lts, partition[b1], T0) && InsetOf(lts, partition[b2])
      modifies `partition, `queue
      ensures Queued(View()) && OnlyBlock(old(partition), partition, b1)
      ensures HandledUpTo(lts, old(partition)[b1], partition[b1], |lts.post|, T0, T0 - SetOf(partition[b2].states))
      ensures forall x :: x in partition[b1].remove ==> x < |lts.post|
    {
      ghost var p0 := partition;
      ghost var T1 := T0 - SetOf(partition[b2].states);
      var a := 0;
      while a < |lts.pre|
        invariant 0 <= a <= |lts.pre|
        invariant Queued(View()) && OnlyBlock(p0, partition, b1)
        invariant HandledUpTo(lts, p0[b1], partition[b1], a, T0, T1)
        invariant forall x :: x in partition[b1].remove ==> x < |lts.post|
      {
        ghost var p1 := partition;
        assert SameLabel(p0[b1], partition[b1], a);
        if a in partition[b2].inset && a in partition[b1].inset {
          assert forall q: nat :: InList(partition[b1].remove, a, q) ==> InList(p0[b1].remove, a, q) && Lost(lts, a, q, T0);
          DecrLabel(b1, a, b2, T0);
          HandledStep(lts, p0, p1, partition, b1, a, T0, T1);
          forall x | x in partition[b1].remove ensures x < |lts.post| {
            assert x != a ==> SameLabel(p1[b1], partition[b1], x);
          }
        } else {
          HandledSkip(lts, p0[b1], partition[b1], p0[b2], a, T0, T1);
        }
        a := a + 1;
      }
    }

    /** Takes block b2 out of the row of block b1, and counts the transitions into it out of
        the counts of b1. */
    method EraseBlock(b1: nat, b2: nat, ghost R: Relation, ghost t: Taken)
      requires lts.Valid() && Core(lts, View(), R, t)
      requires b1 < |partition| && b2 in relation[b1] && b1 != b2
      modifies `partition, `relation, `queue
      ensures Core(lts, View(), R, t) && OnlyBlock(old(partition), partition, b1)
      ensures relation == old(relation)[b1 := old(relation[b1]) - {b2}]
    {
      ghost var c := View();
      ghost var T0 := c.Col(b1);
      relation := relation[b1 := relation[b1] - {b2}];
      assert CountsIn(lts, partition[b1], T0) && RemovesIn(lts, partition[b1], T0) && InsetOf(lts, partition[b2]);
      assert Queued(View());
      DecrBlock(b1, b2, T0);
      assert View().Col(b1) == T0 - SetOf(c.blocks[b2].states);
      EraseKeepsCore(lts, c, View(), R, t, b1, b2);
    }

    /** Takes the blocks of mask out of the row of block b1. */
    method EraseRow(b1: nat, mask: set<nat>, ghost R: Relation, ghost t: Taken)
      requires lts.Valid() && Core(lts, View(), R, t) && b1 < |partition| && b1 !in mask
      modifies `partition, `relation, `queue
      ensures Core(lts, View(), R, t) && |partition| == old(|partition|)
      ensures relation == old(relation)[b1 := old(relation[b1]) - mask]
      ensures relation == old(relation) ==> queue == old(queue)
    {
      ghost var rel0, queue0 := relation, queue;
      ghost var gone: set<nat> := {};
      var todo := relation[b1] * mask;
      assert rel0[b1] - gone == rel0[b1];
      while todo != {}
        invariant Core(lts, View(), R, t) && |partition| == old(|partition|)
        invariant todo <= relation[b1] * mask && gone <= mask && relation[b1] * mask == todo
        invariant relation == rel0[b1 := rel0[b1] - gone]
        invariant gone !! relation[b1] && gone <= rel0[b1]
        invariant gone == {} ==> queue == queue0
        decreases todo
      {
        var col :| col in todo;
        todo := todo - {col};
        EraseBlock(b1, col, R, t);
        assert rel0[b1] - (gone + {col}) == rel0[b1] - gone - {col};
        gone := gone + {col};
      }
      assert rel0[b1] - gone == rel0[b1] - mask;
    }

    /** Takes the blocks of mask out of the rows of the blocks pre. */
    method EraseRows(pre: seq<nat>, mask: set<nat>, ghost R: Relation, ghost t: Taken)
      requires lts.Valid() && Core(lts, View(), R, t) && NoDup(pre)
      requires forall b1 :: b1 in pre ==> b1 < |partition| && b1 !in mask
      modifies `partition, `relation, `queue
      ensures Core(lts, View(), R, t) && |partition| == old(|partition|) && |relation| == old(|relation|)
      ensures forall x :: 0 <= x < |relation| ==> relation[x] == if x in pre then old(relation)[x] - mask else old(relation)[x]
      ensures relation == old(relation) ==> queue == old(queue)
    {
      ghost var rel0, queue0 := relation, queue;
      var i := 0;
      while i < |pre|
        invariant 0 <= i <= |pre|
        invariant Core(lts, View(), R, t) && |partition| == old(|partition|) && |relation| == |rel0|
        invariant forall x :: 0 <= x < |relation| ==> relation[x] == if x in pre[..i] then rel0[x] - mask else rel0[x]
        invariant relation == rel0 ==> queue == queue0
      {
        assert pre[i] in pre && pre[i] !in pre[..i];
        assert pre[..i + 1] == pre[..i] + [pre[i]];
        ghost var rel1 := relation;
        EraseRow(pre[i], mask, R, t);
        if relation == rel0 {
          assert rel1[pre[i]] == rel0[pre[i]];
          assert rel1 == rel0;
        }
        i := i + 1;
      }
      assert pre[..i] == pre;
    }

    /** Takes the list of label a off block b, and splits the blocks by it: pre lists the
        blocks that enter b, mask the blocks of states that have lost their successors. */
    method TakeAndSplit(b: nat, a: nat, ghost c: Config, ghost R: Relation, ghost t: Taken)
      returns (pre: seq<nat>, mask: set<nat>)
      requires lts.Valid() && Inv(lts, c, R, Nothing)
      requires c == View().(queue := queue + [(b, a)]) && b < |c.blocks| && a in c.blocks[b].remove
      requires t == Taken(a, SetOf(c.blocks[b].states), SetOf(c.blocks[b].remove[a]))
      modifies `partition, `relation, `index, `queue
      ensures Halfway(lts, View(), R, t, c.Col(b), pre, mask)
      ensures |partition| >= |c.blocks|
      ensures |partition| == |c.blocks| ==> relation == c.rel && queue == old(queue)
    {
      assert RemovesIn(lts, partition[b], c.Col(b));
      var remove := partition[b].remove[a];
      partition := partition[b := partition[b].(remove := partition[b].remove - {a})];
      ghost var c1 := View();
      TakeList(lts, c, c1, R, b, a, t);
      pre := BuildPre(b, a);
      mask := Split(remove, R, t);
      SplitKeepsEnters(lts, c1, View(), t, c.Col(b));
      forall x | x in pre ensures x < |partition| && x !in mask {
        var p :| 0 <= p < |index| && index[p] == x && p !in t.rem;
      }
      InBlock(lts, c, View(), b);
    }

    /** Takes the blocks of mask out of the rows of the blocks pre, which ends the step. */
    method EraseEntering(pre: seq<nat>, mask: set<nat>, ghost R: Relation, ghost t: Taken, ghost T: set<nat>)
      requires lts.Valid() && Halfway(lts, View(), R, t, T, pre, mask)
      modifies `partition, `relation, `queue
      ensures Inv(lts, View(), R, Nothing) && |partition| == old(|partition|)
      ensures View().Pairs() < old(View().Pairs()) || (relation == old(relation) && queue == old(queue))
    {
      ghost var c := View();
      EraseRows(pre, mask, R, t);
      StepDone(lts, c, View(), R, t, T, mask);
      PairsShrink(c, View());
    }

    /** Processes the states that have lost all their successors, under label a, in the blocks
        related to block b: no block that enters b stays related to them. */
    method ProcessRemove(b: nat, a: nat, ghost c: Config, ghost R: Relation)
      requires lts.Valid() && Inv(lts, c, R, Nothing)
      requires c == View().(queue := queue + [(b, a)])
      modifies `partition, `relation, `index, `queue
      ensures Inv(lts, View(), R, Nothing)
      ensures |partition| >= |c.blocks|
      ensures |partition| == |c.blocks| ==> View().Pairs() < c.Pairs() || (relation == c.rel && queue == old(queue))
    {
      TopQueued(c, b, a);
      ghost var t := Taken(a, SetOf(c.blocks[b].states), SetOf(c.blocks[b].remove[a]));
      var pre, mask := TakeAndSplit(b, a, c, R, t);
      EraseEntering(pre, mask, R, t, c.Col(b));
    }

    /** Processes pending lists until there are none left. */
    method Run(ghost R: Relation)
      requires lts.Valid() && Inv(lts, View(), R, Nothing)
      modifies `partition, `relation, `index, `queue
      ensures Inv(lts, View(), R, Nothing) && queue == []
      ensures View().Induced() == lts.Greatest(R)
    {
      while queue != []
        invariant Inv(lts, View(), R, Nothing)
        decreases lts.states - |partition|, View().Pairs(), |queue|
      {
        ghost var c := View();
        var (b, a) := queue[|queue| - 1];
        queue := queue[..|queue| - 1];
        assert queue + [(b, a)] == c.queue;
        ProcessRemove(b, a, c, R);
        FewBlocks(lts.states, View());
      }
      QuietIsGreatest(lts, View(), R);
    }

    // -------------------------------------------------------------- initialisation

    constructor (lts: Lts)
      ensures this.lts == lts && partition == [] && relation == [] && queue == []
      ensures |index| == lts.states
    {
      this.lts := lts;
      partition, relation, queue := [], [], [];
      index := seq(lts.states, _ => 0);
    }

    /** Makes a block of a class of the initial partition. */
    method MakeBlock(states: seq<nat>)
      requires lts.Valid() && NoDup(states) && forall q :: q in states ==> q < lts.states
      modifies `partition, `index
      ensures |partition| == old(|partition|) + 1 && partition[..|partition| - 1] == old(partition)
      ensures ClassBlock(lts, partition[|partition| - 1], states)
      ensures |index| == old(|index|)
      ensures forall q :: 0 <= q < |index| ==> index[q] == if q in states then old(|partition|) else old(index)[q]
    {
      var n := |partition|;
      var before := index;
      index := seq(|before|, q requires 0 <= q < |before| => if q in states then n else before[q]);
      var _, inset := MoveLabels(states, multiset{});
      partition := partition + [Block(states, map[], map[], inset)];
    }

    method MakeBlocks(part: seq<seq<nat>>)
      requires lts.Valid() && PartitionOf(lts.states, part) && partition == [] && |index| == lts.states
      modifies `partition, `index
      ensures Classes(lts, View(), part)
    {
      var i := 0;
      while i < |part|
        invariant 0 <= i <= |part| && |partition| == i && |index| == lts.states
        invariant forall b :: 0 <= b < i ==> ClassBlock(lts, partition[b], part[b])
        invariant forall b, q {:trigger q in part[b]} :: 0 <= b < i && q in part[b] && q < |index| ==> index[q] == b
      {
        ghost var before := partition;
        MakeBlock(part[i]);
        assert forall b :: 0 <= b < i ==> partition[b] == before[b];
        i := i + 1;
      }
    }

    /** Splits the next block of todo, before there are counters or lists. */
    method FastSplitNext(tmp: seq<nat>, b: nat, ghost mask: set<nat>, ghost todo: seq<nat>, ghost c: Config,
                         ghost rem: set<nat>, ghost R: Relation) returns (ghost mask': set<nat>)
      requires lts.Valid() && Fresh(lts, View(), R)
      requires todo != [] && todo[0] == b && b !in todo[1..] && Finer(c.index, index)
      requires Sorted(c.index, index, todo, mask, rem, |partition|)
      requires tmp != [] && NoDup(tmp) && forall q :: q in tmp <==> q in rem && q < |c.index| && c.index[q] == b
      modifies `partition, `relation, `index
      ensures Fresh(lts, View(), R) && Finer(c.index, index)
      ensures Sorted(c.index, index, todo[1..], mask', rem, |partition|)
    {
      ghost var m := View();
      assert b in todo;
      var moved := TrySplit(b, tmp);
      if moved != [] {
        NewBlock(b, moved, m);
        SplitFresh(lts, m, View(), R, b, partition[b].states, moved);
      }
      SortedStep(c.index, m.index, index, todo, mask, rem, |m.blocks|, moved != []);
      mask' := mask + {if moved != [] then |partition| - 1 else b};
    }

    /** Splits every block into its states in remove and the others. */
    method FastSplit(remove: seq<nat>, ghost R: Relation) returns (ghost mask: set<nat>)
      requires lts.Valid() && Fresh(lts, View(), R)
      requires NoDup(remove) && forall q :: q in remove ==> q < |index|
      modifies `partition, `relation, `index
      ensures Fresh(lts, View(), R) && Finer(old(index), index)
      ensures Masks(View(), mask, SetOf(remove))
    {
      mask := {};
      var modified, tmp := InternalSplit(remove);
      ghost var c := View();
      forall x | x in modified ensures x < |partition| {
        assert tmp[x][0] in tmp[x];
      }
      assert modified[0..] == modified;
      var i := 0;
      while i < |modified|
        invariant 0 <= i <= |modified|
        invariant Fresh(lts, View(), R) && Finer(c.index, index)
        invariant Sorted(c.index, index, modified[i..], mask, SetOf(remove), |partition|)
      {
        var b := modified[i];
        assert b in modified && b in tmp;
        assert modified[i..][1..] == modified[i + 1..];
        mask := FastSplitNext(tmp[b], b, mask, modified[i..], c, SetOf(remove), R);
        i := i + 1;
      }
    }

    /** The states that have successors under label a, in ascending order. */
    method BuildDelta1(a: nat) returns (delta: seq<nat>)
      requires lts.Valid() && a < |lts.post|
      ensures NoDup(delta)
      ensures forall q: nat :: q in delta <==> q < lts.states && q < |lts.post[a]| && lts.post[a][q] != []
    {
      delta := [];
      var q := 0;
      while q < lts.states
        invariant 0 <= q <= lts.states && NoDup(delta)
        invariant forall p: nat :: p in delta <==> p < q && p < |lts.post[a]| && lts.post[a][p] != []
      {
        if lts.post[a][q] != [] {
          NoDupAppend(delta, q);
          delta := delta + [q];
        }
        q := q + 1;
      }
    }

    /** Splits the blocks until their states agree on the labels of their moves. */
    method Refine(ghost R: Relation) returns (delta1: seq<seq<nat>>)
      requires lts.Valid() && Fresh(lts, View(), R)
      modifies `partition, `relation, `index
      ensures Fresh(lts, View(), R)
      ensures forall a: nat :: a < |lts.post| ==> Uniform(lts, index, a)
      ensures |delta1| == |lts.post|
      ensures forall a :: 0 <= a < |delta1| ==> NoDup(delta1[a])
      ensures forall a, q: nat {:trigger q in delta1[a]} :: 0 <= a < |delta1| ==>
                (q in delta1[a] <==> q < lts.states && q < |lts.post[a]| && lts.post[a][q] != [])
    {
      delta1 := [];
      while |delta1| < |lts.post|
        invariant |delta1| <= |lts.post|
        invariant Fresh(lts, View(), R)
        invariant forall a: nat :: a < |delta1| ==> Uniform(lts, index, a)
        invariant forall a :: 0 <= a < |delta1| ==> NoDup(delta1[a])
        invariant forall a, q: nat {:trigger q in delta1[a]} :: 0 <= a < |delta1| ==>
                    (q in delta1[a] <==> q < lts.states && q < |lts.post[a]| && lts.post[a][q] != [])
      {
        var a := |delta1|;
        var delta := BuildDelta1(a);
        ghost var before := index;
        ghost var mask := FastSplit(delta, R);
        forall x: nat | x < a ensures Uniform(lts, index, x) {
          FinerUniform(lts, before, index, x);
        }
        UniformSplit(lts, View(), a, mask, delta);
        delta1 := delta1 + [delta];
      }
    }

    /** The labels under which some state of block b has moves, and those under which some has none. */
    method BlockLabels(b: nat, delta1: seq<seq<nat>>) returns (has: set<nat>, lacks: set<nat>)
      requires lts.Valid() && Shape(lts, View()) && b < |partition| && |delta1| == |lts.post|
      requires forall a, q: nat {:trigger q in delta1[a]} :: 0 <= a < |delta1| ==>
                 (q in delta1[a] <==> q < lts.states && q < |lts.post[a]| && lts.post[a][q] != [])
      ensures OutLabels(lts, partition[b], has, lacks)
    {
      var states := partition[b].states;
      has, lacks := {}, {};
      var i := 0;
      while i < |states|
        invariant 0 <= i <= |states|
        invariant forall a: nat :: a in has <==> a < |lts.post| && exists k :: 0 <= k < i && states[k] in delta1[a]
        invariant forall a: nat :: a in lacks <==> a < |lts.post| && exists k :: 0 <= k < i && states[k] !in delta1[a]
      {
        ghost var has0, lacks0 := has, lacks;
        var a := 0;
        while a < |delta1|
          invariant 0 <= a <= |delta1|
          invariant forall x: nat :: x in has <==> x in has0 || (x < a && states[i] in delta1[x])
          invariant forall x: nat :: x in lacks <==> x in lacks0 || (x < a && states[i] !in delta1[x])
        {
          if states[i] in delta1[a] { has := has + {a}; } else { lacks := lacks + {a}; }
          a := a + 1;
        }
        i := i + 1;
      }
      forall a: nat, q | a < |lts.post| && q in states ensures q < |lts.post[a]| && (q in delta1[a] <==> lts.post[a][q] != []) {
        assert q < |index|;
      }
      LabelsOut(lts, partition[b], delta1, has, lacks);
    }

    /** Takes from the row of block b1 the blocks that lack a label of b1. */
    method PruneRow(b1: nat, has: set<nat>, lacks: seq<set<nat>>)
      requires b1 < |relation| && forall x :: x in relation[b1] ==> x < |lacks|
      modifies `relation
      ensures |relation| == old(|relation|)
      ensures forall x :: 0 <= x < |relation| && x != b1 ==> relation[x] == old(relation)[x]
      ensures forall x {:trigger x in relation[b1]} :: x in relation[b1] <==> x in old(relation)[b1] && has !! lacks[x]
    {
      var rel0 := relation;
      var todo := has;
      while todo != {}
        invariant todo <= has && |relation| == |rel0|
        invariant forall x :: 0 <= x < |relation| && x != b1 ==> relation[x] == rel0[x]
        invariant forall x {:trigger x in relation[b1]} :: x in relation[b1] <==> x in rel0[b1] && (has - todo) !! lacks[x]
        decreases todo
      {
        var a :| a in todo;
        forall x | x in rel0[b1] ensures (has - (todo - {a})) !! lacks[x] <==> (has - todo) !! lacks[x] && a !in lacks[x] {
          assert has - (todo - {a}) == (has - todo) + {a};
        }
        todo := todo - {a};
        relation := relation[b1 := set x | x in relation[b1] && a !in lacks[x]];
      }
      assert has - todo == has;
    }

    /** Makes related only blocks that have all the labels of the smaller block. */
    method Prune(delta1: seq<seq<nat>>, ghost R: Relation)
      requires lts.Valid() && Fresh(lts, View(), R) && |delta1| == |lts.post|
      requires forall a: nat :: a < |lts.post| ==> Uniform(lts, index, a)
      requires forall a, q: nat {:trigger q in delta1[a]} :: 0 <= a < |delta1| ==>
                 (q in delta1[a] <==> q < lts.states && q < |lts.post[a]| && lts.post[a][q] != [])
      modifies `relation
      ensures Fresh(lts, View(), R) && Pruned(lts, View())
    {
      ghost var c := View();
      var has, lacks: seq<set<nat>> := [], [];
      while |has| < |partition|
        invariant View() == c
        invariant |has| == |lacks| <= |partition|
        invariant forall b :: 0 <= b < |has| ==> OutLabels(lts, partition[b], has[b], lacks[b])
      {
        var h, k := BlockLabels(|has|, delta1);
        has, lacks := has + [h], lacks + [k];
      }
      assert forall b, x {:trigger x in c.rel[b]} :: 0 <= b < |c.rel| && x in c.rel[b] ==> x < |lacks|;
      var b1 := 0;
      while b1 < |partition|
        invariant 0 <= b1 <= |partition| && |relation| == |c.rel|
        invariant forall b :: b1 <= b < |relation| ==> relation[b] == c.rel[b]
        invariant forall b, x {:trigger x in relation[b]} :: 0 <= b < b1 ==> (x in relation[b] <==> x in c.rel[b] && x < |lacks| && has[b] !! lacks[x])
      {
        PruneRow(b1, has[b1], lacks);
        b1 := b1 + 1;
      }
      PruneKeeps(lts, c, View(), R, has, lacks);
    }

    /** The number of listed states that lie in a block of row. */
    method CountRelated(list: seq<nat>, row: set<nat>, ghost T: set<nat>) returns (count: nat)
      requires forall r :: r in list ==> r < |index| && (index[r] in row <==> r in T)
      ensures count == Count(list, T)
    {
      count := 0;
      var i := 0;
      while i < |list|
        invariant 0 <= i <= |list|
        invariant count + Count(list[i..], T) == Count(list, T)
      {
        assert list[i..] == [list[i]] + list[i + 1..];
        assert list[i] in list;
        if index[list[i]] in row { count := count + 1; }
        i := i + 1;
      }
    }

    /** Counts, for label a, the related successors of the states with moves. */
    method SetCounters(counter: map<(nat, nat), nat>, a: nat, delta: seq<nat>, row: set<nat>, ghost T: set<nat>)
      returns (counter': map<(nat, nat), nat>)
      requires lts.Valid() && |index| == lts.states && a < |lts.post| && NoDup(delta)
      requires forall q: nat :: q in delta <==> q < lts.states && q < |lts.post[a]| && lts.post[a][q] != []
      requires forall r: nat :: r < |index| ==> (index[r] in row <==> r in T)
      requires forall q: nat :: Cell(counter, a, q) == 0
      ensures Counting(lts, counter', a, T)
      ensures forall x: nat, q: nat :: x != a ==> Cell(counter', x, q) == Cell(counter, x, q)
    {
      counter' := counter;
      var i := 0;
      while i < |delta|
        invariant 0 <= i <= |delta|
        invariant forall q: nat :: q < lts.states ==> Cell(counter', a, q) == if q in delta[..i] then Count(lts.post[a][q], T) else 0
        invariant forall x: nat, q: nat :: x != a ==> Cell(counter', x, q) == Cell(counter, x, q)
      {
        var q := delta[i];
        assert q in delta && q !in delta[..i];
        assert delta[..i + 1] == delta[..i] + [q];
        var count := CountRelated(lts.post[a][q], row, T);
        if count > 0 {
          counter' := counter'[(a, q) := count];
        }
        i := i + 1;
      }
      assert delta[..i] == delta;
    }

    /** The states with moves under label a but none into a block of row. */
    method Unmatched(a: nat, delta: seq<nat>, row: set<nat>, ghost T: set<nat>) returns (lost: seq<nat>)
      requires lts.Valid() && Shape(lts, View()) && a < |lts.post| && NoDup(delta)
      requires forall q: nat :: q in delta <==> q < lts.states && q < |lts.post[a]| && lts.post[a][q] != []
      requires T == set q | 0 <= q < |index| && index[q] in row
      requires forall b :: b in row ==> b < |partition|
      ensures NoDup(lost)
      ensures forall q: nat :: q in lost <==> q < lts.states && lts.post[a][q] != [] && !Matched(lts, a, q, T)
    {
      var s := SetOf(delta);
      var todo := row;
      ghost var done: set<nat> := {};
      while todo != {}
        invariant todo <= row
        invariant forall r: nat :: r in done <==> r < |index| && index[r] in row - todo
        invariant forall q: nat :: q in s <==> q in delta && forall r :: r in done ==> q !in lts.pre[a][r]
        decreases todo
      {
        var b :| b in todo;
        todo := todo - {b};
        var states := partition[b].states;
        ghost var done0 := done;
        var i := 0;
        while i < |states|
          invariant 0 <= i <= |states|
          invariant done == done0 + SetOf(states[..i])
          invariant forall r :: r in done ==> r < lts.states
          invariant forall q: nat :: q in s <==> q in delta && forall r :: r in done ==> q !in lts.pre[a][r]
        {
          assert states[i] in states;
          assert states[..i + 1] == states[..i] + [states[i]];
          s := s - SetOf(lts.pre[a][states[i]]);
          done := done + {states[i]};
          i := i + 1;
        }
        assert states[..i] == states;
      }
      assert done == T;
      forall q: nat | q < lts.states ensures q in s <==> lts.post[a][q] != [] && !Matched(lts, a, q, T) {
        NotStruck(lts, a, q, T, s);
      }
      lost := Keep(delta, s);
      KeepNoDup(delta, s);
    }

    /** Sets the counters of block b for one label, and the list of the states without successors. */
    method InitLabel(b: nat, a: nat, delta: seq<nat>, ghost T: set<nat>)
      requires lts.Valid() && Shape(lts, View()) && Queued(View()) && b < |partition| && a < |lts.post|
      requires NoDup(delta) && T == View().Col(b) && a in partition[b].inset
      requires forall q: nat :: q in delta <==> q < lts.states && q < |lts.post[a]| && lts.post[a][q] != []
      requires CountedUpTo(lts, partition[b], a, T)
      modifies `partition, `queue
      ensures Queued(View()) && OnlyBlock(old(partition), partition, b)
      ensures CountedUpTo(lts, partition[b], a + 1, T)
    {
      ghost var b0 := partition[b];
      var counter := SetCounters(partition[b].counter, a, delta, relation[b], T);
      var lost := Unmatched(a, delta, relation[b], T);
      partition := partition[b := partition[b].(counter := counter)];
      assert Queued(View());
      if lost != [] {
        ghost var c := View();
        partition := partition[b := partition[b].(remove := partition[b].remove[a := lost])];
        queue := queue + [(b, a)];
        QueuePush(c, View(), b, a);
      }
      CountedStep(lts, b0, partition[b], a, T);
    }

    method InitBlock(b: nat, delta1: seq<seq<nat>>)
      requires lts.Valid() && Shape(lts, View()) && Queued(View()) && b < |partition| && |delta1| == |lts.post|
      requires partition[b].remove == map[] && partition[b].counter == map[]
      requires forall a :: 0 <= a < |delta1| ==> NoDup(delta1[a])
      requires forall a, q: nat {:trigger q in delta1[a]} :: 0 <= a < |delta1| ==>
                 (q in delta1[a] <==> q < lts.states && q < |lts.post[a]| && lts.post[a][q] != [])
      modifies `partition, `queue
      ensures Queued(View()) && OnlyBlock(old(partition), partition, b)
      ensures Counted(lts, partition[b], old(View()).Col(b))
    {
      ghost var T := View().Col(b);
      ghost var p0 := partition;
      var a := 0;
      while a < |lts.post|
        invariant 0 <= a <= |lts.post|
        invariant Queued(View()) && OnlyBlock(p0, partition, b)
        invariant CountedUpTo(lts, partition[b], a, T)
      {
        ghost var p1 := partition;
        if a in partition[b].inset {
          BodyShape(lts, old(View()), View(), b);
          InitLabel(b, a, delta1[a], T);
          OnlyBlockTrans(p0, p1, partition, b);
        }
        a := a + 1;
      }
      CountedAll(lts, partition[b], T);
    }

    /** Sets the counters and the first lists of all blocks. */
    method InitCounters(delta1: seq<seq<nat>>, ghost R: Relation)
      requires lts.Valid() && Fresh(lts, View(), R) && Pruned(lts, View()) && |delta1| == |lts.post|
      requires forall a :: 0 <= a < |delta1| ==> NoDup(delta1[a])
      requires forall a, q: nat {:trigger q in delta1[a]} :: 0 <= a < |delta1| ==>
                 (q in delta1[a] <==> q < lts.states && q < |lts.post[a]| && lts.post[a][q] != [])
      modifies `partition, `queue
      ensures Inv(lts, View(), R, Nothing)
    {
      ghost var c := View();
      var b := 0;
      while b < |partition|
        invariant 0 <= b <= |partition| == |c.blocks|
        invariant Queued(View())
        invariant forall x :: 0 <= x < |partition| ==> SameBody(c.blocks[x], partition[x])
        invariant forall x :: 0 <= x < b ==> Counted(lts, partition[x], c.Col(x))
        invariant forall x :: b <= x < |partition| ==> partition[x] == c.blocks[x]
      {
        ghost var p1 := partition;
        BodiesShape(lts, c, View());
        InitBlock(b, delta1);
        forall x | 0 <= x < |partition| ensures SameBody(c.blocks[x], partition[x]) {
          assert SameBody(c.blocks[x], p1[x]);
        }
        forall x | 0 <= x <= b ensures Counted(lts, partition[x], c.Col(x)) {
          if x < b { assert Counted(lts, p1[x], c.Col(x)); }
        }
        b := b + 1;
      }
      StartInv(lts, c, View(), R);
    }

    method Init(part: seq<seq<nat>>, rel: Relation)
      requires lts.Valid() && PartitionOf(lts.states, part)
      requires Reflexive(|part|, rel) && Transitive(rel)
      requires partition == [] && |index| == lts.states && queue == []
      modifies `partition, `relation, `index, `queue
      ensures Inv(lts, View(), Lift(lts.states, part, rel), Nothing)
    {
      MakeBlocks(part);
      relation := Rows(|part|, rel);
      ghost var R := Lift(lts.states, part, rel);
      StartFresh(lts, View(), part, rel);
      var delta1 := Refine(R);
      Prune(delta1, R);
      InitCounters(delta1, R);
    }

    /** Relates, in the result, the states below size whose blocks are related. */
    method BuildResult(size: nat) returns (result: BinaryRelation)
      requires Shape(lts, View())
      ensures fresh(result) && result.Valid() && result.size == size
      ensures forall r, s :: result.Get(r, s) <==> r < size && s < size && In(r, s, View().Induced())
    {
      result := new BinaryRelation(size, false);
      InducedIs(View());
      var i := 0;
      while i < |relation|
        invariant 0 <= i <= |relation| && fresh(result) && result.Valid() && result.size == size
        invariant forall r, s :: result.Get(r, s) <==> Written(View(), size, i, {}, r, s)
      {
        var row := relation[i];
        ghost var done: set<nat> := {};
        while row != {}
          invariant fresh(result) && result.Valid() && result.size == size
          invariant row <= relation[i] && done == relation[i] - row
          invariant forall r, s :: result.Get(r, s) <==> Written(View(), size, i, done, r, s)
          decreases row
        {
          var j :| j in row;
          BuildCell(result, size, i, j, done);
          row := row - {j};
          done := done + {j};
        }
        assert forall r, s :: Written(View(), size, i, done, r, s) <==> Written(View(), size, i + 1, {}, r, s);
        i := i + 1;
      }
    }

    /** Relates the states of block i to those of block j. */
    method BuildCell(result: BinaryRelation, size: nat, i: nat, j: nat, ghost done: set<nat>)
      requires Shape(lts, View()) && i < |partition| && j in relation[i]
      requires result.Valid() && result.size == size
      requires forall r, s :: result.Get(r, s) <==> Written(View(), size, i, done, r, s)
      modifies result`data
      ensures result.Valid()
      ensures forall r, s :: result.Get(r, s) <==> Written(View(), size, i, done + {j}, r, s)
    {
      var from, to := partition[i].states, partition[j].states;
      ghost var d := result.data;
      var x := 0;
      while x < |from|
        invariant 0 <= x <= |from| && result.Valid()
        invariant forall r, s :: result.Get(r, s) <==> At(d, r, s) || (r < size && s < size && r in from[..x] && s in to)
      {
        assert from[..x + 1] == from[..x] + [from[x]];
        ghost var d' := result.data;
        var y := 0;
        while y < |to|
          invariant 0 <= y <= |to| && result.Valid()
          invariant forall r, s :: result.Get(r, s) <==> At(d', r, s) || (r < size && s < size && r == from[x] && s in to[..y])
        {
          assert to[..y + 1] == to[..y] + [to[y]];
          if from[x] < size && to[y] < size {
            result.Set(from[x], to[y], true);
          }
          y := y + 1;
        }
        assert to[..y] == to;
        x := x + 1;
      }
      assert from[..x] == from;
    }
  }

  /** The pairs of blocks handled so far: rows below i, and of row i the columns done. */
  ghost predicate Written(c: Config, size: nat, i: nat, done: set<nat>, r: int, s: int) {
    && 0 <= r < |c.index| && 0 <= s < |c.index| && r < size && s < size
    && c.index[s] in c.RowOf(c.index[r])
    && (c.index[r] < i || (c.index[r] == i && c.index[s] in done))
  }

  /** The greatest simulation contained in the relation that the given preorder on the classes
      of the given partition induces, restricted to the states below outputSize. */
  method ComputeSimulationFrom(lts: Lts, part: seq<seq<nat>>, rel: Relation,
          outputSize: nat) returns (result: BinaryRelation)
    requires lts.Valid()
    requires outputSize > 0 ==> PartitionOf(lts.states, part) && Reflexive(|part|, rel) && Transitive(rel)
    ensures fresh(result) && result.Valid() && result.size == outputSize
    ensures forall r, s :: result.Get(r, s) <==>
              r < outputSize && s < outputSize && In(r, s, lts.Greatest(Lift(lts.states, part, rel)))
  {
    if outputSize == 0 {
      result := new BinaryRelation(0, false);
      return;
    }
    var engine := new SimulationEngine(lts);
    engine.Init(part, rel);
    engine.Run(Lift(lts.states, part, rel));
    result := engine.BuildResult(outputSize);
  }

  /** The greatest simulation of all, restricted to the states below outputSize. */
  method ComputeSimulation(lts: Lts, outputSize: nat) returns (result: BinaryRelation)
    requires lts.Valid() && (lts.states > 0 || outputSize == 0)
    ensures fresh(result) && result.Valid() && result.size == outputSize
    ensures forall r, s :: result.Get(r, s) <==>
              r < outputSize && s < outputSize && In(r, s, lts.Greatest(AllPairs(lts.states)))
  {
    var all := seq(lts.states, q requires 0 <= q < lts.states => q);
    if lts.states > 0 { OneClass(lts.states, all); }
    result := ComputeSimulationFrom(lts, [all], {(0, 0)}, outputSize);
  }

  ghost function AllPairs(n: nat): Relation {
    set p: nat, q: nat | p in Below(n) && q in Below(n) :: (p, q)
  }

  lemma OneClass(n: nat, all: seq<nat>)
    requires n > 0 && |all| == n && forall q :: 0 <= q < n ==> all[q] == q
    ensures PartitionOf(n, [all]) && Reflexive(1, {(0, 0)}) && Transitive({(0, 0)})
    ensures Lift(n, [all], {(0, 0)}) == AllPairs(n)
  {
    forall q: nat | q < n ensures ClassOf([all], q) {
      assert all[q] in all;
      assert q in [all][0];
    }
    forall p: nat, q: nat | p < n && q < n ensures RelatedIn([all], {(0, 0)}, p, q) {
      assert all[p] in all && all[q] in all;
      assert p in [all][0] && q in [all][0] && In(0, 0, {(0, 0)});
    }
  }

  lemma LabelsOut(l: Lts, b: Block, delta1: seq<seq<nat>>, has: set<nat>, lacks: set<nat>)
    requires |delta1| == |l.post|
    requires forall a: nat, q :: a < |l.post| && q in b.states ==> q < |l.post[a]| && (q in delta1[a] <==> l.post[a][q] != [])
    requires forall a: nat :: a in has <==> a < |l.post| && exists k :: 0 <= k < |b.states| && b.states[k] in delta1[a]
    requires forall a: nat :: a in lacks <==> a < |l.post| && exists k :: 0 <= k < |b.states| && b.states[k] !in delta1[a]
    ensures OutLabels(l, b, has, lacks)
  {
    forall a: nat | a < |l.post|
      ensures a in has <==> exists q :: q in b.states && q < |l.post[a]| && l.post[a][q] != []
      ensures a in lacks <==> exists q :: q in b.states && q < |l.post[a]| && l.post[a][q] == []
    {
      if k :| 0 <= k < |b.states| && b.states[k] in delta1[a] {
        assert b.states[k] in b.states && l.post[a][b.states[k]] != [];
      }
      if k :| 0 <= k < |b.states| && b.states[k] !in delta1[a] {
        assert b.states[k] in b.states && l.post[a][b.states[k]] == [];
      }
    }
  }

  /** x is the block of one of the states. */
  ghost predicate BlockOf(index: seq<nat>, states: seq<nat>, x: int) {
    exists p :: p in states && p < |index| && index[p] == x
  }

  lemma BlockOfStep(index: seq<nat>, states: seq<nat>, j: nat)
    requires j < |states| && states[j] < |index|
    ensures forall x :: BlockOf(index, states[..j + 1], x) <==> BlockOf(index, states[..j], x) || x == index[states[j]]
  {
    assert states[..j + 1] == states[..j] + [states[j]];
    assert BlockOf(index, states[..j + 1], index[states[j]]) by { assert states[j] in states[..j + 1]; }
  }

  lemma EntersStep(l: Lts, c: Config, states: seq<nat>, i: nat, a: nat)
    requires l.Valid() && |c.index| == l.states && i < |states| && states[i] < l.states && a < |l.pre|
    ensures forall x :: Enters(l, c, SetOf(states[..i + 1]), a, x) <==>
              Enters(l, c, SetOf(states[..i]), a, x)
              || BlockOf(c.index, l.pre[a][states[i]], x)
  {
    var r := states[i];
    assert states[..i + 1] == states[..i] + [r];
    forall x | Enters(l, c, SetOf(states[..i + 1]), a, x)
      ensures Enters(l, c, SetOf(states[..i]), a, x)
        || BlockOf(c.index, l.pre[a][r], x)
    {
      var p, s :| l.Edge(p, a, s) && s in SetOf(states[..i + 1]) && 0 <= p < |c.index| && c.index[p] == x;
      if s == r {
        l.PreIsInverse(p, a, r);
        var k :| 0 <= k < |l.pre[a][r]| && l.pre[a][r][k] == p;
      }
    }
    forall k | 0 <= k < |l.pre[a][r]|
      ensures l.pre[a][r][k] < |c.index| && Enters(l, c, SetOf(states[..i + 1]), a, c.index[l.pre[a][r][k]])
    {
      var p := l.pre[a][r][k];
      assert p in l.pre[a][r];
      l.PreIsInverse(p, a, r);
    }
  }
}
