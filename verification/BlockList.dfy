/** The circular lists that hold the states of the blocks. */
module BlockList {
  import opened Collections
  import opened DoubleLinks

  type Elem = nat

  /** Following the links from c[0] leads through c and back to c[0]. */
  ghost predicate Cycle(L: Links<Elem>, c: seq<Elem>) {
    c != [] && NoDup(c) && Chain(L, c + [c[0]])
  }

  lemma CycleLink(L: Links<Elem>, c: seq<Elem>, k: nat)
    requires Cycle(L, c) && k < |c|
    ensures Linked(L, c[k], if k + 1 < |c| then c[k + 1] else c[0])
    ensures Linked(L, if k > 0 then c[k - 1] else c[|c| - 1], c[k])
  {
    var p := c + [c[0]];
    assert Joined(L, p, k) && Joined(L, p, k - 1) && Joined(L, p, |c| - 1);
  }

  lemma CycleStays(L: Links<Elem>, c: seq<Elem>, a: Elem, b: Elem)
    requires Cycle(L, c) && a !in c && b !in c
    ensures Cycle(Link(L, a, b), c)
  {
    ChainApart(L, c + [c[0]], a, b);
  }

  /** A cycle starts anywhere. */
  lemma Rotated(L: Links<Elem>, c: seq<Elem>, k: nat)
    requires Cycle(L, c) && k < |c|
    ensures Cycle(L, c[k..] + c[..k])
  {
    var p, d := c + [c[0]], c[k..] + c[..k];
    PartOfChain(L, p, 0, k + 1);
    PartOfChain(L, p, k, |c|);
    assert Joined(L, p, |c| - 1);
    JoinChains(L, p[k..|c|], p[0..k + 1]);
    assert d + [d[0]] == p[k..|c|] + p[0..k + 1];
  }

  ghost function Rest(c: seq<Elem>, k: nat): seq<Elem>
    requires k < |c|
  {
    c[k + 1..] + c[..k]
  }

  lemma RestHas(c: seq<Elem>, k: nat)
    requires k < |c| && NoDup(c)
    ensures NoDup(Rest(c, k)) && |Rest(c, k)| == |c| - 1 && forall x :: x in Rest(c, k) <==> x in c && x != c[k]
  {
    assert c == c[..k] + [c[k]] + c[k + 1..];
  }

  /** Linking the neighbours of an element takes it out of its cycle. */
  lemma TakenOut(L: Links<Elem>, c: seq<Elem>, k: nat)
    requires Cycle(L, c) && k < |c| && |c| > 1
    ensures c[k] in L.next && c[k] in L.prev && L.next[c[k]] == Rest(c, k)[0] && L.prev[c[k]] == Last(Rest(c, k))
    ensures Cycle(Link(L, L.prev[c[k]], L.next[c[k]]), Rest(c, k))
  {
    CycleLink(L, c, k);
    Rotated(L, c, k);
    RestHas(c, k);
    var d, r := c[k..] + c[..k], Rest(c, k);
    assert d + [d[0]] == [c[k]] + r + [c[k]];
    PartOfChain(L, d + [d[0]], 1, |c|);
    assert (d + [d[0]])[1..|c|] == r;
    ChainStays(L, r, Last(r), r[0]);
    JoinChains(Link(L, Last(r), r[0]), r, [r[0]]);
  }

  /** Linking the last element of a chain to its first closes it. */
  lemma Closed(L: Links<Elem>, q: seq<Elem>)
    requires q != [] && NoDup(q) && Chain(L, q)
    ensures Cycle(Link(L, Last(q), q[0]), q)
  {
    ChainStays(L, q, Last(q), q[0]);
    JoinChains(Link(L, Last(q), q[0]), q, [q[0]]);
  }

  /** A cycle, and a chain of the elements taken out of it so far. */
  ghost predicate Moving(L: Links<Elem>, c: seq<Elem>, q: seq<Elem>) {
    Cycle(L, c) && q != [] && NoDup(q) && Chain(L, q) && forall x :: x in q ==> x !in c
  }

  lemma MoveFirst(L: Links<Elem>, c: seq<Elem>, k: nat)
    requires Cycle(L, c) && k < |c| && |c| > 1
    ensures c[k] in L.next && c[k] in L.prev && L.next[c[k]] in Rest(c, k) && L.next[c[k]] in c && L.prev[c[k]] in c
    ensures Moving(Link(L, L.prev[c[k]], L.next[c[k]]), Rest(c, k), [c[k]]) && IsMinus(Rest(c, k), c, [c[k]])
  {
    TakenOut(L, c, k);
    RestHas(c, k);
  }

  lemma MoveOne(L: Links<Elem>, c: seq<Elem>, k: nat, q: seq<Elem>)
    requires Moving(L, c, q) && k < |c| && |c| > 1
    ensures c[k] in L.next && c[k] in L.prev
    ensures L.next[c[k]] in Rest(c, k) && L.next[c[k]] in c && L.prev[c[k]] in c
    ensures Moving(Link(Link(L, L.prev[c[k]], L.next[c[k]]), Last(q), c[k]), Rest(c, k), q + [c[k]])
  {
    TakenOut(L, c, k);
    RestHas(c, k);
    var L1 := Link(L, L.prev[c[k]], L.next[c[k]]);
    assert L.prev[c[k]] in Rest(c, k) && L.next[c[k]] in Rest(c, k);
    ChainApart(L, q, L.prev[c[k]], L.next[c[k]]);
    CycleStays(L1, Rest(c, k), Last(q), c[k]);
    Extended(L1, q, c[k]);
    NoDupAppend(q, c[k]);
  }

  lemma MoveEnd(L: Links<Elem>, c: seq<Elem>, q: seq<Elem>)
    requires Moving(L, c, q)
    ensures Cycle(Link(L, Last(q), q[0]), c) && Cycle(Link(L, Last(q), q[0]), q)
  {
    CycleStays(L, c, Last(q), q[0]);
    Closed(L, q);
  }

  /** Nothing changes for the elements outside c. */
  ghost predicate SameOutside(L: Links<Elem>, L': Links<Elem>, c: seq<Elem>) {
    forall x {:trigger x in L'.next} {:trigger x in L'.prev} :: x !in c ==>
      && (x in L'.next <==> x in L.next) && (x in L.next ==> L'.next[x] == L.next[x])
      && (x in L'.prev <==> x in L.prev) && (x in L.prev ==> L'.prev[x] == L.prev[x])
  }

  lemma SameStill(L: Links<Elem>, L1: Links<Elem>, L2: Links<Elem>, c: seq<Elem>)
    requires SameOutside(L, L1, c) && SameOutside(L1, L2, c)
    ensures SameOutside(L, L2, c)
  {
  }

  /** So the lists of the other blocks stay as they are. */
  lemma OtherCycles(L: Links<Elem>, L': Links<Elem>, c: seq<Elem>, d: seq<Elem>)
    requires SameOutside(L, L', c) && Cycle(L, d) && forall x :: x in d ==> x !in c
    ensures Cycle(L', d)
  {
    var p := d + [d[0]];
    forall k ensures Joined(L', p, k) {
      assert Joined(L, p, k);
      if 0 <= k < |p| - 1 {
        assert p[k] in d && p[k + 1] in d;
      }
    }
  }

  /** c has lost the elements of s. */
  ghost predicate IsMinus(c': seq<Elem>, c: seq<Elem>, s: seq<Elem>) {
    |c'| == |c| - |s| && forall x :: x in c' <==> x in c && x !in s
  }

  lemma MinusOne(c: seq<Elem>, c': seq<Elem>, s: seq<Elem>, k: nat)
    requires IsMinus(c', c, s) && k < |c'| && NoDup(c')
    ensures IsMinus(Rest(c', k), c, s + [c'[k]])
  {
    RestHas(c', k);
  }

  function Rotation(s: seq<Elem>): seq<Elem>
    requires s != []
  {
    [Last(s)] + s[..|s| - 1]
  }

  lemma RotationHas(s: seq<Elem>)
    requires s != [] && NoDup(s)
    ensures |Rotation(s)| == |s| && NoDup(Rotation(s)) && forall x :: x in Rotation(s) <==> x in s
  {
    assert s == s[..|s| - 1] + [Last(s)];
  }

  lemma NoMoreThan(s: seq<Elem>, c: seq<Elem>)
    requires NoDup(c) && NoDup(s) && forall x :: x in s ==> x in c
    ensures |s| <= |c|
  {
    NoDupCard(s);
    NoDupCard(c);
    SubsetSize(SetOf(s), SetOf(c));
  }

  /** The chain q of what is moved so far: a beginning of the rotated list. */
  ghost predicate Moved(L: Links<Elem>, c: seq<Elem>, c': seq<Elem>, t: seq<Elem>, i: nat) {
    i < |t| < |c| && Moving(L, c', t[..i + 1]) && IsMinus(c', c, t[..i + 1])
  }

  lemma NextToMove(L: Links<Elem>, c: seq<Elem>, c': seq<Elem>, t: seq<Elem>, i: nat) returns (k: nat)
    requires Moved(L, c, c', t, i) && i + 1 < |t| && NoDup(t) && forall x :: x in t ==> x in c
    ensures |c'| > 1 && k < |c'| && c'[k] == t[i + 1] && Last(t[..i + 1]) == t[i]
    ensures c'[k] in L.next && c'[k] in L.prev && L.next[c'[k]] in Rest(c', k)
    ensures L.next[c'[k]] in c && L.prev[c'[k]] in c && t[i + 1] in c && t[i] in c
    ensures Moved(Link(Link(L, L.prev[c'[k]], L.next[c'[k]]), t[i], t[i + 1]), c, Rest(c', k), t, i + 1)
  {
    assert t[i + 1] !in t[..i + 1];
    k :| 0 <= k < |c'| && c'[k] == t[i + 1];
    MoveOne(L, c', k, t[..i + 1]);
    MinusOne(c, c', t[..i + 1], k);
    assert t[..i + 2] == t[..i + 1] + [c'[k]];
  }

  /** The element before position k in the circle. */
  function Before(s: seq<Elem>, k: nat): Elem
    requires k < |s|
  {
    if k == 0 then Last(s) else s[k - 1]
  }

  ghost predicate LinkedAt(L: Links<Elem>, s: seq<Elem>, k: nat) {
    k < |s| ==> Linked(L, Before(s, k), s[k])
  }

  ghost predicate LinkedUpTo(L: Links<Elem>, s: seq<Elem>, n: nat) {
    forall k: nat {:trigger LinkedAt(L, s, k)} :: k < n ==> LinkedAt(L, s, k)
  }

  lemma LinkNext(L: Links<Elem>, s: seq<Elem>, i: nat)
    requires NoDup(s) && i < |s| && LinkedUpTo(L, s, i)
    ensures LinkedUpTo(Link(L, Before(s, i), s[i]), s, i + 1)
  {
    forall k: nat | k < i + 1 ensures LinkedAt(Link(L, Before(s, i), s[i]), s, k) {
      assert k < i ==> LinkedAt(L, s, k);
    }
  }

  lemma AllLinked(L: Links<Elem>, s: seq<Elem>)
    requires NoDup(s) && s != [] && LinkedUpTo(L, s, |s|)
    ensures Cycle(L, s)
  {
    forall k ensures Joined(L, s + [s[0]], k) {
      if 0 <= k < |s| {
        assert LinkedAt(L, s, if k + 1 < |s| then k + 1 else 0);
      }
    }
  }

  /** The links of all states, and the blocks that they belong to. */
  class StateList {
    var links: Links<Elem>
    var owner: map<Elem, nat>

    constructor ()
      ensures links == Links(map[], map[]) && owner == map[]
    {
      links, owner := Links(map[], map[]), map[];
    }

    /** Links the states in a circle. */
    method MakeList(states: seq<Elem>) returns (list: Elem)
      requires states != [] && NoDup(states)
      modifies `links
      ensures Cycle(links, states) && list == Last(states) && SameOutside(old(links), links, states)
    {
      list := Last(states);
      for i := 0 to |states|
        invariant list == Before(states, if i < |states| then i else 0)
        invariant LinkedUpTo(links, states, i) && SameOutside(old(links), links, states)
      {
        LinkNext(links, states, i);
        links := Link(links, list, states[i]);
        list := states[i];
      }
      AllLinked(links, states);
    }

    /** Walks once around the circle and notes the block of its states. */
    method Claim(states: Elem, block: nat, ghost c: seq<Elem>)
      requires Cycle(links, c) && c[0] == states
      modifies `owner
      ensures forall x :: x in owner <==> x in old(owner) || x in c
      ensures forall x :: x in owner ==> owner[x] == if x in c then block else old(owner)[x]
    {
      ghost var k: nat := 1;
      owner := owner[states := block];
      CycleLink(links, c, 0);
      var elem := links.next[states];
      while elem != states
        invariant 1 <= k <= |c| && elem == if k < |c| then c[k] else states
        invariant forall x :: x in owner <==> x in old(owner) || x in c[..k]
        invariant forall x :: x in owner ==> owner[x] == if x in c[..k] then block else old(owner)[x]
        decreases |c| - k
      {
        CycleLink(links, c, k);
        assert c[..k + 1] == c[..k] + [c[k]];
        owner := owner[elem := block];
        elem := links.next[elem];
        k := k + 1;
      }
      WalkDone(c, k);
    }
  }

  lemma WalkDone(c: seq<Elem>, k: nat)
    requires NoDup(c) && 1 <= k <= |c| && (k < |c| ==> c[k] == c[0])
    ensures c[..k] == c
  {
  }

  class Block {
    var states: Elem
    var size: nat
    var tmp: seq<Elem>
    ghost var cycle: seq<Elem>

    /** The list of the block runs through its states; tmp holds some of them. */
    ghost predicate Valid(L: Links<Elem>)
      reads this
    {
      Cycle(L, cycle) && states in cycle && size == |cycle| && NoDup(tmp) && forall x :: x in tmp ==> x in cycle
    }

    constructor (L: StateList, states: Elem, size: nat, ghost cycle: seq<Elem>)
      requires Cycle(L.links, cycle) && states in cycle && size == |cycle|
      ensures Valid(L.links) && this.cycle == cycle && tmp == []
    {
      this.states, this.size, tmp, this.cycle := states, size, [], cycle;
    }

    method MoveToTmp(L: StateList, elem: Elem)
      requires Valid(L.links) && elem in cycle && elem !in tmp
      modifies `tmp
      ensures Valid(L.links) && tmp == old(tmp) + [elem]
    {
      NoDupAppend(tmp, elem);
      tmp := tmp + [elem];
    }

    /** Splits the states in tmp off into a list of their own, last one first. When they are all
        the states of the block there is nothing to split. */
    method TrySplit(L: StateList) returns (first: Option<Elem>, n: nat)
      requires Valid(L.links) && tmp != []
      modifies this, L
      ensures Valid(L.links) && tmp == []
      ensures |old(tmp)| == old(size) ==> first == None && n == 0 && L.links == old(L.links) && cycle == old(cycle)
      ensures |old(tmp)| < old(size) ==> first == Some(Last(old(tmp))) && n == |old(tmp)| && size == old(size) - n
      ensures |old(tmp)| < old(size) ==> IsMinus(cycle, old(cycle), old(tmp)) && Cycle(L.links, Rotation(old(tmp)))
      ensures SameOutside(old(L.links), L.links, old(cycle))
    {
      NoMoreThan(tmp, cycle);
      RotationHas(tmp);
      if |tmp| == size {
        tmp := [];
        return None, 0;
      }
      ghost var links, c, t := L.links, cycle, Rotation(tmp);
      var last := Last(tmp);
      tmp := tmp[..|tmp| - 1];
      TakeFirst(L, last, t);
      var elem, i := last, 0;
      while i < |tmp|
        invariant i <= |tmp| && t == [last] + tmp && elem == t[i] && size == |c|
        invariant Moved(L.links, c, cycle, t, i) && states in cycle && SameOutside(links, L.links, c)
      {
        ghost var before := L.links;
        Take(L, elem, tmp[i], c, t, i);
        SameStill(links, before, L.links, c);
        elem := tmp[i];
        i := i + 1;
      }
      assert t[..|t|] == t;
      MoveEnd(L.links, cycle, t);
      L.links := Link(L.links, elem, last);
      n := |tmp| + 1;
      tmp, size, first := [], size - n, Some(last);
    }

    method TakeFirst(L: StateList, last: Elem, ghost t: seq<Elem>)
      requires Cycle(L.links, cycle) && t != [] && t[0] == last && last in cycle && |t| < |cycle|
      modifies `states, `cycle, L
      ensures Moved(L.links, old(cycle), cycle, t, 0) && states in cycle && SameOutside(old(L.links), L.links, old(cycle))
    {
      ghost var k :| 0 <= k < |cycle| && cycle[k] == last;
      MoveFirst(L.links, cycle, k);
      states := L.links.next[last];
      L.links := Link(L.links, L.links.prev[last], states);
      cycle := Rest(cycle, k);
    }

    /** Moves one more state from the list of the block behind elem. */
    method Take(L: StateList, elem: Elem, state: Elem, ghost c: seq<Elem>, ghost t: seq<Elem>, ghost i: nat)
      requires Moved(L.links, c, cycle, t, i) && i + 1 < |t| && elem == t[i] && state == t[i + 1]
      requires NoDup(t) && forall x :: x in t ==> x in c
      modifies `states, `cycle, L
      ensures Moved(L.links, c, cycle, t, i + 1) && states in cycle && SameOutside(old(L.links), L.links, c)
    {
      ghost var k := NextToMove(L.links, c, cycle, t, i);
      states := L.links.next[state];
      L.links := Link(L.links, L.links.prev[state], L.links.next[state]);
      L.links := Link(L.links, elem, state);
      cycle := Rest(cycle, k);
    }
  }
}
