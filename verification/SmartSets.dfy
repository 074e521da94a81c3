/** A counted set kept as a list, with an index that leads to the predecessor of every element. */
module SmartSets {
  import opened Collections
  import opened DoubleLinks

  datatype Node = Head | Item(key: nat) | Nil

  /** The list that starts at the head and goes through the elements. */
  function Path(order: seq<nat>): (p: seq<Node>)
    ensures |p| == |order| + 1
    ensures forall k {:trigger p[k]} :: 0 <= k < |p| ==> p[k] == if k == 0 then Head else Item(order[k - 1])
  {
    [Head] + seq(|order|, k requires 0 <= k < |order| => Item(order[k]))
  }

  lemma PathFacts(order: seq<nat>)
    requires NoDup(order)
    ensures NoDup(Path(order)) && Nil !in Path(order)
    ensures forall key: nat :: Item(key) in Path(order) <==> key in order
  {
    forall key: nat | key in order ensures Item(key) in Path(order) {
      var k :| 0 <= k < |order| && order[k] == key;
      assert Path(order)[k + 1] == Item(key);
    }
  }

  /** The next links follow the list to its end, the index (the previous links) follows it back. */
  ghost predicate Follows(L: Links<Node>, order: seq<nat>) {
    && NoDup(order) && Chain(L, Path(order))
    && Last(Path(order)) in L.next && L.next[Last(Path(order))] == Nil
    && forall key: nat :: Item(key) in L.prev <==> key in order
  }

  function Inserted(L: Links<Node>, last: Node, key: nat): Links<Node> {
    var L' := Link(L, last, Item(key));
    L'.(next := L'.next[Item(key) := Nil])
  }

  lemma InsertedFollows(L: Links<Node>, order: seq<nat>, key: nat)
    requires Follows(L, order) && key !in order
    ensures Follows(Inserted(L, Last(Path(order)), key), order + [key])
  {
    PathFacts(order);
    var p, last := Path(order), Last(Path(order));
    Extended(L, p, Item(key));
    var L' := Inserted(L, last, key);
    assert Path(order + [key]) == p + [Item(key)];
    forall k ensures Joined(L', p + [Item(key)], k) {
      assert Joined(Link(L, last, Item(key)), p + [Item(key)], k);
    }
    NoDupAppend(order, key);
  }

  /** Inserting behind another node than the last one does not give the longer list. */
  lemma InsertedExact(L: Links<Node>, order: seq<nat>, last: Node, key: nat)
    requires Follows(L, order) && key !in order
    ensures Follows(Inserted(L, last, key), order + [key]) <==> last == Last(Path(order))
  {
    if last == Last(Path(order)) {
      InsertedFollows(L, order, key);
    } else if Follows(Inserted(L, last, key), order + [key]) {
      NextOfLast(Inserted(L, last, key), order, key);
    }
  }

  lemma NextOfLast(L: Links<Node>, order: seq<nat>, key: nat)
    requires Follows(L, order + [key])
    ensures Last(Path(order)) in L.next && L.next[Last(Path(order))] == Item(key)
  {
    assert Path(order + [key]) == Path(order) + [Item(key)];
    assert Joined(L, Path(order + [key]), |order|);
  }

  /** Taking out the last element: an insertion right afterwards would lose the new one. */
  method TailLost() returns (s: SmartSet)
    ensures s.Valid() && s.order == [] && !s.TailKnown() && !Follows(Inserted(s.links, s.last, 1), [1])
  {
    s := new SmartSet(2);
    s.Add(0);
    s.Erase(0);
    s.EmptyExact();
    InsertedExact(s.links, s.order, s.last, 1);
    assert s.order + [1] == [1];
  }

  function Without(order: seq<nat>, k: nat): seq<nat>
    requires k < |order|
  {
    order[..k] + order[k + 1..]
  }

  lemma WithoutHas(s: seq<nat>, k: nat)
    requires k < |s| && NoDup(s)
    ensures NoDup(Without(s, k)) && forall x :: x in Without(s, k) <==> x in s && x != s[k]
  {
    assert s == s[..k] + [s[k]] + s[k + 1..];
  }

  predicate CanErase(L: Links<Node>, key: nat) { Item(key) in L.prev && Item(key) in L.next }

  /** The predecessor is linked to the successor, which, if there is one, learns its predecessor. */
  function Bridged(L: Links<Node>, p: Node, n: Node): Links<Node> {
    if n == Nil then L.(next := L.next[p := n]) else Link(L, p, n)
  }

  function Dropped(L: Links<Node>, x: Node): Links<Node> {
    Links(L.next - {x}, L.prev - {x})
  }

  function Erased(L: Links<Node>, key: nat): Links<Node>
    requires CanErase(L, key)
  {
    Dropped(Bridged(L, L.prev[Item(key)], L.next[Item(key)]), Item(key))
  }

  lemma DroppedChain(L: Links<Node>, r: seq<Node>, x: Node)
    requires Chain(L, r) && x !in r
    ensures Chain(Dropped(L, x), r)
  {
    forall m ensures Joined(Dropped(L, x), r, m) {
      assert Joined(L, r, m);
    }
  }

  /** The list without its last element. */
  lemma TailBridged(L: Links<Node>, p: seq<Node>)
    requires Chain(L, p) && NoDup(p) && |p| > 1
    ensures Chain(Bridged(L, p[|p| - 2], Nil), p[..|p| - 1])
  {
    PartOfChain(L, p, 0, |p| - 1);
    var r := p[..|p| - 1];
    assert r == p[0..|p| - 1];
    var L' := Bridged(L, p[|p| - 2], Nil);
    forall m ensures Joined(L', r, m) {
      assert Joined(L, r, m);
    }
  }

  lemma Neighbours(L: Links<Node>, order: seq<nat>, k: nat)
    requires Follows(L, order) && k < |order|
    ensures CanErase(L, order[k]) && L.prev[Item(order[k])] == Path(order)[k]
    ensures L.next[Item(order[k])] == if k + 1 < |order| then Path(order)[k + 2] else Nil
  {
    assert Joined(L, Path(order), k) && Joined(L, Path(order), k + 1);
  }

  lemma PathWithout(order: seq<nat>, k: nat)
    requires k < |order| && NoDup(order)
    ensures Path(Without(order, k)) == Path(order)[..k + 1] + Path(order)[k + 2..]
    ensures Item(order[k]) !in Path(Without(order, k))
  {
    WithoutHas(order, k);
    PathFacts(Without(order, k));
  }

  lemma ErasedChain(L: Links<Node>, order: seq<nat>, k: nat)
    requires Follows(L, order) && k < |order|
    ensures CanErase(L, order[k]) && Chain(Erased(L, order[k]), Path(Without(order, k)))
  {
    Neighbours(L, order, k);
    PathFacts(order);
    PathWithout(order, k);
    var p := Path(order);
    if k + 1 == |order| {
      TailBridged(L, p);
      assert Path(Without(order, k)) == p[..|p| - 1];
    } else {
      assert p[k + 2] != Nil;
      Shortened(L, p, k + 1);
    }
    DroppedChain(Bridged(L, L.prev[Item(order[k])], L.next[Item(order[k])]), Path(Without(order, k)), Item(order[k]));
  }

  lemma ErasedFollows(L: Links<Node>, order: seq<nat>, k: nat)
    requires Follows(L, order) && k < |order|
    ensures CanErase(L, order[k]) && Follows(Erased(L, order[k]), Without(order, k))
  {
    Neighbours(L, order, k);
    ErasedChain(L, order, k);
    ErasedEnd(L, order, k);
    ErasedIndex(L, order, k);
    WithoutHas(order, k);
  }

  lemma ErasedEnd(L: Links<Node>, order: seq<nat>, k: nat)
    requires Follows(L, order) && k < |order|
    ensures CanErase(L, order[k])
    ensures var L', last := Erased(L, order[k]), Last(Path(Without(order, k)));
            last in L'.next && L'.next[last] == Nil
  {
    Neighbours(L, order, k);
    var p := Path(order);
    if k + 1 == |order| {
      assert Last(Path(Without(order, k))) == p[k];
      assert p[k] != Item(order[k]);
    } else {
      assert Last(Path(Without(order, k))) == p[|p| - 1];
      assert p[|p| - 1] != p[k] && p[|p| - 1] != Item(order[k]);
    }
  }

  lemma ErasedIndex(L: Links<Node>, order: seq<nat>, k: nat)
    requires Follows(L, order) && k < |order|
    ensures CanErase(L, order[k])
    ensures forall key: nat :: Item(key) in Erased(L, order[k]).prev <==> key in order && key != order[k]
  {
    Neighbours(L, order, k);
    if k + 1 < |order| {
      assert Path(order)[k + 2] == Item(order[k + 1]) && order[k + 1] in order;
    }
  }

  class SmartSet {
    var range: nat
    var links: Links<Node>
    var count: map<nat, nat>
    var last: Node
    var size: nat
    ghost var order: seq<nat>

    ghost predicate Linked()
      reads this
    {
      Follows(links, order) && size == |order| && forall key :: key in order ==> key < range && key in count
    }

    ghost predicate Valid()
      reads this
    {
      Linked() && forall key :: key in order ==> count[key] > 0
    }

    /** Elements may be inserted as long as the last element has not been erased. */
    ghost predicate TailKnown()
      reads this
    {
      last == Last(Path(order))
    }

    /** How often the key is in the set. */
    ghost function Times(key: nat): nat
      reads this
    {
      if key in order && key in count then count[key] else 0
    }

    constructor (range: nat)
      ensures Valid() && TailKnown() && this.range == range && size == 0 && order == [] && forall key: nat :: Times(key) == 0
    {
      this.range, links, count, last, size, order := range, Links(map[Head := Nil], map[]), map[], Head, 0, [];
      new;
      assert Path(order) == [Head];
    }

    lemma EmptyExact()
      requires Valid()
      ensures order == [] <==> forall key: nat :: Times(key) == 0
    {
      if order != [] {
        assert order[0] in order && Times(order[0]) > 0;
      }
    }

    /** A new element at the end of the list. */
    method Append(key: nat, n: nat)
      requires Linked() && key < range && key !in order && TailKnown()
      modifies this
      ensures Linked() && TailKnown() && range == old(range) && order == old(order) + [key] && count == old(count)[key := n]
    {
      InsertedFollows(links, order, key);
      links := Inserted(links, last, key);
      order, last, size, count := order + [key], Item(key), size + 1, count[key := n];
    }

    method Insert(key: nat)
      requires Linked() && key < range && (key !in order ==> TailKnown())
      modifies this
      ensures Linked() && range == old(range) && key in order && (old(TailKnown()) ==> TailKnown())
      ensures order == old(order) + if key in old(order) then [] else [key]
      ensures count == if key in old(order) then old(count) else old(count)[key := 0]
    {
      if Item(key) !in links.prev {
        Append(key, 0);
      }
    }

    method Contains(key: nat) returns (r: bool)
      requires Valid() && key < range
      ensures r <==> Times(key) > 0
    {
      r := Item(key) in links.prev;
    }

    method Count(key: nat) returns (n: nat)
      requires Valid() && key < range
      ensures n == Times(key)
    {
      n := if Item(key) in links.prev then count[key] else 0;
    }

    method Add(key: nat)
      requires Valid() && key < range && (key !in order ==> TailKnown())
      modifies this
      ensures Valid() && range == old(range) && (old(TailKnown()) ==> TailKnown())
      ensures order == old(order) + if key in old(order) then [] else [key]
      ensures forall x: nat :: Times(x) == old(Times(x)) + if x == key then 1 else 0
    {
      Insert(key);
      count := count[key := count[key] + 1];
    }

    /** Takes the element out of the list. If it was the last one, nothing may be inserted afterwards. */
    method Erase(key: nat)
      requires Valid() && key in order
      modifies this
      ensures Valid() && range == old(range) && forall x: nat :: Times(x) == if x == key then 0 else old(Times(x))
      ensures old(TailKnown()) ==> (TailKnown() <==> key != old(Last(order)))
    {
      ghost var k :| 0 <= k < |order| && order[k] == key;
      ErasedFollows(links, order, k);
      WithoutHas(order, k);
      PathWithout(order, k);
      links := Erased(links, key);
      order, size, count := Without(order, k), size - 1, count - {key};
    }

    /** Sets how often the key is in the set. */
    method Init(key: nat, n: nat)
      requires Valid() && key < range && (n > 0 && key !in order ==> TailKnown())
      modifies this
      ensures Valid() && range == old(range) && forall x: nat :: Times(x) == if x == key then n else old(Times(x))
    {
      if n > 0 {
        Insert(key);
        count := count[key := n];
      } else if Item(key) in links.prev {
        Erase(key);
      }
    }

    /** Takes the key out once, if it is in the set. */
    method Remove(key: nat)
      requires Valid() && key < range
      modifies this
      ensures Valid() && range == old(range)
      ensures forall x: nat :: Times(x) == if x == key && old(Times(x)) > 0 then old(Times(x)) - 1 else old(Times(x))
    {
      if Item(key) in links.prev {
        RemoveStrict(key);
      }
    }

    /** Takes the key, which is in the set, out once. */
    method RemoveStrict(key: nat)
      requires Valid() && Times(key) > 0
      modifies this
      ensures Valid() && range == old(range) && forall x: nat :: Times(x) == if x == key then old(Times(x)) - 1 else old(Times(x))
    {
      if count[key] == 1 {
        Erase(key);
      } else {
        count := count[key := count[key] - 1];
      }
    }

    /** Takes everything out, after which elements may be inserted again. */
    method Clear()
      requires Valid()
      modifies this
      ensures Valid() && TailKnown() && range == old(range) && size == 0 && order == []
    {
      ghost var k: nat := 0;
      FirstOf(links, order);
      var el := links.next[Head];
      var prev := links.prev;
      while el != Nil
        invariant Valid() && links == old(links) && order == old(order) && range == old(range)
        invariant k <= |order| && el == if k < |order| then Item(order[k]) else Nil
        invariant forall key: nat :: Item(key) in prev <==> key in order[k..]
        decreases |order| - k
      {
        Neighbours(links, order, k);
        StepOver(order, k);
        prev := prev - {el};
        el := links.next[el];
        k := k + 1;
      }
      links, last, size, count, order := Links(map[Head := Nil], prev), Head, 0, map[], [];
      assert Path(order) == [Head];
    }

    /** The elements of another set, once each. */
    method AssignFlat(s: SmartSet)
      requires Valid() && s.Valid() && s != this
      modifies this
      ensures Valid() && TailKnown() && range == s.range && order == s.order
      ensures forall x: nat :: Times(x) == if s.Times(x) > 0 then 1 else 0
    {
      Clear();
      range := s.range;
      ghost var k: nat := 0;
      FirstOf(s.links, s.order);
      var el := s.links.next[Head];
      while el != Nil
        invariant Linked() && TailKnown() && range == s.range && k <= |s.order| && order == s.order[..k]
        invariant forall x :: x in order ==> count[x] == 1
        invariant el == if k < |s.order| then Item(s.order[k]) else Nil
        decreases |s.order| - k
      {
        Neighbours(s.links, s.order, k);
        assert s.order[k] in s.order && s.order[k] !in s.order[..k] && s.order[..k + 1] == s.order[..k] + [s.order[k]];
        Append(el.key, 1);
        el := s.links.next[el];
        k := k + 1;
      }
      assert s.order[..k] == s.order;
    }
  }

  lemma FirstOf(L: Links<Node>, order: seq<nat>)
    requires Follows(L, order)
    ensures Head in L.next && L.next[Head] == if order == [] then Nil else Item(order[0])
  {
    assert Joined(L, Path(order), 0);
  }

  lemma StepOver(order: seq<nat>, k: nat)
    requires NoDup(order) && k < |order|
    ensures forall key: nat :: key in order[k + 1..] <==> key in order[k..] && key != order[k]
  {
    assert order[k..] == [order[k]] + order[k + 1..];
  }
}
