/** Lists of states that share their tails. */
module SharedList {
  import opened Collections

  type Id = nat

  /** A part of a list, the rest of it, and the number of references to this element. */
  datatype Elem = Elem(rest: Option<Id>, subList: seq<nat>, refCount: nat)

  type Heap = map<Id, Elem>

  /** Rests are older than the lists that continue with them. */
  ghost predicate Linked(h: Heap) {
    forall id {:trigger h[id].rest} :: id in h && h[id].rest.Some? ==> h[id].rest.value in h && h[id].rest.value < id
  }

  /** What an iterator over the list meets. */
  ghost function Content(h: Heap, list: Option<Id>): seq<nat>
    requires Linked(h) && (list.Some? ==> list.value in h)
    decreases if list.None? then 0 else list.value + 1
  {
    if list.None? then [] else h[list.value].subList + Content(h, h[list.value].rest)
  }

  ghost function Users(h: Heap, id: Id): set<Id> {
    set p | p in h && h[p].rest == Some(id)
  }

  ghost predicate CountIs(h: Heap, heads: multiset<Id>, id: Id)
    requires id in h
  {
    h[id].refCount == |Users(h, id)| + heads[id] && h[id].refCount > 0
  }

  /** Every count is the number of elements that continue with it and of lists that start with it;
      what nobody refers to is not kept. */
  ghost predicate Ok(h: Heap, heads: multiset<Id>, next: Id) {
    && Linked(h) && (forall id {:trigger CountIs(h, heads, id)} :: id in h ==> CountIs(h, heads, id))
    && (forall id :: id in heads ==> id in h) && (forall id :: id in h ==> id < next)
  }

  /** Lists that do not pass through an element do not notice what happens to it. */
  lemma {:induction false} ContentElsewhere(h: Heap, h': Heap, list: Option<Id>, id: Id)
    requires Linked(h) && Linked(h') && (list.Some? ==> list.value in h && list.value != id)
    requires Users(h, id) == {} && forall x :: x in h && x != id ==> x in h' && h'[x].rest == h[x].rest && h'[x].subList == h[x].subList
    ensures (list.Some? ==> list.value in h') && Content(h', list) == Content(h, list)
    decreases if list.None? then 0 else list.value + 1
  {
    if list.Some? {
      assert list.value !in Users(h, id);
      ContentElsewhere(h, h', h[list.value].rest, id);
    }
  }

  /** Counts do not matter for the content. */
  lemma {:induction false} ContentSame(h: Heap, h': Heap, list: Option<Id>)
    requires Linked(h) && Linked(h') && (list.Some? ==> list.value in h)
    requires forall x :: x in h ==> x in h' && h'[x].rest == h[x].rest && h'[x].subList == h[x].subList
    ensures (list.Some? ==> list.value in h') && Content(h', list) == Content(h, list)
    decreases if list.None? then 0 else list.value + 1
  {
    if list.Some? {
      ContentSame(h, h', h[list.value].rest);
    }
  }

  lemma UsersSame(h: Heap, h': Heap, id: Id)
    requires h'.Keys == h.Keys && forall x :: x in h ==> h'[x].rest == h[x].rest
    ensures Users(h', id) == Users(h, id)
  {
  }

  lemma UsersAdd(h: Heap, n: Id, e: Elem, id: Id)
    requires n !in h
    ensures |Users(h[n := e], id)| == |Users(h, id)| + if e.rest == Some(id) then 1 else 0
  {
    if e.rest == Some(id) {
      assert Users(h[n := e], id) == Users(h, id) + {n};
    } else {
      assert Users(h[n := e], id) == Users(h, id);
    }
  }

  lemma NoUsers(h: Heap, id: Id)
    requires Linked(h) && id !in h
    ensures Users(h, id) == {}
  {
    assert forall p :: p in h ==> h[p].rest != Some(id);
  }

  // ---------------------------------------------------------------- steps

  lemma NewElem(h: Heap, heads: multiset<Id>, next: Id, v: nat)
    requires Ok(h, heads, next)
    ensures Ok(h[next := Elem(None, [v], 1)], heads + multiset{next}, next + 1)
  {
    var h' := h[next := Elem(None, [v], 1)];
    NoUsers(h, next);
    forall id | id in h' ensures CountIs(h', heads + multiset{next}, id) {
      UsersAdd(h, next, Elem(None, [v], 1), id);
      assert id != next ==> CountIs(h, heads, id);
      assert next !in heads;
    }
  }

  /** A new element takes over the reference to a shared list, and continues with it. */
  lemma PrefixElem(h: Heap, heads: multiset<Id>, next: Id, list: Id, v: nat)
    requires Ok(h, heads, next) && list in heads
    ensures Ok(h[next := Elem(Some(list), [v], 1)], heads - multiset{list} + multiset{next}, next + 1)
  {
    var e := Elem(Some(list), [v], 1);
    var h' := h[next := e];
    NoUsers(h, next);
    assert next !in heads && list in h;
    forall id | id in h' ensures CountIs(h', heads - multiset{list} + multiset{next}, id) {
      UsersAdd(h, next, e, id);
      assert id != next ==> CountIs(h, heads, id);
    }
  }

  /** The content of an element, or its count together with the lists, changes. */
  lemma ChangedElem(h: Heap, heads: multiset<Id>, next: Id, id: Id, e: Elem, heads': multiset<Id>)
    requires Ok(h, heads, next) && id in h && e.rest == h[id].rest && e.refCount > 0
    requires e.refCount + heads[id] == h[id].refCount + heads'[id] && forall x :: x != id ==> heads'[x] == heads[x]
    ensures Ok(h[id := e], heads', next)
  {
    var h' := h[id := e];
    forall x | x in h' ensures CountIs(h', heads', x) {
      UsersSame(h, h', x);
      assert CountIs(h, heads, x);
    }
    forall x | x in heads' ensures x in h' {
      assert x != id ==> x in heads;
    }
  }

  /** The reference that an element gives up when it goes. */
  function RestHead(e: Elem): multiset<Id> {
    if e.rest.None? then multiset{} else multiset{e.rest.value}
  }

  lemma RemovedElem(h: Heap, heads: multiset<Id>, next: Id, id: Id)
    requires Ok(h, heads, next) && id in heads && id in h && h[id].refCount == 1
    ensures Ok(h - {id}, heads - multiset{id} + RestHead(h[id]), next) && Users(h, id) == {} && id !in heads - multiset{id} + RestHead(h[id])
  {
    var h' := h - {id};
    assert CountIs(h, heads, id);
    forall p | p in h ensures h[p].rest != Some(id) {
      assert p !in Users(h, id);
    }
    forall x | x in h' ensures CountIs(h', heads - multiset{id} + RestHead(h[id]), x) {
      UsersAdd(h', id, h[id], x);
      assert h'[id := h[id]] == h;
      assert CountIs(h, heads, x);
    }
  }

  // ---------------------------------------------------------------- what other lists notice

  /** The lists have the same content in both heaps. */
  ghost predicate SameContents(h: Heap, h': Heap, lists: multiset<Id>) {
    Linked(h) && Linked(h') && forall x {:trigger SameAt(h, h', x)} :: x in lists ==> SameAt(h, h', x)
  }

  ghost predicate SameAt(h: Heap, h': Heap, x: Id)
    requires Linked(h) && Linked(h')
  {
    x in h && x in h' && Content(h', Some(x)) == Content(h, Some(x))
  }

  lemma SameContentsTrans(h: Heap, h1: Heap, h2: Heap, lists: multiset<Id>)
    requires SameContents(h, h1, lists) && SameContents(h1, h2, lists)
    ensures SameContents(h, h2, lists)
  {
    forall x | x in lists ensures SameAt(h, h2, x) {
      assert SameAt(h, h1, x) && SameAt(h1, h2, x);
    }
  }

  lemma ChangedCount(h: Heap, heads: multiset<Id>, next: Id, id: Id, count: nat, heads': multiset<Id>)
    requires Ok(h, heads, next) && id in h && count > 0
    requires count + heads[id] == h[id].refCount + heads'[id] && forall x :: x != id ==> heads'[x] == heads[x]
    ensures Ok(h[id := h[id].(refCount := count)], heads', next) && SameContents(h, h[id := h[id].(refCount := count)], heads')
  {
    var h' := h[id := h[id].(refCount := count)];
    ChangedElem(h, heads, next, id, h[id].(refCount := count), heads');
    forall x | x in heads' ensures SameAt(h, h', x) {
      ContentSame(h, h', Some(x));
    }
  }

  lemma GrownContents(h: Heap, h': Heap, lists: multiset<Id>)
    requires Linked(h) && Linked(h') && (forall x :: x in h ==> x in h' && h'[x] == h[x]) && forall x :: x in lists ==> x in h
    ensures SameContents(h, h', lists)
  {
    forall x | x in lists ensures SameAt(h, h', x) {
      ContentSame(h, h', Some(x));
    }
  }

  /** A list that nobody else refers to can be written. */
  lemma WrittenElem(h: Heap, heads: multiset<Id>, next: Id, id: Id, v: nat)
    requires Ok(h, heads, next) && id in heads && id in h && h[id].refCount <= 1
    ensures Ok(h[id := h[id].(subList := h[id].subList + [v])], heads, next)
    ensures SameContents(h, h[id := h[id].(subList := h[id].subList + [v])], heads - multiset{id})
    ensures multiset(Content(h[id := h[id].(subList := h[id].subList + [v])], Some(id))) == multiset(Content(h, Some(id))) + multiset{v}
  {
    var e := h[id].(subList := h[id].subList + [v]);
    var h' := h[id := e];
    assert CountIs(h, heads, id);
    ChangedElem(h, heads, next, id, e, heads);
    assert Users(h, id) == {};
    forall x | x in heads - multiset{id} ensures SameAt(h, h', x) {
      ContentElsewhere(h, h', Some(x), id);
    }
    if h[id].rest.Some? { assert h[id].rest.value != id; }
    ContentElsewhere(h, h', h[id].rest, id);
    var rest := Content(h, h[id].rest);
    assert Content(h', Some(id)) == h[id].subList + [v] + rest && Content(h, Some(id)) == h[id].subList + rest;
  }

  lemma NewContent(h: Heap, h': Heap, list: Option<Id>, n: Id, v: nat)
    requires Linked(h) && Linked(h') && n !in h && h' == h[n := Elem(list, [v], 1)] && (list.Some? ==> list.value in h)
    ensures Content(h', Some(n)) == [v] + Content(h, list)
  {
    ContentSame(h, h', list);
  }

  lemma RemovedContents(h: Heap, heads: multiset<Id>, next: Id, id: Id, others: multiset<Id>)
    requires Ok(h, heads, next) && id in h && h[id].refCount == 1 && heads == others + multiset{id}
    ensures Ok(h - {id}, others + RestHead(h[id]), next) && SameContents(h, h - {id}, others)
  {
    RemovedElem(h, heads, next, id);
    assert heads - multiset{id} + RestHead(h[id]) == others + RestHead(h[id]);
    forall x | x in others ensures SameAt(h, h - {id}, x) {
      assert x in heads;
      ContentElsewhere(h, h - {id}, Some(x), id);
    }
  }

  // ---------------------------------------------------------------- the lists

  class SharedLists {
    var elems: Heap
    var next: Id
    ghost var heads: multiset<Id>

    ghost predicate Valid()
      reads this
    {
      Ok(elems, heads, next)
    }

    constructor ()
      ensures Valid() && heads == multiset{}
    {
      elems, next, heads := map[], 0, multiset{};
    }

    /** A list of one value. */
    method NewList(v: nat) returns (list: Id)
      requires Valid()
      modifies this
      ensures Valid() && list in elems && heads == old(heads) + multiset{list}
      ensures Content(elems, Some(list)) == [v] && SameContents(old(elems), elems, old(heads))
    {
      ghost var h := elems;
      NewElem(elems, heads, next, v);
      list := next;
      elems := elems[list := Elem(None, [v], 1)];
      GrownContents(h, elems, heads);
      NewContent(h, elems, None, list, v);
      heads, next := heads + multiset{list}, next + 1;
    }

    /** Adds a value to the list; a shared list is not written but continued. No other list changes. */
    method AppendTo(list: Id, v: nat) returns (list': Id)
      requires Valid() && list in heads && list in elems
      modifies this
      ensures Valid() && list' in elems && heads == old(heads) - multiset{list} + multiset{list'}
      ensures multiset(Content(elems, Some(list'))) == multiset(old(Content(elems, Some(list)))) + multiset{v}
      ensures SameContents(old(elems), elems, old(heads) - multiset{list})
    {
      if elems[list].refCount > 1 {
        list' := ContinueWith(list, v);
      } else {
        WrittenElem(elems, heads, next, list, v);
        list' := list;
        elems := elems[list := elems[list].(subList := elems[list].subList + [v])];
        assert heads == heads - multiset{list} + multiset{list};
      }
    }

    /** A new element in front of the list. */
    method ContinueWith(list: Id, v: nat) returns (list': Id)
      requires Valid() && list in heads && list in elems
      modifies this
      ensures Valid() && list' in elems && heads == old(heads) - multiset{list} + multiset{list'}
      ensures Content(elems, Some(list')) == [v] + old(Content(elems, Some(list)))
      ensures SameContents(old(elems), elems, old(heads) - multiset{list})
    {
      ghost var h := elems;
      PrefixElem(elems, heads, next, list, v);
      list' := next;
      elems := elems[list' := Elem(Some(list), [v], 1)];
      GrownContents(h, elems, heads - multiset{list});
      NewContent(h, elems, Some(list), list', v);
      heads, next := heads - multiset{list} + multiset{list'}, next + 1;
    }

    /** Adds a value; tells whether the list is new. */
    method Append(list: Option<Id>, v: nat) returns (list': Id, isNew: bool)
      requires Valid() && (list.Some? ==> list.value in heads && list.value in elems)
      modifies this
      ensures Valid() && isNew == list.None? && list' in elems
      ensures heads == (if list.None? then old(heads) else old(heads) - multiset{list.value}) + multiset{list'}
      ensures multiset(Content(elems, Some(list'))) == multiset(old(Content(elems, list))) + multiset{v}
      ensures SameContents(old(elems), elems, if list.None? then old(heads) else old(heads) - multiset{list.value})
    {
      isNew := list.None?;
      if isNew {
        list' := NewList(v);
      } else {
        list' := AppendTo(list.value, v);
      }
    }

    /** Another reference to the list. */
    method Copy(list: Id) returns (copy: Id)
      requires Valid() && list in heads && list in elems
      modifies this
      ensures Valid() && copy == list && heads == old(heads) + multiset{list}
      ensures SameContents(old(elems), elems, heads)
    {
      ChangedCount(elems, heads, next, list, elems[list].refCount + 1, heads + multiset{list});
      elems := elems[list := elems[list].(refCount := elems[list].refCount + 1)];
      heads := heads + multiset{list};
      copy := list;
    }

    /** Gives the list up: its elements go, up to the first that is shared. No other list changes. */
    method UnsafeRelease(list: Id)
      requires Valid() && list in heads && list in elems
      modifies this
      ensures Valid() && heads == old(heads) - multiset{list} && SameContents(old(elems), elems, heads)
    {
      ghost var others, h := heads - multiset{list}, elems;
      var elem := Some(list);
      GrownContents(h, h, others);
      while elem.Some? && elems[elem.value].refCount == 1
        invariant Valid() && SameContents(h, elems, others)
        invariant (elem.Some? ==> elem.value in elems) && heads == others + Head(elem)
        decreases if elem.Some? then elem.value + 1 else 0
      {
        ghost var h1 := elems;
        elem := DropElem(elem.value, others);
        SameContentsTrans(h, h1, elems, others);
      }
      if elem.Some? {
        ghost var h1 := elems;
        DropReference(elem.value, others);
        SameContentsTrans(h, h1, elems, others);
      }
    }

    /** One element goes, and its reference to the rest is taken over. */
    method DropElem(id: Id, ghost others: multiset<Id>) returns (rest: Option<Id>)
      requires Valid() && id in elems && elems[id].refCount == 1 && heads == others + multiset{id}
      modifies this
      ensures Valid() && (rest.Some? ==> rest.value in elems && rest.value < id) && heads == others + Head(rest)
      ensures SameContents(old(elems), elems, others)
    {
      RemovedContents(elems, heads, next, id, others);
      rest := elems[id].rest;
      heads := others + RestHead(elems[id]);
      elems := elems - {id};
    }

    method DropReference(id: Id, ghost others: multiset<Id>)
      requires Valid() && id in elems && elems[id].refCount != 1 && heads == others + multiset{id}
      modifies this
      ensures Valid() && heads == others && SameContents(old(elems), elems, others)
    {
      assert CountIs(elems, heads, id);
      ChangedCount(elems, heads, next, id, elems[id].refCount - 1, others);
      elems := elems[id := elems[id].(refCount := elems[id].refCount - 1)];
      heads := others;
    }
  }

  ghost function Head(list: Option<Id>): multiset<Id> {
    if list.None? then multiset{} else multiset{list.value}
  }
}
