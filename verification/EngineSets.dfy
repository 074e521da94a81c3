/** The counted label sets and the shared lists of the simulation engine stand for the insets and
    the pending lists of a configuration. */
module EngineSets {
  import opened Collections
  import opened Lts
  import opened LtsConfig
  import SL = SharedList
  import SS = SmartSets

  // ---------------------------------------------------------------- the label sets

  ghost predicate InsetStands(s: SS.SmartSet, inset: multiset<nat>)
    reads s
  {
    forall a: nat {:trigger s.Times(a)} :: s.Times(a) == inset[a]
  }

  method MoveLabel(a: nat, from: SS.SmartSet, to: SS.SmartSet)
    requires from != to && from.Valid() && to.Valid() && to.TailKnown() && from.range == to.range && a < from.range && from.Times(a) > 0
    modifies from, to
    ensures from.Valid() && to.Valid() && to.TailKnown() && from.range == to.range == old(from.range)
    ensures forall x: nat {:trigger from.Times(x)} :: from.Times(x) == old(from.Times(x)) - if x == a then 1 else 0
    ensures forall x: nat {:trigger to.Times(x)} :: to.Times(x) == old(to.Times(x)) + if x == a then 1 else 0
  {
    from.RemoveStrict(a);
    to.Add(a);
  }

  /** Moves the labels under which state q is entered from one set to the other. */
  method MoveState(l: Lts, q: nat, from: SS.SmartSet, to: SS.SmartSet)
    requires l.Valid() && q < l.states && from != to && from.Valid() && to.Valid() && to.TailKnown()
    requires from.range == to.range == |l.pre| && forall a: nat :: Entry(l, a, q) <= from.Times(a)
    modifies from, to
    ensures from.Valid() && to.Valid() && to.TailKnown() && from.range == to.range == |l.pre|
    ensures forall a: nat :: from.Times(a) == old(from.Times(a)) - Entry(l, a, q)
    ensures forall a: nat :: to.Times(a) == old(to.Times(a)) + Entry(l, a, q)
  {
    for a := 0 to |l.pre|
      invariant from.Valid() && to.Valid() && to.TailKnown() && from.range == to.range == |l.pre|
      invariant forall x: nat {:trigger from.Times(x)} :: from.Times(x) == old(from.Times(x)) - if x < a then Entry(l, x, q) else 0
      invariant forall x: nat {:trigger to.Times(x)} :: to.Times(x) == old(to.Times(x)) + if x < a then Entry(l, x, q) else 0
    {
      assert Entry(l, a, q) == if l.pre[a][q] != [] then 1 else 0;
      if l.pre[a][q] != [] {
        MoveLabel(a, from, to);
      }
    }
  }

  lemma EnteredPart(l: Lts, a: nat, states: seq<nat>, i: nat)
    requires NoDup(states) && i < |states|
    ensures |Entered(l, a, states[..i])| + Entry(l, a, states[i]) <= |Entered(l, a, states)|
  {
    EnteredStep(l, a, states, i);
    SubsetSize(Entered(l, a, states[..i + 1]), Entered(l, a, states));
  }

  /** Moves the labels under which the given states are entered. */
  method MoveLabels(l: Lts, states: seq<nat>, from: SS.SmartSet, to: SS.SmartSet)
    requires l.Valid() && NoDup(states) && (forall q :: q in states ==> q < l.states)
    requires from != to && from.Valid() && to.Valid() && to.TailKnown() && from.range == to.range == |l.pre|
    requires forall a: nat :: |Entered(l, a, states)| <= from.Times(a)
    modifies from, to
    ensures from.Valid() && to.Valid() && to.TailKnown() && from.range == to.range == |l.pre|
    ensures forall a: nat :: from.Times(a) == old(from.Times(a)) - |Entered(l, a, states)|
    ensures forall a: nat :: to.Times(a) == old(to.Times(a)) + |Entered(l, a, states)|
  {
    for i := 0 to |states|
      invariant from.Valid() && to.Valid() && to.TailKnown() && from.range == to.range == |l.pre|
      invariant forall a: nat :: from.Times(a) == old(from.Times(a)) - |Entered(l, a, states[..i])|
      invariant forall a: nat :: to.Times(a) == old(to.Times(a)) + |Entered(l, a, states[..i])|
    {
      forall a: nat ensures |Entered(l, a, states[..i + 1])| == |Entered(l, a, states[..i])| + Entry(l, a, states[i]) {
        EnteredStep(l, a, states, i);
      }
      forall a: nat ensures Entry(l, a, states[i]) <= from.Times(a) {
        EnteredPart(l, a, states, i);
      }
      assert states[i] in states;
      MoveState(l, states[i], from, to);
    }
    assert states[..|states|] == states;
  }

  /** The label set of a new block takes over from that of its parent what the configuration says. */
  method SplitInset(l: Lts, from: SS.SmartSet, moved: seq<nat>, ghost whole: Block, ghost kept: Block,
          ghost part: Block) returns (to: SS.SmartSet)
    requires l.Valid() && from.Valid() && from.range == |l.pre| && InsetStands(from, whole.inset)
    requires InsetOf(l, whole) && InsetOf(l, kept) && InsetOf(l, part) && part.states == moved
    requires Shares(whole.states, kept.states, moved) && forall q :: q in moved ==> q < l.states
    modifies from
    ensures fresh(to) && from.Valid() && to.Valid() && from.range == to.range == |l.pre|
    ensures InsetStands(from, kept.inset) && InsetStands(to, part.inset)
  {
    to := new SS.SmartSet(|l.pre|);
    forall a: nat ensures whole.inset[a] == kept.inset[a] + part.inset[a] && part.inset[a] == |Entered(l, a, moved)| {
      EnteredSplit(l, a, whole.states, kept.states, moved);
    }
    MoveLabels(l, moved, from, to);
  }

  // ---------------------------------------------------------------- the pending lists

  /** The first element of the list that is pending for a block and a label. */
  type Pending = map<(nat, nat), SL.Id>

  /** The list that the running step has taken, and the states in it. */
  type InHand = Option<(SL.Id, seq<nat>)>

  ghost function Holders(pending: Pending, id: SL.Id): set<(nat, nat)> {
    set k | k in pending && pending[k] == id
  }

  ghost function Hand(taken: InHand, id: SL.Id): nat {
    if taken.Some? && taken.value.0 == id then 1 else 0
  }

  /** The references to the lists are those of the blocks, and that of the running step. */
  ghost predicate Held(heads: multiset<SL.Id>, pending: Pending, taken: InHand) {
    forall id: SL.Id {:trigger heads[id]} :: heads[id] == |Holders(pending, id)| + Hand(taken, id)
  }

  ghost predicate StandsFor(h: SL.Heap, id: SL.Id, list: seq<nat>) {
    SL.Linked(h) && id in h && multiset(SL.Content(h, Some(id))) == multiset(list)
  }

  predicate IsPending(blocks: seq<Block>, k: (nat, nat)) {
    k.0 < |blocks| && k.1 in blocks[k.0].remove
  }

  function ListOf(blocks: seq<Block>, k: (nat, nat)): seq<nat>
    requires IsPending(blocks, k)
  {
    blocks[k.0].remove[k.1]
  }

  ghost predicate Contents(h: SL.Heap, pending: Pending, blocks: seq<Block>, taken: InHand) {
    && (forall k {:trigger IsPending(blocks, k)} {:trigger k in pending} :: k in pending <==> IsPending(blocks, k))
    && (forall k {:trigger pending[k]} :: k in pending ==> StandsFor(h, pending[k], ListOf(blocks, k)))
    && (taken.Some? ==> StandsFor(h, taken.value.0, taken.value.1))
  }

  /** The shared lists hold the pending lists of all blocks. */
  ghost predicate ListsStand(S: SL.SharedLists, pending: Pending, blocks: seq<Block>, taken: InHand)
    reads S
  {
    S.Valid() && Held(S.heads, pending, taken) && Contents(S.elems, pending, blocks, taken)
  }

  lemma HoldersSet(pending: Pending, k: (nat, nat), id: SL.Id, x: SL.Id)
    ensures |Holders(pending[k := id], x)| + (if k in pending && pending[k] == x then 1 else 0)
         == |Holders(pending, x)| + if x == id then 1 else 0
  {
    var rest := Holders(pending, x) - {k};
    if k in pending && pending[k] == x {
      assert Holders(pending, x) == rest + {k};
    } else {
      assert Holders(pending, x) == rest;
    }
    if x == id {
      assert Holders(pending[k := id], x) == rest + {k};
    } else {
      assert Holders(pending[k := id], x) == rest;
    }
  }

  /** The references without that of k. */
  function Without(heads: multiset<SL.Id>, pending: Pending, k: (nat, nat)): multiset<SL.Id> {
    if k in pending then heads - multiset{pending[k]} else heads
  }

  lemma HeldSet(heads: multiset<SL.Id>, pending: Pending, taken: InHand, k: (nat, nat), id: SL.Id)
    requires Held(heads, pending, taken)
    ensures Held(Without(heads, pending, k) + multiset{id}, pending[k := id], taken)
  {
    AllHeld(heads, pending, taken);
    forall x: SL.Id
      ensures (Without(heads, pending, k) + multiset{id})[x] == |Holders(pending[k := id], x)| + Hand(taken, x)
    {
      HoldersSet(pending, k, id, x);
      assert heads[x] == |Holders(pending, x)| + Hand(taken, x);
    }
  }

  /** The lists of the others are referred to besides that of k. */
  lemma OthersHeld(heads: multiset<SL.Id>, pending: Pending, taken: InHand, k: (nat, nat))
    requires Held(heads, pending, taken)
    ensures forall m :: m in pending && m != k ==> pending[m] in Without(heads, pending, k)
    ensures taken.Some? ==> taken.value.0 in Without(heads, pending, k)
  {
    AllHeld(heads, pending, taken);
    forall m | m in pending && m != k ensures pending[m] in Without(heads, pending, k) {
      if k in pending && pending[m] == pending[k] {
        assert heads[pending[m]] == |Holders(pending, pending[m])| + Hand(taken, pending[m]);
        SubsetSize({k, m}, Holders(pending, pending[k]));
      }
    }
    if taken.Some? && k in pending && pending[k] == taken.value.0 {
      assert heads[pending[k]] == |Holders(pending, pending[k])| + Hand(taken, pending[k]);
      assert k in Holders(pending, pending[k]);
    }
  }

  lemma AllHeld(heads: multiset<SL.Id>, pending: Pending, taken: InHand)
    requires Held(heads, pending, taken)
    ensures forall m :: m in pending ==> pending[m] in heads
    ensures taken.Some? ==> taken.value.0 in heads
  {
    forall m | m in pending ensures pending[m] in heads {
      assert heads[pending[m]] == |Holders(pending, pending[m])| + Hand(taken, pending[m]);
      assert m in Holders(pending, pending[m]);
    }
    if taken.Some? {
      assert heads[taken.value.0] == |Holders(pending, taken.value.0)| + Hand(taken, taken.value.0);
    }
  }

  lemma StandsStill(h: SL.Heap, h': SL.Heap, lists: multiset<SL.Id>, id: SL.Id, list: seq<nat>)
    requires SL.SameContents(h, h', lists) && id in lists && StandsFor(h, id, list)
    ensures StandsFor(h', id, list)
  {
    assert SL.SameAt(h, h', id);
  }

  /** The blocks with another list pending at k. */
  function WithList(blocks: seq<Block>, k: (nat, nat), list: seq<nat>): seq<Block>
    requires k.0 < |blocks|
  {
    blocks[k.0 := blocks[k.0].(remove := blocks[k.0].remove[k.1 := list])]
  }

  /** The list pending at k after state q has been added. */
  function Longer(blocks: seq<Block>, k: (nat, nat), q: nat): seq<nat>
    requires k.0 < |blocks|
  {
    if IsPending(blocks, k) then ListOf(blocks, k) + [q] else [q]
  }

  /** All lists but that of k are as they were. */
  lemma OthersStand(h: SL.Heap, h': SL.Heap, pending: Pending, blocks: seq<Block>, taken: InHand, lists: multiset<SL.Id>,
          k: (nat, nat))
    requires Contents(h, pending, blocks, taken) && SL.SameContents(h, h', lists)
    requires forall m :: m in pending && m != k ==> pending[m] in lists
    requires taken.Some? ==> taken.value.0 in lists
    ensures forall m {:trigger pending[m]} :: m in pending && m != k ==> StandsFor(h', pending[m], ListOf(blocks, m))
    ensures taken.Some? ==> StandsFor(h', taken.value.0, taken.value.1)
  {
    forall m | m in pending && m != k ensures StandsFor(h', pending[m], ListOf(blocks, m)) {
      StandsStill(h, h', lists, pending[m], ListOf(blocks, m));
    }
    if taken.Some? { StandsStill(h, h', lists, taken.value.0, taken.value.1); }
  }

  lemma SetStands(h: SL.Heap, h': SL.Heap, pending: Pending, blocks: seq<Block>, taken: InHand, lists: multiset<SL.Id>,
          k: (nat, nat), id: SL.Id, list: seq<nat>)
    requires Contents(h, pending, blocks, taken) && SL.SameContents(h, h', lists) && k.0 < |blocks|
    requires forall m :: m in pending && m != k ==> pending[m] in lists
    requires taken.Some? ==> taken.value.0 in lists
    requires StandsFor(h', id, list)
    ensures Contents(h', pending[k := id], WithList(blocks, k, list), taken)
  {
    OthersStand(h, h', pending, blocks, taken, lists, k);
    var pending', blocks' := pending[k := id], WithList(blocks, k, list);
    forall m ensures m in pending' <==> IsPending(blocks', m) {
      WithListHas(blocks, k, list, m);
    }
    forall m | m in pending' ensures StandsFor(h', pending'[m], ListOf(blocks', m)) {
      WithListHas(blocks, k, list, m);
      if m != k { assert StandsFor(h', pending[m], ListOf(blocks, m)); }
    }
  }

  lemma WithListHas(blocks: seq<Block>, k: (nat, nat), list: seq<nat>, m: (nat, nat))
    requires k.0 < |blocks|
    ensures IsPending(WithList(blocks, k, list), m) <==> m == k || IsPending(blocks, m)
    ensures IsPending(WithList(blocks, k, list), m) ==>
              ListOf(WithList(blocks, k, list), m) == if m == k then list else ListOf(blocks, m)
  {
  }

  /** Adds a state to the list of block b and label a; no other list changes, also none that was
      shared with it. */
  method Enqueue(S: SL.SharedLists, pending: Pending, b: nat, a: nat, q: nat, ghost blocks: seq<Block>,
          ghost taken: InHand) returns (pending': Pending, isNew: bool)
    requires ListsStand(S, pending, blocks, taken) && b < |blocks|
    modifies S
    ensures ListsStand(S, pending', WithList(blocks, (b, a), Longer(blocks, (b, a), q)), taken)
    ensures isNew == !IsPending(blocks, (b, a))
  {
    ghost var h, heads, k := S.elems, S.heads, (b, a);
    AllHeld(heads, pending, taken);
    OthersHeld(heads, pending, taken, k);
    assert k in pending <==> IsPending(blocks, k);
    var list' := 0;
    list', isNew := S.Append(if (b, a) in pending then Some(pending[(b, a)]) else None, q);
    pending' := pending[(b, a) := list'];
    HeldSet(heads, pending, taken, k, list');
    SetStands(h, S.elems, pending, blocks, taken, Without(heads, pending, k), k, list', Longer(blocks, k, q));
  }

  /** Block n takes the list of block b and label a over, without copying its elements. */
  method CopyList(S: SL.SharedLists, pending: Pending, b: nat, a: nat, n: nat, ghost blocks: seq<Block>, ghost taken: InHand)
    returns (pending': Pending)
    requires ListsStand(S, pending, blocks, taken) && (b, a) in pending && n < |blocks| && (n, a) !in pending
    modifies S
    ensures IsPending(blocks, (b, a)) && ListsStand(S, pending', WithList(blocks, (n, a), ListOf(blocks, (b, a))), taken)
    ensures pending'.Keys == pending.Keys + {(n, a)}
  {
    ghost var h, heads, k := S.elems, S.heads, (n, a);
    AllHeld(heads, pending, taken);
    assert IsPending(blocks, (b, a)) && StandsFor(h, pending[(b, a)], ListOf(blocks, (b, a)));
    var copy := S.Copy(pending[(b, a)]);
    pending' := pending[(n, a) := copy];
    HeldSet(heads, pending, taken, k, copy);
    StandsStill(h, S.elems, S.heads, copy, ListOf(blocks, (b, a)));
    SetStands(h, S.elems, pending, blocks, taken, S.heads, k, copy, ListOf(blocks, (b, a)));
  }

  /** The lists under the given labels. */
  function Inherited(lists: map<nat, seq<nat>>, labels: seq<nat>): map<nat, seq<nat>> {
    map a | a in lists && a in labels :: lists[a]
  }

  lemma InheritedStep(lists: map<nat, seq<nat>>, labels: seq<nat>, i: nat)
    requires i < |labels|
    ensures Inherited(lists, labels[..i + 1]) ==
              if labels[i] in lists then Inherited(lists, labels[..i])[labels[i] := lists[labels[i]]] else Inherited(lists, labels[..i])
  {
    assert labels[..i + 1] == labels[..i] + [labels[i]];
  }

  function WithLists(blocks: seq<Block>, n: nat, lists: map<nat, seq<nat>>): seq<Block>
    requires n < |blocks|
  {
    blocks[n := blocks[n].(remove := lists)]
  }

  lemma InheritedNext(blocks: seq<Block>, b: nat, n: nat, labels: seq<nat>, i: nat)
    requires b < |blocks| && n < |blocks| && b != n && NoDup(labels) && i < |labels|
    ensures var now := WithLists(blocks, n, Inherited(blocks[b].remove, labels[..i]));
            && !IsPending(now, (n, labels[i]))
            && (IsPending(now, (b, labels[i])) <==> labels[i] in blocks[b].remove)
            && WithLists(blocks, n, Inherited(blocks[b].remove, labels[..i + 1])) ==
               if labels[i] in blocks[b].remove then WithList(now, (n, labels[i]), ListOf(now, (b, labels[i]))) else now
  {
    InheritedStep(blocks[b].remove, labels, i);
    assert labels[i] !in labels[..i];
  }

  /** The new block n takes over the lists of its own labels from block b. */
  method CopyLists(S: SL.SharedLists, pending: Pending, b: nat, n: nat, labels: seq<nat>, ghost blocks: seq<Block>,
          ghost taken: InHand) returns (pending': Pending)
    requires ListsStand(S, pending, blocks, taken) && b < |blocks| && n < |blocks| && b != n && blocks[n].remove == map[]
    requires NoDup(labels)
    modifies S
    ensures ListsStand(S, pending', WithLists(blocks, n, Inherited(blocks[b].remove, labels)), taken)
  {
    pending' := pending;
    ghost var lists := blocks[b].remove;
    assert Inherited(lists, labels[..0]) == map[];
    assert WithLists(blocks, n, Inherited(lists, labels[..0])) == blocks;
    for i := 0 to |labels|
      invariant ListsStand(S, pending', WithLists(blocks, n, Inherited(lists, labels[..i])), taken)
    {
      InheritedNext(blocks, b, n, labels, i);
      pending' := CopyNext(S, pending', b, labels[i], n, WithLists(blocks, n, Inherited(lists, labels[..i])), taken);
    }
    assert labels[..|labels|] == labels;
  }

  /** Block n takes the list of block b and label a over if there is one. */
  method CopyNext(S: SL.SharedLists, pending: Pending, b: nat, a: nat, n: nat, ghost blocks: seq<Block>, ghost taken: InHand)
    returns (pending': Pending)
    requires ListsStand(S, pending, blocks, taken) && n < |blocks| && !IsPending(blocks, (n, a))
    modifies S
    ensures ListsStand(S, pending', if IsPending(blocks, (b, a)) then WithList(blocks, (n, a), ListOf(blocks, (b, a))) else blocks, taken)
  {
    assert (b, a) in pending <==> IsPending(blocks, (b, a));
    assert (n, a) in pending <==> IsPending(blocks, (n, a));
    pending' := pending;
    if (b, a) in pending {
      pending' := CopyList(S, pending, b, a, n, blocks, taken);
    }
  }

  lemma HeldTaken(heads: multiset<SL.Id>, pending: Pending, k: (nat, nat), list: seq<nat>)
    requires Held(heads, pending, None) && k in pending
    ensures Held(heads, pending - {k}, Some((pending[k], list)))
  {
    forall x: SL.Id ensures heads[x] == |Holders(pending - {k}, x)| + Hand(Some((pending[k], list)), x) {
      assert heads[x] == |Holders(pending, x)|;
      if pending[k] == x {
        assert Holders(pending, x) == Holders(pending - {k}, x) + {k};
      } else {
        assert Holders(pending, x) == Holders(pending - {k}, x);
      }
    }
  }

  /** Takes the list of block b and label a: it is no longer pending, but still there. */
  method TakeList(S: SL.SharedLists, pending: Pending, b: nat, a: nat, ghost blocks: seq<Block>)
    returns (list: SL.Id, pending': Pending)
    requires ListsStand(S, pending, blocks, None) && (b, a) in pending
    ensures IsPending(blocks, (b, a))
    ensures ListsStand(S, pending', WithLists(blocks, b, blocks[b].remove - {a}), Some((list, blocks[b].remove[a])))
  {
    ghost var k := (b, a);
    assert IsPending(blocks, k) && StandsFor(S.elems, pending[k], ListOf(blocks, k));
    list, pending' := pending[(b, a)], pending - {(b, a)};
    HeldTaken(S.heads, pending, k, blocks[b].remove[a]);
    ghost var blocks' := WithLists(blocks, b, blocks[b].remove - {a});
    forall m ensures m in pending' <==> IsPending(blocks', m) {
      assert m in pending <==> IsPending(blocks, m);
    }
    forall m | m in pending' ensures StandsFor(S.elems, pending'[m], ListOf(blocks', m)) {
      assert pending'[m] == pending[m] && ListOf(blocks', m) == ListOf(blocks, m);
    }
  }

  /** Gives the taken list up; what is shared with pending lists stays. */
  method ReleaseList(S: SL.SharedLists, pending: Pending, list: SL.Id, ghost blocks: seq<Block>, ghost rem: seq<nat>)
    requires ListsStand(S, pending, blocks, Some((list, rem)))
    modifies S
    ensures ListsStand(S, pending, blocks, None)
  {
    ghost var h, heads, taken: InHand := S.elems, S.heads, Some((list, rem));
    AllHeld(heads, pending, taken);
    forall x: SL.Id ensures (heads - multiset{list})[x] == |Holders(pending, x)| + Hand(None, x) {
      assert heads[x] == |Holders(pending, x)| + Hand(taken, x);
    }
    S.UnsafeRelease(list);
    AllHeld(S.heads, pending, None);
    forall m | m in pending ensures StandsFor(S.elems, pending[m], ListOf(blocks, m)) {
      StandsStill(h, S.elems, S.heads, pending[m], ListOf(blocks, m));
    }
  }
}
