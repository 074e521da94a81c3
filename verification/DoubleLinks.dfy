/** Doubly linked lists as pairs of next and previous links between nodes. */
module DoubleLinks {
  import opened Collections

  datatype Links<N> = Links(next: map<N, N>, prev: map<N, N>)

  /** Makes b the successor of a. */
  function Link<N>(L: Links<N>, a: N, b: N): Links<N> {
    Links(L.next[a := b], L.prev[b := a])
  }

  predicate Linked<N(==)>(L: Links<N>, a: N, b: N) {
    a in L.next && L.next[a] == b && b in L.prev && L.prev[b] == a
  }

  ghost predicate Joined<N(!new)>(L: Links<N>, p: seq<N>, k: int) {
    0 <= k < |p| - 1 ==> Linked(L, p[k], p[k + 1])
  }

  /** Each node of p is linked to the one after it. */
  ghost predicate Chain<N(!new)>(L: Links<N>, p: seq<N>) {
    forall k {:trigger Joined(L, p, k)} :: Joined(L, p, k)
  }

  /** Links that do not start or end in a chain leave it as it is. */
  lemma ChainStays<N(!new)>(L: Links<N>, p: seq<N>, a: N, b: N)
    requires Chain(L, p) && (a !in p || a == Last(p)) && (b !in p || b == p[0]) && NoDup(p)
    ensures Chain(Link(L, a, b), p)
  {
    forall k ensures Joined(Link(L, a, b), p, k) {
      assert Joined(L, p, k);
    }
  }

  lemma ChainApart<N(!new)>(L: Links<N>, p: seq<N>, a: N, b: N)
    requires Chain(L, p) && a !in p && b !in p
    ensures Chain(Link(L, a, b), p)
  {
    forall k ensures Joined(Link(L, a, b), p, k) {
      assert Joined(L, p, k);
    }
  }

  lemma JoinChains<N(!new)>(L: Links<N>, p: seq<N>, q: seq<N>)
    requires Chain(L, p) && Chain(L, q) && p != [] && q != [] && Linked(L, Last(p), q[0])
    ensures Chain(L, p + q)
  {
    forall k ensures Joined(L, p + q, k) {
      assert Joined(L, p, k) && Joined(L, q, k - |p|);
    }
  }

  lemma PartOfChain<N(!new)>(L: Links<N>, p: seq<N>, i: nat, j: nat)
    requires Chain(L, p) && i <= j <= |p|
    ensures Chain(L, p[i..j])
  {
    forall k ensures Joined(L, p[i..j], k) {
      assert Joined(L, p, k + i);
    }
  }

  function Last<N>(p: seq<N>): N
    requires p != []
  {
    p[|p| - 1]
  }

  /** A node put after the end of a chain. */
  lemma Extended<N(!new)>(L: Links<N>, p: seq<N>, b: N)
    requires Chain(L, p) && NoDup(p) && p != [] && b !in p
    ensures Chain(Link(L, Last(p), b), p + [b])
  {
    ChainStays(L, p, Last(p), b);
    JoinChains(Link(L, Last(p), b), p, [b]);
  }

  /** Linking the neighbours of a node takes it out of its chain. */
  lemma Shortened<N(!new)>(L: Links<N>, p: seq<N>, k: nat)
    requires Chain(L, p) && NoDup(p) && 0 < k < |p| - 1
    ensures Linked(L, p[k - 1], p[k]) && Linked(L, p[k], p[k + 1])
    ensures Chain(Link(L, p[k - 1], p[k + 1]), p[..k] + p[k + 1..])
  {
    assert Joined(L, p, k - 1) && Joined(L, p, k);
    var q, r, L' := p[0..k], p[k + 1..|p|], Link(L, p[k - 1], p[k + 1]);
    PartOfChain(L, p, 0, k);
    PartOfChain(L, p, k + 1, |p|);
    ChainStays(L, q, p[k - 1], p[k + 1]);
    ChainStays(L, r, p[k - 1], p[k + 1]);
    JoinChains(L', q, r);
    assert p[..k] + p[k + 1..] == q + r;
  }
}
