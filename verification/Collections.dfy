/** Facts about sequences without repetitions and about the sizes of sets. */
module Collections {

  datatype Option<T> = None | Some(value: T)

  ghost predicate NoDup<T>(s: seq<T>) {
    forall i, j :: 0 <= i < j < |s| ==> s[i] != s[j]
  }

  lemma NoDupAppend<T>(s: seq<T>, x: T)
    requires NoDup(s) && x !in s
    ensures NoDup(s + [x])
  {
  }

  function SetOf<T(!new)>(s: seq<T>): (r: set<T>)
    ensures forall x :: x in r <==> x in s
  {
    set x | x in s
  }

  lemma {:induction false} NoDupCard<T(!new)>(s: seq<T>)
    requires NoDup(s)
    ensures |SetOf(s)| == |s|
  {
    if s != [] {
      var n := |s| - 1;
      NoDupCard(s[..n]);
      assert SetOf(s) == SetOf(s[..n]) + {s[n]};
    }
  }

  /** Distinct entries taken from s, as many as s has, are all of s. */
  lemma AllTaken<T(!new)>(s: seq<T>, t: seq<T>)
    requires NoDup(s) && NoDup(t) && |s| == |t|
    requires forall x :: x in t ==> x in s
    ensures forall x :: x in s ==> x in t
  {
    NoDupCard(s);
    NoDupCard(t);
    var S, T := SetOf(s), SetOf(t);
    assert T <= S;
    SubsetSameSize(T, S);
    forall x | x in s ensures x in t {
      assert x in S && x in T;
    }
  }

  lemma SameMembersSameLength<T(!new)>(s: seq<T>, t: seq<T>)
    requires NoDup(s) && NoDup(t) && forall x :: x in s <==> x in t
    ensures |s| == |t|
  {
    NoDupCard(s);
    NoDupCard(t);
    assert SetOf(s) == SetOf(t);
  }

  lemma SubsetSameSize<T>(A: set<T>, B: set<T>)
    requires A <= B && |A| == |B|
    ensures A == B
  {
    assert B == A + (B - A);
  }

  lemma SubsetSize<T>(A: set<T>, B: set<T>)
    requires A <= B
    ensures |A| <= |B|
  {
    assert B == A + (B - A);
  }

  function Below(n: nat): (r: set<nat>)
    ensures |r| == n && forall q: nat :: q in r <==> q < n
  {
    if n == 0 then {} else Below(n - 1) + {n - 1}
  }

  /** At least n lists: empty ones are appended as needed. */
  function Resized<T>(s: seq<seq<T>>, n: nat): (r: seq<seq<T>>)
    ensures |r| == if |s| < n then n else |s|
    ensures forall k :: 0 <= k < |r| ==> r[k] == if k < |s| then s[k] else []
  {
    if |s| < n then s + seq(n - |s|, _ => []) else s
  }
}
