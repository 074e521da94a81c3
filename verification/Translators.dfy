/** Translators that give a new number to everything they have not met before. */
module Translators {
  import opened Collections

  /** Numbers what it is asked for in the order of the questions. */
  class Translator<T(==,!new)> {
    var dict: map<T, nat>
    var next: nat

    constructor (dict: map<T, nat>, next: nat)
      ensures this.dict == dict && this.next == next
    {
      this.dict, this.next := dict, next;
    }

    /** The numbers given are distinct and lie from start up to next. */
    ghost predicate Numbers(start: nat)
      reads this
    {
      && start <= next
      && (forall x :: x in dict ==> start <= dict[x] < next)
      && (forall x, y :: x in dict && y in dict && dict[x] == dict[y] ==> x == y)
      && (forall n :: start <= n < next ==> n in dict.Values)
    }

    method Translate(x: T) returns (y: nat)
      modifies this
      ensures x in old(dict) ==> dict == old(dict) && next == old(next)
      ensures x !in old(dict) ==> dict == old(dict)[x := old(next)] && next == old(next) + 1
      ensures x in dict && y == dict[x]
      ensures forall start :: old(Numbers(start)) ==> Numbers(start)
    {
      if x !in dict {
        dict := dict[x := next];
        next := next + 1;
        assert dict[x] == next - 1 && dict[x] in dict.Values;
        forall n | n in old(dict).Values ensures n in dict.Values {
          var z :| z in old(dict) && old(dict)[z] == n;
          assert z in dict && dict[z] == n;
        }
      }
      y := dict[x];
    }

    /** Starting from zero, the next number is the number of things translated. */
    lemma NextIsSize()
      requires Numbers(0)
      ensures next == |dict|
    {
      NumbersUsed(dict, dict.Keys);
      assert |dict| == |dict.Keys|;
      assert Used(dict, dict.Keys) == Below(next) by {
        forall n: nat | n < next ensures n in Used(dict, dict.Keys) {
          assert n in dict.Values;
        }
      }
    }
  }

  /** The numbers of the things in S. */
  ghost function Used<T(!new)>(m: map<T, nat>, S: set<T>): set<nat>
    requires S <= m.Keys
  {
    set x | x in S :: m[x]
  }

  /** Distinct numbers are as many as the things numbered. */
  lemma {:induction false} NumbersUsed<T(!new)>(m: map<T, nat>, S: set<T>)
    requires S <= m.Keys && forall x, y :: x in m && y in m && m[x] == m[y] ==> x == y
    ensures |Used(m, S)| == |S|
  {
    if S != {} {
      var x :| x in S;
      NumbersUsed(m, S - {x});
      assert Used(m, S) == Used(m, S - {x}) + {m[x]};
      assert m[x] !in Used(m, S - {x});
    }
  }
}
