/** A relation on 0..size-1 kept as a bit matrix. */
module BinaryRelation {
  import opened Lts

  function At(d: seq<seq<bool>>, r: int, c: int): bool {
    0 <= r < |d| && 0 <= c < |d[r]| && d[r][c]
  }

  ghost predicate Square(d: seq<seq<bool>>, n: nat) {
    |d| == n && forall r :: 0 <= r < |d| ==> |d[r]| == n
  }

  class BinaryRelation {
    var data: seq<seq<bool>>
    var size: nat

    ghost predicate Valid()
      reads this
    {
      Square(data, size)
    }

    function Get(r: int, c: int): bool
      reads this
    {
      At(data, r, c)
    }

    constructor (size: nat, val: bool)
      ensures Valid() && this.size == size
      ensures forall r, c :: Get(r, c) <==> val && 0 <= r < size && 0 <= c < size
    {
      this.size := size;
      data := seq(size, _ => seq(size, _ => val));
    }

    method Set(r: nat, c: nat, v: bool)
      requires Valid() && r < size && c < size
      modifies `data
      ensures Valid()
      ensures forall i, j :: Get(i, j) == if i == r && j == c then v else At(old(data), i, j)
    {
      data := data[r := data[r][c := v]];
    }

    /** Keeps the pairs related in both directions. */
    method RestrictToSymmetric()
      requires Valid()
      modifies `data
      ensures Valid()
      ensures forall i, j :: Get(i, j) <==> At(old(data), i, j) && At(old(data), j, i)
    {
      ghost var d := data;
      var row := 0;
      while row < size
        invariant 0 <= row <= size && Valid()
        invariant forall i, j :: Get(i, j) == if i < row || j < row then At(d, i, j) && At(d, j, i) else At(d, i, j)
      {
        var col := row + 1;
        while col < size
          invariant row + 1 <= col <= size && Valid()
          invariant forall i, j :: Get(i, j) ==
                      if i < row || j < row || (i == row && j < col) || (j == row && i < col)
                      then At(d, i, j) && At(d, j, i) else At(d, i, j)
        {
          var res := Get(row, col) && Get(col, row);
          Set(row, col, res);
          Set(col, row, res);
          col := col + 1;
        }
        row := row + 1;
      }
    }

    ghost predicate Equivalence()
      reads this
    {
      && (forall i :: 0 <= i < size ==> Get(i, i))
      && (forall i, j :: Get(i, j) ==> Get(j, i))
      && (forall i, j, k :: Get(i, j) && Get(j, k) ==> Get(i, k))
    }

    /** Maps every element to the least element of its class. */
    method GetQuotientProjection() returns (proj: seq<nat>)
      requires Valid() && Equivalence()
      ensures |proj| == size
      ensures forall i :: 0 <= i < size ==> Get(i, proj[i])
      ensures forall i, j :: Get(i, j) ==> proj[i] == proj[j] <= j
    {
      var undef := size;
      proj := seq(size, _ => undef);
      var row := 0;
      while row < size
        invariant 0 <= row <= size && |proj| == size
        invariant forall i :: 0 <= i < size ==> if proj[i] == undef then i >= row else proj[i] < row && Get(i, proj[i])
        invariant forall i, j :: Get(i, j) && proj[i] != undef ==> proj[j] == proj[i] <= j
      {
        if proj[row] == undef {
          ghost var before := proj;
          proj := proj[row := row];
          var col := row + 1;
          while col < size
            invariant row + 1 <= col <= size && |proj| == size
            invariant forall i :: 0 <= i < size ==> proj[i] == if row <= i < col && (i == row || Get(row, i)) then row else before[i]
          {
            if Get(row, col) {
              proj := proj[col := row];
            }
            col := col + 1;
          }
          forall i, j | Get(i, j) && proj[i] != undef ensures proj[j] == proj[i] <= j {
            assert Get(j, i);
            assert Get(row, i) && Get(i, j) ==> Get(row, j);
            assert Get(row, j) && Get(j, i) ==> Get(row, i);
          }
        }
        row := row + 1;
      }
    }

    /** The elements related to each element, and those that each element is related to, in
        ascending order. */
    method BuildIndex() returns (ind: seq<seq<nat>>, inv: seq<seq<nat>>)
      requires Valid()
      ensures |ind| == |inv| == size
      ensures forall i :: 0 <= i < size ==> Ascending(ind[i]) && Ascending(inv[i])
      ensures forall i: nat, j: nat :: i < size ==> (j in ind[i] <==> Get(i, j))
      ensures forall i: nat, j: nat :: j < size ==> (i in inv[j] <==> Get(i, j))
    {
      ind, inv := seq(size, _ => []), seq(size, _ => []);
      for i := 0 to size
        invariant Indexed(ind, inv, i, 0)
      {
        for j := 0 to size
          invariant Indexed(ind, inv, i, j)
        {
          IndexNext(ind, inv, i, j);
          if Get(i, j) {
            ind := ind[i := ind[i] + [j]];
            inv := inv[j := inv[j] + [i]];
          }
        }
        assert Indexed(ind, inv, i + 1, 0);
      }
    }

    /** The cells before column j of row i are in the lists. */
    ghost predicate Indexed(ind: seq<seq<nat>>, inv: seq<seq<nat>>, i: nat, j: nat)
      reads this
    {
      && Valid() && |ind| == |inv| == size
      && (forall r: nat :: r < size ==> Ascending(ind[r]) && Ascending(inv[r]))
      && (forall r: nat, c: nat {:trigger c in ind[r]} :: r < size ==> (c in ind[r] <==> Get(r, c) && (r < i || (r == i && c < j))))
      && (forall r: nat, c: nat {:trigger r in inv[c]} :: c < size ==> (r in inv[c] <==> Get(r, c) && (r < i || (r == i && c < j))))
    }

    lemma IndexNext(ind: seq<seq<nat>>, inv: seq<seq<nat>>, i: nat, j: nat)
      requires Indexed(ind, inv, i, j) && i < size && j < size
      ensures Get(i, j) ==> Indexed(ind[i := ind[i] + [j]], inv[j := inv[j] + [i]], i, j + 1)
      ensures !Get(i, j) ==> Indexed(ind, inv, i, j + 1)
    {
      if Get(i, j) {
        AscendingMore(ind[i], j);
        AscendingMore(inv[j], i);
      }
    }

    /** A further element, related like element i, and to itself if asked for. */
    method Split(i: nat, reflexive: bool) returns (n: nat)
      requires Valid() && i < size
      modifies this
      ensures Valid() && n == old(size) && size == n + 1
      ensures forall r: nat, c: nat :: Get(r, c) <==> if r == n && c == n then reflexive
                else At(old(data), if r == n then i else r, if c == n then i else c)
    {
      n := size;
      data := seq(n, r requires 0 <= r < n reads this requires Valid() && i < size == n => data[r] + [data[r][i]]) + [data[i] + [reflexive]];
      size := n + 1;
    }
  }

  predicate Ascending(s: seq<nat>) {
    forall i, j :: 0 <= i < j < |s| ==> s[i] < s[j]
  }

  lemma AscendingMore(s: seq<nat>, x: nat)
    requires Ascending(s) && forall y :: y in s ==> y < x
    ensures Ascending(s + [x])
  {
    forall i | 0 <= i < |s| ensures s[i] < x {
      assert s[i] in s;
    }
  }
}
