/** Counters kept in rows that are shared until they are written, and that shrink to a single
    number as soon as one cell is left. */
module SharedCounter {
  import opened Collections

  type Id = nat

  /** The sum of a row, and the array of its cells unless the sum says it all. */
  datatype Row = Row(master: nat, data: Option<Id>)

  /** An array of cells; the counter behind its end tells how many rows hold it. */
  datatype Array = Array(cells: seq<nat>, refCount: nat)

  /** Row r of counter c. */
  datatype Slot = Slot(c: nat, r: nat)

  // ---------------------------------------------------------------- sums

  function Sum(a: seq<nat>): nat {
    if a == [] then 0 else a[0] + Sum(a[1..])
  }

  lemma {:induction false} SumUpdate(a: seq<nat>, k: nat, x: nat)
    requires k < |a|
    ensures Sum(a[k := x]) + a[k] == Sum(a) + x
  {
    if k == 0 {
      assert a[0 := x][1..] == a[1..];
    } else {
      SumUpdate(a[1..], k - 1, x);
      assert a[k := x][1..] == a[1..][k - 1 := x];
    }
  }

  lemma {:induction false} SumAtLeast(a: seq<nat>, k: nat)
    requires k < |a|
    ensures Sum(a) >= a[k]
  {
    if k > 0 { SumAtLeast(a[1..], k - 1); }
  }

  function Put(a: seq<nat>, k: nat, x: nat): seq<nat>
    requires k < |a|
  {
    a[k := x]
  }

  /** At most one cell is positive. */
  ghost predicate Single(a: seq<nat>) {
    forall i, j :: 0 <= i < j < |a| ==> a[i] == 0 || a[j] == 0
  }

  lemma {:induction false} SumTwoCells(a: seq<nat>, i: nat, j: nat)
    requires i < j < |a|
    ensures Sum(a) >= a[i] + a[j]
  {
    if i > 0 {
      SumTwoCells(a[1..], i - 1, j - 1);
    } else {
      SumAtLeast(a[1..], j - 1);
    }
  }

  /** The positive cell of a row with a single one holds the sum. */
  lemma {:induction false} SingleSum(a: seq<nat>, k: nat)
    requires Single(a) && k < |a| && a[k] > 0
    ensures Sum(a) == a[k]
  {
    if k == 0 {
      ZeroSum(a[1..]);
    } else {
      assert a[0] == 0;
      SingleSum(a[1..], k - 1);
    }
  }

  lemma {:induction false} ZeroSum(a: seq<nat>)
    requires forall i :: 0 <= i < |a| ==> a[i] == 0
    ensures Sum(a) == 0
  {
    if a != [] { ZeroSum(a[1..]); }
  }

  /** If a cell holds the sum, or the sum is two, one cell at most is left when the cell is decremented. */
  lemma LastCell(a: seq<nat>, k: nat)
    requires k < |a| && a[k] > 0 && (Sum(a) == a[k] || Sum(a) == 2)
    ensures Single(a[k := a[k] - 1])
  {
    var b := a[k := a[k] - 1];
    SumUpdate(a, k, a[k] - 1);
    forall i, j | 0 <= i < j < |b| ensures b[i] == 0 || b[j] == 0 {
      SumTwoCells(b, i, j);
      if i != k { SumPair(a, i, k); }
      if j != k { SumPair(a, j, k); }
    }
  }

  lemma SumPair(a: seq<nat>, i: nat, k: nat)
    requires i < |a| && k < |a| && i != k
    ensures Sum(a) >= a[i] + a[k]
  {
    if i < k { SumTwoCells(a, i, k); } else { SumTwoCells(a, k, i); }
  }

  // ---------------------------------------------------------------- the representation

  /** The rows that hold the array. */
  ghost function Holders(slots: map<Slot, Row>, id: Id): set<Slot> {
    set s | s in slots && slots[s].data == Some(id)
  }

  /** The row stands for the counts a: without an array for at most one positive cell, and
      otherwise for cells that are right where they are positive. */
  ghost predicate Represents(row: Row, arrays: map<Id, Array>, a: seq<nat>) {
    && Sum(a) == row.master
    && match row.data
       case None => Single(a)
       case Some(id) => id in arrays && |arrays[id].cells| == |a| && forall k :: 0 <= k < |a| && a[k] > 0 ==> arrays[id].cells[k] == a[k]
  }

  /** How many of the cells are positive. */
  function Positive(a: seq<nat>): nat {
    if a == [] then 0 else (if a[0] > 0 then 1 else 0) + Positive(a[1..])
  }

  /** While counts are set, an array has one holder and its counter tells whether a second
      cell has been set; afterwards its counter is the number of holders. */
  ghost predicate CountOk(slots: map<Slot, Row>, arrays: map<Id, Array>, setting: set<Slot>, s: Slot, a: seq<nat>)
    requires s in slots
  {
    match slots[s].data
    case None => s in setting ==> slots[s].master == 0
    case Some(id) =>
      id in arrays &&
      if s in setting then Holders(slots, id) == {s} && Positive(a) >= 1 && arrays[id].refCount == (if Positive(a) == 1 then 0 else 1)
      else arrays[id].refCount == |Holders(slots, id)| && forall h :: h in Holders(slots, id) ==> h !in setting
  }

  datatype State = State(slots: map<Slot, Row>, arrays: map<Id, Array>, next: Id)

  /** The counts that the rows stand for. The counts of rows in setting are not complete yet. */
  ghost predicate Ok(st: State, rowSize: nat, setting: set<Slot>, counts: map<Slot, seq<nat>>) {
    && counts.Keys == st.slots.Keys
    && (forall s :: s in counts ==> |counts[s]| == rowSize)
    && (forall s {:trigger Represents(st.slots[s], st.arrays, counts[s])} :: s in st.slots ==> Represents(st.slots[s], st.arrays, counts[s]))
    && (forall s {:trigger CountOk(st.slots, st.arrays, setting, s, counts[s])} :: s in st.slots ==> CountOk(st.slots, st.arrays, setting, s, counts[s]))
    && (forall id :: id in st.arrays ==> id < st.next)
  }

  lemma HoldersUpdate(slots: map<Slot, Row>, s: Slot, row: Row, id: Id)
    ensures Holders(slots[s := row], id) == (Holders(slots, id) - {s}) + if row.data == Some(id) then {s} else {}
  {
  }

  /** What another row relies on has not changed, but for the number of holders of its array. */
  ghost predicate Kept(st: State, st': State, setting: set<Slot>, h: Slot, a: seq<nat>)
    requires h in st.slots && h in st'.slots
  {
    && st'.slots[h] == st.slots[h] && CountOk(st'.slots, st'.arrays, setting, h, a)
    && match st.slots[h].data
       case None => true
       case Some(id) => id in st.arrays && id in st'.arrays && st'.arrays[id].cells == st.arrays[id].cells
  }

  /** Changing one row keeps the representation when the row is right and the others are kept. */
  lemma StepOk(st: State, st': State, rowSize: nat, setting: set<Slot>, counts: map<Slot, seq<nat>>, s: Slot,
          row: Row, a: seq<nat>)
    requires Ok(st, rowSize, setting, counts) && |a| == rowSize
    requires st'.slots == st.slots[s := row] && (forall id :: id in st'.arrays ==> id < st'.next)
    requires Represents(row, st'.arrays, a) && CountOk(st'.slots, st'.arrays, setting, s, a)
    requires forall h :: h in st.slots && h != s ==> Kept(st, st', setting, h, counts[h])
    ensures Ok(st', rowSize, setting, counts[s := a])
  {
    PhaseStepOk(st, st', rowSize, setting, setting, counts, s, row, a);
  }

  lemma PhaseStepOk(st: State, st': State, rowSize: nat, setting: set<Slot>, setting': set<Slot>,
          counts: map<Slot, seq<nat>>, s: Slot, row: Row, a: seq<nat>)
    requires Ok(st, rowSize, setting, counts) && |a| == rowSize
    requires st'.slots == st.slots[s := row] && (forall id :: id in st'.arrays ==> id < st'.next)
    requires Represents(row, st'.arrays, a) && CountOk(st'.slots, st'.arrays, setting', s, a)
    requires forall h :: h in st.slots && h != s ==> Kept(st, st', setting', h, counts[h])
    ensures Ok(st', rowSize, setting', counts[s := a])
  {
    var counts' := counts[s := a];
    forall h | h in st'.slots
      ensures Represents(st'.slots[h], st'.arrays, counts'[h]) && CountOk(st'.slots, st'.arrays, setting', h, counts'[h])
    {
      if h != s {
        assert Kept(st, st', setting', h, counts[h]);
        assert Represents(st.slots[h], st.arrays, counts[h]);
        assert CountOk(st.slots, st.arrays, setting, h, counts[h]);
      }
    }
  }

  // ---------------------------------------------------------------- decrementing

  function WithRow(st: State, s: Slot, row: Row): State {
    st.(slots := st.slots[s := row])
  }

  /** One row gives up its array; an array without holders is reclaimed. */
  function Dropped(arrays: map<Id, Array>, id: Id): map<Id, Array>
    requires id in arrays
  {
    if arrays[id].refCount <= 1 then arrays - {id} else arrays[id := arrays[id].(refCount := arrays[id].refCount - 1)]
  }

  /** A row that only has its sum. */
  lemma DecrMaster(st: State, rowSize: nat, setting: set<Slot>, counts: map<Slot, seq<nat>>, s: Slot, k: nat)
    requires Ok(st, rowSize, setting, counts) && s in st.slots && k < rowSize && counts[s][k] > 0 && s !in setting && st.slots[s].data == None
    ensures st.slots[s].master == counts[s][k]
    ensures Ok(WithRow(st, s, Row(st.slots[s].master - 1, None)), rowSize, setting, counts[s := counts[s][k := counts[s][k] - 1]])
  {
    var a := counts[s];
    assert Represents(st.slots[s], st.arrays, a);
    SingleSum(a, k);
    SumUpdate(a, k, a[k] - 1);
    var st' := WithRow(st, s, Row(st.slots[s].master - 1, None));
    forall h | h in st.slots && h != s ensures Kept(st, st', setting, h, counts[h]) {
      assert CountOk(st.slots, st.arrays, setting, h, counts[h]);
      if st.slots[h].data.Some? {
        HoldersUpdate(st.slots, s, Row(st.slots[s].master - 1, None), st.slots[h].data.value);
      }
      OtherKept(st, st', rowSize, setting, counts, h);
    }
    StepOk(st, st', rowSize, setting, counts, s, Row(st.slots[s].master - 1, None), a[k := a[k] - 1]);
  }

  /** A row whose array has neither changed nor changed holders. */
  lemma OtherKept(st: State, st': State, rowSize: nat, setting: set<Slot>, counts: map<Slot, seq<nat>>, h: Slot)
    requires Ok(st, rowSize, setting, counts) && h in st.slots && h in st'.slots && st'.slots[h] == st.slots[h]
    requires st.slots[h].data.Some? ==>
               && st.slots[h].data.value in st'.arrays
               && (st.slots[h].data.value in st.arrays ==> st'.arrays[st.slots[h].data.value] == st.arrays[st.slots[h].data.value])
               && Holders(st'.slots, st.slots[h].data.value) == Holders(st.slots, st.slots[h].data.value)
    ensures Kept(st, st', setting, h, counts[h])
  {
    assert CountOk(st.slots, st.arrays, setting, h, counts[h]);
  }

  /** A row whose array has lost the holder s. */
  lemma SharerKept(st: State, st': State, rowSize: nat, setting: set<Slot>, counts: map<Slot, seq<nat>>, s: Slot,
          h: Slot, id: Id)
    requires Ok(st, rowSize, setting, counts) && s in st.slots && h in st.slots && h in st'.slots && h != s
    requires st.slots[s].data == st.slots[h].data == Some(id) && st'.slots[h] == st.slots[h]
    requires id in st.arrays && (st.arrays[id].refCount > 1 ==> id in st'.arrays && st'.arrays[id] == Array(st.arrays[id].cells, st.arrays[id].refCount - 1))
    requires Holders(st'.slots, id) == Holders(st.slots, id) - {s}
    ensures Kept(st, st', setting, h, counts[h])
  {
    assert CountOk(st.slots, st.arrays, setting, h, counts[h]) && CountOk(st.slots, st.arrays, setting, s, counts[s]);
    assert s in Holders(st.slots, id) && h in Holders(st.slots, id);
    assert |Holders(st.slots, id)| == |Holders(st.slots, id) - {s}| + 1;
    assert |Holders(st.slots, id) - {s}| >= 1 by { assert h in Holders(st.slots, id) - {s}; }
  }

  /** The last cell is moved into the sum, and the array given up. */
  lemma DecrCollapse(st: State, rowSize: nat, setting: set<Slot>, counts: map<Slot, seq<nat>>, s: Slot, k: nat, id: Id)
    requires Ok(st, rowSize, setting, counts) && s in st.slots && k < rowSize && counts[s][k] > 0 && s !in setting
    requires st.slots[s].data == Some(id) && id in st.arrays && k < |st.arrays[id].cells|
    requires st.slots[s].master == st.arrays[id].cells[k] || st.slots[s].master == 2
    ensures st.slots[s].master > 0 && st.arrays[id].cells[k] == counts[s][k]
    ensures Ok(State(st.slots[s := Row(st.slots[s].master - 1, None)], Dropped(st.arrays, id), st.next), rowSize, setting, counts[s := counts[s][k := counts[s][k] - 1]])
  {
    var a := counts[s];
    assert Represents(st.slots[s], st.arrays, a) && CountOk(st.slots, st.arrays, setting, s, a);
    LastCell(a, k);
    SumUpdate(a, k, a[k] - 1);
    SumAtLeast(a, k);
    var row := Row(st.slots[s].master - 1, None);
    var st' := State(st.slots[s := row], Dropped(st.arrays, id), st.next);
    assert s in Holders(st.slots, id);
    forall h | h in st.slots && h != s ensures Kept(st, st', setting, h, counts[h]) {
      assert CountOk(st.slots, st.arrays, setting, h, counts[h]);
      if st.slots[h].data == Some(id) {
        HoldersUpdate(st.slots, s, row, id);
        SharerKept(st, st', rowSize, setting, counts, s, h, id);
      } else if st.slots[h].data.Some? {
        HoldersUpdate(st.slots, s, row, st.slots[h].data.value);
        OtherKept(st, st', rowSize, setting, counts, h);
      }
    }
    StepOk(st, st', rowSize, setting, counts, s, row, a[k := a[k] - 1]);
  }

  /** A shared array is copied before it is written. */
  lemma DecrCopied(st: State, rowSize: nat, setting: set<Slot>, counts: map<Slot, seq<nat>>, s: Slot, k: nat, id: Id)
    requires Ok(st, rowSize, setting, counts) && s in st.slots && k < rowSize && counts[s][k] > 0 && s !in setting
    requires st.slots[s].data == Some(id) && id in st.arrays && k < |st.arrays[id].cells| && st.arrays[id].refCount > 1
    ensures st.slots[s].master > 0 && st.arrays[id].cells[k] == counts[s][k]
    ensures Ok(State(st.slots[s := Row(st.slots[s].master - 1, Some(st.next))],
                     Dropped(st.arrays, id)[st.next := Array(st.arrays[id].cells[k := counts[s][k] - 1], 1)], st.next + 1),
               rowSize, setting, counts[s := counts[s][k := counts[s][k] - 1]])
  {
    var a := counts[s];
    assert Represents(st.slots[s], st.arrays, a) && CountOk(st.slots, st.arrays, setting, s, a);
    SumUpdate(a, k, a[k] - 1);
    SumAtLeast(a, k);
    var row := Row(st.slots[s].master - 1, Some(st.next));
    var st' := State(st.slots[s := row], Dropped(st.arrays, id)[st.next := Array(st.arrays[id].cells[k := a[k] - 1], 1)], st.next + 1);
    NewHolder(st, rowSize, setting, counts, s, row);
    forall h | h in st.slots && h != s ensures Kept(st, st', setting, h, counts[h]) {
      assert CountOk(st.slots, st.arrays, setting, h, counts[h]);
      if st.slots[h].data == Some(id) {
        HoldersUpdate(st.slots, s, row, id);
        SharerKept(st, st', rowSize, setting, counts, s, h, id);
      } else if st.slots[h].data.Some? {
        HoldersUpdate(st.slots, s, row, st.slots[h].data.value);
        OtherKept(st, st', rowSize, setting, counts, h);
      }
    }
    StepOk(st, st', rowSize, setting, counts, s, row, a[k := a[k] - 1]);
  }

  /** A new array has one holder. */
  lemma NewHolder(st: State, rowSize: nat, setting: set<Slot>, counts: map<Slot, seq<nat>>, s: Slot, row: Row)
    requires Ok(st, rowSize, setting, counts) && row.data == Some(st.next)
    ensures Holders(st.slots[s := row], st.next) == {s}
  {
    forall h | h in st.slots ensures st.slots[h].data != Some(st.next) {
      assert CountOk(st.slots, st.arrays, setting, h, counts[h]);
    }
  }

  /** An array with one holder is written in place. */
  lemma DecrInPlace(st: State, rowSize: nat, setting: set<Slot>, counts: map<Slot, seq<nat>>, s: Slot, k: nat, id: Id)
    requires Ok(st, rowSize, setting, counts) && s in st.slots && k < rowSize && counts[s][k] > 0 && s !in setting
    requires st.slots[s].data == Some(id) && id in st.arrays && k < |st.arrays[id].cells| && st.arrays[id].refCount <= 1
    ensures st.slots[s].master > 0 && st.arrays[id].cells[k] == counts[s][k]
    ensures Ok(State(st.slots[s := Row(st.slots[s].master - 1, Some(id))],
                     st.arrays[id := Array(st.arrays[id].cells[k := counts[s][k] - 1], st.arrays[id].refCount)], st.next),
               rowSize, setting, counts[s := counts[s][k := counts[s][k] - 1]])
  {
    var a := counts[s];
    assert Represents(st.slots[s], st.arrays, a) && CountOk(st.slots, st.arrays, setting, s, a);
    SumUpdate(a, k, a[k] - 1);
    SumAtLeast(a, k);
    var row := Row(st.slots[s].master - 1, Some(id));
    var st' := State(st.slots[s := row], st.arrays[id := Array(st.arrays[id].cells[k := a[k] - 1], st.arrays[id].refCount)], st.next);
    assert s in Holders(st.slots, id);
    OneHolder(Holders(st.slots, id), s);
    HoldersUpdate(st.slots, s, row, id);
    OwnerKeeps(st, st', rowSize, setting, counts, s, row, id, st'.arrays[id]);
    StepOk(st, st', rowSize, setting, counts, s, row, a[k := a[k] - 1]);
  }

  /** Writing an array with one holder changes nothing for other rows. */
  lemma OwnerKeeps(st: State, st': State, rowSize: nat, setting: set<Slot>, counts: map<Slot, seq<nat>>, s: Slot,
          row: Row, id: Id, written: Array)
    requires Ok(st, rowSize, setting, counts) && s in st.slots && st.slots[s].data == row.data == Some(id) && Holders(st.slots, id) == {s}
    requires st'.slots == st.slots[s := row] && id in st.arrays && st'.arrays == st.arrays[id := written]
    ensures forall h :: h in st.slots && h != s ==> Kept(st, st', setting, h, counts[h])
  {
    forall h | h in st.slots && h != s ensures Kept(st, st', setting, h, counts[h]) {
      assert CountOk(st.slots, st.arrays, setting, h, counts[h]);
      if st.slots[h].data.Some? {
        assert st.slots[h].data == Some(id) ==> h in Holders(st.slots, id);
        HoldersUpdate(st.slots, s, row, st.slots[h].data.value);
        OtherKept(st, st', rowSize, setting, counts, h);
      }
    }
  }

  lemma OneHolder(S: set<Slot>, s: Slot)
    requires s in S && |S| <= 1
    ensures S == {s}
  {
    assert S == {s} + (S - {s});
  }

  /** One taken from cell k of a row with an array: the array is given up when one cell is left,
      and copied before it is written when others hold it. */
  function Decremented(st: State, s: Slot, k: nat, id: Id): State
    requires s in st.slots && st.slots[s].master > 0 && id in st.arrays && k < |st.arrays[id].cells| && st.arrays[id].cells[k] > 0
  {
    var master, cells := st.slots[s].master, st.arrays[id].cells;
    if master == cells[k] || master == 2 then
      State(st.slots[s := Row(master - 1, None)], Dropped(st.arrays, id), st.next)
    else if st.arrays[id].refCount > 1 then
      State(st.slots[s := Row(master - 1, Some(st.next))], Dropped(st.arrays, id)[st.next := Array(cells[k := cells[k] - 1], 1)], st.next + 1)
    else
      State(st.slots[s := Row(master - 1, Some(id))], st.arrays[id := Array(cells[k := cells[k] - 1], st.arrays[id].refCount)], st.next)
  }

  lemma DecrArrayOk(st: State, rowSize: nat, setting: set<Slot>, counts: map<Slot, seq<nat>>, s: Slot, k: nat, id: Id)
    requires Ok(st, rowSize, setting, counts) && s in st.slots && k < rowSize && counts[s][k] > 0 && s !in setting
    requires st.slots[s].data == Some(id) && id in st.arrays && k < |st.arrays[id].cells|
    ensures st.slots[s].master > 0 && st.arrays[id].cells[k] == counts[s][k]
    ensures Ok(Decremented(st, s, k, id), rowSize, setting, counts[s := counts[s][k := counts[s][k] - 1]])
  {
    if st.slots[s].master == st.arrays[id].cells[k] || st.slots[s].master == 2 {
      DecrCollapse(st, rowSize, setting, counts, s, k, id);
    } else if st.arrays[id].refCount > 1 {
      DecrCopied(st, rowSize, setting, counts, s, k, id);
    } else {
      DecrInPlace(st, rowSize, setting, counts, s, k, id);
    }
  }

  // ---------------------------------------------------------------- setting

  lemma {:induction false} PositiveUpdate(a: seq<nat>, k: nat, x: nat)
    requires k < |a| && a[k] == 0 && x > 0
    ensures Positive(a[k := x]) == Positive(a) + 1
  {
    if k == 0 {
      assert a[0 := x][1..] == a[1..];
    } else {
      PositiveUpdate(a[1..], k - 1, x);
      assert a[k := x][1..] == a[1..][k - 1 := x];
    }
  }

  lemma {:induction false} PositiveSum(a: seq<nat>)
    ensures Positive(a) == 0 <==> Sum(a) == 0
  {
    if a != [] { PositiveSum(a[1..]); }
  }

  lemma {:induction false} PositiveIsSingle(a: seq<nat>)
    requires Positive(a) <= 1
    ensures Single(a)
  {
    if a != [] {
      PositiveIsSingle(a[1..]);
      if a[0] > 0 {
        PositiveSum(a[1..]);
        forall j | 0 < j < |a| ensures a[j] == 0 {
          SumAtLeast(a[1..], j - 1);
        }
      }
      forall i, j | 0 <= i < j < |a| ensures a[i] == 0 || a[j] == 0 {
        if i > 0 { assert a[1..][i - 1] == a[i] && a[1..][j - 1] == a[j]; }
      }
    }
  }

  /** The first cell that is set in a row gets a fresh array. */
  lemma SetFirst(st: State, rowSize: nat, setting: set<Slot>, counts: map<Slot, seq<nat>>, s: Slot, k: nat,
          count: nat, cells: seq<nat>)
    requires Ok(st, rowSize, setting, counts) && s in st.slots && k < rowSize == |cells| && counts[s][k] == 0 && count > 0
    requires s in setting && st.slots[s].master == 0 && cells[k] == count
    ensures st.slots[s].data == None
    ensures Ok(State(st.slots[s := Row(count, Some(st.next))], st.arrays[st.next := Array(cells, 0)], st.next + 1), rowSize, setting, counts[s := Put(counts[s], k, count)])
  {
    var a := counts[s];
    assert Represents(st.slots[s], st.arrays, a) && CountOk(st.slots, st.arrays, setting, s, a);
    var row := Row(count, Some(st.next));
    var st' := State(st.slots[s := row], st.arrays[st.next := Array(cells, 0)], st.next + 1);
    FirstCell(a, k, count);
    NewHolder(st, rowSize, setting, counts, s, row);
    NothingSet(st, rowSize, setting, counts, s);
    forall h | h in st.slots && h != s ensures Kept(st, st', setting, h, counts[h]) {
      assert CountOk(st.slots, st.arrays, setting, h, counts[h]);
      if st.slots[h].data.Some? {
        HoldersUpdate(st.slots, s, row, st.slots[h].data.value);
      }
      OtherKept(st, st', rowSize, setting, counts, h);
    }
    StepOk(st, st', rowSize, setting, counts, s, row, a[k := count]);
  }

  lemma FirstCell(a: seq<nat>, k: nat, count: nat)
    requires k < |a| && Sum(a) == 0 && count > 0
    ensures Sum(a[k := count]) == count && Positive(a[k := count]) == 1
    ensures forall i :: 0 <= i < |a| && i != k ==> a[i] == 0
  {
    forall i | 0 <= i < |a| ensures a[i] == 0 { SumAtLeast(a, i); }
    SumUpdate(a, k, count);
    PositiveUpdate(a, k, count);
    PositiveSum(a);
  }

  /** A row with an array has had a cell set. */
  lemma NothingSet(st: State, rowSize: nat, setting: set<Slot>, counts: map<Slot, seq<nat>>, s: Slot)
    requires Ok(st, rowSize, setting, counts) && s in st.slots && s in setting && st.slots[s].master == 0
    ensures st.slots[s].data == None
  {
    assert Represents(st.slots[s], st.arrays, counts[s]) && CountOk(st.slots, st.arrays, setting, s, counts[s]);
    PositiveSum(counts[s]);
  }

  /** Later cells are written into the array, and its counter notes that there are several. */
  lemma SetNext(st: State, rowSize: nat, setting: set<Slot>, counts: map<Slot, seq<nat>>, s: Slot, k: nat,
          count: nat, id: Id)
    requires Ok(st, rowSize, setting, counts) && s in st.slots && k < rowSize && counts[s][k] == 0 && count > 0
    requires s in setting && st.slots[s].master > 0 && st.slots[s].data == Some(id) && id in st.arrays && k < |st.arrays[id].cells|
    ensures Ok(State(st.slots[s := Row(st.slots[s].master + count, Some(id))], st.arrays[id := Array(Put(st.arrays[id].cells, k, count), 1)], st.next),
               rowSize, setting, counts[s := Put(counts[s], k, count)])
  {
    var a := counts[s];
    assert Represents(st.slots[s], st.arrays, a) && CountOk(st.slots, st.arrays, setting, s, a);
    var row := Row(st.slots[s].master + count, Some(id));
    var st' := State(st.slots[s := row], st.arrays[id := Array(Put(st.arrays[id].cells, k, count), 1)], st.next);
    SumUpdate(a, k, count);
    PositiveUpdate(a, k, count);
    HoldersUpdate(st.slots, s, row, id);
    OwnerKeeps(st, st', rowSize, setting, counts, s, row, id, st'.arrays[id]);
    StepOk(st, st', rowSize, setting, counts, s, row, Put(a, k, count));
  }

  lemma LessSetting(slots: map<Slot, Row>, arrays: map<Id, Array>, setting: set<Slot>, s: Slot, h: Slot, a: seq<nat>)
    requires h in slots && h != s && CountOk(slots, arrays, setting, h, a)
    ensures CountOk(slots, arrays, setting - {s}, h, a)
  {
  }

  /** When the counts are complete, a row with one cell set keeps just the sum. */
  lemma InitCollapses(st: State, rowSize: nat, setting: set<Slot>, counts: map<Slot, seq<nat>>, s: Slot, id: Id)
    requires Ok(st, rowSize, setting, counts) && s in st.slots && s in setting && st.slots[s].data == Some(id) && id in st.arrays
    requires st.arrays[id].refCount != 1
    ensures Ok(State(st.slots[s := Row(st.slots[s].master, None)], st.arrays - {id}, st.next), rowSize, setting - {s}, counts)
  {
    var a := counts[s];
    assert Represents(st.slots[s], st.arrays, a) && CountOk(st.slots, st.arrays, setting, s, a);
    PositiveIsSingle(a);
    var row := Row(st.slots[s].master, None);
    var st' := State(st.slots[s := row], st.arrays - {id}, st.next);
    forall h | h in st.slots && h != s ensures Kept(st, st', setting - {s}, h, counts[h]) {
      assert CountOk(st.slots, st.arrays, setting, h, counts[h]);
      if st.slots[h].data.Some? {
        assert st.slots[h].data == Some(id) ==> h in Holders(st.slots, id);
        HoldersUpdate(st.slots, s, row, st.slots[h].data.value);
        OtherKept(st, st', rowSize, setting, counts, h);
        LessSetting(st'.slots, st'.arrays, setting, s, h, counts[h]);
      }
    }
    PhaseStepOk(st, st', rowSize, setting, setting - {s}, counts, s, row, a);
    assert counts[s := a] == counts;
  }

  /** Other rows are ready as they are: the counter of the array now counts its one holder. */
  lemma InitKeeps(st: State, rowSize: nat, setting: set<Slot>, counts: map<Slot, seq<nat>>, s: Slot)
    requires Ok(st, rowSize, setting, counts) && s in st.slots && s in setting
    requires st.slots[s].data.Some? ==> st.slots[s].data.value in st.arrays && st.arrays[st.slots[s].data.value].refCount == 1
    ensures Ok(st, rowSize, setting - {s}, counts)
  {
    forall h | h in st.slots ensures CountOk(st.slots, st.arrays, setting - {s}, h, counts[h]) {
      assert CountOk(st.slots, st.arrays, setting, h, counts[h]);
      if h != s { LessSetting(st.slots, st.arrays, setting, s, h, counts[h]); }
    }
  }

  // ---------------------------------------------------------------- sharing and releasing

  /** A row is copied to a new slot: its array gets one more holder. */
  lemma ShareRow(st: State, rowSize: nat, setting: set<Slot>, counts: map<Slot, seq<nat>>, src: Slot, dst: Slot,
          arrays': map<Id, Array>)
    requires Ok(st, rowSize, setting, counts) && src in st.slots && src !in setting && dst !in st.slots && dst !in setting
    requires st.slots[src].data.None? ==> arrays' == st.arrays
    requires st.slots[src].data.Some? ==>
               && st.slots[src].data.value in st.arrays
               && arrays' == st.arrays[st.slots[src].data.value := st.arrays[st.slots[src].data.value].(refCount := st.arrays[st.slots[src].data.value].refCount + 1)]
    ensures Ok(State(st.slots[dst := st.slots[src]], arrays', st.next), rowSize, setting, counts[dst := counts[src]])
  {
    var row := st.slots[src];
    var st' := State(st.slots[dst := row], arrays', st.next);
    assert Represents(st.slots[src], st.arrays, counts[src]) && CountOk(st.slots, st.arrays, setting, src, counts[src]);
    if row.data.Some? {
      HoldersUpdate(st.slots, dst, row, row.data.value);
      assert src in Holders(st.slots, row.data.value) && dst !in Holders(st.slots, row.data.value);
    }
    SharersKeep(st, st', rowSize, setting, counts, src, dst);
    StepOk(st, st', rowSize, setting, counts, dst, row, counts[src]);
  }

  lemma SharersKeep(st: State, st': State, rowSize: nat, setting: set<Slot>, counts: map<Slot, seq<nat>>, src: Slot,
          dst: Slot)
    requires Ok(st, rowSize, setting, counts) && src in st.slots && src !in setting && dst !in st.slots && dst !in setting
    requires st'.slots == st.slots[dst := st.slots[src]]
    requires st.slots[src].data.None? ==> st'.arrays == st.arrays
    requires st.slots[src].data.Some? ==>
               && st.slots[src].data.value in st.arrays
               && st'.arrays == st.arrays[st.slots[src].data.value := st.arrays[st.slots[src].data.value].(refCount := st.arrays[st.slots[src].data.value].refCount + 1)]
    ensures forall h :: h in st.slots && h != dst ==> Kept(st, st', setting, h, counts[h])
  {
    var row := st.slots[src];
    forall h | h in st.slots && h != dst ensures Kept(st, st', setting, h, counts[h]) {
      assert CountOk(st.slots, st.arrays, setting, h, counts[h]);
      if st.slots[h].data.Some? {
        HoldersUpdate(st.slots, dst, row, st.slots[h].data.value);
        assert dst !in Holders(st.slots, st.slots[h].data.value);
        if st.slots[h].data == row.data {
          JoinedKept(st, st', setting, src, dst, h, row.data.value, counts[h]);
        } else {
          OtherKept(st, st', rowSize, setting, counts, h);
        }
      }
    }
  }

  /** A row whose array has gained the holder dst. */
  lemma JoinedKept(st: State, st': State, setting: set<Slot>, src: Slot, dst: Slot, h: Slot, id: Id, a: seq<nat>)
    requires h in st.slots && src in st.slots && dst !in st.slots && dst !in setting && src !in setting && h in st'.slots && st'.slots[h] == st.slots[h]
    requires st.slots[h].data == st.slots[src].data == Some(id) && id in st.arrays
    requires id in st'.arrays && st'.arrays[id] == Array(st.arrays[id].cells, st.arrays[id].refCount + 1)
    requires Holders(st'.slots, id) == Holders(st.slots, id) + {dst} && dst !in Holders(st.slots, id)
    requires CountOk(st.slots, st.arrays, setting, h, a)
    ensures Kept(st, st', setting, h, a)
  {
    assert h in Holders(st.slots, id) && src in Holders(st.slots, id);
  }

  /** A row without counts. */
  lemma EmptyRow(st: State, rowSize: nat, setting: set<Slot>, setting': set<Slot>, counts: map<Slot, seq<nat>>,
          s: Slot, zeros: seq<nat>)
    requires Ok(st, rowSize, setting, counts) && s !in st.slots && s !in setting && (setting' == setting || setting' == setting + {s})
    requires |zeros| == rowSize && forall i :: 0 <= i < rowSize ==> zeros[i] == 0
    ensures Ok(State(st.slots[s := Row(0, None)], st.arrays, st.next), rowSize, setting', counts[s := zeros])
  {
    var row := Row(0, None);
    var st' := State(st.slots[s := row], st.arrays, st.next);
    ZeroSum(zeros);
    forall h | h in st.slots && h != s ensures Kept(st, st', setting', h, counts[h]) {
      assert CountOk(st.slots, st.arrays, setting, h, counts[h]);
      if st.slots[h].data.Some? {
        HoldersUpdate(st.slots, s, row, st.slots[h].data.value);
        assert s !in Holders(st.slots, st.slots[h].data.value);
      }
    }
    PhaseStepOk(st, st', rowSize, setting, setting', counts, s, row, zeros);
  }

  /** A row is given up: its array loses a holder. */
  lemma ReleaseRow(st: State, rowSize: nat, setting: set<Slot>, counts: map<Slot, seq<nat>>, s: Slot)
    requires Ok(st, rowSize, setting, counts) && s in st.slots && s !in setting
    ensures st.slots[s].data.Some? ==> st.slots[s].data.value in st.arrays
    ensures Ok(State(st.slots - {s}, if st.slots[s].data.None? then st.arrays else Dropped(st.arrays, st.slots[s].data.value), st.next), rowSize, setting, counts - {s})
  {
    assert Represents(st.slots[s], st.arrays, counts[s]) && CountOk(st.slots, st.arrays, setting, s, counts[s]);
    var arrays' := if st.slots[s].data.None? then st.arrays else Dropped(st.arrays, st.slots[s].data.value);
    var st' := State(st.slots - {s}, arrays', st.next);
    forall h | h in st'.slots
      ensures Represents(st'.slots[h], st'.arrays, counts[h]) && CountOk(st'.slots, st'.arrays, setting, h, counts[h])
    {
      assert Represents(st.slots[h], st.arrays, counts[h]) && CountOk(st.slots, st.arrays, setting, h, counts[h]);
      if st.slots[h].data.Some? {
        assert Holders(st'.slots, st.slots[h].data.value) == Holders(st.slots, st.slots[h].data.value) - {s};
        if st.slots[h].data == st.slots[s].data {
          assert s in Holders(st.slots, st.slots[h].data.value);
          SharerKept(st, st', rowSize, setting, counts, s, h, st.slots[h].data.value);
        }
      }
    }
  }

  lemma ShareOver(st: State, rowSize: nat, setting: set<Slot>, counts: map<Slot, seq<nat>>, src: Slot, dst: Slot,
          arrays': map<Id, Array>)
    requires Ok(st, rowSize, setting, counts) && src in st.slots && src !in setting && dst in st.slots && dst !in setting && src != dst
    requires st.slots[dst] == Row(0, None)
    requires st.slots[src].data.None? ==> arrays' == st.arrays
    requires st.slots[src].data.Some? ==>
               && st.slots[src].data.value in st.arrays
               && arrays' == st.arrays[st.slots[src].data.value := st.arrays[st.slots[src].data.value].(refCount := st.arrays[st.slots[src].data.value].refCount + 1)]
    ensures Ok(State(st.slots[dst := st.slots[src]], arrays', st.next), rowSize, setting, counts[dst := counts[src]])
  {
    ReleaseRow(st, rowSize, setting, counts, dst);
    var st1 := State(st.slots - {dst}, st.arrays, st.next);
    ShareRow(st1, rowSize, setting, counts - {dst}, src, dst, arrays');
    assert (st.slots - {dst})[dst := st.slots[src]] == st.slots[dst := st.slots[src]];
    assert (counts - {dst})[dst := counts[src]] == counts[dst := counts[src]];
  }

  // ---------------------------------------------------------------- the counters

  /** The rows that hold the cells of a label: from first up to end. */
  datatype Range = Range(first: nat, end: nat)

  function Zeros(n: nat): (a: seq<nat>)
    ensures |a| == n && forall i :: 0 <= i < n ==> a[i] == 0
  {
    seq(n, _ => 0)
  }

  /** All the counters of one engine, with the arrays that they share. */
  class SharedCounters {
    const rowSize: nat
    const labelMap: seq<Range>
    var st: State
    var sizes: map<nat, nat>
    ghost var setting: set<Slot>
    ghost var counts: map<Slot, seq<nat>>

    ghost predicate Valid()
      reads this
    {
      && rowSize > 0 && Ok(st, rowSize, setting, counts) && setting <= st.slots.Keys
      && forall s: Slot :: s in st.slots <==> s.c in sizes && s.r < sizes[s.c]
    }

    constructor (rowSize: nat, labelMap: seq<Range>)
      requires rowSize > 0
      ensures Valid() && this.rowSize == rowSize && this.labelMap == labelMap && sizes == map[] && setting == {} && counts == map[]
    {
      this.rowSize, this.labelMap := rowSize, labelMap;
      st := State(map[], map[], 0);
      sizes, setting, counts := map[], {}, map[];
    }

    /** A counter without rows. */
    method NewCounter(c: nat)
      requires Valid() && c !in sizes
      modifies `sizes
      ensures Valid() && sizes == old(sizes)[c := 0]
    {
      sizes := sizes[c := 0];
    }

    method AddRow(c: nat, ghost complete: bool)
      requires Valid() && c in sizes
      modifies this
      ensures Valid() && sizes == old(sizes)[c := old(sizes)[c] + 1]
      ensures counts == old(counts)[Slot(c, old(sizes)[c]) := Zeros(rowSize)]
      ensures setting == if complete then old(setting) else old(setting) + {Slot(c, old(sizes)[c])}
      ensures st.slots == old(st).slots[Slot(c, old(sizes)[c]) := Row(0, None)]
    {
      ghost var s := Slot(c, sizes[c]);
      ghost var setting' := if complete then setting else setting + {s};
      EmptyRow(st, rowSize, setting, setting', counts, s, Zeros(rowSize));
      st := State(st.slots[Slot(c, sizes[c]) := Row(0, None)], st.arrays, st.next);
      sizes := sizes[c := sizes[c] + 1];
      setting, counts := setting', counts[s := Zeros(rowSize)];
    }

    /** Sets a cell that has no count yet. The other cells of a fresh array are arbitrary. */
    method SetCell(s: Slot, k: nat, count: nat, fresh_: seq<nat>)
      requires Valid() && s in setting && k < rowSize == |fresh_| && counts[s][k] == 0 && count > 0
      modifies `st, `counts
      ensures Valid() && counts == old(counts)[s := Put(old(counts)[s], k, count)]
    {
      var row := st.slots[s];
      ghost var a := counts[s];
      RowKnown(s);
      if row.master > 0 {
        var id := row.data.value;
        SetNext(st, rowSize, setting, counts, s, k, count, id);
        st := State(st.slots[s := Row(row.master + count, Some(id))], st.arrays[id := Array(Put(st.arrays[id].cells, k, count), 1)], st.next);
      } else {
        SetFirst(st, rowSize, setting, counts, s, k, count, Put(fresh_, k, count));
        st := State(st.slots[s := Row(count, Some(st.next))], st.arrays[st.next := Array(Put(fresh_, k, count), 0)], st.next + 1);
      }
      counts := counts[s := Put(a, k, count)];
    }

    /** What the representation of a row says about its array. */
    lemma RowKnown(s: Slot)
      requires Valid() && s in st.slots
      ensures st.slots[s].data.Some? ==> st.slots[s].data.value in st.arrays && |st.arrays[st.slots[s].data.value].cells| == rowSize
      ensures s in setting && st.slots[s].master > 0 ==> st.slots[s].data.Some?
    {
      assert Represents(st.slots[s], st.arrays, counts[s]) && CountOk(st.slots, st.arrays, setting, s, counts[s]);
    }

    /** Completes the counts of counter c: rows with one cell set are reduced to the sum. */
    method Init(c: nat)
      requires Valid() && c in sizes && forall r: nat :: r < sizes[c] ==> Slot(c, r) in setting
      modifies `st, `setting
      ensures Valid() && forall s: Slot :: s in setting <==> s in old(setting) && s.c != c
    {
      var r: nat := 0;
      while r < sizes[c]
        invariant 0 <= r <= sizes[c] && Valid()
        invariant forall s: Slot :: s in setting <==> s in old(setting) && !(s.c == c && s.r < r)
      {
        InitRow(Slot(c, r));
        r := r + 1;
      }
    }

    method InitRow(s: Slot)
      requires Valid() && s in setting
      modifies `st, `setting
      ensures Valid() && setting == old(setting) - {s}
    {
      var row := st.slots[s];
      RowKnown(s);
      if row.data.None? || st.arrays[row.data.value].refCount == 1 {
        InitKeeps(st, rowSize, setting, counts, s);
      } else {
        InitCollapses(st, rowSize, setting, counts, s, row.data.value);
        st := State(st.slots[s := Row(row.master, None)], st.arrays - {row.data.value}, st.next);
      }
      setting := setting - {s};
    }

    /** Takes one from a positive cell, and returns what is left. */
    method DecrCell(s: Slot, k: nat) returns (left: nat)
      requires Valid() && s in st.slots && s !in setting && k < rowSize && counts[s][k] > 0
      modifies `st, `counts
      ensures Valid() && left == old(counts)[s][k] - 1
      ensures counts == old(counts)[s := Put(old(counts)[s], k, left)]
    {
      var row := st.slots[s];
      ghost var a := counts[s];
      RowKnown(s);
      if row.data.None? {
        DecrMaster(st, rowSize, setting, counts, s, k);
        left := row.master - 1;
        st := WithRow(st, s, Row(row.master - 1, None));
        counts := counts[s := a[k := a[k] - 1]];
      } else {
        left := DecrArray(s, k, row.data.value);
      }
    }

    /** The same for a row with an array. */
    method DecrArray(s: Slot, k: nat, id: Id) returns (left: nat)
      requires Valid() && s in st.slots && s !in setting && k < rowSize && counts[s][k] > 0
      requires st.slots[s].data == Some(id) && id in st.arrays && |st.arrays[id].cells| == rowSize
      modifies `st, `counts
      ensures Valid() && left == old(counts)[s][k] - 1
      ensures counts == old(counts)[s := Put(old(counts)[s], k, left)]
    {
      ghost var a := counts[s];
      DecrArrayOk(st, rowSize, setting, counts, s, k, id);
      left := st.arrays[id].cells[k] - 1;
      st := Decremented(st, s, k, id);
      counts := counts[s := a[k := a[k] - 1]];
    }

    /** Lets an empty row share the counts of another. */
    method ShareSlot(src: Slot, dst: Slot)
      requires Valid() && src in st.slots && src !in setting && dst in st.slots && dst !in setting && src != dst
      requires st.slots[dst] == Row(0, None)
      modifies `st, `counts
      ensures Valid() && counts == old(counts)[dst := old(counts)[src]]
      ensures st.slots == old(st).slots[dst := old(st).slots[src]]
    {
      var row := st.slots[src];
      RowKnown(src);
      var arrays := if row.data.None? then st.arrays
                    else st.arrays[row.data.value := st.arrays[row.data.value].(refCount := st.arrays[row.data.value].refCount + 1)];
      ShareOver(st, rowSize, setting, counts, src, dst, arrays);
      st := State(st.slots[dst := row], arrays, st.next);
      counts := counts[dst := counts[src]];
    }

    /** Gives up the row. */
    method ReleaseSlot(s: Slot)
      requires Valid() && s in st.slots && s !in setting && s.r == sizes[s.c] - 1
      modifies `st, `counts, `sizes
      ensures Valid() && counts == old(counts) - {s} && sizes == old(sizes)[s.c := s.r]
    {
      var row := st.slots[s];
      ReleaseRow(st, rowSize, setting, counts, s);
      st := State(st.slots - {s}, if row.data.None? then st.arrays else Dropped(st.arrays, row.data.value), st.next);
      sizes := sizes[s.c := s.r];
      counts := counts - {s};
    }

    /** Where the count of a state under a label is kept. */
    function Locate(key: seq<nat>, states: nat, label_: nat, state: nat): (r: (nat, nat))
      requires rowSize > 0 && label_ * states + state < |key|
      ensures r.1 < rowSize && r.0 * rowSize + r.1 == key[label_ * states + state]
    {
      (key[label_ * states + state] / rowSize, key[label_ * states + state] % rowSize)
    }

    method Set(c: nat, key: seq<nat>, states: nat, label_: nat, state: nat, count: nat, fresh_: seq<nat>)
      requires Valid() && label_ * states + state < |key| && count > 0 && |fresh_| == rowSize
      requires Slot(c, Locate(key, states, label_, state).0) in setting
      requires counts[Slot(c, Locate(key, states, label_, state).0)][Locate(key, states, label_, state).1] == 0
      modifies `st, `counts
      ensures Valid() && old(Slot(c, Locate(key, states, label_, state).0) in counts)
      ensures counts == old(counts)[Slot(c, Locate(key, states, label_, state).0) :=
                Put(old(counts)[Slot(c, Locate(key, states, label_, state).0)], Locate(key, states, label_, state).1, count)]
    {
      var place := Locate(key, states, label_, state);
      SetCell(Slot(c, place.0), place.1, count, fresh_);
    }

    method Decr(c: nat, key: seq<nat>, states: nat, label_: nat, state: nat) returns (left: nat)
      requires Valid() && label_ * states + state < |key|
      requires Slot(c, Locate(key, states, label_, state).0) in st.slots && Slot(c, Locate(key, states, label_, state).0) !in setting
      requires counts[Slot(c, Locate(key, states, label_, state).0)][Locate(key, states, label_, state).1] > 0
      modifies `st, `counts
      ensures Valid() && old(Slot(c, Locate(key, states, label_, state).0) in counts)
      ensures left == old(counts)[Slot(c, Locate(key, states, label_, state).0)][Locate(key, states, label_, state).1] - 1
      ensures counts == old(counts)[Slot(c, Locate(key, states, label_, state).0) :=
                Put(old(counts)[Slot(c, Locate(key, states, label_, state).0)], Locate(key, states, label_, state).1, left)]
    {
      var place := Locate(key, states, label_, state);
      left := DecrCell(Slot(c, place.0), place.1);
    }

    /** Brings the counter to the given number of rows, the new ones without counts. */
    method Resize(c: nat, rowCount: nat, ghost complete: bool)
      requires Valid() && c in sizes && sizes[c] <= rowCount
      modifies this
      ensures Valid() && sizes == old(sizes)[c := rowCount]
      ensures forall s: Slot :: s in old(counts) ==> s in counts && counts[s] == old(counts)[s] && st.slots[s] == old(st).slots[s]
      ensures forall r: nat :: old(sizes)[c] <= r < rowCount ==>
                Slot(c, r) in counts && counts[Slot(c, r)] == Zeros(rowSize) && st.slots[Slot(c, r)] == Row(0, None) && (Slot(c, r) in setting <==> !complete)
      ensures forall s: Slot :: s in setting && !(s.c == c && old(sizes)[c] <= s.r) ==> s in old(setting)
      ensures old(setting) <= setting
    {
      while sizes[c] < rowCount
        invariant Valid() && c in sizes && old(sizes)[c] <= sizes[c] <= rowCount && sizes == old(sizes)[c := sizes[c]]
        invariant forall s: Slot :: s in old(counts) ==> s in counts && counts[s] == old(counts)[s] && st.slots[s] == old(st).slots[s]
        invariant forall r: nat :: old(sizes)[c] <= r < sizes[c] ==>
                    Slot(c, r) in counts && counts[Slot(c, r)] == Zeros(rowSize) && st.slots[Slot(c, r)] == Row(0, None) && (Slot(c, r) in setting <==> !complete)
        invariant forall s: Slot :: s in setting && !(s.c == c && old(sizes)[c] <= s.r) ==> s in old(setting)
        invariant old(setting) <= setting
        decreases rowCount - sizes[c]
      {
        AddRow(c, complete);
      }
    }

    /** The rows of the labels that the other counter has. */
    method CollectRanges(src: nat, labels: seq<nat>) returns (ranges: seq<Range>, sent: nat)
      requires Valid() && src in sizes && forall l :: l in labels ==> l < |labelMap|
      ensures sent <= sizes[src] && forall g :: g in ranges ==> g.first < g.end <= sent
      ensures forall r: nat {:trigger InRanges(ranges, r)} :: InRanges(ranges, r) <==> r < sizes[src] && InLabels(labels, r)
    {
      ranges, sent := [], 0;
      var i := 0;
      while i < |labels|
        invariant 0 <= i <= |labels| && sent <= sizes[src] && forall g :: g in ranges ==> g.first < g.end <= sent
        invariant forall r: nat {:trigger InRanges(ranges, r)} :: InRanges(ranges, r) <==> r < sizes[src] && InLabels(labels[..i], r)
      {
        assert labels[i] in labels && labels[..i + 1] == labels[..i] + [labels[i]];
        var range := labelMap[labels[i]];
        var end := if sizes[src] < range.end then sizes[src] else range.end;
        ghost var before := ranges;
        if end > range.first {
          ranges := ranges + [Range(range.first, end)];
          if end > sent { sent := end; }
        }
        forall r: nat ensures InRanges(ranges, r) <==> r < sizes[src] && InLabels(labels[..i + 1], r) {
          RangesStep(before, range, end, labels, i, r, ranges);
        }
        i := i + 1;
      }
      assert labels[..i] == labels;
    }

    ghost predicate InRanges(ranges: seq<Range>, r: nat) {
      exists g :: g in ranges && g.first <= r < g.end
    }

    /** The row holds cells of one of the labels. */
    ghost predicate InLabels(labels: seq<nat>, r: nat)
    {
      exists l :: l in labels && l < |labelMap| && labelMap[l].first <= r < labelMap[l].end
    }

    lemma RangesStep(before: seq<Range>, range: Range, end: nat, labels: seq<nat>, i: nat, r: nat, ranges: seq<Range>)
      requires i < |labels| && labels[i] < |labelMap| && labelMap[labels[i]] == range
      requires ranges == if end > range.first then before + [Range(range.first, end)] else before
      ensures InRanges(ranges, r) <==> InRanges(before, r) || range.first <= r < end
      ensures InLabels(labels[..i + 1], r) <==> InLabels(labels[..i], r) || range.first <= r < range.end
    {
      assert labels[..i + 1] == labels[..i] + [labels[i]];
      if range.first <= r < end {
        assert Range(range.first, end) in ranges;
      }
      if g :| g in before && g.first <= r < g.end {
        assert g in ranges;
      }
      if range.first <= r < range.end {
        assert labels[i] in labels[..i + 1];
      }
    }

    /** While rows are copied: those in the mask are as in before, the others are empty, and the
        rows of other counters have not changed. */
    ghost predicate Copying(c: nat, src: nat, mask: seq<bool>, before: map<Slot, seq<nat>>)
      reads this
    {
      && Valid() && c != src && c in sizes && src in sizes && sizes[c] == |mask| <= sizes[src]
      && (forall r: nat :: r < sizes[src] ==> Slot(src, r) !in setting) && (forall r: nat :: r < |mask| ==> Slot(c, r) !in setting)
      && (forall s: Slot :: s in counts && s.c != c ==> s in before && counts[s] == before[s])
      && (forall r: nat :: r < |mask| ==>
            && Slot(c, r) in counts && Slot(src, r) in before
            && counts[Slot(c, r)] == (if mask[r] then before[Slot(src, r)] else Zeros(rowSize))
            && (!mask[r] ==> st.slots[Slot(c, r)] == Row(0, None)))
    }

    method CopyRow(c: nat, src: nat, mask: seq<bool>, r: nat,
            ghost before: map<Slot, seq<nat>>) returns (mask': seq<bool>)
      requires Copying(c, src, mask, before) && r < |mask|
      modifies `st, `counts
      ensures Copying(c, src, mask', before) && mask' == mask[r := true] && counts.Keys == old(counts).Keys
    {
      mask' := mask[r := true];
      if !mask[r] {
        ShareSlot(Slot(src, r), Slot(c, r));
      }
    }

    method CopyRange(c: nat, src: nat, mask: seq<bool>, range: Range,
            ghost before: map<Slot, seq<nat>>) returns (mask': seq<bool>)
      requires Copying(c, src, mask, before) && range.first < range.end <= |mask|
      modifies `st, `counts
      ensures Copying(c, src, mask', before) && |mask'| == |mask| && counts.Keys == old(counts).Keys
      ensures forall r :: 0 <= r < |mask| ==> (mask'[r] <==> mask[r] || range.first <= r < range.end)
    {
      mask' := mask;
      var i := range.first;
      while i < range.end
        invariant range.first <= i <= range.end && |mask'| == |mask| && Copying(c, src, mask', before) && counts.Keys == old(counts).Keys
        invariant forall r :: 0 <= r < |mask| ==> (mask'[r] <==> mask[r] || range.first <= r < i)
      {
        mask' := CopyRow(c, src, mask', i, before);
        i := i + 1;
      }
    }

    /** Gives the counter c, which has no rows yet, the rows of the labels of another counter.
        The arrays are shared; no count of another counter changes. */
    method CopyLabels(c: nat, labels: seq<nat>, src: nat)
      requires Valid() && c in sizes && sizes[c] == 0 && src in sizes && c != src
      requires (forall r: nat :: r < sizes[src] ==> Slot(src, r) !in setting) && forall l :: l in labels ==> l < |labelMap|
      modifies this
      ensures Valid() && setting == old(setting) && c in sizes && sizes == old(sizes)[c := sizes[c]] && sizes[c] <= sizes[src]
      ensures forall s: Slot :: s in old(counts) ==> s in counts && counts[s] == old(counts)[s]
      ensures forall r: nat {:trigger InLabels(labels, r)} :: r < old(sizes)[src] && InLabels(labels, r) ==>
                r < sizes[c] && counts[Slot(c, r)] == old(counts)[Slot(src, r)]
      ensures forall r: nat {:trigger InLabels(labels, r)} :: r < sizes[c] && !InLabels(labels, r) ==> counts[Slot(c, r)] == Zeros(rowSize)
    {
      ghost var before, sizes0 := counts, sizes;
      var ranges, sent := CollectRanges(src, labels);
      ResizeForCopy(c, src, sent);
      var mask := CopyRanges(c, src, sent, ranges, before);
      forall r: nat | r < sizes0[src] && InLabels(labels, r) ensures r < sent && counts[Slot(c, r)] == before[Slot(src, r)] {
        assert InRanges(ranges, r);
        assert mask[r];
      }
      forall r: nat | r < sent && !InLabels(labels, r) ensures counts[Slot(c, r)] == Zeros(rowSize) {
        assert !InRanges(ranges, r);
        assert !mask[r];
      }
    }

    method ResizeForCopy(c: nat, src: nat, sent: nat)
      requires Valid() && c in sizes && sizes[c] == 0 && src in sizes && c != src && sent <= sizes[src]
      requires forall r: nat :: r < sizes[src] ==> Slot(src, r) !in setting
      modifies this
      ensures Copying(c, src, seq(sent, _ => false), old(counts)) && setting == old(setting) && sizes == old(sizes)[c := sent]
      ensures old(counts).Keys <= counts.Keys
    {
      Resize(c, sent, true);
    }

    lemma NextRange(ranges: seq<Range>, i: nat, mask: seq<bool>, mask': seq<bool>)
      requires i < |ranges| && |mask'| == |mask|
      requires forall r: nat {:trigger mask[r]} :: r < |mask| ==> (mask[r] <==> InRanges(ranges[..i], r))
      requires forall r :: 0 <= r < |mask| ==> (mask'[r] <==> mask[r] || ranges[i].first <= r < ranges[i].end)
      ensures forall r: nat {:trigger mask'[r]} :: r < |mask| ==> (mask'[r] <==> InRanges(ranges[..i + 1], r))
    {
      assert ranges[..i + 1] == ranges[..i] + [ranges[i]];
    }

    method CopyRanges(c: nat, src: nat, sent: nat, ranges: seq<Range>,
            ghost before: map<Slot, seq<nat>>) returns (mask: seq<bool>)
      requires Copying(c, src, seq(sent, _ => false), before) && forall g :: g in ranges ==> g.first < g.end <= sent
      modifies `st, `counts
      ensures |mask| == sent && Copying(c, src, mask, before) && counts.Keys == old(counts).Keys
      ensures forall r: nat {:trigger mask[r]} :: r < sent ==> (mask[r] <==> InRanges(ranges, r))
      ensures forall r: nat {:trigger InRanges(ranges, r)} :: InRanges(ranges, r) ==> r < sent
    {
      mask := seq(sent, _ => false);
      var i := 0;
      while i < |ranges|
        invariant 0 <= i <= |ranges| && |mask| == sent && Copying(c, src, mask, before) && counts.Keys == old(counts).Keys
        invariant forall r: nat {:trigger mask[r]} :: r < sent ==> (mask[r] <==> InRanges(ranges[..i], r))
      {
        assert ranges[i] in ranges;
        ghost var mask0 := mask;
        mask := CopyRange(c, src, mask, ranges[i], before);
        NextRange(ranges, i, mask0, mask);
        i := i + 1;
      }
      assert ranges[..i] == ranges;
    }

    /** The counter goes away; arrays that nobody else holds are reclaimed. */
    method Destroy(c: nat)
      requires Valid() && c in sizes && forall r: nat :: r < sizes[c] ==> Slot(c, r) !in setting
      modifies this
      ensures Valid() && setting == old(setting) && sizes == old(sizes)[c := 0]
      ensures forall s: Slot :: s in counts <==> s in old(counts) && s.c != c
      ensures forall s: Slot :: s in counts ==> counts[s] == old(counts)[s]
    {
      while sizes[c] > 0
        invariant Valid() && c in sizes && setting == old(setting) && sizes == old(sizes)[c := sizes[c]] && sizes[c] <= old(sizes)[c]
        invariant forall s: Slot :: s in counts <==> s in old(counts) && (s.c == c ==> s.r < sizes[c])
        invariant forall s: Slot :: s in counts ==> counts[s] == old(counts)[s]
        decreases sizes[c]
      {
        ReleaseSlot(Slot(c, sizes[c] - 1));
      }
    }
  }
}