/** The data structures of the simulation engine stand for the parts of a configuration, and
    their operations for the steps on configurations. */
module EngineData {
  import opened Collections
  import opened Lts
  import opened LtsConfig
  import Lists = BlockList
  import DoubleLinks
  import BR = BinaryRelation
  import SR = SplittingRelation
  import SC = SharedCounter

  // ---------------------------------------------------------------- the block relation

  ghost predicate RelationStands(cells: set<SR.Cell>, rel: seq<set<nat>>) {
    forall b: nat, x: nat :: SR.Cell(b, x) in cells <==> b < |rel| && x in rel[b]
  }

  lemma AscendingNoDup(s: seq<nat>)
    requires BR.Ascending(s)
    ensures NoDup(s)
  {
  }

  /** Fills the linked relation from the rows of the relation on the classes. */
  method InitRelation(r: SR.Relation, relation: BR.BinaryRelation, ghost rel: seq<set<nat>>)
    requires relation.Valid() && r.Valid() && r.size == 0 && |rel| == relation.size <= r.maxSize
    requires forall b: nat, x: nat :: b < |rel| ==> (x in rel[b] <==> relation.Get(b, x))
    modifies r
    ensures r.Valid() && r.size == |rel| && RelationStands(r.Pairs(), rel)
  {
    var index, _ := relation.BuildIndex();
    forall i | 0 <= i < |index| ensures NoDup(index[i]) && forall j :: j in index[i] ==> j < |index| {
      AscendingNoDup(index[i]);
    }
    r.Init(index);
  }

  /** Blocks are related to themselves, so splitting the linked relation gives the relation of
      the split configuration. */
  lemma SplitStands(l: Lts, c: Config, c': Config, b: nat, kept: seq<nat>, moved: seq<nat>, cells: set<SR.Cell>)
    requires OverBlocks(c) && SplitOf(l, c, c', b, kept, moved) && RelationStands(cells, c.rel)
    ensures SR.Cell(b, b) in cells && RelationStands(SR.SplitOf(cells, b, |c.blocks|), c'.rel)
  {
    var n := |c.blocks|;
    var cells' := SR.SplitOf(cells, b, n);
    forall x: nat, y: nat ensures SR.Cell(x, y) in cells' <==> x < |c'.rel| && y in c'.rel[x] {
      SplitCell(cells, b, n, x, y);
      assert SR.Cell(x, y) in cells <==> x < |c.rel| && y in c.rel[x];
      assert SR.Cell(x, b) in cells <==> x < |c.rel| && b in c.rel[x];
      assert SR.Cell(b, y) in cells <==> y in c.rel[b];
      assert x < n && y in c.rel[x] ==> y < n;
    }
    assert b in c.rel[b];
  }

  lemma SplitCell(cells: set<SR.Cell>, b: nat, n: nat, x: nat, y: nat)
    ensures SR.Cell(x, y) in SR.SplitOf(cells, b, n) <==>
              SR.Cell(x, y) in cells || (y == n && SR.Cell(x, b) in cells) || (x == n && SR.Cell(b, y) in cells) || x == y == n
  {
    if SR.Cell(x, b) in cells { assert SR.Cell(x, b).row == x; }
    if SR.Cell(b, y) in cells { assert SR.Cell(b, y).col == y; }
  }

  /** Splits the linked relation as the step from c to c' splits the block relation. */
  method SplitRelation(r: SR.Relation, b: nat, ghost l: Lts, ghost c: Config, ghost c': Config, ghost kept: seq<nat>,
          ghost moved: seq<nat>)
    requires r.Valid() && r.maxSize == l.states && r.size == |c.blocks|
    requires Shape(l, c) && Shape(l, c') && SplitOf(l, c, c', b, kept, moved) && RelationStands(r.Pairs(), c.rel)
    modifies r
    ensures r.Valid() && r.size == |c'.blocks| && RelationStands(r.Pairs(), c'.rel)
  {
    FewBlocks(l.states, c');
    SplitStands(l, c, c', b, kept, moved, r.Pairs());
    assert SR.RelatedToSome(r.Pairs(), b);
    var n := r.Split(b);
  }

  /** Walks along the row of block b in the linked relation, taking out the masked blocks, as the
      step on configurations takes them out of the row as a set. */
  method EraseRow(r: SR.Relation, b: nat, removeMask: seq<bool>, ghost rel: seq<set<nat>>) returns (erased: seq<nat>)
    requires r.Valid() && b < r.size <= |removeMask| && r.size == |rel| && RelationStands(r.Pairs(), rel)
    modifies r
    ensures r.Valid() && r.size == old(r.size)
    ensures NoDup(erased) && forall x: nat :: x in erased <==> x in rel[b] && x < |removeMask| && removeMask[x]
    ensures RelationStands(r.Pairs(), rel[b := rel[b] - SetOf(erased)])
  {
    ghost var cells := r.Pairs();
    erased := r.EraseMasked(b, removeMask);
    forall x: nat ensures x in erased <==> x in rel[b] && x < |removeMask| && removeMask[x] {
      assert SR.Cell(b, x) in cells <==> x in rel[b];
    }
    RowStands(cells, rel, b, erased);
  }

  lemma RowStands(cells: set<SR.Cell>, rel: seq<set<nat>>, b: nat, erased: seq<nat>)
    requires RelationStands(cells, rel) && b < |rel|
    ensures RelationStands(cells - SR.InRow(erased, b), rel[b := rel[b] - SetOf(erased)])
  {
    forall x: nat, y: nat
      ensures SR.Cell(x, y) in cells - SR.InRow(erased, b) <==> x < |rel| && y in rel[b := rel[b] - SetOf(erased)][x]
    {
      assert SR.Cell(x, y) in SR.InRow(erased, b) <==> x == b && y in erased;
    }
  }

  // ---------------------------------------------------------------- the lists of states

  /** Splitting the circular list of a block shares out its states as the step requires. */
  lemma SplitShares(c: seq<nat>, c': seq<nat>, tmp: seq<nat>)
    requires NoDup(c) && NoDup(c') && NoDup(tmp) && tmp != [] && |tmp| < |c| && Lists.IsMinus(c', c, tmp)
    requires forall q :: q in tmp ==> q in c
    ensures Shares(c, c', Lists.Rotation(tmp))
  {
    Lists.RotationHas(tmp);
  }

  /** Splits the list of a block: the configuration gets the block that is left and the new one. */
  method SplitStates(block: Lists.Block, list: Lists.StateList) returns (first: Option<nat>, n: nat)
    requires block.Valid(list.links) && block.tmp != []
    modifies block, list
    ensures block.Valid(list.links)
    ensures first == None <==> |old(block.tmp)| == old(block.size)
    ensures first.Some? ==>
              && Shares(old(block.cycle), block.cycle, Lists.Rotation(old(block.tmp)))
              && Lists.Cycle(list.links, Lists.Rotation(old(block.tmp)))
              && first.value == Lists.Rotation(old(block.tmp))[0] && n == |Lists.Rotation(old(block.tmp))|
  {
    Lists.NoMoreThan(block.tmp, block.cycle);
    Lists.RotationHas(block.tmp);
    ghost var c, tmp := block.cycle, block.tmp;
    first, n := block.TrySplit(list);
    if first.Some? {
      SplitShares(c, block.cycle, tmp);
    }
  }

  // ---------------------------------------------------------------- the counters

  /** Where the counters keep the count of a state under a label: key gives a number to every
      state with successors under the label, labelMap the rows of the label. */
  datatype Keys = Keys(key: seq<nat>, labelMap: seq<SC.Range>, states: nat, rowSize: nat)

  const UNSET: nat := 0xFFFF_FFFF_FFFF_FFFF

  /** What size_t arithmetic makes of the row that ends the cells x to x + size. */
  function EndRow(x: nat, size: nat, rowSize: nat): nat
    requires rowSize > 0
  {
    (if x + size == 0 then UNSET else x + size - 1) / rowSize + if size > 0 then 1 else 0
  }

  function RowsOf(x: nat, size: nat, rowSize: nat): SC.Range
    requires rowSize > 0
  {
    SC.Range(x / rowSize, EndRow(x, size, rowSize))
  }

  predicate HasKey(delta1: seq<seq<nat>>, states: nat, a: nat, q: nat) {
    a < |delta1| && q in delta1[a] && q < states
  }

  function KeyIndex(states: nat, a: nat, q: nat): nat {
    a * states + q
  }

  ghost predicate Keyed(K: Keys, delta1: seq<seq<nat>>) {
    && K.rowSize > 0 && |K.labelMap| == |delta1|
    && (forall a: nat, q: nat {:trigger HasKey(delta1, K.states, a, q)} :: HasKey(delta1, K.states, a, q) ==>
          && KeyIndex(K.states, a, q) < |K.key|
          && K.labelMap[a].first <= K.key[KeyIndex(K.states, a, q)] / K.rowSize < K.labelMap[a].end)
    && (forall a: nat, q: nat, a': nat, q': nat {:trigger HasKey(delta1, K.states, a, q), HasKey(delta1, K.states, a', q')} ::
          HasKey(delta1, K.states, a, q) && HasKey(delta1, K.states, a', q') && (a != a' || q != q') ==>
          K.key[KeyIndex(K.states, a, q)] != K.key[KeyIndex(K.states, a', q')])
  }

  /** The number of the first cell of label a. */
  function Start(delta1: seq<seq<nat>>, a: nat): nat
    requires a <= |delta1|
  {
    if a == 0 then 0 else Start(delta1, a - 1) + |delta1[a - 1]|
  }

  lemma {:induction false} StartGrows(delta1: seq<seq<nat>>, a: nat, b: nat)
    requires a < b <= |delta1|
    ensures Start(delta1, a) + |delta1[a]| <= Start(delta1, b)
  {
    if a + 1 < b { StartGrows(delta1, a, b - 1); }
  }

  lemma IndexFits(n: nat, states: nat, a: nat, q: nat)
    requires a < n && q < states
    ensures KeyIndex(states, a, q) < n * states
  {
    assert (a + 1) * states <= n * states;
  }

  lemma IndexInjective(states: nat, a: nat, q: nat, a': nat, q': nat)
    requires q < states && q' < states && (a != a' || q != q')
    ensures KeyIndex(states, a, q) != KeyIndex(states, a', q')
  {
    if a < a' {
      assert (a + 1) * states <= a' * states;
    } else if a' < a {
      assert (a' + 1) * states <= a * states;
    }
  }

  ghost predicate NumberedAt(key: seq<nat>, delta1: seq<seq<nat>>, states: nat, b: nat, j: nat) {
    b < |delta1| && j < |delta1[b]| ==>
      KeyIndex(states, b, delta1[b][j]) < |key| && key[KeyIndex(states, b, delta1[b][j])] == Start(delta1, b) + j
  }

  /** The cells of the labels before a, and the first i cells of label a, have their numbers. */
  ghost predicate Numbered(key: seq<nat>, delta1: seq<seq<nat>>, states: nat, a: nat, i: nat) {
    forall b: nat, j: nat {:trigger NumberedAt(key, delta1, states, b, j)} ::
      b < a || (b == a && j < i) ==> NumberedAt(key, delta1, states, b, j)
  }

  ghost predicate ProperDelta(delta1: seq<seq<nat>>, states: nat) {
    forall a :: 0 <= a < |delta1| ==> NoDup(delta1[a]) && forall q :: q in delta1[a] ==> q < states
  }

  lemma NumberNext(key: seq<nat>, delta1: seq<seq<nat>>, states: nat, a: nat, i: nat)
    requires ProperDelta(delta1, states) && |key| == |delta1| * states && a < |delta1| && i < |delta1[a]|
    requires Numbered(key, delta1, states, a, i)
    ensures KeyIndex(states, a, delta1[a][i]) < |key|
    ensures Numbered(key[KeyIndex(states, a, delta1[a][i]) := Start(delta1, a) + i], delta1, states, a, i + 1)
  {
    var q := delta1[a][i];
    assert q in delta1[a];
    IndexFits(|delta1|, states, a, q);
    var key' := key[KeyIndex(states, a, q) := Start(delta1, a) + i];
    forall b: nat, j: nat | b < a || (b == a && j < i + 1) ensures NumberedAt(key', delta1, states, b, j) {
      if b < |delta1| && j < |delta1[b]| && (b, j) != (a, i) {
        assert NumberedAt(key, delta1, states, b, j);
        assert delta1[b][j] in delta1[b];
        IndexInjective(states, a, q, b, delta1[b][j]);
      }
    }
  }

  lemma TimesGrows(a: nat, b: nat, d: nat)
    requires a <= b
    ensures a * d <= b * d
  {
  }

  lemma LessTimes(a: nat, b: nat, d: nat)
    requires a * d < b * d
    ensures a < b
  {
    if b <= a { TimesGrows(b, a, d); }
  }

  lemma DivisionGrows(x: nat, y: nat, d: nat)
    requires x <= y && d > 0
    ensures x / d <= y / d
  {
    assert x / d * d <= x && y < (y / d + 1) * d;
    LessTimes(x / d, y / d + 1, d);
  }

  /** A label's cells lie in its rows. */
  lemma InRows(x: nat, size: nat, j: nat, rowSize: nat)
    requires rowSize > 0 && j < size
    ensures x / rowSize <= (x + j) / rowSize < EndRow(x, size, rowSize)
  {
    DivisionGrows(x, x + j, rowSize);
    DivisionGrows(x + j, x + size - 1, rowSize);
  }

  ghost predicate Mapped(labelMap: seq<SC.Range>, delta1: seq<seq<nat>>, rowSize: nat, n: nat)
    requires rowSize > 0
  {
    && |labelMap| == n <= |delta1|
    && forall a: nat :: a < n ==> labelMap[a] == RowsOf(Start(delta1, a), |delta1[a]|, rowSize)
  }

  lemma NumberIs(key: seq<nat>, delta1: seq<seq<nat>>, states: nat, a: nat, q: nat) returns (j: nat)
    requires Numbered(key, delta1, states, |delta1|, 0) && HasKey(delta1, states, a, q)
    ensures j < |delta1[a]| && delta1[a][j] == q
    ensures KeyIndex(states, a, q) < |key| && key[KeyIndex(states, a, q)] == Start(delta1, a) + j
  {
    j :| j < |delta1[a]| && delta1[a][j] == q;
    assert NumberedAt(key, delta1, states, a, j);
  }

  lemma NumbersDiffer(key: seq<nat>, delta1: seq<seq<nat>>, states: nat, a: nat, q: nat, a': nat, q': nat)
    requires Numbered(key, delta1, states, |delta1|, 0) && HasKey(delta1, states, a, q) && HasKey(delta1, states, a', q')
    requires a != a' || q != q'
    ensures KeyIndex(states, a, q) < |key| && KeyIndex(states, a', q') < |key|
    ensures key[KeyIndex(states, a, q)] != key[KeyIndex(states, a', q')]
  {
    var j := NumberIs(key, delta1, states, a, q);
    var j' := NumberIs(key, delta1, states, a', q');
    if a < a' { StartGrows(delta1, a, a'); }
    if a' < a { StartGrows(delta1, a', a); }
  }

  lemma NumbersAreKeys(key: seq<nat>, labelMap: seq<SC.Range>, delta1: seq<seq<nat>>, states: nat, rowSize: nat)
    requires rowSize > 0 && Mapped(labelMap, delta1, rowSize, |delta1|) && Numbered(key, delta1, states, |delta1|, 0)
    ensures Keyed(Keys(key, labelMap, states, rowSize), delta1)
  {
    forall a: nat, q: nat | HasKey(delta1, states, a, q)
      ensures KeyIndex(states, a, q) < |key| && labelMap[a].first <= key[KeyIndex(states, a, q)] / rowSize < labelMap[a].end
    {
      var j := NumberIs(key, delta1, states, a, q);
      InRows(Start(delta1, a), |delta1[a]|, j, rowSize);
    }
    forall a: nat, q: nat, a': nat, q': nat | HasKey(delta1, states, a, q) && HasKey(delta1, states, a', q') && (a != a' || q != q')
      ensures key[KeyIndex(states, a, q)] != key[KeyIndex(states, a', q')]
    {
      NumbersDiffer(key, delta1, states, a, q, a', q');
    }
  }

  /** Numbers the states with successors under label a, from x on. */
  method FillLabel(key: seq<nat>, delta1: seq<seq<nat>>, states: nat, a: nat, x: nat) returns (key': seq<nat>)
    requires ProperDelta(delta1, states) && |key| == |delta1| * states && a < |delta1| && x == Start(delta1, a)
    requires Numbered(key, delta1, states, a, 0)
    ensures |key'| == |key| && Numbered(key', delta1, states, a + 1, 0)
  {
    key' := key;
    for i := 0 to |delta1[a]|
      invariant |key'| == |key| && Numbered(key', delta1, states, a, i)
    {
      NumberNext(key', delta1, states, a, i);
      key' := key'[KeyIndex(states, a, delta1[a][i]) := x + i];
    }
    LabelDone(key', delta1, states, a);
  }

  /** The numbers and the rows of label a. */
  method NumberLabel(K: Keys, delta1: seq<seq<nat>>, a: nat, x: nat) returns (K': Keys)
    requires ProperDelta(delta1, K.states) && a < |delta1| && x == Start(delta1, a) && Building(K, delta1, a)
    ensures Building(K', delta1, a + 1) && K'.states == K.states && K'.rowSize == K.rowSize
  {
    var key := FillLabel(K.key, delta1, K.states, a, x);
    K' := K.(key := key, labelMap := K.labelMap + [RowsOf(x, |delta1[a]|, K.rowSize)]);
  }

  /** The labels before a have their numbers and their rows. */
  ghost predicate Building(K: Keys, delta1: seq<seq<nat>>, a: nat) {
    K.rowSize > 0 && |K.key| == |delta1| * K.states && Mapped(K.labelMap, delta1, K.rowSize, a) && Numbered(K.key, delta1, K.states, a, 0)
  }

  /** Numbers the states with successors, label by label. */
  method BuildKeys(delta1: seq<seq<nat>>, states: nat, rowSize: nat) returns (K: Keys)
    requires rowSize > 0 && ProperDelta(delta1, states)
    ensures Keyed(K, delta1) && K.states == states && K.rowSize == rowSize
  {
    K := Keys(seq(|delta1| * states, _ => UNSET), [], states, rowSize);
    var x := 0;
    for a := 0 to |delta1|
      invariant K.states == states && K.rowSize == rowSize && x == Start(delta1, a) && Building(K, delta1, a)
    {
      K := NumberLabel(K, delta1, a, x);
      x := x + |delta1[a]|;
    }
    NumbersAreKeys(K.key, K.labelMap, delta1, states, rowSize);
  }

  lemma LabelDone(key: seq<nat>, delta1: seq<seq<nat>>, states: nat, a: nat)
    requires a < |delta1| && Numbered(key, delta1, states, a, |delta1[a]|)
    ensures Numbered(key, delta1, states, a + 1, 0)
  {
    forall b: nat, j: nat | b < a + 1 ensures NumberedAt(key, delta1, states, b, j) {
      if b == a && j >= |delta1[a]| {
      } else {
        assert NumberedAt(key, delta1, states, b, j);
      }
    }
  }

  function RowAt(K: Keys, a: nat, q: nat): nat
    requires K.rowSize > 0 && KeyIndex(K.states, a, q) < |K.key|
  {
    K.key[KeyIndex(K.states, a, q)] / K.rowSize
  }

  function ColAt(K: Keys, a: nat, q: nat): nat
    requires K.rowSize > 0 && KeyIndex(K.states, a, q) < |K.key|
  {
    K.key[KeyIndex(K.states, a, q)] % K.rowSize
  }

  /** What the rows of counter c say about state q and label a; a missing row counts nothing. */
  function CountAt(counts: map<SC.Slot, seq<nat>>, K: Keys, c: nat, a: nat, q: nat): nat
    requires K.rowSize > 0 && KeyIndex(K.states, a, q) < |K.key|
  {
    var s := SC.Slot(c, RowAt(K, a, q));
    if s in counts && ColAt(K, a, q) < |counts[s]| then counts[s][ColAt(K, a, q)] else 0
  }

  lemma OtherPlace(K: Keys, delta1: seq<seq<nat>>, a: nat, q: nat, a': nat, q': nat)
    requires Keyed(K, delta1) && HasKey(delta1, K.states, a, q) && HasKey(delta1, K.states, a', q') && (a != a' || q != q')
    ensures RowAt(K, a, q) != RowAt(K, a', q') || ColAt(K, a, q) != ColAt(K, a', q')
  {
    var x, y := K.key[KeyIndex(K.states, a, q)], K.key[KeyIndex(K.states, a', q')];
    assert x == x / K.rowSize * K.rowSize + x % K.rowSize && y == y / K.rowSize * K.rowSize + y % K.rowSize;
  }

  /** One count is x; all others, also those of other counters, are as they were. */
  ghost predicate OneCount(counts: map<SC.Slot, seq<nat>>, counts': map<SC.Slot, seq<nat>>, K: Keys, delta1: seq<seq<nat>>,
                           c: nat, a: nat, q: nat, x: nat)
    requires Keyed(K, delta1)
  {
    forall c': nat, a': nat, q': nat {:trigger CountAt(counts', K, c', a', q')} :: HasKey(delta1, K.states, a', q') ==>
      CountAt(counts', K, c', a', q') == if c' == c && a' == a && q' == q then x else CountAt(counts, K, c', a', q')
  }

  lemma PutCount(counts: map<SC.Slot, seq<nat>>, K: Keys, delta1: seq<seq<nat>>, c: nat, a: nat, q: nat, x: nat)
    requires Keyed(K, delta1) && HasKey(delta1, K.states, a, q)
    requires SC.Slot(c, RowAt(K, a, q)) in counts && ColAt(K, a, q) < |counts[SC.Slot(c, RowAt(K, a, q))]|
    ensures var s := SC.Slot(c, RowAt(K, a, q));
            OneCount(counts, counts[s := SC.Put(counts[s], ColAt(K, a, q), x)], K, delta1, c, a, q, x)
  {
    var s := SC.Slot(c, RowAt(K, a, q));
    var counts' := counts[s := SC.Put(counts[s], ColAt(K, a, q), x)];
    forall c': nat, a': nat, q': nat | HasKey(delta1, K.states, a', q')
      ensures CountAt(counts', K, c', a', q') == if c' == c && a' == a && q' == q then x else CountAt(counts, K, c', a', q')
    {
      if a' != a || q' != q { OtherPlace(K, delta1, a, q, a', q'); }
    }
  }

  /** The counter has the counts of the block, for the labels under which the block is entered. */
  ghost predicate CountersStand(counts: map<SC.Slot, seq<nat>>, K: Keys, delta1: seq<seq<nat>>, c: nat, b: Block)
    requires Keyed(K, delta1)
  {
    forall a: nat, q: nat {:trigger CountAt(counts, K, c, a, q)} :: a in b.inset && HasKey(delta1, K.states, a, q) ==>
      CountAt(counts, K, c, a, q) == Cell(b.counter, a, q)
  }

  /** Decrements the count of block b: its counter and the configuration stay in step, and no
      other counter notices. */
  method Decr(S: SC.SharedCounters, K: Keys, c: nat, a: nat, q: nat, ghost delta1: seq<seq<nat>>,
          ghost b: Block) returns (left: nat)
    requires S.Valid() && S.rowSize == K.rowSize && S.setting == {} && Keyed(K, delta1) && HasKey(delta1, K.states, a, q)
    requires CountersStand(S.counts, K, delta1, c, b) && a in b.inset && Cell(b.counter, a, q) > 0
    modifies S`st, S`counts
    ensures S.Valid() && left == Cell(b.counter, a, q) - 1
    ensures CountersStand(S.counts, K, delta1, c, b.(counter := b.counter[(a, q) := left]))
    ensures OneCount(old(S.counts), S.counts, K, delta1, c, a, q, left)
  {
    assert CountAt(S.counts, K, c, a, q) == Cell(b.counter, a, q);
    PutCount(S.counts, K, delta1, c, a, q, CountAt(S.counts, K, c, a, q) - 1);
    left := S.Decr(c, K.key, K.states, a, q);
  }

  /** Sets a count for the first time. */
  method SetCount(S: SC.SharedCounters, K: Keys, c: nat, a: nat, q: nat, count: nat, fresh_: seq<nat>,
          ghost delta1: seq<seq<nat>>)
    requires S.Valid() && S.rowSize == K.rowSize == |fresh_| && Keyed(K, delta1) && HasKey(delta1, K.states, a, q)
    requires SC.Slot(c, RowAt(K, a, q)) in S.setting && CountAt(S.counts, K, c, a, q) == 0 && count > 0
    modifies S`st, S`counts
    ensures S.Valid() && OneCount(old(S.counts), S.counts, K, delta1, c, a, q, count)
  {
    assert SC.Slot(c, RowAt(K, a, q)) in S.st.slots && ColAt(K, a, q) < K.rowSize;
    PutCount(S.counts, K, delta1, c, a, q, count);
    S.Set(c, K.key, K.states, a, q, count, fresh_);
  }

  /** The counter of a new block gets the rows of the labels under which the block is entered:
      its counts are those that the configuration hands over, and no other counter changes. */
  method CopyCounts(S: SC.SharedCounters, K: Keys, c: nat, src: nat, labels: seq<nat>, ghost delta1: seq<seq<nat>>,
                    ghost parent: Block, ghost b: Block)
    requires S.Valid() && S.rowSize == K.rowSize && S.labelMap == K.labelMap && S.setting == {} && Keyed(K, delta1)
    requires c in S.sizes && S.sizes[c] == 0 && src in S.sizes && c != src
    requires (forall a :: a in labels ==> a < |K.labelMap|) && forall a: nat :: a in b.inset ==> a in labels && a in parent.inset
    requires forall a: nat, q: nat :: a in b.inset ==> Cell(b.counter, a, q) == Cell(parent.counter, a, q)
    requires CountersStand(S.counts, K, delta1, src, parent)
    modifies S
    ensures S.Valid() && S.setting == {}
    ensures CountersStand(S.counts, K, delta1, c, b)
    ensures forall d: nat, a: nat, q: nat {:trigger CountAt(S.counts, K, d, a, q)} :: d != c && HasKey(delta1, K.states, a, q) ==>
              CountAt(S.counts, K, d, a, q) == CountAt(old(S.counts), K, d, a, q)
  {
    ghost var counts := S.counts;
    S.CopyLabels(c, labels, src);
    forall a: nat, q: nat | a in b.inset && HasKey(delta1, K.states, a, q)
      ensures CountAt(S.counts, K, c, a, q) == Cell(b.counter, a, q)
    {
      assert CountAt(counts, K, src, a, q) == Cell(parent.counter, a, q);
      assert S.InLabels(labels, RowAt(K, a, q));
    }
  }
}
