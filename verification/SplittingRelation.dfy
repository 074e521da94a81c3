/** A relation on indexes kept as elements linked in four directions: along their rows and
    along their columns. */
module SplittingRelation {
  import opened Collections
  import opened DoubleLinks

  type Id = nat

  /** The elements, and the two ends of line i. */
  datatype Node = Element(id: Id) | Begin(i: nat) | End(i: nat)

  type Lines = Links<Node>

  function Path(i: nat, s: seq<Id>): (p: seq<Node>)
    ensures |p| == |s| + 2
    ensures forall k {:trigger p[k]} :: 0 <= k < |p| ==>
              p[k] == if k == 0 then Begin(i) else if k == |p| - 1 then End(i) else Element(s[k - 1])
  {
    [Begin(i)] + seq(|s|, k requires 0 <= k < |s| => Element(s[k])) + [End(i)]
  }

  lemma PathNoDup(i: nat, s: seq<Id>)
    requires NoDup(s)
    ensures NoDup(Path(i, s))
  {
  }

  /** What lies on a path. */
  predicate OnPath(i: nat, s: seq<Id>, x: Node) {
    match x
    case Begin(k) => k == i
    case End(k) => k == i
    case Element(id) => id in s
  }

  lemma InPath(i: nat, s: seq<Id>, x: Node)
    ensures x in Path(i, s) <==> OnPath(i, s, x)
  {
    var p := Path(i, s);
    if x in p {
      var k :| 0 <= k < |p| && p[k] == x;
    }
    match x
    case Begin(_) => assert p[0] == Begin(i);
    case End(_) => assert p[|p| - 1] == End(i);
    case Element(id) =>
      if id in s {
        var k :| 0 <= k < |s| && s[k] == id;
        assert p[k + 1] == x;
      }
  }

  ghost predicate LineIs(L: Lines, i: nat, s: seq<Id>) {
    NoDup(s) && Chain(L, Path(i, s))
  }

  /** The lines run through the lists of S, and every element knows its line. */
  ghost predicate LinesAre(L: Lines, S: seq<seq<Id>>, of: map<Id, nat>) {
    && (forall i: nat {:trigger LineIs(L, i, S[i])} :: i < |S| ==> LineIs(L, i, S[i]))
    && (forall id :: id in of ==> of[id] < |S| && id in S[of[id]])
    && (forall i: nat, id: Id {:trigger id in S[i]} :: i < |S| && id in S[i] ==> id in of && of[id] == i)
  }

  /** The links at position k of a line. */
  lemma LinkAt(L: Lines, i: nat, s: seq<Id>, k: nat)
    requires LineIs(L, i, s) && k <= |s|
    ensures Linked(L, Path(i, s)[k], Path(i, s)[k + 1])
    ensures Path(i, s)[k] == if k == 0 then Begin(i) else Element(s[k - 1])
    ensures Path(i, s)[k + 1] == if k == |s| then End(i) else Element(s[k])
  {
    assert Joined(L, Path(i, s), k);
  }

  predicate CanAppend(L: Lines, i: nat) { End(i) in L.prev }

  /** An element after the last of line i. */
  function Appended(L: Lines, i: nat, id: Id): Lines
    requires CanAppend(L, i)
  {
    Link(Link(L, L.prev[End(i)], Element(id)), Element(id), End(i))
  }

  lemma AppendedSame(L: Lines, i: nat, s: seq<Id>, id: Id)
    requires LineIs(L, i, s) && id !in s
    ensures CanAppend(L, i) && LineIs(Appended(L, i, id), i, s + [id])
  {
    var p, s' := Path(i, s), s + [id];
    PathNoDup(i, s);
    LinkAt(L, i, s, |s|);
    var q := p[0..|s| + 1];
    InPath(i, s, Element(id));
    InPath(i, s, End(i));
    PartOfChain(L, p, 0, |s| + 1);
    assert DoubleLinks.Last(q) == L.prev[End(i)];
    var L1 := Link(L, L.prev[End(i)], Element(id));
    Extended(L, q, Element(id));
    Extended(L1, q + [Element(id)], End(i));
    assert Path(i, s') == q + [Element(id)] + [End(i)];
  }

  /** Nodes of other lines do not matter to a line. */
  lemma OtherLine(L: Lines, j: nat, s: seq<Id>, a: Node, b: Node)
    requires LineIs(L, j, s) && !OnPath(j, s, a) && !OnPath(j, s, b)
    ensures LineIs(Link(L, a, b), j, s)
  {
    PathNoDup(j, s);
    InPath(j, s, a);
    InPath(j, s, b);
    ChainStays(L, Path(j, s), a, b);
  }

  /** Different lines have nothing in common. */
  lemma Apart(S: seq<seq<Id>>, of: map<Id, nat>, i: nat, j: nat, x: Node)
    requires forall k: nat, id: Id {:trigger id in S[k]} :: k < |S| && id in S[k] ==> id in of && of[id] == k
    requires i < |S| && j < |S| && i != j && x in Path(i, S[i])
    ensures !OnPath(j, S[j], x)
  {
    InPath(i, S[i], x);
  }

  lemma AppendedLine(L: Lines, S: seq<seq<Id>>, of: map<Id, nat>, i: nat, id: Id)
    requires LinesAre(L, S, of) && i < |S| && id !in of
    ensures CanAppend(L, i) && LinesAre(Appended(L, i, id), S[i := S[i] + [id]], of[id := i])
  {
    assert LineIs(L, i, S[i]);
    AppendedSame(L, i, S[i], id);
    LinkAt(L, i, S[i], |S[i]|);
    var last := L.prev[End(i)];
    forall j: nat | j < |S| && j != i ensures LineIs(Appended(L, i, id), j, S[j]) {
      assert LineIs(L, j, S[j]);
      Apart(S, of, i, j, last);
      OtherLine(L, j, S[j], last, Element(id));
      OtherLine(Link(L, last, Element(id)), j, S[j], Element(id), End(i));
    }
    LinesGrow(Appended(L, i, id), S, of, i, id);
  }

  lemma LinesGrow(L: Lines, S: seq<seq<Id>>, of: map<Id, nat>, i: nat, id: Id)
    requires i < |S| && id !in of && LineIs(L, i, S[i] + [id])
    requires forall j: nat :: j < |S| && j != i ==> LineIs(L, j, S[j])
    requires forall x :: x in of ==> of[x] < |S| && x in S[of[x]]
    requires forall j: nat, x: Id {:trigger x in S[j]} :: j < |S| && x in S[j] ==> x in of && of[x] == j
    ensures LinesAre(L, S[i := S[i] + [id]], of[id := i])
  {
    var S' := S[i := S[i] + [id]];
    forall j: nat, x: Id | j < |S'| && x in S'[j] ensures x in of[id := i] && of[id := i][x] == j {
      assert x in S[j] || (j == i && x == id);
    }
  }

  function Unlinked(L: Lines, id: Id): Lines
    requires Element(id) in L.next && Element(id) in L.prev
  {
    Link(L, L.prev[Element(id)], L.next[Element(id)])
  }

  function Without(s: seq<Id>, k: nat): seq<Id>
    requires k < |s|
  {
    s[..k] + s[k + 1..]
  }

  lemma WithoutHas(s: seq<Id>, k: nat)
    requires k < |s| && NoDup(s)
    ensures NoDup(Without(s, k)) && forall x :: x in Without(s, k) <==> x in s && x != s[k]
  {
    forall x | x in s && x != s[k] ensures x in Without(s, k) {
      var m :| 0 <= m < |s| && s[m] == x;
      assert Without(s, k)[if m < k then m else m - 1] == x;
    }
  }

  lemma UnlinkedSame(L: Lines, i: nat, s: seq<Id>, k: nat)
    requires LineIs(L, i, s) && k < |s|
    ensures Linked(L, Path(i, s)[k], Element(s[k])) && Linked(L, Element(s[k]), Path(i, s)[k + 2])
    ensures LineIs(Unlinked(L, s[k]), i, Without(s, k))
  {
    PathNoDup(i, s);
    WithoutHas(s, k);
    Shortened(L, Path(i, s), k + 1);
    assert Path(i, Without(s, k)) == Path(i, s)[..k + 1] + Path(i, s)[k + 2..];
  }

  lemma UnlinkedLine(L: Lines, S: seq<seq<Id>>, of: map<Id, nat>, i: nat, k: nat)
    requires LinesAre(L, S, of) && i < |S| && k < |S[i]|
    ensures Element(S[i][k]) in L.next && Element(S[i][k]) in L.prev
    ensures LinesAre(Unlinked(L, S[i][k]), S[i := Without(S[i], k)], of - {S[i][k]})
  {
    var id, a, b := S[i][k], Path(i, S[i])[k], Path(i, S[i])[k + 2];
    assert LineIs(L, i, S[i]);
    UnlinkedSame(L, i, S[i], k);
    forall j: nat | j < |S| && j != i ensures LineIs(Unlinked(L, id), j, S[j]) {
      assert LineIs(L, j, S[j]);
      Apart(S, of, i, j, a);
      Apart(S, of, i, j, b);
      OtherLine(L, j, S[j], a, b);
    }
    LinesShrink(Unlinked(L, id), S, of, i, k);
  }

  lemma LinesShrink(L: Lines, S: seq<seq<Id>>, of: map<Id, nat>, i: nat, k: nat)
    requires i < |S| && k < |S[i]| && NoDup(S[i]) && LineIs(L, i, Without(S[i], k))
    requires forall j: nat :: j < |S| && j != i ==> LineIs(L, j, S[j])
    requires forall x :: x in of ==> of[x] < |S| && x in S[of[x]]
    requires forall j: nat, x: Id {:trigger x in S[j]} :: j < |S| && x in S[j] ==> x in of && of[x] == j
    ensures LinesAre(L, S[i := Without(S[i], k)], of - {S[i][k]})
  {
    WithoutHas(S[i], k);
    var S', of' := S[i := Without(S[i], k)], of - {S[i][k]};
    forall j: nat, x: Id | j < |S'| && x in S'[j] ensures x in of' && of'[x] == j {
      assert x in S[j] && S[i][k] in S[i];
    }
  }

  /** A further, empty line. */
  function WithLine(L: Lines, n: nat): Lines {
    Link(L, Begin(n), End(n))
  }

  lemma WithLineOk(L: Lines, S: seq<seq<Id>>, of: map<Id, nat>)
    requires LinesAre(L, S, of)
    ensures LinesAre(WithLine(L, |S|), S + [[]], of)
  {
    var L', S' := WithLine(L, |S|), S + [[]];
    forall j: nat | j < |S'| ensures LineIs(L', j, S'[j]) {
      if j < |S| {
        assert LineIs(L, j, S[j]);
        OtherLine(L, j, S[j], Begin(|S|), End(|S|));
      } else {
        forall k ensures Joined(L', Path(|S|, []), k) {}
      }
    }
  }

  datatype Cell = Cell(row: nat, col: nat)

  /** All elements: their links along the rows and along the columns, and their places. */
  datatype Elements = Elements(rows: Lines, cols: Lines, row: map<Id, nat>, col: map<Id, nat>, unused: Id)

  predicate Lives(E: Elements, id: Id) { id in E.row && id in E.col }

  function CellOf(E: Elements, id: Id): Cell
    requires Lives(E, id)
  {
    Cell(E.row[id], E.col[id])
  }

  ghost function Rel(E: Elements): set<Cell> {
    set id: Id | id in E.row && id in E.col :: CellOf(E, id)
  }

  /** The rows are the lists R and the columns the lists C. */
  ghost predicate Ok(E: Elements, R: seq<seq<Id>>, C: seq<seq<Id>>) {
    |R| == |C| && LinesAre(E.rows, R, E.row) && LinesAre(E.cols, C, E.col) && CellsOk(E)
  }

  predicate CanAdd(E: Elements, i: nat, j: nat) { CanAppend(E.rows, i) && CanAppend(E.cols, j) }

  /** A new element, the last of row i and of column j. */
  function Added(E: Elements, i: nat, j: nat): Elements
    requires CanAdd(E, i, j)
  {
    Elements(Appended(E.rows, i, E.unused), Appended(E.cols, j, E.unused),
             E.row[E.unused := i], E.col[E.unused := j], E.unused + 1)
  }

  /** Every element lies in a row and in a column, and no cell has two elements. */
  ghost predicate CellsOk(E: Elements) {
    && (forall id :: id in E.row <==> id in E.col)
    && (forall id :: id in E.row ==> id < E.unused)
    && (forall x: Id, y: Id :: Lives(E, x) && Lives(E, y) && CellOf(E, x) == CellOf(E, y) ==> x == y)
  }

  lemma AddedCells(E: Elements, i: nat, j: nat)
    requires CellsOk(E) && CanAdd(E, i, j) && Cell(i, j) !in Rel(E)
    ensures CellsOk(Added(E, i, j)) && Rel(Added(E, i, j)) == Rel(E) + {Cell(i, j)}
  {
    var E' := Added(E, i, j);
    forall x: Id | Lives(E', x) && x != E.unused ensures Lives(E, x) && CellOf(E', x) == CellOf(E, x) && CellOf(E, x) in Rel(E) {}
    forall x: Id | Lives(E, x) ensures Lives(E', x) && CellOf(E', x) == CellOf(E, x) && CellOf(E', x) in Rel(E') {}
    assert Lives(E', E.unused) && CellOf(E', E.unused) == Cell(i, j);
  }

  ghost function Longer(S: seq<seq<Id>>, i: nat, id: Id): seq<seq<Id>>
    requires i < |S|
  {
    S[i := S[i] + [id]]
  }

  lemma AddedOk(E: Elements, R: seq<seq<Id>>, C: seq<seq<Id>>, i: nat, j: nat)
    requires Ok(E, R, C) && i < |R| && j < |C| && Cell(i, j) !in Rel(E)
    ensures CanAdd(E, i, j) && Ok(Added(E, i, j), Longer(R, i, E.unused), Longer(C, j, E.unused))
    ensures Rel(Added(E, i, j)) == Rel(E) + {Cell(i, j)}
  {
    AppendedLine(E.rows, R, E.row, i, E.unused);
    AppendedLine(E.cols, C, E.col, j, E.unused);
    AddedCells(E, i, j);
  }

  /** Takes an element out of its row and its column. */
  function Erased(E: Elements, id: Id): Elements
    requires Element(id) in E.rows.next && Element(id) in E.rows.prev && Element(id) in E.cols.next && Element(id) in E.cols.prev
  {
    Elements(Unlinked(E.rows, id), Unlinked(E.cols, id), E.row - {id}, E.col - {id}, E.unused)
  }

  lemma ErasedOk(E: Elements, R: seq<seq<Id>>, C: seq<seq<Id>>, i: nat, k: nat, j: nat, m: nat)
    requires Ok(E, R, C) && i < |R| && k < |R[i]| && j < |C| && m < |C[j]| && R[i][k] == C[j][m]
    ensures var id := R[i][k];
            && Element(id) in E.rows.next && Element(id) in E.rows.prev && Element(id) in E.cols.next && Element(id) in E.cols.prev
            && Lives(E, id) && Ok(Erased(E, id), R[i := Without(R[i], k)], C[j := Without(C[j], m)])
            && Rel(Erased(E, id)) == Rel(E) - {CellOf(E, id)}
  {
    var id := R[i][k];
    UnlinkedLine(E.rows, R, E.row, i, k);
    UnlinkedLine(E.cols, C, E.col, j, m);
    assert id in R[i] && id in C[j];
    ErasedCells(E, id);
  }

  lemma ErasedCells(E: Elements, id: Id)
    requires CellsOk(E) && Lives(E, id)
    requires Element(id) in E.rows.next && Element(id) in E.rows.prev && Element(id) in E.cols.next && Element(id) in E.cols.prev
    ensures CellsOk(Erased(E, id)) && Rel(Erased(E, id)) == Rel(E) - {CellOf(E, id)}
  {
    var E' := Erased(E, id);
    forall x: Id | Lives(E', x) ensures x != id && Lives(E, x) && CellOf(E', x) == CellOf(E, x) && CellOf(E, x) in Rel(E) {}
    forall x: Id | Lives(E, x) && x != id ensures Lives(E', x) && CellOf(E', x) == CellOf(E, x) && CellOf(E', x) in Rel(E') {}
  }

  /** Room for one more index, related to nothing. */
  function Widened(E: Elements, n: nat): Elements {
    E.(rows := WithLine(E.rows, n), cols := WithLine(E.cols, n))
  }

  lemma WidenedOk(E: Elements, R: seq<seq<Id>>, C: seq<seq<Id>>)
    requires Ok(E, R, C)
    ensures Ok(Widened(E, |R|), R + [[]], C + [[]]) && Rel(Widened(E, |R|)) == Rel(E)
  {
    WithLineOk(E.rows, R, E.row);
    WithLineOk(E.cols, C, E.col);
    var E' := Widened(E, |R|);
    assert forall x: Id :: Lives(E', x) ==> CellOf(E', x) == CellOf(E, x);
  }

  /** What splitting index i off as n promises: n is related like i, and to itself. */
  ghost function SplitOf(rel: set<Cell>, i: nat, n: nat): set<Cell> {
    rel + (set c: Cell | c in rel && c.col == i :: Cell(c.row, n))
        + (set c: Cell | c in rel && c.row == i :: Cell(n, c.col)) + {Cell(n, n)}
  }

  /** The places that a map gives to the elements of a list. */
  function Places(of: map<Id, nat>, s: seq<Id>): (r: seq<nat>)
    requires forall k :: 0 <= k < |s| ==> s[k] in of
    ensures |r| == |s| && forall k :: 0 <= k < |r| ==> r[k] == of[s[k]]
  {
    seq(|s|, k requires 0 <= k < |s| => of[s[k]])
  }

  lemma LineKnown(S: seq<seq<Id>>, L: Lines, of: map<Id, nat>, i: nat)
    requires LinesAre(L, S, of) && i < |S|
    ensures NoDup(S[i]) && forall k :: 0 <= k < |S[i]| ==> S[i][k] in of && of[S[i][k]] == i
  {
    assert LineIs(L, i, S[i]);
    assert forall k :: 0 <= k < |S[i]| ==> S[i][k] in S[i];
  }

  /** Walking down column j meets every row related to j once. */
  lemma ColumnIs(E: Elements, R: seq<seq<Id>>, C: seq<seq<Id>>, j: nat)
    requires Ok(E, R, C) && j < |C|
    ensures (forall k :: 0 <= k < |C[j]| ==> C[j][k] in E.row) && NoDup(Places(E.row, C[j]))
    ensures forall i: nat :: i in Places(E.row, C[j]) <==> Cell(i, j) in Rel(E)
  {
    LineKnown(C, E.cols, E.col, j);
    var s := C[j];
    forall k | 0 <= k < |s| ensures Lives(E, s[k]) && CellOf(E, s[k]) == Cell(E.row[s[k]], j) && CellOf(E, s[k]) in Rel(E) {}
    var r := Places(E.row, s);
    forall i: nat | Cell(i, j) in Rel(E) ensures i in r {
      var id: Id :| Lives(E, id) && CellOf(E, id) == Cell(i, j);
      var k :| 0 <= k < |s| && s[k] == id;
      assert r[k] == i;
    }
  }

  /** Walking along row i meets every column related to i once. */
  lemma RowIs(E: Elements, R: seq<seq<Id>>, C: seq<seq<Id>>, i: nat)
    requires Ok(E, R, C) && i < |R|
    ensures (forall k :: 0 <= k < |R[i]| ==> R[i][k] in E.col) && NoDup(Places(E.col, R[i]))
    ensures forall j: nat :: j in Places(E.col, R[i]) <==> Cell(i, j) in Rel(E)
  {
    LineKnown(R, E.rows, E.row, i);
    var s := R[i];
    forall k | 0 <= k < |s| ensures Lives(E, s[k]) && CellOf(E, s[k]) == Cell(i, E.col[s[k]]) && CellOf(E, s[k]) in Rel(E) {}
    var r := Places(E.col, s);
    forall j: nat | Cell(i, j) in Rel(E) ensures j in r {
      var id: Id :| Lives(E, id) && CellOf(E, id) == Cell(i, j);
      var k :| 0 <= k < |s| && s[k] == id;
      assert r[k] == j;
    }
  }

  ghost function InColumn(rs: seq<nat>, n: nat): set<Cell> { set r | r in rs :: Cell(r, n) }

  ghost function InRow(cs: seq<nat>, n: nat): set<Cell> { set c | c in cs :: Cell(n, c) }

  lemma OneMore(s: seq<nat>, k: nat, n: nat)
    requires k < |s|
    ensures InColumn(s[..k + 1], n) == InColumn(s[..k], n) + {Cell(s[k], n)}
    ensures InRow(s[..k + 1], n) == InRow(s[..k], n) + {Cell(n, s[k])}
  {
    assert s[..k + 1] == s[..k] + [s[k]];
  }

  /** All indexes of related pairs are below n. */
  ghost predicate Within(rel: set<Cell>, n: nat) {
    forall c :: c in rel ==> c.row < n && c.col < n
  }

  ghost predicate Keeps(E: Elements, E': Elements) {
    forall id: Id {:trigger Lives(E, id)} :: Lives(E, id) ==> Lives(E', id) && CellOf(E', id) == CellOf(E, id)
  }

  ghost function AfterSplit(rel: set<Cell>, index: nat, n: nat, rs: seq<nat>, cs: seq<nat>): set<Cell>
    requires cs != []
  {
    rel + InColumn(rs, n) + InRow(if index in rs then cs else cs[..|cs| - 1], n) + {Cell(n, n)}
  }

  /** What the split leaves: the last element of the row is not copied. When index is related to
      itself that element is the one just put into column n; otherwise it is missed. */
  lemma SplitExact(rel: set<Cell>, rs: seq<nat>, cs: seq<nat>, index: nat, n: nat, rel': set<Cell>)
    requires Within(rel, n) && index < n && NoDup(cs) && cs != []
    requires forall i: nat :: i in rs <==> Cell(i, index) in rel
    requires forall j: nat :: j in cs <==> Cell(index, j) in rel
    requires rel' == AfterSplit(rel, index, n, rs, cs)
    ensures rel' == SplitOf(rel, index, n) <==> Cell(index, index) in rel
  {
    if Cell(index, index) in rel {
      assert forall c: Cell :: c in SplitOf(rel, index, n) <==> c in rel'
      by {
        assert forall r: nat :: r in rs ==> Cell(r, index).row == r;
        assert forall c: nat :: c in cs ==> Cell(index, c).col == c;
      }
    } else {
      var last := cs[|cs| - 1];
      assert last in cs && Cell(index, last) in rel && Cell(index, last).col == last;
      assert Cell(n, last) in SplitOf(rel, index, n);
      assert last !in cs[..|cs| - 1];
      assert Cell(n, last) !in rel';
    }
  }

  datatype Layout = Layout(elements: Elements, rows: seq<seq<Id>>, cols: seq<seq<Id>>, pairs: set<Cell>)

  const EMPTY := Elements(Links(map[], map[]), Links(map[], map[]), map[], map[], 0)

  /** Elements together with the lists that their links run through and the pairs they stand for. */
  ghost predicate IsShape(l: Layout) {
    Ok(l.elements, l.rows, l.cols) && l.pairs == Rel(l.elements)
  }

  type Shape = l: Layout | IsShape(l) ghost witness Layout(EMPTY, [], [], {})

  lemma ShapeWithin(l: Shape)
    ensures Within(l.pairs, |l.rows|) && |l.cols| == |l.rows|
  {
    forall c | c in l.pairs ensures c.row < |l.rows| && c.col < |l.rows| {
      var id: Id :| Lives(l.elements, id) && c == CellOf(l.elements, id);
    }
  }

  ghost predicate RelatedToSome(rel: set<Cell>, i: nat) {
    exists j: nat :: Cell(i, j) in rel
  }

  ghost function Plus(l: Shape, i: nat, j: nat): Layout
    requires i < |l.rows| && j < |l.cols| && CanAdd(l.elements, i, j)
  {
    Layout(Added(l.elements, i, j), Longer(l.rows, i, l.elements.unused), Longer(l.cols, j, l.elements.unused),
           l.pairs + {Cell(i, j)})
  }

  lemma PlusOk(l: Shape, i: nat, j: nat)
    requires i < |l.rows| && j < |l.cols| && Cell(i, j) !in l.pairs
    ensures CanAdd(l.elements, i, j) && IsShape(Plus(l, i, j)) && Keeps(l.elements, Plus(l, i, j).elements)
  {
    AddedOk(l.elements, l.rows, l.cols, i, j);
  }

  /** A copy of element k of column index is put into column n. */
  lemma CopyInColumn(l: Shape, index: nat, n: nat, rs: seq<nat>, k: nat, t: seq<Id>, cs: seq<nat>)
    requires index < n == |l.rows| - 1 == |l.cols| - 1 && k < |l.cols[index]| && IsColumn(l.elements, l.cols[index], rs)
    requires rs[k] < n && Cell(rs[k], n) !in l.pairs && IsRow(l.elements, t, cs)
    ensures l.cols[index][k] in l.elements.row && l.elements.row[l.cols[index][k]] == rs[k]
    ensures CanAdd(l.elements, rs[k], n) && IsShape(Plus(l, rs[k], n))
    ensures var l' := Plus(l, rs[k], n); var el := Element(l.cols[index][k]);
            && |l'.rows| == |l'.cols| == n + 1 && l'.cols[index] == l.cols[index] && IsColumn(l'.elements, l'.cols[index], rs)
            && Grew(l.rows[index], l'.rows[index], rs[k] == index) && IsRow(l'.elements, t, cs)
            && el in l'.elements.cols.next
            && l'.elements.cols.next[el] == if k + 1 == |l.cols[index]| then End(index) else Element(l.cols[index][k + 1])
  {
    PlusOk(l, rs[k], n);
    var l': Shape := Plus(l, rs[k], n);
    ColumnNext(l'.elements, l'.rows, l'.cols, index, k);
  }

  /** A copy of element k of row index is put into row n. */
  lemma CopyInRow(l: Shape, index: nat, n: nat, cs: seq<nat>, k: nat)
    requires index < n == |l.rows| - 1 == |l.cols| - 1 && k < |cs| == |l.rows[index]| - 1 && IsRow(l.elements, l.rows[index][..|cs|], cs)
    requires cs[k] < n && Cell(n, cs[k]) !in l.pairs
    ensures l.rows[index][k] in l.elements.col && l.elements.col[l.rows[index][k]] == cs[k]
    ensures CanAdd(l.elements, n, cs[k]) && IsShape(Plus(l, n, cs[k]))
    ensures var l' := Plus(l, n, cs[k]); var el := Element(l.rows[index][k]);
            && |l'.rows| == |l'.cols| == n + 1 && l'.rows[index] == l.rows[index] && IsRow(l'.elements, l'.rows[index][..|cs|], cs)
            && el in l'.elements.rows.next && l'.elements.rows.next[el] == Element(l.rows[index][k + 1])
  {
    assert l.rows[index][..|cs|][k] == l.rows[index][k];
    PlusOk(l, n, cs[k]);
    var l': Shape := Plus(l, n, cs[k]);
    RowNext(l'.elements, l'.rows, l'.cols, index, k);
  }

  /** Index has the rows rs in its column and the columns cs in its row. */
  ghost predicate SplitLists(l: Layout, index: nat, n: nat, rs: seq<nat>, cs: seq<nat>) {
    && index < n == |l.rows| - 1 == |l.cols| - 1 && Within(l.pairs, n)
    && IsColumn(l.elements, l.cols[index], rs) && IsRow(l.elements, l.rows[index], cs) && AllNew(l.pairs, rs, n)
    && (forall i: nat :: i in rs <==> Cell(i, index) in l.pairs) && (forall j: nat :: j in cs <==> Cell(index, j) in l.pairs)
    && NoDup(cs) && cs != [] && (forall i :: i in rs ==> i < n) && (forall j :: j in cs ==> j < n)
  }

  lemma SplitReady(l: Shape, index: nat, n: nat) returns (rs: seq<nat>, cs: seq<nat>)
    requires index < n == |l.rows| - 1 == |l.cols| - 1 && Within(l.pairs, n) && RelatedToSome(l.pairs, index)
    ensures SplitLists(l, index, n, rs, cs)
  {
    ColumnIs(l.elements, l.rows, l.cols, index);
    RowIs(l.elements, l.rows, l.cols, index);
    rs, cs := Places(l.elements.row, l.cols[index]), Places(l.elements.col, l.rows[index]);
    forall i | i in rs ensures i < n {
      assert Cell(i, index) in l.pairs;
    }
    forall j | j in cs ensures j < n {
      assert Cell(index, j) in l.pairs;
    }
    ColumnIsNew(l.pairs, rs, n);
    var j: nat :| Cell(index, j) in l.pairs;
    assert j in cs;
  }

  lemma SplitDone(l: Shape, index: nat, n: nat, rs: seq<nat>, cs: seq<nat>)
    requires SplitLists(l, index, n, rs, cs)
    ensures AfterSplit(l.pairs, index, n, rs, cs) == SplitOf(l.pairs, index, n) <==> Cell(index, index) in l.pairs
  {
    SplitExact(l.pairs, rs, cs, index, n, AfterSplit(l.pairs, index, n, rs, cs));
  }

  /** After its column is copied, the row of index without its last element: the whole old row
      when index is related to itself. */
  lemma RowReady(E: Elements, s: seq<Id>, t: seq<Id>, cs: seq<nat>, rest: seq<nat>, reflexive: bool, rel: set<Cell>,
          rs: seq<nat>, n: nat)
    requires IsRow(E, s, cs) && Grew(s, t, reflexive) && cs != [] && NoDup(cs)
    requires rest == (if reflexive then cs else cs[..|cs| - 1])
    requires Within(rel, n) && (forall i :: i in rs ==> i < n) && (forall j :: j in cs ==> j < n)
    ensures |rest| == |t| - 1 && IsRow(E, t[..|rest|], rest)
    ensures AllNewInRow(rel + InColumn(rs, n), rest, n)
    ensures Cell(n, n) !in rel + InColumn(rs, n) + InRow(rest, n)
  {
    forall k | 0 <= k < |rest| ensures Lives(E, t[k]) && E.col[t[k]] == rest[k] {
      assert t[k] == s[k];
    }
    assert forall j :: j in rest ==> j in cs;
    RowIsNew(rel + InColumn(rs, n), rest, n);
  }

  lemma EmptyIsEmpty(l: Shape)
    requires l.rows == []
    ensures l.pairs == {} && l.cols == []
  {
    ShapeWithin(l);
    assert l.pairs == {};
  }

  /** The cells of the first n lists. */
  ghost function CellsOf(index: seq<seq<nat>>, n: nat): set<Cell>
    requires n <= |index|
  {
    if n == 0 then {} else CellsOf(index, n - 1) + InRow(index[n - 1], n - 1)
  }

  lemma {:induction false} CellsHas(index: seq<seq<nat>>, n: nat, i: nat, j: nat)
    requires n <= |index|
    ensures Cell(i, j) in CellsOf(index, n) <==> i < n && j in index[i]
  {
    if n > 0 { CellsHas(index, n - 1, i, j); }
  }

  lemma CellsExact(index: seq<seq<nat>>)
    ensures forall i: nat, j: nat :: Cell(i, j) in CellsOf(index, |index|) <==> i < |index| && j in index[i]
  {
    forall i: nat, j: nat ensures Cell(i, j) in CellsOf(index, |index|) <==> i < |index| && j in index[i] {
      CellsHas(index, |index|, i, j);
    }
  }

  lemma CellsStart(index: seq<seq<nat>>, i: nat)
    requires i < |index|
    ensures CellsOf(index, i) == CellsOf(index, i) + InRow(index[i][..0], i)
  {
  }

  lemma CellsEnd(index: seq<seq<nat>>, i: nat)
    requires i < |index|
    ensures CellsOf(index, i + 1) == CellsOf(index, i) + InRow(index[i][..|index[i]|], i)
  {
    assert index[i][..|index[i]|] == index[i];
  }

  lemma NextIsNew(index: seq<seq<nat>>, i: nat, k: nat)
    requires i < |index| && k < |index[i]| && NoDup(index[i])
    ensures Cell(i, index[i][k]) !in CellsOf(index, i) + InRow(index[i][..k], i) && index[i][k] in index[i]
  {
    CellsHas(index, i, i, index[i][k]);
  }

  /** Where an element stands in its line. */
  lemma Position(S: seq<seq<Id>>, L: Lines, of: map<Id, nat>, id: Id) returns (k: nat)
    requires LinesAre(L, S, of) && id in of
    ensures of[id] < |S| && k < |S[of[id]]| && S[of[id]][k] == id
  {
    k :| k < |S[of[id]]| && S[of[id]][k] == id;
  }

  /** The elements without el. */
  ghost predicate Taken(l: Layout, E: Elements, el: Id) {
    var L := l.elements.rows;
    Element(el) in L.next && Element(el) in L.prev && E.rows == Unlinked(L, el) && E.col == l.elements.col - {el}
  }

  /** The row of el has lost el. */
  ghost predicate TakenRow(l: Layout, l': Layout, el: Id) {
    exists i: nat, k: nat :: i < |l.rows| && k < |l.rows[i]| && l.rows[i][k] == el && l'.rows == l.rows[i := Without(l.rows[i], k)]
  }

  class Relation {
    const maxSize: nat
    var elements: Elements
    var size: nat
    ghost var shape: Shape

    ghost predicate Consistent()
      reads this
    {
      elements == shape.elements
    }

    ghost predicate Valid()
      reads this
    {
      Consistent() && |shape.rows| == size <= maxSize
    }

    ghost function Pairs(): set<Cell>
      reads this
    {
      shape.pairs
    }

    constructor (maxSize: nat)
      ensures Valid() && size == 0 && Pairs() == {} && this.maxSize == maxSize
    {
      this.maxSize := maxSize;
      elements, size, shape := EMPTY, 0, Layout(EMPTY, [], [], {});
    }

    /** A copy of el, element k of column index, in column n, and the element below el. */
    method CopyBelow(index: nat, n: nat, el: Node, ghost rs: seq<nat>, ghost k: nat, ghost t: seq<Id>,
            ghost cs: seq<nat>)
      returns (below: Node)
      requires Consistent() && index < n == |shape.rows| - 1 == |shape.cols| - 1
      requires k < |shape.cols[index]| && el == Element(shape.cols[index][k])
      requires IsColumn(elements, shape.cols[index], rs) && rs[k] < n && Cell(rs[k], n) !in Pairs()
      requires IsRow(elements, t, cs)
      modifies `elements, `shape
      ensures Consistent() && |shape.rows| == |shape.cols| == n + 1
      ensures shape.cols[index] == old(shape).cols[index] && IsColumn(elements, shape.cols[index], rs) && IsRow(elements, t, cs)
      ensures Pairs() == old(Pairs()) + {Cell(rs[k], n)} && Grew(old(shape).rows[index], shape.rows[index], rs[k] == index)
      ensures below == if k + 1 == |shape.cols[index]| then End(index) else Element(shape.cols[index][k + 1])
    {
      CopyInColumn(shape, index, n, rs, k, t, cs);
      var i := elements.row[el.id];
      elements, shape := Added(elements, i, n), Plus(shape, i, n);
      below := elements.cols.next[el];
    }

    /** For every element of column index, a new element in the same row and in column n. */
    method CopyColumn(index: nat, n: nat, ghost rs: seq<nat>, ghost cs: seq<nat>)
      requires Consistent() && index < n == |shape.rows| - 1 == |shape.cols| - 1
      requires IsColumn(elements, shape.cols[index], rs) && AllNew(Pairs(), rs, n) && IsRow(elements, shape.rows[index], cs)
      modifies `elements, `shape
      ensures Consistent() && |shape.rows| == |shape.cols| == n + 1 && Pairs() == old(Pairs()) + InColumn(rs, n)
      ensures Grew(old(shape).rows[index], shape.rows[index], index in rs) && IsRow(elements, old(shape).rows[index], cs)
    {
      ghost var L, k: nat := shape, 0;
      ghost var s := L.cols[index];
      ColumnFirst(elements, shape.rows, shape.cols, index);
      var el := elements.cols.next[Begin(index)];
      while el != End(index)
        invariant k <= |s| && Consistent() && |shape.rows| == |shape.cols| == n + 1
        invariant shape.cols[index] == s && IsColumn(elements, s, rs) && IsRow(elements, L.rows[index], cs)
        invariant ColumnSoFar(L.pairs, Pairs(), L.rows[index], shape.rows[index], rs, index, n, k)
        invariant el == if k < |s| then Element(s[k]) else End(index)
        decreases |s| - k
      {
        assert NewAt(L.pairs, rs, n, k);
        ghost var before := shape;
        el := CopyBelow(index, n, el, rs, k, L.rows[index], cs);
        ColumnStep(L.pairs, before.pairs, Pairs(), L.rows[index], before.rows[index], shape.rows[index], rs, index, n, k);
        k := k + 1;
      }
      ColumnEnd(L.pairs, Pairs(), L.rows[index], shape.rows[index], rs, index, n);
    }

    /** A copy of el, element k of row index, in row n, and the element to the right of el. */
    method CopyRight(index: nat, n: nat, el: Node, ghost cs: seq<nat>, ghost k: nat) returns (right: Node)
      requires Consistent() && index < n == |shape.rows| - 1 == |shape.cols| - 1
      requires k < |cs| == |shape.rows[index]| - 1 && el == Element(shape.rows[index][k])
      requires IsRow(elements, shape.rows[index][..|cs|], cs) && cs[k] < n && Cell(n, cs[k]) !in Pairs()
      modifies `elements, `shape
      ensures Consistent() && |shape.rows| == |shape.cols| == n + 1
      ensures shape.rows[index] == old(shape).rows[index] && IsRow(elements, shape.rows[index][..|cs|], cs)
      ensures Pairs() == old(Pairs()) + {Cell(n, cs[k])} && right == Element(shape.rows[index][k + 1])
    {
      CopyInRow(shape, index, n, cs, k);
      var j := elements.col[el.id];
      elements, shape := Added(elements, n, j), Plus(shape, n, j);
      right := elements.rows.next[el];
    }

    /** For every element of row index but the last, a new element in the same column and in row n. */
    method CopyRow(index: nat, n: nat, ghost cs: seq<nat>)
      requires Consistent() && index < n == |shape.rows| - 1 == |shape.cols| - 1
      requires |cs| == |shape.rows[index]| - 1 && IsRow(elements, shape.rows[index][..|cs|], cs) && AllNewInRow(Pairs(), cs, n)
      modifies `elements, `shape
      ensures Consistent() && |shape.rows| == |shape.cols| == n + 1 && Pairs() == old(Pairs()) + InRow(cs, n)
    {
      ghost var L, k: nat := shape, 0;
      ghost var s := L.rows[index];
      RowEnds(elements, shape.rows, shape.cols, index);
      var el, last := elements.rows.next[Begin(index)], elements.rows.prev[End(index)];
      while el != last
        invariant k <= |cs| && Consistent() && |shape.rows| == |shape.cols| == n + 1
        invariant shape.rows[index] == s && IsRow(elements, s[..|cs|], cs) && RowSoFar(L.pairs, Pairs(), cs, n, k)
        invariant el == Element(s[k])
        decreases |s| - k
      {
        assert NewInRowAt(L.pairs, cs, n, k);
        ghost var before := shape;
        el := CopyRight(index, n, el, cs, k);
        RowStep(L.pairs, before.pairs, Pairs(), cs, n, k);
        k := k + 1;
      }
      LineKnown(L.rows, L.elements.rows, L.elements.row, index);
      RowEnd(L.pairs, Pairs(), cs, n, k);
    }

    /** Copies column and row index into the empty column and row n, and relates n to itself. */
    method CopyBoth(index: nat, n: nat, ghost rs: seq<nat>, ghost cs: seq<nat>)
      requires Consistent() && SplitLists(shape, index, n, rs, cs)
      modifies `elements, `shape
      ensures Consistent() && |shape.rows| == |shape.cols| == n + 1
      ensures Pairs() == AfterSplit(old(Pairs()), index, n, rs, cs)
    {
      ghost var L := shape;
      CopyColumn(index, n, rs, cs);
      ghost var rest := if index in rs then cs else cs[..|cs| - 1];
      RowReady(elements, L.rows[index], shape.rows[index], cs, rest, index in rs, L.pairs, rs, n);
      CopyRow(index, n, rest);
      Add(n, n);
    }

    method CopyInto(index: nat, n: nat)
      requires Consistent() && index < n == |shape.rows| - 1 == |shape.cols| - 1 && Within(Pairs(), n)
      requires RelatedToSome(Pairs(), index)
      modifies `elements, `shape
      ensures Consistent() && |shape.rows| == |shape.cols| == n + 1
      ensures Pairs() == SplitOf(old(Pairs()), index, n) <==> Cell(index, index) in old(Pairs())
    {
      ghost var rs, cs := SplitReady(shape, index, n);
      SplitDone(shape, index, n, rs, cs);
      CopyBoth(index, n, rs, cs);
    }

    /** Splits index off as a new one. The new index is related exactly like index, and to itself,
        if and only if index is related to itself. */
    method Split(index: nat) returns (newIndex: nat)
      requires Valid() && index < size < maxSize && RelatedToSome(Pairs(), index)
      modifies this
      ensures Valid() && newIndex == old(size) && size == old(size) + 1
      ensures Pairs() == SplitOf(old(Pairs()), index, newIndex) <==> Cell(index, index) in old(Pairs())
    {
      newIndex := size;
      ShapeWithin(shape);
      AddLine(newIndex);
      CopyInto(index, newIndex);
      size := size + 1;
    }

    /** Fills an empty relation: i is related to the entries of index[i]. */
    method Init(index: seq<seq<nat>>)
      requires Valid() && size == 0 && |index| <= maxSize
      requires forall i, j :: 0 <= i < |index| && j in index[i] ==> j < |index|
      requires forall i :: 0 <= i < |index| ==> NoDup(index[i])
      modifies this
      ensures Valid() && size == |index|
      ensures forall i: nat, j: nat :: Cell(i, j) in Pairs() <==> i < |index| && j in index[i]
    {
      EmptyIsEmpty(shape);
      for i := 0 to |index|
        invariant Consistent() && |shape.rows| == |shape.cols| == i && Pairs() == {}
      {
        AddLine(i);
      }
      for i := 0 to |index|
        invariant Consistent() && |shape.rows| == |shape.cols| == |index| && Pairs() == CellsOf(index, i)
      {
        FillRow(index, i);
      }
      size := |index|;
      CellsExact(index);
    }

    method FillRow(index: seq<seq<nat>>, i: nat)
      requires Consistent() && i < |index| == |shape.rows| == |shape.cols| && Pairs() == CellsOf(index, i)
      requires (forall j :: j in index[i] ==> j < |index|) && NoDup(index[i])
      modifies `elements, `shape
      ensures Consistent() && |shape.rows| == |shape.cols| == |index| && Pairs() == CellsOf(index, i + 1)
    {
      CellsStart(index, i);
      for k := 0 to |index[i]|
        invariant Consistent() && |shape.rows| == |shape.cols| == |index|
        invariant Pairs() == CellsOf(index, i) + InRow(index[i][..k], i)
      {
        OneMore(index[i], k, i);
        NextIsNew(index, i, k);
        Add(i, index[i][k]);
      }
      CellsEnd(index, i);
    }

    /** Takes one element out: its pair is no longer related, all others still are. */
    method Erase(el: Id)
      requires Valid() && Lives(elements, el)
      modifies this
      ensures Valid() && size == old(size) && Pairs() == old(Pairs()) - {old(CellOf(elements, el))}
      ensures Taken(old(shape), elements, el) && TakenRow(old(shape), shape, el)
    {
      ghost var i, j := elements.row[el], elements.col[el];
      ghost var k := Position(shape.rows, elements.rows, elements.row, el);
      ghost var m := Position(shape.cols, elements.cols, elements.col, el);
      ErasedOk(elements, shape.rows, shape.cols, i, k, j, m);
      elements, shape := Erased(elements, el),
        Layout(Erased(elements, el), shape.rows[i := Without(shape.rows[i], k)], shape.cols[j := Without(shape.cols[j], m)],
               shape.pairs - {CellOf(elements, el)});
    }

    /** Takes element p of row index out, and follows the link to the right that it still has. */
    method EraseInRow(index: nat, el: Node, ghost p: nat) returns (right: Node)
      requires Valid() && index < size && p < |shape.rows[index]| && el == Element(shape.rows[index][p])
      modifies this
      ensures Valid() && size == old(size) && shape.rows[index] == Without(old(shape).rows[index], p)
      ensures Lives(old(elements), el.id) && Pairs() == old(Pairs()) - {Cell(index, old(elements).col[el.id])}
      ensures elements.col == old(elements).col - {el.id}
      ensures right == if p < |shape.rows[index]| then Element(shape.rows[index][p]) else End(index)
    {
      ErasedRight(elements, shape.rows, shape.cols, index, p);
      LineKnown(shape.rows, elements.rows, elements.row, index);
      ghost var k := Position(shape.rows, elements.rows, elements.row, el.id);
      Erase(el.id);
      right := elements.rows.next[el];
    }

    /** The element to the right of element p of row index. */
    method Right(index: nat, el: Node, ghost p: nat) returns (right: Node)
      requires Valid() && index < size && p < |shape.rows[index]| && el == Element(shape.rows[index][p])
      ensures right == if p + 1 < |shape.rows[index]| then Element(shape.rows[index][p + 1]) else End(index)
    {
      RowNext(elements, shape.rows, shape.cols, index, p);
      right := elements.rows.next[el];
    }

    /** Goes on from element k of row index, which is taken out if its column is masked. */
    method StepMasked(index: nat, mask: seq<bool>, el: Node, erased: seq<nat>, ghost w: Walk, ghost k: nat, ghost p: nat)
      returns (right: Node, erased': seq<nat>, ghost p': nat)
      requires Valid() && index < size && k < |w.ids| && el == Element(w.ids[k]) && |w.cs| == |w.ids| && w.cs[k] < |mask|
      requires Walking(w, shape.rows[index], elements.col, k, p) && Chosen(mask, w.cs, k, erased)
      modifies this
      ensures Valid() && size == old(size) && Walking(w, shape.rows[index], elements.col, k + 1, p')
      ensures Chosen(mask, w.cs, k + 1, erased') && right == if k + 1 < |w.ids| then Element(w.ids[k + 1]) else End(index)
      ensures erased' == if mask[w.cs[k]] then erased + [w.cs[k]] else erased
      ensures Pairs() == if mask[w.cs[k]] then old(Pairs()) - {Cell(index, w.cs[k])} else old(Pairs())
    {
      WalkedAt(w, shape.rows[index], elements.col, k, p);
      var j := elements.col[el.id];
      ChosenStep(mask, w.cs, k, erased);
      if mask[j] {
        WalkedOut(w, shape.rows[index], elements.col, k, p);
        right := EraseInRow(index, el, p);
        erased', p' := erased + [j], p;
      } else {
        right := Right(index, el, p);
        erased', p' := erased, p + 1;
      }
    }

    /** Walks along row index and takes out the elements in masked columns: exactly the pairs of
        index with these columns are no longer related. */
    method EraseMasked(index: nat, mask: seq<bool>) returns (erased: seq<nat>)
      requires Valid() && index < size <= |mask|
      modifies this
      ensures Valid() && size == old(size)
      ensures Pairs() == old(Pairs()) - InRow(erased, index)
      ensures NoDup(erased) && forall j: nat :: j in erased <==> Cell(index, j) in old(Pairs()) && j < |mask| && mask[j]
    {
      ghost var w := StartWalk(shape, index);
      ghost var k: nat, p: nat, pairs := 0, 0, Pairs();
      RowFirst(elements, shape.rows, shape.cols, index);
      var el := elements.rows.next[Begin(index)];
      erased := [];
      while el != End(index)
        invariant Valid() && size == old(size) && Walking(w, shape.rows[index], elements.col, k, p)
        invariant Pairs() == pairs - InRow(erased, index) && Chosen(mask, w.cs, k, erased)
        invariant el == if k < |w.ids| then Element(w.ids[k]) else End(index)
        decreases |w.ids| - k
      {
        assert w.cs[k] in w.cs && Cell(index, w.cs[k]) in pairs;
        ErasedMore(erased, w.cs[k], index);
        el, erased, p := StepMasked(index, mask, el, erased, w, k, p);
        k := k + 1;
      }
      ChosenAll(mask, w.cs, k, erased);
    }

    /** The rows met on the way down column index: every index related to it, once. */
    method Column(index: nat) returns (met: seq<nat>)
      requires Valid() && index < size
      ensures NoDup(met) && forall i: nat :: i in met <==> Cell(i, index) in Pairs()
    {
      ghost var s, k: nat := shape.cols[index], 0;
      ColumnIs(elements, shape.rows, shape.cols, index);
      ColumnFirst(elements, shape.rows, shape.cols, index);
      ghost var rs := Places(elements.row, s);
      var el := elements.cols.next[Begin(index)];
      met := [];
      while el != End(index)
        invariant k <= |s| && met == rs[..k] && el == if k < |s| then Element(s[k]) else End(index)
        decreases |s| - k
      {
        ColumnNext(elements, shape.rows, shape.cols, index, k);
        met := met + [elements.row[el.id]];
        el := elements.cols.next[el];
        k := k + 1;
      }
      assert rs[..k] == rs;
    }

    /** The columns met along row index. */
    method Row(index: nat) returns (met: seq<nat>)
      requires Valid() && index < size
      ensures NoDup(met) && forall j: nat :: j in met <==> Cell(index, j) in Pairs()
    {
      ghost var s, k: nat := shape.rows[index], 0;
      RowIs(elements, shape.rows, shape.cols, index);
      RowFirst(elements, shape.rows, shape.cols, index);
      ghost var cs := Places(elements.col, s);
      var el := elements.rows.next[Begin(index)];
      met := [];
      while el != End(index)
        invariant k <= |s| && met == cs[..k] && el == if k < |s| then Element(s[k]) else End(index)
        decreases |s| - k
      {
        RowNext(elements, shape.rows, shape.cols, index, k);
        met := met + [elements.col[el.id]];
        el := elements.rows.next[el];
        k := k + 1;
      }
      assert cs[..k] == cs;
    }

    /** Room for one more row and column. */
    method AddLine(n: nat)
      requires Consistent() && n == |shape.rows|
      modifies `elements, `shape
      ensures Consistent() && Pairs() == old(Pairs())
      ensures shape.rows == old(shape).rows + [[]] && shape.cols == old(shape).cols + [[]]
    {
      WidenedOk(elements, shape.rows, shape.cols);
      elements, shape := Widened(elements, n), Layout(Widened(elements, n), shape.rows + [[]], shape.cols + [[]], shape.pairs);
    }

    /** A new element at the end of row i and of column j. */
    method Add(i: nat, j: nat)
      requires Consistent() && i < |shape.rows| && j < |shape.cols| && Cell(i, j) !in Pairs()
      modifies `elements, `shape
      ensures Consistent() && |shape.rows| == old(|shape.rows|) && Pairs() == old(Pairs()) + {Cell(i, j)}
    {
      PlusOk(shape, i, j);
      elements, shape := Added(elements, i, j), Plus(shape, i, j);
    }
  }

  /** The elements of a row, and the columns they lie in. */
  datatype Walk = Walk(ids: seq<Id>, cs: seq<nat>)

  /** After k elements of the row, of which p stayed, the row is t and the rest of it is as it was. */
  ghost predicate Walking(w: Walk, t: seq<Id>, col: map<Id, nat>, k: nat, p: nat) {
    && p <= k <= |w.ids| == |w.cs| && NoDup(w.ids) && |t| - p == |w.ids| - k && t[p..] == w.ids[k..]
    && forall m {:trigger w.ids[m]} :: k <= m < |w.ids| ==> w.ids[m] in col && col[w.ids[m]] == w.cs[m]
  }

  lemma StartWalk(l: Shape, i: nat) returns (w: Walk)
    requires i < |l.rows|
    ensures w.ids == l.rows[i] && Walking(w, l.rows[i], l.elements.col, 0, 0) && NoDup(w.cs)
    ensures forall j: nat :: j in w.cs <==> Cell(i, j) in l.pairs
    ensures forall j: nat :: j in w.cs ==> j < |l.rows|
  {
    RowIs(l.elements, l.rows, l.cols, i);
    LineKnown(l.rows, l.elements.rows, l.elements.row, i);
    ShapeWithin(l);
    w := Walk(l.rows[i], Places(l.elements.col, l.rows[i]));
    forall j: nat | j in w.cs ensures j < |l.rows| {
      assert Cell(i, j) in l.pairs;
    }
  }

  lemma WalkedAt(w: Walk, t: seq<Id>, col: map<Id, nat>, k: nat, p: nat)
    requires Walking(w, t, col, k, p) && k < |w.ids|
    ensures p < |t| && t[p] == w.ids[k] && Walking(w, t, col, k + 1, p + 1)
    ensures w.ids[k] in col && col[w.ids[k]] == w.cs[k]
    ensures if k + 1 < |w.ids| then p + 1 < |t| && t[p + 1] == w.ids[k + 1] else p + 1 == |t|
  {
    var s := w.ids;
    assert t[p] == t[p..][0] && s[k] == s[k..][0];
    assert t[p + 1..] == t[p..][1..] && s[k + 1..] == s[k..][1..];
    if k + 1 < |s| { assert t[p + 1] == t[p..][1] && s[k + 1] == s[k..][1]; }
  }

  lemma WalkedOut(w: Walk, t: seq<Id>, col: map<Id, nat>, k: nat, p: nat)
    requires Walking(w, t, col, k, p) && k < |w.ids|
    ensures p < |t| && Walking(w, Without(t, p), col - {w.ids[k]}, k + 1, p)
    ensures if k + 1 < |w.ids| then p < |Without(t, p)| && Without(t, p)[p] == w.ids[k + 1] else p == |Without(t, p)|
  {
    WalkedAt(w, t, col, k, p);
    assert Without(t, p)[p..] == t[p + 1..];
  }

  /** Of the first k columns the masked ones were chosen. */
  ghost predicate Chosen(mask: seq<bool>, cs: seq<nat>, k: nat, chosen: seq<nat>) {
    k <= |cs| && NoDup(cs) && NoDup(chosen) && forall j :: j in chosen <==> j in cs[..k] && j < |mask| && mask[j]
  }

  lemma ChosenStep(mask: seq<bool>, cs: seq<nat>, k: nat, chosen: seq<nat>)
    requires k < |cs| && Chosen(mask, cs, k, chosen)
    ensures Chosen(mask, cs, k + 1, if cs[k] < |mask| && mask[cs[k]] then chosen + [cs[k]] else chosen)
  {
    assert cs[..k + 1] == cs[..k] + [cs[k]];
    assert cs[k] !in cs[..k];
  }

  lemma ChosenAll(mask: seq<bool>, cs: seq<nat>, k: nat, chosen: seq<nat>)
    requires k == |cs| && Chosen(mask, cs, k, chosen)
    ensures forall j :: j in chosen <==> j in cs && j < |mask| && mask[j]
  {
    assert cs[..k] == cs;
  }

  lemma ErasedMore(erased: seq<nat>, j: nat, i: nat)
    ensures InRow(erased + [j], i) == InRow(erased, i) + {Cell(i, j)}
  {
  }

  /** An element that is taken out keeps its own links. */
  lemma ErasedRight(E: Elements, R: seq<seq<Id>>, C: seq<seq<Id>>, i: nat, k: nat)
    requires Ok(E, R, C) && i < |R| && k < |R[i]|
    ensures var el := Element(R[i][k]);
            && Lives(E, el.id) && el in E.rows.next && el in E.rows.prev && el in Unlinked(E.rows, el.id).next
            && Unlinked(E.rows, el.id).next[el] == if k + 1 == |R[i]| then End(i) else Element(R[i][k + 1])
  {
    LineKnown(R, E.rows, E.row, i);
    assert LineIs(E.rows, i, R[i]);
    LinkAt(E.rows, i, R[i], k);
    LinkAt(E.rows, i, R[i], k + 1);
  }

  /** Two indexes, of which the first is related to the second, and to nothing else. */
  method OnePair() returns (r: Relation)
    ensures fresh(r) && r.Valid() && r.size == 2 && r.maxSize == 3 && r.Pairs() == {Cell(0, 1)}
  {
    r := new Relation(3);
    var index: seq<seq<nat>> := [[1], []];
    r.Init(index);
    OnlyPair(index, r.Pairs());
  }

  lemma OnlyPair(index: seq<seq<nat>>, rel: set<Cell>)
    requires index == [[1], []] && forall i: nat, j: nat :: Cell(i, j) in rel <==> i < |index| && j in index[i]
    ensures rel == {Cell(0, 1)}
  {
    forall c ensures c in rel <==> c == Cell(0, 1) {
      assert c == Cell(c.row, c.col);
    }
  }

  /** Splitting an index that is not related to itself: its only relative is not taken over. */
  method SplitMisses() returns (r: Relation)
    ensures r.Valid() && r.Pairs() != SplitOf({Cell(0, 1)}, 0, 2)
  {
    r := OnePair();
    assert Cell(0, 1) in r.Pairs();
    var n := r.Split(0);
  }

  /** The elements s of a column lie in the rows rs. */
  ghost predicate IsColumn(E: Elements, s: seq<Id>, rs: seq<nat>) {
    |rs| == |s| && forall k {:trigger s[k]} :: 0 <= k < |s| ==> Lives(E, s[k]) && E.row[s[k]] == rs[k]
  }

  /** A list got one more element if asked to. */
  ghost predicate Grew(s: seq<Id>, t: seq<Id>, more: bool) {
    if more then |t| == |s| + 1 && t[..|s|] == s else t == s
  }

  lemma ColumnFirst(E: Elements, R: seq<seq<Id>>, C: seq<seq<Id>>, j: nat)
    requires Ok(E, R, C) && j < |C|
    ensures Begin(j) in E.cols.next
    ensures E.cols.next[Begin(j)] == if C[j] == [] then End(j) else Element(C[j][0])
  {
    assert LineIs(E.cols, j, C[j]);
    LinkAt(E.cols, j, C[j], 0);
  }

  lemma ColumnNext(E: Elements, R: seq<seq<Id>>, C: seq<seq<Id>>, j: nat, k: nat)
    requires Ok(E, R, C) && j < |C| && k < |C[j]|
    ensures Element(C[j][k]) in E.cols.next
    ensures E.cols.next[Element(C[j][k])] == if k + 1 == |C[j]| then End(j) else Element(C[j][k + 1])
  {
    assert LineIs(E.cols, j, C[j]);
    LinkAt(E.cols, j, C[j], k + 1);
  }

  /** The column is copied for its first k rows; the list of row index has grown from t0 to t. */
  ghost predicate ColumnSoFar(rel0: set<Cell>, rel: set<Cell>, t0: seq<Id>, t: seq<Id>, rs: seq<nat>, index: nat, n: nat, k: nat)
  {
    k <= |rs| && rel == rel0 + InColumn(rs[..k], n) && Grew(t0, t, index in rs[..k])
  }

  /** Entry k of rs is an old index, and its cell in column n is still empty when its turn comes. */
  ghost predicate NewAt(rel0: set<Cell>, rs: seq<nat>, n: nat, k: nat) {
    k < |rs| ==> rs[k] < n && rs[k] !in rs[..k] && Cell(rs[k], n) !in rel0 + InColumn(rs[..k], n)
  }

  ghost predicate AllNew(rel0: set<Cell>, rs: seq<nat>, n: nat) {
    forall k: nat {:trigger NewAt(rel0, rs, n, k)} :: NewAt(rel0, rs, n, k)
  }

  lemma ColumnIsNew(rel0: set<Cell>, rs: seq<nat>, n: nat)
    requires NoDup(rs) && Within(rel0, n) && forall i :: i in rs ==> i < n
    ensures AllNew(rel0, rs, n)
  {
    forall k: nat ensures NewAt(rel0, rs, n, k) {
      assert k < |rs| ==> rs[k] in rs;
    }
  }

  lemma ColumnStep(rel0: set<Cell>, rel: set<Cell>, rel': set<Cell>, t0: seq<Id>, t: seq<Id>, t': seq<Id>,
                   rs: seq<nat>, index: nat, n: nat, k: nat)
    requires k < |rs| && NewAt(rel0, rs, n, k) && ColumnSoFar(rel0, rel, t0, t, rs, index, n, k)
    requires rel' == rel + {Cell(rs[k], n)} && Grew(t, t', rs[k] == index)
    ensures ColumnSoFar(rel0, rel', t0, t', rs, index, n, k + 1)
  {
    OneMore(rs, k, n);
    assert rs[..k + 1] == rs[..k] + [rs[k]];
    assert rs[k] in rs[..k + 1];
  }

  lemma ColumnEnd(rel0: set<Cell>, rel: set<Cell>, t0: seq<Id>, t: seq<Id>, rs: seq<nat>, index: nat, n: nat)
    requires ColumnSoFar(rel0, rel, t0, t, rs, index, n, |rs|)
    ensures rel == rel0 + InColumn(rs, n) && Grew(t0, t, index in rs)
  {
    assert rs[..|rs|] == rs;
  }

  /** The elements s of a row lie in the columns cs. */
  ghost predicate IsRow(E: Elements, s: seq<Id>, cs: seq<nat>) {
    |cs| == |s| && forall k {:trigger s[k]} :: 0 <= k < |s| ==> Lives(E, s[k]) && E.col[s[k]] == cs[k]
  }

  lemma RowEnds(E: Elements, R: seq<seq<Id>>, C: seq<seq<Id>>, i: nat)
    requires Ok(E, R, C) && i < |R| && R[i] != []
    ensures Begin(i) in E.rows.next && E.rows.next[Begin(i)] == Element(R[i][0])
    ensures End(i) in E.rows.prev && E.rows.prev[End(i)] == Element(R[i][|R[i]| - 1])
  {
    assert LineIs(E.rows, i, R[i]);
    LinkAt(E.rows, i, R[i], 0);
    LinkAt(E.rows, i, R[i], |R[i]|);
  }

  lemma RowFirst(E: Elements, R: seq<seq<Id>>, C: seq<seq<Id>>, i: nat)
    requires Ok(E, R, C) && i < |R|
    ensures Begin(i) in E.rows.next
    ensures E.rows.next[Begin(i)] == if R[i] == [] then End(i) else Element(R[i][0])
  {
    assert LineIs(E.rows, i, R[i]);
    LinkAt(E.rows, i, R[i], 0);
  }

  lemma RowNext(E: Elements, R: seq<seq<Id>>, C: seq<seq<Id>>, i: nat, k: nat)
    requires Ok(E, R, C) && i < |R| && k < |R[i]|
    ensures Element(R[i][k]) in E.rows.next
    ensures E.rows.next[Element(R[i][k])] == if k + 1 == |R[i]| then End(i) else Element(R[i][k + 1])
  {
    assert LineIs(E.rows, i, R[i]);
    LinkAt(E.rows, i, R[i], k + 1);
  }

  ghost predicate RowSoFar(rel0: set<Cell>, rel: set<Cell>, cs: seq<nat>, n: nat, k: nat) {
    k <= |cs| && rel == rel0 + InRow(cs[..k], n)
  }

  ghost predicate NewInRowAt(rel0: set<Cell>, cs: seq<nat>, n: nat, k: nat) {
    k < |cs| ==> cs[k] < n && cs[k] !in cs[..k] && Cell(n, cs[k]) !in rel0 + InRow(cs[..k], n)
  }

  ghost predicate AllNewInRow(rel0: set<Cell>, cs: seq<nat>, n: nat) {
    forall k: nat {:trigger NewInRowAt(rel0, cs, n, k)} :: NewInRowAt(rel0, cs, n, k)
  }

  lemma RowIsNew(rel0: set<Cell>, cs: seq<nat>, n: nat)
    requires NoDup(cs) && (forall c :: c in rel0 ==> c.row < n) && forall j :: j in cs ==> j < n
    ensures AllNewInRow(rel0, cs, n)
  {
    forall k: nat ensures NewInRowAt(rel0, cs, n, k) {
      assert k < |cs| ==> cs[k] in cs;
    }
  }

  lemma RowStep(rel0: set<Cell>, rel: set<Cell>, rel': set<Cell>, cs: seq<nat>, n: nat, k: nat)
    requires k < |cs| && RowSoFar(rel0, rel, cs, n, k) && rel' == rel + {Cell(n, cs[k])}
    ensures RowSoFar(rel0, rel', cs, n, k + 1)
  {
    OneMore(cs, k, n);
  }

  lemma RowEnd(rel0: set<Cell>, rel: set<Cell>, cs: seq<nat>, n: nat, k: nat)
    requires k == |cs| && RowSoFar(rel0, rel, cs, n, k)
    ensures rel == rel0 + InRow(cs, n)
  {
    assert cs[..|cs|] == cs;
  }
}
