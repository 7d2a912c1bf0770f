/** The map of a customer's objects: boxes in columns, and the routing of its edges.

    A kind of object has its column, and each column is filled from the top in the order in which the
    nodes come. An id that comes twice is drawn at the cell of its last node. An edge leaves its box on
    the right and turns half way through the gap between two columns. */
module MapLayout {

  const COL_W: int := 254
  const ROW_H: int := 92
  const BOX_W: int := 196
  const BOX_H: int := 58
  const PAD_X: int := 24
  const PAD_Y: int := 26
  const COL_GAP: int := COL_W - BOX_W

  datatype Kind =
    | OdooTenant | OdooEnvironment | OdooDatabase | OdooSnapshot | OdooRehearsal | RunboatLink | OtherKind(name: string)

  datatype Node = Node(id: string, kind: Kind)

  /** The column of a kind; a kind the table does not have reads as 0. */
  function ColumnOf(kind: Kind): (c: nat)
    ensures c <= 2
  {
    match kind
    case OdooTenant | OtherKind(_) => 0
    case OdooEnvironment => 1
    case OdooDatabase | OdooSnapshot | OdooRehearsal | RunboatLink => 2
  }

  /** How many of the first n nodes are in column c. */
  function InColumn(nodes: seq<Node>, n: nat, c: nat): nat
    requires n <= |nodes|
  {
    if n == 0 then 0 else InColumn(nodes, n - 1, c) + if ColumnOf(nodes[n - 1].kind) == c then 1 else 0
  }

  datatype Point = Point(x: int, y: int)

  function BoxOf(nodes: seq<Node>, i: nat): Point
    requires i < |nodes|
  {
    var c := ColumnOf(nodes[i].kind);
    Point(PAD_X + c * COL_W, PAD_Y + InColumn(nodes, i, c) * ROW_H)
  }

  predicate Has(nodes: seq<Node>, n: nat, id: string)
    requires n <= |nodes|
  {
    exists i :: 0 <= i < n && nodes[i].id == id
  }

  /** The last of the first n nodes with an id. */
  function LastOf(nodes: seq<Node>, n: nat, id: string): (i: nat)
    requires n <= |nodes| && Has(nodes, n, id)
    ensures i < n && nodes[i].id == id
    ensures forall j :: i < j < n ==> nodes[j].id != id
  {
    if nodes[n - 1].id == id then n - 1 else LastOf(nodes, n - 1, id)
  }

  /** m is the last column the first n nodes use, or 0. */
  ghost predicate IsMaxColumn(nodes: seq<Node>, n: nat, m: nat)
    requires n <= |nodes|
  {
    && (forall i :: 0 <= i < n ==> ColumnOf(nodes[i].kind) <= m)
    && (m == 0 || exists i :: 0 <= i < n && ColumnOf(nodes[i].kind) == m)
  }

  ghost predicate IsMaxRows(nodes: seq<Node>, rows: nat) {
    && (forall c :: InColumn(nodes, |nodes|, c) <= rows)
    && (rows == 0 || exists c :: InColumn(nodes, |nodes|, c) == rows)
  }

  /** How many nodes the map records for column c. */
  function Recorded(perCol: map<nat, nat>, c: nat): nat { if c in perCol then perCol[c] else 0 }

  function OneMore(perCol: map<nat, nat>, c: nat): map<nat, nat> { perCol[c := Recorded(perCol, c) + 1] }

  /** Of the first n nodes, each id is at the cell of the last node that has it. */
  ghost predicate Placed(pos: map<string, Point>, nodes: seq<Node>, n: nat)
    requires n <= |nodes|
  {
    && (forall id :: id in pos <==> Has(nodes, n, id))
    && (forall id :: id in pos ==> pos[id] == BoxOf(nodes, LastOf(nodes, n, id)))
  }

  lemma PlacedStep(pos: map<string, Point>, nodes: seq<Node>, i: nat)
    requires i < |nodes| && Placed(pos, nodes, i)
    ensures Placed(pos[nodes[i].id := BoxOf(nodes, i)], nodes, i + 1)
  {
    var next := pos[nodes[i].id := BoxOf(nodes, i)];
    forall id ensures id in next <==> Has(nodes, i + 1, id) {
      if id == nodes[i].id {
        assert nodes[i].id == id;
      } else {
        assert Has(nodes, i + 1, id) <==> Has(nodes, i, id);
      }
    }
  }

  ghost predicate Counts(perCol: map<nat, nat>, nodes: seq<Node>, n: nat)
    requires n <= |nodes|
  {
    forall c :: Recorded(perCol, c) == InColumn(nodes, n, c)
  }

  /** Places the nodes, and gives the size of the drawing. */
  method Render(nodes: seq<Node>) returns (pos: map<string, Point>, maxCol: nat, rows: nat, w: int, h: int)
    ensures Placed(pos, nodes, |nodes|)
    ensures IsMaxColumn(nodes, |nodes|, maxCol) && IsMaxRows(nodes, rows)
    ensures w == PAD_X * 2 + maxCol * COL_W + BOX_W && h == PAD_Y * 2 + rows * ROW_H
  {
    var perCol;
    pos, perCol, maxCol := PlaceNodes(nodes);
    rows := MostRows(nodes, perCol);
    w := PAD_X * 2 + maxCol * COL_W + BOX_W;
    h := PAD_Y * 2 + rows * ROW_H;
  }

  method PlaceNodes(nodes: seq<Node>) returns (pos: map<string, Point>, perCol: map<nat, nat>, maxCol: nat)
    ensures Placed(pos, nodes, |nodes|)
    ensures Counts(perCol, nodes, |nodes|)
    ensures IsMaxColumn(nodes, |nodes|, maxCol)
  {
    pos, perCol, maxCol := map[], map[], 0;
    for i := 0 to |nodes|
      invariant Counts(perCol, nodes, i)
      invariant Placed(pos, nodes, i)
      invariant IsMaxColumn(nodes, i, maxCol)
    {
      var c := ColumnOf(nodes[i].kind);
      var r := Recorded(perCol, c);
      assert r == InColumn(nodes, i, c);
      RecordedStep(nodes, i, perCol);
      PlacedStep(pos, nodes, i);
      perCol := OneMore(perCol, c);
      pos := pos[nodes[i].id := Point(PAD_X + c * COL_W, PAD_Y + r * ROW_H)];
      MaxColumnStep(nodes, i, maxCol);
      if c > maxCol { maxCol := c; }
    }
  }

  lemma RecordedStep(nodes: seq<Node>, i: nat, perCol: map<nat, nat>)
    requires i < |nodes| && Counts(perCol, nodes, i)
    ensures Counts(OneMore(perCol, ColumnOf(nodes[i].kind)), nodes, i + 1)
  {
    var next := OneMore(perCol, ColumnOf(nodes[i].kind));
    forall c ensures Recorded(next, c) == InColumn(nodes, i + 1, c) {
      assert Recorded(perCol, c) == InColumn(nodes, i, c);
    }
  }

  method MostRows(nodes: seq<Node>, perCol: map<nat, nat>) returns (rows: nat)
    requires Counts(perCol, nodes, |nodes|)
    ensures IsMaxRows(nodes, rows)
  {
    rows := 0;
    var left := perCol.Keys;
    while left != {}
      invariant left <= perCol.Keys
      invariant forall c :: c !in left ==> Recorded(perCol, c) <= rows
      invariant rows == 0 || exists c :: Recorded(perCol, c) == rows
      decreases |left|
    {
      var c :| c in left;
      left := left - {c};
      if perCol[c] > rows {
        rows := perCol[c];
        assert Recorded(perCol, c) == rows;
      }
    }
    forall c ensures InColumn(nodes, |nodes|, c) <= rows { assert Recorded(perCol, c) <= rows; }
    if rows != 0 {
      var c :| Recorded(perCol, c) == rows;
      assert InColumn(nodes, |nodes|, c) == rows;
    }
  }

  lemma MaxColumnStep(nodes: seq<Node>, i: nat, m: nat)
    requires i < |nodes| && IsMaxColumn(nodes, i, m)
    ensures IsMaxColumn(nodes, i + 1, if ColumnOf(nodes[i].kind) > m then ColumnOf(nodes[i].kind) else m)
  {
    if ColumnOf(nodes[i].kind) <= m && m > 0 {
      var k :| 0 <= k < i && ColumnOf(nodes[k].kind) == m;
    }
  }

  // ------------------------------------------------------------------ what the drawing guarantees

  lemma {:induction false} LaterInColumn(nodes: seq<Node>, i: nat, j: nat)
    requires i < j <= |nodes|
    ensures var c := ColumnOf(nodes[i].kind); InColumn(nodes, i, c) < InColumn(nodes, j, c)
    decreases j
  {
    if i < j - 1 { LaterInColumn(nodes, i, j - 1); }
  }

  predicate Apart(a: Point, b: Point) {
    a.x + BOX_W < b.x || b.x + BOX_W < a.x || a.y + BOX_H < b.y || b.y + BOX_H < a.y
  }

  /** Two cells never overlap: they are apart in one direction by more than a box. */
  lemma CellsApart(nodes: seq<Node>, i: nat, j: nat)
    requires i < |nodes| && j < |nodes| && i != j
    ensures Apart(BoxOf(nodes, i), BoxOf(nodes, j))
    ensures Gap(BoxOf(nodes, i), BoxOf(nodes, j)) || Gap(BoxOf(nodes, j), BoxOf(nodes, i))
  {
    if i < j { LaterInColumn(nodes, i, j); } else { LaterInColumn(nodes, j, i); }
  }

  /** Where a node's box is drawn: at the place its id has in the end. */
  function Drawn(nodes: seq<Node>, i: nat): Point
    requires i < |nodes|
  {
    assert Has(nodes, |nodes|, nodes[i].id);
    BoxOf(nodes, LastOf(nodes, |nodes|, nodes[i].id))
  }

  /** A gap between two boxes, 58 across or 34 down. */
  predicate Gap(a: Point, b: Point) { a.x + 196 + 58 <= b.x || a.y + 58 + 34 <= b.y }

  /** Tenants and kinds the table does not know stand in the first column, environments in the second, and
      databases, snapshots, rehearsals and links in the third, each column filled from the top. */
  lemma ColumnsOfTheMap(nodes: seq<Node>, i: nat)
    requires i < |nodes|
    ensures var kind, b := nodes[i].kind, BoxOf(nodes, i);
            && b.x == (if kind == OdooTenant || kind.OtherKind? then 24 else if kind == OdooEnvironment then 278 else 532)
            && b.y == 26 + 92 * InColumn(nodes, i, ColumnOf(kind))
  {
  }

  /** Two boxes are drawn apart just when their nodes have different ids. */
  lemma BoxesDisjoint(nodes: seq<Node>, i: nat, j: nat)
    requires i < |nodes| && j < |nodes|
    ensures nodes[i].id != nodes[j].id ==>
              Gap(Drawn(nodes, i), Drawn(nodes, j)) || Gap(Drawn(nodes, j), Drawn(nodes, i))
    ensures Apart(Drawn(nodes, i), Drawn(nodes, j)) <==> nodes[i].id != nodes[j].id
  {
    assert Has(nodes, |nodes|, nodes[i].id) && Has(nodes, |nodes|, nodes[j].id);
    if nodes[i].id != nodes[j].id {
      CellsApart(nodes, LastOf(nodes, |nodes|, nodes[i].id), LastOf(nodes, |nodes|, nodes[j].id));
    }
  }

  /** Every box lies inside the viewBox. */
  lemma BoxInside(nodes: seq<Node>, i: nat, maxCol: nat, rows: nat)
    requires i < |nodes| && IsMaxColumn(nodes, |nodes|, maxCol) && IsMaxRows(nodes, rows)
    ensures var b := BoxOf(nodes, i);
            && 0 <= b.x && b.x + BOX_W <= PAD_X * 2 + maxCol * COL_W + BOX_W
            && 0 <= b.y && b.y + BOX_H <= PAD_Y * 2 + rows * ROW_H
  {
    LaterInColumn(nodes, i, |nodes|);
  }

  /** Where the vertical segment of an edge from box a runs. */
  function Mid(a: Point): int { a.x + BOX_W + COL_GAP / 2 }

  /** The vertical segment of every edge runs in a gutter, strictly clear of every box in the drawing;
      and it is inside the viewBox exactly when the edge does not start in the last column used: an
      edge that does is drawn five units beyond the right edge. */
  lemma EdgesRunInGutters(nodes: seq<Node>, from: nat, other: nat, maxCol: nat)
    requires from < |nodes| && other < |nodes| && IsMaxColumn(nodes, |nodes|, maxCol)
    ensures var x, b, w := Mid(BoxOf(nodes, from)), BoxOf(nodes, other), PAD_X * 2 + maxCol * COL_W + BOX_W;
            && (x < b.x || b.x + BOX_W < x)
            && (x <= w <==> ColumnOf(nodes[from].kind) < maxCol)
            && (ColumnOf(nodes[from].kind) == maxCol ==> x == w + 5)
  {
  }
}
