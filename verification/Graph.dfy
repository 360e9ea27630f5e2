/** The property graph and the meaning of the statements that write it: MERGE by key, SET,
    coalesce, and DELETE of the relationships a predicate selects. */
module Graph {
  import opened Common

  datatype Node =
    | Release(id: string)
    | Artist(id: string)
    | Label(id: string)
    | Master(id: string)
    | Genre(id: string)
    | Style(id: string)
    | Person(id: string)
    | Company(id: string)
    | Medium(id: string)
    | Family(id: string)

  datatype Relation =
    | BY | ON | DERIVED_FROM | IS | ISSUED_ON | CREDITED_TO | CREDITED_ON
    | PART_OF | IN_FAMILY | HAS_STYLE | SAME_AS | MEMBER_OF | ALIAS_OF | SUBLABEL_OF

  /** A relationship by its merge key: endpoints, type, and the key properties of the pattern. */
  datatype Edge = Edge(src: Node, rel: Relation, dst: Node, role: string, source: string)

  /** Two edges of one key can exist in a graph not written by MERGE alone, so the number of
      copies is part of the graph, with the properties SET on them. */
  datatype EdgeProp = NoProp | Qty(n: int) | Category(c: string) | Releases(count: nat)
  datatype EdgeCell = EdgeCell(copies: nat, prop: EdgeProp)

  datatype Props = Props(hash: Option<string>, name: Option<string>, family: Option<string>,
                         year: Option<int>, country: Option<string>, families: seq<string>)

  const BLANK := Props(None, None, None, None, None, [])

  datatype Graph = Graph(nodes: map<Node, Props>, edges: map<Edge, EdgeCell>)

  const EMPTY_GRAPH := Graph(map[], map[])

  function At<K, V>(m: map<K, V>, k: K): Option<V> {
    if k in m then Some(m[k]) else None
  }

  // ---------------------------------------------------------------- rows of a statement

  /** What a row does to the node it merges. */
  datatype Update =
    | Touch
    | Fill(name: Option<string>)
    | Rename(name: Option<string>, family: Option<string>)
    | Describe(hash: string, year: Option<int>, country: Option<string>, families: seq<string>)
    | Record(name: Option<string>, hash: string)

  function Updated(p: Props, u: Update): Props {
    match u
    case Touch => p
    case Fill(name) => p.(name := if p.name.Some? then p.name else name)
    case Rename(name, family) => p.(name := name, family := family)
    case Describe(hash, year, country, families) => p.(hash := Some(hash), year := year, country := country, families := families)
    case Record(name, hash) => p.(name := name, hash := Some(hash))
  }

  /** One UNWIND row: MATCH the anchors, MERGE a bare node, MERGE and update a node, MERGE a
      bare relationship, MERGE a relationship and SET its property. */
  datatype Row = Row(anchors: set<Node>, touch: Option<Node>, node: Option<Node>, update: Update,
                     link: Option<Edge>, edge: Option<Edge>, prop: Option<EdgeProp>)

  function OrBlank(p: Option<Props>): Props {
    if p.Some? then p.value else BLANK
  }

  function OrNew(c: Option<EdgeCell>): EdgeCell {
    if c.Some? then c.value else EdgeCell(1, NoProp)
  }

  /** The row's effect on one node. */
  function NodeRow(row: Row, n: Node, cur: Option<Props>): Option<Props> {
    var touched := if row.touch == Some(n) then Some(OrBlank(cur)) else cur;
    if row.node == Some(n) then Some(Updated(OrBlank(touched), row.update)) else touched
  }

  /** The row's effect on one relationship key. */
  function EdgeRow(row: Row, e: Edge, cur: Option<EdgeCell>): Option<EdgeCell> {
    var linked := if row.link == Some(e) then Some(OrNew(cur)) else cur;
    if row.edge == Some(e) then
      var cell := OrNew(linked);
      Some(if row.prop.Some? then cell.(prop := row.prop.value) else cell)
    else linked
  }

  function Nodes(row: Row): set<Node> {
    (if row.touch.Some? then {row.touch.value} else {}) + (if row.node.Some? then {row.node.value} else {})
  }

  function Edges(row: Row): set<Edge> {
    (if row.link.Some? then {row.link.value} else {}) + (if row.edge.Some? then {row.edge.value} else {})
  }

  function ApplyRow(g: Graph, row: Row): Graph {
    if !(row.anchors <= g.nodes.Keys) then g else
      Graph(map n | n in g.nodes.Keys + Nodes(row) :: NodeRow(row, n, At(g.nodes, n)).value,
            map e | e in g.edges.Keys + Edges(row) :: EdgeRow(row, e, At(g.edges, e)).value)
  }

  /** The graph after the first k rows. */
  function ApplyRows(g: Graph, rows: seq<Row>, k: nat): Graph
    requires k <= |rows|
  {
    if k == 0 then g else ApplyRow(ApplyRows(g, rows, k - 1), rows[k - 1])
  }

  function Unwind(g: Graph, rows: seq<Row>): Graph {
    ApplyRows(g, rows, |rows|)
  }

  /** DELETE the relationships the predicate selects. */
  function Prune(g: Graph, doomed: Edge -> bool): Graph {
    g.(edges := map e | e in g.edges && !doomed(e) :: g.edges[e])
  }

  // ---------------------------------------------------------------- pointwise meaning

  function NodeFold(rows: seq<Row>, k: nat, n: Node, cur: Option<Props>): Option<Props>
    requires k <= |rows|
  {
    if k == 0 then cur else NodeRow(rows[k - 1], n, NodeFold(rows, k - 1, n, cur))
  }

  function EdgeFold(rows: seq<Row>, k: nat, e: Edge, cur: Option<EdgeCell>): Option<EdgeCell>
    requires k <= |rows|
  {
    if k == 0 then cur else EdgeRow(rows[k - 1], e, EdgeFold(rows, k - 1, e, cur))
  }

  function NodesAfter(rows: seq<Row>, n: Node, cur: Option<Props>): Option<Props> {
    NodeFold(rows, |rows|, n, cur)
  }

  function EdgesAfter(rows: seq<Row>, e: Edge, cur: Option<EdgeCell>): Option<EdgeCell> {
    EdgeFold(rows, |rows|, e, cur)
  }

  /** Every row finds its anchors. */
  ghost predicate Anchored(g: Graph, rows: seq<Row>) {
    forall i :: 0 <= i < |rows| ==> rows[i].anchors <= g.nodes.Keys
  }

  lemma ApplyRowPointwise(g: Graph, row: Row)
    requires row.anchors <= g.nodes.Keys
    ensures forall n :: At(ApplyRow(g, row).nodes, n) == NodeRow(row, n, At(g.nodes, n))
    ensures forall e :: At(ApplyRow(g, row).edges, e) == EdgeRow(row, e, At(g.edges, e))
    ensures g.nodes.Keys <= ApplyRow(g, row).nodes.Keys
  {
  }

  lemma {:induction false} ApplyRowsPointwise(g: Graph, rows: seq<Row>, k: nat)
    requires k <= |rows| && Anchored(g, rows)
    ensures forall n :: At(ApplyRows(g, rows, k).nodes, n) == NodeFold(rows, k, n, At(g.nodes, n))
    ensures forall e :: At(ApplyRows(g, rows, k).edges, e) == EdgeFold(rows, k, e, At(g.edges, e))
    ensures g.nodes.Keys <= ApplyRows(g, rows, k).nodes.Keys
  {
    if k > 0 {
      ApplyRowsPointwise(g, rows, k - 1);
      ApplyRowPointwise(ApplyRows(g, rows, k - 1), rows[k - 1]);
    }
  }

  lemma UnwindPointwise(g: Graph, rows: seq<Row>)
    requires Anchored(g, rows)
    ensures forall n :: At(Unwind(g, rows).nodes, n) == NodesAfter(rows, n, At(g.nodes, n))
    ensures forall e :: At(Unwind(g, rows).edges, e) == EdgesAfter(rows, e, At(g.edges, e))
    ensures g.nodes.Keys <= Unwind(g, rows).nodes.Keys
  {
    ApplyRowsPointwise(g, rows, |rows|);
  }

  lemma PrunePointwise(g: Graph, doomed: Edge -> bool)
    ensures Prune(g, doomed).nodes == g.nodes
    ensures forall e :: At(Prune(g, doomed).edges, e) == if doomed(e) then None else At(g.edges, e)
  {
  }

  /** A graph is determined by its cells. */
  lemma GraphExtensional(a: Graph, b: Graph)
    requires forall n :: At(a.nodes, n) == At(b.nodes, n)
    requires forall e :: At(a.edges, e) == At(b.edges, e)
    ensures a == b
  {
    assert forall n :: n in a.nodes <==> At(a.nodes, n).Some?;
    assert forall n :: n in b.nodes <==> At(b.nodes, n).Some?;
    assert forall e :: e in a.edges <==> At(a.edges, e).Some?;
    assert forall e :: e in b.edges <==> At(b.edges, e).Some?;
    assert forall n :: n in a.nodes ==> At(a.nodes, n) == Some(a.nodes[n]) && At(b.nodes, n) == Some(b.nodes[n]);
    assert forall e :: e in a.edges ==> At(a.edges, e) == Some(a.edges[e]) && At(b.edges, e) == Some(b.edges[e]);
    assert a.nodes == b.nodes;
    assert a.edges == b.edges;
  }

  // ---------------------------------------------------------------- folds

  lemma {:induction false} FoldPrefix(a: seq<Row>, b: seq<Row>, k: nat, n: Node, p: Option<Props>, e: Edge, c: Option<EdgeCell>)
    requires k <= |a|
    ensures NodeFold(a + b, k, n, p) == NodeFold(a, k, n, p)
    ensures EdgeFold(a + b, k, e, c) == EdgeFold(a, k, e, c)
  {
    if k > 0 {
      FoldPrefix(a, b, k - 1, n, p, e, c);
      assert (a + b)[k - 1] == a[k - 1];
    }
  }

  lemma {:induction false} FoldSuffix(a: seq<Row>, b: seq<Row>, k: nat, n: Node, p: Option<Props>, e: Edge, c: Option<EdgeCell>)
    requires k <= |b|
    ensures NodeFold(a + b, |a| + k, n, p) == NodeFold(b, k, n, NodeFold(a, |a|, n, p))
    ensures EdgeFold(a + b, |a| + k, e, c) == EdgeFold(b, k, e, EdgeFold(a, |a|, e, c))
  {
    if k == 0 {
      FoldPrefix(a, b, |a|, n, p, e, c);
    } else {
      FoldSuffix(a, b, k - 1, n, p, e, c);
      assert (a + b)[|a| + k - 1] == b[k - 1];
    }
  }

  /** Running two statements' rows in one list is running the lists in turn. */
  lemma FoldAppend(a: seq<Row>, b: seq<Row>, n: Node, p: Option<Props>, e: Edge, c: Option<EdgeCell>)
    ensures NodesAfter(a + b, n, p) == NodesAfter(b, n, NodesAfter(a, n, p))
    ensures EdgesAfter(a + b, e, c) == EdgesAfter(b, e, EdgesAfter(a, e, c))
  {
    FoldSuffix(a, b, |b|, n, p, e, c);
  }

  ghost predicate Mentions(rows: seq<Row>, e: Edge) {
    exists i :: 0 <= i < |rows| && e in Edges(rows[i])
  }

  ghost predicate Visits(rows: seq<Row>, n: Node) {
    exists i :: 0 <= i < |rows| && n in Nodes(rows[i])
  }

  /** Rows that never mention an edge leave it alone. */
  lemma {:induction false} UnmentionedEdge(rows: seq<Row>, k: nat, e: Edge, c: Option<EdgeCell>)
    requires k <= |rows| && forall i :: 0 <= i < k ==> e !in Edges(rows[i])
    ensures EdgeFold(rows, k, e, c) == c
  {
    if k > 0 { UnmentionedEdge(rows, k - 1, e, c); }
  }

  lemma {:induction false} UnvisitedNode(rows: seq<Row>, k: nat, n: Node, p: Option<Props>)
    requires k <= |rows| && forall i :: 0 <= i < k ==> n !in Nodes(rows[i])
    ensures NodeFold(rows, k, n, p) == p
  {
    if k > 0 { UnvisitedNode(rows, k - 1, n, p); }
  }

  /** MERGE: the edge exists afterwards iff it did or a row asserts it, and never as a second
      copy. */
  lemma {:induction false} MergedEdge(rows: seq<Row>, k: nat, e: Edge, c: Option<EdgeCell>)
    requires k <= |rows|
    ensures EdgeFold(rows, k, e, c).Some? <==> c.Some? || exists i :: 0 <= i < k && e in Edges(rows[i])
    ensures EdgeFold(rows, k, e, c).Some? ==> EdgeFold(rows, k, e, c).value.copies == if c.Some? then c.value.copies else 1
  {
    if k > 0 { MergedEdge(rows, k - 1, e, c); }
  }

  /** Rows that only touch a node create it and change nothing else. */
  lemma {:induction false} TouchedNode(rows: seq<Row>, k: nat, n: Node, p: Option<Props>)
    requires k <= |rows| && forall i :: 0 <= i < k && rows[i].node == Some(n) ==> rows[i].update.Touch?
    ensures NodeFold(rows, k, n, p) == if exists i :: 0 <= i < k && n in Nodes(rows[i]) then Some(OrBlank(p)) else p
  {
    if k > 0 {
      TouchedNode(rows, k - 1, n, p);
      if n in Nodes(rows[k - 1]) {
        assert exists i :: 0 <= i < k && n in Nodes(rows[i]);
      }
    }
  }

  // ---------------------------------------------------------------- repeating a statement

  /** The property the first k rows last SET on the edge. */
  function LastProp(rows: seq<Row>, k: nat, e: Edge): Option<EdgeProp>
    requires k <= |rows|
  {
    if k == 0 then None
    else if rows[k - 1].edge == Some(e) && rows[k - 1].prop.Some? then rows[k - 1].prop
    else LastProp(rows, k - 1, e)
  }

  lemma {:induction false} EdgeFoldClosed(rows: seq<Row>, k: nat, e: Edge, c: Option<EdgeCell>)
    requires k <= |rows|
    ensures EdgeFold(rows, k, e, c).Some? ==>
      var cell := EdgeFold(rows, k, e, c).value;
      && cell.copies == (if c.Some? then c.value.copies else 1)
      && cell.prop == (if LastProp(rows, k, e).Some? then LastProp(rows, k, e).value else if c.Some? then c.value.prop else NoProp)
    ensures EdgeFold(rows, k, e, c).None? ==> c.None? && LastProp(rows, k, e).None?
  {
    if k > 0 { EdgeFoldClosed(rows, k - 1, e, c); }
  }

  /** Repeating a statement changes nothing. */
  lemma RepeatedEdge(rows: seq<Row>, e: Edge, c: Option<EdgeCell>)
    ensures EdgesAfter(rows, e, EdgesAfter(rows, e, c)) == EdgesAfter(rows, e, c)
  {
    var once := EdgesAfter(rows, e, c);
    EdgeFoldClosed(rows, |rows|, e, c);
    EdgeFoldClosed(rows, |rows|, e, once);
    if once.None? {
      MergedEdge(rows, |rows|, e, c);
      MergedEdge(rows, |rows|, e, once);
    }
  }

  /** The first name the rows offer for the node. */
  function FirstFill(rows: seq<Row>, k: nat, n: Node): Option<string>
    requires k <= |rows|
  {
    if k == 0 then None
    else if FirstFill(rows, k - 1, n).Some? then FirstFill(rows, k - 1, n)
    else if rows[k - 1].node == Some(n) && rows[k - 1].update.Fill? then rows[k - 1].update.name
    else None
  }

  ghost predicate OnlyFills(rows: seq<Row>, n: Node) {
    forall i :: 0 <= i < |rows| && rows[i].node == Some(n) ==> rows[i].update.Fill? || rows[i].update.Touch?
  }

  /** Fill-only rows create the node and give it the first name offered if it had none. */
  lemma {:induction false} FilledNode(rows: seq<Row>, k: nat, n: Node, p: Option<Props>)
    requires k <= |rows| && OnlyFills(rows, n)
    ensures !(exists i :: 0 <= i < k && n in Nodes(rows[i])) ==> FirstFill(rows, k, n).None?
    ensures NodeFold(rows, k, n, p) ==
      if p.None? && !(exists i :: 0 <= i < k && n in Nodes(rows[i])) then None
      else Some(OrBlank(p).(name := if OrBlank(p).name.Some? then OrBlank(p).name else FirstFill(rows, k, n)))
  {
    if k > 0 {
      FilledNode(rows, k - 1, n, p);
      if n in Nodes(rows[k - 1]) { assert exists i :: 0 <= i < k && n in Nodes(rows[i]); }
    }
  }

  /** The update the rows apply last to the node, when every one of them overwrites it. */
  function LastUpdate(rows: seq<Row>, k: nat, n: Node): Option<Update>
    requires k <= |rows|
  {
    if k == 0 then None else if rows[k - 1].node == Some(n) then Some(rows[k - 1].update) else LastUpdate(rows, k - 1, n)
  }

  ghost predicate OnlyOverwrites(rows: seq<Row>, n: Node) {
    forall i :: 0 <= i < |rows| && n in Nodes(rows[i]) ==>
      rows[i].node == Some(n) && (rows[i].update.Rename? || rows[i].update.Describe?)
  }

  lemma {:induction false} OverwrittenNode(rows: seq<Row>, k: nat, n: Node, p: Option<Props>)
    requires k <= |rows| && OnlyOverwrites(rows, n)
    requires forall i, j :: 0 <= i < |rows| && 0 <= j < |rows| && rows[i].node == Some(n) && rows[j].node == Some(n)
               ==> rows[i].update.Rename? == rows[j].update.Rename?
    ensures NodeFold(rows, k, n, p) ==
      if LastUpdate(rows, k, n).None? then p else Some(Updated(OrBlank(p), LastUpdate(rows, k, n).value))
    ensures LastUpdate(rows, k, n).Some? ==> exists i :: 0 <= i < k && rows[i].node == Some(n) && rows[i].update == LastUpdate(rows, k, n).value
  {
    if k > 0 { OverwrittenNode(rows, k - 1, n, p); }
  }
}
