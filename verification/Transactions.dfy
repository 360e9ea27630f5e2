/** What a whole release transaction does to each cell of the graph, whatever the order its
    statements run in. */
module Transactions {
  import opened Common
  import opened Graph
  import opened Records
  import opened Projection

  // ---------------------------------------------------------------- statement order

  predicate FusedPart(p: Part) {
    p.Artists? || p.Labels? || p.Masters? || p.Genres? || p.Styles?
  }

  predicate Cuts(op: Op, p: Part) {
    op == Cut(p) || (op.CutFused? && FusedPart(p))
  }

  predicate Pruned(p: Part) {
    !p.ReleaseNode? && !p.PartOfs?
  }

  /** Each part is merged once, after its one prune; the release nodes come first and the
      taxonomy nodes before PART_OF. */
  ghost predicate Orderly(script: nat -> Op, length: nat, mergeAt: Part -> nat, cutAt: Part -> nat) {
    && length > 0 && script(0) == Merge(ReleaseNode)
    && (forall p :: mergeAt(p) < length && script(mergeAt(p)) == Merge(p))
    && (forall i: nat :: i < length && script(i).Merge? ==> i == mergeAt(script(i).part))
    && (forall p :: Pruned(p) ==> 0 < cutAt(p) < mergeAt(p) && Cuts(script(cutAt(p)), p))
    && (forall i: nat, p :: i < length && Cuts(script(i), p) && Pruned(p) ==> i == cutAt(p))
    && mergeAt(Genres) < mergeAt(PartOfs) && mergeAt(Styles) < mergeAt(PartOfs)
  }

  function SingleMergeAt(p: Part): nat {
    match p
    case ReleaseNode => 0 case Artists => 10 case Labels => 11 case Masters => 12 case Genres => 13
    case Styles => 14 case PartOfs => 15 case Media => 7 case Companies => 9 case Credits => 17
  }

  function SingleCutAt(p: Part): nat {
    match p
    case Artists => 1 case Labels => 2 case Masters => 3 case Genres => 4 case Styles => 5
    case Media => 6 case Companies => 8 case Credits => 16 case _ => 0
  }

  function BatchMergeAt(p: Part): nat {
    match p
    case ReleaseNode => 0 case Artists => 2 case Labels => 3 case Masters => 4 case Genres => 5
    case Styles => 6 case PartOfs => 7 case Media => 9 case Companies => 11 case Credits => 13
  }

  function BatchCutAt(p: Part): nat {
    match p
    case Media => 8 case Companies => 10 case Credits => 12 case _ => 1
  }

  lemma SinglePlaces(i: nat, p: Part)
    ensures SingleMergeAt(p) < SINGLE_LENGTH && SingleScript(SingleMergeAt(p)) == Merge(p)
    ensures i < SINGLE_LENGTH && SingleScript(i) == Merge(p) ==> i == SingleMergeAt(p)
    ensures Pruned(p) ==> 0 < SingleCutAt(p) < SingleMergeAt(p) && Cuts(SingleScript(SingleCutAt(p)), p)
    ensures i < SINGLE_LENGTH && Cuts(SingleScript(i), p) && Pruned(p) ==> i == SingleCutAt(p)
  {
  }

  lemma SingleIsOrderly()
    ensures Orderly(SingleScript, SINGLE_LENGTH, SingleMergeAt, SingleCutAt)
  {
    forall p ensures SingleMergeAt(p) < SINGLE_LENGTH && SingleScript(SingleMergeAt(p)) == Merge(p) { SinglePlaces(0, p); }
    forall p | Pruned(p) ensures 0 < SingleCutAt(p) < SingleMergeAt(p) && Cuts(SingleScript(SingleCutAt(p)), p) { SinglePlaces(0, p); }
    forall i: nat | i < SINGLE_LENGTH && SingleScript(i).Merge? ensures i == SingleMergeAt(SingleScript(i).part) { SinglePlaces(i, SingleScript(i).part); }
    forall i: nat, p | i < SINGLE_LENGTH && Cuts(SingleScript(i), p) && Pruned(p) ensures i == SingleCutAt(p) { SinglePlaces(i, p); }
  }

  lemma BatchPlaces(i: nat, p: Part)
    ensures BatchMergeAt(p) < BATCH_LENGTH && BatchScript(BatchMergeAt(p)) == Merge(p)
    ensures i < BATCH_LENGTH && BatchScript(i) == Merge(p) ==> i == BatchMergeAt(p)
    ensures Pruned(p) ==> 0 < BatchCutAt(p) < BatchMergeAt(p) && Cuts(BatchScript(BatchCutAt(p)), p)
    ensures i < BATCH_LENGTH && Cuts(BatchScript(i), p) && Pruned(p) ==> i == BatchCutAt(p)
  {
  }

  lemma BatchIsOrderly()
    ensures Orderly(BatchScript, BATCH_LENGTH, BatchMergeAt, BatchCutAt)
  {
    forall p ensures BatchMergeAt(p) < BATCH_LENGTH && BatchScript(BatchMergeAt(p)) == Merge(p) { BatchPlaces(0, p); }
    forall p | Pruned(p) ensures 0 < BatchCutAt(p) < BatchMergeAt(p) && Cuts(BatchScript(BatchCutAt(p)), p) { BatchPlaces(0, p); }
    forall i: nat | i < BATCH_LENGTH && BatchScript(i).Merge? ensures i == BatchMergeAt(BatchScript(i).part) { BatchPlaces(i, BatchScript(i).part); }
    forall i: nat, p | i < BATCH_LENGTH && Cuts(BatchScript(i), p) && Pruned(p) ensures i == BatchCutAt(p) { BatchPlaces(i, p); }
  }

  // ---------------------------------------------------------------- one statement

  function AllRows(p: Part, rs: seq<ReleaseRecord>, batched: bool): seq<Row> {
    CollectAll(rs, PartRows(p, batched))
  }

  /** Every gathered row comes from one of the releases and fits its part. */
  lemma AllRowsFit(p: Part, rs: seq<ReleaseRecord>, batched: bool, row: Row) returns (i: nat)
    requires row in AllRows(p, rs, batched)
    ensures i < |rs| && row in RowsOf(p, rs[i], batched) && RowFits(p, rs[i].id, row)
  {
    CollectMembers(rs, PartRows(p, batched), |rs|);
    i :| 0 <= i < |rs| && row in PartRows(p, batched)(rs[i]);
    RowsFit(p, rs[i], batched);
  }

  ghost predicate ReleasesPresent(g: Graph, rs: seq<ReleaseRecord>) {
    forall i :: 0 <= i < |rs| ==> Release(rs[i].id) in g.nodes
  }

  lemma RowsAnchored(g: Graph, p: Part, rs: seq<ReleaseRecord>, batched: bool)
    requires p.ReleaseNode? || ReleasesPresent(g, rs)
    ensures Anchored(g, AllRows(p, rs, batched))
  {
    var rows := AllRows(p, rs, batched);
    forall k | 0 <= k < |rows| ensures rows[k].anchors <= g.nodes.Keys {
      var i := AllRowsFit(p, rs, batched, rows[k]);
      if p.ReleaseNode? { assert rows[k].anchors == {}; }
    }
  }

  /** The statement's effect on an edge of its own part, and on any other edge. */
  lemma MergeOnEdge(g: Graph, p: Part, rs: seq<ReleaseRecord>, batched: bool, e: Edge)
    requires p.ReleaseNode? || ReleasesPresent(g, rs)
    ensures At(DoOp(g, rs, Merge(p), batched).edges, e) ==
      if p == EdgePart(e) then EdgesAfter(AllRows(p, rs, batched), e, At(g.edges, e)) else At(g.edges, e)
  {
    var rows := AllRows(p, rs, batched);
    RowsAnchored(g, p, rs, batched);
    UnwindPointwise(g, rows);
    if p != EdgePart(e) {
      forall k | 0 <= k < |rows| ensures e !in Edges(rows[k]) {
        var i := AllRowsFit(p, rs, batched, rows[k]);
      }
      UnmentionedEdge(rows, |rows|, e, At(g.edges, e));
    }
  }

  /** The statement's effect on a node: PART_OF rows find taxonomy nodes already there. */
  lemma MergeOnNode(g: Graph, p: Part, rs: seq<ReleaseRecord>, batched: bool, n: Node)
    requires p.ReleaseNode? || ReleasesPresent(g, rs)
    requires p.PartOfs? && Visits(AllRows(p, rs, batched), n) ==> n in g.nodes
    ensures At(DoOp(g, rs, Merge(p), batched).nodes, n) ==
      if p == NodePart(n) then NodesAfter(AllRows(p, rs, batched), n, At(g.nodes, n)) else At(g.nodes, n)
  {
    var rows := AllRows(p, rs, batched);
    RowsAnchored(g, p, rs, batched);
    UnwindPointwise(g, rows);
    if p.PartOfs? {
      PairRowsOnlyTouch(rs, batched, n, At(g.nodes, n));
    } else if p != NodePart(n) {
      OtherPartsSkipNode(p, rs, batched, n, At(g.nodes, n));
    }
  }

  lemma PairRowsOnlyTouch(rs: seq<ReleaseRecord>, batched: bool, n: Node, cur: Option<Props>)
    requires Visits(AllRows(PartOfs, rs, batched), n) ==> cur.Some?
    ensures NodesAfter(AllRows(PartOfs, rs, batched), n, cur) == cur
  {
    var rows := AllRows(PartOfs, rs, batched);
    forall k | 0 <= k < |rows| && rows[k].node == Some(n) ensures rows[k].update.Touch? {
      var i := AllRowsFit(PartOfs, rs, batched, rows[k]);
      assert n in Nodes(rows[k]);
    }
    TouchedNode(rows, |rows|, n, cur);
  }

  lemma OtherPartsSkipNode(p: Part, rs: seq<ReleaseRecord>, batched: bool, n: Node, cur: Option<Props>)
    requires p != NodePart(n) && !p.PartOfs?
    ensures NodesAfter(AllRows(p, rs, batched), n, cur) == cur
  {
    var rows := AllRows(p, rs, batched);
    forall k | 0 <= k < |rows| ensures n !in Nodes(rows[k]) {
      var i := AllRowsFit(p, rs, batched, rows[k]);
    }
    UnvisitedNode(rows, |rows|, n, cur);
  }

  lemma FusedStaleIff(r: ReleaseRecord, e: Edge)
    ensures FusedStale(r, e) <==> FusedPart(EdgePart(e)) && Stale(EdgePart(e), r, e)
  {
  }

  lemma OwnedPart(p: Part, r: string, e: Edge)
    requires Owns(p, r, e)
    ensures p == EdgePart(e)
  {
  }

  /** The fused prune deletes exactly the union of what the five separate prunes delete. */
  lemma FusedPruneIsUnionOfFive(g: Graph, rs: seq<ReleaseRecord>, batched: bool)
    ensures forall e :: At(DoOp(g, rs, CutFused, batched).edges, e)
                     == (if FusedPart(EdgePart(e)) && SomeStale(EdgePart(e), rs, e) then None else At(g.edges, e))
    ensures DoOp(g, rs, CutFused, batched).nodes == g.nodes
  {
    forall e ensures SomeFusedStale(rs, e) <==> FusedPart(EdgePart(e)) && SomeStale(EdgePart(e), rs, e) {
      forall i | 0 <= i < |rs| ensures FusedStale(rs[i], e) <==> FusedPart(EdgePart(e)) && Stale(EdgePart(e), rs[i], e) {
        FusedStaleIff(rs[i], e);
      }
    }
    PrunePointwise(g, (e: Edge) => SomeFusedStale(rs, e));
  }

  lemma SeparatePrune(g: Graph, p: Part, rs: seq<ReleaseRecord>, batched: bool)
    ensures forall e :: At(DoOp(g, rs, Cut(p), batched).edges, e)
                     == (if p == EdgePart(e) && SomeStale(p, rs, e) then None else At(g.edges, e))
    ensures DoOp(g, rs, Cut(p), batched).nodes == g.nodes
  {
    forall e ensures SomeStale(p, rs, e) ==> p == EdgePart(e) {
      if SomeStale(p, rs, e) {
        var i :| 0 <= i < |rs| && Stale(p, rs[i], e);
        OwnedPart(p, rs[i].id, e);
      }
    }
    PrunePointwise(g, (e: Edge) => SomeStale(p, rs, e));
  }

  // ---------------------------------------------------------------- a whole transaction

  /** The edge after its part's prune, and after its part's merge. */
  function AfterCut(rs: seq<ReleaseRecord>, e: Edge, cur: Option<EdgeCell>): Option<EdgeCell> {
    if SomeStale(EdgePart(e), rs, e) then None else cur
  }

  function EdgeOutcome(rs: seq<ReleaseRecord>, batched: bool, e: Edge, cur: Option<EdgeCell>): Option<EdgeCell> {
    EdgesAfter(AllRows(EdgePart(e), rs, batched), e, AfterCut(rs, e, cur))
  }

  function NodeOutcome(rs: seq<ReleaseRecord>, batched: bool, n: Node, cur: Option<Props>): Option<Props> {
    NodesAfter(AllRows(NodePart(n), rs, batched), n, cur)
  }

  lemma UnprunedNeverStale(p: Part, rs: seq<ReleaseRecord>, e: Edge)
    requires !Pruned(p)
    ensures !SomeStale(p, rs, e)
  {
  }

  /** Merging the release nodes makes every release of the list present, for good. */
  lemma {:induction false} ReleasesArePresent(g: Graph, rs: seq<ReleaseRecord>, script: nat -> Op, k: nat, batched: bool)
    requires k >= 1 && script(0) == Merge(ReleaseNode)
    ensures ReleasesPresent(RunScript(g, rs, script, k, batched), rs)
  {
    if k == 1 {
      assert RunScript(g, rs, script, 0, batched) == g;
      FirstStatement(g, rs, batched);
    } else {
      var before := RunScript(g, rs, script, k - 1, batched);
      ReleasesArePresent(g, rs, script, k - 1, batched);
      NodesStay(before, rs, script(k - 1), batched);
    }
  }

  lemma FirstStatement(g: Graph, rs: seq<ReleaseRecord>, batched: bool)
    ensures ReleasesPresent(DoOp(g, rs, Merge(ReleaseNode), batched), rs)
  {
    var rows := AllRows(ReleaseNode, rs, batched);
    RowsAnchored(g, ReleaseNode, rs, batched);
    UnwindPointwise(g, rows);
    forall i | 0 <= i < |rs| ensures Release(rs[i].id) in DoOp(g, rs, Merge(ReleaseNode), batched).nodes {
      CollectMembers(rs, PartRows(ReleaseNode, batched), |rs|);
      var row := ReleaseRows(rs[i])[0];
      assert row in PartRows(ReleaseNode, batched)(rs[i]);
      assert row in rows;
      var k :| 0 <= k < |rows| && rows[k] == row;
      VisitedNodeExists(rows, |rows|, k, Release(rs[i].id), At(g.nodes, Release(rs[i].id)));
    }
  }

  lemma {:induction false} VisitedNodeExists(rows: seq<Row>, m: nat, k: nat, n: Node, p: Option<Props>)
    requires k < m <= |rows| && n in Nodes(rows[k])
    ensures NodeFold(rows, m, n, p).Some?
  {
    if k < m - 1 { VisitedNodeExists(rows, m - 1, k, n, p); }
  }

  lemma NodesStay(g: Graph, rs: seq<ReleaseRecord>, op: Op, batched: bool)
    requires ReleasesPresent(g, rs)
    ensures g.nodes.Keys <= DoOp(g, rs, op, batched).nodes.Keys
  {
    if op.Merge? {
      RowsAnchored(g, op.part, rs, batched);
      UnwindPointwise(g, AllRows(op.part, rs, batched));
    }
  }

  /** What the first k statements of an orderly transaction have done to an edge. */
  function EdgeSoFar(rs: seq<ReleaseRecord>, mergeAt: Part -> nat, cutAt: Part -> nat, k: nat, batched: bool, e: Edge, cur: Option<EdgeCell>): Option<EdgeCell> {
    var p := EdgePart(e);
    if k > mergeAt(p) then EdgeOutcome(rs, batched, e, cur)
    else if !Pruned(p) || k <= cutAt(p) then cur
    else AfterCut(rs, e, cur)
  }

  lemma {:induction false} EdgeProgress(g: Graph, rs: seq<ReleaseRecord>, script: nat -> Op, length: nat, mergeAt: Part -> nat, cutAt: Part -> nat,
                                        k: nat, batched: bool, e: Edge)
    requires Orderly(script, length, mergeAt, cutAt) && k <= length
    ensures At(RunScript(g, rs, script, k, batched).edges, e) == EdgeSoFar(rs, mergeAt, cutAt, k, batched, e, At(g.edges, e))
  {
    if k > 0 {
      EdgeProgress(g, rs, script, length, mergeAt, cutAt, k - 1, batched, e);
      var before := RunScript(g, rs, script, k - 1, batched);
      if k > 1 { ReleasesArePresent(g, rs, script, k - 1, batched); }
      EdgeTurn(before, rs, script(k - 1), batched, e);
      if !Pruned(EdgePart(e)) { UnprunedNeverStale(EdgePart(e), rs, e); }
      assert script(k - 1) == Merge(EdgePart(e)) <==> k - 1 == mergeAt(EdgePart(e));
      assert Pruned(EdgePart(e)) ==> (Cuts(script(k - 1), EdgePart(e)) <==> k - 1 == cutAt(EdgePart(e)));
    }
  }

  /** One statement, seen from one edge. */
  lemma EdgeTurn(g: Graph, rs: seq<ReleaseRecord>, op: Op, batched: bool, e: Edge)
    requires op == Merge(ReleaseNode) || ReleasesPresent(g, rs)
    ensures At(DoOp(g, rs, op, batched).edges, e) ==
      if op == Merge(EdgePart(e)) then EdgesAfter(AllRows(EdgePart(e), rs, batched), e, At(g.edges, e))
      else if Cuts(op, EdgePart(e)) then AfterCut(rs, e, At(g.edges, e))
      else At(g.edges, e)
  {
    match op
    case Merge(p) => MergeOnEdge(g, p, rs, batched, e);
    case Cut(p) => SeparatePrune(g, p, rs, batched);
    case CutFused => FusedPruneIsUnionOfFive(g, rs, batched);
  }

  lemma {:induction false} NodeProgress(g: Graph, rs: seq<ReleaseRecord>, script: nat -> Op, length: nat, mergeAt: Part -> nat, cutAt: Part -> nat,
                                        k: nat, batched: bool, n: Node)
    requires Orderly(script, length, mergeAt, cutAt) && k <= length
    ensures At(RunScript(g, rs, script, k, batched).nodes, n) ==
      if k > mergeAt(NodePart(n)) then NodeOutcome(rs, batched, n, At(g.nodes, n)) else At(g.nodes, n)
  {
    if k > 0 {
      NodeProgress(g, rs, script, length, mergeAt, cutAt, k - 1, batched, n);
      if k > 1 { ReleasesArePresent(g, rs, script, k - 1, batched); }
      NodeStatement(g, rs, script, length, mergeAt, cutAt, k, batched, n, RunScript(g, rs, script, k - 1, batched));
    }
  }

  /** The k-th statement, from whatever graph the earlier ones left. */
  lemma NodeStatement(g: Graph, rs: seq<ReleaseRecord>, script: nat -> Op, length: nat, mergeAt: Part -> nat, cutAt: Part -> nat,
                      k: nat, batched: bool, n: Node, before: Graph)
    requires Orderly(script, length, mergeAt, cutAt) && 0 < k <= length && (k > 1 ==> ReleasesPresent(before, rs))
    requires At(before.nodes, n) == if k - 1 > mergeAt(NodePart(n)) then NodeOutcome(rs, batched, n, At(g.nodes, n)) else At(g.nodes, n)
    ensures At(DoOp(before, rs, script(k - 1), batched).nodes, n) ==
      if k > mergeAt(NodePart(n)) then NodeOutcome(rs, batched, n, At(g.nodes, n)) else At(g.nodes, n)
  {
    if script(k - 1) == Merge(PartOfs) && Visits(AllRows(PartOfs, rs, batched), n) {
      PartOfNodeExists(rs, batched, n, At(g.nodes, n));
    }
    NodeTurn(before, rs, script(k - 1), batched, n);
    assert script(k - 1) == Merge(NodePart(n)) <==> k - 1 == mergeAt(NodePart(n));
  }

  /** One statement, seen from one node. */
  lemma NodeTurn(g: Graph, rs: seq<ReleaseRecord>, op: Op, batched: bool, n: Node)
    requires op == Merge(ReleaseNode) || ReleasesPresent(g, rs)
    requires op == Merge(PartOfs) && Visits(AllRows(PartOfs, rs, batched), n) ==> n in g.nodes
    ensures At(DoOp(g, rs, op, batched).nodes, n) ==
      if op == Merge(NodePart(n)) then NodesAfter(AllRows(NodePart(n), rs, batched), n, At(g.nodes, n)) else At(g.nodes, n)
  {
    match op
    case Merge(p) => MergeOnNode(g, p, rs, batched, n);
    case Cut(p) => SeparatePrune(g, p, rs, batched);
    case CutFused => FusedPruneIsUnionOfFive(g, rs, batched);
  }

  /** A genre or style in a PART_OF row is one the record lists, so its own statement merges it. */
  lemma PartOfNodeIsListed(r: ReleaseRecord, batched: bool, row: Row, n: Node) returns (own: Row)
    requires row in RowsOf(PartOfs, r, batched) && n in Nodes(row)
    ensures n.Genre? || n.Style?
    ensures own in RowsOf(NodePart(n), r, batched) && n in Nodes(own)
  {
    CollectMembers(r.styles, PartOfRow(r.genres[0], batched), |r.styles|);
    var j :| 0 <= j < |r.styles| && row in PartOfRow(r.genres[0], batched)(r.styles[j]);
    if n.Genre? {
      own := Joined(r.id, n, Touch, IsGenre(r.id, n.id), None);
      CollectMembers(r.genres, GenreRow(r.id, batched), |r.genres|);
      assert own in GenreRow(r.id, batched)(r.genres[0]);
    } else {
      own := Joined(r.id, n, Touch, IsStyle(r.id, n.id), None);
      CollectMembers(r.styles, StyleRow(r.id, batched), |r.styles|);
      assert own in StyleRow(r.id, batched)(r.styles[j]);
    }
  }

  /** A taxonomy node that PART_OF revisits was merged by its own statement. */
  lemma PartOfNodeExists(rs: seq<ReleaseRecord>, batched: bool, n: Node, cur: Option<Props>)
    requires Visits(AllRows(PartOfs, rs, batched), n)
    ensures (n.Genre? || n.Style?) && NodeOutcome(rs, batched, n, cur).Some?
  {
    var rows := AllRows(PartOfs, rs, batched);
    var k :| 0 <= k < |rows| && n in Nodes(rows[k]);
    var i := AllRowsFit(PartOfs, rs, batched, rows[k]);
    var own := PartOfNodeIsListed(rs[i], batched, rows[k], n);
    RowIsGathered(NodePart(n), rs, batched, i, own);
    var all := AllRows(NodePart(n), rs, batched);
    var m :| 0 <= m < |all| && all[m] == own;
    VisitedNodeExists(all, |all|, m, n, cur);
  }

  lemma RowIsGathered(p: Part, rs: seq<ReleaseRecord>, batched: bool, i: nat, row: Row)
    requires i < |rs| && row in RowsOf(p, rs[i], batched)
    ensures row in AllRows(p, rs, batched)
  {
    assert row in PartRows(p, batched)(rs[i]);
    CollectMembers(rs, PartRows(p, batched), |rs|);
  }

  /** The single-record transaction and the batched one, cell by cell. */
  lemma WriteReleaseCells(g: Graph, r: ReleaseRecord)
    ensures forall e :: At(WriteRelease(g, r).edges, e) == EdgeOutcome([r], false, e, At(g.edges, e))
    ensures forall n :: At(WriteRelease(g, r).nodes, n) == NodeOutcome([r], false, n, At(g.nodes, n))
  {
    SingleIsOrderly();
    forall e ensures At(WriteRelease(g, r).edges, e) == EdgeOutcome([r], false, e, At(g.edges, e)) {
      EdgeProgress(g, [r], SingleScript, SINGLE_LENGTH, SingleMergeAt, SingleCutAt, SINGLE_LENGTH, false, e);
    }
    forall n ensures At(WriteRelease(g, r).nodes, n) == NodeOutcome([r], false, n, At(g.nodes, n)) {
      NodeProgress(g, [r], SingleScript, SINGLE_LENGTH, SingleMergeAt, SingleCutAt, SINGLE_LENGTH, false, n);
    }
  }

  lemma WriteBatchCells(g: Graph, rs: seq<ReleaseRecord>)
    ensures forall e :: At(WriteBatch(g, rs).edges, e) == EdgeOutcome(rs, true, e, At(g.edges, e))
    ensures forall n :: At(WriteBatch(g, rs).nodes, n) == NodeOutcome(rs, true, n, At(g.nodes, n))
  {
    BatchIsOrderly();
    forall e ensures At(WriteBatch(g, rs).edges, e) == EdgeOutcome(rs, true, e, At(g.edges, e)) {
      EdgeProgress(g, rs, BatchScript, BATCH_LENGTH, BatchMergeAt, BatchCutAt, BATCH_LENGTH, true, e);
    }
    forall n ensures At(WriteBatch(g, rs).nodes, n) == NodeOutcome(rs, true, n, At(g.nodes, n)) {
      NodeProgress(g, rs, BatchScript, BATCH_LENGTH, BatchMergeAt, BatchCutAt, BATCH_LENGTH, true, n);
    }
  }
}
