/** The batched write path against the single-record one: the same graph, with the exact
    conditions under which repeated messages and empty names make a difference. */
module BatchEquivalence {
  import opened Common
  import opened Graph
  import opened Records
  import opened Projection
  import opened Transactions

  /** Messages with equal ids carry equal records. */
  ghost predicate Consistent(rs: seq<ReleaseRecord>) {
    forall i, j :: 0 <= i < |rs| && 0 <= j < |rs| && rs[i].id == rs[j].id ==> rs[i] == rs[j]
  }

  ghost predicate Named(rs: seq<ReleaseRecord>) {
    forall i :: 0 <= i < |rs| ==> NamedTaxonomy(rs[i])
  }

  // ---------------------------------------------------------------- one release at a time

  /** The single-record transaction applied to each release in turn, without the hash gate. */
  function WriteStep(): (ReleaseRecord, Graph) -> Graph { (r: ReleaseRecord, g: Graph) => WriteRelease(g, r) }
  function EdgeStep(e: Edge): (ReleaseRecord, Option<EdgeCell>) -> Option<EdgeCell> { (r: ReleaseRecord, c: Option<EdgeCell>) => EdgeX(r, e, c) }
  function NodeStep(n: Node): (ReleaseRecord, Option<Props>) -> Option<Props> { (r: ReleaseRecord, p: Option<Props>) => NodeX(r, n, p) }

  function WriteAll(g: Graph, rs: seq<ReleaseRecord>, k: nat): Graph
    requires k <= |rs|
  {
    Fold(WriteStep(), rs, k, g)
  }

  /** One release's effect on one edge and on one node. */
  function EdgeX(r: ReleaseRecord, e: Edge, cur: Option<EdgeCell>): Option<EdgeCell> {
    EdgesAfter(RowsOf(EdgePart(e), r, true), e, if Stale(EdgePart(e), r, e) then None else cur)
  }

  function NodeX(r: ReleaseRecord, n: Node, cur: Option<Props>): Option<Props> {
    NodesAfter(RowsOf(NodePart(n), r, true), n, cur)
  }

  function EdgeSeq(rs: seq<ReleaseRecord>, k: nat, e: Edge, cur: Option<EdgeCell>): Option<EdgeCell>
    requires k <= |rs|
  {
    Fold(EdgeStep(e), rs, k, cur)
  }

  function NodeSeq(rs: seq<ReleaseRecord>, k: nat, n: Node, cur: Option<Props>): Option<Props>
    requires k <= |rs|
  {
    Fold(NodeStep(n), rs, k, cur)
  }

  lemma {:induction false} CollectAgrees<A>(xs: seq<A>, f: A -> seq<Row>, h: A -> seq<Row>, k: nat)
    requires k <= |xs| && forall x :: x in xs ==> f(x) == h(x)
    ensures Collect(xs, f, k) == Collect(xs, h, k)
  {
    if k > 0 {
      CollectAgrees(xs, f, h, k - 1);
      assert xs[k - 1] in xs;
    }
  }

  /** On a record with named taxonomy the two paths build the same rows. */
  lemma NamedRowsAgree(p: Part, r: ReleaseRecord)
    requires NamedTaxonomy(r)
    ensures RowsOf(p, r, false) == RowsOf(p, r, true)
  {
    CollectAgrees(r.genres, GenreRow(r.id, false), GenreRow(r.id, true), |r.genres|);
    CollectAgrees(r.styles, StyleRow(r.id, false), StyleRow(r.id, true), |r.styles|);
    if |r.genres| == 1 {
      assert r.genres[0] in r.genres;
      CollectAgrees(r.styles, PartOfRow(r.genres[0], false), PartOfRow(r.genres[0], true), |r.styles|);
    }
  }

  lemma OneReleaseRows(p: Part, r: ReleaseRecord, batched: bool)
    ensures AllRows(p, [r], batched) == RowsOf(p, r, batched)
  {
    var f := PartRows(p, batched);
    assert Collect([r], f, 1) == Collect([r], f, 0) + f([r][0]);
  }

  lemma WriteReleaseIsX(g: Graph, r: ReleaseRecord)
    requires NamedTaxonomy(r)
    ensures forall e :: At(WriteRelease(g, r).edges, e) == EdgeX(r, e, At(g.edges, e))
    ensures forall n :: At(WriteRelease(g, r).nodes, n) == NodeX(r, n, At(g.nodes, n))
  {
    WriteReleaseCells(g, r);
    forall e ensures EdgeOutcome([r], false, e, At(g.edges, e)) == EdgeX(r, e, At(g.edges, e)) {
      OneReleaseRows(EdgePart(e), r, false);
      NamedRowsAgree(EdgePart(e), r);
      assert SomeStale(EdgePart(e), [r], e) <==> Stale(EdgePart(e), [r][0], e);
    }
    forall n ensures NodeOutcome([r], false, n, At(g.nodes, n)) == NodeX(r, n, At(g.nodes, n)) {
      OneReleaseRows(NodePart(n), r, false);
      NamedRowsAgree(NodePart(n), r);
    }
  }

  lemma OneWriteOnEdge(g: Graph, r: ReleaseRecord, e: Edge)
    requires NamedTaxonomy(r)
    ensures At(WriteStep()(r, g).edges, e) == EdgeStep(e)(r, At(g.edges, e))
  {
    WriteReleaseIsX(g, r);
  }

  lemma OneWriteOnNode(g: Graph, r: ReleaseRecord, n: Node)
    requires NamedTaxonomy(r)
    ensures At(WriteStep()(r, g).nodes, n) == NodeStep(n)(r, At(g.nodes, n))
  {
    WriteReleaseIsX(g, r);
  }

  lemma {:induction false} WriteAllEdge(g: Graph, rs: seq<ReleaseRecord>, k: nat, e: Edge)
    requires k <= |rs| && Named(rs)
    ensures At(WriteAll(g, rs, k).edges, e) == EdgeSeq(rs, k, e, At(g.edges, e))
  {
    if k > 0 {
      WriteAllEdge(g, rs, k - 1, e);
      OneWriteOnEdge(WriteAll(g, rs, k - 1), rs[k - 1], e);
    }
  }

  lemma {:induction false} WriteAllNode(g: Graph, rs: seq<ReleaseRecord>, k: nat, n: Node)
    requires k <= |rs| && Named(rs)
    ensures At(WriteAll(g, rs, k).nodes, n) == NodeSeq(rs, k, n, At(g.nodes, n))
  {
    if k > 0 {
      WriteAllNode(g, rs, k - 1, n);
      OneWriteOnNode(WriteAll(g, rs, k - 1), rs[k - 1], n);
    }
  }

  // ---------------------------------------------------------------- prune-all then merge-all

  predicate StaleBefore(p: Part, rs: seq<ReleaseRecord>, k: nat, e: Edge)
    requires k <= |rs|
  {
    exists i :: 0 <= i < k && Stale(p, rs[i], e)
  }

  /** Nothing stale for one release of a consistent list is asserted by another. */
  lemma StaleIsUnmentioned(rs: seq<ReleaseRecord>, i: nat, j: nat, e: Edge)
    requires Consistent(rs) && i < |rs| && j < |rs| && Stale(EdgePart(e), rs[i], e)
    ensures !Mentions(RowsOf(EdgePart(e), rs[j], true), e)
  {
    var p := EdgePart(e);
    if Mentions(RowsOf(p, rs[j], true), e) {
      MentionedMeansOwner(p, rs[j], true, rs[i].id, e);
      OwnedMentionedIff(p, rs[j], true, e);
    }
  }

  lemma EdgesAfterUnmentioned(rows: seq<Row>, e: Edge, c: Option<EdgeCell>)
    requires !Mentions(rows, e)
    ensures EdgesAfter(rows, e, c) == c
  {
    UnmentionedEdge(rows, |rows|, e, c);
  }

  lemma {:induction false} GatheredUnmentioned(rs: seq<ReleaseRecord>, k: nat, e: Edge, c: Option<EdgeCell>)
    requires k <= |rs| && forall j :: 0 <= j < k ==> !Mentions(RowsOf(EdgePart(e), rs[j], true), e)
    ensures EdgesAfter(Collect(rs, PartRows(EdgePart(e), true), k), e, c) == c
  {
    if k > 0 {
      var f := PartRows(EdgePart(e), true);
      GatheredUnmentioned(rs, k - 1, e, c);
      FoldAppend(Collect(rs, f, k - 1), f(rs[k - 1]), Release(""), None, e, c);
      EdgesAfterUnmentioned(f(rs[k - 1]), e, c);
    }
  }

  /** Pruning the whole batch and then merging it is pruning and merging release by release. */
  lemma {:induction false} PruneAllMergeAll(rs: seq<ReleaseRecord>, k: nat, e: Edge, cur: Option<EdgeCell>)
    requires Consistent(rs) && k <= |rs|
    ensures EdgesAfter(Collect(rs, PartRows(EdgePart(e), true), k), e, if StaleBefore(EdgePart(e), rs, k, e) then None else cur)
         == EdgeSeq(rs, k, e, cur)
  {
    var p := EdgePart(e);
    var f := PartRows(p, true);
    if k > 0 {
      PruneAllMergeAll(rs, k - 1, e, cur);
      if Stale(p, rs[k - 1], e) {
        DroppedForGood(rs, k, e);
      } else {
        assert StaleBefore(p, rs, k, e) <==> StaleBefore(p, rs, k - 1, e);
        FoldAppend(Collect(rs, f, k - 1), f(rs[k - 1]), Release(""), None, e, if StaleBefore(p, rs, k, e) then None else cur);
      }
    }
  }

  /** An edge its own record drops is merged by no record of the batch. */
  lemma DroppedForGood(rs: seq<ReleaseRecord>, k: nat, e: Edge)
    requires Consistent(rs) && 0 < k <= |rs| && Stale(EdgePart(e), rs[k - 1], e)
    ensures EdgesAfter(Collect(rs, PartRows(EdgePart(e), true), k), e, None) == None
    ensures EdgesAfter(RowsOf(EdgePart(e), rs[k - 1], true), e, None) == None
  {
    forall j | 0 <= j < k ensures !Mentions(RowsOf(EdgePart(e), rs[j], true), e) {
      StaleIsUnmentioned(rs, k - 1, j, e);
    }
    GatheredUnmentioned(rs, k, e, None);
    EdgesAfterUnmentioned(RowsOf(EdgePart(e), rs[k - 1], true), e, None);
  }

  lemma {:induction false} GatheredNodes(rs: seq<ReleaseRecord>, k: nat, n: Node, cur: Option<Props>)
    requires k <= |rs|
    ensures NodesAfter(Collect(rs, PartRows(NodePart(n), true), k), n, cur) == NodeSeq(rs, k, n, cur)
  {
    if k > 0 {
      var f := PartRows(NodePart(n), true);
      GatheredNodes(rs, k - 1, n, cur);
      FoldAppend(Collect(rs, f, k - 1), f(rs[k - 1]), n, cur, By("", ""), None);
    }
  }

  /** Every graph, every consistent batch: the batched transaction leaves, cell by cell, what
      the releases leave when written one after the other. */
  lemma BatchIsSequence(g: Graph, rs: seq<ReleaseRecord>)
    requires Consistent(rs) && Named(rs)
    ensures WriteBatch(g, rs) == WriteAll(g, rs, |rs|)
  {
    WriteBatchCells(g, rs);
    forall e ensures At(WriteBatch(g, rs).edges, e) == At(WriteAll(g, rs, |rs|).edges, e) {
      WriteAllEdge(g, rs, |rs|, e);
      PruneAllMergeAll(rs, |rs|, e, At(g.edges, e));
      assert StaleBefore(EdgePart(e), rs, |rs|, e) <==> SomeStale(EdgePart(e), rs, e);
    }
    forall n ensures At(WriteBatch(g, rs).nodes, n) == At(WriteAll(g, rs, |rs|).nodes, n) {
      WriteAllNode(g, rs, |rs|, n);
      GatheredNodes(rs, |rs|, n, At(g.nodes, n));
    }
    GraphExtensional(WriteBatch(g, rs), WriteAll(g, rs, |rs|));
  }
}
