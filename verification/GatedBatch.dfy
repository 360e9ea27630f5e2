/** The hash gate and repeated messages: what a batch of deliveries does, against the same
    deliveries handled one by one. */
module GatedBatch {
  import opened Common
  import opened Graph
  import opened Records
  import opened Projection
  import opened Transactions
  import opened BatchEquivalence

  // ---------------------------------------------------------------- the two consumers

  /** The stored hash says this version of the record is already written. */
  predicate Current(g: Graph, r: ReleaseRecord) {
    Release(r.id) in g.nodes && g.nodes[Release(r.id)].hash == Some(r.hash)
  }

  function ProcessRelease(g: Graph, r: ReleaseRecord): Graph {
    if Current(g, r) then g else WriteRelease(g, r)
  }

  function ProcessAll(g: Graph, ms: seq<ReleaseRecord>, k: nat): Graph
    requires k <= |ms|
  {
    if k == 0 then g else ProcessRelease(ProcessAll(g, ms, k - 1), ms[k - 1])
  }

  /** The batch reads every hash once, before any write. */
  function Todo(g: Graph, ms: seq<ReleaseRecord>, k: nat): seq<ReleaseRecord>
    requires k <= |ms|
  {
    if k == 0 then [] else Todo(g, ms, k - 1) + (if Current(g, ms[k - 1]) then [] else [ms[k - 1]])
  }

  function ProcessBatch(g: Graph, ms: seq<ReleaseRecord>): Graph {
    var todo := Todo(g, ms, |ms|);
    if todo == [] then g else WriteBatch(g, todo)
  }

  predicate Seen(ms: seq<ReleaseRecord>, k: nat, id: string)
    requires k <= |ms|
  {
    exists j :: 0 <= j < k && ms[j].id == id
  }

  /** The deliveries that the one-by-one consumer really writes: out of date and not repeated. */
  function Fresh(g: Graph, ms: seq<ReleaseRecord>, k: nat): seq<ReleaseRecord>
    requires k <= |ms|
  {
    if k == 0 then []
    else Fresh(g, ms, k - 1) + (if Current(g, ms[k - 1]) || Seen(ms, k - 1, ms[k - 1].id) then [] else [ms[k - 1]])
  }

  lemma {:induction false} TodoMembers(g: Graph, ms: seq<ReleaseRecord>, k: nat)
    requires k <= |ms|
    ensures forall r :: r in Todo(g, ms, k) <==> exists i :: 0 <= i < k && ms[i] == r && !Current(g, r)
  {
    if k > 0 { TodoMembers(g, ms, k - 1); }
  }

  lemma {:induction false} FreshMembers(g: Graph, ms: seq<ReleaseRecord>, k: nat)
    requires k <= |ms| && Consistent(ms)
    ensures forall r :: r in Fresh(g, ms, k) <==> exists i :: 0 <= i < k && ms[i] == r && !Current(g, r)
  {
    if k > 0 {
      FreshMembers(g, ms, k - 1);
      if Seen(ms, k - 1, ms[k - 1].id) { SeenIsRepeated(ms, k); }
    }
  }

  lemma SeenIsRepeated(ms: seq<ReleaseRecord>, k: nat)
    requires 0 < k <= |ms| && Consistent(ms) && Seen(ms, k - 1, ms[k - 1].id)
    ensures exists j :: 0 <= j < k - 1 && ms[j] == ms[k - 1]
  {
    var j :| 0 <= j < k - 1 && ms[j].id == ms[k - 1].id;
    assert ms[j] == ms[k - 1];
  }

  /** Records drawn from a consistent, well-named list form one. */
  lemma DrawnFrom(rs: seq<ReleaseRecord>, ms: seq<ReleaseRecord>)
    requires Consistent(ms) && Named(ms)
    requires forall r :: r in rs ==> r in ms
    ensures Consistent(rs) && Named(rs)
  {
    forall i, j | 0 <= i < |rs| && 0 <= j < |rs| && rs[i].id == rs[j].id ensures rs[i] == rs[j] {
      assert rs[i] in rs && rs[j] in rs;
    }
    forall i | 0 <= i < |rs| ensures NamedTaxonomy(rs[i]) {
      assert rs[i] in rs;
    }
  }

  // ---------------------------------------------------------------- the gate on a release node

  /** Only its own release describes a Release node, and it leaves its own hash there. */
  lemma ReleaseNodeX(r: ReleaseRecord, id: string, c: Option<Props>)
    ensures r.id != id ==> NodeX(r, Release(id), c) == c
    ensures r.id == id ==> NodeX(r, Release(id), c).Some? && NodeX(r, Release(id), c).value.hash == Some(r.hash)
  {
    var rows := ReleaseRows(r);
    assert NodeFold(rows, 1, Release(id), c) == NodeRow(rows[0], Release(id), NodeFold(rows, 0, Release(id), c));
  }

  lemma {:induction false} HashAfter(rs: seq<ReleaseRecord>, k: nat, m: ReleaseRecord, c: Option<Props>)
    requires k <= |rs| && forall i :: 0 <= i < k && rs[i].id == m.id ==> rs[i] == m
    ensures (forall i :: 0 <= i < k ==> rs[i].id != m.id) ==> NodeSeq(rs, k, Release(m.id), c) == c
    ensures (exists i :: 0 <= i < k && rs[i].id == m.id) ==>
      NodeSeq(rs, k, Release(m.id), c).Some? && NodeSeq(rs, k, Release(m.id), c).value.hash == Some(m.hash)
  {
    if k > 0 {
      HashAfter(rs, k - 1, m, c);
      ReleaseNodeX(rs[k - 1], m.id, NodeSeq(rs, k - 1, Release(m.id), c));
    }
  }

  lemma CurrentIsCell(g: Graph, r: ReleaseRecord)
    ensures Current(g, r) <==> At(g.nodes, Release(r.id)).Some? && At(g.nodes, Release(r.id)).value.hash == Some(r.hash)
  {
  }

  /** An id is among the fresh deliveries iff it was delivered before and was out of date. */
  lemma FreshIds(g: Graph, ms: seq<ReleaseRecord>, k: nat, m: ReleaseRecord, rs: seq<ReleaseRecord>)
    requires k <= |ms| && Consistent(ms) && m in ms && rs == Fresh(g, ms, k)
    ensures forall i :: 0 <= i < |rs| && rs[i].id == m.id ==> rs[i] == m
    ensures (exists i :: 0 <= i < |rs| && rs[i].id == m.id) <==> Seen(ms, k, m.id) && !Current(g, m)
  {
    FreshMembers(g, ms, k);
    forall i | 0 <= i < |rs| && rs[i].id == m.id ensures rs[i] == m && Seen(ms, k, m.id) && !Current(g, m) {
      var j :| 0 <= j < k && ms[j] == rs[i] && !Current(g, rs[i]);
    }
    if Seen(ms, k, m.id) && !Current(g, m) {
      var j :| 0 <= j < k && ms[j].id == m.id;
      assert ms[j] == m;
      assert m in rs;
    }
  }

  lemma GateCell(g: Graph, ms: seq<ReleaseRecord>, k: nat, m: ReleaseRecord, c: Option<Props>)
    requires k <= |ms| && Consistent(ms) && m in ms && c == At(g.nodes, Release(m.id))
    ensures var rs := Fresh(g, ms, k);
      var c' := NodeSeq(rs, |rs|, Release(m.id), c);
      (c'.Some? && c'.value.hash == Some(m.hash)) <==> Current(g, m) || Seen(ms, k, m.id)
  {
    var rs := Fresh(g, ms, k);
    FreshIds(g, ms, k, m, rs);
    HashAfter(rs, |rs|, m, c);
  }

  /** After the earlier deliveries the gate skips a message iff it was current or is repeated. */
  lemma GateAfterFresh(g: Graph, ms: seq<ReleaseRecord>, k: nat, m: ReleaseRecord, after: Graph)
    requires k <= |ms| && Consistent(ms) && Named(ms) && m in ms
    requires after == WriteAll(g, Fresh(g, ms, k), |Fresh(g, ms, k)|)
    ensures Current(after, m) <==> Current(g, m) || Seen(ms, k, m.id)
  {
    var rs := Fresh(g, ms, k);
    FreshMembers(g, ms, k);
    DrawnFrom(rs, ms);
    WriteAllNode(g, rs, |rs|, Release(m.id));
    GateCell(g, ms, k, m, At(g.nodes, Release(m.id)));
    CurrentIsCell(after, m);
  }

  lemma WriteAllSnoc(g: Graph, rs: seq<ReleaseRecord>, m: ReleaseRecord)
    ensures WriteAll(g, rs + [m], |rs + [m]|) == WriteRelease(WriteAll(g, rs, |rs|), m)
  {
    FoldOneMore(WriteStep(), rs, m, g);
  }

  /** Handling the deliveries one by one writes exactly the fresh ones, in order. */
  lemma {:induction false} ProcessAllWritesFresh(g: Graph, ms: seq<ReleaseRecord>, k: nat)
    requires k <= |ms| && Consistent(ms) && Named(ms)
    ensures ProcessAll(g, ms, k) == WriteAll(g, Fresh(g, ms, k), |Fresh(g, ms, k)|)
  {
    if k > 0 {
      var m, rs := ms[k - 1], Fresh(g, ms, k - 1);
      var before := ProcessAll(g, ms, k - 1);
      ProcessAllWritesFresh(g, ms, k - 1);
      GateAfterFresh(g, ms, k - 1, m, before);
      FreshStep(g, ms, k, before);
    }
  }

  lemma FreshStep(g: Graph, ms: seq<ReleaseRecord>, k: nat, before: Graph)
    requires 0 < k <= |ms|
    requires before == WriteAll(g, Fresh(g, ms, k - 1), |Fresh(g, ms, k - 1)|)
    requires Current(before, ms[k - 1]) <==> Current(g, ms[k - 1]) || Seen(ms, k - 1, ms[k - 1].id)
    ensures ProcessRelease(before, ms[k - 1]) == WriteAll(g, Fresh(g, ms, k), |Fresh(g, ms, k)|)
  {
    var m, rs := ms[k - 1], Fresh(g, ms, k - 1);
    if Current(before, m) {
      assert Fresh(g, ms, k) == rs;
    } else {
      WriteAllSnoc(g, rs, m);
    }
  }

  // ---------------------------------------------------------------- repeated releases

  lemma EdgeXAlone(r: ReleaseRecord, e: Edge, c: Option<EdgeCell>)
    requires !Owns(EdgePart(e), r.id, e) && !Mentions(RowsOf(EdgePart(e), r, true), e)
    ensures EdgeX(r, e, c) == c
  {
    EdgesAfterUnmentioned(RowsOf(EdgePart(e), r, true), e, c);
  }

  lemma EdgeXTwice(r: ReleaseRecord, e: Edge, c: Option<EdgeCell>)
    ensures EdgeX(r, e, EdgeX(r, e, c)) == EdgeX(r, e, c)
  {
    var p := EdgePart(e);
    if Stale(p, r, e) {
      OwnedMentionedIff(p, r, true, e);
    } else {
      RepeatedEdge(RowsOf(p, r, true), e, c);
    }
  }

  /** An edge nobody owns carries no property: merging it again finds it there. */
  lemma UnownedEdge(r: ReleaseRecord, e: Edge, c: Option<EdgeCell>)
    requires !Owns(EdgePart(e), r.id, e) && c.Some?
    ensures EdgeX(r, e, c) == c
  {
    var rows := RowsOf(EdgePart(e), r, true);
    RowsFit(EdgePart(e), r, true);
    NoPropSet(rows, |rows|, EdgePart(e), r.id, e);
    EdgeFoldClosed(rows, |rows|, e, c);
  }

  lemma {:induction false} NoPropSet(rows: seq<Row>, k: nat, p: Part, r: string, e: Edge)
    requires k <= |rows| && AllFit(p, r, rows) && !Owns(p, r, e)
    ensures LastProp(rows, k, e).None?
  {
    if k > 0 {
      assert rows[k - 1] in rows;
      NoPropSet(rows, k - 1, p, r, e);
    }
  }

  /** A release already settled on an edge stays settled when another release is written. */
  lemma EdgeStaysSettled(r: ReleaseRecord, other: ReleaseRecord, e: Edge, c: Option<EdgeCell>)
    requires r.id != other.id && EdgeX(r, e, c) == c
    ensures EdgeX(r, e, EdgeX(other, e, c)) == EdgeX(other, e, c)
  {
    var p := EdgePart(e);
    if Owns(p, r.id, e) {
      if Mentions(RowsOf(p, other, true), e) { MentionedMeansOwner(p, other, true, r.id, e); }
      assert !Owns(p, other.id, e);
      EdgeXAlone(other, e, c);
    } else if Mentions(RowsOf(p, r, true), e) {
      MergedEdge(RowsOf(p, r, true), |RowsOf(p, r, true)|, e, c);
      if Owns(p, other.id, e) { MentionedMeansOwner(p, r, true, other.id, e); }
      UnownedEdge(other, e, c);
    } else {
      EdgeXAlone(r, e, EdgeX(other, e, c));
    }
  }

  lemma {:induction false} EdgeSettled(rs: seq<ReleaseRecord>, k: nat, j: nat, e: Edge, c: Option<EdgeCell>)
    requires Consistent(rs) && j < k <= |rs|
    ensures EdgeX(rs[j], e, EdgeSeq(rs, k, e, c)) == EdgeSeq(rs, k, e, c)
  {
    var before := EdgeSeq(rs, k - 1, e, c);
    if rs[k - 1].id == rs[j].id {
      assert rs[k - 1] == rs[j];
      EdgeXTwice(rs[j], e, before);
    } else {
      EdgeSettled(rs, k - 1, j, e, c);
      EdgeStaysSettled(rs[j], rs[k - 1], e, before);
    }
  }

  /** Nodes whose name or family the last writer decides. */
  predicate Renamed(n: Node) {
    n.Company? || n.Medium?
  }

  lemma FillShape(r: ReleaseRecord, n: Node)
    requires !Renamed(n) && !n.Release?
    ensures OnlyFills(RowsOf(NodePart(n), r, true), n)
  {
    var rows := RowsOf(NodePart(n), r, true);
    RowsFit(NodePart(n), r, true);
    forall i | 0 <= i < |rows| && rows[i].node == Some(n) ensures rows[i].update.Fill? || rows[i].update.Touch? {
      assert rows[i] in rows;
    }
  }

  lemma NodeXTwice(r: ReleaseRecord, n: Node, c: Option<Props>)
    requires !Renamed(n)
    ensures NodeX(r, n, NodeX(r, n, c)) == NodeX(r, n, c)
  {
    var rows := RowsOf(NodePart(n), r, true);
    if n.Release? {
      DescribeOnce(r, n, c);
      DescribeOnce(r, n, NodeX(r, n, c));
    } else {
      FillShape(r, n);
      FilledNode(rows, |rows|, n, c);
      FilledNode(rows, |rows|, n, NodeX(r, n, c));
    }
  }

  lemma DescribeOnce(r: ReleaseRecord, n: Node, c: Option<Props>)
    requires n.Release?
    ensures NodeX(r, n, c) == if n.id == r.id then Some(Updated(OrBlank(c), Describe(r.hash, r.year, r.country, r.families))) else c
  {
    var rows := ReleaseRows(r);
    assert NodeFold(rows, 1, n, c) == NodeRow(rows[0], n, NodeFold(rows, 0, n, c));
  }

  lemma NodeStaysSettled(r: ReleaseRecord, other: ReleaseRecord, n: Node, c: Option<Props>)
    requires !Renamed(n) && r.id != other.id && NodeX(r, n, c) == c
    ensures NodeX(r, n, NodeX(other, n, c)) == NodeX(other, n, c)
  {
    if n.Release? {
      DescribeOnce(r, n, c);
      DescribeOnce(other, n, c);
      DescribeOnce(r, n, NodeX(other, n, c));
    } else {
      var a, b := RowsOf(NodePart(n), r, true), RowsOf(NodePart(n), other, true);
      FillShape(r, n);
      FillShape(other, n);
      FilledNode(a, |a|, n, c);
      FilledNode(b, |b|, n, c);
      FilledNode(a, |a|, n, NodeX(other, n, c));
    }
  }

  lemma {:induction false} NodeSettled(rs: seq<ReleaseRecord>, k: nat, j: nat, n: Node, c: Option<Props>)
    requires Consistent(rs) && j < k <= |rs| && !Renamed(n)
    ensures NodeX(rs[j], n, NodeSeq(rs, k, n, c)) == NodeSeq(rs, k, n, c)
  {
    var before := NodeSeq(rs, k - 1, n, c);
    if rs[k - 1].id == rs[j].id {
      assert rs[k - 1] == rs[j];
      NodeXTwice(rs[j], n, before);
    } else {
      NodeSettled(rs, k - 1, j, n, c);
      NodeStaysSettled(rs[j], rs[k - 1], n, before);
    }
  }

  // ---------------------------------------------------------------- batch against one by one

  /** One more delivery: a repeat finds everything settled, a new one is written by both. */
  lemma EdgeTakesOneMore(todo: seq<ReleaseRecord>, rs: seq<ReleaseRecord>, m: ReleaseRecord, seen: bool, e: Edge, c: Option<EdgeCell>)
    requires EdgeSeq(todo, |todo|, e, c) == EdgeSeq(rs, |rs|, e, c)
    requires seen ==> m in todo && Consistent(todo)
    ensures var rs' := if seen then rs else rs + [m];
      EdgeSeq(todo + [m], |todo + [m]|, e, c) == EdgeSeq(rs', |rs'|, e, c)
  {
    SeqSnoc(todo, m, e, c, Release(""), None);
    if seen {
      var j :| 0 <= j < |todo| && todo[j] == m;
      EdgeSettled(todo, |todo|, j, e, c);
    } else {
      SeqSnoc(rs, m, e, c, Release(""), None);
    }
  }

  lemma NodeTakesOneMore(todo: seq<ReleaseRecord>, rs: seq<ReleaseRecord>, m: ReleaseRecord, seen: bool, n: Node, p: Option<Props>)
    requires NodeSeq(todo, |todo|, n, p) == NodeSeq(rs, |rs|, n, p) && !Renamed(n)
    requires seen ==> m in todo && Consistent(todo)
    ensures var rs' := if seen then rs else rs + [m];
      NodeSeq(todo + [m], |todo + [m]|, n, p) == NodeSeq(rs', |rs'|, n, p)
  {
    SeqSnoc(todo, m, By("", ""), None, n, p);
    if seen {
      var j :| 0 <= j < |todo| && todo[j] == m;
      NodeSettled(todo, |todo|, j, n, p);
    } else {
      SeqSnoc(rs, m, By("", ""), None, n, p);
    }
  }

  /** How the two lists grow with one more message. */
  lemma ListsGrow(g: Graph, ms: seq<ReleaseRecord>, k: nat)
    requires 0 < k <= |ms| && Consistent(ms) && Named(ms)
    ensures Current(g, ms[k - 1]) ==> Todo(g, ms, k) == Todo(g, ms, k - 1) && Fresh(g, ms, k) == Fresh(g, ms, k - 1)
    ensures !Current(g, ms[k - 1]) ==> Todo(g, ms, k) == Todo(g, ms, k - 1) + [ms[k - 1]]
    ensures !Current(g, ms[k - 1]) ==>
      Fresh(g, ms, k) == if Seen(ms, k - 1, ms[k - 1].id) then Fresh(g, ms, k - 1) else Fresh(g, ms, k - 1) + [ms[k - 1]]
    ensures !Current(g, ms[k - 1]) && Seen(ms, k - 1, ms[k - 1].id) ==> ms[k - 1] in Todo(g, ms, k - 1)
    ensures Consistent(Todo(g, ms, k - 1))
  {
    DrawnFromTodo(g, ms, k - 1);
    var m := ms[k - 1];
    if !Current(g, m) && Seen(ms, k - 1, m.id) { RepeatIsInTodo(g, ms, k - 1, m); }
  }

  lemma {:induction false} TodoEdge(g: Graph, ms: seq<ReleaseRecord>, k: nat, e: Edge, c: Option<EdgeCell>, todo: seq<ReleaseRecord>, rs: seq<ReleaseRecord>)
    requires k <= |ms| && Consistent(ms) && Named(ms) && todo == Todo(g, ms, k) && rs == Fresh(g, ms, k)
    ensures EdgeSeq(todo, |todo|, e, c) == EdgeSeq(rs, |rs|, e, c)
  {
    if k > 0 {
      var before, was := Todo(g, ms, k - 1), Fresh(g, ms, k - 1);
      TodoEdge(g, ms, k - 1, e, c, before, was);
      ListsGrow(g, ms, k);
      if !Current(g, ms[k - 1]) {
        EdgeTakesOneMore(before, was, ms[k - 1], Seen(ms, k - 1, ms[k - 1].id), e, c);
      }
    }
  }

  lemma {:induction false} TodoNode(g: Graph, ms: seq<ReleaseRecord>, k: nat, n: Node, p: Option<Props>, todo: seq<ReleaseRecord>, rs: seq<ReleaseRecord>)
    requires k <= |ms| && Consistent(ms) && Named(ms) && !Renamed(n) && todo == Todo(g, ms, k) && rs == Fresh(g, ms, k)
    ensures NodeSeq(todo, |todo|, n, p) == NodeSeq(rs, |rs|, n, p)
  {
    if k > 0 {
      var before, was := Todo(g, ms, k - 1), Fresh(g, ms, k - 1);
      TodoNode(g, ms, k - 1, n, p, before, was);
      ListsGrow(g, ms, k);
      if !Current(g, ms[k - 1]) {
        NodeTakesOneMore(before, was, ms[k - 1], Seen(ms, k - 1, ms[k - 1].id), n, p);
      }
    }
  }

  lemma SeqSnoc(rs: seq<ReleaseRecord>, m: ReleaseRecord, e: Edge, c: Option<EdgeCell>, n: Node, p: Option<Props>)
    ensures EdgeSeq(rs + [m], |rs + [m]|, e, c) == EdgeX(m, e, EdgeSeq(rs, |rs|, e, c))
    ensures NodeSeq(rs + [m], |rs + [m]|, n, p) == NodeX(m, n, NodeSeq(rs, |rs|, n, p))
  {
    FoldOneMore(EdgeStep(e), rs, m, c);
    FoldOneMore(NodeStep(n), rs, m, p);
  }

  lemma RepeatIsInTodo(g: Graph, ms: seq<ReleaseRecord>, k: nat, m: ReleaseRecord)
    requires k <= |ms| && Consistent(ms) && m in ms && Seen(ms, k, m.id) && !Current(g, m)
    ensures m in Todo(g, ms, k)
  {
    TodoMembers(g, ms, k);
    var j :| 0 <= j < k && ms[j].id == m.id;
    assert ms[j] == m;
  }

  lemma DrawnFromTodo(g: Graph, ms: seq<ReleaseRecord>, k: nat)
    requires k <= |ms| && Consistent(ms) && Named(ms)
    ensures Consistent(Todo(g, ms, k)) && Named(Todo(g, ms, k))
  {
    TodoMembers(g, ms, k);
    DrawnFrom(Todo(g, ms, k), ms);
  }

  /** The name and family the deliveries leave on a company or medium. */
  function LastNaming(rs: seq<ReleaseRecord>, n: Node): Option<Update> {
    var rows := AllRows(NodePart(n), rs, true);
    LastUpdate(rows, |rows|, n)
  }

  /** Repeats do not change who names a company or medium last. */
  ghost predicate NamingsAgree(g: Graph, ms: seq<ReleaseRecord>) {
    forall n :: Renamed(n) ==> LastNaming(Todo(g, ms, |ms|), n) == LastNaming(Fresh(g, ms, |ms|), n)
  }

  // ---------------------------------------------------------------- the exact condition

  lemma RenameShape(rs: seq<ReleaseRecord>, n: Node)
    requires Renamed(n)
    ensures var rows := AllRows(NodePart(n), rs, true);
      OnlyOverwrites(rows, n) && forall i :: 0 <= i < |rows| && rows[i].node == Some(n) ==> rows[i].update.Rename?
  {
    var rows := AllRows(NodePart(n), rs, true);
    forall i | 0 <= i < |rows| && n in Nodes(rows[i]) ensures rows[i].node == Some(n) && rows[i].update.Rename? {
      var j := AllRowsFit(NodePart(n), rs, true, rows[i]);
    }
  }

  /** A company or medium ends as its last naming says, or as it was. */
  lemma RenamedNode(rs: seq<ReleaseRecord>, n: Node, p: Option<Props>)
    requires Renamed(n)
    ensures NodeSeq(rs, |rs|, n, p) == if LastNaming(rs, n).None? then p else Some(Updated(OrBlank(p), LastNaming(rs, n).value))
    ensures LastNaming(rs, n).Some? ==> LastNaming(rs, n).value.Rename?
  {
    var rows := AllRows(NodePart(n), rs, true);
    RenameShape(rs, n);
    OverwrittenNode(rows, |rows|, n, p);
    GatheredNodes(rs, |rs|, n, p);
  }

  lemma NamingsDecide(a: Option<Update>, b: Option<Update>, p: Option<Props>)
    requires (a.Some? ==> a.value.Rename?) && (b.Some? ==> b.value.Rename?) && (a.None? <==> b.None?)
    ensures (if a.None? then p else Some(Updated(OrBlank(p), a.value))) == (if b.None? then p else Some(Updated(OrBlank(p), b.value)))
       <==> a == b
  {
  }

  /** Both lists name the same companies and media, if not always with the same last word. */
  lemma SameNamed(g: Graph, ms: seq<ReleaseRecord>, n: Node)
    requires Consistent(ms) && Renamed(n)
    ensures LastNaming(Todo(g, ms, |ms|), n).None? <==> LastNaming(Fresh(g, ms, |ms|), n).None?
  {
    TodoMembers(g, ms, |ms|);
    FreshMembers(g, ms, |ms|);
    if LastNaming(Todo(g, ms, |ms|), n).Some? { NamingCarriesOver(Todo(g, ms, |ms|), Fresh(g, ms, |ms|), n); }
    if LastNaming(Fresh(g, ms, |ms|), n).Some? { NamingCarriesOver(Fresh(g, ms, |ms|), Todo(g, ms, |ms|), n); }
  }

  lemma NamingCarriesOver(a: seq<ReleaseRecord>, b: seq<ReleaseRecord>, n: Node)
    requires Renamed(n) && LastNaming(a, n).Some? && forall r :: r in a ==> r in b
    ensures LastNaming(b, n).Some?
  {
    var rows := AllRows(NodePart(n), a, true);
    RenameShape(a, n);
    OverwrittenNode(rows, |rows|, n, None);
    var k :| 0 <= k < |rows| && rows[k].node == Some(n);
    var i := AllRowsFit(NodePart(n), a, true, rows[k]);
    assert a[i] in a;
    var j :| 0 <= j < |b| && b[j] == a[i];
    RowIsGathered(NodePart(n), b, true, j, rows[k]);
    var all := AllRows(NodePart(n), b, true);
    var m :| 0 <= m < |all| && all[m] == rows[k];
    LastUpdateFound(all, |all|, m, n);
  }

  lemma {:induction false} LastUpdateFound(rows: seq<Row>, k: nat, m: nat, n: Node)
    requires m < k <= |rows| && rows[m].node == Some(n)
    ensures LastUpdate(rows, k, n).Some?
  {
    if rows[k - 1].node != Some(n) { LastUpdateFound(rows, k - 1, m, n); }
  }

  /** Both consumers as sequences of ungated writes. */
  lemma BatchWritesTodo(g: Graph, ms: seq<ReleaseRecord>)
    requires Consistent(ms) && Named(ms)
    ensures ProcessBatch(g, ms) == WriteAll(g, Todo(g, ms, |ms|), |Todo(g, ms, |ms|)|)
  {
    DrawnFromTodo(g, ms, |ms|);
    BatchIsSequence(g, Todo(g, ms, |ms|));
  }

  /** For every graph and every batch whose equal ids carry equal records with named taxonomy:
      the batch leaves the same relationships and the same nodes as handling the messages one
      by one, except that a repeat may re-assert an older name of a company or family of a
      medium; the graphs are equal exactly when that changes no last naming. */
  lemma BatchEqualsOneByOneIff(g: Graph, ms: seq<ReleaseRecord>)
    requires Consistent(ms) && Named(ms)
    ensures ProcessBatch(g, ms).edges == ProcessAll(g, ms, |ms|).edges
    ensures forall n :: !Renamed(n) ==> At(ProcessBatch(g, ms).nodes, n) == At(ProcessAll(g, ms, |ms|).nodes, n)
    ensures ProcessBatch(g, ms) == ProcessAll(g, ms, |ms|) <==> NamingsAgree(g, ms)
  {
    var a, b := ProcessBatch(g, ms), ProcessAll(g, ms, |ms|);
    forall e ensures At(a.edges, e) == At(b.edges, e) { BatchEdgeAgrees(g, ms, e); }
    forall n | !Renamed(n) ensures At(a.nodes, n) == At(b.nodes, n) { BatchNodeAgrees(g, ms, n); }
    forall n | Renamed(n)
      ensures At(a.nodes, n) == At(b.nodes, n) <==> LastNaming(Todo(g, ms, |ms|), n) == LastNaming(Fresh(g, ms, |ms|), n)
    {
      BatchNameAgreesIff(g, ms, n);
    }
    GraphExtensional(a.(nodes := map[]), b.(nodes := map[]));
    if NamingsAgree(g, ms) { GraphExtensional(a, b); }
  }

  lemma BatchEdgeAgrees(g: Graph, ms: seq<ReleaseRecord>, e: Edge)
    requires Consistent(ms) && Named(ms)
    ensures At(ProcessBatch(g, ms).edges, e) == At(ProcessAll(g, ms, |ms|).edges, e)
  {
    var todo, rs := Todo(g, ms, |ms|), Fresh(g, ms, |ms|);
    BatchWritesTodo(g, ms);
    ProcessAllWritesFresh(g, ms, |ms|);
    DrawnFromTodo(g, ms, |ms|);
    FreshMembers(g, ms, |ms|);
    DrawnFrom(rs, ms);
    WriteAllEdge(g, todo, |todo|, e);
    WriteAllEdge(g, rs, |rs|, e);
    TodoEdge(g, ms, |ms|, e, At(g.edges, e), Todo(g, ms, |ms|), Fresh(g, ms, |ms|));
  }

  lemma BatchNodeCells(g: Graph, ms: seq<ReleaseRecord>, n: Node)
    requires Consistent(ms) && Named(ms)
    ensures At(ProcessBatch(g, ms).nodes, n) == NodeSeq(Todo(g, ms, |ms|), |Todo(g, ms, |ms|)|, n, At(g.nodes, n))
    ensures At(ProcessAll(g, ms, |ms|).nodes, n) == NodeSeq(Fresh(g, ms, |ms|), |Fresh(g, ms, |ms|)|, n, At(g.nodes, n))
  {
    var todo, rs := Todo(g, ms, |ms|), Fresh(g, ms, |ms|);
    BatchWritesTodo(g, ms);
    ProcessAllWritesFresh(g, ms, |ms|);
    DrawnFromTodo(g, ms, |ms|);
    FreshMembers(g, ms, |ms|);
    DrawnFrom(rs, ms);
    WriteAllNode(g, todo, |todo|, n);
    WriteAllNode(g, rs, |rs|, n);
  }

  lemma BatchNodeAgrees(g: Graph, ms: seq<ReleaseRecord>, n: Node)
    requires Consistent(ms) && Named(ms) && !Renamed(n)
    ensures At(ProcessBatch(g, ms).nodes, n) == At(ProcessAll(g, ms, |ms|).nodes, n)
  {
    BatchNodeCells(g, ms, n);
    TodoNode(g, ms, |ms|, n, At(g.nodes, n), Todo(g, ms, |ms|), Fresh(g, ms, |ms|));
  }

  lemma BatchNameAgreesIff(g: Graph, ms: seq<ReleaseRecord>, n: Node)
    requires Consistent(ms) && Named(ms) && Renamed(n)
    ensures At(ProcessBatch(g, ms).nodes, n) == At(ProcessAll(g, ms, |ms|).nodes, n)
       <==> LastNaming(Todo(g, ms, |ms|), n) == LastNaming(Fresh(g, ms, |ms|), n)
  {
    var p := At(g.nodes, n);
    BatchNodeCells(g, ms, n);
    RenamedNode(Todo(g, ms, |ms|), n, p);
    RenamedNode(Fresh(g, ms, |ms|), n, p);
    SameNamed(g, ms, n);
    NamingsDecide(LastNaming(Todo(g, ms, |ms|), n), LastNaming(Fresh(g, ms, |ms|), n), p);
  }

  // ---------------------------------------------------------------- where the paths part

  /** A release crediting one company under the given name. */
  function Crediting(id: string, name: string): ReleaseRecord {
    ReleaseRecord(id, id, None, None, [], [], [], None, [], [], [], Some([CompanyRow("c", name, "role", "other")]), [])
  }

  lemma OneCompanyRow(id: string, name: string)
    ensures RowsOf(Companies, Crediting(id, name), true) == [CompanyCredit(id)(CompanyRow("c", name, "role", "other"))[0]]
  {
    var rows := [CompanyRow("c", name, "role", "other")];
    var f := CompanyCredit(id);
    assert Collect(rows, f, 1) == Collect(rows, f, 0) + f(rows[0]);
  }

  lemma NamingOfLast(rs: seq<ReleaseRecord>, id: string, name: string)
    requires |rs| > 0 && rs[|rs| - 1] == Crediting(id, name)
    ensures LastNaming(rs, Company("c")) == Some(Rename(Some(name), None))
  {
    var f := PartRows(Companies, true);
    OneCompanyRow(id, name);
    assert Collect(rs, f, |rs|) == Collect(rs, f, |rs| - 1) + f(rs[|rs| - 1]);
  }

  /** A repeat is enough to part the paths: delivered a, b and a again, the batch leaves the
      company the name a gives it, while one by one it keeps the name b gave it. */
  lemma RepeatCanRevertAName(a: string, b: string)
    requires a != b
    ensures var ms := [Crediting("1", a), Crediting("2", b), Crediting("1", a)];
      Consistent(ms) && Named(ms) && ProcessBatch(EMPTY_GRAPH, ms) != ProcessAll(EMPTY_GRAPH, ms, 3)
  {
    var r1, r2 := Crediting("1", a), Crediting("2", b);
    var ms := [r1, r2, r1];
    var g := EMPTY_GRAPH;
    assert Todo(g, ms, 1) == Todo(g, ms, 0) + [r1] && Todo(g, ms, 2) == Todo(g, ms, 1) + [r2] && Todo(g, ms, 3) == Todo(g, ms, 2) + [r1];
    assert !Seen(ms, 0, "1") && !Seen(ms, 1, "2");
    assert ms[0].id == "1" && Seen(ms, 2, "1");
    assert Fresh(g, ms, 1) == Fresh(g, ms, 0) + [r1] && Fresh(g, ms, 2) == Fresh(g, ms, 1) + [r2] && Fresh(g, ms, 3) == Fresh(g, ms, 2) + [];
    NamingOfLast(Todo(g, ms, 3), "1", a);
    NamingOfLast(Fresh(g, ms, 3), "2", b);
    assert Renamed(Company("c"));
    BatchEqualsOneByOneIff(g, ms);
  }

  /** An empty genre or style name survives the single-record path and not the batched one. */
  lemma EmptyNameParts(g: Graph, r: ReleaseRecord, e: Edge)
    requires ("" in r.genres && e == IsGenre(r.id, "")) || ("" in r.styles && e == IsStyle(r.id, ""))
    ensures At(WriteRelease(g, r).edges, e).Some? && At(WriteBatch(g, [r]).edges, e).None?
  {
    EmptyNameWritten(g, r, e);
    EmptyNameDropped(g, r, e);
  }

  lemma EmptyNameWritten(g: Graph, r: ReleaseRecord, e: Edge)
    requires ("" in r.genres && e == IsGenre(r.id, "")) || ("" in r.styles && e == IsStyle(r.id, ""))
    ensures At(WriteRelease(g, r).edges, e).Some?
  {
    var p := EdgePart(e);
    WriteReleaseCells(g, r);
    OneReleaseRows(p, r, false);
    EmptyNameIsMentioned(r, e);
    MergedEdge(RowsOf(p, r, false), |RowsOf(p, r, false)|, e, AfterCut([r], e, At(g.edges, e)));
  }

  lemma EmptyNameDropped(g: Graph, r: ReleaseRecord, e: Edge)
    requires e == IsGenre(r.id, "") || e == IsStyle(r.id, "")
    ensures At(WriteBatch(g, [r]).edges, e).None?
  {
    var p := EdgePart(e);
    WriteBatchCells(g, [r]);
    assert Stale(p, [r][0], e);
    OneReleaseRows(p, r, true);
    OwnedMentionedIff(p, r, true, e);
    EdgesAfterUnmentioned(RowsOf(p, r, true), e, None);
  }

  lemma EmptyNameIsMentioned(r: ReleaseRecord, e: Edge)
    requires ("" in r.genres && e == IsGenre(r.id, "")) || ("" in r.styles && e == IsStyle(r.id, ""))
    ensures Mentions(RowsOf(EdgePart(e), r, false), e)
  {
    var row := Joined(r.id, e.dst, Touch, e, None);
    if e.dst.Genre? {
      CollectMembers(r.genres, GenreRow(r.id, false), |r.genres|);
      var i :| 0 <= i < |r.genres| && r.genres[i] == "";
      assert row in GenreRow(r.id, false)(r.genres[i]);
    } else {
      CollectMembers(r.styles, StyleRow(r.id, false), |r.styles|);
      var i :| 0 <= i < |r.styles| && r.styles[i] == "";
      assert row in StyleRow(r.id, false)(r.styles[i]);
    }
    assert e in Edges(row);
    OffersIsMentions(RowsOf(EdgePart(e), r, false), e);
  }

  /** For every graph and record, the two paths write the same graph exactly when every genre
      and style has a name. */
  lemma PathsAgreeIffNamed(g: Graph, r: ReleaseRecord)
    ensures WriteBatch(g, [r]) == WriteRelease(g, r) <==> NamedTaxonomy(r)
  {
    if NamedTaxonomy(r) {
      BatchIsSequence(g, [r]);
      assert WriteAll(g, [r], 1) == WriteRelease(WriteAll(g, [r], 0), [r][0]);
    } else {
      EmptyNameParts(g, r, if "" in r.genres then IsGenre(r.id, "") else IsStyle(r.id, ""));
    }
  }

  /** Every version in a batch survives: a release's edge is there afterwards iff some record of
      the batch asserts it, or it was there and no record of the batch drops it. So two different
      versions of one release leave the union of their edges, and equal ids must carry equal
      records. */
  lemma BatchKeepsEveryVersion(g: Graph, rs: seq<ReleaseRecord>, p: Part, id: string, e: Edge)
    requires Named(rs) && Owns(p, id, e)
    ensures e in WriteBatch(g, rs).edges <==>
      (exists i :: 0 <= i < |rs| && Asserts(p, rs[i], e)) || (e in g.edges && !SomeStale(p, rs, e))
  {
    OwnedPart(p, id, e);
    WriteBatchCells(g, rs);
    var rows := AllRows(p, rs, true);
    MergedEdge(rows, |rows|, e, AfterCut(rs, e, At(g.edges, e)));
    assert At(WriteBatch(g, rs).edges, e) == EdgeOutcome(rs, true, e, At(g.edges, e));
    GatheredIsAsserted(rs, p, id, e);
  }

  lemma GatheredIsAsserted(rs: seq<ReleaseRecord>, p: Part, id: string, e: Edge)
    requires Named(rs) && Owns(p, id, e)
    ensures Mentions(AllRows(p, rs, true), e) <==> exists i :: 0 <= i < |rs| && Asserts(p, rs[i], e)
  {
    var rows := AllRows(p, rs, true);
    if Mentions(rows, e) {
      var k :| 0 <= k < |rows| && e in Edges(rows[k]);
      assert rows[k] in rows;
      var i := AllRowsFit(p, rs, true, rows[k]);
      MentionedHere(p, rs[i], rows[k], e);
      MentionedMeansOwner(p, rs[i], true, id, e);
      OwnedMentionedIff(p, rs[i], true, e);
    }
    if i :| 0 <= i < |rs| && Asserts(p, rs[i], e) {
      OwnedMentionedIff(p, rs[i], true, e);
      var own := RowsOf(p, rs[i], true);
      var k :| 0 <= k < |own| && e in Edges(own[k]);
      assert own[k] in own;
      RowIsGathered(p, rs, true, i, own[k]);
      var m :| 0 <= m < |rows| && rows[m] == own[k];
      assert e in Edges(rows[m]);
    }
  }

  lemma MentionedHere(p: Part, r: ReleaseRecord, row: Row, e: Edge)
    requires row in RowsOf(p, r, true) && e in Edges(row)
    ensures Mentions(RowsOf(p, r, true), e)
  {
    var rows := RowsOf(p, r, true);
    var k :| 0 <= k < |rows| && rows[k] == row;
    assert e in Edges(rows[k]);
  }

  // ---------------------------------------------------------------- a condition on ids alone

  /** No id that has something to write occurs twice in the batch. */
  predicate NoStaleRepeat(g: Graph, ms: seq<ReleaseRecord>) {
    forall i, j :: 0 <= i < |ms| && 0 <= j < |ms| && i != j && ms[i].id == ms[j].id ==> Current(g, ms[i])
  }

  lemma EarlierIdsDiffer(g: Graph, ms: seq<ReleaseRecord>, k: nat, rs: seq<ReleaseRecord>)
    requires 0 < k <= |ms| && NoStaleRepeat(g, ms) && rs == Todo(g, ms, k - 1)
    ensures forall i :: 0 <= i < |rs| ==> rs[i].id != ms[k - 1].id
    ensures forall i :: 0 <= i < |rs| ==> rs[i] in ms
  {
    TodoMembers(g, ms, k - 1);
    forall i | 0 <= i < |rs| ensures rs[i].id != ms[k - 1].id && rs[i] in ms {
      assert rs[i] in rs;
      var j :| 0 <= j < k - 1 && ms[j] == rs[i] && !Current(g, rs[i]);
    }
  }

  /** Earlier messages leave the gate of the next one as it was. */
  lemma GateUnmoved(g: Graph, rs: seq<ReleaseRecord>, m: ReleaseRecord, after: Graph)
    requires Named(rs) && after == WriteAll(g, rs, |rs|) && forall i :: 0 <= i < |rs| ==> rs[i].id != m.id
    ensures Current(after, m) <==> Current(g, m)
  {
    WriteAllNode(g, rs, |rs|, Release(m.id));
    HashAfter(rs, |rs|, m, At(g.nodes, Release(m.id)));
    CurrentIsCell(after, m);
    CurrentIsCell(g, m);
  }

  lemma TodoStep(g: Graph, ms: seq<ReleaseRecord>, k: nat, before: Graph)
    requires 0 < k <= |ms| && (Current(before, ms[k - 1]) <==> Current(g, ms[k - 1]))
    requires before == WriteAll(g, Todo(g, ms, k - 1), |Todo(g, ms, k - 1)|)
    ensures ProcessRelease(before, ms[k - 1]) == WriteAll(g, Todo(g, ms, k), |Todo(g, ms, k)|)
  {
    if Current(g, ms[k - 1]) {
      assert Todo(g, ms, k) == Todo(g, ms, k - 1);
    } else {
      WriteAllSnoc(g, Todo(g, ms, k - 1), ms[k - 1]);
    }
  }

  lemma {:induction false} OneByOneWritesTodo(g: Graph, ms: seq<ReleaseRecord>, k: nat)
    requires k <= |ms| && NoStaleRepeat(g, ms) && Named(ms)
    ensures ProcessAll(g, ms, k) == WriteAll(g, Todo(g, ms, k), |Todo(g, ms, k)|)
  {
    if k > 0 {
      OneByOneWritesTodo(g, ms, k - 1);
      GateStep(g, ms, k, Todo(g, ms, k - 1), ProcessAll(g, ms, k - 1));
      TodoStep(g, ms, k, ProcessAll(g, ms, k - 1));
    }
  }

  lemma GateStep(g: Graph, ms: seq<ReleaseRecord>, k: nat, rs: seq<ReleaseRecord>, before: Graph)
    requires 0 < k <= |ms| && NoStaleRepeat(g, ms) && Named(ms) && rs == Todo(g, ms, k - 1) && before == WriteAll(g, rs, |rs|)
    ensures Current(before, ms[k - 1]) <==> Current(g, ms[k - 1])
  {
    EarlierIdsDiffer(g, ms, k, rs);
    TodoIsNamed(g, ms, k - 1);
    GateUnmoved(g, rs, ms[k - 1], before);
  }

  lemma TodoIsNamed(g: Graph, ms: seq<ReleaseRecord>, k: nat)
    requires k <= |ms| && Named(ms)
    ensures Named(Todo(g, ms, k))
  {
    TodoMembers(g, ms, k);
    var rs := Todo(g, ms, k);
    forall i | 0 <= i < |rs| ensures NamedTaxonomy(rs[i]) { assert rs[i] in rs; }
  }

  lemma {:induction false} TodoIsDistinct(g: Graph, ms: seq<ReleaseRecord>, k: nat, rs: seq<ReleaseRecord>)
    requires k <= |ms| && NoStaleRepeat(g, ms) && rs == Todo(g, ms, k)
    ensures forall i, j :: 0 <= i < j < |rs| ==> rs[i].id != rs[j].id
  {
    if k > 0 {
      TodoIsDistinct(g, ms, k - 1, Todo(g, ms, k - 1));
      EarlierIdsDiffer(g, ms, k, Todo(g, ms, k - 1));
    }
  }

  /** What a caller can check by looking at the ids: when no out-of-date id occurs twice, whatever
      its records, the batch leaves the very graph of handling the messages one by one. */
  lemma UnrepeatedBatchIsOneByOne(g: Graph, ms: seq<ReleaseRecord>)
    requires NoStaleRepeat(g, ms) && Named(ms)
    ensures ProcessBatch(g, ms) == ProcessAll(g, ms, |ms|)
  {
    var todo := Todo(g, ms, |ms|);
    OneByOneWritesTodo(g, ms, |ms|);
    TodoIsNamed(g, ms, |ms|);
    TodoIsDistinct(g, ms, |ms|, todo);
    BatchIsSequence(g, todo);
  }
}
