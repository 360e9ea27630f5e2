/** The name backfill: batches of fill-only writes over a file of lines, resumed from a line
    offset, under any pattern of failed writes and crashes. */
module Backfill {
  import opened Common

  // ---------------------------------------------------------------- input and store

  datatype Kind = LabelKind | ArtistKind

  datatype Target = Target(kind: Kind, id: string)

  /** A line of the file: unusable, or a name for a node. */
  datatype Line = Skip | Names(target: Target, name: string)

  /** The existing nodes and their names, and the checkpoint file's line count (0 when absent or
      unreadable). */
  datatype Store = Store(names: map<Target, Option<string>>, mark: nat)

  type Rows = seq<(Target, string)>

  /** One statement: fill the nodes that have no name. */
  function FillRows(names: map<Target, Option<string>>, rows: Rows, k: nat): map<Target, Option<string>>
    requires k <= |rows|
  {
    if k == 0 then names
    else
      var before := FillRows(names, rows, k - 1);
      var (t, name) := rows[k - 1];
      if t in before && before[t].None? then before[t := Some(name)] else before
  }

  /** A transaction commits, is lost, or commits while the caller sees a failure. */
  datatype Fate = Landed | Lost | Ambiguous

  /** The checkpoint file is written, not written, or cut short: its digits then read as a smaller
      count. Anything but a full write ends the process. */
  datatype MarkFate = Written | Unwritten | Torn(shown: nat)

  datatype FlushFate = FlushFate(labels: Fate, artists: Fate, mark: MarkFate)

  function Applied(names: map<Target, Option<string>>, rows: Rows, dry: bool, fate: Fate): map<Target, Option<string>> {
    if rows == [] || dry || fate.Lost? then names else FillRows(names, rows, |rows|)
  }

  predicate Fails(rows: Rows, dry: bool, fate: Fate) {
    rows != [] && !dry && !fate.Landed?
  }

  function Marked(mark: nat, position: nat, fate: MarkFate): nat {
    match fate
    case Written => position
    case Unwritten => mark
    case Torn(shown) => if shown < position then shown else position
  }

  datatype Flushed = Flushed(st: Store, ok: bool)

  /** One flush: the labels' transaction, the artists', then the checkpoint. */
  function Flush(st: Store, labels: Rows, artists: Rows, position: nat, dry: bool, fate: FlushFate): Flushed {
    var one := st.(names := Applied(st.names, labels, dry, fate.labels));
    if Fails(labels, dry, fate.labels) then Flushed(one, false)
    else
      var two := one.(names := Applied(one.names, artists, dry, fate.artists));
      if Fails(artists, dry, fate.artists) then Flushed(two, false)
      else if dry then Flushed(two, true)
      else Flushed(two.(mark := Marked(two.mark, position, fate.mark)), fate.mark.Written?)
  }

  // ---------------------------------------------------------------- one session

  datatype Setup = Setup(batchSize: nat, dry: bool, env: nat -> FlushFate)

  /** A session from position `pos` on, with the rows not yet flushed and n flushes behind it. */
  function Session(lines: seq<Line>, start: nat, u: Setup, st: Store, labels: Rows, artists: Rows, pos: nat, n: nat): Flushed
    requires pos <= |lines|
    decreases |lines| - pos
  {
    if pos == |lines| then
      if labels != [] || artists != [] || pos > start then Flush(st, labels, artists, pos, u.dry, u.env(n)) else Flushed(st, true)
    else if pos < start then Session(lines, start, u, st, labels, artists, pos + 1, n)
    else
      match lines[pos]
      case Skip => Session(lines, start, u, st, labels, artists, pos + 1, n)
      case Names(t, name) =>
        var labels' := if t.kind.LabelKind? then labels + [(t, name)] else labels;
        var artists' := if t.kind.ArtistKind? then artists + [(t, name)] else artists;
        if |labels'| + |artists'| >= u.batchSize then
          var f := Flush(st, labels', artists', pos + 1, u.dry, u.env(n));
          if f.ok then Session(lines, start, u, f.st, [], [], pos + 1, n + 1) else f
        else Session(lines, start, u, st, labels', artists', pos + 1, n)
  }

  function RunOnce(lines: seq<Line>, u: Setup, st: Store): Flushed {
    Session(lines, st.mark, u, st, [], [], 0, 0)
  }

  /** The store after a whole history of sessions over one file, each ending or dying anywhere. */
  function History(lines: seq<Line>, us: seq<Setup>, st: Store): Flushed {
    if us == [] then Flushed(st, false) else RunOnce(lines, us[|us| - 1], History(lines, us[..|us| - 1], st).st)
  }

  // ---------------------------------------------------------------- what is promised

  predicate Distinct(lines: seq<Line>) {
    forall i, j :: 0 <= i < j < |lines| && lines[i].Names? && lines[j].Names? ==> lines[i].target != lines[j].target
  }

  predicate Lists(lines: seq<Line>, t: Target, name: string) {
    exists i :: 0 <= i < |lines| && lines[i] == Names(t, name)
  }

  /** No node appears or disappears, a name is never changed, and a new name is its line's. */
  ghost predicate FillOnly(lines: seq<Line>, before: map<Target, Option<string>>, after: map<Target, Option<string>>) {
    && after.Keys == before.Keys
    && (forall t :: t in before && before[t].Some? ==> after[t] == before[t])
    && (forall t :: t in before && before[t].None? && after[t].Some? ==> Lists(lines, t, after[t].value))
  }

  /** The node of line i is named, or does not exist. */
  predicate Named(names: map<Target, Option<string>>, line: Line) {
    line.Names? && line.target in names ==> names[line.target].Some?
  }

  /** Every line the checkpoint has passed is skipped or applied. */
  ghost predicate Covered(lines: seq<Line>, st: Store) {
    forall i :: 0 <= i < |lines| && i < st.mark ==> Named(st.names, lines[i])
  }

  predicate AllFrom(lines: seq<Line>, rows: Rows) {
    forall i :: 0 <= i < |rows| ==> Lists(lines, rows[i].0, rows[i].1)
  }

  // ---------------------------------------------------------------- one statement

  /** After the statement every listed node that exists has a name, and nothing else changed. */
  lemma {:induction false} FillRowsFills(lines: seq<Line>, names: map<Target, Option<string>>, rows: Rows, k: nat)
    requires k <= |rows| && AllFrom(lines, rows)
    ensures FillOnly(lines, names, FillRows(names, rows, k))
    ensures forall i :: 0 <= i < k && rows[i].0 in names ==> FillRows(names, rows, k)[rows[i].0].Some?
  {
    if k > 0 {
      FillRowsFills(lines, names, rows, k - 1);
      assert Lists(lines, rows[k - 1].0, rows[k - 1].1);
    }
  }

  lemma FillOnlyTransitive(lines: seq<Line>, a: map<Target, Option<string>>, b: map<Target, Option<string>>, c: map<Target, Option<string>>)
    requires FillOnly(lines, a, b) && FillOnly(lines, b, c)
    ensures FillOnly(lines, a, c)
  {
    forall t | t in a && a[t].None? && c[t].Some? ensures Lists(lines, t, c[t].value) {
      if b[t].Some? { assert c[t] == b[t]; }
    }
  }

  lemma NamedStays(lines: seq<Line>, a: map<Target, Option<string>>, b: map<Target, Option<string>>, line: Line)
    requires FillOnly(lines, a, b) && Named(a, line)
    ensures Named(b, line)
  {
  }

  lemma AppliedFills(lines: seq<Line>, names: map<Target, Option<string>>, rows: Rows, dry: bool, fate: Fate)
    requires AllFrom(lines, rows)
    ensures FillOnly(lines, names, Applied(names, rows, dry, fate))
    ensures !dry && !Fails(rows, dry, fate) ==> forall i :: 0 <= i < |rows| && rows[i].0 in names ==> Applied(names, rows, dry, fate)[rows[i].0].Some?
  {
    FillRowsFills(lines, names, rows, |rows|);
  }

  // ---------------------------------------------------------------- one flush

  /** The row of a line that is still to be flushed. */
  predicate Pending(labels: Rows, artists: Rows, line: Line) {
    line.Names? && ((line.target, line.name) in labels || (line.target, line.name) in artists)
  }

  /** Every line before `pos` is applied or pending. */
  ghost predicate Read(lines: seq<Line>, names: map<Target, Option<string>>, labels: Rows, artists: Rows, pos: nat) {
    forall i :: 0 <= i < |lines| && i < pos ==> Named(names, lines[i]) || Pending(labels, artists, lines[i])
  }

  lemma RowsNamed(names: map<Target, Option<string>>, after: map<Target, Option<string>>, rows: Rows, line: Line)
    requires names.Keys == after.Keys && line.Names? && (line.target, line.name) in rows
    requires forall i :: 0 <= i < |rows| && rows[i].0 in names ==> after[rows[i].0].Some?
    ensures Named(after, line)
  {
    var i :| 0 <= i < |rows| && rows[i] == (line.target, line.name);
  }

  /** A flush only fills, and the checkpoint never passes a line that is neither applied nor
      skipped, however the flush ends. */
  lemma FlushKeepsCovered(lines: seq<Line>, st: Store, labels: Rows, artists: Rows, pos: nat, dry: bool, fate: FlushFate, f: Flushed)
    requires AllFrom(lines, labels) && AllFrom(lines, artists) && f == Flush(st, labels, artists, pos, dry, fate)
    requires Covered(lines, st) && (dry || Read(lines, st.names, labels, artists, pos))
    ensures FillOnly(lines, st.names, f.st.names) && Covered(lines, f.st)
    ensures f.ok && !dry ==> f.st.mark == pos && Read(lines, f.st.names, [], [], pos)
    ensures dry ==> f.ok && f.st == st
  {
    var one := Applied(st.names, labels, dry, fate.labels);
    AppliedFills(lines, st.names, labels, dry, fate.labels);
    var two := Applied(one, artists, dry, fate.artists);
    AppliedFills(lines, one, artists, dry, fate.artists);
    FillOnlyTransitive(lines, st.names, one, two);
    if !dry && !Fails(labels, dry, fate.labels) && !Fails(artists, dry, fate.artists) {
      forall i | 0 <= i < |lines| && i < pos ensures Named(two, lines[i]) {
        FlushedLine(lines, st.names, one, two, labels, artists, lines[i]);
      }
    }
    forall i | 0 <= i < |lines| && i < f.st.mark ensures Named(f.st.names, lines[i]) {
      if i < st.mark { NamedStays(lines, st.names, f.st.names, lines[i]); }
    }
  }

  lemma FlushedLine(lines: seq<Line>, names: map<Target, Option<string>>, one: map<Target, Option<string>>, two: map<Target, Option<string>>,
                    labels: Rows, artists: Rows, line: Line)
    requires FillOnly(lines, names, one) && FillOnly(lines, one, two)
    requires forall i :: 0 <= i < |labels| && labels[i].0 in names ==> one[labels[i].0].Some?
    requires forall i :: 0 <= i < |artists| && artists[i].0 in one ==> two[artists[i].0].Some?
    requires Named(names, line) || Pending(labels, artists, line)
    ensures Named(two, line)
  {
    if Named(names, line) { NamedStays(lines, names, one, line); NamedStays(lines, one, two, line); }
    else if (line.target, line.name) in labels { RowsNamed(names, one, labels, line); NamedStays(lines, one, two, line); }
    else { RowsNamed(one, two, artists, line); }
  }

  // ---------------------------------------------------------------- one session

  function LabelsWith(labels: Rows, t: Target, name: string): Rows { if t.kind.LabelKind? then labels + [(t, name)] else labels }
  function ArtistsWith(artists: Rows, t: Target, name: string): Rows { if t.kind.ArtistKind? then artists + [(t, name)] else artists }

  lemma OneMoreLine(lines: seq<Line>, names: map<Target, Option<string>>, labels: Rows, artists: Rows, pos: nat, t: Target, name: string)
    requires pos < |lines| && lines[pos] == Names(t, name) && AllFrom(lines, labels) && AllFrom(lines, artists)
    ensures AllFrom(lines, LabelsWith(labels, t, name)) && AllFrom(lines, ArtistsWith(artists, t, name))
    ensures Read(lines, names, labels, artists, pos) ==> Read(lines, names, LabelsWith(labels, t, name), ArtistsWith(artists, t, name), pos + 1)
  {
    assert Lists(lines, t, name);
    if Read(lines, names, labels, artists, pos) {
      forall i | 0 <= i < |lines| && i < pos + 1
        ensures Named(names, lines[i]) || Pending(LabelsWith(labels, t, name), ArtistsWith(artists, t, name), lines[i])
      {
        if i < pos { assert Named(names, lines[i]) || Pending(labels, artists, lines[i]); }
      }
    }
  }

  ghost predicate SessionFacts(lines: seq<Line>, u: Setup, st: Store, f: Flushed) {
    && FillOnly(lines, st.names, f.st.names) && Covered(lines, f.st)
    && (f.ok && !u.dry ==> Read(lines, f.st.names, [], [], |lines|))
    && (u.dry ==> f.ok && f.st == st)
  }

  lemma FactsCompose(lines: seq<Line>, u: Setup, a: Store, b: Store, f: Flushed)
    requires FillOnly(lines, a.names, b.names) && SessionFacts(lines, u, b, f) && (u.dry ==> b == a)
    ensures SessionFacts(lines, u, a, f)
  {
    FillOnlyTransitive(lines, a.names, b.names, f.st.names);
  }

  lemma SameStoreFacts(lines: seq<Line>, u: Setup, st: Store)
    requires Covered(lines, st) && (u.dry || Read(lines, st.names, [], [], |lines|))
    ensures SessionFacts(lines, u, st, Flushed(st, true))
  {
  }

  lemma {:induction false} SessionKeepsPromises(lines: seq<Line>, start: nat, u: Setup, st: Store, labels: Rows, artists: Rows, pos: nat, n: nat)
    requires pos <= |lines| && Covered(lines, st) && AllFrom(lines, labels) && AllFrom(lines, artists)
    requires start <= st.mark || pos >= start
    requires pos <= start ==> labels == [] && artists == []
    requires u.dry || Read(lines, st.names, labels, artists, if pos < start then start else pos)
    ensures SessionFacts(lines, u, st, Session(lines, start, u, st, labels, artists, pos, n))
    decreases |lines| - pos
  {
    if pos == |lines| {
      if labels != [] || artists != [] || pos > start {
        FlushKeepsCovered(lines, st, labels, artists, pos, u.dry, u.env(n), Flush(st, labels, artists, pos, u.dry, u.env(n)));
      } else {
        SameStoreFacts(lines, u, st);
      }
    } else if pos < start {
      SessionKeepsPromises(lines, start, u, st, labels, artists, pos + 1, n);
    } else if lines[pos].Skip? {
      SessionKeepsPromises(lines, start, u, st, labels, artists, pos + 1, n);
    } else {
      LineKeepsPromises(lines, start, u, st, labels, artists, pos, n, lines[pos].target, lines[pos].name);
    }
  }

  lemma {:induction false} LineKeepsPromises(lines: seq<Line>, start: nat, u: Setup, st: Store, labels: Rows, artists: Rows, pos: nat, n: nat,
                                             t: Target, name: string)
    requires pos < |lines| && pos >= start && lines[pos] == Names(t, name)
    requires Covered(lines, st) && AllFrom(lines, labels) && AllFrom(lines, artists)
    requires u.dry || Read(lines, st.names, labels, artists, pos)
    ensures SessionFacts(lines, u, st, Session(lines, start, u, st, labels, artists, pos, n))
    decreases |lines| - pos, 0
  {
    var labels', artists' := LabelsWith(labels, t, name), ArtistsWith(artists, t, name);
    OneMoreLine(lines, st.names, labels, artists, pos, t, name);
    if |labels'| + |artists'| >= u.batchSize {
      var f := Flush(st, labels', artists', pos + 1, u.dry, u.env(n));
      FlushKeepsCovered(lines, st, labels', artists', pos + 1, u.dry, u.env(n), f);
      if f.ok {
        SessionKeepsPromises(lines, start, u, f.st, [], [], pos + 1, n + 1);
        FactsCompose(lines, u, st, f.st, Session(lines, start, u, f.st, [], [], pos + 1, n + 1));
      }
    } else {
      SessionKeepsPromises(lines, start, u, st, labels', artists', pos + 1, n);
    }
  }

  lemma RunKeepsPromises(lines: seq<Line>, u: Setup, st: Store)
    requires Covered(lines, st)
    ensures SessionFacts(lines, u, st, RunOnce(lines, u, st))
  {
    SessionKeepsPromises(lines, st.mark, u, st, [], [], 0, 0);
  }

  // ---------------------------------------------------------------- main results

  /** However often it crashed and resumed, with whatever batch sizes, the backfill only filled
      missing names with their lines' names and never checkpointed past an unapplied line. */
  lemma {:induction false} HistoryKeepsPromises(lines: seq<Line>, us: seq<Setup>, st: Store)
    requires Covered(lines, st)
    ensures FillOnly(lines, st.names, History(lines, us, st).st.names) && Covered(lines, History(lines, us, st).st)
  {
    if us != [] {
      var before := History(lines, us[..|us| - 1], st).st;
      HistoryKeepsPromises(lines, us[..|us| - 1], st);
      RunKeepsPromises(lines, us[|us| - 1], before);
      FillOnlyTransitive(lines, st.names, before.names, RunOnce(lines, us[|us| - 1], before).st.names);
    }
  }

  /** The name a node should end with. */
  ghost predicate RightName(lines: seq<Line>, was: Option<string>, t: Target, now: Option<string>) {
    if was.Some? then now == was
    else if exists name :: Lists(lines, t, name) then now.Some? && forall name :: Lists(lines, t, name) ==> now == Some(name)
    else now.None?
  }

  /** Once a session of the history has finished, each listed nameless node holds its line's name
      and every other node is as it was. */
  lemma FinishedHistoryIsExact(lines: seq<Line>, us: seq<Setup>, st: Store, t: Target)
    requires Covered(lines, st) && Distinct(lines) && t in st.names
    requires us != [] && History(lines, us, st).ok && !us[|us| - 1].dry
    ensures t in History(lines, us, st).st.names && RightName(lines, st.names[t], t, History(lines, us, st).st.names[t])
  {
    var last := us[|us| - 1];
    var before, f := History(lines, us[..|us| - 1], st).st, History(lines, us, st);
    HistoryKeepsPromises(lines, us, st);
    HistoryKeepsPromises(lines, us[..|us| - 1], st);
    RunKeepsPromises(lines, last, before);
    if st.names[t].None? {
      if name :| Lists(lines, t, name) {
        var i :| 0 <= i < |lines| && lines[i] == Names(t, name);
        assert Named(f.st.names, lines[i]);
        DistinctNames(lines, t, name, f.st.names[t].value);
      }
    }
  }

  lemma DistinctNames(lines: seq<Line>, t: Target, x: string, y: string)
    requires Distinct(lines) && Lists(lines, t, x) && Lists(lines, t, y)
    ensures x == y && forall z :: Lists(lines, t, z) ==> z == x
  {
    var i :| 0 <= i < |lines| && lines[i] == Names(t, x);
    forall z | Lists(lines, t, z) ensures z == x {
      var j :| 0 <= j < |lines| && lines[j] == Names(t, z);
      assert i == j;
    }
  }

  ghost predicate Undisturbed(u: Setup) {
    forall n :: u.env(n) == FlushFate(Landed, Landed, Written)
  }

  /** A session nothing disturbs finishes. */
  lemma {:induction false} UndisturbedSessionFinishes(lines: seq<Line>, start: nat, u: Setup, st: Store, labels: Rows, artists: Rows, pos: nat, n: nat)
    requires pos <= |lines| && Undisturbed(u)
    ensures Session(lines, start, u, st, labels, artists, pos, n).ok
    decreases |lines| - pos
  {
    if pos < |lines| {
      if pos < start || lines[pos].Skip? {
        UndisturbedSessionFinishes(lines, start, u, st, labels, artists, pos + 1, n);
      } else {
        var labels', artists' := LabelsWith(labels, lines[pos].target, lines[pos].name), ArtistsWith(artists, lines[pos].target, lines[pos].name);
        var f := Flush(st, labels', artists', pos + 1, u.dry, u.env(n));
        UndisturbedSessionFinishes(lines, start, u, f.st, [], [], pos + 1, n + 1);
        UndisturbedSessionFinishes(lines, start, u, st, labels', artists', pos + 1, n);
      }
    }
  }

  // ---------------------------------------------------------------- what a batch holds

  /** The rows of one kind that lines from..to name, in order. */
  function RowsFor(lines: seq<Line>, labels: bool, from: nat, to: nat): Rows
    requires from <= to <= |lines|
  {
    if from == to then []
    else
      RowsFor(lines, labels, from, to - 1)
      + if lines[to - 1].Names? && (lines[to - 1].target.kind.LabelKind? <==> labels) then [(lines[to - 1].target, lines[to - 1].name)] else []
  }

  function NamedBetween(lines: seq<Line>, from: nat, to: nat): nat
    requires from <= to <= |lines|
  {
    |set i | from <= i < to && lines[i].Names?|
  }

  lemma {:induction false} RowsAreNamed(lines: seq<Line>, from: nat, to: nat)
    requires from <= to <= |lines|
    ensures |RowsFor(lines, true, from, to)| + |RowsFor(lines, false, from, to)| == NamedBetween(lines, from, to)
  {
    var named := set i | from <= i < to && lines[i].Names?;
    if from < to {
      RowsAreNamed(lines, from, to - 1);
      var before := set i | from <= i < to - 1 && lines[i].Names?;
      assert named == if lines[to - 1].Names? then before + {to - 1} else before;
    }
  }

  lemma FewerNamed(lines: seq<Line>, from: nat, p: nat, to: nat)
    requires from <= p <= to <= |lines|
    ensures NamedBetween(lines, from, p) <= NamedBetween(lines, from, to)
    ensures p < to && lines[p].Names? ==> NamedBetween(lines, from, p) < NamedBetween(lines, from, to)
  {
    var a, b := set i | from <= i < p && lines[i].Names?, set i | from <= i < to && lines[i].Names?;
    SubsetSize(a, b);
    if p < to && lines[p].Names? { SubsetSize(a + {p}, b); }
  }

  /** The session at line `pos`, with the rows read since `from` pending. */
  function Reading(lines: seq<Line>, start: nat, u: Setup, st: Store, from: nat, pos: nat, n: nat): Flushed
    requires from <= pos <= |lines|
  {
    Session(lines, start, u, st, RowsFor(lines, true, from, pos), RowsFor(lines, false, from, pos), pos, n)
  }

  lemma NextRows(lines: seq<Line>, from: nat, pos: nat)
    requires from <= pos < |lines|
    ensures var labels, artists := RowsFor(lines, true, from, pos), RowsFor(lines, false, from, pos);
      match lines[pos]
      case Skip => RowsFor(lines, true, from, pos + 1) == labels && RowsFor(lines, false, from, pos + 1) == artists
      case Names(t, name) => RowsFor(lines, true, from, pos + 1) == LabelsWith(labels, t, name) && RowsFor(lines, false, from, pos + 1) == ArtistsWith(artists, t, name)
  {
  }

  /** Short of a full batch, reading on flushes nothing. */
  lemma {:induction false} ReadsOn(lines: seq<Line>, start: nat, u: Setup, st: Store, from: nat, pos: nat, to: nat, n: nat)
    requires start <= from <= pos <= to <= |lines| && (NamedBetween(lines, from, to) < u.batchSize || NamedBetween(lines, from, to) == 0)
    ensures Reading(lines, start, u, st, from, pos, n) == Reading(lines, start, u, st, from, to, n)
    decreases |lines| - pos
  {
    if pos < to {
      FewerNamed(lines, from, pos + 1, to);
      FewerNamed(lines, from, pos, to);
      RowsAreNamed(lines, from, pos + 1);
      NextRows(lines, from, pos);
      ReadsOn(lines, start, u, st, from, pos + 1, to, n);
    }
  }

  lemma OneMoreNamed(lines: seq<Line>, from: nat, p: nat)
    requires from <= p < |lines| && lines[p].Names?
    ensures NamedBetween(lines, from, p + 1) == NamedBetween(lines, from, p) + 1
  {
    assert (set i | from <= i < p + 1 && lines[i].Names?) == (set i | from <= i < p && lines[i].Names?) + {p};
  }

  /** Line `to` is the one that fills the batch begun at line `from`; a batch of none is one of one. */
  predicate Fills(lines: seq<Line>, from: nat, to: nat, size: nat) {
    && from <= to < |lines| && lines[to].Names?
    && NamedBetween(lines, from, to) + 1 == if size == 0 then 1 else size
  }

  /** From a batch's first line on, the session flushes exactly the rows up to the line that fills
      the batch, checkpoints behind that line, and goes on from there only if the flush succeeded. */
  lemma BatchHoldsItsLines(lines: seq<Line>, start: nat, u: Setup, st: Store, from: nat, to: nat, n: nat)
    requires start <= from && Fills(lines, from, to, u.batchSize)
    ensures var f := Flush(st, RowsFor(lines, true, from, to + 1), RowsFor(lines, false, from, to + 1), to + 1, u.dry, u.env(n));
      Session(lines, start, u, st, [], [], from, n) == if f.ok then Session(lines, start, u, f.st, [], [], to + 1, n + 1) else f
  {
    ReadsOn(lines, start, u, st, from, from, to, n);
    RowsAreNamed(lines, from, to);
    RowsAreNamed(lines, from, to + 1);
    NextRows(lines, from, to);
    OneMoreNamed(lines, from, to);
  }

  /** When no line fills the batch any more, the rest is flushed at the end of the file; a session
      that reads no line at all writes nothing. */
  lemma RestIsFlushedAtTheEnd(lines: seq<Line>, start: nat, u: Setup, st: Store, from: nat, n: nat)
    requires start <= from <= |lines| && (NamedBetween(lines, from, |lines|) < u.batchSize || NamedBetween(lines, from, |lines|) == 0)
    ensures Session(lines, start, u, st, [], [], from, n) ==
      if |lines| == start then Flushed(st, true)
      else Flush(st, RowsFor(lines, true, from, |lines|), RowsFor(lines, false, from, |lines|), |lines|, u.dry, u.env(n))
  {
    ReadsOn(lines, start, u, st, from, from, |lines|, n);
  }

  /** A session begins its first batch at the checkpoint, or finds the file shorter than that. */
  lemma {:induction false} SessionStartsAtTheMark(lines: seq<Line>, start: nat, u: Setup, st: Store, pos: nat)
    requires pos <= start && pos <= |lines|
    ensures Session(lines, start, u, st, [], [], pos, 0) ==
      if start <= |lines| then Session(lines, start, u, st, [], [], start, 0) else Flushed(st, true)
    decreases |lines| - pos
  {
    if pos < start && pos < |lines| { SessionStartsAtTheMark(lines, start, u, st, pos + 1); }
  }

  // ---------------------------------------------------------------- the loop itself

  class NameStore {
    var names: map<Target, Option<string>>
    var mark: nat

    function Current(): Store
      reads this
    {
      Store(names, mark)
    }

    method Fill(rows: Rows, dry: bool, fate: Fate) returns (ok: bool)
      modifies this`names
      ensures names == Applied(old(names), rows, dry, fate) && ok == !Fails(rows, dry, fate)
    {
      ok := true;
      if rows != [] && !dry {
        if !fate.Lost? {
          var now := names;
          for k := 0 to |rows|
            invariant now == FillRows(names, rows, k) && names == old(names)
          {
            var (t, name) := rows[k];
            if t in now && now[t].None? { now := now[t := Some(name)]; }
          }
          names := now;
        }
        ok := fate.Landed?;
      }
    }

    method FlushBatch(labels: Rows, artists: Rows, position: nat, dry: bool, fate: FlushFate) returns (ok: bool)
      modifies this
      ensures Flushed(Current(), ok) == Flush(old(Current()), labels, artists, position, dry, fate)
    {
      ok := Fill(labels, dry, fate.labels);
      if !ok { return; }
      ok := Fill(artists, dry, fate.artists);
      if !ok || dry { return; }
      mark := Marked(mark, position, fate.mark);
      ok := fate.mark.Written?;
    }

    /** backfill: read from the checkpoint on, flushing full batches and the rest at the end. */
    method Run(lines: seq<Line>, u: Setup) returns (ok: bool, read: nat, skipped: nat)
      modifies this
      ensures Flushed(Current(), ok) == RunOnce(lines, u, old(Current()))
      ensures ok ==> read == (if old(mark) < |lines| then |lines| - old(mark) else 0) && skipped <= read
    {
      var start := mark;
      ghost var st0 := Current();
      read, skipped := 0, 0;
      var labels: Rows, artists: Rows := [], [];
      var n: nat := 0;
      for pos := 0 to |lines|
        invariant Session(lines, start, u, Current(), labels, artists, pos, n) == RunOnce(lines, u, st0)
        invariant read == (if start < pos then pos - start else 0) && skipped <= read
      {
        if pos < start { continue; }
        read := read + 1;
        match lines[pos] {
          case Skip => skipped := skipped + 1;
          case Names(t, name) =>
            labels := if t.kind.LabelKind? then labels + [(t, name)] else labels;
            artists := if t.kind.ArtistKind? then artists + [(t, name)] else artists;
            if |labels| + |artists| >= u.batchSize {
              ok := FlushBatch(labels, artists, pos + 1, u.dry, u.env(n));
              if !ok { return; }
              labels, artists, n := [], [], n + 1;
            }
        }
      }
      ok := true;
      if labels != [] || artists != [] || |lines| > start {
        ok := FlushBatch(labels, artists, |lines|, u.dry, u.env(n));
      }
    }
  }
}
