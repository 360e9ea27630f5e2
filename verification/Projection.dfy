/** The two release write paths as statements over the graph: the single-record transaction
    and the batched one, with their prunes. */
module Projection {
  import opened Common
  import opened Graph
  import opened Records

  const SOURCE := "discogs"

  // ---------------------------------------------------------------- edges a release writes

  function By(r: string, a: string): Edge { Edge(Release(r), BY, Artist(a), "", "") }
  function On(r: string, l: string): Edge { Edge(Release(r), ON, Label(l), "", "") }
  function DerivedFrom(r: string, m: string): Edge { Edge(Release(r), DERIVED_FROM, Master(m), "", "") }
  function IsGenre(r: string, g: string): Edge { Edge(Release(r), IS, Genre(g), "", "") }
  function IsStyle(r: string, s: string): Edge { Edge(Release(r), IS, Style(s), "", "") }
  function PartOf(s: string, g: string): Edge { Edge(Style(s), PART_OF, Genre(g), "", "") }
  function InFamily(m: string, f: string): Edge { Edge(Medium(m), IN_FAMILY, Family(f), "", "") }
  function IssuedOn(r: string, m: string, source: string): Edge { Edge(Release(r), ISSUED_ON, Medium(m), "", source) }
  function CreditedTo(r: string, c: string, role: string, source: string): Edge { Edge(Release(r), CREDITED_TO, Company(c), role, source) }
  function CreditedOn(p: string, r: string, role: string): Edge { Edge(Person(p), CREDITED_ON, Release(r), role, "") }

  // ---------------------------------------------------------------- rows per statement

  /** Rows gathered from the first k items, in order. */
  function Collect<A>(xs: seq<A>, f: A -> seq<Row>, k: nat): seq<Row>
    requires k <= |xs|
  {
    if k == 0 then [] else Collect(xs, f, k - 1) + f(xs[k - 1])
  }

  function CollectAll<A>(xs: seq<A>, f: A -> seq<Row>): seq<Row> {
    Collect(xs, f, |xs|)
  }

  /** MATCH the release, MERGE the target, MERGE the edge to it. */
  function Joined(release: string, node: Node, update: Update, edge: Edge, prop: Option<EdgeProp>): Row {
    Row({Release(release)}, None, Some(node), update, None, Some(edge), prop)
  }

  function ReleaseRows(r: ReleaseRecord): seq<Row> {
    [Row({}, None, Some(Release(r.id)), Describe(r.hash, r.year, r.country, r.families), None, None, None)]
  }

  function ArtistRow(r: string): Ref -> seq<Row> {
    (a: Ref) => if a.id == "" then [] else [Joined(r, Artist(a.id), Fill(ReferenceName(a)), By(r, a.id), None)]
  }

  function LabelRow(r: string): Ref -> seq<Row> {
    (l: Ref) => if l.id == "" then [] else [Joined(r, Label(l.id), Fill(ReferenceName(l)), On(r, l.id), None)]
  }

  function MasterRows(r: ReleaseRecord): seq<Row> {
    if r.master.None? then [] else [Joined(r.id, Master(r.master.value), Touch, DerivedFrom(r.id, r.master.value), None)]
  }

  /** The batched path drops empty names; the single-record path does not. */
  function GenreRow(r: string, batched: bool): string -> seq<Row> {
    (g: string) => if batched && g == "" then [] else [Joined(r, Genre(g), Touch, IsGenre(r, g), None)]
  }

  function StyleRow(r: string, batched: bool): string -> seq<Row> {
    (s: string) => if batched && s == "" then [] else [Joined(r, Style(s), Touch, IsStyle(r, s), None)]
  }

  function PartOfRow(g: string, batched: bool): string -> seq<Row> {
    (s: string) => if batched && s == "" then [] else [Row({}, Some(Genre(g)), Some(Style(s)), Touch, None, Some(PartOf(s, g)), None)]
  }

  /** Only a record with a single genre says which genre its styles belong to. */
  function PartOfRows(r: ReleaseRecord, batched: bool): seq<Row> {
    if |r.genres| == 1 && (batched ==> r.genres[0] != "") then CollectAll(r.styles, PartOfRow(r.genres[0], batched)) else []
  }

  function MediumRow(r: string): MediaRow -> seq<Row> {
    (m: MediaRow) =>
      [Row({Release(r)}, Some(Family(m.family)), Some(Medium(m.medium)), Rename(Some(m.caption), Some(m.family)),
           Some(InFamily(m.medium, m.family)), Some(IssuedOn(r, m.medium, SOURCE)), Some(Qty(m.qty)))]
  }

  function CompanyCredit(r: string): CompanyRow -> seq<Row> {
    (c: CompanyRow) =>
      [Joined(r, Company(c.id), Rename(Some(c.name), None), CreditedTo(r, c.id, c.role, SOURCE), Some(Category(c.category)))]
  }

  function PersonCredit(r: string): CreditRow -> seq<Row> {
    (c: CreditRow) => [Joined(r, Person(c.name), Touch, CreditedOn(c.name, r, c.role), Some(Category(c.category)))]
  }

  /** The statements of a release write. */
  datatype Part = ReleaseNode | Artists | Labels | Masters | Genres | Styles | PartOfs | Media | Companies | Credits

  function RowsOf(p: Part, r: ReleaseRecord, batched: bool): seq<Row> {
    match p
    case ReleaseNode => ReleaseRows(r)
    case Artists => CollectAll(r.artists, ArtistRow(r.id))
    case Labels => CollectAll(r.labels, LabelRow(r.id))
    case Masters => MasterRows(r)
    case Genres => CollectAll(r.genres, GenreRow(r.id, batched))
    case Styles => CollectAll(r.styles, StyleRow(r.id, batched))
    case PartOfs => PartOfRows(r, batched)
    case Media => CollectAll(r.media, MediumRow(r.id))
    case Companies => if r.companies.None? then [] else CollectAll(r.companies.value, CompanyCredit(r.id))
    case Credits => CollectAll(r.credits, PersonCredit(r.id))
  }

  // ---------------------------------------------------------------- prunes

  function KeptRefs(refs: seq<Ref>): set<string> {
    set a | a in refs && a.id != "" :: a.id
  }

  function KeptNames(names: seq<string>): set<string> {
    set g | g in names && g != ""
  }

  function KeptMasters(r: ReleaseRecord): set<string> {
    if r.master.None? then {} else {r.master.value}
  }

  function KeptMedia(rows: seq<MediaRow>): set<string> {
    set m | m in rows :: m.medium
  }

  function KeptCompanies(rows: seq<CompanyRow>): set<(string, string)> {
    set c | c in rows :: (c.id, c.role)
  }

  function KeptCredits(rows: seq<CreditRow>): set<(string, string)> {
    set c | c in rows :: (c.name, c.role)
  }

  /** The edges of this kind that the release's prune considers its own. */
  predicate Owns(p: Part, r: string, e: Edge) {
    match p
    case Artists => e.src == Release(r) && e.rel == BY && e.dst.Artist?
    case Labels => e.src == Release(r) && e.rel == ON && e.dst.Label?
    case Masters => e.src == Release(r) && e.rel == DERIVED_FROM && e.dst.Master?
    case Genres => e.src == Release(r) && e.rel == IS && e.dst.Genre?
    case Styles => e.src == Release(r) && e.rel == IS && e.dst.Style?
    case Media => e.src == Release(r) && e.rel == ISSUED_ON && e.dst.Medium? && e.source == SOURCE
    case Companies => e.src == Release(r) && e.rel == CREDITED_TO && e.dst.Company? && e.source == SOURCE
    case Credits => e.dst == Release(r) && e.rel == CREDITED_ON && e.src.Person?
    case _ => false
  }

  /** The keep-list of this kind names the edge. */
  predicate Keeps(p: Part, r: ReleaseRecord, e: Edge) {
    match p
    case Artists => e.dst.id in KeptRefs(r.artists)
    case Labels => e.dst.id in KeptRefs(r.labels)
    case Masters => e.dst.id in KeptMasters(r)
    case Genres => e.dst.id in KeptNames(r.genres)
    case Styles => e.dst.id in KeptNames(r.styles)
    case Media => e.dst.id in KeptMedia(r.media)
    case Companies => r.companies.None? || (e.dst.id, e.role) in KeptCompanies(r.companies.value)
    case Credits => (e.src.id, e.role) in KeptCredits(r.credits)
    case _ => true
  }

  predicate Stale(p: Part, r: ReleaseRecord, e: Edge) {
    Owns(p, r.id, e) && !Keeps(p, r, e)
  }

  /** The fused prune of the batched path: one expansion, each type with its own keep-list. */
  predicate FusedStale(r: ReleaseRecord, e: Edge) {
    && e.src == Release(r.id)
    && (|| (e.rel == BY && e.dst.Artist? && e.dst.id !in KeptRefs(r.artists))
        || (e.rel == ON && e.dst.Label? && e.dst.id !in KeptRefs(r.labels))
        || (e.rel == DERIVED_FROM && e.dst.Master? && e.dst.id !in KeptMasters(r))
        || (e.rel == IS && e.dst.Genre? && e.dst.id !in KeptNames(r.genres))
        || (e.rel == IS && e.dst.Style? && e.dst.id !in KeptNames(r.styles)))
  }

  // ---------------------------------------------------------------- transactions

  /** One statement of a transaction over a list of releases. */
  datatype Op = Merge(part: Part) | Cut(part: Part) | CutFused

  function PartRows(p: Part, batched: bool): ReleaseRecord -> seq<Row> {
    (r: ReleaseRecord) => RowsOf(p, r, batched)
  }

  predicate SomeStale(p: Part, rs: seq<ReleaseRecord>, e: Edge) {
    exists i :: 0 <= i < |rs| && Stale(p, rs[i], e)
  }

  predicate SomeFusedStale(rs: seq<ReleaseRecord>, e: Edge) {
    exists i :: 0 <= i < |rs| && FusedStale(rs[i], e)
  }

  function DoOp(g: Graph, rs: seq<ReleaseRecord>, op: Op, batched: bool): Graph {
    match op
    case Merge(p) => Unwind(g, CollectAll(rs, PartRows(p, batched)))
    case Cut(p) => Prune(g, (e: Edge) => SomeStale(p, rs, e))
    case CutFused => Prune(g, (e: Edge) => SomeFusedStale(rs, e))
  }

  /** The first k statements of a transaction. */
  function RunScript(g: Graph, rs: seq<ReleaseRecord>, script: nat -> Op, k: nat, batched: bool): Graph {
    if k == 0 then g else DoOp(RunScript(g, rs, script, k - 1, batched), rs, script(k - 1), batched)
  }

  /** process_release: five prunes, media, companies, then the reference and taxonomy merges. */
  function SingleScript(i: nat): Op {
    match i
    case 0 => Merge(ReleaseNode)
    case 1 => Cut(Artists)
    case 2 => Cut(Labels)
    case 3 => Cut(Masters)
    case 4 => Cut(Genres)
    case 5 => Cut(Styles)
    case 6 => Cut(Media)
    case 7 => Merge(Media)
    case 8 => Cut(Companies)
    case 9 => Merge(Companies)
    case 10 => Merge(Artists)
    case 11 => Merge(Labels)
    case 12 => Merge(Masters)
    case 13 => Merge(Genres)
    case 14 => Merge(Styles)
    case 15 => Merge(PartOfs)
    case 16 => Cut(Credits)
    case _ => Merge(Credits)
  }

  /** _process_releases_batch: one fused prune, then every merge over the whole batch. */
  function BatchScript(i: nat): Op {
    match i
    case 0 => Merge(ReleaseNode)
    case 1 => CutFused
    case 2 => Merge(Artists)
    case 3 => Merge(Labels)
    case 4 => Merge(Masters)
    case 5 => Merge(Genres)
    case 6 => Merge(Styles)
    case 7 => Merge(PartOfs)
    case 8 => Cut(Media)
    case 9 => Merge(Media)
    case 10 => Cut(Companies)
    case 11 => Merge(Companies)
    case 12 => Cut(Credits)
    case _ => Merge(Credits)
  }

  const SINGLE_LENGTH: nat := 18
  const BATCH_LENGTH: nat := 14

  function WriteRelease(g: Graph, r: ReleaseRecord): Graph {
    RunScript(g, [r], SingleScript, SINGLE_LENGTH, false)
  }

  function WriteBatch(g: Graph, rs: seq<ReleaseRecord>): Graph {
    RunScript(g, rs, BatchScript, BATCH_LENGTH, true)
  }

  // ---------------------------------------------------------------- which rows touch what

  lemma {:induction false} CollectMembers<A>(xs: seq<A>, f: A -> seq<Row>, k: nat)
    requires k <= |xs|
    ensures forall row :: row in Collect(xs, f, k) <==> exists i :: 0 <= i < k && row in f(xs[i])
  {
    if k > 0 { CollectMembers(xs, f, k - 1); }
  }

  /** The part of a release write an edge belongs to. */
  function EdgePart(e: Edge): Part {
    match e.rel
    case BY => Artists
    case ON => Labels
    case DERIVED_FROM => Masters
    case IS => if e.dst.Genre? then Genres else Styles
    case PART_OF => PartOfs
    case IN_FAMILY => Media
    case ISSUED_ON => Media
    case CREDITED_TO => Companies
    case CREDITED_ON => Credits
    case _ => ReleaseNode
  }

  /** The part of a release write a node belongs to; PART_OF rows only revisit taxonomy nodes. */
  function NodePart(n: Node): Part {
    match n
    case Release(_) => ReleaseNode
    case Artist(_) => Artists
    case Label(_) => Labels
    case Master(_) => Masters
    case Genre(_) => Genres
    case Style(_) => Styles
    case Person(_) => Credits
    case Company(_) => Companies
    case Medium(_) => Media
    case Family(_) => Media
  }

  /** Every row of a part writes edges of that part only, and anchors on its own release only. */
  ghost predicate RowFits(p: Part, r: string, row: Row) {
    && row.anchors <= {Release(r)}
    && (forall e :: e in Edges(row) ==> EdgePart(e) == p && (Owns(p, r, e) || p.PartOfs? || e.rel == IN_FAMILY))
    && (forall n :: n in Nodes(row) ==> NodePart(n) == p || (p.PartOfs? && (n.Genre? || n.Style?)))
    && UpdateFits(r, row)
    && (row.edge.Some? ==> (row.prop.Some? <==> Owns(p, r, row.edge.value) && SetsProp(p)))
    && (row.link.Some? ==> !Owns(p, r, row.link.value))
  }

  /** The parts whose edges carry a SET property besides their key. */
  predicate SetsProp(p: Part) {
    p.Media? || p.Companies? || p.Credits?
  }

  /** How each kind of node is written: releases described, companies and media renamed,
      references filled, everything else only created. */
  predicate UpdateFits(r: string, row: Row) {
    && (row.touch.Some? ==> row.touch.value.Family? || row.touch.value.Genre?)
    && (row.node.Some? ==>
          match row.node.value
          case Release(id) => row.update.Describe? && id == r
          case Company(_) => row.update.Rename?
          case Medium(_) => row.update.Rename?
          case Artist(_) => row.update.Fill?
          case Label(_) => row.update.Fill?
          case _ => row.update.Touch?)
  }

  ghost predicate AllFit(p: Part, r: string, rows: seq<Row>) {
    forall row :: row in rows ==> RowFits(p, r, row)
  }

  lemma CollectFits<A>(xs: seq<A>, f: A -> seq<Row>, p: Part, r: string)
    requires forall x :: x in xs ==> AllFit(p, r, f(x))
    ensures AllFit(p, r, CollectAll(xs, f))
  {
    CollectMembers(xs, f, |xs|);
  }

  lemma ArtistRowsFit(r: ReleaseRecord)
    ensures AllFit(Artists, r.id, CollectAll(r.artists, ArtistRow(r.id)))
  {
    CollectFits(r.artists, ArtistRow(r.id), Artists, r.id);
  }

  lemma LabelRowsFit(r: ReleaseRecord)
    ensures AllFit(Labels, r.id, CollectAll(r.labels, LabelRow(r.id)))
  {
    CollectFits(r.labels, LabelRow(r.id), Labels, r.id);
  }

  lemma ReferenceRowsFit(p: Part, r: ReleaseRecord, batched: bool)
    requires p.ReleaseNode? || p.Artists? || p.Labels? || p.Masters?
    ensures AllFit(p, r.id, RowsOf(p, r, batched))
  {
    match p
    case Artists => ArtistRowsFit(r);
    case Labels => LabelRowsFit(r);
    case _ =>
  }

  lemma GenreRowsFit(r: ReleaseRecord, batched: bool)
    ensures AllFit(Genres, r.id, CollectAll(r.genres, GenreRow(r.id, batched)))
  {
    CollectFits(r.genres, GenreRow(r.id, batched), Genres, r.id);
  }

  lemma StyleRowsFit(r: ReleaseRecord, batched: bool)
    ensures AllFit(Styles, r.id, CollectAll(r.styles, StyleRow(r.id, batched)))
  {
    CollectFits(r.styles, StyleRow(r.id, batched), Styles, r.id);
  }

  lemma TaxonomyRowsFit(p: Part, r: ReleaseRecord, batched: bool)
    requires p.Genres? || p.Styles?
    ensures AllFit(p, r.id, RowsOf(p, r, batched))
  {
    match p
    case Genres => GenreRowsFit(r, batched);
    case Styles => StyleRowsFit(r, batched);
  }

  lemma PartOfRowsFit(r: ReleaseRecord, batched: bool)
    ensures AllFit(PartOfs, r.id, RowsOf(PartOfs, r, batched))
  {
    if |r.genres| == 1 { CollectFits(r.styles, PartOfRow(r.genres[0], batched), PartOfs, r.id); }
  }

  lemma MediaRowsFit(r: ReleaseRecord, batched: bool)
    ensures AllFit(Media, r.id, RowsOf(Media, r, batched))
  {
    forall m ensures AllFit(Media, r.id, MediumRow(r.id)(m)) { MediumFits(r.id, m); }
    CollectFits(r.media, MediumRow(r.id), Media, r.id);
  }

  lemma MediumFits(r: string, m: MediaRow)
    ensures AllFit(Media, r, MediumRow(r)(m))
  {
  }

  lemma CreditRowsFit(p: Part, r: ReleaseRecord, batched: bool)
    requires p.Companies? || p.Credits?
    ensures AllFit(p, r.id, RowsOf(p, r, batched))
  {
    match p
    case Companies => if r.companies.Some? { CollectFits(r.companies.value, CompanyCredit(r.id), p, r.id); }
    case Credits => CollectFits(r.credits, PersonCredit(r.id), p, r.id);
  }

  lemma RowsFit(p: Part, r: ReleaseRecord, batched: bool)
    ensures AllFit(p, r.id, RowsOf(p, r, batched))
  {
    match p
    case Genres => TaxonomyRowsFit(p, r, batched);
    case Styles => TaxonomyRowsFit(p, r, batched);
    case PartOfs => PartOfRowsFit(r, batched);
    case Media => MediaRowsFit(r, batched);
    case Companies => CreditRowsFit(p, r, batched);
    case Credits => CreditRowsFit(p, r, batched);
    case _ => ReferenceRowsFit(p, r, batched);
  }

  /** The key properties the merge patterns of this service give an edge. */
  predicate WellKeyed(e: Edge) {
    match e.rel
    case ISSUED_ON => e.role == ""
    case CREDITED_TO => true
    case CREDITED_ON => e.source == ""
    case _ => e.role == "" && e.source == ""
  }

  /** The record says this edge of its own exists. */
  predicate Asserts(p: Part, r: ReleaseRecord, e: Edge) {
    Owns(p, r.id, e) && WellKeyed(e) && Keeps(p, r, e) && (p.Companies? ==> r.companies.Some?)
  }

  ghost predicate Offers(rows: seq<Row>, e: Edge) {
    exists row :: row in rows && e in Edges(row)
  }

  lemma OffersIsMentions(rows: seq<Row>, e: Edge)
    ensures Offers(rows, e) <==> Mentions(rows, e)
  {
    if Offers(rows, e) {
      var row :| row in rows && e in Edges(row);
      var i :| 0 <= i < |rows| && rows[i] == row;
      assert e in Edges(rows[i]);
    }
  }

  lemma CollectOffers<A>(xs: seq<A>, f: A -> seq<Row>, e: Edge)
    ensures Offers(CollectAll(xs, f), e) <==> exists i :: 0 <= i < |xs| && Offers(f(xs[i]), e)
  {
    CollectMembers(xs, f, |xs|);
    if exists i :: 0 <= i < |xs| && Offers(f(xs[i]), e) {
      var i :| 0 <= i < |xs| && Offers(f(xs[i]), e);
      var row :| row in f(xs[i]) && e in Edges(row);
      assert row in CollectAll(xs, f);
    }
  }

  lemma ArtistsOffered(r: ReleaseRecord, e: Edge)
    requires Owns(Artists, r.id, e)
    ensures Offers(CollectAll(r.artists, ArtistRow(r.id)), e) <==> Asserts(Artists, r, e)
  {
    CollectOffers(r.artists, ArtistRow(r.id), e);
    forall i | 0 <= i < |r.artists|
      ensures Offers(ArtistRow(r.id)(r.artists[i]), e) <==> r.artists[i].id != "" && e == By(r.id, r.artists[i].id)
    {
      if r.artists[i].id != "" { OfferOne(ArtistRow(r.id)(r.artists[i]), e); }
    }
  }

  lemma LabelsOffered(r: ReleaseRecord, e: Edge)
    requires Owns(Labels, r.id, e)
    ensures Offers(CollectAll(r.labels, LabelRow(r.id)), e) <==> Asserts(Labels, r, e)
  {
    CollectOffers(r.labels, LabelRow(r.id), e);
    forall i | 0 <= i < |r.labels|
      ensures Offers(LabelRow(r.id)(r.labels[i]), e) <==> r.labels[i].id != "" && e == On(r.id, r.labels[i].id)
    {
      if r.labels[i].id != "" { OfferOne(LabelRow(r.id)(r.labels[i]), e); }
    }
  }

  /** A list of one row offers exactly that row's edges. */
  lemma OfferOne(rows: seq<Row>, e: Edge)
    requires |rows| == 1
    ensures Offers(rows, e) <==> e in Edges(rows[0])
  {
    assert rows[0] in rows;
  }

  lemma GenresOffered(r: ReleaseRecord, batched: bool, e: Edge)
    requires Owns(Genres, r.id, e) && (batched || "" !in r.genres)
    ensures Offers(CollectAll(r.genres, GenreRow(r.id, batched)), e) <==> Asserts(Genres, r, e)
  {
    CollectOffers(r.genres, GenreRow(r.id, batched), e);
    forall i | 0 <= i < |r.genres|
      ensures Offers(GenreRow(r.id, batched)(r.genres[i]), e) <==> r.genres[i] != "" && e == IsGenre(r.id, r.genres[i])
    {
      if r.genres[i] != "" { OfferOne(GenreRow(r.id, batched)(r.genres[i]), e); }
    }
  }

  lemma StylesOffered(r: ReleaseRecord, batched: bool, e: Edge)
    requires Owns(Styles, r.id, e) && (batched || "" !in r.styles)
    ensures Offers(CollectAll(r.styles, StyleRow(r.id, batched)), e) <==> Asserts(Styles, r, e)
  {
    CollectOffers(r.styles, StyleRow(r.id, batched), e);
    forall i | 0 <= i < |r.styles|
      ensures Offers(StyleRow(r.id, batched)(r.styles[i]), e) <==> r.styles[i] != "" && e == IsStyle(r.id, r.styles[i])
    {
      if r.styles[i] != "" { OfferOne(StyleRow(r.id, batched)(r.styles[i]), e); }
    }
  }

  lemma MediaOffered(r: ReleaseRecord, e: Edge)
    requires Owns(Media, r.id, e)
    ensures Offers(CollectAll(r.media, MediumRow(r.id)), e) <==> Asserts(Media, r, e)
  {
    CollectOffers(r.media, MediumRow(r.id), e);
    forall i | 0 <= i < |r.media|
      ensures Offers(MediumRow(r.id)(r.media[i]), e) <==> e == IssuedOn(r.id, r.media[i].medium, SOURCE)
    {
      OfferOne(MediumRow(r.id)(r.media[i]), e);
    }
  }

  lemma CompaniesOffered(r: ReleaseRecord, e: Edge)
    requires Owns(Companies, r.id, e) && r.companies.Some?
    ensures Offers(CollectAll(r.companies.value, CompanyCredit(r.id)), e) <==> Asserts(Companies, r, e)
  {
    var rows := r.companies.value;
    CollectOffers(rows, CompanyCredit(r.id), e);
    forall i | 0 <= i < |rows|
      ensures Offers(CompanyCredit(r.id)(rows[i]), e) <==> e == CreditedTo(r.id, rows[i].id, rows[i].role, SOURCE)
    {
      OfferOne(CompanyCredit(r.id)(rows[i]), e);
    }
  }

  lemma CreditsOffered(r: ReleaseRecord, e: Edge)
    requires Owns(Credits, r.id, e)
    ensures Offers(CollectAll(r.credits, PersonCredit(r.id)), e) <==> Asserts(Credits, r, e)
  {
    CollectOffers(r.credits, PersonCredit(r.id), e);
    forall i | 0 <= i < |r.credits|
      ensures Offers(PersonCredit(r.id)(r.credits[i]), e) <==> e == CreditedOn(r.credits[i].name, r.id, r.credits[i].role)
    {
      OfferOne(PersonCredit(r.id)(r.credits[i]), e);
    }
  }

  lemma MasterOffered(r: ReleaseRecord, e: Edge)
    requires Owns(Masters, r.id, e)
    ensures Offers(MasterRows(r), e) <==> Asserts(Masters, r, e)
  {
    if r.master.Some? { OfferOne(MasterRows(r), e); }
  }

  /** Of the edges a release owns, its statements merge exactly the ones its record asserts. */
  lemma OwnedMentionedIff(p: Part, r: ReleaseRecord, batched: bool, e: Edge)
    requires Owns(p, r.id, e) && (batched || NamedTaxonomy(r))
    ensures Mentions(RowsOf(p, r, batched), e) <==> Asserts(p, r, e)
  {
    OffersIsMentions(RowsOf(p, r, batched), e);
    match p
    case Artists => ArtistsOffered(r, e);
    case Labels => LabelsOffered(r, e);
    case Masters => MasterOffered(r, e);
    case Genres => GenresOffered(r, batched, e);
    case Styles => StylesOffered(r, batched, e);
    case Media => MediaOffered(r, e);
    case Companies => if r.companies.Some? { CompaniesOffered(r, e); }
    case Credits => CreditsOffered(r, e);
  }

  /** An edge some other release's rows mention is not owned by this release. */
  lemma MentionedMeansOwner(p: Part, r: ReleaseRecord, batched: bool, owner: string, e: Edge)
    requires Mentions(RowsOf(p, r, batched), e) && Owns(p, owner, e)
    ensures r.id == owner
  {
    RowsFit(p, r, batched);
    OffersIsMentions(RowsOf(p, r, batched), e);
    var row :| row in RowsOf(p, r, batched) && e in Edges(row);
    assert RowFits(p, r.id, row);
  }
}
