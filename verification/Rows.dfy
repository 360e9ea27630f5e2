/** The row builders of a release: media with their quantities summed, companies once per
    credit, and person credits with usable names. */
module Rows {
  import opened Common
  import opened Records
  import opened PersonNames

  // ---------------------------------------------------------------- first occurrences

  predicate SeenBy<K(==)>(keys: seq<Option<K>>, k: nat, key: K)
    requires k <= |keys|
  {
    exists j :: 0 <= j < k && keys[j] == Some(key)
  }

  /** The positions where a key is first seen, in order. */
  function Firsts<K(==)>(keys: seq<Option<K>>, k: nat): (f: seq<nat>)
    requires k <= |keys|
    ensures forall r :: 0 <= r < |f| ==> f[r] < k && keys[f[r]].Some?
  {
    if k == 0 then []
    else if keys[k - 1].Some? && !SeenBy(keys, k - 1, keys[k - 1].value) then Firsts(keys, k - 1) + [k - 1]
    else Firsts(keys, k - 1)
  }

  /** Ascending positions, each the first of its key, no key at two of them. */
  lemma {:induction false} FirstsAreFirst<K>(keys: seq<Option<K>>, k: nat)
    requires k <= |keys|
    ensures forall r :: 0 <= r < |Firsts(keys, k)| ==> !SeenBy(keys, Firsts(keys, k)[r], keys[Firsts(keys, k)[r]].value)
    ensures forall r, q :: 0 <= r < q < |Firsts(keys, k)| ==>
      Firsts(keys, k)[r] < Firsts(keys, k)[q] && keys[Firsts(keys, k)[r]] != keys[Firsts(keys, k)[q]]
  {
    if k > 0 { FirstsAreFirst(keys, k - 1); }
  }

  /** The position of a key, among the first ones. */
  ghost predicate Placed<K>(keys: seq<Option<K>>, f: seq<nat>, r: int, key: K) {
    0 <= r < |f| && f[r] < |keys| && keys[f[r]] == Some(key)
  }

  /** Every key seen has a position, and only those. */
  lemma {:induction false} FirstsCover<K>(keys: seq<Option<K>>, k: nat, key: K)
    requires k <= |keys|
    ensures SeenBy(keys, k, key) <==> exists r :: Placed(keys, Firsts(keys, k), r, key)
  {
    if k > 0 {
      FirstsCover(keys, k - 1, key);
      var before, f := Firsts(keys, k - 1), Firsts(keys, k);
      if r :| Placed(keys, before, r, key) { assert Placed(keys, f, r, key); }
      if keys[k - 1] == Some(key) && !SeenBy(keys, k - 1, key) { assert Placed(keys, f, |before|, key); }
      if r :| Placed(keys, f, r, key) { assert keys[f[r]] == Some(key) && f[r] < k; }
    }
  }

  function Keys<T, K>(items: seq<T>, key: T -> Option<K>): (keys: seq<Option<K>>)
    ensures |keys| == |items|
  {
    seq(|items|, i requires 0 <= i < |items| => key(items[i]))
  }

  /** One row per key, made from its first item. */
  function FirstRows<T, K(==), R>(items: seq<T>, key: T -> Option<K>, row: T -> R, k: nat): seq<R>
    requires k <= |items|
  {
    var f := Firsts(Keys(items, key), k);
    seq(|f|, r requires 0 <= r < |f| => row(items[f[r]]))
  }

  lemma OneMoreItem<T, K, R>(items: seq<T>, key: T -> Option<K>, row: T -> R, k: nat)
    requires k < |items|
    ensures FirstRows(items, key, row, k + 1) == FirstRows(items, key, row, k)
      + if key(items[k]).Some? && !SeenBy(Keys(items, key), k, key(items[k]).value) then [row(items[k])] else []
    ensures forall x: K :: SeenBy(Keys(items, key), k + 1, x) <==> SeenBy(Keys(items, key), k, x) || key(items[k]) == Some(x)
  {
  }

  /** The loop that fills a dictionary and never overwrites an entry. */
  method FirstOfEachKey<T, K(==), R>(items: seq<T>, key: T -> Option<K>, row: T -> R) returns (rows: seq<R>)
    ensures rows == FirstRows(items, key, row, |items|)
  {
    rows := [];
    var keys: set<K> := {};
    for k := 0 to |items|
      invariant rows == FirstRows(items, key, row, k)
      invariant forall x :: x in keys <==> SeenBy(Keys(items, key), k, x)
    {
      OneMoreItem(items, key, row, k);
      var x := key(items[k]);
      assert x.Some? ==> (x.value in keys <==> SeenBy(Keys(items, key), k, x.value));
      if x.Some? && x.value !in keys {
        keys := keys + {x.value};
        rows := rows + [row(items[k])];
      }
    }
  }

  // ---------------------------------------------------------------- issued_on_rows

  /** An entry of the media block; an entry that is not an object carries nothing. */
  datatype MediaItem = NotAMedium | MediaItem(medium: Value, family: Value, qty: Value)

  predicate Named(v: Value) {
    v.Str? && v.s != ""
  }

  function MediumKey(x: MediaItem): Option<string> {
    if x.MediaItem? && Named(x.medium) && Named(x.family) then Some(x.medium.s) else None
  }

  function MediumKeys(items: seq<MediaItem>): (keys: seq<Option<string>>)
    ensures |keys| == |items|
  {
    Keys(items, MediumKey)
  }

  /** An absent, boolean, non-integer or non-positive quantity counts as one. */
  function Quantity(x: MediaItem): (q: int)
    ensures q >= 1
  {
    if x.MediaItem? && x.qty.Int? && x.qty.n >= 1 then x.qty.n else 1
  }

  /** The units of a medium over the first k entries. */
  function Units(items: seq<MediaItem>, k: nat, medium: string): int
    requires k <= |items|
  {
    if k == 0 then 0 else Units(items, k - 1, medium) + if MediumKey(items[k - 1]) == Some(medium) then Quantity(items[k - 1]) else 0
  }

  /** The row of the medium first seen at i: that entry's family, and all the units so far. */
  function MediaRowAt(items: seq<MediaItem>, k: nat, caption: string -> string, i: nat): MediaRow
    requires i < k <= |items| && MediumKey(items[i]).Some?
  {
    var medium := items[i].medium.s;
    MediaRow(medium, items[i].family.s, caption(medium), Units(items, k, medium))
  }

  function MediaRows(items: seq<MediaItem>, k: nat, caption: string -> string): seq<MediaRow>
    requires k <= |items|
  {
    var f := Firsts(MediumKeys(items), k);
    seq(|f|, r requires 0 <= r < |f| => MediaRowAt(items, k, caption, f[r]))
  }

  lemma {:induction false} NoUnits(items: seq<MediaItem>, k: nat, medium: string)
    requires k <= |items|
    ensures Units(items, k, medium) >= 0
    ensures Units(items, k, medium) == 0 <==> !SeenBy(MediumKeys(items), k, medium)
  {
    if k > 0 {
      NoUnits(items, k - 1, medium);
      OneMoreItem(items, MediumKey, MediumKey, k - 1);
    }
  }

  /** The entry counts towards the medium, and how many units it states: a whole number of at least
      one, anything else reading as one. */
  predicate EntryFor(x: MediaItem, medium: string) {
    x.MediaItem? && x.medium == Str(medium) && medium != "" && x.family.Str? && x.family.s != ""
  }

  function StatedUnits(x: MediaItem): int {
    if x.MediaItem? && x.qty.Int? && x.qty.n >= 1 then x.qty.n else 1
  }

  /** The units of a medium, one by one: the u-th unit of the i-th entry. */
  function UnitSet(items: seq<MediaItem>, k: nat, medium: string): set<(int, int)>
    requires k <= |items|
  {
    set i, u | 0 <= i < k && EntryFor(items[i], medium) && 0 <= u < StatedUnits(items[i]) :: (i, u)
  }

  function UnitsOfEntry(i: int, q: int): set<(int, int)> {
    set u | 0 <= u < q :: (i, u)
  }

  lemma {:induction false} EntryUnits(i: int, q: nat)
    ensures |UnitsOfEntry(i, q)| == q
  {
    if q == 0 {
      assert UnitsOfEntry(i, 0) == {};
    } else {
      EntryUnits(i, q - 1);
      assert UnitsOfEntry(i, q) == UnitsOfEntry(i, q - 1) + {(i, q - 1)};
    }
  }

  lemma OneMoreEntry(items: seq<MediaItem>, k: nat, medium: string)
    requires 0 < k <= |items|
    ensures UnitSet(items, k, medium) == UnitSet(items, k - 1, medium)
      + if EntryFor(items[k - 1], medium) then UnitsOfEntry(k - 1, StatedUnits(items[k - 1])) else {}
    ensures UnitSet(items, k - 1, medium) !! UnitsOfEntry(k - 1, StatedUnits(items[k - 1]))
  {
  }

  /** A row's quantity counts every unit any of its entries states. */
  lemma {:induction false} UnitsAreCounted(items: seq<MediaItem>, k: nat, medium: string)
    requires k <= |items|
    ensures Units(items, k, medium) == |UnitSet(items, k, medium)|
  {
    if k == 0 {
      assert UnitSet(items, 0, medium) == {};
    } else {
      UnitsAreCounted(items, k - 1, medium);
      UnitsStep(items, k, medium);
      OneMoreEntry(items, k, medium);
      EntryUnits(k - 1, StatedUnits(items[k - 1]));
      JoinedSize(UnitSet(items, k - 1, medium), UnitsOfEntry(k - 1, StatedUnits(items[k - 1])));
    }
  }

  lemma UnitsStep(items: seq<MediaItem>, k: nat, medium: string)
    requires 0 < k <= |items|
    ensures Units(items, k, medium) == Units(items, k - 1, medium) + if EntryFor(items[k - 1], medium) then StatedUnits(items[k - 1]) else 0
  {
  }

  lemma JoinedSize(a: set<(int, int)>, b: set<(int, int)>)
    requires a !! b
    ensures |a + b| == |a| + |b| && a + {} == a
  {
  }

  lemma MediaRowIsPlaced(items: seq<MediaItem>, k: nat, caption: string -> string, r: nat)
    requires k <= |items| && r < |MediaRows(items, k, caption)|
    ensures Placed(MediumKeys(items), Firsts(MediumKeys(items), k), r, MediaRows(items, k, caption)[r].medium)
    ensures MediaRows(items, k, caption)[r].qty == Units(items, k, MediaRows(items, k, caption)[r].medium)
  {
  }

  /** No two rows of one medium, and each row holds all its medium's units, at least one. */
  lemma MediaRowsAreDistinct(items: seq<MediaItem>, caption: string -> string, rows: seq<MediaRow>, r: nat)
    requires rows == MediaRows(items, |items|, caption) && r < |rows|
    ensures rows[r].qty == Units(items, |items|, rows[r].medium) >= 1
    ensures forall q :: 0 <= q < |rows| && q != r ==> rows[q].medium != rows[r].medium
  {
    MediaRowIsPlaced(items, |items|, caption, r);
    FirstsCover(MediumKeys(items), |items|, rows[r].medium);
    NoUnits(items, |items|, rows[r].medium);
    FirstsAreFirst(MediumKeys(items), |items|);
    forall q: nat | q < |rows| && q != r ensures rows[q].medium != rows[r].medium {
      MediaRowIsPlaced(items, |items|, caption, q);
    }
  }

  /** Each row takes its family from the first entry of its medium and its label from the id, and
      the rows stand in the order of those entries. */
  lemma MediaRowsFollowFirstEntries(items: seq<MediaItem>, caption: string -> string, rows: seq<MediaRow>) returns (at: seq<nat>)
    requires rows == MediaRows(items, |items|, caption)
    ensures |at| == |rows| && forall r, q :: 0 <= r < q < |at| ==> at[r] < at[q]
    ensures forall r :: 0 <= r < |at| ==> at[r] < |items| && EntryOf(items[at[r]], rows[r], caption)
    ensures forall r :: 0 <= r < |at| ==> !SeenBy(MediumKeys(items), at[r], rows[r].medium)
  {
    at := Firsts(MediumKeys(items), |items|);
    FirstsAreFirst(MediumKeys(items), |items|);
    forall r: nat | r < |rows| ensures EntryOf(items[at[r]], rows[r], caption) && MediumKeys(items)[at[r]] == Some(rows[r].medium) {
      MediaRowIsPlaced(items, |items|, caption, r);
      assert rows[r] == MediaRowAt(items, |items|, caption, at[r]);
    }
  }

  predicate EntryOf(x: MediaItem, row: MediaRow, caption: string -> string) {
    && x.MediaItem? && Named(x.medium) && Named(x.family)
    && row.medium == x.medium.s && row.family == x.family.s && row.caption == caption(x.medium.s)
  }

  /** A medium has a row iff some usable entry names it. */
  lemma MediaRowsCover(items: seq<MediaItem>, caption: string -> string, rows: seq<MediaRow>, medium: string)
    requires rows == MediaRows(items, |items|, caption)
    ensures SeenBy(MediumKeys(items), |items|, medium) <==> exists r :: 0 <= r < |rows| && rows[r].medium == medium
  {
    var keys := MediumKeys(items);
    FirstsCover(keys, |items|, medium);
    if r :| Placed(keys, Firsts(keys, |items|), r, medium) {
      MediaRowIsPlaced(items, |items|, caption, r);
      assert rows[r].medium == medium;
    }
    if r :| 0 <= r < |rows| && rows[r].medium == medium {
      MediaRowIsPlaced(items, |items|, caption, r);
    }
  }

  ghost predicate RowFor(rows: seq<MediaRow>, at: int, medium: string) {
    0 <= at < |rows| && rows[at].medium == medium
  }

  /** The rows after one more entry. */
  lemma OneMoreMedium(items: seq<MediaItem>, k: nat, caption: string -> string, at: int, rows: seq<MediaRow>)
    requires k < |items| && rows == MediaRows(items, k, caption)
    requires MediumKey(items[k]).Some? && SeenBy(MediumKeys(items), k, items[k].medium.s) ==> RowFor(rows, at, items[k].medium.s)
    ensures MediaRows(items, k + 1, caption) ==
      if MediumKey(items[k]).None? then rows
      else if SeenBy(MediumKeys(items), k, items[k].medium.s) then rows[at := rows[at].(qty := rows[at].qty + Quantity(items[k]))]
      else rows + [MediaRow(items[k].medium.s, items[k].family.s, caption(items[k].medium.s), Quantity(items[k]))]
  {
    FirstsAreFirst(MediumKeys(items), k);
    forall r: nat | r < |rows| ensures Placed(MediumKeys(items), Firsts(MediumKeys(items), k), r, rows[r].medium) {
      MediaRowIsPlaced(items, k, caption, r);
    }
    if MediumKey(items[k]).Some? { NoUnits(items, k, items[k].medium.s); }
  }

  /** The dictionary of rows: each medium seen so far has its row's position. */
  ghost predicate Indexed(items: seq<MediaItem>, k: nat, rows: seq<MediaRow>, position: map<string, int>)
    requires k <= |items|
  {
    forall m :: (m in position <==> SeenBy(MediumKeys(items), k, m)) && (m in position ==> RowFor(rows, position[m], m))
  }

  lemma IndexGrows(items: seq<MediaItem>, k: nat, rows: seq<MediaRow>, position: map<string, int>, rows': seq<MediaRow>, position': map<string, int>)
    requires k < |items| && Indexed(items, k, rows, position)
    requires |rows| <= |rows'| && forall r :: 0 <= r < |rows| ==> rows'[r].medium == rows[r].medium
    requires MediumKey(items[k]).None? || MediumKey(items[k]).value in position ==> position' == position
    requires MediumKey(items[k]).Some? && MediumKey(items[k]).value !in position ==>
      position' == position[MediumKey(items[k]).value := |rows|] && RowFor(rows', |rows|, MediumKey(items[k]).value)
    ensures Indexed(items, k + 1, rows', position')
  {
    OneMoreItem(items, MediumKey, MediumKey, k);
    forall m ensures (m in position' <==> SeenBy(MediumKeys(items), k + 1, m)) && (m in position' ==> RowFor(rows', position'[m], m)) {
      assert m in position ==> RowFor(rows, position[m], m);
    }
  }

  lemma MoreUnits(items: seq<MediaItem>, k: nat, caption: string -> string, rows: seq<MediaRow>, position: map<string, int>, rows': seq<MediaRow>)
    requires k < |items| && rows == MediaRows(items, k, caption) && Indexed(items, k, rows, position)
    requires MediumKey(items[k]).Some? && items[k].medium.s in position
    requires var p := position[items[k].medium.s]; 0 <= p < |rows| && rows' == rows[p := rows[p].(qty := rows[p].qty + Quantity(items[k]))]
    ensures rows' == MediaRows(items, k + 1, caption) && Indexed(items, k + 1, rows', position)
  {
    OneMoreMedium(items, k, caption, position[items[k].medium.s], rows);
    IndexGrows(items, k, rows, position, rows', position);
  }

  lemma NewMedium(items: seq<MediaItem>, k: nat, caption: string -> string, rows: seq<MediaRow>, position: map<string, int>, row: MediaRow)
    requires k < |items| && rows == MediaRows(items, k, caption) && Indexed(items, k, rows, position)
    requires MediumKey(items[k]).Some? && items[k].medium.s !in position
    requires row == MediaRow(items[k].medium.s, items[k].family.s, caption(items[k].medium.s), Quantity(items[k]))
    ensures rows + [row] == MediaRows(items, k + 1, caption)
    ensures Indexed(items, k + 1, rows + [row], position[items[k].medium.s := |rows|])
  {
    OneMoreMedium(items, k, caption, -1, rows);
    IndexGrows(items, k, rows, position, rows + [row], position[items[k].medium.s := |rows|]);
  }

  lemma NoMedium(items: seq<MediaItem>, k: nat, caption: string -> string, rows: seq<MediaRow>, position: map<string, int>)
    requires k < |items| && rows == MediaRows(items, k, caption) && Indexed(items, k, rows, position) && MediumKey(items[k]).None?
    ensures rows == MediaRows(items, k + 1, caption) && Indexed(items, k + 1, rows, position)
  {
    OneMoreMedium(items, k, caption, -1, rows);
    IndexGrows(items, k, rows, position, rows, position);
  }

  /** The dictionary after one more entry. */
  method AddMedium(x: MediaItem, caption: string -> string, rows: seq<MediaRow>, position: map<string, int>,
                   ghost items: seq<MediaItem>, ghost k: nat)
    returns (rows': seq<MediaRow>, position': map<string, int>)
    requires k < |items| && x == items[k] && rows == MediaRows(items, k, caption) && Indexed(items, k, rows, position)
    ensures rows' == MediaRows(items, k + 1, caption) && Indexed(items, k + 1, rows', position')
  {
    rows', position' := rows, position;
    if MediumKey(x).None? {
      NoMedium(items, k, caption, rows, position);
      return;
    }
    var medium := x.medium.s;
    if medium in position {
      var p := position[medium];
      assert RowFor(rows, p, medium);
      rows' := rows[p := rows[p].(qty := rows[p].qty + Quantity(x))];
      MoreUnits(items, k, caption, rows, position, rows');
    } else {
      var row := MediaRow(medium, x.family.s, caption(medium), Quantity(x));
      NewMedium(items, k, caption, rows, position, row);
      rows', position' := rows + [row], position[medium := |rows|];
    }
  }

  method IssuedOnRows(items: seq<MediaItem>, caption: string -> string) returns (rows: seq<MediaRow>)
    ensures rows == MediaRows(items, |items|, caption)
  {
    rows := [];
    var position: map<string, int> := map[];
    for k := 0 to |items|
      invariant rows == MediaRows(items, k, caption) && Indexed(items, k, rows, position)
    {
      rows, position := AddMedium(items[k], caption, rows, position, items, k);
    }
  }

  // ---------------------------------------------------------------- credited_to_rows

  /** An entry of the companies block. */
  datatype CompanyItem = NotACompany | CompanyItem(id: Value, name: Value, role: Value, category: Value)

  /** The text rules that depend on Unicode tables: which texts are whole numbers of at least
      one, and how a company name is folded. */
  datatype TextRules = TextRules(wholeNumber: string -> bool, fold: string -> string)

  const DERIVED_ID_PREFIX := "name:"
  const UNMAPPED_ROLE_CATEGORY := "other"

  function DiscogsId(v: Value, rules: TextRules): Option<string> {
    match v
    case Int(n) => if n >= 1 then Some(NatText(n)) else None
    case Str(s) => if rules.wholeNumber(Strip(s)) then Some(Strip(s)) else None
    case _ => None
  }

  function CompanyIdentity(x: CompanyItem, rules: TextRules): Option<string> {
    if x.NotACompany? then None
    else if DiscogsId(x.id, rules).Some? then DiscogsId(x.id, rules)
    else if Text(x.name).Some? then Some(DERIVED_ID_PREFIX + rules.fold(Text(x.name).value)) else None
  }

  /** Whole numbers are written in digits, and the text of one is recognised. */
  ghost predicate Sound(rules: TextRules) {
    && (forall s :: rules.wholeNumber(s) ==> s != "" && s[0] != 'n')
    && (forall n: nat :: rules.wholeNumber(NatText(n)) <==> n >= 1)
  }

  /** A number and its text give one id. */
  lemma NumberAndTextAreOneId(x: CompanyItem, n: nat, rules: TextRules)
    requires x.CompanyItem? && Sound(rules)
    ensures CompanyIdentity(x.(id := Int(n)), rules) == CompanyIdentity(x.(id := Str(NatText(n))), rules)
  {
    StripKeepsTrimmed(NatText(n));
  }

  lemma DerivedIdStarts(name: string)
    ensures (DERIVED_ID_PREFIX + name)[0] == 'n' && (DERIVED_ID_PREFIX + name)[5..] == name
  {
  }

  lemma DiscogsIdStarts(v: Value, rules: TextRules)
    requires Sound(rules) && DiscogsId(v, rules).Some?
    ensures DiscogsId(v, rules).value != "" && DiscogsId(v, rules).value[0] != 'n'
  {
    if v.Int? { assert rules.wholeNumber(NatText(v.n)); }
  }

  /** A derived id never meets a Discogs id; two entries without an id meet exactly when their
      folded names do. */
  lemma DerivedIdsAreApart(x: CompanyItem, y: CompanyItem, rules: TextRules)
    requires x.CompanyItem? && y.CompanyItem? && Sound(rules) && DiscogsId(y.id, rules).None? && Text(y.name).Some?
    ensures DiscogsId(x.id, rules).Some? ==> CompanyIdentity(x, rules) != CompanyIdentity(y, rules)
    ensures DiscogsId(x.id, rules).None? && Text(x.name).Some? ==>
      (CompanyIdentity(x, rules) == CompanyIdentity(y, rules) <==> rules.fold(Text(x.name).value) == rules.fold(Text(y.name).value))
  {
    DerivedIdStarts(rules.fold(Text(y.name).value));
    if DiscogsId(x.id, rules).Some? { DiscogsIdStarts(x.id, rules); }
    else if Text(x.name).Some? { DerivedIdStarts(rules.fold(Text(x.name).value)); }
  }

  /** An entry with no usable identity or no role has no key and yields no row. */
  function CreditKey(x: CompanyItem, rules: TextRules): Option<(string, string)> {
    if x.CompanyItem? && Text(x.role).Some? && CompanyIdentity(x, rules).Some?
    then Some((CompanyIdentity(x, rules).value, Text(x.role).value)) else None
  }

  function OrElse(t: Option<string>, other: string): string {
    if t.Some? then t.value else other
  }

  function CompanyRowOf(x: CompanyItem, rules: TextRules): CompanyRow {
    var id := OrElse(CompanyIdentity(x, rules), "");
    if x.NotACompany? then CompanyRow(id, id, "", UNMAPPED_ROLE_CATEGORY)
    else CompanyRow(id, OrElse(Text(x.name), id), OrElse(Text(x.role), ""), OrElse(Text(x.category), UNMAPPED_ROLE_CATEGORY))
  }

  function CreditKeyBy(rules: TextRules): CompanyItem -> Option<(string, string)> {
    (x: CompanyItem) => CreditKey(x, rules)
  }

  function CompanyRowBy(rules: TextRules): CompanyItem -> CompanyRow {
    (x: CompanyItem) => CompanyRowOf(x, rules)
  }

  function CompanyRows(items: seq<CompanyItem>, rules: TextRules, k: nat): seq<CompanyRow>
    requires k <= |items|
  {
    FirstRows(items, CreditKeyBy(rules), CompanyRowBy(rules), k)
  }

  function KeyOf(row: CompanyRow): (string, string) { (row.id, row.role) }

  lemma RowKeepsKey(x: CompanyItem, rules: TextRules)
    requires CreditKey(x, rules).Some?
    ensures CreditKey(x, rules) == Some(KeyOf(CompanyRowOf(x, rules)))
  {
  }

  lemma CompanyRowIsPlaced(items: seq<CompanyItem>, rules: TextRules, k: nat, r: nat)
    requires k <= |items| && r < |CompanyRows(items, rules, k)|
    ensures Placed(Keys(items, CreditKeyBy(rules)), Firsts(Keys(items, CreditKeyBy(rules)), k), r, KeyOf(CompanyRows(items, rules, k)[r]))
  {
    RowKeepsKey(items[Firsts(Keys(items, CreditKeyBy(rules)), k)[r]], rules);
  }

  /** One row per distinct (company, role), and a row for it iff a usable entry gives it. */
  lemma CompanyRowsAreDistinct(items: seq<CompanyItem>, rules: TextRules, rows: seq<CompanyRow>, key: (string, string))
    requires rows == CompanyRows(items, rules, |items|)
    ensures SeenBy(Keys(items, CreditKeyBy(rules)), |items|, key) <==> exists r :: 0 <= r < |rows| && KeyOf(rows[r]) == key
    ensures forall r, q :: 0 <= r < q < |rows| && KeyOf(rows[r]) == key ==> KeyOf(rows[q]) != key
  {
    var keys := Keys(items, CreditKeyBy(rules));
    forall r: nat | r < |rows| ensures Placed(keys, Firsts(keys, |items|), r, KeyOf(rows[r])) {
      CompanyRowIsPlaced(items, rules, |items|, r);
    }
    FirstsCover(keys, |items|, key);
    FirstsAreFirst(keys, |items|);
    if r :| Placed(keys, Firsts(keys, |items|), r, key) { assert KeyOf(rows[r]) == key; }
  }

  /** The trimmed text of a value, blank when it is none. */
  function Trimmed(v: Value): string {
    if v.Str? then Strip(v.s) else ""
  }

  /** The entry states a Discogs id: a positive number, or text that reads as one. */
  predicate StatesId(x: CompanyItem, rules: TextRules) {
    x.CompanyItem? && ((x.id.Int? && x.id.n >= 1) || (x.id.Str? && rules.wholeNumber(Strip(x.id.s))))
  }

  /** The id the entry's company has: the decimal text of its number, the trimmed text, or for an
      entry without one "name:" and its folded name. */
  ghost predicate IdOf(x: CompanyItem, rules: TextRules, id: string) {
    if x.CompanyItem? && x.id.Int? && x.id.n >= 1 then DecimalOf(id, x.id.n)
    else if StatesId(x, rules) then id == Trimmed(x.id)
    else x.CompanyItem? && Trimmed(x.name) != "" && id == "name:" + rules.fold(Trimmed(x.name))
  }

  /** An entry is credited iff it has a role, and a Discogs id or a name. */
  predicate Credited(x: CompanyItem, rules: TextRules) {
    x.CompanyItem? && Trimmed(x.role) != "" && (StatesId(x, rules) || Trimmed(x.name) != "")
  }

  /** The row of an entry, in the entry's own fields. */
  ghost predicate RowOfEntry(x: CompanyItem, rules: TextRules, row: CompanyRow) {
    && Credited(x, rules) && IdOf(x, rules, row.id)
    && row.role == Trimmed(x.role)
    && row.name == (if Trimmed(x.name) != "" then Trimmed(x.name) else row.id)
    && row.category == (if Trimmed(x.category) != "" then Trimmed(x.category) else "other")
  }

  lemma IdentityIs(x: CompanyItem, rules: TextRules)
    ensures CompanyIdentity(x, rules).Some? <==> x.CompanyItem? && (StatesId(x, rules) || Trimmed(x.name) != "")
    ensures CompanyIdentity(x, rules).Some? ==> IdOf(x, rules, CompanyIdentity(x, rules).value)
  {
    if x.CompanyItem? && x.id.Int? && x.id.n >= 1 { NatTextIsDecimal(x.id.n); }
  }

  lemma EntryRow(x: CompanyItem, rules: TextRules)
    ensures CreditKey(x, rules).Some? <==> Credited(x, rules)
    ensures CreditKey(x, rules).Some? ==> RowOfEntry(x, rules, CompanyRowOf(x, rules))
  {
    IdentityIs(x, rules);
  }

  /** Entries with different numbers, or with different roles, have different keys. */
  lemma DifferentIdsDifferentKeys(x: CompanyItem, y: CompanyItem, rules: TextRules)
    requires Credited(x, rules) && Credited(y, rules) && x.id.Int? && y.id.Int? && x.id.n >= 1 && y.id.n >= 1
    requires x.id.n != y.id.n || Trimmed(x.role) != Trimmed(y.role)
    ensures CreditKey(x, rules) != CreditKey(y, rules)
  {
    EntryRow(x, rules);
    EntryRow(y, rules);
  }

  /** Two credited entries with different positive ids never share a row: each has a row of its own
      with the decimal text of its id. */
  lemma DifferentCompaniesKeepTheirRows(items: seq<CompanyItem>, rules: TextRules, rows: seq<CompanyRow>, i: nat, j: nat)
    returns (r: nat, q: nat)
    requires rows == CompanyRows(items, rules, |items|) && i < |items| && j < |items|
    requires Credited(items[i], rules) && Credited(items[j], rules)
    requires items[i].id.Int? && items[j].id.Int? && items[i].id.n >= 1 && items[j].id.n >= 1 && items[i].id.n != items[j].id.n
    ensures r < |rows| && q < |rows| && r != q
    ensures DecimalOf(rows[r].id, items[i].id.n) && DecimalOf(rows[q].id, items[j].id.n)
    ensures rows[r].role == Trimmed(items[i].role) && rows[q].role == Trimmed(items[j].role)
  {
    r := RowOfCredited(items, rules, rows, i);
    q := RowOfCredited(items, rules, rows, j);
  }

  /** Every credited entry has a row with its id and its role. */
  lemma RowOfCredited(items: seq<CompanyItem>, rules: TextRules, rows: seq<CompanyRow>, i: nat) returns (r: nat)
    requires rows == CompanyRows(items, rules, |items|) && i < |items| && Credited(items[i], rules)
    ensures r < |rows| && IdOf(items[i], rules, rows[r].id) && rows[r].role == Trimmed(items[i].role)
  {
    EntryRow(items[i], rules);
    var key := KeyOf(CompanyRowOf(items[i], rules));
    RowKeepsKey(items[i], rules);
    var keys := Keys(items, CreditKeyBy(rules));
    assert keys[i] == Some(key);
    CompanyRowsAreDistinct(items, rules, rows, key);
    r :| r < |rows| && KeyOf(rows[r]) == key;
  }

  /** Each row is the first entry of its company and role, in source order: its id, its name or else
      the id, and its role category or else the unmapped one. */
  lemma CompanyRowsFollowFirstEntries(items: seq<CompanyItem>, rules: TextRules, rows: seq<CompanyRow>) returns (at: seq<nat>)
    requires rows == CompanyRows(items, rules, |items|)
    ensures |at| == |rows| && forall r, q :: 0 <= r < q < |at| ==> at[r] < at[q]
    ensures forall r :: 0 <= r < |at| ==> at[r] < |items| && RowOfEntry(items[at[r]], rules, rows[r])
    ensures forall r :: 0 <= r < |at| ==> CreditKey(items[at[r]], rules) == Some(KeyOf(rows[r])) && !SeenBy(Keys(items, CreditKeyBy(rules)), at[r], KeyOf(rows[r]))
  {
    var keys := Keys(items, CreditKeyBy(rules));
    at := Firsts(keys, |items|);
    FirstsAreFirst(keys, |items|);
    forall r: nat | r < |rows|
      ensures CreditKey(items[at[r]], rules) == Some(KeyOf(rows[r])) && keys[at[r]] == Some(KeyOf(rows[r])) && rows[r] == CompanyRowOf(items[at[r]], rules)
    {
      CompanyRowIsPlaced(items, rules, |items|, r);
    }
    forall r: nat | r < |rows| ensures RowOfEntry(items[at[r]], rules, rows[r]) { EntryRow(items[at[r]], rules); }
  }

  method CreditedToRows(items: seq<CompanyItem>, rules: TextRules) returns (rows: seq<CompanyRow>)
    ensures rows == CompanyRows(items, rules, |items|)
  {
    rows := FirstOfEachKey(items, CreditKeyBy(rules), CompanyRowBy(rules));
  }

  // ---------------------------------------------------------------- person_credit_rows

  /** A credit of a release; an absent name or role is the empty text. */
  datatype Credit = Credit(name: string, role: string, artistId: string)

  /** The shared library's rules, and the digest of long names. */
  datatype CreditRules = CreditRules(strip: string -> string, category: string -> string, digest: Digest)

  predicate UsableCredit(c: Credit, rules: CreditRules) {
    c.name != "" && c.role != "" && rules.strip(c.name) != ""
  }

  predicate PaddingOnly(c: Credit, rules: CreditRules) {
    c.name != "" && c.role != "" && rules.strip(c.name) == ""
  }

  predicate TooLong(c: Credit, rules: CreditRules) {
    UsableCredit(c, rules) && |Encode(rules.strip(c.name))| > PERSON_NAME_MAX_BYTES
  }

  function CountPadding(cs: seq<Credit>, rules: CreditRules, k: nat): nat
    requires k <= |cs|
  {
    if k == 0 then 0 else CountPadding(cs, rules, k - 1) + if PaddingOnly(cs[k - 1], rules) then 1 else 0
  }

  function CountTooLong(cs: seq<Credit>, rules: CreditRules, k: nat): nat
    requires k <= |cs|
  {
    if k == 0 then 0 else CountTooLong(cs, rules, k - 1) + if TooLong(cs[k - 1], rules) then 1 else 0
  }

  function CreditRowOf(c: Credit, rules: CreditRules): CreditRow
    requires Hex(rules.digest)
  {
    CreditRow(BoundName(rules.strip(c.name), rules.digest), c.role, rules.category(c.role), c.artistId)
  }

  function CreditRows(cs: seq<Credit>, rules: CreditRules, k: nat): seq<CreditRow>
    requires k <= |cs| && Hex(rules.digest)
  {
    if k == 0 then [] else CreditRows(cs, rules, k - 1) + if UsableCredit(cs[k - 1], rules) then [CreditRowOf(cs[k - 1], rules)] else []
  }

  method PersonCreditRows(cs: seq<Credit>, rules: CreditRules) returns (rows: seq<CreditRow>, bounded: nat, paddingOnly: nat)
    requires Hex(rules.digest)
    ensures rows == CreditRows(cs, rules, |cs|)
    ensures paddingOnly == CountPadding(cs, rules, |cs|) && bounded == CountTooLong(cs, rules, |cs|)
  {
    rows, bounded, paddingOnly := [], 0, 0;
    for k := 0 to |cs|
      invariant rows == CreditRows(cs, rules, k)
      invariant paddingOnly == CountPadding(cs, rules, k) && bounded == CountTooLong(cs, rules, k)
    {
      var c := cs[k];
      var name := rules.strip(c.name);
      if c.name != "" && c.role != "" && name == "" {
        paddingOnly := paddingOnly + 1;
      } else if c.name != "" && c.role != "" {
        BoundNameFits(name, rules.digest);
        var limited := BoundName(name, rules.digest);
        if limited != name { bounded := bounded + 1; }
        rows := rows + [CreditRow(limited, c.role, rules.category(c.role), c.artistId)];
      }
    }
  }

  /** Every usable credit has a row of its own, in order, and only those: the bounded form of its
      stripped name, its role with the role's category, and its artist. */
  lemma {:induction false} CreditRowsFollowCredits(cs: seq<Credit>, rules: CreditRules, k: nat) returns (at: seq<nat>)
    requires k <= |cs| && Hex(rules.digest)
    ensures |at| == |CreditRows(cs, rules, k)|
    ensures forall r, q :: 0 <= r < q < |at| ==> at[r] < at[q]
    ensures forall i: nat :: i in at <==> i < k && cs[i].name != "" && cs[i].role != "" && rules.strip(cs[i].name) != ""
    ensures forall r :: 0 <= r < |at| ==> at[r] < k && RowOfCredit(cs[at[r]], rules, CreditRows(cs, rules, k)[r])
  {
    if k == 0 {
      at := [];
    } else {
      at := CreditRowsFollowCredits(cs, rules, k - 1);
      if UsableCredit(cs[k - 1], rules) { at := at + [k - 1]; }
    }
  }

  predicate RowOfCredit(c: Credit, rules: CreditRules, row: CreditRow)
    requires Hex(rules.digest)
  {
    row.name == BoundName(rules.strip(c.name), rules.digest) && row.role == c.role && row.category == rules.category(c.role) && row.artistId == c.artistId
  }

  /** Every row has a name the index accepts, a role, and the category of its role. */
  lemma {:induction false} CreditRowsAreUsable(cs: seq<Credit>, rules: CreditRules, k: nat)
    requires k <= |cs| && Hex(rules.digest)
    ensures forall c :: c in CreditRows(cs, rules, k) ==>
      c.name != "" && |Encode(c.name)| <= 8000 && c.role != "" && c.category == rules.category(c.role)
  {
    if k > 0 {
      CreditRowsAreUsable(cs, rules, k - 1);
      if UsableCredit(cs[k - 1], rules) { BoundNameIsUsable(rules.strip(cs[k - 1].name), rules.digest); }
    }
  }

  lemma BoundNameIsUsable(name: string, digest: Digest)
    requires name != "" && Hex(digest)
    ensures BoundName(name, digest) != "" && |Encode(BoundName(name, digest))| <= 8000
  {
    BoundNameFits(name, digest);
    if |Encode(name)| > PERSON_NAME_MAX_BYTES {
      var m := LongNameKeepsLongestPrefix(name, digest);
      SuffixSize(name, digest);
    }
  }
}
