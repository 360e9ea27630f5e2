/** Release records as the projection receives them, and the small normalisers they go through. */
module Records {
  import opened Common

  /** A JSON scalar as far as the projection tells them apart. */
  datatype Value = Null | Bool(b: bool) | Int(n: int) | Str(s: string) | Other

  // ---------------------------------------------------------------- text

  /** The characters str.strip() removes. */
  predicate IsSpace(c: char) {
    var n := c as int;
    || 0x09 <= n <= 0x0D || 0x1C <= n <= 0x20 || n == 0x85 || n == 0xA0 || n == 0x1680 || 0x2000 <= n <= 0x200A
    || n == 0x2028 || n == 0x2029 || n == 0x202F || n == 0x205F || n == 0x3000
  }

  function TrimLeft(s: string): (t: string)
    ensures t == "" || !IsSpace(t[0])
    ensures |t| <= |s| && s[|s| - |t|..] == t
    ensures forall i :: 0 <= i < |s| - |t| ==> IsSpace(s[i])
  {
    if s != "" && IsSpace(s[0]) then
      var t := TrimLeft(s[1..]);
      assert forall i :: 1 <= i < |s| - |t| ==> s[i] == s[1..][i - 1];
      t
    else s
  }

  function TrimRight(s: string): (t: string)
    ensures t == "" || !IsSpace(t[|t| - 1])
    ensures t <= s
    ensures forall i :: |t| <= i < |s| ==> IsSpace(s[i])
  {
    if s != "" && IsSpace(s[|s| - 1]) then TrimRight(s[..|s| - 1]) else s
  }

  /** str.strip(): no space at either end, and only spaces were removed. */
  function Strip(s: string): (t: string)
    ensures t == "" || (!IsSpace(t[0]) && !IsSpace(t[|t| - 1]))
    ensures t == "" ==> forall i :: 0 <= i < |s| ==> IsSpace(s[i])
  {
    var l := TrimLeft(s);
    var t := TrimRight(l);
    assert t != "" ==> t[0] == l[0];
    t
  }

  /** Text that is already trimmed is kept as it is. */
  lemma StripKeepsTrimmed(s: string)
    requires s != "" && !IsSpace(s[0]) && !IsSpace(s[|s| - 1])
    ensures Strip(s) == s
  {
  }

  function Digit(n: nat): char
    requires n < 10
  {
    ('0' as int + n) as char
  }

  function NatText(n: nat): (s: string)
    ensures s != "" && (n > 0 ==> s[0] != '0') && (forall i :: 0 <= i < |s| ==> '0' <= s[i] <= '9')
  {
    if n < 10 then [Digit(n)] else NatText(n / 10) + [Digit(n % 10)]
  }

  function IntText(n: int): string {
    if n < 0 then "-" + NatText(-n) else NatText(n)
  }

  /** t stands in s from i on, and everything around it is space. */
  predicate TrimmedAt(s: string, t: string, i: nat) {
    i + |t| <= |s| && s[i..i + |t|] == t && forall j :: 0 <= j < |s| && !(i <= j < i + |t|) ==> IsSpace(s[j])
  }

  /** So the trimmed text is the text itself without the spaces at its ends. */
  lemma StripIsTheMiddle(s: string)
    ensures exists i: nat :: TrimmedAt(s, Strip(s), i)
  {
    var l := TrimLeft(s);
    var i: nat := |s| - |l|;
    MiddleOf(s, l, TrimRight(l), i);
    assert TrimmedAt(s, Strip(s), i);
  }

  lemma MiddleOf(s: string, l: string, t: string, i: nat)
    requires i + |l| == |s| && s[i..] == l && t <= l
    requires (forall j :: 0 <= j < i ==> IsSpace(s[j])) && forall j :: |t| <= j < |l| ==> IsSpace(l[j])
    ensures TrimmedAt(s, t, i)
  {
    forall j | i + |t| <= j < |s| ensures IsSpace(s[j]) { assert s[j] == l[j - i]; }
    forall j | 0 <= j < |t| ensures s[i + j] == t[j] { assert l[j] == t[j]; }
  }

  // ---------------------------------------------------------------- decimal texts

  function DigitsValue(s: string, k: nat): int
    requires k <= |s|
  {
    if k == 0 then 0 else 10 * DigitsValue(s, k - 1) + (s[k - 1] as int - '0' as int)
  }

  /** The usual decimal text of n: digits without a leading zero that add up to it. */
  ghost predicate DecimalOf(t: string, n: nat) {
    && t != "" && (forall i :: 0 <= i < |t| ==> '0' <= t[i] <= '9')
    && (|t| > 1 ==> t[0] != '0') && DigitsValue(t, |t|) == n
  }

  lemma {:induction false} DigitsOfPrefix(s: string, t: string, k: nat)
    requires k <= |s|
    ensures DigitsValue(s + t, k) == DigitsValue(s, k)
  {
    if k > 0 { DigitsOfPrefix(s, t, k - 1); }
  }

  lemma {:induction false} NatTextIsDecimal(n: nat)
    ensures DecimalOf(NatText(n), n)
  {
    if n < 10 {
      assert DigitsValue([Digit(n)], 1) == 10 * DigitsValue([Digit(n)], 0) + n;
    } else {
      NatTextIsDecimal(n / 10);
      DigitsOfPrefix(NatText(n / 10), [Digit(n % 10)], |NatText(n / 10)|);
    }
  }

  /** Two numbers have different texts. */
  lemma NatTextIsInjective(m: nat, n: nat)
    requires NatText(m) == NatText(n)
    ensures m == n
  {
    NatTextIsDecimal(m);
    NatTextIsDecimal(n);
  }

  /** _text: a trimmed non-empty string, or nothing. */
  function Text(v: Value): (t: Option<string>)
    ensures t.Some? ==> t.value != "" && v.Str?
  {
    if v.Str? && Strip(v.s) != "" then Some(Strip(v.s)) else None
  }

  // ---------------------------------------------------------------- references

  const NO_MASTER_ID := "0"

  /** The master a release names, or none: missing, boolean, blank, 0 and "0" are no master. */
  function UsableMasterId(v: Value): (id: Option<string>)
    ensures id.Some? ==> id.value != "" && id.value != NO_MASTER_ID
  {
    match v
    case Int(n) => if IntText(n) == NO_MASTER_ID then None else Some(NonEmptyInt(n))
    case Str(s) => if Strip(s) == "" || Strip(s) == NO_MASTER_ID then None else Some(Strip(s))
    case _ => None
  }

  function NonEmptyInt(n: int): (s: string)
    ensures s == IntText(n) && s != ""
  {
    IntText(n)
  }

  /** A usable master id, said in full: the decimal text of a number other than zero, or a trimmed
      text that is neither blank nor "0"; anything else names no master. */
  lemma MasterIdIs(v: Value)
    ensures v.Int? && v.n > 0 ==> UsableMasterId(v).Some? && DecimalOf(UsableMasterId(v).value, v.n)
    ensures v.Int? && v.n < 0 ==> exists t :: UsableMasterId(v) == Some("-" + t) && DecimalOf(t, -v.n)
    ensures v.Str? ==> UsableMasterId(v) == if Strip(v.s) != "" && Strip(v.s) != "0" then Some(Strip(v.s)) else None
    ensures !v.Int? && !v.Str? ==> UsableMasterId(v).None?
  {
    if v.Int? {
      MasterIdOfNumber(v.n);
      if v.n > 0 { NatTextIsDecimal(v.n); }
      if v.n < 0 {
        NatTextIsDecimal(-v.n);
        assert UsableMasterId(v) == Some("-" + NatText(-v.n));
      }
    }
  }

  /** A number and its text name the same master, and only zero names none. */
  lemma MasterIdOfNumber(n: int)
    ensures UsableMasterId(Int(n)) == UsableMasterId(Str(IntText(n)))
    ensures UsableMasterId(Int(n)).None? <==> n == 0
  {
    if n < 0 {
      StripKeepsTrimmed(IntText(n));
      assert IntText(n)[0] == '-';
    } else {
      StripKeepsTrimmed(NatText(n));
      if n == 0 { assert NatText(0) == "0"; }
    }
  }

  /** An artist or label a release references; an absent id is the empty text. */
  datatype Ref = Ref(id: string, name: Value)

  function ReferenceName(r: Ref): Option<string> { Text(r.name) }

  // ---------------------------------------------------------------- rows and records

  datatype MediaRow = MediaRow(medium: string, family: string, caption: string, qty: int)
  datatype CompanyRow = CompanyRow(id: string, name: string, role: string, category: string)
  datatype CreditRow = CreditRow(name: string, role: string, category: string, artistId: string)

  /** A release with its master reference resolved and its media, company and credit rows computed. `companies` is None for a
      record that is silent about company credits. */
  datatype ReleaseRecord = ReleaseRecord(
    id: string, hash: string, year: Option<int>, country: Option<string>, families: seq<string>,
    artists: seq<Ref>, labels: seq<Ref>, master: Option<string>, genres: seq<string>, styles: seq<string>,
    media: seq<MediaRow>, companies: Option<seq<CompanyRow>>, credits: seq<CreditRow>)

  /** Normalised taxonomy: every genre and style has a name. */
  predicate NamedTaxonomy(r: ReleaseRecord) {
    "" !in r.genres && "" !in r.styles
  }
}
