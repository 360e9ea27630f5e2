/** Person names bounded to what the index accepts: UTF-8 lengths, the cut on a character
    boundary, and the digest suffix. */
module PersonNames {

  type Byte = b: int | 0 <= b < 256

  const PERSON_NAME_MAX_BYTES := 8000
  const DIGEST_CHARS := 16

  // ---------------------------------------------------------------- UTF-8, section 3 of RFC 3629

  function Utf8(c: char): (bytes: seq<Byte>)
    ensures 1 <= |bytes| <= 4
  {
    var u := c as int;
    if u < 0x80 then [u]
    else if u < 0x800 then [0xC0 + u / 64, 0x80 + u % 64]
    else if u < 0x10000 then [0xE0 + u / 4096, 0x80 + (u / 64) % 64, 0x80 + u % 64]
    else [0xF0 + u / 262144, 0x80 + (u / 4096) % 64, 0x80 + (u / 64) % 64, 0x80 + u % 64]
  }

  /** The bytes of the first k characters. */
  function EncodeFirst(s: string, k: nat): seq<Byte>
    requires k <= |s|
  {
    if k == 0 then [] else EncodeFirst(s, k - 1) + Utf8(s[k - 1])
  }

  function Encode(s: string): seq<Byte> {
    EncodeFirst(s, |s|)
  }

  predicate Continues(b: Byte) {
    0x80 <= b < 0xC0
  }

  /** How many bytes a character starting with this byte takes; 0 for a byte that starts none. */
  function Span(lead: Byte): nat {
    if lead < 0x80 then 1
    else if 0xC2 <= lead < 0xE0 then 2
    else if 0xE0 <= lead < 0xF0 then 3
    else if 0xF0 <= lead < 0xF5 then 4
    else 0
  }

  predicate Shaped(b: seq<Byte>, i: nat)
    requires i < |b|
  {
    && 0 < Span(b[i]) && i + Span(b[i]) <= |b|
    && (Span(b[i]) > 1 ==> Continues(b[i + 1]))
    && (Span(b[i]) > 2 ==> Continues(b[i + 2]))
    && (Span(b[i]) > 3 ==> Continues(b[i + 3]))
  }

  /** The payload of a lead byte of a character of this span, and of a continuation byte. */
  function LeadBits(b: Byte, span: nat): int {
    match span
    case 1 => b
    case 2 => b - 0xC0
    case 3 => b - 0xE0
    case _ => b - 0xF0
  }

  function TailBits(b: Byte): int { b - 0x80 }

  function CodePoint(b: seq<Byte>, i: nat): int
    requires i < |b| && Shaped(b, i)
  {
    var high := LeadBits(b[i], Span(b[i]));
    match Span(b[i])
    case 1 => high
    case 2 => high * 64 + TailBits(b[i + 1])
    case 3 => high * 4096 + TailBits(b[i + 1]) * 64 + TailBits(b[i + 2])
    case _ => high * 262144 + TailBits(b[i + 1]) * 4096 + TailBits(b[i + 2]) * 64 + TailBits(b[i + 3])
  }

  /** In range for its length, and not a surrogate. */
  predicate Scalar(u: int, span: nat) {
    match span
    case 1 => 0 <= u < 0x80
    case 2 => 0x80 <= u < 0x800
    case 3 => 0x800 <= u < 0xD800 || 0xE000 <= u < 0x10000
    case _ => 0x10000 <= u < 0x110000
  }

  predicate CharAt(b: seq<Byte>, i: nat)
    requires i < |b|
  {
    Shaped(b, i) && Scalar(CodePoint(b, i), Span(b[i]))
  }

  /** decode("utf-8", errors="ignore") from position i: a byte that starts no character is
      dropped. */
  function DecodeFrom(b: seq<Byte>, i: nat): string
    requires i <= |b|
    decreases |b| - i
  {
    if i == |b| then ""
    else if CharAt(b, i) then [CodePoint(b, i) as char] + DecodeFrom(b, i + Span(b[i]))
    else DecodeFrom(b, i + 1)
  }

  // ---------------------------------------------------------------- one character

  lemma SpanOfLead(c: char)
    ensures Span(Utf8(c)[0]) == |Utf8(c)| && forall j :: 1 <= j < |Utf8(c)| ==> Continues(Utf8(c)[j])
  {
  }

  lemma DigitsOf(u: int)
    requires 0 <= u
    ensures u == (u / 64) * 64 + u % 64
    ensures u / 64 == (u / 4096) * 64 + (u / 64) % 64
    ensures u / 4096 == (u / 262144) * 64 + (u / 4096) % 64
  {
    assert (u / 64) / 64 == u / 4096;
    assert (u / 4096) / 64 == u / 262144;
  }

  /** The bytes from i on begin with those of x. */
  predicate Holds(b: seq<Byte>, i: nat, x: seq<Byte>)
    requires |x| <= 4
  {
    && i + |x| <= |b|
    && (|x| > 0 ==> b[i] == x[0]) && (|x| > 1 ==> b[i + 1] == x[1]) && (|x| > 2 ==> b[i + 2] == x[2]) && (|x| > 3 ==> b[i + 3] == x[3])
  }

  /** A whole character decodes to itself. */
  lemma WholeCharacter(b: seq<Byte>, i: nat, c: char)
    requires Holds(b, i, Utf8(c))
    ensures CharAt(b, i) && CodePoint(b, i) == c as int && Span(b[i]) == |Utf8(c)|
  {
    DigitsOf(c as int);
  }

  /** A character cut short starts none, nor does any of its later bytes. */
  lemma {:induction false} CutCharacterIsDropped(b: seq<Byte>, i: nat, c: char, j: nat)
    requires i <= |b| < i + |Utf8(c)| && j <= |b| - i && forall k :: 0 <= k < |b| - i ==> b[i + k] == Utf8(c)[k]
    ensures DecodeFrom(b, i + j) == ""
    decreases |b| - i - j
  {
    if i + j < |b| {
      SpanOfLead(c);
      assert b[i + j] == Utf8(c)[j];
      CutCharacterIsDropped(b, i, c, j + 1);
    }
  }

  // ---------------------------------------------------------------- prefixes

  lemma {:induction false} EncodeGrows(s: string, j: nat, k: nat)
    requires j <= k <= |s|
    ensures |EncodeFirst(s, j)| + (k - j) <= |EncodeFirst(s, k)|
    ensures EncodeFirst(s, k)[..|EncodeFirst(s, j)|] == EncodeFirst(s, j)
  {
    if j < k { EncodeGrows(s, j, k - 1); }
  }

  lemma {:induction false} EncodeOfPrefix(s: string, m: nat, k: nat)
    requires k <= m <= |s|
    ensures EncodeFirst(s[..m], k) == EncodeFirst(s, k)
  {
    if k > 0 { EncodeOfPrefix(s, m, k - 1); }
  }

  lemma EncodePrefix(a: string, b: string)
    ensures EncodeFirst(a + b, |a|) == Encode(a)
  {
    EncodeOfPrefix(a + b, |a|, |a|);
    assert (a + b)[..|a|] == a;
  }

  lemma {:induction false} EncodeAppend(a: string, b: string, k: nat)
    requires k <= |b|
    ensures EncodeFirst(a + b, |a| + k) == Encode(a) + EncodeFirst(b, k)
  {
    if k == 0 {
      EncodePrefix(a, b);
    } else {
      EncodeAppend(a, b, k - 1);
      assert (a + b)[|a| + k - 1] == b[k - 1];
    }
  }

  lemma {:induction false} AsciiLength(s: string, k: nat)
    requires k <= |s| && forall i :: 0 <= i < |s| ==> s[i] as int < 0x80
    ensures |EncodeFirst(s, k)| == k
  {
    if k > 0 { AsciiLength(s, k - 1); }
  }

  /** How many whole characters of s fit in `keep` bytes, counting from k. */
  function Fitting(s: string, keep: nat, k: nat): (m: nat)
    requires k <= |s| && |EncodeFirst(s, k)| <= keep
    ensures k <= m <= |s| && |EncodeFirst(s, m)| <= keep
    ensures m < |s| ==> |EncodeFirst(s, m + 1)| > keep
    decreases |s| - k
  {
    if k < |s| && |EncodeFirst(s, k + 1)| <= keep then Fitting(s, keep, k + 1) else k
  }

  predicate LongestFit(s: string, keep: nat, m: nat) {
    && m <= |s| && |EncodeFirst(s, m)| <= keep
    && (forall j :: 0 <= j <= |s| && |EncodeFirst(s, j)| <= keep ==> j <= m)
  }

  lemma FittingIsLongest(s: string, keep: nat)
    ensures LongestFit(s, keep, Fitting(s, keep, 0))
  {
    var m := Fitting(s, keep, 0);
    forall j | 0 <= j <= |s| && |EncodeFirst(s, j)| <= keep ensures j <= m {
      if j > m { EncodeGrows(s, m + 1, j); }
    }
  }

  /** Where the bytes of character j lie. */
  lemma CharacterBytes(s: string, j: nat, k: nat)
    requires j < |s| && k < |Utf8(s[j])|
    ensures |EncodeFirst(s, j)| + |Utf8(s[j])| == |EncodeFirst(s, j + 1)| <= |Encode(s)|
    ensures Encode(s)[|EncodeFirst(s, j)| + k] == Utf8(s[j])[k]
  {
    EncodeGrows(s, j + 1, |s|);
    var i := |EncodeFirst(s, j)| + k;
    assert Encode(s)[i] == Encode(s)[..|EncodeFirst(s, j + 1)|][i];
  }

  /** b is a prefix of the bytes of s. */
  ghost predicate Cut(s: string, b: seq<Byte>) {
    |b| <= |Encode(s)| && forall i :: 0 <= i < |b| ==> b[i] == Encode(s)[i]
  }

  lemma CharacterInCut(s: string, b: seq<Byte>, j: nat)
    requires Cut(s, b) && j < |s| && |EncodeFirst(s, j + 1)| <= |b|
    ensures Holds(b, |EncodeFirst(s, j)|, Utf8(s[j])) && |EncodeFirst(s, j)| + |Utf8(s[j])| == |EncodeFirst(s, j + 1)|
  {
    var i, x := |EncodeFirst(s, j)|, Utf8(s[j]);
    CharacterBytes(s, j, 0);
    forall k | 0 <= k < |x| ensures b[i + k] == x[k] { CharacterBytes(s, j, k); }
    BytesHold(b, i, x);
  }

  lemma BytesHold(b: seq<Byte>, i: nat, x: seq<Byte>)
    requires |x| <= 4 && i + |x| <= |b| && forall k :: 0 <= k < |x| ==> b[i + k] == x[k]
    ensures Holds(b, i, x)
  {
    if |x| > 0 { assert b[i + 0] == x[0]; }
  }

  lemma CutCharacter(s: string, b: seq<Byte>, m: nat)
    requires Cut(s, b) && m < |s| && |EncodeFirst(s, m)| <= |b| < |EncodeFirst(s, m + 1)|
    ensures DecodeFrom(b, |EncodeFirst(s, m)|) == ""
  {
    CharacterBytes(s, m, 0);
    DroppedFrom(s, b, m, |EncodeFirst(s, m)|);
  }

  lemma DroppedFrom(s: string, b: seq<Byte>, m: nat, i: nat)
    requires Cut(s, b) && m < |s| && i == |EncodeFirst(s, m)| <= |b| < i + |Utf8(s[m])|
    ensures DecodeFrom(b, i) == ""
  {
    CutBytes(s, b, m, i);
    CutCharacterIsDropped(b, i, s[m], 0);
  }

  lemma CutBytes(s: string, b: seq<Byte>, m: nat, i: nat)
    requires Cut(s, b) && m < |s| && i == |EncodeFirst(s, m)| <= |b| < i + |Utf8(s[m])|
    ensures forall k :: 0 <= k < |b| - i ==> b[i + k] == Utf8(s[m])[k]
  {
    forall k | 0 <= k < |b| - i ensures b[i + k] == Utf8(s[m])[k] { CutByte(s, b, m, i, k); }
  }

  lemma CutByte(s: string, b: seq<Byte>, m: nat, i: nat, k: nat)
    requires Cut(s, b) && m < |s| && i == |EncodeFirst(s, m)| && i + k < |b| && k < |Utf8(s[m])|
    ensures b[i + k] == Utf8(s[m])[k]
  {
    CharacterBytes(s, m, k);
  }

  lemma DecodedCharacter(b: seq<Byte>, i: nat, c: char)
    requires Holds(b, i, Utf8(c))
    ensures DecodeFrom(b, i) == [c] + DecodeFrom(b, i + |Utf8(c)|)
  {
    WholeCharacter(b, i, c);
  }

  lemma FirstOfRest(s: string, j: nat, m: nat)
    requires j < m <= |s|
    ensures s[j..m] == [s[j]] + s[j + 1..m]
  {
  }

  /** A whole character in front of what already decodes. */
  lemma OneMoreCharacter(s: string, b: seq<Byte>, m: nat, j: nat)
    requires j < m <= |s| && Cut(s, b) && |EncodeFirst(s, j + 1)| <= |b| && DecodeFrom(b, |EncodeFirst(s, j + 1)|) == s[j + 1..m]
    ensures |EncodeFirst(s, j)| <= |b| && DecodeFrom(b, |EncodeFirst(s, j)|) == s[j..m]
  {
    CharacterInCut(s, b, j);
    DecodedCharacter(b, |EncodeFirst(s, j)|, s[j]);
    FirstOfRest(s, j, m);
  }

  /** Cutting the bytes anywhere and dropping what no longer decodes keeps exactly the whole
      characters that fit. */
  lemma {:induction false} CutDecodesToWholeCharacters(s: string, b: seq<Byte>, m: nat, j: nat)
    requires j <= m <= |s| && Cut(s, b)
    requires |EncodeFirst(s, m)| <= |b| && (m < |s| ==> |b| < |EncodeFirst(s, m + 1)|)
    ensures |EncodeFirst(s, j)| <= |b|
    ensures DecodeFrom(b, |EncodeFirst(s, j)|) == s[j..m]
    decreases m - j
  {
    if j < m {
      CutDecodesToWholeCharacters(s, b, m, j + 1);
      OneMoreCharacter(s, b, m, j);
    } else if m < |s| {
      CutCharacter(s, b, m);
    }
  }

  // ---------------------------------------------------------------- bounded names

  type Digest = seq<Byte> -> string

  /** Sixteen hexadecimal digits. */
  ghost predicate Hex(digest: Digest) {
    forall b :: |digest(b)| == DIGEST_CHARS && forall i :: 0 <= i < DIGEST_CHARS ==> digest(b)[i] as int < 0x80
  }

  function Suffix(s: string, digest: Digest): string {
    "... [" + digest(Encode(s)) + "]"
  }

  /** bound_person_name. */
  function BoundName(s: string, digest: Digest): string
    requires Hex(digest)
  {
    var bytes := Encode(s);
    if |bytes| <= PERSON_NAME_MAX_BYTES then s
    else
      var suffix := Suffix(s, digest);
      SuffixSize(s, digest);
      DecodeFrom(bytes[..PERSON_NAME_MAX_BYTES - |Encode(suffix)|], 0) + suffix
  }

  lemma SuffixSize(s: string, digest: Digest)
    requires Hex(digest)
    ensures |Suffix(s, digest)| == DIGEST_CHARS + 6 && |Encode(Suffix(s, digest))| == DIGEST_CHARS + 6
  {
    AsciiLength(Suffix(s, digest), DIGEST_CHARS + 6);
  }

  /** A name over the limit keeps exactly the longest run of whole characters that leaves room for
      the digest of the full name. */
  lemma LongNameKeepsLongestPrefix(s: string, digest: Digest) returns (m: nat)
    requires Hex(digest) && |Encode(s)| > 8000
    ensures LongestFit(s, 7978, m)
    ensures BoundName(s, digest) == s[..m] + Suffix(s, digest) && Suffix(s, digest) == "... [" + digest(Encode(s)) + "]"
  {
    SuffixSize(s, digest);
    var keep := PERSON_NAME_MAX_BYTES - DIGEST_CHARS - 6;
    m := Fitting(s, keep, 0);
    FittingIsLongest(s, keep);
    CutDecodesToWholeCharacters(s, Encode(s)[..keep], m, 0);
  }

  /** Never over the limit, the identity within it, and idempotent. */
  lemma BoundNameFits(s: string, digest: Digest)
    requires Hex(digest)
    ensures |Encode(BoundName(s, digest))| <= 8000
    ensures |Encode(s)| <= 8000 <==> BoundName(s, digest) == s
    ensures BoundName(BoundName(s, digest), digest) == BoundName(s, digest)
  {
    if |Encode(s)| > PERSON_NAME_MAX_BYTES {
      var m := LongNameKeepsLongestPrefix(s, digest);
      SuffixSize(s, digest);
      EncodeAppend(s[..m], Suffix(s, digest), |Suffix(s, digest)|);
      EncodeOfPrefix(s, m, m);
    }
  }

  /** Two long names share a bounded form only if their digests agree. */
  lemma LongNamesAreToldApart(s: string, t: string, digest: Digest)
    requires Hex(digest) && |Encode(s)| > 8000 && |Encode(t)| > 8000
    requires BoundName(s, digest) == BoundName(t, digest)
    ensures digest(Encode(s)) == digest(Encode(t))
  {
    var m := LongNameKeepsLongestPrefix(s, digest);
    var n := LongNameKeepsLongestPrefix(t, digest);
    var a, b := Suffix(s, digest), Suffix(t, digest);
    SuffixSize(s, digest);
    SuffixSize(t, digest);
    assert (s[..m] + a)[m..] == a && (t[..n] + b)[n..] == b;
    assert a[5..21] == digest(Encode(s)) && b[5..21] == digest(Encode(t));
  }
}
