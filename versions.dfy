// org.apache.pivot.util.Version: a four-part version number
// "major.minor.maintenance_update[-build]", its packing into one 32-bit
// int, the ordering and equality derived from that packing, its text form
// and the parser for it.

module Versions {
  import opened JavaLang

  datatype Version = Version(
    major: int32,
    minor: int32,
    maintenance: int32,
    update: int32,
    build: Option<string>)

  /** What `decode` answers when parsing throws: 7.1.1.1 without a build. */
  const FALLBACK: Version := Version(7, 1, 1, 1, None)

  // ---------------------------------------------------------------------
  // getNumber, compareTo, equals, hashCode
  // ---------------------------------------------------------------------

  /** `x & 0xff` on a Java int. */
  function LowByte(x: int32): nat
  {
    x % 256
  }

  /** Four bytes side by side, most significant first. */
  function Pack(b3: nat, b2: nat, b1: nat, b0: nat): nat
  {
    b3 * 0x100_0000 + b2 * 0x1_0000 + b1 * 0x100 + b0
  }

  /** Byte `k` (0 = least significant) of the bits of a Java int. */
  function ByteOf(n: int32, k: nat): nat
    requires k < 4
  {
    var u := Unsigned32(n);
    if k == 0 then u % 256
    else if k == 1 then u / 0x100 % 256
    else if k == 2 then u / 0x1_0000 % 256
    else u / 0x100_0000
  }

  /**
   * `getNumber`: the low byte of each revision shifted into its own byte
   * of the result. The four shifted bytes occupy disjoint bits, so the `|`
   * that combines them is an addition.
   */
  function Number(v: Version): (r: int32)
    ensures r < 0 <==> LowByte(v.major) >= 128
  {
    PackedBytes(LowByte(v.major), LowByte(v.minor), LowByte(v.maintenance), LowByte(v.update));
    Wrap32(Pack(LowByte(v.major), LowByte(v.minor), LowByte(v.maintenance), LowByte(v.update)))
  }

  /** Byte 3 of the packed number is the low byte of major, down to byte 0 for update. */
  lemma NumberBytes(v: Version)
    ensures ByteOf(Number(v), 3) == LowByte(v.major)
    ensures ByteOf(Number(v), 2) == LowByte(v.minor)
    ensures ByteOf(Number(v), 1) == LowByte(v.maintenance)
    ensures ByteOf(Number(v), 0) == LowByte(v.update)
  {
    PackedBytes(LowByte(v.major), LowByte(v.minor), LowByte(v.maintenance), LowByte(v.update));
  }

  lemma PackedBytes(b3: nat, b2: nat, b1: nat, b0: nat)
    requires b3 < 256 && b2 < 256 && b1 < 256 && b0 < 256
    ensures var s := Pack(b3, b2, b1, b0);
      && s < TWO_TO_32
      && Unsigned32(Wrap32(s)) == s
      && s % 256 == b0
      && s / 0x100 % 256 == b1
      && s / 0x1_0000 % 256 == b2
      && s / 0x100_0000 == b3
  {
    var s := Pack(b3, b2, b1, b0);
    var s1 := b3 * 0x1_0000 + b2 * 0x100 + b1;
    var s2 := b3 * 0x100 + b2;
    Shift8(s1, b0);
    Shift8(s2, b1);
    Shift8(b3, b2);
    Shift16(s2, b1 * 0x100 + b0);
    Shift24(b3, b2 * 0x1_0000 + b1 * 0x100 + b0);
  }

  lemma Shift8(q: nat, r: nat)
    requires r < 0x100
    ensures (q * 0x100 + r) / 0x100 == q && (q * 0x100 + r) % 0x100 == r
  {
  }

  lemma Shift16(q: nat, r: nat)
    requires r < 0x1_0000
    ensures (q * 0x1_0000 + r) / 0x1_0000 == q
  {
  }

  lemma Shift24(q: nat, r: nat)
    requires r < 0x100_0000
    ensures (q * 0x100_0000 + r) / 0x100_0000 == q
  {
  }

  /** The packed number read as unsigned is the four low bytes side by side. */
  lemma UnsignedNumber(v: Version)
    ensures Unsigned32(Number(v)) == Pack(LowByte(v.major), LowByte(v.minor), LowByte(v.maintenance), LowByte(v.update))
  {
    PackedBytes(LowByte(v.major), LowByte(v.minor), LowByte(v.maintenance), LowByte(v.update));
  }

  /** `compareTo`: the difference of the packed numbers, in int arithmetic. */
  function CompareTo(a: Version, b: Version): (r: int32)
    ensures r == 0 <==> Number(a) == Number(b)
  {
    Wrap32(Number(a) - Number(b))
  }

  /**
   * `equals(Object)`: `None` stands for `null` or an object that is not a
   * Version.
   */
  function Equals(a: Version, other: Option<Version>): (r: bool)
    ensures r <==> other.Some? && Number(a) == Number(other.value)
  {
    other.Some? && CompareTo(a, other.value) == 0
  }

  /** `hashCode`. */
  function HashCode(v: Version): (r: int32)
    ensures forall w {:trigger Equals(v, Some(w))} :: Equals(v, Some(w)) ==> r == Number(w)
    ensures Unsigned32(r) == Pack(LowByte(v.major), LowByte(v.minor), LowByte(v.maintenance), LowByte(v.update))
  {
    UnsignedNumber(v);
    Number(v)
  }

  /** Equal versions have equal hash codes. */
  lemma EqualsImpliesSameHash(a: Version, b: Version)
    requires Equals(a, Some(b))
    ensures HashCode(a) == HashCode(b)
  {
  }

  /** Equality is decided by the low byte of each revision; the build is ignored. */
  lemma EqualsIffLowBytes(a: Version, b: Version)
    ensures Equals(a, Some(b)) <==>
      LowByte(a.major) == LowByte(b.major) && LowByte(a.minor) == LowByte(b.minor)
      && LowByte(a.maintenance) == LowByte(b.maintenance) && LowByte(a.update) == LowByte(b.update)
  {
    UnsignedNumber(a);
    UnsignedNumber(b);
    PackedBytes(LowByte(a.major), LowByte(a.minor), LowByte(a.maintenance), LowByte(a.update));
    PackedBytes(LowByte(b.major), LowByte(b.minor), LowByte(b.maintenance), LowByte(b.update));
  }

  /** Lexicographic order on four-tuples of numbers. */
  predicate LexLess(a3: int, a2: int, a1: int, a0: int, b3: int, b2: int, b1: int, b0: int)
  {
    a3 < b3 || (a3 == b3 && (a2 < b2 || (a2 == b2 && (a1 < b1 || (a1 == b1 && a0 < b0)))))
  }

  predicate RevisionsLess(a: Version, b: Version)
  {
    LexLess(a.major, a.minor, a.maintenance, a.update, b.major, b.minor, b.maintenance, b.update)
  }

  /** Packing bytes preserves and reflects lexicographic order. */
  lemma PackOrder(a3: nat, a2: nat, a1: nat, a0: nat, b3: nat, b2: nat, b1: nat, b0: nat)
    requires a2 < 256 && a1 < 256 && a0 < 256 && b2 < 256 && b1 < 256 && b0 < 256
    ensures Pack(a3, a2, a1, a0) < Pack(b3, b2, b1, b0) <==> LexLess(a3, a2, a1, a0, b3, b2, b1, b0)
  {
  }

  /** Revisions whose packing cannot reach the sign bit of an int. */
  predicate SmallRevisions(v: Version)
  {
    0 <= v.major < 128 && 0 <= v.minor < 256 && 0 <= v.maintenance < 256 && 0 <= v.update < 256
  }

  /**
   * With major in 0..127 and the other revisions in 0..255, the sign of
   * `compareTo` is the lexicographic order of the revisions.
   */
  lemma CompareToOrdersRevisions(a: Version, b: Version)
    requires SmallRevisions(a) && SmallRevisions(b)
    ensures CompareTo(a, b) < 0 <==> RevisionsLess(a, b)
    ensures CompareTo(a, b) > 0 <==> RevisionsLess(b, a)
    ensures CompareTo(a, b) == 0 <==>
      (a.major, a.minor, a.maintenance, a.update) == (b.major, b.minor, b.maintenance, b.update)
  {
    SmallNumber(a);
    SmallNumber(b);
    PackOrder(a.major, a.minor, a.maintenance, a.update, b.major, b.minor, b.maintenance, b.update);
    PackOrder(b.major, b.minor, b.maintenance, b.update, a.major, a.minor, a.maintenance, a.update);
  }

  lemma SmallNumber(v: Version)
    requires SmallRevisions(v)
    ensures Number(v) == Pack(v.major, v.minor, v.maintenance, v.update)
  {
    assert LowByte(v.major) == v.major && LowByte(v.minor) == v.minor;
    assert LowByte(v.maintenance) == v.maintenance && LowByte(v.update) == v.update;
  }

  /**
   * Over the whole range the subtraction wraps: versions with majors 0, 96
   * and 192 each compare below the next, and the last below the first, so
   * `compareTo` is not a total order.
   */
  lemma CompareToCycle()
    ensures var a, b, c := Version(0, 0, 0, 0, None), Version(96, 0, 0, 0, None), Version(192, 0, 0, 0, None);
      CompareTo(a, b) < 0 && CompareTo(b, c) < 0 && CompareTo(c, a) < 0
  {
    MajorOnlyNumber(0);
    MajorOnlyNumber(96);
    MajorOnlyNumber(192);
  }

  lemma MajorOnlyNumber(m: int32)
    requires 0 <= m < 256
    ensures Number(Version(m, 0, 0, 0, None)) == Wrap32(m * 0x100_0000)
  {
    assert LowByte(m) == m && LowByte(0) == 0;
    assert Pack(m, 0, 0, 0) == m * 0x100_0000;
  }

  /**
   * The comparison the ordering evidently intends: the packed numbers
   * compared as unsigned (`Integer.compareUnsigned`).
   */
  function CompareUnsigned(a: Version, b: Version): (r: int)
    ensures -1 <= r <= 1
    ensures r == 0 <==> Number(a) == Number(b)
  {
    var ua, ub := Unsigned32(Number(a)), Unsigned32(Number(b));
    if ua < ub then -1 else if ua == ub then 0 else 1
  }

  /** For every pair of versions, the unsigned comparison orders the low bytes lexicographically. */
  lemma CompareUnsignedOrdersBytes(a: Version, b: Version)
    ensures CompareUnsigned(a, b) < 0 <==>
      LexLess(LowByte(a.major), LowByte(a.minor), LowByte(a.maintenance), LowByte(a.update),
              LowByte(b.major), LowByte(b.minor), LowByte(b.maintenance), LowByte(b.update))
  {
    UnsignedNumber(a);
    UnsignedNumber(b);
    PackOrder(LowByte(a.major), LowByte(a.minor), LowByte(a.maintenance), LowByte(a.update),
              LowByte(b.major), LowByte(b.minor), LowByte(b.maintenance), LowByte(b.update));
  }

  /** The unsigned comparison is transitive, unlike the subtraction. */
  lemma CompareUnsignedTransitive(a: Version, b: Version, c: Version)
    requires CompareUnsigned(a, b) < 0 && CompareUnsigned(b, c) < 0
    ensures CompareUnsigned(a, c) < 0
  {
  }

  // ---------------------------------------------------------------------
  // toString
  // ---------------------------------------------------------------------

  /** The "major.minor.maintenance_UU" part of the text. */
  function RevisionText(v: Version): string
  {
    IntToString(v.major) + "." + IntToString(v.minor) + "." + IntToString(v.maintenance)
      + "_" + Format02(v.update)
  }

  /** `toString`: the revision text, then "-" and the build if there is one. */
  function ToString(v: Version): (r: string)
    ensures RevisionText(v) <= r
    ensures v.build.None? <==> r == RevisionText(v)
    ensures v.build.Some? ==> r[|RevisionText(v)|] == '-' && r[|RevisionText(v)| + 1..] == v.build.value
  {
    RevisionText(v) + (if v.build.Some? then "-" + v.build.value else "")
  }

  lemma NonNegativeText(n: int32)
    requires n >= 0
    ensures IntToString(n) == NatToString(n)
    ensures AllDigits(Format02(n)) && |Format02(n)| >= 2
    ensures '.' !in Format02(n) && '_' !in Format02(n) && '-' !in Format02(n)
  {
    if n < 10 {
      var s := "0" + NatToString(n);
      assert forall i :: 0 <= i < |s| ==> IsDigit(s[i]) by {
        forall i | 0 <= i < |s| ensures IsDigit(s[i]) {
          if i > 0 {
            assert s[i] == NatToString(n)[i - 1];
          }
        }
      }
    }
    DigitsExclude(Format02(n));
  }

  /**
   * The text of a version with non-negative revisions contains a dash
   * exactly when the version has a build; its update part has at least two
   * characters.
   */
  lemma ToStringDashIffBuild(v: Version)
    requires v.major >= 0 && v.minor >= 0 && v.maintenance >= 0 && v.update >= 0
    ensures '-' in ToString(v) <==> v.build.Some?
  {
    var r := RevisionText(v);
    RevisionHasNoDash(v);
    if v.build.Some? {
      assert ToString(v)[|r|] == '-';
    } else {
      assert ToString(v) == r;
    }
  }

  lemma RevisionHasNoDash(v: Version)
    requires v.major >= 0 && v.minor >= 0 && v.maintenance >= 0 && v.update >= 0
    ensures '-' !in RevisionText(v)
  {
    NonNegativeText(v.major);
    NonNegativeText(v.minor);
    NonNegativeText(v.maintenance);
    NonNegativeText(v.update);
    DigitsExclude(NatToString(v.major));
    DigitsExclude(NatToString(v.minor));
    DigitsExclude(NatToString(v.maintenance));
  }

  // ---------------------------------------------------------------------
  // decode
  // ---------------------------------------------------------------------

  /** The text before the first dash (all of it when there is none). */
  function RevisionPart(s: string): (r: string)
    ensures '-' !in r
    ensures r <= s
    ensures '-' !in s ==> r == s
  {
    var i := IndexOf(s, '-');
    if i == -1 then s else s[..i]
  }

  /** Everything after the first dash, later dashes included. */
  function BuildPart(s: string): (b: Option<string>)
    ensures b.None? <==> '-' !in s
    ensures b.Some? ==> s == RevisionPart(s) + "-" + b.value
  {
    var i := IndexOf(s, '-');
    if i == -1 then None else Some(s[i + 1..])
  }

  /**
   * The third field, "maintenance[_update]", split at '_'; a part that is
   * missing leaves its revision 0.
   */
  function DecodeMaintenance(field: string, major: int32, minor: int32, build: Option<string>): (r: Result<Version>)
    ensures r.Ok? ==> r.value.major == major && r.value.minor == minor && r.value.build == build
    ensures Split(field, '_') == [] ==> r == Ok(Version(major, minor, 0, 0, build))
  {
    var parts := Split(field, '_');
    if |parts| == 0 then Ok(Version(major, minor, 0, 0, build))
    else
      match ParseInt(parts[0])
      case Threw(e) => Threw(e)
      case Ok(maintenance) =>
        if |parts| == 1 then Ok(Version(major, minor, maintenance, 0, build))
        else
          match ParseInt(parts[1])
          case Threw(e) => Threw(e)
          case Ok(update) => Ok(Version(major, minor, maintenance, update, build))
  }

  /**
   * The fields of the revision text split at dots: the first with every
   * '+' and '-' removed is the major revision, the second the minor, the
   * third holds maintenance and update; later fields are ignored and a
   * missing one leaves its revision 0. No field at all is a `null` result.
   */
  function DecodeFields(fields: seq<string>, build: Option<string>): (r: Result<Option<Version>>)
    ensures r == Ok(None) <==> fields == []
    ensures r.Ok? && r.value.Some? ==> r.value.value.build == build
  {
    if |fields| == 0 then Ok(None)
    else
      match ParseInt(RemoveAll(RemoveAll(fields[0], '+'), '-'))
      case Threw(e) => Threw(e)
      case Ok(major) =>
        if |fields| == 1 then Ok(Some(Version(major, 0, 0, 0, build)))
        else
          match ParseInt(fields[1])
          case Threw(e) => Threw(e)
          case Ok(minor) =>
            if |fields| == 2 then Ok(Some(Version(major, minor, 0, 0, build)))
            else
              match DecodeMaintenance(fields[2], major, minor, build)
              case Threw(e) => Threw(e)
              case Ok(v) => Ok(Some(v))
  }

  /** The `try` block of `decode` on non-null text: `Ok(None)` is a `null` result. */
  function DecodeOrThrow(s: string): (r: Result<Option<Version>>)
    ensures r == Ok(None) <==> Split(RevisionPart(s), '.') == []
  {
    DecodeFields(Split(RevisionPart(s), '.'), BuildPart(s))
  }

  /**
   * `decode`: `None` stands for `null`, as argument and as result. A null
   * argument throws inside the `try` and, like any other exception there,
   * yields 7.1.1.1.
   */
  function Decode(s: Option<string>): (r: Option<Version>)
    ensures s.None? ==> r == Some(FALLBACK)
    ensures s.Some? && DecodeOrThrow(s.value).Threw? ==> r == Some(FALLBACK)
    ensures s.Some? && DecodeOrThrow(s.value).Ok? ==> r == DecodeOrThrow(s.value).value
  {
    match s
    case None => Some(FALLBACK)
    case Some(text) =>
      match DecodeOrThrow(text)
      case Ok(v) => v
      case Threw(_) => Some(FALLBACK)
  }

  /**
   * `decode` answers `null` exactly when the text before the first dash is
   * made of one or more dots and nothing else.
   */
  lemma DecodeNullIffOnlyDots(s: string)
    ensures Decode(Some(s)) == None <==>
      |RevisionPart(s)| > 0 && forall i :: 0 <= i < |RevisionPart(s)| ==> RevisionPart(s)[i] == '.'
  {
    SplitEmptyIff(RevisionPart(s), '.');
  }

  /** A decoded version carries everything after the first dash as its build. */
  lemma DecodeBuildIsAfterFirstDash(s: string)
    requires DecodeOrThrow(s).Ok? && DecodeOrThrow(s).value.Some?
    ensures Decode(Some(s)).Some?
    ensures '-' !in s ==> Decode(Some(s)).value.build == None
    ensures '-' in s ==> Decode(Some(s)).value.build == Some(s[IndexOf(s, '-') + 1..])
  {
  }

  lemma Join2(a: string, b: string, sep: char)
    ensures Join([a, b], sep) == a + [sep] + b
  {
    assert [a, b][1..] == [b];
  }

  lemma Join3(a: string, b: string, c: string, sep: char)
    ensures Join([a, b, c], sep) == a + [sep] + b + [sep] + c
  {
    assert [a, b, c][1..] == [b, c];
    Join2(b, c, sep);
  }

  /** Splitting the join of separator-free parts, the last non-empty, gives the parts back. */
  lemma SplitJoin(parts: seq<string>, sep: char)
    requires |parts| >= 1 && parts[|parts| - 1] != []
    requires forall k :: 0 <= k < |parts| ==> sep !in parts[k]
    ensures Split(Join(parts, sep), sep) == parts
  {
    FieldsOfJoin(parts, sep);
    if |parts| > 1 {
      assert Join(parts, sep)[|parts[0]|] == sep;
    }
  }

  /** Decimal text of an `int` as a revision field: no separator, parses back. */
  lemma NumeralField(n: nat)
    requires n <= INT_MAX
    ensures var t := NatToString(n);
      && '.' !in t && '_' !in t && '-' !in t
      && RemoveAll(RemoveAll(t, '+'), '-') == t
      && ParseInt(t) == Ok(n)
  {
    var t := NatToString(n);
    DigitsExclude(t);
    RemoveAllAbsent(t, '+');
    RemoveAllAbsent(t, '-');
    ParseNatToString(n);
  }

  /** Fields that are missing default to 0. */
  lemma DecodeDefaultsMissingFields(a: nat, b: nat, c: nat)
    requires a <= INT_MAX && b <= INT_MAX && c <= INT_MAX
    ensures Decode(Some(NatToString(a))) == Some(Version(a, 0, 0, 0, None))
    ensures Decode(Some(NatToString(a) + "." + NatToString(b))) == Some(Version(a, b, 0, 0, None))
    ensures Decode(Some(NatToString(a) + "." + NatToString(b) + "." + NatToString(c)))
         == Some(Version(a, b, c, 0, None))
  {
    var A, B, C := NatToString(a), NatToString(b), NatToString(c);
    NumeralField(a);
    NumeralField(b);
    NumeralField(c);
    DecodeMajorOnly(A, a);
    DecodeTwoFields(A, B, a, b);
    DecodeThreeFields(A, B, C, a, b, c);
  }

  lemma DecodeMajorOnly(A: string, a: int32)
    requires '.' !in A && '-' !in A && RemoveAll(RemoveAll(A, '+'), '-') == A && ParseInt(A) == Ok(a)
    ensures Decode(Some(A)) == Some(Version(a, 0, 0, 0, None))
  {
    assert Split(RevisionPart(A), '.') == [A];
  }

  lemma DecodeTwoFields(A: string, B: string, a: int32, b: int32)
    requires '.' !in A && '-' !in A && RemoveAll(RemoveAll(A, '+'), '-') == A && ParseInt(A) == Ok(a)
    requires '.' !in B && '-' !in B && ParseInt(B) == Ok(b)
    ensures Decode(Some(A + "." + B)) == Some(Version(a, b, 0, 0, None))
  {
    var s := A + "." + B;
    assert '-' !in s;
    DecodeWithoutBuild(s);
    Join2(A, B, '.');
    assert B != [];
    SplitJoin([A, B], '.');
    TwoFieldsOnly(A, B, a, b);
  }

  lemma TwoFieldsOnly(A: string, B: string, a: int32, b: int32)
    requires ParseInt(RemoveAll(RemoveAll(A, '+'), '-')) == Ok(a) && ParseInt(B) == Ok(b)
    ensures DecodeFields([A, B], None) == Ok(Some(Version(a, b, 0, 0, None)))
  {
  }

  lemma DecodeThreeFields(A: string, B: string, C: string, a: int32, b: int32, c: int32)
    requires '.' !in A && '-' !in A && RemoveAll(RemoveAll(A, '+'), '-') == A && ParseInt(A) == Ok(a)
    requires '.' !in B && '-' !in B && ParseInt(B) == Ok(b)
    requires '.' !in C && '-' !in C && '_' !in C && ParseInt(C) == Ok(c)
    ensures Decode(Some(A + "." + B + "." + C)) == Some(Version(a, b, c, 0, None))
  {
    var s := A + "." + B + "." + C;
    NoDashInFields(A, B, C);
    DecodeWithoutBuild(s);
    SplitAtDots3(A, B, C);
    MaintenanceOnly(C, a, b, c);
    DecodeThreeOrMore([A, B, C], None, a, b, Version(a, b, c, 0, None));
  }

  lemma NoDashInFields(A: string, B: string, C: string)
    requires '-' !in A && '-' !in B && '-' !in C
    ensures '-' !in A + "." + B + "." + C
  {
  }

  lemma DecodeWithoutBuild(s: string)
    requires '-' !in s
    ensures DecodeOrThrow(s) == DecodeFields(Split(s, '.'), None)
  {
  }

  lemma SplitAtDots3(A: string, B: string, C: string)
    requires '.' !in A && '.' !in B && '.' !in C && C != []
    ensures Split(A + "." + B + "." + C, '.') == [A, B, C]
  {
    Join3(A, B, C, '.');
    SplitJoin([A, B, C], '.');
  }

  lemma DecodeThreeOrMore(fields: seq<string>, build: Option<string>, a: int32, b: int32, v: Version)
    requires |fields| >= 3
    requires ParseInt(RemoveAll(RemoveAll(fields[0], '+'), '-')) == Ok(a)
    requires ParseInt(fields[1]) == Ok(b)
    requires DecodeMaintenance(fields[2], a, b, build) == Ok(v)
    ensures DecodeFields(fields, build) == Ok(Some(v))
  {
  }

  lemma MaintenanceOnly(C: string, a: int32, b: int32, c: int32)
    requires '_' !in C && ParseInt(C) == Ok(c)
    ensures DecodeMaintenance(C, a, b, None) == Ok(Version(a, b, c, 0, None))
  {
    assert Split(C, '_') == [C];
  }

  /** '+' signs inside the major field are dropped before it is parsed. */
  lemma DecodeDropsPlusFromMajor(p: string, q: string)
    requires AllDigits(p) && AllDigits(q) && |p + q| > 0
    requires DigitsValue(p + q) <= INT_MAX
    ensures AllDigits(p + q)
    ensures Decode(Some(p + "+" + q)) == Some(Version(DigitsValue(p + q), 0, 0, 0, None))
  {
    var d := p + q;
    DigitsConcat(p, q);
    DigitsExclude(p);
    DigitsExclude(q);
    PlusRemoved(p, q);
    ParseDigits(d);
    var s := p + "+" + q;
    NoSeparatorsAroundPlus(p, q);
    MajorFieldOnly(s, DigitsValue(d));
  }

  lemma NoSeparatorsAroundPlus(p: string, q: string)
    requires '.' !in p && '-' !in p && '.' !in q && '-' !in q
    ensures '.' !in p + "+" + q && '-' !in p + "+" + q
  {
  }

  lemma DigitsConcat(p: string, q: string)
    requires AllDigits(p) && AllDigits(q)
    ensures AllDigits(p + q)
  {
    var d := p + q;
    forall i | 0 <= i < |d| ensures IsDigit(d[i]) {
      if i < |p| { assert d[i] == p[i]; } else { assert d[i] == q[i - |p|]; }
    }
  }

  lemma ParseDigits(d: string)
    requires AllDigits(d) && |d| > 0 && DigitsValue(d) <= INT_MAX
    ensures RemoveAll(d, '-') == d && ParseInt(d) == Ok(DigitsValue(d))
  {
    DigitsExclude(d);
    RemoveAllAbsent(d, '-');
    assert IsDigit(d[0]);
  }

  /** Text without dots or dashes is a major revision alone. */
  lemma MajorFieldOnly(s: string, a: int32)
    requires '.' !in s && '-' !in s && ParseInt(RemoveAll(RemoveAll(s, '+'), '-')) == Ok(a)
    ensures Decode(Some(s)) == Some(Version(a, 0, 0, 0, None))
  {
    assert Split(RevisionPart(s), '.') == [s];
  }

  lemma PlusRemoved(p: string, q: string)
    requires '+' !in p && '+' !in q
    ensures RemoveAll(p + "+" + q, '+') == p + q
  {
    var t := ['+'] + q;
    assert t[1..] == q;
    assert RemoveAll(t, '+') == RemoveAll(q, '+');
    RemoveAllAbsent(p, '+');
    RemoveAllAbsent(q, '+');
    assert p + "+" + q == p + t;
    RemoveAllConcat(p, t, '+');
  }

  lemma {:induction false} RemoveAllConcat(a: string, b: string, c: char)
    ensures RemoveAll(a + b, c) == RemoveAll(a, c) + RemoveAll(b, c)
    decreases |a|
  {
    if |a| == 0 {
      assert a + b == b;
    } else {
      var ab := a + b;
      assert ab[0] == a[0] && ab[1..] == a[1..] + b;
      RemoveAllConcat(a[1..], b, c);
      var head := if a[0] == c then [] else [a[0]];
      assert RemoveAll(ab, c) == head + RemoveAll(a[1..] + b, c);
      assert RemoveAll(a, c) == head + RemoveAll(a[1..], c);
    }
  }

  /** Empty text has an empty major field, which throws inside `decode`; the answer is 7.1.1.1. */
  lemma DecodeEmptyFallsBack()
    ensures Decode(Some("")) == Some(FALLBACK)
  {
    assert Split("", '.') == [""];
  }

  /** An empty minor field ("1..2") throws inside `decode`; the answer is 7.1.1.1. */
  lemma DecodeEmptyMinorFallsBack()
    ensures Decode(Some("1..2")) == Some(FALLBACK)
  {
    assert "1..2" == Join(["1", "", "2"], '.');
    SplitJoin(["1", "", "2"], '.');
    FieldsThrow(["1", "", "2"]);
    FallsBackWhenFieldsThrow("1..2", ["1", "", "2"]);
  }

  /** A major field that is not a number ("x.1") throws inside `decode`; the answer is 7.1.1.1. */
  lemma DecodeNonNumericFallsBack()
    ensures Decode(Some("x.1")) == Some(FALLBACK)
  {
    assert "x.1" == Join(["x", "1"], '.');
    SplitJoin(["x", "1"], '.');
    FieldsThrow(["x", "1"]);
    FallsBackWhenFieldsThrow("x.1", ["x", "1"]);
  }

  /** The two field lists above make `decode` throw: an empty minor field, a major field that is not a number. */
  lemma FieldsThrow(fields: seq<string>)
    requires fields == ["1", "", "2"] || fields == ["x", "1"]
    ensures DecodeFields(fields, None).Threw?
  {
    if fields == ["1", "", "2"] {
      assert RemoveAll("1", '+') == "1" && RemoveAll("1", '-') == "1";
      assert ParseInt("1") == Ok(1);
    } else {
      assert RemoveAll("x", '+') == "x" && RemoveAll("x", '-') == "x";
      assert !AllDigits("x");
    }
  }

  /** Dash-free text whose fields throw decodes to 7.1.1.1. */
  lemma FallsBackWhenFieldsThrow(s: string, fields: seq<string>)
    requires '-' !in s && Split(s, '.') == fields && DecodeFields(fields, None).Threw?
    ensures Decode(Some(s)) == Some(FALLBACK)
  {
  }

  /**
   * Round trip: the text of a version with non-negative revisions decodes
   * to the same version, build included.
   */
  lemma DecodeToString(v: Version)
    requires v.major >= 0 && v.minor >= 0 && v.maintenance >= 0 && v.update >= 0
    ensures Decode(Some(ToString(v))) == Some(v)
  {
    var s := ToString(v);
    var R := RevisionText(v);
    RevisionHasNoDash(v);
    if v.build.Some? {
      assert s == R + ['-'] + v.build.value;
      IndexOfAfter(R, '-', v.build.value);
      assert s[..|R|] == R;
    } else {
      assert s == R;
    }
    assert RevisionPart(s) == R && BuildPart(s) == v.build;
    RevisionTextDecodes(v);
  }

  lemma RevisionTextDecodes(v: Version)
    requires v.major >= 0 && v.minor >= 0 && v.maintenance >= 0 && v.update >= 0
    ensures DecodeFields(Split(RevisionText(v), '.'), v.build) == Ok(Some(v))
  {
    var A, B, C := NatToString(v.major), NatToString(v.minor), NatToString(v.maintenance);
    var U := Format02(v.update);
    RevisionTextFields(v);
    NonNegativeText(v.update);
    NumeralField(v.major);
    NumeralField(v.minor);
    NumeralField(v.maintenance);
    FourFieldsDecode(A, B, C, U, v);
  }

  lemma RevisionTextFields(v: Version)
    requires v.major >= 0 && v.minor >= 0 && v.maintenance >= 0
    ensures RevisionText(v) == NatToString(v.major) + "." + NatToString(v.minor) + "."
      + (NatToString(v.maintenance) + "_" + Format02(v.update))
  {
    NonNegativeText(v.major);
    NonNegativeText(v.minor);
    NonNegativeText(v.maintenance);
  }

  lemma FourFieldsDecode(A: string, B: string, C: string, U: string, v: Version)
    requires '.' !in A && RemoveAll(RemoveAll(A, '+'), '-') == A && ParseInt(A) == Ok(v.major)
    requires '.' !in B && ParseInt(B) == Ok(v.minor)
    requires '.' !in C && '_' !in C && ParseInt(C) == Ok(v.maintenance)
    requires v.update >= 0 && U == Format02(v.update) && AllDigits(U)
    ensures DecodeFields(Split(A + "." + B + "." + (C + "_" + U), '.'), v.build) == Ok(Some(v))
  {
    var M := C + "_" + U;
    DigitsExclude(U);
    assert '.' !in M;
    SplitAtDots3(A, B, M);
    MaintenanceAndUpdate(C, U, v);
    DecodeThreeOrMore([A, B, M], v.build, v.major, v.minor, v);
  }

  lemma MaintenanceAndUpdate(C: string, U: string, v: Version)
    requires v.update >= 0 && U == Format02(v.update) && AllDigits(U)
    requires '_' !in C && ParseInt(C) == Ok(v.maintenance)
    ensures DecodeMaintenance(C + "_" + U, v.major, v.minor, v.build) == Ok(v)
  {
    DigitsExclude(U);
    ParseFormat02(v.update);
    Join2(C, U, '_');
    SplitJoin([C, U], '_');
  }
}
