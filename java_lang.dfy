// The pieces of Java semantics the window-chrome model depends on: `null`
// as an absent value, the exceptions a call can raise, 32-bit `int`
// arithmetic, and the String and Integer operations that the version codec
// uses (indexOf, replace, split on a literal character, parseInt, int to
// decimal text and the "%02d" format).

module JavaLang {

  /** A reference that may be `null`. */
  datatype Option<T> = None | Some(value: T)

  /** The unchecked exceptions the modelled code can raise. */
  datatype Exception =
    | NullPointer
    | IllegalArgument
    | UnsupportedOperation
    | IndexOutOfBounds
    | NumberFormat
    | NegativeArraySize

  /** A call that returns a value or throws. */
  datatype Result<T> = Ok(value: T) | Threw(error: Exception)

  /** A `void` call that completes or throws. */
  datatype Outcome = Completed | Raised(error: Exception)

  // ---------------------------------------------------------------------
  // 32-bit int
  // ---------------------------------------------------------------------

  const INT_MIN: int := -0x8000_0000
  const INT_MAX: int := 0x7fff_ffff
  const TWO_TO_32: int := 0x1_0000_0000

  type int32 = x: int | INT_MIN <= x <= INT_MAX

  /**
   * Two's-complement wrap-around of an exact result into a Java `int`, for
   * the results the modelled code produces (a sum or difference of two
   * ints, or a packed 32-bit pattern), which lie within 2^32 of the range.
   */
  function Wrap32(x: int): (r: int32)
    requires -TWO_TO_32 <= x < TWO_TO_32
    ensures r == x || r == x - TWO_TO_32 || r == x + TWO_TO_32
  {
    if x > INT_MAX then x - TWO_TO_32 else if x < INT_MIN then x + TWO_TO_32 else x
  }

  /** The bits of a Java `int` read as an unsigned number. */
  function Unsigned32(x: int32): (u: nat)
    ensures u < TWO_TO_32
    ensures x >= 0 ==> u == x
    ensures x < 0 ==> u == x + TWO_TO_32
  {
    if x >= 0 then x else x + TWO_TO_32
  }

  /** Java's `/` on `int`, which truncates toward zero. */
  function JavaDiv(a: int, b: int): (q: int)
    requires b > 0
    ensures a >= 0 ==> 0 <= a - q * b < b
    ensures a < 0 ==> 0 <= q * b - a < b
  {
    if a >= 0 then a / b else -((-a) / b)
  }

  // ---------------------------------------------------------------------
  // Characters and strings
  // ---------------------------------------------------------------------

  /** `Character.toLowerCase` restricted to ASCII letters. */
  function LowerAscii(c: char): char
  {
    if 'A' <= c <= 'Z' then (c as int + 32) as char else c
  }

  /** `String.toLowerCase` on ASCII text. */
  function ToLower(s: string): (r: string)
    ensures |r| == |s|
    ensures forall i :: 0 <= i < |s| ==> r[i] == LowerAscii(s[i])
  {
    seq(|s|, i requires 0 <= i < |s| => LowerAscii(s[i]))
  }

  predicate EqualsIgnoreCase(a: string, b: string)
  {
    ToLower(a) == ToLower(b)
  }

  predicate StartsWith(s: string, prefix: string)
  {
    |prefix| <= |s| && s[..|prefix|] == prefix
  }

  /** `String.contains`: some suffix of `s` starts with `t`. */
  predicate ContainsText(s: string, t: string)
    decreases |s|
  {
    StartsWith(s, t) || (|s| > 0 && ContainsText(s[1..], t))
  }

  /** `String.indexOf(char)`: the first position of `c`, or -1. */
  function IndexOf(s: string, c: char): (i: int)
    ensures -1 <= i < |s|
    ensures i == -1 <==> c !in s
    ensures i >= 0 ==> s[i] == c && c !in s[..i]
  {
    if |s| == 0 then -1
    else if s[0] == c then 0
    else
      var j := IndexOf(s[1..], c);
      assert s[1..][..(if j < 0 then 0 else j)] == s[1..(if j < 0 then 1 else j + 1)];
      if j == -1 then -1 else j + 1
  }

  /** `s.replace(String.valueOf(c), "")`: every occurrence of `c` removed. */
  function RemoveAll(s: string, c: char): (r: string)
    ensures c !in r
    ensures |r| <= |s|
  {
    if |s| == 0 then []
    else
      assert s == [s[0]] + s[1..];
      (if s[0] == c then [] else [s[0]]) + RemoveAll(s[1..], c)
  }

  lemma {:induction false} RemoveAllAbsent(s: string, c: char)
    requires c !in s
    ensures RemoveAll(s, c) == s
  {
    if |s| > 0 {
      RemoveAllAbsent(s[1..], c);
      assert s == [s[0]] + s[1..];
    }
  }

  // ---------------------------------------------------------------------
  // java.util.ArrayList
  // ---------------------------------------------------------------------

  /** Position of the first element equal to `x` (`ArrayList.indexOf`). */
  function FirstIndex<T(==)>(s: seq<T>, x: T): (i: nat)
    requires x in s
    ensures i < |s| && s[i] == x && x !in s[..i]
  {
    if s[0] == x then 0
    else
      var j := FirstIndex(s[1..], x);
      assert s[..j + 1] == [s[0]] + s[1..][..j];
      j + 1
  }

  /**
   * `ArrayList.remove(Object)`: the first element equal to `x` is taken
   * out and the others keep their order; without such an element the list
   * is unchanged.
   */
  function ListRemove<T(==)>(s: seq<T>, x: T): (r: seq<T>)
    ensures x !in s ==> r == s
    ensures x in s ==> |r| == |s| - 1 && r == s[..FirstIndex(s, x)] + s[FirstIndex(s, x) + 1..]
  {
    if x !in s then s else s[..FirstIndex(s, x)] + s[FirstIndex(s, x) + 1..]
  }

  // ---------------------------------------------------------------------
  // String.split on a literal one-character separator
  // ---------------------------------------------------------------------

  /** The pieces of `s` between occurrences of `sep`, empty pieces kept. */
  function Fields(s: string, sep: char): (r: seq<string>)
    ensures |r| >= 1
    ensures forall k :: 0 <= k < |r| ==> sep !in r[k]
    decreases |s|
  {
    var i := IndexOf(s, sep);
    if i == -1 then [s] else [s[..i]] + Fields(s[i + 1..], sep)
  }

  /** The pieces joined back together with `sep` between them. */
  function Join(parts: seq<string>, sep: char): string
    requires |parts| >= 1
  {
    if |parts| == 1 then parts[0] else parts[0] + [sep] + Join(parts[1..], sep)
  }

  function DropTrailingEmpty(parts: seq<string>): (r: seq<string>)
    ensures r <= parts
    ensures |r| > 0 ==> r[|r| - 1] != []
    ensures forall k :: |r| <= k < |parts| ==> parts[k] == []
  {
    if |parts| > 0 && parts[|parts| - 1] == [] then DropTrailingEmpty(parts[..|parts| - 1])
    else parts
  }

  /**
   * `s.split(regex)` where the regex matches exactly the character `sep`:
   * no occurrence gives `[s]`; otherwise the fields with trailing empty
   * ones removed (a leading empty field is kept).
   */
  function Split(s: string, sep: char): (r: seq<string>)
    ensures sep !in s ==> r == [s]
    ensures forall k :: 0 <= k < |r| ==> sep !in r[k]
  {
    if sep !in s then [s] else DropTrailingEmpty(Fields(s, sep))
  }

  /** Splitting undoes joining: the fields of a join are the joined parts. */
  lemma {:induction false} FieldsOfJoin(parts: seq<string>, sep: char)
    requires |parts| >= 1
    requires forall k :: 0 <= k < |parts| ==> sep !in parts[k]
    ensures Fields(Join(parts, sep), sep) == parts
    decreases |parts|
  {
    if |parts| > 1 {
      FieldsOfJoin(parts[1..], sep);
      FieldsAfterSeparator(parts[0], sep, Join(parts[1..], sep));
      assert parts == [parts[0]] + parts[1..];
    }
  }

  /** A separator-free piece followed by the separator is split off as the first field. */
  lemma FieldsAfterSeparator(p: string, sep: char, rest: string)
    requires sep !in p
    ensures Fields(p + [sep] + rest, sep) == [p] + Fields(rest, sep)
  {
    var s := p + [sep] + rest;
    IndexOfAfter(p, sep, rest);
    assert s[..|p|] == p;
    assert s[|p| + 1..] == rest;
  }

  /** Joining undoes splitting into fields. */
  lemma {:induction false} JoinOfFields(s: string, sep: char)
    ensures Join(Fields(s, sep), sep) == s
    decreases |s|
  {
    var i := IndexOf(s, sep);
    if i == -1 {
      assert Fields(s, sep) == [s];
    } else {
      var g := Fields(s[i + 1..], sep);
      JoinOfFields(s[i + 1..], sep);
      var f := Fields(s, sep);
      assert f == [s[..i]] + g;
      assert f[0] == s[..i] && f[1..] == g;
      assert Join(f, sep) == s[..i] + [sep] + Join(g, sep);
      assert s == s[..i] + [sep] + s[i + 1..];
    }
  }

  lemma IndexOfAfter(p: string, c: char, rest: string)
    requires c !in p
    ensures IndexOf(p + [c] + rest, c) == |p|
  {
    var s := p + [c] + rest;
    assert s[..|p|] == p;
    IndexOfIs(s, c, |p|);
  }

  /** The first occurrence of `c` is where `indexOf` finds it. */
  lemma {:induction false} IndexOfIs(s: string, c: char, k: nat)
    requires k < |s| && s[k] == c && c !in s[..k]
    ensures IndexOf(s, c) == k
    decreases k
  {
    if k > 0 {
      assert s[0] == s[..k][0];
      assert s[1..][..k - 1] == s[..k][1..];
      IndexOfIs(s[1..], c, k - 1);
    }
  }

  predicate AllEmpty(parts: seq<string>)
  {
    forall k :: 0 <= k < |parts| ==> parts[k] == []
  }

  predicate AllSeparators(s: string, sep: char)
  {
    forall i :: 0 <= i < |s| ==> s[i] == sep
  }

  /** The fields of `s` are all empty exactly when `s` consists of separators. */
  lemma {:induction false} FieldsAllEmpty(s: string, sep: char)
    ensures AllEmpty(Fields(s, sep)) <==> AllSeparators(s, sep)
    decreases |s|
  {
    if sep !in s {
      assert Fields(s, sep) == [s];
      if |s| > 0 {
        assert Fields(s, sep)[0] != [];
        assert s[0] != sep;
      }
    } else {
      var i := IndexOf(s, sep);
      FieldsAllEmpty(s[i + 1..], sep);
      AllEmptyStep(s, sep);
      AllSeparatorsStep(s, sep);
    }
  }

  /** Past the first separator, the fields are all empty exactly when the first field is and the rest are. */
  lemma AllEmptyStep(s: string, sep: char)
    requires sep in s
    ensures AllEmpty(Fields(s, sep)) <==> IndexOf(s, sep) == 0 && AllEmpty(Fields(s[IndexOf(s, sep) + 1..], sep))
  {
    var i := IndexOf(s, sep);
    assert Fields(s, sep) == [s[..i]] + Fields(s[i + 1..], sep);
    AllEmptyCons(s[..i], Fields(s[i + 1..], sep));
  }

  lemma AllEmptyCons(first: string, rest: seq<string>)
    ensures AllEmpty([first] + rest) <==> first == [] && AllEmpty(rest)
  {
    var f := [first] + rest;
    if AllEmpty(f) {
      assert f[0] == first;
      forall k | 0 <= k < |rest| ensures rest[k] == [] {
        assert f[k + 1] == rest[k];
      }
    }
    if first == [] && AllEmpty(rest) {
      forall k | 0 <= k < |f| ensures f[k] == [] {
        if k > 0 {
          assert f[k] == rest[k - 1];
        }
      }
    }
  }

  /** A text holding a separator is all separators exactly when it starts with one and the rest is too. */
  lemma AllSeparatorsStep(s: string, sep: char)
    requires sep in s
    ensures AllSeparators(s, sep) <==> IndexOf(s, sep) == 0 && AllSeparators(s[IndexOf(s, sep) + 1..], sep)
  {
    var i := IndexOf(s, sep);
    if AllSeparators(s, sep) {
      IndexOfIs(s, sep, 0);
    }
    if i == 0 && AllSeparators(s[1..], sep) {
      forall j | 0 <= j < |s| ensures s[j] == sep {
        if j > 0 {
          assert s[j] == s[1..][j - 1];
        }
      }
    }
  }

  /** `split` yields no field exactly when `s` is one or more separators. */
  lemma SplitEmptyIff(s: string, sep: char)
    ensures Split(s, sep) == [] <==> |s| > 0 && forall i :: 0 <= i < |s| ==> s[i] == sep
  {
    FieldsAllEmpty(s, sep);
    if sep in s {
      var f := Fields(s, sep);
      var r := DropTrailingEmpty(f);
      if r == [] {
        assert AllEmpty(f);
      }
      assert |r| > 0 ==> r[|r| - 1] == f[|r| - 1];
    } else if |s| > 0 {
      assert s[0] != sep;
    }
  }

  // ---------------------------------------------------------------------
  // Decimal numerals: Integer.parseInt and int-to-text
  // ---------------------------------------------------------------------

  predicate IsDigit(c: char)
  {
    '0' <= c <= '9'
  }

  predicate AllDigits(s: string)
  {
    forall i :: 0 <= i < |s| ==> IsDigit(s[i])
  }

  function DigitChar(d: nat): (c: char)
    requires d < 10
    ensures IsDigit(c)
  {
    ('0' as int + d) as char
  }

  /** The value of a string of decimal digits, most significant first. */
  function DigitsValue(s: string): nat
    requires AllDigits(s)
  {
    if |s| == 0 then 0
    else DigitsValue(s[..|s| - 1]) * 10 + (s[|s| - 1] as int - '0' as int)
  }

  /**
   * `Integer.parseInt(s)` in radix 10: an optional sign and at least one
   * digit, whose value must fit in an `int`; anything else throws
   * NumberFormatException.
   */
  function ParseInt(s: string): (r: Result<int32>)
    ensures |s| == 0 ==> r == Threw(NumberFormat)
    ensures r.Ok? ==> exists i :: 0 <= i < |s| && IsDigit(s[i])
  {
    if |s| == 0 then Threw(NumberFormat)
    else
      var digits := if s[0] == '-' || s[0] == '+' then s[1..] else s;
      if |digits| == 0 || !AllDigits(digits) then Threw(NumberFormat)
      else
        assert IsDigit(s[|s| - 1]) by { assert s[|s| - 1] == digits[|digits| - 1]; }
        var v: int := if s[0] == '-' then -(DigitsValue(digits) as int) else DigitsValue(digits);
        if INT_MIN <= v <= INT_MAX then Ok(v) else Threw(NumberFormat)
  }

  /** The decimal text of a non-negative number, without leading zeros. */
  function NatToString(n: nat): (s: string)
    ensures |s| > 0 && AllDigits(s)
    ensures DigitsValue(s) == n
    ensures |s| > 1 ==> s[0] != '0'
  {
    if n < 10 then [DigitChar(n)]
    else
      var front := NatToString(n / 10);
      var s := front + [DigitChar(n % 10)];
      assert s[..|s| - 1] == front;
      s
  }

  /** `Integer.toString(n)`, as used by string concatenation. */
  function IntToString(n: int): string
  {
    if n < 0 then "-" + NatToString(-n) else NatToString(n)
  }

  /** `String.format("%02d", n)`: at least two characters, zero-padded. */
  function Format02(n: int): (s: string)
    ensures |s| >= 2
  {
    if 0 <= n < 10 then "0" + NatToString(n) else IntToString(n)
  }

  /** Parsing the text of a non-negative `int` gives the number back. */
  lemma ParseNatToString(n: nat)
    requires n <= INT_MAX
    ensures ParseInt(NatToString(n)) == Ok(n)
  {
    var s := NatToString(n);
    assert IsDigit(s[0]);
  }

  lemma {:induction false} LeadingZero(s: string)
    requires AllDigits(s)
    ensures AllDigits("0" + s) && DigitsValue("0" + s) == DigitsValue(s)
    decreases |s|
  {
    var t := "0" + s;
    if |s| > 0 {
      assert t[..|t| - 1] == "0" + s[..|s| - 1];
      LeadingZero(s[..|s| - 1]);
    }
  }

  /** Parsing "%02d" output of a non-negative `int` gives the number back. */
  lemma ParseFormat02(n: nat)
    requires n <= INT_MAX
    ensures ParseInt(Format02(n)) == Ok(n)
  {
    if n < 10 {
      LeadingZero(NatToString(n));
    } else {
      ParseNatToString(n);
    }
  }

  /** Decimal text contains no sign, dot, underscore or dash. */
  lemma DigitsExclude(s: string)
    requires AllDigits(s)
    ensures '.' !in s && '_' !in s && '-' !in s && '+' !in s
  {
    forall i | 0 <= i < |s| ensures s[i] != '.' && s[i] != '_' && s[i] != '-' && s[i] != '+' {
      assert IsDigit(s[i]);
    }
  }
}
