/** A small optional-value type, used for Kotlin's nullable results. */
module Wrappers {
  datatype Option<+T> = None | Some(value: T)
}

/**
 * The pieces of the Kotlin standard library the clock app leans on:
 * `Int.toString()`, `String.padStart(2, '0')`, `String.toIntOrNull()`,
 * `String.isNotBlank()` and `indexOf`.
 * Kotlin's `Int` is a 32-bit signed integer; the bounds below are its range.
 */
module KotlinText {
  import opened Wrappers

  const INT_MIN: int := -0x8000_0000
  const INT_MAX: int := 0x7FFF_FFFF

  predicate IsInt32(n: int) {
    INT_MIN <= n <= INT_MAX
  }

  predicate IsDigit(c: char) {
    '0' <= c <= '9'
  }

  predicate AllDigits(s: string) {
    forall i :: 0 <= i < |s| ==> IsDigit(s[i])
  }

  function DigitValue(c: char): (d: nat)
    requires IsDigit(c)
    ensures d < 10
  {
    c as int - '0' as int
  }

  function DigitChar(d: nat): (c: char)
    requires d < 10
    ensures IsDigit(c) && DigitValue(c) == d
  {
    ('0' as int + d) as char
  }

  /** The decimal digits of `n`, most significant first, without leading zeros. */
  function NatToDigits(n: nat): (s: string)
    ensures 1 <= |s| && AllDigits(s)
    ensures (|s| == 1) == (n < 10)
    decreases n
  {
    if n < 10 then [DigitChar(n)] else NatToDigits(n / 10) + [DigitChar(n % 10)]
  }

  /** `Int.toString()`: a minus sign for negative values, then the decimal digits. */
  function IntToString(n: int): (s: string)
    ensures 1 <= |s|
    ensures (s[0] == '-') == (n < 0)
  {
    if n < 0 then "-" + NatToDigits(-n) else NatToDigits(n)
  }

  /** A printed Int is a '-' exactly for negative values, then decimal digits only. */
  lemma IntToStringChars(n: int)
    ensures AllDigits(if n < 0 then IntToString(n)[1..] else IntToString(n))
    ensures forall i :: 0 <= i < |IntToString(n)| ==> IntToString(n)[i] == '-' || IsDigit(IntToString(n)[i])
  {
    if n < 0 {
      assert IntToString(n)[1..] == NatToDigits(-n);
    }
  }

  /** The value of a string of decimal digits, read most significant digit first. */
  function ParseDigits(s: string): nat
    requires AllDigits(s)
  {
    if s == [] then 0 else ParseDigits(s[..|s| - 1]) * 10 + DigitValue(s[|s| - 1])
  }

  /**
   * `String.toIntOrNull()` (radix 10): an optional leading '+' or '-', then at
   * least one decimal digit and nothing else, with a value inside Kotlin's Int
   * range; anything else gives null (`None`).
   */
  function ToIntOrNull(s: string): (r: Option<int>)
    ensures r.Some? ==> IsInt32(r.value) && 1 <= |s| && IsDigit(s[|s| - 1])
    ensures r.Some? && !IsDigit(s[0]) ==> 2 <= |s| && (s[0] == '-' || s[0] == '+')
  {
    if |s| == 0 then None
    else if s[0] == '-' || s[0] == '+' then
      if |s| == 1 || !AllDigits(s[1..]) then None
      else
        var magnitude: int := ParseDigits(s[1..]);
        var v: int := if s[0] == '-' then -magnitude else magnitude;
        if IsInt32(v) then Some(v) else None
    else if AllDigits(s) && ParseDigits(s) <= INT_MAX then Some(ParseDigits(s))
    else None
  }

  /** A leading sign `toIntOrNull` accepts. */
  predicate IsSign(c: char) {
    c == '+' || c == '-'
  }

  /** Where the digits of a number text start: after one leading sign, if there is one. */
  function DigitsStart(s: string): (k: nat)
    ensures k <= 1 && k <= |s|
  {
    if |s| > 0 && IsSign(s[0]) then 1 else 0
  }

  /** Decimal Int syntax: an optional sign, then at least one digit, and nothing else. */
  predicate IsIntLiteral(s: string) {
    DigitsStart(s) < |s| && forall i :: DigitsStart(s) <= i < |s| ==> IsDigit(s[i])
  }

  /** The value a decimal literal denotes: its digits, negated after a '-'. */
  function LiteralValue(s: string): int
    requires IsIntLiteral(s)
  {
    var k := DigitsStart(s);
    assert AllDigits(s[k..]) by {
      forall i | 0 <= i < |s[k..]| ensures IsDigit(s[k..][i]) {
        assert s[k..][i] == s[k + i];
      }
    }
    var magnitude: int := ParseDigits(s[k..]);
    if s[0] == '-' then -magnitude else magnitude
  }

  /**
   * `toIntOrNull` succeeds exactly on decimal literals whose value is in the
   * Int range, and then gives that value.
   */
  lemma ToIntOrNullCharacterization(s: string)
    ensures ToIntOrNull(s).Some? <==> IsIntLiteral(s) && IsInt32(LiteralValue(s))
    ensures ToIntOrNull(s).Some? ==> IsIntLiteral(s) && ToIntOrNull(s).value == LiteralValue(s)
  {
    if |s| > 0 {
      var k := DigitsStart(s);
      assert AllDigits(s[k..]) <==> forall i :: k <= i < |s| ==> IsDigit(s[i]) by {
        forall i | k <= i < |s| ensures s[k..][i - k] == s[i] { }
      }
      assert s[k..] == if k == 1 then s[1..] else s;
    }
  }

  /** Kotlin `Int` arithmetic: a result is taken modulo 2^32 into the Int range. */
  function WrapInt(x: int): (r: int)
    ensures IsInt32(r)
    ensures (r - x) % 0x1_0000_0000 == 0
    ensures IsInt32(x) ==> r == x
  {
    var q := (x - INT_MIN) / 0x1_0000_0000;
    var r := (x - INT_MIN) % 0x1_0000_0000 + INT_MIN;
    assert r - x == -q * 0x1_0000_0000;
    r
  }

  /** `padStart(2, '0')`: left-pad with '0' up to two characters; longer strings are kept. */
  function PadStart2(s: string): (r: string)
    ensures |r| == if |s| >= 2 then |s| else 2
  {
    if |s| >= 2 then s else seq(2 - |s|, _ => '0') + s
  }

  /** The padded string ends with the original and everything before it is '0'. */
  lemma PadStart2Spec(s: string)
    ensures var r := PadStart2(s);
      && r[|r| - |s|..] == s
      && forall i :: 0 <= i < |r| - |s| ==> r[i] == '0'
  {
  }

  /** `n.toString().padStart(2, '0')`, the formatting every clock field uses. */
  function TwoDigitField(n: int): (r: string)
    ensures 2 <= |r|
  {
    PadStart2(IntToString(n))
  }

  /** A field holds only '-' and decimal digits. */
  lemma TwoDigitFieldChars(n: int)
    ensures forall i :: 0 <= i < |TwoDigitField(n)| ==> TwoDigitField(n)[i] == '-' || IsDigit(TwoDigitField(n)[i])
  {
    IntToStringChars(n);
    var s := IntToString(n);
    if |s| < 2 {
      assert TwoDigitField(n) == ['0'] + s;
    }
  }

  /**
   * `Char.isWhitespace()` as the JVM target defines it
   * (`Character.isWhitespace || Character.isSpaceChar`), which includes the
   * ideographic space U+3000 typed by Japanese input methods.
   */
  predicate IsWhitespace(c: char) {
    ('\U{9}' <= c <= '\U{D}') || ('\U{1C}' <= c <= '\U{20}')
    || c == '\U{A0}' || c == '\U{1680}' || ('\U{2000}' <= c <= '\U{200A}')
    || c == '\U{2028}' || c == '\U{2029}' || c == '\U{202F}' || c == '\U{205F}'
    || c == '\U{3000}'
  }

  /** `String.isNotBlank()`: some character is not whitespace. */
  predicate IsNotBlank(s: string) {
    exists i :: 0 <= i < |s| && !IsWhitespace(s[i])
  }

  /**
   * `indexOf(x)` on a `CharSequence` or a `List`: the first position holding
   * an element equal to `x`, or -1.
   */
  function IndexOf<T(==)>(s: seq<T>, x: T): (i: int)
    ensures -1 <= i < |s|
    ensures i == -1 <==> x !in s
    ensures 0 <= i ==> s[i] == x
  {
    if |s| == 0 then -1
    else if s[0] == x then 0
    else
      var k := IndexOf(s[1..], x);
      if k == -1 then -1 else k + 1
  }

  /** No element before the index found is equal to `x`: it is the first occurrence. */
  lemma {:induction false} IndexOfIsFirst<T>(s: seq<T>, x: T)
    ensures 0 <= IndexOf(s, x) ==> x !in s[..IndexOf(s, x)]
  {
    if |s| > 0 && s[0] != x {
      var k := IndexOf(s[1..], x);
      IndexOfIsFirst(s[1..], x);
      if 0 <= k {
        assert s[..k + 1] == [s[0]] + s[1..][..k];
      }
    }
  }

  /** In `a + [x] + b` with no `x` in `a`, the first `x` is the one after `a`. */
  lemma {:induction false} IndexOfAfter<T>(a: seq<T>, x: T, b: seq<T>)
    requires x !in a
    ensures IndexOf(a + [x] + b, x) == |a|
  {
    if a != [] {
      assert (a + [x] + b)[1..] == a[1..] + [x] + b;
      IndexOfAfter(a[1..], x, b);
    }
  }

  /** Splitting `a + [c] + b` at its first `c` gives back `a` and `b` when `a` holds no `c`. */
  lemma SplitAtFirst(a: string, c: char, b: string)
    requires c !in a
    ensures var t := a + [c] + b; IndexOf(t, c) == |a| && t[..|a|] == a && t[|a| + 1..] == b
  {
    IndexOfAfter(a, c, b);
    var t := a + [c] + b;
    assert t[..|a|] == a && t[|a| + 1..] == b;
  }

  /** Printed Ints hold only '-' and digits, so any other character can delimit them. */
  lemma NotInIntToString(n: int, c: char)
    requires c != '-' && !IsDigit(c)
    ensures c !in IntToString(n)
  {
    IntToStringChars(n);
    var s := IntToString(n);
    forall i | 0 <= i < |s| ensures s[i] != c { }
  }

  // ---------------------------------------------------------------------
  // Round trips between formatting and parsing

  lemma {:induction false} ParseDigitsSnoc(s: string, c: char)
    requires AllDigits(s) && IsDigit(c)
    ensures AllDigits(s + [c]) && ParseDigits(s + [c]) == ParseDigits(s) * 10 + DigitValue(c)
  {
    assert (s + [c])[..|s + [c]| - 1] == s;
  }

  /** Reading back the digits of `n` gives `n`. */
  lemma {:induction false} NatDigitsRoundTrip(n: nat)
    ensures ParseDigits(NatToDigits(n)) == n
  {
    if n >= 10 {
      NatDigitsRoundTrip(n / 10);
      ParseDigitsSnoc(NatToDigits(n / 10), DigitChar(n % 10));
    }
  }

  /** `toIntOrNull` inverts `toString` on the whole Int range. */
  lemma IntToStringRoundTrip(n: int)
    requires IsInt32(n)
    ensures ToIntOrNull(IntToString(n)) == Some(n)
  {
    NatDigitsRoundTrip(if n < 0 then -n else n);
    if n < 0 {
      assert IntToString(n)[1..] == NatToDigits(-n);
    } else {
      assert IsDigit(IntToString(n)[0]);
    }
  }

  /** `toIntOrNull` inverts the zero-padded two-character formatting on the whole Int range. */
  lemma TwoDigitFieldRoundTrip(n: int)
    requires IsInt32(n)
    ensures ToIntOrNull(TwoDigitField(n)) == Some(n)
  {
    if 0 <= n < 10 {
      var s := TwoDigitField(n);
      assert IntToString(n) == [DigitChar(n)];
      assert s == ['0'] + [DigitChar(n)];
      assert ParseDigits(['0']) == 0 by { assert ['0'][..0] == []; }
      ParseDigitsSnoc(['0'], DigitChar(n));
      assert AllDigits(s) && ParseDigits(s) == n;
    } else {
      IntToStringRoundTrip(n);
    }
  }

  /** For 0..99 the field is exactly two decimal digits. */
  lemma TwoDigitFieldShape(n: int)
    requires 0 <= n < 100
    ensures |TwoDigitField(n)| == 2 && AllDigits(TwoDigitField(n))
  {
    if n >= 10 {
      assert |NatToDigits(n / 10)| == 1;
    }
  }

  /** Two values of the Int range never share a field string. */
  lemma TwoDigitFieldInjective(a: int, b: int)
    requires IsInt32(a) && IsInt32(b)
    ensures TwoDigitField(a) == TwoDigitField(b) <==> a == b
  {
    TwoDigitFieldRoundTrip(a);
    TwoDigitFieldRoundTrip(b);
  }

  /** Whatever `toIntOrNull` accepts is not blank: it ends with a digit. */
  lemma ParsableIsNotBlank(s: string)
    requires ToIntOrNull(s).Some?
    ensures IsNotBlank(s)
  {
    assert !IsWhitespace(s[|s| - 1]);
  }

  /**
   * One field of a delimited text: the text before the first `c`, parsed
   * with `toIntOrNull`, and the text after that `c`; `None` when `c` does not
   * occur or the field is not an Int.
   */
  function ReadIntUntil(s: string, c: char): (r: Option<(int, string)>)
    ensures r.Some? ==> IsInt32(r.value.0) && |r.value.1| < |s|
  {
    var i := IndexOf(s, c);
    if i < 0 then None
    else match ToIntOrNull(s[..i])
      case None => None
      case Some(n) => Some((n, s[i + 1..]))
  }

  /**
   * A printed Int followed by a delimiter that is neither '-' nor a digit:
   * the first delimiter ends the number, which parses back.
   */
  lemma {:induction false} ReadIntField(n: int, c: char, b: string)
    requires IsInt32(n) && c != '-' && !IsDigit(c)
    ensures ReadIntUntil(IntToString(n) + ([c] + b), c) == Some((n, b))
  {
    var a := IntToString(n);
    var t := a + ([c] + b);
    assert t == a + [c] + b;
    NotInIntToString(n, c);
    SplitAtFirst(a, c, b);
    assert IndexOf(t, c) == |a| && t[..|a|] == a && t[|a| + 1..] == b;
    IntToStringRoundTrip(n);
    assert ToIntOrNull(t[..|a|]) == Some(n);
  }

  /**
   * Each Int printed and followed by its delimiter, then the text `rest`:
   * the shape of a date template.
   */
  function DelimitedInts(ns: seq<int>, delims: string, rest: string): string
    requires |ns| == |delims|
  {
    if ns == [] then rest
    else IntToString(ns[0]) + ([delims[0]] + DelimitedInts(ns[1..], delims[1..], rest))
  }

  /**
   * The reader for such text: one field per delimiter, in order; the unread
   * rest is returned with the values.
   */
  function ReadDelimitedInts(s: string, delims: string): (r: Option<(seq<int>, string)>)
    ensures r.Some? ==> |r.value.0| == |delims|
  {
    if delims == [] then Some(([], s))
    else match ReadIntUntil(s, delims[0])
      case None => None
      case Some(first) =>
        match ReadDelimitedInts(first.1, delims[1..])
        case None => None
        case Some(others) => Some(([first.0] + others.0, others.1))
  }

  /** One step of the reader: a first field, then the fields after it. */
  lemma ReadDelimitedIntsCons(s: string, delims: string, n: int, tail: string, ns: seq<int>, rest: string)
    requires delims != []
    requires ReadIntUntil(s, delims[0]) == Some((n, tail))
    requires ReadDelimitedInts(tail, delims[1..]) == Some((ns, rest))
    ensures ReadDelimitedInts(s, delims) == Some(([n] + ns, rest))
  {
  }

  /** The first field of delimited Ints reads back, leaving the other fields. */
  lemma DelimitedIntsHead(ns: seq<int>, delims: string, rest: string)
    requires |ns| == |delims| && ns != []
    requires IsInt32(ns[0]) && delims[0] != '-' && !IsDigit(delims[0])
    ensures ReadIntUntil(DelimitedInts(ns, delims, rest), delims[0])
      == Some((ns[0], DelimitedInts(ns[1..], delims[1..], rest)))
  {
    var tail := DelimitedInts(ns[1..], delims[1..], rest);
    assert DelimitedInts(ns, delims, rest) == IntToString(ns[0]) + ([delims[0]] + tail);
    ReadIntField(ns[0], delims[0], tail);
  }

  /** The step of the round trip: the first field reads back, then the fields after it. */
  lemma DelimitedIntsStep(ns: seq<int>, delims: string, rest: string)
    requires |ns| == |delims| && ns != []
    requires IsInt32(ns[0]) && delims[0] != '-' && !IsDigit(delims[0])
    requires ReadDelimitedInts(DelimitedInts(ns[1..], delims[1..], rest), delims[1..]) == Some((ns[1..], rest))
    ensures ReadDelimitedInts(DelimitedInts(ns, delims, rest), delims) == Some((ns, rest))
  {
    DelimitedIntsHead(ns, delims, rest);
    ReadDelimitedIntsCons(DelimitedInts(ns, delims, rest), delims, ns[0],
      DelimitedInts(ns[1..], delims[1..], rest), ns[1..], rest);
    assert [ns[0]] + ns[1..] == ns;
  }

  /** Reading delimited Ints back gives the printed values and the text after them. */
  lemma {:induction false} DelimitedIntsRoundTrip(ns: seq<int>, delims: string, rest: string)
    requires |ns| == |delims|
    requires forall k :: 0 <= k < |ns| ==> IsInt32(ns[k])
    requires forall k :: 0 <= k < |delims| ==> delims[k] != '-' && !IsDigit(delims[k])
    ensures ReadDelimitedInts(DelimitedInts(ns, delims, rest), delims) == Some((ns, rest))
  {
    if ns != [] {
      DelimitedIntsRoundTrip(ns[1..], delims[1..], rest);
      DelimitedIntsStep(ns, delims, rest);
    }
  }
}
