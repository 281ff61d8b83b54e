/**
 * Shared vocabulary of the model: an Option type, the Kotlin/JVM string
 * helpers the app leans on (Char.isWhitespace, trim, isBlank, split,
 * toIntOrNull, "%02d" formatting), clamping, and the truncating integer
 * division of Kotlin and Java.
 */
module Common {

  datatype Option<T> = None | Some(value: T)

  const INT_MIN: int := -0x8000_0000
  const INT_MAX: int := 0x7fff_ffff

  // ---------------------------------------------------------------------
  // Whitespace, trim, blank
  // ---------------------------------------------------------------------

  /** Kotlin's Char.isWhitespace on the JVM: Character.isWhitespace or Character.isSpaceChar. */
  predicate IsWhitespace(c: char)
  {
    var n := c as int;
    (0x09 <= n <= 0x0D) || (0x1C <= n <= 0x20) || n == 0xA0 || n == 0x1680
    || (0x2000 <= n <= 0x200A) || n == 0x2028 || n == 0x2029 || n == 0x202F
    || n == 0x205F || n == 0x3000
  }

  /** Kotlin's CharSequence.isBlank: empty or made only of whitespace. */
  predicate IsBlank(s: string)
  {
    forall i :: 0 <= i < |s| ==> IsWhitespace(s[i])
  }

  /** Kotlin's trimStart(): drops the leading whitespace. */
  function TrimStart(s: string): (r: string)
    ensures |r| <= |s|
    decreases |s|
  {
    if |s| > 0 && IsWhitespace(s[0]) then TrimStart(s[1..]) else s
  }

  /** trimStart() keeps a suffix, drops only whitespace and leaves none in front. */
  lemma {:induction false} TrimStartSpec(s: string)
    ensures var r := TrimStart(s);
            r == s[|s| - |r|..] && IsBlank(s[..|s| - |r|]) && (r != [] ==> !IsWhitespace(r[0]))
    decreases |s|
  {
    if |s| > 0 && IsWhitespace(s[0]) {
      var t := TrimStart(s[1..]);
      TrimStartSpec(s[1..]);
      assert s[..|s| - |t|] == [s[0]] + s[1..][..|s[1..]| - |t|];
    }
  }

  /** Kotlin's trimEnd(): drops the trailing whitespace. */
  function TrimEnd(s: string): (r: string)
    ensures |r| <= |s|
    decreases |s|
  {
    if |s| > 0 && IsWhitespace(s[|s| - 1]) then TrimEnd(s[..|s| - 1]) else s
  }

  /** trimEnd() keeps a prefix, drops only whitespace and leaves none at the back. */
  lemma {:induction false} TrimEndSpec(s: string)
    ensures var r := TrimEnd(s);
            r == s[..|r|] && IsBlank(s[|r|..]) && (r != [] ==> !IsWhitespace(r[|r| - 1]))
    decreases |s|
  {
    if |s| > 0 && IsWhitespace(s[|s| - 1]) {
      var t := TrimEnd(s[..|s| - 1]);
      TrimEndSpec(s[..|s| - 1]);
      assert s[|t|..] == s[..|s| - 1][|t|..] + [s[|s| - 1]];
    }
  }

  /** Kotlin's String.trim(): both ends. */
  function Trim(s: string): (r: string)
  {
    TrimEnd(TrimStart(s))
  }

  /** trim() keeps a contiguous slice of its input, removes only whitespace, and leaves no whitespace at either end. */
  lemma TrimIsSlice(s: string)
    ensures exists a, b :: 0 <= a <= b <= |s| && Trim(s) == s[a..b] && IsBlank(s[..a]) && IsBlank(s[b..])
    ensures Trim(s) != [] ==> !IsWhitespace(Trim(s)[0]) && !IsWhitespace(Trim(s)[|Trim(s)| - 1])
  {
    var t := TrimStart(s);
    TrimStartSpec(s);
    var a := |s| - |t|;
    var r := TrimEnd(t);
    TrimEndSpec(t);
    var b := a + |r|;
    assert s[a..b] == t[..|r|];
    assert s[b..] == t[|r|..];
    if r != [] {
      assert r[0] == t[0];
    }
  }

  /** isBlank() holds exactly when trim() leaves nothing. */
  lemma BlankIffTrimEmpty(s: string)
    ensures IsBlank(s) <==> Trim(s) == []
  {
    var t := TrimStart(s);
    TrimStartSpec(s);
    TrimEndSpec(t);
    if Trim(s) == [] {
      assert IsBlank(t[|t|..]);
      assert t[|t|..] == t;
      assert s == s[..|s| - |t|] + t;
    } else {
      TrimIsSlice(s);
      var r := Trim(s);
      var a, b :| 0 <= a <= b <= |s| && r == s[a..b] && IsBlank(s[..a]) && IsBlank(s[b..]);
      assert s[a] == r[0];
    }
  }

  /** Trimming twice is trimming once. */
  lemma TrimIdempotent(s: string)
    ensures Trim(Trim(s)) == Trim(s)
  {
    var r := Trim(s);
    TrimIsSlice(s);
    if r != [] {
      assert TrimStart(r) == r;
      assert TrimEnd(r) == r;
    }
  }

  // ---------------------------------------------------------------------
  // Searching and splitting
  // ---------------------------------------------------------------------

  /** Kotlin's indexOf(c): the first position of `c`, or -1. */
  function IndexOf(s: string, c: char): (r: int)
    ensures -1 <= r < |s|
    ensures r == -1 <==> c !in s
    ensures r >= 0 ==> s[r] == c && c !in s[..r]
  {
    if |s| == 0 then -1
    else if s[0] == c then 0
    else
      var k := IndexOf(s[1..], c);
      if k == -1 then -1
      else
        assert s[..k + 1] == [s[0]] + s[1..][..k];
        k + 1
  }

  /** Kotlin's split(sep) with one single-character delimiter and no limit: empty pieces are kept. */
  function Split(s: string, sep: char): (r: seq<string>)
    ensures |r| >= 1
    decreases |s|
  {
    var i := IndexOf(s, sep);
    if i == -1 then [s] else [s[..i]] + Split(s[i + 1..], sep)
  }

  /** Joins pieces back with the delimiter between them. */
  function Join(parts: seq<string>, sep: char): string
    decreases |parts|
  {
    if |parts| == 0 then []
    else if |parts| == 1 then parts[0]
    else parts[0] + [sep] + Join(parts[1..], sep)
  }

  /** Joining the pieces of split() gives the input back. */
  lemma {:induction false} SplitJoinBack(s: string, sep: char)
    ensures Join(Split(s, sep), sep) == s
    decreases |s|
  {
    var i := IndexOf(s, sep);
    if i != -1 {
      var rest := Split(s[i + 1..], sep);
      SplitJoinBack(s[i + 1..], sep);
      assert Split(s, sep) == [s[..i]] + rest;
      assert Join([s[..i]] + rest, sep) == s[..i] + [sep] + Join(rest, sep) by {
        assert ([s[..i]] + rest)[1..] == rest;
      }
      assert s == s[..i] + [sep] + s[i + 1..];
    }
  }

  /** No piece of split() holds the delimiter. */
  lemma {:induction false} SplitPiecesFree(s: string, sep: char)
    ensures forall k :: 0 <= k < |Split(s, sep)| ==> sep !in Split(s, sep)[k]
    decreases |s|
  {
    var i := IndexOf(s, sep);
    if i != -1 {
      var rest := Split(s[i + 1..], sep);
      SplitPiecesFree(s[i + 1..], sep);
      assert Split(s, sep) == [s[..i]] + rest;
      forall k | 0 <= k < |Split(s, sep)|
        ensures sep !in Split(s, sep)[k]
      {
        if k > 0 { assert Split(s, sep)[k] == rest[k - 1]; }
      }
    }
  }

  /** split() loses nothing: joining the pieces gives the input back, and no piece holds the delimiter. */
  lemma SplitJoin(s: string, sep: char)
    ensures Join(Split(s, sep), sep) == s
    ensures forall k :: 0 <= k < |Split(s, sep)| ==> sep !in Split(s, sep)[k]
  {
    SplitJoinBack(s, sep);
    SplitPiecesFree(s, sep);
  }

  /** A delimiter-free first piece followed by the delimiter is split off first. */
  lemma SplitCons(a: string, rest: string, sep: char)
    requires sep !in a
    ensures Split(a + [sep] + rest, sep) == [a] + Split(rest, sep)
  {
    var s := a + [sep] + rest;
    assert s[|a|] == sep && s[..|a|] == a;
    assert IndexOf(s, sep) == |a|;
    assert s[|a| + 1..] == rest;
  }

  /** With the delimiter, the first piece is the text before its first occurrence. */
  lemma SplitAtFirst(a: string, sep: char, j: int)
    requires 0 <= j < |a| && j == IndexOf(a, sep)
    ensures Split(a, sep) == [a[..j]] + Split(a[j + 1..], sep)
  {
  }

  /** Splitting at one delimiter between two texts splits each of them. */
  lemma {:induction false} SplitAround(a: string, rest: string, sep: char)
    ensures Split(a + [sep] + rest, sep) == Split(a, sep) + Split(rest, sep)
    decreases |a|
  {
    if sep !in a {
      SplitNoSeparator(a, sep);
      SplitCons(a, rest, sep);
    } else {
      var j := IndexOf(a, sep);
      assert j >= 0;
      SplitAtFirst(a, sep, j);
      SplitAroundHead(a, rest, sep, j);
      SplitAround(a[j + 1..], rest, sep);
      ConsAppend(a[..j], Split(a[j + 1..], sep), Split(rest, sep));
    }
  }

  lemma ConsAppend<T>(h: T, x: seq<T>, y: seq<T>)
    ensures [h] + (x + y) == ([h] + x) + y
  {
  }

  /** The first piece of `a` is also the first piece of `a`, the delimiter and `rest`. */
  lemma SplitAroundHead(a: string, rest: string, sep: char, j: int)
    requires 0 <= j < |a| && a[j] == sep && sep !in a[..j]
    ensures Split(a + [sep] + rest, sep) == [a[..j]] + Split(a[j + 1..] + [sep] + rest, sep)
  {
    var head, tail := a[..j], a[j + 1..];
    assert a == head + [sep] + tail;
    assert a + [sep] + rest == head + [sep] + (tail + [sep] + rest);
    SplitCons(head, tail + [sep] + rest, sep);
  }

  /** A string without the delimiter splits into itself alone. */
  lemma SplitNoSeparator(s: string, sep: char)
    requires sep !in s
    ensures Split(s, sep) == [s]
  {
  }

  /** Two delimiter-free texts joined by the delimiter split back into the two. */
  lemma SplitPair(a: string, b: string, sep: char)
    requires sep !in a && sep !in b
    ensures Split(a + [sep] + b, sep) == [a, b]
  {
    SplitCons(a, b, sep);
    SplitNoSeparator(b, sep);
  }

  // ---------------------------------------------------------------------
  // Decimal digits, toIntOrNull, "%d" and "%02d"
  // ---------------------------------------------------------------------

  predicate IsDigit(c: char)
  {
    '0' <= c <= '9'
  }

  predicate AllDigits(s: string)
  {
    forall i :: 0 <= i < |s| ==> IsDigit(s[i])
  }

  /** A run of digits has no whitespace to trim. */
  lemma DigitsTrimmed(s: string)
    requires |s| > 0 && AllDigits(s)
    ensures TrimStart(s) == s && TrimEnd(s) == s && Trim(s) == s
  {
    assert IsDigit(s[0]) && IsDigit(s[|s| - 1]);
  }

  function DigitValue(c: char): (d: nat)
    requires IsDigit(c)
    ensures d < 10
  {
    (c as int) - ('0' as int)
  }

  function DigitChar(d: nat): (c: char)
    requires d < 10
    ensures IsDigit(c) && DigitValue(c) == d
  {
    (('0' as int) + d) as char
  }

  /** The value of a run of decimal digits, most significant first. */
  function DigitsValue(s: string): (v: nat)
    requires AllDigits(s)
    decreases |s|
  {
    if |s| == 0 then 0 else DigitsValue(s[..|s| - 1]) * 10 + DigitValue(s[|s| - 1])
  }

  /** An integer inside the 32-bit range, or nothing (Kotlin's overflow check in toIntOrNull). */
  function InInt32(v: int): (r: Option<int>)
    ensures r.Some? <==> INT_MIN <= v <= INT_MAX
    ensures r.Some? ==> r.value == v
  {
    if INT_MIN <= v <= INT_MAX then Some(v) else None
  }

  /**
   * Kotlin's String.toIntOrNull() in base 10: an optional '+' or '-', then at
   * least one digit, with a value that fits in 32 bits; anything else is null.
   */
  function ParseInt(s: string): (r: Option<int>)
    ensures r.Some? ==> INT_MIN <= r.value <= INT_MAX
    ensures r.Some? ==> |s| > 0
    ensures (|s| > 0 && AllDigits(s) && DigitsValue(s) <= INT_MAX) ==> r == Some(DigitsValue(s))
  {
    if |s| == 0 then None
    else if s[0] == '-' || s[0] == '+' then
      if |s| > 1 && AllDigits(s[1..]) then
        InInt32(if s[0] == '-' then -(DigitsValue(s[1..]) as int) else DigitsValue(s[1..]))
      else None
    else if AllDigits(s) then InInt32(DigitsValue(s))
    else None
  }

  /**
   * The cases of toIntOrNull: a lone sign, a first character that is
   * neither sign nor digit, or a later non-digit give null; an unsigned or
   * signed digit run gives its value when that fits in 32 bits (so
   * "-2147483648" is read and "2147483648" is not).
   */
  lemma ParseIntCases(s: string)
    ensures |s| > 0 && !IsDigit(s[0]) && s[0] != '-' && s[0] != '+' ==> ParseInt(s).None?
    ensures |s| == 1 && (s[0] == '-' || s[0] == '+') ==> ParseInt(s).None?
    ensures |s| > 1 && !AllDigits(s[1..]) ==> ParseInt(s).None?
    ensures |s| > 0 && AllDigits(s) && DigitsValue(s) > INT_MAX ==> ParseInt(s).None?
    ensures |s| > 1 && s[0] == '-' && AllDigits(s[1..]) ==>
              (ParseInt(s).Some? <==> DigitsValue(s[1..]) <= -INT_MIN)
              && (ParseInt(s).Some? ==> ParseInt(s).value == -(DigitsValue(s[1..]) as int))
    ensures |s| > 1 && s[0] == '+' && AllDigits(s[1..]) ==>
              (ParseInt(s).Some? <==> DigitsValue(s[1..]) <= INT_MAX)
              && (ParseInt(s).Some? ==> ParseInt(s).value == DigitsValue(s[1..]))
  {
    if |s| > 1 && !AllDigits(s[1..]) {
      var i :| 0 <= i < |s[1..]| && !IsDigit(s[1..][i]);
      assert !IsDigit(s[i + 1]);
    }
  }

  /** Decimal rendering of a natural number, with no leading zero. */
  function NatToString(n: nat): (s: string)
    ensures |s| >= 1 && AllDigits(s)
    decreases n
  {
    if n < 10 then [DigitChar(n)] else NatToString(n / 10) + [DigitChar(n % 10)]
  }

  /** Reading back a rendered natural number gives the number. */
  lemma {:induction false} NatToStringRoundTrip(n: nat)
    ensures DigitsValue(NatToString(n)) == n
    decreases n
  {
    if n >= 10 {
      NatToStringRoundTrip(n / 10);
      var s := NatToString(n);
      assert s[..|s| - 1] == NatToString(n / 10);
    }
  }

  /** Kotlin's "%d" / toString of an integer. */
  function IntToString(n: int): string
  {
    if n < 0 then "-" + NatToString(-n) else NatToString(n)
  }

  /** toIntOrNull reads back every 32-bit integer that toString wrote. */
  lemma IntToStringRoundTrip(n: int)
    requires INT_MIN <= n <= INT_MAX
    ensures ParseInt(IntToString(n)) == Some(n)
  {
    NatToStringRoundTrip(if n < 0 then -n else n);
    if n < 0 {
      assert IntToString(n)[1..] == NatToString(-n);
    }
  }

  /** String.format("%02d", n): at least two characters, zero-padded after any sign. */
  function Pad2(n: int): (s: string)
    ensures 0 <= n < 100 ==> |s| == 2 && AllDigits(s) && DigitsValue(s) == n
    ensures n >= 0 ==> AllDigits(s) && |s| >= 2 && DigitsValue(s) == n
  {
    if 0 <= n < 10 then
      var r := ['0', DigitChar(n)];
      assert r[..1] == ['0'] && ['0'][..0] == [];
      r
    else
      NatToStringRoundTrip(if n < 0 then -n else n);
      if 10 <= n < 100 then
        assert NatToString(n) == [DigitChar(n / 10), DigitChar(n % 10)];
        IntToString(n)
      else IntToString(n)
  }

  /** A two-digit rendering read back with toIntOrNull gives the number. */
  lemma Pad2RoundTrip(n: int)
    requires 0 <= n < 100
    ensures ParseInt(Pad2(n)) == Some(n)
  {
  }

  /**
   * "%02d:%02d" of total / 60 and total % 60, Kotlin's truncating division:
   * hours and minutes of a minute count, or minutes and seconds of a
   * second count.
   */
  function Base60Clock(total: int): (s: string)
  {
    Pad2(TruncDiv(total, 60)) + ":" + Pad2(TruncRem(total, 60))
  }

  /**
   * For a non-negative count the text splits at its one ':' into two
   * digit runs, the second exactly two digits below 60, and reading them
   * back as high * 60 + low gives the count.
   */
  lemma Base60ClockReadBack(total: int)
    requires total >= 0
    ensures var parts := Split(Base60Clock(total), ':');
            && |parts| == 2
            && AllDigits(parts[0]) && |parts[0]| >= 2
            && AllDigits(parts[1]) && |parts[1]| == 2
            && DigitsValue(parts[1]) < 60
            && DigitsValue(parts[0]) * 60 + DigitsValue(parts[1]) == total
  {
    var hi, lo := Pad2(TruncDiv(total, 60)), Pad2(TruncRem(total, 60));
    assert ':' !in hi && ':' !in lo;
    SplitCons(hi, lo, ':');
  }

  // ---------------------------------------------------------------------
  // Arithmetic
  // ---------------------------------------------------------------------

  /** Kotlin's coerceIn(lo, hi). */
  function Clamp(x: int, lo: int, hi: int): (r: int)
    requires lo <= hi
    ensures lo <= r <= hi
    ensures lo <= x <= hi ==> r == x
    ensures x < lo ==> r == lo
    ensures x > hi ==> r == hi
  {
    if x < lo then lo else if x > hi then hi else x
  }

  function Max(a: int, b: int): (r: int)
    ensures r >= a && r >= b && (r == a || r == b)
  {
    if a >= b then a else b
  }

  function Min(a: int, b: int): (r: int)
    ensures r <= a && r <= b && (r == a || r == b)
  {
    if a <= b then a else b
  }

  /** Kotlin/Java integer division: the quotient is rounded toward zero. */
  function TruncDiv(a: int, b: int): (q: int)
    requires b > 0
    ensures a >= 0 ==> q == a / b
    ensures a < 0 ==> q == -((-a) / b)
    ensures q * b + TruncRem(a, b) == a
  {
    if a >= 0 then a / b else -((-a) / b)
  }

  /** Kotlin/Java remainder: it takes the sign of the dividend. */
  function TruncRem(a: int, b: int): (m: int)
    requires b > 0
    ensures a >= 0 ==> 0 <= m < b
    ensures a < 0 ==> -b < m <= 0
  {
    if a >= 0 then a % b else -((-a) % b)
  }

  // ---------------------------------------------------------------------
  // ASCII case folding (used for equals(ignoreCase = true))
  // ---------------------------------------------------------------------

  function LowerAscii(c: char): (r: char)
    ensures ('A' <= c <= 'Z') ==> r == (c as int + 32) as char
    ensures !('A' <= c <= 'Z') ==> r == c
  {
    if 'A' <= c <= 'Z' then (c as int + 32) as char else c
  }

  /** Two strings equal up to ASCII letter case. */
  predicate EqualsIgnoreCase(a: string, b: string)
  {
    |a| == |b| && forall i :: 0 <= i < |a| ==> LowerAscii(a[i]) == LowerAscii(b[i])
  }
}
