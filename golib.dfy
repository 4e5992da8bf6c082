/** The pieces of Go's runtime and standard library the collector relies on:
    byte strings, calls that panic, strings.Split on "." and strconv.Atoi
    (for a 64-bit `int`). */
module GoLib {

  /** A Go byte, written as the character with the same code, so that ASCII
      text can be written as ordinary literals. A Go string is a sequence of them. */
  type byte = c: char | c as int < 256
  type GoString = seq<byte>

  /** Why a Go call panicked instead of returning. */
  datatype Panic =
    | SliceBounds      // s[:n] with n > len(s)
    | IndexOutOfRange  // s[i] with i >= len(s)
    | TypeAssertion    // x.(T) where the dynamic type of x is not T

  /** A Go call either returns a value or panics. */
  datatype Run<+T> = Returns(value: T) | Panics(cause: Panic)

  datatype Option<+T> = None | Some(value: T)

  /** A Go `(T, error)` pair in which exactly one half is meaningful. */
  datatype Result<+T, +E> = Ok(value: T) | Err(error: E)

  // ---------------------------------------------------------------------------
  // strings.Split(s, ".")

  const Dot: byte := '.'

  /** strings.Split(s, "."): the pieces of `s` between its dots, in order.
      Like Go, the empty string splits into one empty piece. */
  function Split(s: GoString): (parts: seq<GoString>)
    ensures |parts| >= 1
    ensures forall i :: 0 <= i < |parts| ==> Dot !in parts[i]
  {
    if |s| == 0 then [[]]
    else if s[0] == Dot then [[]] + Split(s[1..])
    else
      var rest := Split(s[1..]);
      [[s[0]] + rest[0]] + rest[1..]
  }

  /** strings.Join(parts, "."), the inverse of Split. */
  function Join(parts: seq<GoString>): GoString
    requires |parts| >= 1
  {
    if |parts| == 1 then parts[0] else parts[0] + [Dot] + Join(parts[1..])
  }

  lemma {:induction false} JoinSplit(s: GoString)
    ensures Join(Split(s)) == s
  {
    if |s| == 0 {
    } else if s[0] == Dot {
      JoinSplit(s[1..]);
      assert Split(s)[1..] == Split(s[1..]);
    } else {
      JoinSplit(s[1..]);
      var rest := Split(s[1..]);
      if |rest| == 1 {
        assert Split(s) == [[s[0]] + rest[0]];
      } else {
        assert Split(s)[1..] == rest[1..];
        assert Join(rest) == rest[0] + [Dot] + Join(rest[1..]);
      }
    }
  }

  lemma {:induction false} SplitJoin(parts: seq<GoString>)
    requires |parts| >= 1
    requires forall i :: 0 <= i < |parts| ==> Dot !in parts[i]
    ensures Split(Join(parts)) == parts
  {
    if |parts| == 1 {
      SplitPieceAlone(parts[0]);
    } else {
      SplitJoin(parts[1..]);
      SplitPieceFront(parts[0], parts[1..]);
    }
  }

  /** A dot-free string is a single piece. */
  lemma {:induction false} SplitPieceAlone(p: GoString)
    requires Dot !in p
    ensures Split(p) == [p]
  {
    if |p| > 0 {
      SplitPieceAlone(p[1..]);
      assert [p[0]] + p[1..] == p;
    }
  }

  /** A dot-free piece in front of a dot becomes the first piece. */
  lemma {:induction false} SplitPieceFront(p: GoString, more: seq<GoString>)
    requires Dot !in p && |more| >= 1
    requires Split(Join(more)) == more
    ensures Split(p + [Dot] + Join(more)) == [p] + more
  {
    var s := p + [Dot] + Join(more);
    if |p| == 0 {
      assert s == [Dot] + Join(more);
      assert s[1..] == Join(more);
    } else {
      SplitPieceFront(p[1..], more);
      assert s[0] == p[0];
      assert s[1..] == p[1..] + [Dot] + Join(more);
      var rest := Split(s[1..]);
      assert rest == [p[1..]] + more;
      assert Split(s) == [[p[0]] + rest[0]] + rest[1..];
      assert [p[0]] + p[1..] == p;
    }
  }

  // ---------------------------------------------------------------------------
  // strconv.Atoi for a 64-bit int

  const MaxUint64: int := 0xFFFF_FFFF_FFFF_FFFF
  const MaxInt64: int := 0x7FFF_FFFF_FFFF_FFFF
  const MinInt64: int := -0x8000_0000_0000_0000

  predicate IsDigit(b: byte) {
    '0' <= b <= '9'
  }

  function DigitValue(b: byte): nat
    requires IsDigit(b)
  {
    b as int - '0' as int
  }

  /** The outcome of strconv.ParseUint(s, 10, 64). */
  datatype Unsigned = SyntaxError | RangeError | Parsed(n: nat)

  /** The digit loop of ParseUint in base 10, `acc` being the value read so far.
      Each byte is first checked to be a digit, then the running value is checked
      against 2^64 - 1; the loop stops at the first failure of either check. */
  function ParseDigits(s: GoString, acc: nat): (u: Unsigned)
    requires acc <= MaxUint64
    ensures u.Parsed? ==> acc <= u.n <= MaxUint64
  {
    if |s| == 0 then Parsed(acc)
    else if !IsDigit(s[0]) then SyntaxError
    else if acc * 10 + DigitValue(s[0]) > MaxUint64 then RangeError
    else ParseDigits(s[1..], acc * 10 + DigitValue(s[0]))
  }

  function ParseUint(s: GoString): Unsigned {
    if |s| == 0 then SyntaxError else ParseDigits(s, 0)
  }

  function Magnitude(s: GoString): GoString {
    if |s| > 0 && (s[0] == '-' || s[0] == '+') then s[1..] else s
  }

  /** strconv.Atoi(s) with its error discarded, as `j, _ := strconv.Atoi(i)` does:
      a syntax error gives 0, a range error gives the saturated bound. The fast
      path Go takes for strings shorter than 19 bytes gives the same results. */
  function Atoi(s: GoString): (n: int)
    ensures MinInt64 <= n <= MaxInt64
  {
    if |s| == 0 then 0
    else
      var neg := s[0] == '-';
      match ParseUint(Magnitude(s))
      case SyntaxError => 0
      case RangeError => if neg then MinInt64 else MaxInt64
      case Parsed(u) =>
        if !neg && u > MaxInt64 then MaxInt64
        else if neg && u > -MinInt64 then MinInt64
        else if neg then -(u as int) else u
  }

  // ---------------------------------------------------------------------------
  // Decimal text: a reference definition for what Atoi reads

  predicate AllDigits(s: GoString) {
    forall i :: 0 <= i < |s| ==> IsDigit(s[i])
  }

  /** An optional sign followed by at least one decimal digit. */
  predicate Numeric(s: GoString) {
    |s| > 0 && |Magnitude(s)| > 0 && AllDigits(Magnitude(s))
  }

  function Pow10(k: nat): (p: nat)
    ensures p >= 1
  {
    if k == 0 then 1 else 10 * Pow10(k - 1)
  }

  /** The value of a string of decimal digits, read from its last digit. */
  function DecimalValue(s: GoString): nat
    requires AllDigits(s)
  {
    if |s| == 0 then 0 else DecimalValue(s[..|s| - 1]) * 10 + DigitValue(s[|s| - 1])
  }

  /** The value an int64 saturates to. */
  function Saturate(x: int): int {
    if x > MaxInt64 then MaxInt64 else if x < MinInt64 then MinInt64 else x
  }

  /** Decimal text of a natural number, without leading zeros. */
  function DecimalText(n: nat): (s: GoString)
    ensures |s| >= 1 && AllDigits(s) && s[0] != '-' && s[0] != '+'
  {
    var d := ('0' as int + n % 10) as char;
    if n < 10 then [d] else DecimalText(n / 10) + [d]
  }

  lemma {:induction false} DecimalValueCons(s: GoString)
    requires |s| > 0 && AllDigits(s)
    ensures DecimalValue(s) == DigitValue(s[0]) * Pow10(|s| - 1) + DecimalValue(s[1..])
  {
    if |s| == 1 {
      assert s[..0] == [];
      assert s[1..] == [];
    } else {
      var p := s[..|s| - 1];
      DecimalValueCons(p);
      assert p[0] == s[0];
      assert p[1..] == s[1..][..|s| - 2];
      assert s[1..][|s| - 2] == s[|s| - 1];
      var k := |s| - 2;
      var x, y, z := DigitValue(s[0]), DecimalValue(p[1..]), DigitValue(s[|s| - 1]);
      assert DecimalValue(s[1..]) == y * 10 + z;
      assert Pow10(k + 1) == Pow10(k) * 10;
      Regroup(x, Pow10(k), y, z);
    }
  }

  lemma Regroup(x: int, p: int, y: int, z: int)
    ensures (x * p + y) * 10 + z == x * (p * 10) + (y * 10 + z)
  {
  }

  lemma {:induction false} ParseDigitsValue(s: GoString, acc: nat)
    requires acc <= MaxUint64 && AllDigits(s)
    ensures var v := acc * Pow10(|s|) + DecimalValue(s);
      ParseDigits(s, acc) == if v > MaxUint64 then RangeError else Parsed(v)
  {
    if |s| > 0 {
      var a := acc * 10 + DigitValue(s[0]);
      var r := s[1..];
      DecimalValueCons(s);
      ShiftDigit(acc, DigitValue(s[0]), |r|, DecimalValue(r));
      if a <= MaxUint64 {
        ParseDigitsValue(r, a);
      }
    }
  }

  /** Reading one more digit `d` in front of `k` digits worth `rest`. */
  lemma ShiftDigit(acc: nat, d: nat, k: nat, rest: nat)
    ensures acc * Pow10(k + 1) + (d * Pow10(k) + rest) == (acc * 10 + d) * Pow10(k) + rest
    ensures (acc * 10 + d) * Pow10(k) + rest >= acc * 10 + d
  {
    var p := Pow10(k);
    assert Pow10(k + 1) == 10 * p;
    assert acc * (10 * p) == (acc * 10) * p;
    assert (acc * 10 + d) * p == (acc * 10) * p + d * p;
    assert (acc * 10 + d) * p >= acc * 10 + d;
  }

  /** A token that is an optional sign and decimal digits parses to its value,
      saturated to the int64 range. */
  lemma AtoiNumeric(s: GoString)
    requires Numeric(s)
    ensures Atoi(s) == Saturate(if s[0] == '-' then -(DecimalValue(Magnitude(s)) as int) else DecimalValue(Magnitude(s)))
  {
    ParseDigitsValue(Magnitude(s), 0);
  }

  /** Atoi reads back the decimal text of every int64: a non-negative one
      written as its digits, a negative one (MinInt64 included) as '-' and
      the digits of its magnitude. */
  lemma AtoiDecimalText(n: nat)
    requires n <= MaxInt64 + 1
    ensures n <= MaxInt64 ==> Atoi(DecimalText(n)) == n
    ensures Atoi(['-'] + DecimalText(n)) == -(n as int)
  {
    DecimalTextValue(n);
    AtoiNumeric(DecimalText(n));
    var neg: GoString := ['-'] + DecimalText(n);
    assert Magnitude(neg) == DecimalText(n);
    AtoiNumeric(neg);
  }

  lemma {:induction false} DecimalTextValue(n: nat)
    ensures DecimalValue(DecimalText(n)) == n
  {
    if n >= 10 {
      DecimalTextValue(n / 10);
      var s := DecimalText(n);
      assert s[..|s| - 1] == DecimalText(n / 10);
    }
  }

  lemma {:induction false} StopsAtNonDigit(s: GoString, acc: nat, m: nat, i: nat)
    requires acc < Pow10(m) && i < |s| && !IsDigit(s[i]) && m + i <= 19
    ensures acc <= MaxUint64 && ParseDigits(s, acc) == SyntaxError
  {
    Pow10Bound(m);
    if IsDigit(s[0]) {
      assert i > 0;
      var d := DigitValue(s[0]);
      var a := acc * 10 + d;
      NextDigitBound(acc, d, Pow10(m));
      assert Pow10(m + 1) == 10 * Pow10(m);
      Pow10Bound(m + 1);
      assert s[1..][i - 1] == s[i];
      StopsAtNonDigit(s[1..], a, m + 1, i - 1);
    }
  }

  lemma NextDigitBound(acc: nat, d: nat, p: nat)
    requires acc < p && d < 10
    ensures acc * 10 + d < 10 * p
  {
  }

  lemma {:induction false} Pow10Bound(n: nat)
    requires n <= 19
    ensures Pow10(n) <= 10_000_000_000_000_000_000
    decreases 19 - n
  {
    if n < 19 {
      assert Pow10(n + 1) == 10 * Pow10(n);
      Pow10Bound(n + 1);
    } else {
      Pow10At19();
    }
  }

  lemma Pow10At19()
    ensures Pow10(19) == 10_000_000_000_000_000_000
  {
    assert Pow10(4) == 10_000;
    assert Pow10(8) == 100_000_000;
    assert Pow10(12) == 1_000_000_000_000;
    assert Pow10(16) == 10_000_000_000_000_000;
  }

  /** A token of at most 20 bytes that is not an optional sign followed by
      decimal digits parses as 0: a malformed component is read as 0, not rejected. */
  lemma AtoiMalformed(s: GoString)
    requires |s| <= 20 && !Numeric(s)
    ensures Atoi(s) == 0
  {
    var u := Magnitude(s);
    if |s| > 0 && |u| > 0 {
      var i :| 0 <= i < |u| && !IsDigit(u[i]);
      StopsAtNonDigit(u, 0, 0, i);
    }
  }
}
