/**
 * The parts of Go's strconv and strings packages that the binding engine relies on: base-10
 * integer parsing at a given bit size, boolean literals, and the blank test behind
 * strings.TrimSpace(s) == "". The platform is taken to be 64-bit, so Go's int and uint are
 * 64 bits wide. Go strings are byte strings; here a string is a sequence of characters, and a
 * character outside ASCII is never a digit, a sign or a boolean literal, so the results agree.
 */
module Strconv {
  import opened Options

  /** NumError.Err: ErrSyntax or ErrRange. */
  datatype Cause = Syntax | Range

  /** strconv.NumError: the function that failed, the text it was given, and why. */
  datatype NumError = NumError(fn: string, num: string, cause: Cause)

  function Pow2(n: nat): (r: nat)
    ensures r >= 1
  {
    if n == 0 then 1 else 2 * Pow2(n - 1)
  }

  lemma {:induction false} Pow2Exceeds(n: nat)
    ensures Pow2(n) > n && (n >= 1 ==> Pow2(n) >= 2 * n)
  {
    if n > 0 {
      Pow2Exceeds(n - 1);
    }
  }

  /** unicode.IsSpace: the Latin-1 spaces and the other code points with the White_Space property. */
  predicate IsSpace(c: char) {
    var n := c as int;
    (0x09 <= n <= 0x0D) || n == 0x20 || n == 0x85 || n == 0xA0 || n == 0x1680
    || (0x2000 <= n <= 0x200A) || n == 0x2028 || n == 0x2029 || n == 0x202F
    || n == 0x205F || n == 0x3000
  }

  /** strings.TrimSpace(s) == "": every character of s is white space. */
  predicate IsBlank(s: string) {
    forall i :: 0 <= i < |s| ==> IsSpace(s[i])
  }

  predicate IsDigit(c: char) { '0' <= c <= '9' }

  predicate AllDigits(s: string) { forall i :: 0 <= i < |s| ==> IsDigit(s[i]) }

  function Digit(c: char): nat
    requires IsDigit(c)
  {
    (c as int) - ('0' as int)
  }

  function DigitChar(d: nat): (c: char)
    requires d < 10
    ensures IsDigit(c) && Digit(c) == d
  {
    (('0' as int) + d) as char
  }

  /** Reference meaning of a digit string: its value in positional decimal notation. */
  function DecimalValue(s: string): nat
    requires AllDigits(s)
  {
    if s == [] then 0 else DecimalValue(s[..|s| - 1]) * 10 + Digit(s[|s| - 1])
  }

  /** strconv.FormatUint(n, 10): the shortest decimal numeral of n. */
  function FormatNat(n: nat): (s: string)
    ensures AllDigits(s) && s != []
  {
    if n < 10 then [DigitChar(n)] else FormatNat(n / 10) + [DigitChar(n % 10)]
  }

  /** strconv.FormatInt(i, 10) */
  function FormatInt(i: int): (s: string)
    ensures s != []
  {
    if i < 0 then "-" + FormatNat(-i) else FormatNat(i)
  }

  /** strconv.FormatBool */
  function FormatBool(b: bool): string {
    if b then "true" else "false"
  }

  /**
   * The digit loop of strconv.ParseUint in base 10: n is the value read so far, max the largest
   * value the bit size admits. A character that is not a digit is a syntax error; a digit that
   * takes the value past max is a range error, reported at once, before the characters after it
   * are looked at.
   */
  function ParseDigits(s: string, n: nat, max: nat): (r: Result<nat, Cause>)
    requires n <= max
    ensures r.Ok? ==> n <= r.value <= max
  {
    if s == [] then Ok(n)
    else if !IsDigit(s[0]) then Err(Syntax)
    else if n * 10 + Digit(s[0]) > max then Err(Range)
    else ParseDigits(s[1..], n * 10 + Digit(s[0]), max)
  }

  /** strconv.ParseUint(s, 10, bits) before its error is wrapped: no sign, no spaces, no underscores. */
  function ParseUintCause(s: string, bits: nat): Result<nat, Cause> {
    if s == [] then Err(Syntax) else ParseDigits(s, 0, Pow2(bits) - 1)
  }

  /** strconv.ParseUint(s, 10, bits) at an explicit bit size; Go's bit size 0 is passed here as 64. */
  function ParseUint(s: string, bits: nat): (r: Result<nat, NumError>)
    ensures r.Ok? ==> r.value < Pow2(bits)
    ensures r.Err? ==> r.error.fn == "ParseUint" && r.error.num == s
  {
    match ParseUintCause(s, bits)
    case Ok(n) => Ok(n)
    case Err(c) => Err(NumError("ParseUint", s, c))
  }

  /**
   * strconv.ParseInt(s, 10, bits), with fn as the function its errors name. An optional sign is
   * taken off and the rest parsed as by ParseUint at the same bit size; a range error there is
   * carried on with the largest unsigned value and so becomes a range error here.
   */
  function ParseIntAs(fn: string, s: string, bits: nat): (r: Result<int, NumError>)
    requires bits >= 1
    ensures r.Ok? ==> -(Pow2(bits - 1) as int) <= r.value < Pow2(bits - 1)
    ensures r.Err? ==> r.error.fn == fn && r.error.num == s
  {
    if s == [] then Err(NumError(fn, s, Syntax))
    else
      var neg := s[0] == '-';
      var body := if s[0] == '+' || s[0] == '-' then s[1..] else s;
      var u := ParseUintCause(body, bits);
      if u.Err? && u.error == Syntax then Err(NumError(fn, s, Syntax))
      else
        var un := if u.Ok? then u.value else Pow2(bits) - 1;
        var cutoff := Pow2(bits - 1);
        if !neg && un >= cutoff then Err(NumError(fn, s, Range))
        else if neg && un > cutoff then Err(NumError(fn, s, Range))
        else Ok(if neg then -un else un)
  }

  /** A digit followed by a letter is a syntax error at every bit size: "5s" is not a number. */
  lemma TrailingLetter(fn: string, bits: nat)
    requires bits >= 3
    ensures ParseIntAs(fn, "5s", bits) == Err(NumError(fn, "5s", Syntax))
  {
    Pow2Exceeds(bits);
    var max := Pow2(bits) - 1;
    assert "5s"[0] == '5' && IsDigit('5') && Digit('5') == 5 && "5s"[1..] == "s";
    assert ParseDigits("s", 5, max) == Err(Syntax);
    assert ParseUintCause("5s", bits) == ParseDigits("s", 5, max);
  }

  /** A leading space is a syntax error at every bit size: " 1" is not a number. */
  lemma LeadingSpace(fn: string, bits: nat)
    requires bits >= 1
    ensures ParseIntAs(fn, " 1", bits) == Err(NumError(fn, " 1", Syntax))
  {
    assert " 1"[0] == ' ' && !IsDigit(' ');
    assert ParseUintCause(" 1", bits) == Err(Syntax);
  }

  /** strconv.ParseInt(s, 10, bits) */
  function ParseInt(s: string, bits: nat): Result<int, NumError>
    requires bits >= 1
  {
    ParseIntAs("ParseInt", s, bits)
  }

  /** The width of Go's int on the 64-bit platform the model takes. */
  const IntBits: nat := 64

  /**
   * strconv.Atoi(s). Its quick path for short inputs and its fallback to ParseInt(s, 10, 0)
   * accept and reject the same strings and give the same numbers; both report "Atoi".
   */
  function Atoi(s: string): Result<int, NumError> {
    ParseIntAs("Atoi", s, IntBits)
  }

  /** strconv.ParseBool */
  function ParseBool(s: string): (r: Result<bool, NumError>)
    ensures r.Err? ==> r.error == NumError("ParseBool", s, Syntax)
  {
    if s in {"1", "t", "T", "true", "TRUE", "True"} then Ok(true)
    else if s in {"0", "f", "F", "false", "FALSE", "False"} then Ok(false)
    else Err(NumError("ParseBool", s, Syntax))
  }

  // ---------------------------------------------------------------------------------------------
  // What the parsers accept, and round trips with the formatters.

  lemma {:induction false} DecimalPrefix(s: string, u: string)
    requires AllDigits(s + u)
    ensures AllDigits(s) && DecimalValue(s + u) >= DecimalValue(s)
  {
    assert forall i :: 0 <= i < |s| ==> (s + u)[i] == s[i];
    if u != [] {
      var w := s + u;
      assert w[..|w| - 1] == s + u[..|u| - 1];
      DecimalPrefix(s, u[..|u| - 1]);
    } else {
      assert s + u == s;
    }
  }

  /**
   * The digit loop reads the decimal value of what follows p: it succeeds exactly on digit
   * strings whose value stays within max, and a digit string past max is a range error.
   */
  lemma {:induction false} ParseDigitsSpec(p: string, t: string, max: nat)
    requires AllDigits(p) && DecimalValue(p) <= max
    ensures var r := ParseDigits(t, DecimalValue(p), max);
      && (r.Ok? <==> AllDigits(p + t) && DecimalValue(p + t) <= max)
      && (r.Ok? ==> r.value == DecimalValue(p + t))
      && (AllDigits(p + t) && DecimalValue(p + t) > max ==> r == Err(Range))
    decreases |t|
  {
    if t == [] {
      assert p + t == p;
    } else if !IsDigit(t[0]) {
      assert (p + t)[|p|] == t[0];
    } else {
      var p' := p + [t[0]];
      assert p'[..|p'| - 1] == p;
      assert DecimalValue(p') == DecimalValue(p) * 10 + Digit(t[0]);
      assert p' + t[1..] == p + t;
      if DecimalValue(p') > max {
        if AllDigits(p + t) {
          assert p + t == p' + t[1..];
          DecimalPrefix(p', t[1..]);
        }
      } else {
        ParseDigitsSpec(p', t[1..], max);
      }
    }
  }

  /** ParseUint accepts exactly the non-empty digit strings whose value fits in bits bits. */
  lemma ParseUintAccepts(s: string, bits: nat)
    ensures ParseUint(s, bits).Ok? <==> s != [] && AllDigits(s) && DecimalValue(s) < Pow2(bits)
    ensures ParseUint(s, bits).Ok? ==> ParseUint(s, bits).value == DecimalValue(s)
    ensures s != [] && AllDigits(s) && DecimalValue(s) >= Pow2(bits)
            ==> ParseUint(s, bits) == Err(NumError("ParseUint", s, Range))
  {
    if s != [] {
      assert [] + s == s;
      ParseDigitsSpec([], s, Pow2(bits) - 1);
    }
  }

  /** What ParseInt reads after the optional sign. */
  function SignBody(s: string): (b: string)
    ensures |b| <= |s|
  {
    if s != [] && (s[0] == '+' || s[0] == '-') then s[1..] else s
  }

  predicate IsNegative(s: string) {
    s != [] && s[0] == '-'
  }

  /** A magnitude a signed integer of the bit size can take: up to 2^(bits-1) below zero, less above. */
  predicate InSignedRange(neg: bool, n: nat, bits: nat)
    requires bits >= 1
  {
    if neg then n <= Pow2(bits - 1) else n < Pow2(bits - 1)
  }

  /**
   * ParseInt (and Atoi) accepts exactly one optional sign followed by a non-empty digit string
   * whose value fits the bit size, and gives that value with the sign; a digit string that does
   * not fit is a range error, and an input with nothing after the sign a syntax error. (At bit
   * size 1, which no caller uses, Go's ParseInt reads "-2" as -1, and so does the model.)
   */
  lemma ParseIntAccepts(fn: string, s: string, bits: nat)
    requires bits >= 2
    ensures var r := ParseIntAs(fn, s, bits); var body := SignBody(s);
      && (r.Ok? <==> body != [] && AllDigits(body) && InSignedRange(IsNegative(s), DecimalValue(body), bits))
      && (r.Ok? ==> r.value == if IsNegative(s) then -(DecimalValue(body) as int) else DecimalValue(body))
      && (body != [] && AllDigits(body) && !InSignedRange(IsNegative(s), DecimalValue(body), bits) ==>
            r == Err(NumError(fn, s, Range)))
      && (body == [] ==> r == Err(NumError(fn, s, Syntax)))
  {
    if s != [] {
      ParseUintAccepts(SignBody(s), bits);
      assert Pow2(bits) == 2 * Pow2(bits - 1) && Pow2(bits - 1) >= 2;
    }
  }

  lemma {:induction false} DecimalOfFormat(n: nat)
    ensures DecimalValue(FormatNat(n)) == n
  {
    var s := FormatNat(n);
    if n < 10 {
      assert s[..0] == [];
    } else {
      assert s[..|s| - 1] == FormatNat(n / 10);
      DecimalOfFormat(n / 10);
    }
  }

  /** Reading back what FormatUint writes gives the number, whenever it fits the bit size. */
  lemma ParseUintRoundTrip(n: nat, bits: nat)
    requires n < Pow2(bits)
    ensures ParseUint(FormatNat(n), bits) == Ok(n)
  {
    DecimalOfFormat(n);
    ParseUintAccepts(FormatNat(n), bits);
  }

  /** Reading back what FormatInt writes gives the number, whenever it fits the bit size. */
  lemma ParseIntRoundTrip(fn: string, i: int, bits: nat)
    requires bits >= 1 && -(Pow2(bits - 1) as int) <= i < Pow2(bits - 1)
    ensures ParseIntAs(fn, FormatInt(i), bits) == Ok(i)
  {
    var m: nat := if i < 0 then -i else i;
    assert Pow2(bits) == 2 * Pow2(bits - 1);
    DecimalOfFormat(m);
    ParseUintAccepts(FormatNat(m), bits);
    var s := FormatInt(i);
    if i < 0 {
      assert s[1..] == FormatNat(m);
      assert s[0] == '-';
    } else {
      assert IsDigit(s[0]);
    }
  }

  /** "0" reads as zero at every bit size, signed or not. */
  lemma ParseZero(fn: string, bits: nat)
    ensures ParseUint("0", bits) == Ok(0)
    ensures bits >= 1 ==> ParseIntAs(fn, "0", bits) == Ok(0)
  {
    assert "0"[0] == '0' && IsDigit('0') && Digit('0') == 0 && "0"[1..] == [];
    assert ParseDigits("0", 0, Pow2(bits) - 1) == ParseDigits([], 0, Pow2(bits) - 1);
  }

  /** Reading back what FormatBool writes gives the boolean. */
  lemma ParseBoolRoundTrip(b: bool)
    ensures ParseBool(FormatBool(b)) == Ok(b)
  {
  }
}
