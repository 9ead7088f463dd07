/**
 Decimal text: what `fmt.Sprintf("%d", n)` prints, what `strconv.Atoi` accepts on a 64-bit
 platform, what `strings.TrimSpace` strips, and the fixed-width numbers of a timestamp.
 */
module Decimal {
  import opened Prelude

  predicate IsDigit(c: char) {
    '0' <= c <= '9'
  }

  predicate AllDigits(s: string) {
    forall i | 0 <= i < |s| :: IsDigit(s[i])
  }

  function DigitChar(d: nat): (c: char)
    requires d < 10
    ensures IsDigit(c) && c as int - '0' as int == d
  {
    ('0' as int + d) as char
  }

  /** The digits of `n`, without leading zeros. */
  function Digits(n: nat): (s: string)
    ensures AllDigits(s) && s != []
  {
    if n < 10 then [DigitChar(n)] else Digits(n / 10) + [DigitChar(n % 10)]
  }

  /** The number a string of digits stands for. */
  function Value(s: string): nat
    requires AllDigits(s)
  {
    if s == [] then 0
    else Value(s[..|s| - 1]) * 10 + (s[|s| - 1] as int - '0' as int)
  }

  function Print(n: int): (s: string)
    ensures s != []
    ensures forall c | c in s :: IsDigit(c) || c == '-'
  {
    if n < 0 then "-" + Digits(-n) else Digits(n)
  }

  /** An optional sign, then one or more digits, then the range check; anything else is an error. */
  function Atoi(s: string): (r: Option<int>)
    ensures r.Some? ==> IsInt64(r.value)
  {
    if s == [] then None
    else
      var signed := s[0] == '+' || s[0] == '-';
      var body := if signed then s[1..] else s;
      if body == [] || !AllDigits(body) then None
      else
        var v: int := Value(body);
        var n := if s[0] == '-' then -v else v;
        if IsInt64(n) then Some(n) else None
  }

  lemma {:induction false} ValueOfDigits(n: nat)
    ensures Value(Digits(n)) == n
  {
    if n < 10 {
    } else {
      ValueOfDigits(n / 10);
      assert Digits(n)[..|Digits(n)| - 1] == Digits(n / 10);
    }
  }

  function PowerOfTen(k: nat): (p: nat)
    ensures p > 0
  {
    if k == 0 then 1 else 10 * PowerOfTen(k - 1)
  }

  lemma DivideTwice(n: nat, p: nat)
    requires p > 0
    ensures n / (10 * p) == n / 10 / p
  {
    var m := n / 10;
    var q, r := m / p, m % p;
    assert n == q * (10 * p) + (10 * r + n % 10) && 0 <= 10 * r + n % 10 < 10 * p;
    DivisionIsUnique(n, 10 * p, q, 10 * r + n % 10);
  }

  lemma DivisionIsUnique(n: nat, d: nat, q: nat, r: nat)
    requires n == q * d + r && r < d
    ensures n / d == q
  {
    var e := n / d - q;
    assert e * d == r - n % d;
  }

  /** The digit of `n` at 10^k. */
  function DigitOf(n: nat, k: nat): nat {
    n / PowerOfTen(k) % 10
  }

  lemma DigitOfTenth(n: nat, k: nat)
    requires k > 0
    ensures DigitOf(n, k) == DigitOf(n / 10, k - 1)
  {
    DivideTwice(n, PowerOfTen(k - 1));
  }

  /** The text is positional, base ten: its `k`th character from the right is the digit at 10^k. */
  lemma {:induction false} DigitAtPower(n: nat, k: nat)
    requires k < |Digits(n)|
    ensures Digits(n)[|Digits(n)| - 1 - k] as int - '0' as int == DigitOf(n, k)
    decreases k
  {
    if k == 0 {
    } else {
      hide DigitOf;
      var front := Digits(n / 10);
      DigitAtPower(n / 10, k - 1);
      DigitOfTenth(n, k);
      assert Digits(n)[|Digits(n)| - 1 - k] == front[|front| - 1 - (k - 1)];
    }
  }

  /** It has no leading zero, except for zero itself. */
  lemma {:induction false} NoLeadingZero(n: nat)
    ensures Digits(n)[0] == '0' <==> n == 0
    ensures n == 0 ==> Digits(n) == "0"
  {
    if n < 10 {
    } else {
      NoLeadingZero(n / 10);
    }
  }

  // ---- the numerals ----

  function Zeros(k: nat): (s: string)
    ensures |s| == k && AllDigits(s)
  {
    seq(k, _ => '0')
  }

  predicate IsSign(sign: string) {
    sign == "" || sign == "+" || sign == "-"
  }

  function Signed(sign: string, m: nat): int {
    if sign == "-" then -(m as int) else m
  }

  /** A number is written as an optional sign, any number of leading zeros, and its digits. */
  ghost predicate Writes(s: string, n: int) {
    exists sign, k: nat, m: nat :: IsSign(sign) && n == Signed(sign, m) && s == sign + (Zeros(k) + Digits(m))
  }

  lemma {:induction false} ValueOfZeros(k: nat, s: string)
    requires AllDigits(s)
    ensures AllDigits(Zeros(k) + s) && Value(Zeros(k) + s) == Value(s)
    decreases |s|, k
  {
    var z := Zeros(k) + s;
    if s != [] {
      assert z[..|z| - 1] == Zeros(k) + s[..|s| - 1];
      ValueOfZeros(k, s[..|s| - 1]);
    } else if k > 0 {
      assert z[..|z| - 1] == Zeros(k - 1) + s;
      ValueOfZeros(k - 1, s);
    } else {
      assert z == s;
    }
  }

  lemma DigitsExtend(v: nat, c: char)
    requires IsDigit(c)
    ensures Digits(10 * v + (c as int - '0' as int)) == (if v == 0 then "" else Digits(v)) + [c]
  {
    var n := 10 * v + (c as int - '0' as int);
    assert n / 10 == v && n % 10 == c as int - '0' as int;
  }

  lemma NumeralExtends(k: nat, v: nat, c: char)
    requires IsDigit(c)
    ensures Zeros(k) + Digits(v) + [c]
            == Zeros(if v == 0 then k + 1 else k) + Digits(10 * v + (c as int - '0' as int))
  {
    DigitsExtend(v, c);
    NoLeadingZero(0);
    hide Digits;
    if v == 0 {
      assert Zeros(k) + "0" == Zeros(k + 1);
    }
  }

  /** Every text of digits is some zeros and then the digits of its value. */
  lemma {:induction false} DigitsOfValue(s: string) returns (k: nat)
    requires AllDigits(s) && s != []
    ensures s == Zeros(k) + Digits(Value(s))
    decreases |s|
  {
    var t, c := s[..|s| - 1], s[|s| - 1];
    assert Value(s) == 10 * Value(t) + (c as int - '0' as int);
    if t == [] {
      k := 0;
      DigitsExtend(0, c);
      assert s == [c];
    } else {
      k := DigitsOfValue(t);
      hide Digits, Value, Zeros;
      NumeralExtends(k, Value(t), c);
      k := if Value(t) == 0 then k + 1 else k;
      assert s == t + [c];
    }
  }

  lemma AtoiOfSigned(sign: string, body: string)
    requires IsSign(sign) && AllDigits(body) && body != []
    ensures var n := Signed(sign, Value(body));
            Atoi(sign + body) == if IsInt64(n) then Some(n) else None
  {
    hide Value;
    var s := sign + body;
    if sign == "" {
      assert s == body && IsDigit(body[0]);
    } else {
      assert s[1..] == body;
    }
  }

  lemma SignedOfAtoi(s: string) returns (sign: string, body: string)
    requires Atoi(s).Some?
    ensures IsSign(sign) && AllDigits(body) && body != [] && s == sign + body
  {
    hide Value;
    if s[0] == '+' || s[0] == '-' {
      sign, body := s[..1], s[1..];
    } else {
      sign, body := "", s;
    }
  }

  /** THE NUMERALS: Atoi accepts exactly the texts that write a 64-bit integer, and gives that integer. */
  lemma AtoiExactly(s: string, n: int)
    ensures Atoi(s) == Some(n) <==> IsInt64(n) && Writes(s, n)
  {
    hide Digits, Value, Zeros, Atoi;
    if Atoi(s) == Some(n) {
      var sign, body := SignedOfAtoi(s);
      AtoiOfSigned(sign, body);
      var k := DigitsOfValue(body);
      assert n == Signed(sign, Value(body)) && s == sign + (Zeros(k) + Digits(Value(body)));
    }
    if IsInt64(n) && Writes(s, n) {
      var sign, k: nat, m: nat :| IsSign(sign) && n == Signed(sign, m) && s == sign + (Zeros(k) + Digits(m));
      ValueOfZeros(k, Digits(m));
      ValueOfDigits(m);
      AtoiOfSigned(sign, Zeros(k) + Digits(m));
    }
  }

  /** Parsing undoes printing on every 64-bit integer, negative ones included. */
  lemma AtoiOfPrint(n: int)
    ensures Atoi(Print(n)) == if IsInt64(n) then Some(n) else None
  {
    hide Digits, Value, Atoi;
    if n < 0 {
      ValueOfDigits(-n);
      AtoiOfSigned("-", Digits(-n));
    } else {
      ValueOfDigits(n);
      AtoiOfSigned("", Digits(n));
      assert "" + Digits(n) == Digits(n);
    }
  }

  // ---- surrounding white space ----

  /** unicode.IsSpace. */
  predicate IsSpace(c: char) {
    var n := c as int;
    9 <= n <= 13 || n == 0x20 || n == 0x85 || n == 0xA0 || n == 0x1680 || 0x2000 <= n <= 0x200A
    || n == 0x2028 || n == 0x2029 || n == 0x202F || n == 0x205F || n == 0x3000
  }

  predicate AllSpace(s: string) {
    forall i | 0 <= i < |s| :: IsSpace(s[i])
  }

  function TrimLeft(s: string): string {
    if s != [] && IsSpace(s[0]) then TrimLeft(s[1..]) else s
  }

  function TrimRight(s: string): string {
    if s != [] && IsSpace(s[|s| - 1]) then TrimRight(s[..|s| - 1]) else s
  }

  function TrimSpace(s: string): string {
    TrimRight(TrimLeft(s))
  }

  lemma {:induction false} TrimLeftPadding(pad: string, s: string)
    requires AllSpace(pad) && (s == [] || !IsSpace(s[0]))
    ensures TrimLeft(pad + s) == s
  {
    if pad == [] {
      assert pad + s == s;
    } else {
      assert (pad + s)[1..] == pad[1..] + s;
      TrimLeftPadding(pad[1..], s);
    }
  }

  lemma {:induction false} TrimRightPadding(s: string, pad: string)
    requires AllSpace(pad) && (s == [] || !IsSpace(s[|s| - 1]))
    ensures TrimRight(s + pad) == s
  {
    if pad == [] {
      assert s + pad == s;
    } else {
      assert (s + pad)[..|s + pad| - 1] == s + pad[..|pad| - 1];
      TrimRightPadding(s, pad[..|pad| - 1]);
    }
  }

  /** Trimming takes off all white space around a text that does not begin or end with any. */
  lemma TrimOfPadded(before: string, core: string, after: string)
    requires AllSpace(before) && AllSpace(after)
    requires core == [] || (!IsSpace(core[0]) && !IsSpace(core[|core| - 1]))
    ensures TrimSpace(before + core + after) == core
  {
    if core == [] {
      assert before + core + after == (before + after) + [];
      TrimLeftPadding(before + after, []);
    } else {
      assert before + core + after == before + (core + after);
      TrimLeftPadding(before, core + after);
      TrimRightPadding(core, after);
    }
  }

  /** A printed number survives trimming whatever white space stands around it. */
  lemma TrimOfPaddedPrint(before: string, n: int, after: string)
    requires AllSpace(before) && AllSpace(after)
    ensures TrimSpace(before + Print(n) + after) == Print(n)
  {
    var p := Print(n);
    assert p[0] in p && p[|p| - 1] in p;
    TrimOfPadded(before, p, after);
  }

  // ---- fixed-width numbers ----

  /** At least `width` digits, with zeros in front. */
  function Padded(n: nat, width: nat): (s: string)
    ensures AllDigits(s) && |s| >= width
  {
    var d := Digits(n);
    Zeros(if |d| < width then width - |d| else 0) + d
  }

  lemma ValueOfPadded(n: nat, width: nat)
    ensures Value(Padded(n, width)) == n
  {
    var d := Digits(n);
    ValueOfZeros(if |d| < width then width - |d| else 0, d);
    ValueOfDigits(n);
  }

  /** A two-digit field of a timestamp has exactly two characters. */
  lemma TwoDigits(n: nat)
    requires n < 100
    ensures |Padded(n, 2)| == 2
  {
    if n >= 10 {
      assert |Digits(n / 10)| == 1;
    }
  }
}
