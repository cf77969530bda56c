/** How JavaScript reads numbers from strings: `parseInt(text, 10)` and the unary plus. */
module Numbers {
  import opened ReplyParser

  function DigitValue(c: char): int {
    if '0' <= c <= '9' then c as int - '0' as int
    else if 'a' <= c <= 'z' then c as int - 'a' as int + 10
    else if 'A' <= c <= 'Z' then c as int - 'A' as int + 10
    else -1
  }

  predicate AllDigits(s: string, radix: nat) {
    forall i | 0 <= i < |s| :: 0 <= DigitValue(s[i]) < radix
  }

  function ValueIn(s: string, radix: nat): nat
    requires AllDigits(s, radix)
  {
    if s == "" then 0 else radix * ValueIn(s[..|s| - 1], radix) + DigitValue(s[|s| - 1])
  }

  function Value(s: string): nat
    requires AllDigits(s, 10)
  {
    ValueIn(s, 10)
  }

  function LeadingDigits(s: string): (n: nat)
    ensures n <= |s| && AllDigits(s[..n], 10)
    ensures n < |s| ==> !(0 <= DigitValue(s[n]) < 10)
  {
    if s == "" || !(0 <= DigitValue(s[0]) < 10) then 0
    else
      var n := LeadingDigits(s[1..]);
      assert s[..n + 1] == [s[0]] + s[1..][..n];
      n + 1
  }

  function TrimStart(s: string): string {
    if s != "" && IsSpace(s[0]) then TrimStart(s[1..]) else s
  }

  function TrimEnd(s: string): string {
    if s != "" && IsSpace(s[|s| - 1]) then TrimEnd(s[..|s| - 1]) else s
  }

  function SignOf(s: string): int {
    if s != "" && s[0] == '-' then -1 else 1
  }

  function Unsigned(s: string): string {
    if s != "" && (s[0] == '-' || s[0] == '+') then s[1..] else s
  }

  /** `parseInt(text, 10)`; None is NaN. */
  function ParseInt(text: string): Option<int> {
    var t := TrimStart(text);
    var u := Unsigned(t);
    var n := LeadingDigits(u);
    if n == 0 then None else Some(SignOf(t) * Value(u[..n]))
  }

  function Pow10(e: int): real
    decreases if e < 0 then -e else e
  {
    if e == 0 then 1.0 else if e > 0 then 10.0 * Pow10(e - 1) else Pow10(e + 1) / 10.0
  }

  /** Digits with an optional fraction and an optional exponent. */
  function Decimal(u: string): Option<real> {
    var n := LeadingDigits(u);
    var dot := n < |u| && u[n] == '.';
    var m := if dot then LeadingDigits(u[n + 1..]) else 0;
    var fraction := if dot then u[n + 1..][..m] else "";
    var r := if dot then u[n + 1..][m..] else u[n..];
    var digits := u[..n] + fraction;
    if digits == "" then None
    else if r == "" then Some(Value(digits) as real * Pow10(-|fraction|))
    else
      var x := Unsigned(r[1..]);
      if (r[0] == 'e' || r[0] == 'E') && x != "" && LeadingDigits(x) == |x| then
        assert x[..|x|] == x;
        Some(Value(digits) as real * Pow10(SignOf(r[1..]) * Value(x) - |fraction|))
      else None
  }

  function Radix(t: string): nat {
    if |t| < 3 || t[0] != '0' then 10
    else if t[1] == 'x' || t[1] == 'X' then 16
    else if t[1] == 'o' || t[1] == 'O' then 8
    else if t[1] == 'b' || t[1] == 'B' then 2
    else 10
  }

  /** `+text`; None is NaN or infinite. */
  function ToNumber(text: string): Option<real> {
    var t := TrimEnd(TrimStart(text));
    if t == "" then Some(0.0)
    else if Radix(t) != 10 then
      if AllDigits(t[2..], Radix(t)) then Some(ValueIn(t[2..], Radix(t)) as real) else None
    else
      var d := Decimal(Unsigned(t));
      if d.Some? then Some(SignOf(t) as real * d.value) else None
  }

  lemma {:induction false} AllLeading(s: string)
    requires AllDigits(s, 10)
    ensures LeadingDigits(s) == |s|
  {
    if s != "" {
      AllLeading(s[1..]);
    }
  }

  lemma DecimalDigits(s: string)
    requires AllDigits(s, 10) && s != ""
    ensures Decimal(s) == Some(Value(s) as real)
  {
    AllLeading(s);
    assert s[..|s|] + "" == s;
    assert s[|s|..] == "";
  }

  lemma DigitsAreTrimmed(s: string)
    requires AllDigits(s, 10) && s != ""
    ensures TrimEnd(TrimStart(s)) == s && Unsigned(s) == s && SignOf(s) == 1
    ensures Radix(s) == 10
  {
    assert 0 <= DigitValue(s[0]) < 10 && 0 <= DigitValue(s[|s| - 1]) < 10;
    assert |s| > 1 ==> 0 <= DigitValue(s[1]) < 10;
  }

  /** A string of digits only is read as its value. */
  lemma DigitsAreRead(s: string)
    requires AllDigits(s, 10)
    ensures ToNumber(s) == Some(Value(s) as real)
  {
    if s == "" {
      assert Value(s) == 0;
    } else {
      DigitsAreTrimmed(s);
      DecimalDigits(s);
    }
  }

  /** White space, a sign and whatever follows the digits do not keep parseInt from reading digits; without
      digits there it reads nothing. */
  lemma IntegersAreRead(space: string, sign: string, digits: string, more: string)
    requires IsBlank(space) && (sign == "" || sign == "-" || sign == "+") && AllDigits(digits, 10)
    requires more == "" || !('0' <= more[0] <= '9')
    requires digits == "" && sign == "" && more != "" ==> !IsSpace(more[0]) && more[0] != '-' && more[0] != '+'
    ensures ParseInt(space + sign + digits + more) ==
              if digits == "" then None else Some(Signed(sign, Value(digits)))
  {
    var u := digits + more;
    var t := sign + u;
    assert space + sign + digits + more == space + t;
    NoSpaceAhead(sign, digits, more);
    SpaceIsTrimmed(space, t);
    assert digits != "" ==> 0 <= DigitValue(digits[0]) < 10 && u[0] == digits[0];
    SignIsRead(sign, u);
    DigitsLead(digits, more);
    assert u[..|digits|] == digits;
    ParseIntIs(space + t, t, u, digits);
  }

  lemma DigitsAreInteger(digits: string)
    requires AllDigits(digits, 10) && digits != ""
    ensures ParseInt(digits) == Some(Value(digits))
  {
    var none := "";
    assert none + none + digits + none == digits;
    IntegersAreRead(none, none, digits, none);
  }

  function Signed(sign: string, n: int): int {
    if sign == "-" then -n else n
  }

  lemma NoSpaceAhead(sign: string, digits: string, more: string)
    requires sign == "" || sign == "-" || sign == "+"
    requires AllDigits(digits, 10)
    requires digits == "" && sign == "" && more != "" ==> !IsSpace(more[0])
    ensures var t := sign + (digits + more); t == "" || !IsSpace(t[0])
  {
    var t := sign + (digits + more);
    if sign != "" {
      assert t[0] == sign[0];
    } else if digits != "" {
      assert t[0] == digits[0] && 0 <= DigitValue(digits[0]) < 10;
    } else if more != "" {
      assert t[0] == more[0];
    }
  }

  lemma ParseIntIs(text: string, t: string, u: string, digits: string)
    requires TrimStart(text) == t && Unsigned(t) == u && AllDigits(digits, 10)
    requires LeadingDigits(u) == |digits| && u[..|digits|] == digits
    ensures ParseInt(text) == if digits == "" then None else Some(SignOf(t) * Value(digits))
  {
  }

  lemma {:induction false} SpaceIsTrimmed(space: string, t: string)
    requires IsBlank(space) && (t == "" || !IsSpace(t[0]))
    ensures TrimStart(space + t) == t
    decreases |space|
  {
    if space == "" {
      assert space + t == t;
    } else {
      assert (space + t)[0] == space[0] && (space + t)[1..] == space[1..] + t;
      assert IsBlank(space[1..]);
      SpaceIsTrimmed(space[1..], t);
    }
  }

  lemma SignIsRead(sign: string, u: string)
    requires sign == "" || sign == "-" || sign == "+"
    requires sign == "" && u != "" ==> u[0] != '-' && u[0] != '+'
    ensures Unsigned(sign + u) == u && SignOf(sign + u) == if sign == "-" then -1 else 1
  {
    if sign == "" {
      assert sign + u == u;
    } else {
      assert (sign + u)[0] == sign[0] && (sign + u)[1..] == u;
    }
  }

  lemma {:induction false} DigitsLead(digits: string, more: string)
    requires AllDigits(digits, 10) && (more == "" || !('0' <= more[0] <= '9'))
    ensures LeadingDigits(digits + more) == |digits|
    decreases |digits|
  {
    if digits == "" {
      assert digits + more == more;
    } else {
      assert (digits + more)[0] == digits[0] && (digits + more)[1..] == digits[1..] + more;
      DigitsLead(digits[1..], more);
    }
  }

  // ---------------------------------------------------------------- printing

  /** `n.toString()` */
  function Shown(n: nat): string {
    (if n < 10 then "" else Shown(n / 10)) + [(n % 10 + '0' as int) as char]
  }

  /** The last digits of a number, as many as asked for. */
  function Padded(n: nat, width: nat): string {
    if width == 0 then "" else Padded(n / 10, width - 1) + [(n % 10 + '0' as int) as char]
  }

  function Power(n: nat): nat {
    if n == 0 then 1 else 10 * Power(n - 1)
  }

  lemma ValueSnoc(s: string, d: nat)
    requires AllDigits(s, 10) && d < 10
    ensures var t := s + [(d + '0' as int) as char];
            AllDigits(t, 10) && Value(t) == 10 * Value(s) + d
  {
    var t := s + [(d + '0' as int) as char];
    assert t[..|t| - 1] == s;
  }

  /** A number is shown by its decimal digits, without leading zeros. */
  lemma {:induction false} ShownIsDecimal(n: nat)
    ensures Shown(n) != "" && AllDigits(Shown(n), 10) && Value(Shown(n)) == n
    ensures n > 0 ==> Shown(n)[0] != '0'
    ensures forall i | 0 <= i < |Shown(n)| :: '0' <= Shown(n)[i] <= '9'
  {
    if n >= 10 {
      ShownIsDecimal(n / 10);
      ValueSnoc(Shown(n / 10), n % 10);
    } else {
      OneDigit(n, (n + '0' as int) as char);
    }
  }

  lemma OneDigit(n: nat, c: char)
    requires n < 10 && c == (n + '0' as int) as char
    ensures Shown(n) == [c] && AllDigits([c], 10) && Value([c]) == n
  {
    ValueSnoc([], n);
    assert [] + [c] == [c];
  }

  lemma {:induction false} PaddedIsDecimal(n: nat, width: nat)
    requires n < Power(width)
    ensures |Padded(n, width)| == width && AllDigits(Padded(n, width), 10) && Value(Padded(n, width)) == n
    ensures forall i | 0 <= i < width :: '0' <= Padded(n, width)[i] <= '9'
  {
    if width > 0 {
      PaddedIsDecimal(n / 10, width - 1);
      ValueSnoc(Padded(n / 10, width - 1), n % 10);
    }
  }
}
