/**
 `std::stoi(text, nullptr, 0)` as src/amqp_address.cc:131 uses it: leading white space, a sign, a
 base chosen by prefix, as many digits as there are; what follows is ignored. An exception is None.
 */
module PortNumber {
  import opened Wrappers
  import opened Decimal
  import opened AddressPattern

  const INT_MIN: int := -0x8000_0000

  predicate IsSpace(c: char) {
    c == ' ' || c == '\t' || c == '\n' || c == '\r' || c == 11 as char || c == 12 as char
  }

  predicate IsOctal(c: char) { '0' <= c <= '7' }

  predicate IsHex(c: char) { IsDigit(c) || 'a' <= c <= 'f' || 'A' <= c <= 'F' }

  function HexValue(c: char): nat
    requires IsHex(c)
  {
    if IsDigit(c) then DigitValue(c)
    else if 'a' <= c <= 'f' then (c - 'a') as nat + 10
    else (c - 'A') as nat + 10
  }

  function ValueIn(base: nat, s: string): nat
    requires All(IsHex, s)
  {
    if s == "" then 0 else ValueIn(base, s[..|s| - 1]) * base + HexValue(s[|s| - 1])
  }

  /** The characters that count, and the digits they stand for. */
  lemma Digits(c: char)
    ensures IsSpace(c) <==> c in {' ', '\t', '\n', '\r', 11 as char, 12 as char}
    ensures IsOctal(c) <==> c in {'0', '1', '2', '3', '4', '5', '6', '7'}
    ensures IsX(c) <==> c in {'x', 'X'}
    ensures IsHex(c) <==> exists d: nat :: d < 16 && (c == "0123456789abcdef"[d] || c == "0123456789ABCDEF"[d])
    ensures IsHex(c) ==>
              HexValue(c) < 16 && (c == "0123456789abcdef"[HexValue(c)] || c == "0123456789ABCDEF"[HexValue(c)])
  {
    if IsHex(c) {
      var d := HexValue(c);
      assert c == "0123456789abcdef"[d] || c == "0123456789ABCDEF"[d];
    }
  }

  function Power(base: nat, n: nat): nat { if n == 0 then 1 else base * Power(base, n - 1) }

  lemma OneMoreDigit(base: nat, s: string, c: char)
    requires All(IsHex, s) && IsHex(c)
    ensures All(IsHex, s + [c]) && ValueIn(base, s + [c]) == ValueIn(base, s) * base + HexValue(c)
  {
    assert (s + [c])[..|s|] == s;
  }

  lemma Distribute(v: nat, p: nat, w: nat, base: nat, d: nat)
    ensures (v * p + w) * base + d == v * (base * p) + (w * base + d)
  {
    assert (v * p) * base == v * (base * p);
  }

  /** Each digit counts by its position. */
  lemma {:induction false} PositionalValue(base: nat, s: string, t: string)
    requires All(IsHex, s) && All(IsHex, t)
    ensures All(IsHex, s + t) && ValueIn(base, s + t) == ValueIn(base, s) * Power(base, |t|) + ValueIn(base, t)
    decreases |t|
  {
    if t == "" {
      assert s + t == s;
    } else {
      var n := |t| - 1;
      var u, c := t[..n], t[n];
      PositionalValue(base, s, u);
      OneMoreDigit(base, s + u, c);
      OneMoreDigit(base, u, c);
      assert s + t == (s + u) + [c] && t == u + [c];
      Distribute(ValueIn(base, s), Power(base, n), ValueIn(base, u), base, HexValue(c));
    }
  }

  lemma OneDigit(base: nat, c: char)
    requires IsHex(c)
    ensures ValueIn(base, [c]) == HexValue(c)
  {
    assert [c][..0] == "";
  }

  predicate IsX(c: char) { c == 'x' || c == 'X' }

  /** The base is 16 after `0x` and a hexadecimal digit, 8 after another `0`, and 10 otherwise. */
  function Unsigned(s: string): Option<nat> {
    if 2 < |s| && s[0] == '0' && IsX(s[1]) && IsHex(s[2]) then Some(ValueIn(16, Take(IsHex, s[2..])))
    else if Starts(s, '0') then Some(ValueIn(8, Take(IsOctal, s)))
    else if Take(IsDigit, s) == "" then None
    else Some(ValueIn(10, Take(IsDigit, s)))
  }

  function Stoi(s: string): Option<int> {
    var t := Rest(IsSpace, s);
    var digits := if Starts(t, '-') || Starts(t, '+') then t[1..] else t;
    match Unsigned(digits)
    case None => None
    case Some(v) =>
      var sign := if Starts(t, '-') then -1 else 1;
      InRange(sign * v)
  }

  function InRange(n: int): Option<int> {
    if INT_MIN <= n <= INT_MAX then Some(n) else None
  }

  lemma {:induction false} SameValue(s: string)
    requires All(IsDigit, s)
    ensures ValueIn(10, s) == Value(s)
  {
    if s != "" { SameValue(s[..|s| - 1]); }
  }

  /** A plain decimal number is read as itself if an `int` holds it, and anything but a digit may follow. */
  lemma PlainNumber(n: nat, tail: string)
    requires tail != "" ==> !IsDigit(tail[0])
    requires n == 0 && tail != "" ==> !IsX(tail[0])
    ensures Stoi(Print(n) + tail) == if n <= INT_MAX then Some(n) else None
  {
    var p := Print(n);
    var s := p + tail;
    PrintMeaning(n);
    assert All(IsDigit, p) && s[0] == p[0] && IsDigit(s[0]);
    NoSpace(s);
    if n == 0 {
      assert p == "0";
      assert tail != "" ==> s[1] == tail[0];
      TakeIs(IsOctal, p, tail);
      assert ValueIn(8, p) == 0 by { assert p[..0] == ""; }
    } else {
      TakeIs(IsDigit, p, tail);
      SameValue(p);
    }
  }

  // ---- what is not plain decimal ------------------------------------------------------------------

  predicate HexFollows(s: string) { 1 < |s| && IsX(s[0]) && IsHex(s[1]) }

  /** A leading zero means octal: the digits are read to the first that is not octal. */
  lemma Octal(s: string, tail: string)
    requires All(IsOctal, s) && (tail != "" ==> !IsOctal(tail[0]))
    requires s == "" ==> !HexFollows(tail)
    ensures All(IsHex, s) && Stoi("0" + s + tail) == InRange(ValueIn(8, s))
  {
    var all := "0" + s + tail;
    NoHexPrefix(s, tail);
    TakeIs(IsOctal, "0" + s, tail);
    LeadingZero(8, s);
    assert Unsigned(all) == Some(ValueIn(8, "0" + s));
    WithoutSign(all);
  }

  lemma NoHexPrefix(s: string, tail: string)
    requires All(IsOctal, s) && (s == "" ==> !HexFollows(tail))
    ensures var all := "0" + s + tail;
            all[0] == '0' && !HexFollows(all[1..])
  {
    assert ("0" + s + tail)[1..] == s + tail;
  }

  lemma {:induction false} LeadingZero(base: nat, s: string)
    requires All(IsHex, s)
    ensures All(IsHex, "0" + s) && ValueIn(base, "0" + s) == ValueIn(base, s)
  {
    if s == "" {
      assert ("0" + s)[..0] == "" && ValueIn(base, "") == 0;
    } else {
      var n := |s| - 1;
      LeadingZero(base, s[..n]);
      assert ("0" + s)[..|s|] == "0" + s[..n];
    }
  }

  /** `0x` and a hexadecimal digit mean hexadecimal: the digits are read to the first that is not. */
  lemma Hexadecimal(x: char, h: string, tail: string)
    requires IsX(x) && h != "" && All(IsHex, h) && (tail != "" ==> !IsHex(tail[0]))
    ensures Stoi(['0', x] + h + tail) == InRange(ValueIn(16, h))
  {
    var all := ['0', x] + h + tail;
    HexPrefix(x, h, tail);
    TakeIs(IsHex, h, tail);
    WithoutSign(all);
  }

  lemma WithoutSign(s: string)
    requires s != "" && !IsSpace(s[0]) && s[0] != '-' && s[0] != '+'
    ensures Stoi(s) == match Unsigned(s) case None => None case Some(v) => InRange(v)
  {
    NoSpace(s);
  }

  lemma HexPrefix(x: char, h: string, tail: string)
    requires h != ""
    ensures var all := ['0', x] + h + tail;
            2 < |all| && all[0] == '0' && all[1] == x && all[2] == h[0] && all[2..] == h + tail
  {
    ConcatAssociates(['0', x], h, tail);
  }

  /** White space before the number is skipped. */
  lemma LeadingSpace(blanks: string, s: string)
    requires All(IsSpace, blanks) && (s != "" ==> !IsSpace(s[0]))
    ensures Stoi(blanks + s) == Stoi(s)
  {
    TakeIs(IsSpace, blanks, s);
    TakeIs(IsSpace, "", s);
    assert "" + s == s;
  }

  /** A sign and then no digit is an error, and so is no digit at all. */
  lemma NoNumber(sign: string, s: string)
    requires sign == "" || sign == "-" || sign == "+"
    requires s != "" ==> !IsDigit(s[0]) && !IsSpace(s[0])
    requires sign == "" && s != "" ==> s[0] != '-' && s[0] != '+'
    ensures Stoi(sign + s) == None
  {
    if sign + s != "" { NoSpace(sign + s); }
    assert sign != "" ==> (sign + s)[0] == sign[0] && (sign + s)[1..] == s;
    assert sign == "" ==> sign + s == s;
    assert Take(IsDigit, s) == "";
  }

  /** A minus sign negates: no negative number is a port, but `-0` is. */
  lemma MinusSign(s: string)
    requires s != "" && !IsSpace(s[0]) && s[0] != '-' && s[0] != '+' && Stoi(s).Some?
    ensures Stoi("-" + s) == Some(-Stoi(s).value)
  {
    NoSpace("-" + s);
    NoSpace(s);
    assert ("-" + s)[1..] == s;
  }

  lemma NoSpace(s: string)
    requires s != "" && !IsSpace(s[0])
    ensures Rest(IsSpace, s) == s
  {
  }
}
