/** The printer and the parser of addresses (utils.c). */
module Address {
  import opened Types

  /** An address as its four octets in memory order, which is network order. */
  datatype Addr = Addr(b0: nat, b1: nat, b2: nat, b3: nat)
  {
    predicate Valid() {
      b0 < U8 && b1 < U8 && b2 < U8 && b3 < U8
    }
  }

  /** `htonl`, seen in memory: the most significant octet comes first. */
  function FromHost(val: nat): Addr {
    Addr(val / 0x100_0000 % U8, val / 0x1_0000 % U8, val / 0x100 % U8, val % U8)
  }

  // ---- Printing ----

  const DIGITS := "0123456789"

  /** `%d` of an octet. */
  function Decimal(n: nat): string
    requires n < U8
  {
    if n < 10 then [DIGITS[n]]
    else if n < 100 then [DIGITS[n / 10], DIGITS[n % 10]]
    else [DIGITS[n / 100], DIGITS[n / 10 % 10], DIGITS[n % 10]]
  }

  function InetNtoa(a: Addr): (s: string)
    requires a.Valid()
    ensures |s| < 16
  {
    Decimal(a.b0) + "." + Decimal(a.b1) + "." + Decimal(a.b2) + "." + Decimal(a.b3)
  }

  // ---- Parsing ----

  /** Character `i` of a C string; the terminator follows the last one. */
  function At(s: string, i: nat): char {
    if i < |s| then s[i] else '\0'
  }

  predicate IsDigit(c: char) {
    '0' <= c <= '9'
  }

  predicate IsHexLetter(c: char) {
    'a' <= c <= 'f' || 'A' <= c <= 'F'
  }

  predicate IsSpace(c: char) {
    c in {' ', '\t', '\n', '\r', 11 as char, 12 as char}
  }

  /** The character ends a number: it is no digit of any base, nor part of a prefix. */
  predicate Ends(c: char) {
    !IsDigit(c) && !IsHexLetter(c) && c != 'x' && c != 'X'
  }

  function DigitValue(c: char): nat
    requires IsDigit(c) || IsHexLetter(c)
  {
    if IsDigit(c) then (c as int) - ('0' as int)
    else if 'a' <= c then (c as int) + 10 - ('a' as int)
    else (c as int) + 10 - ('A' as int)
  }

  predicate Accepts(base: nat, c: char) {
    IsDigit(c) || (base == 16 && IsHexLetter(c))
  }

  /** The base that a number's prefix selects, and where its digits begin. */
  function Prefix(s: string, i: nat): (nat, nat) {
    if At(s, i) != '0' then (10, i)
    else if At(s, i + 1) == 'x' || At(s, i + 1) == 'X' then (16, i + 2)
    else (8, i + 1)
  }

  /** Value and end of a run of digits. Octal numbers may contain 8 and 9. The value is a 32-bit word. */
  function Digits(s: string, i: nat, base: nat, val: nat): (r: (nat, nat))
    ensures r.1 >= i
    decreases |s| - i
  {
    if i < |s| && Accepts(base, s[i]) then
      Digits(s, i + 1, base, (val * base + DigitValue(s[i])) % U32)
    else (val, i)
  }

  function Number(s: string, i: nat): (r: (nat, nat))
    ensures r.1 >= i
  {
    Digits(s, Prefix(s, i).1, Prefix(s, i).0, 0)
  }

  /** The dot-separated numbers from position `i` on: those before the last one, the last one, and its end. */
  function Numbers(s: string, i: nat, parts: seq<nat>): (r: Option<(seq<nat>, nat, nat)>)
    requires |parts| <= 3
    ensures r.Some? ==> |r.value.0| <= 3
    decreases |s| - i
  {
    var (val, j) := Number(s, i);
    if At(s, j) == '.' then
      if |parts| >= 3 || val > 0xff then None else Numbers(s, j + 1, parts + [val])
    else Some((parts, val, j))
  }

  /** Puts the parts together: all but the last are octets, the last fills what is left of the 32 bits. */
  function Concoct(parts: seq<nat>, val: nat): Option<nat>
    requires |parts| <= 3
  {
    match |parts|
    case 0 => Some(val)
    case 1 => if val > 0xff_ffff then None else Some(parts[0] * 0x100_0000 + val)
    case 2 => if val > 0xffff then None else Some(parts[0] * 0x100_0000 + parts[1] * 0x1_0000 + val)
    case _ => if val > 0xff then None
              else Some(parts[0] * 0x100_0000 + parts[1] * 0x1_0000 + parts[2] * 0x100 + val)
  }

  function Aton(s: string): Option<Addr> {
    match Numbers(s, 0, [])
    case None => None
    case Some((parts, val, j)) =>
      if At(s, j) != '\0' && !IsSpace(At(s, j)) then None
      else
        match Concoct(parts, val)
        case None => None
        case Some(v) => Some(FromHost(v))
  }

  /** `inet_aton`: one pass over the string, with the parts collected in a fixed buffer. */
  method InetAton(s: string) returns (r: Option<Addr>)
    ensures r == Aton(s)
  {
    var parts := new nat[4];
    var pp, cp, val := 0, 0, 0;
    ghost var result := Numbers(s, 0, []);
    while true
      invariant pp <= 3
      invariant Numbers(s, cp, parts[..pp]) == result
      decreases |s| - cp
    {
      ghost var start := cp;
      val, cp := ParseNumber(s, cp);
      if At(s, cp) == '.' {
        if pp >= 3 || val > 0xff {
          return None;
        }
        ghost var before := parts[..pp];
        parts[pp] := val;
        assert parts[..pp + 1] == before + [val];
        pp, cp := pp + 1, cp + 1;
      } else {
        assert result == Some((parts[..pp], val, cp));
        break;
      }
    }
    if At(s, cp) != '\0' && !IsSpace(At(s, cp)) {
      return None;
    }
    match pp {
      case 0 =>
      case 1 =>
        if val > 0xff_ffff {
          return None;
        }
        val := val + parts[0] * 0x100_0000;
      case 2 =>
        if val > 0xffff {
          return None;
        }
        val := val + parts[0] * 0x100_0000 + parts[1] * 0x1_0000;
      case _ =>
        if val > 0xff {
          return None;
        }
        val := val + parts[0] * 0x100_0000 + parts[1] * 0x1_0000 + parts[2] * 0x100;
    }
    return Some(FromHost(val));
  }

  /** The inner loop of `inet_aton`: one number with its C prefix. */
  method ParseNumber(s: string, start: nat) returns (val: nat, cp: nat)
    ensures (val, cp) == Number(s, start)
  {
    cp, val := start, 0;
    var base := 10;
    if At(s, cp) == '0' {
      cp := cp + 1;
      if At(s, cp) == 'x' || At(s, cp) == 'X' {
        base, cp := 16, cp + 1;
      } else {
        base := 8;
      }
    }
    while At(s, cp) != '\0'
      invariant Digits(s, cp, base, val) == Number(s, start)
      decreases |s| - cp
    {
      if IsDigit(At(s, cp)) {
        val := (val * base + DigitValue(At(s, cp))) % U32;
        cp := cp + 1;
      } else if base == 16 && IsHexLetter(At(s, cp)) {
        val := (val * 16 + DigitValue(At(s, cp))) % U32;
        cp := cp + 1;
      } else {
        break;
      }
    }
  }

  // ---- Round trip ----

  /** A printed octet in the middle of a string is read back whole. Zero is read as an octal number. */
  lemma NumberReadsDecimal(s: string, i: nat, n: nat)
    requires n < U8
    requires i + |Decimal(n)| <= |s| && s[i..i + |Decimal(n)|] == Decimal(n)
    requires Ends(At(s, i + |Decimal(n)|))
    ensures Number(s, i) == (n, i + |Decimal(n)|)
  {
    hide Decimal, Number;
    var d := Decimal(n);
    var a, b, c := DecimalParts(n);
    assert forall k :: 0 <= k < |d| ==> s[i + k] == d[k];
    if n < 10 {
      OneDigitNumber(s, i, n);
    } else if n < 100 {
      TwoDigits(s, i, b, c);
    } else {
      ThreeDigits(s, i, a, b, c);
    }
  }

  /** The digits of an octet: hundreds, tens and ones. */
  lemma DecimalParts(n: nat) returns (a: nat, b: nat, c: nat)
    requires n < U8
    ensures a < 10 && b < 10 && c < 10 && n == a * 100 + b * 10 + c
    ensures n < 10 ==> Decimal(n) == [DIGITS[n]]
    ensures 10 <= n < 100 ==> a == 0 < b && Decimal(n) == [DIGITS[b], DIGITS[c]]
    ensures 100 <= n ==> a > 0 && Decimal(n) == [DIGITS[a], DIGITS[b], DIGITS[c]]
  {
    a, b, c := n / 100, n / 10 % 10, n % 10;
  }

  lemma OneDigitNumber(s: string, i: nat, n: nat)
    requires n < 10 && i < |s| && s[i] == DIGITS[n]
    requires Ends(At(s, i + 1))
    ensures Number(s, i) == (n, i + 1)
  {
    DigitChar(n);
    if n == 0 {
      assert Prefix(s, i) == (8, i + 1);
    } else {
      OneDigit(s, i, 0, n);
    }
  }

  lemma TwoDigits(s: string, i: nat, a: nat, b: nat)
    requires 0 < a < 10 && b < 10
    requires i + 2 <= |s| && s[i] == DIGITS[a] && s[i + 1] == DIGITS[b]
    requires Ends(At(s, i + 2))
    ensures Number(s, i) == (a * 10 + b, i + 2)
  {
    DigitChar(a);
    DigitChar(b);
    OneDigit(s, i, 0, a);
    OneDigit(s, i + 1, a, b);
  }

  lemma ThreeDigits(s: string, i: nat, a: nat, b: nat, c: nat)
    requires 0 < a < 10 && b < 10 && c < 10
    requires i + 3 <= |s| && s[i] == DIGITS[a] && s[i + 1] == DIGITS[b] && s[i + 2] == DIGITS[c]
    requires Ends(At(s, i + 3))
    ensures Number(s, i) == (a * 100 + b * 10 + c, i + 3)
  {
    DigitChar(a);
    DigitChar(b);
    DigitChar(c);
    OneDigit(s, i, 0, a);
    OneDigit(s, i + 1, a, b);
    OneDigit(s, i + 2, a * 10 + b, c);
  }

  lemma DigitChar(d: nat)
    requires d < 10
    ensures IsDigit(DIGITS[d]) && DigitValue(DIGITS[d]) == d
    ensures DIGITS[d] == '0' <==> d == 0
  {
  }

  /** Reading one decimal digit; the value stays small. */
  lemma OneDigit(s: string, i: nat, val: nat, d: nat)
    requires i < |s| && d < 10 && val < 100
    requires IsDigit(s[i]) && DigitValue(s[i]) == d
    ensures Digits(s, i, 10, val) == Digits(s, i + 1, 10, val * 10 + d)
  {
  }

  lemma DigitsStep(s: string, i: nat, base: nat, val: nat)
    requires i < |s| && IsDigit(s[i])
    ensures Digits(s, i, base, val) == Digits(s, i + 1, base, (val * base + DigitValue(s[i])) % U32)
  {
  }

  /** The numbers of a printed address are found wherever it is followed by something else. */
  lemma AddressReads(s: string, a: Addr)
    requires a.Valid() && |InetNtoa(a)| <= |s| && s[..|InetNtoa(a)|] == InetNtoa(a)
    requires Ends(At(s, |InetNtoa(a)|)) && At(s, |InetNtoa(a)|) != '.'
    ensures Numbers(s, 0, []) == Some(([a.b0, a.b1, a.b2], a.b3, |InetNtoa(a)|))
  {
    hide Number, Decimal, InetNtoa, Numbers, OctetAt, Ends, At;
    var i1 := |Decimal(a.b0)| + 1;
    var i2 := i1 + |Decimal(a.b1)| + 1;
    var i3 := i2 + |Decimal(a.b2)| + 1;
    OctetsOf(s, a);
    OctetAndDot(s, 0, [], a.b0);
    OctetAndDot(s, i1, [a.b0], a.b1);
    OctetAndDot(s, i2, [a.b0, a.b1], a.b2);
    LastOctet(s, i3, a.b3);
    PartsOf(a);
    LastNumber(s, i3, [a.b0, a.b1, a.b2]);
  }

  /** The octet stands at the position, and the character follows it. */
  ghost predicate OctetAt(s: string, i: nat, n: nat, c: char)
    requires n < U8
  {
    i + |Decimal(n)| <= |s| && s[i..i + |Decimal(n)|] == Decimal(n) && At(s, i + |Decimal(n)|) == c
  }

  lemma OctetAndDot(s: string, i: nat, parts: seq<nat>, n: nat)
    requires n < U8 && |parts| < 3 && OctetAt(s, i, n, '.')
    ensures Numbers(s, i, parts) == Numbers(s, i + |Decimal(n)| + 1, parts + [n])
  {
    hide Decimal, Number;
    NumberReadsDecimal(s, i, n);
  }

  lemma PartsOf(a: Addr)
    ensures [] + [a.b0] == [a.b0] && [a.b0] + [a.b1] == [a.b0, a.b1] && [a.b0, a.b1] + [a.b2] == [a.b0, a.b1, a.b2]
  {
  }

  lemma LastOctet(s: string, i: nat, n: nat)
    requires n < U8 && Ends(At(s, i + |Decimal(n)|)) && OctetAt(s, i, n, At(s, i + |Decimal(n)|))
    ensures Number(s, i) == (n, i + |Decimal(n)|)
  {
    hide Decimal, Number;
    NumberReadsDecimal(s, i, n);
  }

  lemma LastNumber(s: string, i: nat, parts: seq<nat>)
    requires |parts| <= 3 && At(s, Number(s, i).1) != '.'
    ensures Numbers(s, i, parts) == Some((parts, Number(s, i).0, Number(s, i).1))
  {
    hide Number;
  }

  /** Where the octets stand in a printed address, and what separates them. */
  lemma OctetsOf(s: string, a: Addr)
    requires a.Valid() && |InetNtoa(a)| <= |s| && s[..|InetNtoa(a)|] == InetNtoa(a)
    ensures var d0, d1, d2, d3 := Decimal(a.b0), Decimal(a.b1), Decimal(a.b2), Decimal(a.b3);
      var i1 := |d0| + 1;
      var i2 := i1 + |d1| + 1;
      var i3 := i2 + |d2| + 1;
      && |InetNtoa(a)| == i3 + |d3|
      && OctetAt(s, 0, a.b0, '.') && OctetAt(s, i1, a.b1, '.') && OctetAt(s, i2, a.b2, '.')
      && OctetAt(s, i3, a.b3, At(s, |InetNtoa(a)|))
  {
    hide Decimal;
    var d0, d1, d2, d3 := Decimal(a.b0), Decimal(a.b1), Decimal(a.b2), Decimal(a.b3);
    var t := InetNtoa(a);
    var i1 := |d0| + 1;
    var i2 := i1 + |d1| + 1;
    var i3 := i2 + |d2| + 1;
    assert t[0..|d0|] == d0 && t[i1..i1 + |d1|] == d1 && t[i2..i2 + |d2|] == d2 && t[i3..i3 + |d3|] == d3;
    assert t[i1 - 1] == '.' && t[i2 - 1] == '.' && t[i3 - 1] == '.';
    hide InetNtoa;
    assert forall j :: 0 <= j < |t| ==> s[j] == t[j];
  }

  lemma AddressConcocts(a: Addr)
    requires a.Valid()
    ensures Concoct([a.b0, a.b1, a.b2], a.b3).Some? && FromHost(Concoct([a.b0, a.b1, a.b2], a.b3).value) == a
  {
    hide FromHost;
    FromHostOctets(a);
    assert Concoct([a.b0, a.b1, a.b2], a.b3)
        == Some(a.b0 * 0x100_0000 + a.b1 * 0x1_0000 + a.b2 * 0x100 + a.b3);
  }

  /** Parsing undoes printing, for every address. */
  lemma RoundTrip(a: Addr)
    requires a.Valid()
    ensures Aton(InetNtoa(a)) == Some(a)
  {
    hide InetNtoa, Numbers, Concoct, FromHost;
    AddressReads(InetNtoa(a), a);
    AddressConcocts(a);
  }

  lemma FromHostOctets(a: Addr)
    requires a.Valid()
    ensures FromHost(a.b0 * 0x100_0000 + a.b1 * 0x1_0000 + a.b2 * 0x100 + a.b3) == a
  {
    var v := a.b0 * 0x100_0000 + a.b1 * 0x1_0000 + a.b2 * 0x100 + a.b3;
    assert v / 0x100_0000 == a.b0;
    assert v / 0x1_0000 == a.b0 * 0x100 + a.b1;
    assert v / 0x100 == a.b0 * 0x1_0000 + a.b1 * 0x100 + a.b2;
  }

  /** Different addresses are printed differently. */
  lemma NtoaInjective(a: Addr, b: Addr)
    requires a.Valid() && b.Valid() && InetNtoa(a) == InetNtoa(b)
    ensures a == b
  {
    RoundTrip(a);
    RoundTrip(b);
  }

  /** The parser is more liberal than the printer: printing does not undo parsing. */
  lemma PrintingDoesNotUndoParsing()
    ensures Aton("010.0.0.1") == Some(Addr(8, 0, 0, 1))
    ensures InetNtoa(Addr(8, 0, 0, 1)) != "010.0.0.1"
  {
    hide Aton;
    OctalAddress("010.0.0.1");
    assert |InetNtoa(Addr(8, 0, 0, 1))| == 7;
  }

  lemma OctalAddress(s: string)
    requires s == "010.0.0.1"
    ensures Aton(s) == Some(Addr(8, 0, 0, 1))
  {
    OctalNumbers(s);
    hide Number, Numbers;
    FromHostOctets(Addr(8, 0, 0, 1));
    assert Concoct([8, 0, 0], 1) == Some(0x800_0001);
  }

  lemma OctalNumbers(s: string)
    requires s == "010.0.0.1"
    ensures Numbers(s, 0, []) == Some(([8, 0, 0], 1, 9))
  {
    assert Number(s, 0) == (8, 3) by {
      DigitsStep(s, 1, 8, 0);
      DigitsStep(s, 2, 8, 1);
    }
    assert Number(s, 4) == (0, 5) && Number(s, 6) == (0, 7);
    assert Number(s, 8) == (1, 9) by {
      DigitsStep(s, 8, 10, 0);
    }
    hide Number;
    var none: seq<nat> := [];
    assert none + [8] == [8] && [8] + [0] == [8, 0] && [8, 0] + [0] == [8, 0, 0];
    assert Numbers(s, 8, [8, 0, 0]) == Some(([8, 0, 0], 1, 9));
    assert Numbers(s, 6, [8, 0]) == Numbers(s, 8, [8, 0] + [0]);
    assert Numbers(s, 4, [8]) == Numbers(s, 6, [8] + [0]);
    assert Numbers(s, 0, none) == Numbers(s, 4, none + [8]);
  }

  // ---- The whole language ----

  /** The character of a digit, in hexadecimal in either case. */
  function DigitOf(d: nat, upper: bool): char
    requires d < 16
  {
    if d < 10 then ('0' as int + d) as char
    else if upper then ('A' as int + d - 10) as char
    else ('a' as int + d - 10) as char
  }

  /** A number in a base, without a prefix. */
  function Written(v: nat, base: nat, upper: bool): (s: string)
    requires 2 <= base <= 16
    ensures s != []
  {
    if v < base then [DigitOf(v, upper)] else Written(v / base, base, upper) + [DigitOf(v % base, upper)]
  }

  /** A number as C writes it. */
  function WithPrefix(v: nat, base: nat, upper: bool): string
    requires base in {8, 10, 16}
  {
    (if base == 8 then "0" else if base == 16 then "0x" else "") + Written(v, base, upper)
  }

  lemma DigitReads(d: nat, upper: bool, base: nat)
    requires d < base && base in {8, 10, 16}
    ensures Accepts(base, DigitOf(d, upper)) && DigitValue(DigitOf(d, upper)) == d
    ensures DigitOf(d, upper) == '0' <==> d == 0
    ensures DigitOf(d, upper) != 'x' && DigitOf(d, upper) != 'X'
  {
  }

  lemma DigitStep(s: string, i: nat, base: nat, val: nat, d: nat, upper: bool)
    requires base in {8, 10, 16} && d < base && i < |s| && s[i] == DigitOf(d, upper) && val * base + d < U32
    ensures Digits(s, i, base, val) == Digits(s, i + 1, base, val * base + d)
  {
    DigitReads(d, upper, base);
    hide DigitOf, DigitValue, Accepts;
    assert (val * base + d) % U32 == val * base + d;
  }

  lemma DivMod(v: nat, base: nat)
    requires base in {8, 10, 16}
    ensures v / base * base + v % base == v && v / base <= v && v % base < base
  {
    if base == 8 {
      assert v / 8 * 8 + v % 8 == v;
    } else if base == 10 {
      assert v / 10 * 10 + v % 10 == v;
    }
  }

  /** A run of digits is read as the number it writes. */
  lemma {:induction false} DigitsRead(s: string, i: nat, v: nat, base: nat, upper: bool)
    requires base in {8, 10, 16} && v < U32
    requires i + |Written(v, base, upper)| <= |s| && s[i..i + |Written(v, base, upper)|] == Written(v, base, upper)
    ensures Digits(s, i, base, 0) == Digits(s, i + |Written(v, base, upper)|, base, v)
    decreases v
  {
    hide Digits, DigitOf;
    var w := Written(v, base, upper);
    var last := i + |w| - 1;
    assert s[last] == w[|w| - 1];
    if v < base {
      DigitStep(s, i, base, 0, v, upper);
    } else {
      var w' := Written(v / base, base, upper);
      assert w == w' + [DigitOf(v % base, upper)];
      assert s[i..i + |w'|] == w[..|w'|] == w';
      DivMod(v, base);
      DigitsRead(s, i, v / base, base, upper);
      DigitStep(s, last, base, v / base, v % base, upper);
    }
  }

  lemma {:induction false} FirstDigit(v: nat, base: nat, upper: bool)
    requires base in {8, 10, 16}
    ensures var w := Written(v, base, upper); (w[0] == '0' <==> v == 0) && w[0] != 'x' && w[0] != 'X'
    decreases v
  {
    if v < base {
      DigitReads(v, upper, base);
    } else {
      FirstDigit(v / base, base, upper);
    }
  }

  /** Every 32-bit number is read back whole in each of the three bases of C, with digits of either case. */
  lemma NumbersRead(s: string, i: nat, v: nat, base: nat, upper: bool)
    requires base in {8, 10, 16} && v < U32 && (base == 10 ==> v > 0)
    requires var w := WithPrefix(v, base, upper); i + |w| <= |s| && s[i..i + |w|] == w && Ends(At(s, i + |w|))
    ensures Number(s, i) == (v, i + |WithPrefix(v, base, upper)|)
  {
    hide Written, Digits, DigitOf;
    var w, d := WithPrefix(v, base, upper), Written(v, base, upper);
    var k := |w| - |d|;
    FirstDigit(v, base, upper);
    PrefixReads(s, i, v, base, upper);
    DigitsRead(s, i + k, v, base, upper);
    hide WithPrefix, Prefix;
    Stops(s, i + |w|, base, v);
  }

  /** The prefix is recognized, and the digits follow it. */
  lemma PrefixReads(s: string, i: nat, v: nat, base: nat, upper: bool)
    requires base in {8, 10, 16} && (base == 10 ==> v > 0)
    requires var w := WithPrefix(v, base, upper); i + |w| <= |s| && s[i..i + |w|] == w
    ensures var w, d := WithPrefix(v, base, upper), Written(v, base, upper);
      && Prefix(s, i) == (base, i + |w| - |d|)
      && s[i + |w| - |d|..i + |w|] == d
  {
    FirstDigit(v, base, upper);
    hide Written;
    var w, d := WithPrefix(v, base, upper), Written(v, base, upper);
    assert forall j :: 0 <= j < |w| ==> s[i + j] == w[j];
    assert w[|w| - |d|..] == d;
  }

  lemma Stops(s: string, i: nat, base: nat, val: nat)
    requires Ends(At(s, i))
    ensures Digits(s, i, base, val) == (val, i)
  {
  }

  /** The parts of an address as one number, the first the most significant. */
  function Joined(parts: seq<nat>): nat {
    if parts == [] then 0 else Joined(parts[..|parts| - 1]) * 0x100 + parts[|parts| - 1]
  }

  function Pow256(n: nat): nat {
    if n == 0 then 1 else 0x100 * Pow256(n - 1)
  }

  /** The last part fills what the octets before it leave of the 32 bits, and an address is refused exactly if it does
      not fit there. */
  lemma ConcoctExactly(parts: seq<nat>, val: nat)
    requires |parts| <= 3 && val < U32
    ensures var left := Pow256(4 - |parts|);
      Concoct(parts, val) == if val < left then Some(Joined(parts) * left + val) else None
  {
    assert Pow256(1) == 0x100 && Pow256(2) == 0x1_0000 && Pow256(3) == 0x100_0000 && Pow256(4) == U32;
    if |parts| == 1 {
      assert parts[..0] == [];
    } else if |parts| == 2 {
      assert parts[..1][..0] == [];
    } else if |parts| == 3 {
      assert parts[..2][..1] == parts[..1] && parts[..1][..0] == [];
    }
  }

  /** What may follow an address: nothing, or white space and then anything. */
  lemma TrailingText(a: Addr, c: char, rest: string)
    requires a.Valid() && Ends(c) && c != '.'
    ensures Aton(InetNtoa(a) + [c] + rest) == if c == '\0' || IsSpace(c) then Some(a) else None
  {
    hide InetNtoa, Numbers, Concoct, FromHost, IsSpace;
    AddressReads(InetNtoa(a) + [c] + rest, a);
    AddressConcocts(a);
  }
}
