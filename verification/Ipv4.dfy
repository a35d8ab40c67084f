/** IPv4 addresses: Go's net.ParseIP and IP.String on dotted quads, and the two
    uint32 conversions of agent/agent/rangeparser.go. */
module Ipv4 {
  import opened Common
  import opened Text

  type byte = x: int | 0 <= x < 256
  type uint32 = x: int | 0 <= x < 0x1_0000_0000

  datatype IP = IP(a: byte, b: byte, c: byte, d: byte)

  // ----- decimal octets -----

  predicate IsDigit(c: char) {
    '0' <= c <= '9'
  }

  function DigitValue(c: char): int
    requires IsDigit(c)
  {
    c as int - '0' as int
  }

  function Digit(n: int): char
    requires 0 <= n < 10
  {
    ('0' as int + n) as char
  }

  /** fmt's %d for an octet. */
  function Decimal(n: byte): (s: string)
    ensures 1 <= |s| <= 3 && forall c | c in s :: IsDigit(c)
  {
    if n < 10 then [Digit(n)]
    else if n < 100 then [Digit(n / 10), Digit(n % 10)]
    else [Digit(n / 100), Digit(n / 10 % 10), Digit(n % 10)]
  }

  /** The value of a string of digits. */
  function DigitsValue(s: string): nat
    requires forall c | c in s :: IsDigit(c)
  {
    if s == "" then 0 else DigitsValue(s[..|s| - 1]) * 10 + DigitValue(s[|s| - 1])
  }

  /** One field of a dotted quad: at most 255 and no superfluous zero. */
  function ParseOctet(s: string): Option<byte> {
    if 1 <= |s| <= 3 && (forall c | c in s :: IsDigit(c)) && (|s| > 1 ==> s[0] != '0') && DigitsValue(s) <= 255
    then Some(DigitsValue(s)) else None
  }

  lemma DigitsValueUnfold(s: string)
    requires 1 <= |s| <= 3 && forall c | c in s :: IsDigit(c)
    ensures |s| == 1 ==> DigitsValue(s) == DigitValue(s[0])
    ensures |s| == 2 ==> DigitsValue(s) == DigitValue(s[0]) * 10 + DigitValue(s[1])
    ensures |s| == 3 ==> DigitsValue(s) == DigitValue(s[0]) * 100 + DigitValue(s[1]) * 10 + DigitValue(s[2])
  {
    assert s[..|s| - 1] + [s[|s| - 1]] == s;
    if |s| == 3 {
      assert s[..2][..1] == s[..1] && s[..1][..0] == "";
    } else if |s| == 2 {
      assert s[..1][..0] == "";
    }
  }

  lemma DigitOfValue(c: char)
    requires IsDigit(c)
    ensures Digit(DigitValue(c)) == c
    ensures c != '0' ==> DigitValue(c) >= 1
  {
    assert DigitValue(c) == 0 ==> Digit(0) == c;
  }

  lemma Shift10(q: nat, r: int)
    requires 0 <= r < 10
    ensures (q * 10 + r) / 10 == q && (q * 10 + r) % 10 == r
    ensures (q * 10 + r) / 100 == q / 10
  {
  }

  lemma ParseOfDecimal(n: byte)
    ensures ParseOctet(Decimal(n)) == Some(n)
  {
    DigitsValueUnfold(Decimal(n));
  }

  lemma DecimalOfParsed(s: string)
    requires ParseOctet(s).Some?
    ensures s == Decimal(ParseOctet(s).value)
  {
    DigitsValueUnfold(s);
    forall i | 0 <= i < |s| ensures Digit(DigitValue(s[i])) == s[i] && (s[i] != '0' ==> DigitValue(s[i]) >= 1) {
      DigitOfValue(s[i]);
    }
    var x, y := DigitValue(s[0]), if |s| > 1 then DigitValue(s[1]) else 0;
    Shift10(x, y);
    if |s| == 3 {
      Shift10(x * 10 + y, DigitValue(s[2]));
      assert Decimal(ParseOctet(s).value) == [Digit(x), Digit(y), s[2]];
    } else if |s| == 2 {
      assert Decimal(ParseOctet(s).value) == [Digit(x), Digit(y)];
    } else {
      assert Decimal(ParseOctet(s).value) == [Digit(x)];
    }
  }

  /** Printing and parsing an octet are inverse, so the printed form is the only
      accepted spelling. */
  lemma OctetSpelling(s: string, n: byte)
    ensures ParseOctet(s) == Some(n) <==> s == Decimal(n)
  {
    ParseOfDecimal(n);
    if ParseOctet(s).Some? {
      DecimalOfParsed(s);
    }
  }

  // ----- dotted quads -----

  function ToText(ip: IP): string {
    Join([Decimal(ip.a), Decimal(ip.b), Decimal(ip.c), Decimal(ip.d)], '.')
  }

  function ParseIP(s: string): Option<IP> {
    var parts := Split(s, '.');
    if |parts| != 4 then None
    else
      match (ParseOctet(parts[0]), ParseOctet(parts[1]), ParseOctet(parts[2]), ParseOctet(parts[3]))
      case (Some(a), Some(b), Some(c), Some(d)) => Some(IP(a, b, c, d))
      case _ => None
  }

  /** A string parses to `ip` exactly when it is the text of `ip`. */
  lemma ParseIsInverseOfText(s: string, ip: IP)
    ensures ParseIP(s) == Some(ip) <==> s == ToText(ip)
  {
    var texts := [Decimal(ip.a), Decimal(ip.b), Decimal(ip.c), Decimal(ip.d)];
    SplitOfJoin(texts, '.');
    JoinOfSplit(s, '.');
    OctetSpelling(texts[0], ip.a);
    OctetSpelling(texts[1], ip.b);
    OctetSpelling(texts[2], ip.c);
    OctetSpelling(texts[3], ip.d);
    var parts := Split(s, '.');
    if ParseIP(s) == Some(ip) {
      OctetSpelling(parts[0], ip.a);
      OctetSpelling(parts[1], ip.b);
      OctetSpelling(parts[2], ip.c);
      OctetSpelling(parts[3], ip.d);
      assert parts == texts;
    }
  }

  lemma TextCharacters(ip: IP)
    ensures |ToText(ip)| > 0 && IsDigit(ToText(ip)[0])
    ensures forall c | c in ToText(ip) :: IsDigit(c) || c == '.'
  {
    JoinOfFour(Decimal(ip.a), Decimal(ip.b), Decimal(ip.c), Decimal(ip.d));
  }

  lemma JoinOfFour(a: string, b: string, c: string, d: string)
    ensures Join([a, b, c, d], '.') == a + "." + (b + "." + (c + "." + d))
  {
    assert Join([c, d], '.') == c + ['.'] + d;
    assert [b, c, d][1..] == [c, d];
    assert Join([b, c, d], '.') == b + ['.'] + Join([c, d], '.');
    assert [a, b, c, d][1..] == [b, c, d];
  }

  // ----- uint32 -----

  /** The four shifted octets, or-ed together. */
  function ToUint32(ip: IP): uint32 {
    ip.a * 0x100_0000 + ip.b * 0x1_0000 + ip.c * 0x100 + ip.d
  }

  /** byte(n >> 8k). */
  function Octet(n: nat, k: nat): byte {
    if k == 0 then n % 0x100 else Octet(n / 0x100, k - 1)
  }

  /** The four truncated right shifts. */
  function FromUint32(n: uint32): IP {
    IP(Octet(n, 3), Octet(n, 2), Octet(n, 1), Octet(n, 0))
  }

  lemma Shift(q: nat, r: byte)
    ensures (q * 0x100 + r) / 0x100 == q && (q * 0x100 + r) % 0x100 == r
  {
  }

  lemma FromOfTo(ip: IP)
    ensures FromUint32(ToUint32(ip)) == ip
  {
    var n1 := ip.a * 0x100 + ip.b;
    var n2 := n1 * 0x100 + ip.c;
    assert ToUint32(ip) == n2 * 0x100 + ip.d;
    Shift(n2, ip.d);
    Shift(n1, ip.c);
    Shift(ip.a, ip.b);
    assert Octet(ToUint32(ip), 1) == Octet(n2, 0);
    assert Octet(ToUint32(ip), 2) == Octet(n2, 1) == Octet(n1, 0);
    assert Octet(ToUint32(ip), 3) == Octet(n2, 2) == Octet(n1, 1) == Octet(ip.a, 0);
  }

  lemma ToOfFrom(n: uint32)
    ensures ToUint32(FromUint32(n)) == n
  {
    var n1 := n / 0x100;
    var n2 := n1 / 0x100;
    assert Octet(n, 1) == Octet(n1, 0);
    assert Octet(n, 2) == Octet(n1, 1) == Octet(n2, 0);
    assert Octet(n, 3) == Octet(n1, 2) == Octet(n2, 1) == Octet(n2 / 0x100, 0);
    assert n == n1 * 0x100 + n % 0x100 && n1 == n2 * 0x100 + n1 % 0x100;
    assert n2 == n2 / 0x100 * 0x100 + n2 % 0x100 && n2 / 0x100 < 0x100;
  }

  /** The text of the address with value `n`. */
  function Dotted(n: uint32): string {
    ToText(FromUint32(n))
  }

  /** Addresses and their texts determine each other. */
  lemma DottedSpelling(s: string, n: uint32)
    ensures s == Dotted(n) <==> ParseIP(s) == Some(FromUint32(n))
  {
    ParseIsInverseOfText(s, FromUint32(n));
  }

  lemma DottedIsInjective(m: uint32, n: uint32)
    requires Dotted(m) == Dotted(n)
    ensures m == n
  {
    DottedSpelling(Dotted(m), m);
    DottedSpelling(Dotted(n), n);
    ToOfFrom(m);
    ToOfFrom(n);
  }
}
