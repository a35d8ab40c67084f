/** Recognising a subnet mask (agent/agent/parse.go). */
module SubnetMask {
  import opened Common
  import opened Text
  import opened Ipv4

  // ----- the texts that are looked at -----

  function Unsigned(s: string): string {
    if s != "" && (s[0] == '-' || s[0] == '+') then s[1..] else s
  }

  /** strconv.Atoi, but for its limit on the size of the number, which is beyond
      the limit its callers set. */
  function Atoi(s: string): Option<int> {
    var digits := Unsigned(s);
    if digits == "" || exists c | c in digits :: !IsDigit(c) then None
    else
      var n: int := DigitsValue(digits);
      Some(if s[0] == '-' then -n else n)
  }

  function OctetOf(part: string): Option<int> {
    match Atoi(part)
    case Some(n) => if n < 0 || n > 255 then None else Some(n)
    case None => None
  }

  /** The numbers of a text that passes for an IPv4 address. */
  function Octets(ip: string): Option<seq<int>> {
    var parts := Split(ip, '.');
    if ip == "" || ip == "0.0.0.0" || |parts| != 4 || exists p | p in parts :: OctetOf(p).None? then None
    else Some(seq(4, i requires 0 <= i < 4 => OctetOf(parts[i]).value))
  }

  /** A number is a string of digits with at most one sign in front. */
  lemma AtoiIff(s: string, n: int)
    ensures Atoi(s) == Some(n) <==>
              exists sign, digits ::
                && s == sign + digits && (sign == "" || sign == "+" || sign == "-")
                && digits != "" && (forall c | c in digits :: IsDigit(c))
                && var value: int := DigitsValue(digits); n == (if sign == "-" then -value else value)
  {
    hide DigitsValue;
    var digits := Unsigned(s);
    var sign := if digits == s then "" else s[..1];
    assert s == sign + digits;
    forall a: string, b: string | s == a + b && (a == "" || a == "+" || a == "-") && b != "" && forall c | c in b :: IsDigit(c)
      ensures a == sign && b == digits
    {
      assert b[0] in b;
      assert a == "" ==> s[0] == b[0];
      assert a != "" ==> s[0] == a[0] && s[1..] == b;
    }
  }

  /** The value of two strings of digits, one behind the other. */
  lemma {:induction false} DigitsInTwo(a: string, c: char)
    requires (forall x | x in a :: IsDigit(x)) && IsDigit(c)
    ensures DigitsValue(a + [c]) == 10 * DigitsValue(a) + (c as int - '0' as int)
  {
    assert (a + [c])[..|a|] == a;
  }

  /** A text passes for an address exactly if it is not "0.0.0.0" and consists of
      four numbers from 0 to 255 with dots between them. */
  lemma OctetsIff(s: string, o: seq<int>)
    ensures Octets(s) == Some(o) <==>
              && s != "0.0.0.0" && |o| == 4 && (forall i | 0 <= i < 4 :: 0 <= o[i] <= 255)
              && exists parts :: IsQuad(s, parts, o)
  {
    hide Atoi, Split, Join;
    var parts := Split(s, '.');
    JoinOfSplit(s, '.');
    forall ps | IsQuad(s, ps, o) ensures ps == parts {
      SplitOfJoin(ps, '.');
    }
    if Octets(s) == Some(o) {
      assert forall i | 0 <= i < 4 :: parts[i] in parts;
      assert IsQuad(s, parts, o);
    }
    if exists ps :: IsQuad(s, ps, o) {
      NoEmptyQuad(s, parts, o);
      if |o| == 4 && forall i | 0 <= i < 4 :: 0 <= o[i] <= 255 {
        assert forall i | 0 <= i < 4 :: OctetOf(parts[i]) == Some(o[i]);
        assert s != "0.0.0.0" ==> Octets(s).Some? && Octets(s).value == o;
      }
    }
  }

  ghost predicate IsQuad(s: string, parts: seq<string>, o: seq<int>) {
    && |parts| == |o| == 4 && s == Join(parts, '.')
    && forall i | 0 <= i < 4 :: '.' !in parts[i] && Atoi(parts[i]) == Some(o[i])
  }

  lemma NoEmptyQuad(s: string, parts: seq<string>, o: seq<int>)
    requires IsQuad(s, parts, o)
    ensures s != ""
  {
    SplitOfJoin(parts, '.');
  }

  method IsValidIPv4(ip: string) returns (ok: bool)
    ensures ok <==> Octets(ip).Some?
  {
    hide Atoi, Split;
    if ip == "" || ip == "0.0.0.0" {
      return false;
    }
    var parts := Split(ip, '.');
    if |parts| != 4 {
      return false;
    }
    for i := 0 to |parts|
      invariant forall p | p in parts[..i] :: OctetOf(p).Some?
    {
      var num := Atoi(parts[i]);
      assert parts[i] in parts;
      if num.None? || num.value < 0 || num.value > 255 {
        return false;
      }
    }
    return true;
  }

  // ----- what a mask is: ones, then zeros -----

  /** The last `width` binary digits of n, the most significant first. */
  function BinaryDigits(n: int, width: nat): (bits: seq<bool>)
    ensures |bits| == width
    decreases width
  {
    if width == 0 then [] else BinaryDigits(n / 2, width - 1) + [n % 2 == 1]
  }

  const OCTET: nat := 8

  function OctetBits(n: int): (bits: seq<bool>)
    ensures |bits| == OCTET
  {
    BinaryDigits(n, OCTET)
  }

  function Bits(octets: seq<int>): seq<bool> {
    if octets == [] then [] else OctetBits(octets[0]) + Bits(octets[1..])
  }

  /** Exactly the first k digits are ones. */
  predicate OnesUpTo(bits: seq<bool>, k: int) {
    0 <= k <= |bits| && forall i | 0 <= i < |bits| :: bits[i] <==> i < k
  }

  ghost predicate OnesThenZeros(bits: seq<bool>) {
    exists k :: OnesUpTo(bits, k)
  }

  lemma OnesOfConcat(a: seq<bool>, b: seq<bool>)
    ensures OnesThenZeros(a + b) <==>
              (OnesUpTo(a, |a|) && OnesThenZeros(b)) || (OnesThenZeros(a) && OnesUpTo(b, 0))
  {
    var c := a + b;
    if OnesThenZeros(c) {
      var k :| OnesUpTo(c, k);
      assert forall i | 0 <= i < |a| :: a[i] == c[i];
      assert forall i | 0 <= i < |b| :: b[i] == c[|a| + i];
      if k <= |a| {
        assert OnesUpTo(a, k) && OnesUpTo(b, 0);
      } else {
        assert OnesUpTo(a, |a|) && OnesUpTo(b, k - |a|);
      }
    }
    if OnesUpTo(a, |a|) && OnesThenZeros(b) {
      var k :| OnesUpTo(b, k);
      assert OnesUpTo(c, |a| + k);
    }
    if OnesThenZeros(a) && OnesUpTo(b, 0) {
      var k :| OnesUpTo(a, k);
      assert OnesUpTo(c, k);
    }
  }

  // ----- the octets a mask is made of -----

  predicate MaskOctet(n: int) {
    n == 0 || n == 128 || n == 192 || n == 224 || n == 240 || n == 248 || n == 252 || n == 254 || n == 255
  }

  predicate Zeros(octets: seq<int>) {
    forall i | 0 <= i < |octets| :: octets[i] == 0
  }

  predicate AllOctets(octets: seq<int>) {
    forall i | 0 <= i < |octets| :: 0 <= octets[i] < 256
  }

  /** Some octets of 255, one mask octet, and zeros. */
  predicate MaskShape(octets: seq<int>) {
    octets == [] ||
    if octets[0] == 255 then MaskShape(octets[1..]) else MaskOctet(octets[0]) && Zeros(octets[1..])
  }

  /** n has its first k of `width` digits set exactly when it lacks 2^(width - k)
      to the next power of two. */
  lemma {:induction false} OnesAsNumber(n: nat, width: nat, k: nat)
    requires n < Pow2(width) && k <= width
    ensures OnesUpTo(BinaryDigits(n, width), k) <==> n == Pow2(width) - Pow2(width - k)
  {
    if width > 0 {
      var bits, init := BinaryDigits(n, width), BinaryDigits(n / 2, width - 1);
      assert forall i | 0 <= i < width - 1 :: bits[i] == init[i];
      assert bits[width - 1] == (n % 2 == 1);
      OnesAsNumber(n / 2, width - 1, if k < width then k else k - 1);
      assert k < width ==> Pow2(width - k) == 2 * Pow2(width - 1 - k);
    }
  }

  lemma Powers()
    ensures Pow2(OCTET) == 256
    ensures Pow2(0) == 1 && Pow2(1) == 2 && Pow2(2) == 4 && Pow2(3) == 8
    ensures Pow2(4) == 16 && Pow2(5) == 32 && Pow2(6) == 64 && Pow2(7) == 128
  {
  }

  predicate LacksPower(n: int, k: int) {
    0 <= k <= OCTET && n == Pow2(OCTET) - Pow2(OCTET - k)
  }

  lemma MaskOctetAsPower(n: int)
    ensures MaskOctet(n) <==> exists k :: LacksPower(n, k)
  {
    Powers();
    if MaskOctet(n) {
      var k := if n == 0 then 0 else if n == 128 then 1 else if n == 192 then 2 else if n == 224 then 3
               else if n == 240 then 4 else if n == 248 then 5 else if n == 252 then 6 else if n == 254 then 7 else 8;
      assert LacksPower(n, k);
    }
  }

  lemma OctetShapes(n: byte)
    ensures OnesThenZeros(OctetBits(n)) <==> MaskOctet(n)
    ensures OnesUpTo(OctetBits(n), OCTET) <==> n == 255
    ensures OnesUpTo(OctetBits(n), 0) <==> n == 0
  {
    hide Pow2, MaskOctet, BinaryDigits, OnesUpTo;
    Powers();
    MaskOctetAsPower(n);
    OnesAsNumber(n, OCTET, 0);
    OnesAsNumber(n, OCTET, OCTET);
    if OnesThenZeros(OctetBits(n)) {
      var k :| OnesUpTo(OctetBits(n), k);
      assert 0 <= k <= OCTET by { OnesInRange(OctetBits(n), k); }
      OnesAsNumber(n, OCTET, k);
      assert LacksPower(n, k);
    }
    if MaskOctet(n) {
      var k :| LacksPower(n, k);
      OnesAsNumber(n, OCTET, k);
      assert OnesUpTo(OctetBits(n), k);
    }
  }

  lemma OnesInRange(bits: seq<bool>, k: int)
    requires OnesUpTo(bits, k)
    ensures 0 <= k <= |bits|
  {
  }

  lemma NoOnesOfConcat(a: seq<bool>, b: seq<bool>)
    ensures OnesUpTo(a + b, 0) <==> OnesUpTo(a, 0) && OnesUpTo(b, 0)
  {
    assert forall i | 0 <= i < |a| :: a[i] == (a + b)[i];
    assert forall i | 0 <= i < |b| :: b[i] == (a + b)[|a| + i];
  }

  lemma NoZeros()
    ensures Zeros([]) && OnesUpTo(Bits([]), 0)
  {
  }

  lemma ZerosOfCons(octets: seq<int>)
    requires octets != []
    ensures Zeros(octets) <==> octets[0] == 0 && Zeros(octets[1..])
  {
    assert octets == [octets[0]] + octets[1..];
  }

  lemma {:induction false} ZerosAreNoOnes(octets: seq<int>)
    requires AllOctets(octets)
    ensures OnesUpTo(Bits(octets), 0) <==> Zeros(octets)
    ensures |Bits(octets)| == 8 * |octets|
  {
    hide OctetBits, OnesUpTo, MaskOctet, Zeros;
    if octets == [] {
      NoZeros();
    } else {
      ZerosAreNoOnes(octets[1..]);
      OctetShapes(octets[0]);
      NoOnesOfConcat(OctetBits(octets[0]), Bits(octets[1..]));
      ZerosOfCons(octets);
    }
  }

  /** The shape of the octets is that of the binary digits. */
  lemma {:induction false} ShapeIsOnesThenZeros(octets: seq<int>)
    requires AllOctets(octets)
    ensures OnesThenZeros(Bits(octets)) <==> MaskShape(octets)
  {
    hide OnesThenZeros, OnesUpTo, OctetBits, MaskOctet;
    if octets == [] {
      NoDigits();
    } else {
      OnesOfConcat(OctetBits(octets[0]), Bits(octets[1..]));
      OctetShapes(octets[0]);
      ShapeIsOnesThenZeros(octets[1..]);
      ZerosAreNoOnes(octets[1..]);
      assert MaskOctet(255) by { Powers255(); }
      if octets[0] == 255 && Zeros(octets[1..]) {
        ZerosHaveShape(octets[1..]);
      }
    }
  }

  lemma NoDigits()
    ensures OnesThenZeros(Bits([]))
  {
    assert OnesUpTo(Bits([]), 0);
  }

  lemma Powers255()
    ensures MaskOctet(255)
  {
  }

  lemma ZerosHaveShape(octets: seq<int>)
    requires Zeros(octets)
    ensures MaskShape(octets)
  {
  }

  // ----- the trick on 32-bit words -----

  /** No 1 below a 0: the complement and its successor share no digit. */
  predicate PassesTest(binary: bv32) {
    var inverted := !binary;
    (inverted & (inverted + 1)) == 0
  }

  predicate SmallWord(x: bv32) {
    x & 0xFFFF_FF00 == 0
  }

  predicate MaskWord(x: bv32) {
    x == 0 || x == 128 || x == 192 || x == 224 || x == 240 || x == 248 || x == 252 || x == 254 || x == 255
  }

  function Joined(a: bv32, b: bv32, c: bv32, d: bv32): bv32 {
    (a << 24) | (b << 16) | (c << 8) | d
  }

  predicate WordShape(a: bv32, b: bv32, c: bv32, d: bv32) {
    if a != 255 then MaskWord(a) && b == 0 && c == 0 && d == 0
    else if b != 255 then MaskWord(b) && c == 0 && d == 0
    else if c != 255 then MaskWord(c) && d == 0
    else MaskWord(d)
  }

  lemma TestOnWords(a: bv32, b: bv32, c: bv32, d: bv32)
    requires SmallWord(a) && SmallWord(b) && SmallWord(c) && SmallWord(d)
    ensures PassesTest(Joined(a, b, c, d)) <==> WordShape(a, b, c, d)
  {
  }

  function Word(n: int): bv32
    requires 0 <= n < 256
  {
    n as bv32
  }

  lemma WordOfOctet(n: byte)
    ensures SmallWord(Word(n)) && (MaskWord(Word(n)) <==> MaskOctet(n))
    ensures (Word(n) == 0 <==> n == 0) && (Word(n) == 255 <==> n == 255)
  {
    hide Word;
    WordIsSmall(n);
    LowWords(n);
    MiddleWords(n);
    HighWords(n);
  }

  lemma WordIsSmall(n: byte)
    ensures SmallWord(Word(n))
  {
  }

  lemma LowWords(n: byte)
    ensures (Word(n) == 0 <==> n == 0) && (Word(n) == 128 <==> n == 128) && (Word(n) == 192 <==> n == 192)
  {
  }

  lemma MiddleWords(n: byte)
    ensures (Word(n) == 224 <==> n == 224) && (Word(n) == 240 <==> n == 240) && (Word(n) == 248 <==> n == 248)
  {
  }

  lemma HighWords(n: byte)
    ensures (Word(n) == 252 <==> n == 252) && (Word(n) == 254 <==> n == 254) && (Word(n) == 255 <==> n == 255)
  {
  }

  predicate FourOctets(o: seq<int>) {
    |o| == 4 && AllOctets(o)
  }

  function Assembled(o: seq<int>): bv32
    requires FourOctets(o)
  {
    Joined(Word(o[0]), Word(o[1]), Word(o[2]), Word(o[3]))
  }

  lemma ShapeOfFour(o: seq<int>)
    requires FourOctets(o)
    ensures MaskShape(o) <==>
              if o[0] != 255 then MaskOctet(o[0]) && o[1] == 0 && o[2] == 0 && o[3] == 0
              else if o[1] != 255 then MaskOctet(o[1]) && o[2] == 0 && o[3] == 0
              else if o[2] != 255 then MaskOctet(o[2]) && o[3] == 0
              else MaskOctet(o[3])
  {
    hide MaskShape, MaskOctet;
    var p, q, r := o[1..], o[2..], o[3..];
    assert p[1..] == q && q[1..] == r && r[1..] == [];
    ShapeUnfold(o);
    ShapeUnfold(p);
    ShapeUnfold(q);
    ShapeUnfold(r);
    assert Zeros(r) <==> r[0] == 0;
    assert Zeros(q) <==> q[0] == 0 && q[1] == 0;
    assert Zeros(p) <==> p[0] == 0 && p[1] == 0 && p[2] == 0;
  }

  lemma ShapeUnfold(octets: seq<int>)
    requires octets != []
    ensures MaskShape(octets) <==>
              if octets[0] != 255 then MaskOctet(octets[0]) && Zeros(octets[1..])
              else if |octets| == 1 then MaskOctet(octets[0]) else MaskShape(octets[1..])
  {
  }

  /** The assembled word passes the test exactly when the 32 digits are some ones
      followed by zeros. */
  lemma TestIsOnesThenZeros(o: seq<int>)
    requires FourOctets(o)
    ensures PassesTest(Assembled(o)) <==> OnesThenZeros(Bits(o))
  {
    hide *;
    FourParts(o);
    ShapeIsOnesThenZeros(o);
    TestOnWords(Word(o[0]), Word(o[1]), Word(o[2]), Word(o[3])) by { SmallWords(o); }
    ShapesAgree(o);
  }

  lemma SmallWords(o: seq<int>)
    requires FourOctets(o)
    ensures SmallWord(Word(o[0])) && SmallWord(Word(o[1])) && SmallWord(Word(o[2])) && SmallWord(Word(o[3]))
  {
    hide Word, SmallWord;
    WordIsSmall(o[0]);
    WordIsSmall(o[1]);
    WordIsSmall(o[2]);
    WordIsSmall(o[3]);
  }

  lemma ShapesAgree(o: seq<int>)
    requires FourOctets(o)
    ensures MaskShape(o) <==> WordShape(Word(o[0]), Word(o[1]), Word(o[2]), Word(o[3]))
  {
    hide Word, MaskWord, MaskOctet, MaskShape;
    ShapeOfFour(o);
    WordOfOctet(o[0]);
    WordOfOctet(o[1]);
    WordOfOctet(o[2]);
    WordOfOctet(o[3]);
  }

  lemma FourParts(o: seq<int>)
    requires FourOctets(o)
    ensures AllOctets(o) && |o| == 4 && 0 <= o[0] < 256 && 0 <= o[1] < 256 && 0 <= o[2] < 256 && 0 <= o[3] < 256
    ensures Assembled(o) == Joined(Word(o[0]), Word(o[1]), Word(o[2]), Word(o[3]))
  {
  }

  // ----- the whole function -----

  lemma OctetsAreFour(mask: string)
    requires Octets(mask).Some?
    ensures FourOctets(Octets(mask).value)
    ensures |Split(mask, '.')| == 4
    ensures forall i | 0 <= i < 4 :: OctetOf(Split(mask, '.')[i]) == Some(Octets(mask).value[i])
  {
  }

  /** A text is taken for a mask exactly when it has four octets whose binary
      digits are ones followed by zeros. */
  method IsValidSubnetMask(mask: string) returns (ok: bool)
    ensures ok <==> Octets(mask).Some? && OnesThenZeros(Bits(Octets(mask).value))
  {
    hide *;
    var valid := IsValidIPv4(mask);
    if !valid {
      return false;
    }
    OctetsAreFour(mask);
    ghost var o := Octets(mask).value;
    FourParts(o);
    ghost var a, b, c, d := Word(o[0]), Word(o[1]), Word(o[2]), Word(o[3]);
    PartialEnds(a, b, c, d);
    var parts := Split(mask, '.');
    var binary: bv32 := 0;
    for i := 0 to |parts|
      invariant binary == Partial(a, b, c, d, i)
    {
      OctetOfParts(parts[i]);
      var num := Atoi(parts[i]);
      if num.None? || num.value < 0 || num.value > 255 {
        return false;
      }
      PartialNext(a, b, c, d, i);
      NthWord(o, i);
      binary := binary | Shifted(Word(num.value), i);
    }
    TestIsOnesThenZeros(o);
    return PassesTest(binary);
  }

  lemma OctetOfParts(part: string)
    ensures OctetOf(part).Some? <==> Atoi(part).Some? && 0 <= Atoi(part).value <= 255
    ensures OctetOf(part).Some? ==> OctetOf(part) == Atoi(part)
  {
  }

  /** A word moved 24 - 8 * i places to the left. */
  function Shifted(w: bv32, i: int): bv32 {
    if i == 0 then w << 24 else if i == 1 then w << 16 else if i == 2 then w << 8 else w
  }

  /** The word made of the first i of four. */
  function Partial(a: bv32, b: bv32, c: bv32, d: bv32, i: int): bv32 {
    if i == 0 then 0
    else if i == 1 then a << 24
    else if i == 2 then (a << 24) | (b << 16)
    else if i == 3 then (a << 24) | (b << 16) | (c << 8)
    else Joined(a, b, c, d)
  }

  function Nth(a: bv32, b: bv32, c: bv32, d: bv32, i: int): bv32 {
    if i == 0 then a else if i == 1 then b else if i == 2 then c else d
  }

  lemma PartialNext(a: bv32, b: bv32, c: bv32, d: bv32, i: int)
    requires 0 <= i < 4
    ensures Partial(a, b, c, d, i + 1) == Partial(a, b, c, d, i) | Shifted(Nth(a, b, c, d, i), i)
  {
    if i == 0 {
    } else if i == 1 {
    } else if i == 2 {
    } else {
    }
  }

  lemma PartialEnds(a: bv32, b: bv32, c: bv32, d: bv32)
    ensures Partial(a, b, c, d, 0) == 0 && Partial(a, b, c, d, 4) == Joined(a, b, c, d)
  {
  }

  lemma NthWord(o: seq<int>, i: int)
    requires FourOctets(o) && 0 <= i < 4
    ensures Nth(Word(o[0]), Word(o[1]), Word(o[2]), Word(o[3]), i) == Word(o[i])
  {
    hide Word;
  }

  // ----- masks without ones -----

  lemma OctetsOfParts(ip: string, o: seq<int>)
    requires ip != "" && |Split(ip, '.')| == |o| == 4
    requires forall i | 0 <= i < 4 :: OctetOf(Split(ip, '.')[i]) == Some(o[i])
    ensures Octets(ip) == if ip == "0.0.0.0" then None else Some(o)
  {
    var parts := Split(ip, '.');
    assert ip != "0.0.0.0" ==> Octets(ip).Some? && Octets(ip).value == o;
  }

  /** The text "0.0.0.0" is refused, but the same address spelled with a
      superfluous zero is taken for a mask: the number of ones can be 0. */
  lemma ZeroMaskIsAccepted()
    ensures Octets("00.0.0.0") == Some([0, 0, 0, 0]) && OnesUpTo(Bits([0, 0, 0, 0]), 0)
    ensures Octets("0.0.0.0") == None
  {
    hide Octets, OctetOf, Bits, OnesUpTo, Split;
    ZeroText();
    ZeroOctets();
    OctetsOfParts("00.0.0.0", [0, 0, 0, 0]);
    ZerosAreNoOnes([0, 0, 0, 0]);
    ZeroIsRefused("0.0.0.0");
  }

  lemma ZeroIsRefused(s: string)
    requires s == "0.0.0.0"
    ensures Octets(s) == None
  {
  }

  lemma ZeroText()
    ensures Split("00.0.0.0", '.') == ["00", "0", "0", "0"]
  {
    var z := "0";
    SplitOfPlain(z, '.');
    SplitOfCons("0", z, '.');
    assert "0.0" == "0" + ['.'] + z;
    SplitOfCons("0", "0.0", '.');
    assert "0.0.0" == "0" + ['.'] + "0.0";
    SplitOfCons("00", "0.0.0", '.');
    assert "00.0.0.0" == "00" + ['.'] + "0.0.0";
  }

  lemma ZeroOctets()
    ensures OctetOf("0") == Some(0) && OctetOf("00") == Some(0)
  {
    DigitsValueUnfold("0");
    DigitsValueUnfold("00");
  }

  function Quad(ip: IP): seq<int> {
    [ip.a, ip.b, ip.c, ip.d]
  }

  lemma OctetOfDecimal(n: byte)
    ensures OctetOf(Decimal(n)) == Some(n)
  {
    hide Decimal, DigitsValue;
    OctetSpelling(Decimal(n), n);
    assert Decimal(n)[0] in Decimal(n);
    assert Unsigned(Decimal(n)) == Decimal(n);
  }

  lemma OctetsOfText(ip: IP)
    ensures Octets(ToText(ip)) == if ToText(ip) == "0.0.0.0" then None else Some(Quad(ip))
  {
    hide Octets, OctetOf, Decimal, Split, ToText;
    QuadText(ip);
    OctetOfDecimal(ip.a);
    OctetOfDecimal(ip.b);
    OctetOfDecimal(ip.c);
    OctetOfDecimal(ip.d);
    TextCharacters(ip);
    OctetsOfParts(ToText(ip), Quad(ip));
  }

  lemma QuadText(ip: IP)
    ensures Split(ToText(ip), '.') == [Decimal(ip.a), Decimal(ip.b), Decimal(ip.c), Decimal(ip.d)]
  {
    hide Decimal;
    SplitOfJoin([Decimal(ip.a), Decimal(ip.b), Decimal(ip.c), Decimal(ip.d)], '.');
  }

  lemma OnlyZeroReadsSo(ip: IP)
    ensures ToText(ip) == "0.0.0.0" <==> ip == IP(0, 0, 0, 0)
  {
    hide Decimal, ToText;
    ZeroReads();
    ParseIsInverseOfText(ToText(ip), ip);
    ParseIsInverseOfText(ToText(ip), IP(0, 0, 0, 0));
  }

  lemma ZeroReads()
    ensures ToText(IP(0, 0, 0, 0)) == "0.0.0.0"
  {
    JoinOfFour(Decimal(0), Decimal(0), Decimal(0), Decimal(0));
  }

  lemma ZeroQuad(ip: IP)
    ensures Zeros(Quad(ip)) <==> ip == IP(0, 0, 0, 0)
  {
    var q := Quad(ip);
    assert q[0] == ip.a && q[1] == ip.b && q[2] == ip.c && q[3] == ip.d;
  }

  ghost predicate HasOnes(bits: seq<bool>, least: int) {
    exists k :: k >= least && OnesUpTo(bits, k)
  }

  /** Of all texts that pass for masks, those with at least one 1 are exactly those
      whose octets are not all zero. */
  lemma MaskHasOnesIff(s: string)
    requires Octets(s).Some?
    ensures var o := Octets(s).value;
            (OnesThenZeros(Bits(o)) <==> HasOnes(Bits(o), 1)) <==> !Zeros(o)
  {
    hide Octets, Bits, OnesUpTo, Zeros;
    var o := Octets(s).value;
    OctetsAreFour(s);
    FourParts(o);
    ZerosAreNoOnes(o);
    var bits := Bits(o);
    if Zeros(o) {
      forall k | k >= 1 ensures !OnesUpTo(bits, k) {
        NotBoth(bits, k);
      }
    } else if OnesThenZeros(bits) {
      var k :| OnesUpTo(bits, k);
      OnesInRange(bits, k);
      assert k >= 1;
    }
  }

  /** On addresses in their usual spelling the check is exact: a mask is at least
      one 1 followed by zeros. */
  lemma UsualMaskIff(ip: IP)
    ensures Octets(ToText(ip)).Some? && OnesThenZeros(Bits(Octets(ToText(ip)).value)) <==> HasOnes(Bits(Quad(ip)), 1)
  {
    hide Octets, ToText, Bits, OnesUpTo;
    OctetsOfText(ip);
    OnlyZeroReadsSo(ip);
    ZerosAreNoOnes(Quad(ip));
    ZeroQuad(ip);
    var bits := Bits(Quad(ip));
    if OnesThenZeros(bits) {
      var k :| OnesUpTo(bits, k);
      OnesInRange(bits, k);
      assert ip != IP(0, 0, 0, 0) ==> k >= 1;
    }
    if ip == IP(0, 0, 0, 0) {
      forall k | k >= 1 ensures !OnesUpTo(bits, k) {
        NotBoth(bits, k);
      }
    }
  }

  lemma NotBoth(bits: seq<bool>, k: int)
    requires k >= 1 && OnesUpTo(bits, 0)
    ensures !OnesUpTo(bits, k)
  {
    assert |bits| > 0 ==> !bits[0];
  }
}
