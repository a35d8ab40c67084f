/** What the lines of a range text mean, from their characters alone. */
module RangeLines {
  import opened Common
  import opened Text
  import opened Ipv4
  import opened RangeParser
  import opened RangeTheorems

  // ----- addresses as four numbers -----

  function Octets(ip: IP): seq<byte> {
    [ip.a, ip.b, ip.c, ip.d]
  }

  function Decimals(octets: seq<byte>): seq<string> {
    seq(|octets|, i requires 0 <= i < |octets| => Decimal(octets[i]))
  }

  /** Numbers with dots between them. */
  function Dots(octets: seq<byte>): string {
    Join(Decimals(octets), '.')
  }

  predicate NotBefore(p: IP, q: IP) {
    p.a > q.a || (p.a == q.a && (p.b > q.b || (p.b == q.b && (p.c > q.c || (p.c == q.c && p.d >= q.d)))))
  }

  lemma NotBeforeIff(p: IP, q: IP)
    ensures NotBefore(p, q) <==> ToUint32(p) >= ToUint32(q)
  {
  }

  lemma DotsOfAddress(ip: IP)
    ensures Dots(Octets(ip)) == ToText(ip)
  {
    hide Decimal;
    assert Decimals(Octets(ip)) == [Decimal(ip.a), Decimal(ip.b), Decimal(ip.c), Decimal(ip.d)];
  }

  lemma DecimalsArePlain(octets: seq<byte>)
    ensures |Decimals(octets)| == |octets|
    ensures forall p | p in Decimals(octets) :: '.' !in p && p != "" && forall c | c in p :: IsDigit(c)
  {
  }

  lemma SplitOfDots(octets: seq<byte>)
    requires octets != []
    ensures Split(Dots(octets), '.') == Decimals(octets)
  {
    DecimalsArePlain(octets);
    SplitOfJoin(Decimals(octets), '.');
  }

  lemma DecimalIsInjective(m: byte, n: byte)
    requires Decimal(m) == Decimal(n)
    ensures m == n
  {
    hide Decimal;
    OctetSpelling(Decimal(m), m);
    OctetSpelling(Decimal(n), n);
  }

  lemma DecimalsAreInjective(p: seq<byte>, q: seq<byte>)
    requires Decimals(p) == Decimals(q)
    ensures p == q
  {
    hide Decimal;
    assert |p| == |Decimals(p)| == |q|;
    forall i | 0 <= i < |p| ensures p[i] == q[i] {
      assert Decimals(p)[i] == Decimals(q)[i];
      DecimalIsInjective(p[i], q[i]);
    }
  }

  lemma DecimalsInTwo(octets: seq<byte>, i: nat)
    requires i <= |octets|
    ensures Decimals(octets) == Decimals(octets[..i]) + Decimals(octets[i..])
  {
    hide Decimal;
  }

  // ----- what an accepted line stands for -----

  /** The texts are those of the addresses that satisfy `p`, and no others. */
  ghost predicate Denotes(texts: seq<string>, p: IP -> bool) {
    && (forall x | x in texts :: exists ip :: x == ToText(ip) && p(ip))
    && (forall ip | p(ip) :: ToText(ip) in texts)
  }

  lemma MembersDenote(texts: seq<string>, p: IP -> bool)
    requires forall x | x in texts :: exists a: uint32 :: x == Dotted(a)
    requires forall a: uint32 :: Dotted(a) in texts <==> p(FromUint32(a))
    ensures Denotes(texts, p)
  {
    hide Dotted, FromUint32, ToText, ToUint32;
    forall x | x in texts ensures exists ip :: x == ToText(ip) && p(ip) {
      var a: uint32 :| x == Dotted(a);
      TextOf(a);
      assert x == ToText(FromUint32(a)) && p(FromUint32(a));
    }
    forall ip | p(ip) ensures ToText(ip) in texts {
      TextOf(ToUint32(ip));
      FromOfTo(ip);
    }
  }

  lemma TextOf(a: uint32)
    ensures Dotted(a) == ToText(FromUint32(a))
  {
  }

  lemma {:induction false} ConsecutiveAreAddresses(lo: uint32, n: nat)
    requires lo + n <= UINT32_MAX + 1
    ensures forall x | x in Consecutive(lo, n) :: exists a: uint32 :: x == Dotted(a)
  {
    hide Dotted;
    if n > 0 {
      ConsecutiveAreAddresses(lo, n - 1);
      var last: uint32 := lo + n - 1;
      ConsecutivePush(lo, n - 1);
      assert Dotted(last) == Dotted(lo + (n - 1));
    }
  }

  // ----- dash lines -----

  /** The right side gives the last k octets of `hi`, which shares the others with `lo`. */
  predicate GivesLast(right: string, lo: IP, hi: IP, k: nat) {
    1 <= k <= 4 && right == Dots(Octets(hi)[4 - k..]) && Octets(hi)[..4 - k] == Octets(lo)[..4 - k]
  }

  lemma FullRight(right: string, lo: IP, hi: IP)
    ensures GivesLast(right, lo, hi, 4) <==> ParseIP(right) == Some(hi)
  {
    hide ToText, Dots, ParseIP;
    DotsOfAddress(hi);
    ParseIsInverseOfText(right, hi);
    assert Octets(hi)[0..] == Octets(hi);
  }

  lemma PartsOfRight(right: string, lo: IP, hi: IP, k: nat)
    requires GivesLast(right, lo, hi, k)
    ensures |Split(right, '.')| == k
  {
    SplitOfDots(Octets(hi)[4 - k..]);
  }

  lemma JoinedEnd(lo: IP, right: string, hi: IP)
    requires 1 <= |Split(right, '.')| <= 3
    ensures var rparts := Split(right, '.');
            ParseIP(Join(Decimals(Octets(lo))[..4 - |rparts|] + rparts, '.')) == Some(hi)
            <==> GivesLast(right, lo, hi, |rparts|)
  {
    hide ParseIP, ToText, Decimal, Dots, Join, Split;
    var rparts := Split(right, '.');
    var k := |rparts|;
    var front := Decimals(Octets(lo))[..4 - k];
    var end := Join(front + rparts, '.');
    DecimalsArePlain(Octets(lo));
    SplitOfJoin(front + rparts, '.');
    ParseIsInverseOfText(end, hi);
    DotsOfAddress(hi);
    SplitOfDots(Octets(hi));
    JoinIs(Octets(hi));
    DecimalsInTwo(Octets(hi), 4 - k);
    DecimalsInTwo(Octets(lo), 4 - k);
    var tail := Octets(hi)[4 - k..];
    SplitOfDots(tail);
    JoinIs(tail);
    JoinOfSplit(right, '.');
    assert ParseIP(end) == Some(hi) <==> front + rparts == Decimals(Octets(hi));
    assert front == Decimals(Octets(lo)[..4 - k]);
    if front + rparts == Decimals(Octets(hi)) {
      assert front == Decimals(Octets(hi)[..4 - k]) by {
        assert (front + rparts)[..4 - k] == front;
      }
      assert rparts == Decimals(tail) by {
        assert (front + rparts)[4 - k..] == rparts;
      }
      DecimalsAreInjective(Octets(lo)[..4 - k], Octets(hi)[..4 - k]);
    }
  }

  lemma JoinIs(octets: seq<byte>)
    ensures Join(Decimals(octets), '.') == Dots(octets)
  {
  }

  /** What becomes of the right side of a dash line whose left side is `lo`. */
  lemma EndIff(lo: IP, right: string, hi: IP)
    ensures var end := match ParseIP(right)
                       case Some(rip) => Accept(Single(ToUint32(rip)), "")
                       case None => ShorthandEnd(ToText(lo), right);
            (end.Accept? ==> end.entry.Single?)
            && (end.Accept? && end.entry.addr == ToUint32(hi) <==> exists k :: GivesLast(right, lo, hi, k))
  {
    hide ParseIP, ToText, Decimal, Dots, Join, Split, ToUint32;
    FullRight(right, lo, hi);
    forall k | GivesLast(right, lo, hi, k) ensures k == |Split(right, '.')| {
      PartsOfRight(right, lo, hi, k);
    }
    if ParseIP(right).Some? {
      var rip := ParseIP(right).value;
      SameNumber(rip, hi);
      FullRight(right, lo, rip);
      PartsOfRight(right, lo, rip, 4);
      assert (exists k :: GivesLast(right, lo, hi, k)) <==> GivesLast(right, lo, hi, 4);
    } else {
      LeftParts(lo);
      ShorthandIff(lo, right, hi);
    }
  }

  lemma LeftParts(lo: IP)
    ensures Split(ToText(lo), '.') == Decimals(Octets(lo)) && |Decimals(Octets(lo))| == 4
  {
    hide ToText, Dots;
    DotsOfAddress(lo);
    SplitOfDots(Octets(lo));
    DecimalsArePlain(Octets(lo));
  }

  lemma SameNumber(p: IP, q: IP)
    ensures ToUint32(p) == ToUint32(q) <==> p == q
  {
    FromOfTo(p);
    FromOfTo(q);
  }

  lemma NoLetters(end: string, ip: IP)
    requires end == ToText(ip)
    ensures 'x' !in end && '*' !in end
  {
    TextCharacters(ip);
  }

  lemma ShorthandIff(lo: IP, right: string, hi: IP)
    requires ParseIP(right).None?
    requires Split(ToText(lo), '.') == Decimals(Octets(lo)) && |Decimals(Octets(lo))| == 4
    requires forall k | GivesLast(right, lo, hi, k) :: k == |Split(right, '.')|
    ensures var end := ShorthandEnd(ToText(lo), right);
            (end.Accept? ==> end.entry.Single?)
            && (end.Accept? && end.entry.addr == ToUint32(hi) <==> exists k :: GivesLast(right, lo, hi, k))
  {
    hide ParseIP, ToText, Decimal, Dots, Join, Split, ToUint32;
    FullRight(right, lo, hi);
    var rparts := Split(right, '.');
    if 1 <= |rparts| <= 3 {
      var endStr := Join(Decimals(Octets(lo))[..4 - |rparts|] + rparts, '.');
      JoinedEnd(lo, right, hi);
      if ParseIP(endStr).Some? {
        var ip := ParseIP(endStr).value;
        ParseIsInverseOfText(endStr, ip);
        NoLetters(endStr, ip);
        SameNumber(ip, hi);
      }
    }
  }

  lemma DashDecision(s: string, left: string, right: string)
    requires '-' in s && left == TrimSpace(s[..IndexOf(s, '-')]) && right == TrimSpace(s[IndexOf(s, '-') + 1..])
    ensures ClassifyDash(s).Accept? ==> ParseIP(left).Some?
    ensures ParseIP(left).Some? ==>
              var lo := ParseIP(left).value;
              var end := match ParseIP(right)
                         case Some(rip) => Accept(Single(ToUint32(rip)), "")
                         case None => ShorthandEnd(left, right);
              (end.Accept? ==> end.entry.Single?) ==>
                && (ClassifyDash(s).Accept? <==> end.Accept? && end.entry.addr >= ToUint32(lo))
                && (ClassifyDash(s).Accept? ==>
                      ClassifyDash(s) == Accept(Range(ToUint32(lo), end.entry.addr), left + "-" + Dotted(end.entry.addr)))
  {
    hide ParseIP, ShorthandEnd, ToUint32, Dotted, TrimSpace;
  }

  /** The parts of a dash line as the parser sees them. */
  lemma DashSplit(left: string, right: string)
    requires '-' !in left
    ensures var s := TrimSpace(left + "-" + right);
            && s != "" && '-' in s && IndexOf(s, '-') == |TrimLeft(left)|
            && TrimSpace(s[..IndexOf(s, '-')]) == TrimSpace(left)
            && TrimSpace(s[IndexOf(s, '-') + 1..]) == TrimSpace(right)
            && s[0] == (TrimLeft(left) + "-")[0]
  {
    hide TrimLeft, TrimRight, TrimSpace, IsSpace;
    NoSpace('-');
    TrimAround(left, '-', right);
    TrimLeftIsPart(left, '-');
    SeparatorPosition(TrimLeft(left), '-', TrimRight(right));
    TrimOfTrimmedEnds(left);
    TrimOfTrimmedEnds(right);
  }

  lemma NoSpace(c: char)
    requires c == '-' || c == '/'
    ensures !IsSpace(c)
  {
  }

  lemma TrimLeftIsPart(s: string, c: char)
    requires c !in s
    ensures c !in TrimLeft(s) && c !in TrimRight(s)
  {
    TrimLeftResult(s);
    TrimRightResult(s);
  }

  lemma DashLineDecision(left: string, right: string)
    requires '-' !in left && '/' !in left && '/' !in right
    ensures '-' in TrimSpace(left + "-" + right)
    ensures ReadLine(left + "-" + right) ==
            if (TrimLeft(left) + "-")[0] == '#' then Skip else ClassifyDash(TrimSpace(left + "-" + right))
  {
    hide ClassifyDash, TrimLeft, TrimRight, TrimSpace, IsSpace, ParseCIDR, IndexOf;
    NoSpace('-');
    DashSplit(left, right);
    TrimAround(left, '-', right);
    TrimLeftIsPart(left, '/');
    TrimLeftIsPart(right, '/');
  }

  lemma AddressIsNoComment(left: string, lo: IP)
    requires TrimSpace(left) == ToText(lo)
    ensures TrimLeft(left) != "" && TrimLeft(left)[0] == ToText(lo)[0] != '#'
  {
    TextCharacters(lo);
    TrimRightStart(TrimLeft(left));
  }

  lemma {:induction false} TrimRightStart(s: string)
    requires TrimRight(s) != ""
    ensures s != "" && TrimRight(s)[0] == s[0]
  {
    if IsSpace(s[|s| - 1]) {
      TrimRightStart(s[..|s| - 1]);
    }
  }

  /** A line "left-right" is read as the range from `lo` to `hi` exactly if, spaces
      around them aside, its left side is the text of `lo`, its right side gives the
      last one to four octets of `hi`, the other octets of the two are the same, and
      `hi` is not before `lo`. */
  lemma DashLineIff(left: string, right: string, lo: IP, hi: IP)
    requires '-' !in left && '/' !in left && '/' !in right
    ensures var line := ReadLine(left + "-" + right);
            line.Accept? && line.entry == Range(ToUint32(lo), ToUint32(hi)) <==>
              TrimSpace(left) == ToText(lo) && NotBefore(hi, lo) && exists k :: GivesLast(TrimSpace(right), lo, hi, k)
  {
    hide ReadLine, ClassifyDash, ToUint32, ParseIP, ToText, ShorthandEnd, TrimSpace, TrimLeft, NotBefore, GivesLast, IndexOf;
    var l, r, s := TrimSpace(left), TrimSpace(right), TrimSpace(left + "-" + right);
    DashLineDecision(left, right);
    DashSplit(left, right);
    DashDecision(s, l, r);
    NotBeforeIff(hi, lo);
    ParseIsInverseOfText(l, lo);
    if ParseIP(l).Some? {
      var p := ParseIP(l).value;
      ParseIsInverseOfText(l, p);
      AddressIsNoComment(left, p);
      EndIff(p, r, hi);
      SameNumber(p, lo);
    }
  }

  /** Whatever the two sides are, an accepted dash line is such a range, and its
      normalized form has both addresses in full. */
  lemma DashLineForm(left: string, right: string)
    requires '-' !in left && '/' !in left && '/' !in right
    ensures ReadLine(left + "-" + right).Accept? ==>
              exists lo, hi ::
                ReadLine(left + "-" + right) == Accept(Range(ToUint32(lo), ToUint32(hi)), ToText(lo) + "-" + ToText(hi))
  {
    if ReadLine(left + "-" + right).Accept? {
      AcceptedDashLine(left, right);
    }
  }

  lemma AcceptedDashLine(left: string, right: string)
    requires '-' !in left && '/' !in left && '/' !in right && ReadLine(left + "-" + right).Accept?
    ensures exists lo, hi ::
              ReadLine(left + "-" + right) == Accept(Range(ToUint32(lo), ToUint32(hi)), ToText(lo) + "-" + ToText(hi))
  {
    hide ClassifyDash, ToUint32, ParseIP, ToText, ShorthandEnd, TrimSpace, TrimLeft, IndexOf;
    var l, r, s := TrimSpace(left), TrimSpace(right), TrimSpace(left + "-" + right);
    DashLineDecision(left, right);
    DashSplit(left, right);
    DashDecision(s, l, r);
    var lo := ParseIP(l).value;
    ParseIsInverseOfText(l, lo);
    EndIff(lo, r, lo);
    var addr := ReadLine(left + "-" + right).entry.hi;
    var hi := FromUint32(addr);
    ToOfFrom(addr);
    TextOf(addr);
    assert ReadLine(left + "-" + right) == Accept(Range(ToUint32(lo), ToUint32(hi)), ToText(lo) + "-" + ToText(hi));
  }

  /** A range stands for the addresses from its first to its last, in that order. */
  lemma RangeDenotes(lo: IP, hi: IP)
    requires NotBefore(hi, lo)
    ensures EntryOk(Range(ToUint32(lo), ToUint32(hi)))
    ensures Denotes(Expansion(Range(ToUint32(lo), ToUint32(hi))), ip => NotBefore(ip, lo) && NotBefore(hi, ip))
  {
    hide Consecutive, Dotted, FromUint32, ToUint32, NotBefore;
    NotBeforeIff(hi, lo);
    var m: int, n: int := ToUint32(lo), ToUint32(hi);
    var total: nat := n - m + 1;
    ConsecutiveAreAddresses(m, total);
    var p := (ip: IP) => NotBefore(ip, lo) && NotBefore(hi, ip);
    forall a: uint32 ensures Dotted(a) in Consecutive(m, total) <==> p(FromUint32(a)) {
      RangeDenotesInterval(m, n, a);
      ToOfFrom(a);
      NotBeforeIff(FromUint32(a), lo);
      NotBeforeIff(hi, FromUint32(a));
    }
    MembersDenote(Consecutive(m, total), p);
  }

  // ----- blank lines and comments -----

  /** Exactly blank lines and comments are passed over. */
  lemma SkipIff(raw: string)
    ensures ReadLine(raw) == Skip <==> AllSpace(raw) || (TrimSpace(raw) != "" && TrimSpace(raw)[0] == '#')
  {
    hide ClassifyDash, ParseCIDR, ParseIP, ClassifyWildcard, TrimSpace;
    BlankIff(raw);
    var s := TrimSpace(raw);
    if s != "" {
      DecisionsAreNoSkips(s);
    }
  }

  lemma BlankIff(raw: string)
    ensures TrimSpace(raw) == "" <==> AllSpace(raw)
  {
    if AllSpace(raw) {
      TrimSpaceStrips(raw, "", "");
      assert raw + "" + "" == raw;
    } else {
      var a, c, r := FirstNonSpace(raw);
      TrimAround(a, c, r);
    }
  }

  lemma DecisionsAreNoSkips(s: string)
    ensures '-' in s ==> ClassifyDash(s) != Skip
    ensures ClassifyWildcard(s) != Skip
  {
    hide ParseIP, Split, TrimSpace, TrimSuffix, ToUint32;
    if '-' in s {
      var right := TrimSpace(s[IndexOf(s, '-') + 1..]);
      ShorthandIsNoSkip(TrimSpace(s[..IndexOf(s, '-')]), right);
    }
  }

  lemma ShorthandIsNoSkip(left: string, right: string)
    ensures ShorthandEnd(left, right) != Skip
  {
    hide ParseIP, Split, Join, ToUint32;
  }

  // ----- CIDR lines -----

  lemma DivDiv(n: nat, p: nat)
    requires p > 0
    ensures n / 2 / p == n / (2 * p)
  {
    var q, r, b := n / 2 / p, n / 2 % p, n % 2;
    assert n / 2 == q * p + r && n == 2 * (n / 2) + b;
    Quotient(n, 2 * p, q, 2 * r + b);
  }

  lemma Quotient(n: nat, d: nat, q: nat, r: nat)
    requires d > 0 && r < d && n == q * d + r
    ensures n / d == q
  {
    var k := n / d;
    Division(n, d);
    if k < q {
      Multiples(k + 1, q, d);
    } else if k > q {
      Multiples(q + 1, k, d);
    }
  }

  lemma Division(n: nat, d: nat)
    requires d > 0
    ensures n / d * d <= n < (n / d + 1) * d
  {
  }

  lemma Multiples(a: nat, b: nat, d: nat)
    requires d > 0
    ensures a <= b <==> a * d <= b * d
  {
    if a <= b {
      assert b * d == a * d + (b - a) * d;
    } else {
      assert a * d == b * d + (a - b) * d;
    }
  }

  /** Clearing low bits rounds down to a multiple of a power of two. */
  lemma {:induction false} MaskedIsMultiple(n: nat, h: nat)
    ensures Masked(n, h) == n / Pow2(h) * Pow2(h)
  {
    hide Masked, Pow2;
    MaskedUnfold(n, h);
    if h > 0 {
      var p := Pow2(h - 1);
      MaskedIsMultiple(n / 2, h - 1);
      DivDiv(n, p);
      Doubled(n / 2 / p, p);
    }
  }

  lemma MaskedUnfold(n: nat, h: nat)
    ensures h == 0 ==> Masked(n, h) == n && n / Pow2(h) * Pow2(h) == n
    ensures h > 0 ==> Masked(n, h) == 2 * Masked(n / 2, h - 1) && Pow2(h) == 2 * Pow2(h - 1)
  {
  }

  lemma Doubled(q: nat, p: nat)
    ensures q * (2 * p) == 2 * (q * p)
  {
  }

  lemma SameBlockIff(m: nat, n: nat, h: nat)
    ensures Masked(m, h) == Masked(n, h) <==> m / Pow2(h) == n / Pow2(h)
  {
    MaskedIsMultiple(m, h);
    MaskedIsMultiple(n, h);
    Multiples(m / Pow2(h), n / Pow2(h), Pow2(h));
    Multiples(n / Pow2(h), m / Pow2(h), Pow2(h));
  }

  /** The digits of a prefix length, zeros in front allowed. */
  predicate PrefixDigits(mask: string) {
    mask != "" && (forall c | c in mask :: IsDigit(c)) && DigitsValue(mask) <= 32
  }

  lemma CidrDecision(s: string, left: string, mask: string)
    requires s == left + "/" + mask && '/' !in left
    ensures ParseCIDR(s).Some? <==> ParseIP(left).Some? && PrefixDigits(mask)
    ensures ParseCIDR(s).Some? ==>
              ParseCIDR(s).value.1 == DigitsValue(mask)
              && ParseCIDR(s).value.0 == Masked(ToUint32(ParseIP(left).value), 32 - DigitsValue(mask))
    ensures s != "" && '/' in s && s[0] == (left + "/")[0]
  {
    hide ParseIP, ToUint32, Masked, DigitsValue;
    SeparatorPosition(left, '/', mask);
  }

  /** A line with a slash is accepted exactly if an address stands before the first
      slash and a number up to 32 behind it; it is normalized to itself. */
  lemma CidrLineIff(raw: string, left: string, mask: string)
    requires TrimSpace(raw) == left + "/" + mask && '/' !in left
    ensures ReadLine(raw).Accept? <==> (exists ip :: left == ToText(ip)) && PrefixDigits(mask)
    ensures ReadLine(raw).Accept? ==> ReadLine(raw).normal == TrimSpace(raw)
  {
    hide ParseIP, ToUint32, Masked, DigitsValue, ParseCIDR, ToText, PrefixDigits;
    var s := TrimSpace(raw);
    CidrDecision(s, left, mask);
    if ip :| left == ToText(ip) {
      ParseIsInverseOfText(left, ip);
      TextCharacters(ip);
    }
    if ParseIP(left).Some? {
      ParseIsInverseOfText(left, ParseIP(left).value);
      TextCharacters(ParseIP(left).value);
    }
  }

  /** It stands for the addresses that have the prefix in common: those whose
      numbers give the same quotient by the size of the block. */
  lemma CidrLineDenotes(raw: string, ip: IP, mask: string)
    requires TrimSpace(raw) == ToText(ip) + "/" + mask && PrefixDigits(mask)
    ensures var line, size := ReadLine(raw), Pow2(32 - DigitsValue(mask));
            && line.Accept? && EntryOk(line.entry)
            && Denotes(Expansion(line.entry), q => ToUint32(q) / size == ToUint32(ip) / size)
  {
    hide ParseIP, ToUint32, Masked, DigitsValue, ParseCIDR, ToText, Dotted, FromUint32, Consecutive, BlockSize, Pow2;
    var left, ones := ToText(ip), DigitsValue(mask);
    TextCharacters(ip);
    CidrDecision(TrimSpace(raw), left, mask);
    ParseIsInverseOfText(left, ip);
    var base, h := ToUint32(ip), 32 - ones;
    var start := Masked(base, h);
    assert ReadLine(raw).entry == Cidr(start, ones);
    ConsecutiveAreAddresses(start, BlockSize(ones));
    var p := (q: IP) => ToUint32(q) / Pow2(h) == base / Pow2(h);
    forall a: uint32 ensures Dotted(a) in Consecutive(start, BlockSize(ones)) <==> p(FromUint32(a)) {
      CidrDenotesPrefix(base, ones, a);
      SameBlockIff(a, base, h);
      ToOfFrom(a);
    }
    MembersDenote(Consecutive(start, BlockSize(ones)), p);
  }

  // ----- wildcard lines -----

  lemma WildcardTail(base: string, tail: string)
    requires (tail == ".x" || tail == ".*") && !HasSuffix(base, ".*")
    ensures var s := base + tail;
            && (HasSuffix(s, ".x") || HasSuffix(s, ".*")) && TrimSuffix(TrimSuffix(s, ".x"), ".*") == base
  {
    var s := base + tail;
    assert s[|s| - 2..] == tail && s[..|s| - 2] == base;
  }

  /** A line that ends in a wildcard is accepted exactly if two dots are in front of
      it, whatever else is; it is normalized to itself. */
  lemma WildcardLineIff(raw: string, base: string, tail: string)
    requires TrimSpace(raw) == base + tail && (tail == ".x" || tail == ".*") && !HasSuffix(base, ".*")
    requires '/' !in base && '-' !in base && base[..if base == "" then 0 else 1] != "#"
    ensures ReadLine(raw).Accept? <==> |Split(base, '.')| == 3
    ensures ReadLine(raw).Accept? ==> ReadLine(raw) == Accept(Wildcard(base + "."), TrimSpace(raw))
  {
    hide Split, TrimSpace, HasSuffix, TrimSuffix, ParseIP, ParseCIDR, ClassifyDash;
    WildcardTail(base, tail);
    var s := base + tail;
    assert base != "" ==> s[0] == base[0] && base[..1] == [base[0]];
    assert '/' !in s && '-' !in s;
  }

  /** With three octets in front it stands for the 256 addresses that begin with
      them, in order. */
  lemma WildcardLineDenotes(raw: string, a: byte, b: byte, c: byte, tail: string)
    requires TrimSpace(raw) == Dots([a, b, c]) + tail && (tail == ".x" || tail == ".*")
    ensures var line := ReadLine(raw);
            && line.Accept? && EntryOk(line.entry) && |Expansion(line.entry)| == 256
            && forall j: byte :: Expansion(line.entry)[j] == ToText(IP(a, b, c, j))
  {
    hide Split, TrimSpace, HasSuffix, ToText, Dots, Decimal, Suffixed, ReadLine;
    var base := Dots([a, b, c]);
    PlainBase(a, b, c);
    WildcardLineIff(raw, base, tail);
    assert ReadLine(raw).entry == Wildcard(base + ".");
    forall j: byte ensures Suffixed(base + ".", 256)[j] == ToText(IP(a, b, c, j)) {
      var n: nat := 256;
      SuffixedAt(base + ".", n, j);
      FourDots(a, b, c, j);
    }
  }

  lemma PlainBase(a: byte, b: byte, c: byte)
    ensures var base := Dots([a, b, c]);
            && base != "" && !HasSuffix(base, ".*") && '/' !in base && '-' !in base && base[..1] != "#"
            && |Split(base, '.')| == 3
  {
    hide Decimal;
    var base, p, q, r := Dots([a, b, c]), Decimal(a), Decimal(b), Decimal(c);
    SplitOfDots([a, b, c]);
    assert Decimals([a, b, c]) == [p, q, r];
    JoinOfThree(p, q, r);
    assert base == p + "." + (q + "." + r);
    assert base[0] == p[0] && p[0] in p;
    assert base[|base| - 1] == r[|r| - 1] && r[|r| - 1] in r;
    assert forall x | x in base :: IsDigit(x) || x == '.';
  }

  lemma JoinOfThree(p: string, q: string, r: string)
    ensures Join([p, q, r], '.') == p + "." + (q + "." + r)
  {
    assert Join([q, r], '.') == q + ['.'] + r;
    assert [p, q, r][1..] == [q, r];
  }

  lemma FourDots(a: byte, b: byte, c: byte, j: byte)
    ensures Dots([a, b, c]) + "." + Decimal(j) == ToText(IP(a, b, c, j))
  {
    hide Decimal;
    assert Decimals([a, b, c]) == [Decimal(a), Decimal(b), Decimal(c)];
    JoinOfThree(Decimal(a), Decimal(b), Decimal(c));
    JoinOfFour(Decimal(a), Decimal(b), Decimal(c), Decimal(j));
  }

  // ----- single addresses -----

  /** Any other line is accepted exactly if it is the text of an address, and stands
      for that. */
  lemma SingleLineIff(raw: string, ip: IP)
    requires var s := TrimSpace(raw); '/' !in s && '-' !in s && !HasSuffix(s, ".x") && !HasSuffix(s, ".*")
    ensures ReadLine(raw).Accept? ==> exists q :: TrimSpace(raw) == ToText(q)
    ensures TrimSpace(raw) == ToText(ip) ==>
              ReadLine(raw) == Accept(Single(ToUint32(ip)), ToText(ip)) && Expansion(Single(ToUint32(ip))) == [ToText(ip)]
  {
    hide ParseIP, ToText, HasSuffix, ParseCIDR, ClassifyDash, ClassifyWildcard, ToUint32, FromUint32;
    var s := TrimSpace(raw);
    ParseIsInverseOfText(s, ip);
    if s == ToText(ip) {
      TextCharacters(ip);
      FromOfTo(ip);
      TextOf(ToUint32(ip));
    }
    if ParseIP(s).Some? {
      ParseIsInverseOfText(s, ParseIP(s).value);
    }
  }

  // ----- errors and the cap, line by line -----

  /** Each error names a rejected line with its message, and they come in order. */
  ghost predicate NameRejected(errors: seq<ParseError>, lines: seq<string>) {
    && (forall i | 0 <= i < |errors| ::
          1 <= errors[i].line <= |lines| && ReadLine(lines[errors[i].line - 1]) == Reject(errors[i].msg))
    && (forall i, j | 0 <= i < j < |errors| :: errors[i].line < errors[j].line)
  }

  ghost predicate AllNamed(errors: seq<ParseError>, lines: seq<string>) {
    forall i | 0 <= i < |lines| && ReadLine(lines[i]).Reject? :: ParseError(i + 1, ReadLine(lines[i]).msg) in errors
  }

  lemma NoMoreErrors(errors: seq<ParseError>, lines: seq<string>, raw: string)
    requires NameRejected(errors, lines) && AllNamed(errors, lines) && !ReadLine(raw).Reject?
    ensures NameRejected(errors, lines + [raw]) && AllNamed(errors, lines + [raw])
  {
    hide ReadLine;
  }

  lemma OneMoreError(errors: seq<ParseError>, lines: seq<string>, raw: string)
    requires NameRejected(errors, lines) && AllNamed(errors, lines) && ReadLine(raw).Reject?
    ensures var more := errors + [ParseError(|lines| + 1, ReadLine(raw).msg)];
            NameRejected(more, lines + [raw]) && AllNamed(more, lines + [raw])
  {
    hide ReadLine;
  }

  lemma RejectionsPush(init: seq<string>, raw: string)
    ensures Rejections(init + [raw]) ==
            Rejections(init) + if ReadLine(raw).Reject? then [ParseError(|init| + 1, ReadLine(raw).msg)] else []
    ensures Rejections([]) == []
  {
    hide ReadLine;
    assert (init + [raw])[..|init|] == init;
  }

  /** Errors name, in order, exactly the lines that are rejected, counted from one. */
  lemma {:induction false} ErrorsNameLines(lines: seq<string>)
    ensures NameRejected(Rejections(lines), lines) && AllNamed(Rejections(lines), lines)
  {
    hide ReadLine, Rejections;
    if lines == [] {
      RejectionsPush([], "");
    } else {
      var init, raw := lines[..|lines| - 1], lines[|lines| - 1];
      ErrorsNameLines(init);
      RejectionsPush(init, raw);
      assert lines == init + [raw] && Rejections(init) + [] == Rejections(init);
      if ReadLine(raw).Reject? {
        OneMoreError(Rejections(init), init, raw);
      } else {
        NoMoreErrors(Rejections(init), init, raw);
      }
    }
  }

  /** A further line ends the call at the cap exactly if it is accepted, is not a
      single address already there, and the addresses found so far together with
      all of its own, repeated ones too, are more than the cap. */
  lemma NextLineFitsIff(lines: seq<string>, raw: string, maxAddrs: int)
    requires ParseLines(lines, maxAddrs).Done?
    requires var line := ReadLine(raw);
             line.Accept? ==> !(line.entry.Cidr? && line.entry.ones <= 1)
                              && !(line.entry.Range? && line.entry.lo == 0 && line.entry.hi == UINT32_MAX)
    ensures var line, ips := ReadLine(raw), ParseLines(lines, maxAddrs).res.ips;
            ParseLines(lines + [raw], maxAddrs).OverCap? <==>
              && line.Accept? && !(line.entry.Single? && Dotted(line.entry.addr) in ips)
              && |ips| + |Expansion(line.entry)| > maxAddrs
    ensures var o, before := ParseLines(lines + [raw], maxAddrs), ParseLines(lines, maxAddrs).res;
            o.OverCap? ==>
              && o.res == before && o.err.line == |lines| + 1
              && (o.err.TooMany? ==> o.err.produced == |before.ips| + |Expansion(ReadLine(raw).entry)|)
  {
    hide ReadLine, Dotted, Expansion, Cost, AddUnseen;
    CountIsLength(lines, maxAddrs);
    assert (lines + [raw])[..|lines|] == lines;
    if ReadLine(raw).Accept? {
      CostIsSizeIff(ReadLine(raw).entry);
    }
  }
}
