/** What the range parser promises: its result denotes the accepted lines, stays
    under the cap, and survives a round trip through its normalized lines. */
module RangeTheorems {
  import opened Common
  import opened Text
  import opened Ipv4
  import opened RangeParser

  // ----- denotation -----

  /** Everything the accepted lines ask for, in order and with repetitions. */
  function Requested(lines: seq<string>): seq<string> {
    if lines == [] then []
    else
      var line := ReadLine(lines[|lines| - 1]);
      Requested(lines[..|lines| - 1]) + if line.Accept? then Expansion(line.entry) else []
  }

  function Rejections(lines: seq<string>): seq<ParseError> {
    if lines == [] then []
    else
      var line := ReadLine(lines[|lines| - 1]);
      Rejections(lines[..|lines| - 1]) + if line.Reject? then [ParseError(|lines|, line.msg)] else []
  }

  function Normals(lines: seq<string>): seq<string> {
    if lines == [] then []
    else
      var line := ReadLine(lines[|lines| - 1]);
      Normals(lines[..|lines| - 1]) + if line.Accept? then [line.normal] else []
  }

  /** Lines that are neither blank nor a comment. */
  function Entries(lines: seq<string>): nat {
    if lines == [] then 0
    else
      var s := TrimSpace(lines[|lines| - 1]);
      Entries(lines[..|lines| - 1]) + if s == "" || s[0] == '#' then 0 else 1
  }

  lemma {:induction false} AddUnseenTwice(ips: seq<string>, xs: seq<string>, ys: seq<string>)
    ensures AddUnseen(AddUnseen(ips, xs), ys) == AddUnseen(ips, xs + ys)
  {
    if ys == [] {
      assert xs + ys == xs;
    } else {
      AddUnseenTwice(ips, xs, ys[..|ys| - 1]);
      assert (xs + ys)[..|xs + ys| - 1] == xs + ys[..|ys| - 1];
    }
  }

  lemma {:induction false} AddUnseenMembers(ips: seq<string>, xs: seq<string>)
    ensures Members(AddUnseen(ips, xs)) == Members(ips) + Members(xs)
    ensures |AddUnseen(ips, xs)| <= |ips| + |xs|
  {
    if xs != [] {
      var before, x := xs[..|xs| - 1], xs[|xs| - 1];
      AddUnseenMembers(ips, before);
      assert xs == before + [x];
      MembersPush(before, x);
      MembersPush(AddUnseen(ips, before), x);
    }
  }

  lemma AddUnseenOfSeen(ips: seq<string>, x: string)
    requires x in ips
    ensures AddUnseen(ips, [x]) == ips
  {
    assert [x][..0] == [];
  }

  /** `idx` lists, in increasing order, the positions where `xs` shows something new. */
  ghost predicate FirstOccurrences(ds: seq<string>, xs: seq<string>, idx: seq<nat>) {
    && |idx| == |ds|
    && (forall i | 0 <= i < |ds| :: idx[i] < |xs| && xs[idx[i]] == ds[i] && ds[i] !in xs[..idx[i]])
    && (forall i, j | 0 <= i < j < |ds| :: idx[i] < idx[j])
    && (forall x | x in xs :: x in ds)
  }

  lemma FirstOccurrencesPush(ds: seq<string>, xs: seq<string>, idx: seq<nat>, x: string)
    requires FirstOccurrences(ds, xs, idx) && forall d | d in ds :: d in xs
    ensures x in ds ==> FirstOccurrences(ds, xs + [x], idx)
    ensures x !in ds ==> FirstOccurrences(ds + [x], xs + [x], idx + [|xs|])
  {
    var ys := xs + [x];
    assert ys[..|xs|] == xs;
    forall i | 0 <= i < |ds| ensures xs[..idx[i]] == ys[..idx[i]] {}
    forall y | y in ys ensures y in ds || y == x {
      assert y in xs || y == x;
    }
  }

  lemma {:induction false} AddUnseenKeepsFirstOccurrences(xs: seq<string>)
    ensures exists idx: seq<nat> :: FirstOccurrences(AddUnseen([], xs), xs, idx)
  {
    if xs == [] {
      var none: seq<nat> := [];
      assert FirstOccurrences(AddUnseen([], xs), xs, none);
    } else {
      var before, x := xs[..|xs| - 1], xs[|xs| - 1];
      AddUnseenKeepsFirstOccurrences(before);
      var ds := AddUnseen([], before);
      var idx: seq<nat> :| FirstOccurrences(ds, before, idx);
      assert xs == before + [x];
      AddUnseenMembers([], before);
      forall d | d in ds ensures d in before {
        assert d in Members(ds);
      }
      FirstOccurrencesPush(ds, before, idx, x);
      assert AddUnseen([], xs) == if x in ds then ds else ds + [x];
    }
  }

  lemma {:induction false} EveryLineIsAccounted(lines: seq<string>)
    ensures |Rejections(lines)| + |Normals(lines)| == Entries(lines)
  {
    if lines != [] {
      EveryLineIsAccounted(lines[..|lines| - 1]);
      SkipIsBlankOrComment(TrimSpace(lines[|lines| - 1]));
    }
  }

  lemma SkipIsBlankOrComment(s: string)
    ensures Classify(s).Skip? <==> s == "" || s[0] == '#'
  {
    if s != "" && s[0] != '#' && '-' in s {
      var i := IndexOf(s, '-');
      assert !ShorthandEnd(TrimSpace(s[..i]), TrimSpace(s[i + 1..])).Skip?;
    }
  }

  lemma ApplyDenotes(res: ParseResult, requested: seq<string>, maxAddrs: int, lineNo: nat, line: Line)
    requires line.Accept? ==> EntryOk(line.entry)
    requires res.ips == AddUnseen([], requested) && res.count == |res.ips|
    requires Apply(res, maxAddrs, lineNo, line).Done?
    ensures var after := Apply(res, maxAddrs, lineNo, line).res;
            && after.ips == AddUnseen([], requested + if line.Accept? then Expansion(line.entry) else [])
            && after.count == |after.ips|
            && after.errors == res.errors + (if line.Reject? then [ParseError(lineNo, line.msg)] else [])
            && after.normalized == res.normalized + if line.Accept? then [line.normal] else []
  {
    if line.Accept? {
      AddUnseenTwice([], requested, Expansion(line.entry));
      if line.entry.Single? && Dotted(line.entry.addr) in res.ips {
        AddUnseenOfSeen(res.ips, Dotted(line.entry.addr));
      }
    } else {
      assert requested + [] == requested;
    }
  }

  lemma {:induction false} ResultFromLines(lines: seq<string>, maxAddrs: int)
    requires ParseLines(lines, maxAddrs).Done?
    ensures var res := ParseLines(lines, maxAddrs).res;
            res == ParseResult(AddUnseen([], Requested(lines)), |res.ips|, Rejections(lines), Normals(lines))
  {
    if lines != [] {
      var before := lines[..|lines| - 1];
      ResultFromLines(before, maxAddrs);
      ApplyDenotes(ParseLines(before, maxAddrs).res, Requested(before), maxAddrs, |lines|, ReadLine(lines[|lines| - 1]));
    }
  }

  /** A parse that ends without error returns the first occurrences of
      everything requested, one error per rejected line and one normalized entry
      per accepted line, and nothing else. */
  lemma Denotation(lines: seq<string>, maxAddrs: int)
    requires ParseLines(lines, maxAddrs).Done?
    ensures var res := ParseLines(lines, maxAddrs).res;
            && res == ParseResult(AddUnseen([], Requested(lines)), |res.ips|, Rejections(lines), Normals(lines))
            && |res.errors| + |res.normalized| == Entries(lines)
            && exists idx: seq<nat> :: FirstOccurrences(res.ips, Requested(lines), idx)
  {
    ResultFromLines(lines, maxAddrs);
    EveryLineIsAccounted(lines);
    AddUnseenKeepsFirstOccurrences(Requested(lines));
  }

  // ----- what the entries mean -----

  lemma {:induction false} ConsecutiveAt(lo: uint32, n: nat, i: nat)
    requires i < n && lo + n <= UINT32_MAX + 1
    ensures Consecutive(lo, n)[i] == Dotted(lo + i)
  {
    if i < n - 1 {
      ConsecutiveAt(lo, n - 1, i);
    }
  }

  lemma ConsecutivePosition(lo: uint32, n: nat, a: uint32) returns (i: nat)
    requires lo + n <= UINT32_MAX + 1 && Dotted(a) in Consecutive(lo, n)
    ensures i < n && a == lo + i
  {
    i :| 0 <= i < n && Consecutive(lo, n)[i] == Dotted(a);
    ConsecutiveAt(lo, n, i);
    DottedIsInjective(a, lo + i);
  }

  lemma ConsecutiveMembers(lo: uint32, n: nat, a: uint32)
    requires lo + n <= UINT32_MAX + 1
    ensures Dotted(a) in Consecutive(lo, n) <==> lo <= a < lo + n
  {
    if lo <= a < lo + n {
      ConsecutiveAt(lo, n, a - lo);
    } else if Dotted(a) in Consecutive(lo, n) {
      var i := ConsecutivePosition(lo, n, a);
      assert false;
    }
  }

  lemma {:induction false} MaskedBlock(n: nat, a: nat, h: nat)
    ensures Masked(n, h) <= a < Masked(n, h) + Pow2(h) <==> Masked(a, h) == Masked(n, h)
  {
    if h > 0 {
      MaskedBlock(n / 2, a / 2, h - 1);
    }
  }

  /** A CIDR line denotes the addresses that equal its own under the mask
      (section 3.1 of RFC 4632). */
  lemma CidrDenotesPrefix(ip: uint32, ones: nat, a: uint32)
    requires ones <= 32
    ensures var h := 32 - ones;
            && Masked(ip, h) <= UINT32_MAX && EntryOk(Cidr(Masked(ip, h), ones))
            && (Dotted(a) in Expansion(Cidr(Masked(ip, h), ones)) <==> Masked(a, h) == Masked(ip, h))
  {
    CidrFits(ip, ones);
    ConsecutiveMembers(Masked(ip, 32 - ones), BlockSize(ones), a);
    MaskedBlock(ip, a, 32 - ones);
  }

  /** A dash range denotes the addresses from its left to its right end. */
  lemma RangeDenotesInterval(lo: uint32, hi: uint32, a: uint32)
    requires lo <= hi
    ensures Dotted(a) in Expansion(Range(lo, hi)) <==> lo <= a <= hi
  {
    ConsecutiveMembers(lo, hi - lo + 1, a);
  }

  lemma {:induction false} SuffixedAt(prefix: string, n: nat, i: nat)
    requires i < n <= 256
    ensures Suffixed(prefix, n)[i] == prefix + Decimal(i)
  {
    if i < n - 1 {
      SuffixedAt(prefix, n - 1, i);
    }
  }

  lemma {:induction false} JoinPush(parts: seq<string>, p: string, sep: char)
    requires parts != []
    ensures Join(parts + [p], sep) == Join(parts, sep) + [sep] + p
  {
    if |parts| == 1 {
      assert (parts + [p])[1..] == [p];
    } else {
      assert (parts + [p])[1..] == parts[1..] + [p];
      JoinPush(parts[1..], p, sep);
    }
  }

  lemma SplitPush(s: string, p: string, sep: char)
    requires sep !in p
    ensures Split(s + [sep] + p, sep) == Split(s, sep) + [p]
  {
    JoinOfSplit(s, sep);
    JoinPush(Split(s, sep), p, sep);
    SplitOfJoin(Split(s, sep) + [p], sep);
  }

  predicate CanonicalOctets(base: string) {
    var parts := Split(base, '.');
    |parts| == 3 && ParseOctet(parts[0]).Some? && ParseOctet(parts[1]).Some? && ParseOctet(parts[2]).Some?
  }

  /** The three octets before a wildcard are never checked: what the line
      expands to are addresses exactly when the octets are canonical, and then
      they are the 256 addresses of that block. */
  lemma WildcardDenotesAddressesIff(base: string)
    requires |Split(base, '.')| == 3
    ensures (forall x | x in Suffixed(base + ".", 256) :: ParseIP(x).Some?) <==> CanonicalOctets(base)
    ensures CanonicalOctets(base) ==>
              exists lo: uint32 | lo + 256 <= UINT32_MAX + 1 :: Suffixed(base + ".", 256) == Consecutive(lo, 256)
  {
    var parts := Split(base, '.');
    forall j: byte
      ensures Split(base + "." + Decimal(j), '.') == parts + [Decimal(j)]
      ensures ParseIP(base + "." + Decimal(j)).Some? <==> CanonicalOctets(base)
    {
      SplitPush(base, Decimal(j), '.');
      OctetSpelling(Decimal(j), j);
    }
    forall j | 0 <= j < 256 ensures Suffixed(base + ".", 256)[j] == base + "." + Decimal(j) {
      SuffixedAt(base + ".", 256, j);
    }
    assert Suffixed(base + ".", 256)[0] == base + "." + Decimal(0);
    if CanonicalOctets(base) {
      var a, b, c := ParseOctet(parts[0]).value, ParseOctet(parts[1]).value, ParseOctet(parts[2]).value;
      CanonicalWildcard(base, a, b, c);
    }
  }

  lemma CanonicalWildcard(base: string, a: byte, b: byte, c: byte)
    requires |Split(base, '.')| == 3
    requires ParseOctet(Split(base, '.')[0]) == Some(a)
    requires ParseOctet(Split(base, '.')[1]) == Some(b)
    requires ParseOctet(Split(base, '.')[2]) == Some(c)
    ensures Suffixed(base + ".", 256) == Consecutive(ToUint32(IP(a, b, c, 0)), 256)
  {
    var lo := ToUint32(IP(a, b, c, 0));
    forall j: byte ensures Suffixed(base + ".", 256)[j] == Consecutive(lo, 256)[j] {
      WildcardText(base, a, b, c, j);
      assert base + "." + Decimal(j) == (base + ".") + Decimal(j);
      SameText(base + ".", lo, 256, j);
    }
  }

  lemma SameText(prefix: string, lo: uint32, n: nat, j: byte)
    requires j < n <= 256 && lo + n <= UINT32_MAX + 1
    requires prefix + Decimal(j) == Dotted(lo + j)
    ensures Suffixed(prefix, n)[j] == Consecutive(lo, n)[j]
  {
    SuffixedAt(prefix, n, j);
    ConsecutiveAt(lo, n, j);
  }

  lemma WildcardText(base: string, a: byte, b: byte, c: byte, j: byte)
    requires |Split(base, '.')| == 3
    requires ParseOctet(Split(base, '.')[0]) == Some(a)
    requires ParseOctet(Split(base, '.')[1]) == Some(b)
    requires ParseOctet(Split(base, '.')[2]) == Some(c)
    ensures base + "." + Decimal(j) == Dotted(ToUint32(IP(a, b, c, 0)) + j)
  {
    WildcardParses(base, a, b, c, j);
    ParseIsInverseOfText(base + "." + Decimal(j), IP(a, b, c, j));
    TextAtOffset(IP(a, b, c, 0), IP(a, b, c, j));
  }

  lemma WildcardParses(base: string, a: byte, b: byte, c: byte, j: byte)
    requires |Split(base, '.')| == 3
    requires ParseOctet(Split(base, '.')[0]) == Some(a)
    requires ParseOctet(Split(base, '.')[1]) == Some(b)
    requires ParseOctet(Split(base, '.')[2]) == Some(c)
    ensures ParseIP(base + "." + Decimal(j)) == Some(IP(a, b, c, j))
  {
    SplitPush(base, Decimal(j), '.');
    OctetSpelling(Decimal(j), j);
  }

  lemma TextAtOffset(first: IP, ip: IP)
    requires first == ip.(d := 0)
    ensures ToUint32(first) + ip.d <= UINT32_MAX && Dotted(ToUint32(first) + ip.d) == ToText(ip)
  {
    FromOfTo(ip);
    assert ToUint32(first) + ip.d == ToUint32(ip);
  }

  // ----- the cap -----

  function ResultOf(outcome: Outcome): ParseResult
    requires !outcome.Diverges?
  {
    outcome.res
  }

  /** The parser's own counter is the length of its list on every return. */
  lemma {:induction false} CountIsLength(lines: seq<string>, maxAddrs: int)
    requires !ParseLines(lines, maxAddrs).Diverges?
    ensures var res := ResultOf(ParseLines(lines, maxAddrs)); res.count == |res.ips|
  {
    if lines != [] {
      CountIsLength(lines[..|lines| - 1], maxAddrs);
    }
  }

  ghost predicate WithinCap(lines: seq<string>, maxAddrs: int) {
    var outcome := ParseLines(lines, maxAddrs);
    !outcome.Diverges? ==> |outcome.res.ips| <= if maxAddrs < 0 then 0 else maxAddrs
  }

  ghost predicate TextWithinCap(text: string, maxAddrs: int) {
    var outcome := ParseText(text, maxAddrs);
    !outcome.Diverges? ==> |outcome.res.ips| <= if maxAddrs < 0 then 0 else maxAddrs
  }

  /** The cost of an entry is its size, exactly but for the two largest blocks and
      the range of all addresses. */
  lemma CostIsSizeIff(e: Entry)
    requires EntryOk(e)
    ensures |Expansion(e)| == Cost(e) <==>
              !(e.Cidr? && e.ones <= 1) && !(e.Range? && e.lo == 0 && e.hi == UINT32_MAX)
  {
    hide Consecutive, Suffixed, Dotted, Pow2;
    Pow2Of32();
    match e
    case Cidr(_, ones) =>
      if ones <= 1 {
        LargestBlocks(ones);
      }
    case Range(lo, hi) => Wrapped(hi - lo + 1);
    case Wildcard(_) =>
    case Single(_) =>
  }

  lemma LargestBlocks(ones: nat)
    requires ones <= 1
    ensures BlockSize(ones) > CIDR_COUNT_LIMIT
  {
    hide Pow2;
    Pow2Of32();
    assert BlockSize(ones) == Pow2(32 - ones);
  }

  lemma Wrapped(n: nat)
    requires 0 < n <= 0x1_0000_0000
    ensures n % 0x1_0000_0000 == n <==> n < 0x1_0000_0000
  {
  }

  lemma ApplyKeepsCap(res: ParseResult, maxAddrs: int, lineNo: nat, line: Line)
    requires maxAddrs < CIDR_COUNT_LIMIT && (line.Accept? ==> EntryOk(line.entry))
    requires res.count == |res.ips| <= if maxAddrs < 0 then 0 else maxAddrs
    requires Apply(res, maxAddrs, lineNo, line).Done?
    ensures |Apply(res, maxAddrs, lineNo, line).res.ips| <= if maxAddrs < 0 then 0 else maxAddrs
  {
    if line.Accept? && !(line.entry.Single? && Dotted(line.entry.addr) in res.ips) {
      CostIsSizeIff(line.entry);
      AddUnseenMembers(res.ips, Expansion(line.entry));
    }
  }

  lemma {:induction false} CapHolds(lines: seq<string>, maxAddrs: int)
    requires maxAddrs < CIDR_COUNT_LIMIT
    ensures WithinCap(lines, maxAddrs)
  {
    if lines != [] && !ParseLines(lines, maxAddrs).Diverges? {
      var before := lines[..|lines| - 1];
      CapHolds(before, maxAddrs);
      CountIsLength(before, maxAddrs);
      if ParseLines(lines, maxAddrs).Done? {
        ApplyKeepsCap(ParseLines(before, maxAddrs).res, maxAddrs, |lines|, ReadLine(lines[|lines| - 1]));
      }
    }
  }

  ghost predicate NoRepeats(xs: seq<string>) {
    forall i, j | 0 <= i < j < |xs| :: xs[i] != xs[j]
  }

  lemma {:induction false} AddUnseenOfNew(ips: seq<string>, xs: seq<string>)
    requires NoRepeats(xs) && forall x | x in xs :: x !in ips
    ensures |AddUnseen(ips, xs)| == |ips| + |xs|
  {
    if xs != [] {
      var before, x := xs[..|xs| - 1], xs[|xs| - 1];
      AddUnseenOfNew(ips, before);
      AddUnseenMembers(ips, before);
      assert x !in Members(ips) && x !in Members(before);
      assert x !in Members(AddUnseen(ips, before));
    }
  }

  /** "aaa...*": a wildcard line whose prefix is not an address. */
  function Filler(k: nat): string {
    seq(k, i => 'a') + "...*"
  }

  function Fillers(n: nat): seq<string> {
    if n == 0 then [] else Fillers(n - 1) + [Filler(n)]
  }

  lemma FillerIsWildcard(k: nat)
    requires k >= 1
    ensures ReadLine(Filler(k)) == Accept(Wildcard(seq(k, i => 'a') + "..."), Filler(k))
  {
    hide Split, ParseIP, ParseCIDR, ClassifyDash, TrimLeft, TrimRight, TrimSpace, ToText, Dotted;
    var s, stem := Filler(k), seq(k, i => 'a');
    assert s[0] == 'a' && s[|s| - 1] == '*' && s[|s| - 2] == '.';
    TrimSpaceOfTrimmed(s);
    assert s[|s| - 2..] == ".*" && s[..|s| - 2] == stem + "..";
    TwoDots(stem);
    assert stem + ".." + "." == stem + "...";
  }

  lemma TwoDots(stem: string)
    requires '.' !in stem
    ensures |Split(stem + "..", '.')| == 3
  {
    SplitOfPlain(stem, '.');
    SplitPush(stem, "", '.');
    assert stem + "." + "" == stem + ".";
    SplitPush(stem + ".", "", '.');
    assert stem + "." + "." + "" == stem + "..";
  }

  /** What the fillers put into the list: texts that start with fewer than `n`+1 letters. */
  ghost predicate FromFillers(ips: seq<string>, n: nat) {
    forall x | x in ips :: x != "" && x[0] == 'a' && IndexOf(x, '.') <= n
  }

  lemma FillerTexts(k: nat)
    requires k >= 1
    ensures var xs := Suffixed(seq(k, i => 'a') + "...", 256);
            NoRepeats(xs) && forall x | x in xs :: x != "" && x[0] == 'a' && IndexOf(x, '.') == k
  {
    var prefix := seq(k, i => 'a') + "...";
    var xs := Suffixed(prefix, 256);
    forall j | 0 <= j < 256
      ensures xs[j] == prefix + Decimal(j) && xs[j][0] == 'a' && IndexOf(xs[j], '.') == k
    {
      SuffixedAt(prefix, 256, j);
      assert xs[j][k] == '.';
    }
    forall i, j | 0 <= i < j < 256 ensures xs[i] != xs[j] {
      OctetSpelling(Decimal(i), i);
      OctetSpelling(Decimal(j), j);
      assert xs[i][|prefix|..] == Decimal(i) && xs[j][|prefix|..] == Decimal(j);
    }
  }

  lemma {:induction false} FillersFill(n: nat, maxAddrs: int)
    requires 256 * n <= maxAddrs
    ensures ParseLines(Fillers(n), maxAddrs).Done?
    ensures var res := ParseLines(Fillers(n), maxAddrs).res;
            res.count == |res.ips| == 256 * n && FromFillers(res.ips, n)
  {
    if n > 0 {
      FillersFill(n - 1, maxAddrs);
      FillerIsWildcard(n);
      var lines := Fillers(n);
      assert lines[..|lines| - 1] == Fillers(n - 1) && lines[|lines| - 1] == Filler(n);
      FillerAdds(ParseLines(Fillers(n - 1), maxAddrs).res, n, maxAddrs, |lines|);
    }
  }

  lemma FillerAdds(res: ParseResult, n: nat, maxAddrs: int, lineNo: nat)
    requires n >= 1 && FromFillers(res.ips, n - 1) && res.count == |res.ips| && res.count + 256 <= maxAddrs
    ensures var o := Apply(res, maxAddrs, lineNo, Accept(Wildcard(seq(n, i => 'a') + "..."), Filler(n)));
            o.Done? && o.res.count == |o.res.ips| == |res.ips| + 256 && FromFillers(o.res.ips, n)
  {
    var xs := Suffixed(seq(n, i => 'a') + "...", 256);
    FillerTexts(n);
    AddUnseenOfNew(res.ips, xs);
    AddUnseenMembers(res.ips, xs);
    forall x | x in AddUnseen(res.ips, xs) ensures x != "" && x[0] == 'a' && IndexOf(x, '.') <= n {
      assert x in Members(AddUnseen(res.ips, xs));
    }
  }

  lemma ZeroAddress()
    ensures ParseIP("0.0.0.0") == Some(IP(0, 0, 0, 0)) && Dotted(0) == "0.0.0.0"
  {
    JoinOfFour("0", "0", "0", "0");
    assert Decimal(0) == "0" by { assert Digit(0) == '0'; }
    ParseIsInverseOfText("0.0.0.0", IP(0, 0, 0, 0));
  }

  lemma ZeroPrefixLength()
    ensures ParsePrefixLength("0") == Some(0)
  {
    assert "0"[..0] == "";
    assert DigitsValue("0") == 0;
  }

  lemma SeparatorPosition(left: string, sep: char, right: string)
    requires sep !in left
    ensures var n := left + [sep] + right;
            sep in n && IndexOf(n, sep) == |left| && n[..|left|] == left && n[|left| + 1..] == right
  {
    var n := left + [sep] + right;
    forall j | 0 <= j < |left| ensures n[j] != sep {
      assert n[j] == left[j] && left[j] in left;
    }
    assert n[|left|] == sep;
  }

  lemma CidrParses(left: string, mask: string, ip: IP, ones: nat)
    requires '/' !in left && ParseIP(left) == Some(ip) && ParsePrefixLength(mask) == Some(ones)
    ensures ParseCIDR(left + "/" + mask) == Some((Masked(ToUint32(ip), 32 - ones), ones))
  {
    SeparatorPosition(left, '/', mask);
  }

  lemma CidrLineReads(left: string, mask: string, ip: IP, ones: nat)
    requires ParseIP(left) == Some(ip) && ParsePrefixLength(mask) == Some(ones)
    ensures ReadLine(left + "/" + mask) == Accept(Cidr(Masked(ToUint32(ip), 32 - ones), ones), left + "/" + mask)
  {
    var s := left + "/" + mask;
    AddressTextIsPlain(left, ip);
    CidrParses(left, mask, ip, ones);
    assert s[0] == left[0] && s[|left|] == '/';
    assert s[|s| - 1] == mask[|mask| - 1] && mask[|mask| - 1] in mask;
    TrimSpaceOfTrimmed(s);
  }

  lemma ConsecutiveHasNoRepeats(lo: uint32, n: nat)
    requires lo + n <= UINT32_MAX + 1
    ensures NoRepeats(Consecutive(lo, n))
  {
    var xs := Consecutive(lo, n);
    forall i, j | 0 <= i < j < n ensures xs[i] != xs[j] {
      ConsecutiveAt(lo, n, i);
      ConsecutiveAt(lo, n, j);
      if xs[i] == xs[j] {
        DottedIsInjective(lo + i, lo + j);
      }
    }
  }

  lemma ConsecutiveIsNew(ips: seq<string>, k: nat, lo: uint32, n: nat)
    requires FromFillers(ips, k) && lo + n <= UINT32_MAX + 1
    ensures |AddUnseen(ips, Consecutive(lo, n))| == |ips| + n
  {
    var xs := Consecutive(lo, n);
    forall i | 0 <= i < n ensures xs[i] !in ips {
      ConsecutiveAt(lo, n, i);
      TextCharacters(FromUint32(lo + i));
    }
    ConsecutiveHasNoRepeats(lo, n);
    AddUnseenOfNew(ips, xs);
  }

  /** A block is added in full on top of fillers, if its cost fits. */
  lemma BlockAdds(res: ParseResult, k: nat, maxAddrs: int, lineNo: nat, e: Entry, s: string)
    requires e.Cidr? && EntryOk(e)
    requires FromFillers(res.ips, k) && res.count + Cost(e) <= maxAddrs
    ensures var o := Apply(res, maxAddrs, lineNo, Accept(e, s));
            o.Done? && |o.res.ips| == |res.ips| + BlockSize(e.ones)
  {
    hide *;
    BlockIsAdded(res, maxAddrs, lineNo, e, s);
    ConsecutiveIsNew(res.ips, k, e.start, BlockSize(e.ones));
  }

  lemma BlockIsAdded(res: ParseResult, maxAddrs: int, lineNo: nat, e: Entry, s: string)
    requires e.Cidr? && EntryOk(e) && res.count + Cost(e) <= maxAddrs
    ensures e.start + BlockSize(e.ones) <= UINT32_MAX + 1
    ensures var o := Apply(res, maxAddrs, lineNo, Accept(e, s));
            o.Done? && o.res.ips == AddUnseen(res.ips, Consecutive(e.start, BlockSize(e.ones)))
  {
    hide AddUnseen, Consecutive, BlockSize, Dotted;
  }

  /** The text "0.0.0.0/0", in its two parts. */
  lemma WholeSpace() returns (left: string, mask: string)
    ensures ParseIP(left).Some? && ParsePrefixLength(mask) == Some(0)
  {
    left, mask := "0.0.0.0", "0";
    ZeroAddress();
    ZeroPrefixLength();
  }

  /** With room for 2^30 addresses or more the cap fails: the cost of a /0 line
      is understated, so it can follow whatever the cap still allows. */
  lemma CapFails(maxAddrs: int)
    requires maxAddrs >= CIDR_COUNT_LIMIT
    ensures exists text :: !TextWithinCap(text, maxAddrs)
  {
    var left, mask := WholeSpace();
    CidrLineReads(left, mask, ParseIP(left).value, 0);
    var n := (maxAddrs - CIDR_COUNT_LIMIT) / 256;
    var s := left + "/" + mask;
    CapFailsAfter(n, maxAddrs, s);
    AddressTextIsPlain(left, ParseIP(left).value);
    LinesMakeText(n, s, maxAddrs);
    assert !TextWithinCap(Join(Fillers(n) + [s], '\n'), maxAddrs);
  }

  lemma LinesMakeText(n: nat, s: string, maxAddrs: int)
    requires '\n' !in s
    ensures ParseText(Join(Fillers(n) + [s], '\n'), maxAddrs) == ParseLines(Fillers(n) + [s], maxAddrs)
  {
    FillersArePlain(n);
    SplitOfJoin(Fillers(n) + [s], '\n');
  }

  lemma {:induction false} FillersArePlain(n: nat)
    ensures forall p | p in Fillers(n) :: '\n' !in p
  {
    if n > 0 {
      FillersArePlain(n - 1);
    }
  }

  lemma CapFailsAfter(n: nat, maxAddrs: int, s: string)
    requires 256 * n <= maxAddrs - CIDR_COUNT_LIMIT < 256 * n + 256
    requires var line := ReadLine(s); line.Accept? && line.entry.Cidr? && line.entry.ones == 0 && line.normal == s
    ensures !WithinCap(Fillers(n) + [s], maxAddrs)
  {
    var lines := Fillers(n) + [s];
    assert lines[..|lines| - 1] == Fillers(n) && lines[|lines| - 1] == s;
    FillersFill(n, maxAddrs);
    Pow2Of32();
    BlockAdds(ParseLines(Fillers(n), maxAddrs).res, n, maxAddrs, |lines|, ReadLine(s).entry, s);
  }

  /** The list never outgrows the cap, on any text and any return, exactly when
      the cap is below 2^30. */
  lemma CapHoldsIff(maxAddrs: int)
    ensures (forall text :: TextWithinCap(text, maxAddrs)) <==> maxAddrs < 0x4000_0000
  {
    if maxAddrs < CIDR_COUNT_LIMIT {
      forall text ensures TextWithinCap(text, maxAddrs) {
        CapHolds(Split(text, '\n'), maxAddrs);
      }
    } else {
      CapFails(maxAddrs);
    }
  }

  // ----- round trip -----

  /** A normalized line is a single line that reads back as itself. */
  predicate Stable(n: string, e: Entry) {
    '\n' !in n && Classify(TrimSpace(n)) == Accept(e, n)
  }

  lemma NormalIsStable(s: string)
    requires Trimmed(s) && '\n' !in s && Classify(s).Accept?
    ensures Stable(Classify(s).normal, Classify(s).entry)
  {
    TrimSpaceOfTrimmed(s);
    if '/' in s {
    } else if '-' in s {
      DashIsStable(s);
    } else if HasSuffix(s, ".x") || HasSuffix(s, ".*") {
    } else {
      ParseIsInverseOfText(s, ParseIP(s).value);
    }
  }

  lemma DashIsStable(s: string)
    requires '-' in s && ClassifyDash(s).Accept?
    ensures Stable(ClassifyDash(s).normal, ClassifyDash(s).entry)
  {
    var left, end := DashParts(s);
    DottedSpelling(Dotted(end), end);
    ToOfFrom(end);
    DashLineReads(left, ParseIP(left).value, Dotted(end), FromUint32(end));
  }

  lemma DashParts(s: string) returns (left: string, end: uint32)
    requires '-' in s && ClassifyDash(s).Accept?
    ensures ParseIP(left).Some? && ToUint32(ParseIP(left).value) <= end
    ensures ClassifyDash(s) == Accept(Range(ToUint32(ParseIP(left).value), end), left + "-" + Dotted(end))
  {
    left, end := TrimSpace(s[..IndexOf(s, '-')]), ClassifyDash(s).entry.hi;
  }

  /** Every character of an address text is a digit or a dot. */
  lemma AddressTextIsPlain(s: string, ip: IP)
    requires ParseIP(s) == Some(ip)
    ensures s != "" && s == ToText(ip) && s[0] != '#' && !IsSpace(s[0]) && !IsSpace(s[|s| - 1])
    ensures '/' !in s && '-' !in s && '\n' !in s
  {
    ParseIsInverseOfText(s, ip);
    TextCharacters(ip);
    assert s[|s| - 1] in s;
  }

  lemma DashLineReads(left: string, lip: IP, right: string, rip: IP)
    requires ParseIP(left) == Some(lip) && ParseIP(right) == Some(rip) && ToUint32(lip) <= ToUint32(rip)
    ensures Stable(left + "-" + Dotted(ToUint32(rip)), Range(ToUint32(lip), ToUint32(rip)))
  {
    var n := left + "-" + right;
    AddressTextIsPlain(left, lip);
    AddressTextIsPlain(right, rip);
    FromOfTo(rip);
    SeparatorPosition(left, '-', right);
    assert n[0] == left[0] && n[|n| - 1] == right[|right| - 1];
    TrimSpaceOfTrimmed(n);
    TrimSpaceOfTrimmed(left);
    TrimSpaceOfTrimmed(right);
    assert ClassifyDash(n) == Accept(Range(ToUint32(lip), ToUint32(rip)), n);
  }

  lemma {:induction false} NormalsParse(lines: seq<string>, maxAddrs: int)
    requires ParseLines(lines, maxAddrs).Done?
    requires forall l | l in lines :: '\n' !in l
    ensures var res := ParseLines(lines, maxAddrs).res;
            && ParseLines(res.normalized, maxAddrs) == Done(res.(errors := []))
            && forall n | n in res.normalized :: '\n' !in n
  {
    if lines != [] {
      var before, raw := lines[..|lines| - 1], lines[|lines| - 1];
      var s := TrimSpace(raw);
      NormalsParse(before, maxAddrs);
      var r0 := ParseLines(before, maxAddrs).res;
      if Classify(s).Accept? {
        TrimSpaceResult(raw);
        NormalIsStable(s);
        var n := Classify(s).normal;
        assert (r0.normalized + [n])[..|r0.normalized|] == r0.normalized;
        assert ReadLine(n) == Accept(Classify(s).entry, n);
        ApplyIgnoresErrors(r0, maxAddrs, |lines|, |r0.normalized| + 1, ReadLine(n));
      }
    }
  }

  lemma ApplyIgnoresErrors(res: ParseResult, maxAddrs: int, i: nat, j: nat, line: Line)
    requires line.Accept? && EntryOk(line.entry) && Apply(res, maxAddrs, i, line).Done?
    ensures Apply(res.(errors := []), maxAddrs, j, line) == Done(Apply(res, maxAddrs, i, line).res.(errors := []))
  {
  }

  /** Parsing the normalized lines again gives no errors and otherwise the very
      same result. */
  lemma RoundTrip(text: string, maxAddrs: int)
    requires ParseText(text, maxAddrs).Done?
    ensures var res := ParseText(text, maxAddrs).res;
            ParseText(Join(res.normalized, '\n'), maxAddrs) == Done(res.(errors := []))
  {
    var res := ParseText(text, maxAddrs).res;
    NormalsParse(Split(text, '\n'), maxAddrs);
    if res.normalized == [] {
      assert [""][..0] == [];
      assert ParseLines([""], maxAddrs) == Apply(ParseResult([], 0, [], []), maxAddrs, 1, ReadLine(""));
    } else {
      SplitOfJoin(res.normalized, '\n');
    }
  }
}
