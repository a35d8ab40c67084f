/** ParseRangeText (agent/agent/rangeparser.go): text with one range per line is
    expanded into a duplicate-free list of IPv4 addresses under a cap. */
module RangeParser {
  import opened Common
  import opened Text
  import opened Ipv4

  const UINT32_MAX := 0xFFFF_FFFF
  const CIDR_COUNT_LIMIT := 0x4000_0000

  datatype ParseError = ParseError(line: nat, msg: string)

  datatype ParseResult = ParseResult(ips: seq<string>, count: int, errors: seq<ParseError>, normalized: seq<string>)

  /** What one line asks for. */
  datatype Entry =
    | Cidr(start: uint32, ones: nat)
    | Range(lo: uint32, hi: uint32)
    | Wildcard(prefix: string)
    | Single(addr: uint32)

  datatype Line = Skip | Reject(msg: string) | Accept(entry: Entry, normal: string)

  datatype CapError = TooMany(line: nat, produced: int) | ExceedsMax(line: nat)

  /** A call returns a result, returns a result with an error, or never returns. */
  datatype Outcome = Done(res: ParseResult) | OverCap(res: ParseResult, err: CapError) | Diverges

  // ----- reading one line -----

  /** The number of addresses behind a prefix of `ones` bits. */
  function BlockSize(ones: nat): nat {
    if ones > 32 then 1 else Pow2(32 - ones)
  }

  /** `n` with its `h` low bits cleared: ip AND mask. */
  function Masked(n: nat, h: nat): (m: nat)
    ensures m <= n
  {
    if h == 0 then n else 2 * Masked(n / 2, h - 1)
  }

  function ParsePrefixLength(s: string): (r: Option<nat>)
    ensures r.Some? ==> r.value <= 32
  {
    if s != "" && (forall c | c in s :: IsDigit(c)) && DigitsValue(s) <= 32 then Some(DigitsValue(s)) else None
  }

  /** net.ParseCIDR: the network address and the prefix length. */
  function ParseCIDR(s: string): Option<(uint32, nat)> {
    var i := IndexOf(s, '/');
    if i == |s| then None
    else
      match (ParseIP(s[..i]), ParsePrefixLength(s[i + 1..]))
      case (Some(ip), Some(ones)) => Some((Masked(ToUint32(ip), 32 - ones), ones))
      case _ => None
  }

  function ShorthandEnd(left: string, right: string): Line {
    var lparts, rparts := Split(left, '.'), Split(right, '.');
    if |lparts| != 4 || |rparts| < 1 || |rparts| > 3 then Reject("invalid shorthand range")
    else
      var endStr := Join(lparts[..4 - |rparts|] + rparts, '.');
      if 'x' in endStr || '*' in endStr then Reject("wildcard not allowed in shorthand right side")
      else
        match ParseIP(endStr)
        case None => Reject("invalid end IP after shorthand expansion")
        case Some(ip) => Accept(Single(ToUint32(ip)), "")
  }

  function ClassifyDash(s: string): Line
    requires '-' in s
  {
    var i := IndexOf(s, '-');
    var left, right := TrimSpace(s[..i]), TrimSpace(s[i + 1..]);
    match ParseIP(left)
    case None => Reject("left side must be a full IPv4 address")
    case Some(lip) =>
      var end := match ParseIP(right)
                 case Some(rip) => Accept(Single(ToUint32(rip)), "")
                 case None => ShorthandEnd(left, right);
      if !end.Accept? || !end.entry.Single? then end
      else if end.entry.addr < ToUint32(lip) then Reject("end address is before start address")
      else Accept(Range(ToUint32(lip), end.entry.addr), left + "-" + Dotted(end.entry.addr))
  }

  function ClassifyWildcard(s: string): Line {
    var base := TrimSuffix(TrimSuffix(s, ".x"), ".*");
    if |Split(base, '.')| != 3 then Reject("wildcard allowed only on last octet like 192.168.1.x")
    else Accept(Wildcard(base + "."), s)
  }

  /** The decision for a line that has been trimmed. */
  function Classify(s: string): Line {
    if s == "" || s[0] == '#' then Skip
    else if '/' in s then
      match ParseCIDR(s)
      case None => Reject("invalid CIDR")
      case Some((start, ones)) => Accept(Cidr(start, ones), s)
    else if '-' in s then ClassifyDash(s)
    else if HasSuffix(s, ".x") || HasSuffix(s, ".*") then ClassifyWildcard(s)
    else
      match ParseIP(s)
      case None => Reject("unrecognized format or invalid IPv4")
      case Some(ip) => Accept(Single(ToUint32(ip)), ToText(ip))
  }

  // ----- expanding one entry -----

  /** The texts of `n` consecutive addresses. */
  function Consecutive(lo: uint32, n: nat): (xs: seq<string>)
    requires lo + n <= UINT32_MAX + 1
    ensures |xs| == n
  {
    if n == 0 then [] else Consecutive(lo, n - 1) + [Dotted(lo + n - 1)]
  }

  lemma ConsecutivePush(lo: uint32, n: nat)
    requires lo + n <= UINT32_MAX
    ensures Consecutive(lo, n + 1) == Consecutive(lo, n) + [Dotted(lo + n)]
  {
  }

  function Suffixed(prefix: string, n: nat): (xs: seq<string>)
    requires n <= 256
    ensures |xs| == n
  {
    if n == 0 then [] else Suffixed(prefix, n - 1) + [prefix + Decimal(n - 1)]
  }

  predicate EntryOk(e: Entry) {
    match e
    case Cidr(start, ones) => ones <= 32 && start + BlockSize(ones) <= UINT32_MAX + 1
    case Range(lo, hi) => lo <= hi
    case _ => true
  }

  /** The addresses an entry stands for, in order. */
  function Expansion(e: Entry): seq<string>
    requires EntryOk(e)
  {
    match e
    case Cidr(start, ones) => Consecutive(start, BlockSize(ones))
    case Range(lo, hi) => Consecutive(lo, hi - lo + 1)
    case Wildcard(prefix) => Suffixed(prefix, 256)
    case Single(addr) => [Dotted(addr)]
  }

  /** expandCIDRCount, and the uint32 difference of a dash range: what the cap
      check believes an entry will add. */
  function Cost(e: Entry): int {
    match e
    case Cidr(_, ones) => if ones <= 1 then CIDR_COUNT_LIMIT else BlockSize(ones)
    case Range(lo, hi) => (hi - lo + 1) % 0x1_0000_0000
    case Wildcard(_) => 256
    case Single(_) => 1
  }

  lemma Pow2Of32()
    ensures Pow2(8) == 256 && Pow2(16) == 0x1_0000
    ensures Pow2(31) == 0x8000_0000 && Pow2(32) == 0x1_0000_0000
  {
    assert Pow2(4) == 16;
    assert Pow2(8) == 256;
    assert Pow2(12) == 4096;
    assert Pow2(16) == 0x1_0000;
    assert Pow2(20) == 0x10_0000;
    assert Pow2(24) == 0x100_0000;
    assert Pow2(28) == 0x1000_0000;
    assert Pow2(30) == 0x4000_0000;
  }

  lemma {:induction false} MaskedBlockFits(n: nat, h: nat, k: nat)
    requires h <= k && n < Pow2(k)
    ensures Masked(n, h) + Pow2(h) <= Pow2(k)
    decreases h
  {
    if h == 0 {
    } else {
      MaskedBlockFits(n / 2, h - 1, k - 1);
    }
  }

  lemma CidrFits(n: uint32, ones: nat)
    requires ones <= 32
    ensures Masked(n, 32 - ones) + BlockSize(ones) <= UINT32_MAX + 1
  {
    Pow2Of32();
    MaskedBlockFits(n, 32 - ones, 32);
  }

  lemma ClassifiedEntryOk(s: string)
    ensures Classify(s).Accept? ==> EntryOk(Classify(s).entry)
  {
    hide ParseIP, ToText, TrimSpace, Split, Join, DigitsValue, Pow2, Masked, HasSuffix, TrimSuffix, Dotted, ParsePrefixLength;
    if '/' in s && ParseCIDR(s).Some? {
      var i := IndexOf(s, '/');
      CidrFits(ToUint32(ParseIP(s[..i]).value), ParsePrefixLength(s[i + 1..]).value);
    }
  }

  // ----- the whole text -----

  /** Append what is not there yet. */
  function AddUnseen(ips: seq<string>, xs: seq<string>): seq<string> {
    if xs == [] then ips
    else
      var before, x := AddUnseen(ips, xs[..|xs| - 1]), xs[|xs| - 1];
      if x in before then before else before + [x]
  }

  function Extend(res: ParseResult, xs: seq<string>): ParseResult {
    var ips := AddUnseen(res.ips, xs);
    res.(ips := ips, count := res.count + |ips| - |res.ips|)
  }

  function Members(ips: seq<string>): set<string> {
    set x | x in ips
  }

  /** One turn of an expansion loop. */
  function AddOne(res: ParseResult, x: string): ParseResult {
    if x in res.ips then res else res.(ips := res.ips + [x], count := res.count + 1)
  }

  lemma ExtendPush(before: ParseResult, xs: seq<string>, x: string)
    ensures Extend(before, xs + [x]) == AddOne(Extend(before, xs), x)
  {
    assert (xs + [x])[..|xs|] == xs;
  }

  lemma ExtendConsecutivePush(before: ParseResult, lo: uint32, n: nat)
    requires lo + n <= UINT32_MAX
    ensures Extend(before, Consecutive(lo, n + 1)) == AddOne(Extend(before, Consecutive(lo, n)), Dotted(lo + n))
  {
    ConsecutivePush(lo, n);
    ExtendPush(before, Consecutive(lo, n), Dotted(lo + n));
  }

  lemma InMembers(ips: seq<string>, x: string)
    ensures x in Members(ips) <==> x in ips
  {
  }

  lemma MembersPush(ips: seq<string>, x: string)
    ensures Members(ips + [x]) == Members(ips) + {x}
  {
  }

  function Apply(res: ParseResult, maxAddrs: int, lineNo: nat, line: Line): Outcome
    requires line.Accept? ==> EntryOk(line.entry)
  {
    match line
    case Skip => Done(res)
    case Reject(msg) => Done(res.(errors := res.errors + [ParseError(lineNo, msg)]))
    case Accept(e, normal) =>
      if e.Single? && Dotted(e.addr) in res.ips then Done(res.(normalized := res.normalized + [normal]))
      else if res.count + Cost(e) > maxAddrs then
        OverCap(res, if e.Single? || e.Wildcard? then ExceedsMax(lineNo) else TooMany(lineNo, res.count + Cost(e)))
      else if e.Range? && e.hi == UINT32_MAX then Diverges
      else Done(Extend(res, Expansion(e)).(normalized := res.normalized + [normal]))
  }

  function ReadLine(raw: string): (line: Line)
    ensures line.Accept? ==> EntryOk(line.entry)
  {
    ClassifiedEntryOk(TrimSpace(raw));
    Classify(TrimSpace(raw))
  }

  function ParseLines(lines: seq<string>, maxAddrs: int): Outcome {
    if lines == [] then Done(ParseResult([], 0, [], []))
    else
      match ParseLines(lines[..|lines| - 1], maxAddrs)
      case Done(res) => Apply(res, maxAddrs, |lines|, ReadLine(lines[|lines| - 1]))
      case other => other
  }

  function ParseText(text: string, maxAddrs: int): Outcome {
    ParseLines(Split(text, '\n'), maxAddrs)
  }

  // ----- the dash loop in uint32 -----

  /** v++ on a uint32. */
  function Increment(v: uint32): (w: uint32)
    ensures w == if v == UINT32_MAX then 0 else v + 1
  {
    (v + 1) % 0x1_0000_0000
  }

  /** The loop variable after `n` increments. */
  function LoopVariable(lo: uint32, n: nat): uint32 {
    if n == 0 then lo else Increment(LoopVariable(lo, n - 1))
  }

  lemma {:induction false} LoopVariableValue(lo: uint32, n: nat)
    ensures LoopVariable(lo, n) == (lo + n) % 0x1_0000_0000
  {
    hide *;
    LoopVariableNext(lo, n);
    if n > 0 {
      LoopVariableValue(lo, n - 1);
      IncrementWraps(LoopVariable(lo, n - 1), lo + n - 1);
      assert lo + n - 1 + 1 == lo + n;
    } else {
      NoWrap(lo);
    }
  }

  lemma LoopVariableNext(lo: uint32, n: nat)
    ensures LoopVariable(lo, n) == if n == 0 then lo else Increment(LoopVariable(lo, n - 1))
  {
  }

  lemma NoWrap(v: uint32)
    ensures v % 0x1_0000_0000 == v
  {
  }

  lemma IncrementWraps(v: uint32, x: nat)
    requires v == x % 0x1_0000_0000
    ensures Increment(v) == (x + 1) % 0x1_0000_0000
  {
    var q := x / 0x1_0000_0000;
    assert x == q * 0x1_0000_0000 + v;
    if v == UINT32_MAX {
      assert x + 1 == (q + 1) * 0x1_0000_0000;
    }
  }

  /** The loop `for v := lo; v <= hi; v++` ends exactly when hi is not the
      largest address: past 255.255.255.255 the variable wraps to zero. */
  lemma DashLoopEndsIff(lo: uint32, hi: uint32)
    requires lo <= hi
    ensures (exists n: nat :: LoopVariable(lo, n) > hi) <==> hi != UINT32_MAX
  {
    if hi != UINT32_MAX {
      LoopVariableValue(lo, hi - lo + 1);
    }
  }

  // ----- the parser -----

  /** The body of the two address loops: `res` already holds the first `n`
      addresses from `lo` on. */
  method AddAddress(ghost before: ParseResult, ghost lo: uint32, ghost n: nat, v: uint32,
                    resBefore: ParseResult, seenBefore: set<string>)
    returns (res: ParseResult, seen: set<string>)
    requires v == lo + n
    requires resBefore == Extend(before, Consecutive(lo, n)) && seenBefore == Members(resBefore.ips)
    ensures res == Extend(before, Consecutive(lo, n + 1)) && seen == Members(res.ips)
  {
    hide Extend, Consecutive, Members, ToText, FromUint32;
    res, seen := resBefore, seenBefore;
    var ip := ToText(FromUint32(v));
    InMembers(res.ips, ip);
    ExtendConsecutivePush(before, lo, n);
    MembersPush(res.ips, ip);
    if ip !in seen {
      res := res.(ips := res.ips + [ip], count := res.count + 1);
      seen := seen + {ip};
    }
  }

  method ExpandConsecutive(before: ParseResult, seenBefore: set<string>, lo: uint32, total: nat)
    returns (res: ParseResult, seen: set<string>)
    requires seenBefore == Members(before.ips) && lo + total <= UINT32_MAX + 1
    ensures res == Extend(before, Consecutive(lo, total)) && seen == Members(res.ips)
  {
    res, seen := before, seenBefore;
    var j := 0;
    while j < total
      invariant j <= total
      invariant res == Extend(before, Consecutive(lo, j)) && seen == Members(res.ips)
    {
      res, seen := AddAddress(before, lo, j, lo + j, res, seen);
      j := j + 1;
    }
  }

  method ExpandRange(before: ParseResult, seenBefore: set<string>, lo: uint32, hi: uint32)
    returns (res: ParseResult, seen: set<string>)
    requires seenBefore == Members(before.ips) && lo <= hi < UINT32_MAX
    ensures res == Extend(before, Consecutive(lo, hi - lo + 1)) && seen == Members(res.ips)
  {
    res, seen := before, seenBefore;
    var v: uint32 := lo;
    ghost var n := 0;
    while v <= hi
      invariant v == lo + n && v <= hi + 1
      invariant res == Extend(before, Consecutive(lo, n)) && seen == Members(res.ips)
      decreases hi + 1 - v
    {
      res, seen := AddAddress(before, lo, n, v, res, seen);
      v := Increment(v);
      n := n + 1;
    }
  }

  method ExpandWildcard(before: ParseResult, seenBefore: set<string>, prefix: string)
    returns (res: ParseResult, seen: set<string>)
    requires seenBefore == Members(before.ips)
    ensures res == Extend(before, Suffixed(prefix, 256)) && seen == Members(res.ips)
  {
    res, seen := before, seenBefore;
    for j := 0 to 256
      invariant res == Extend(before, Suffixed(prefix, j)) && seen == Members(res.ips)
    {
      var ip := prefix + Decimal(j);
      ExtendPush(before, Suffixed(prefix, j), ip);
      MembersPush(res.ips, ip);
      if ip !in seen {
        res := res.(ips := res.ips + [ip], count := res.count + 1);
        seen := seen + {ip};
      }
    }
  }

  method ParseRangeText(text: string, maxAddrs: int) returns (outcome: Outcome)
    ensures outcome == ParseText(text, maxAddrs)
  {
    var res, seen: set<string> := ParseResult([], 0, [], []), {};
    var lines := Split(text, '\n');
    for i := 0 to |lines|
      invariant ParseLines(lines[..i], maxAddrs) == Done(res)
      invariant seen == Members(res.ips)
    {
      assert lines[..i + 1][..i] == lines[..i];
      var line := ReadLine(lines[i]);
      assert ParseLines(lines[..i + 1], maxAddrs) == Apply(res, maxAddrs, i + 1, line);
      var step: Outcome;
      step, seen := ApplyLine(res, seen, maxAddrs, i + 1, line);
      if !step.Done? {
        FailureIsFinal(lines, maxAddrs, i + 1);
        return step;
      }
      res := step.res;
    }
    assert lines[..|lines|] == lines;
    return Done(res);
  }

  /** The body of the line loop, from the decision on. */
  method ApplyLine(before: ParseResult, seenBefore: set<string>, maxAddrs: int, lineNo: nat, line: Line)
    returns (outcome: Outcome, seen: set<string>)
    requires seenBefore == Members(before.ips)
    requires line.Accept? ==> EntryOk(line.entry)
    ensures outcome == Apply(before, maxAddrs, lineNo, line)
    ensures outcome.Done? ==> seen == Members(outcome.res.ips)
  {
    var res: ParseResult;
    seen := seenBefore;
    match line {
      case Skip =>
        return Done(before), seen;
      case Reject(msg) =>
        return Done(before.(errors := before.errors + [ParseError(lineNo, msg)])), seen;
      case Accept(Cidr(start, ones), normal) =>
        var cnt := Cost(line.entry);
        if before.count + cnt > maxAddrs {
          return OverCap(before, TooMany(lineNo, before.count + cnt)), seen;
        }
        res, seen := ExpandConsecutive(before, seen, start, BlockSize(ones));
        return Done(res.(normalized := res.normalized + [normal])), seen;
      case Accept(Range(lo, hi), normal) =>
        var cnt := Cost(line.entry);
        if before.count + cnt > maxAddrs {
          return OverCap(before, TooMany(lineNo, before.count + cnt)), seen;
        }
        if hi == UINT32_MAX {
          return Diverges, seen;
        }
        res, seen := ExpandRange(before, seen, lo, hi);
        return Done(res.(normalized := res.normalized + [normal])), seen;
      case Accept(Wildcard(prefix), normal) =>
        if before.count + 256 > maxAddrs {
          return OverCap(before, ExceedsMax(lineNo)), seen;
        }
        res, seen := ExpandWildcard(before, seen, prefix);
        return Done(res.(normalized := res.normalized + [normal])), seen;
      case Accept(Single(addr), normal) =>
        var ip := ToText(FromUint32(addr));
        res := before;
        if ip !in seen {
          if before.count + 1 > maxAddrs {
            return OverCap(before, ExceedsMax(lineNo)), seen;
          }
          ExtendPush(before, [], ip);
          MembersPush(before.ips, ip);
          res := res.(ips := res.ips + [ip], count := res.count + 1);
          seen := seen + {ip};
        }
        return Done(res.(normalized := res.normalized + [normal])), seen;
    }
  }

  lemma {:induction false} FailureIsFinal(lines: seq<string>, maxAddrs: int, n: nat)
    requires n <= |lines| && !ParseLines(lines[..n], maxAddrs).Done?
    ensures ParseLines(lines, maxAddrs) == ParseLines(lines[..n], maxAddrs)
  {
    if n == |lines| {
      assert lines[..n] == lines;
    } else {
      assert lines[..|lines| - 1][..n] == lines[..n];
      FailureIsFinal(lines[..|lines| - 1], maxAddrs, n);
    }
  }
}
