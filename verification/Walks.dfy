/** Capped walks over a device's objects (agent/agent/snmp.go). What a device
    sends for each root is a stream of PDUs; the client hands them to a callback
    one by one until the callback fails. */
module Walks {
  import opened Common
  import opened Text

  const DEFAULT_LIMIT := 5000
  const TYPICAL_TOTAL := 2000
  const REPORT_INTERVAL := 50

  /** `text` is the value as text; an octet string without bytes has none. */
  datatype Pdu = Pdu(name: string, text: Option<string>)

  // ----- stop keywords -----

  predicate Contains(s: string, part: string) {
    exists i | 0 <= i <= |s| - |part| :: s[i..][..|part|] == part
  }

  function WithoutDot(name: string): string {
    if name != "" && name[0] == '.' then name[1..] else name
  }

  /** The stop keywords as they are looked for: trimmed, in lower case, none empty. */
  function Keywords(stops: seq<string>): seq<string> {
    if stops == [] then []
    else
      var k := TrimSpace(stops[|stops| - 1]);
      Keywords(stops[..|stops| - 1]) + if k == "" then [] else [Lower(k)]
  }

  predicate Mentions(pdu: Pdu, keyword: string) {
    || Contains(Lower(WithoutDot(pdu.name)), keyword)
    || (pdu.text.Some? && Contains(Lower(pdu.text.value), keyword))
  }

  predicate Hits(pdu: Pdu, keywords: seq<string>) {
    exists k | k in keywords :: Mentions(pdu, k)
  }

  // ----- what a walk yields -----

  /** A stream through the first PDU that hits a keyword. */
  function UpToHit(stream: seq<Pdu>, keywords: seq<string>): seq<Pdu> {
    if stream == [] then []
    else if Hits(stream[0], keywords) then [stream[0]]
    else [stream[0]] + UpToHit(stream[1..], keywords)
  }

  function Concat(streams: seq<seq<Pdu>>, keywords: seq<string>): seq<Pdu> {
    if streams == [] then []
    else Concat(streams[..|streams| - 1], keywords) + UpToHit(streams[|streams| - 1], keywords)
  }

  function First(limit: nat, s: seq<Pdu>): seq<Pdu> {
    if |s| <= limit then s else s[..limit]
  }

  function Limit(maxEntries: int): nat {
    if maxEntries <= 0 then DEFAULT_LIMIT else maxEntries
  }

  /** The first entries of all streams together, each cut after its first hit. */
  function Walked(streams: seq<seq<Pdu>>, maxEntries: int, stops: seq<string>): seq<Pdu> {
    First(Limit(maxEntries), Concat(streams, Keywords(stops)))
  }

  /** What UpToHit keeps: a prefix in which nothing before the last PDU hits, and
      which is all of the stream unless the last PDU does. */
  lemma {:induction false} UpToHitIsPrefix(stream: seq<Pdu>, keywords: seq<string>)
    ensures var kept := UpToHit(stream, keywords);
            && kept <= stream
            && (forall i | 0 <= i < |kept| - 1 :: !Hits(kept[i], keywords))
            && (kept == stream || (kept != [] && Hits(kept[|kept| - 1], keywords)))
  {
    hide Hits;
    if stream != [] && !Hits(stream[0], keywords) {
      var rest := UpToHit(stream[1..], keywords);
      UpToHitIsPrefix(stream[1..], keywords);
      assert stream == [stream[0]] + stream[1..];
      var kept := UpToHit(stream, keywords);
      forall i | 0 <= i < |kept| - 1 ensures !Hits(kept[i], keywords) {
        if i > 0 {
          assert kept[i] == rest[i - 1];
        }
      }
    }
  }

  lemma {:induction false} NoKeywordsNoCut(stream: seq<Pdu>)
    ensures UpToHit(stream, []) == stream
  {
    if stream != [] {
      NoKeywordsNoCut(stream[1..]);
      assert stream == [stream[0]] + stream[1..];
    }
  }

  function Flatten(streams: seq<seq<Pdu>>): seq<Pdu> {
    if streams == [] then [] else Flatten(streams[..|streams| - 1]) + streams[|streams| - 1]
  }

  lemma {:induction false} ConcatWithoutKeywords(streams: seq<seq<Pdu>>)
    ensures Concat(streams, []) == Flatten(streams)
  {
    if streams != [] {
      ConcatWithoutKeywords(streams[..|streams| - 1]);
      NoKeywordsNoCut(streams[|streams| - 1]);
    }
  }

  /** Without stop keywords a walk is the first entries of all streams together. */
  lemma FullWalkIsFirst(streams: seq<seq<Pdu>>, maxEntries: int)
    ensures Walked(streams, maxEntries, []) == First(Limit(maxEntries), Flatten(streams))
  {
    ConcatWithoutKeywords(streams);
  }

  lemma {:induction false} ConcatOfMore(streams: seq<seq<Pdu>>, keywords: seq<string>, i: nat)
    requires i <= |streams|
    ensures Concat(streams[..i], keywords) <= Concat(streams, keywords)
  {
    if i < |streams| {
      assert streams[..|streams| - 1][..i] == streams[..i];
      ConcatOfMore(streams[..|streams| - 1], keywords, i);
    } else {
      assert streams[..i] == streams;
    }
  }

  /** Once the limit is reached the remaining roots make no difference. */
  lemma LimitReached(streams: seq<seq<Pdu>>, keywords: seq<string>, i: nat, limit: nat)
    requires i <= |streams| && |Concat(streams[..i], keywords)| >= limit
    ensures First(limit, Concat(streams, keywords)) == First(limit, Concat(streams[..i], keywords))
  {
    ConcatOfMore(streams, keywords, i);
  }

  /** A text holds a word, whatever its case, somewhere inside. */
  predicate Holds(text: string, word: string, a: string, w: string, b: string) {
    text == a + w + b && Lower(w) == Lower(word)
  }

  ghost predicate HoldsSomewhere(text: string, word: string) {
    exists a, w, b :: Holds(text, word, a, w, b)
  }

  lemma LowerInThree(a: string, w: string, b: string)
    ensures Lower(a + w + b) == Lower(a) + Lower(w) + Lower(b)
  {
    hide LowerChar;
  }

  lemma ContainsIff(text: string, word: string)
    ensures Contains(Lower(text), Lower(word)) <==> HoldsSomewhere(text, word)
  {
    hide Lower;
    if Contains(Lower(text), Lower(word)) {
      var i :| 0 <= i <= |Lower(text)| - |Lower(word)| && Lower(text)[i..][..|Lower(word)|] == Lower(word);
      var n := |word|;
      var a, w, b := text[..i], text[i..i + n], text[i + n..];
      assert text == a + w + b;
      LowerInThree(a, w, b);
      assert Lower(text)[i..][..n] == Lower(w);
      assert Holds(text, word, a, w, b);
    }
    if HoldsSomewhere(text, word) {
      var a, w, b :| Holds(text, word, a, w, b);
      LowerInThree(a, w, b);
      var i := |a|;
      assert Lower(text)[i..][..|Lower(word)|] == Lower(word);
    }
  }

  /** A PDU hits exactly if its name, but for a dot in front, or its value holds one
      of the stop keywords in upper or lower case; blank keywords never hit. */
  lemma HitsIff(pdu: Pdu, stops: seq<string>)
    ensures Hits(pdu, Keywords(stops)) <==>
              exists s | s in stops && TrimSpace(s) != "" ::
                || HoldsSomewhere(if pdu.name[..if pdu.name == "" then 0 else 1] == "." then pdu.name[1..] else pdu.name, TrimSpace(s))
                || (pdu.text.Some? && HoldsSomewhere(pdu.text.value, TrimSpace(s)))
  {
    hide Contains, Lower, TrimSpace, Keywords, HoldsSomewhere;
    KeywordsAreTrimmed(stops);
    var name := WithoutDot(pdu.name);
    NameWithoutDot(pdu.name);
    forall s ensures Mentions(pdu, Lower(s)) <==> HoldsSomewhere(name, s) || (pdu.text.Some? && HoldsSomewhere(pdu.text.value, s)) {
      ContainsIff(name, s);
      if pdu.text.Some? {
        ContainsIff(pdu.text.value, s);
      }
    }
    if Hits(pdu, Keywords(stops)) {
      var k :| k in Keywords(stops) && Mentions(pdu, k);
      var s :| s in stops && k == Lower(TrimSpace(s));
      LowerOfNothing(TrimSpace(s));
    }
  }

  lemma LowerOfNothing(s: string)
    ensures Lower(s) == "" <==> s == ""
  {
  }

  lemma NameWithoutDot(name: string)
    ensures WithoutDot(name) == if name[..if name == "" then 0 else 1] == "." then name[1..] else name
  {
    assert name != "" ==> name[..1] == [name[0]];
  }

  /** A walk yields all there is, but no more than the limit, which is 5000 when the
      caller sets none. */
  lemma WalkLength(streams: seq<seq<Pdu>>, maxEntries: int, stops: seq<string>)
    ensures var all, limit := Concat(streams, Keywords(stops)), if maxEntries > 0 then maxEntries else 5000;
            && |Walked(streams, maxEntries, stops)| == (if |all| <= limit then |all| else limit)
            && Walked(streams, maxEntries, stops) <= all
  {
    hide Concat, Keywords;
  }

  // ----- a hit ends a root, not the walk -----

  predicate HasHit(stream: seq<Pdu>, keywords: seq<string>) {
    exists p | p in stream :: Hits(p, keywords)
  }

  /** What a walk would yield if it ended at the first hit. */
  function UntilHit(streams: seq<seq<Pdu>>, keywords: seq<string>): seq<Pdu> {
    if streams == [] then []
    else UpToHit(streams[0], keywords)
         + if HasHit(streams[0], keywords) then [] else UntilHit(streams[1..], keywords)
  }

  function RootsAfterHit(streams: seq<seq<Pdu>>, keywords: seq<string>): seq<seq<Pdu>> {
    if streams == [] then []
    else if HasHit(streams[0], keywords) then streams[1..]
    else RootsAfterHit(streams[1..], keywords)
  }

  lemma {:induction false} ConcatFront(streams: seq<seq<Pdu>>, keywords: seq<string>)
    requires streams != []
    ensures Concat(streams, keywords) == UpToHit(streams[0], keywords) + Concat(streams[1..], keywords)
  {
    var init := streams[..|streams| - 1];
    if init == [] {
      assert streams[1..] == [];
    } else {
      ConcatFront(init, keywords);
      assert init[1..] == streams[1..][..|streams| - 2];
    }
  }

  lemma {:induction false} ConcatInTwo(streams: seq<seq<Pdu>>, keywords: seq<string>)
    ensures Concat(streams, keywords) == UntilHit(streams, keywords) + Concat(RootsAfterHit(streams, keywords), keywords)
  {
    hide UpToHit, HasHit;
    if streams != [] {
      ConcatFront(streams, keywords);
      ConcatInTwo(streams[1..], keywords);
    }
  }

  predicate AllEmpty(streams: seq<seq<Pdu>>) {
    forall i | 0 <= i < |streams| :: streams[i] == []
  }

  lemma {:induction false} NothingFromEmpty(streams: seq<seq<Pdu>>, keywords: seq<string>)
    ensures Concat(streams, keywords) == [] <==> AllEmpty(streams)
  {
    if streams != [] {
      var init, last := streams[..|streams| - 1], streams[|streams| - 1];
      NothingFromEmpty(init, keywords);
      assert UpToHit(last, keywords) == [] <==> last == [];
      assert |Concat(streams, keywords)| == |Concat(init, keywords)| + |UpToHit(last, keywords)|;
      assert AllEmpty(streams) <==> AllEmpty(init) && last == [];
    }
  }

  lemma FirstOfTwo(limit: nat, s: seq<Pdu>, t: seq<Pdu>)
    ensures First(limit, s + t) == First(limit, s) <==> |s| >= limit || t == []
  {
    if |s| < limit && t != [] {
      assert |First(limit, s + t)| > |s|;
    }
  }

  /** A walk ends at the first hit, as its description has it, exactly if the limit
      is reached by then or no later root sends anything. */
  lemma WalkEndsAtHitIff(streams: seq<seq<Pdu>>, maxEntries: int, stops: seq<string>)
    ensures var keywords, limit := Keywords(stops), Limit(maxEntries);
            Walked(streams, maxEntries, stops) == First(limit, UntilHit(streams, keywords))
            <==> |UntilHit(streams, keywords)| >= limit || AllEmpty(RootsAfterHit(streams, keywords))
  {
    hide Concat, UntilHit, RootsAfterHit, Keywords, First, Limit;
    var keywords := Keywords(stops);
    var later := RootsAfterHit(streams, keywords);
    ConcatInTwo(streams, keywords);
    FirstOfTwo(Limit(maxEntries), UntilHit(streams, keywords), Concat(later, keywords));
    NothingFromEmpty(later, keywords);
  }

  /** A hit in the first root does not keep the second from being walked. */
  lemma HitDoesNotEndWalk(hit: Pdu, other: Pdu, maxEntries: int, stops: seq<string>)
    requires Hits(hit, Keywords(stops)) && Limit(maxEntries) >= 2
    ensures Walked([[hit], [other]], maxEntries, stops) == [hit, other]
    ensures UntilHit([[hit], [other]], Keywords(stops)) == [hit]
  {
    hide Keywords, Hits, Limit;
    var keywords, streams := Keywords(stops), [[hit], [other]];
    assert streams[..1] == [[hit]] && streams[..1][..0] == [];
    assert [other][1..] == [];
    assert UpToHit([hit], keywords) == [hit] && UpToHit([other], keywords) == [other];
    assert Concat([[hit]], keywords) == [hit];
    assert Concat(streams, keywords) == [hit] + [other];
    assert hit in streams[0];
  }

  // ----- the walk with stop keywords -----

  lemma LowerIsTrimmed(s: string)
    requires Trimmed(s)
    ensures Trimmed(Lower(s))
  {
  }

  /** Every keyword looked for is a stop keyword in lower case without the spaces
      around it, and not empty; and none of these is forgotten. */
  lemma {:induction false} KeywordsAreTrimmed(stops: seq<string>)
    ensures forall k | k in Keywords(stops) :: k != "" && Trimmed(k) && exists s | s in stops :: k == Lower(TrimSpace(s))
    ensures forall s | s in stops && TrimSpace(s) != "" :: Lower(TrimSpace(s)) in Keywords(stops)
  {
    if stops != [] {
      var init, last := stops[..|stops| - 1], stops[|stops| - 1];
      KeywordsAreTrimmed(init);
      TrimSpaceResult(last);
      LowerIsTrimmed(TrimSpace(last));
      assert stops == init + [last];
      forall k | k in Keywords(stops)
        ensures k != "" && Trimmed(k) && exists s | s in stops :: k == Lower(TrimSpace(s))
      {
        if k in Keywords(init) {
          var s :| s in init && k == Lower(TrimSpace(s));
          assert s in stops;
        } else {
          assert last in stops && k == Lower(TrimSpace(last));
        }
      }
    }
  }

  method PrepareKeywords(stops: seq<string>) returns (keywords: seq<string>)
    ensures keywords == Keywords(stops)
    ensures forall k | k in keywords :: k != "" && Trimmed(k)
    ensures forall s | s in stops && TrimSpace(s) != "" :: Lower(TrimSpace(s)) in keywords
  {
    KeywordsAreTrimmed(stops);
    keywords := [];
    for i := 0 to |stops|
      invariant keywords == Keywords(stops[..i])
    {
      assert stops[..i + 1][..i] == stops[..i];
      var k := TrimSpace(stops[i]);
      if k != "" {
        keywords := keywords + [Lower(k)];
      }
    }
    assert stops[..|stops|] == stops;
  }

  method ContainsKeyword(pdu: Pdu, keywords: seq<string>) returns (hit: bool)
    ensures hit <==> Hits(pdu, keywords)
  {
    hide Contains, Lower, WithoutDot;
    if |keywords| == 0 {
      return false;
    }
    var name := Lower(WithoutDot(pdu.name));
    for i := 0 to |keywords|
      invariant forall k | k in keywords[..i] :: !Contains(name, k)
    {
      if Contains(name, keywords[i]) {
        assert Mentions(pdu, keywords[i]);
        return true;
      }
    }
    assert keywords[..|keywords|] == keywords;
    if pdu.text.Some? {
      var text := Lower(pdu.text.value);
      for i := 0 to |keywords|
        invariant forall k | k in keywords[..i] :: !Contains(text, k)
      {
        if Contains(text, keywords[i]) {
          assert Mentions(pdu, keywords[i]);
          return true;
        }
      }
    }
    return false;
  }

  /** One root: the callback appends each PDU and fails at the limit or at a hit. */
  method WalkRoot(stream: seq<Pdu>, collected: seq<Pdu>, limit: nat, keywords: seq<string>) returns (all: seq<Pdu>)
    requires |collected| < limit
    ensures all == First(limit, collected + UpToHit(stream, keywords))
  {
    hide *;
    all := collected;
    for i := 0 to |stream|
      invariant |all| < limit
      invariant all + UpToHit(stream[i..], keywords) == collected + UpToHit(stream, keywords)
    {
      UpToHitUnfold(stream, i, keywords, all);
      all := all + [stream[i]];
      if |all| >= limit {
        FirstExactly(limit, all, UpToHit(stream[i + 1..], keywords));
        FirstExactly(limit, all, []);
        assert all + [] == all;
        return;
      }
      var hit := ContainsKeyword(stream[i], keywords);
      if hit {
        FirstShort(limit, all);
        return;
      }
    }
    UpToHitEnd(stream, keywords);
    assert all + [] == all;
    FirstShort(limit, all);
  }

  lemma UpToHitUnfold(stream: seq<Pdu>, i: nat, keywords: seq<string>, all: seq<Pdu>)
    requires i < |stream|
    ensures all + UpToHit(stream[i..], keywords) ==
            all + [stream[i]] + if Hits(stream[i], keywords) then [] else UpToHit(stream[i + 1..], keywords)
  {
    hide Hits;
    assert stream[i..][1..] == stream[i + 1..];
  }

  lemma UpToHitEnd(stream: seq<Pdu>, keywords: seq<string>)
    ensures UpToHit(stream[|stream|..], keywords) == []
  {
  }

  lemma FirstExactly(limit: nat, s: seq<Pdu>, t: seq<Pdu>)
    requires |s| == limit
    ensures First(limit, s + t) == s
  {
  }

  lemma FirstShort(limit: nat, s: seq<Pdu>)
    requires |s| <= limit
    ensures First(limit, s) == s
  {
  }

  /** A missing client yields nothing. */
  method DiagnosticWalk(client: Option<seq<seq<Pdu>>>, maxEntries: int, stops: seq<string>)
    returns (collected: seq<Pdu>)
    ensures collected == if client.None? then [] else Walked(client.value, maxEntries, stops)
  {
    hide Keywords, Trimmed, Lower, TrimSpace, UpToHit;
    collected := [];
    if client.None? {
      return;
    }
    var streams, limit := client.value, Limit(maxEntries);
    var keywords := PrepareKeywords(stops);
    for i := 0 to |streams|
      invariant |collected| < limit && collected == Concat(streams[..i], keywords)
    {
      assert streams[..i + 1][..i] == streams[..i];
      collected := WalkRoot(streams[i], collected, limit, keywords);
      if |collected| >= limit {
        LimitReached(streams, keywords, i + 1, limit);
        return;
      }
    }
    assert streams[..|streams|] == streams;
  }

  method FullDiagnosticWalk(client: Option<seq<seq<Pdu>>>, maxEntries: int) returns (collected: seq<Pdu>)
    ensures collected == if client.None? then [] else First(Limit(maxEntries), Flatten(client.value))
  {
    collected := DiagnosticWalk(client, maxEntries, []);
    if client.Some? {
      FullWalkIsFirst(client.value, maxEntries);
    }
  }

  // ----- the walk that reports its progress -----

  datatype Progress =
    | Failed
    | Starting(rootIndex: nat, found: nat, percent: int)
    | Collecting(rootIndex: nat, found: nat, percent: int)
    | Complete(found: nat, percent: int)

  function Found(p: Progress): nat {
    if p.Failed? then 0 else p.found
  }

  /** The counts at which progress within a root is reported. */
  function EveryInterval(n: nat): seq<nat> {
    if n == 0 then [] else EveryInterval(n - 1) + if n % 50 == 0 then [n] else []
  }

  function CollectingCounts(reports: seq<Progress>): seq<nat> {
    if reports == [] then []
    else
      var last := reports[|reports| - 1];
      CollectingCounts(reports[..|reports| - 1]) + if last.Collecting? then [last.found] else []
  }

  /** Counts never go back, never exceed what has been collected, and percentages
      stay below 100 until the end. */
  predicate WellReported(reports: seq<Progress>, count: nat) {
    && (forall r | r in reports :: (r.Starting? || r.Collecting?) && 0 <= r.percent < 100 && Found(r) <= count)
    && (forall i, j | 0 <= i < j < |reports| :: Found(reports[i]) <= Found(reports[j]))
  }

  lemma ReportedNext(reports: seq<Progress>, count: nat, r: Progress)
    requires WellReported(reports, count)
    requires (r.Starting? || r.Collecting?) && 0 <= r.percent < 100 && r.found >= count
    ensures WellReported(reports + [r], r.found)
    ensures CollectingCounts(reports + [r]) == CollectingCounts(reports) + if r.Collecting? then [r.found] else []
  {
    assert (reports + [r])[..|reports|] == reports;
  }

  lemma ReportedMore(reports: seq<Progress>, count: nat, more: nat)
    requires WellReported(reports, count) && more >= count
    ensures WellReported(reports, more)
  {
  }

  /** The blend of roots and entries, held at 95 until the end. */
  function Percent(rootIndex: nat, rootCount: nat, count: nat, estimated: nat): (p: int)
    requires rootCount > 0 && estimated > 0
    ensures 0 <= p <= 95
  {
    var rootProgress := rootIndex as real / rootCount as real;
    var entryProgress := count as real / estimated as real;
    assert rootProgress >= 0.0 && entryProgress >= 0.0;
    var percent := ((rootProgress * 0.3 + entryProgress * 0.7) * 100.0).Floor;
    if percent > 95 then 95 else percent
  }

  /** 30 parts in a hundred for the roots and 70 for the entries, rounded down. */
  lemma PercentIs(rootIndex: nat, rootCount: nat, count: nat, estimated: nat)
    requires rootCount > 0 && estimated > 0
    ensures var p := Percent(rootIndex, rootCount, count, estimated);
            var whole, part := rootCount * estimated, 30 * (rootIndex * estimated) + 70 * (count * rootCount);
            p * whole <= part && (p < 95 ==> part < (p + 1) * whole)
  {
    hide Percent;
    var r, n, c, e := rootIndex as real, rootCount as real, count as real, estimated as real;
    var x := (r / n * 0.3 + c / e * 0.7) * 100.0;
    var whole, part := rootCount * estimated, 30 * (rootIndex * estimated) + 70 * (count * rootCount);
    Blend(r, n, c, e);
    Product(rootCount, estimated);
    Product(rootIndex, estimated);
    Product(count, rootCount);
    FloorScaled(x, whole, part);
    PercentParts(rootIndex, rootCount, count, estimated);
    if x.Floor > 95 {
      Larger(95, x.Floor, whole);
    }
  }

  lemma PercentParts(rootIndex: nat, rootCount: nat, count: nat, estimated: nat)
    requires rootCount > 0 && estimated > 0
    ensures var f := ((rootIndex as real / rootCount as real * 0.3 + count as real / estimated as real * 0.7) * 100.0).Floor;
            Percent(rootIndex, rootCount, count, estimated) == if f > 95 then 95 else f
  {
  }

  lemma Larger(a: int, b: int, w: int)
    requires a <= b && w > 0
    ensures a * w <= b * w
  {
  }

  lemma Blend(r: real, n: real, c: real, e: real)
    requires n > 0.0 && e > 0.0
    ensures (r / n * 0.3 + c / e * 0.7) * 100.0 * (n * e) == 30.0 * (r * e) + 70.0 * (c * n)
  {
    var a, b := r / n, c / e;
    assert a * n == r && b * e == c;
    assert a * (n * e) == r * e && b * (n * e) == c * n;
  }

  function BasePercent(rootIndex: nat, rootCount: nat): (p: int)
    requires rootIndex < rootCount
    ensures 0 <= p < 100
  {
    rootIndex * 100 / rootCount
  }

  datatype Tally = Tally(collected: seq<Pdu>, lastReport: nat, reports: seq<Progress>)

  /** What holds whenever control is between two PDUs. */
  predicate InStep(t: Tally, reporting: bool) {
    if reporting then
      && WellReported(t.reports, |t.collected|)
      && CollectingCounts(t.reports) == EveryInterval(|t.collected|)
      && t.lastReport == |t.collected| - |t.collected| % REPORT_INTERVAL
    else t.reports == [] && t.lastReport == 0
  }

  lemma CollectOne(t: Tally, pdu: Pdu, r: Progress)
    requires InStep(t, true)
    ensures var all := t.collected + [pdu];
            && (|all| - t.lastReport < REPORT_INTERVAL ==> InStep(t.(collected := all), true))
            && (|all| - t.lastReport >= REPORT_INTERVAL && r.Collecting? && 0 <= r.percent < 100 && r.found == |all| ==>
                  InStep(Tally(all, |all|, t.reports + [r]), true))
  {
    hide WellReported, CollectingCounts;
    var n := |t.collected|;
    NextMultiple(n);
    ReportedMore(t.reports, n, n + 1);
    if r.Collecting? && 0 <= r.percent < 100 && r.found == n + 1 {
      ReportedNext(t.reports, n, r);
    }
  }

  lemma NextMultiple(n: nat)
    ensures n + 1 - (n - n % REPORT_INTERVAL) >= REPORT_INTERVAL <==> (n + 1) % REPORT_INTERVAL == 0
    ensures (n + 1) % REPORT_INTERVAL != 0 ==> n + 1 - (n + 1) % REPORT_INTERVAL == n - n % REPORT_INTERVAL
    ensures EveryInterval(n + 1) == EveryInterval(n) + if (n + 1) % REPORT_INTERVAL == 0 then [n + 1] else []
  {
    hide EveryInterval;
    EveryIntervalUnfold(n + 1);
  }

  lemma EveryIntervalUnfold(n: nat)
    requires n > 0
    ensures EveryInterval(n) == EveryInterval(n - 1) + if n % REPORT_INTERVAL == 0 then [n] else []
  {
  }

  method WalkRootReporting(stream: seq<Pdu>, t: Tally, limit: nat, rootIndex: nat, rootCount: nat, estimated: nat, reporting: bool)
    returns (u: Tally)
    requires |t.collected| < limit && rootIndex < rootCount && estimated > 0 && InStep(t, reporting)
    ensures u.collected == First(limit, t.collected + stream) && InStep(u, reporting)
  {
    hide *;
    u := t;
    for i := 0 to |stream|
      invariant |u.collected| < limit && u.collected + stream[i..] == t.collected + stream && InStep(u, reporting)
    {
      assert u.collected + stream[i..] == u.collected + [stream[i]] + stream[i + 1..];
      var all := u.collected + [stream[i]];
      var report := Collecting(rootIndex, |all|, Percent(rootIndex, rootCount, |all|, estimated));
      if reporting {
        CollectOne(u, stream[i], report);
      } else {
        SilentStep(u, all);
      }
      if reporting && |all| - u.lastReport >= REPORT_INTERVAL {
        u := Tally(all, |all|, u.reports + [report]);
      } else {
        u := u.(collected := all);
      }
      if |all| >= limit {
        FirstExactly(limit, all, stream[i + 1..]);
        return;
      }
    }
    assert u.collected + stream[|stream|..] == u.collected;
    FirstShort(limit, u.collected);
  }

  lemma SilentStep(t: Tally, all: seq<Pdu>)
    requires InStep(t, false)
    ensures InStep(t.(collected := all), false)
  {
  }

  lemma StartRoot(t: Tally, r: Progress)
    requires InStep(t, true) && r.Starting? && 0 <= r.percent < 100 && r.found == |t.collected|
    ensures InStep(t.(reports := t.reports + [r]), true)
  {
    ReportedNext(t.reports, |t.collected|, r);
  }

  lemma NoneYet(reporting: bool)
    ensures InStep(Tally([], 0, []), reporting)
  {
  }

  lemma InStepParts(t: Tally, reporting: bool)
    requires InStep(t, reporting)
    ensures reporting ==> WellReported(t.reports, |t.collected|) && CollectingCounts(t.reports) == EveryInterval(|t.collected|)
    ensures !reporting ==> t.reports == []
  {
  }

  /** The same entries as without reports; the reports count up in step with the
      walk, one for each full interval, and end with the total. */
  method FullDiagnosticWalkWithProgress(client: Option<seq<seq<Pdu>>>, maxEntries: int, reporting: bool)
    returns (collected: seq<Pdu>, reports: seq<Progress>)
    ensures collected == if client.None? then [] else First(Limit(maxEntries), Flatten(client.value))
    ensures !reporting ==> reports == []
    ensures reporting && client.None? ==> reports == [Failed]
    ensures reporting && client.Some? ==>
              && |reports| > 0 && reports[|reports| - 1] == Complete(|collected|, 100)
              && WellReported(reports[..|reports| - 1], |collected|)
              && CollectingCounts(reports[..|reports| - 1]) == EveryInterval(|collected|)
  {
    hide *;
    if client.None? {
      return [], if reporting then [Failed] else [];
    }
    var streams, limit := client.value, Limit(maxEntries);
    LimitPositive(maxEntries);
    var estimated := if limit < TYPICAL_TOTAL then limit else TYPICAL_TOTAL;
    var t := Tally([], 0, []);
    NoneYet(reporting);
    FlattenNone(streams);
    var i := 0;
    while i < |streams| && |t.collected| < limit
      invariant i <= |streams| && InStep(t, reporting)
      invariant t.collected == First(limit, Flatten(streams[..i]))
      invariant |t.collected| < limit ==> t.collected == Flatten(streams[..i])
    {
      if reporting {
        var report := Starting(i, |t.collected|, BasePercent(i, |streams|));
        StartRoot(t, report);
        t := t.(reports := t.reports + [report]);
      }
      FlattenNext(streams, i, limit);
      t := WalkRootReporting(streams[i], t, limit, i, |streams|, estimated, reporting);
      i := i + 1;
      FirstIsWhole(limit, Flatten(streams[..i]));
    }
    FlattenRest(streams, i, limit);
    collected, reports := t.collected, t.reports;
    InStepParts(t, reporting);
    if reporting {
      reports := reports + [Complete(|collected|, 100)];
      assert reports[..|reports| - 1] == t.reports;
    }
  }

  lemma LimitPositive(maxEntries: int)
    ensures Limit(maxEntries) > 0 && TYPICAL_TOTAL > 0
  {
  }

  lemma FlattenNone(streams: seq<seq<Pdu>>)
    ensures Flatten(streams[..0]) == [] && forall n: nat :: First(n, []) == []
  {
  }

  lemma FlattenNext(streams: seq<seq<Pdu>>, i: nat, limit: nat)
    requires i < |streams|
    ensures Flatten(streams[..i + 1]) == Flatten(streams[..i]) + streams[i]
  {
    assert streams[..i + 1][..i] == streams[..i];
  }

  lemma FirstIsWhole(limit: nat, s: seq<Pdu>)
    ensures |First(limit, s)| < limit ==> First(limit, s) == s
  {
  }

  lemma FlattenRest(streams: seq<seq<Pdu>>, i: nat, limit: nat)
    requires i <= |streams|
    ensures |First(limit, Flatten(streams[..i]))| >= limit || i == |streams| ==>
              First(limit, Flatten(streams)) == First(limit, Flatten(streams[..i]))
  {
    if i == |streams| {
      assert streams[..i] == streams;
    } else if |First(limit, Flatten(streams[..i]))| >= limit {
      ConcatWithoutKeywords(streams);
      ConcatWithoutKeywords(streams[..i]);
      LimitReached(streams, [], i, limit);
    }
  }
}
