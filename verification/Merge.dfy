/** Merging two readings of one printer (agent/agent/merge.go). */
module Merge {
  /** time.Time as a number; the zero time is 0. */
  type Time = int

  const ZERO_TIME: Time := 0

  /** The fields no merge looks at. */
  datatype Unmerged = Unmerged(ip: string, description: string, location: string, advertisedServices: seq<string>,
                               dhcpServer: string, webUIURL: string, formFactor: string, deviceType: string)

  // The fields of a PrinterInfo, grouped by the way they are merged.

  datatype Identity = Identity(manufacturer: string, model: string, serial: string, adminContact: string, assetId: string)

  datatype Counters = Counters(pageCount: int, totalMonoImpressions: int, monoImpressions: int, colorImpressions: int,
                               blackImpressions: int, cyanImpressions: int, magentaImpressions: int, yellowImpressions: int)

  datatype Network = Network(firmware: string, subnetMask: string, gateway: string, dnsServers: seq<string>,
                             hostname: string, uptimeSeconds: int, duplexSupported: bool)

  datatype Lists = Lists(consumables: seq<string>, tonerAlerts: seq<string>, statusMessages: seq<string>,
                         detectionReasons: seq<string>)

  datatype Discovery = Discovery(mac: string, openPorts: seq<int>, discoveryMethods: seq<string>)

  /** T and P are the types of the two maps that are updated in place. */
  datatype PrinterInfo<+T, +P> = PrinterInfo(identity: Identity, counters: Counters, tonerLevels: T, lists: Lists,
                                             network: Network, paperTrayStatus: P, lastSeen: Time,
                                             discovery: Discovery, unmerged: Unmerged)

  /** A reading as a value. */
  type Info = PrinterInfo<map<string, int>, map<string, string>>

  // ----- how single fields are merged -----

  function Latest(base: string, extra: string): string {
    if extra != "" then extra else base
  }

  function LatestNumber(base: int, extra: int): int {
    if extra != 0 then extra else base
  }

  function LatestList(base: seq<string>, extra: seq<string>): seq<string> {
    if |extra| > 0 then extra else base
  }

  function Earliest<X(==)>(base: seq<X>, extra: seq<X>): seq<X> {
    if |base| == 0 && |extra| > 0 then extra else base
  }

  /** A page count also stands in for the monochrome total when a reading has none. */
  function MonoTotal(base: int, extraPages: int, extra: int): int {
    if extra != 0 then extra else LatestNumber(base, extraPages)
  }

  function Uptime(base: int, extra: int): int {
    if extra != 0 && (base == 0 || extra > base) then extra else base
  }

  /** A level of zero never replaces one that is known. */
  function Toner(base: map<string, int>, extra: map<string, int>): map<string, int> {
    map k | k in base.Keys + extra.Keys :: if k in extra && (extra[k] != 0 || k !in base) then extra[k] else base[k]
  }

  function NonEmpty(s: seq<string>): seq<string> {
    if s == [] then [] else NonEmpty(s[..|s| - 1]) + if s[|s| - 1] == "" then [] else [s[|s| - 1]]
  }

  function Elements(s: seq<string>): set<string> {
    set x | x in s
  }

  /** The strings of `s` not seen before, each once, in order of appearance. */
  function Unseen(s: seq<string>, seen: set<string>): seq<string> {
    if s == [] then []
    else
      var init, last := s[..|s| - 1], s[|s| - 1];
      Unseen(init, seen) + if last == "" || last in seen || last in init then [] else [last]
  }

  function Union(base: seq<string>, extra: seq<string>): seq<string> {
    NonEmpty(base) + Unseen(extra, Elements(NonEmpty(base)))
  }

  function Seen(base: Time, extra: Time, now: Time): Time {
    var t := if extra != ZERO_TIME then extra else base;
    if t == ZERO_TIME then now else t
  }

  function MergedIdentity(base: Identity, extra: Identity): Identity {
    Identity(Latest(base.manufacturer, extra.manufacturer),
             Latest(base.model, extra.model),
             Latest(base.serial, extra.serial),
             Latest(base.adminContact, extra.adminContact),
             Latest(base.assetId, extra.assetId))
  }

  function MergedCounters(base: Counters, extra: Counters): Counters {
    Counters(LatestNumber(base.pageCount, extra.pageCount),
             MonoTotal(base.totalMonoImpressions, extra.pageCount, extra.totalMonoImpressions),
             LatestNumber(base.monoImpressions, extra.monoImpressions),
             LatestNumber(base.colorImpressions, extra.colorImpressions),
             LatestNumber(base.blackImpressions, extra.blackImpressions),
             LatestNumber(base.cyanImpressions, extra.cyanImpressions),
             LatestNumber(base.magentaImpressions, extra.magentaImpressions),
             LatestNumber(base.yellowImpressions, extra.yellowImpressions))
  }

  function MergedNetwork(base: Network, extra: Network): Network {
    Network(Latest(base.firmware, extra.firmware),
            Latest(base.subnetMask, extra.subnetMask),
            Latest(base.gateway, extra.gateway),
            LatestList(base.dnsServers, extra.dnsServers),
            Latest(base.hostname, extra.hostname),
            Uptime(base.uptimeSeconds, extra.uptimeSeconds),
            base.duplexSupported || extra.duplexSupported)
  }

  function MergedLists(base: Lists, extra: Lists): Lists {
    Lists(Union(base.consumables, extra.consumables),
          Union(base.tonerAlerts, extra.tonerAlerts),
          Union(base.statusMessages, extra.statusMessages),
          Union(base.detectionReasons, extra.detectionReasons))
  }

  function MergedDiscovery(base: Discovery, extra: Discovery): Discovery {
    Discovery(Earliest(base.mac, extra.mac),
              Earliest(base.openPorts, extra.openPorts),
              Earliest(base.discoveryMethods, extra.discoveryMethods))
  }

  function Merge(base: Info, extra: Info, now: Time): Info {
    PrinterInfo(MergedIdentity(base.identity, extra.identity),
                MergedCounters(base.counters, extra.counters),
                Toner(base.tonerLevels, extra.tonerLevels),
                MergedLists(base.lists, extra.lists),
                MergedNetwork(base.network, extra.network),
                base.paperTrayStatus + extra.paperTrayStatus,
                Seen(base.lastSeen, extra.lastSeen, now),
                MergedDiscovery(base.discovery, extra.discovery),
                base.unmerged)
  }

  // ----- the union of two lists -----

  lemma {:induction false} NonEmptyElements(s: seq<string>)
    ensures Elements(NonEmpty(s)) == Elements(s) - {""}
    ensures "" !in s ==> NonEmpty(s) == s
  {
    if s != [] {
      var init := s[..|s| - 1];
      NonEmptyElements(init);
      ElementsOfConcat(init, [s[|s| - 1]]);
      ElementsOfConcat(NonEmpty(init), if s[|s| - 1] == "" then [] else [s[|s| - 1]]);
      assert s == init + [s[|s| - 1]];
    }
  }

  lemma ElementsOfConcat(s: seq<string>, t: seq<string>)
    ensures Elements(s + t) == Elements(s) + Elements(t)
  {
  }

  lemma {:induction false} UnseenElements(s: seq<string>, seen: set<string>)
    ensures Elements(Unseen(s, seen)) == Elements(s) - seen - {""}
  {
    if s != [] {
      var init, last := s[..|s| - 1], s[|s| - 1];
      UnseenElements(init, seen);
      ElementsOfConcat(init, [last]);
      ElementsOfConcat(Unseen(init, seen), if last == "" || last in seen || last in init then [] else [last]);
      assert s == init + [last];
    }
  }

  lemma UnionElements(a: seq<string>, b: seq<string>)
    ensures Elements(Union(a, b)) == Elements(a) + Elements(b) - {""}
  {
    NonEmptyElements(a);
    UnseenElements(b, Elements(NonEmpty(a)));
    var u, v := NonEmpty(a), Unseen(b, Elements(NonEmpty(a)));
    assert Elements(u + v) == Elements(u) + Elements(v);
  }

  function FirstIndex(s: seq<string>, x: string): (i: nat)
    ensures i <= |s| && (i < |s| <==> x in s) && (i < |s| ==> s[i] == x) && (forall j | 0 <= j < i :: s[j] != x)
  {
    if s == [] || s[0] == x then 0 else 1 + FirstIndex(s[1..], x)
  }

  /** What is added has no repetitions and keeps the order of first appearance. */
  lemma {:induction false} UnseenKeepsOrder(s: seq<string>, seen: set<string>, i: nat, j: nat)
    requires i < j < |Unseen(s, seen)|
    ensures Unseen(s, seen)[i] in s && Unseen(s, seen)[j] in s
    ensures FirstIndex(s, Unseen(s, seen)[i]) < FirstIndex(s, Unseen(s, seen)[j])
  {
    var init, u := s[..|s| - 1], Unseen(s[..|s| - 1], seen);
    UnseenElements(init, seen);
    UnseenElements(s, seen);
    var x, y := Unseen(s, seen)[i], Unseen(s, seen)[j];
    assert u[i] == x && x in Elements(u);
    assert FirstIndex(init, x) == FirstIndex(s, x) by { FirstIndexOfPrefix(init, s, x); }
    if j < |u| {
      UnseenKeepsOrder(init, seen, i, j);
      assert y in Elements(u);
      FirstIndexOfPrefix(init, s, y);
    }
  }

  lemma FirstIndexOfPrefix(init: seq<string>, s: seq<string>, x: string)
    requires init <= s && x in init
    ensures FirstIndex(init, x) == FirstIndex(s, x)
  {
    var i, j := FirstIndex(init, x), FirstIndex(s, x);
    assert s[i] == init[i] && (j < |init| ==> s[j] == init[j]);
  }

  /** The merged list is the base list without blanks, then exactly the strings
      only the other list has, once each, in order of first appearance. */
  lemma UnionIsOrdered(a: seq<string>, b: seq<string>)
    ensures NonEmpty(a) <= Union(a, b)
    ensures Elements(Union(a, b)) == Elements(a) + Elements(b) - {""}
    ensures forall j | |NonEmpty(a)| <= j < |Union(a, b)| :: Union(a, b)[j] in b && Union(a, b)[j] !in a
    ensures forall i, j | |NonEmpty(a)| <= i < j < |Union(a, b)| ::
              FirstIndex(b, Union(a, b)[i]) < FirstIndex(b, Union(a, b)[j])
  {
    hide *;
    var n, seen := |NonEmpty(a)|, Elements(NonEmpty(a));
    UnionParts(a, b);
    UnionElements(a, b);
    UnseenElements(b, seen);
    NonEmptyElements(a);
    forall j | n <= j < |Union(a, b)| ensures Union(a, b)[j] in b && Union(a, b)[j] !in a {
      InElements(Unseen(b, seen), Union(a, b)[j]);
      InElements(b, Union(a, b)[j]);
      InElements(a, Union(a, b)[j]);
      assert Union(a, b)[j] == Unseen(b, seen)[j - n];
    }
    forall i, j | n <= i < j < |Union(a, b)|
      ensures FirstIndex(b, Union(a, b)[i]) < FirstIndex(b, Union(a, b)[j])
    {
      UnseenKeepsOrder(b, seen, i - n, j - n);
    }
  }

  lemma InElements(s: seq<string>, x: string)
    ensures x in Elements(s) <==> x in s
  {
  }

  lemma {:induction false} UnseenOfConcat(s: seq<string>, t: seq<string>, seen: set<string>)
    ensures Unseen(s + t, seen) == Unseen(s, seen) + Unseen(t, seen + Elements(s))
  {
    if t == [] {
      assert s + t == s;
    } else {
      UnseenOfConcat(s, t[..|t| - 1], seen);
      assert (s + t)[..|s + t| - 1] == s + t[..|t| - 1];
    }
  }

  lemma {:induction false} UnseenTwice(s: seq<string>, seen: set<string>, more: set<string>)
    ensures Unseen(Unseen(s, seen), more) == Unseen(s, seen + more)
  {
    if s != [] {
      var init, last := s[..|s| - 1], s[|s| - 1];
      UnseenTwice(init, seen, more);
      UnseenElements(init, seen);
      var u := Unseen(init, seen);
      assert last in u <==> last in Elements(u);
      assert u + [] == u;
      if !(last == "" || last in seen || last in init) {
        assert (u + [last])[..|u|] == u;
      }
    }
  }

  lemma {:induction false} UnseenSkipsBlanks(s: seq<string>, seen: set<string>)
    ensures Unseen(NonEmpty(s), seen) == Unseen(s, seen)
  {
    if s != [] {
      var init, last := s[..|s| - 1], s[|s| - 1];
      UnseenSkipsBlanks(init, seen);
      NonEmptyElements(init);
      var u := NonEmpty(init);
      assert last in u <==> last in Elements(u);
      assert u + [] == u;
      assert last != "" ==> (u + [last])[..|u|] == u;
    }
  }

  lemma NonEmptyOfUnion(a: seq<string>, b: seq<string>)
    ensures NonEmpty(Union(a, b)) == Union(a, b)
  {
    UnionElements(a, b);
    assert "" !in Elements(Union(a, b));
    NonEmptyElements(Union(a, b));
  }

  lemma UnionIsAssociative(a: seq<string>, b: seq<string>, c: seq<string>)
    ensures Union(Union(a, b), c) == Union(a, Union(b, c))
  {
    hide *;
    UnionParts(Union(a, b), c);
    UnionParts(a, b);
    UnionParts(a, Union(b, c));
    UnionParts(b, c);
    NonEmptyOfUnion(a, b);
    var x, y := Elements(NonEmpty(a)), Elements(NonEmpty(b));
    UnseenOfConcat(NonEmpty(b), Unseen(c, y), x);
    UnseenSkipsBlanks(b, x);
    UnseenTwice(c, y, x + y);
    UnionElements(a, b);
    NonEmptyElements(a);
    NonEmptyElements(b);
    assert y + (x + y) == Elements(Union(a, b));
  }

  lemma UnionParts(a: seq<string>, b: seq<string>)
    ensures Union(a, b) == NonEmpty(a) + Unseen(b, Elements(NonEmpty(a)))
  {
  }

  lemma NoElements(s: seq<string>)
    ensures Elements(s) == {} ==> s == []
  {
    if s != [] {
      assert s[0] in Elements(s);
    }
  }

  lemma UnionAbsorbs(a: seq<string>, b: seq<string>)
    ensures Union(Union(a, b), b) == Union(a, b)
  {
    NonEmptyOfUnion(a, b);
    UnionElements(a, b);
    UnseenElements(b, Elements(Union(a, b)));
    var u := Unseen(b, Elements(Union(a, b)));
    NoElements(u);
    assert Union(a, b) + [] == Union(a, b);
  }

  // ----- the algebra of merging -----

  lemma TonerIsAssociative(a: map<string, int>, b: map<string, int>, c: map<string, int>)
    ensures Toner(Toner(a, b), c) == Toner(a, Toner(b, c))
  {
  }

  lemma ListsAreAssociative(a: Lists, b: Lists, c: Lists)
    ensures MergedLists(MergedLists(a, b), c) == MergedLists(a, MergedLists(b, c))
  {
    hide Union;
    UnionIsAssociative(a.consumables, b.consumables, c.consumables);
    UnionIsAssociative(a.tonerAlerts, b.tonerAlerts, c.tonerAlerts);
    UnionIsAssociative(a.statusMessages, b.statusMessages, c.statusMessages);
    UnionIsAssociative(a.detectionReasons, b.detectionReasons, c.detectionReasons);
  }

  lemma FieldsAreAssociative(a: Info, b: Info, c: Info)
    ensures MergedIdentity(MergedIdentity(a.identity, b.identity), c.identity)
            == MergedIdentity(a.identity, MergedIdentity(b.identity, c.identity))
    ensures MergedCounters(MergedCounters(a.counters, b.counters), c.counters)
            == MergedCounters(a.counters, MergedCounters(b.counters, c.counters))
    ensures MergedNetwork(MergedNetwork(a.network, b.network), c.network)
            == MergedNetwork(a.network, MergedNetwork(b.network, c.network))
    ensures MergedDiscovery(MergedDiscovery(a.discovery, b.discovery), c.discovery)
            == MergedDiscovery(a.discovery, MergedDiscovery(b.discovery, c.discovery))
  {
  }

  /** Merging readings one by one or in groups gives the same printer, but for
      the time it was last seen. */
  lemma MergeIsAssociative(a: Info, b: Info, c: Info, n: Time, m: Time, k: Time, l: Time)
    ensures Merge(Merge(a, b, n), c, m).(lastSeen := ZERO_TIME) == Merge(a, Merge(b, c, k), l).(lastSeen := ZERO_TIME)
  {
    hide MergedIdentity, MergedCounters, MergedNetwork, MergedLists, MergedDiscovery, Toner;
    TonerIsAssociative(a.tonerLevels, b.tonerLevels, c.tonerLevels);
    ListsAreAssociative(a.lists, b.lists, c.lists);
    FieldsAreAssociative(a, b, c);
    assert (a.paperTrayStatus + b.paperTrayStatus) + c.paperTrayStatus ==
           a.paperTrayStatus + (b.paperTrayStatus + c.paperTrayStatus);
  }

  /** With every clock reading taken into account, the two orders of merging
      agree completely exactly when one of the later readings carries a time, or
      the clock that replaced their missing times showed the time of the first. */
  lemma MergeIsAssociativeIff(a: Info, b: Info, c: Info, n: Time, m: Time, k: Time, l: Time)
    requires n != ZERO_TIME && m != ZERO_TIME && k != ZERO_TIME && l != ZERO_TIME
    ensures Merge(Merge(a, b, n), c, m) == Merge(a, Merge(b, c, k), l)
            <==> b.lastSeen != ZERO_TIME || c.lastSeen != ZERO_TIME || k == (if a.lastSeen != ZERO_TIME then a.lastSeen else n)
  {
    hide *;
    MergeIsAssociative(a, b, c, n, m, k, l);
    LastSeenOfGroups(a, b, c, n, m, k, l);
    SameBut(Merge(Merge(a, b, n), c, m), Merge(a, Merge(b, c, k), l));
  }

  lemma SameBut(p: Info, q: Info)
    requires p.(lastSeen := ZERO_TIME) == q.(lastSeen := ZERO_TIME)
    ensures p == q <==> p.lastSeen == q.lastSeen
  {
    assert p == p.(lastSeen := ZERO_TIME).(lastSeen := p.lastSeen);
    assert q == q.(lastSeen := ZERO_TIME).(lastSeen := q.lastSeen);
  }

  lemma LastSeenOfGroups(a: Info, b: Info, c: Info, n: Time, m: Time, k: Time, l: Time)
    requires n != ZERO_TIME && m != ZERO_TIME && k != ZERO_TIME && l != ZERO_TIME
    ensures Merge(Merge(a, b, n), c, m).lastSeen == Merge(a, Merge(b, c, k), l).lastSeen
            <==> b.lastSeen != ZERO_TIME || c.lastSeen != ZERO_TIME || k == (if a.lastSeen != ZERO_TIME then a.lastSeen else n)
  {
    LastSeenOf(a, b, n);
    LastSeenOf(Merge(a, b, n), c, m);
    LastSeenOf(b, c, k);
    LastSeenOf(a, Merge(b, c, k), l);
  }

  lemma LastSeenOf(p: Info, q: Info, n: Time)
    ensures Merge(p, q, n).lastSeen == Seen(p.lastSeen, q.lastSeen, n)
  {
  }

  lemma FieldsAbsorb(a: Info, e: Info)
    ensures MergedIdentity(MergedIdentity(a.identity, e.identity), e.identity) == MergedIdentity(a.identity, e.identity)
    ensures MergedCounters(MergedCounters(a.counters, e.counters), e.counters) == MergedCounters(a.counters, e.counters)
    ensures MergedNetwork(MergedNetwork(a.network, e.network), e.network) == MergedNetwork(a.network, e.network)
    ensures MergedDiscovery(MergedDiscovery(a.discovery, e.discovery), e.discovery)
            == MergedDiscovery(a.discovery, e.discovery)
  {
  }

  lemma ListsAbsorb(a: Lists, e: Lists)
    ensures MergedLists(MergedLists(a, e), e) == MergedLists(a, e)
  {
    hide Union;
    UnionAbsorbs(a.consumables, e.consumables);
    UnionAbsorbs(a.tonerAlerts, e.tonerAlerts);
    UnionAbsorbs(a.statusMessages, e.statusMessages);
    UnionAbsorbs(a.detectionReasons, e.detectionReasons);
  }

  /** Merging the same reading again changes nothing. */
  lemma MergeAbsorbs(a: Info, e: Info, n: Time, m: Time)
    requires n != ZERO_TIME
    ensures Merge(Merge(a, e, n), e, m) == Merge(a, e, n)
  {
    hide MergedIdentity, MergedCounters, MergedNetwork, MergedLists, MergedDiscovery, Toner;
    FieldsAbsorb(a, e);
    ListsAbsorb(a.lists, e.lists);
    TonerAbsorbs(a.tonerLevels, e.tonerLevels);
    assert (a.paperTrayStatus + e.paperTrayStatus) + e.paperTrayStatus == a.paperTrayStatus + e.paperTrayStatus;
  }

  lemma TonerAbsorbs(a: map<string, int>, e: map<string, int>)
    ensures Toner(Toner(a, e), e) == Toner(a, e)
  {
  }

  /** Merging a whole list of readings into one. */
  function MergeAll(base: Info, readings: seq<Info>, now: Time): Info {
    if readings == [] then base
    else Merge(MergeAll(base, readings[..|readings| - 1], now), readings[|readings| - 1], now)
  }

  /** Times aside, merging looks at everything but LastSeen. */
  lemma MergeIgnoresTime(p: Info, q: Info, e: Info, n: Time, m: Time)
    requires p.(lastSeen := ZERO_TIME) == q.(lastSeen := ZERO_TIME)
    ensures Merge(p, e, n).(lastSeen := ZERO_TIME) == Merge(q, e, m).(lastSeen := ZERO_TIME)
  {
    hide MergedIdentity, MergedCounters, MergedNetwork, MergedLists, MergedDiscovery, Toner, Seen;
    var z := p.(lastSeen := ZERO_TIME);
    assert p.identity == z.identity == q.identity && p.counters == z.counters == q.counters;
    assert p.tonerLevels == z.tonerLevels == q.tonerLevels && p.lists == z.lists == q.lists;
    assert p.network == z.network == q.network && p.paperTrayStatus == z.paperTrayStatus == q.paperTrayStatus;
    assert p.discovery == z.discovery == q.discovery && p.unmerged == z.unmerged == q.unmerged;
  }

  /** A list of readings may be cut anywhere: merging the tail by itself first
      gives the same printer, but for the time it was last seen. */
  lemma {:induction false} MergeAllInGroups(base: Info, early: seq<Info>, first: Info, late: seq<Info>, now: Time)
    ensures MergeAll(base, early + [first] + late, now).(lastSeen := ZERO_TIME) ==
            Merge(MergeAll(base, early, now), MergeAll(first, late, now), now).(lastSeen := ZERO_TIME)
    decreases |late|
  {
    hide *;
    if late == [] {
      MergeAllPush(base, early, first, now);
      MergeAllNone(first, now);
      assert early + [first] + [] == early + [first];
    } else {
      var init, last := late[..|late| - 1], late[|late| - 1];
      var p, q := MergeAll(base, early, now), MergeAll(first, init, now);
      MergeAllInGroups(base, early, first, init, now);
      MergeAllPush(base, early + [first] + init, last, now);
      MergeAllPush(first, init, last, now);
      assert early + [first] + late == early + [first] + init + [last] && late == init + [last];
      MergeIsAssociative(p, q, last, now, now, now, now);
      MergeIgnoresTime(MergeAll(base, early + [first] + init, now), Merge(p, q, now), last, now, now);
    }
  }

  /** The time of the last reading that has one. */
  function LatestTime(readings: seq<Info>): Time {
    if readings == [] then ZERO_TIME
    else if readings[|readings| - 1].lastSeen != ZERO_TIME then readings[|readings| - 1].lastSeen
    else LatestTime(readings[..|readings| - 1])
  }

  predicate Dated(readings: seq<Info>) {
    exists r | r in readings :: r.lastSeen != ZERO_TIME
  }

  lemma {:induction false} DatedIffLatest(readings: seq<Info>)
    ensures Dated(readings) <==> LatestTime(readings) != ZERO_TIME
  {
    if readings != [] {
      var init, last := readings[..|readings| - 1], readings[|readings| - 1];
      DatedIffLatest(init);
      assert readings == init + [last];
    }
  }

  lemma {:induction false} LastSeenOfAll(base: Info, readings: seq<Info>, now: Time)
    requires now != ZERO_TIME && readings != []
    ensures MergeAll(base, readings, now).lastSeen == Seen(base.lastSeen, LatestTime(readings), now)
  {
    var init, last := readings[..|readings| - 1], readings[|readings| - 1];
    LastSeenOf(MergeAll(base, init, now), last, now);
    if init != [] {
      LastSeenOfAll(base, init, now);
    }
  }

  lemma {:induction false} LatestOfConcat(s: seq<Info>, t: seq<Info>)
    ensures LatestTime(s + t) == if LatestTime(t) != ZERO_TIME then LatestTime(t) else LatestTime(s)
  {
    if t == [] {
      assert s + t == s;
    } else {
      LatestOfConcat(s, t[..|t| - 1]);
      assert (s + t)[..|s + t| - 1] == s + t[..|t| - 1];
    }
  }

  lemma LatestOfOne(r: Info)
    ensures LatestTime([r]) == r.lastSeen
  {
  }

  lemma LastSeenOfTail(first: Info, late: seq<Info>, now: Time)
    requires now != ZERO_TIME
    ensures MergeAll(first, late, now).lastSeen ==
            if late == [] then first.lastSeen else Seen(first.lastSeen, LatestTime(late), now)
  {
    if late != [] {
      LastSeenOfAll(first, late, now);
    }
  }

  /** And in LastSeen too exactly if the tail is a single reading or has one with a
      time, or the readings before it have no time or the very time of the clock. */
  lemma MergeAllInGroupsIff(base: Info, early: seq<Info>, first: Info, late: seq<Info>, now: Time)
    requires now != ZERO_TIME
    ensures var before := MergeAll(base, early, now);
            MergeAll(base, early + [first] + late, now) == Merge(before, MergeAll(first, late, now), now)
            <==> late == [] || Dated([first] + late) || before.lastSeen == ZERO_TIME || before.lastSeen == now
  {
    hide MergeAll, Merge, LatestTime, Dated;
    var before, tail := MergeAll(base, early, now), MergeAll(first, late, now);
    MergeAllInGroups(base, early, first, late, now);
    SameBut(MergeAll(base, early + [first] + late, now), Merge(before, tail, now));
    LastSeenOfAll(base, early + [first] + late, now);
    LastSeenOfTail(base, early, now);
    LastSeenOfTail(first, late, now);
    LastSeenOf(before, tail, now);
    LatestOfConcat(early + [first], late);
    LatestOfConcat(early, [first]);
    LatestOfConcat([first], late);
    LatestOfOne(first);
    DatedIffLatest([first] + late);
    NoTime(late);
    NoTime(early);
  }

  lemma NoTime(readings: seq<Info>)
    ensures readings == [] ==> LatestTime(readings) == ZERO_TIME
  {
  }

  lemma MergeAllNone(base: Info, now: Time)
    ensures MergeAll(base, [], now) == base
  {
  }

  // ----- LastSeen is the extra reading's time, not the newer one -----

  /** A merge never takes LastSeen back exactly if the extra reading has no time or
      one that is not older. */
  lemma TimeIsKeptIff(base: Info, extra: Info, now: Time)
    requires now >= ZERO_TIME
    ensures Merge(base, extra, now).lastSeen >= base.lastSeen
            <==> extra.lastSeen == ZERO_TIME || extra.lastSeen >= base.lastSeen
  {
    LastSeenOf(base, extra, now);
  }

  /** Any record that was seen takes an older time from some reading. */
  lemma OlderReadingTakesBack(base: Info, now: Time)
    requires base.lastSeen > ZERO_TIME + 1
    ensures exists extra: Info :: Merge(base, extra, now).lastSeen < base.lastSeen
  {
    var extra := base.(lastSeen := ZERO_TIME + 1);
    LastSeenOf(base, extra, now);
  }

  lemma MergeAllPush(base: Info, init: seq<Info>, last: Info, now: Time)
    ensures MergeAll(base, init + [last], now) == Merge(MergeAll(base, init, now), last, now)
  {
    assert (init + [last])[..|init|] == init;
  }

  // ----- every field of a merged list of readings -----

  datatype TextField = Manufacturer | Model | Serial | AdminContact | AssetId | Firmware | SubnetMask | Gateway | Hostname

  function TextOf(f: TextField, r: Info): string {
    match f
    case Manufacturer => r.identity.manufacturer
    case Model => r.identity.model
    case Serial => r.identity.serial
    case AdminContact => r.identity.adminContact
    case AssetId => r.identity.assetId
    case Firmware => r.network.firmware
    case SubnetMask => r.network.subnetMask
    case Gateway => r.network.gateway
    case Hostname => r.network.hostname
  }

  datatype CounterField = PageCount | MonoImpressions | ColorImpressions | Black | Cyan | Magenta | Yellow

  function CounterOf(f: CounterField, r: Info): int {
    match f
    case PageCount => r.counters.pageCount
    case MonoImpressions => r.counters.monoImpressions
    case ColorImpressions => r.counters.colorImpressions
    case Black => r.counters.blackImpressions
    case Cyan => r.counters.cyanImpressions
    case Magenta => r.counters.magentaImpressions
    case Yellow => r.counters.yellowImpressions
  }

  /** One merge: a text or counter of the extra reading wins if it has one. */
  lemma LaterWins(p: Info, q: Info, n: Time, f: TextField, g: CounterField)
    ensures TextOf(f, Merge(p, q, n)) == if TextOf(f, q) == "" then TextOf(f, p) else TextOf(f, q)
    ensures CounterOf(g, Merge(p, q, n)) == if CounterOf(g, q) == 0 then CounterOf(g, p) else CounterOf(g, q)
    ensures Merge(p, q, n).network.dnsServers == if q.network.dnsServers == [] then p.network.dnsServers else q.network.dnsServers
  {
  }

  /** Every text comes from the last reading that has one, or from the base. */
  lemma {:induction false} TextOfList(base: Info, readings: seq<Info>, f: TextField, i: int, now: Time)
    requires -1 <= i < |readings| && (i >= 0 ==> TextOf(f, readings[i]) != "")
    requires forall j | i < j < |readings| :: TextOf(f, readings[j]) == ""
    ensures TextOf(f, MergeAll(base, readings, now)) == if i < 0 then TextOf(f, base) else TextOf(f, readings[i])
    decreases |readings|
  {
    hide Merge, TextOf, CounterOf;
    if readings != [] {
      var init, last := readings[..|readings| - 1], readings[|readings| - 1];
      LaterWins(MergeAll(base, init, now), last, now, f, PageCount);
      if i < |init| {
        TextOfList(base, init, f, i, now);
      }
    }
  }

  /** Every counter comes from the last reading in which it is not zero. */
  lemma {:induction false} CounterOfList(base: Info, readings: seq<Info>, g: CounterField, i: int, now: Time)
    requires -1 <= i < |readings| && (i >= 0 ==> CounterOf(g, readings[i]) != 0)
    requires forall j | i < j < |readings| :: CounterOf(g, readings[j]) == 0
    ensures CounterOf(g, MergeAll(base, readings, now)) == if i < 0 then CounterOf(g, base) else CounterOf(g, readings[i])
    decreases |readings|
  {
    hide Merge, TextOf, CounterOf;
    if readings != [] {
      var init, last := readings[..|readings| - 1], readings[|readings| - 1];
      LaterWins(MergeAll(base, init, now), last, now, Model, g);
      if i < |init| {
        CounterOfList(base, init, g, i, now);
      }
    }
  }

  lemma {:induction false} DnsServersOfList(base: Info, readings: seq<Info>, i: int, now: Time)
    requires -1 <= i < |readings| && (i >= 0 ==> readings[i].network.dnsServers != [])
    requires forall j | i < j < |readings| :: readings[j].network.dnsServers == []
    ensures MergeAll(base, readings, now).network.dnsServers ==
            (if i < 0 then base else readings[i]).network.dnsServers
    decreases |readings|
  {
    hide Merge;
    if readings != [] {
      var init, last := readings[..|readings| - 1], readings[|readings| - 1];
      LaterWins(MergeAll(base, init, now), last, now, Model, PageCount);
      if i < |init| {
        DnsServersOfList(base, init, i, now);
      }
    }
  }

  lemma EarlierWins(p: Info, q: Info, n: Time)
    ensures var d, e, f := p.discovery, q.discovery, Merge(p, q, n).discovery;
            && f.mac == (if d.mac == "" then e.mac else d.mac)
            && f.openPorts == (if d.openPorts == [] then e.openPorts else d.openPorts)
            && f.discoveryMethods == (if d.discoveryMethods == [] then e.discoveryMethods else d.discoveryMethods)
  {
  }

  /** What discovery found is taken from the base, or the first reading that has it. */
  lemma {:induction false} DiscoveryOfList(base: Info, readings: seq<Info>, i: nat, now: Time)
    requires i <= |readings|
    ensures var first, all := MergeAll(base, readings[..i], now).discovery, MergeAll(base, readings, now).discovery;
            && (first.mac != "" ==> all.mac == first.mac)
            && (first.openPorts != [] ==> all.openPorts == first.openPorts)
            && (first.discoveryMethods != [] ==> all.discoveryMethods == first.discoveryMethods)
    ensures i < |readings| ==>
              var first, next := MergeAll(base, readings[..i], now).discovery, MergeAll(base, readings[..i + 1], now).discovery;
              && (first.mac == "" ==> next.mac == readings[i].discovery.mac)
              && (first.openPorts == [] ==> next.openPorts == readings[i].discovery.openPorts)
              && (first.discoveryMethods == [] ==> next.discoveryMethods == readings[i].discovery.discoveryMethods)
    decreases |readings|
  {
    hide Merge;
    if i < |readings| {
      var init, last := readings[..|readings| - 1], readings[|readings| - 1];
      assert init[..i] == readings[..i];
      EarlierWins(MergeAll(base, init, now), last, now);
      assert readings[..i + 1][..i] == readings[..i];
      EarlierWins(MergeAll(base, readings[..i], now), readings[i], now);
      DiscoveryOfList(base, init, i, now);
    } else {
      assert readings[..i] == readings;
    }
  }

  lemma LargerUptime(p: Info, q: Info, n: Time)
    ensures var u, v, w := p.network.uptimeSeconds, q.network.uptimeSeconds, Merge(p, q, n).network.uptimeSeconds;
            w == (if v == 0 then u else if u == 0 then v else if u >= v then u else v)
    ensures Merge(p, q, n).network.duplexSupported <==> p.network.duplexSupported || q.network.duplexSupported
    ensures Merge(p, q, n).unmerged == p.unmerged
  {
  }

  /** The uptime is the largest that is not zero; duplex is supported if any reading
      says so; what no merge looks at stays the base's. */
  lemma {:induction false} UptimeOfList(base: Info, readings: seq<Info>, now: Time)
    ensures var all, u := [base] + readings, MergeAll(base, readings, now).network.uptimeSeconds;
            && (forall r | r in all && r.network.uptimeSeconds != 0 :: u != 0 && r.network.uptimeSeconds <= u)
            && (exists r | r in all :: r.network.uptimeSeconds == u)
            && (MergeAll(base, readings, now).network.duplexSupported <==> exists r | r in all :: r.network.duplexSupported)
    ensures MergeAll(base, readings, now).unmerged == base.unmerged
  {
    hide Merge;
    if readings != [] {
      var init, last := readings[..|readings| - 1], readings[|readings| - 1];
      var before, all := [base] + init, [base] + readings;
      UptimeOfList(base, init, now);
      LargerUptime(MergeAll(base, init, now), last, now);
      assert all == before + [last];
      assert forall r :: r in all <==> r in before || r == last;
    } else {
      assert forall r :: r in [base] + readings <==> r == base;
    }
  }

  lemma LevelAfter(p: Info, q: Info, n: Time, k: string)
    ensures var a, b, c := p.tonerLevels, q.tonerLevels, Merge(p, q, n).tonerLevels;
            && (k in c <==> k in a || k in b)
            && (k in b && b[k] != 0 ==> c[k] == b[k])
            && (k in a && !(k in b && b[k] != 0) ==> c[k] == a[k])
            && (k in b && b[k] == 0 && k !in a ==> c[k] == 0)
    ensures var a, b, c := p.paperTrayStatus, q.paperTrayStatus, Merge(p, q, n).paperTrayStatus;
            && (k in c <==> k in a || k in b)
            && (k in b ==> c[k] == b[k]) && (k in a && k !in b ==> c[k] == a[k])
  {
  }

  predicate KnowsLevel(r: Info, k: string) {
    k in r.tonerLevels && r.tonerLevels[k] != 0
  }

  /** A toner level is the last one that is not zero, or else the base's; a supply
      that only ever had none stands at zero. */
  lemma {:induction false} LevelOfList(base: Info, readings: seq<Info>, k: string, i: int, now: Time)
    requires -1 <= i < |readings| && (i >= 0 ==> KnowsLevel(readings[i], k))
    requires forall j | i < j < |readings| :: !KnowsLevel(readings[j], k)
    ensures var levels := MergeAll(base, readings, now).tonerLevels;
            && (k in levels <==> k in base.tonerLevels || exists r | r in readings :: k in r.tonerLevels)
            && (k in levels ==>
                  levels[k] == if i >= 0 then readings[i].tonerLevels[k]
                               else if k in base.tonerLevels then base.tonerLevels[k] else 0)
    decreases |readings|
  {
    hide Merge;
    if readings != [] {
      var init, last := readings[..|readings| - 1], readings[|readings| - 1];
      LevelAfter(MergeAll(base, init, now), last, now, k);
      assert readings == init + [last];
      if i < |init| {
        LevelOfList(base, init, k, i, now);
      } else {
        SupplyIsListed(base, init, k, now);
      }
    }
  }

  lemma {:induction false} SupplyIsListed(base: Info, readings: seq<Info>, k: string, now: Time)
    ensures k in MergeAll(base, readings, now).tonerLevels <==>
              k in base.tonerLevels || exists r | r in readings :: k in r.tonerLevels
  {
    hide Merge;
    if readings != [] {
      var init, last := readings[..|readings| - 1], readings[|readings| - 1];
      LevelAfter(MergeAll(base, init, now), last, now, k);
      SupplyIsListed(base, init, k, now);
      assert readings == init + [last];
    }
  }

  /** A tray's status is the last one reported, or the base's. */
  lemma {:induction false} TrayOfList(base: Info, readings: seq<Info>, k: string, i: int, now: Time)
    requires -1 <= i < |readings| && (if i >= 0 then k in readings[i].paperTrayStatus else k in base.paperTrayStatus)
    requires forall j | i < j < |readings| :: k !in readings[j].paperTrayStatus
    ensures var trays := MergeAll(base, readings, now).paperTrayStatus;
            k in trays && trays[k] == (if i >= 0 then readings[i] else base).paperTrayStatus[k]
    decreases |readings|
  {
    hide Merge;
    if readings != [] {
      var init, last := readings[..|readings| - 1], readings[|readings| - 1];
      LevelAfter(MergeAll(base, init, now), last, now, k);
      if i < |init| {
        TrayOfList(base, init, k, i, now);
      }
    }
  }

  /** Each of the four lists holds the strings of all readings but blanks. */
  lemma {:induction false} ListsOfList(base: Info, readings: seq<Info>, x: string, now: Time)
    requires x != "" && readings != []
    ensures var m, all := MergeAll(base, readings, now).lists, [base] + readings;
            && (x in m.consumables <==> exists r | r in all :: x in r.lists.consumables)
            && (x in m.tonerAlerts <==> exists r | r in all :: x in r.lists.tonerAlerts)
            && (x in m.statusMessages <==> exists r | r in all :: x in r.lists.statusMessages)
            && (x in m.detectionReasons <==> exists r | r in all :: x in r.lists.detectionReasons)
  {
    hide Merge;
    var init, last := readings[..|readings| - 1], readings[|readings| - 1];
    var before, all := [base] + init, [base] + readings;
    assert all == before + [last];
    assert forall r :: r in all <==> r in before || r == last;
    ListsAfter(MergeAll(base, init, now), last, now, x);
    if init != [] {
      ListsOfList(base, init, x, now);
    } else {
      assert before == [base];
    }
  }

  lemma ListsAfter(p: Info, q: Info, n: Time, x: string)
    requires x != ""
    ensures var a, b, c := p.lists, q.lists, Merge(p, q, n).lists;
            && (x in c.consumables <==> x in a.consumables || x in b.consumables)
            && (x in c.tonerAlerts <==> x in a.tonerAlerts || x in b.tonerAlerts)
            && (x in c.statusMessages <==> x in a.statusMessages || x in b.statusMessages)
            && (x in c.detectionReasons <==> x in a.detectionReasons || x in b.detectionReasons)
  {
    hide Union;
    InUnion(p.lists.consumables, q.lists.consumables, x);
    InUnion(p.lists.tonerAlerts, q.lists.tonerAlerts, x);
    InUnion(p.lists.statusMessages, q.lists.statusMessages, x);
    InUnion(p.lists.detectionReasons, q.lists.detectionReasons, x);
  }

  lemma InUnion(a: seq<string>, b: seq<string>, x: string)
    requires x != ""
    ensures x in Union(a, b) <==> x in a || x in b
  {
    hide Union;
    UnionElements(a, b);
    InElements(Union(a, b), x);
    InElements(a, x);
    InElements(b, x);
  }

  predicate HasMono(c: Counters) {
    c.totalMonoImpressions != 0 || c.pageCount != 0
  }

  /** The monochrome total of the merged record comes from the last reading that
      had either counter; its page count outranks older monochrome totals. */
  lemma {:induction false} MonoTotalOfList(base: Info, readings: seq<Info>, i: nat, now: Time)
    requires i < |readings| && HasMono(readings[i].counters)
    requires forall j | i < j < |readings| :: !HasMono(readings[j].counters)
    ensures MergeAll(base, readings, now).counters.totalMonoImpressions ==
            var c := readings[i].counters; if c.totalMonoImpressions != 0 then c.totalMonoImpressions else c.pageCount
    decreases |readings|
  {
    var init, last := readings[..|readings| - 1], readings[|readings| - 1];
    assert readings == init + [last];
    CountersOf(MergeAll(base, init, now), last, now);
    if i < |init| {
      MonoTotalOfList(base, init, i, now);
    }
  }

  lemma CountersOf(p: Info, q: Info, n: Time)
    ensures Merge(p, q, n).counters.totalMonoImpressions ==
            MonoTotal(p.counters.totalMonoImpressions, q.counters.pageCount, q.counters.totalMonoImpressions)
  {
  }

  // ----- the maps and the function itself -----

  /** A map that is updated where it stands and may be shared. */
  class MapObject<V> {
    var entries: map<string, V>

    constructor ()
      ensures entries == map[]
    {
      entries := map[];
    }
  }

  type Record = PrinterInfo<MapObject?<int>, MapObject?<string>>

  function Levels(r: Record): map<string, int>
    reads r.tonerLevels
  {
    if r.tonerLevels == null then map[] else r.tonerLevels.entries
  }

  function Trays(r: Record): map<string, string>
    reads r.paperTrayStatus
  {
    if r.paperTrayStatus == null then map[] else r.paperTrayStatus.entries
  }

  /** The reading a record holds; a nil map reads as an empty one. */
  function Value(r: Record): Info
    reads r.tonerLevels, r.paperTrayStatus
  {
    PrinterInfo(r.identity, r.counters, Levels(r), r.lists, r.network, Trays(r), r.lastSeen, r.discovery, r.unmerged)
  }

  method MergeLevels(base: MapObject<int>, extra: MapObject?<int>)
    modifies base
    ensures base.entries == Toner(old(base.entries), if extra == null then map[] else old(extra.entries))
  {
    if extra == null {
      return;
    }
    ghost var was, all := base.entries, extra.entries;
    ghost var done: set<string> := {};
    var keys := extra.entries.Keys;
    while keys != {}
      invariant keys + done == all.Keys && keys !! done
      invariant extra.entries == all
      invariant base.entries == Toner(was, map k | k in done :: all[k])
      decreases keys
    {
      var k :| k in keys;
      var v := extra.entries[k];
      if v != 0 {
        base.entries := base.entries[k := v];
      } else if k !in base.entries {
        base.entries := base.entries[k := v];
      }
      keys := keys - {k};
      done := done + {k};
    }
    assert (map k | k in done :: all[k]) == all;
  }

  method MergeTrays(base: MapObject<string>, extra: MapObject?<string>)
    modifies base
    ensures base.entries == old(base.entries) + if extra == null then map[] else old(extra.entries)
  {
    if extra == null {
      return;
    }
    ghost var was, all := base.entries, extra.entries;
    ghost var done: set<string> := {};
    var keys := extra.entries.Keys;
    while keys != {}
      invariant keys + done == all.Keys && keys !! done
      invariant extra.entries == all
      invariant base.entries == was + map k | k in done :: all[k]
      decreases keys
    {
      var k :| k in keys;
      base.entries := base.entries[k := extra.entries[k]];
      keys := keys - {k};
      done := done + {k};
    }
    assert (map k | k in done :: all[k]) == all;
  }

  /** The loop every list is merged with. */
  method MergeLists(base: seq<string>, extra: seq<string>) returns (merged: seq<string>)
    ensures merged == Union(base, extra)
  {
    hide *;
    var seen: set<string> := {};
    merged := [];
    StartOfLists(base, extra);
    for i := 0 to |base|
      invariant merged == NonEmpty(base[..i]) && seen == Elements(merged)
    {
      NonEmptyStep(base, i);
      if base[i] == "" {
        continue;
      }
      seen := seen + {base[i]};
      merged := merged + [base[i]];
    }
    assert base[..|base|] == base;
    assert merged + [] == merged && Elements(NonEmpty(base)) + ({} - {""}) == Elements(NonEmpty(base));
    ghost var known := Elements(NonEmpty(base));
    for i := 0 to |extra|
      invariant merged == NonEmpty(base) + Unseen(extra[..i], known)
      invariant seen == known + (Elements(extra[..i]) - {""})
    {
      UnseenStep(extra, i, known);
      if extra[i] == "" || extra[i] in seen {
        continue;
      }
      seen := seen + {extra[i]};
      merged := merged + [extra[i]];
    }
    assert extra[..|extra|] == extra;
    UnionParts(base, extra);
  }

  lemma StartOfLists(base: seq<string>, extra: seq<string>)
    ensures NonEmpty(base[..0]) == [] && Elements([]) == {} && Elements(extra[..0]) == {}
    ensures forall seen :: Unseen(extra[..0], seen) == []
  {
  }

  method MergeAllLists(base: Lists, extra: Lists) returns (r: Lists)
    ensures r == MergedLists(base, extra)
  {
    var consumables := MergeLists(base.consumables, extra.consumables);
    var alerts := MergeLists(base.tonerAlerts, extra.tonerAlerts);
    var messages := MergeLists(base.statusMessages, extra.statusMessages);
    var reasons := MergeLists(base.detectionReasons, extra.detectionReasons);
    return Lists(consumables, alerts, messages, reasons);
  }

  lemma NonEmptyStep(s: seq<string>, i: nat)
    requires i < |s|
    ensures NonEmpty(s[..i + 1]) == NonEmpty(s[..i]) + if s[i] == "" then [] else [s[i]]
    ensures Elements(NonEmpty(s[..i + 1])) == Elements(NonEmpty(s[..i])) + if s[i] == "" then {} else {s[i]}
  {
    assert s[..i + 1][..i] == s[..i];
    ElementsOfConcat(NonEmpty(s[..i]), if s[i] == "" then [] else [s[i]]);
  }

  lemma UnseenStep(s: seq<string>, i: nat, seen: set<string>)
    requires i < |s|
    ensures Unseen(s[..i + 1], seen) ==
            Unseen(s[..i], seen) + if s[i] == "" || s[i] in seen || s[i] in Elements(s[..i]) then [] else [s[i]]
    ensures Elements(s[..i + 1]) == Elements(s[..i]) + {s[i]}
  {
    assert s[..i + 1][..i] == s[..i];
    ElementsOfConcat(s[..i], [s[i]]);
    assert s[..i + 1] == s[..i] + [s[i]];
  }

  /** Strings: a reading that has one wins. */
  method MergeIdentity(base: Identity, extra: Identity) returns (r: Identity)
    ensures r == MergedIdentity(base, extra)
  {
    r := base;
    if extra.manufacturer != "" {
      r := r.(manufacturer := extra.manufacturer);
    }
    if extra.model != "" {
      r := r.(model := extra.model);
    }
    if extra.serial != "" {
      r := r.(serial := extra.serial);
    }
    if extra.adminContact != "" {
      r := r.(adminContact := extra.adminContact);
    }
    if extra.assetId != "" {
      r := r.(assetId := extra.assetId);
    }
  }

  /** Counters: a reading that is not zero wins. */
  method MergeCounters(base: Counters, extra: Counters) returns (r: Counters)
    ensures r == MergedCounters(base, extra)
  {
    r := base;
    if extra.pageCount != 0 {
      r := r.(pageCount := extra.pageCount, totalMonoImpressions := extra.pageCount);
    }
    if extra.totalMonoImpressions != 0 {
      r := r.(totalMonoImpressions := extra.totalMonoImpressions);
    }
    if extra.monoImpressions != 0 {
      r := r.(monoImpressions := extra.monoImpressions);
    }
    if extra.colorImpressions != 0 {
      r := r.(colorImpressions := extra.colorImpressions);
    }
    if extra.blackImpressions != 0 {
      r := r.(blackImpressions := extra.blackImpressions);
    }
    if extra.cyanImpressions != 0 {
      r := r.(cyanImpressions := extra.cyanImpressions);
    }
    if extra.magentaImpressions != 0 {
      r := r.(magentaImpressions := extra.magentaImpressions);
    }
    if extra.yellowImpressions != 0 {
      r := r.(yellowImpressions := extra.yellowImpressions);
    }
  }

  /** Firmware, network, uptime and duplex. */
  method MergeNetwork(base: Network, extra: Network) returns (r: Network)
    ensures r == MergedNetwork(base, extra)
  {
    r := base;
    if extra.firmware != "" {
      r := r.(firmware := extra.firmware);
    }
    if extra.subnetMask != "" {
      r := r.(subnetMask := extra.subnetMask);
    }
    if extra.gateway != "" {
      r := r.(gateway := extra.gateway);
    }
    if |extra.dnsServers| > 0 {
      r := r.(dnsServers := extra.dnsServers);
    }
    if extra.hostname != "" {
      r := r.(hostname := extra.hostname);
    }
    if extra.uptimeSeconds != 0 {
      if r.uptimeSeconds == 0 || extra.uptimeSeconds > r.uptimeSeconds {
        r := r.(uptimeSeconds := extra.uptimeSeconds);
      }
    }
    if extra.duplexSupported {
      r := r.(duplexSupported := true);
    }
  }

  /** What the first scan found out about the host is kept. */
  method MergeDiscovery(base: Discovery, extra: Discovery) returns (r: Discovery)
    ensures r == MergedDiscovery(base, extra)
  {
    r := base;
    if r.mac == "" && extra.mac != "" {
      r := r.(mac := extra.mac);
    }
    if |r.openPorts| == 0 && |extra.openPorts| > 0 {
      r := r.(openPorts := extra.openPorts);
    }
    if |r.discoveryMethods| == 0 && |extra.discoveryMethods| > 0 {
      r := r.(discoveryMethods := extra.discoveryMethods);
    }
  }

  /** The base record's own maps are updated; a nil map is replaced by a new one. */
  method MergePrinterInfo(base: Record, extra: Record, now: Time) returns (merged: Record)
    modifies base.tonerLevels, base.paperTrayStatus
    ensures Value(merged) == Merge(old(Value(base)), old(Value(extra)), now)
    ensures merged.tonerLevels != null && merged.paperTrayStatus != null
    ensures if base.tonerLevels == null then fresh(merged.tonerLevels) else merged.tonerLevels == base.tonerLevels
    ensures if base.paperTrayStatus == null then fresh(merged.paperTrayStatus)
            else merged.paperTrayStatus == base.paperTrayStatus
  {
    var identity := MergeIdentity(base.identity, extra.identity);
    var counters := MergeCounters(base.counters, extra.counters);
    var levels := base.tonerLevels;
    if levels == null {
      levels := new MapObject<int>();
    }
    MergeLevels(levels, extra.tonerLevels);
    var lists := MergeAllLists(base.lists, extra.lists);
    var network := MergeNetwork(base.network, extra.network);
    var trays := base.paperTrayStatus;
    if trays == null {
      trays := new MapObject<string>();
    }
    MergeTrays(trays, extra.paperTrayStatus);
    var lastSeen := base.lastSeen;
    if extra.lastSeen != ZERO_TIME {
      lastSeen := extra.lastSeen;
    }
    var discovery := MergeDiscovery(base.discovery, extra.discovery);
    if lastSeen == ZERO_TIME {
      lastSeen := now;
    }
    return PrinterInfo(identity, counters, levels, lists, network, trays, lastSeen, discovery, base.unmerged);
  }
}
