/** The per-client limiter of failed authentications (server/auth_ratelimit.go).

    The pure part describes one lock-protected call as `Step` on a table of
    records; the class `AuthRateLimiter` mutates shared record objects in place
    and is proved to follow `Step`. Every theorem is about runs of `Step`. */
module AuthRateLimit {
  import opened Common

  /** Clock readings are positive; `ZERO_TIME` stands for the zero `time.Time`. */
  const ZERO_TIME := 0

  datatype Config = Config(maxAttempts: int, blockDuration: int, attemptsWindow: int)

  datatype Record = Record(firstAttempt: int, lastAttempt: int, failureCount: int,
                           blockedUntil: int, lastLoggedCount: int)

  type Table = map<string, Record>

  datatype Verdict = Verdict(blocked: bool, shouldLog: bool, count: int)

  datatype Op =
    | Failure(key: string)
    | Query(key: string)
    | Success(key: string)
    | Stats
    | Cleanup

  datatype Event = Event(op: Op, now: int)

  /** What a caller sees of one call. Of the statistics only the number of
      blocked clients is meant to survive garbage collection. */
  datatype Observation =
    | FailureSeen(verdict: Verdict)
    | QuerySeen(blocked: bool, until: int)
    | StatsSeen(blockedClients: nat)
    | Silent

  // ----- one call on the table -----

  function Lookup(t: Table, k: string): Option<Record> {
    if k in t then Some(t[k]) else None
  }

  function FailureOutcome(cfg: Config, prior: Option<Record>, now: int): (Record, Verdict) {
    match prior
    case None =>
      (Record(now, now, 1, ZERO_TIME, 0), Verdict(false, true, 1))
    case Some(r) =>
      var count := r.failureCount + 1;
      if now < r.blockedUntil then
        (r.(lastAttempt := now, failureCount := count), Verdict(true, count % 10 == 0, count))
      else if now - r.firstAttempt > cfg.attemptsWindow then
        (Record(now, now, 1, r.blockedUntil, 0), Verdict(false, true, 1))
      else if count >= cfg.maxAttempts then
        (r.(lastAttempt := now, failureCount := count, blockedUntil := now + cfg.blockDuration),
         Verdict(true, true, count))
      else
        var shouldLog := count <= cfg.maxAttempts || count - r.lastLoggedCount >= 5;
        (r.(lastAttempt := now, failureCount := count,
            lastLoggedCount := if shouldLog then count else r.lastLoggedCount),
         Verdict(false, shouldLog, count))
  }

  /** A failure is logged exactly if no block is running or it is a tenth one: below
      the maximum every failure is, so the rule of every fifth never decides. */
  lemma LoggedIff(cfg: Config, prior: Option<Record>, now: int)
    ensures FailureOutcome(cfg, prior, now).1.shouldLog <==>
              !IsBlockedAt(prior, now) || (prior.value.failureCount + 1) % 10 == 0
  {
  }

  predicate IsBlockedAt(prior: Option<Record>, now: int) {
    prior.Some? && now < prior.value.blockedUntil
  }

  function BlockedKeys(t: Table, now: int): set<string> {
    set k | k in t && now < t[k].blockedUntil
  }

  predicate Collectable(cfg: Config, r: Record, now: int) {
    || (now > r.blockedUntil && now - r.lastAttempt > cfg.attemptsWindow)
    || now - r.lastAttempt > cfg.blockDuration * 2
  }

  function Step(cfg: Config, t: Table, e: Event): (Table, Observation) {
    match e.op
    case Failure(k) =>
      var (r, v) := FailureOutcome(cfg, Lookup(t, k), e.now);
      (t[k := r], FailureSeen(v))
    case Query(k) =>
      (t, if IsBlockedAt(Lookup(t, k), e.now) then QuerySeen(true, t[k].blockedUntil)
          else QuerySeen(false, ZERO_TIME))
    case Success(k) =>
      (t - {k}, Silent)
    case Stats =>
      (t, StatsSeen(|BlockedKeys(t, e.now)|))
    case Cleanup =>
      (map k | k in t && !Collectable(cfg, t[k], e.now) :: t[k], Silent)
  }

  // ----- runs -----

  function Run(cfg: Config, t: Table, es: seq<Event>): Table {
    if es == [] then t
    else Step(cfg, Run(cfg, t, es[..|es| - 1]), es[|es| - 1]).0
  }

  /** The observations of every call except the collector's own steps. */
  function Observations(cfg: Config, t: Table, es: seq<Event>): seq<Observation> {
    if es == [] then []
    else
      var before, e := es[..|es| - 1], es[|es| - 1];
      Observations(cfg, t, before)
      + (if e.op.Cleanup? then [] else [Step(cfg, Run(cfg, t, before), e).1])
  }

  function WithoutCleanup(es: seq<Event>): seq<Event> {
    if es == [] then []
    else
      var before, e := es[..|es| - 1], es[|es| - 1];
      WithoutCleanup(before) + (if e.op.Cleanup? then [] else [e])
  }

  /** The clock never runs backwards and never reads less than `start`. */
  ghost predicate Timed(es: seq<Event>, start: int) {
    && (forall i | 0 <= i < |es| :: start <= es[i].now)
    && (forall i, j | 0 <= i < j < |es| :: es[i].now <= es[j].now)
  }

  function LastTime(es: seq<Event>, start: int): int {
    if es == [] then start else es[|es| - 1].now
  }

  // ----- what every run keeps -----

  predicate RecordOk(cfg: Config, r: Record, now: int) {
    && 1 <= r.firstAttempt <= r.lastAttempt <= now
    && 1 <= r.failureCount
    && (r.blockedUntil == ZERO_TIME || r.blockedUntil <= r.lastAttempt + cfg.blockDuration)
  }

  ghost predicate TableOk(cfg: Config, t: Table, now: int) {
    forall k | k in t :: RecordOk(cfg, t[k], now)
  }

  lemma StepKeepsTableOk(cfg: Config, t: Table, e: Event, before: int)
    requires TableOk(cfg, t, before) && before <= e.now && 1 <= e.now
    ensures TableOk(cfg, Step(cfg, t, e).0, e.now)
  {
  }

  lemma {:induction false} RunKeepsTableOk(cfg: Config, es: seq<Event>)
    requires Timed(es, 1)
    ensures TableOk(cfg, Run(cfg, map[], es), LastTime(es, 1))
  {
    if es != [] {
      var before := es[..|es| - 1];
      RunKeepsTableOk(cfg, before);
      StepKeepsTableOk(cfg, Run(cfg, map[], before), es[|es| - 1], LastTime(before, 1));
    }
  }

  // ----- garbage collection cannot be observed -----

  predicate Harmless(cfg: Config) {
    cfg.attemptsWindow < 0 || cfg.attemptsWindow <= cfg.blockDuration * 2
  }

  /** A record whose absence no later call can notice. */
  predicate Stale(cfg: Config, r: Record, now: int) {
    r.blockedUntil <= now && now - r.firstAttempt > cfg.attemptsWindow
  }

  /** Equal up to two expired blocks. */
  predicate SameRecord(r: Record, s: Record, now: int) {
    && r == s.(blockedUntil := r.blockedUntil)
    && (r.blockedUntil == s.blockedUntil || (r.blockedUntil <= now && s.blockedUntil <= now))
  }

  /** `t` is the collected table and `u` the one nothing was removed from. */
  ghost predicate Similar(cfg: Config, t: Table, u: Table, now: int) {
    && (forall k | k in t :: k in u && SameRecord(t[k], u[k], now))
    && (forall k | k in u && k !in t :: Stale(cfg, u[k], now))
  }

  lemma CleanupStaysSimilar(cfg: Config, t: Table, u: Table, before: int, e: Event)
    requires Harmless(cfg) && e.op.Cleanup?
    requires Similar(cfg, t, u, before) && TableOk(cfg, t, before) && before <= e.now && 1 <= e.now
    ensures Similar(cfg, Step(cfg, t, e).0, u, e.now)
  {
    var t' := Step(cfg, t, e).0;
    forall k | k in u && k !in t'
      ensures Stale(cfg, u[k], e.now)
    {
      if k in t {
        assert RecordOk(cfg, t[k], before) && Collectable(cfg, t[k], e.now);
      }
    }
  }

  lemma CallStaysSimilar(cfg: Config, t: Table, u: Table, before: int, e: Event)
    requires !e.op.Cleanup?
    requires Similar(cfg, t, u, before) && before <= e.now && 1 <= e.now
    ensures Similar(cfg, Step(cfg, t, e).0, Step(cfg, u, e).0, e.now)
    ensures Step(cfg, t, e).1 == Step(cfg, u, e).1
  {
    assert BlockedKeys(t, e.now) == BlockedKeys(u, e.now);
  }

  lemma {:induction false} CollectedRunIsSimilar(cfg: Config, es: seq<Event>)
    requires Harmless(cfg) && Timed(es, 1)
    ensures Similar(cfg, Run(cfg, map[], es), Run(cfg, map[], WithoutCleanup(es)), LastTime(es, 1))
    ensures Observations(cfg, map[], es) == Observations(cfg, map[], WithoutCleanup(es))
  {
    if es != [] {
      var before, e := es[..|es| - 1], es[|es| - 1];
      CollectedRunIsSimilar(cfg, before);
      RunKeepsTableOk(cfg, before);
      var t, u := Run(cfg, map[], before), Run(cfg, map[], WithoutCleanup(before));
      if e.op.Cleanup? {
        CleanupStaysSimilar(cfg, t, u, LastTime(before, 1), e);
        assert WithoutCleanup(es) == WithoutCleanup(before);
      } else {
        CallStaysSimilar(cfg, t, u, LastTime(before, 1), e);
        assert WithoutCleanup(es)[..|WithoutCleanup(before)|] == WithoutCleanup(before);
      }
    }
  }

  ghost predicate CleanupInvisible(cfg: Config, es: seq<Event>) {
    Observations(cfg, map[], es) == Observations(cfg, map[], WithoutCleanup(es))
  }

  /** A run in which the collector forgets a failure that still counts. */
  function ForgetfulRun(cfg: Config, k: string): seq<Event> {
    var later := ForgetTime(cfg);
    [Event(Failure(k), 1), Event(Cleanup, later), Event(Failure(k), later)]
  }

  function ForgetTime(cfg: Config): int {
    1 + if cfg.blockDuration < 0 then 0 else cfg.blockDuration * 2 + 1
  }

  lemma ForgetfulRunIsVisible(cfg: Config, k: string)
    requires !Harmless(cfg)
    ensures Timed(ForgetfulRun(cfg, k), 1) && !CleanupInvisible(cfg, ForgetfulRun(cfg, k))
  {
    var first, middle, last := Event(Failure(k), 1), Event(Cleanup, ForgetTime(cfg)), Event(Failure(k), ForgetTime(cfg));
    RunOfOne(cfg, first);
    var obs := Observations(cfg, map[], [first]);
    CollectedSecond(cfg, k, [first], middle, last);
    KeptSecond(cfg, k, [first], last);
    assert ForgetfulRun(cfg, k) == [first] + [middle] + [last];
    assert (obs + [FailureSeen(Verdict(false, true, 1))])[|obs|].verdict.count == 1;
    var v: Verdict :| v.count == 2 && Observations(cfg, map[], [first] + [last]) == obs + [FailureSeen(v)];
    assert Observations(cfg, map[], [first] + [last])[|obs|].verdict.count == 2;
  }

  lemma CollectedSecond(cfg: Config, k: string, es: seq<Event>, middle: Event, last: Event)
    requires !Harmless(cfg) && Run(cfg, map[], es) == map[k := Record(1, 1, 1, ZERO_TIME, 0)]
    requires |Observations(cfg, map[], es)| == 1
    requires middle == Event(Cleanup, ForgetTime(cfg)) && last == Event(Failure(k), ForgetTime(cfg))
    ensures Observations(cfg, map[], es + [middle] + [last])
         == Observations(cfg, map[], es) + [FailureSeen(Verdict(false, true, 1))]
    ensures WithoutCleanup(es + [middle] + [last]) == WithoutCleanup(es) + [last]
  {
    RunPush(cfg, es, middle);
    RunPush(cfg, es + [middle], last);
    assert Run(cfg, map[], es + [middle]) == map[];
  }

  lemma KeptSecond(cfg: Config, k: string, es: seq<Event>, last: Event)
    requires !Harmless(cfg) && Run(cfg, map[], es) == map[k := Record(1, 1, 1, ZERO_TIME, 0)]
    requires last == Event(Failure(k), ForgetTime(cfg))
    ensures exists v: Verdict :: v.count == 2
              && Observations(cfg, map[], es + [last]) == Observations(cfg, map[], es) + [FailureSeen(v)]
  {
    RunPush(cfg, es, last);
    var v := FailureOutcome(cfg, Some(Record(1, 1, 1, ZERO_TIME, 0)), ForgetTime(cfg)).1;
    assert v.count == 2;
  }

  lemma RunOfOne(cfg: Config, e: Event)
    requires !e.op.Cleanup?
    ensures Run(cfg, map[], [e]) == Step(cfg, map[], e).0
    ensures Observations(cfg, map[], [e]) == [Step(cfg, map[], e).1]
    ensures WithoutCleanup([e]) == [e]
  {
    assert [e][..0] == [];
  }

  lemma RunPush(cfg: Config, es: seq<Event>, e: Event)
    ensures Run(cfg, map[], es + [e]) == Step(cfg, Run(cfg, map[], es), e).0
    ensures Observations(cfg, map[], es + [e]) == Observations(cfg, map[], es)
              + if e.op.Cleanup? then [] else [Step(cfg, Run(cfg, map[], es), e).1]
    ensures WithoutCleanup(es + [e]) == WithoutCleanup(es) + if e.op.Cleanup? then [] else [e]
  {
    assert (es + [e])[..|es|] == es;
  }

  /** Garbage collection is invisible in every run exactly when the counting
      window is no longer than two block durations (or is negative). */
  lemma CleanupIsInvisibleIff(cfg: Config)
    ensures (forall es | Timed(es, 1) :: CleanupInvisible(cfg, es)) <==> Harmless(cfg)
  {
    if Harmless(cfg) {
      forall es | Timed(es, 1) ensures CleanupInvisible(cfg, es) {
        CollectedRunIsSimilar(cfg, es);
      }
    } else {
      ForgetfulRunIsVisible(cfg, "k");
    }
  }

  // ----- blocks are justified -----

  function FailuresOf(es: seq<Event>, k: string): nat {
    if es == [] then 0
    else FailuresOf(es[..|es| - 1], k) + if es[|es| - 1].op == Failure(k) then 1 else 0
  }

  /** The `count` last failures of `k` in `es`: no success since, all of them
      at or after `since`. */
  ghost predicate RecentFailures(es: seq<Event>, k: string, s: nat, since: int, count: int) {
    && s <= |es|
    && (forall i | s <= i < |es| :: es[i].op != Success(k))
    && (forall i | s <= i < |es| && es[i].op == Failure(k) :: since <= es[i].now)
    && FailuresOf(es[s..], k) == count
  }

  lemma RecentFailuresPush(es: seq<Event>, k: string, s: nat, since: int, count: int, e: Event)
    requires RecentFailures(es, k, s, since, count)
    requires e.op != Success(k) && (e.op == Failure(k) ==> since <= e.now)
    ensures RecentFailures(es + [e], k, s, since, count + if e.op == Failure(k) then 1 else 0)
  {
    assert (es + [e])[s..] == es[s..] + [e];
    assert (es[s..] + [e])[..|es[s..]|] == es[s..];
  }

  /** A call either extends the history a record counts or starts it afresh. */
  lemma StepExtendsHistory(cfg: Config, t: Table, e: Event, k: string)
    requires k in Step(cfg, t, e).0
    requires k in t ==> t[k].failureCount >= 1
    ensures var r := Step(cfg, t, e).0[k];
            || (e.op == Failure(k) && r.failureCount == 1 && r.firstAttempt == e.now)
            || (&& k in t && e.op != Success(k) && r.firstAttempt == t[k].firstAttempt
                && r.failureCount == t[k].failureCount + if e.op == Failure(k) then 1 else 0)
  {
  }

  /** A record's counter is the number of failures of its key since the window
      it counts in began. */
  lemma {:induction false} CountIsHistory(cfg: Config, es: seq<Event>, k: string)
    requires Timed(es, 1) && k in Run(cfg, map[], es)
    ensures var r := Run(cfg, map[], es)[k];
            exists s: nat :: RecentFailures(es, k, s, r.firstAttempt, r.failureCount)
  {
    var before, e := es[..|es| - 1], es[|es| - 1];
    var t, r := Run(cfg, map[], before), Run(cfg, map[], es)[k];
    assert es == before + [e];
    RunKeepsTableOk(cfg, before);
    assert k in t ==> RecordOk(cfg, t[k], LastTime(before, 1));
    StepExtendsHistory(cfg, t, e, k);
    if e.op == Failure(k) && r.failureCount == 1 && r.firstAttempt == e.now {
      assert RecentFailures(before, k, |before|, e.now, 0);
      RecentFailuresPush(before, k, |before|, e.now, 0, e);
    } else {
      CountIsHistory(cfg, before, k);
      var s: nat :| RecentFailures(before, k, s, t[k].firstAttempt, t[k].failureCount);
      RecentFailuresPush(before, k, s, t[k].firstAttempt, t[k].failureCount, e);
    }
  }

  /** A failure of `k` at `now` turns a client that was not blocked into a blocked one. */
  predicate BlockStarts(cfg: Config, t: Table, k: string, now: int) {
    && !IsBlockedAt(Lookup(t, k), now)
    && FailureOutcome(cfg, Lookup(t, k), now).1.blocked
  }

  lemma BlockStartRecord(cfg: Config, t: Table, k: string, now: int)
    requires BlockStarts(cfg, t, k, now)
    ensures k in t && t[k].failureCount + 1 >= cfg.maxAttempts && now - t[k].firstAttempt <= cfg.attemptsWindow
  {
  }

  /** A block starts only on top of at least `maxAttempts` failures of the same
      client, this one included, inside one counting window and with no success
      between them. */
  lemma BlocksAreJustified(cfg: Config, es: seq<Event>, k: string, now: int)
    requires Timed(es + [Event(Failure(k), now)], 1)
    requires BlockStarts(cfg, Run(cfg, map[], es), k, now)
    ensures var full := es + [Event(Failure(k), now)];
            exists s: nat | s <= |full| ::
              && RecentFailures(full, k, s, now - cfg.attemptsWindow, FailuresOf(full[s..], k))
              && FailuresOf(full[s..], k) >= cfg.maxAttempts
  {
    hide Run, BlockStarts, FailuresOf;
    var e := Event(Failure(k), now);
    var full := es + [e];
    assert forall i | 0 <= i < |es| :: full[i] == es[i];
    BlockStartRecord(cfg, Run(cfg, map[], es), k, now);
    CountIsHistory(cfg, es, k);
    var r := Run(cfg, map[], es)[k];
    var s: nat :| RecentFailures(es, k, s, r.firstAttempt, r.failureCount);
    RunKeepsTableOk(cfg, es);
    assert RecordOk(cfg, r, LastTime(es, 1));
    assert LastTime(es, 1) <= now by {
      assert full[|es|] == e && 1 <= full[|es|].now;
      if es != [] { assert full[|es| - 1].now <= full[|es|].now; }
    }
    RecentFailuresPush(es, k, s, r.firstAttempt, r.failureCount, e);
    assert RecentFailures(full, k, s, now - cfg.attemptsWindow, r.failureCount + 1);
  }

  // ----- blocks are kept -----

  ghost predicate NoSuccess(es: seq<Event>, k: string) {
    forall i | 0 <= i < |es| :: es[i].op != Success(k)
  }

  lemma {:induction false} BlockPersists(cfg: Config, t: Table, es: seq<Event>, k: string, start: int)
    requires k in t && t[k].blockedUntil == start + cfg.blockDuration && t[k].lastAttempt == start
    requires Timed(es, start) && NoSuccess(es, k)
    requires forall i | 0 <= i < |es| && es[i].op == Failure(k) :: es[i].now < start + cfg.blockDuration
    ensures var u := Run(cfg, t, es);
            if k in u then u[k].blockedUntil == start + cfg.blockDuration && start <= u[k].lastAttempt
            else LastTime(es, start) >= start + cfg.blockDuration
  {
    if es != [] {
      BlockPersists(cfg, t, es[..|es| - 1], k, start);
    }
  }

  /** A block that starts at `start` holds for exactly [start, start + blockDuration):
      whatever happens meanwhile short of a success of that client, every query
      inside the interval reports it with the same end, and no query after the
      interval does unless the client fails again after the end. */
  lemma BlocksAreKept(cfg: Config, t: Table, k: string, start: int, es: seq<Event>, now: int)
    requires BlockStarts(cfg, t, k, start)
    requires Timed(es, start) && LastTime(es, start) <= now && NoSuccess(es, k)
    ensures var u := Run(cfg, Step(cfg, t, Event(Failure(k), start)).0, es);
            var end := start + cfg.blockDuration;
            && (now < end ==> Step(cfg, u, Event(Query(k), now)).1 == QuerySeen(true, end))
            && (now >= end && (forall i | 0 <= i < |es| && es[i].op == Failure(k) :: es[i].now < end)
                ==> Step(cfg, u, Event(Query(k), now)).1 == QuerySeen(false, ZERO_TIME))
  {
    var t' := Step(cfg, t, Event(Failure(k), start)).0;
    var end := start + cfg.blockDuration;
    if forall i | 0 <= i < |es| && es[i].op == Failure(k) :: es[i].now < end {
      BlockPersists(cfg, t', es, k, start);
    } else {
      var i :| 0 <= i < |es| && es[i].op == Failure(k) && es[i].now >= end;
      assert es[i].now <= es[|es| - 1].now;
    }
  }

  // ----- what a failure is answered -----

  /** The answer to a call at the end of a run. */
  function Answer(cfg: Config, t: Table, es: seq<Event>, op: Op, now: int): Observation {
    Step(cfg, Run(cfg, t, es), Event(op, now)).1
  }

  /** Neither the collector nor a success of `k` takes its record away. */
  ghost predicate Undisturbed(es: seq<Event>, k: string) {
    forall i | 0 <= i < |es| :: es[i].op != Cleanup && es[i].op != Success(k)
  }

  /** The failures of `k` all fall within one window of the first event. */
  ghost predicate WithinWindow(cfg: Config, es: seq<Event>, k: string) {
    forall i | 0 < i < |es| && es[i].op == Failure(k) :: es[i].now - es[0].now <= cfg.attemptsWindow
  }

  /** A failure of `k` at `now` is counted as the first of a window. */
  predicate BeginsWindow(cfg: Config, t: Table, k: string, now: int) {
    k in t ==> t[k].blockedUntil <= now && now - t[k].firstAttempt > cfg.attemptsWindow
  }

  lemma {:induction false} WindowCounts(cfg: Config, t: Table, es: seq<Event>, k: string)
    requires es != [] && es[0].op == Failure(k) && BeginsWindow(cfg, t, k, es[0].now)
    requires Timed(es, 1) && Undisturbed(es, k) && WithinWindow(cfg, es, k)
    ensures var u := Run(cfg, t, es);
            && k in u && u[k].firstAttempt == es[0].now && u[k].failureCount == FailuresOf(es, k) >= 1
            && (u[k].blockedUntil <= es[0].now || u[k].failureCount >= cfg.maxAttempts)
  {
    var before, e := es[..|es| - 1], es[|es| - 1];
    if before == [] {
      assert FailuresOf(before, k) == 0 && Run(cfg, t, before) == t;
    } else {
      assert Undisturbed(before, k) && WithinWindow(cfg, before, k) && before[0] == es[0];
      WindowCounts(cfg, t, before, k);
      assert e.op != Cleanup && e.op != Success(k);
    }
  }

  /** In a window with no clean-up and no success of that client, the m-th failure
      is answered blocked exactly if m is at least the maximum; the answer counts m
      failures, and it is to be logged exactly if no block was running or m is a
      multiple of ten. */
  lemma LaterFailureAnswer(cfg: Config, t: Table, es: seq<Event>, k: string, now: int)
    requires es != [] && es[0].op == Failure(k) && BeginsWindow(cfg, t, k, es[0].now)
    requires Timed(es + [Event(Failure(k), now)], 1) && Undisturbed(es, k)
    requires WithinWindow(cfg, es + [Event(Failure(k), now)], k)
    ensures var m := FailuresOf(es, k) + 1;
            var running := Answer(cfg, t, es, Query(k), now).blocked;
            m >= 2 && Answer(cfg, t, es, Failure(k), now) ==
              FailureSeen(Verdict(m >= cfg.maxAttempts, !running || m % 10 == 0, m))
  {
    hide *;
    WindowCounts(cfg, t, es, k) by { Shorter(cfg, es, k, now); }
    Shorter(cfg, es, k, now);
    CountedFailure(cfg, t, es, k, now);
  }

  lemma Shorter(cfg: Config, es: seq<Event>, k: string, now: int)
    requires es != [] && Timed(es + [Event(Failure(k), now)], 1)
    requires WithinWindow(cfg, es + [Event(Failure(k), now)], k)
    ensures Timed(es, 1) && WithinWindow(cfg, es, k) && es[0].now <= now <= es[0].now + cfg.attemptsWindow
  {
    var full := es + [Event(Failure(k), now)];
    assert forall i | 0 <= i < |es| :: full[i] == es[i];
    assert full[|es|].now - full[0].now <= cfg.attemptsWindow && full[0].now <= full[|es|].now;
  }

  lemma CountedFailure(cfg: Config, t: Table, es: seq<Event>, k: string, now: int)
    requires es != [] && es[0].now <= now <= es[0].now + cfg.attemptsWindow
    requires var u := Run(cfg, t, es);
             && k in u && u[k].firstAttempt == es[0].now && u[k].failureCount == FailuresOf(es, k) >= 1
             && (u[k].blockedUntil <= es[0].now || u[k].failureCount >= cfg.maxAttempts)
    ensures var m := FailuresOf(es, k) + 1;
            var running := Answer(cfg, t, es, Query(k), now).blocked;
            Answer(cfg, t, es, Failure(k), now) ==
              FailureSeen(Verdict(m >= cfg.maxAttempts, !running || m % 10 == 0, m))
  {
    hide Run, FailuresOf;
  }

  lemma FirstFailureAnswer(cfg: Config, t: Table, k: string, now: int)
    requires BeginsWindow(cfg, t, k, now)
    ensures Answer(cfg, t, [], Failure(k), now) == FailureSeen(Verdict(false, true, 1))
    ensures Answer(cfg, t, [], Query(k), now) == QuerySeen(false, ZERO_TIME) && FailuresOf([], k) == 0
  {
  }

  lemma {:induction false} RunInTwo(cfg: Config, t: Table, es: seq<Event>, fs: seq<Event>)
    ensures Run(cfg, t, es + fs) == Run(cfg, Run(cfg, t, es), fs)
  {
    if fs == [] {
      assert es + fs == es;
    } else {
      RunInTwo(cfg, t, es, fs[..|fs| - 1]);
      assert (es + fs)[..|es + fs| - 1] == es + fs[..|fs| - 1];
    }
  }

  /** Up to event p nothing is on record of `k`: its last success was event p - 1,
      or p is 0; and since then it has not failed. */
  ghost predicate CleanSince(es: seq<Event>, k: string, p: nat) {
    p <= |es| && (p > 0 ==> es[p - 1].op == Success(k)) && forall i | p <= i < |es| :: es[i].op != Failure(k)
  }

  lemma {:induction false} NothingOnRecord(cfg: Config, es: seq<Event>, k: string, p: nat)
    requires CleanSince(es, k, p)
    ensures k !in Run(cfg, map[], es)
  {
    if es != [] && p < |es| {
      assert es[|es| - 1].op != Failure(k);
      NothingOnRecord(cfg, es[..|es| - 1], k, p);
    }
  }

  /** Over the events of a whole run: when a client has nothing on record after the
      earlier events, its next failures, with no clean-up and no success of its own
      between and all within the window of the first, are answered as not blocked
      up to the maximum and as blocked from it on, the first one excepted. */
  lemma MthFailureIsBlockedIff(cfg: Config, earlier: seq<Event>, p: nat, es: seq<Event>, k: string, now: int)
    requires CleanSince(earlier, k, p) && Timed(earlier + es + [Event(Failure(k), now)], 1)
    requires Undisturbed(es, k) && (es != [] ==> es[0].op == Failure(k))
    requires WithinWindow(cfg, es + [Event(Failure(k), now)], k)
    ensures var m := FailuresOf(es, k) + 1;
            var running := Answer(cfg, map[], earlier + es, Query(k), now).blocked;
            Answer(cfg, map[], earlier + es, Failure(k), now) ==
              FailureSeen(Verdict(m >= 2 && m >= cfg.maxAttempts, !running || m % 10 == 0, m))
  {
    hide *;
    var t, e := Run(cfg, map[], earlier), Event(Failure(k), now);
    NothingOnRecord(cfg, earlier, k, p);
    NoRecordBegins(cfg, t, k, if es == [] then now else es[0].now);
    AnswerInTwo(cfg, earlier, es, Query(k), now);
    AnswerInTwo(cfg, earlier, es, Failure(k), now);
    if es == [] {
      FirstFailureAnswer(cfg, t, k, now);
    } else {
      assert earlier + (es + [e]) == earlier + es + [e];
      TimedSuffix(earlier, es + [e]);
      LaterFailureAnswer(cfg, t, es, k, now);
    }
  }

  lemma NoRecordBegins(cfg: Config, t: Table, k: string, now: int)
    requires k !in t
    ensures BeginsWindow(cfg, t, k, now)
  {
  }

  lemma AnswerInTwo(cfg: Config, earlier: seq<Event>, es: seq<Event>, op: Op, now: int)
    ensures Answer(cfg, map[], earlier + es, op, now) == Answer(cfg, Run(cfg, map[], earlier), es, op, now)
  {
    hide Step, Run;
    RunInTwo(cfg, map[], earlier, es);
  }

  lemma TimedSuffix(earlier: seq<Event>, es: seq<Event>)
    requires Timed(earlier + es, 1)
    ensures Timed(es, 1)
  {
    var full := earlier + es;
    assert forall i | 0 <= i < |es| :: es[i] == full[|earlier| + i];
  }

  /** A failure after the window, when no block is running, is a first one again. */
  lemma WindowEnds(cfg: Config, t: Table, es: seq<Event>, k: string, now: int)
    requires es != [] && es[0].op == Failure(k) && BeginsWindow(cfg, t, k, es[0].now)
    requires Timed(es, 1) && Undisturbed(es, k) && WithinWindow(cfg, es, k)
    requires now - es[0].now > cfg.attemptsWindow && !Answer(cfg, t, es, Query(k), now).blocked
    ensures BeginsWindow(cfg, Run(cfg, t, es), k, now)
    ensures Answer(cfg, t, es, Failure(k), now) == FailureSeen(Verdict(false, true, 1))
  {
    WindowCounts(cfg, t, es, k);
  }

  /** A block starts when a failure is answered blocked that finds none running. */
  lemma BlockStartsIff(cfg: Config, t: Table, k: string, now: int)
    ensures BlockStarts(cfg, t, k, now) <==>
              var answer := Answer(cfg, t, [], Failure(k), now);
              !Answer(cfg, t, [], Query(k), now).blocked && answer.FailureSeen? && answer.verdict.blocked
  {
  }

  /** The statistics count the clients that a query would find blocked. */
  lemma StatsCountBlocked(cfg: Config, t: Table, now: int)
    ensures Answer(cfg, t, [], Stats, now) ==
              StatsSeen(|set k | k in t && Answer(cfg, t, [], Query(k), now).blocked|)
  {
    var blocked := set k | k in t && Answer(cfg, t, [], Query(k), now).blocked;
    assert blocked == BlockedKeys(t, now);
  }

  /** A clean-up keeps the records of clients that failed within twice the block
      duration and are blocked or failed within the window, and no others. */
  lemma CleanupKeepsIff(cfg: Config, t: Table, k: string, now: int)
    requires k in t
    ensures var u := Step(cfg, t, Event(Cleanup, now)).0;
            && (k in u ==> u[k] == t[k])
            && (k in u <==> now <= t[k].lastAttempt + 2 * cfg.blockDuration
                            && (now <= t[k].blockedUntil || now <= t[k].lastAttempt + cfg.attemptsWindow))
  {
  }

  // ----- keys -----

  function MakeKey(ip: string, tokenPrefix: string): string {
    ip + ":" + tokenPrefix
  }

  lemma LastColon(ip: string, tok: string)
    requires ':' !in tok
    ensures MakeKey(ip, tok)[|ip|] == ':'
    ensures forall j | |ip| < j < |MakeKey(ip, tok)| :: MakeKey(ip, tok)[j] != ':'
  {
    forall j | |ip| < j < |MakeKey(ip, tok)| ensures MakeKey(ip, tok)[j] != ':' {
      assert MakeKey(ip, tok)[j] == tok[j - |ip| - 1];
    }
  }

  /** Clients whose token prefixes have no ':' never share a record. */
  lemma MakeKeyIsInjective(ip: string, tok: string, ip': string, tok': string)
    requires ':' !in tok && ':' !in tok' && MakeKey(ip, tok) == MakeKey(ip', tok')
    ensures ip == ip' && tok == tok'
  {
    var key := MakeKey(ip, tok);
    LastColon(ip, tok);
    LastColon(ip', tok');
    assert |ip| == |ip'|;
    assert ip == key[..|ip|] && tok == key[|ip| + 1..];
    assert ip' == key[..|ip'|] && tok' == key[|ip'| + 1..];
  }

  /** A token prefix that contains ':' shares its record with another client. */
  lemma ColonInTokenCollides(ip: string, tok: string, i: nat)
    requires i < |tok| && tok[i] == ':'
    ensures MakeKey(ip, tok) == MakeKey(ip + ":" + tok[..i], tok[i + 1..])
    ensures ip != ip + ":" + tok[..i]
  {
    assert tok == tok[..i] + ":" + tok[i + 1..];
    assert |ip + ":" + tok[..i]| > |ip|;
  }

  // ----- the limiter itself -----

  class AttemptRecord {
    var firstAttempt: int
    var lastAttempt: int
    var failureCount: int
    var blockedUntil: int
    var lastLoggedCount: int

    constructor (now: int)
      ensures Value() == Record(now, now, 1, ZERO_TIME, 0)
    {
      firstAttempt, lastAttempt, failureCount := now, now, 1;
      blockedUntil, lastLoggedCount := ZERO_TIME, 0;
    }

    ghost function Value(): Record
      reads this
    {
      Record(firstAttempt, lastAttempt, failureCount, blockedUntil, lastLoggedCount)
    }

    /** What RecordFailure does to a record that exists. */
    method Fail(ghost cfg: Config, maxAttempts: int, blockDuration: int, attemptsWindow: int, now: int)
      returns (blocked: bool, shouldLog: bool, count: int)
      requires cfg == Config(maxAttempts, blockDuration, attemptsWindow)
      modifies this
      ensures (Value(), Verdict(blocked, shouldLog, count)) == FailureOutcome(cfg, Some(old(Value())), now)
    {
      if now < blockedUntil {
        lastAttempt := now;
        failureCount := failureCount + 1;
        return true, failureCount % 10 == 0, failureCount;
      }
      if now - firstAttempt > attemptsWindow {
        firstAttempt := now;
        lastAttempt := now;
        failureCount := 1;
        lastLoggedCount := 0;
        return false, true, 1;
      }
      lastAttempt := now;
      failureCount := failureCount + 1;
      if failureCount >= maxAttempts {
        blockedUntil := now + blockDuration;
        return true, true, failureCount;
      }
      var n, logged := failureCount, lastLoggedCount;
      shouldLog := n <= maxAttempts || n - logged >= 5;
      if shouldLog {
        lastLoggedCount := failureCount;
      }
      return false, shouldLog, failureCount;
    }
  }

  class AuthRateLimiter {
    var attempts: map<string, AttemptRecord>
    const maxAttempts: int
    const blockDuration: int
    const attemptsWindow: int

    ghost function Cfg(): Config {
      Config(maxAttempts, blockDuration, attemptsWindow)
    }

    /** No two clients share a record. */
    ghost predicate Valid()
      reads this
    {
      forall k, l | k in attempts && l in attempts && attempts[k] == attempts[l] :: k == l
    }

    ghost function Contents(): Table
      reads this, attempts.Values
    {
      map k | k in attempts :: attempts[k].Value()
    }

    constructor (maxAttempts: int, blockDuration: int, attemptsWindow: int)
      ensures Valid() && Contents() == map[]
      ensures Cfg() == Config(maxAttempts, blockDuration, attemptsWindow)
    {
      this.maxAttempts, this.blockDuration, this.attemptsWindow := maxAttempts, blockDuration, attemptsWindow;
      attempts := map[];
    }

    method RecordFailure(ip: string, tokenPrefix: string, now: int)
      returns (blocked: bool, shouldLog: bool, count: int)
      requires Valid()
      modifies this, attempts.Values
      ensures Valid() && fresh(attempts.Values - old(attempts.Values))
      ensures Contents() == Step(Cfg(), old(Contents()), Event(Failure(MakeKey(ip, tokenPrefix)), now)).0
      ensures FailureSeen(Verdict(blocked, shouldLog, count)) == Step(Cfg(), old(Contents()), Event(Failure(MakeKey(ip, tokenPrefix)), now)).1
    {
      var key := MakeKey(ip, tokenPrefix);
      if key !in attempts {
        var added := new AttemptRecord(now);
        attempts := attempts[key := added];
        return false, true, 1;
      }
      var record := attempts[key];
      assert record in attempts.Values;
      assert Lookup(old(Contents()), key) == Some(record.Value());
      blocked, shouldLog, count := record.Fail(Cfg(), maxAttempts, blockDuration, attemptsWindow, now);
      assert Contents() == old(Contents())[key := record.Value()];
    }

    method IsBlocked(ip: string, tokenPrefix: string, now: int) returns (blocked: bool, until: int)
      requires Valid()
      ensures QuerySeen(blocked, until) == Step(Cfg(), Contents(), Event(Query(MakeKey(ip, tokenPrefix)), now)).1
    {
      var key := MakeKey(ip, tokenPrefix);
      if key !in attempts {
        return false, ZERO_TIME;
      }
      var record := attempts[key];
      if now < record.blockedUntil {
        return true, record.blockedUntil;
      }
      return false, ZERO_TIME;
    }

    method RecordSuccess(ip: string, tokenPrefix: string, ghost now: int)
      requires Valid()
      modifies this
      ensures Valid() && attempts.Values <= old(attempts.Values)
      ensures Contents() == Step(Cfg(), old(Contents()), Event(Success(MakeKey(ip, tokenPrefix)), now)).0
    {
      attempts := attempts - {MakeKey(ip, tokenPrefix)};
    }

    method CleanUp(now: int)
      requires Valid()
      modifies this
      ensures Valid() && attempts.Values <= old(attempts.Values)
      ensures Contents() == Step(Cfg(), old(Contents()), Event(Cleanup, now)).0
      ensures Silent == Step(Cfg(), old(Contents()), Event(Cleanup, now)).1
    {
      hide FailureOutcome, MakeKey, Collectable;
      ghost var t := Contents();
      var todo := attempts.Keys;
      while todo != {}
        invariant todo <= attempts.Keys <= old(attempts).Keys
        invariant forall k | k in attempts :: attempts[k] == old(attempts)[k]
        invariant forall k | k in old(attempts) && k !in todo ::
                    k in attempts <==> !Collectable(Cfg(), t[k], now)
        decreases |todo|
      {
        var key :| key in todo;
        assert t[key] == attempts[key].Value();
        RemoveIfOld(key, now);
        todo := todo - {key};
      }
    }

    method RemoveIfOld(key: string, now: int)
      requires key in attempts
      modifies `attempts
      ensures attempts == if Collectable(Cfg(), old(attempts[key].Value()), now) then old(attempts) - {key} else old(attempts)
    {
      var record := attempts[key];
      if (now > record.blockedUntil && now - record.lastAttempt > attemptsWindow)
         || now - record.lastAttempt > blockDuration * 2 {
        attempts := attempts - {key};
      }
    }

    method GetStats(now: int) returns (totalRecords: nat, blockedClients: nat)
      requires Valid()
      ensures totalRecords == |Contents()|
      ensures Contents() == Step(Cfg(), Contents(), Event(Stats, now)).0
      ensures StatsSeen(blockedClients) == Step(Cfg(), Contents(), Event(Stats, now)).1
    {
      blockedClients := 0;
      var todo := attempts.Keys;
      ghost var blocked: set<string> := {};
      while todo != {}
        invariant todo <= attempts.Keys
        invariant blocked == set k | k in attempts.Keys - todo && now < attempts[k].blockedUntil
        invariant blockedClients == |blocked|
        decreases |todo|
      {
        var key :| key in todo;
        if now < attempts[key].blockedUntil {
          blockedClients := blockedClients + 1;
          blocked := blocked + {key};
        }
        todo := todo - {key};
      }
      assert blocked == BlockedKeys(Contents(), now);
      assert Contents().Keys == attempts.Keys;
      totalRecords := |attempts|;
      assert |Contents()| == |Contents().Keys|;
      assert |attempts| == |attempts.Keys|;
    }
  }
}
