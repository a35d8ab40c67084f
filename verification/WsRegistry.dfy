/** The registry of agent WebSocket connections (server/websocket.go): connect,
    supersede, deferred cleanup, forced close and the debounced offline mark.

    Each step is one section under the registry's lock, or a close outside it; a run is any
    interleaving of the steps of any number of connection handlers. */
module WsRegistry {
  import opened Common

  type Agent = string

  /** `entries` is wsConnections and `events` wsDisconnectEventsPerAgent. The rest
      describes the goroutines: the handlers that have not cleaned up yet, those
      that have but are yet to close their connection, the debounce goroutines
      that are asleep, and those that decided to mark. */
  datatype State = State(entries: map<Agent, nat>, events: map<Agent, nat>, known: set<nat>, open: set<nat>,
                         handlers: map<nat, Agent>, closing: set<nat>,
                         sleeping: multiset<Agent>, marking: multiset<Agent>)

  datatype Step =
    | Register(agent: Agent, conn: nat)
    | CloseConn(conn: nat)
    | Cleanup(conn: nat)
    | FinishCleanup(conn: nat)
    | ForceClose(agent: Agent)
    | ForgetDiagnostics(agent: Agent)
    | DebounceCheck(agent: Agent)
    | MarkOffline(agent: Agent)

  const INITIAL := State(map[], map[], {}, {}, map[], {}, multiset{}, multiset{})

  /** Connections are fresh objects, every handler cleans up once, and every
      debounce goroutine checks once. */
  predicate Enabled(s: State, e: Step) {
    match e
    case Register(_, c) => c !in s.known
    case Cleanup(c) => c in s.handlers
    case FinishCleanup(c) => c in s.closing
    case DebounceCheck(a) => a in s.sleeping
    case MarkOffline(a) => a in s.marking
    case _ => true
  }

  function Count(m: map<Agent, nat>, a: Agent): nat {
    if a in m then m[a] else 0
  }

  function Apply(s: State, e: Step): State
    requires Enabled(s, e)
  {
    match e
    case Register(a, c) =>
      s.(entries := s.entries[a := c], known := s.known + {c},
         open := (if a in s.entries then s.open - {s.entries[a]} else s.open) + {c},
         handlers := s.handlers[c := a])
    case CloseConn(c) =>
      s.(open := s.open - {c})
    case Cleanup(c) =>
      var a := s.handlers[c];
      var s' := s.(handlers := s.handlers - {c}, closing := s.closing + {c});
      if a in s.entries && s.entries[a] == c then
        s'.(entries := s.entries - {a}, events := s.events[a := Count(s.events, a) + 1],
            sleeping := s.sleeping + multiset{a})
      else s'
    case FinishCleanup(c) =>
      s.(open := s.open - {c}, closing := s.closing - {c})
    case ForceClose(a) =>
      if a in s.entries then s.(entries := s.entries - {a}, open := s.open - {s.entries[a]}) else s
    case ForgetDiagnostics(a) =>
      s.(events := s.events - {a})
    case DebounceCheck(a) =>
      var s' := s.(sleeping := s.sleeping - multiset{a});
      if a in s.entries then s' else s'.(marking := s.marking + multiset{a})
    case MarkOffline(a) =>
      s.(marking := s.marking - multiset{a})
  }

  function Run(es: seq<Step>): Option<State> {
    if es == [] then Some(INITIAL)
    else
      match Run(es[..|es| - 1])
      case None => None
      case Some(s) => if Enabled(s, es[|es| - 1]) then Some(Apply(s, es[|es| - 1])) else None
  }

  /** `es` is an interleaving that can happen. */
  predicate Possible(es: seq<Step>) {
    Run(es).Some?
  }

  function After(es: seq<Step>): State
    requires Possible(es)
  {
    Run(es).value
  }

  lemma AfterPush(es: seq<Step>)
    requires es != [] && Possible(es)
    ensures var before := es[..|es| - 1];
            && Possible(before) && Enabled(After(before), es[|es| - 1])
            && After(es) == Apply(After(before), es[|es| - 1])
  {
  }

  // ----- what every interleaving keeps -----

  /** Handlers belong to known connections, an entry's handler has not cleaned up
      unless by force, and no connection is open outside the registry but those
      whose handlers are about to close them. */
  ghost predicate Consistent(s: State) {
    && (forall a | a in s.entries :: s.entries[a] in s.handlers && s.handlers[s.entries[a]] == a)
    && (forall c | c in s.handlers :: c in s.known)
    && s.open <= s.known && s.closing <= s.known
    && (forall c | c in s.open && c !in s.closing ::
          c in s.handlers && s.handlers[c] in s.entries && s.entries[s.handlers[c]] == c)
  }

  lemma ApplyKeepsConsistent(s: State, e: Step)
    requires Consistent(s) && Enabled(s, e)
    ensures Consistent(Apply(s, e))
  {
  }

  /** In every interleaving an open connection is its agent's entry, or its handler
      has taken it out and is about to close it; superseded and force-closed
      connections are closed. */
  lemma {:induction false} EveryRunIsConsistent(es: seq<Step>)
    requires Possible(es)
    ensures Consistent(After(es))
  {
    if es != [] {
      AfterPush(es);
      EveryRunIsConsistent(es[..|es| - 1]);
      ApplyKeepsConsistent(After(es[..|es| - 1]), es[|es| - 1]);
    }
  }

  // ----- who is registered -----

  /** `c` registered for `a` at step `p`, and since then nobody else registered
      for `a`, `c` did not clean up and `a` was not force-closed. */
  ghost predicate CurrentSince(es: seq<Step>, a: Agent, c: nat, p: nat) {
    && p < |es| && es[p] == Register(a, c)
    && forall j | p < j < |es| :: es[j] != Cleanup(c) && es[j] != ForceClose(a)
                                  && !(es[j].Register? && es[j].agent == a)
  }

  ghost predicate Current(es: seq<Step>, a: Agent, c: nat) {
    exists p: nat :: CurrentSince(es, a, c, p)
  }

  lemma CurrentPush(es: seq<Step>, e: Step, a: Agent, c: nat)
    ensures Current(es + [e], a, c) <==>
              e == Register(a, c)
              || (Current(es, a, c) && e != Cleanup(c) && e != ForceClose(a) && !(e.Register? && e.agent == a))
  {
    var full := es + [e];
    assert forall i | 0 <= i < |es| :: full[i] == es[i];
    if Current(full, a, c) && e != Register(a, c) {
      var p: nat :| CurrentSince(full, a, c, p);
      assert p < |es| && full[|es|] == e;
      assert CurrentSince(es, a, c, p);
    }
    if e == Register(a, c) {
      assert CurrentSince(full, a, c, |es|);
    } else if Current(es, a, c) && e != Cleanup(c) && e != ForceClose(a) && !(e.Register? && e.agent == a) {
      var p: nat :| CurrentSince(es, a, c, p);
      assert CurrentSince(full, a, c, p);
    }
  }

  lemma ApplyEntry(s: State, e: Step, a: Agent, c: nat)
    requires Consistent(s) && Enabled(s, e)
    ensures var t := Apply(s, e).entries;
            (a in t && t[a] == c) <==>
              e == Register(a, c)
              || (a in s.entries && s.entries[a] == c
                  && e != Cleanup(c) && e != ForceClose(a) && !(e.Register? && e.agent == a))
  {
  }

  /** An agent's entry is its last registered connection, unless that very
      connection has cleaned up or the agent was force-closed since. */
  lemma {:induction false} EntryIsCurrent(es: seq<Step>, a: Agent, c: nat)
    requires Possible(es)
    ensures (a in After(es).entries && After(es).entries[a] == c) <==> Current(es, a, c)
  {
    if es != [] {
      var before, e := es[..|es| - 1], es[|es| - 1];
      AfterPush(es);
      EntryIsCurrent(before, a, c);
      EveryRunIsConsistent(before);
      ApplyEntry(After(before), e, a, c);
      CurrentPush(before, e, a, c);
      assert es == before + [e];
    }
  }

  /** The deferred cleanup of a superseded connection leaves the registry and the
      diagnostics as they are. */
  lemma SupersededCleanupIsHarmless(es: seq<Step>, c: nat)
    requires Possible(es + [Cleanup(c)]) && Possible(es)
    requires forall a: Agent :: !Current(es, a, c)
    ensures After(es + [Cleanup(c)]).entries == After(es).entries
    ensures After(es + [Cleanup(c)]).events == After(es).events
    ensures After(es + [Cleanup(c)]).sleeping == After(es).sleeping
  {
    var full := es + [Cleanup(c)];
    assert full[..|full| - 1] == es;
    AfterPush(full);
    EntryIsCurrent(es, After(es).handlers[c], c);
  }

  // ----- which connections are open -----

  /** Step j closes connection `c` of agent `a`: it breaks, its handler closes it,
      or, before its handler has cleaned up, the agent registers again or is
      force-closed. */
  ghost predicate Closes(es: seq<Step>, p: nat, j: nat, a: Agent, c: nat) {
    && p < j < |es|
    && (|| es[j] == CloseConn(c) || es[j] == FinishCleanup(c)
        || ((es[j] == ForceClose(a) || (es[j].Register? && es[j].agent == a))
            && forall i | p < i < j :: es[i] != Cleanup(c) && es[i] != ForceClose(a)
                                       && !(es[i].Register? && es[i].agent == a)))
  }

  ghost predicate OpenSince(es: seq<Step>, a: Agent, c: nat, p: nat) {
    p < |es| && es[p] == Register(a, c) && forall j | p < j < |es| :: !Closes(es, p, j, a, c)
  }

  lemma ApplyOpen(s: State, e: Step, c: nat)
    requires Consistent(s) && Enabled(s, e)
    ensures c in Apply(s, e).open <==>
              || (e.Register? && e.conn == c)
              || (c in s.open && e != CloseConn(c) && e != FinishCleanup(c)
                  && !((e.ForceClose? || e.Register?) && e.agent in s.entries && s.entries[e.agent] == c))
  {
  }

  lemma OpenPush(es: seq<Step>, before: seq<Step>, a: Agent, c: nat, p: nat)
    requires es != [] && before == es[..|es| - 1] && p < |before| && es[p] == Register(a, c)
    ensures OpenSince(es, a, c, p) <==> OpenSince(before, a, c, p) && !Closes(es, p, |before|, a, c)
  {
    forall j: nat | j < |before| ensures Closes(es, p, j, a, c) <==> Closes(before, p, j, a, c) {
      assert forall i | 0 <= i <= j :: es[i] == before[i];
    }
    assert es[p] == before[p];
  }

  lemma {:induction false} RegisteredOnce(es: seq<Step>, a: Agent, c: nat, p: nat)
    requires Possible(es) && p < |es| && es[p] == Register(a, c)
    ensures c in After(es).known
    ensures forall q | 0 <= q < |es| && es[q].Register? && es[q].conn == c :: q == p
  {
    var before, e := es[..|es| - 1], es[|es| - 1];
    AfterPush(es);
    if p < |before| {
      RegisteredOnce(before, a, c, p);
      forall q | 0 <= q < |es| && es[q].Register? && es[q].conn == c ensures q == p {
        assert q < |before| ==> before[q] == es[q];
      }
    } else {
      forall q | 0 <= q < |es| && es[q].Register? && es[q].conn == c ensures q == p {
        if q < |before| {
          RegisteredOnce(before, es[q].agent, c, q);
        }
      }
    }
  }

  /** In every interleaving a connection is open exactly from its registration until
      it breaks or is closed by its handler, by its successor or by force. */
  lemma {:induction false} OpenIff(es: seq<Step>, a: Agent, c: nat, p: nat)
    requires Possible(es) && p < |es| && es[p] == Register(a, c)
    ensures c in After(es).open <==> OpenSince(es, a, c, p)
  {
    hide Apply, Enabled, Run, Consistent;
    var before, e := es[..|es| - 1], es[|es| - 1];
    AfterPush(es);
    EveryRunIsConsistent(before);
    ApplyOpen(After(before), e, c);
    RegisteredOnce(es, a, c, p);
    if p < |before| {
      OpenIff(before, a, c, p);
      OpenPush(es, before, a, c, p);
      EntryUnlessEnded(before, a, c, p);
      assert es[|before|] == e && forall i | 0 <= i < |before| :: es[i] == before[i];
      if (e.ForceClose? || e.Register?) && e.agent in After(before).entries && After(before).entries[e.agent] == c {
        EntryAgent(before, e.agent, a, c, p);
      }
    }
  }

  /** The connection registered at step p is the entry exactly until it is cleaned
      up, superseded or force-closed. */
  lemma EntryUnlessEnded(es: seq<Step>, a: Agent, c: nat, p: nat)
    requires Possible(es) && p < |es| && es[p] == Register(a, c)
    ensures a in After(es).entries && After(es).entries[a] == c <==>
              forall i | p < i < |es| :: es[i] != Cleanup(c) && es[i] != ForceClose(a)
                                         && !(es[i].Register? && es[i].agent == a)
  {
    hide Run, After;
    EntryIsCurrent(es, a, c);
    RegisteredOnce(es, a, c, p);
    if Current(es, a, c) {
      var q: nat :| CurrentSince(es, a, c, q);
      assert q == p;
    } else {
      assert !CurrentSince(es, a, c, p);
    }
  }

  lemma EntryAgent(es: seq<Step>, b: Agent, a: Agent, c: nat, p: nat)
    requires Possible(es) && p < |es| && es[p] == Register(a, c)
    requires b in After(es).entries && After(es).entries[b] == c
    ensures b == a
  {
    hide Run, After;
    EntryIsCurrent(es, b, c);
    var q: nat :| CurrentSince(es, b, c, q);
    RegisteredOnce(es, a, c, p);
  }

  // ----- conservation -----

  function Registrations(es: seq<Step>, a: Agent): nat {
    if es == [] then 0
    else
      var e := es[|es| - 1];
      Registrations(es[..|es| - 1], a) + One(e.Register? && e.agent == a)
  }

  /** Registrations that found another connection of the same agent. */
  function Superseded(es: seq<Step>, a: Agent): nat
    requires Possible(es)
  {
    if es == [] then 0
    else
      var e, before := es[|es| - 1], es[..|es| - 1];
      Superseded(before, a) + One(e.Register? && e.agent == a && a in After(before).entries)
  }

  function ForcedCloses(es: seq<Step>, a: Agent): nat
    requires Possible(es)
  {
    if es == [] then 0
    else
      var e, before := es[|es| - 1], es[..|es| - 1];
      ForcedCloses(before, a) + One(e == ForceClose(a) && a in After(before).entries)
  }

  /** The agent's disconnect counter, were it never reset. */
  function Disconnects(es: seq<Step>, a: Agent): nat
    requires Possible(es)
  {
    if es == [] then 0
    else
      var e, before := es[|es| - 1], es[..|es| - 1];
      Disconnects(before, a) + Count(Apply(After(before).(events := map[]), e).events, a)
  }

  /** Every registration of an agent has ended in exactly one way, or is the one
      it has now. */
  lemma {:induction false} RegistrationsAreConserved(es: seq<Step>, a: Agent)
    requires Possible(es)
    ensures Registrations(es, a)
         == Superseded(es, a) + Disconnects(es, a) + ForcedCloses(es, a) + One(a in After(es).entries)
  {
    if es != [] {
      hide Apply, Enabled, Possible, After, Run, Consistent, Count;
      var before := es[..|es| - 1];
      AfterPush(es);
      RegistrationsAreConserved(before, a);
      EveryRunIsConsistent(before);
      StepIsBalanced(After(before), es[|es| - 1], a);
    } else {
      NobodyYet();
    }
  }

  lemma NobodyYet()
    ensures Possible([]) && After([]) == INITIAL
  {
  }

  lemma StepIsBalanced(s: State, e: Step, a: Agent)
    requires Consistent(s) && Enabled(s, e)
    ensures Enabled(s.(events := map[]), e)
    ensures One(e.Register? && e.agent == a) + One(a in s.entries)
         == One(e.Register? && e.agent == a && a in s.entries) + Count(Apply(s.(events := map[]), e).events, a)
            + One(e == ForceClose(a) && a in s.entries) + One(a in Apply(s, e).entries)
  {
  }

  /** Step k is the start of the run, or forgets the diagnostics of `a` for the last time. */
  ghost predicate LastForgotten(es: seq<Step>, a: Agent, k: nat) {
    && k <= |es| && Possible(es[..k]) && (k > 0 ==> es[k - 1] == ForgetDiagnostics(a))
    && forall i | k <= i < |es| :: es[i] != ForgetDiagnostics(a)
  }

  /** The published counter is the number of disconnects since the agent's
      diagnostics were last forgotten. */
  lemma {:induction false} CounterCountsDisconnects(es: seq<Step>, a: Agent, k: nat)
    requires Possible(es) && LastForgotten(es, a, k)
    ensures Count(After(es).events, a) == Disconnects(es, a) - Disconnects(es[..k], a)
  {
    if k < |es| {
      var before := es[..|es| - 1];
      AfterPush(es);
      assert before[..k] == es[..k];
      CounterCountsDisconnects(before, a, k);
    } else {
      assert es[..k] == es;
      if k > 0 {
        AfterPush(es);
      }
    }
  }

  // ----- the debounced offline mark -----

  /** Whether `a` is marked offline although it is connected. */
  predicate MarkedWhileConnected(es: seq<Step>, a: Agent) {
    es != [] && es[|es| - 1] == MarkOffline(a) && Possible(es) && a in After(es).entries
  }

  lemma ApplyStaysAbsent(s: State, e: Step, a: Agent)
    requires Enabled(s, e) && a !in s.entries && !(e.Register? && e.agent == a)
    ensures a !in Apply(s, e).entries
  {
  }

  lemma {:induction false} StaysDisconnected(es: seq<Step>, more: seq<Step>, a: Agent)
    requires Possible(es) && a !in After(es).entries && Possible(es + more)
    requires forall i | 0 <= i < |more| :: !(more[i].Register? && more[i].agent == a)
    ensures a !in After(es + more).entries
  {
    if more != [] {
      hide *;
      var full, before := es + more, es + more[..|more| - 1];
      assert full[..|full| - 1] == before && full[|full| - 1] == more[|more| - 1];
      AfterPush(full);
      StaysDisconnected(es, more[..|more| - 1], a);
      ApplyStaysAbsent(After(before), more[|more| - 1], a);
    } else {
      assert es + more == es;
    }
  }

  /** Step k finds `a` absent after the debounce. */
  ghost predicate FoundAbsent(es: seq<Step>, k: nat, a: Agent) {
    k < |es| && es[k] == DebounceCheck(a) && Possible(es[..k]) && a !in After(es[..k]).entries
  }

  function AbsentChecks(es: seq<Step>, a: Agent): nat
    requires Possible(es)
  {
    if es == [] then 0
    else
      var e, before := es[|es| - 1], es[..|es| - 1];
      AbsentChecks(before, a) + One(e == DebounceCheck(a) && a !in After(before).entries)
  }

  function Marks(es: seq<Step>, a: Agent): nat {
    if es == [] then 0 else Marks(es[..|es| - 1], a) + One(es[|es| - 1] == MarkOffline(a))
  }

  /** Every offline mark has a check of its own that found the agent absent. */
  lemma {:induction false} MarksAreChecked(es: seq<Step>, a: Agent)
    requires Possible(es)
    ensures AbsentChecks(es, a) == Marks(es, a) + After(es).marking[a]
  {
    if es != [] {
      AfterPush(es);
      MarksAreChecked(es[..|es| - 1], a);
      MarkingAfter(After(es[..|es| - 1]), es[|es| - 1], a);
    }
  }

  lemma MarkingAfter(s: State, e: Step, a: Agent)
    requires Enabled(s, e)
    ensures Apply(s, e).marking[a] + One(e == MarkOffline(a))
         == s.marking[a] + One(e == DebounceCheck(a) && a !in s.entries)
  {
  }

  lemma {:induction false} SomeAbsentCheck(es: seq<Step>, a: Agent)
    requires Possible(es) && AbsentChecks(es, a) > 0
    ensures exists k: nat :: FoundAbsent(es, k, a)
  {
    var before := es[..|es| - 1];
    AfterPush(es);
    if AbsentChecks(before, a) > 0 {
      SomeAbsentCheck(before, a);
      var k: nat :| FoundAbsent(before, k, a);
      assert es[..k] == before[..k];
      assert FoundAbsent(es, k, a);
    } else {
      assert FoundAbsent(es, |es| - 1, a);
    }
  }

  /** So no agent is marked that was not found absent before. */
  lemma EveryMarkWasChecked(es: seq<Step>, a: Agent)
    requires Possible(es) && es != [] && es[|es| - 1] == MarkOffline(a)
    ensures exists k: nat :: FoundAbsent(es, k, a)
  {
    MarksAreChecked(es, a);
    SomeAbsentCheck(es, a);
  }

  lemma CurrentBefore(es: seq<Step>, a: Agent, c: nat, p: nat, k: nat)
    requires CurrentSince(es, a, c, p) && p < k <= |es|
    ensures CurrentSince(es[..k], a, c, p)
  {
  }

  /** The check and the mark are two steps: the mark hits a connected agent exactly
      if it registered again after the check, with a connection that has neither
      ended nor been superseded since. */
  lemma MarkRacesIff(es: seq<Step>, a: Agent, k: nat)
    requires Possible(es) && es != [] && es[|es| - 1] == MarkOffline(a) && FoundAbsent(es, k, a)
    ensures MarkedWhileConnected(es, a) <==> exists c: nat, p: nat :: p > k && CurrentSince(es, a, c, p)
  {
    if a in After(es).entries {
      var c := After(es).entries[a];
      EntryIsCurrent(es, a, c);
      var p: nat :| CurrentSince(es, a, c, p);
      if p < k {
        CurrentBefore(es, a, c, p, k);
        EntryIsCurrent(es[..k], a, c);
      }
      assert p > k;
    }
    if c: nat, p: nat :| p > k && CurrentSince(es, a, c, p) {
      EntryIsCurrent(es, a, c);
    }
  }

  /** And it can happen: disconnect, check, reconnect, mark. */
  lemma MarkCanRace(a: Agent)
    ensures MarkedWhileConnected(
              [Register(a, 0), Cleanup(0), DebounceCheck(a), Register(a, 1), MarkOffline(a)], a)
  {
    var s1 := Apply(INITIAL, Register(a, 0));
    var s2 := Apply(s1, Cleanup(0));
    var s3 := Apply(s2, DebounceCheck(a));
    var s4 := Apply(s3, Register(a, 1));
    var s5 := Apply(s4, MarkOffline(a));
    var none: seq<Step> := [];
    RunPush(none, Register(a, 0), INITIAL);
    RunPush(none + [Register(a, 0)], Cleanup(0), s1);
    RunPush(none + [Register(a, 0)] + [Cleanup(0)], DebounceCheck(a), s2);
    RunPush(none + [Register(a, 0)] + [Cleanup(0)] + [DebounceCheck(a)], Register(a, 1), s3);
    RunPush(none + [Register(a, 0)] + [Cleanup(0)] + [DebounceCheck(a)] + [Register(a, 1)], MarkOffline(a), s4);
    assert [Register(a, 0), Cleanup(0), DebounceCheck(a), Register(a, 1), MarkOffline(a)]
        == none + [Register(a, 0)] + [Cleanup(0)] + [DebounceCheck(a)] + [Register(a, 1)] + [MarkOffline(a)];
  }

  lemma RunPush(es: seq<Step>, e: Step, s: State)
    requires Run(es) == Some(s) && Enabled(s, e)
    ensures Run(es + [e]) == Some(Apply(s, e))
  {
    assert (es + [e])[..|es|] == es;
  }

  // ----- the registry itself -----

  class Conn {
    const id: nat
    var closed: bool

    constructor (id: nat)
      ensures this.id == id && !closed
    {
      this.id, closed := id, false;
    }

    method Close()
      modifies this
      ensures closed
    {
      closed := true;
    }
  }

  function Ids(m: map<Agent, Conn>): map<Agent, nat> {
    map a | a in m :: m[a].id
  }

  lemma IdsUpdate(m: map<Agent, Conn>, a: Agent, c: Conn)
    ensures Ids(m[a := c]) == Ids(m)[a := c.id]
    ensures Ids(m - {a}) == Ids(m) - {a}
  {
  }

  class Registry {
    var connections: map<Agent, Conn>
    var disconnectEvents: map<Agent, nat>
    ghost var conns: set<Conn>
    ghost var known: set<nat>
    ghost var open: set<nat>
    ghost var handlers: map<nat, Agent>
    ghost var closing: set<nat>
    ghost var sleeping: multiset<Agent>
    ghost var marking: multiset<Agent>

    /** Connections are told apart by their ids; `open` mirrors their state. */
    ghost predicate Valid()
      reads this, conns
    {
      && (forall a | a in connections :: connections[a] in conns)
      && (forall c | c in conns :: c.id in known && (c.id in open <==> !c.closed))
      && (forall c, d | c in conns && d in conns && c.id == d.id :: c == d)
    }

    ghost function View(): State
      reads this
    {
      State(Ids(connections), disconnectEvents, known, open,
            handlers, closing, sleeping, marking)
    }

    constructor ()
      ensures Valid() && View() == INITIAL
    {
      connections, disconnectEvents, conns := map[], map[], {};
      known, open, handlers, closing, sleeping, marking := {}, {}, map[], {}, multiset{}, multiset{};
    }

    /** Close the connection an agent has, if any. */
    method CloseExisting(agent: Agent)
      requires Valid()
      modifies `open, connections.Values
      ensures Valid()
      ensures open == if agent in connections then old(open) - {connections[agent].id} else old(open)
    {
      if agent in connections {
        var existing := connections[agent];
        assert existing in connections.Values;
        open := open - {existing.id};
        existing.Close();
      }
    }

    method RegisterConn(agent: Agent, conn: Conn)
      requires Valid() && Enabled(View(), Register(agent, conn.id)) && !conn.closed && conn !in conns
      modifies this, connections.Values
      ensures Valid() && conns == old(conns) + {conn} && !conn.closed
      ensures View() == Apply(old(View()), Register(agent, conn.id))
    {
      hide Ids;
      IdsUpdate(connections, agent, conn);
      InIdsAt(agent);
      CloseExisting(agent);
      AddConn(agent, conn);
    }

    method AddConn(agent: Agent, conn: Conn)
      requires Valid() && conn.id !in known && !conn.closed && conn !in conns
      modifies `connections, `conns, `known, `open, `handlers
      ensures Valid() && conns == old(conns) + {conn} && connections == old(connections)[agent := conn]
      ensures known == old(known) + {conn.id} && open == old(open) + {conn.id}
      ensures handlers == old(handlers)[conn.id := agent]
    {
      connections := connections[agent := conn];
      conns, known, open, handlers := conns + {conn}, known + {conn.id}, open + {conn.id}, handlers[conn.id := agent];
    }

    /** Remove the entry of an agent if it is still `conn`, and count that. */
    method RemoveEntry(agent: Agent, conn: Conn)
      requires Valid() && conn in conns
      modifies `connections, `disconnectEvents, `sleeping
      ensures Valid()
      ensures var was := old(connections);
              if agent in was && was[agent] == conn then
                && connections == was - {agent}
                && disconnectEvents == old(disconnectEvents)[agent := Count(old(disconnectEvents), agent) + 1]
                && sleeping == old(sleeping) + multiset{agent}
              else
                connections == was && disconnectEvents == old(disconnectEvents) && sleeping == old(sleeping)
    {
      if agent in connections && connections[agent] == conn {
        connections := connections - {agent};
        disconnectEvents := disconnectEvents[agent := (if agent in disconnectEvents then disconnectEvents[agent] else 0) + 1];
        sleeping := sleeping + multiset{agent};
      }
    }

    /** The deferred function of the handler of `conn`, up to where it gives up the lock. */
    method CleanUp(agent: Agent, conn: Conn)
      requires Valid() && conn in conns && conn.id in handlers && handlers[conn.id] == agent
      modifies this
      ensures Valid() && conns == old(conns)
      ensures View() == Apply(old(View()), Cleanup(conn.id))
    {
      hide Ids;
      IdsUpdate(connections, agent, conn);
      InIds(agent, conn);
      RemoveEntry(agent, conn);
      handlers, closing := handlers - {conn.id}, closing + {conn.id};
    }

    lemma InIdsAt(agent: Agent)
      ensures agent in Ids(connections) <==> agent in connections
      ensures agent in connections ==> Ids(connections)[agent] == connections[agent].id
    {
    }

    lemma InIds(agent: Agent, conn: Conn)
      requires Valid() && conn in conns
      ensures agent in Ids(connections) && Ids(connections)[agent] == conn.id <==>
              agent in connections && connections[agent] == conn
    {
    }

    /** The rest of it. */
    method FinishCleanUp(conn: Conn)
      requires Valid() && conn in conns && Enabled(View(), FinishCleanup(conn.id))
      modifies this, conn
      ensures Valid() && conns == old(conns)
      ensures View() == Apply(old(View()), FinishCleanup(conn.id))
    {
      open, closing := open - {conn.id}, closing - {conn.id};
      conn.Close();
    }

    method ForceCloseAgent(agent: Agent)
      requires Valid()
      modifies this, connections.Values
      ensures Valid() && conns == old(conns)
      ensures View() == Apply(old(View()), ForceClose(agent))
    {
      CloseExisting(agent);
      if agent in connections {
        IdsUpdate(connections, agent, connections[agent]);
        connections := connections - {agent};
      }
    }

    method IsConnected(agent: Agent) returns (connected: bool)
      ensures connected <==> agent in View().entries
    {
      connected := agent in connections;
    }
  }
}
