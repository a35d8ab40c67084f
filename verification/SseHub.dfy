/** The server-sent-events hub (SSEHub in agent/main.go): one goroutine owns the
    clients and serves registrations, removals, broadcasts and the shutdown one
    at a time; publishers and consumers run beside it. */
module SseHub {
  import opened Common

  type Ref = nat
  type Event = nat

  const CLIENT_BUFFER := 10
  const BROADCAST_BUFFER := 100

  /** `clients` is the hub's map from client id to client object. `queue` and
      `received` tell what went into each client's channel and came out of it.
      `removed` are the
      clients whose removal was served. `panicked`: a closed channel was closed again or
      written to. */
  datatype State = State(clients: map<string, Ref>, ids: map<Ref, string>, queue: map<Ref, seq<Event>>,
                         received: map<Ref, seq<Event>>, closed: set<Ref>, removed: set<Ref>,
                         broadcast: seq<Event>, running: bool, panicked: bool)

  datatype Step =
    | Register(ref: Ref, id: string)
    | Unregister(ref: Ref)
    | Publish(event: Event)
    | Dispatch
    | Shutdown
    | Receive(ref: Ref)

  const INITIAL := State(map[], map[], map[], map[], {}, {}, [], true, false)

  /** A client registers once, when it is created, and is removed once, when the
      handler that created it returns. After the shutdown the hub serves nobody; after a panic nothing happens. */
  predicate Enabled(s: State, e: Step) {
    && !s.panicked
    && match e
       case Register(r, _) => s.running && r !in s.ids
       case Unregister(r) => s.running && r in s.ids && r !in s.removed
       case Publish(_) => true
       case Dispatch => s.running && s.broadcast != []
       case Shutdown => s.running
       case Receive(r) => r in s.queue && r in s.received && s.queue[r] != []
  }

  predicate Connected(s: State, r: Ref) {
    r in s.clients.Values
  }

  /** One non-blocking send. */
  function Offer(q: seq<Event>, event: Event): seq<Event> {
    if |q| < CLIENT_BUFFER then q + [event] else q
  }

  function OfferTo(queue: map<Ref, seq<Event>>, to: set<Ref>, event: Event): map<Ref, seq<Event>> {
    map r | r in queue :: if r in to then Offer(queue[r], event) else queue[r]
  }

  function Apply(s: State, e: Step): State
    requires Enabled(s, e)
  {
    match e
    case Register(r, id) =>
      s.(clients := s.clients[id := r], ids := s.ids[r := id], queue := s.queue[r := []], received := s.received[r := []])
    case Unregister(r) =>
      var t := s.(removed := s.removed + {r});
      if s.ids[r] !in s.clients then t
      else if r in s.closed then t.(panicked := true)
      else t.(clients := s.clients - {s.ids[r]}, closed := s.closed + {r})
    case Publish(event) =>
      if |s.broadcast| < BROADCAST_BUFFER then s.(broadcast := s.broadcast + [event]) else s
    case Dispatch =>
      if exists r | r in s.clients.Values :: r in s.closed then s.(panicked := true)
      else
        s.(broadcast := s.broadcast[1..],
           queue := OfferTo(s.queue, s.clients.Values, s.broadcast[0]))
    case Shutdown =>
      if exists r | r in s.clients.Values :: r in s.closed then s.(panicked := true)
      else s.(clients := map[], closed := s.closed + s.clients.Values, running := false)
    case Receive(r) =>
      s.(queue := s.queue[r := s.queue[r][1..]], received := s.received[r := s.received[r] + [s.queue[r][0]]])
  }

  function Run(es: seq<Step>): Option<State> {
    if es == [] then Some(INITIAL)
    else
      match Run(es[..|es| - 1])
      case None => None
      case Some(s) => if Enabled(s, es[|es| - 1]) then Some(Apply(s, es[|es| - 1])) else None
  }

  predicate Possible(es: seq<Step>) {
    Run(es).Some?
  }

  function After(es: seq<Step>): State
    requires Possible(es)
  {
    Run(es).value
  }

  lemma AfterPush(es: seq<Step>)
    requires es != [] && Possible(es)
    ensures var before := es[..|es| - 1];
            && Possible(before) && Enabled(After(before), es[|es| - 1])
            && After(es) == Apply(After(before), es[|es| - 1])
  {
  }

  lemma RunPush(es: seq<Step>, e: Step, s: State)
    requires Run(es) == Some(s) && Enabled(s, e)
    ensures Run(es + [e]) == Some(Apply(s, e))
  {
    assert (es + [e])[..|es|] == es;
  }

  // ----- what every run keeps -----

  ghost predicate WellFormed(s: State) {
    && s.ids.Keys == s.queue.Keys == s.received.Keys
    && s.closed <= s.ids.Keys
    && (forall i | i in s.clients :: s.clients[i] in s.ids && s.ids[s.clients[i]] == i)
    && |s.broadcast| <= BROADCAST_BUFFER
    && (forall r | r in s.queue :: |s.queue[r]| <= CLIENT_BUFFER)
  }

  /** The buffers stay within their sizes, and the hub files clients under their ids. */
  lemma {:induction false} EveryRunIsWellFormed(es: seq<Step>)
    requires Possible(es)
    ensures WellFormed(After(es))
  {
    if es != [] {
      AfterPush(es);
      EveryRunIsWellFormed(es[..|es| - 1]);
      ApplyKeepsWellFormed(After(es[..|es| - 1]), es[|es| - 1]);
    }
  }

  lemma ApplyKeepsWellFormed(s: State, e: Step)
    requires WellFormed(s) && Enabled(s, e)
    ensures WellFormed(Apply(s, e))
  {
    hide OfferTo;
    match e
    case Register(_, _) =>
    case Unregister(_) =>
    case Publish(_) =>
    case Dispatch => OfferFits(s.queue, s.clients.Values, s.broadcast[0]);
    case Shutdown =>
    case Receive(_) =>
  }

  lemma OfferFits(queue: map<Ref, seq<Event>>, to: set<Ref>, event: Event)
    requires forall r | r in queue :: |queue[r]| <= CLIENT_BUFFER
    ensures OfferTo(queue, to, event).Keys == queue.Keys
    ensures forall r | r in queue :: |OfferTo(queue, to, event)[r]| <= CLIENT_BUFFER
  {
  }

  // ----- channels are closed once and never written afterwards -----

  /** Nothing has panicked, and while the hub runs only removed clients' channels
      are closed and no removed client is in the map. */
  ghost predicate Sound(s: State) {
    && WellFormed(s) && !s.panicked && s.removed <= s.ids.Keys
    && (s.running ==> s.closed <= s.removed)
    && (forall i | i in s.clients :: s.clients[i] !in s.removed && s.clients[i] !in s.closed)
  }

  lemma ApplyKeepsSound(s: State, e: Step)
    requires Sound(s) && Enabled(s, e)
    ensures Sound(Apply(s, e))
  {
    ApplyKeepsWellFormed(s, e);
    hide WellFormed;
    if e.Unregister? {
      RemovedLeaves(s, e.ref);
    } else if e.Register? {
      assert WellFormed(s) ==> e.ref !in s.removed;
    }
  }

  /** The removal of a client that is in the map takes it out. */
  lemma RemovedLeaves(s: State, r: Ref)
    requires WellFormed(s) && r in s.ids
    ensures forall i | i in s.clients && s.clients[i] == r :: i == s.ids[r]
  {
  }

  /** In every run each channel is closed at most once and never written to after
      it is closed, whatever the clients' ids. */
  lemma {:induction false} NoRunPanics(es: seq<Step>)
    requires Possible(es)
    ensures Sound(After(es))
  {
    if es != [] {
      AfterPush(es);
      NoRunPanics(es[..|es| - 1]);
      ApplyKeepsSound(After(es[..|es| - 1]), es[|es| - 1]);
    }
  }

  // ----- which channels are closed -----

  /** Step j closes the channel of `r`: its removal is served while some client is
      filed under its id, or the hub stops while `r` itself is filed. */
  ghost predicate ClosesChannel(es: seq<Step>, j: nat, r: Ref) {
    && j < |es| && Possible(es[..j])
    && (|| (es[j] == Unregister(r) && r in After(es[..j]).ids && After(es[..j]).ids[r] in After(es[..j]).clients)
        || (es[j] == Step.Shutdown && Connected(After(es[..j]), r)))
  }

  lemma ApplyClosed(s: State, e: Step, r: Ref)
    requires Sound(s) && Enabled(s, e)
    ensures r in Apply(s, e).closed <==>
              || r in s.closed
              || (e == Unregister(r) && s.ids[r] in s.clients)
              || (e == Step.Shutdown && Connected(s, r))
    ensures Apply(s, e).running <==> s.running && e != Step.Shutdown
    ensures Apply(s, e).removed == s.removed + if e.Unregister? then {e.ref} else {}
  {
  }

  lemma ClosesPush(es: seq<Step>, before: seq<Step>, r: Ref)
    requires es != [] && before == es[..|es| - 1] && Possible(before)
    ensures (exists j :: ClosesChannel(es, j, r)) <==>
              (exists j :: ClosesChannel(before, j, r)) || ClosesChannel(es, |before|, r)
  {
    forall j: nat | j < |before| ensures ClosesChannel(es, j, r) <==> ClosesChannel(before, j, r) {
      assert es[..j] == before[..j] && es[j] == before[j];
    }
    if j: nat :| ClosesChannel(before, j, r) {
      assert ClosesChannel(es, j, r);
    }
  }

  /** In every run a channel is closed exactly by its own removal or by the stop of
      the hub, and the hub runs exactly until it is stopped. */
  lemma {:induction false} ClosedIff(es: seq<Step>, r: Ref)
    requires Possible(es)
    ensures r in After(es).closed <==> exists j :: ClosesChannel(es, j, r)
    ensures After(es).running <==> Step.Shutdown !in es
  {
    hide Apply, Enabled, Run, Sound;
    if es == [] {
      NothingYet();
    } else {
      var before, e := es[..|es| - 1], es[|es| - 1];
      AfterPush(es);
      ClosedIff(before, r);
      NoRunPanics(before);
      ApplyClosed(After(before), e, r);
      ClosesPush(es, before, r);
      assert es[..|before|] == before && es == before + [e];
      if e == Unregister(r) {
        KnownToBeRemoved(After(before), r);
      }
    }
  }

  lemma KnownToBeRemoved(s: State, r: Ref)
    requires Enabled(s, Unregister(r))
    ensures r in s.ids
  {
  }

  // ----- who is served -----

  /** Step j ends the service of whoever is filed under `id`: the hub stops, a
      client with that id registers, or one with that id is removed. */
  ghost predicate DropsId(es: seq<Step>, j: nat, id: string) {
    && j < |es|
    && match es[j]
       case Shutdown => true
       case Register(_, i) => i == id
       case Unregister(q) => Possible(es[..j]) && q in After(es[..j]).ids && After(es[..j]).ids[q] == id
       case _ => false
  }

  ghost predicate ServedSince(es: seq<Step>, r: Ref, p: nat) {
    && p < |es| && es[p].Register? && es[p].ref == r
    && forall j | p < j < |es| :: !DropsId(es, j, es[p].id)
  }

  lemma ApplyConnected(s: State, e: Step, r: Ref)
    requires Sound(s) && Enabled(s, e)
    ensures Connected(Apply(s, e), r) <==>
              || (e.Register? && e.ref == r)
              || (Connected(s, r) && !e.Shutdown? && !(e.Register? && e.id == s.ids[r])
                  && !(e.Unregister? && s.ids[e.ref] == s.ids[r]))
  {
    var t := Apply(s, e);
    if Connected(s, r) {
      var i :| i in s.clients && s.clients[i] == r;
      assert i in t.clients && t.clients[i] == r ==> Connected(t, r);
    }
    if e.Register? {
      assert t.clients[e.id] == e.ref;
    }
  }

  lemma {:induction false} RegisteredId(es: seq<Step>, r: Ref, p: nat)
    requires Possible(es) && p < |es| && es[p].Register? && es[p].ref == r
    ensures r in After(es).ids && After(es).ids[r] == es[p].id
  {
    AfterPush(es);
    if p < |es| - 1 {
      RegisteredId(es[..|es| - 1], r, p);
    }
  }

  /** While the hub runs a client is served exactly since its registration, for as
      long as no client with the same id registers or is removed. */
  lemma {:induction false} ConnectedIff(es: seq<Step>, r: Ref)
    requires Possible(es)
    ensures Connected(After(es), r) <==> exists p: nat :: ServedSince(es, r, p)
  {
    if es != [] {
      var before, e := es[..|es| - 1], es[|es| - 1];
      AfterPush(es);
      ConnectedIff(before, r);
      NoRunPanics(before);
      ApplyConnected(After(before), e, r);
      ServedPush(es, before, r);
      assert es[|before|] == e && es[..|before|] == before;
      if p: nat :| ServedSince(before, r, p) {
        RegisteredId(before, r, p);
      }
      forall p: nat | ServedSince(before, r, p) ensures before[p].id == After(before).ids[r] {
        RegisteredId(before, r, p);
      }
    }
  }

  lemma ServedPush(es: seq<Step>, before: seq<Step>, r: Ref)
    requires es != [] && before == es[..|es| - 1] && Possible(es) && Possible(before)
    requires Enabled(After(before), es[|before|])
    ensures (exists p: nat :: ServedSince(es, r, p)) <==>
              || (es[|before|].Register? && es[|before|].ref == r)
              || exists p: nat :: ServedSince(before, r, p) && !DropsId(es, |before|, before[p].id)
  {
    var n := |before|;
    forall j: nat, id | j < n ensures DropsId(es, j, id) <==> DropsId(before, j, id) {
      assert es[..j] == before[..j] && es[j] == before[j];
    }
    if p: nat :| ServedSince(es, r, p) {
      if p < n {
        assert es[p] == before[p];
        assert ServedSince(before, r, p);
      }
    }
    if es[n].Register? && es[n].ref == r {
      assert ServedSince(es, r, n);
    }
    if p: nat :| ServedSince(before, r, p) && !DropsId(es, n, before[p].id) {
      assert es[p] == before[p];
      assert ServedSince(es, r, p);
    }
  }

  /** The clients of the run carry the ids `names` gives them. */
  ghost predicate Named(es: seq<Step>, names: map<Ref, string>) {
    forall i | 0 <= i < |es| && es[i].Register? :: es[i].ref in names && names[es[i].ref] == es[i].id
  }

  ghost predicate DistinctIds(names: map<Ref, string>) {
    forall r, q | r in names && q in names && names[r] == names[q] :: r == q
  }

  /** While the hub runs, every client that is there and not yet removed is served. */
  ghost predicate AllServed(s: State) {
    s.running ==> forall r | r in s.ids && r !in s.removed :: Connected(s, r)
  }

  ghost predicate IdsFrom(s: State, names: map<Ref, string>) {
    forall r | r in s.ids :: r in names && names[r] == s.ids[r]
  }

  lemma ApplyKeepsServed(s: State, e: Step, names: map<Ref, string>)
    requires Sound(s) && AllServed(s) && IdsFrom(s, names) && DistinctIds(names) && Enabled(s, e)
    requires e.Register? ==> e.ref in names && names[e.ref] == e.id
    ensures AllServed(Apply(s, e)) && IdsFrom(Apply(s, e), names)
  {
    var t := Apply(s, e);
    if t.running {
      forall r | r in t.ids && r !in t.removed ensures Connected(t, r) {
        ApplyConnected(s, e, r);
      }
    }
  }

  lemma {:induction false} DistinctIdsAreServed(es: seq<Step>, names: map<Ref, string>)
    requires Possible(es) && Named(es, names) && DistinctIds(names)
    ensures AllServed(After(es)) && IdsFrom(After(es), names)
  {
    if es != [] {
      var before, e := es[..|es| - 1], es[|es| - 1];
      AfterPush(es);
      DistinctIdsAreServed(before, names);
      NoRunPanics(before);
      assert es[|es| - 1] == e;
      ApplyKeepsServed(After(before), e, names);
    }
  }

  /** Two clients with one id, and the first is removed. */
  function SharedId(r: Ref, q: Ref, id: string): seq<Step> {
    [Register(r, id), Register(q, id), Unregister(r)]
  }

  /** The removal of the first drops the entry of the second, which is neither
      removed nor closed but served no more; its own removal then closes nothing. */
  lemma RemovalDropsNamesake(r: Ref, q: Ref, id: string)
    requires r != q
    ensures var es := SharedId(r, q, id);
            && Possible(es) && After(es).running && q in After(es).ids && q !in After(es).removed
            && !Connected(After(es), q) && r in After(es).closed && q !in After(es).closed
            && Possible(es + [Unregister(q)]) && q !in After(es + [Unregister(q)]).closed
  {
    var none: seq<Step> := [];
    var s1 := Apply(INITIAL, Register(r, id));
    var s2 := Apply(s1, Register(q, id));
    var s3 := Apply(s2, Unregister(r));
    var e1 := none + [Register(r, id)];
    var e2 := e1 + [Register(q, id)];
    RunPush(none, Register(r, id), INITIAL);
    RunPush(e1, Register(q, id), s1);
    RunPush(e2, Unregister(r), s2);
    assert SharedId(r, q, id) == e2 + [Unregister(r)];
    RunPush(SharedId(r, q, id), Unregister(q), s3);
  }

  /** In all runs of clients with the given ids every client is served until it is
      removed, exactly when the ids are distinct. */
  lemma AllServedIffDistinctIds(names: map<Ref, string>)
    ensures (forall es | Possible(es) && Named(es, names) :: AllServed(After(es))) <==> DistinctIds(names)
  {
    if DistinctIds(names) {
      forall es | Possible(es) && Named(es, names) ensures AllServed(After(es)) {
        DistinctIdsAreServed(es, names);
      }
    } else {
      var r, q :| r in names && q in names && names[r] == names[q] && r != q;
      var es := SharedId(r, q, names[r]);
      RemovalDropsNamesake(r, q, names[r]);
      assert Named(es, names);
      assert !AllServed(After(es));
    }
  }

  // ----- what a client gets -----

  /** Everything ever written to the channel of `r`. */
  function Log(s: State, r: Ref): seq<Event> {
    if r in s.queue && r in s.received then s.received[r] + s.queue[r] else []
  }

  /** The broadcasts that found room in the hub's buffer. */
  function Accepted(es: seq<Step>): seq<Event>
    requires Possible(es)
  {
    if es == [] then []
    else
      var before, e := es[..|es| - 1], es[|es| - 1];
      Accepted(before)
      + if e.Publish? && |After(before).broadcast| < 100 then [e.event] else []
  }

  function Dispatched(es: seq<Step>): seq<Event>
    requires Possible(es)
  {
    if es == [] then []
    else
      var before, e := es[..|es| - 1], es[|es| - 1];
      Dispatched(before) + if e.Dispatch? then [After(before).broadcast[0]] else []
  }

  /** The broadcasts dispatched while `r` was connected. */
  function Segment(es: seq<Step>, r: Ref): seq<Event>
    requires Possible(es)
  {
    if es == [] then []
    else
      var before, e := es[..|es| - 1], es[|es| - 1];
      Segment(before, r)
      + if e.Dispatch? && Connected(After(before), r) then [After(before).broadcast[0]] else []
  }

  /** One step adds to or takes from the hub's buffer, or leaves it alone. */
  lemma BroadcastAfter(s: State, e: Step)
    requires Enabled(s, e) && !Apply(s, e).panicked
    ensures var t := Apply(s, e);
            if e.Publish? && |s.broadcast| < BROADCAST_BUFFER then t.broadcast == s.broadcast + [e.event]
            else if e.Dispatch? then s.broadcast != [] && t.broadcast == s.broadcast[1..]
            else t.broadcast == s.broadcast
  {
    hide Connected, OfferTo;
  }

  lemma FifoStep(accepted: seq<Event>, dispatched: seq<Event>, buffer: seq<Event>)
    requires accepted == dispatched + buffer
    ensures forall event :: accepted + [event] == dispatched + (buffer + [event])
    ensures buffer != [] ==> accepted == dispatched + [buffer[0]] + buffer[1..]
    ensures accepted + [] == accepted && dispatched + [] == dispatched
  {
  }

  /** The hub dispatches what it accepted, in order. */
  lemma {:induction false} DispatchIsFifo(es: seq<Step>)
    requires Possible(es)
    ensures Accepted(es) == Dispatched(es) + After(es).broadcast
  {
    hide Apply, Enabled, After, Possible, Run, Sound;
    if es == [] {
      NothingYet();
    } else {
      var before, e := es[..|es| - 1], es[|es| - 1];
      AfterPush(es);
      DispatchIsFifo(before);
      NoRunPanics(es);
      NotPanicked(After(es));
      BroadcastAfter(After(before), e);
      FifoStep(Accepted(before), Dispatched(before), After(before).broadcast);
    }
  }

  lemma NothingYet()
    ensures Possible([]) && After([]) == INITIAL
  {
  }

  lemma NotPanicked(s: State)
    requires Sound(s)
    ensures !s.panicked
  {
  }

  /** Whether the channel of `r` takes the event dispatched by `e`. */
  predicate Takes(s: State, e: Step, r: Ref) {
    e.Dispatch? && Connected(s, r) && r in s.queue && |s.queue[r]| < 10
  }

  lemma LogAfter(s: State, e: Step, r: Ref)
    requires WellFormed(s) && Enabled(s, e) && !Apply(s, e).panicked
    ensures Log(Apply(s, e), r) == Log(s, r) + if Takes(s, e, r) then [s.broadcast[0]] else []
    ensures Connected(s, r) ==> r in s.queue
  {
    assert Log(s, r) + [] == Log(s, r);
    if e.Receive? && e.ref == r {
      assert s.queue[r] == [s.queue[r][0]] + s.queue[r][1..];
    }
  }

  /** A client receives an in-order subsequence of the broadcasts dispatched while
      it is connected. */
  lemma {:induction false} ClientGetsSubsequence(es: seq<Step>, r: Ref)
    requires Possible(es)
    ensures IsSubsequence(Log(After(es), r), Segment(es, r))
  {
    if es != [] {
      var before, e := es[..|es| - 1], es[|es| - 1];
      AfterPush(es);
      ClientGetsSubsequence(before, r);
      EveryRunIsWellFormed(before);
      NoRunPanics(es);
      LogAfter(After(before), e, r);
      var log, segment := Log(After(before), r), Segment(before, r);
      assert log + [] == log && segment + [] == segment;
      if e.Dispatch? {
        SubsequencePush(log, segment, After(before).broadcast[0]);
      }
    }
  }

  /** No dispatch ever finds the channel of `r` full. */
  ghost predicate NeverFull(es: seq<Step>, r: Ref) {
    forall i | 0 <= i < |es| && es[i].Dispatch? && Possible(es[..i]) && Connected(After(es[..i]), r) ::
      Takes(After(es[..i]), es[i], r)
  }

  /** And all of them if its channel is never full. */
  lemma {:induction false} ClientGetsEverything(es: seq<Step>, r: Ref)
    requires Possible(es) && NeverFull(es, r)
    ensures Log(After(es), r) == Segment(es, r)
  {
    if es != [] {
      var before, e := es[..|es| - 1], es[|es| - 1];
      AfterPush(es);
      assert NeverFull(before, r) by {
        forall i | 0 <= i < |before| ensures before[..i] == es[..i] && before[i] == es[i] {}
      }
      ClientGetsEverything(before, r);
      EveryRunIsWellFormed(before);
      NoRunPanics(es);
      LogAfter(After(before), e, r);
      assert Log(After(before), r) + [] == Log(After(before), r);
    }
  }

  /** The segment of a client is one stretch of what the hub dispatched, from its
      registration at step `p` up to step `q`. */
  ghost predicate Stretch(es: seq<Step>, r: Ref, p: nat, q: nat) {
    && p <= q <= |es| && Possible(es) && Possible(es[..p]) && Possible(es[..q])
    && p < |es| && es[p].Register? && es[p].ref == r
    && Dispatched(es[..q]) == Dispatched(es[..p]) + Segment(es, r)
    && (Connected(After(es), r) ==> q == |es|)
  }

  lemma {:induction false} UnknownClientHasNothing(es: seq<Step>, r: Ref)
    requires Possible(es) && r !in After(es).ids
    ensures Segment(es, r) == [] && !Connected(After(es), r)
  {
    if es != [] {
      AfterPush(es);
      UnknownClientHasNothing(es[..|es| - 1], r);
      EveryRunIsWellFormed(es);
    }
  }

  lemma StretchPush(es: seq<Step>, r: Ref, p: nat, q: nat)
    requires es != [] && Possible(es) && r in After(es[..|es| - 1]).ids && Stretch(es[..|es| - 1], r, p, q)
    ensures exists q': nat :: Stretch(es, r, p, q')
  {
    var before, e := es[..|es| - 1], es[|es| - 1];
    AfterPush(es);
    assert before[..p] == es[..p] && before[..q] == es[..q] && es[..|es|] == es;
    assert Dispatched(before) + [] == Dispatched(before) && Segment(before, r) + [] == Segment(before, r);
    if Connected(After(before), r) {
      assert before[..q] == before;
      assert Stretch(es, r, p, |es|);
    } else {
      StaysAway(After(before), e, r);
      assert Stretch(es, r, p, q);
    }
  }

  lemma StaysAway(s: State, e: Step, r: Ref)
    requires Enabled(s, e) && r in s.ids && !Connected(s, r)
    ensures !Connected(Apply(s, e), r)
  {
  }

  lemma NewClient(s: State, e: Step, r: Ref)
    requires Enabled(s, e) && r in Apply(s, e).ids && r !in s.ids
    ensures e.Register? && e.ref == r
  {
  }

  lemma NoIdsYet()
    ensures Possible([]) && After([]).ids == map[]
  {
  }

  lemma {:induction false} SegmentIsAStretch(es: seq<Step>, r: Ref)
    requires Possible(es) && r in After(es).ids
    ensures exists p: nat, q: nat :: Stretch(es, r, p, q)
  {
    hide Apply, Enabled, Run;
    NoIdsYet();
    assert es != [];
    var before, e := es[..|es| - 1], es[|es| - 1];
    AfterPush(es);
    if r in After(before).ids {
      SegmentIsAStretch(before, r);
      var p: nat, q: nat :| Stretch(before, r, p, q);
      StretchPush(es, r, p, q);
    } else {
      UnknownClientHasNothing(before, r);
      NewClient(After(before), e, r);
      assert es[..|es|] == es;
      assert Segment(es, r) == [] && Dispatched(es) == Dispatched(before) == Dispatched(before) + [];
      assert Stretch(es, r, |before|, |es|);
    }
  }

  // ----- the hub itself -----

  class Client {
    const ref: Ref
    const id: string
    var events: seq<Event>
    var closed: bool

    constructor (ref: Ref, id: string)
      ensures this.ref == ref && this.id == id && events == [] && !closed
    {
      this.ref, this.id, events, closed := ref, id, [], false;
    }

    /** A send that does not block. */
    method TrySend(event: Event)
      requires !closed
      modifies `events
      ensures events == if |old(events)| < CLIENT_BUFFER then old(events) + [event] else old(events)
    {
      if |events| < CLIENT_BUFFER {
        events := events + [event];
      }
    }
  }

  function RefsOf(clients: map<string, Client>): map<string, Ref> {
    map i | i in clients :: clients[i].ref
  }

  function IdsOf(all: map<Ref, Client>): map<Ref, string> {
    map r | r in all :: all[r].id
  }

  ghost function EventsOf(all: map<Ref, Client>): map<Ref, seq<Event>>
    reads all.Values
  {
    map r | r in all :: all[r].events
  }

  ghost function ClosedOf(all: map<Ref, Client>): set<Ref>
    reads all.Values
  {
    set r | r in all && all[r].closed
  }

  lemma ClientsUpdate(clients: map<string, Client>, c: Client)
    ensures RefsOf(clients[c.id := c]) == RefsOf(clients)[c.id := c.ref]
    ensures RefsOf(clients - {c.id}) == RefsOf(clients) - {c.id}
  {
  }

  lemma NewClientInAll(all: map<Ref, Client>, c: Client)
    requires c.ref !in all && c.events == [] && !c.closed
    ensures IdsOf(all[c.ref := c]) == IdsOf(all)[c.ref := c.id]
    ensures EventsOf(all[c.ref := c]) == EventsOf(all)[c.ref := []]
    ensures ClosedOf(all[c.ref := c]) == ClosedOf(all)
  {
  }

  class Hub {
    var clients: map<string, Client>
    var broadcast: seq<Event>
    var running: bool
    ghost var all: map<Ref, Client>
    ghost var received: map<Ref, seq<Event>>
    ghost var removed: set<Ref>

    ghost predicate Valid()
      reads this
    {
      && (forall i | i in clients :: clients[i].ref in all && all[clients[i].ref] == clients[i] && clients[i].id == i)
      && (forall r | r in all :: all[r].ref == r)
    }

    ghost function View(): State
      reads this, all.Values
    {
      State(RefsOf(clients), IdsOf(all), EventsOf(all), received, ClosedOf(all), removed, broadcast, running, false)
    }

    constructor ()
      ensures Valid() && View() == INITIAL
    {
      clients, broadcast, running, all, received, removed := map[], [], true, map[], map[], {};
    }

    method HandleRegister(client: Client)
      requires Valid() && Enabled(View(), Register(client.ref, client.id)) && client.events == [] && !client.closed
      modifies this
      ensures Valid() && all == old(all)[client.ref := client]
      ensures View() == Apply(old(View()), Register(client.ref, client.id))
    {
      hide RefsOf, IdsOf, EventsOf, ClosedOf, Valid;
      ClientsUpdate(clients, client);
      InIds(client.ref);
      NewClientInAll(all, client);
      AddClient(client);
    }

    method AddClient(client: Client)
      requires Valid() && client.ref !in all
      modifies this
      ensures Valid() && all == old(all)[client.ref := client] && clients == old(clients)[client.id := client]
      ensures received == old(received)[client.ref := []]
      ensures broadcast == old(broadcast) && running == old(running) && removed == old(removed)
    {
      clients := clients[client.id := client];
      all, received := all[client.ref := client], received[client.ref := []];
    }

    lemma InIds(r: Ref)
      ensures r in IdsOf(all) <==> r in all
    {
    }

    method HandleUnregister(client: Client) returns (panicked: bool)
      requires Valid() && client.ref in all && all[client.ref] == client && Enabled(View(), Unregister(client.ref))
      modifies this, client
      ensures Valid() && all == old(all)
      ensures panicked <==> Apply(old(View()), Unregister(client.ref)).panicked
      ensures !panicked ==> View() == Apply(old(View()), Unregister(client.ref))
    {
      hide RefsOf, IdsOf, EventsOf, ClosedOf, OfferTo;
      panicked := false;
      removed := removed + {client.ref};
      InClosed(all, client);
      InRefs(client.id);
      if client.id in clients {
        ClientsUpdate(clients, client);
        clients := clients - {client.id};
        if client.closed {
          return true;
        }
        CloseChannel(client);
      }
    }

    method CloseChannel(client: Client)
      requires Valid() && client.ref in all && all[client.ref] == client
      modifies client`closed
      ensures ClosedOf(all) == old(ClosedOf(all)) + {client.ref} && EventsOf(all) == old(EventsOf(all))
    {
      client.closed := true;
    }

    lemma InClosed(all: map<Ref, Client>, client: Client)
      requires client.ref in all && all[client.ref] == client
      ensures client.ref in ClosedOf(all) <==> client.closed
      ensures client.ref in IdsOf(all) && IdsOf(all)[client.ref] == client.id
    {
    }

    lemma InRefs(id: string)
      ensures id in clients <==> id in RefsOf(clients)
    {
    }

    /** Broadcast: never blocks the caller. */
    method Broadcast(event: Event)
      requires Valid() && Enabled(View(), Publish(event))
      modifies `broadcast
      ensures Valid() && View() == Apply(old(View()), Publish(event))
    {
      if |broadcast| < BROADCAST_BUFFER {
        broadcast := broadcast + [event];
      }
    }

    ghost predicate IsConnected(r: Ref)
      reads this
    {
      r in all && all[r].id in clients && clients[all[r].id] == all[r]
    }

    lemma ConnectedInView(r: Ref)
      requires Valid() && r in all
      ensures IsConnected(r) <==> Connected(View(), r)
    {
      if IsConnected(r) {
        assert View().clients[all[r].id] == r;
      }
    }

    /** The broadcast case after the receive. */
    method OfferAll(event: Event) returns (panicked: bool)
      requires Valid()
      modifies clients.Values`events
      ensures panicked <==> exists r | r in RefsOf(clients).Values :: r in ClosedOf(all)
      ensures ClosedOf(all) == old(ClosedOf(all))
      ensures !panicked ==> EventsOf(all) == OfferTo(old(EventsOf(all)), RefsOf(clients).Values, event)
    {
      hide RefsOf, IdsOf, OfferTo, Offer, IsConnected;
      ghost var queue := EventsOf(all);
      panicked := OfferLoop(event);
      PanicInView();
      if !panicked {
        OffersInView(queue, event);
      }
    }

    lemma OffersInView(queue: map<Ref, seq<Event>>, event: Event)
      requires Valid() && queue.Keys == all.Keys
      requires forall r | r in all :: all[r].events == if IsConnected(r) then Offer(queue[r], event) else queue[r]
      ensures EventsOf(all) == OfferTo(queue, RefsOf(clients).Values, event)
    {
      forall r | r in all ensures IsConnected(r) <==> r in RefsOf(clients).Values {
        ConnectedInView(r);
      }
    }

    /** Its loop: one non-blocking send per client. */
    method OfferLoop(event: Event) returns (panicked: bool)
      requires Valid()
      modifies clients.Values`events
      ensures panicked <==> exists i :: i in clients && clients[i].closed
      ensures !panicked ==> forall r | r in all ::
                all[r].events == if IsConnected(r) then Offer(old(all[r].events), event) else old(all[r].events)
    {
      var todo := clients.Keys;
      while todo != {}
        invariant todo <= clients.Keys
        invariant forall i | i in clients && i !in todo :: !clients[i].closed
        invariant forall r | r in all :: all[r].events ==
                    if IsConnected(r) && all[r].id !in todo then Offer(old(all[r].events), event) else old(all[r].events)
        decreases |todo|
      {
        var i :| i in todo;
        var client := clients[i];
        if client.closed {
          return true;
        }
        client.TrySend(event);
        todo := todo - {i};
      }
      panicked := false;
    }

    /** The loop of the shutdown case. */
    method CloseAll() returns (panicked: bool)
      requires Valid()
      modifies clients.Values`closed
      ensures panicked <==> exists i :: i in clients && old(clients[i].closed)
      ensures !panicked ==> forall r | r in all :: all[r].closed <==> old(all[r].closed) || IsConnected(r)
    {
      var todo := clients.Keys;
      while todo != {}
        invariant todo <= clients.Keys
        invariant forall i | i in clients && i !in todo :: !old(clients[i].closed)
        invariant forall r | r in all :: all[r].closed <==>
                    old(all[r].closed) || (IsConnected(r) && all[r].id !in todo)
        decreases |todo|
      {
        var i :| i in todo;
        var client := clients[i];
        assert IsConnected(client.ref);
        if client.closed {
          return true;
        }
        client.closed := true;
        todo := todo - {i};
      }
      panicked := false;
    }

    lemma PanicInView()
      requires Valid()
      ensures (exists i :: i in clients && clients[i].closed)
         <==> (exists r | r in RefsOf(clients).Values :: r in ClosedOf(all))
    {
      if i :| i in clients && clients[i].closed {
        assert RefsOf(clients)[i] == clients[i].ref;
        assert clients[i].ref in RefsOf(clients).Values && clients[i].ref in ClosedOf(all);
      }
      if r :| r in RefsOf(clients).Values && r in ClosedOf(all) {
        var i :| i in RefsOf(clients) && RefsOf(clients)[i] == r;
        assert i in clients && clients[i].closed;
      }
    }

    method HandleBroadcast() returns (panicked: bool)
      requires Valid() && Enabled(View(), Dispatch)
      modifies `broadcast, clients.Values`events
      ensures Valid()
      ensures panicked <==> Apply(old(View()), Dispatch).panicked
      ensures !panicked ==> View() == Apply(old(View()), Dispatch)
    {
      hide RefsOf, IdsOf, EventsOf, ClosedOf, OfferTo;
      var event := broadcast[0];
      broadcast := broadcast[1..];
      panicked := OfferAll(event);
    }

    /** The shutdown case before the hub forgets its clients. */
    method CloseChannels() returns (panicked: bool)
      requires Valid()
      modifies clients.Values`closed
      ensures panicked <==> exists r | r in RefsOf(clients).Values :: r in old(ClosedOf(all))
      ensures EventsOf(all) == old(EventsOf(all))
      ensures !panicked ==> ClosedOf(all) == old(ClosedOf(all)) + RefsOf(clients).Values
    {
      PanicInView();
      forall r | r in all ensures IsConnected(r) <==> Connected(View(), r) {
        ConnectedInView(r);
      }
      ghost var closed, gone := ClosedOf(all), RefsOf(clients).Values;
      assert gone <= all.Keys;
      panicked := CloseAll();
      assert !panicked ==> ClosedOf(all) == closed + gone;
    }

    method HandleShutdown() returns (panicked: bool)
      requires Valid() && Enabled(View(), Step.Shutdown)
      modifies `clients, `running, clients.Values`closed
      ensures Valid()
      ensures panicked <==> Apply(old(View()), Step.Shutdown).panicked
      ensures !panicked ==> View() == Apply(old(View()), Step.Shutdown)
    {
      hide RefsOf, IdsOf, EventsOf, ClosedOf, OfferTo;
      panicked := CloseChannels();
      NoClients();
      if !panicked {
        clients := map[];
        running := false;
      }
    }

    lemma NoClients()
      ensures RefsOf(map[]) == map[]
    {
    }
  }
}
