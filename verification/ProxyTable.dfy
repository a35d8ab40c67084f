/** The table of proxy requests waiting for an agent (server/websocket.go): how
    responses, stream chunks and stream ends reach the queue of the request they
    belong to. A reader is the goroutine that handles the messages of one agent
    connection; its lookup in the table and its send are separate steps. */
module ProxyTable {
  import opened Common

  type Id = string
  type Reader = nat

  datatype Msg = Chunk(id: Id, body: nat) | Response(id: Id, body: nat) | End(id: Id)

  predicate Terminal(m: Msg) {
    !m.Chunk?
  }

  /** `waiting` is the key set of proxyRequests; the queue of a request outlives
      its entry. `holding` says which reader is about to send what, `closed` which
      requests have closed their queue. */
  datatype State = State(waiting: set<Id>, capacity: map<Id, nat>, queue: map<Id, seq<Msg>>,
                         received: map<Id, seq<Msg>>, holding: map<Reader, Msg>, closed: set<Id>)

  datatype Step =
    | Open(id: Id, capacity: nat)
    | Handle(reader: Reader, msg: Msg)
    | Deliver(reader: Reader)
    | GiveUp(reader: Reader)
    | Receive(id: Id)
    | Abandon(id: Id)
    | Finish(id: Id)

  const INITIAL := State({}, map[], map[], map[], map[], {})

  ghost predicate WellFormed(s: State) {
    && s.waiting <= s.queue.Keys == s.received.Keys == s.capacity.Keys
    && s.closed <= s.queue.Keys && s.waiting !! s.closed
    && forall r | r in s.holding :: s.holding[r].id in s.queue
  }

  predicate HasRoom(s: State, id: Id) {
    id in s.queue && id in s.capacity && |s.queue[id]| < s.capacity[id]
  }

  /** The reader is about to send to a closed queue, which is a panic. */
  predicate Doomed(s: State, r: Reader) {
    r in s.holding && s.holding[r].id in s.closed
  }

  /** Request ids are unique, a reader handles one message at a time. A chunk
      that finds the queue full is dropped at once; a response or stream end
      waits for room and may time out at any moment. The handler of a streamed
      request returns by Abandon, that of any other by Finish. */
  predicate Enabled(s: State, e: Step) {
    match e
    case Open(id, _) => id !in s.queue
    case Handle(r, _) => r !in s.holding
    case Deliver(r) => r in s.holding && !Doomed(s, r) && HasRoom(s, s.holding[r].id)
    case GiveUp(r) => r in s.holding && !Doomed(s, r) && (Terminal(s.holding[r]) || !HasRoom(s, s.holding[r].id))
    case Receive(id) => id in s.queue && id in s.received && s.queue[id] != []
    case Abandon(_) => true
    case Finish(id) => id in s.queue && id !in s.closed
  }

  function Apply(s: State, e: Step): State
    requires Enabled(s, e)
  {
    match e
    case Open(id, n) =>
      s.(waiting := s.waiting + {id}, capacity := s.capacity[id := n],
         queue := s.queue[id := []], received := s.received[id := []])
    case Handle(r, m) =>
      if m.id !in s.waiting then s
      else s.(waiting := if Terminal(m) then s.waiting - {m.id} else s.waiting, holding := s.holding[r := m])
    case Deliver(r) =>
      var m := s.holding[r];
      s.(queue := s.queue[m.id := s.queue[m.id] + [m]], holding := s.holding - {r})
    case GiveUp(r) =>
      s.(holding := s.holding - {r})
    case Receive(id) =>
      s.(queue := s.queue[id := s.queue[id][1..]], received := s.received[id := s.received[id] + [s.queue[id][0]]])
    case Abandon(id) =>
      s.(waiting := s.waiting - {id})
    case Finish(id) =>
      s.(waiting := s.waiting - {id}, closed := s.closed + {id})
  }

  function Run(es: seq<Step>): Option<State> {
    if es == [] then Some(INITIAL)
    else
      match Run(es[..|es| - 1])
      case None => None
      case Some(s) => if Enabled(s, es[|es| - 1]) then Some(Apply(s, es[|es| - 1])) else None
  }

  predicate Possible(es: seq<Step>) {
    Run(es).Some?
  }

  function After(es: seq<Step>): State
    requires Possible(es)
  {
    Run(es).value
  }

  lemma AfterPush(es: seq<Step>)
    requires es != [] && Possible(es)
    ensures var before := es[..|es| - 1];
            && Possible(before) && Enabled(After(before), es[|es| - 1])
            && After(es) == Apply(After(before), es[|es| - 1])
  {
  }

  /** Everything ever put into the queue of `id`, in order. */
  function Log(s: State, id: Id): seq<Msg> {
    if id in s.queue && id in s.received then s.received[id] + s.queue[id] else []
  }

  // ----- at most one terminal message -----

  ghost predicate NoTerminal(log: seq<Msg>) {
    forall i | 0 <= i < |log| :: !Terminal(log[i])
  }

  ghost predicate AtMostOneTerminal(log: seq<Msg>) {
    forall i, j | 0 <= i < j < |log| :: !(Terminal(log[i]) && Terminal(log[j]))
  }

  predicate HoldsTerminal(s: State, r: Reader, id: Id) {
    r in s.holding && Terminal(s.holding[r]) && s.holding[r].id == id
  }

  /** The right to send the terminal message of `id` is with the table, or with
      one reader, or used up. */
  ghost predicate OneTerminal(s: State, id: Id) {
    && WellFormed(s)
    && (id in s.waiting ==> forall r :: !HoldsTerminal(s, r, id))
    && (forall r, q :: HoldsTerminal(s, r, id) && HoldsTerminal(s, q, id) ==> r == q)
    && (id in s.waiting || (exists r :: HoldsTerminal(s, r, id)) ==> NoTerminal(Log(s, id)))
    && AtMostOneTerminal(Log(s, id))
  }

  lemma LogAfter(s: State, e: Step, id: Id)
    requires WellFormed(s) && Enabled(s, e)
    ensures WellFormed(Apply(s, e))
    ensures Log(Apply(s, e), id)
         == Log(s, id) + if e.Deliver? && s.holding[e.reader].id == id then [s.holding[e.reader]] else []
  {
    if e.Receive? && e.id == id {
      assert s.queue[id] == [s.queue[id][0]] + s.queue[id][1..];
    }
  }

  lemma ApplyKeepsOneTerminal(s: State, e: Step, id: Id)
    requires OneTerminal(s, id) && Enabled(s, e)
    ensures OneTerminal(Apply(s, e), id)
  {
    LogAfter(s, e, id);
    var t := Apply(s, e);
    forall r | HoldsTerminal(t, r, id) && !(e.Handle? && e.reader == r)
      ensures HoldsTerminal(s, r, id) && !((e.Deliver? || e.GiveUp?) && e.reader == r)
    {
    }
    if e.Deliver? && HoldsTerminal(s, e.reader, id) {
      assert forall r :: !HoldsTerminal(t, r, id);
      assert id !in t.waiting;
    } else if e.Handle? && HoldsTerminal(t, e.reader, id) && !HoldsTerminal(s, e.reader, id) {
      assert id in s.waiting;
    }
    assert NoTerminal(Log(s, id)) && !(e.Deliver? && HoldsTerminal(s, e.reader, id)) ==> NoTerminal(Log(t, id));
  }

  /** Whatever the readers, the request handlers and the timeouts do, a request
      gets at most one response or stream end. */
  lemma {:induction false} OneTerminalInEveryRun(es: seq<Step>, id: Id)
    requires Possible(es)
    ensures OneTerminal(After(es), id)
  {
    if es != [] {
      OneTerminalInEveryRun(es[..|es| - 1], id);
      ApplyKeepsOneTerminal(After(es[..|es| - 1]), es[|es| - 1], id);
    }
  }

  // ----- no message is made up or disappears -----

  /** `id` was opened at step p, and since then no terminal message of it was
      handled and its handler has not returned. */
  ghost predicate WaitingSince(es: seq<Step>, id: Id, p: nat) {
    && p < |es| && es[p].Open? && es[p].id == id
    && forall j | p < j < |es| ::
         !(es[j].Handle? && es[j].msg.id == id && Terminal(es[j].msg)) && es[j] != Abandon(id) && es[j] != Finish(id)
  }

  lemma ApplyWaiting(s: State, e: Step, id: Id)
    requires Enabled(s, e)
    ensures id in Apply(s, e).waiting <==>
              || (e.Open? && e.id == id)
              || (id in s.waiting && !(e.Handle? && e.msg.id == id && Terminal(e.msg)) && e != Abandon(id) && e != Finish(id))
  {
  }

  lemma WaitingPush(es: seq<Step>, before: seq<Step>, id: Id)
    requires es != [] && before == es[..|es| - 1]
    ensures (exists p: nat :: WaitingSince(es, id, p)) <==>
              var e := es[|before|];
              || (e.Open? && e.id == id)
              || ((exists p: nat :: WaitingSince(before, id, p))
                  && !(e.Handle? && e.msg.id == id && Terminal(e.msg)) && e != Abandon(id) && e != Finish(id))
  {
    assert forall i | 0 <= i < |before| :: es[i] == before[i];
    if p: nat :| WaitingSince(es, id, p) {
      assert p < |before| ==> WaitingSince(before, id, p);
    }
    if es[|before|].Open? && es[|before|].id == id {
      assert WaitingSince(es, id, |before|);
    }
    if p: nat :| WaitingSince(before, id, p) {
      var e := es[|before|];
      assert !(e.Handle? && e.msg.id == id && Terminal(e.msg)) && e != Abandon(id) && e != Finish(id) ==> WaitingSince(es, id, p);
    }
  }

  /** A request waits exactly from its opening until a terminal message of it is
      handled or its handler returns. */
  lemma {:induction false} WaitingIff(es: seq<Step>, id: Id)
    requires Possible(es)
    ensures id in After(es).waiting <==> exists p: nat :: WaitingSince(es, id, p)
  {
    hide Apply, Enabled;
    if es != [] {
      var before := es[..|es| - 1];
      AfterPush(es);
      WaitingIff(before, id);
      ApplyWaiting(After(before), es[|before|], id);
      WaitingPush(es, before, id);
    }
  }

  /** The messages reader `r` has handled while their request was waiting. */
  function TakenBy(es: seq<Step>, r: Reader): seq<Msg>
    requires Possible(es)
  {
    if es == [] then []
    else
      var before, e := es[..|es| - 1], es[|es| - 1];
      TakenBy(before, r) + if e.Handle? && e.reader == r && e.msg.id in After(before).waiting then [e.msg] else []
  }

  /** The messages it has delivered or given up. */
  function SettledBy(es: seq<Step>, r: Reader): seq<Msg>
    requires Possible(es)
  {
    if es == [] then []
    else
      var before, e := es[..|es| - 1], es[|es| - 1];
      SettledBy(before, r)
      + if (e.Deliver? || e.GiveUp?) && e.reader == r && r in After(before).holding then [After(before).holding[r]] else []
  }

  function HeldBy(s: State, r: Reader): seq<Msg> {
    if r in s.holding then [s.holding[r]] else []
  }

  lemma ApplyHeld(s: State, e: Step, r: Reader)
    requires Enabled(s, e)
    ensures HeldBy(s, r) + (if e.Handle? && e.reader == r && e.msg.id in s.waiting then [e.msg] else [])
         == (if (e.Deliver? || e.GiveUp?) && e.reader == r && r in s.holding then [s.holding[r]] else [])
            + HeldBy(Apply(s, e), r)
  {
    assert HeldBy(s, r) + [] == HeldBy(s, r) == [] + HeldBy(s, r);
  }

  /** In every run each reader delivers or gives up exactly what it has handled, one
      by one and in order, but for the message it still holds. */
  lemma {:induction false} ReadersSettleInOrder(es: seq<Step>, r: Reader)
    requires Possible(es)
    ensures TakenBy(es, r) == SettledBy(es, r) + HeldBy(After(es), r)
  {
    hide Apply, Enabled, HeldBy;
    if es != [] {
      var before, e := es[..|es| - 1], es[|es| - 1];
      AfterPush(es);
      ReadersSettleInOrder(before, r);
      ApplyHeld(After(before), e, r);
      var s := After(before);
      var taken := if e.Handle? && e.reader == r && e.msg.id in s.waiting then [e.msg] else [];
      var settled := if (e.Deliver? || e.GiveUp?) && e.reader == r && r in s.holding then [s.holding[r]] else [];
      Regroup(SettledBy(before, r), HeldBy(s, r), taken);
      Regroup(SettledBy(before, r), settled, HeldBy(After(es), r));
    } else {
      NobodyHolds(r);
    }
  }

  lemma NobodyHolds(r: Reader)
    ensures Possible([]) && HeldBy(After([]), r) == []
  {
  }

  lemma Regroup(a: seq<Msg>, b: seq<Msg>, c: seq<Msg>)
    ensures a + b + c == a + (b + c)
  {
  }

  /** The messages of `id` delivered so far, by any reader. */
  function Delivered(es: seq<Step>, id: Id): seq<Msg>
    requires Possible(es)
  {
    if es == [] then []
    else
      var before, e := es[..|es| - 1], es[|es| - 1];
      Delivered(before, id)
      + if e.Deliver? && e.reader in After(before).holding && After(before).holding[e.reader].id == id
        then [After(before).holding[e.reader]] else []
  }

  /** What has gone into a queue is what was delivered to it, in that order, and the
      queue never outgrows its capacity. */
  lemma {:induction false} QueueHoldsDelivered(es: seq<Step>, id: Id)
    requires Possible(es)
    ensures var s := After(es);
            && WellFormed(s) && Log(s, id) == Delivered(es, id)
            && (id in s.queue ==> |s.queue[id]| <= s.capacity[id])
            && (id in s.queue <==> exists i :: 0 <= i < |es| && es[i].Open? && es[i].id == id)
            && (forall i | 0 <= i < |es| && es[i].Open? && es[i].id == id :: s.capacity[id] == es[i].capacity)
  {
    if es != [] {
      hide Log;
      var before, e := es[..|es| - 1], es[|es| - 1];
      AfterPush(es);
      QueueHoldsDelivered(before, id);
      LogAfter(After(before), e, id);
      assert Delivered(before, id) + [] == Delivered(before, id);
      assert forall i | 0 <= i < |before| :: es[i] == before[i];
      assert e.Open? && e.id == id ==> es[|before|] == e;
    }
  }

  // ----- one reader delivers in order -----

  /** All messages of `id` come through reader `r`. */
  ghost predicate OnlyReader(es: seq<Step>, r: Reader, id: Id) {
    forall i | 0 <= i < |es| && es[i].Handle? && es[i].msg.id == id :: es[i].reader == r
  }

  /** Nobody but `r` is about to send a message of `id`. */
  ghost predicate HeldOnlyBy(s: State, r: Reader, id: Id) {
    WellFormed(s) && forall q | q in s.holding && s.holding[q].id == id :: q == r
  }

  /** The chunks of `id` handled while the request was waiting. */
  function SentChunks(es: seq<Step>, id: Id): seq<Msg>
    requires Possible(es)
  {
    if es == [] then []
    else
      var before, e := es[..|es| - 1], es[|es| - 1];
      SentChunks(before, id)
      + if e.Handle? && e.msg.Chunk? && e.msg.id == id && id in After(before).waiting then [e.msg] else []
  }

  /** What concerns one request when `r` is its only reader. */
  datatype Outlook = Outlook(log: seq<Msg>, held: Option<Msg>, waiting: bool)

  function OutlookOf(s: State, r: Reader, id: Id): Outlook {
    Outlook(Log(s, id),
            if r in s.holding && s.holding[r].id == id then Some(s.holding[r]) else None,
            id in s.waiting)
  }

  function Advance(v: Outlook, e: Step, id: Id): Outlook {
    match e
    case Open(i, _) => if i == id then v.(waiting := true) else v
    case Handle(_, m) =>
      if m.id == id && v.waiting then v.(held := Some(m), waiting := !Terminal(m)) else v
    case Deliver(_) => if v.held.Some? then v.(log := v.log + [v.held.value], held := None) else v
    case GiveUp(_) => v.(held := None)
    case Receive(_) => v
    case Abandon(i) => if i == id then v.(waiting := false) else v
    case Finish(i) => if i == id then v.(waiting := false) else v
  }

  /** The send of another reader, or of `r` for another request, leaves the outlook alone. */
  predicate Elsewhere(s: State, e: Step, r: Reader, id: Id) {
    (e.Deliver? || e.GiveUp?) && !(e.reader == r && r in s.holding && s.holding[r].id == id)
  }

  lemma OutlookAdvances(s: State, r: Reader, id: Id, e: Step)
    requires HeldOnlyBy(s, r, id) && Enabled(s, e) && (e.Handle? && e.msg.id == id ==> e.reader == r)
    ensures HeldOnlyBy(Apply(s, e), r, id)
    ensures Fits(OutlookOf(s, r, id), e, id)
    ensures OutlookOf(Apply(s, e), r, id) ==
            if Elsewhere(s, e, r, id) then OutlookOf(s, r, id) else Advance(OutlookOf(s, r, id), e, id)
  {
    hide Log;
    LogAfter(s, e, id);
    assert Log(s, id) + [] == Log(s, id);
    if e.Open? && e.id == id {
      NothingLogged(s, id);
    }
  }

  lemma NothingLogged(s: State, id: Id)
    requires id !in s.queue
    ensures Log(s, id) == []
  {
  }

  lemma {:induction false} OnlyReaderHolds(es: seq<Step>, r: Reader, id: Id)
    requires Possible(es) && OnlyReader(es, r, id)
    ensures HeldOnlyBy(After(es), r, id)
  {
    if es != [] {
      OnlyReaderHolds(es[..|es| - 1], r, id);
      assert es[|es| - 1].Handle? && es[|es| - 1].msg.id == id ==> es[|es| - 1].reader == r;
      OutlookAdvances(After(es[..|es| - 1]), r, id, es[|es| - 1]);
    }
  }

  /** The log without the terminal message that may close it. */
  function ChunkPart(log: seq<Msg>): seq<Msg> {
    if log != [] && Terminal(log[|log| - 1]) then log[..|log| - 1] else log
  }

  function HeldChunk(v: Outlook): seq<Msg> {
    if v.held.Some? && v.held.value.Chunk? then [v.held.value] else []
  }

  /** The log is chunks and then possibly one terminal message, and there is none
      yet while a message can still come. */
  ghost predicate Closing(v: Outlook) {
    && NoTerminal(ChunkPart(v.log))
    && (v.waiting || v.held.Some? ==> NoTerminal(v.log))
    && (v.waiting && v.held.Some? ==> v.held.value.Chunk?)
  }

  lemma ChunkPartPush(log: seq<Msg>, m: Msg)
    requires NoTerminal(log)
    ensures ChunkPart(log) == log
    ensures ChunkPart(log + [m]) == if m.Chunk? then log + [m] else log
  {
    assert (log + [m])[..|log|] == log;
  }

  /** What an enabled step of the only reader knows about the request. */
  predicate Fits(v: Outlook, e: Step, id: Id) {
    && (e.Handle? && e.msg.id == id ==> v.held.None?)
    && (e.Open? && e.id == id ==> v == Outlook([], None, false))
  }

  lemma DeliverChunks(v: Outlook, id: Id, r: Reader)
    requires Closing(v)
    ensures var v' := Advance(v, Deliver(r), id);
            Closing(v') && ChunkPart(v'.log) + HeldChunk(v') == ChunkPart(v.log) + HeldChunk(v)
  {
    if v.held.Some? {
      ChunkPartPush(v.log, v.held.value);
      assert v.log + [v.held.value] + [] == v.log + [v.held.value] && v.log + [] == v.log;
    }
  }

  /** How one step changes the chunks delivered or about to be delivered. */
  lemma AdvanceChunks(v: Outlook, e: Step, id: Id)
    requires Closing(v) && Fits(v, e, id)
    ensures Closing(Advance(v, e, id))
    ensures var now, later := ChunkPart(v.log) + HeldChunk(v),
                              ChunkPart(Advance(v, e, id).log) + HeldChunk(Advance(v, e, id));
            if e.Handle? && e.msg.Chunk? && e.msg.id == id && v.waiting then later == now + [e.msg]
            else if e.GiveUp? then now == later || (HeldChunk(v) != [] && now == later + HeldChunk(v))
            else later == now
  {
    if e.Deliver? {
      DeliverChunks(v, id, e.reader);
    } else {
      assert Advance(v, e, id).log == v.log;
      assert ChunkPart(v.log) + [] == ChunkPart(v.log);
    }
  }

  lemma {:induction false} DropLast(xs: seq<Msg>, y: Msg, ys: seq<Msg>)
    requires IsSubsequence(xs + [y], ys)
    ensures IsSubsequence(xs, ys)
  {
    assert (xs + [y])[..|xs|] == xs;
    if ys != [] && IsSubsequence(xs + [y], ys[..|ys| - 1]) {
      DropLast(xs, y, ys[..|ys| - 1]);
    }
  }

  /** With a single reader for a request, its queue is an in-order subsequence of
      the chunks sent to it, followed by at most its terminal message; whatever
      other readers and requests do. */
  lemma {:induction false} SingleReaderKeepsOrder(es: seq<Step>, r: Reader, id: Id)
    requires Possible(es) && OnlyReader(es, r, id)
    ensures var v := OutlookOf(After(es), r, id);
            && v.log == Log(After(es), id)
            && Closing(v) && IsSubsequence(ChunkPart(v.log) + HeldChunk(v), SentChunks(es, id))
  {
    if es != [] {
      var before, e := es[..|es| - 1], es[|es| - 1];
      var s, sent := After(before), SentChunks(before, id);
      assert es[|es| - 1] == e;
      SingleReaderKeepsOrder(before, r, id);
      OnlyReaderHolds(before, r, id);
      OutlookAdvances(s, r, id, e);
      assert sent + [] == sent;
      if !Elsewhere(s, e, r, id) {
        AdvanceChunks(OutlookOf(s, r, id), e, id);
        StillSubsequence(OutlookOf(s, r, id), e, id, sent);
      }
    }
  }

  lemma StillSubsequence(v: Outlook, e: Step, id: Id, sent: seq<Msg>)
    requires Closing(v) && Fits(v, e, id)
    requires IsSubsequence(ChunkPart(v.log) + HeldChunk(v), sent)
    ensures var v' := Advance(v, e, id);
            var sent' := if e.Handle? && e.msg.Chunk? && e.msg.id == id && v.waiting then sent + [e.msg] else sent;
            IsSubsequence(ChunkPart(v'.log) + HeldChunk(v'), sent')
  {
    AdvanceChunks(v, e, id);
    hide *;
    var now := ChunkPart(v.log) + HeldChunk(v);
    var v' := Advance(v, e, id);
    var later := ChunkPart(v'.log) + HeldChunk(v');
    if e.Handle? {
      SubsequencePush(now, sent, e.msg);
    } else if e.GiveUp? && now != later {
      HeldChunkIsOne(v);
      DropLast(later, HeldChunk(v)[0], sent);
    }
  }

  lemma HeldChunkIsOne(v: Outlook)
    requires HeldChunk(v) != []
    ensures HeldChunk(v) == [HeldChunk(v)[0]]
  {
  }

  /** The chunks of `id` that found its queue full. */
  function Dropped(es: seq<Step>, id: Id): nat
    requires Possible(es)
  {
    if es == [] then 0
    else
      var before, e := es[..|es| - 1], es[|es| - 1];
      Dropped(before, id) + One(Drops(After(before), e, id))
  }

  predicate Drops(s: State, e: Step, id: Id) {
    e.GiveUp? && e.reader in s.holding && s.holding[e.reader].Chunk? && s.holding[e.reader].id == id
  }

  lemma {:induction false} ChunksAreConserved(es: seq<Step>, r: Reader, id: Id)
    requires Possible(es) && OnlyReader(es, r, id)
    ensures var v := OutlookOf(After(es), r, id);
            && |ChunkPart(v.log) + HeldChunk(v)| + Dropped(es, id) == |SentChunks(es, id)|
            && (Dropped(es, id) == 0 ==> ChunkPart(v.log) + HeldChunk(v) == SentChunks(es, id))
  {
    if es != [] {
      var before, e := es[..|es| - 1], es[|es| - 1];
      hide Advance, Enabled, Apply, HeldOnlyBy, ChunkPart, HeldChunk, OutlookOf, Elsewhere, Drops, Closing;
      var s := After(before);
      assert es[|es| - 1] == e;
      AfterPush(es);
      ChunksAreConserved(before, r, id);
      SingleReaderKeepsOrder(before, r, id);
      OnlyReaderHolds(before, r, id);
      OutlookAdvances(s, r, id, e);
      assert SentChunks(before, id) + [] == SentChunks(before, id);
      DropsHeldChunk(s, e, r, id);
      if !Elsewhere(s, e, r, id) {
        CountStep(OutlookOf(s, r, id), e, id, SentChunks(before, id), Dropped(before, id));
      }
    }
  }

  lemma DropsHeldChunk(s: State, e: Step, r: Reader, id: Id)
    requires HeldOnlyBy(s, r, id) && Enabled(s, e)
    ensures One(Drops(s, e, id)) ==
            if e.GiveUp? && !Elsewhere(s, e, r, id) then |HeldChunk(OutlookOf(s, r, id))| else 0
  {
  }

  lemma CountStep(v: Outlook, e: Step, id: Id, sent: seq<Msg>, dropped: nat)
    requires Closing(v) && Fits(v, e, id) && |ChunkPart(v.log) + HeldChunk(v)| + dropped == |sent|
    requires dropped == 0 ==> ChunkPart(v.log) + HeldChunk(v) == sent
    ensures var v' := Advance(v, e, id);
            var sent' := if e.Handle? && e.msg.Chunk? && e.msg.id == id && v.waiting then sent + [e.msg] else sent;
            var dropped' := dropped + if e.GiveUp? then |HeldChunk(v)| else 0;
            && |ChunkPart(v'.log) + HeldChunk(v')| + dropped' == |sent'|
            && (dropped' == 0 ==> ChunkPart(v'.log) + HeldChunk(v') == sent')
  {
    hide *;
    AdvanceChunks(v, e, id);
    if e.GiveUp? {
      GivenUpChunk(v, e, id);
    }
  }

  lemma GivenUpChunk(v: Outlook, e: Step, id: Id)
    requires Closing(v) && e.GiveUp?
    ensures var v' := Advance(v, e, id);
            |ChunkPart(v.log) + HeldChunk(v)| == |ChunkPart(v'.log) + HeldChunk(v')| + |HeldChunk(v)|
            && (HeldChunk(v) == [] ==> ChunkPart(v.log) + HeldChunk(v) == ChunkPart(v'.log) + HeldChunk(v'))
  {
  }

  /** And nothing is missing exactly if no chunk of it ever found the queue full. */
  lemma NothingLostIffNoDrops(es: seq<Step>, r: Reader, id: Id)
    requires Possible(es) && OnlyReader(es, r, id)
    ensures var v := OutlookOf(After(es), r, id);
            ChunkPart(v.log) + HeldChunk(v) == SentChunks(es, id) <==> Dropped(es, id) == 0
  {
    ChunksAreConserved(es, r, id);
  }

  // ----- several readers -----

  /** With two readers, as after a reconnect, a chunk can follow the response. */
  function Reordering(r: Reader, q: Reader, id: Id): seq<Step> {
    [Open(id, 2), Handle(r, Chunk(id, 7)), Handle(q, Response(id, 9)), Deliver(q), Deliver(r)]
  }

  lemma TwoReadersCanReorder(r: Reader, q: Reader, id: Id)
    requires r != q
    ensures var es := Reordering(r, q, id);
            Possible(es) && Log(After(es), id) == [Response(id, 9), Chunk(id, 7)]
  {
    var none: seq<Step> := [];
    var s1 := Apply(INITIAL, Open(id, 2));
    var s2 := Apply(s1, Handle(r, Chunk(id, 7)));
    var s3 := Apply(s2, Handle(q, Response(id, 9)));
    var s4 := Apply(s3, Deliver(q));
    var e1 := none + [Open(id, 2)];
    var e2 := e1 + [Handle(r, Chunk(id, 7))];
    var e3 := e2 + [Handle(q, Response(id, 9))];
    RunPush(none, Open(id, 2), INITIAL);
    RunPush(e1, Handle(r, Chunk(id, 7)), s1);
    RunPush(e2, Handle(q, Response(id, 9)), s2);
    RunPush(e3, Deliver(q), s3);
    RunPush(e3 + [Deliver(q)], Deliver(r), s4);
    assert Reordering(r, q, id) == e3 + [Deliver(q)] + [Deliver(r)];
  }

  /** All messages of `id` come through one of the readers in `rs`. */
  ghost predicate HandledBy(es: seq<Step>, rs: set<Reader>, id: Id) {
    forall i | 0 <= i < |es| && es[i].Handle? && es[i].msg.id == id :: es[i].reader in rs
  }

  ghost predicate NothingAfterTerminal(log: seq<Msg>) {
    forall i | 0 <= i < |log| - 1 :: !Terminal(log[i])
  }

  lemma ClosingLog(v: Outlook)
    requires Closing(v)
    ensures NothingAfterTerminal(v.log)
  {
    forall i | 0 <= i < |v.log| - 1 ensures !Terminal(v.log[i]) {
      assert ChunkPart(v.log)[i] == v.log[i];
    }
  }

  /** In every run whose messages of `id` come through the given readers nothing
      follows the terminal message, exactly if there is at most one such reader. */
  lemma OrderIffOneReader(rs: set<Reader>, id: Id)
    ensures (forall es | Possible(es) && HandledBy(es, rs, id) :: NothingAfterTerminal(Log(After(es), id))) <==> |rs| <= 1
  {
    if |rs| <= 1 {
      forall es | Possible(es) && HandledBy(es, rs, id) ensures NothingAfterTerminal(Log(After(es), id)) {
        var r := TheReader(rs);
        assert OnlyReader(es, r, id);
        SingleReaderKeepsOrder(es, r, id);
        ClosingLog(OutlookOf(After(es), r, id));
      }
    } else {
      var r :| r in rs;
      assert |rs - {r}| > 0;
      var q :| q in rs - {r};
      var es := Reordering(r, q, id);
      TwoReadersCanReorder(r, q, id);
      assert HandledBy(es, rs, id);
      assert Terminal(Log(After(es), id)[0]);
      assert !NothingAfterTerminal(Log(After(es), id));
    }
  }

  lemma TheReader(rs: set<Reader>) returns (r: Reader)
    requires |rs| <= 1
    ensures forall q | q in rs :: q == r
  {
    if rs == {} {
      r := 0;
    } else {
      r :| r in rs;
      assert |rs - {r}| == 0;
    }
  }

  lemma RunPush(es: seq<Step>, e: Step, s: State)
    requires Run(es) == Some(s) && Enabled(s, e)
    ensures Run(es + [e]) == Some(Apply(s, e))
  {
    assert (es + [e])[..|es|] == es;
  }

  // ----- sending to a closed queue -----

  /** Step i closes the queue for which reader r holds a message at that moment. */
  ghost predicate ClosedUnder(es: seq<Step>, i: nat, r: Reader) {
    && i < |es| && es[i].Finish? && Possible(es[..i])
    && r in After(es[..i]).holding && After(es[..i]).holding[r].id == es[i].id
  }

  lemma DoomedAfter(s: State, e: Step, r: Reader)
    requires WellFormed(s) && Enabled(s, e)
    ensures Doomed(Apply(s, e), r) <==>
              Doomed(s, r) || (e.Finish? && r in s.holding && s.holding[r].id == e.id)
  {
  }

  lemma ClosedUnderPush(es: seq<Step>, before: seq<Step>, r: Reader)
    requires es != [] && Possible(es) && before == es[..|es| - 1]
    ensures (exists i :: ClosedUnder(es, i, r)) <==>
              (exists i :: ClosedUnder(before, i, r)) || ClosedUnder(es, |before|, r)
  {
    forall i: nat | i < |before| ensures ClosedUnder(es, i, r) <==> ClosedUnder(before, i, r) {
      assert before[..i] == es[..i] && before[i] == es[i];
    }
    if i :| ClosedUnder(before, i, r) {
      assert ClosedUnder(es, i, r);
    }
  }

  /** A reader runs into a closed queue exactly when the handler of the request
      returns while the reader stands between its lookup and its send. */
  lemma {:induction false} ReaderIsDoomedIff(es: seq<Step>, r: Reader)
    requires Possible(es)
    ensures Doomed(After(es), r) <==> exists i :: ClosedUnder(es, i, r)
  {
    if es != [] {
      var before := es[..|es| - 1];
      ReaderIsDoomedIff(before, r);
      OneTerminalInEveryRun(before, "");
      DoomedAfter(After(before), es[|es| - 1], r);
      ClosedUnderPush(es, before, r);
    }
  }

  /** And that can happen: the response is taken, the handler times out, and the
      reader sends. */
  lemma FinishCanRace(id: Id)
    ensures var es := [Open(id, 1), Handle(0, Response(id, 9)), Finish(id)];
            Possible(es) && Doomed(After(es), 0)
  {
    var none: seq<Step> := [];
    var s1 := Apply(INITIAL, Open(id, 1));
    var s2 := Apply(s1, Handle(0, Response(id, 9)));
    var e1 := none + [Open(id, 1)];
    var e2 := e1 + [Handle(0, Response(id, 9))];
    RunPush(none, Open(id, 1), INITIAL);
    RunPush(e1, Handle(0, Response(id, 9)), s1);
    RunPush(e2, Finish(id), s2);
    assert [Open(id, 1), Handle(0, Response(id, 9)), Finish(id)] == e2 + [Finish(id)];
  }

  // ----- the table itself -----

  class Chan {
    const capacity: nat
    var queue: seq<Msg>
    var closed: bool

    constructor (capacity: nat)
      ensures this.capacity == capacity && queue == [] && !closed
    {
      this.capacity, queue, closed := capacity, [], false;
    }

    /** A send that does not block. */
    method TrySend(m: Msg) returns (sent: bool)
      requires !closed
      modifies `queue
      ensures sent <==> |old(queue)| < capacity
      ensures queue == if sent then old(queue) + [m] else old(queue)
    {
      sent := |queue| < capacity;
      if sent {
        queue := queue + [m];
      }
    }
  }

  function CapacitiesOf(chans: map<Id, Chan>): map<Id, nat> {
    map id | id in chans :: chans[id].capacity
  }

  ghost function QueuesOf(chans: map<Id, Chan>): map<Id, seq<Msg>>
    reads chans.Values
  {
    map id | id in chans :: chans[id].queue
  }

  ghost function ClosedOf(chans: map<Id, Chan>): set<Id>
    reads chans.Values
  {
    set id | id in chans && chans[id].closed
  }

  lemma NewChanInAll(chans: map<Id, Chan>, id: Id, c: Chan)
    requires id !in chans && c.queue == [] && !c.closed
    ensures ClosedOf(chans[id := c]) == ClosedOf(chans)
    ensures CapacitiesOf(chans[id := c]) == CapacitiesOf(chans)[id := c.capacity]
    ensures QueuesOf(chans[id := c]) == QueuesOf(chans)[id := []]
    ensures CapacitiesOf(chans).Keys == chans.Keys == QueuesOf(chans).Keys
  {
  }

  lemma InQueues(chans: map<Id, Chan>, id: Id)
    ensures id in QueuesOf(chans) <==> id in chans
  {
  }

  class Table {
    var requests: map<Id, Chan>
    ghost var chans: map<Id, Chan>
    ghost var received: map<Id, seq<Msg>>
    ghost var holding: map<Reader, Msg>

    ghost predicate Valid()
      reads this
    {
      && (forall id | id in requests :: id in chans && chans[id] == requests[id])
      && (forall i, j | i in chans && j in chans && chans[i] == chans[j] :: i == j)
      && (forall r | r in holding :: holding[r].id in chans)
    }

    ghost function View(): State
      reads this, chans.Values
    {
      State(requests.Keys, CapacitiesOf(chans), QueuesOf(chans), received, holding, ClosedOf(chans))
    }

    constructor ()
      ensures Valid() && View() == INITIAL
    {
      requests, chans, received, holding := map[], map[], map[], map[];
    }

    method OpenRequest(id: Id, capacity: nat) returns (c: Chan)
      requires Valid() && Enabled(View(), Open(id, capacity))
      modifies this
      ensures Valid() && fresh(c) && chans == old(chans)[id := c]
      ensures View() == Apply(old(View()), Open(id, capacity))
    {
      hide CapacitiesOf, QueuesOf, ClosedOf, Valid;
      InQueues(chans, id);
      c := new Chan(capacity);
      NewChanInAll(chans, id, c);
      AddChan(id, c);
    }

    method AddChan(id: Id, c: Chan)
      requires Valid() && id !in chans && c !in chans.Values
      modifies this
      ensures Valid() && chans == old(chans)[id := c] && requests == old(requests)[id := c]
      ensures received == old(received)[id := []] && holding == old(holding)
    {
      requests := requests[id := c];
      chans, received := chans[id := c], received[id := []];
    }

    /** The locked section of handleWSProxyResponse and handleWSProxyStreamEnd. */
    method TakeRequest(ghost r: Reader, m: Msg) returns (c: Option<Chan>)
      requires Valid() && Terminal(m) && Enabled(View(), Handle(r, m))
      modifies this
      ensures Valid() && chans == old(chans)
      ensures c == if m.id in old(requests) then Some(old(requests)[m.id]) else None
      ensures View() == Apply(old(View()), Handle(r, m))
    {
      if m.id in requests {
        c := Some(requests[m.id]);
        requests := requests - {m.id};
        holding := holding[r := m];
      } else {
        c := None;
      }
    }

    /** The locked section of handleWSProxyStreamChunk. */
    method PeekRequest(ghost r: Reader, m: Msg) returns (c: Option<Chan>)
      requires Valid() && m.Chunk? && Enabled(View(), Handle(r, m))
      modifies this
      ensures Valid() && chans == old(chans)
      ensures c == if m.id in old(requests) then Some(old(requests)[m.id]) else None
      ensures View() == Apply(old(View()), Handle(r, m))
    {
      if m.id in requests {
        c := Some(requests[m.id]);
        holding := holding[r := m];
      } else {
        c := None;
      }
    }

    /** The send of a reader that holds `m`: a chunk that does not fit is dropped,
        a terminal message that does not fit is given up after the timeout, and a
        closed channel makes the send panic. */
    method Send(ghost r: Reader, c: Chan, m: Msg) returns (sent: bool, panicked: bool)
      requires Valid() && r in holding && holding[r] == m && chans[m.id] == c
      modifies this, c
      ensures Valid() && chans == old(chans) && (panicked <==> Doomed(old(View()), r))
      ensures !panicked ==> (sent <==> |old(c.queue)| < c.capacity)
      ensures !panicked ==> View() == Apply(old(View()), if sent then Deliver(r) else GiveUp(r))
    {
      ghost var before := View();
      InClosed(m.id);
      if c.closed {
        return false, true;
      }
      panicked := false;
      sent := c.TrySend(m);
      holding := holding - {r};
      assert QueuesOf(chans) == if sent then before.queue[m.id := before.queue[m.id] + [m]] else before.queue;
    }

    lemma InClosed(id: Id)
      requires id in chans
      ensures id in ClosedOf(chans) <==> chans[id].closed
      ensures id in QueuesOf(chans) && QueuesOf(chans)[id] == chans[id].queue
    {
    }

    /** What the handler of a request that is not streamed does when it returns. */
    method FinishRequest(id: Id, c: Chan)
      requires Valid() && id in chans && chans[id] == c && !c.closed
      modifies this, c
      ensures Valid() && chans == old(chans) && Enabled(old(View()), Finish(id))
      ensures View() == Apply(old(View()), Finish(id))
    {
      InClosed(id);
      ghost var before := View();
      requests := requests - {id};
      c.closed := true;
      assert ClosedOf(chans) == before.closed + {id};
      assert QueuesOf(chans) == before.queue;
    }
  }
}
