/** Refreshing the identities of known devices with five workers
    (agent/identity_refresh.go). A dispatcher offers one device at a time on an
    unbuffered channel; every step below is one uninterrupted stretch of the
    dispatcher or of one worker. */
module WorkerPool {
  import opened Common
  import opened Text

  const WORKERS: nat := 5

  datatype Device = Device(ip: string, serial: string)

  datatype Info = Info(manufacturer: string, serial: string, discoveryMethods: seq<string>, rest: string)

  /** What a query of a device comes back with. */
  datatype Reply = Error | Answer(info: Option<Info>)

  datatype Worker = Idle | Holding(job: nat) | Asking(job: nat) | Storing(job: nat, record: Info) | Exited

  datatype Outcome = Refreshed | Skipped | Failed

  /** How far a device has come. */
  datatype Fate = Unseen | Offered | Held | Finished(outcome: Outcome) | Lost

  datatype Stored = Stored(job: nat, record: Info)

  datatype Result = Result(attempted: nat, refreshed: nat, skipped: nat, failed: nat)

  /** `next` is the dispatcher's place in the list; `fates` and `stored` are the
      history. */
  datatype State = State(next: nat, closed: bool, cancelled: bool, workers: seq<Worker>, result: Result,
                         fates: seq<Fate>, stored: seq<Stored>)

  datatype Step =
    | Cancel
    | Pass
    | Offer
    | HandOver(worker: nat)
    | GiveUp
    | Close
    | Check(worker: nat)
    | Respond(worker: nat, reply: Reply)
    | Store(worker: nat, ok: bool)
    | Leave(worker: nat)

  type Devices = seq<Option<Device>>

  predicate Usable(d: Option<Device>) {
    d.Some? && d.value.ip != "" && d.value.serial != ""
  }

  /** A reply counts only if it names a maker and the serial number on record. */
  predicate Recognised(info: Info, device: Device) {
    info.manufacturer != "" && EqualFold(TrimSpace(info.serial), TrimSpace(device.serial))
  }

  function Stamped(info: Info, device: Device): Info {
    info.(serial := device.serial, discoveryMethods := info.discoveryMethods + ["post-update-identity-refresh"])
  }

  // ----- one step -----

  function Initial(devices: Devices): State {
    State(0, false, false, seq(WORKERS, i => Idle), Result(0, 0, 0, 0), seq(|devices|, i => Unseen), [])
  }

  predicate Fits(devices: Devices, s: State) {
    && |s.fates| == |devices| && |s.workers| == WORKERS && s.next <= |devices|
    && forall w | 0 <= w < WORKERS :: Busy(s.workers[w]) ==> s.workers[w].job < |devices| && Usable(devices[s.workers[w].job])
  }

  predicate Busy(w: Worker) {
    w.Holding? || w.Asking? || w.Storing?
  }

  predicate AtDevice(devices: Devices, s: State, fate: Fate)
    requires Fits(devices, s)
  {
    !s.closed && s.next < |devices| && s.fates[s.next] == fate
  }

  predicate Enabled(devices: Devices, s: State, step: Step)
    requires Fits(devices, s)
  {
    match step
    case Cancel => !s.cancelled
    case Pass => AtDevice(devices, s, Unseen) && !Usable(devices[s.next])
    case Offer => AtDevice(devices, s, Unseen) && Usable(devices[s.next])
    case HandOver(w) => AtDevice(devices, s, Offered) && Usable(devices[s.next]) && w < WORKERS && s.workers[w] == Idle
    case GiveUp => AtDevice(devices, s, Offered) && s.cancelled
    case Close => !s.closed && s.next == |devices|
    case Check(w) => w < WORKERS && s.workers[w].Holding?
    case Respond(w, _) => w < WORKERS && s.workers[w].Asking?
    case Store(w, _) => w < WORKERS && s.workers[w].Storing?
    case Leave(w) => w < WORKERS && s.workers[w] == Idle && s.closed
  }

  function Counted(r: Result, outcome: Outcome): Result {
    match outcome
    case Refreshed => r.(refreshed := r.refreshed + 1)
    case Skipped => r.(skipped := r.skipped + 1)
    case Failed => r.(failed := r.failed + 1)
  }

  /** Worker w is done with its device and waits for the next. */
  function Finish(s: State, w: nat, job: nat, outcome: Outcome): State
    requires w < |s.workers| && job < |s.fates|
  {
    s.(workers := s.workers[w := Idle], fates := s.fates[job := Finished(outcome)], result := Counted(s.result, outcome))
  }

  function Apply(devices: Devices, s: State, step: Step): State
    requires Fits(devices, s) && Enabled(devices, s, step)
  {
    match step
    case Cancel => s.(cancelled := true)
    case Pass => s.(next := s.next + 1, fates := s.fates[s.next := Finished(Skipped)], result := Counted(s.result, Skipped))
    case Offer =>
      s.(fates := s.fates[s.next := Offered], result := s.result.(attempted := s.result.attempted + 1))
    case HandOver(w) =>
      s.(next := s.next + 1, fates := s.fates[s.next := Held], workers := s.workers[w := Holding(s.next)])
    case GiveUp => s.(closed := true, fates := s.fates[s.next := Lost])
    case Close => s.(closed := true)
    case Check(w) =>
      var job := s.workers[w].job;
      if s.cancelled then s.(workers := s.workers[w := Exited], fates := s.fates[job := Lost])
      else s.(workers := s.workers[w := Asking(job)])
    case Respond(w, reply) =>
      var job := s.workers[w].job;
      var device := devices[job].value;
      if reply == Error then Finish(s, w, job, Failed)
      else if reply.info == None || !Recognised(reply.info.value, device) then Finish(s, w, job, Skipped)
      else s.(workers := s.workers[w := Storing(job, Stamped(reply.info.value, device))])
    case Store(w, ok) =>
      var job := s.workers[w].job;
      if ok then Finish(s, w, job, Refreshed).(stored := s.stored + [Stored(job, s.workers[w].record)])
      else Finish(s, w, job, Failed)
    case Leave(w) => s.(workers := s.workers[w := Exited])
  }

  /** The dispatcher returns once the channel is closed and all workers are gone. */
  predicate Returned(s: State) {
    s.closed && forall i | 0 <= i < |s.workers| :: s.workers[i] == Exited
  }

  // ----- counting -----

  predicate Tells(w: Worker, busy: bool) {
    if busy then Busy(w) else w == Exited
  }

  function CountIf(workers: seq<Worker>, busy: bool): nat {
    if workers == [] then 0
    else
      CountIf(workers[..|workers| - 1], busy) + if Tells(workers[|workers| - 1], busy) then 1 else 0
  }

  lemma {:induction false} CountOfUpdate(workers: seq<Worker>, w: nat, x: Worker, busy: bool)
    requires w < |workers|
    ensures CountIf(workers[w := x], busy) + (if Tells(workers[w], busy) then 1 else 0)
            == CountIf(workers, busy) + (if Tells(x, busy) then 1 else 0)
  {
    var init := workers[..|workers| - 1];
    if w < |workers| - 1 {
      CountOfUpdate(init, w, x, busy);
      assert workers[w := x][..|workers| - 1] == init[w := x];
    } else {
      assert workers[w := x][..|workers| - 1] == init;
    }
  }

  lemma {:induction false} CountAtMost(workers: seq<Worker>)
    ensures CountIf(workers, true) + CountIf(workers, false) <= |workers|
  {
    if workers != [] {
      CountAtMost(workers[..|workers| - 1]);
    }
  }

  lemma {:induction false} NoneBusy(workers: seq<Worker>)
    requires forall i | 0 <= i < |workers| :: workers[i] == Exited
    ensures CountIf(workers, true) == 0
  {
    if workers != [] {
      NoneBusy(workers[..|workers| - 1]);
    }
  }

  function Tally(fates: seq<Fate>, f: Fate): nat {
    multiset(fates)[f]
  }

  lemma FatesAre(f: Fate)
    ensures f == Unseen || f == Offered || f == Held || f == Lost
            || f == Finished(Refreshed) || f == Finished(Skipped) || f == Finished(Failed)
  {
    match f
    case Finished(Refreshed) =>
    case Finished(Skipped) =>
    case Finished(Failed) =>
    case _ =>
  }

  lemma TallyOfUpdate(fates: seq<Fate>, i: nat, f: Fate)
    requires i < |fates|
    ensures forall g :: Tally(fates[i := f], g) + (if g == fates[i] then 1 else 0) == Tally(fates, g) + if g == f then 1 else 0
  {
    assert multiset(fates[i := f]) == multiset(fates) - multiset{fates[i]} + multiset{f};
    assert fates[i] in multiset(fates);
  }

  lemma {:induction false} TalliesAddUp(fates: seq<Fate>)
    ensures Tally(fates, Unseen) + Tally(fates, Offered) + Tally(fates, Held) + Tally(fates, Lost)
            + Tally(fates, Finished(Refreshed)) + Tally(fates, Finished(Skipped)) + Tally(fates, Finished(Failed)) == |fates|
  {
    if fates != [] {
      var init, last := fates[..|fates| - 1], fates[|fates| - 1];
      hide Tally;
      TalliesAddUp(init);
      FatesAre(last);
      assert fates == init + [last];
      TallyPush(init, last, Unseen);
      TallyPush(init, last, Offered);
      TallyPush(init, last, Held);
      TallyPush(init, last, Lost);
      TallyPush(init, last, Finished(Refreshed));
      TallyPush(init, last, Finished(Skipped));
      TallyPush(init, last, Finished(Failed));
    }
  }

  lemma TallyPush(init: seq<Fate>, last: Fate, g: Fate)
    ensures Tally(init + [last], g) == Tally(init, g) + One(g == last)
  {
    assert multiset(init + [last]) == multiset(init) + multiset{last};
  }

  function Blanks(devices: Devices, n: nat): nat
    requires n <= |devices|
  {
    if n == 0 then 0 else Blanks(devices, n - 1) + if Usable(devices[n - 1]) then 0 else 1
  }

  // ----- what every run keeps -----

  function Started(s: State): nat {
    if s.next < |s.fates| && s.fates[s.next] != Unseen then s.next + 1 else s.next
  }

  /** The dispatcher has seen exactly the devices before its place. */
  predicate InOrder(devices: Devices, s: State)
    requires Fits(devices, s)
  {
    && (forall i | 0 <= i < s.next :: s.fates[i] != Unseen && s.fates[i] != Offered)
    && (forall i | s.next < i < |devices| :: s.fates[i] == Unseen)
    && (s.next < |devices| ==>
          && (s.fates[s.next] == Unseen || s.fates[s.next] == Offered || s.fates[s.next] == Lost)
          && (s.fates[s.next] == Lost <==> s.closed)
          && (s.fates[s.next] == Offered ==> Usable(devices[s.next])))
  }

  /** Every busy worker has a device of its own. */
  predicate OwnJobs(devices: Devices, s: State)
    requires Fits(devices, s)
  {
    && (forall w | 0 <= w < WORKERS :: Busy(s.workers[w]) ==> s.workers[w].job < s.next && s.fates[s.workers[w].job] == Held)
    && (forall v, w | 0 <= v < w < WORKERS && Busy(s.workers[v]) && Busy(s.workers[w]) :: s.workers[v].job != s.workers[w].job)
    && (forall w | 0 <= w < WORKERS && s.workers[w].Storing? ::
          s.workers[w].record.serial == devices[s.workers[w].job].value.serial)
  }

  predicate Counters(devices: Devices, s: State)
    requires Fits(devices, s)
  {
    && s.result.attempted + Blanks(devices, s.next) == Started(s)
    && s.result.refreshed == Tally(s.fates, Finished(Refreshed)) == |s.stored|
    && s.result.skipped == Tally(s.fates, Finished(Skipped))
    && s.result.failed == Tally(s.fates, Finished(Failed))
    && CountIf(s.workers, true) == Tally(s.fates, Held)
    && Tally(s.fates, Unseen) + Started(s) == |devices|
  }

  /** Only a cancellation loses devices, and at most one for each worker gone and
      one for the dispatcher. */
  predicate Losses(devices: Devices, s: State)
    requires Fits(devices, s)
  {
    && Tally(s.fates, Lost) <= CountIf(s.workers, false) + (if s.closed then 1 else 0)
    && (!s.cancelled ==> Tally(s.fates, Lost) == 0)
    && (!s.cancelled && s.closed ==> s.next == |devices|)
    && (!s.cancelled && !s.closed ==> CountIf(s.workers, false) == 0)
  }

  /** Stored records carry the serial numbers on record, one for each device. */
  predicate StoredWell(devices: Devices, s: State)
    requires Fits(devices, s)
  {
    && (forall k | 0 <= k < |s.stored| ::
          var job := s.stored[k].job;
          job < |devices| && devices[job].Some? && s.fates[job] == Finished(Refreshed)
          && s.stored[k].record.serial == devices[job].value.serial)
    && (forall j, k | 0 <= j < k < |s.stored| :: s.stored[j].job != s.stored[k].job)
  }

  predicate Consistent(devices: Devices, s: State) {
    Fits(devices, s) && InOrder(devices, s) && OwnJobs(devices, s) && Counters(devices, s) && Losses(devices, s)
    && StoredWell(devices, s)
  }

  // ----- every step keeps it -----

  lemma StepKeepsFit(devices: Devices, s: State, step: Step)
    requires Consistent(devices, s) && Enabled(devices, s, step)
    ensures Fits(devices, Apply(devices, s, step))
  {
    hide InOrder, OwnJobs, Counters, Losses, StoredWell;
  }

  lemma StepKeepsOrder(devices: Devices, s: State, step: Step)
    requires Consistent(devices, s) && Enabled(devices, s, step)
    ensures Fits(devices, Apply(devices, s, step)) && InOrder(devices, Apply(devices, s, step))
  {
    hide Counters, Losses, StoredWell, Recognised, Stamped;
    StepKeepsFit(devices, s, step);
    match step
    case Cancel =>
    case Pass =>
    case Offer =>
    case HandOver(_) =>
    case GiveUp =>
    case Close =>
    case Check(_) =>
    case Respond(_, _) =>
    case Store(_, _) =>
    case Leave(_) =>
  }

  lemma FreedKeepsOwnJobs(devices: Devices, s: State, t: State, w: nat, f: Fate)
    requires Fits(devices, s) && OwnJobs(devices, s) && w < WORKERS && Busy(s.workers[w])
    requires Fits(devices, t) && t.next == s.next && !Busy(t.workers[w])
    requires t.workers == s.workers[w := t.workers[w]] && t.fates == s.fates[s.workers[w].job := f]
    ensures OwnJobs(devices, t)
  {
  }

  lemma BusyKeepsOwnJobs(devices: Devices, s: State, t: State, w: nat)
    requires Fits(devices, s) && OwnJobs(devices, s) && w < WORKERS && Busy(s.workers[w])
    requires Fits(devices, t) && t.next == s.next && Busy(t.workers[w]) && t.workers[w].job == s.workers[w].job
    requires t.workers == s.workers[w := t.workers[w]] && t.fates == s.fates
    requires t.workers[w].Storing? ==> t.workers[w].record.serial == devices[t.workers[w].job].value.serial
    ensures OwnJobs(devices, t)
  {
  }

  lemma PlaceKeepsOwnJobs(devices: Devices, s: State, t: State, f: Fate)
    requires Fits(devices, s) && OwnJobs(devices, s) && s.next < |devices|
    requires Fits(devices, t) && t.next >= s.next && t.workers == s.workers && t.fates == s.fates[s.next := f]
    ensures OwnJobs(devices, t)
  {
  }

  lemma HandOverKeepsOwnJobs(devices: Devices, s: State, t: State, w: nat)
    requires Fits(devices, s) && OwnJobs(devices, s) && s.next < |devices| && w < WORKERS
    requires Fits(devices, t) && t.next == s.next + 1 && t.workers == s.workers[w := Holding(s.next)]
    requires t.fates == s.fates[s.next := Held]
    ensures OwnJobs(devices, t)
  {
  }

  lemma SameKeepsOwnJobs(devices: Devices, s: State, t: State)
    requires Fits(devices, s) && OwnJobs(devices, s)
    requires Fits(devices, t) && t.next == s.next && t.fates == s.fates
    requires forall w | 0 <= w < WORKERS :: t.workers[w] == s.workers[w] || !Busy(t.workers[w])
    ensures OwnJobs(devices, t)
  {
  }

  lemma StepKeepsOwnJobs(devices: Devices, s: State, step: Step)
    requires Consistent(devices, s) && Enabled(devices, s, step)
    ensures Fits(devices, Apply(devices, s, step)) && OwnJobs(devices, Apply(devices, s, step))
  {
    hide Counters, Losses, StoredWell, InOrder, OwnJobs;
    StepKeepsFit(devices, s, step);
    var t := Apply(devices, s, step);
    match step
    case Cancel => SameKeepsOwnJobs(devices, s, t);
    case Pass => PlaceKeepsOwnJobs(devices, s, t, Finished(Skipped));
    case Offer => PlaceKeepsOwnJobs(devices, s, t, Offered);
    case HandOver(w) => HandOverKeepsOwnJobs(devices, s, t, w);
    case GiveUp => PlaceKeepsOwnJobs(devices, s, t, Lost);
    case Close => SameKeepsOwnJobs(devices, s, t);
    case Check(w) =>
      if s.cancelled {
        FreedKeepsOwnJobs(devices, s, t, w, Lost);
      } else {
        BusyKeepsOwnJobs(devices, s, t, w);
      }
    case Respond(w, _) =>
      if Busy(t.workers[w]) {
        BusyKeepsOwnJobs(devices, s, t, w);
      } else {
        FreedKeepsOwnJobs(devices, s, t, w, t.fates[s.workers[w].job]);
      }
    case Store(w, _) => FreedKeepsOwnJobs(devices, s, t, w, t.fates[s.workers[w].job]);
    case Leave(_) => SameKeepsOwnJobs(devices, s, t);
  }

  lemma StepKeepsStored(devices: Devices, s: State, step: Step)
    requires Consistent(devices, s) && Enabled(devices, s, step)
    ensures Fits(devices, Apply(devices, s, step)) && StoredWell(devices, Apply(devices, s, step))
  {
    hide Counters, Losses, InOrder, Recognised, Stamped;
    StepKeepsFit(devices, s, step);
    if step.Pass? || step.Offer? || step.HandOver? || step.GiveUp? {
      NewPlaceIsUnstored(devices, s);
    }
    match step
    case Cancel =>
    case Pass =>
    case Offer =>
    case HandOver(_) =>
    case GiveUp =>
    case Close =>
    case Check(_) =>
    case Respond(_, _) =>
    case Store(_, _) =>
    case Leave(_) =>
  }

  /** The device the dispatcher is at has no stored record. */
  lemma NewPlaceIsUnstored(devices: Devices, s: State)
    requires Consistent(devices, s) && s.next < |devices|
    ensures forall k | 0 <= k < |s.stored| :: s.stored[k].job != s.next
  {
    hide Counters, Losses, OwnJobs;
  }

  /** The device a step moves on. */
  function Job(s: State, step: Step): nat {
    match step
    case Pass | Offer | HandOver(_) | GiveUp => s.next
    case Check(w) => JobOf(s, w)
    case Respond(w, _) => JobOf(s, w)
    case Store(w, _) => JobOf(s, w)
    case _ => 0
  }

  function JobOf(s: State, w: nat): nat {
    if w < |s.workers| && Busy(s.workers[w]) then s.workers[w].job else 0
  }

  /** A step changes the fate of at most one device and the state of at most one worker. */
  lemma FateCount(devices: Devices, s: State, step: Step, g: Fate)
    requires Fits(devices, s) && Enabled(devices, s, step)
    ensures var t, job := Apply(devices, s, step), Job(s, step);
            if job < |devices| then Tally(t.fates, g) + One(g == s.fates[job]) == Tally(s.fates, g) + One(g == t.fates[job])
            else t.fates == s.fates
  {
    hide Tally;
    var t, job := Apply(devices, s, step), Job(s, step);
    if job < |devices| {
      TallyOfUpdate(s.fates, job, t.fates[job]);
      if t.fates != s.fates {
        assert t.fates == s.fates[job := t.fates[job]];
      }
    }
  }

  function WorkerOf(step: Step): nat {
    match step
    case HandOver(w) => w
    case Check(w) => w
    case Respond(w, _) => w
    case Store(w, _) => w
    case Leave(w) => w
    case _ => 0
  }

  lemma WorkerCount(devices: Devices, s: State, step: Step, b: bool)
    requires Fits(devices, s) && Enabled(devices, s, step)
    ensures var t, w := Apply(devices, s, step), WorkerOf(step);
            |t.workers| == |s.workers| == WORKERS && w < WORKERS &&
            CountIf(t.workers, b) + One(Tells(s.workers[w], b)) == CountIf(s.workers, b) + One(Tells(t.workers[w], b))
  {
    hide CountIf;
    var t, w := Apply(devices, s, step), WorkerOf(step);
    CountOfUpdate(s.workers, w, t.workers[w], b);
    assert t.workers == s.workers[w := t.workers[w]];
  }

  lemma StepCounts(devices: Devices, s: State, step: Step)
    requires Fits(devices, s) && Enabled(devices, s, step)
    ensures var t, job, w := Apply(devices, s, step), Job(s, step), WorkerOf(step);
            && |t.workers| == |s.workers| == WORKERS && w < WORKERS
            && CountIf(t.workers, true) + One(Tells(s.workers[w], true)) == CountIf(s.workers, true) + One(Tells(t.workers[w], true))
            && (job < |devices| ==>
                  forall g | g in [Unseen, Held, Finished(Refreshed), Finished(Skipped), Finished(Failed)] ::
                    Tally(t.fates, g) + One(g == s.fates[job]) == Tally(s.fates, g) + One(g == t.fates[job]))
            && (job >= |devices| ==> t.fates == s.fates)
  {
    hide Tally, CountIf, Recognised, Stamped;
    WorkerCount(devices, s, step, true);
    forall g { FateCount(devices, s, step, g); }
  }

  lemma DispatcherKeepsCounters(devices: Devices, s: State, step: Step)
    requires Consistent(devices, s) && Enabled(devices, s, step) && !step.Check? && !step.Respond? && !step.Store?
    ensures Fits(devices, Apply(devices, s, step)) && Counters(devices, Apply(devices, s, step))
  {
    hide Losses, StoredWell, Tally, CountIf;
    StepKeepsFit(devices, s, step);
    StepKeepsOrder(devices, s, step);
    StepCounts(devices, s, step);
    match step
    case Cancel =>
    case Pass =>
    case Offer =>
    case HandOver(_) =>
    case GiveUp =>
    case Close =>
    case Leave(_) =>
  }

  lemma JobIsHeld(devices: Devices, s: State, w: nat)
    requires Consistent(devices, s) && w < WORKERS && Busy(s.workers[w])
    ensures s.workers[w].job < s.next <= |s.fates| && s.fates[s.workers[w].job] == Held
  {
    hide InOrder, Counters, Losses, StoredWell;
  }

  lemma WorkerKeepsCounters(devices: Devices, s: State, step: Step)
    requires Consistent(devices, s) && Enabled(devices, s, step) && (step.Check? || step.Respond? || step.Store?)
    ensures Fits(devices, Apply(devices, s, step)) && Counters(devices, Apply(devices, s, step))
  {
    hide InOrder, OwnJobs, Losses, StoredWell, Tally, CountIf, Recognised, Stamped, Blanks;
    StepKeepsFit(devices, s, step);
    StepCounts(devices, s, step);
    JobIsHeld(devices, s, step.worker);
    match step
    case Check(_) =>
    case Respond(_, _) =>
    case Store(_, _) =>
  }

  lemma StepKeepsCounters(devices: Devices, s: State, step: Step)
    requires Consistent(devices, s) && Enabled(devices, s, step)
    ensures Fits(devices, Apply(devices, s, step)) && Counters(devices, Apply(devices, s, step))
  {
    hide *;
    ConsistentFits(devices, s);
    if step.Check? || step.Respond? || step.Store? {
      WorkerKeepsCounters(devices, s, step);
    } else {
      DispatcherKeepsCounters(devices, s, step);
    }
  }

  lemma StepKeepsLosses(devices: Devices, s: State, step: Step)
    requires Consistent(devices, s) && Enabled(devices, s, step)
    ensures Fits(devices, Apply(devices, s, step)) && Losses(devices, Apply(devices, s, step))
  {
    hide Counters, StoredWell, Tally, CountIf, Recognised, Stamped;
    StepKeepsFit(devices, s, step);
    FateCount(devices, s, step, Lost);
    WorkerCount(devices, s, step, false);
    match step
    case Cancel =>
    case Pass =>
    case Offer =>
    case HandOver(_) =>
    case GiveUp =>
    case Close =>
    case Check(_) =>
    case Respond(_, _) =>
    case Store(_, _) =>
    case Leave(_) =>
  }

  lemma StepKeepsConsistent(devices: Devices, s: State, step: Step)
    requires Consistent(devices, s) && Enabled(devices, s, step)
    ensures Consistent(devices, Apply(devices, s, step))
  {
    hide *;
    StepKeepsOrder(devices, s, step);
    StepKeepsOwnJobs(devices, s, step);
    StepKeepsStored(devices, s, step);
    StepKeepsCounters(devices, s, step);
    StepKeepsLosses(devices, s, step);
    ConsistentFits(devices, s);
    Together(devices, Apply(devices, s, step));
  }

  lemma ConsistentFits(devices: Devices, s: State)
    requires Consistent(devices, s)
    ensures Fits(devices, s)
  {
  }

  lemma Together(devices: Devices, s: State)
    requires Fits(devices, s) && InOrder(devices, s) && OwnJobs(devices, s) && Counters(devices, s) && Losses(devices, s)
    requires StoredWell(devices, s)
    ensures Consistent(devices, s)
  {
  }

  // ----- every run -----

  lemma {:induction false} NothingStarted(fates: seq<Fate>)
    requires forall i | 0 <= i < |fates| :: fates[i] == Unseen
    ensures forall g :: Tally(fates, g) == if g == Unseen then |fates| else 0
  {
    if fates != [] {
      var init := fates[..|fates| - 1];
      NothingStarted(init);
      assert fates == init + [Unseen];
      assert multiset(fates) == multiset(init) + multiset{Unseen};
      forall g ensures Tally(fates, g) == if g == Unseen then |fates| else 0 {
        assert Tally(fates, g) == Tally(init, g) + if g == Unseen then 1 else 0;
      }
    }
  }

  lemma {:induction false} AllIdle(n: nat)
    ensures CountIf(seq(n, i => Idle), true) == CountIf(seq(n, i => Idle), false) == 0
  {
    if n > 0 {
      AllIdle(n - 1);
      assert seq(n, i => Idle)[..n - 1] == seq(n - 1, i => Idle);
    }
  }

  lemma InitialIsConsistent(devices: Devices)
    ensures Consistent(devices, Initial(devices))
  {
    hide CountIf;
    NothingStarted(Initial(devices).fates);
    AllIdle(WORKERS);
  }

  function Run(devices: Devices, steps: seq<Step>): Option<State> {
    if steps == [] then Some(Initial(devices))
    else
      match Run(devices, steps[..|steps| - 1])
      case None => None
      case Some(s) =>
        if Fits(devices, s) && Enabled(devices, s, steps[|steps| - 1]) then Some(Apply(devices, s, steps[|steps| - 1]))
        else None
  }

  /** The steps of the dispatcher, the workers and a cancellation in any possible order. */
  predicate Possible(devices: Devices, steps: seq<Step>) {
    Run(devices, steps).Some?
  }

  function After(devices: Devices, steps: seq<Step>): State
    requires Possible(devices, steps)
  {
    Run(devices, steps).value
  }

  lemma AfterPush(devices: Devices, steps: seq<Step>)
    requires steps != [] && Possible(devices, steps)
    ensures var before, step := steps[..|steps| - 1], steps[|steps| - 1];
            && Possible(devices, before) && Fits(devices, After(devices, before))
            && Enabled(devices, After(devices, before), step)
            && After(devices, steps) == Apply(devices, After(devices, before), step)
  {
  }

  lemma {:induction false} EveryRunIsConsistent(devices: Devices, steps: seq<Step>)
    requires Possible(devices, steps)
    ensures Consistent(devices, After(devices, steps))
  {
    hide Consistent, Apply, Enabled, Fits;
    if steps == [] {
      InitialIsConsistent(devices);
    } else {
      AfterPush(devices, steps);
      EveryRunIsConsistent(devices, steps[..|steps| - 1]);
      StepKeepsConsistent(devices, After(devices, steps[..|steps| - 1]), steps[|steps| - 1]);
    }
  }

  function InFlight(s: State): nat {
    CountIf(s.workers, true) + Tally(s.fates, Offered)
  }

  function Done(r: Result): nat {
    r.refreshed + r.skipped + r.failed
  }

  lemma ConsistentCounts(devices: Devices, s: State)
    requires Consistent(devices, s)
    ensures Fits(devices, s) && s.result.attempted + Blanks(devices, s.next) == Started(s)
    ensures Done(s.result) + InFlight(s) + Tally(s.fates, Lost) == Started(s)
    ensures Tally(s.fates, Unseen) + Started(s) == |devices| == |s.fates|
    ensures Tally(s.fates, Lost) <= CountIf(s.workers, false) + One(s.closed)
    ensures CountIf(s.workers, true) == Tally(s.fates, Held)
  {
    hide Tally, CountIf, InOrder, OwnJobs, StoredWell;
    TalliesAddUp(s.fates);
  }

  /** In every run each device that was attempted is finished, on its way or was
      dropped by a cancellation; at most five are on their way or dropped with the
      workers, and one with the dispatcher. Blank entries are skipped at once. */
  lemma AttemptsAreConserved(devices: Devices, steps: seq<Step>)
    requires Possible(devices, steps)
    ensures var s := After(devices, steps);
            && Fits(devices, s)
            && s.result.attempted == Done(s.result) - Blanks(devices, s.next) + InFlight(s) + Tally(s.fates, Lost)
            && CountIf(s.workers, true) + Tally(s.fates, Lost) <= 6
            && (!s.cancelled ==> Tally(s.fates, Lost) == 0)
  {
    hide *;
    var s := After(devices, steps);
    EveryRunIsConsistent(devices, steps);
    ConsistentCounts(devices, s);
    ConsistentLosses(devices, s);
    CountAtMost(s.workers);
    OneIsSmall(s.closed);
    FiveWorkers();
  }

  lemma FiveWorkers()
    ensures WORKERS == 5
  {
  }

  lemma OneIsSmall(b: bool)
    ensures One(b) <= 1
  {
  }

  lemma ConsistentLosses(devices: Devices, s: State)
    requires Consistent(devices, s)
    ensures |s.workers| == WORKERS && (!s.cancelled ==> Tally(s.fates, Lost) == 0)
    ensures !s.cancelled && s.closed ==> s.next == |devices|
    ensures !s.cancelled && !s.closed ==> CountIf(s.workers, false) == 0
  {
    hide Tally, CountIf, InOrder, OwnJobs, StoredWell, Counters;
  }

  /** Each record that was stored belongs to a device of its own and carries the
      serial number that was on record for it. */
  lemma StoredSerialsAreKnown(devices: Devices, steps: seq<Step>)
    requires Possible(devices, steps)
    ensures var s := After(devices, steps);
            && |s.stored| == s.result.refreshed
            && (forall k | 0 <= k < |s.stored| ::
                  s.stored[k].job < |devices| && devices[s.stored[k].job].Some?
                  && s.stored[k].record.serial == devices[s.stored[k].job].value.serial)
            && (forall j, k | 0 <= j < k < |s.stored| :: s.stored[j].job != s.stored[k].job)
  {
    hide Tally, CountIf, InOrder, OwnJobs, Losses, After, Possible;
    EveryRunIsConsistent(devices, steps);
  }

  /** When nothing is cancelled, the call returns with every device counted once. */
  lemma UncancelledRunsCountAll(devices: Devices, steps: seq<Step>)
    requires Possible(devices, steps) && Returned(After(devices, steps)) && !After(devices, steps).cancelled
    ensures Done(After(devices, steps).result) == |devices|
  {
    hide Run, Possible, After, Consistent, Returned, Tally, CountIf, Started, Blanks;
    var s := After(devices, steps);
    EveryRunIsConsistent(devices, steps);
    ConsistentCounts(devices, s);
    ConsistentLosses(devices, s);
    ReturnedParts(s);
    NoneBusy(s.workers);
    NothingOffered(devices, s);
    StartedAll(s);
  }

  lemma StartedAll(s: State)
    requires s.next == |s.fates|
    ensures Started(s) == s.next
  {
  }

  lemma ReturnedParts(s: State)
    requires Returned(s)
    ensures s.closed && forall i | 0 <= i < |s.workers| :: s.workers[i] == Exited
  {
  }

  lemma NothingOffered(devices: Devices, s: State)
    requires Consistent(devices, s) && s.closed
    ensures Tally(s.fates, Offered) == 0
  {
    hide OwnJobs, Counters, Losses, StoredWell;
    forall i | 0 <= i < |s.fates| ensures s.fates[i] != Offered {
      assert i < s.next || i == s.next || i > s.next;
    }
    assert Offered !in multiset(s.fates);
  }

  // ----- what becomes of a device -----

  /** No reply, no maker's name, or another device's serial number. */
  predicate Foreign(info: Option<Info>, d: Option<Device>) {
    || info.None? || d.None? || info.value.manufacturer == ""
    || Lower(TrimSpace(info.value.serial)) != Lower(TrimSpace(d.value.serial))
  }

  /** This step ends device i with this fate: an unusable device is skipped; a failed
      query or store fails; a missing, unnamed or foreign reply is skipped; a
      stored record is a refresh; a cancellation loses what is offered or just
      handed over. */
  predicate EndsNow(devices: Devices, s: State, step: Step, i: nat, f: Fate)
    requires i < |devices|
  {
    match step
    case Pass => s.next == i && f == Finished(Skipped)
    case GiveUp => s.next == i && f == Lost
    case Check(w) => w < |s.workers| && s.workers[w] == Holding(i) && s.cancelled && f == Lost
    case Respond(w, reply) =>
      && w < |s.workers| && s.workers[w] == Asking(i)
      && (if reply.Error? then f == Finished(Failed) else Foreign(reply.info, devices[i]) && f == Finished(Skipped))
    case Store(w, ok) =>
      && w < |s.workers| && s.workers[w].Storing? && s.workers[w].job == i
      && f == Finished(if ok then Refreshed else Failed)
    case _ => false
  }

  ghost predicate Ends(devices: Devices, steps: seq<Step>, j: nat, i: nat, f: Fate)
    requires i < |devices|
  {
    j < |steps| && Possible(devices, steps[..j]) && EndsNow(devices, After(devices, steps[..j]), steps[j], i, f)
  }

  predicate Final(f: Fate) {
    f.Finished? || f.Lost?
  }

  lemma WorkOnly(devices: Devices, s: State, step: Step)
    requires Consistent(devices, s) && Enabled(devices, s, step)
    ensures |s.fates| == |devices| == |Apply(devices, s, step).fates|
    ensures forall i | 0 <= i < |devices| && i != Job(s, step) :: Apply(devices, s, step).fates[i] == s.fates[i]
    ensures Job(s, step) < |devices| && Apply(devices, s, step).fates != s.fates ==> !Final(s.fates[Job(s, step)])
  {
    hide Counters, Losses, StoredWell, Recognised, Stamped;
  }

  lemma FateAfter(devices: Devices, s: State, step: Step, i: nat, f: Fate)
    requires Consistent(devices, s) && Enabled(devices, s, step) && i < |devices| && Final(f)
    ensures |s.fates| == |devices| == |Apply(devices, s, step).fates|
    ensures Apply(devices, s, step).fates[i] == f <==> s.fates[i] == f || EndsNow(devices, s, step, i, f)
  {
    hide Counters, Losses, StoredWell, Stamped;
    WorkOnly(devices, s, step);
    match step
    case Cancel =>
    case Pass =>
    case Offer =>
    case HandOver(_) =>
    case GiveUp =>
    case Close =>
    case Check(_) =>
    case Respond(_, _) =>
    case Store(_, _) =>
    case Leave(_) =>
  }

  lemma EndsPush(devices: Devices, steps: seq<Step>, before: seq<Step>, i: nat, f: Fate)
    requires steps != [] && before == steps[..|steps| - 1] && Possible(devices, before) && i < |devices|
    ensures (exists j :: Ends(devices, steps, j, i, f)) <==>
              (exists j :: Ends(devices, before, j, i, f))
              || EndsNow(devices, After(devices, before), steps[|before|], i, f)
  {
    hide EndsNow, Run;
    forall j: nat | j < |before| ensures Ends(devices, steps, j, i, f) <==> Ends(devices, before, j, i, f) {
      assert steps[..j] == before[..j] && steps[j] == before[j];
    }
    assert steps[..|before|] == before;
    if j :| Ends(devices, before, j, i, f) {
      assert Ends(devices, steps, j, i, f);
    }
    if EndsNow(devices, After(devices, before), steps[|before|], i, f) {
      assert Ends(devices, steps, |before|, i, f);
    }
  }

  /** In every run a device has failed exactly if a step ended it with a failed query
      or store, was skipped exactly if it was unusable or its reply missing,
      unnamed or foreign, was refreshed exactly if its record was stored, and was
      lost exactly if a cancellation met it. */
  lemma {:induction false} FateIff(devices: Devices, steps: seq<Step>, i: nat, f: Fate)
    requires Possible(devices, steps) && i < |devices| && Final(f)
    ensures |After(devices, steps).fates| == |devices|
    ensures After(devices, steps).fates[i] == f <==> exists j :: Ends(devices, steps, j, i, f)
  {
    hide Consistent, Apply, Enabled, Fits, EndsNow, Final, Run;
    if steps == [] {
      NothingEnded(devices, i, f);
    } else {
      var before := steps[..|steps| - 1];
      AfterPush(devices, steps);
      FateIff(devices, before, i, f);
      EveryRunIsConsistent(devices, before);
      FateAfter(devices, After(devices, before), steps[|before|], i, f);
      EndsPush(devices, steps, before, i, f);
    }
  }

  lemma NothingEnded(devices: Devices, i: nat, f: Fate)
    requires i < |devices| && Final(f)
    ensures Possible(devices, []) && |After(devices, []).fates| == |devices| && After(devices, []).fates[i] != f
    ensures forall j :: !Ends(devices, [], j, i, f)
  {
  }

  // ----- the counters, from the steps alone -----

  function CountSteps(steps: seq<Step>, p: Step -> bool): nat {
    if steps == [] then 0 else CountSteps(steps[..|steps| - 1], p) + One(p(steps[|steps| - 1]))
  }

  predicate IsFailure(step: Step) {
    (step.Respond? && step.reply == Error) || (step.Store? && !step.ok)
  }

  predicate IsStored(step: Step) {
    step.Store? && step.ok
  }

  predicate IsOffer(step: Step) {
    step == Offer
  }

  predicate PassesOn(step: Step) {
    step == Pass || step.HandOver?
  }

  /** Passes, and replies that are missing, unnamed or foreign. */
  function SkippedSteps(devices: Devices, steps: seq<Step>): nat
    requires Possible(devices, steps)
  {
    if steps == [] then 0
    else
      var before, step := steps[..|steps| - 1], steps[|steps| - 1];
      SkippedSteps(devices, before) + One(Skips(devices, After(devices, before), step))
  }

  predicate Skips(devices: Devices, s: State, step: Step) {
    || step == Pass
    || (step.Respond? && step.worker < |s.workers| && s.workers[step.worker].Asking?
        && s.workers[step.worker].job < |devices| && step.reply.Answer?
        && Foreign(step.reply.info, devices[s.workers[step.worker].job]))
  }

  lemma CountersAfter(devices: Devices, s: State, step: Step)
    requires Fits(devices, s) && Enabled(devices, s, step)
    ensures var r, q := s.result, Apply(devices, s, step).result;
            && q.failed == r.failed + One(IsFailure(step)) && q.refreshed == r.refreshed + One(IsStored(step))
            && q.attempted == r.attempted + One(IsOffer(step)) && q.skipped == r.skipped + One(Skips(devices, s, step))
            && Apply(devices, s, step).next == s.next + One(PassesOn(step))
  {
    hide Stamped;
  }

  /** The counters count the failed queries and stores, the stores that went well,
      the offers, and the devices passed over or answering wrongly; the
      dispatcher's place counts the devices passed over or handed over. */
  lemma {:induction false} CountersCountSteps(devices: Devices, steps: seq<Step>)
    requires Possible(devices, steps)
    ensures var s := After(devices, steps);
            && s.result.failed == CountSteps(steps, IsFailure) && s.result.refreshed == CountSteps(steps, IsStored)
            && s.result.attempted == CountSteps(steps, IsOffer) && s.result.skipped == SkippedSteps(devices, steps)
            && s.next == CountSteps(steps, PassesOn)
  {
    hide Apply, Enabled, Fits, IsFailure, IsStored, IsOffer, PassesOn, Skips;
    if steps != [] {
      AfterPush(devices, steps);
      CountersCountSteps(devices, steps[..|steps| - 1]);
      CountersAfter(devices, After(devices, steps[..|steps| - 1]), steps[|steps| - 1]);
    }
  }

  // ----- what is stored -----

  /** Step j brought the reply to device i from which `record` was made. */
  ghost predicate MadeFrom(devices: Devices, steps: seq<Step>, j: nat, i: nat, record: Info) {
    && j < |steps| && steps[j].Respond? && steps[j].reply.Answer? && steps[j].reply.info.Some?
    && Possible(devices, steps[..j]) && i < |devices| && devices[i].Some?
    && steps[j].worker < |After(devices, steps[..j]).workers|
    && After(devices, steps[..j]).workers[steps[j].worker] == Asking(i)
    && var info := steps[j].reply.info.value;
       && !Foreign(Some(info), devices[i])
       && record.manufacturer == info.manufacturer && record.rest == info.rest
       && record.serial == devices[i].value.serial
       && record.discoveryMethods == info.discoveryMethods + ["post-update-identity-refresh"]
  }

  ghost predicate Made(devices: Devices, steps: seq<Step>, i: nat, record: Info) {
    exists j :: MadeFrom(devices, steps, j, i, record)
  }

  lemma MadePush(devices: Devices, steps: seq<Step>, before: seq<Step>, i: nat, record: Info)
    requires steps != [] && before == steps[..|steps| - 1] && Made(devices, before, i, record)
    ensures Made(devices, steps, i, record)
  {
    var j: nat :| MadeFrom(devices, before, j, i, record);
    assert j < |before|;
    assert steps[..j] == before[..j] && steps[j] == before[j];
    assert MadeFrom(devices, steps, j, i, record);
  }

  /** Where a step's new records come from. */
  lemma RecordsAfter(devices: Devices, s: State, step: Step)
    requires Fits(devices, s) && Enabled(devices, s, step)
    ensures var t := Apply(devices, s, step);
            && |t.workers| == |s.workers| == WORKERS
            && (forall w | 0 <= w < WORKERS && t.workers[w].Storing? ::
                  || t.workers[w] == s.workers[w]
                  || (&& step.Respond? && step.worker == w && step.reply.Answer? && step.reply.info.Some?
                      && s.workers[w] == Asking(t.workers[w].job)
                      && t.workers[w].job < |devices| && devices[t.workers[w].job].Some?
                      && var info, record := step.reply.info.value, t.workers[w].record;
                         && !Foreign(Some(info), devices[t.workers[w].job])
                         && record.manufacturer == info.manufacturer && record.rest == info.rest
                         && record.serial == devices[t.workers[w].job].value.serial
                         && record.discoveryMethods == info.discoveryMethods + ["post-update-identity-refresh"]))
            && (t.stored == s.stored
                || (&& step.Store? && step.worker < WORKERS && s.workers[step.worker].Storing?
                    && t.stored == s.stored + [Stored(s.workers[step.worker].job, s.workers[step.worker].record)]))
  {
  }

  ghost predicate AllMade(devices: Devices, steps: seq<Step>, s: State) {
    && (forall w | 0 <= w < |s.workers| && s.workers[w].Storing? :: Made(devices, steps, s.workers[w].job, s.workers[w].record))
    && (forall k | 0 <= k < |s.stored| :: Made(devices, steps, s.stored[k].job, s.stored[k].record))
  }

  lemma AllMadePush(devices: Devices, steps: seq<Step>, before: seq<Step>)
    requires steps != [] && before == steps[..|steps| - 1] && Possible(devices, steps) && Possible(devices, before)
    requires Fits(devices, After(devices, before)) && Enabled(devices, After(devices, before), steps[|before|])
    requires After(devices, steps) == Apply(devices, After(devices, before), steps[|before|])
    requires AllMade(devices, before, After(devices, before))
    ensures AllMade(devices, steps, After(devices, steps))
  {
    hide Apply, Enabled, Fits, Run, Made;
    var s, t, step := After(devices, before), After(devices, steps), steps[|before|];
    RecordsAfter(devices, s, step);
    assert steps[..|before|] == before;
    forall w | 0 <= w < |t.workers| && t.workers[w].Storing?
      ensures Made(devices, steps, t.workers[w].job, t.workers[w].record)
    {
      if t.workers[w] == s.workers[w] {
        MadePush(devices, steps, before, s.workers[w].job, s.workers[w].record);
      } else {
        MadeNow(devices, steps, |before|, t.workers[w].job, t.workers[w].record);
      }
    }
    forall k | 0 <= k < |t.stored| ensures Made(devices, steps, t.stored[k].job, t.stored[k].record) {
      if k < |s.stored| {
        MadePush(devices, steps, before, s.stored[k].job, s.stored[k].record);
      } else {
        var w := step.worker;
        MadePush(devices, steps, before, s.workers[w].job, s.workers[w].record);
      }
    }
  }

  lemma MadeNow(devices: Devices, steps: seq<Step>, j: nat, i: nat, record: Info)
    requires MadeFrom(devices, steps, j, i, record)
    ensures Made(devices, steps, i, record)
  {
  }

  /** Every record that was stored is a reply to a query of its own device, with the
      serial number on record put in and the way of discovery added. */
  lemma {:induction false} StoredRecordsAreReplies(devices: Devices, steps: seq<Step>)
    requires Possible(devices, steps)
    ensures AllMade(devices, steps, After(devices, steps))
  {
    hide Apply, Enabled, Fits, Made;
    if steps == [] {
      NothingMade(devices);
    } else {
      AfterPush(devices, steps);
      StoredRecordsAreReplies(devices, steps[..|steps| - 1]);
      AllMadePush(devices, steps, steps[..|steps| - 1]);
    }
  }

  lemma NothingMade(devices: Devices)
    ensures Possible(devices, []) && AllMade(devices, [], After(devices, []))
  {
  }

  // ----- the pool neither sticks nor runs for ever -----

  /** Until the call returns somebody can move, without waiting for a cancellation. */
  lemma SomebodyCanMove(devices: Devices, s: State) returns (step: Step)
    requires Consistent(devices, s) && !Returned(s)
    ensures Fits(devices, s) && !step.Cancel? && Enabled(devices, s, step)
  {
    hide Tally, CountIf, OwnJobs, Counters, StoredWell;
    if w: nat :| w < WORKERS && s.workers[w].Holding? {
      step := Check(w);
    } else if w: nat :| w < WORKERS && s.workers[w].Asking? {
      step := Respond(w, Error);
    } else if w: nat :| w < WORKERS && s.workers[w].Storing? {
      step := Store(w, false);
    } else if !s.closed {
      if s.next == |devices| {
        step := Close;
      } else if s.fates[s.next] == Unseen {
        step := if Usable(devices[s.next]) then Offer else Pass;
      } else if w: nat :| w < WORKERS && s.workers[w] == Idle {
        step := HandOver(w);
      } else {
        step := GiveUp;
        assert s.workers[0] == Exited;
        SomeExited(s.workers, 0);
      }
    } else {
      var w: nat :| w < WORKERS && s.workers[w] != Exited;
      step := Leave(w);
    }
  }

  lemma {:induction false} SomeExited(workers: seq<Worker>, w: nat)
    requires w < |workers| && workers[w] == Exited
    ensures CountIf(workers, false) > 0
  {
    if w < |workers| - 1 {
      SomeExited(workers[..|workers| - 1], w);
    }
  }

  function Weight(w: Worker): nat {
    match w
    case Exited => 0
    case Idle => 1
    case Storing(_, _) => 2
    case Asking(_) => 3
    case Holding(_) => 4
  }

  function Weights(workers: seq<Worker>): nat {
    if workers == [] then 0 else Weights(workers[..|workers| - 1]) + Weight(workers[|workers| - 1])
  }

  lemma {:induction false} WeightsOfUpdate(workers: seq<Worker>, w: nat, x: Worker)
    requires w < |workers|
    ensures Weights(workers[w := x]) + Weight(workers[w]) == Weights(workers) + Weight(x)
  {
    var init := workers[..|workers| - 1];
    if w < |workers| - 1 {
      WeightsOfUpdate(init, w, x);
      assert workers[w := x][..|workers| - 1] == init[w := x];
    } else {
      assert workers[w := x][..|workers| - 1] == init;
    }
  }

  function Measure(s: State): nat {
    One(!s.cancelled) + One(!s.closed) + Weights(s.workers) + 6 * Tally(s.fates, Unseen) + 5 * Tally(s.fates, Offered)
  }

  lemma StepsCost(devices: Devices, s: State, step: Step)
    requires Fits(devices, s) && Enabled(devices, s, step)
    ensures Measure(Apply(devices, s, step)) < Measure(s)
  {
    hide Tally, Weights, Recognised, Stamped;
    var t, w := Apply(devices, s, step), WorkerOf(step);
    FateCount(devices, s, step, Unseen);
    FateCount(devices, s, step, Offered);
    WeightsOfUpdate(s.workers, w, t.workers[w]);
    assert t.workers == s.workers[w := t.workers[w]];
    match step
    case Cancel =>
    case Pass =>
    case Offer =>
    case HandOver(_) =>
    case GiveUp =>
    case Close =>
    case Check(_) =>
    case Respond(_, _) =>
    case Store(_, _) =>
    case Leave(_) =>
  }

  lemma {:induction false} AllIdleWeigh(n: nat)
    ensures Weights(seq(n, i => Idle)) == n
  {
    if n > 0 {
      AllIdleWeigh(n - 1);
      assert seq(n, i => Idle)[..n - 1] == seq(n - 1, i => Idle);
    }
  }

  lemma InitialMeasure(devices: Devices)
    ensures Measure(Initial(devices)) == 6 * |devices| + WORKERS + 2
  {
    hide Weights;
    NothingStarted(Initial(devices).fates);
    AllIdleWeigh(WORKERS);
  }

  /** No run has more than a fixed number of steps; with the above, every run that
      is carried on returns. */
  lemma {:induction false} RunsAreBounded(devices: Devices, steps: seq<Step>)
    requires Possible(devices, steps)
    ensures |steps| + Measure(After(devices, steps)) <= 6 * |devices| + 7
  {
    hide Apply, Enabled, Fits, Measure;
    if steps == [] {
      InitialMeasure(devices);
    } else {
      AfterPush(devices, steps);
      RunsAreBounded(devices, steps[..|steps| - 1]);
      StepsCost(devices, After(devices, steps[..|steps| - 1]), steps[|steps| - 1]);
    }
  }

  // ----- the marker -----

  /** The new version is recorded as refreshed when no device failed. */
  predicate MarksVersion(r: Result) {
    r.failed == 0
  }

  predicate AllFinished(s: State) {
    forall i | 0 <= i < |s.fates| :: s.fates[i].Finished?
  }

  lemma RunNone(devices: Devices)
    ensures Run(devices, []) == Some(Initial(devices))
  {
  }

  lemma RunPush(devices: Devices, steps: seq<Step>, s: State, step: Step)
    requires Run(devices, steps) == Some(s) && Fits(devices, s) && Enabled(devices, s, step)
    ensures Run(devices, steps + [step]) == Some(Apply(devices, s, step))
  {
    assert (steps + [step])[..|steps|] == steps;
  }

  /** The one device is lost and the first k workers are gone. */
  function Leaving(k: nat): State {
    State(0, true, true, seq(WORKERS, i => if i < k then Exited else Idle), Result(1, 0, 0, 0), [Lost], [])
  }

  lemma GivenUp(d: Device)
    requires Usable(Some(d))
    ensures Run([Some(d)], [Offer, Cancel, GiveUp]) == Some(Leaving(0))
  {
    hide Run;
    var devices := [Some(d)];
    var s := Initial(devices);
    RunNone(devices);
    RunPush(devices, [], s, Offer);
    assert [] + [Offer] == [Offer];
    var t := Apply(devices, s, Offer);
    RunPush(devices, [Offer], t, Cancel);
    assert [Offer] + [Cancel] == [Offer, Cancel];
    RunPush(devices, [Offer, Cancel], Apply(devices, t, Cancel), GiveUp);
    assert [Offer, Cancel] + [GiveUp] == [Offer, Cancel, GiveUp];
    assert s.workers == Leaving(0).workers;
    assert s.fates[0 := Offered][0 := Lost] == [Lost];
  }

  function Leaves(k: nat): seq<Step> {
    if k == 0 then [Offer, Cancel, GiveUp] else Leaves(k - 1) + [Leave(k - 1)]
  }

  lemma {:induction false} LeavingRuns(d: Device, k: nat)
    requires Usable(Some(d)) && k <= WORKERS
    ensures Run([Some(d)], Leaves(k)) == Some(Leaving(k))
  {
    if k == 0 {
      GivenUp(d);
    } else {
      LeavingRuns(d, k - 1);
      LeaveNext(d, k - 1);
      RunPush([Some(d)], Leaves(k - 1), Leaving(k - 1), Leave(k - 1));
    }
  }

  lemma LeaveNext(d: Device, k: nat)
    requires k < WORKERS
    ensures Fits([Some(d)], Leaving(k)) && Enabled([Some(d)], Leaving(k), Leave(k))
    ensures Apply([Some(d)], Leaving(k), Leave(k)) == Leaving(k + 1)
  {
  }

  /** The version is recorded although the refresh was interrupted: a run with
      one device that is offered, cancelled and given up ends without a failure. */
  lemma InterruptedRunMarksVersion(d: Device)
    requires Usable(Some(d))
    ensures var devices, steps := [Some(d)], Leaves(WORKERS);
            && Possible(devices, steps) && Returned(After(devices, steps)) && After(devices, steps).result.attempted == 1
            && MarksVersion(After(devices, steps).result) && !AllFinished(After(devices, steps))
  {
    hide Run, Leaves;
    LeavingRuns(d, WORKERS);
    assert Leaving(WORKERS).fates[0] == Lost;
  }

  lemma OthersAreNone(fates: seq<Fate>)
    ensures (forall i | 0 <= i < |fates| :: fates[i].Finished?) <==>
            Tally(fates, Unseen) == Tally(fates, Offered) == Tally(fates, Held) == Tally(fates, Lost) == 0
  {
    assert forall f :: f in multiset(fates) <==> Tally(fates, f) > 0;
    forall i | 0 <= i < |fates| && !fates[i].Finished?
      ensures Tally(fates, fates[i]) > 0
    {
      assert fates[i] in multiset(fates);
    }
  }

  /** A recorded version means that every device was processed exactly when the
      counts of the result add up to the number of devices, which an uncancelled
      run guarantees. */
  lemma MarkerIsHonestIff(devices: Devices, steps: seq<Step>)
    requires Possible(devices, steps) && Returned(After(devices, steps)) && MarksVersion(After(devices, steps).result)
    ensures var s := After(devices, steps);
            && (AllFinished(s) <==> s.result.refreshed + s.result.skipped == |devices|)
            && (!s.cancelled ==> AllFinished(s))
  {
    hide Run, Possible, After, Consistent, Tally, CountIf, Returned, Started;
    var s := After(devices, steps);
    EveryRunIsConsistent(devices, steps);
    ConsistentCounts(devices, s);
    OthersAreNone(s.fates);
    if !s.cancelled {
      UncancelledRunsCountAll(devices, steps);
    }
  }

  // ----- the variables the goroutines share -----

  /** One call of the refresh. The methods are the stretches between the points
      where the dispatcher or a worker waits for the other, for a reply, or for
      the store; each is proved against its step. */
  class Refresh {
    const devices: Devices
    var next: nat
    var closed: bool
    var cancelled: bool
    var workers: seq<Worker>
    var attempted: nat
    var refreshed: nat
    var skipped: nat
    var failed: nat
    ghost var fates: seq<Fate>
    ghost var stored: seq<Stored>

    ghost function View(): State
      reads this
    {
      State(next, closed, cancelled, workers, Result(attempted, refreshed, skipped, failed), fates, stored)
    }

    ghost predicate Valid()
      reads this
    {
      Consistent(devices, View())
    }

    ghost predicate Can(step: Step)
      reads this
    {
      Valid() && Enabled(devices, View(), step)
    }

    constructor (devices: Devices)
      ensures this.devices == devices && Valid() && View() == Initial(devices)
    {
      this.devices := devices;
      next, closed, cancelled := 0, false, false;
      workers := seq(WORKERS, i => Idle);
      attempted, refreshed, skipped, failed := 0, 0, 0, 0;
      fates, stored := seq(|devices|, i => Unseen), [];
      new;
      InitialIsConsistent(devices);
    }

    /** The dispatcher looks at the next device: it skips a blank entry and offers
        any other. */
    method Dispatch()
      requires Valid() && AtDevice(devices, View(), Unseen)
      modifies this
      ensures Valid()
      ensures View() == Apply(devices, old(View()), if Usable(devices[old(next)]) then Offer else Pass)
    {
      hide Consistent, CountIf, Tally;
      ghost var step := if Usable(devices[next]) then Offer else Pass;
      ConsistentFits(devices, View());
      StepKeepsConsistent(devices, View(), step);
      if !Usable(devices[next]) {
        skipped := skipped + 1;
        fates := fates[next := Finished(Skipped)];
        next := next + 1;
      } else {
        attempted := attempted + 1;
        fates := fates[next := Offered];
      }
    }

    /** The channel passes the offered device to a waiting worker. */
    method Receive(w: nat)
      requires Can(HandOver(w))
      modifies this
      ensures Valid() && View() == Apply(devices, old(View()), HandOver(w))
    {
      hide Consistent, CountIf, Tally;
      ConsistentFits(devices, View());
      StepKeepsConsistent(devices, View(), HandOver(w));
      workers := workers[w := Holding(next)];
      fates := fates[next := Held];
      next := next + 1;
    }

    /** The dispatcher finds the context done instead. */
    method Abandon()
      requires Can(GiveUp)
      modifies this
      ensures Valid() && View() == Apply(devices, old(View()), GiveUp)
    {
      hide Consistent, CountIf, Tally;
      ConsistentFits(devices, View());
      StepKeepsConsistent(devices, View(), GiveUp);
      closed := true;
      fates := fates[next := Lost];
    }

    method CloseJobs()
      requires Can(Close)
      modifies this
      ensures Valid() && View() == Apply(devices, old(View()), Close)
    {
      hide Consistent, CountIf, Tally;
      ConsistentFits(devices, View());
      StepKeepsConsistent(devices, View(), Close);
      closed := true;
    }

    /** A worker that has just received a device asks whether the context is done. */
    method CheckContext(w: nat)
      requires Can(Check(w))
      modifies this
      ensures Valid() && View() == Apply(devices, old(View()), Check(w))
    {
      hide Consistent, CountIf, Tally;
      ConsistentFits(devices, View());
      StepKeepsConsistent(devices, View(), Check(w));
      var job := workers[w].job;
      if cancelled {
        workers := workers[w := Exited];
        fates := fates[job := Lost];
        return;
      }
      workers := workers[w := Asking(job)];
    }

    /** A worker is given the reply of its device. */
    method TakeReply(w: nat, reply: Reply)
      requires Can(Respond(w, reply))
      modifies this
      ensures Valid() && View() == Apply(devices, old(View()), Respond(w, reply))
    {
      hide Consistent, CountIf, Tally, Recognised, Stamped;
      ConsistentFits(devices, View());
      StepKeepsConsistent(devices, View(), Respond(w, reply));
      var job := workers[w].job;
      var device := devices[job].value;
      if reply == Error {
        failed := failed + 1;
        workers, fates := workers[w := Idle], fates[job := Finished(Failed)];
      } else if reply.info == None || !Recognised(reply.info.value, device) {
        skipped := skipped + 1;
        workers, fates := workers[w := Idle], fates[job := Finished(Skipped)];
      } else {
        workers := workers[w := Storing(job, Stamped(reply.info.value, device))];
      }
    }

    /** A worker learns whether its record was stored. */
    method TakeStored(w: nat, ok: bool)
      requires Can(Store(w, ok))
      modifies this
      ensures Valid() && View() == Apply(devices, old(View()), Store(w, ok))
    {
      hide Consistent, CountIf, Tally;
      ConsistentFits(devices, View());
      StepKeepsConsistent(devices, View(), Store(w, ok));
      var job := workers[w].job;
      if !ok {
        failed := failed + 1;
        fates := fates[job := Finished(Failed)];
      } else {
        refreshed := refreshed + 1;
        fates := fates[job := Finished(Refreshed)];
        stored := stored + [Stored(job, workers[w].record)];
      }
      workers := workers[w := Idle];
    }

    /** A waiting worker finds the channel closed. */
    method Depart(w: nat)
      requires Can(Leave(w))
      modifies this
      ensures Valid() && View() == Apply(devices, old(View()), Leave(w))
    {
      hide Consistent, CountIf, Tally;
      ConsistentFits(devices, View());
      StepKeepsConsistent(devices, View(), Leave(w));
      workers := workers[w := Exited];
    }

    method CancelContext()
      requires Can(Cancel)
      modifies this
      ensures Valid() && View() == Apply(devices, old(View()), Cancel)
    {
      hide Consistent, CountIf, Tally;
      ConsistentFits(devices, View());
      StepKeepsConsistent(devices, View(), Cancel);
      cancelled := true;
    }
  }
}
