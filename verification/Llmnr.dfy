/** The LLMNR decoder (agent/agent/llmnr.go): compressed DNS names (section 4.1.4
    of RFC 1035) inside LLMNR packets (section 2.1 of RFC 4795). */
module Llmnr {
  import opened Common
  import opened Ipv4

  type Bytes = seq<byte>

  const HEADER_SIZE := 12
  const POINTER_FLAG := 0xC0
  const POINTER_LIMIT := 0x4000
  const DOT: byte := '.' as int

  // ----- big-endian fields -----

  function Uint16(hi: byte, lo: byte): nat {
    hi * 0x100 + lo
  }

  /** data[i:i+2] read big-endian. */
  function Uint16At(data: Bytes, i: nat): nat
    requires i + 2 <= |data|
  {
    Uint16(data[i], data[i + 1])
  }

  /** The low 14 bits of the two bytes at `i`, the first of which has its two
      high bits set. */
  function PointerAt(data: Bytes, i: nat): nat
    requires i + 2 <= |data| && data[i] >= POINTER_FLAG
  {
    Uint16(data[i] - POINTER_FLAG, data[i + 1])
  }

  /** The byte comparisons below are the bit tests of the source. */
  lemma MasksAreThresholds(hi: bv8, lo: bv8)
    ensures hi & 0xC0 == 0xC0 <==> hi >= 0xC0
    ensures hi & 0x80 != 0 <==> hi >= 0x80
    ensures hi >= 0xC0 ==> ((hi as bv16 << 8) | lo as bv16) & 0x3FFF == ((hi - 0xC0) as bv16 << 8) + lo as bv16
  {
  }

  /** A byte begins a pointer exactly if its two high bits are set; the other six
      bits and the next byte are the place pointed to, high byte first. */
  lemma PointerBits(data: Bytes, i: nat)
    requires i + 2 <= |data|
    ensures data[i] >= POINTER_FLAG <==> data[i] / 64 == 3
    ensures var high: int, low: int := data[i], data[i + 1];
            && (data[i] >= POINTER_FLAG ==> PointerAt(data, i) == 256 * (high % 64) + low < 16384)
            && Uint16At(data, i) == 256 * high + low
  {
  }

  // ----- decoding a name -----

  datatype Turn = Stop(end: nat) | Label(text: Bytes, next: nat) | Jump(target: nat)

  /** One turn of the loop over a name. */
  function TurnAt(data: Bytes, offset: nat): Turn
    requires offset < |data|
  {
    var length := data[offset];
    if length >= POINTER_FLAG then
      if offset + 1 >= |data| then Stop(offset) else Jump(PointerAt(data, offset))
    else if length == 0 then Stop(offset + 1)
    else if offset + 1 + length > |data| then Stop(offset)
    else Label(data[offset + 1..offset + 1 + length], offset + 1 + length)
  }

  datatype NameRead = NameRead(labels: seq<Bytes>, end: nat)

  /** The labels read from `offset` on and the offset returned, provided the loop
      is done after at most `turns` turns. Following a pointer never changes what
      is returned for the bytes before it: the end is just past the first one. */
  function ReadName(data: Bytes, offset: nat, turns: nat): Option<NameRead>
    decreases turns
  {
    if offset >= |data| then Some(NameRead([], offset))
    else if turns == 0 then None
    else
      match TurnAt(data, offset)
      case Stop(end) => Some(NameRead([], end))
      case Label(text, next) =>
        (match ReadName(data, next, turns - 1)
         case None => None
         case Some(rest) => Some(NameRead([text] + rest.labels, rest.end)))
      case Jump(target) =>
        (match ReadName(data, target, turns - 1)
         case None => None
         case Some(rest) => Some(NameRead(rest.labels, offset + 2)))
  }

  ghost predicate Halts(data: Bytes, offset: nat) {
    exists turns: nat :: ReadName(data, offset, turns).Some?
  }

  /** The loop is done before it could have visited every byte. */
  predicate Terminates(data: Bytes, offset: nat) {
    ReadName(data, offset, |data|).Some?
  }

  function NameAt(data: Bytes, offset: nat): NameRead
    requires Terminates(data, offset)
  {
    ReadName(data, offset, |data|).value
  }

  lemma {:induction false} MoreTurns(data: Bytes, offset: nat, m: nat, n: nat)
    requires m <= n && ReadName(data, offset, m).Some?
    ensures ReadName(data, offset, n) == ReadName(data, offset, m)
    decreases m
  {
    if offset < |data| {
      match TurnAt(data, offset)
      case Stop(_) =>
      case Label(_, next) => MoreTurns(data, next, m - 1, n - 1);
      case Jump(target) => MoreTurns(data, target, m - 1, n - 1);
    }
  }

  /** `n` is the number of turns the loop takes. */
  predicate TakesTurns(data: Bytes, offset: nat, n: nat) {
    ReadName(data, offset, n).Some? && (n > 0 ==> ReadName(data, offset, n - 1).None?)
  }

  /** Where the loop goes on, if it does. */
  function Next(data: Bytes, offset: nat): Option<nat> {
    if offset >= |data| then None
    else
      match TurnAt(data, offset)
      case Stop(_) => None
      case Label(_, next) => Some(next)
      case Jump(target) => Some(target)
  }

  lemma StopsAtOnce(data: Bytes, offset: nat, n: nat)
    ensures Next(data, offset).None? && n > 0 ==> ReadName(data, offset, n).Some?
  {
  }

  lemma NextTakesOneLess(data: Bytes, offset: nat, n: nat)
    requires TakesTurns(data, offset, n) && n > 0
    ensures offset < |data|
    ensures Next(data, offset).Some? ==> TakesTurns(data, Next(data, offset).value, n - 1)
    ensures Next(data, offset).None? ==> n == 1
  {
    StopsAtOnce(data, offset, n - 1);
  }

  /** A loop of `n` turns visits `n` different offsets. */
  lemma {:induction false} VisitedOffsets(data: Bytes, offset: nat, n: nat) returns (visited: set<nat>)
    requires TakesTurns(data, offset, n)
    ensures |visited| == n
    ensures forall o | o in visited :: o < |data| && ReadName(data, o, n).Some?
    decreases n
  {
    visited := {};
    if n > 0 {
      NextTakesOneLess(data, offset, n);
      var next := Next(data, offset);
      if next.Some? {
        visited := VisitedOffsets(data, next.value, n - 1);
      }
      assert offset !in visited;
      forall o | o in visited ensures ReadName(data, o, n).Some? {
        MoreTurns(data, o, n - 1, n);
      }
      visited := visited + {offset};
    }
  }

  lemma {:induction false} BoundedSetSize(s: set<nat>, n: nat)
    requires forall o | o in s :: o < n
    ensures |s| <= n
  {
    if n == 0 {
      assert s == {};
    } else {
      BoundedSetSize(s - {n - 1}, n - 1);
      if n - 1 in s {
        assert s == (s - {n - 1}) + {n - 1};
      }
    }
  }

  lemma {:induction false} FewestTurns(data: Bytes, offset: nat, turns: nat) returns (n: nat)
    requires ReadName(data, offset, turns).Some?
    ensures TakesTurns(data, offset, n)
  {
    if turns == 0 || ReadName(data, offset, turns - 1).None? {
      n := turns;
    } else {
      n := FewestTurns(data, offset, turns - 1);
    }
  }

  /** Decoding a name returns at all exactly when it is done within |data| turns. */
  lemma HaltsIffTerminates(data: Bytes, offset: nat)
    ensures Halts(data, offset) <==> Terminates(data, offset)
  {
    if Halts(data, offset) {
      var turns: nat :| ReadName(data, offset, turns).Some?;
      var n := FewestTurns(data, offset, turns);
      var visited := VisitedOffsets(data, offset, n);
      BoundedSetSize(visited, |data|);
      MoreTurns(data, offset, n, |data|);
    }
  }

  /** The offset at which turn `k` begins, if the loop gets there. */
  function OffsetAt(data: Bytes, start: nat, k: nat): Option<nat> {
    if k == 0 then Some(start)
    else
      match OffsetAt(data, start, k - 1)
      case None => None
      case Some(o) => Next(data, o)
  }

  lemma TurnsAreUnique(data: Bytes, offset: nat, m: nat, n: nat)
    requires TakesTurns(data, offset, m) && TakesTurns(data, offset, n)
    ensures m == n
  {
    if m < n {
      MoreTurns(data, offset, m, n - 1);
    } else if n < m {
      MoreTurns(data, offset, n, m - 1);
    }
  }

  lemma DoneHasNoNext(data: Bytes, o: nat, n: nat)
    requires TakesTurns(data, o, n) && Next(data, o).Some?
    ensures n > 0
  {
  }

  lemma {:induction false} TurnsLeft(data: Bytes, start: nat, n: nat, k: nat)
    requires TakesTurns(data, start, n) && OffsetAt(data, start, k).Some?
    ensures k <= n && TakesTurns(data, OffsetAt(data, start, k).value, n - k)
  {
    if k > 0 {
      var o := OffsetAt(data, start, k - 1).value;
      TurnsLeft(data, start, n, k - 1);
      DoneHasNoNext(data, o, n - (k - 1));
      NextTakesOneLess(data, o, n - (k - 1));
    }
  }

  lemma SameOffsetSameTurn(data: Bytes, start: nat, n: nat, i: nat, j: nat)
    requires TakesTurns(data, start, n)
    requires OffsetAt(data, start, i).Some? && OffsetAt(data, start, i) == OffsetAt(data, start, j)
    ensures i == j
  {
    TurnsLeft(data, start, n, i);
    TurnsLeft(data, start, n, j);
    TurnsAreUnique(data, OffsetAt(data, start, i).value, n - i, n - j);
  }

  ghost predicate ComesBack(data: Bytes, start: nat, i: nat, j: nat) {
    i < j && OffsetAt(data, start, i).Some? && OffsetAt(data, start, j) == OffsetAt(data, start, i)
  }

  lemma PastTheEnd(data: Bytes, o: nat, turns: nat)
    ensures o >= |data| ==> ReadName(data, o, turns).Some? && Halts(data, o)
  {
  }

  lemma {:induction false} EndlessGoesOn(data: Bytes, start: nat, k: nat)
    requires !Halts(data, start)
    ensures OffsetAt(data, start, k).Some? && OffsetAt(data, start, k).value < |data|
    ensures !Halts(data, OffsetAt(data, start, k).value)
  {
    if k == 0 {
      PastTheEnd(data, start, k);
    } else {
      EndlessGoesOn(data, start, k - 1);
      EndlessNext(data, OffsetAt(data, start, k - 1).value);
    }
  }

  lemma EndlessNext(data: Bytes, o: nat)
    requires !Halts(data, o)
    ensures Next(data, o).Some? && Next(data, o).value < |data| && !Halts(data, Next(data, o).value)
  {
    assert ReadName(data, o, 0).None? && ReadName(data, o, 1).None?;
    var next := Next(data, o).value;
    PastTheEnd(data, next, 0);
    if turns: nat :| ReadName(data, next, turns).Some? {
      assert ReadName(data, o, turns + 1).Some?;
    }
  }

  /** The offsets of the first `n` turns. */
  ghost predicate FirstOffsets(data: Bytes, start: nat, n: nat, visited: set<nat>) {
    forall o | o in visited :: o < |data| && exists k: nat :: k < n && OffsetAt(data, start, k) == Some(o)
  }

  lemma AnotherOffset(data: Bytes, start: nat, n: nat, visited: set<nat>, o: nat)
    requires FirstOffsets(data, start, n, visited) && OffsetAt(data, start, n) == Some(o) && o < |data|
    requires forall i, j :: !ComesBack(data, start, i, j)
    ensures o !in visited && FirstOffsets(data, start, n + 1, visited + {o})
  {
    hide OffsetAt;
    forall k: nat | k < n ensures OffsetAt(data, start, k) != Some(o) {
      assert !ComesBack(data, start, k, n);
    }
    forall q | q in visited + {o} ensures q < |data| && exists k: nat :: k < n + 1 && OffsetAt(data, start, k) == Some(q) {
      if q == o {
        assert OffsetAt(data, start, n) == Some(q);
      } else {
        var k: nat :| k < n && OffsetAt(data, start, k) == Some(q);
        assert k < n + 1;
      }
    }
  }

  lemma {:induction false} DifferentOffsets(data: Bytes, start: nat, n: nat) returns (visited: set<nat>)
    requires !Halts(data, start) && forall i, j :: !ComesBack(data, start, i, j)
    ensures |visited| == n && FirstOffsets(data, start, n, visited)
  {
    hide OffsetAt, Halts, ComesBack;
    visited := {};
    if n > 0 {
      visited := DifferentOffsets(data, start, n - 1);
      EndlessGoesOn(data, start, n - 1);
      var o := OffsetAt(data, start, n - 1).value;
      AnotherOffset(data, start, n - 1, visited, o);
      visited := visited + {o};
    }
  }

  /** Decoding a name returns exactly if the loop never comes back to an offset. */
  lemma HaltsIffNeverComesBack(data: Bytes, start: nat)
    ensures Halts(data, start) <==> forall i, j :: !ComesBack(data, start, i, j)
  {
    if Halts(data, start) {
      var turns: nat :| ReadName(data, start, turns).Some?;
      var n := FewestTurns(data, start, turns);
      forall i, j ensures !ComesBack(data, start, i, j) {
        if OffsetAt(data, start, i).Some? && OffsetAt(data, start, i) == OffsetAt(data, start, j) {
          SameOffsetSameTurn(data, start, n, i, j);
        }
      }
    } else if forall i, j :: !ComesBack(data, start, i, j) {
      var visited := DifferentOffsets(data, start, |data| + 1);
      BoundedSetSize(visited, |data|);
    }
  }

  /** Every pointer met leads to a place before the segment it ends. */
  predicate PointsBackward(data: Bytes, offset: nat, segmentStart: nat)
    decreases segmentStart, |data| - offset
  {
    offset < |data| ==>
      match TurnAt(data, offset)
      case Stop(_) => true
      case Label(_, next) => PointsBackward(data, next, segmentStart)
      case Jump(target) => target < segmentStart && PointsBackward(data, target, target)
  }

  lemma {:induction false} BackwardPointersHalt(data: Bytes, offset: nat, segmentStart: nat)
    requires PointsBackward(data, offset, segmentStart)
    ensures Terminates(data, offset)
    decreases segmentStart, |data| - offset
  {
    if offset < |data| {
      match TurnAt(data, offset) {
        case Stop(_) => assert ReadName(data, offset, 1).Some?;
        case Label(_, next) =>
          BackwardPointersHalt(data, next, segmentStart);
          assert ReadName(data, offset, |data| + 1).Some?;
        case Jump(target) =>
          BackwardPointersHalt(data, target, target);
          assert ReadName(data, offset, |data| + 1).Some?;
      }
    }
    HaltsIffTerminates(data, offset);
  }

  /** A pointer to itself keeps the loop going forever. */
  lemma {:induction false} SelfPointerNeverHalts(data: Bytes, offset: nat, turns: nat)
    requires offset + 2 <= |data| && data[offset] >= POINTER_FLAG && PointerAt(data, offset) == offset
    ensures ReadName(data, offset, turns).None?
  {
    if turns > 0 {
      SelfPointerNeverHalts(data, offset, turns - 1);
    }
  }

  lemma {:induction false} EndIsNotBefore(data: Bytes, offset: nat, turns: nat)
    requires ReadName(data, offset, turns).Some?
    ensures offset <= ReadName(data, offset, turns).value.end
    ensures offset <= |data| ==> ReadName(data, offset, turns).value.end <= |data|
    decreases turns
  {
    if offset < |data| {
      match TurnAt(data, offset)
      case Stop(_) =>
      case Label(_, next) => EndIsNotBefore(data, next, turns - 1);
      case Jump(_) =>
    }
  }

  /** strings.Join(parts, "."). */
  function DottedName(labels: seq<Bytes>): Bytes {
    if labels == [] then []
    else if |labels| == 1 then labels[0]
    else DottedName(labels[..|labels| - 1]) + [DOT] + labels[|labels| - 1]
  }

  /** Labels are joined by single dots, in order. */
  lemma {:induction false} DottedInTwo(a: seq<Bytes>, b: seq<Bytes>)
    requires a != [] && b != []
    ensures DottedName(a + b) == DottedName(a) + ['.' as int] + DottedName(b)
  {
    if |b| == 1 {
      assert (a + b)[..|a + b| - 1] == a;
    } else {
      DottedInTwo(a, b[..|b| - 1]);
      assert (a + b)[..|a + b| - 1] == a + b[..|b| - 1];
    }
  }

  lemma DottedOne(l: Bytes)
    ensures DottedName([]) == [] && DottedName([l]) == l
  {
  }

  lemma NameAtUnfold(data: Bytes, start: nat)
    requires Terminates(data, start)
    ensures ReadName(data, start, |data|) == Some(NameAt(data, start))
  {
  }

  lemma ReadNameUnfold(data: Bytes, offset: nat, turns: nat)
    requires ReadName(data, offset, turns).Some? && offset < |data|
    ensures var r := ReadName(data, offset, turns).value;
            match TurnAt(data, offset)
            case Stop(end) => r == NameRead([], end)
            case Label(text, next) =>
              turns > 0 && ReadName(data, next, turns - 1).Some?
              && r == NameRead([text] + ReadName(data, next, turns - 1).value.labels, ReadName(data, next, turns - 1).value.end)
            case Jump(target) =>
              turns > 0 && ReadName(data, target, turns - 1).Some?
              && r == NameRead(ReadName(data, target, turns - 1).value.labels, offset + 2)
  {
    hide TurnAt;
  }

  lemma ReadNameDone(data: Bytes, offset: nat, turns: nat)
    ensures offset >= |data| ==> ReadName(data, offset, turns) == Some(NameRead([], offset))
  {
  }

  method ParseDNSName(data: Bytes, start: nat) returns (name: Bytes, end: nat)
    requires Terminates(data, start)
    ensures name == DottedName(NameAt(data, start).labels) && end == NameAt(data, start).end
  {
    hide ReadName, NameAt, Terminates, DottedName;
    NameAtUnfold(data, start);
    var offset: nat, parts: seq<Bytes> := start, [];
    var jumped, jumpOffset := false, 0;
    ghost var whole, left: nat := NameAt(data, start), |data|;
    while offset < |data|
      invariant ReadName(data, offset, left).Some?
      invariant whole.labels == parts + ReadName(data, offset, left).value.labels
      invariant whole.end == if jumped then jumpOffset else ReadName(data, offset, left).value.end
      decreases left
    {
      ReadNameUnfold(data, offset, left);
      var length := data[offset];
      if length >= POINTER_FLAG {
        if offset + 1 >= |data| {
          assert whole.labels == parts;
          break;
        }
        if !jumped {
          jumpOffset := offset + 2;
        }
        offset := PointerAt(data, offset);
        jumped := true;
        left := left - 1;
        continue;
      }
      if length == 0 {
        offset := offset + 1;
        assert whole.labels == parts;
        break;
      }
      if offset + 1 + length > |data| {
        assert whole.labels == parts;
        break;
      }
      parts := parts + [data[offset + 1..offset + 1 + length]];
      offset := offset + 1 + length;
      left := left - 1;
    }
    ReadNameDone(data, offset, left);
    if jumped {
      offset := jumpOffset;
    }
    assert parts + [] == parts;
    return DottedName(parts), offset;
  }

  // ----- decoding a packet -----

  const TYPE_A := 1

  datatype PacketRead = PacketRead(hostname: Bytes, isResponse: bool, ipv4Addr: string)

  /** The address a record contributes: its data as an IPv4 text if it is an A
      record whose four bytes are there, otherwise what was known before. */
  function RecordAddress(data: Bytes, offset: nat, addr: string): string
    requires offset + 10 <= |data|
  {
    if Uint16At(data, offset) == TYPE_A && Uint16At(data, offset + 8) == 4 && offset + 14 <= |data| then
      ToText(IP(data[offset + 10], data[offset + 11], data[offset + 12], data[offset + 13]))
    else addr
  }

  /** The answer loop from `offset` on, with `left` answers still announced; None
      if one of the names it meets never ends. */
  function ReadAnswers(data: Bytes, offset: nat, left: nat, addr: string): Option<string>
    decreases left
  {
    if left == 0 || offset >= |data| then Some(addr)
    else if !Terminates(data, offset) then None
    else
      var fixed := NameAt(data, offset).end;
      if fixed + 10 > |data| then Some(addr)
      else ReadAnswers(data, fixed + 10 + Uint16At(data, fixed + 8), left - 1, RecordAddress(data, fixed, addr))
  }

  /** How many turns of the answer loop are begun. */
  function AnswerTurns(data: Bytes, offset: nat, left: nat): nat
    decreases left
  {
    if left == 0 || offset >= |data| || !Terminates(data, offset) then 0
    else
      var fixed := NameAt(data, offset).end;
      if fixed + 10 > |data| then 1
      else 1 + AnswerTurns(data, fixed + 10 + Uint16At(data, fixed + 8), left - 1)
  }

  /** Whether the packet has a question whose name is read. */
  predicate AsksName(data: Bytes)
    requires |data| >= HEADER_SIZE
  {
    Uint16At(data, 4) > 0 && HEADER_SIZE < |data|
  }

  /** Where the answers begin. */
  function AnswersStart(data: Bytes): (o: nat)
    requires |data| >= HEADER_SIZE && (AsksName(data) ==> Terminates(data, HEADER_SIZE))
  {
    if AsksName(data) then NameAt(data, HEADER_SIZE).end + 4 else HEADER_SIZE
  }

  function ReadPacket(data: Bytes): Option<PacketRead> {
    if |data| < HEADER_SIZE then Some(PacketRead([], false, ""))
    else
      var isResponse := Uint16At(data, 2) >= 0x8000;
      var anCount := Uint16At(data, 6);
      if AsksName(data) && !Terminates(data, HEADER_SIZE) then None
      else
        var hostname := if AsksName(data) then DottedName(NameAt(data, HEADER_SIZE).labels) else [];
        var offset := AnswersStart(data);
        if isResponse && anCount > 0 then
          (match ReadAnswers(data, offset, anCount, "")
           case None => None
           case Some(addr) => Some(PacketRead(hostname, isResponse, addr)))
        else Some(PacketRead(hostname, isResponse, ""))
  }

  /** One turn of the answer loop, case by case. */
  lemma ReadAnswersUnfold(data: Bytes, offset: nat, left: nat, addr: string)
    ensures left == 0 || offset >= |data| ==>
              ReadAnswers(data, offset, left, addr) == Some(addr) && AnswerTurns(data, offset, left) == 0
    ensures left > 0 && offset < |data| && ReadAnswers(data, offset, left, addr).Some? ==> Terminates(data, offset)
    ensures left > 0 && offset < |data| && Terminates(data, offset) ==>
              var fixed := NameAt(data, offset).end;
              if fixed + 10 > |data| then
                ReadAnswers(data, offset, left, addr) == Some(addr) && AnswerTurns(data, offset, left) == 1
              else
                var next := fixed + 10 + Uint16At(data, fixed + 8);
                && ReadAnswers(data, offset, left, addr) == ReadAnswers(data, next, left - 1, RecordAddress(data, fixed, addr))
                && AnswerTurns(data, offset, left) == 1 + AnswerTurns(data, next, left - 1)
  {
  }

  // ----- how often the answer loop turns -----

  /** How many turns read a whole record. */
  function Records(data: Bytes, offset: nat, left: nat): nat
    decreases left
  {
    if left == 0 || offset >= |data| || !Terminates(data, offset) then 0
    else
      var fixed := NameAt(data, offset).end;
      if fixed + 10 > |data| then 0
      else 1 + Records(data, fixed + 10 + Uint16At(data, fixed + 8), left - 1)
  }

  /** The loop stops after a name that has no ten bytes behind it. */
  predicate StopsAfterName(data: Bytes, offset: nat, left: nat)
    decreases left
  {
    && left > 0 && offset < |data| && Terminates(data, offset)
    && var fixed := NameAt(data, offset).end;
       fixed + 10 > |data| || StopsAfterName(data, fixed + 10 + Uint16At(data, fixed + 8), left - 1)
  }

  lemma RecordsUnfold(data: Bytes, offset: nat, left: nat)
    ensures left == 0 || offset >= |data| || !Terminates(data, offset) ==>
              AnswerTurns(data, offset, left) == Records(data, offset, left) == 0 && !StopsAfterName(data, offset, left)
    ensures left > 0 && offset < |data| && Terminates(data, offset) ==>
              var fixed := NameAt(data, offset).end;
              if fixed + 10 > |data| then
                AnswerTurns(data, offset, left) == 1 && Records(data, offset, left) == 0 && StopsAfterName(data, offset, left)
              else
                var next := fixed + 10 + Uint16At(data, fixed + 8);
                && AnswerTurns(data, offset, left) == 1 + AnswerTurns(data, next, left - 1)
                && Records(data, offset, left) == 1 + Records(data, next, left - 1)
                && (StopsAfterName(data, offset, left) <==> StopsAfterName(data, next, left - 1))
  {
  }

  /** Each record takes at least ten bytes, and at most one more turn is begun. */
  lemma {:induction false} RecordsBound(data: Bytes, offset: nat, left: nat)
    ensures AnswerTurns(data, offset, left) == Records(data, offset, left) + One(StopsAfterName(data, offset, left))
    ensures AnswerTurns(data, offset, left) <= left
    ensures if offset <= |data| then 10 * Records(data, offset, left) + One(StopsAfterName(data, offset, left)) <= |data| - offset
            else AnswerTurns(data, offset, left) == 0
    decreases left
  {
    hide *;
    RecordsUnfold(data, offset, left);
    OneOf(StopsAfterName(data, offset, left));
    if left > 0 && offset < |data| && Terminates(data, offset) {
      EndOfName(data, offset);
      var fixed := NameAt(data, offset).end;
      if fixed + 10 <= |data| {
        var next := fixed + 10 + Uint16At(data, fixed + 8);
        RecordsBound(data, next, left - 1);
        OneOf(StopsAfterName(data, next, left - 1));
      }
    }
  }

  lemma OneOf(b: bool)
    ensures One(b) == if b then 1 else 0
  {
  }

  lemma EndOfName(data: Bytes, offset: nat)
    requires Terminates(data, offset)
    ensures offset <= NameAt(data, offset).end
  {
    EndIsNotBefore(data, offset, |data|);
  }

  /** Whatever number of answers is announced: ten times the turns begun stays
      within the bytes there are, exactly unless the loop stops after a name and
      the bytes have no room for one more record. */
  lemma AnswerTurnsBound(data: Bytes, offset: nat, left: nat)
    requires offset <= |data|
    ensures 10 * AnswerTurns(data, offset, left) <= |data| - offset <==>
              !(StopsAfterName(data, offset, left) && 10 * Records(data, offset, left) + 10 > |data| - offset)
    ensures 10 * AnswerTurns(data, offset, left) <= |data| - offset + 9
  {
    hide *;
    RecordsBound(data, offset, left);
    OneOf(StopsAfterName(data, offset, left));
  }

  /** The same for a whole packet and the bytes behind its header. */
  lemma PacketTurnsExceedIff(data: Bytes)
    requires |data| >= HEADER_SIZE && (AsksName(data) ==> Terminates(data, HEADER_SIZE))
    ensures var o, n := AnswersStart(data), Uint16At(data, 6);
            AnswerTurns(data, o, n) > (|data| - HEADER_SIZE) / 10 <==>
              StopsAfterName(data, o, n) && Records(data, o, n) + 1 > (|data| - HEADER_SIZE) / 10
  {
    hide ReadName, NameAt, Terminates, AnswerTurns, StopsAfterName, Records, AsksName, AnswersStart;
    var o, n := AnswersStart(data), Uint16At(data, 6);
    AnswersStartInPacket(data);
    RecordsBound(data, o, n);
    OneOf(StopsAfterName(data, o, n));
  }

  lemma AnswersStartInPacket(data: Bytes)
    requires |data| >= HEADER_SIZE && (AsksName(data) ==> Terminates(data, HEADER_SIZE))
    ensures AnswersStart(data) >= HEADER_SIZE
  {
    if AsksName(data) {
      EndOfName(data, HEADER_SIZE);
    }
  }

  /** It does happen: thirteen bytes, a response with one answer that is cut off
      after its empty name. */
  lemma CutOffAnswerTakesTurn()
    ensures var data: Bytes := [0, 0, 0x80, 0, 0, 0, 0, 1, 0, 0, 0, 0, 0];
            && ReadPacket(data).Some? && AnswersStart(data) == HEADER_SIZE
            && AnswerTurns(data, HEADER_SIZE, Uint16At(data, 6)) == 1 > (|data| - HEADER_SIZE) / 10
  {
    var data: Bytes := [0, 0, 0x80, 0, 0, 0, 0, 1, 0, 0, 0, 0, 0];
    CutOffAnswer(data, Uint16At(data, 6));
  }

  lemma CutOffAnswer(data: Bytes, n: nat)
    requires |data| == HEADER_SIZE + 1 && data[HEADER_SIZE] == 0 && n > 0
    ensures Terminates(data, HEADER_SIZE) && AnswerTurns(data, HEADER_SIZE, n) == 1
    ensures ReadAnswers(data, HEADER_SIZE, n, "") == Some("")
  {
    assert ReadName(data, HEADER_SIZE, |data|) == Some(NameRead([], HEADER_SIZE + 1));
    ReadAnswersUnfold(data, HEADER_SIZE, n, "");
  }

  // ----- packets whose names point backward -----

  /** The names the answer loop meets from `offset` on point backward. */
  predicate AnswersPointBackward(data: Bytes, offset: nat, left: nat)
    decreases left
  {
    left > 0 && offset < |data| ==>
      && PointsBackward(data, offset, offset)
      && (Terminates(data, offset) ==>
            var fixed := NameAt(data, offset).end;
            fixed + 10 <= |data| ==>
              AnswersPointBackward(data, fixed + 10 + Uint16At(data, fixed + 8), left - 1))
  }

  /** So do all the names the decoder meets in the packet. */
  predicate PacketPointsBackward(data: Bytes) {
    |data| >= HEADER_SIZE ==>
      && (AsksName(data) ==> PointsBackward(data, HEADER_SIZE, HEADER_SIZE))
      && (Uint16At(data, 2) >= 0x8000 && (AsksName(data) ==> Terminates(data, HEADER_SIZE)) ==>
            AnswersPointBackward(data, AnswersStart(data), Uint16At(data, 6)))
  }

  lemma AnswersPointBackwardUnfold(data: Bytes, offset: nat, left: nat)
    requires left > 0 && offset < |data|
    ensures AnswersPointBackward(data, offset, left) ==> PointsBackward(data, offset, offset)
    ensures Terminates(data, offset) ==>
              var fixed := NameAt(data, offset).end;
              if fixed + 10 > |data| then
                AnswersPointBackward(data, offset, left) <==> PointsBackward(data, offset, offset)
              else
                AnswersPointBackward(data, offset, left) <==>
                  PointsBackward(data, offset, offset)
                  && AnswersPointBackward(data, fixed + 10 + Uint16At(data, fixed + 8), left - 1)
  {
  }

  lemma {:induction false} AnswersRead(data: Bytes, offset: nat, left: nat, addr: string)
    requires AnswersPointBackward(data, offset, left)
    ensures ReadAnswers(data, offset, left, addr).Some?
    decreases left
  {
    hide *;
    ReadAnswersUnfold(data, offset, left, addr);
    if left > 0 && offset < |data| {
      AnswersPointBackwardUnfold(data, offset, left);
      BackwardPointersHalt(data, offset, offset);
      var fixed := NameAt(data, offset).end;
      if fixed + 10 <= |data| {
        AnswersRead(data, fixed + 10 + Uint16At(data, fixed + 8), left - 1, RecordAddress(data, fixed, addr));
      }
    }
  }

  /** A packet is decoded if the pointers of the names met in it lead backward,
      whatever else its bytes say. */
  lemma BackwardPacketsAreRead(data: Bytes)
    requires PacketPointsBackward(data)
    ensures ReadPacket(data).Some?
  {
    hide ReadAnswers, AnswersPointBackward, PointsBackward;
    if |data| >= HEADER_SIZE {
      if AsksName(data) {
        BackwardPointersHalt(data, HEADER_SIZE, HEADER_SIZE);
      }
      if Uint16At(data, 2) >= 0x8000 {
        AnswersRead(data, AnswersStart(data), Uint16At(data, 6), "");
      }
    }
  }

  method ParseLLMNRPacket(data: Bytes)
    returns (hostname: Bytes, isResponse: bool, ipv4Addr: string)
    requires ReadPacket(data).Some?
    ensures PacketRead(hostname, isResponse, ipv4Addr) == ReadPacket(data).value
  {
    hostname, isResponse, ipv4Addr := [], false, "";
    if |data| < HEADER_SIZE {
      return;
    }
    isResponse := Uint16At(data, 2) >= 0x8000;
    var qdCount, anCount := Uint16At(data, 4), Uint16At(data, 6);
    var offset: nat := HEADER_SIZE;
    if qdCount > 0 && offset < |data| {
      EndIsNotBefore(data, offset, |data|);
      var name, newOffset := ParseDNSName(data, offset);
      hostname := name;
      offset := newOffset + 4;
    }
    if isResponse && anCount > 0 {
      ghost var turns;
      ipv4Addr, turns := ParseAnswers(data, offset, anCount);
    }
  }

  /** The answer loop; `turns` is the number of turns it took. */
  method ParseAnswers(data: Bytes, start: nat, anCount: nat) returns (ipv4Addr: string, ghost turns: nat)
    requires ReadAnswers(data, start, anCount, "").Some?
    ensures Some(ipv4Addr) == ReadAnswers(data, start, anCount, "")
    ensures turns == AnswerTurns(data, start, anCount)
    ensures start <= |data| ==> 10 * turns <= |data| - start + 9
  {
    hide *;
    ipv4Addr, turns := "", 0;
    var offset: nat, i: nat := start, 0;
    if start <= |data| {
      AnswerTurnsBound(data, start, anCount);
    }
    while i < anCount && offset < |data|
      invariant i <= anCount && turns == i
      invariant ReadAnswers(data, offset, anCount - i, ipv4Addr) == ReadAnswers(data, start, anCount, "")
      invariant AnswerTurns(data, start, anCount) == i + AnswerTurns(data, offset, anCount - i)
    {
      turns := turns + 1;
      ReadAnswersUnfold(data, offset, anCount - i, ipv4Addr);
      var _, fixed := ParseDNSName(data, offset);
      if fixed + 10 > |data| {
        return;
      }
      offset, ipv4Addr := ParseRecord(data, fixed, ipv4Addr);
      i := i + 1;
    }
    ReadAnswersUnfold(data, offset, anCount - i, ipv4Addr);
  }

  /** The part of an answer after its name. */
  method ParseRecord(data: Bytes, fixed: nat, addrBefore: string) returns (offset: nat, addr: string)
    requires fixed + 10 <= |data|
    ensures offset == fixed + 10 + Uint16At(data, fixed + 8) && addr == RecordAddress(data, fixed, addrBefore)
  {
    addr := addrBefore;
    var rrType, rdLength := Uint16At(data, fixed), Uint16At(data, fixed + 8);
    offset := fixed + 10;
    if rrType == TYPE_A && rdLength == 4 && offset + 4 <= |data| {
      addr := ToText(IP(data[offset], data[offset + 1], data[offset + 2], data[offset + 3]));
    }
    offset := offset + rdLength;
  }
}
