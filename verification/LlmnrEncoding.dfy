/** An encoder for LLMNR messages with name compression (section 4.1.4 of
    RFC 1035), and the proof that the decoder inverts it. */
module LlmnrEncoding {
  import opened Common
  import opened Ipv4
  import opened Llmnr

  type Name = seq<Bytes>

  /** The decoder takes any length byte below 192 for a label; RFC 1035 allows 63. */
  predicate ValidName(name: Name) {
    forall l | l in name :: 1 <= |l| < POINTER_FLAG
  }

  // ----- the encoder -----

  /** Where names, and the tails of names, already stand in the message. */
  type Places = map<Name, nat>

  function EncodeName(name: Name, base: nat, places: Places): (Bytes, Places)
    requires ValidName(name) && forall n | n in places :: places[n] < POINTER_LIMIT
    ensures forall n | n in EncodeName(name, base, places).1 :: EncodeName(name, base, places).1[n] < POINTER_LIMIT
  {
    if name == [] then ([0], places)
    else if name in places then
      ([POINTER_FLAG + places[name] / 0x100, places[name] % 0x100], places)
    else
      var (rest, after) := EncodeName(name[1..], base + 1 + |name[0]|, places);
      ([|name[0]|] + name[0] + rest, if base < POINTER_LIMIT then after[name := base] else after)
  }

  datatype Answer = Answer(name: Name, rrType: nat, classAndTtl: Bytes, rdata: Bytes)

  predicate ValidAnswer(a: Answer) {
    ValidName(a.name) && a.rrType < 0x1_0000 && |a.classAndTtl| == 6 && |a.rdata| < 0x1_0000
  }

  function Big(n: nat): Bytes
    requires n < 0x1_0000
  {
    [n / 0x100, n % 0x100]
  }

  function AnswerTail(a: Answer): Bytes
    requires ValidAnswer(a)
  {
    Big(a.rrType) + a.classAndTtl + Big(|a.rdata|) + a.rdata
  }

  function EncodeAnswers(answers: seq<Answer>, base: nat, places: Places): Bytes
    requires (forall a | a in answers :: ValidAnswer(a)) && forall n | n in places :: places[n] < POINTER_LIMIT
  {
    if answers == [] then []
    else
      assert ValidAnswer(answers[0]);
      var (name, after) := EncodeName(answers[0].name, base, places);
      var record := name + AnswerTail(answers[0]);
      record + EncodeAnswers(answers[1..], base + |record|, after)
  }

  datatype Message = Message(id: Bytes, flags: nat, otherCounts: Bytes, question: Name, typeAndClass: Bytes,
                             answers: seq<Answer>)

  predicate ValidMessage(m: Message) {
    && |m.id| == 2 && m.flags < 0x1_0000 && |m.otherCounts| == 4 && |m.typeAndClass| == 4
    && ValidName(m.question) && |m.answers| < 0x1_0000 && forall a | a in m.answers :: ValidAnswer(a)
  }

  function Header(m: Message): Bytes
    requires ValidMessage(m)
  {
    m.id + Big(m.flags) + Big(1) + Big(|m.answers|) + m.otherCounts
  }

  /** A message with one question. */
  function Encode(m: Message): Bytes
    requires ValidMessage(m)
  {
    var (name, places) := EncodeName(m.question, HEADER_SIZE, map[]);
    var asked := Header(m) + name + m.typeAndClass;
    asked + EncodeAnswers(m.answers, |asked|, places)
  }

  // ----- what the bytes at a place spell -----

  /** The bytes at `o` spell `name` with at most `jumps` pointers in a row. */
  predicate Spells(data: Bytes, o: nat, name: Name, jumps: nat)
    decreases jumps, |name|
  {
    && o < |data|
    && if data[o] >= POINTER_FLAG then
         o + 1 < |data| && jumps > 0 && Spells(data, PointerAt(data, o), name, jumps - 1)
       else if data[o] == 0 then name == []
       else
         && name != [] && data[o] == |name[0]| && o + 1 + |name[0]| <= |data|
         && data[o + 1..o + 1 + |name[0]|] == name[0]
         && Spells(data, o + 1 + |name[0]|, name[1..], jumps)
  }

  /** Just past the zero or the first pointer. */
  function SpellingEnd(data: Bytes, o: nat, name: Name, jumps: nat): nat
    requires Spells(data, o, name, jumps)
    decreases |name|
  {
    if data[o] >= POINTER_FLAG then o + 2
    else if data[o] == 0 then o + 1
    else SpellingEnd(data, o + 1 + |name[0]|, name[1..], jumps)
  }

  lemma {:induction false} SpellingIsRead(data: Bytes, o: nat, name: Name, jumps: nat)
    requires Spells(data, o, name, jumps)
    ensures Terminates(data, o) && NameAt(data, o) == NameRead(name, SpellingEnd(data, o, name, jumps))
  {
    var turns := SpellingTurns(data, o, name, jumps);
    HaltsIffTerminates(data, o);
    if turns <= |data| {
      MoreTurns(data, o, turns, |data|);
    } else {
      MoreTurns(data, o, |data|, turns);
    }
  }

  lemma {:induction false} SpellingTurns(data: Bytes, o: nat, name: Name, jumps: nat) returns (turns: nat)
    requires Spells(data, o, name, jumps)
    ensures ReadName(data, o, turns) == Some(NameRead(name, SpellingEnd(data, o, name, jumps)))
    decreases jumps, |name|
  {
    if data[o] >= POINTER_FLAG {
      turns := SpellingTurns(data, PointerAt(data, o), name, jumps - 1);
      turns := turns + 1;
    } else if data[o] == 0 {
      turns := 1;
    } else {
      turns := SpellingTurns(data, o + 1 + |name[0]|, name[1..], jumps);
      turns := turns + 1;
      assert [name[0]] + name[1..] == name;
    }
  }

  /** Appending bytes changes no spelling. */
  lemma {:induction false} SpellingIsStable(data: Bytes, more: Bytes, o: nat, name: Name, jumps: nat, jumps': nat)
    requires Spells(data, o, name, jumps) && jumps <= jumps'
    ensures Spells(data + more, o, name, jumps')
    ensures SpellingEnd(data + more, o, name, jumps') == SpellingEnd(data, o, name, jumps)
    decreases jumps, |name|
  {
    if data[o] >= POINTER_FLAG {
      SpellingIsStable(data, more, PointerAt(data, o), name, jumps - 1, jumps' - 1);
    } else if data[o] != 0 {
      SpellingIsStable(data, more, o + 1 + |name[0]|, name[1..], jumps, jumps');
      assert (data + more)[o + 1..o + 1 + |name[0]|] == data[o + 1..o + 1 + |name[0]|];
    }
  }

  /** Every remembered place spells its name in the message written so far. */
  ghost predicate PlacesOk(data: Bytes, places: Places, jumps: nat) {
    forall n | n in places :: places[n] < POINTER_LIMIT && Spells(data, places[n], n, jumps)
  }

  lemma PlacesInRange(data: Bytes, places: Places, jumps: nat)
    requires PlacesOk(data, places, jumps)
    ensures forall n | n in places :: places[n] < POINTER_LIMIT
  {
  }

  lemma PlacesStayOk(data: Bytes, more: Bytes, places: Places, jumps: nat, jumps': nat)
    requires PlacesOk(data, places, jumps) && jumps <= jumps'
    ensures PlacesOk(data + more, places, jumps')
  {
    forall n | n in places ensures Spells(data + more, places[n], n, jumps') {
      SpellingIsStable(data, more, places[n], n, jumps, jumps');
    }
  }

  // ----- the encoder spells what it is given -----

  lemma Associative(a: Bytes, b: Bytes, c: Bytes)
    ensures a + b + c == a + (b + c)
  {
  }

  lemma EncodeNameUnfold(name: Name, base: nat, places: Places)
    requires ValidName(name) && (forall n | n in places :: places[n] < POINTER_LIMIT)
    requires name != [] && name !in places
    ensures var (rest, after) := EncodeName(name[1..], base + 1 + |name[0]|, places);
            && EncodeName(name, base, places).0 == [|name[0]|] + name[0] + rest
            && EncodeName(name, base, places).1 == if base < POINTER_LIMIT then after[name := base] else after
  {
  }

  lemma EncodedPointer(data: Bytes, name: Name, target: nat, jumps: nat)
    requires target < POINTER_LIMIT && Spells(data, target, name, jumps)
    ensures var whole := data + [POINTER_FLAG + target / 0x100, target % 0x100];
            Spells(whole, |data|, name, jumps + 1) && SpellingEnd(whole, |data|, name, jumps + 1) == |whole|
  {
    var bytes := [POINTER_FLAG + target / 0x100, target % 0x100];
    SpellingIsStable(data, bytes, target, name, jumps, jumps);
    assert PointerAt(data + bytes, |data|) == target;
  }

  lemma EncodedLabel(data: Bytes, name: Name, rest: Bytes, jumps: nat)
    requires name != [] && 1 <= |name[0]| < POINTER_FLAG
    requires var whole := data + ([|name[0]|] + name[0]) + rest;
             var o := |data| + 1 + |name[0]|;
             Spells(whole, o, name[1..], jumps) && SpellingEnd(whole, o, name[1..], jumps) == |whole|
    ensures var whole := data + ([|name[0]|] + name[0]) + rest;
            Spells(whole, |data|, name, jumps) && SpellingEnd(whole, |data|, name, jumps) == |whole|
  {
    var whole := data + ([|name[0]|] + name[0]) + rest;
    assert whole[|data| + 1..|data| + 1 + |name[0]|] == name[0];
    assert whole[|data|] == |name[0]|;
  }

  lemma NewPlaceIsOk(data: Bytes, places: Places, name: Name, o: nat, jumps: nat)
    requires PlacesOk(data, places, jumps) && o < POINTER_LIMIT && Spells(data, o, name, jumps)
    ensures PlacesOk(data, places[name := o], jumps)
  {
  }

  /** The bytes of `name` follow `data`, and the remembered places are right. */
  ghost predicate Encoded(data: Bytes, bytes: Bytes, name: Name, after: Places, jumps: nat) {
    && Spells(data + bytes, |data|, name, jumps)
    && SpellingEnd(data + bytes, |data|, name, jumps) == |data + bytes|
    && PlacesOk(data + bytes, after, jumps)
  }

  lemma EncodedEnd(data: Bytes, places: Places, jumps: nat)
    requires PlacesOk(data, places, jumps)
    ensures Encoded(data, [0], [], places, jumps + 1)
  {
    PlacesStayOk(data, [0], places, jumps, jumps + 1);
  }

  lemma EncodedRemembered(data: Bytes, name: Name, places: Places, jumps: nat)
    requires PlacesOk(data, places, jumps) && name in places
    ensures Encoded(data, [POINTER_FLAG + places[name] / 0x100, places[name] % 0x100], name, places, jumps + 1)
  {
    PlacesStayOk(data, [POINTER_FLAG + places[name] / 0x100, places[name] % 0x100], places, jumps, jumps + 1);
    EncodedPointer(data, name, places[name], jumps);
  }

  lemma EncodedCons(data: Bytes, name: Name, rest: Bytes, after: Places, jumps: nat)
    requires name != [] && 1 <= |name[0]| < POINTER_FLAG
    requires Encoded(data + ([|name[0]|] + name[0]), rest, name[1..], after, jumps)
    ensures Encoded(data, [|name[0]|] + name[0] + rest, name,
                    if |data| < POINTER_LIMIT then after[name := |data|] else after, jumps)
  {
    Associative(data, [|name[0]|] + name[0], rest);
    EncodedLabel(data, name, rest, jumps);
    if |data| < POINTER_LIMIT {
      NewPlaceIsOk(data + ([|name[0]|] + name[0] + rest), after, name, |data|, jumps);
    }
  }

  lemma {:induction false} EncodedNameSpells(data: Bytes, name: Name, places: Places, jumps: nat)
    requires ValidName(name) && PlacesOk(data, places, jumps)
    ensures var (bytes, after) := EncodeName(name, |data|, places);
            Encoded(data, bytes, name, after, jumps + 1)
    decreases |name|, 1
  {
    if name == [] {
      EncodedEnd(data, places, jumps);
    } else if name in places {
      EncodedRemembered(data, name, places, jumps);
    } else {
      EncodedNew(data, name, places, jumps);
    }
  }

  lemma {:induction false} EncodedNew(data: Bytes, name: Name, places: Places, jumps: nat)
    requires ValidName(name) && PlacesOk(data, places, jumps) && name != [] && name !in places
    ensures Encoded(data, EncodeName(name, |data|, places).0, name, EncodeName(name, |data|, places).1, jumps + 1)
    decreases |name|, 0
  {
    hide *;
    PlacesInRange(data, places, jumps);
    ValidParts(name);
    var front := [|name[0]|] + name[0];
    PlacesStayOk(data, front, places, jumps, jumps);
    EncodeNameUnfold(name, |data|, places);
    EncodedNameSpells(data + front, name[1..], places, jumps);
    assert |data + front| == |data| + 1 + |name[0]|;
    var (rest, after) := EncodeName(name[1..], |data + front|, places);
    EncodedCons(data, name, rest, after, jumps + 1);
  }

  lemma ValidParts(name: Name)
    requires ValidName(name) && name != []
    ensures 1 <= |name[0]| < POINTER_FLAG && |name[0]| < 0x100 && ValidName(name[1..])
  {
  }

  /** Decoding what was encoded, in a message that may go on, gives the name back
      and the place where the encoder stopped. */
  lemma NameRoundTrip(data: Bytes, name: Name, places: Places, jumps: nat, more: Bytes)
    requires ValidName(name) && PlacesOk(data, places, jumps)
    ensures var (bytes, after) := EncodeName(name, |data|, places);
            var whole := data + bytes + more;
            && Terminates(whole, |data|)
            && NameAt(whole, |data|) == NameRead(name, |data + bytes|)
            && PlacesOk(data + bytes, after, jumps + 1)
  {
    var bytes := EncodeName(name, |data|, places).0;
    EncodedNameSpells(data, name, places, jumps);
    SpellingIsStable(data + bytes, more, |data|, name, jumps + 1, jumps + 1);
    SpellingIsRead(data + bytes + more, |data|, name, jumps + 1);
  }

  // ----- the whole message -----

  /** The IPv4 text of the last A record with four bytes of data. */
  function LastAddress(answers: seq<Answer>, addr: string): string {
    if answers == [] then addr
    else
      var a := answers[0];
      LastAddress(answers[1..],
                  if a.rrType == 1 && |a.rdata| == 4 then ToText(IP(a.rdata[0], a.rdata[1], a.rdata[2], a.rdata[3]))
                  else addr)
  }

  lemma BigRoundTrip(n: nat)
    requires n < 0x1_0000
    ensures Uint16(Big(n)[0], Big(n)[1]) == n
  {
  }

  lemma TailIsRead(data: Bytes, a: Answer, more: Bytes, addr: string)
    requires ValidAnswer(a)
    ensures var whole := data + AnswerTail(a) + more;
            && |data + AnswerTail(a)| == |data| + 10 + |a.rdata|
            && Uint16At(whole, |data| + 8) == |a.rdata|
            && RecordAddress(whole, |data|, addr) == LastAddress([a], addr)
  {
    var tail := AnswerTail(a);
    var whole := data + tail + more;
    assert forall i | 0 <= i < |tail| :: whole[|data| + i] == tail[i];
    assert tail[..2] == Big(a.rrType) && tail[8..10] == Big(|a.rdata|) && tail[10..] == a.rdata;
    assert tail[0] == tail[..2][0] && tail[1] == tail[..2][1];
    assert tail[8] == tail[8..10][0] && tail[9] == tail[8..10][1];
    BigRoundTrip(a.rrType);
    BigRoundTrip(|a.rdata|);
    if |a.rdata| == 4 {
      assert tail[10] == tail[10..][0] && tail[11] == tail[10..][1];
      assert tail[12] == tail[10..][2] && tail[13] == tail[10..][3];
    }
    assert [a][1..] == [];
  }

  lemma AnswerParts(a: Answer)
    requires ValidAnswer(a)
    ensures ValidName(a.name) && |AnswerTail(a)| == 10 + |a.rdata|
  {
  }

  lemma AnswerRoundTrip(data: Bytes, a: Answer, places: Places, jumps: nat, rest: Bytes, addr: string)
    requires ValidAnswer(a) && PlacesOk(data, places, jumps)
    ensures var (name, after) := EncodeName(a.name, |data|, places);
            var record := name + AnswerTail(a);
            var whole := data + record + rest;
            && Terminates(whole, |data|) && NameAt(whole, |data|).end == |data + name|
            && |data + name| + 10 + |a.rdata| == |data + record|
            && Uint16At(whole, |data + name| + 8) == |a.rdata|
            && RecordAddress(whole, |data + name|, addr) == LastAddress([a], addr)
            && PlacesOk(data + record, after, jumps + 1)
  {
    hide *;
    PlacesInRange(data, places, jumps);
    AnswerParts(a);
    var (name, after) := EncodeName(a.name, |data|, places);
    NameRoundTrip(data, a.name, places, jumps, AnswerTail(a) + rest);
    PlacesStayOk(data + name, AnswerTail(a), after, jumps + 1, jumps + 1);
    TailIsRead(data + name, a, rest, addr);
    var record := name + AnswerTail(a);
    assert data + record == data + name + AnswerTail(a);
    assert data + record + rest == data + name + (AnswerTail(a) + rest);
  }

  lemma EncodeAnswersUnfold(answers: seq<Answer>, base: nat, places: Places)
    requires answers != [] && (forall a | a in answers :: ValidAnswer(a))
    requires forall n | n in places :: places[n] < POINTER_LIMIT
    ensures ValidAnswer(answers[0]) && ValidName(answers[0].name)
    ensures var (name, after) := EncodeName(answers[0].name, base, places);
            var record := name + AnswerTail(answers[0]);
            EncodeAnswers(answers, base, places) == record + EncodeAnswers(answers[1..], base + |record|, after)
  {
    assert ValidAnswer(answers[0]);
  }

  lemma LastAddressUnfold(answers: seq<Answer>, addr: string)
    requires answers != []
    ensures LastAddress(answers, addr) == LastAddress(answers[1..], LastAddress([answers[0]], addr))
  {
    assert [answers[0]][1..] == [];
  }

  lemma NoAnswersRoundTrip(data: Bytes, answers: seq<Answer>, places: Places, addr: string)
    requires answers == [] && forall n | n in places :: places[n] < POINTER_LIMIT
    ensures ReadAnswers(data + EncodeAnswers(answers, |data|, places), |data|, |answers|, addr)
         == Some(LastAddress(answers, addr))
  {
  }

  lemma {:induction false} AnswersRoundTrip(data: Bytes, answers: seq<Answer>, places: Places, jumps: nat, addr: string)
    requires (forall a | a in answers :: ValidAnswer(a)) && PlacesOk(data, places, jumps)
    ensures ReadAnswers(data + EncodeAnswers(answers, |data|, places), |data|, |answers|, addr)
         == Some(LastAddress(answers, addr))
    decreases |answers|
  {
    hide *;
    PlacesInRange(data, places, jumps);
    if answers == [] {
      NoAnswersRoundTrip(data, answers, places, addr);
    } else {
      var a := answers[0];
      EncodeAnswersUnfold(answers, |data|, places);
      AnswerParts(a);
      LastAddressUnfold(answers, addr);
      var (name, after) := EncodeName(a.name, |data|, places);
      var record := name + AnswerTail(a);
      var rest := EncodeAnswers(answers[1..], |data| + |record|, after);
      AnswerRoundTrip(data, a, places, jumps, rest, addr);
      AnswersRoundTrip(data + record, answers[1..], after, jumps + 1, LastAddress([a], addr));
      Associative(data, record, rest);
      ReadAnswersUnfold(data + record + rest, |data|, |answers|, addr);
    }
  }

  lemma HeaderIsRead(m: Message, more: Bytes)
    requires ValidMessage(m)
    ensures var whole := Header(m) + more;
            && |Header(m)| == HEADER_SIZE
            && Uint16At(whole, 2) == m.flags && Uint16At(whole, 4) == 1 && Uint16At(whole, 6) == |m.answers|
  {
    var h := Header(m);
    assert h[2..4] == Big(m.flags) && h[4..6] == Big(1) && h[6..8] == Big(|m.answers|);
    assert h[2] == h[2..4][0] && h[3] == h[2..4][1] && h[4] == h[4..6][0] && h[5] == h[4..6][1];
    assert h[6] == h[6..8][0] && h[7] == h[6..8][1];
    BigRoundTrip(m.flags);
    BigRoundTrip(|m.answers|);
  }

  lemma NoPlacesOk(data: Bytes)
    ensures PlacesOk(data, map[], 0)
  {
  }

  lemma EncodeNameNonempty(name: Name, base: nat, places: Places)
    requires ValidName(name) && forall n | n in places :: places[n] < POINTER_LIMIT
    ensures |EncodeName(name, base, places).0| > 0
  {
  }

  lemma QuestionRoundTrip(header: Bytes, question: Name, more: Bytes)
    requires |header| == HEADER_SIZE && ValidName(question)
    ensures var (name, places) := EncodeName(question, HEADER_SIZE, map[]);
            var whole := header + name + more;
            && Terminates(whole, HEADER_SIZE) && NameAt(whole, HEADER_SIZE) == NameRead(question, HEADER_SIZE + |name|)
            && |name| > 0 && PlacesOk(header + name, places, 1)
  {
    hide *;
    EncodeNameNonempty(question, HEADER_SIZE, map[]);
    NoPlacesOk(header);
    NameRoundTrip(header, question, map[], 0, more);
  }

  /** How a packet with one question is read, given how its parts are. */
  lemma ReadPacketUnfold(data: Bytes, flags: nat, anCount: nat, question: NameRead)
    requires |data| > HEADER_SIZE
    requires Uint16At(data, 2) == flags && Uint16At(data, 4) == 1 && Uint16At(data, 6) == anCount
    requires Terminates(data, HEADER_SIZE) && NameAt(data, HEADER_SIZE) == question
    requires ReadAnswers(data, question.end + 4, anCount, "").Some?
    ensures ReadPacket(data) == Some(PacketRead(
              DottedName(question.labels), flags >= 0x8000,
              if flags >= 0x8000 then ReadAnswers(data, question.end + 4, anCount, "").value else ""))
  {
    ReadAnswersUnfold(data, question.end + 4, anCount, "");
  }

  /** Decoding an encoded message gives the question's name, the response bit,
      and for a response the address of its last A record. */
  lemma MessageRoundTrip(m: Message)
    requires ValidMessage(m)
    ensures ReadPacket(Encode(m)) == Some(PacketRead(
              DottedName(m.question), m.flags >= 0x8000,
              if m.flags >= 0x8000 then LastAddress(m.answers, "") else ""))
  {
    var (name, places) := EncodeName(m.question, HEADER_SIZE, map[]);
    var asked := Header(m) + name + m.typeAndClass;
    var answers := EncodeAnswers(m.answers, |asked|, places);
    EncodedMessageReads(m, Header(m), name, places, answers);
  }

  lemma Regroup(a: Bytes, b: Bytes, c: Bytes, d: Bytes)
    ensures a + b + c + d == a + (b + (c + d)) == a + b + (c + d)
  {
  }

  lemma EncodedMessageReads(m: Message, header: Bytes, name: Bytes, places: Places, answers: Bytes)
    requires ValidMessage(m) && header == Header(m) && (name, places) == EncodeName(m.question, HEADER_SIZE, map[])
    requires answers == EncodeAnswers(m.answers, |header + name + m.typeAndClass|, places)
    ensures ReadPacket(header + name + m.typeAndClass + answers) == Some(PacketRead(
              DottedName(m.question), m.flags >= 0x8000,
              if m.flags >= 0x8000 then LastAddress(m.answers, "") else ""))
  {
    hide *;
    ValidMessageParts(m);
    var asked := header + name + m.typeAndClass;
    var data := asked + answers;
    Regroup(header, name, m.typeAndClass, answers);
    HeaderIsRead(m, name + (m.typeAndClass + answers));
    QuestionRoundTrip(header, m.question, m.typeAndClass + answers);
    PlacesStayOk(header + name, m.typeAndClass, places, 1, 1);
    AnswersRoundTrip(asked, m.answers, places, 1, "");
    ReadPacketUnfold(data, m.flags, |m.answers|, NameRead(m.question, HEADER_SIZE + |name|));
  }

  lemma ValidMessageParts(m: Message)
    requires ValidMessage(m)
    ensures ValidName(m.question) && (forall a | a in m.answers :: ValidAnswer(a)) && |m.typeAndClass| == 4
  {
  }

  // ----- encoded names point backward -----

  lemma {:induction false} BackwardIsWider(data: Bytes, o: nat, start: nat, start': nat)
    requires PointsBackward(data, o, start) && start <= start'
    ensures PointsBackward(data, o, start')
    decreases |data| - o
  {
    if o < |data| && TurnAt(data, o).Label? {
      BackwardIsWider(data, TurnAt(data, o).next, start, start');
    }
  }

  /** Bytes appended to a message leave the names spelled in it as they point. */
  lemma {:induction false} BackwardIsStable(data: Bytes, more: Bytes, o: nat, name: Name, jumps: nat, start: nat)
    requires Spells(data, o, name, jumps) && PointsBackward(data, o, start)
    ensures PointsBackward(data + more, o, start)
    decreases jumps, |name|
  {
    var whole := data + more;
    if data[o] >= POINTER_FLAG {
      var target := PointerAt(data, o);
      assert TurnAt(whole, o) == Jump(target);
      BackwardIsStable(data, more, target, name, jumps - 1, target);
    } else if data[o] == 0 {
      assert TurnAt(whole, o).Stop?;
    } else {
      assert TurnAt(whole, o) == TurnAt(data, o) by {
        assert whole[o + 1..o + 1 + |name[0]|] == data[o + 1..o + 1 + |name[0]|];
      }
      BackwardIsStable(data, more, o + 1 + |name[0]|, name[1..], jumps, start);
    }
  }

  /** Every remembered place lies before `limit` and points backward. */
  ghost predicate PlacesBackward(data: Bytes, places: Places, limit: nat) {
    forall n | n in places :: places[n] < limit && PointsBackward(data, places[n], places[n])
  }

  lemma PlacesStayBackward(data: Bytes, more: Bytes, places: Places, jumps: nat, limit: nat, limit': nat)
    requires PlacesOk(data, places, jumps) && PlacesBackward(data, places, limit) && limit <= limit'
    ensures PlacesBackward(data + more, places, limit')
  {
    forall n | n in places ensures PointsBackward(data + more, places[n], places[n]) {
      BackwardIsStable(data, more, places[n], n, jumps, places[n]);
    }
  }

  /** The name that `bytes` spells behind `data` points before `limit`, and the
      places remembered now are in the message and point backward. */
  ghost predicate EncodedBackward(data: Bytes, bytes: Bytes, after: Places, limit: nat) {
    PointsBackward(data + bytes, |data|, limit) && PlacesBackward(data + bytes, after, |data + bytes|)
  }

  lemma EndPointsBackward(data: Bytes, places: Places, jumps: nat, limit: nat)
    requires PlacesOk(data, places, jumps) && PlacesBackward(data, places, limit) && limit <= |data|
    ensures EncodedBackward(data, [0], places, limit)
  {
    PlacesStayBackward(data, [0], places, jumps, limit, |data| + 1);
    assert TurnAt(data + [0], |data|) == Stop(|data| + 1);
  }

  lemma PointerPointsBackward(data: Bytes, name: Name, places: Places, jumps: nat, limit: nat)
    requires PlacesOk(data, places, jumps) && PlacesBackward(data, places, limit) && limit <= |data| && name in places
    ensures EncodedBackward(data, [POINTER_FLAG + places[name] / 0x100, places[name] % 0x100], places, limit)
  {
    var bytes := [POINTER_FLAG + places[name] / 0x100, places[name] % 0x100];
    PlacesStayBackward(data, bytes, places, jumps, limit, |data + bytes|);
    assert PointerAt(data + bytes, |data|) == places[name];
    assert TurnAt(data + bytes, |data|) == Jump(places[name]);
  }

  lemma LabelPointsBackward(data: Bytes, name: Name, rest: Bytes, after: Places, limit: nat)
    requires name != [] && 1 <= |name[0]| < POINTER_FLAG && limit <= |data|
    requires EncodedBackward(data + ([|name[0]|] + name[0]), rest, after, limit)
    ensures EncodedBackward(data, [|name[0]|] + name[0] + rest,
                            if |data| < POINTER_LIMIT then after[name := |data|] else after, limit)
  {
    var front := [|name[0]|] + name[0];
    var whole := data + front + rest;
    Associative(data, front, rest);
    assert whole[|data|] == |name[0]|;
    assert TurnAt(whole, |data|).Label? && TurnAt(whole, |data|).next == |data + front|;
    BackwardIsWider(whole, |data|, limit, |data|);
  }

  /** The encoder only ever points to names it has written before. */
  lemma {:induction false} EncodedNamePointsBackward(data: Bytes, name: Name, places: Places, jumps: nat, limit: nat)
    requires ValidName(name) && PlacesOk(data, places, jumps) && PlacesBackward(data, places, limit) && limit <= |data|
    ensures EncodedBackward(data, EncodeName(name, |data|, places).0, EncodeName(name, |data|, places).1, limit)
    decreases |name|, 1
  {
    if name == [] {
      EndPointsBackward(data, places, jumps, limit);
    } else if name in places {
      PointerPointsBackward(data, name, places, jumps, limit);
    } else {
      NewNamePointsBackward(data, name, places, jumps, limit);
    }
  }

  lemma {:induction false} NewNamePointsBackward(data: Bytes, name: Name, places: Places, jumps: nat, limit: nat)
    requires ValidName(name) && PlacesOk(data, places, jumps) && PlacesBackward(data, places, limit) && limit <= |data|
    requires name != [] && name !in places
    ensures EncodedBackward(data, EncodeName(name, |data|, places).0, EncodeName(name, |data|, places).1, limit)
    decreases |name|, 0
  {
    hide *;
    PlacesInRange(data, places, jumps);
    ValidParts(name);
    var front := [|name[0]|] + name[0];
    PlacesStayOk(data, front, places, jumps, jumps);
    PlacesStayBackward(data, front, places, jumps, limit, limit);
    EncodeNameUnfold(name, |data|, places);
    EncodedNamePointsBackward(data + front, name[1..], places, jumps, limit);
    assert |data + front| == |data| + 1 + |name[0]|;
    var (rest, after) := EncodeName(name[1..], |data + front|, places);
    LabelPointsBackward(data, name, rest, after, limit);
  }

  /** What EncodedNamePointsBackward says once the message has gone on. */
  lemma NameStaysBackward(data: Bytes, name: Name, places: Places, jumps: nat, more: Bytes)
    requires ValidName(name) && PlacesOk(data, places, jumps) && PlacesBackward(data, places, |data|)
    ensures var (bytes, after) := EncodeName(name, |data|, places);
            PointsBackward(data + bytes + more, |data|, |data|) && PlacesBackward(data + bytes, after, |data + bytes|)
  {
    hide Spells, PointsBackward, EncodeName, PlacesOk, PlacesBackward;
    PlacesInRange(data, places, jumps);
    var (bytes, after) := EncodeName(name, |data|, places);
    EncodedNameSpells(data, name, places, jumps);
    EncodedNamePointsBackward(data, name, places, jumps, |data|);
    BackwardIsStable(data + bytes, more, |data|, name, jumps + 1, |data|);
  }

  lemma {:induction false} EncodedAnswersPointBackward(data: Bytes, answers: seq<Answer>, places: Places, jumps: nat)
    requires (forall a | a in answers :: ValidAnswer(a)) && PlacesOk(data, places, jumps)
    requires PlacesBackward(data, places, |data|)
    ensures AnswersPointBackward(data + EncodeAnswers(answers, |data|, places), |data|, |answers|)
    decreases |answers|
  {
    hide *;
    PlacesInRange(data, places, jumps);
    if answers == [] {
      NoAnswersPointBackward(data, answers, places);
    } else {
      var a := answers[0];
      EncodeAnswersUnfold(answers, |data|, places);
      AnswerParts(a);
      var (name, after) := EncodeName(a.name, |data|, places);
      var tail := AnswerTail(a);
      var record := name + tail;
      var rest := EncodeAnswers(answers[1..], |data| + |record|, after);
      AnswerRoundTrip(data, a, places, jumps, rest, "");
      Regroup(data, name, tail, rest);
      NameStaysBackward(data, a.name, places, jumps, tail + rest);
      NameRoundTrip(data, a.name, places, jumps, tail);
      PlacesStayBackward(data + name, tail, after, jumps + 1, |data + name|, |data + record|);
      Associative(data, name, tail);
      EncodedAnswersPointBackward(data + record, answers[1..], after, jumps + 1);
      Associative(data, record, rest);
      AnswersPointBackwardUnfold(data + record + rest, |data|, |answers|);
    }
  }

  lemma NoAnswersPointBackward(data: Bytes, answers: seq<Answer>, places: Places)
    requires answers == [] && forall n | n in places :: places[n] < POINTER_LIMIT
    ensures AnswersPointBackward(data + EncodeAnswers(answers, |data|, places), |data|, |answers|)
  {
  }

  /** Every encoded message is one whose names point backward. */
  lemma EncodedPacketPointsBackward(m: Message)
    requires ValidMessage(m)
    ensures PacketPointsBackward(Encode(m))
  {
    var (name, places) := EncodeName(m.question, HEADER_SIZE, map[]);
    var asked := Header(m) + name + m.typeAndClass;
    var answers := EncodeAnswers(m.answers, |asked|, places);
    EncodedPartsPointBackward(m, Header(m), name, places, answers);
  }

  lemma NothingRemembered(data: Bytes)
    ensures PlacesBackward(data, map[], |data|)
  {
  }

  lemma PacketBackwardUnfold(data: Bytes, flags: nat, anCount: nat, question: NameRead)
    requires |data| > HEADER_SIZE
    requires Uint16At(data, 2) == flags && Uint16At(data, 4) == 1 && Uint16At(data, 6) == anCount
    requires Terminates(data, HEADER_SIZE) && NameAt(data, HEADER_SIZE) == question
    requires PointsBackward(data, HEADER_SIZE, HEADER_SIZE) && AnswersPointBackward(data, question.end + 4, anCount)
    ensures PacketPointsBackward(data)
  {
  }

  lemma EncodedPartsPointBackward(m: Message, header: Bytes, name: Bytes, places: Places, answers: Bytes)
    requires ValidMessage(m) && header == Header(m) && (name, places) == EncodeName(m.question, HEADER_SIZE, map[])
    requires answers == EncodeAnswers(m.answers, |header + name + m.typeAndClass|, places)
    ensures PacketPointsBackward(header + name + m.typeAndClass + answers)
  {
    hide *;
    ValidMessageParts(m);
    var asked := header + name + m.typeAndClass;
    var data := asked + answers;
    Regroup(header, name, m.typeAndClass, answers);
    HeaderIsRead(m, name + (m.typeAndClass + answers));
    QuestionRoundTrip(header, m.question, m.typeAndClass + answers);
    PlacesStayOk(header + name, m.typeAndClass, places, 1, 1);
    NoPlacesOk(header);
    NothingRemembered(header);
    NameStaysBackward(header, m.question, map[], 0, m.typeAndClass + answers);
    PlacesStayBackward(header + name, m.typeAndClass, places, 1, |header + name|, |asked|);
    EncodedAnswersPointBackward(asked, m.answers, places, 1);
    PacketBackwardUnfold(data, m.flags, |m.answers|, NameRead(m.question, HEADER_SIZE + |name|));
  }
}
