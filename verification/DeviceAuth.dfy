/** The store of pending device authorizations (server/device_auth.go): two maps
    index the same mutable requests, by the code a person types and by the token
    the device polls with. */
module DeviceAuth {
  import opened Common
  import Text

  const REQUEST_TTL := 600_000_000_000

  type Ref = DeviceAuthRequest

  datatype Status = Pending | Approved | Rejected | Expired

  datatype Request = Request(code: string, pollToken: string, status: Status, metadata: string, assignedName: string,
                             requestedAt: int, expiresAt: int, tenantId: string, tenantName: string,
                             approvedAt: int, approvedBy: string, joinToken: string,
                             rejectedAt: int, rejectedBy: string, message: string)

  /** `requests` are the request objects, whether indexed or not. */
  datatype State = State(requests: map<Ref, Request>, byCode: map<string, Ref>, byPoll: map<string, Ref>)

  const INITIAL := State(map[], map[], map[])

  datatype Approval = Approval(tenantId: string, tenantName: string, agentName: string, approver: string, joinToken: string)

  datatype Op =
    | Create(ref: Ref, code: string, pollToken: string, metadata: string, name: string)
    | Snapshot(code: string)
    | GetByPoll(pollToken: string)
    | Approve(code: string, approval: Approval)
    | Reject(code: string, reason: string, actor: string)
    | CleanupExpired

  datatype Event = Event(op: Op, now: int)

  datatype Answer = Nothing | Found(request: Request) | NotFound | TooLate | AlreadyRejected

  /** strings.ToUpper on the letters a code can have. */
  function Upper(s: string): string {
    if s == "" then "" else Upper(s[..|s| - 1]) + [UpperChar(s[|s| - 1])]
  }

  function UpperChar(c: char): char {
    if 'a' <= c <= 'z' then (c as int - 'a' as int + 'A' as int) as char else c
  }

  // ----- one call -----

  function NewRequest(op: Op, now: int): Request
    requires op.Create?
  {
    Request(op.code, op.pollToken, Pending, op.metadata, Text.TrimSpace(op.name), now, now + REQUEST_TTL, "", "", 0, "", "", 0, "", "")
  }

  function Grant(r: Request, a: Approval, now: int): Request {
    r.(status := Approved, tenantId := a.tenantId, tenantName := a.tenantName,
       assignedName := if Text.TrimSpace(a.agentName) != "" then Text.TrimSpace(a.agentName) else r.assignedName,
       approvedAt := now, approvedBy := a.approver, joinToken := a.joinToken, message := "Approved")
  }

  function Deny(r: Request, reason: string, actor: string, now: int): Request {
    r.(status := Rejected, message := reason, rejectedAt := now, rejectedBy := actor)
  }

  function MarkExpired(r: Request): Request {
    r.(status := Expired, message := "Request expired")
  }

  /** Every index refers to a request. */
  predicate Closed(s: State) {
    && (forall k | k in s.byCode :: s.byCode[k] in s.requests)
    && (forall p | p in s.byPoll :: s.byPoll[p] in s.requests)
  }

  function Put(s: State, ref: Ref, r: Request): State {
    s.(requests := s.requests[ref := r])
  }

  function Drop(s: State, key: string, poll: string): State {
    s.(byCode := s.byCode - {key}, byPoll := s.byPoll - {poll})
  }

  function ExpireByCode(s: State, key: string): State
    requires Closed(s) && key in s.byCode
  {
    var ref := s.byCode[key];
    Drop(Put(s, ref, MarkExpired(s.requests[ref])), key, s.requests[ref].pollToken)
  }

  function ExpiredKeys(s: State, now: int): set<string>
    requires Closed(s)
  {
    set k | k in s.byCode && now > s.requests[s.byCode[k]].expiresAt
  }

  function ExpiredPolls(s: State, now: int): set<string>
    requires Closed(s)
  {
    PollsOf(s, ExpiredKeys(s, now))
  }

  function PollsOf(s: State, keys: set<string>): set<string>
    requires Closed(s) && keys <= s.byCode.Keys
  {
    set k | k in keys :: s.requests[s.byCode[k]].pollToken
  }

  /** After the clean-up has looked at some of the codes. */
  function Cleaned(s: State, done: set<string>, now: int): State
    requires Closed(s)
  {
    var gone := done * ExpiredKeys(s, now);
    s.(byCode := s.byCode - gone, byPoll := s.byPoll - PollsOf(s, gone))
  }

  lemma CleanedNone(s: State, now: int)
    requires Closed(s)
    ensures Cleaned(s, {}, now) == s
  {
    assert {} * ExpiredKeys(s, now) == {};
    assert s.byCode - {} == s.byCode && s.byPoll - {} == s.byPoll;
  }

  lemma CleanedNext(s: State, done: set<string>, key: string, now: int)
    requires Closed(s) && done <= s.byCode.Keys && key in s.byCode && key !in done
    ensures var t := Cleaned(s, done, now);
            && key in t.byCode && t.byCode[key] == s.byCode[key]
            && Cleaned(s, done + {key}, now) ==
               if now > s.requests[s.byCode[key]].expiresAt then Drop(t, key, s.requests[s.byCode[key]].pollToken) else t
  {
    var gone, more := done * ExpiredKeys(s, now), (done + {key}) * ExpiredKeys(s, now);
    var poll := s.requests[s.byCode[key]].pollToken;
    if now > s.requests[s.byCode[key]].expiresAt {
      assert more == gone + {key};
      assert PollsOf(s, more) == PollsOf(s, gone) + {poll};
      assert s.byCode - gone - {key} == s.byCode - more;
      assert s.byPoll - PollsOf(s, gone) - {poll} == s.byPoll - PollsOf(s, more);
    } else {
      assert more == gone;
    }
  }

  lemma CleanedAll(s: State, now: int)
    requires Closed(s)
    ensures Cleaned(s, s.byCode.Keys, now) == Step(s, Event(CleanupExpired, now)).0
    ensures Closed(Cleaned(s, s.byCode.Keys, now))
  {
    assert s.byCode.Keys * ExpiredKeys(s, now) == ExpiredKeys(s, now);
  }

  function Step(s: State, e: Event): (State, Answer)
    requires Closed(s)
  {
    match e.op
    case Create(ref, code, poll, _, _) =>
      (s.(requests := s.requests[ref := NewRequest(e.op, e.now)],
          byCode := s.byCode[Upper(code) := ref], byPoll := s.byPoll[poll := ref]),
       Found(NewRequest(e.op, e.now)))
    case Snapshot(code) =>
      if Upper(code) !in s.byCode then (s, NotFound)
      else
        var r := s.requests[s.byCode[Upper(code)]];
        if r.status != Expired && e.now > r.expiresAt then (ExpireByCode(s, Upper(code)), NotFound)
        else (s, Found(r))
    case GetByPoll(poll) =>
      if poll !in s.byPoll then (s, NotFound)
      else
        var ref := s.byPoll[poll];
        var r := s.requests[ref];
        if r.status != Expired && e.now > r.expiresAt then
          (Drop(Put(s, ref, MarkExpired(r)), Upper(r.code), poll), Found(MarkExpired(r)))
        else (s, Found(r))
    case Approve(code, a) =>
      if Upper(code) !in s.byCode then (s, NotFound)
      else
        var ref := s.byCode[Upper(code)];
        var r := s.requests[ref];
        if e.now > r.expiresAt then (ExpireByCode(s, Upper(code)), TooLate)
        else if r.status == Rejected then (s, AlreadyRejected)
        else if r.status == Approved then (s, Found(r))
        else (Put(s, ref, Grant(r, a, e.now)), Found(Grant(r, a, e.now)))
    case Reject(code, reason, actor) =>
      if Upper(code) !in s.byCode then (s, NotFound)
      else
        var ref := s.byCode[Upper(code)];
        var r := s.requests[ref];
        if e.now > r.expiresAt then (ExpireByCode(s, Upper(code)), TooLate)
        else (Put(s, ref, Deny(r, reason, actor, e.now)), Found(Deny(r, reason, actor, e.now)))
    case CleanupExpired =>
      (s.(byCode := s.byCode - ExpiredKeys(s, e.now), byPoll := s.byPoll - ExpiredPolls(s, e.now)), Nothing)
  }

  // ----- both maps index the same requests -----

  /** Each request is filed under its own code and token, is in both maps or in
      neither, and none that is indexed has been marked expired. */
  predicate Indexed(s: State) {
    && Closed(s)
    && (forall k | k in s.byCode ::
          var r := s.requests[s.byCode[k]];
          k == Upper(r.code) && r.pollToken in s.byPoll && s.byPoll[r.pollToken] == s.byCode[k] && r.status != Expired)
    && (forall p | p in s.byPoll ::
          var r := s.requests[s.byPoll[p]];
          p == r.pollToken && Upper(r.code) in s.byCode && s.byCode[Upper(r.code)] == s.byPoll[p])
  }

  lemma SameRequestsIndexed(s: State)
    requires Indexed(s)
    ensures s.byCode.Values == s.byPoll.Values
    ensures forall k, l | k in s.byCode && l in s.byCode && s.byCode[k] == s.byCode[l] :: k == l
    ensures forall p, q | p in s.byPoll && q in s.byPoll && s.byPoll[p] == s.byPoll[q] :: p == q
  {
    forall x | x in s.byCode.Values ensures x in s.byPoll.Values {
      var k :| k in s.byCode && s.byCode[k] == x;
      assert s.byPoll[s.requests[x].pollToken] == x;
    }
    forall x | x in s.byPoll.Values ensures x in s.byCode.Values {
      var p :| p in s.byPoll && s.byPoll[p] == x;
      assert s.byCode[Upper(s.requests[x].code)] == x;
    }
  }

  /** Requests are new objects; their codes and tokens are not in use. */
  predicate Fresh(s: State, op: Op) {
    op.Create? ==> op.ref !in s.requests && Upper(op.code) !in s.byCode && op.pollToken !in s.byPoll
  }

  lemma PutKeepsIndexed(s: State, ref: Ref, r: Request)
    requires Indexed(s) && ref in s.requests && r.status != Expired
    requires r.code == s.requests[ref].code && r.pollToken == s.requests[ref].pollToken
    ensures Indexed(Put(s, ref, r))
  {
  }

  lemma DropKeepsIndexed(s: State, ref: Ref, r: Request)
    requires Indexed(s) && ref in s.requests && ref in s.byCode.Values
    requires r.code == s.requests[ref].code && r.pollToken == s.requests[ref].pollToken
    ensures Indexed(Drop(Put(s, ref, r), Upper(r.code), r.pollToken))
  {
    var k :| k in s.byCode && s.byCode[k] == ref;
  }

  lemma ExpireByCodeKeepsIndexed(s: State, key: string)
    requires Indexed(s) && key in s.byCode
    ensures Indexed(ExpireByCode(s, key))
  {
    DropKeepsIndexed(s, s.byCode[key], MarkExpired(s.requests[s.byCode[key]]));
  }

  lemma CreateKeepsIndexed(s: State, e: Event)
    requires Indexed(s) && e.op.Create? && Fresh(s, e.op)
    ensures Indexed(Step(s, e).0)
  {
  }

  /** After a cleanup exactly the requests that have not expired are indexed. */
  lemma CleanupRemovesExactlyTheExpired(s: State, now: int)
    requires Indexed(s)
    ensures var t := Step(s, Event(CleanupExpired, now)).0;
            && t.requests == s.requests
            && (forall k | k in s.byCode :: k in t.byCode <==> now <= s.requests[s.byCode[k]].expiresAt)
            && (forall p | p in s.byPoll :: p in t.byPoll <==> now <= s.requests[s.byPoll[p]].expiresAt)
  {
    forall p | p in s.byPoll
      ensures p in ExpiredPolls(s, now) <==> now > s.requests[s.byPoll[p]].expiresAt
    {
      var k := Upper(s.requests[s.byPoll[p]].code);
      if now > s.requests[s.byPoll[p]].expiresAt {
        assert k in ExpiredKeys(s, now);
      }
      if p in ExpiredPolls(s, now) {
        var l :| l in ExpiredKeys(s, now) && s.requests[s.byCode[l]].pollToken == p;
        assert s.byPoll[p] == s.byCode[l];
      }
    }
  }

  lemma CleanupKeepsIndexed(s: State, e: Event)
    requires Indexed(s) && e.op.CleanupExpired?
    ensures Indexed(Step(s, e).0)
  {
    CleanupRemovesExactlyTheExpired(s, e.now);
  }

  lemma IndexedParts(s: State)
    requires Indexed(s)
    ensures Closed(s)
    ensures forall k | k in s.byCode :: k == Upper(s.requests[s.byCode[k]].code) && s.requests[s.byCode[k]].status != Expired
    ensures forall p | p in s.byPoll ::
              var r := s.requests[s.byPoll[p]];
              p == r.pollToken && Upper(r.code) in s.byCode && s.byCode[Upper(r.code)] == s.byPoll[p]
  {
  }

  /** Every call keeps the two maps in step. */
  lemma StepKeepsIndexed(s: State, e: Event)
    requires Indexed(s) && Fresh(s, e.op)
    ensures Indexed(Step(s, e).0)
  {
    hide Indexed, Upper;
    IndexedParts(s);
    match e.op
    case Create(_, _, _, _, _) => CreateKeepsIndexed(s, e);
    case CleanupExpired => CleanupKeepsIndexed(s, e);
    case GetByPoll(poll) =>
      if poll in s.byPoll {
        var ref := s.byPoll[poll];
        var r := s.requests[ref];
        assert s.byCode[Upper(r.code)] == ref;
        if r.status != Expired && e.now > r.expiresAt {
          DropKeepsIndexed(s, ref, MarkExpired(r));
        }
      }
    case Snapshot(code) =>
      if Upper(code) in s.byCode {
        ExpireByCodeKeepsIndexed(s, Upper(code));
      }
    case Approve(code, a) =>
      if Upper(code) in s.byCode {
        ExpireByCodeKeepsIndexed(s, Upper(code));
        PutKeepsIndexed(s, s.byCode[Upper(code)], Grant(s.requests[s.byCode[Upper(code)]], a, e.now));
      }
    case Reject(code, reason, actor) =>
      if Upper(code) in s.byCode {
        ExpireByCodeKeepsIndexed(s, Upper(code));
        PutKeepsIndexed(s, s.byCode[Upper(code)], Deny(s.requests[s.byCode[Upper(code)]], reason, actor, e.now));
      }
  }

  /** Neither the code nor the token is taken, or one request has both. */
  predicate NoHalfCollision(s: State, key: string, poll: string) {
    || (key !in s.byCode && poll !in s.byPoll)
    || (key in s.byCode && poll in s.byPoll && s.byCode[key] == s.byPoll[poll])
  }

  lemma CreateOverOneRequest(s: State, e: Event)
    requires Indexed(s) && e.op.Create? && e.op.ref !in s.requests
    requires Upper(e.op.code) in s.byCode && e.op.pollToken in s.byPoll
    requires s.byCode[Upper(e.op.code)] == s.byPoll[e.op.pollToken]
    ensures Indexed(Step(s, e).0)
  {
    SameRequestsIndexed(s);
  }

  lemma CreateOverOneIndex(s: State, e: Event)
    requires Indexed(s) && e.op.Create? && e.op.ref !in s.requests
    requires !NoHalfCollision(s, Upper(e.op.code), e.op.pollToken)
    ensures !Indexed(Step(s, e).0)
  {
    var key, poll := Upper(e.op.code), e.op.pollToken;
    var t := Step(s, e).0;
    if key in s.byCode {
      var other := s.requests[s.byCode[key]];
      assert other.pollToken in t.byPoll && t.requests[t.byPoll[other.pollToken]] == other;
    } else {
      var other := s.requests[s.byPoll[poll]];
      assert Upper(other.code) in t.byCode && t.requests[t.byCode[Upper(other.code)]] == other;
    }
  }

  /** A new request keeps the maps in step exactly when neither its code nor its
      token is taken, or both are taken by one and the same request. */
  lemma CreateKeepsIndexedIff(s: State, e: Event)
    requires Indexed(s) && e.op.Create? && e.op.ref !in s.requests
    ensures Indexed(Step(s, e).0) <==> NoHalfCollision(s, Upper(e.op.code), e.op.pollToken)
  {
    hide Indexed, Step;
    if !NoHalfCollision(s, Upper(e.op.code), e.op.pollToken) {
      CreateOverOneIndex(s, e);
    } else if Upper(e.op.code) in s.byCode {
      CreateOverOneRequest(s, e);
    } else {
      CreateKeepsIndexed(s, e);
    }
  }

  // ----- what each call leaves in a request, field by field -----

  /** strings.ToUpper changes the small letters only, each by the same distance. */
  lemma UpperAt(s: string, i: nat)
    requires i < |s|
    ensures |Upper(s)| == |s|
    ensures Upper(s)[i] as int == if 'a' <= s[i] <= 'z' then s[i] as int - 32 else s[i] as int
  {
    UpperLength(s);
    if i < |s| - 1 {
      UpperAt(s[..|s| - 1], i);
    }
  }

  lemma {:induction false} UpperLength(s: string)
    ensures |Upper(s)| == |s|
  {
    if s != "" {
      UpperLength(s[..|s| - 1]);
    }
  }

  /** The fields fixed when a request is made. */
  predicate SameOrigin(r: Request, q: Request) {
    && q.code == r.code && q.pollToken == r.pollToken && q.metadata == r.metadata
    && q.requestedAt == r.requestedAt && q.expiresAt == r.expiresAt
  }

  /** The fields of an approval but for its time. */
  predicate SameApproval(r: Request, q: Request) {
    && q.tenantId == r.tenantId && q.tenantName == r.tenantName && q.assignedName == r.assignedName
    && q.approvedAt == r.approvedAt && q.approvedBy == r.approvedBy && q.joinToken == r.joinToken
  }

  predicate SameRejection(r: Request, q: Request) {
    q.rejectedAt == r.rejectedAt && q.rejectedBy == r.rejectedBy
  }

  /** A new request is pending for ten minutes, with the trimmed name of the agent
      and nothing else filled in, and is filed under its code in capitals. */
  lemma CreatedFields(s: State, ref: Ref, code: string, poll: string, metadata: string, name: string, now: int)
    requires Closed(s)
    ensures var (t, answer) := Step(s, Event(Create(ref, code, poll, metadata, name), now));
            && answer.Found? && ref in t.requests && t.requests[ref] == answer.request
            && var r := answer.request;
               && r.code == code && r.pollToken == poll && r.metadata == metadata && r.status == Pending
               && r.assignedName == Text.TrimSpace(name) && r.requestedAt == now
               && r.expiresAt == now + 600 * 1_000_000_000
               && r.tenantId == r.tenantName == r.approvedBy == r.joinToken == r.rejectedBy == r.message == ""
               && r.approvedAt == r.rejectedAt == 0
               && Upper(code) in t.byCode && t.byCode[Upper(code)] == ref && poll in t.byPoll && t.byPoll[poll] == ref
  {
  }

  /** An approval in time of a request neither approved nor rejected fills in
      tenant, approver, time and token, and the agent's name if one is given; the
      answer is the request as it is kept from then on. */
  lemma ApprovedFields(s: State, code: string, a: Approval, now: int)
    requires Closed(s) && Upper(code) in s.byCode
    requires var r := s.requests[s.byCode[Upper(code)]];
             now <= r.expiresAt && r.status != Approved && r.status != Rejected
    ensures var ref := s.byCode[Upper(code)];
            var (t, answer) := Step(s, Event(Approve(code, a), now));
            && answer.Found? && ref in t.requests && t.requests[ref] == answer.request
            && t.byCode == s.byCode && t.byPoll == s.byPoll
            && var r, q := s.requests[ref], answer.request;
               && SameOrigin(r, q) && SameRejection(r, q) && q.status == Approved && q.message == "Approved"
               && q.tenantId == a.tenantId && q.tenantName == a.tenantName
               && q.approvedAt == now && q.approvedBy == a.approver && q.joinToken == a.joinToken
               && q.assignedName == (if Text.TrimSpace(a.agentName) == "" then r.assignedName else Text.TrimSpace(a.agentName))
  {
  }

  /** Approving again gives the request as it is; approving a rejected one is refused;
      neither changes anything. */
  lemma ApprovedBefore(s: State, code: string, a: Approval, now: int)
    requires Closed(s) && Upper(code) in s.byCode && now <= s.requests[s.byCode[Upper(code)]].expiresAt
    ensures var r := s.requests[s.byCode[Upper(code)]];
            && (r.status == Approved ==> Step(s, Event(Approve(code, a), now)) == (s, Found(r)))
            && (r.status == Rejected ==> Step(s, Event(Approve(code, a), now)) == (s, AlreadyRejected))
  {
  }

  /** A rejection in time sets reason, time and rejecter, whatever the status was,
      and leaves tenant, name and token as they are. */
  lemma RejectedFields(s: State, code: string, reason: string, actor: string, now: int)
    requires Closed(s) && Upper(code) in s.byCode && now <= s.requests[s.byCode[Upper(code)]].expiresAt
    ensures var ref := s.byCode[Upper(code)];
            var (t, answer) := Step(s, Event(Reject(code, reason, actor), now));
            && answer.Found? && ref in t.requests && t.requests[ref] == answer.request
            && t.byCode == s.byCode && t.byPoll == s.byPoll
            && var r, q := s.requests[ref], answer.request;
               && SameOrigin(r, q) && SameApproval(r, q) && q.status == Rejected && q.message == reason
               && q.rejectedAt == now && q.rejectedBy == actor
  {
  }

  /** A call that comes too late expires the request, keeps its other fields, and
      takes it out of both maps. */
  lemma ExpiredFields(s: State, code: string, op: Op, now: int)
    requires Closed(s) && Upper(code) in s.byCode && now > s.requests[s.byCode[Upper(code)]].expiresAt
    requires || (op == Snapshot(code) && s.requests[s.byCode[Upper(code)]].status != Expired)
             || (op.Approve? && op.code == code) || (op.Reject? && op.code == code)
    ensures var ref := s.byCode[Upper(code)];
            var (t, answer) := Step(s, Event(op, now));
            && answer == (if op.Snapshot? then NotFound else TooLate) && ref in t.requests
            && var r, q := s.requests[ref], t.requests[ref];
               && SameOrigin(r, q) && SameApproval(r, q) && SameRejection(r, q)
               && q.status == Expired && q.message == "Request expired"
               && t.byCode == s.byCode - {Upper(code)} && t.byPoll == s.byPoll - {r.pollToken}
  {
  }

  /** A snapshot in time is the request itself, and changes nothing. */
  lemma SnapshotInTime(s: State, code: string, now: int)
    requires Closed(s) && Upper(code) in s.byCode && now <= s.requests[s.byCode[Upper(code)]].expiresAt
    ensures Step(s, Event(Snapshot(code), now)) == (s, Found(s.requests[s.byCode[Upper(code)]]))
  {
  }

  /** So is what a poll in time is given; a late one is given the expired request. */
  lemma PollFields(s: State, poll: string, now: int)
    requires Closed(s) && poll in s.byPoll
    ensures var ref := s.byPoll[poll];
            var r := s.requests[ref];
            var (t, answer) := Step(s, Event(GetByPoll(poll), now));
            && (now <= r.expiresAt ==> (t, answer) == (s, Found(r)))
            && (now > r.expiresAt && r.status != Expired ==>
                  && answer.Found? && ref in t.requests && t.requests[ref] == answer.request
                  && t.byCode == s.byCode - {Upper(r.code)} && t.byPoll == s.byPoll - {poll}
                  && var q := answer.request;
                     && SameOrigin(r, q) && SameApproval(r, q) && SameRejection(r, q)
                     && q.status == Expired && q.message == "Request expired")
  {
  }

  /** Unknown codes and tokens find nothing and change nothing. */
  lemma UnknownFindsNothing(s: State, op: Op, now: int)
    requires Closed(s) && !op.Create? && !op.CleanupExpired?
    requires if op.GetByPoll? then op.pollToken !in s.byPoll else Upper(op.code) !in s.byCode
    ensures Step(s, Event(op, now)) == (s, NotFound)
  {
  }

  /** No call touches a request it does not look up. */
  lemma OthersAreUntouched(s: State, e: Event, ref: Ref)
    requires Closed(s) && ref in s.requests && (e.op.Create? ==> e.op.ref != ref)
    requires e.op.GetByPoll? && e.op.pollToken in s.byPoll ==> s.byPoll[e.op.pollToken] != ref
    requires !e.op.Create? && !e.op.GetByPoll? && !e.op.CleanupExpired? && Upper(e.op.code) in s.byCode ==>
               s.byCode[Upper(e.op.code)] != ref
    ensures ref in Step(s, e).0.requests && Step(s, e).0.requests[ref] == s.requests[ref]
  {
  }

  // ----- the life of a request -----

  function Rank(st: Status): nat {
    match st
    case Pending => 0
    case Approved => 1
    case Rejected => 2
    case Expired => 3
  }

  ghost predicate NewObject(s: State, op: Op) {
    op.Create? ==> op.ref !in s.requests
  }

  /** This call approves this request. */
  ghost predicate Approves(s: State, e: Event, ref: Ref)
    requires Closed(s)
  {
    && e.op.Approve? && ref in s.requests && Upper(e.op.code) in s.byCode && s.byCode[Upper(e.op.code)] == ref
    && s.requests[ref].status == Pending && e.now <= s.requests[ref].expiresAt
  }

  /** What one call can do to one request. */
  lemma RequestAfter(s: State, e: Event, ref: Ref)
    requires Indexed(s) && NewObject(s, e.op) && ref in s.requests
    ensures ref in Step(s, e).0.requests
    ensures var before, after := s.requests[ref], Step(s, e).0.requests[ref];
            || (after == before && !Approves(s, e, ref))
            || (after == MarkExpired(before) && !Approves(s, e, ref))
            || (Approves(s, e, ref) && after == Grant(before, e.op.approval, e.now))
            || (e.op.Reject? && before.status != Expired && after == Deny(before, e.op.reason, e.op.actor, e.now))
  {
    match e.op
    case Create(_, _, _, _, _) =>
    case Snapshot(_) =>
    case GetByPoll(_) =>
    case Approve(_, _) =>
    case Reject(_, _, _) =>
    case CleanupExpired =>
  }

  /** A status only moves forward: pending, approved, rejected, expired. */
  lemma StatusMovesForward(s: State, e: Event, ref: Ref)
    requires Indexed(s) && NewObject(s, e.op) && ref in s.requests
    ensures var t := Step(s, e).0;
            ref in t.requests && Rank(s.requests[ref].status) <= Rank(t.requests[ref].status)
  {
    hide Indexed, Step;
    RequestAfter(s, e, ref);
  }

  /** A request becomes approved, and gets its join token, exactly in the call
      that finds it pending and in time; no other call touches its token. */
  lemma TokenComesFromApproval(s: State, e: Event, ref: Ref)
    requires Indexed(s) && NewObject(s, e.op) && ref in s.requests
    ensures ref in Step(s, e).0.requests
    ensures var before, after := s.requests[ref], Step(s, e).0.requests[ref];
            && (Approves(s, e, ref) <==> before.status != Approved && after.status == Approved)
            && after.joinToken == if Approves(s, e, ref) then e.op.approval.joinToken else before.joinToken
  {
    hide Indexed, Step;
    RequestAfter(s, e, ref);
  }

  // ----- every run -----

  function Run(s: State, es: seq<Event>): Option<State> {
    if es == [] then Some(s)
    else
      match Run(s, es[..|es| - 1])
      case None => None
      case Some(t) =>
        if Closed(t) && Fresh(t, es[|es| - 1].op) then Some(Step(t, es[|es| - 1]).0) else None
  }

  /** Calls in any order, each Create with a new object, code and token. */
  predicate Possible(es: seq<Event>) {
    Run(INITIAL, es).Some?
  }

  function After(es: seq<Event>): State
    requires Possible(es)
  {
    Run(INITIAL, es).value
  }

  lemma AfterPush(es: seq<Event>)
    requires es != [] && Possible(es)
    ensures var before := es[..|es| - 1];
            && Possible(before) && Closed(After(before)) && Fresh(After(before), es[|es| - 1].op)
            && After(es) == Step(After(before), es[|es| - 1]).0
  {
  }

  /** In every run the maps agree, and no expired request is indexed. */
  lemma {:induction false} EveryRunIsIndexed(es: seq<Event>)
    requires Possible(es)
    ensures Indexed(After(es))
  {
    if es != [] {
      AfterPush(es);
      EveryRunIsIndexed(es[..|es| - 1]);
      StepKeepsIndexed(After(es[..|es| - 1]), es[|es| - 1]);
    }
  }

  lemma {:induction false} PrefixIsPossible(es: seq<Event>, i: nat)
    requires Possible(es) && i <= |es|
    ensures Possible(es[..i])
  {
    if i < |es| {
      assert es[..|es| - 1][..i] == es[..i];
      AfterPush(es);
      PrefixIsPossible(es[..|es| - 1], i);
    } else {
      assert es[..i] == es;
    }
  }

  predicate Settled(st: Status) {
    st == Rejected || st == Expired
  }

  /** Over any stretch of a run a request only moves forward; once rejected or
      expired it is never pending or approved again. */
  lemma {:induction false} NeverApprovedAfterRejection(es: seq<Event>, i: nat, ref: Ref)
    requires Possible(es) && i <= |es| && Possible(es[..i]) && ref in After(es[..i]).requests
    ensures ref in After(es).requests
    ensures var earlier, later := After(es[..i]).requests[ref].status, After(es).requests[ref].status;
            Rank(earlier) <= Rank(later) && (Settled(earlier) ==> Settled(later))
  {
    if i < |es| {
      var before := es[..|es| - 1];
      assert before[..i] == es[..i];
      AfterPush(es);
      NeverApprovedAfterRejection(before, i, ref);
      EveryRunIsIndexed(before);
      StatusMovesForward(After(before), es[|es| - 1], ref);
    } else {
      assert es[..i] == es;
    }
  }

  ghost predicate ApprovedAt(es: seq<Event>, i: nat, ref: Ref) {
    i < |es| && Possible(es[..i]) && Closed(After(es[..i])) && Approves(After(es[..i]), es[i], ref)
  }

  /** A request is approved by at most one call of a run. */
  lemma ApprovedAtMostOnce(es: seq<Event>, i: nat, j: nat, ref: Ref)
    requires Possible(es) && ApprovedAt(es, i, ref) && ApprovedAt(es, j, ref)
    ensures i == j
  {
    if i < j {
      ApprovalLasts(es, i, j, ref);
    } else if j < i {
      ApprovalLasts(es, j, i, ref);
    }
  }

  lemma ApprovalLasts(es: seq<Event>, i: nat, j: nat, ref: Ref)
    requires Possible(es) && ApprovedAt(es, i, ref) && i < j <= |es|
    ensures Possible(es[..j]) && ref in After(es[..j]).requests && After(es[..j]).requests[ref].status != Pending
  {
    PrefixIsPossible(es, i + 1);
    PrefixIsPossible(es, j);
    EveryRunIsIndexed(es[..i]);
    assert es[..i + 1][..i] == es[..i] && es[..j][..i + 1] == es[..i + 1];
    AfterPush(es[..i + 1]);
    TokenComesFromApproval(After(es[..i]), es[i], ref);
    NeverApprovedAfterRejection(es[..j], i + 1, ref);
  }

  /** The join token is set at most once: from the approving call on it is the
      token of that call, whatever happens afterwards. */
  lemma {:induction false} TokenIsSetOnce(es: seq<Event>, i: nat, ref: Ref)
    requires Possible(es) && ApprovedAt(es, i, ref)
    ensures ref in After(es).requests && After(es).requests[ref].joinToken == es[i].op.approval.joinToken
    decreases |es|
  {
    var before, e := es[..|es| - 1], es[|es| - 1];
    AfterPush(es);
    EveryRunIsIndexed(before);
    if i + 1 < |es| {
      assert before[..i] == es[..i];
      TokenIsSetOnce(before, i, ref);
      TokenComesFromApproval(After(before), e, ref);
      if Approves(After(before), e, ref) {
        ApprovedAtMostOnce(es, i, |es| - 1, ref);
      }
    } else {
      TokenComesFromApproval(After(before), e, ref);
    }
  }

  /** What was approved by code is what the device polling in time is given. */
  lemma PollSeesApproval(s: State, code: string, a: Approval, poll: string, now: int, later: int)
    requires Indexed(s)
    requires Upper(code) in s.byCode && s.requests[s.byCode[Upper(code)]].pollToken == poll
    ensures var (t, answer) := Step(s, Event(Approve(code, a), now));
            answer.Found? && later <= answer.request.expiresAt ==>
              Closed(t) && Step(t, Event(GetByPoll(poll), later)) == (t, answer) && answer.request.status == Approved
  {
    StepKeepsIndexed(s, Event(Approve(code, a), now));
  }

  // ----- the request objects and the store -----

  class DeviceAuthRequest {
    const code: string
    const pollToken: string
    const metadata: string
    const requestedAt: int
    const expiresAt: int
    var status: Status
    var assignedName: string
    var tenantId: string
    var tenantName: string
    var approvedAt: int
    var approvedBy: string
    var joinToken: string
    var rejectedAt: int
    var rejectedBy: string
    var message: string

    function Value(): Request
      reads this
    {
      Request(code, pollToken, status, metadata, assignedName, requestedAt, expiresAt, tenantId, tenantName,
              approvedAt, approvedBy, joinToken, rejectedAt, rejectedBy, message)
    }

    constructor (code: string, pollToken: string, metadata: string, agentName: string, now: int)
      ensures Value() == Request(code, pollToken, Pending, metadata, Text.TrimSpace(agentName), now, now + REQUEST_TTL,
                                 "", "", 0, "", "", 0, "", "")
      ensures this.code == code && this.pollToken == pollToken && this.metadata == metadata
      ensures status == Pending && assignedName == Text.TrimSpace(agentName) && joinToken == "" && message == ""
      ensures requestedAt == now && expiresAt == now + 600 * 1_000_000_000
    {
      this.code, this.pollToken, this.metadata := code, pollToken, metadata;
      requestedAt, expiresAt, status := now, now + REQUEST_TTL, Pending;
      assignedName := Text.TrimSpace(agentName);
      tenantId, tenantName, approvedAt, approvedBy, joinToken := "", "", 0, "", "";
      rejectedAt, rejectedBy, message := 0, "", "";
    }

    method GrantTo(a: Approval, now: int)
      modifies this
      ensures Value() == Grant(old(Value()), a, now)
      ensures status == Approved && tenantId == a.tenantId && tenantName == a.tenantName && message == "Approved"
      ensures approvedAt == now && approvedBy == a.approver && joinToken == a.joinToken
      ensures assignedName == if Text.TrimSpace(a.agentName) == "" then old(assignedName) else Text.TrimSpace(a.agentName)
      ensures rejectedAt == old(rejectedAt) && rejectedBy == old(rejectedBy)
    {
      status, tenantId, tenantName := Approved, a.tenantId, a.tenantName;
      if Text.TrimSpace(a.agentName) != "" {
        assignedName := Text.TrimSpace(a.agentName);
      }
      approvedAt, approvedBy, joinToken, message := now, a.approver, a.joinToken, "Approved";
    }

    method DenyTo(reason: string, actor: string, now: int)
      modifies this
      ensures Value() == Deny(old(Value()), reason, actor, now)
      ensures status == Rejected && message == reason && rejectedAt == now && rejectedBy == actor
      ensures SameApproval(old(Value()), Value())
    {
      status, message, rejectedAt, rejectedBy := Rejected, reason, now, actor;
    }
  }

  class DeviceAuthStore {
    var byCode: map<string, DeviceAuthRequest>
    var byPoll: map<string, DeviceAuthRequest>
    ghost var requests: set<DeviceAuthRequest>

    ghost function Values(): map<Ref, Request>
      reads this, requests
    {
      map r | r in requests :: r.Value()
    }

    ghost function View(): State
      reads this, requests
    {
      State(Values(), byCode, byPoll)
    }

    ghost predicate Valid()
      reads this, requests
    {
      Closed(View())
    }

    constructor ()
      ensures Valid() && View() == INITIAL && requests == {}
    {
      byCode, byPoll, requests := map[], map[], {};
    }

    method CreateRequest(code: string, pollToken: string, metadata: string, agentName: string, now: int)
      returns (req: DeviceAuthRequest)
      requires Valid()
      modifies this
      ensures Valid() && fresh(req) && requests == old(requests) + {req} && req !in old(View()).requests
      ensures (View(), Found(req.Value())) == Step(old(View()), Event(Create(req, code, pollToken, metadata, agentName), now))
    {
      req := new DeviceAuthRequest(code, pollToken, metadata, agentName, now);
      byCode := byCode[Upper(code) := req];
      byPoll := byPoll[pollToken := req];
      requests := requests + {req};
      assert View().requests == old(View()).requests[req := req.Value()];
    }

    /** The branch that every call takes on a request past its time. */
    method Expire(req: DeviceAuthRequest, key: string, poll: string)
      requires Valid() && req in requests
      modifies this, req
      ensures Valid() && requests == old(requests)
      ensures View() == Drop(Put(old(View()), req, MarkExpired(old(req.Value()))), key, poll)
      ensures req.status == Expired && req.message == "Request expired"
    {
      req.status, req.message := Expired, "Request expired";
      byCode := byCode - {key};
      byPoll := byPoll - {poll};
      assert View().requests == old(View()).requests[req := MarkExpired(old(req.Value()))];
    }

    /** Gives a copy of the request. */
    method TakeSnapshot(code: string, now: int) returns (answer: Answer)
      requires Valid()
      modifies this, requests
      ensures Valid() && requests == old(requests)
      ensures (View(), answer) == Step(old(View()), Event(Snapshot(code), now))
    {
      if Upper(code) !in byCode {
        return NotFound;
      }
      var req := byCode[Upper(code)];
      assert req in Values();
      if req.status != Expired && now > req.expiresAt {
        Expire(req, Upper(code), req.pollToken);
        return NotFound;
      }
      return Found(req.Value());
    }

    /** Gives the request itself, even when it has just expired. */
    method LookUpPoll(pollToken: string, now: int) returns (req: DeviceAuthRequest?)
      requires Valid()
      modifies this, requests
      ensures Valid() && requests == old(requests) && (req != null ==> req in requests)
      ensures pollToken in old(byPoll) ==> req == old(byPoll)[pollToken]
      ensures (View(), if req == null then NotFound else Found(req.Value())) ==
              Step(old(View()), Event(GetByPoll(pollToken), now))
    {
      if pollToken !in byPoll {
        return null;
      }
      req := byPoll[pollToken];
      assert req in Values();
      if req.status != Expired && now > req.expiresAt {
        Expire(req, Upper(req.code), pollToken);
      }
    }

    method ApproveRequest(code: string, a: Approval, now: int) returns (answer: Answer)
      requires Valid()
      modifies this, requests
      ensures Valid() && requests == old(requests)
      ensures (View(), answer) == Step(old(View()), Event(Approve(code, a), now))
    {
      if Upper(code) !in byCode {
        return NotFound;
      }
      var req := byCode[Upper(code)];
      assert req in Values();
      if now > req.expiresAt {
        Expire(req, Upper(code), req.pollToken);
        return TooLate;
      }
      if req.status == Rejected {
        return AlreadyRejected;
      }
      if req.status == Approved {
        return Found(req.Value());
      }
      req.GrantTo(a, now);
      assert View().requests == old(View()).requests[req := req.Value()];
      return Found(req.Value());
    }

    method RejectRequest(code: string, reason: string, actor: string, now: int) returns (answer: Answer)
      requires Valid()
      modifies this, requests
      ensures Valid() && requests == old(requests)
      ensures (View(), answer) == Step(old(View()), Event(Reject(code, reason, actor), now))
    {
      if Upper(code) !in byCode {
        return NotFound;
      }
      var req := byCode[Upper(code)];
      assert req in Values();
      if now > req.expiresAt {
        Expire(req, Upper(code), req.pollToken);
        return TooLate;
      }
      req.DenyTo(reason, actor, now);
      assert View().requests == old(View()).requests[req := req.Value()];
      return Found(req.Value());
    }

    method CleanUpEntry(key: string, now: int, ghost s: State, ghost done: set<string>)
      requires Closed(s) && done <= s.byCode.Keys && key in s.byCode && key !in done
      requires View() == Cleaned(s, done, now)
      modifies this
      ensures requests == old(requests) && View() == Cleaned(s, done + {key}, now)
    {
      CleanedNext(s, done, key, now);
      assert key in byCode && byCode[key] in Values();
      var req := byCode[key];
      if now > req.expiresAt {
        byCode := byCode - {key};
        byPoll := byPoll - {req.pollToken};
      }
    }

    method CleanUp(now: int)
      requires Valid()
      modifies this
      ensures Valid() && requests == old(requests)
      ensures (View(), Nothing) == Step(old(View()), Event(CleanupExpired, now))
    {
      ghost var s := View();
      CleanedNone(s, now);
      var keys := byCode.Keys;
      ghost var done: set<string> := {};
      while keys != {}
        invariant keys + done == s.byCode.Keys && keys !! done
        invariant requests == old(requests) && View() == Cleaned(s, done, now)
        decreases keys
      {
        var key :| key in keys;
        CleanUpEntry(key, now, s, done);
        keys := keys - {key};
        done := done + {key};
      }
      CleanedAll(s, now);
    }
  }
}
