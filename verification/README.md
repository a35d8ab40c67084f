# PrintMaster: models and proofs

Dafny models of the state machines, parsers and calculations inside PrintMaster's agent and server, with proofs
about all their inputs, runs and interleavings. `dafny verify dfyconfig.toml` checks everything.

| file | models |
|---|---|
| `AuthRateLimit.dfy` | the limiter of failed logins: counting window, block, background clean-up |
| `Text.dfy`, `Ipv4.dfy` | the string and address functions of Go's library that the parsers rest on |
| `RangeParser.dfy`, `RangeTheorems.dfy`, `RangeLines.dfy` | the parser of IP ranges (prefixes as in section 3.1 of RFC 4632), and what its lines mean from their characters |
| `SubnetMask.dfy` | the recognition of subnet masks by complement and increment |
| `Llmnr.dfy`, `LlmnrEncoding.dfy` | the LLMNR decoder (section 2.1 of RFC 4795, section 4.1.4 of RFC 1035) and an encoder it inverts |
| `WsRegistry.dfy` | the registry of agent WebSocket connections |
| `ProxyTable.dfy` | the table of pending proxy requests |
| `SseHub.dfy` | the hub of server-sent events |
| `DeviceAuth.dfy` | the store of device authorizations |
| `Merge.dfy` | merging two readings of a printer |
| `Schedule.dfy` | when a report runs next |
| `Downsample.dfy` | thinning out a series of metrics |
| `WorkerPool.dfy` | the five workers that refresh device identities |
| `Walks.dfy` | capped SNMP walks |

## How the models are built

- Concurrent code is a state machine whose steps are the stretches between two points where a goroutine can wait or
  give up a lock. A run is any sequence of enabled steps, so a statement about all runs covers all interleavings.
- Code that updates objects in place is also given as a class or an imperative method, proved against the step
  function or against a function of its inputs; the theorems are about that function.
- What an operation does is also stated without its own definitions: over the events of a run, the fields of a record,
  the characters of a text or the days of the calendar.
- Time is a number handed to each operation. Random codes, tokens, timestamps, network replies and database outcomes
  are parameters. Go maps are maps; ranging over one is a loop that takes its keys in an arbitrary order. `float64` is
  `real`.

## What turned out differently

Where code and documentation, or code and expectation, disagree, the models follow the code; where a property fails,
an input that shows it and the exact condition are proved.

- **Clean-up of the limiter** can be noticed: it is invisible in every run exactly when the window is negative or at
  most twice the block duration (`CleanupIsInvisibleIff`). The "every 5 attempts" rule of the log decision
  (server/auth_ratelimit.go:101) never decides: every failure outside a block is logged (`LoggedIff`).
- **The address cap** fails for /0 and /1, whose size is understated as 2^30: it holds on all texts exactly when it is
  below 2^30 (`CapHoldsIff`). **A dash range to 255.255.255.255** never ends, because the loop variable wraps
  (`DashLoopEndsIff`). **The octets before a wildcard** are never checked, so such a line stands for addresses only when
  they are canonical (`WildcardDenotesAddressesIff`).
- **A DNS name** can keep the decoder in its loop for ever, exactly when the loop comes back to an offset
  (`HaltsIffNeverComesBack`); a pointer to itself does (`SelfPointerNeverHalts`). The answer loop can begin one turn more
  than (length - 12) / 10 (`CutOffAnswerTakesTurn`), exactly when it stops after a name and there is no room for one more
  record (`PacketTurnsExceedIff`).
- **Clients of the hub with one id** do no harm to channels: no run closes one twice or writes to a closed one
  (`NoRunPanics`). But removing one drops the other's entry (`RemovalDropsNamesake`): everybody is served until removed
  exactly when ids are distinct (`AllServedIffDistinctIds`). Ids are nanosecond clock readings.
- **The debounced offline mark** can hit an agent that has reconnected between the check and the mark (`MarkCanRace`),
  exactly when that new connection is still current (`MarkRacesIff`).
- **Several readers** of one request, as after a reconnect, can put a chunk behind the response
  (`TwoReadersCanReorder`); nothing can follow it in any run exactly when there is at most one reader
  (`OrderIffOneReader`).
- **A response can meet a closed channel**: the handler of an unstreamed request closes it when it returns, and a
  reader that has already taken the request from the table then panics when it sends (`FinishCanRace`), exactly in that
  case (`ReaderIsDoomedIff`).
- **A rejection of an approved request** keeps the join token it was given (`TokenIsSetOnce`).
- **LastSeen** is the one field on which merging is not associative; the exact conditions are in `MergeIsAssociativeIff`
  and `MergeAllInGroupsIff`. After a merge it is the extra reading's time whenever it has one, even an older one, though
  the comment speaks of the newer (`OlderReadingTakesBack`, `TimeIsKeptIff`).
- **A keyword hit** is said to stop a diagnostic walk and return (agent/agent/snmp.go:250-251); the code goes on with the
  next root (`HitDoesNotEndWalk`), so a walk ends at the first hit exactly if the limit is reached by then or no later
  root sends anything (`WalkEndsAtHitIff`). Progress is reported
  every 50 entries only; the comment's two seconds (agent/agent/snmp.go:399) are not in the code.
- **A monthly schedule** gets the least matching instant exactly when the day exists in the month aimed at
  (`InitialRunIsLeastIff`), and it is never due in the past exactly when day, hour and minute together do not aim before
  the beginning of the month (`MonthlyNeverInThePastIff`); a schedule created without `day_of_month` has day 0.
- **The refresh marker** is said to be written only after all devices were processed. A cancelled refresh without
  failures writes it too (`InterruptedRunMarksVersion`); it is honest exactly when the counts add up
  (`MarkerIsHonestIff`).
- **The mask 0.0.0.0** is refused as a text, yet other spellings of it pass (`ZeroMaskIsAccepted`). A text that passes
  has at least one 1 exactly when its octets are not all zero (`MaskHasOnesIff`); usual spellings always do
  (`UsualMaskIff`).

## Model

| member | source | states |
|---|---|---|
| AuthRateLimit.CleanupIsInvisibleIff | server/auth_ratelimit.go:52-173 | with the clean-up at any points of any run, failures and block checks answer as without it, exactly when attemptsWindow < 0 or attemptsWindow <= 2 * blockDuration |
| AuthRateLimit.ForgetfulRunIsVisible | server/auth_ratelimit.go:164-171 | otherwise a concrete run of failures, one clean-up and a failure shows the difference |
| AuthRateLimit.CollectedRunIsSimilar | server/auth_ratelimit.go:52-173 | bisimulation: the collected and the full table stay alike in every harmless run, up to records no later call can notice |
| AuthRateLimit.RunKeepsTableOk | server/auth_ratelimit.go:52-173 | in every run firstAttempt <= lastAttempt <= now and blockedUntil <= lastAttempt + blockDuration |
| AuthRateLimit.CountIsHistory | server/auth_ratelimit.go:59-97 | a record's counter is the number of failures of its client since its window began, with no success among them |
| AuthRateLimit.BlocksAreJustified | server/auth_ratelimit.go:93-97 | a block starts only on top of at least maxAttempts failures of the same client within one window, no success between them |
| AuthRateLimit.MthFailureIsBlockedIff | server/auth_ratelimit.go:59-107 | over a run's events: of a client with nothing on record, the m-th failure within the window of the first, with no clean-up or success of its own between, is answered blocked exactly if m >= 2 and m >= maxAttempts, with the count m, and logged exactly if no block was running or m is a multiple of ten |
| AuthRateLimit.LaterFailureAnswer | server/auth_ratelimit.go:70-107 | the same from any table in which the first failure begins a new window |
| AuthRateLimit.WindowEnds | server/auth_ratelimit.go:79-87 | a failure after the window, when no block is running, is answered as a first one and begins a new window |
| AuthRateLimit.BlockStartsIff | server/auth_ratelimit.go:70-97 | a block starts exactly when a failure is answered blocked that found none running |
| AuthRateLimit.CleanupKeepsIff | server/auth_ratelimit.go:159-173 | a clean-up keeps exactly the records of clients that failed within twice the block duration and are blocked or failed within the window |
| AuthRateLimit.StatsCountBlocked | server/auth_ratelimit.go:180-197 | the statistics count the clients a query would find blocked |
| AuthRateLimit.LoggedIff | server/auth_ratelimit.go:70-107 | a failure is logged exactly if no block is running or it is a tenth one; the rule of every fifth never decides |
| AuthRateLimit.BlocksAreKept | server/auth_ratelimit.go:70-77 | a block started at t holds for exactly [t, t + blockDuration) unless a success clears it, whatever other calls and clean-ups come between |
| AuthRateLimit.BlockPersists | server/auth_ratelimit.go:52-173 | failures during a block, other clients' calls and clean-ups neither shorten nor extend it |
| AuthRateLimit.MakeKeyIsInjective | server/auth_ratelimit.go:138-141 | clients whose token prefixes have no ':' never share a record |
| AuthRateLimit.ColonInTokenCollides | server/auth_ratelimit.go:138-141 | a token prefix with ':' does share its record with another client |
| AuthRateLimit.AttemptRecord.Fail | server/auth_ratelimit.go:70-107 | the in-place update of a known record yields the record and the answer of the specification |
| AuthRateLimit.AuthRateLimiter.RecordFailure | server/auth_ratelimit.go:52-108 | the new table and the returned triple are those of one failure step |
| AuthRateLimit.AuthRateLimiter.IsBlocked | server/auth_ratelimit.go:111-127 | answers whether the client's block still runs and until when, and changes nothing |
| AuthRateLimit.AuthRateLimiter.RecordSuccess | server/auth_ratelimit.go:130-136 | forgets exactly this client's record |
| AuthRateLimit.AuthRateLimiter.CleanUp | server/auth_ratelimit.go:159-173 | removes exactly the collectable records, in whatever order the map is visited |
| AuthRateLimit.AuthRateLimiter.GetStats | server/auth_ratelimit.go:181-197 | counts all records and those whose block still runs |
| Ipv4.ParseIsInverseOfText | agent/agent/rangeparser.go:86-96 | a text parses to an address exactly when it is that address printed |
| Ipv4.FromOfTo | agent/agent/rangeparser.go:25-34 | ipToUint32 followed by uint32ToIP gives the address back |
| Ipv4.ToOfFrom | agent/agent/rangeparser.go:25-34 | uint32ToIP followed by ipToUint32 gives the number back |
| Ipv4.DottedIsInjective | agent/agent/rangeparser.go:31-34 | different numbers print as different addresses |
| Text.TrimSpaceStrips | agent/agent/rangeparser.go:55 | exactly the spaces around a text are taken away |
| RangeParser.CidrFits | agent/agent/rangeparser.go:77-79 | a masked block never runs past the last address |
| RangeParser.ClassifiedEntryOk | agent/agent/rangeparser.go:60-195 | every accepted line asks for a block or an interval of real addresses |
| RangeParser.LoopVariableValue | agent/agent/rangeparser.go:144 | after n increments the uint32 loop variable is lo + n modulo 2^32 |
| RangeParser.DashLoopEndsIff | agent/agent/rangeparser.go:144 | the loop from lo to hi ends exactly when hi is not 255.255.255.255 |
| RangeParser.AddAddress | agent/agent/rangeparser.go:80-87 | one turn appends the address if it is new and keeps counter and seen set in step |
| RangeParser.ExpandConsecutive | agent/agent/rangeparser.go:80-87 | the block loop adds the unseen addresses of the block in order |
| RangeParser.ExpandRange | agent/agent/rangeparser.go:144-151 | the dash loop adds the unseen addresses of the interval in order |
| RangeParser.ExpandWildcard | agent/agent/rangeparser.go:169-176 | the wildcard loop adds the unseen texts prefix0 to prefix255 in order |
| RangeParser.ApplyLine | agent/agent/rangeparser.go:59-195 | one decided line changes the result as specified, or ends the call at the cap |
| RangeParser.ParseRangeText | agent/agent/rangeparser.go:49-198 | the whole call computes the specified outcome of the text's lines |
| RangeParser.FailureIsFinal | agent/agent/rangeparser.go:53-198 | a call that stops at a line returns what the lines before it gave |
| RangeTheorems.Denotation | agent/agent/rangeparser.go:49-198 | with no error, IPs is duplicate-free and equals the union of the accepted lines' addresses in order of first occurrence, and Errors and Normalized are the lines' own |
| RangeTheorems.AddUnseenKeepsFirstOccurrences | agent/agent/rangeparser.go:81-87 | what is kept sits at the increasing positions where something new first shows |
| RangeTheorems.EveryLineIsAccounted | agent/agent/rangeparser.go:56-195 | every line that is neither blank nor a comment yields exactly one error or one normalized entry |
| RangeTheorems.CidrDenotesPrefix | agent/agent/rangeparser.go:77-87 | a CIDR line denotes the addresses that agree with it in the first ones bits, and no others |
| RangeTheorems.RangeDenotesInterval | agent/agent/rangeparser.go:134-151 | a dash range denotes the addresses from its left to its right end, and no others |
| RangeTheorems.WildcardDenotesAddressesIff | agent/agent/rangeparser.go:155-176 | a wildcard line denotes 256 addresses exactly when its three octets are canonical |
| RangeTheorems.CountIsLength | agent/agent/rangeparser.go:82-86 | Count is the length of IPs on every return |
| RangeTheorems.CostIsSizeIff | agent/agent/rangeparser.go:36-44 | the size compared with the cap is the true size of a line, exactly except for /0, /1 and the range of all addresses |
| RangeTheorems.CapHolds | agent/agent/rangeparser.go:72-75 | below 2^30 the cap holds on all lines and every return |
| RangeTheorems.CapFails | agent/agent/rangeparser.go:39-41 | from 2^30 on some text makes the list outgrow the cap |
| RangeTheorems.CapHoldsIff | agent/agent/rangeparser.go:36-75 | the cap holds on every text and every return exactly when it is below 2^30 |
| RangeTheorems.NormalIsStable | agent/agent/rangeparser.go:88-195 | a normalized line is accepted again with the same meaning and normalizes to itself |
| RangeTheorems.RoundTrip | agent/agent/rangeparser.go:88-195 | parsing the joined Normalized lines with the same cap gives no errors, the same IPs in the same order and the same Normalized |
| RangeLines.DashLineIff | agent/agent/rangeparser.go:91-152 | a line left-right is read as the range from lo to hi exactly if, spaces aside, left is the text of lo, right gives the last one to four octets of hi, the other octets are the same, and hi is not before lo in the order of octets |
| RangeLines.DashLineForm | agent/agent/rangeparser.go:91-152 | whatever its sides are, an accepted dash line is such a range, normalized to both addresses in full |
| RangeLines.RangeDenotes | agent/agent/rangeparser.go:144-151 | a range stands for the addresses from its first to its last, octet by octet |
| RangeLines.CidrLineIff | agent/agent/rangeparser.go:60-89 | a line with a slash is accepted exactly if an address stands before the first slash and a number up to 32 behind it |
| RangeLines.CidrLineDenotes | agent/agent/rangeparser.go:72-87 | it stands for the addresses whose numbers give the same quotient by the block's size |
| RangeLines.WildcardLineIff | agent/agent/rangeparser.go:155-177 | a line ending in .x or .* is accepted exactly if two dots are in front of it |
| RangeLines.WildcardLineDenotes | agent/agent/rangeparser.go:164-176 | with three octets in front it stands for the 256 addresses that begin with them, in order |
| RangeLines.SingleLineIff | agent/agent/rangeparser.go:180-195 | any other line is accepted exactly if it is the text of an address, and stands for that |
| RangeLines.SkipIff | agent/agent/rangeparser.go:55-59 | exactly blank lines and comments are passed over |
| RangeLines.ErrorsNameLines | agent/agent/rangeparser.go:64-184 | errors name, in order, exactly the rejected lines, counted from one |
| RangeLines.NextLineFitsIff | agent/agent/rangeparser.go:72-190 | a further line ends the call at the cap exactly if it is accepted, is not a single address already there, and the addresses so far with all of its own are more than the cap; the error names its line and that sum |
| Llmnr.MasksAreThresholds | agent/agent/llmnr.go:124-182 | the bit tests and masks of header and pointer bytes are the comparisons used in the model |
| Llmnr.PointerBits | agent/agent/llmnr.go:176-182 | a byte begins a pointer exactly if its two high bits are set; the other six and the next byte are the place, high byte first |
| Llmnr.DottedInTwo | agent/agent/llmnr.go:212 | labels are joined by single dots, in order |
| Llmnr.HaltsIffTerminates | agent/agent/llmnr.go:173-206 | decoding a name ends at all exactly when it ends within as many turns as there are bytes |
| Llmnr.HaltsIffNeverComesBack | agent/agent/llmnr.go:173-206 | decoding a name ends exactly if the loop never comes back to an offset |
| Llmnr.VisitedOffsets | agent/agent/llmnr.go:173-206 | a loop of n turns visits n different offsets |
| Llmnr.BackwardPointersHalt | agent/agent/llmnr.go:176-189 | if every pointer leads to a place before the segment it ends, decoding ends |
| Llmnr.SelfPointerNeverHalts | agent/agent/llmnr.go:176-189 | a pointer to itself is followed for ever |
| Llmnr.ParseDNSName | agent/agent/llmnr.go:168-213 | returns the dotted labels, and the offset past the terminator or the first pointer |
| Llmnr.EndIsNotBefore | agent/agent/llmnr.go:208-212 | the returned offset is never before the start |
| Llmnr.AnswerTurnsBound | agent/agent/llmnr.go:139-161 | whatever anCount claims, ten times the turns begun stays within the bytes left, exactly unless the loop stops after a name and there is no room for one more record; it never exceeds them by more than nine |
| Llmnr.RecordsBound | agent/agent/llmnr.go:139-161 | ten times the records read stays within the bytes left, and at most one more turn is begun |
| Llmnr.PacketTurnsExceedIff | agent/agent/llmnr.go:128-161 | the turns exceed (len - 12) / 10 exactly when the loop stops after a name and one more record would exceed it too |
| Llmnr.CutOffAnswerTakesTurn | agent/agent/llmnr.go:137-146 | thirteen bytes for which they do: one turn against a bound of zero |
| Llmnr.BackwardPacketsAreRead | agent/agent/llmnr.go:117-165 | a packet is decoded if the pointers of the names met in it, the question's and then each answer's, lead backward, whatever else its bytes say |
| Llmnr.ParseRecord | agent/agent/llmnr.go:144-160 | one record contributes its address if it is an A record of four bytes within the packet; every index is in bounds |
| Llmnr.ParseAnswers | agent/agent/llmnr.go:137-162 | the loop gives the address of the last such record, in a bounded number of turns |
| Llmnr.ParseLLMNRPacket | agent/agent/llmnr.go:117-165 | computes the specified reading of any packet whose names end, with every read in bounds |
| LlmnrEncoding.NameRoundTrip | agent/agent/llmnr.go:168-213 | a name encoded with compression at the end of any message so far is read back, with the offset just past it, whatever follows |
| LlmnrEncoding.EncodedNameSpells | agent/agent/llmnr.go:176-205 | each encoded name, and each tail remembered for later pointers, is spelled in the message |
| LlmnrEncoding.EncodedNamePointsBackward | agent/agent/llmnr.go:176-189 | an encoded name points only to names written before it |
| LlmnrEncoding.SpellingIsRead | agent/agent/llmnr.go:168-213 | any spelling of a name, with any number of pointers, decodes to that name |
| LlmnrEncoding.SpellingIsStable | agent/agent/llmnr.go:168-213 | bytes appended to a message change no spelling in it |
| LlmnrEncoding.AnswersRoundTrip | agent/agent/llmnr.go:137-162 | decoding encoded answers gives the address of the last A record |
| LlmnrEncoding.MessageRoundTrip | agent/agent/llmnr.go:116-165 | decoding an encoded message gives the question's name, the response bit and, for a response, the last A record's address |
| LlmnrEncoding.EncodedPacketPointsBackward | agent/agent/llmnr.go:116-165 | every encoded message is one whose names point backward, so the condition of BackwardPacketsAreRead covers them |
| SubnetMask.IsValidIPv4 | agent/agent/parse.go:93-108 | accepts exactly the texts other than "0.0.0.0" with four numbers from 0 to 255 |
| SubnetMask.OctetsIff | agent/agent/parse.go:93-108 | a text passes for an address exactly if it is not "0.0.0.0" and consists of four numbers from 0 to 255 with dots between them |
| SubnetMask.AtoiIff | agent/agent/parse.go:101-105 | a number is a string of digits with at most one sign in front |
| SubnetMask.TestIsOnesThenZeros | agent/agent/parse.go:118-132 | the assembled 32-bit word passes the complement-and-increment test exactly when its digits are ones followed by zeros |
| SubnetMask.TestOnWords | agent/agent/parse.go:126-132 | the same on words: full octets, one octet of leading ones, zero octets |
| SubnetMask.OnesAsNumber | agent/agent/parse.go:129-132 | n has its first k of w digits set exactly when n = 2^w - 2^(w-k) |
| SubnetMask.ShapeIsOnesThenZeros | agent/agent/parse.go:116-132 | the shape of the four octets is that of the 32 digits |
| SubnetMask.IsValidSubnetMask | agent/agent/parse.go:111-133 | a text is taken for a mask exactly when it has four octets whose digits are ones followed by zeros |
| SubnetMask.ZeroMaskIsAccepted | agent/agent/parse.go:94-132 | "00.0.0.0" is taken for a mask although "0.0.0.0" is not: the number of ones can be 0 |
| SubnetMask.MaskHasOnesIff | agent/agent/parse.go:93-133 | of all texts that pass, those with at least one 1 are exactly those whose octets are not all zero |
| SubnetMask.UsualMaskIff | agent/agent/parse.go:93-133 | on usual spellings a mask has at least one 1, then zeros, and every such text passes |
| WsRegistry.EveryRunIsConsistent | server/websocket.go:207-316 | in every interleaving an open connection is its agent's entry, or its handler has taken it out and is about to close it; superseded and force-closed ones are closed |
| WsRegistry.EntryIsCurrent | server/websocket.go:207-316 | an agent's entry is its last registered connection, exactly as long as that very one was neither cleaned up nor force-closed |
| WsRegistry.OpenIff | server/websocket.go:207-316 | a connection is open exactly from its registration until it breaks or is closed by its handler, by its successor or by force |
| WsRegistry.SupersededCleanupIsHarmless | server/websocket.go:265-316 | the deferred clean-up of a superseded connection leaves the registry and the counters alone |
| WsRegistry.RegistrationsAreConserved | server/websocket.go:207-316 | registrations = superseded + disconnect events + forced closes + 1 if connected, in every interleaving |
| WsRegistry.CounterCountsDisconnects | server/websocket.go:281-286 | the published counter is the number of disconnects since the agent's diagnostics were last forgotten |
| WsRegistry.StaysDisconnected | server/websocket.go:480-486 | without a new registration an agent that is not connected stays so |
| WsRegistry.MarkRacesIff | server/websocket.go:297-312 | the mark hits a connected agent exactly if it registered again after the check, with a connection that is still current |
| WsRegistry.MarksAreChecked | server/websocket.go:297-312 | in every run there are as many marks, made or decided, as checks that found the agent absent |
| WsRegistry.EveryMarkWasChecked | server/websocket.go:301-309 | no agent is marked that was not found absent before |
| WsRegistry.MarkCanRace | server/websocket.go:299-312 | and that can happen: disconnect, check, reconnect, mark |
| WsRegistry.Registry.CloseExisting | server/websocket.go:209-213 | closes the connection an agent already has, and nothing else |
| WsRegistry.Registry.RegisterConn | server/websocket.go:207-215 | registers in one step, closing the predecessor |
| WsRegistry.Registry.RemoveEntry | server/websocket.go:270-286 | removes the entry only if it is still this connection, and counts that |
| WsRegistry.Registry.CleanUp | server/websocket.go:265-314 | the deferred function up to where it gives up the lock is the specified step |
| WsRegistry.Registry.FinishCleanUp | server/websocket.go:314-315 | the close after the lock is given up is a step of its own |
| WsRegistry.Registry.ForceCloseAgent | server/websocket.go:488-498 | closes and forgets the agent's connection, if any |
| WsRegistry.Registry.IsConnected | server/websocket.go:480-486 | answers whether the agent has an entry |
| ProxyTable.OneTerminalInEveryRun | server/websocket.go:509-607 | whatever readers, request handlers and timeouts do, a request gets at most one response or stream end |
| ProxyTable.LogAfter | server/websocket.go:532-605 | what has gone into a queue changes only by appending the message a reader delivers |
| ProxyTable.WaitingIff | server/websocket.go:509-607 | a request waits exactly from its opening until a terminal message of it is handled or its handler returns |
| ProxyTable.ReadersSettleInOrder | server/websocket.go:509-607 | in every run each reader delivers or gives up exactly what it has handled, one by one and in order, but for the message it still holds |
| ProxyTable.QueueHoldsDelivered | server/websocket.go:532-605 | what has gone into a queue is what was delivered to it, in that order, and the queue never outgrows the capacity it was opened with |
| ProxyTable.SingleReaderKeepsOrder | server/websocket.go:541-607 | with a single reader for a request its queue is an in-order subsequence of its chunks handled, then possibly the terminal message, and nothing after it, whatever other readers and requests do |
| ProxyTable.NothingLostIffNoDrops | server/websocket.go:560-567 | and it is all of them exactly if none of its chunks found the queue full |
| ProxyTable.TwoReadersCanReorder | server/websocket.go:549-567 | with any two readers a chunk can follow the response |
| ProxyTable.OrderIffOneReader | server/websocket.go:541-607 | in every run whose messages of a request come through the given readers nothing follows the terminal message, exactly if there is at most one such reader |
| ProxyTable.Chan.TrySend | server/websocket.go:533-538 | a send appends exactly when there is room and never blocks |
| ProxyTable.Table.TakeRequest | server/websocket.go:519-530 | the locked section of a response or stream end removes the entry, so only one reader can take it |
| ProxyTable.Table.PeekRequest | server/websocket.go:549-558 | the locked section of a chunk leaves the entry |
| ProxyTable.Table.Send | server/websocket.go:532-567 | delivers into the queue of the request the reader holds, or gives up, or panics exactly when that queue is closed |
| ProxyTable.ReaderIsDoomedIff | server/main.go:5161-5167 | a reader runs into a closed channel exactly when the request's handler returned between the reader's lookup and its send |
| ProxyTable.FinishCanRace | server/main.go:5161-5167 | and that can happen: the response is taken, the handler returns, the reader sends |
| ProxyTable.Table.FinishRequest | server/main.go:5161-5167 | the deferred function removes the entry and closes the channel |
| ProxyTable.Table.OpenRequest | server/main.go:5150-5170 | a new request starts with an empty queue of its own |
| SseHub.EveryRunIsWellFormed | agent/main.go:1540-1612 | in every run client queues stay within 10 and the broadcast queue within 100, and clients are filed under their ids |
| SseHub.NoRunPanics | agent/main.go:1552-1612 | no run closes a channel twice or writes to a closed one, whatever the clients' ids |
| SseHub.ClosedIff | agent/main.go:1559-1584 | a channel is closed exactly by its own removal while its id is filed, or by the stop of the hub while it is connected; the hub runs exactly until it is stopped |
| SseHub.ConnectedIff | agent/main.go:1552-1587 | while the hub runs a client is served exactly since its registration, for as long as no client with the same id registers or is removed |
| SseHub.RemovalDropsNamesake | agent/main.go:1559-1565 | two clients with one id: removing the first drops the second's entry, and its own removal then closes nothing |
| SseHub.AllServedIffDistinctIds | agent/main.go:1552-1612 | in all runs of clients with given ids every client is served until it is removed, exactly when the ids are distinct |
| SseHub.BroadcastAfter | agent/main.go:1566-1599 | a step appends an accepted broadcast to the buffer, takes the first one out, or leaves it alone |
| SseHub.DispatchIsFifo | agent/main.go:1566-1599 | the hub dispatches what it accepted, in order, and the rest is still queued |
| SseHub.ClientGetsSubsequence | agent/main.go:1566-1575 | a client receives an in-order subsequence of what was dispatched while it was connected |
| SseHub.ClientGetsEverything | agent/main.go:1566-1575 | and all of it if its queue never fills |
| SseHub.SegmentIsAStretch | agent/main.go:1555-1575 | what was dispatched while it was connected is one contiguous stretch, from its registration on |
| SseHub.LogAfter | agent/main.go:1566-1575 | a dispatch adds its event to a client's channel if it is connected and has room, and nothing else does |
| SseHub.Hub.HandleRegister | agent/main.go:1555-1558 | the register case files the client under its id with an empty open channel |
| SseHub.Hub.HandleUnregister | agent/main.go:1559-1565 | the unregister case, with the panic of closing a closed channel |
| SseHub.Hub.Broadcast | agent/main.go:1593-1599 | appends if the buffer has room, drops otherwise, never blocks |
| SseHub.Hub.OfferLoop | agent/main.go:1568-1574 | one non-blocking send for each client, in any order, and to nobody else |
| SseHub.Hub.HandleBroadcast | agent/main.go:1566-1575 | the broadcast case delivers to exactly the connected clients |
| SseHub.Hub.CloseAll | agent/main.go:1579-1581 | closes exactly the channels of the clients in the map |
| SseHub.Hub.HandleShutdown | agent/main.go:1576-1584 | the shutdown case closes every connected client and empties the map |
| Downsample.BucketsPartition | agent/main.go:1340-1353 | every index but the first and last lies in exactly one bucket and no bucket is empty |
| Downsample.BoundIsFloor | agent/main.go:1341-1347 | the i-th of targetPoints - 2 equal parts of n - 2 begins in the place before the i-th bound |
| Downsample.BoundEnds | agent/main.go:1341-1347 | the buckets start at index 1 and end at n - 1 |
| Downsample.BestDeviatesMost | agent/main.go:1355-1374 | the point chosen deviates most from the line between the bucket's neighbours and is the first that does |
| Downsample.DeviationIsZeroIff | agent/main.go:1362-1369 | a point deviates by nothing exactly when it stands on that line |
| Downsample.DeviationIs | agent/main.go:1362-1369 | how far a point is off the line, in whole numbers |
| Downsample.PicksAreOrdered | agent/main.go:1330-1381 | exactly targetPoints points are kept, at strictly increasing indices, first and last among them, one from each bucket |
| Downsample.PicksStandOut | agent/main.go:1355-1376 | each point kept from the middle is the first farthest off in its own bucket |
| Downsample.PeaksAreKept | agent/main.go:1327-1374 | a point that stands out from all others of its bucket is always kept |
| Downsample.BestOf | agent/main.go:1355-1374 | the inner loop finds that point |
| Downsample.DownsampleAgentMetrics | agent/main.go:1330-1381 | returns short series and targets below 3 unchanged and otherwise exactly the picked points |
| DeviceAuth.EveryRunIsIndexed | server/device_auth.go:108-239 | in every run with fresh codes and tokens both maps index exactly the same requests, each under its own code and token, and no expired request is indexed |
| DeviceAuth.StepKeepsIndexed | server/device_auth.go:108-239 | every single call keeps that |
| DeviceAuth.SameRequestsIndexed | server/device_auth.go:108-239 | the two maps hold the same requests, each once |
| DeviceAuth.CreateKeepsIndexedIff | server/device_auth.go:134-137 | a creation keeps the maps in step exactly when code and token are both free or both taken by one request |
| DeviceAuth.CleanupRemovesExactlyTheExpired | server/device_auth.go:108-118 | after a clean-up exactly the requests not yet expired are left, in both maps |
| DeviceAuth.RequestAfter | server/device_auth.go:120-239 | one call leaves a request alone, expires it, approves it or rejects it; nothing else can happen to it |
| DeviceAuth.CreatedFields | server/device_auth.go:120-139 | every field of a new request: pending for ten minutes with the trimmed name of the agent, filed under its code in capitals and its token |
| DeviceAuth.ApprovedFields | server/device_auth.go:181-215 | every field after an approval in time: tenant id and name, approver, time, token, message, the agent's name if one is given, and the others left alone |
| DeviceAuth.ApprovedBefore | server/device_auth.go:198-203 | approving again gives the request as it is, approving a rejected one is refused, and neither changes anything |
| DeviceAuth.RejectedFields | server/device_auth.go:217-239 | every field after a rejection in time: reason, time and rejecter, the others left alone |
| DeviceAuth.ExpiredFields | server/device_auth.go:151-157 | every field after a call that comes too late, and both entries removed |
| DeviceAuth.SnapshotInTime | server/device_auth.go:141-160 | a snapshot in time is the request itself and changes nothing |
| DeviceAuth.PollFields | server/device_auth.go:162-179 | a poll in time is given the request itself; a late one the expired request, field by field |
| DeviceAuth.UnknownFindsNothing | server/device_auth.go:147-150 | unknown codes and tokens find nothing and change nothing |
| DeviceAuth.OthersAreUntouched | server/device_auth.go:108-239 | no call touches a request it does not look up |
| DeviceAuth.UpperAt | server/device_auth.go:135 | codes are filed with small letters made capital and nothing else changed |
| DeviceAuth.StatusMovesForward | server/device_auth.go:141-239 | a status only moves from pending over approved and rejected to expired |
| DeviceAuth.TokenComesFromApproval | server/device_auth.go:181-215 | a request becomes approved and gets its token exactly in the call that finds it pending and in time |
| DeviceAuth.NeverApprovedAfterRejection | server/device_auth.go:181-239 | over any stretch of any run a rejected or expired request is never pending or approved again |
| DeviceAuth.ApprovedAtMostOnce | server/device_auth.go:198-214 | at most one call of a run approves a request |
| DeviceAuth.TokenIsSetOnce | server/device_auth.go:201-214 | the join token is set at most once: from then on it is the one of the approving call, even after a rejection |
| DeviceAuth.PollSeesApproval | server/device_auth.go:162-215 | a device that polls in time is given the request approved under its code |
| DeviceAuth.DeviceAuthStore.CreateRequest | server/device_auth.go:120-139 | files a new pending request in both maps |
| DeviceAuth.DeviceAuthStore.Expire | server/device_auth.go:151-157 | marks the request and removes both entries |
| DeviceAuth.DeviceAuthRequest.GrantTo | server/device_auth.go:204-213 | the approval's assignments, field by field |
| DeviceAuth.DeviceAuthRequest.DenyTo | server/device_auth.go:234-237 | the rejection's assignments, field by field |
| DeviceAuth.DeviceAuthStore.TakeSnapshot | server/device_auth.go:141-160 | hands out a copy, or expires the request and hands out nothing |
| DeviceAuth.DeviceAuthStore.LookUpPoll | server/device_auth.go:162-179 | hands out the shared request, even when it has just expired |
| DeviceAuth.DeviceAuthStore.ApproveRequest | server/device_auth.go:181-215 | the specified approval, idempotent on approved requests and refused on rejected ones |
| DeviceAuth.DeviceAuthStore.RejectRequest | server/device_auth.go:217-239 | the specified rejection |
| DeviceAuth.DeviceAuthStore.CleanUp | server/device_auth.go:108-118 | the loop removes exactly the expired entries from both maps, in whatever order it visits them |
| Merge.MergeIsAssociative | agent/agent/merge.go:7-201 | merging readings one by one or in groups gives the same printer in every field but LastSeen |
| Merge.MergeIsAssociativeIff | agent/agent/merge.go:179-198 | and in LastSeen too exactly when a later reading carries a time or the clock that stood in for it agrees |
| Merge.MergeAbsorbs | agent/agent/merge.go:7-201 | merging the same reading again changes nothing |
| Merge.MergeAllInGroups | agent/agent/merge.go:7-201 | a list of readings may be cut anywhere and its tail merged first, with the same result but for LastSeen |
| Merge.MergeAllInGroupsIff | agent/agent/merge.go:7-201 | and in LastSeen too exactly if the tail is a single reading or has one with a time, or the readings before it have no time or the clock's |
| Merge.TimeIsKeptIff | agent/agent/merge.go:179-198 | a merge never takes LastSeen back exactly if the extra reading has no time or one that is not older |
| Merge.OlderReadingTakesBack | agent/agent/merge.go:179-182 | and any record that was seen is taken back by some reading |
| Merge.MonoTotalOfList | agent/agent/merge.go:25-32 | the mono total comes from the last reading with a total or a page count, which outranks older totals |
| Merge.TextOfList | agent/agent/merge.go:8-102 | each of the nine texts comes from the last reading that has one, or from the base |
| Merge.CounterOfList | agent/agent/merge.go:25-50 | each of the other seven counters comes from the last reading in which it is not zero |
| Merge.DnsServersOfList | agent/agent/merge.go:97-99 | so does the list of DNS servers |
| Merge.DiscoveryOfList | agent/agent/merge.go:184-193 | MAC, ports and discovery methods come from the base or the first reading that has them |
| Merge.UptimeOfList | agent/agent/merge.go:103-112 | the uptime is the largest that is not zero, and duplex is supported if any reading says so |
| Merge.LevelOfList | agent/agent/merge.go:52-65 | a toner level is the last one that is not zero, else the base's, else zero |
| Merge.TrayOfList | agent/agent/merge.go:114-120 | a tray's status is the last one reported, or the base's |
| Merge.ListsOfList | agent/agent/merge.go:67-177 | each of the four lists holds the strings of all readings but blanks |
| Merge.UnionIsAssociative | agent/agent/merge.go:67-84 | the order-preserving unions are associative |
| Merge.UnionAbsorbs | agent/agent/merge.go:67-84 | and absorb a list merged twice |
| Merge.UnionIsOrdered | agent/agent/merge.go:67-84 | a union is the base list without blanks, then exactly the other list's new strings, once each, in order of first appearance |
| Merge.UnseenKeepsOrder | agent/agent/merge.go:77-83 | what a union adds keeps the order of first appearance |
| Merge.TonerIsAssociative | agent/agent/merge.go:52-65 | merging toner levels, where zero never replaces a known level, is associative |
| Merge.MergeLevels | agent/agent/merge.go:52-65 | updates the base's own map in place to the merged levels, even when both records share it |
| Merge.MergeTrays | agent/agent/merge.go:114-120 | updates the base's own map in place to the overlaid trays |
| Merge.MergeLists | agent/agent/merge.go:67-84 | the two loops with their seen set compute the union |
| Merge.MergeCounters | agent/agent/merge.go:25-50 | the counter branches give the merged counters |
| Merge.MergeNetwork | agent/agent/merge.go:86-112 | the network, uptime and duplex branches give the merged fields |
| Merge.MergePrinterInfo | agent/agent/merge.go:7-201 | the merged record has the merged value; the base's maps are updated where they stand and nil maps are replaced by new ones |
| Schedule.InitialRunIsLeastIff | server/api_reports.go:585-626 | the first run is the least instant the schedule names that is not before now, exactly when time and day exist in the month aimed at |
| Schedule.DailyIsLeast | server/api_reports.go:601-606 | daily: the least instant with that time |
| Schedule.WeeklyIsLeast | server/api_reports.go:608-615 | weekly: the least instant with that weekday and time |
| Schedule.MonthlyIsLeast | server/api_reports.go:617-622 | monthly: the least instant with that day and time if the day exists in the month aimed at |
| Schedule.MonthlyMisses | server/api_reports.go:617-622 | otherwise the result is not an instant the schedule names |
| Schedule.MonthlyNeverInThePastIff | server/api_reports.go:617-622 | a monthly schedule is never due in the past, whenever it is made, exactly when day, hour and minute, any numbers, do not aim before the beginning of the month; with a time of day that exists, when the day is at least 1 |
| Schedule.EarlyAimFallsBehind | server/api_reports.go:618-621 | on the 31st of March an aim before the beginning of the month, moved on by a month, is still past |
| Schedule.MonthlyAim | server/api_reports.go:617-622 | an aim from the beginning of the month on is kept in the month aimed at and never before now, for any hour and minute |
| Schedule.MonthIsUnique | server/api_reports.go:617-622 | every day lies in exactly one month of the calendar |
| Schedule.WeekdaysFollow | server/api_reports.go:608-615 | each day has the weekday after that of the day before |
| Schedule.NewYear2000 | server/api_reports.go:608-615 | the first of January 2000 was day 730485, a Saturday |
| Schedule.MonthLengths | server/api_reports.go:617-622 | the lengths of the twelve months |
| Schedule.YearLength | server/api_reports.go:617-622 | a year has 366 days if it is divisible by 4 and not by 100, or by 400, and 365 otherwise |
| Schedule.FourCenturies | server/api_reports.go:617-622 | any 400 years have 146097 days, a whole number of weeks |
| Schedule.ShowsTimeIff | server/api_reports.go:602 | a clock shows hour and minute exactly if these are what divides the instant |
| Schedule.DailyNames | server/api_reports.go:601-606 | a daily schedule names the instants on its clock's hour and minute |
| Schedule.WeeklyNames | server/api_reports.go:608-615 | a weekly schedule names those so many days after Saturday the first of January 2000 as its weekday is after Saturday, whole weeks aside |
| Schedule.MonthlyNames | server/api_reports.go:617-622 | a monthly schedule names those dayOfMonth - 1 days after the first of a month that has the day |
| Schedule.OtherRunsTomorrow | server/api_reports.go:625 | any other schedule runs a day from now |
| Schedule.FollowingRunIsLeastIff | server/reports/scheduler.go:277-325 | the following run is the least named instant after now on the same terms |
| Schedule.RunsAreNamed | server/reports/scheduler.go:112-325 | as long as the days aimed at exist, the runs fall due at named instants only, one after the other |
| Schedule.EveryNamedInstantRuns | server/reports/scheduler.go:112-325 | then every named instant up to the last run is a run, exactly unless it passed while an earlier run was still going on |
| Schedule.RegularAimsExist | server/reports/scheduler.go:295-321 | daily, weekly and days 1 to 28: the days aimed at always exist |
| WorkerPool.EveryRunIsConsistent | agent/identity_refresh.go:29-100 | every interleaving of dispatcher, five workers and a cancellation keeps counters, jobs and history in agreement |
| WorkerPool.AttemptsAreConserved | agent/identity_refresh.go:29-100 | Attempted = finished + on their way + dropped by a cancellation; at most six devices are under way or dropped |
| WorkerPool.UncancelledRunsCountAll | agent/identity_refresh.go:79-99 | an uncancelled call returns with Refreshed + Skipped + Failed = number of devices |
| WorkerPool.FateIff | agent/identity_refresh.go:43-95 | in every run a device failed exactly if a failed query or store ended it, was skipped exactly if it was unusable or its reply missing, unnamed or foreign, was refreshed exactly if its record was stored, and was lost exactly if a cancellation met it |
| WorkerPool.CountersCountSteps | agent/identity_refresh.go:49-88 | the counters count these steps: failed queries and stores, skips, stores that went well, offers |
| WorkerPool.StoredRecordsAreReplies | agent/identity_refresh.go:56-74 | every stored record is a recognised reply to a query of its own device, with the serial number on record put in and the way of discovery added |
| WorkerPool.StoredSerialsAreKnown | agent/identity_refresh.go:56-74 | every stored record belongs to a device of its own and carries the serial number on record |
| WorkerPool.SomebodyCanMove | agent/identity_refresh.go:43-100 | until the call returns somebody can move without waiting for a cancellation |
| WorkerPool.RunsAreBounded | agent/identity_refresh.go:43-100 | no run has more than 6 n + 7 steps, so a run that is carried on returns |
| WorkerPool.StepsCost | agent/identity_refresh.go:43-100 | every step uses up some of that measure |
| WorkerPool.InterruptedRunMarksVersion | agent/identity_refresh.go:145-171 | a cancelled refresh that drops a device without a failure still records the version |
| WorkerPool.MarkerIsHonestIff | agent/identity_refresh.go:145-171 | a recorded version means that every device was processed exactly when Refreshed + Skipped is the number of devices, which an uncancelled run guarantees |
| WorkerPool.Refresh.Dispatch | agent/identity_refresh.go:79-88 | the dispatcher skips blank entries and offers the others |
| WorkerPool.Refresh.Receive | agent/identity_refresh.go:44-90 | an offered device goes to one waiting worker |
| WorkerPool.Refresh.Abandon | agent/identity_refresh.go:91-95 | on a cancellation the dispatcher drops the offered device and closes the channel |
| WorkerPool.Refresh.CheckContext | agent/identity_refresh.go:44-47 | a worker that finds the context done leaves with its device |
| WorkerPool.Refresh.TakeReply | agent/identity_refresh.go:49-64 | errors fail, foreign or missing identities are skipped, the rest is stamped with the stored serial |
| WorkerPool.Refresh.TakeStored | agent/identity_refresh.go:65-74 | the outcome of storing is counted once |
| Walks.FullWalkIsFirst | agent/agent/snmp.go:352-354 | without stop keywords a walk is the first maxEntries elements of all streams together |
| Walks.WalkLength | agent/agent/snmp.go:257-262 | a walk yields all there is but no more than the limit, which is 5000 when none is set |
| Walks.UpToHitIsPrefix | agent/agent/snmp.go:309-324 | with keywords a root contributes its prefix through the first hit, and all of it only if nothing before the end hits |
| Walks.LimitReached | agent/agent/snmp.go:331-336 | once the limit is reached the remaining roots make no difference |
| Walks.WalkEndsAtHitIff | agent/agent/snmp.go:305-338 | a walk ends at the first hit exactly if the limit is reached by then or no later root sends anything |
| Walks.HitDoesNotEndWalk | agent/agent/snmp.go:319-337 | after a hit in the first root the second is walked all the same |
| Walks.ContainsKeyword | agent/agent/snmp.go:273-303 | hits exactly when name or value contains one of the keywords |
| Walks.HitsIff | agent/agent/snmp.go:264-303 | a PDU hits exactly if its name, but for a dot in front, or its value holds a stop keyword that is not blank, in upper or lower case |
| Walks.PrepareKeywords | agent/agent/snmp.go:264-270 | keywords are trimmed, lower-cased and never empty |
| Walks.KeywordsAreTrimmed | agent/agent/snmp.go:264-270 | the keywords are exactly the stop keywords that are not blank, trimmed and in lower case |
| Walks.WalkRoot | agent/agent/snmp.go:309-324 | one root adds its prefix up to the limit |
| Walks.DiagnosticWalk | agent/agent/snmp.go:252-339 | collects exactly the first entries of the concatenated prefixes; a missing client or limit is handled as documented |
| Walks.FullDiagnosticWalk | agent/agent/snmp.go:352-354 | collects the first maxEntries elements of the concatenated streams |
| Walks.WalkRootReporting | agent/agent/snmp.go:423-458 | one root with reports adds the same elements and keeps reports and count in step |
| Walks.PercentIs | agent/agent/snmp.go:433-440 | the percentage is 30 parts in a hundred for the roots and 70 for the entries, rounded down, and at most 95 |
| Walks.FullDiagnosticWalkWithProgress | agent/agent/snmp.go:375-486 | collects the same list as FullDiagnosticWalk; reports count up, one at each full interval of 50, stay below 100 percent and end with the total |

## Left out

- HTTP handlers, cookies, OIDC, the reverse proxy, TLS, sockets, multicast, SNMP transport, SQL stores, configuration, services and platform detection: input and output, or library calls.
- Logging, messages for people, and the tracing of proxies and real client addresses around the limiter (server/auth_ratelimit.go:199 onwards).
- `ParsePDUs` as a whole: its helper packages are not part of this model.
- The goroutine that calls the limiter's clean-up every minute: a clean-up may happen at any moment instead. Closing its stop channel twice is not modelled.
- IPv6 and IPv4-mapped texts in ranges: net.ParseIP and net.ParseCIDR are modelled on dotted quads and decimal prefix lengths, so the "IPv6 not supported" message and lines with ':' that denote IPv4 addresses do not occur.
- RangeParser.ParseRangeText: says nothing about a text on which the dash loop never ends; the method stops there and its outcome is Diverges. The cap is a mathematical integer, so no sum of counts overflows.
- Llmnr.ParseDNSName: asks that the decoder's loop ends (`Terminates`), which HaltsIffTerminates shows to be the same as ending at all; packets with circular pointers are covered by HaltsIffNeverComesBack and SelfPointerNeverHalts only. Llmnr.ParseLLMNRPacket likewise.
- Bytes of names as Unicode text: a Go string of label bytes stays a sequence of bytes.
- The ping loop, the read loop and the message types of a WebSocket connection: they only close it or call the handlers modelled here. The deletion of diagnostic counters is a step that may happen at any time.
- The five-second length of the delivery timeout: it may strike at any moment. Which requests are streamed is not recorded: either way of returning is possible for each.
- Calling `Stop` on the hub twice, and goroutines that stay blocked on the hub's channels after it has stopped.
- The interleaving of a caller that still reads a request object returned by getByPoll or approve without the lock: the classes of `DeviceAuth.dfy` share these objects, but calls are whole steps.
- DeviceAuth.Upper: upper-cases the letters a to z only, as do Text.Lower and Text.EqualFold for A to Z; generated codes and hexadecimal or alphanumeric serial numbers use no others. Generated codes and tokens are parameters, distinct as `Fresh` says; CreateKeepsIndexedIff says what happens otherwise.
- The fields of PrinterInfo that merging never touches, except a few stand-ins in `Unmerged`; slices shared between a reading and the merged result, which merging only replaces.
- Time zones with daylight saving, unknown zone names, and the scanning of the time of day into hour and minute: hour and minute are any integers. Storing and fetching due schedules.
- Rounding of floating point numbers in the downsampler and in the percentages of walks.
- The texts of progress reports and log lines of walks; errors a client reports by itself end a root's stream like its natural end.
- The five workers' calls to the network and the store: replies and outcomes are arbitrary parameters of the steps. A record whose storing fails counts as not stored.
- Parts of the repository whose properties would only be easy ones: configuration loading, environment overrides, MAC and host-name formatting, report contents.
