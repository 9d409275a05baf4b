# secure-access-relay, verified

A Dafny model of secure-access-relay, a relay that joins operators to services on remote machines, and proofs
of what its parts promise. `dafny verify dfyconfig.toml` checks all of it.

* The multiplexer. Two sessions share one ordered connection; each has many streams with credit windows,
  half-close, abort and an open handshake. `StreamModel` and `SessionModel` say what each locked region does, on
  values; `Mux` holds the two classes that do it in place; `MuxSystem` is the step system of two sessions, in
  which what a goroutine took under a lock and has not yet sent is part of the state. `MuxTheorems`, `MuxBytes`,
  `MuxPipes`, `MuxSlots`, `MuxMemory` and `MuxFaults` hold the results; `MuxFlow`, `MuxInvariant`, `MuxLocal` and
  `MuxRemote` the invariant behind them.
* The wire formats: `Bytes`, `Frames` (with the `Codec` classes), `Writers` for concurrent writers, `Strings` and
  `Handshake`.
* Signed grants, from policy to dial: `Grants`, `Signing`, `Policy`, `Access`.
* The bridge's shared byte budget: `Bridge`.
* The control plane: `Identities` and `Renewal`, `GrantStore` and `Cascades`, `LiveStreams` and `Joining`,
  `Registry`, `Audit`.

Integers are unbounded, so each wrap and each truncating conversion of the original is written out. Ed25519 is a
pair of functions: that checking accepts what signing made is a hypothesis where it is used, and that nobody else
can make a signature is a guard on what a relay may present. Clocks, random identifiers, serial numbers, results of
reads and writes, and the result of the query for live sessions are parameters.

Some promises do not hold as stated, and the model keeps what the code does:

* Two conforming sessions do end each other on a fault when the agreed frame size is below the 22 bytes of
  `limit_streams_exceeded`; the handshake admits sizes from 1 (`MuxFaults.FaultFreeExactly`). Everything else about
  the pair is proved for all sizes.
* Credit is lost when a Write races a Close on the same stream (`MuxFaults.RaceLosesCredit`); the conservation law
  carries the bytes dropped as a term, which is zero with one sequential writer.
* The canonical encoding is not one-to-one from 65536 bytes per identifier on (`Grants.InjectiveExactlyBelow`).
* Writes and payloads of four gigabytes and more escape the window and the frame limit
  (`StreamModel.ChunkSizeExact`, `Codec.WriterAcceptsOnlyReadable`).
* A grant whose expiry asked for has a fraction of a second is refused before 30 s after that instant, because the
  fraction is cut before signing (`Signing.SignedWindowAsAsked`).
* Verification with an empty device name skips the device check (`Access.NamelessAgentTakesAnyDevice`).
* `EndAllForUser` says it ends every live session; the query behind it stops at 10000
  (`Cascades.EndsEverySessionExactly`). For an empty user id that query lists everybody's sessions
  (`Cascades.EndsOnlyTheUsersSessions`); this concerns the service method, since its only caller refuses an empty id
  (cmd/sar-server/main.go:504).
* Overlapping renewals can lock a peer out (`Renewal.OverlapSupersedes`).
* The denials listing says it makes three queries; it makes four, and that is what is modelled. It is the newest
  denials only for limits from 1 to 10000 (`Audit.ListingIsOneQueryExactly`).

## Model

| member | source | states |
|---|---|---|
| `Frames.HeaderRoundTrip` | internal/proto/frame.go:164-201 | A header written for any type, identifier and length is read back field for field; an unknown type is refused before an oversized length is |
| `Frames.FrameSequenceRoundTrip` | internal/proto/codec.go:52-132 | Reading the concatenated writes of any list of known-type frames within the limit yields exactly that list, then a clean end |
| `Frames.AcceptedFrameReencodes` | internal/proto/codec.go:52-83 | Every frame accepted is one a conforming writer may send, and re-encodes to exactly the bytes consumed |
| `Frames.TranscriptReencodes` | internal/proto/codec.go:52-83 | Whatever stops the reader, the bytes it consumed are exactly the encoding of the frames it delivered |
| `Frames.TornFrameIsNotRead` | internal/proto/codec.go:52-83 | A frame cut short at any byte delivers nothing, and the reader stops with the clean, truncated-header or truncated-payload end that fits the cut |
| `Frames.WindowRoundTrip` | internal/proto/handshake.go:224-243 | A credit is read back, except zero, which is refused |
| `Frames.ReasonsAccuseOnlyThePeer` | internal/proto/frame.go:136-159 | The reason is shutdown exactly for an end of stream, a truncated header or a transport failure, so the peer is never accused of those; ok exactly for a delivered frame; the frame limit exactly for an oversized one |
| `Codec.FillHeader` | internal/proto/frame.go:164-170 | Fills the first ten bytes of the caller's buffer with the header's encoding and leaves the rest alone |
| `Codec.Reader.ReadFrame` | internal/proto/codec.go:52-83 | Delivers exactly the front frame of the input through the reused buffer, keeps the rest of the input, reports a failed transport as such, and does not touch the payload buffer on a refused header |
| `Codec.Writer.WriteFrame` | internal/proto/codec.go:110-132 | Refuses exactly when the length, as a uint32, exceeds the limit, and then writes nothing; otherwise appends exactly one encoded frame, or the part of it a failing connection took, with an error exactly then |
| `Codec.ReadsUpToTheTruncatedLength` | internal/proto/codec.go:52-132 | For every frame of any length: refused for its type, refused by its truncated length, or read up to exactly that length with the rest of the payload left as what follows |
| `Codec.WriterAcceptsOnlyReadable` | internal/proto/codec.go:104-132 | What the writer accepts is what a reader with the same limit gets back, if and only if the payload is below four gigabytes or its truncated length is refused |
| `Codec.OversizedPayloadSlipsThrough` | internal/proto/codec.go:110-132 | An input of that kind: at exactly four gigabytes every limit passes the truncated length, and the reader takes the payload for what follows an empty frame |
| `Writers.WritersDoNotInterleave` | internal/proto/codec.go:85-132 | Under every interleaving of concurrent writers sharing one header buffer, on a connection that may fail inside any write: the wire holds whole frames in the order of their turns plus at most one part of a frame; each writer's frames keep that writer's order and none is lost before the failure; between turns a reader gets them all back, then a clean end, or exactly the truncated header or payload the failure left |
| `Strings.TakesWhatWasAppended` | internal/proto/handshake.go:246-270 | A string within the limit is read back, with whatever follows it |
| `Strings.TakenReencodes` | internal/proto/handshake.go:258-270 | What is read off re-encodes to the bytes it was read from |
| `Strings.AppendAllInjective` | internal/proto/handshake.go:246-251 | Below 65536 bytes the prefixes tell any two lists of strings, and what follows them, apart |
| `Strings.TakeFields` | internal/proto/grant.go:199-203 | The loop over the fields computes the recursive reading of n strings |
| `Handshake.HelloRoundTrip` | internal/proto/handshake.go:64-90 | A HELLO is read back exactly when its range is not inverted and its role is known |
| `Handshake.HelloIgnoresTheReservedByte` | internal/proto/handshake.go:57-90 | An accepted HELLO re-encodes to itself if and only if its reserved byte is zero |
| `Handshake.HelloAckRoundTrip` | internal/proto/handshake.go:109-146 | A HELLO_ACK is read back exactly when its limits are ones a session can be started with |
| `Handshake.HelloAckReencodes` | internal/proto/handshake.go:109-146 | Every accepted HELLO_ACK re-encodes to itself |
| `Handshake.AuthRoundTrip` | internal/proto/handshake.go:174-201 | An AUTH is read back exactly when its three strings are within the limit |
| `Handshake.AuthReencodes` | internal/proto/handshake.go:174-201 | Every accepted AUTH re-encodes to itself |
| `StreamModel.ChunkSizeExact` | internal/mux/stream.go:183-190 | A round of Write takes the least of what is left, the credit and the frame size, if and only if the truncation of the length to 32 bits is harmless |
| `StreamModel.HugeWriteEscapesTheWindow` | internal/mux/stream.go:183-191 | A write of four gigabytes goes out whole and costs no credit |
| `StreamModel.WriteRoundSendsSomething` | internal/mux/stream.go:161-199 | Every round of a Write under four gigabytes sends at least one byte, within credit and frame size, and debits exactly that |
| `StreamModel.DeliverBounded` | internal/mux/stream.go:267-283 | Delivery fails exactly on an open stream sent more than its receive window, otherwise appends the bytes, and keeps the stream within its window |
| `StreamModel.ReadConserves` | internal/mux/stream.go:128-139 | Reading moves bytes into batched or released credit without losing any, if and only if the batched credit does not wrap on what is read |
| `StreamModel.CreditNeverWraps` | internal/mux/stream.go:128-139 | Batched credit cannot wrap for any buffer the window admits, if and only if window and threshold together are at most 2^32 |
| `Mux.Stream.constructor` | internal/mux/stream.go:79-89 | A new stream has its whole window both ways and nothing buffered |
| `Mux.Stream.Read` | internal/mux/stream.go:109-150 | In place, the locked region of Read: bytes off the front of the buffer, the window reclaimed, credit batched or released; end of file only on an empty buffer after the peer's close |
| `Mux.Stream.TakeCredit` | internal/mux/stream.go:164-192 | In place, one locked round of Write: refusal order, chunk size, and credit debited before the chunk is sent |
| `Mux.Stream.Write` | internal/mux/stream.go:161-199 | Whatever is granted, delivered, read, closed, aborted or ended while it waits, and wherever the connection fails: non-empty chunks that fit the frame size and make up a prefix of the buffer, all of it exactly on success; it stops short only on an abort, a close, an exhausted window or a failed connection; undisturbed, it spends exactly what it sends, and one chunk more when the connection fails |
| `Mux.Stream.Abort` | internal/mux/stream.go:240-250 | In place: both directions closed, the buffer discarded, bounds kept |
| `Mux.Stream.Deliver` | internal/mux/stream.go:267-283 | In place: accepts unless the stream is open and the bytes exceed its window; changes nothing when it refuses |
| `Mux.Stream.GrantCredit` | internal/mux/stream.go:286-297 | In place: adds credit, saturating at the largest uint32 |
| `Mux.Stream.RemoteClose` | internal/mux/stream.go:300-318 | In place: an orderly close keeps what is buffered, any other reason discards it, and only the first close counts |
| `Mux.Stream.Kill` | internal/mux/stream.go:321-335 | In place: the end of the session closes both directions and keeps what is buffered |
| `Mux.Session.Open` | internal/mux/session.go:317-336 | In place, up to the frame it sends: refused when over or full, otherwise the next identifier of this side's parity is registered and awaited |
| `Mux.Session.FinishOpen` | internal/mux/session.go:343-349 | In place: a waiting Open with its answer succeeds exactly on ok, and otherwise retires its stream |
| `Mux.Session.CancelOpen` | internal/mux/session.go:338-353 | In place: an Open whose frame was not sent or whose caller gives up is forgotten and its stream retired |
| `Mux.Session.CompleteOpen` | internal/mux/session.go:597-610 | In place: answers a waiting Open once and no other |
| `Mux.Session.HandleOpen` | internal/mux/session.go:556-595 | In place: the order of refusals, registration, acknowledgement and queueing, with exactly the frames the model sends |
| `Mux.Session.Retire` | internal/mux/session.go:618-623 | In place: takes the stream off the table and the pending list |
| `Mux.Session.RetireIfDone` | internal/mux/session.go:625-629 | In place: retires exactly a finished stream |
| `Mux.Session.CloseStream` | internal/mux/stream.go:218-233 | In place: half-closes once, tells the peer unless the session is over, retires the stream exactly if it is then finished, and changes nothing else, also for a handle whose identifier has been reused |
| `Mux.Session.ResetStream` | internal/mux/stream.go:240-259 | In place: aborts once, tells the peer unless the session is over, retires, and changes nothing else |
| `Mux.Session.Dispatch` | internal/mux/session.go:484-553 | In place: every frame type leaves the state, the frames and the fault the model says, and keeps at most maxStreams streams registered, each within its window |
| `Mux.Session.Shutdown` | internal/mux/session.go:633-658 | In place, with its loop over the table: every registered stream killed, the table emptied, every waiting Open told, once |
| `Mux.Session.ReadLoop` | internal/mux/session.go:444-481 | The loop over any frames, then whatever stops the reading: the state and the frames sent are the fold of the value model, the session is over afterwards, and the bounds on streams and buffers hold throughout |
| `MuxMemory.MemoryBounded` | internal/mux/session.go:556-595 | Against every frame sequence the codec lets through, interleaved with any local calls: at most maxStreams registered streams, unread bytes plus receive window at most the window (equal until an abort), all buffering at most their product |
| `MuxMemory.ReceiveCountersNeverWrap` | internal/mux/stream.go:128-139 | In all those states, for windows up to 2^31, no receive counter passes 2^32 |
| `MuxInvariant.IdsCollide` | internal/mux/session.go:327-328 | Two opens of one side use the same identifier if and only if they are a multiple of 2^31 opens apart |
| `MuxTheorems.CreditConserved` | internal/mux/stream.go:109-199 | In every reachable state of two sessions, for every configuration the handshake admits and a stream in both tables that its reader has not aborted: send window, data debited, in flight and unread, credit batched, taken and in flight, and bytes dropped after the close add up to the initial window |
| `MuxTheorems.NoFault` | internal/mux/session.go:444-595 | No run of two conforming sessions ends in a protocol fault, given a frame size of at least 22 and callers that keep payloads and reasons within it |
| `MuxTheorems.FaultsExactlyOnSize` | internal/mux/session.go:459-465 | For every configuration the handshake admits: in every reachable state the next frame faults the session that takes it in if and only if it is larger than agreed |
| `MuxFaults.FaultFreeExactly` | internal/mux/session.go:569-574 | For every configuration the handshake admits, conforming sessions whose callers keep to the agreed frame size never end each other on a fault if and only if that size holds the 22-byte refusal of a stream |
| `MuxFaults.RaceLosesCredit` | internal/mux/stream.go:161-233 | For every configuration the handshake admits, a Write that races a Close on one stream can leave it one unit of credit short at both live ends |
| `MuxTheorems.NoStall` | internal/mux/session.go:108-117 | In every reachable state, a writer blocked at zero credit means data or credit is under way or the reader has unread bytes |
| `MuxBytes.BytesConserved` | internal/mux/stream.go:109-199 | In every reachable state every byte written is returned, buffered, in flight, or dropped because it came after the close |
| `MuxPipes.ReadsAreAPrefix` | internal/mux/stream.go:109-150 | With one sequential writer per direction, what is read on a stream is a prefix of what was written to it at the other end, and end of file comes only when all of it has been read |
| `MuxPipes.NothingComesLate` | internal/mux/stream.go:161-233 | With one sequential writer per direction nothing is dropped after a close, so the conservation law has no such term |
| `MuxPipes.RefinesPipes` | internal/mux/session.go:484-553 | With sequential writers every step of the two sessions is, for each stream and direction, a step of one independent pipe with a closed flag: nothing is written once it is closed, only its own close, abort or end of session, or an arriving frame, closes it, for good, and end of stream is seen only when it is closed and all of it has been read |
| `MuxSlots.SlotsNeverLeak` | internal/mux/session.go:556-629 | At a live session, for every configuration the handshake admits, whatever its callers do and whatever frames its peer sends short of opening an identifier twice: at most maxStreams registered; a finished stream still registered has somebody about to retire it, and with no call under way there is none; pending identifiers are registered and of this side's parity; the next identifier is unused for fewer than 2^31 opens |
| `MuxSlots.PairsNeverLeak` | internal/mux/session.go:556-629 | The same at both ends of every run of two conforming sessions, which never open an identifier twice |
| `Grants.GrantRoundTrip` | internal/proto/grant.go:171-216 | Decoding undoes encoding exactly for the grants the format can carry: this version, identifiers up to 128 bytes, whole seconds, a 64-byte signature |
| `Grants.AcceptedGrantReencodes` | internal/proto/grant.go:184-216 | Every byte string accepted re-encodes to itself, and its canonical bytes are exactly those before the signature |
| `Grants.AcceptsExactlyEncodings` | internal/proto/grant.go:184-216 | A byte string is accepted if and only if it is the encoding of such a grant |
| `Grants.Decode` | internal/proto/grant.go:184-216 | The decoder with its loop computes the decoding function |
| `Grants.CanonicalInjective` | internal/proto/grant.go:126-139 | For identifiers under 65536 bytes, two grants have the same canonical bytes if and only if they agree on every field, times to the second |
| `Grants.LongIdentifiersCollide` | internal/proto/grant.go:126-139 | Two different grants with a 65536-byte identifier and the same canonical bytes |
| `Grants.InjectiveExactlyBelow` | internal/proto/grant.go:126-139 | A bound on identifiers makes the encoding one-to-one if and only if it is below 65536 |
| `Signing.SignedVerifiesExactlyInItsWindow` | internal/proto/grant.go:146-258 | What Sign accepts verifies on its own device exactly from 30 s before its issue to 30 s after its expiry, and is otherwise not yet valid or expired |
| `Signing.SignedWindowAsAsked` | internal/proto/grant.go:146-167 | The same in terms of the times asked for: the last instant is reached exactly when the expiry asked for is a whole second |
| `Signing.SignedShape` | internal/proto/grant.go:146-167 | Signing keeps every field, cuts both times to the second, and the lifetime still meets the ceiling |
| `Signing.SignedSurvivesTheWire` | internal/proto/grant.go:146-216 | A signed grant with identifiers up to 128 bytes decodes to itself after encoding |
| `Signing.AcceptanceIsShort` | internal/proto/grant.go:224-258 | No grant is accepted at two instants more than the ceiling and two tolerances apart, on any devices |
| `Signing.RemainingIsShort` | internal/proto/grant.go:262-268 | What remains of an accepted grant is at most the ceiling and one tolerance, and nothing exactly from its expiry on |
| `Signing.ReasonsTellApart` | internal/proto/grant.go:92-111 | The reason is ok exactly when there was no failure, and tells failures apart exactly when one of them is about time or device |
| `Policy.Contains` | internal/control/policy/policy.go:144-151 | Exact membership |
| `Policy.Evaluate` | internal/control/policy/policy.go:104-139 | The loop computes the decision function |
| `Policy.DecideExactly` | internal/control/policy/policy.go:104-139 | Allowed if and only if the request names all three and some allow rule names all three; the decision is then that of the first rule attaining the greatest clamped lifetime, otherwise the denial |
| `Policy.MoreRulesNeverTakeAway` | internal/control/policy/policy.go:104-139 | Adding rules never removes or shortens access |
| `Policy.OrderIsIrrelevant` | internal/control/policy/policy.go:104-139 | No permutation of the rules changes whether, how long and why; only which rule is named |
| `Policy.TiesNameTheFirst` | internal/control/policy/policy.go:134-136 | For all rules: the rule named is the first that attains the greatest clamped lifetime |
| `Policy.TiesDependOnOrder` | internal/control/policy/policy.go:134-136 | Swapping two tied rules changes the decision if and only if they have different names |
| `Access.IssueExactly` | internal/control/grants/grants.go:117-148 | A grant is issued if and only if policy allows and an identifier was made; it is for exactly what was asked, and lasts exactly as long as was requested, or as the best rule allows if that is shorter or nothing was requested, to the second and within the ceiling |
| `Access.IssuedIsOnRecord` | internal/control/grants/grants.go:117-210 | A grant is handed out if and only if policy allows, an identifier was made and its row could be recorded; then exactly one row and one creation event were added, equal to the grant field for field; otherwise no grant row changes, and one denial event is added exactly for a denial |
| `Access.IssuedGrantIsAdmitted` | internal/agent/agent.go:437-520 | A grant straight from the issuer, presented unchanged to its own device for a resource it serves by the user it names, is admitted if and only if the time is inside its window, with all it grants |
| `Access.RelayRefusesWhatTheAgentWould` | internal/relay/relay.go:482-555 | At the same instant, for a resource the agent serves, and whether the store is configured, fails, does not know the grant or knows it: the relay forwards exactly what is not known to be revoked and what the named agent would admit from that user |
| `Access.LoadAllowlist` | internal/agent/resources.go:84-150 | Loads if and only if something is declared, all of it valid, no identifier twice; then holds exactly what was declared under its own identifiers |
| `Access.AdmissionsAreAuthorized` | internal/agent/agent.go:437-520 | Under an arbitrary relay, with unforgeable signatures: every stream admitted carries a grant equal field for field to one already issued then, after policy allowed that user, device and resource; on this device, inside its window, for an allowlisted target that passes the target check, and the far end proved to be its user |
| `Access.NamelessAgentTakesAnyDevice` | internal/proto/grant.go:250-256 | A valid grant is admitted if and only if the agent has no name of its own or the grant names it |
| `Access.SmallerLimitIsBoth` | internal/agent/agent.go:599-610 | The combined cap admits exactly what both caps admit, zero meaning none |
| `Access.DeadlineIsBoth` | internal/agent/agent.go:486-492 | A session lasts exactly as long as both what remains of the grant and the resource's own limit allow |
| `Bridge.BudgetNeverExceeded` | internal/bridge/bridge.go:84-229 | Under every interleaving with a cap: reservations equal the counter and stay within the cap, deliveries within reservations, and each destination holds a prefix of its source |
| `Bridge.ExhaustionIsExact` | internal/bridge/bridge.go:112-134 | Exhaustion is reported only with the whole cap reserved, and then exactly the cap is delivered but for what a failed last write lost |
| `Bridge.UnlimitedIsNeverCut` | internal/bridge/bridge.go:115-117 | A cap of zero never cuts |
| `Bridge.RetriesArePaidFor` | internal/bridge/bridge.go:118-132 | A compare-and-swap fails only if the counter has strictly grown, and a copier retries at most once per reservation of the other |
| `Bridge.CleanEndDeliversAll` | internal/bridge/bridge.go:197-229 | A direction that ends cleanly delivered all it read |
| `Bridge.JoinReportsTruly` | internal/bridge/bridge.go:136-187 | Counts are the bytes delivered; no error if and only if both ended cleanly, otherwise the way one of them ended; both sides are torn down exactly for directions that did not end cleanly |
| `Bridge.Budget.Take` | internal/bridge/bridge.go:113-134 | The compare-and-swap loop, whatever the other copier reserves in between: never more than wanted, less only when the cap is exhausted, the counter accounted for, and a retry only where the other reserved something |
| `Bridge.Budget.CopyOneWay` | internal/bridge/bridge.go:197-229 | The copy loop: a prefix of the source reaches the destination, all of it on a clean end; a cut only with the whole cap reserved; what is delivered was reserved |
| `Identities.Store.RecordToken` | internal/storage/identities.go:62-74 | In place: a token written again keeps its consumption |
| `Identities.Store.UseToken` | internal/storage/identities.go:86-142 | In place: unknown, consumed and expired in that order, otherwise consumed |
| `Identities.Store.SetPending` | internal/storage/identities.go:178-198 | In place: a pending serial beside the current one, for a live identity only |
| `Identities.Store.PromoteSerial` | internal/storage/identities.go:206-216 | In place: promotes exactly the serial still pending on a live identity |
| `Identities.Store.MarkRevoked` | internal/storage/identities.go:261-282 | In place: revokes, and twice is not an error |
| `Identities.Service.EnrollPeer` | internal/control/enrollment/enrollment.go:133-177 | In place, with anything done by others between its two statements: the token is spent before anything can fail, the identity comes from the token |
| `Identities.Service.VerifyPeer` | internal/control/enrollment/enrollment.go:196-228 | In place, with anything done by others between its two statements: accepts the current serial, accepts and promotes the pending one, refuses any other |
| `Identities.Service.RenewPeer` | internal/control/enrollment/enrollment.go:243-279 | In place, with anything done by others between its three statements: verifies as any connection, then records the new serial as pending |
| `Identities.AtMostTwoSerials` | internal/control/enrollment/enrollment.go:196-228 | At most two serials of an identity are accepted at once |
| `Identities.VerifiedBecomesCurrent` | internal/control/enrollment/enrollment.go:196-228 | A verified serial is current afterwards, nothing becomes acceptable by it, and first use of a renewal leaves it the only one |
| `Identities.SplitVerification` | internal/control/enrollment/enrollment.go:202-220 | With lookup and promotion as two statements and anything in between: a certificate is accepted if and only if it was acceptable at its lookup, the promotion makes nothing acceptable that was not, and a certificate no longer acceptable by then changes nothing |
| `Identities.Undisturbed` | internal/control/enrollment/enrollment.go:133-279 | With nothing in between, the statements make up the one-step forms that the runs are made of |
| `Identities.SplitRenewal` | internal/control/enrollment/enrollment.go:243-279 | With anything between its three statements: a renewal made with a certificate that was not acceptable at its lookup changes nothing, and any other makes nothing acceptable but the serial it records |
| `Renewal.LastStoredIsAccepted` | internal/control/enrollment/enrollment.go:133-279 | After any run of renewals, lost or completed one at a time, the last certificate a peer stored since enrolling is accepted if and only if its identity is not revoked |
| `Renewal.RetiredStaysRetired` | internal/control/enrollment/enrollment.go:196-279 | An issued serial that is not accepted is not accepted at any later point of any run, whatever certificates renewals are made with |
| `Renewal.TokenEnrollsAtMostOnce` | internal/storage/identities.go:62-142 | Each token enrolls at most once in any run, even if it is minted again |
| `Renewal.OverlapSupersedes` | internal/control/enrollment/enrollment.go:243-279 | A second renewal leaves the certificate offered by the first accepted if and only if it was authenticated by that certificate |
| `Renewal.OverlapLocksOut` | internal/control/enrollment/enrollment.go:243-279 | Two overlapping renewals after which the certificate stored is refused |
| `GrantStore.Store.RevokeGrantsWhere` | internal/storage/grants.go:274-359 | In place, with its loops: selects, stamps and leaves one event for exactly the live grants in scope, and returns them as they then stand |
| `GrantStore.Store.EndSession` | internal/control/login/login.go:156-189 | In place: ends a session once, then its live grants |
| `GrantStore.Store.EndAllForUser` | internal/control/login/login.go:194-220 | In place, with its loop: ends each listed session, then revokes what grants the user still has; a failure on the way returns what was revoked so far |
| `Cascades.CascadeTracks` | internal/storage/grants.go:274-359 | A cascade changes rows only by revoking them, and the list it returns names each row revoked exactly once and no other |
| `Cascades.EndAllIsComplete` | internal/control/login/login.go:194-220 | On success no grant of the user is left unrevoked and unexpired; whether or not it succeeds, only grants of the user or of the listed sessions changed, and the list names each newly revoked grant exactly once |
| `Cascades.EndsEverySessionExactly` | internal/storage/sessions.go:182-236 | Every live session the listing is for is ended if and only if there are at most 10000 |
| `Cascades.EndsOnlyTheUsersSessions` | internal/storage/sessions.go:182-236 | Only sessions of the user are changed if and only if the user is named or every listed session has no user: an empty user id lists everybody's |
| `Cascades.OneEventPerRevocation` | internal/storage/grants.go:126-184 | After every run of these transactions whose callers name revocations so and nothing else, a grant has one revocation event if it is revoked, and none otherwise |
| `Cascades.CascadeAccountedExactly` | internal/storage/grants.go:274-359 | A cascade keeps that account if and only if its caller names its events revocations or it revokes nothing |
| `Cascades.OneAccountedExactly` | internal/storage/grants.go:126-184 | A single revocation keeps that account if and only if its caller names its event a revocation or the grant was revoked already |
| `LiveStreams.Live.Add` | internal/relay/authorization/authorization.go:98-113 | In place: a fresh identifier under its grant, nothing without a grant |
| `LiveStreams.Live.Release` | internal/relay/authorization/authorization.go:115-125 | In place: removes exactly that stream, and an inner map it leaves empty |
| `LiveStreams.Live.Terminate` | internal/relay/authorization/authorization.go:138-158 | In place, with its loops: drops exactly these grants, resets both ends of every stream under them and no other end, and reports exactly how many there were |
| `LiveStreams.Live.Count` | internal/relay/authorization/authorization.go:169-178 | The loop counts all registered streams |
| `Joining.RegisterIsExact` | internal/relay/authorization/authorization.go:98-158 | In every reachable state the register is exactly the streams added and neither released nor terminated, with no empty inner map |
| `Joining.CountedOnce` | internal/relay/authorization/authorization.go:138-158 | Each stream is counted by at most one termination |
| `Joining.TerminationReachesAll` | internal/relay/relay.go:194-200 | Every stream registered under a grant when it is terminated is, from then on, taken by that termination and by no other; once that termination has done its resets both ends of exactly that pair have been reset |
| `Joining.NothingRunsOn` | internal/relay/authorization/authorization.go:138-158 | No stream registered under the grants of a termination before it is running after it |
| `Joining.LateJoinersWereChecked` | internal/relay/relay.go:529-585 | Whatever runs under a revoked and swept grant was registered after the sweep, and its check finished before the commit or failed with an error |
| `Joining.LateJoinerExists` | internal/relay/relay.go:529-585 | Such a late joiner does exist |
| `Registry.Connected.Add` | internal/relay/sessions/registry.go:40-47 | In place: the new session replaces the old, which is handed back |
| `Registry.Connected.Remove` | internal/relay/sessions/registry.go:54-61 | In place: removes a session only if it is the one registered |
| `Registry.Connected.Get` | internal/relay/sessions/registry.go:67-82 | In place: an ended session is absent, and is removed |
| `Registry.LookupFindsTheLatest` | internal/relay/sessions/registry.go:33-82 | In every run a lookup finds exactly the last session to connect for the device, if it has not ended; only sessions since taken over are handed back to be closed |
| `Audit.SortBySeqDesc` | cmd/sar-server/admin.go:379-385 | In place on the array: the insertion sort computes the sorting function |
| `Audit.SortedSorts` | cmd/sar-server/admin.go:379-385 | Sorting rows with distinct sequence numbers keeps exactly those rows, strictly newest first |
| `Audit.ListDenials` | cmd/sar-server/admin.go:72-95 | The queries, the concatenation, the sort and the cut, panicking exactly on a negative limit; for limits from 1 to 10000 the newest rows over all denial events |
| `Audit.NewestAre` | internal/storage/audit.go:142-212 | A query returns only matching rows of the trail, strictly newest first, within its limit |
| `Audit.NewestComeFirst` | internal/storage/audit.go:142-212 | A matching row a query leaves out is older than every row it returns, and only a full result leaves one out |
| `Audit.ListingIsOneQuery` | cmd/sar-server/admin.go:72-95 | For every limit from 1 to 10000 the listing equals one query over all denial events |
| `Audit.ListingIsOneQueryExactly` | cmd/sar-server/admin.go:72-95 | The listing equals one query on every trail and filter if and only if the limit is from 1 to 10000 |
| `Audit.DenialsDiffer` | cmd/sar-server/admin.go:78-83 | The four denial events are different names, as the listing needs |

## Left out

- TLS, X.509, PEM, certificate requests and Ed25519 itself: library code; a completed inner handshake is a predicate saying whom the far end proves to be.
- Files, SQL text, migrations and legacy import: tables are maps or sequences, and a transaction is one step.
- Failures of the database other than a missing or duplicate row: a transaction that fails changes nothing, and no issuing without a store.
- Keepalive, deadlines, goroutine scheduling and reconnecting: a session may end at any step, for any reason.
- HTTP handlers, command lines, logging, the Windows service and the installer: input and output.
- `internal/backoff`, `internal/netwatch`, counts and status listings: when to dial again and what to show; nothing above depends on either.
- `AuthOK`, `Role.String`, and reason codes beyond those the modelled code sends: an empty payload and fixed names, which no decision above reads.
- Pruning of the audit trail: the event counts are for runs without it.
- The waits on condition variables: the classes return where the original blocks, and the step system lets any goroutine go on when it can; `Mux.Stream.Write` takes what happens during its waits as a parameter, and Open is its parts before and after its wait.
- Errors of frame writes inside a session: in the step system a frame is lost only once its session is over, and the session class writes to a connection that accepts everything; failing connections are in `Codec` and `Writers`.
- Time beyond what a 64-bit count of seconds holds, and the wrap of the time package's internal count near its ends.
- Bridge: its two goroutines together are a step system; the class runs one copier, with the other as a parameter; which connection is reset or half-closed is recorded by direction only.
- Joining: streams are the handles of their two ends, and resetting a handle is one step that always succeeds.
- The text of a target: `net.SplitHostPort` and `net.ParseIP` are library code, so that a target is a literal loopback address with a port is a predicate on its text (internal/agent/agent.go:171-190).
- Reuse of stream identifiers by a peer, which docs/protocol.md:89 rules out: `MuxSlots.SlotsNeverLeak` is for peers that keep to it, `MuxMemory.MemoryBounded` for all.
- Payloads and reasons larger than the codec's writer takes: in the step system callers do not pass them.
- Renewal: each call of the service is one step of a run; between its statements only `Identities.SplitVerification` and `Identities.SplitRenewal` are claimed.
- Renewal.LastStoredIsAccepted: is for renewals each made with the certificate stored last; overlapping ones are `Renewal.OverlapSupersedes`.
- Cascades.OneEventPerRevocation: is for callers that name the events of revocations so, as all do; `Cascades.CascadeAccountedExactly` and `Cascades.OneAccountedExactly` say what happens otherwise.
