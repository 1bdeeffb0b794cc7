# WeSync, modelled and proved in Dafny

WeSync is a control plane around Syncthing. Devices find each other on the network, agree on whom they trust, share
folders, and decide when Syncthing may run on a phone. This project models the state machines, protocols and codecs
behind that, and proves what holds of them over every input, every run and every order of messages.

`dafny verify dfyconfig.toml` checks the whole project. Each module follows one component:

- `TrustState`, `TrustHandlers`, `TrustProtocol`: a node's trust maps, its handlers, and every run of the protocol
  between any number of nodes. A run mixes user actions, connections coming up, reconciles with whatever device list
  Syncthing may report, restarts, and packets delivered in any order or lost.
- `Base32`, `Luhn`, `DeviceIds`: the device-ID codec, from 32 hash bytes to 56 hyphenated characters and back.
- `RateLimiter`: the fixed-window limiter and what whole traces of it can observe.
- `GateDecision`, `Gate`, `GateRuns`, `GateInterleaving`: the Android power gate: its decision, its fields and loop,
  every run against a clock, and the loop in small steps with inputs arriving in between.
- `PeerHub`, `PeerOffers`: the table of outbound connections, with real objects on the heap, and the queued offers.
- `StallTracker`, `Discovery`, `WorkQueues`: caches and queues kept incrementally, proved equal to a definition by
  history, or to lose nothing.
- `FolderConfig`, `FolderMembership`: one node's part in folder membership, and every run across any number of nodes.
- `Schedule`, `ConflictNames`, `NetworkList`: the daily schedule, conflict-file names, and the device list.
- `Options`, `InFlight`: a value that may be missing, and packets in flight.

Code that updates fields is a class whose methods are proved against functions on values; the results over whole runs
are lemmas about these functions. The table lists the methods whose contract says more than one assignment. A handler
is one atomic step except in `GateInterleaving`, and in `Discovery` the consumer acts in the middle of a tick. Clocks,
SHA-256, the Syncthing device list, probe results and the name comparison of the list are parameters. Times are
integers in nanoseconds (milliseconds in `Schedule`).

## What the proofs found

- Removing a device heals after lost messages exactly when the remover still holds the removal and the other side had
  heard that the trust was mutual (`OfflineRemovalHealsIff`). It fails in two ways. A device that was still waiting for
  an answer goes on trusting the remover through every reconnection (`UnconfirmedTrustIsStuck`, `StuckIsReachable`).
  And a remover that restarts forgets the removal, which it holds in memory only (`RestartForgetsTheRemoval`).
- Two nodes that have removed each other may be left at rest with an incoming request between them, exactly when one is
  shown already or a confirmation is still in flight (`PhantomIff`, `PhantomRequest`). It goes when the other side next
  connects (`GreetingTellsTheTruth`).
- The gate reads the clock several times in an iteration. It loses its wake-up exactly when no kick is queued, every
  deadline has passed by the last read, and the process is not as the foreground wants it (`LostWakeUpIff`). That
  happens when the last deadline falls between the decision and the ticker (`TwoClockReadsIff`, `LostWakeUp`), and when
  a start fails in the foreground with no session open: nothing tries it again (`FailureIsForgottenIff`).
- `adoptConn` replaces a down entry without closing it. This is the only way an open connection leaves the table, and
  `DisconnectAll` does not reach such a connection (`AdoptConn`, `OrphanOutlivesDisconnectAll`).
  If another device takes over its address, its handshake moves the connection that replaced it to the other device's
  ID (`IdentityVerified`, `OrphanMovesItsReplacement`).
- The limiter lets at most 2 * limit - 1 calls through in any interval of one window, and that bound is reached. A
  limit below 1 still lets one call through per window (`QuotaIsExact`).
- A removal from a folder that is overtaken by its sender's own leaving is rejected, and the removed device stays
  listed there (`OvertakenRemoval`). In general a third device forgets the removed one exactly when it heeds the
  sender at that moment (`ThirdPartyForgetsIff`).
- A comment at internal/certid/certid.go:41 says the decoder yields 35 bytes. 52 base32 characters yield exactly 32,
  and four bits of the last character are ignored; the model follows the code.
- A change of device ID in its check characters alone is not noticed by the code (`SameHashIff`), although the check
  characters would detect every single wrong character and every swap of neighbours but A and 7.

## Model

| member | source | states |
|---|---|---|
| TrustState.State.Trust | internal/node/state.go:187-192 | Trusting an id also clears its removal mark; the two sets stay disjoint. |
| TrustState.State.Untrust | internal/node/state.go:195-201 | Removing an id takes it out of both trust sets and marks it removed; the sets stay disjoint. |
| TrustState.State.OnPeerTrustSignal | internal/node/state.go:381-398 | A signal changes only what the peer says of us. Reassert is asked for exactly when a removed peer says true; dismiss exactly when the peer withdraws a trust we had heard of; cascade exactly when in that case we also trusted it. |
| TrustState.State.ReconcileTrust | internal/node/state.go:404-439 | After the loop over Syncthing's devices exactly the listed ids that are neither us, trusted nor removed are newly trusted, the introduced ones mutually; every peer without a name has the first one listed for it; the ids returned are the removed ones still listed; trusted and removed stay disjoint. |
| TrustState.ReconcileAdmits | internal/node/state.go:413-424 | Id by id: trusted afterwards exactly what was, and what is listed, not ourselves and not removed; mutual exactly what was, and what is newly trusted and introduced; removals stay. |
| TrustState.FirstNameCounts | internal/node/state.go:425-431 | An id without a name gets the first non-empty name listed for it. |
| TrustHandlers.Handlers.HandleTrusted | internal/api/peers.go:69-96 | What a peer's trust bit does to the node: nothing for an empty or own id; a removed peer that says true is answered false; a peer that takes its trust back has its request dismissed, and if the trust was mutual it is untrusted and told so. |
| TrustHandlers.Handlers.HandleCancelled | internal/api/pairing.go:38-50 | Cancelled from a trusted peer untrusts it and answers false; from any other peer it only clears its request and does not mark it removed; either way the request is dismissed. |
| TrustHandlers.Handlers.HandleAccepted | internal/api/pairing.go:23-34 | Accepted makes the sender trusted, once, and sends nothing. |
| TrustHandlers.Handlers.Pair | internal/api/pairing.go:93-106 | Pairing trusts the peer and greets it with true; pairing again does nothing. |
| TrustHandlers.Handlers.Delete | internal/api/pairing.go:150-163 | Deleting a device untrusts it and sends false and Cancelled, in this order. |
| TrustHandlers.Handlers.Dispatch | internal/peerwire/hub.go:631-655 | A packet reaches the handler of its kind; a Hello without a trust bit reaches none. |
| TrustHandlers.Handlers.SendHello | internal/peerwire/conn.go:331-365 | The greeting on a new connection carries true for a trusted peer, false only for an explicitly removed one, and no bit before the connection has the peer's identity. |
| TrustHandlers.Handlers.constructor | internal/api/handlers.go:150-160 | At start exactly the devices configured in Syncthing, without ourselves, are trusted and nobody is removed. |
| TrustHandlers.ReactToCancelled | internal/api/pairing.go:38-50 | A Cancelled clears the sender's request. An untrusted sender is neither removed nor answered; a trusted one is untrusted, removed and answered with false. |
| TrustHandlers.ReactToHelloTrue | internal/node/state.go:385-389 | A peer that says true is believed, changes neither our trust nor our removals, and is answered with false exactly if it was removed. |
| TrustHandlers.ReactToHelloFalse | internal/node/state.go:390-397 | A peer that says false is believed; it is untrusted, removed and answered exactly if the trust was mutual, and its request is dismissed exactly if it had trusted us, trusted by us or not. |
| TrustHandlers.ReactToAccepted | internal/api/pairing.go:23-34 | An acceptance makes the sender trusted and not removed, says nothing of its own trust, and is not answered. |
| TrustHandlers.PairingRenews | internal/api/pairing.go:93-106 | Pairing with any device, also one removed before, trusts it, forgets the removal and greets it with true; the second time it does nothing. |
| TrustHandlers.DeletionForgets | internal/api/pairing.go:150-163 | Deleting takes the device out of both trust sets, marks it removed, and sends false and then Cancelled. |
| TrustHandlers.GreetingIsHonest | internal/peerwire/conn.go:331-351 | A greeting says true exactly for a known trusted peer and false exactly for a known removed one. |
| TrustProtocol.RunKeepsWellFormed | internal/node/state.go:187-201 | In every reachable state of every run, with any number of nodes, no node trusts an id it has explicitly removed. |
| TrustProtocol.WithdrawalNeedsARemoval | internal/peerwire/conn.go:331-351 | A removal mark between two nodes, or a false or Cancelled in flight between them, exists only after a user of one of the two deleted the other. |
| TrustProtocol.UntrustNeedsARemoval | internal/api/pairing.go:150-163 | In every run a node stops trusting a peer only if a user of one of the two deleted the other before, or the node restarted without finding the peer configured. Stale, reordered and lost messages, reconciles and connections that are not adopted yet cannot do it. |
| TrustProtocol.ReturnFromRemoval | internal/node/state.go:404-424 | A removed id becomes trusted again only through pairing, the peer's acceptance or a restart, never through a reconcile or a Hello. |
| TrustProtocol.RemovalHasACause | internal/api/pairing.go:44-49 | In every run a node comes to hold a removal mark only if its own user deleted the peer or it trusted the peer at some point: strangers that ask and take their request back are never removed. |
| TrustProtocol.RequestAfterCancellation | internal/api/pairing.go:44-49 | A request taken back and made again is shown again and not refused. |
| TrustProtocol.SeveringStep | internal/api/pairing.go:38-49 | Every step that does not deliberately renew the trust, and does not lose the Cancelled, keeps a removal on its way. |
| TrustProtocol.RemovalConverges | internal/api/pairing.go:150-163 | After a deletes b, in every delivery order, with stale Hellos and reconciles at any time, as soon as the Cancelled is no longer in flight neither trusts the other and both remember the removal. |
| TrustProtocol.RemovalSettles | internal/api/pairing.go:150-163 | Left to themselves after a deletes b, the nodes come to rest after a bounded number of deliveries in any order, and at rest neither of the two trusts the other. |
| TrustProtocol.OfflineRemovalHeals | internal/peerwire/conn.go:317-330 | If every message about the removal of a mutually trusted peer may be lost, one later greeting from the remover that arrives completes the removal on both sides. |
| TrustProtocol.OfflineRemovalHealsIff | internal/api/peers.go:69-96 | Whatever was lost, a later greeting makes the peer drop its trust exactly when the sender still holds the removal and the peer had heard that the trust was mutual. |
| TrustProtocol.RestartForgetsTheRemoval | internal/api/handlers.go:150-160 | For any two nodes: a removal whose messages are lost and whose remover restarts leaves the other side trusting, in a state the next greeting does not change. |
| TrustProtocol.UnconfirmedTrustIsStuck | internal/node/state.go:389-397 | A peer that was still waiting for an answer, and whose Cancelled was lost, goes on trusting the remover through every reconnection, reconcile and loss until a user acts. |
| TrustProtocol.StuckIsReachable | internal/api/pairing.go:159-163 | A concrete run reaches that state. |
| TrustProtocol.PairingConverges | internal/peerwire/hub.go:434-461 | Two nodes that paired, with nothing in flight that withdraws trust, count the trust as mutual once the other's Hello has arrived, and go on doing so whatever else happens. |
| TrustProtocol.PairingBothWaysConfirms | internal/api/pairing.go:93-106 | Pairing on both sides leads to such a state for both. |
| TrustProtocol.PhantomIff | internal/node/state.go:385-389 | Between any two nodes that removed each other, a run without renewal can end at rest with a request shown exactly when one is shown already or a confirmation is still in flight. |
| TrustProtocol.PhantomRequest | internal/node/state.go:385-389 | A run of mere deliveries from mutual trust to such a request. |
| TrustProtocol.GreetingTellsTheTruth | internal/peerwire/conn.go:331-351 | The next greeting that arrives sets the receiver right, whatever it had come to believe: trust is recorded, a removal clears the request, no decision changes nothing. |
| TrustProtocol.AnonymousGreetingIsIgnored | internal/peerwire/conn.go:349-351 | A greeting before the peer is known changes nothing at its receiver and is not answered. |
| TrustProtocol.ReactionPaysForItself | internal/api/peers.go:69-96 | Every handler answers with messages of smaller weight than it consumed, or uses up one pair of nodes that had not removed each other, or handles an acceptance and sends nothing. |
| TrustProtocol.CascadeTerminates | internal/api/peers.go:78-94 | In every run the number of deliveries plus the final potential is at most the initial potential plus a constant for each user or connection step: message handling cannot feed itself. |
| Base32.AlphabetSearch | internal/certid/certid.go:96 | Searching the alphabet string for a character gives its value, and -1 exactly for characters outside it. |
| Base32.DecodeEncodeQuanta | internal/certid/certid.go:72 | Base32 of section 6 of RFC 4648: decoding the encoding of any whole number of quanta gives the bytes back. |
| Base32.EncodeDecodeQuanta | internal/certid/certid.go:42 | Encoding the decoding of any whole number of quanta gives the digits back. |
| Base32.CodecInverse | internal/certid/certid.go:40-50 | 52 digits decode to a hash exactly when the hash encodes to them with the four spare bits of the last digit cleared. |
| Base32.EncodeMeansTheSameNumber | internal/certid/certid.go:71-72 | The 52 digits read in base 32 are the 32 bytes read in base 256 followed by four zero bits. |
| Luhn.Luhn32 | internal/certid/certid.go:92-109 | The loop with alternating factors computes the check character of the Luhn sum for any string, characters outside the alphabet counting as -1 under Go's truncating division; over the alphabet it is the check digit of the codes. |
| Luhn.PlaceCounts | internal/certid/certid.go:93-104 | At every place the digit counts itself at even distance from the right end, and the digit sum of its double at odd distance: replacing it by 0 shifts the check digit by exactly that. |
| Luhn.LastDigitsCount | internal/certid/certid.go:93-104 | In particular the last digit counts once and the one before it as its double. |
| Luhn.CheckDigitBalances | internal/certid/certid.go:106-108 | Sum and check digit together are a multiple of 32. |
| Luhn.SingleErrorDetected | internal/certid/certid.go:92-109 | Replacing one character keeps the check character exactly when it is replaced by itself, in blocks of any length. |
| Luhn.TranspositionDetected | internal/certid/certid.go:92-109 | Swapping two neighbours keeps the check character exactly when they are equal or are the pair A and 7. |
| Luhn.Luhnify | internal/certid/certid.go:82-90 | The loop puts a check character after each of the four blocks. |
| DeviceIds.DeviceIDFromHash | internal/certid/certid.go:70-79 | The loop over eight groups builds the hyphenated ID of the hash. |
| DeviceIds.DataOfLuhnified | internal/certid/certid.go:39-40 | Leaving out positions 13, 27, 41 and 55 undoes the insertion of check characters. |
| DeviceIds.CheckCharacters | internal/certid/certid.go:82-90 | Each fourteenth character of a compact ID is the check character of the thirteen before it. |
| DeviceIds.FormOfDeviceID | internal/certid/certid.go:74-78 | An ID has 63 characters, a hyphen at every eighth place and the compact form in between. |
| DeviceIds.OnlyHyphensGo | internal/certid/certid.go:35 | Removing hyphens removes all of them and nothing else. |
| DeviceIds.RoundTrip | internal/certid/certid.go:34-52 | Reading any spelling of a hash's ID, in hyphens and letter case, gives the hash. |
| DeviceIds.RoundTripSpellings | internal/certid/certid.go:34-52 | The ID as built, without hyphens, in lower case and both are such spellings. |
| DeviceIds.AnySpellingIsRead | internal/certid/certid.go:34-52 | Any mixture of letter case, with hyphens anywhere or nowhere, is read as the hash. |
| DeviceIds.DeviceIDInjective | internal/certid/certid.go:70-79 | Two hashes have the same ID exactly when they are equal. |
| DeviceIds.MatchesCertIff | internal/certid/certid.go:61-67 | The ID of one certificate matches another exactly when their hashes are equal; it is never an error. |
| DeviceIds.MatchesIff | internal/certid/certid.go:34-67 | For any ID: which error an unreadable one gives, that matching passes it on, and that a readable one matches exactly the certificates with the hash it names. |
| DeviceIds.SameHashIff | internal/certid/certid.go:34-52 | Which texts are accepted, and when two accepted texts name the same hash: their 52 data characters agree up to four spare bits. Check characters never matter. |
| DeviceIds.WideCharacterIsRejected | internal/certid/certid.go:35-45 | A character that is still outside ASCII in upper case makes the text unreadable, even in the place of a check character. |
| DeviceIds.SpellsItsHashIff | internal/certid/certid.go:39-50 | An accepted string is a spelling of its hash's ID exactly when its check characters are right and the spare bits are clear. |
| RateLimiter.Limiter.Allow | internal/ratelimit/ratelimit.go:35-64 | Answer and new state of one call, with the sweep that runs at most once per window. |
| RateLimiter.Limiter.Evict | internal/ratelimit/ratelimit.go:68-77 | Exactly the entries whose window has ended go. |
| RateLimiter.EvictionIsInvisible | internal/ratelimit/ratelimit.go:35-77 | On every trace the answers for a key are those of a limiter that serves only this key and never deletes anything. |
| RateLimiter.KeysDoNotInterfere | internal/ratelimit/ratelimit.go:54-63 | Two traces with the same calls for a key answer them alike, whatever they do besides. |
| RateLimiter.NothingOldIsKept | internal/ratelimit/ratelimit.go:40-52 | After every call no entry is left whose window ended more than one window ago. |
| RateLimiter.SweepsOncePerWindow | internal/ratelimit/ratelimit.go:40-52 | A call sweeps exactly if more than a window has passed since the last sweep, and then clears exactly the ended windows; otherwise it touches no other key. |
| RateLimiter.SlidingWindowBound | internal/ratelimit/ratelimit.go:54-63 | From any state of a key's bucket begun before the interval, a closed interval as long as the window holds at most 2 * limit - 1 allowed calls, taking a limit below 1 as 1. |
| RateLimiter.TraceIsBounded | internal/ratelimit/ratelimit.go:35-77 | The same for every whole trace of a new limiter, with other keys and evictions mixed in. |
| RateLimiter.RefusalNeedsAFullQuota | internal/ratelimit/ratelimit.go:55-63 | A call is refused only if a full quota of calls was allowed in the window that ends with it; refused calls prolong nothing. |
| RateLimiter.TraceRefusalNeedsAFullQuota | internal/ratelimit/ratelimit.go:35-77 | The same for every whole trace of a new limiter, with other keys and evictions mixed in. |
| RateLimiter.SlidingWindowBoundIsTight | internal/ratelimit/ratelimit.go:54-63 | For every limit and window some calls reach the bound. |
| RateLimiter.QuotaIsExact | internal/ratelimit/ratelimit.go:55-63 | Of any number of calls at the start of a window exactly the first limit are allowed, one if the limit is below 1. |
| GateDecision.DecisionOnlyLapses | mobile/gate_decision.go:52-72 | Time alone only turns the decision off, only at a deadline, and after the last one only the foreground counts. |
| GateDecision.BackgroundRunIsEarned | mobile/gate_decision.go:53-106 | Outside the foreground Syncthing is wanted only in an open session, on a usable battery, never over a blocked roaming or metered link, and in the strictest mode only on a trusted WiFi, letter case aside; ordinary metered mobile data is good enough for the laxest mode. |
| GateDecision.DesiredIff | mobile/gate_decision.go:52-72 | Wanted exactly in the foreground, in its grace, or in an open session with an acceptable network and a battery that is not low or may be used. |
| GateDecision.NetworkAllowedIff | mobile/gate_decision.go:78-106 | Acceptable exactly if not of a blocked costly kind and of the kind the mode asks for; an unknown mode asks for nothing. |
| GateDecision.FoldsAlikeIff | mobile/gate_decision.go:98-102 | Two network names count as equal exactly if they differ in ASCII letter case at most. |
| GateDecision.PollSetsTheEnd | mobile/gate_decision.go:146-158 | A poll that finds a folder busy or a peer behind ends the session five minutes on; one that finds nothing and nobody leaves the two minutes after the start; any other leaves the end alone. |
| GateDecision.PollKeepsOpen | mobile/gate_decision.go:146-158 | A poll never closes an open session and never extends it beyond the busy extension or the connect grace. |
| Gate.Gate.OnAppForeground | mobile/events.go:21-48 | A change of foreground clears or starts the grace and kicks the loop; a repetition does nothing. |
| Gate.Gate.OnNetworkState | mobile/events.go:59-103 | A changed network kicks the loop, and opens a session exactly when it becomes acceptable and none is open. |
| Gate.Gate.OnTriggerAlarm | mobile/events.go:127-146 | Opens a session exactly when network and battery allow it. |
| Gate.Gate.OnTriggerPollAlarm | mobile/events.go:153-168 | Opens a session exactly when network and battery allow it and something changed. |
| Gate.Gate.OpenSyncSession | mobile/events.go:174-187 | Sets the deadline to the connect grace; the start moves only if no session was open. |
| Gate.Gate.ShouldStayResident | mobile/events.go:199-212 | True exactly when conditions are met and a session is open; it implies the gate's own decision and equals it in the background. |
| Gate.Gate.RefreshPowerSettings | mobile/events.go:234-240 | New settings are stored and kick the loop; a failing database changes nothing. |
| Gate.Gate.InitGate | mobile/gate.go:151-174 | Init keeps the foreground flag, makes the loop if there is none, and kicks it. |
| Gate.Gate.MarkStopped | mobile/gate.go:183-192 | The path and all deadlines are cleared and the loop is kicked. |
| Gate.Gate.ReconcileOnce | mobile/gate_reconcile.go:58-102 | Refreshes the deadline on a poll of an open session and drives the process to the decision, each with its own clock read; a process that does not obey stays as it was; nothing happens without a path. |
| Gate.Gate.Iterate | mobile/gate_reconcile.go:27-52 | One loop iteration: receive, reconcile, then start or stop the ticker, which a kick never resets and which drops the ticks that find it late. |
| GateRuns.AwakeStep | mobile/gate_reconcile.go:34-51 | With one clock value per iteration every event keeps the wake-up invariant: a kick, a ticker, or nothing left to do. |
| GateRuns.PollsAreNotStarved | mobile/gate_reconcile.go:19-23 | While a deadline is pending no number of kicks moves the next tick, so no run without a poll outlasts it by more than late. |
| GateRuns.AlarmOpensIff | mobile/events.go:127-187 | An alarm opens a session of two minutes exactly if network and battery allow it and, for the poll alarm, something changed; else it does nothing. |
| GateRuns.NetworkOpensIff | mobile/events.go:59-103 | A changed network opens a session exactly when it becomes acceptable and none is open; it is noted in any case. |
| GateRuns.TriggersStartSyncthing | mobile/gate_reconcile.go:58-102 | A trigger under allowed conditions, or the foreground, leads to a running process as soon as the kick is taken up, and the host is told. |
| GateRuns.ForegroundLasts | mobile/events.go:21-48 | Leaving the foreground keeps Syncthing wanted for exactly one more minute unless a session is open; in the foreground it is wanted without end. |
| GateRuns.HostHearsTheDecision | mobile/gate_reconcile.go:101-119 | The host is told the decision of every iteration, also of one whose start or stop fails. |
| GateRuns.NothingRestartsAfterStop | mobile/gate.go:176-192 | In every run after a deliberate stop, without a new init, Syncthing is not started and the host is not told so. |
| GateRuns.StopIsFinal | mobile/gate.go:183-192 | A deliberate stop leads there and closes session and grace. |
| GateRuns.LostWakeUpIff | mobile/gate_reconcile.go:24-102 | With any clock reads in order, obeyed or not, an iteration loses the wake-up exactly when no kick is queued, every deadline has passed at the ticker's read, and the process is not as the foreground wants it. |
| GateRuns.TwoClockReadsIff | mobile/gate_reconcile.go:40-84 | If Syncthing obeys, it is lost exactly when no kick is queued, the app is in the background, Syncthing was wanted at the decision and every deadline had passed at the ticker. |
| GateRuns.FailureIsForgottenIff | mobile/gate_reconcile.go:84-99 | A failed start or stop is not tried again exactly when no kick and no deadline is pending and the process is not as the foreground wants it. |
| GateRuns.LostWakeUp | mobile/gate_reconcile.go:36-51 | A run from a fresh gate with every tick on time, then one iteration straddling the end of the grace, leaves Syncthing running with nothing to stop it. |
| GateRuns.StopsWithinOnePoll | mobile/gate_reconcile.go:24-53 | In every run whose ticks are handled at most late after they fire, Syncthing is up whenever wanted and stops less than one poll interval plus late after the last deadline. |
| GateRuns.SessionEndIsBounded | mobile/gate_decision.go:146-158 | In every run the session ends no later than the last busy poll plus the extension or the last trigger plus the grace. |
| GateRuns.BackgroundRunIsBounded | mobile/gate_reconcile.go:36-51 | So in the background Syncthing runs at most one poll interval plus late beyond those and the foreground grace. |
| GateRuns.SessionStartIsFixed | mobile/events.go:178-183 | No event but stopping moves the start of an open session or closes it. |
| GateRuns.BusySessionNeverEnds | mobile/gate_decision.go:112-120 | While polls come less than the connect grace apart and each finds a folder busy or a peer behind, the session stays open in runs of any length and with any lateness, through re-triggers that shorten its deadline. |
| GateRuns.BusySyncIsNotInterrupted | mobile/gate_decision.go:112-120 | So Syncthing stays up as long as network and battery allow it. |
| GateRuns.OpeningKeepsAlive | mobile/events.go:174-187 | Opening a session leads to such a state. |
| GateInterleaving.ChangedInputsKick | mobile/events.go:21-117 | Every input that changes anything the decision reads queues a kick once the loop exists, and never touches process or ticker. |
| GateInterleaving.OnTrackStep | mobile/gate_reconcile.go:58-102 | With inputs arriving between snapshot, probe, decision and ticker check, what the loop has copied is still right unless a kick is queued. |
| GateInterleaving.NoLostWakeUpInterleaved | mobile/gate_reconcile.go:24-102 | In every interleaving of inputs, time and the loop's small steps, a process in the wrong state implies a queued kick, an armed ticker or a running iteration. |
| GateInterleaving.InitOnTrack | mobile/gate.go:151-174 | Init establishes the invariant. |
| PeerHub.Hub.Connect | internal/peerwire/hub.go:173-189 | A live connection is kept; one in backoff to the same target is nudged; any other is closed and replaced. |
| PeerHub.Hub.ConnectBySID | internal/peerwire/hub.go:194-218 | A new connection starts exactly when the session has no live one and no entry leads to that endpoint; otherwise the table stays, and an entry for the endpoint is live or nudged. |
| PeerHub.Hub.DropUntrustedSID | internal/peerwire/hub.go:222-241 | A session's connection is closed and removed unless its certificate belongs to a trusted device. |
| PeerHub.Hub.AdoptConn | internal/peerwire/hub.go:250-268 | The connection moves to the real ID unless that ID is live, in which case it is closed. The table stays consistent, the ID's live connection stays, and exactly a down entry under that ID is orphaned. |
| PeerHub.Hub.AdoptConnByAddr | internal/peerwire/hub.go:272-298 | If the ID has no entry, some connection to the address not known to be another device moves to it; otherwise nothing changes. |
| PeerHub.Hub.Disconnect | internal/peerwire/hub.go:357-364 | The entry is closed and removed. |
| PeerHub.Hub.DisconnectExcept | internal/peerwire/hub.go:379-389 | Exactly the kept entries remain; every open connection is one of them or an orphan. |
| PeerHub.Hub.DisconnectAll | internal/peerwire/hub.go:367-375 | The table is empty, and of all connections ever started exactly the orphans are open. |
| PeerHub.Hub.IdentityVerified | internal/peerwire/conn.go:254-269 | After the handshake the connection is open under its certificate's ID, or closed and gone exactly if that ID was live; nothing moves if it had that ID already. An orphan moves whatever entry is under its old key. |
| PeerHub.OneKeyPerConnection | internal/peerwire/hub.go:250-298 | In every valid table no connection sits under two keys. |
| PeerHub.OrphanOutlivesDisconnectAll | internal/peerwire/hub.go:260-267 | Adoption over a down entry leaves a connection open that no table operation reaches, not even DisconnectAll. |
| PeerHub.OrphanMovesItsReplacement | internal/peerwire/conn.go:265-269 | For any names and addresses: an orphan whose old address is taken over by another device moves the connection that replaced it, and its own device loses its entry. |
| PeerOffers.Queues.QueueOffer | internal/peerwire/hub.go:112-125 | The new offer replaces the one for the same folder in place, or is appended. |
| PeerOffers.Queues.CancelOffer | internal/peerwire/hub.go:151-166 | Removes the folder's offers from this device's queue and touches no other. |
| PeerOffers.QueueHoldsTheLatest | internal/peerwire/hub.go:110-166 | After any history a queue holds per folder at most one offer: the latest queued and neither cancelled nor drained since. |
| PeerOffers.EnqueueKeepsPlaces | internal/peerwire/hub.go:112-125 | An offer for a folder that has one takes its place in the queue; any other goes to the end. |
| PeerOffers.CancellingKeepsOrder | internal/peerwire/hub.go:151-160 | Cancelling drops the folder's offers and keeps the others in order. |
| StallTracker.Tracker.RefreshFolderCompletion | internal/api/folder_state.go:88-182 | After every sweep the progress and info tables hold, for every folder and device, what the history of all sweeps amounts to. |
| StallTracker.Tracker.RefreshFolders | internal/api/folder_state.go:110-170 | The loop over folders carries progress forward for exactly the devices looked up successfully; a folder listed twice counts as its last listing. |
| StallTracker.RunStart | internal/api/folder_state.go:146-156 | The remembered time is that of the sweep that began the current run without progress. |
| StallTracker.StalledIff | internal/api/folder_state.go:142-157 | Stalled exactly when connected, bytes are needed, and some sweep at least 60 s ago began an unbroken streak of successful lookups in which the bytes never dropped. |
| StallTracker.RecentProgressIsNotStalled | internal/api/folder_state.go:142-146 | A peer first seen, failed, or with dropped bytes less than 60 s ago is not stalled. |
| StallTracker.FoundIff | internal/api/folder_state.go:110-139 | A sweep takes up a device of a folder exactly if the folder lists it, it is not ourselves and its lookup succeeds. |
| StallTracker.PublishedIff | internal/api/folder_state.go:136-165 | Information is published exactly for a device taken up, with the bytes and items of the lookup, and as needing something exactly if items, deletions or bytes are missing. |
| Discovery.Service.PresentAddr | internal/discovery/service.go:124-132 | True exactly when the address is known and was heard within the grace period; never for the empty address. |
| Discovery.Service.Expire | internal/discovery/service.go:204-234 | A whole tick, with the consumer taking any number of reports before each send, is a possible run of the small steps and works off all sessions that were silent. |
| Discovery.PresenceIsHistory | internal/discovery/service.go:117-132 | Over every run an address is present exactly when it announced within the last grace period: pruning cannot be observed. |
| Discovery.OnlyReportsForget | internal/discovery/service.go:223-231 | Over every run a session leaves the table only by being reported gone. |
| Discovery.NoReportIsLost | internal/discovery/service.go:223-234 | Over every run what waited plus what was reported is what was taken plus what waits, in order, however often the channel is full. |
| Discovery.ReportsOnlyTheSilent | internal/discovery/service.go:209-213 | Every reported session had been silent for longer than the grace period when its tick began. |
| Discovery.SilentAreReportedIff | internal/discovery/service.go:205-234 | When the channel has room, a tick reports exactly the sessions silent for longer than 15 seconds. |
| Discovery.TickDrains | internal/discovery/service.go:223-234 | Whatever the consumer takes meanwhile, a tick leaves at most the silent sessions beyond the room it found on the channel, and exactly these if nothing is taken. |
| FolderConfig.Node.RemoveFolder | internal/api/folders.go:338-350 | Leaving tells every participant and drops the folder. |
| FolderConfig.Node.FolderRemoveDevice | internal/api/folders.go:301-322 | Removing a member drops it from our folder, tells it, and tells the others whom to remove. |
| FolderConfig.Node.DeclineFolder | internal/api/folders.go:273-281 | Declining tells the inviter and changes nothing of ours. |
| FolderConfig.Node.HandleFolderRemove | internal/api/handlers.go:166-194 | Heeded only from a trusted device or a participant; without a target the sender goes, and the folder too if nobody else is left; with a target the target goes. |
| FolderConfig.Node.HandleFolderDecline | internal/api/handlers.go:206-215 | Heeded only from a trusted device or a participant: the sender goes. |
| FolderConfig.Node.RemoveDeviceFromFolderInST | internal/api/folder_state.go:231-256 | Only that device leaves only that folder. |
| FolderConfig.Node.RemoveDeviceFromAllFolders | internal/api/folder_state.go:185-195 | The device leaves every folder; ourselves never. |
| FolderConfig.KickTakesOnlyTheKicker | internal/api/handlers.go:166-188 | A kick from a heeded peer takes the peer out; the folder goes exactly if nobody else is left, and other folders stay. |
| FolderConfig.RemovalTakesOnlyItsTarget | internal/api/handlers.go:189-215 | A removal or decline from a heeded peer takes its one device out of its one folder, which stays. |
| FolderConfig.StrangersAreNotHeeded | internal/api/handlers.go:168-171 | A sender neither trusted nor in the folder changes nothing. |
| FolderConfig.WhoIsTold | internal/api/folders.go:276-348 | Which packets leaving, removing, declining and expelling send: to whom, and naming whom. |
| FolderMembership.MembershipOnlyShrinks | internal/api/handlers.go:166-215 | In every run of leaving, removing, declining and unpairing no message brings a device back into a folder. |
| FolderMembership.NothingElseIsLost | internal/api/handlers.go:166-215 | In every step a device drops out of a node's folder only by what that node does, or by a heeded message that names it, comes from it, or leaves the node alone. |
| FolderMembership.HandledWithdrawal | internal/api/handlers.go:166-215 | Accepted or rejected, a withdrawal leaves its receiver not listing the sender. |
| FolderMembership.LeaverIsForgotten | internal/api/folders.go:326-356 | In every run a device that left is forgotten by each device it listed as soon as that has handled the message. |
| FolderMembership.DeclinerIsForgotten | internal/api/folders.go:258-285 | The inviter forgets a device that declined in the same way. |
| FolderMembership.RemovedPairForgetsEachOther | internal/api/folders.go:304-311 | After a removes c, a never lists c again and c does not list a once it has handled the message. |
| FolderMembership.ThirdPartyForgetsIff | internal/api/folders.go:312-322 | Another participant forgets c exactly when it heeds a at that moment or did not list c anyway. |
| FolderMembership.ThirdPartyForgets | internal/api/folders.go:312-322 | While it trusts a it forgets c in every run that does not lose the message. |
| FolderMembership.ThirdPartyForgetsExpelled | internal/api/pairing.go:67-78 | The same after an unpairing: a participant that trusts a forgets the unpaired c, and a never lists it again. |
| FolderMembership.OvertakenRemoval | internal/api/handlers.go:166-171 | For any three devices: a removal overtaken by the remover's own leaving is rejected, and c stays listed with nothing in flight. |
| Schedule.NextScheduledMillis | platform/android/app/src/main/kotlin/com/wesync/app/PowerLogic.kt:29-50 | The loop computes the earliest next occurrence over the valid entries. |
| Schedule.RenderedIsRead | platform/android/app/src/main/kotlin/com/wesync/app/PowerLogic.kt:26-36 | Every two-digit hh:mm is read as the time it shows, and skipped exactly when there is no such time of day. |
| Schedule.TimeOfDayIff | platform/android/app/src/main/kotlin/com/wesync/app/PowerLogic.kt:32-36 | An entry with one colon is valid exactly if both parts are numbers and they are an hour and a minute of the day. |
| Schedule.OneColonIsNeeded | platform/android/app/src/main/kotlin/com/wesync/app/PowerLogic.kt:32-33 | Without a colon, or with more than one, an entry is skipped. |
| Schedule.ToIntOrNullIff | platform/android/app/src/main/kotlin/com/wesync/app/PowerLogic.kt:34-35 | A part is a number exactly if it is an optional sign and at least one digit, and its value has 32 bits. |
| Schedule.NextScheduledIsLeast | platform/android/app/src/main/kotlin/com/wesync/app/PowerLogic.kt:21-28 | None exactly when no entry is valid; otherwise the least occurrence of any valid entry strictly after now, at most 24 hours ahead. |
| Schedule.WakesAreTheOccurrences | platform/android/app/src/main/kotlin/com/wesync/app/PowerLogic.kt:83-86 | Re-arming from each wake-up lists exactly all occurrences after now, in ascending order, none skipped. |
| Schedule.PlanIsSound | platform/android/app/src/main/kotlin/com/wesync/app/PowerLogic.kt:87-110 | Every job is periodic at no less than 15 minutes or fires once at the next occurrence; no job is planned exactly when the mode is unknown or no time is valid; a plan with jobs always has one that triggers unconditionally. |
| Schedule.IntervalsAreKept | platform/android/app/src/main/kotlin/com/wesync/app/PowerLogic.kt:71-110 | Each mode gets exactly its jobs, at the interval asked for but no less than 15 minutes, or once at the next occurrence. |
| ConflictNames.FirstMarker | internal/api/folder_extras.go:162 | The marker cannot overlap itself: appended to a base without it, its first occurrence is right after the base. |
| ConflictNames.RoundTrip | internal/api/folder_extras.go:159-173 | For any base without the marker, tag without dots and extension, the original name comes back. |
| ConflictNames.EveryName | internal/api/folder_extras.go:159-173 | For every name: unchanged without a marker; otherwise everything from the first marker to the last dot after it, or to the end, is cut out. |
| WorkQueues.Scheduler.Pipeline | internal/api/pipeline.go:22-33 | With Syncthing away the run arms a retry timer; otherwise it serves all requests made so far. |
| WorkQueues.NoRequestIsLost | internal/api/push.go:10-33 | In every interleaving a request not yet served has a token in the slot, with the worker or in a timer. |
| WorkQueues.EveryRequestIsServed | internal/api/pipeline.go:137-142 | Once Syncthing answers, the system comes to rest in a bounded number of its own steps, in any order, and then every request was served by a run begun after it. |
| NetworkList.UnsortedDistinct | web/src/components/Discovery/Discovery.logic.ts:67-96 | The five independently filtered lists share no id. |
| NetworkList.UnsortedMembers | web/src/components/Discovery/Discovery.logic.ts:24-96 | An entry of a kind for an id is listed exactly when the one classification of that id says so. |
| NetworkList.SortSorts | web/src/components/Discovery/Discovery.logic.ts:98-102 | The result is sorted and a permutation, for any total transitive name comparison. |
| NetworkList.SortIsStable | web/src/components/Discovery/Discovery.logic.ts:98-102 | Entries whose names compare equal stay in the order of the five lists. |
| NetworkList.PartitionOfThePage | web/src/components/Discovery/Discovery.logic.ts:10-103 | For distinct devices and requests the page is a sorted permutation of the five lists, shows each id at most once, and as exactly the kind of its classification. |
| NetworkList.EveryPairedDeviceIsShown | web/src/components/Discovery/Discovery.logic.ts:40-89 | Every paired device is shown exactly once, as waiting, connected or offline according to its own flags. |
| NetworkList.ShownAsIff | web/src/components/Discovery/Discovery.logic.ts:18-96 | For each kind, when the page shows a device as it, in terms of the device's own flags, its folders, requests and acceptances. |
| NetworkList.ShownWithoutADeviceIff | web/src/components/Discovery/Discovery.logic.ts:24-38 | Without a device only a request that has not just been accepted is shown. |
| NetworkList.NamesAreOwn | web/src/components/Discovery/Discovery.logic.ts:29-56 | A device is shown under its own name; a request under its device's name, else the name it came with, else seven characters of its id. |

## Left out

- Sockets, TLS, WebSocket, HTTP requests, JSON and SQLite: input and output. The wire is a sequence of packets in flight of which any may be next.
- Addresses and system information that Hello carries, user-interface pushes and logging.
- TrustHandlers.Handlers.Delete: the folder removal of the same handler is FolderConfig.Node.RemoveDeviceFromAllFolders, and its Hello broadcast is a Connect step.
- The Hello broadcast after a deletion: it is what a new connection sends, so a Connect step without adoption stands for it.
- Handlers interleaving inside one node: each handler is one step. SendHelloTo's false branch cannot be reached then, because Pair has just trusted the device.
- Sending Accepted: no code in the repository sends it. The step Accept stands for an older peer, since receiving it is implemented.
- Restart of a node: the removal marks are only in memory, so a restart is a step of its own that forgets them, and the theorems about removal name it as an exception.
- DeviceIds: letters outside ASCII whose upper case is outside it too keep their form, which changes at most the kind of error; text that is not valid UTF-8 and loading the key pair are left out; SHA-256 is any function to 32 bytes.
- GateRuns.StopsWithinOnePoll: uses one clock value per iteration and a Syncthing that obeys; what several reads and failures do is the subject of LostWakeUpIff.
- GateInterleaving.NoLostWakeUpInterleaved: assumes that no deadline falls between the clock read of the decision and that of the ticker.
- Gate.Gate.ReconcileOnce: only the gate changes the process, and no input arrives during the probe; inputs that do are the subject of GateInterleaving, where Syncthing obeys.
- Gate.Gate.MarkStopped: no restart after it is claimed only for iterations that begin after it; of host notifications only the last value is kept.
- Network names in the gate compare by ASCII case folding; how settings are stored, the event log and the wake plan document are left out.
- The connection table's own goroutines, sending, PeerAddr and the inbound side; a connection's goroutine appears only as what it does to flags and as its request to be adopted.
- Discovery: the debounce before announcing, the listener and the foreground switch.
- StallTracker.Tracker.RefreshFolderCompletion: the acceptance cache, last-seen times and the guard against concurrent sweeps; a sweep whose folder list fails changes nothing and is no sweep here.
- Folder sharing, accepting and the queued offers' contents; Syncthing calls on folders succeed. Unpairing a device acts on one folder per step.
- WorkQueues: what a snapshot contains and whether an older snapshot is broadcast last.
- Schedule.NextScheduledMillis: days have 24 hours and digits are ASCII; calendars and daylight saving are left out.
- ConflictNames: the directory walk that finds the files.
- NetworkList: what entries carry besides kind, id and name, missing arrays and missing names; the name comparison is any total transitive order.
- Process control, settings normalisation, system information, the derivation of folder states, and all of the Android and web user interface: they would only add easy members.
