# T-Bridge, modelled and proved

This Dafny project models the parts of T-Bridge that have to be right for a shared terminal to be
safe and usable, and proves what they promise.  `dafny verify dfyconfig.toml` checks all of it.

**Relay.**  `Registry.dfy` gives every call of the session manager as a function on a state of rooms
and three maps (by share code, by socket, by session id).  `Lifecycle.dfy` proves what holds for any
calls at all; `Indices.dfy` proves, operation by operation, exactly when the three maps stay the
indices of the rooms; `RegistryRuns.dfy` lifts both to whole runs and derives routing, the sweep and
the fate of replaced sockets; `RegistryEffects.dfy` says what each call answers and changes, told by the
rooms alone.  `SessionManager.dfy` is the class as the program keeps it, with room
objects shared by the three maps and changed in place, each method proved equal to its function.
`Relay.dfy` adds disconnects, grace timers and reconnects, as a transition system and as a class;
`GraceTimers.dfy` proves, step by step and over whole runs, exactly when every dropped peer keeps a
timer; `RelayNotices.dfy` says whom the relay tells and closes, `RelayTimes.dfy` what its records hold.

**Secure channel.**  `Nonce.dfy` is the nonce encoding, `SessionCipher.dfy` the cipher with its two
counters, `PeerConnection.dfy` the handshake with its queue of early ciphertext (functions and
classes).  `Channel.dfy` puts two peers and a network together, proves an invariant of every
reachable state and draws the consequences: agreement, no nonce used twice, nothing delivered but
what was sent, and exactly when the handshake completes.  `Delivery.dfy` says exactly what a peer delivers of any
chunks that arrive; `Fifo.dfy` treats the network that keeps order.
`KeyRepeats.dfy`, `RepeatingNetwork.dfy` and `RepeatedRuns.dfy` let the network repeat a KEY_EXCHANGE
too, and prove exactly when nonces repeat and exactly when a message is delivered twice.
`PeerRuns.dfy` treats one peer and anything it may hear: strangers, plain messages, closing.
`NetworkManager.dfy` is pairing, which decides the two roles; `ConnectionHub.dfy` follows all
connections a manager has made, those it has replaced among them.  Whether anyone listens for a
connection's `error` event is a parameter of every peer, as emitting it unheard throws.

**Rate limits.**  `RateLimiter.dfy` specifies a sliding window by the whole history of accepted
events and proves both implementations against it.

**Terminal UI.**  `PaneGrid.dfy` (the tiling), `PaneManager.dfy` (order, focus, layout),
`TerminalLines.dfy` (lines from a stream of chunks, control sequences), `CommandPalette.dfy` (fuzzy
search), `Theme.dfy` (widths of styled text), `Truncation.dfy` (what truncation does to other escape
sequences and to system commands).

Clocks, random ids and lower-casing are parameters.  X25519 (section 6.1 of RFC 7748) is a pair of
functions with the commutative law, HKDF (section 2 of RFC 5869) a function, and AES-GCM is ideal:
a chunk opens under the key and nonce it was sealed with and under no others.  Nonces follow
section 8.2.1 of NIST SP 800-38D and section 3.2 of RFC 5116.

## Where the code falls short of its own words

- README.md:407 says a session is cleaned up when the grace period ends without a reconnect.  The map
  of grace timers holds one timer a session, so when both peers drop, the one that returns cancels
  whichever timer was started last.  Every dropped peer keeps a timer if and only if no reconnect
  cancels the last timer of a peer that is still away (`GraceTimers.RunCovers`); when both drop, the one
  that stays away is cleaned up exactly if it dropped first (`GraceTimers.DroppedPeerIsCleanedUpIff`).
- `reject` and `releaseSocket` delete by share code, whoever owns it now.  A host that picks the code
  of a running session is lost from the code index when that session ends
  (`RegistryRuns.ReusedCodeIsLost`); the guards in `Indices.dfy` say exactly when this cannot happen.
- packages/network/src/peer-connection.ts:89-101 and 145 emit `error`, which throws when nobody listens,
  and nothing in the repository listens for it on a connection.  A chunk that fails while the queue is
  flushed then ends the flush: the connection is `disconnected` with a cipher, what is left stays
  queued, and `send` throws, while the same chunk after the key does no harm.  Early ciphertext is
  transparent, and a handshake without loss completes, exactly if errors are heard or every queued chunk
  opens (`Peers.EarlyCiphertextIff`, `Channel.HandshakeCompletesIff`); `Channel.EarlyRepeatGivesUp` is
  a run without loss that ends disconnected because one early message came twice.  An exception also
  keeps a message from the connections that were made later (`ConnectionHubs.AnswersAre`).
- packages/network/src/peer-connection.ts:79-83 rebuilds the cipher when a second KEY_EXCHANGE
  arrives, and both counters start again.  Nonces then repeat exactly if a message goes out after the
  restart and one went out before (`RepeatedRuns.RunNoncesDifferIff`), and a message is delivered twice
  exactly if one delivered before the restart arrives again with a counter above all that arrived since,
  or is in the increasing start of a queue that an unheard error had broken off
  (`RepeatedRuns.RunOnceIff`).  `RepeatedRuns.RepeatedKeyRun` is a run in which both happen.
- packages/crypto/src/index.ts:135-167 never looks at a nonce's sender id, so a side's own message that
  comes back under the other's name is delivered exactly if its counter is new, and shuts out what the
  other sent up to that counter (`Channel.ReflectionDeliversIff`).
- packages/network/src/peer-connection.ts:123-128 does nothing for a connection that is already
  `disconnected`, and one that gave up is: told to close, it goes on listening
  (`PeerRuns.ClosedForGoodIff`).
- A pair request accepted by both sides makes both host, and acceptances that outlive their
  connections can make both guest; equal roles share nonces (`Pairing.RolesDifferIff`,
  `Pairing.BothGuests`, `Channel.ReachableNoncesDistinct`).
- A connection that another replaces in the manager's map goes on listening, and a key is answered once
  by every connection that hears it, listens to the peer and does not wait in its own handshake
  (`ConnectionHubs.AnswersAre`, `ConnectionHubs.AcceptedTwiceIff`).
- packages/tui/src/components/terminal-pane.ts:194 lists backspace among the characters kept; the
  expression below it removes backspace.  The model follows the expression.
- packages/tui/src/components/command-palette.ts:211 says a whole match gets the highest score.  That
  holds for queries of at most five characters and for no other length
  (`FuzzyMatching.WholeAlwaysWinsIff`); for any two labels the score decides as
  `FuzzyMatching.ScatteredWinsIff` says.
- `padEnd` promises a visible width.  It keeps that for every text and width exactly if one character of
  the fill is visible and the fill holds no BEL and does not begin with a letter
  (`StyledText.PadEndIff`).
- `truncate` takes every escape character for the start of a style.  After any other sequence, or inside
  a system command, it skips to the next `m`, or counts the sequence's characters where there is none; the result keeps
  within the width exactly if it skipped no more than it counted and reached its target
  (`Truncation.TruncatedFitsIff`, `Truncation.OneSequenceOverflowsIff`).

## Model

| member | source | states |
|---|---|---|
| Lifecycle.StepGood | apps/server/src/session-manager.ts:51-246 | any call at all keeps the room invariant, moves each old room only forward, changes its guest and session id only at the transitions meant for it, and creates rooms only as waiting |
| Lifecycle.RunMovesForward | apps/server/src/session-manager.ts:80-246 | over every run without any assumption, rooms only move forward along waiting, pending, active, ended; ended is final; waiting has no guest, pending and active have one, session ids exist only from active on and never change |
| Lifecycle.AtMostOneGuest | apps/server/src/session-manager.ts:80-101 | in any run a room admits at most one guest, and none once it has left waiting |
| Lifecycle.AtMostOneApproval | apps/server/src/session-manager.ts:103-118 | in any run a room is approved at most once |
| Lifecycle.GuestJoinsBeforeExpiry | apps/server/src/session-manager.ts:86-100 | a guest that is admitted joined a waiting room strictly before its expiry |
| Lifecycle.SweepTestIsRedundant | apps/server/src/session-manager.ts:231 | in every reachable state the sweep's test for active rooms changes nothing: due are all coded rooms past expiry |
| Indices.ExpireExact | apps/server/src/session-manager.ts:227-246 | the sweep keeps the three maps exactly the indices of the rooms |
| Indices.OpenExact | apps/server/src/session-manager.ts:59-77 | opening a room keeps the indices exact if and only if it fails or the socket may be remapped |
| Indices.JoinExact | apps/server/src/session-manager.ts:88-100 | joining keeps the indices exact if and only if it fails or the socket may be remapped |
| Indices.ApproveExact | apps/server/src/session-manager.ts:103-118 | approval keeps the indices exact if and only if it fails or the new session id is unused |
| Indices.RejectExact | apps/server/src/session-manager.ts:120-129 | rejecting, which has no state check, keeps the indices exact if and only if the code it deletes is not another room's |
| Indices.ReconnectExact | apps/server/src/session-manager.ts:135-167 | reconnecting keeps the indices exact if and only if its guard on the new socket holds |
| Indices.ReleaseExact | apps/server/src/session-manager.ts:193-225 | releasing a socket keeps the indices exact if and only if its guard on the deleted code holds |
| RegistryRuns.StepExact | apps/server/src/session-manager.ts:45-246 | every call keeps the indices exact if and only if its guard holds before the call |
| RegistryRuns.RunExact | apps/server/src/session-manager.ts:45-246 | in every run the indices are exact after every call if and only if every call met its guard |
| RegistryRuns.PoliteRunsStayExact | apps/server/src/session-manager.ts:45-246 | if every socket that registers or reconnects is unmapped at that moment (after the sweep, where there is one), session ids are fresh and no code of a connected session is reused, the indices are exact after every call of every run |
| RegistryRuns.EmptyIsExact | apps/server/src/session-manager.ts:45-49 | with nothing registered the indices are exact, so those runs may start there |
| RegistryRuns.ReusedCodeIsLost | apps/server/src/session-manager.ts:203 | a concrete run in which a waiting room loses its code because another room had the same one |
| RegistryRuns.RoutedIffActive | apps/server/src/session-manager.ts:169-187 | a socket has a peer if and only if it is an endpoint of an active room |
| RegistryRuns.RoutingInvolution | apps/server/src/session-manager.ts:169-187 | if a socket is routed to another, that one is routed back, and the two are the endpoints of one active room |
| RegistryRuns.ReconnectMovesRoute | apps/server/src/session-manager.ts:149-164 | after a reconnect of either role the new socket has the old one's peer, in both directions, and the old socket has none |
| RegistryRuns.SweepIsExact | apps/server/src/session-manager.ts:227-246 | the sweep ends exactly the coded rooms past expiry, takes exactly them out of every index and leaves the rest as it was |
| RegistryRuns.GoneStaysGone | apps/server/src/session-manager.ts:150-164 | with fresh sockets, a socket that is not mapped never is again, in any run |
| RegistryEffects.RegisterHostIff | apps/server/src/session-manager.ts:51-78 | a host is refused exactly for an empty code and for the code of a room that is open then; otherwise a waiting room with its socket and identity is appended, expiring the whole lifetime later |
| RegistryEffects.RegisterGuestIff | apps/server/src/session-manager.ts:80-101 | a guest is admitted exactly to a waiting room with that code that has not expired; a pending one is named in the refusal, and without either the code is not found |
| RegistryEffects.AdmissionChanges | apps/server/src/session-manager.ts:97-100 | admission makes that room pending with the guest's socket and identity, maps the socket to it and touches nothing else |
| RegistryEffects.ApproveIff | apps/server/src/session-manager.ts:103-111 | approval succeeds exactly for the host of a pending room, and names the state of a room that is not pending |
| RegistryEffects.ApprovalChanges | apps/server/src/session-manager.ts:113-118 | an approved room is active under the new session id, routes both ways, has given up its code, and nothing else changes |
| RegistryEffects.RejectIff | apps/server/src/session-manager.ts:120-129 | in every state, rejecting succeeds exactly for the mapped host of a room with a guest; it ends that room, its code finds nothing, and every other room, code, socket and session is as it was |
| RegistryEffects.RejectedForGood | apps/server/src/session-manager.ts:120-129 | in every later run a rejected room stays ended, is never approved and is never routed |
| RegistryEffects.ReconnectIff | apps/server/src/session-manager.ts:135-167 | a reconnect succeeds exactly for the active room of its session, as host if the device is the host's and else as guest if it is the guest's; each error comes exactly when it is due |
| RegistryEffects.ReconnectionChanges | apps/server/src/session-manager.ts:149-164 | the new socket and identity take the old one's place, and nothing else changes |
| RegistryEffects.NotRouted | apps/server/src/session-manager.ts:169-187 | an unmapped socket has no session, one of a room that is not active no ready one, and no peer is ever missing |
| RegistryEffects.ReleaseChanges | apps/server/src/session-manager.ts:193-225 | releasing a mapped socket unmaps it and touches no other room or what leads there |
| RegistryEffects.ReleasedRoom | apps/server/src/session-manager.ts:193-225 | the room ends and its code and live session are free; with the host all of it leaves the indices, while a guest leaves the host mapped |
| RegistryEffects.RegisteredAdmitsIff | apps/server/src/session-manager.ts:67-100 | after any run from a registration, a guest with its code is admitted to that room if and only if it still waits, its code still finds it and less than the lifetime has passed since the registration |
| RegistryEffects.RegisteredForLifetime | apps/server/src/session-manager.ts:67-100 | in a run that keeps to the environment a room that still waits admits its guest exactly within its lifetime, and after that its code is not found |
| SessionManagers.SessionManager.RegisterHost | apps/server/src/session-manager.ts:51-78 | on shared room objects changed in place: the new state and the reply are those of the specification |
| SessionManagers.SessionManager.RegisterGuest | apps/server/src/session-manager.ts:80-101 | likewise for joining, with all three error replies |
| SessionManagers.SessionManager.Approve | apps/server/src/session-manager.ts:103-118 | likewise for approval |
| SessionManagers.SessionManager.Reject | apps/server/src/session-manager.ts:120-129 | likewise for rejection |
| SessionManagers.SessionManager.Reconnect | apps/server/src/session-manager.ts:135-167 | likewise for reconnecting, with the role found by device id |
| SessionManagers.SessionManager.GetPeer | apps/server/src/session-manager.ts:169-187 | the peer's socket or the error of the specification; nothing changes |
| SessionManagers.SessionManager.ReleaseSocket | apps/server/src/session-manager.ts:193-225 | likewise for releasing a socket |
| SessionManagers.SessionManager.ExpireRooms | apps/server/src/session-manager.ts:227-246 | the loop that deletes while it iterates ends with the state of the one-step sweep, and lists every expired room once and no other |
| RelayModel.StepRefines | apps/server/src/main.ts:250-432 | every step of the relay changes the registry as a short sequence of its own calls |
| RelayRuns.RunRefines | apps/server/src/main.ts:250-432 | every run of the relay is, on the registry, a run of its calls |
| RelayRuns.RelayStaysExact | apps/server/src/main.ts:250-432 | under the same environment the indices stay exact through disconnects, timers and reconnects |
| RelayRuns.UnmappedIsInert | apps/server/src/main.ts:366-410 | after any run with fresh sockets, neither the close event nor a timer of an unmapped socket changes a room |
| RelayRuns.ReplacedSocketIsInert | apps/server/src/main.ts:314-410 | after a successful reconnect and any run, neither the close event nor a pending grace timer of the replaced socket changes a room |
| RelayRuns.TimerEndsSession | apps/server/src/main.ts:388-432 | a grace timer that fires for a still mapped socket ends its session, unmaps it and stops routing at both ends |
| GraceTimers.ReconnectCovers | apps/server/src/main.ts:334-339 | a reconnect leaves every closed, still mapped socket with a timer if and only if the timer it cancels was started for the socket it replaces, or for one that is unmapped or has another timer |
| GraceTimers.StepCovers | apps/server/src/main.ts:250-432 | every step of the relay does so if and only if it is no reconnect that fails that guard |
| GraceTimers.RunCovers | apps/server/src/main.ts:250-432 | in every run in which closed sockets stay closed, every dropped and not replaced peer always has a timer if and only if every reconnect met its guard |
| GraceTimers.EmptyIsCovered | apps/server/src/main.ts:366-395 | so it is at the start |
| GraceTimers.LostTimerStaysLost | apps/server/src/main.ts:387-393 | a closed socket whose timer was cancelled never gets another one, in any run |
| GraceTimers.DroppedPeerIsCleanedUpIff | apps/server/src/main.ts:334-395 | whatever other timers are pending: when both peers of a session drop and either one returns, the other still has a timer if and only if it dropped first |
| RelayServers.RelayServer.HandleDisconnect | apps/server/src/main.ts:366-399 | the handler changes timers and registry as specified, names the peer to notify, and closes a socket only on cleanup |
| RelayServers.RelayServer.CleanupRoom | apps/server/src/main.ts:401-432 | cleanup changes the state as specified, names the peer to notify, and the guest's socket to close when it is the host that leaves |
| RelayServers.RelayServer.FireTimer | apps/server/src/main.ts:388-391 | the timer's callback changes the state as specified |
| RelayServers.RelayServer.HandleReconnect | apps/server/src/main.ts:314-354 | a reconnect changes the state, cancels the session's newest timer and answers with the error, or with host exactly if the socket is now the host's |
| RelayServers.RelayServer.ApproveAccess | apps/server/src/main.ts:250-284 | approval changes the registry, records the start time only on success, and names the host's and the guest's socket to be told |
| RelayServers.RelayServer.RejectAccess | apps/server/src/main.ts:294-313 | rejection changes the registry as specified and names the guest to be told and closed, or the error |
| RelayServers.RelayServer.ForwardToPeer | apps/server/src/main.ts:356-364 | a message goes to the routed peer, or the error comes back; nothing changes |
| RelayNotices.PartnerIff | apps/server/src/main.ts:374-426 | the socket told that a peer left is the other endpoint of its room if there is one, and telling goes both ways |
| RelayNotices.PartnerIsRouted | apps/server/src/main.ts:372-383 | in an active session it is the socket its messages are forwarded to |
| RelayNotices.ClosedWithIff | apps/server/src/main.ts:428-431 | a socket is closed along exactly when the one that leaves is the host and it is the guest of that room |
| RelayNotices.ClosedWithIsGone | apps/server/src/main.ts:407-431 | and it is no longer mapped then |
| RelayNotices.RoleAnsweredIff | apps/server/src/main.ts:349-353 | a returning peer is told host exactly if its socket is the host's then, which is its role unless a guest comes back on the host's own socket |
| RelayTimes.RunNamed | apps/server/src/main.ts:334-393 | in every run each entry of the map of grace timers names a pending timer of that session |
| RelayTimes.StartTimeStays | apps/server/src/main.ts:250-432 | in every run with fresh sockets that keeps to the environment, a session still active has the start time it had |
| RelayTimes.StartedWhenApproved | apps/server/src/main.ts:257 | so it is the time of its approval |
| RelayTimes.EmptyIsTrue | apps/server/src/main.ts:250-432 | those runs may start from nothing |
| RelayTimes.ReleaseForgets | apps/server/src/main.ts:412-415 | releasing a mapped socket forgets the start time of its room's session |
| Nonces.ReadInvertsWrite | packages/crypto/src/index.ts:147-149 | reading a big-endian number inverts writing it, at every width it fits |
| Nonces.WriteInvertsRead | packages/crypto/src/index.ts:169-174 | and every byte string is what its number writes |
| Nonces.CounterReadsBack | packages/crypto/src/index.ts:147-149 | the counter read from a nonce is the one it was built from |
| Nonces.NonceInjective | packages/crypto/src/index.ts:169-174 | two nonces are equal if and only if sender id and counter are |
| Nonces.NonceSurjective | packages/crypto/src/index.ts:169-174 | every twelve bytes are the nonce of some sender id and counter |
| Ciphers.DeliversMaxima | packages/crypto/src/index.ts:135-167 | for any arriving chunks, what is delivered are the texts of the left-to-right maxima of the counters that open, and the counter kept is the highest seen |
| Ciphers.MaximaIncrease | packages/crypto/src/index.ts:151-155 | the counters of the maxima increase strictly and are counters that arrived |
| Ciphers.DeliversSubsequence | packages/crypto/src/index.ts:135-167 | if all chunks come from the one sender, the texts delivered are those sent at strictly increasing places: each at most once and in order |
| Ciphers.SentIsFromSender | packages/crypto/src/index.ts:114-129 | a chunk the sender makes is one of its own, under the counter of its place |
| Ciphers.InOrderDeliversAll | packages/crypto/src/index.ts:114-167 | chunks received in the order they were sent deliver every text |
| Ciphers.SentArrives | packages/crypto/src/index.ts:114-167 | whatever is encrypted, as long as there are counters, a receiver with that key that has taken no counter as high gets every text as it was, in order |
| Ciphers.DecryptIff | packages/crypto/src/index.ts:135-167 | a chunk opens exactly if it is well formed, new and authentic; each error comes exactly when its check is the first to fail, and the counter moves for a new one even if it is forged |
| Ciphers.SentIsNumbered | packages/crypto/src/index.ts:114-116 | whatever is encrypted, the chunks carry consecutive nonces from the current counter on |
| Ciphers.NoncesNeverRepeat | packages/crypto/src/index.ts:114-117 | host and guest ciphers, however often they encrypt, never use one nonce twice, within a direction or across both |
| SessionCiphers.SessionCipher.BuildNonce | packages/crypto/src/index.ts:169-174 | the buffer filled in place is the nonce of the specification |
| SessionCiphers.SessionCipher.Encrypt | packages/crypto/src/index.ts:114-129 | the counter and the chunk are those of the specification, and the overflow error leaves the counter alone |
| SessionCiphers.SessionCipher.Decrypt | packages/crypto/src/index.ts:135-167 | the counter kept and the text or error are those of the specification, in the source's order of checks |
| Peers.FlushEmits | packages/network/src/peer-connection.ts:130-147 | flushing the queue handles its chunks in order, as if they arrived one by one, up to the first failure that nobody hears; it throws if and only if errors are unheard and some queued chunk does not open |
| Peers.EarlyCiphertextIff | packages/network/src/peer-connection.ts:44-147 | chunks before the key and chunks after it leave the peer in the state it would have had with the key first if and only if none came early, the key does not import, errors are heard or every chunk in the queue opens |
| Peers.KeyPositionIff | packages/network/src/peer-connection.ts:44-147 | two positions of the key among the encrypted messages lead to the same state if and only if they are one, the key does not import, errors are heard or every chunk before the later position opens |
| Peers.SendOpens | packages/network/src/peer-connection.ts:104-117 | a message goes out exactly if the peer is encrypted with counters left, and every receiver with that key and no counter as high opens it to the payload given |
| Peers.ThrowsIff | packages/network/src/peer-connection.ts:31-147 | handling a message throws exactly if it ends in an error that nobody hears |
| PeerRuns.OthersAreIgnored | packages/network/src/peer-connection.ts:31-42 | messages of anyone but its peer make no difference to a connection, wherever in a run they come |
| PeerRuns.RunAnnounces | packages/network/src/peer-connection.ts:31-64 | in every run a connection announces exactly the plain messages of its peer that reach it while it listens, in order |
| PeerRuns.ClosedForGoodIff | packages/network/src/peer-connection.ts:123-128 | told to close, a listening connection notes it once and in every later run emits no payload and sends nothing but keys, unless it had given up: then nothing happens |
| PeerConnections.PeerConnection.HandleEnvelope | packages/network/src/peer-connection.ts:31-64 | the event handler changes status, cipher, queue and emitted events as specified, and says whether it ends in an exception |
| PeerConnections.PeerConnection.HandleKeyExchange | packages/network/src/peer-connection.ts:75-84 | likewise, starting the own handshake first unless it waits in it |
| PeerConnections.PeerConnection.FinalizeHandshake | packages/network/src/peer-connection.ts:86-102 | likewise, with the disconnected state when the key does not import or the flush throws |
| PeerConnections.PeerConnection.FlushPendingEncrypted | packages/network/src/peer-connection.ts:130-135 | the loop that shifts the queue ends as specified, by the first unheard failure or with an empty queue, and says which |
| PeerConnections.PeerConnection.Send | packages/network/src/peer-connection.ts:104-117 | an encrypted message goes out and the counter moves on, or the error says why not |
| PeerConnections.PeerConnection.SendUnencrypted | packages/network/src/peer-connection.ts:119-121 | an unencrypted message goes out in any state and touches nothing else |
| PeerConnections.PeerConnection.Disconnect | packages/network/src/peer-connection.ts:123-128 | disconnecting twice closes once |
| Channel.AgreeableExist | packages/crypto/src/index.ts:61-73 | the laws assumed of the primitives can be met |
| Channel.RunKeeps | packages/network/src/peer-connection.ts:31-147 | the invariant of the two-peer system, unencrypted messages among its actions, holds in every reachable state, over a network that drops, repeats and reorders what is no key; only an end that does not hear its errors gives up or keeps chunks queued beside a cipher |
| Channel.OneKeyExchange | packages/network/src/peer-connection.ts:66-84 | in every reachable state each side has sent at most one KEY_EXCHANGE, its own key, before anything else |
| Channel.CiphersAgree | packages/network/src/peer-connection.ts:86-102 | in every reachable state two ciphers hold the same key, and their sender ids differ if and only if the roles do |
| Channel.RunSays | packages/network/src/peer-connection.ts:104-121 | in every run the payloads sealed in a side's messages are, in order, those it was asked to send while encrypted with counters left, and its plain messages those it was asked to announce |
| Channel.ReachableDelivers | packages/network/src/peer-connection.ts:62-147 | in every reachable state the payloads a side decrypted are a subsequence of those the other was asked to send while it could, those it announced the other was asked to send in the clear, only replays failed, and only a side that does not hear its errors gave up |
| Channel.ReachableNoncesDistinct | packages/crypto/src/index.ts:105-117 | in every reachable state no nonce is used twice within a side, nor across the sides if and only if the roles differ |
| Channel.ReflectionDeliversIff | packages/crypto/src/index.ts:135-167 | in every reachable state a side's own message that comes back to it is delivered if and only if it listens and has taken no counter as high, and then every message of the other up to that counter is refused |
| Channel.LosslessStep | packages/network/src/peer-connection.ts:66-135 | without loss no step unmakes progress, every key that arrives lowers the measure, and a step makes a side give up if and only if it brings a key to a side that neither hears its errors nor has its queue in order and without repeats |
| Channel.KeyStaysInFlight | packages/network/src/peer-connection.ts:66-102 | once started, both sides have a cipher if and only if no key is in flight |
| Channel.HandshakeCompletesIff | packages/network/src/peer-connection.ts:66-135 | in every lossless run from the start at most two keys arrive, and a started system is fully encrypted if and only if none is left to arrive and every key that arrived found errors heard, or only chunks in order and without repeats |
| Channel.EarlyRepeatGivesUp | packages/network/src/peer-connection.ts:89-101 | for all primitives and payloads, a run without loss in which a message arrives twice before the key and the side that does not hear its errors ends disconnected |
| Delivery.EmitsReceived | packages/network/src/peer-connection.ts:137-147 | a peer emits exactly the payloads its cipher's texts parse to, and its cipher advances as it would on its own |
| Delivery.PeerDeliversMaxima | packages/network/src/peer-connection.ts:31-147 | for any chunks that arrive and any place of the key among them, a peer emits exactly the payloads of the left-to-right maxima of the counters of those it takes: all after the key, and of those before it the ones up to the first unheard failure |
| Delivery.PeerDeliversAllMaxima | packages/network/src/peer-connection.ts:31-147 | if errors are heard or every chunk before the key opens, those are the maxima of all that arrived |
| Fifo.InOrderRunDeliversPrefix | packages/network/src/peer-connection.ts:104-147 | over a network in order and without loss, in every reachable state the payloads emitted are a prefix of those the other side was asked to send while it could, all that arrived while connected, and nothing failed |
| RepeatedKeys.RunLogs | packages/network/src/peer-connection.ts:31-147 | whatever a peer hears and is told to do, every key that sealed a message sealed the one with counter zero |
| RepeatedKeys.NextRepeatsIff | packages/network/src/peer-connection.ts:79-117 | after any key exchange that imports, the next message goes out with the key and nonce of a message already sent if and only if the flush does not throw and some message was sealed under the new key |
| RepeatedKeys.SecondKeyExchangeReusesNonceIff | packages/network/src/peer-connection.ts:79-117 | after a second key exchange it does if and only if the flush does not throw, the new key is the old one and something was sent |
| RepeatedKeys.SecondKeyExchangeRepeatsDeliveryIff | packages/network/src/peer-connection.ts:79-147 | a chunk already taken is refused, and after a second key exchange it opens again if and only if the new key is the old one and the flush took no counter as high, as it cannot when nothing waits |
| RepeatingNetwork.RunForm | packages/network/src/peer-connection.ts:31-147 | over a network that also repeats keys, in every reachable state the logs count from each key exchange anew, and the trails say which messages were delivered and which wait, those that a broken-off flush leaves among them |
| RepeatingNetwork.NoncesDifferIff | packages/crypto/src/index.ts:114-117 | the nonces of a log differ if and only if no key exchange stands between two of its chunks |
| RepeatedRuns.ReachableNoncesDifferIff | packages/network/src/peer-connection.ts:79-117 | in every reachable state all nonces of both logs differ if and only if neither log has a key exchange between chunks, and the roles differ or one side sent nothing |
| RepeatedRuns.StepUnbrokenIff | packages/network/src/peer-connection.ts:104-117 | a step keeps them so if and only if it sends nothing after a restart |
| RepeatedRuns.RunNoncesDifferIff | packages/network/src/peer-connection.ts:79-117 | in every run each side's nonces differ to the end if and only if no message goes out after a restart that followed a message |
| RepeatedRuns.StepOnceIff | packages/network/src/peer-connection.ts:79-147 | a step keeps every message delivered at most once if and only if it brings none delivered before the present cipher with a counter above all since, and no key while one delivered stands in the increasing start of the queue |
| RepeatedRuns.RunSeals | packages/network/src/peer-connection.ts:104-117 | also where keys repeat, the payloads sealed in a log are, in order, those its side was asked to send while it could |
| RepeatedRuns.RunOnceIff | packages/network/src/peer-connection.ts:79-147 | in every run the payloads decrypted are picks among those the other side was asked to send, and no send is picked twice if and only if no step fails that guard |
| RepeatedRuns.NoRepeatsRefine | packages/network/src/peer-connection.ts:31-147 | a run without repeated keys is a run of the system that has none |
| RepeatedRuns.RepeatedKeyRun | packages/network/src/peer-connection.ts:79-83 | a run in which one repeated key makes a side deliver a message twice and seal two messages with one key and nonce |
| Pairing.AcceptMakesHost | packages/network/src/network-manager.ts:173-184 | accepting leaves one new connection for that peer, as host and with nothing sent, and no other changes |
| Pairing.PairAcceptStarts | packages/network/src/network-manager.ts:152-166 | after a PAIR_ACCEPT there is a connection that has begun its handshake; exactly if it was missing or not begun, it has sent one more message, its own public key; no other changes |
| Pairing.RunRoles | packages/network/src/network-manager.ts:152-202 | in every run of pairing, closes included, a side has a connection as host if and only if the last of its accepts and closes is an accept |
| Pairing.RolesDifferIff | packages/network/src/network-manager.ts:152-202 | two connected sides have different roles and sender ids if and only if exactly one of them has accepted since its last close |
| Pairing.OpenRolesDifferIff | packages/network/src/network-manager.ts:157-175 | as long as nothing closes, if and only if not both have accepted |
| Pairing.BothGuests | packages/network/src/network-manager.ts:152-202 | a run with closes in which both sides end up guests |
| NetworkManagers.NetworkManager.AcceptPairRequest | packages/network/src/network-manager.ts:173-184 | a fresh host connection replaces any old one, and one PAIR_ACCEPT goes out |
| NetworkManagers.NetworkManager.HandlePairAccept | packages/network/src/network-manager.ts:152-166 | a guest connection is made if there was none, and a connecting one starts its handshake |
| NetworkManagers.NetworkManager.RemoveConnection | packages/network/src/network-manager.ts:195-203 | the entry for a peer goes, whichever connection it names by then |
| ConnectionHubs.RunTells | packages/network/src/network-manager.ts:152-203 | in every run of a manager every connection ever made, replaced or not, is in the state it would be in by itself after what it was told: starts, sends and closes by name, and the messages before which no older connection throws |
| ConnectionHubs.RunNamed | packages/network/src/network-manager.ts:152-203 | in every run the map names for each peer a connection to it |
| ConnectionHubs.NamedAccept | packages/network/src/network-manager.ts:173-184 | the connections that the map names move as pairing says when a request is accepted |
| ConnectionHubs.NamedHears | packages/network/src/network-manager.ts:152-166 | likewise when an acceptance arrives |
| ConnectionHubs.NamedCloses | packages/network/src/network-manager.ts:195-203 | and when a connection closes, named or replaced |
| ConnectionHubs.PassCloses | packages/network/src/network-manager.ts:168-203 | a message takes an entry from the map exactly if it closes a connection to that peer |
| ConnectionHubs.EveryConnectionLogs | packages/network/src/network-manager.ts:152-203 | so what is proved of any peer's log holds of each of them |
| ConnectionHubs.AnswersAre | packages/network/src/network-manager.ts:168-178 | a key reaches the connections up to the first that throws and leaves the others as they were; those among them that listen to the peer and do not wait in their own handshake answer once each |
| ConnectionHubs.AcceptedTwiceIff | packages/network/src/network-manager.ts:173-184 | a peer accepted once before its key arrives is answered once; accepted twice it is answered twice if and only if the first connection's errors are heard or the key imports |
| ConnectionHubs.BegunTwice | packages/tui/src/app.ts:158-163 | when each is also started by hand, as the application does, the two send a key each then, and none when the peer's key arrives |
| RateLimits.AcceptedIffRoom | apps/server/src/rate-limiter.ts:39-59 | a check is accepted if and only if the whole history has fewer than `limit` accepted events in the window |
| RateLimits.WindowBound | apps/server/src/rate-limiter.ts:39-59 | every window of length `windowMs`, wherever it ends, contains at most `limit` accepted events |
| RateLimits.RetryAfterIsExact | apps/server/src/rate-limiter.ts:43-51 | on rejection the wait lies in 1..windowMs, any earlier check is refused and one after exactly the wait is accepted |
| RateLimits.RemainingIsExact | apps/server/src/rate-limiter.ts:53-58 | the number an accepted check is answered with is exact: so many more are accepted at that time and no more |
| RateLimits.ChecksAreExact | apps/server/src/rate-limiter.ts:39-92 | the pruned store answers every check as the unpruned history would; so does the filtering one |
| RateLimits.LimitersAgree | packages/network/src/relay-worker.ts:32-44 | the filtering limiter, which does not store its list on rejection, accepts exactly what the pruning one accepts |
| RateLimits.KeysAreIndependent | apps/server/src/rate-limiter.ts:68-76 | what is stored for a key depends on that key's checks only |
| RateLimits.RateLimiter.CheckKey | apps/server/src/rate-limiter.ts:39-59 | the stored timestamps and the reply are those of the specification, other keys unchanged, for any limit |
| RateLimits.RateLimiter.Prune | apps/server/src/rate-limiter.ts:78-92 | the loop drops exactly the prefix at or before the cutoff |
| RateLimits.FilteringLimiter.CheckRateLimit | packages/network/src/relay-worker.ts:32-44 | the answer is that of the specification, and the store changes only on acceptance |
| PaneGrid.GridShape | packages/tui/src/components/pane-manager.ts:194-195 | (rows-1)*cols < count <= rows*cols, and rows is cols or cols-1 |
| PaneGrid.LayoutWithin | packages/tui/src/components/pane-manager.ts:166-216 | every rectangle lies inside the region, with sides that are not negative |
| PaneGrid.LayoutDisjoint | packages/tui/src/components/pane-manager.ts:166-216 | no point lies in two rectangles |
| PaneGrid.LayoutCovers | packages/tui/src/components/pane-manager.ts:166-216 | a point of the region lies in a rectangle if and only if it is not in an unused cell; for one to three panes there are none |
| PaneGrid.UnusedCellsAreLast | packages/tui/src/components/pane-manager.ts:200-213 | unused cells are at the end of the last grid row, fewer than a row of them |
| PaneGrid.ReadingOrder | packages/tui/src/components/pane-manager.ts:166-216 | a later pane begins right of an earlier one and no higher, or below it |
| PaneGrid.EvenSizes | packages/tui/src/components/pane-manager.ts:166-216 | widths differ by less than the number of columns and heights by less than the rows, but for the full height of the first of three |
| PaneGrid.CalculateGrid | packages/tui/src/components/pane-manager.ts:166-216 | the loop that pushes rectangles computes the layout, for any region |
| PaneFocus.StepExact | packages/tui/src/components/pane-manager.ts:76-164 | every call keeps the panes tidy (distinct order, focus on a pane, exactly that pane flagged, every pane in its rectangle), except creating a pane whose id is empty or taken and focusing an unknown id, which never do |
| PaneFocus.StepChanges | packages/tui/src/components/pane-manager.ts:76-164 | what each call does to order, focus and region: a new pane comes last and takes the focus, a removed one hands it to the first left, resizing changes the region alone |
| PaneFocus.RunTidy | packages/tui/src/components/pane-manager.ts:76-164 | the panes are tidy after every run without those exceptions |
| PaneFocus.EmptyIsTidy | packages/tui/src/components/pane-manager.ts:27-30 | with no panes everything is tidy, so those runs may start there |
| PaneFocus.TidyDetermined | packages/tui/src/components/pane-manager.ts:114-164 | flags and rectangles of tidy panes follow from order, focus and region |
| PaneFocus.TidyPanesApart | packages/tui/src/components/pane-manager.ts:150-164 | tidy panes lie in the region and never overlap |
| PaneFocus.PrevUndoesNext | packages/tui/src/components/pane-manager.ts:129-142 | focusing the previous pane undoes focusing the next, and the other way round |
| PaneFocus.RotationIs | packages/tui/src/components/pane-manager.ts:129-134 | after any number of steps forward the focus is that many places on, round the end |
| PaneFocus.FullTurn | packages/tui/src/components/pane-manager.ts:129-134 | a full turn comes back to where it began and passes every pane |
| PaneFocus.RemoveUndoesCreate | packages/tui/src/components/pane-manager.ts:76-111 | removing a pane just created leaves the others as they were, with the first in focus |
| PaneManagers.PaneManager.CreatePane | packages/tui/src/components/pane-manager.ts:76-91 | on pane objects changed in place: the new state is that of the specification and no other pane object is replaced |
| PaneManagers.PaneManager.RemovePane | packages/tui/src/components/pane-manager.ts:94-111 | likewise for removal |
| PaneManagers.PaneManager.FocusPane | packages/tui/src/components/pane-manager.ts:114-126 | likewise for focusing |
| PaneManagers.PaneManager.FocusNext | packages/tui/src/components/pane-manager.ts:129-134 | likewise for the next pane |
| PaneManagers.PaneManager.FocusPrev | packages/tui/src/components/pane-manager.ts:137-142 | likewise for the previous pane |
| PaneManagers.PaneManager.Relayout | packages/tui/src/components/pane-manager.ts:150-164 | the loop gives every pane its rectangle and changes nothing else |
| Sanitizer.SanitizeIsClean | packages/tui/src/components/terminal-pane.ts:186-196 | the result has no control character but tab, line feed and carriage return, and text is unchanged if and only if it has none |
| Sanitizer.SanitizeKeepsText | packages/tui/src/components/terminal-pane.ts:186-196 | of text mixed with complete sequences and lone control characters, the four passes leave exactly the text |
| TerminalLines.SplitIff | packages/tui/src/components/terminal-pane.ts:163 | the split is the one way to cut a text at its line ends, a carriage return before a line feed belonging to the line end |
| TerminalLines.LastIsAfterLineFeed | packages/tui/src/components/terminal-pane.ts:164 | the partial line is the text after the last line feed |
| TerminalLines.SplitExtends | packages/tui/src/components/terminal-pane.ts:162-164 | more text only continues the last piece, also when the cut falls between carriage return and line feed |
| TerminalLines.AppendExtends | packages/tui/src/components/terminal-pane.ts:161-169 | appending a chunk to what a text shows gives what the longer text shows |
| TerminalLines.ChunksMakeNoDifference | packages/tui/src/components/terminal-pane.ts:161-169 | however a stream is cut into chunks, the partial line and the latest 10000 lines are those of the whole stream |
| TerminalLines.LinesArePlain | packages/tui/src/components/terminal-pane.ts:165-168 | a stored line has no control character but tabs |
| TerminalLines.LinesAre | packages/tui/src/components/terminal-pane.ts:161-169 | on show are the latest complete lines of a text, up to 10000, in order, each as its text after the last carriage return |
| TerminalLines.LineBuffer.AppendData | packages/tui/src/components/terminal-pane.ts:161-170 | the loop that pushes lines ends with the specified lines and partial line, and scrolls to the end |
| FuzzyMatching.FuzzyScore | packages/tui/src/components/command-palette.ts:206-231 | the scoring loop computes the recursive score |
| FuzzyMatching.ScanIff | packages/tui/src/components/command-palette.ts:216-230 | the greedy scan succeeds if and only if the query is a subsequence of the label |
| FuzzyMatching.ScorePositiveIff | packages/tui/src/components/command-palette.ts:206-231 | the score is positive if and only if the query is a subsequence of the label or a substring of description or category |
| FuzzyMatching.LeftmostExists | packages/tui/src/components/command-palette.ts:216-228 | every subsequence has a leftmost way of being one |
| FuzzyMatching.ScanScores | packages/tui/src/components/command-palette.ts:216-230 | the scan takes that way and earns ten points a character, five a repeat and three a word start |
| FuzzyMatching.ScatteredWinsIff | packages/tui/src/components/command-palette.ts:211-230 | for any labels and query, a scattered match scores at least as high as a whole one if and only if those points reach a hundred |
| FuzzyMatching.ScatteredAgainstIff | packages/tui/src/components/command-palette.ts:206-231 | it scores at least as high as a match in a description, or only in a category, if and only if those points reach fifty, or thirty |
| FuzzyMatching.WholeAgainstScattered | packages/tui/src/components/command-palette.ts:211-230 | so whole matches win for at most five characters, and do not from ten on |
| FuzzyMatching.WholeAlwaysWinsIff | packages/tui/src/components/command-palette.ts:211-230 | every whole match of a query of length n beats every scattered one if and only if n is at most five |
| FuzzyMatching.ScatteredCanWin | packages/tui/src/components/command-palette.ts:211-230 | for every length above five, a query and a label that holds it scattered and beats the query itself |
| FuzzyMatching.FilteredIff | packages/tui/src/components/command-palette.ts:185-198 | a list is the filtered list if and only if it holds the positive-score actions in descending order, equal scores in their given order, or all actions when nothing is typed |
| FuzzyMatching.ListedIff | packages/tui/src/components/command-palette.ts:185-198 | an action is listed if and only if it matches |
| FuzzyMatching.WholeMatchesInOrder | packages/tui/src/components/command-palette.ts:185-213 | among whole matches, one in a label is listed before one in a description, and that before one only in a category |
| FuzzyMatching.CommandPalette.Filter | packages/tui/src/components/command-palette.ts:185-204 | the palette stores that list and moves the selection into it |
| StyledText.PadEndWidth | packages/tui/src/theme.ts:325-329 | padding with a fill of one visible character, without BEL and not beginning with a letter, makes any text exactly as wide as asked unless it is wider, and keeps what was visible |
| StyledText.PadEndIff | packages/tui/src/theme.ts:325-329 | for every fill string, padding is exact for all texts and widths if and only if the fill is of that kind |
| StyledText.Truncate | packages/tui/src/theme.ts:349-375 | the loop computes the recursive truncation |
| StyledText.TruncatedIs | packages/tui/src/theme.ts:349-375 | styled text that fits is unchanged; otherwise its first characters and their styles stay, and a reset and the suffix end it |
| StyledText.StyledFitsIff | packages/tui/src/theme.ts:349-375 | the result for styled text keeps within the width if and only if nothing was cut or the suffix itself fits |
| StyledText.CellWidthIff | packages/tui/src/theme.ts:325-375 | truncated and padded to one width, styled text is exactly that wide if and only if it fits or the suffix does |
| Truncation.CutIs | packages/tui/src/theme.ts:358-372 | for text with any complete sequences of both kinds the pattern knows, the loop keeps whole items and perhaps part of a sequence, and what it shows is what it counted plus what it skipped less what it counted of sequences |
| Truncation.CutWidth | packages/tui/src/theme.ts:349-375 | that gives the exact visible width of any cut text |
| Truncation.TruncatedFitsIff | packages/tui/src/theme.ts:349-375 | for text with any complete sequences, the result keeps within the width if and only if nothing was cut, or the suffix fits, the loop reached its target and it skipped no more than it counted of sequences |
| Truncation.OneSequenceOverflowsIff | packages/tui/src/theme.ts:360-367 | text with one sequence of any kind, too wide and with a suffix that fits, stays too wide if and only if the cut falls after the sequence begins and either an `m` inside it is followed there by more characters than are still to count, or it holds none and one follows it |

## Left out

- SessionManagers.SessionManager.ExpireRooms: the order of the returned rooms is not modelled, as the loop visits a set of codes; that each expired room is returned once is proved.
- RelayRuns.TimerEndsSession: sends, socket ready states and logging are input and output; a closed socket comes back as a later close event.
- GraceTimers.RunCovers: there is no clock; that a pending timer fires in the end is the event loop's part.
- RateLimits.RetryAfterIsExact: the limit is at least 1; with a limit of 0 the source computes a wait that is no number, as the reply says.
- RateLimits.WindowBound: the clock does not run backwards.
- Channel.RunKeeps: the network does not repeat a KEY_EXCHANGE (the network of `RepeatingNetwork` does), forge messages or reflect them (one reflection is `Channel.ReflectionDeliversIff`), and a handshake is started by hand only from `connecting`, as both callers do.
- Channel.HandshakeCompletesIff: there is no clock; progress is the measure that every arriving key lowers.
- Channel.ReachableDelivers: the order of encrypted and unencrypted messages among each other is not modelled.
- Pairing.RolesDifferIff: everything about session codes and the web socket is left out.
- ConnectionHubs.RunTells: connections are values here; the class keeps the ones its map names.
- FuzzyMatching.FuzzyScore: lower-casing is a parameter; shortcuts and handlers of actions are left out.
- FuzzyMatching.WholeAlwaysWinsIff: lower-casing leaves colons and spaces alone.
- Sanitizer.SanitizeKeepsText: incomplete sequences are covered by `SanitizeIsClean` only.
- Truncation.TruncatedFitsIff: system commands whose text holds an escape character, sequences the text breaks off in, and a suffix with BEL behind text with a system command are left out.
- PeerConnections.PeerConnection.HandleEnvelope: listeners are not modelled beyond whether `error` has one; a listener that sends from `ready`, as the host's does, or throws from `payload` is left out.
- PaneFocus.TidyPanesApart: the region has no negative side; sessions, borders and drawing are left out.
- Strings are sequences of characters; the source counts UTF-16 code units.
- Base64, JSON and key import are abstract: a plaintext is a payload or not JSON, a public key decodes or not.
- The embedded relay's share codes, the clients' reconnect retry and backpressure, permission policy, identity store, engine, scrolling by hand, and all drawing are not part of this model.
