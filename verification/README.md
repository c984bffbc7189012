# A verified model of Wispers

Wispers is a peer-to-peer overlay: an untrusted hub relays messages between nodes, and the nodes agree on
a signed, append-only roster of who belongs to their group. This project states in Dafny what the core of
it does, and proves properties of that model over every input, every run and every interleaving.
`dafny verify dfyconfig.toml` checks it all.

* **Roster chain.** `History` says what a legal history of a group is: one founding, then admissions and
  expulsions, each signed over everything before it. `Roster` has the builders and setters, as functions
  and as methods on a roster that is changed in place, `Verifier` the replaying verifier with its working
  copy and key map. `RosterTheorems` shows that verifier, builders and histories agree exactly;
  `RosterSafety` shows what follows for revocation, and for two rosters with one signer in common.
* **Endorsing and activation.** `Endorsing` has the endorser's codes and pending endorsements,
  `EndorsementLedger` what every run of its calls conserves, `Activation` the ceremony between new
  node and endorser step by step, `CodeLifetime` the life of a code, `NodeLifecycle` and
  `NodeGuarantees` the states of a node and what moves it, with any hub at all, and `Ceremony` the
  ceremony from end to end over a faithful one.
* **Serving session.** `ServingSession` has the serve, reconnect and wait loops, proved against a flat
  machine over the same events, and the endorsing state under them.
* **QUIC connection.** `QuicWakeups` has the waiting operations, the background driver and closing calls as
  interleaved steps, `QuicStreams` stream IDs and the clean-up of dropped streams, and `QuicFins` what
  the clean-up means for finished ones.
* **Connection pool.** `ConnectionPool` has the callers that share connections and the idle clean-up.
* **Codecs and windows.** `PairingCodes`, `Rtt`, `P2pCipher`, `IceSplit` and `GroupAnalysis`.

Cryptography, the hub, clocks and random values are inputs. `Crypto` and `Roster` name the properties of
the cryptography that results rely on, each where it is needed.

Four points where the code is narrower or wider than its description, each with its exact condition and
an input: base-36 secrets with a leading plus sign or underscores are accepted, and do not encode back to
themselves; a pairing code with a negative node number formats to text that does not parse; the group state
reported for a roster at version 0 that is not empty need not agree with the statuses listed; and the
clean-up of dropped streams can reset a send half that was finished, once `accept_stream` has returned a
stream that this side opened, so that the stream has two handles.

## Model

| member | source | states |
|---|---|---|
| RosterTheorems.VerifiesIffLegalHistory | wispers-connect/src/roster.rs:131-446 | Verification accepts a roster exactly if it is the outcome of a legal signed history in which the caller is active under the given key. It reports "verifier revoked" exactly for legal histories that revoked the caller, and "not in roster" exactly for legal histories that never admitted it. All rosters, all callers. |
| RosterTheorems.VerifiesIffBuilt | wispers-connect/src/roster.rs:131-696 | The same with the builders in place of the history semantics: verification accepts exactly what the builders and signature setters produce, event by event, from the default roster along a legal history. |
| RosterTheorems.HistoryUnique | wispers-connect/src/roster.rs:131-210 | A roster has at most one legal history, so what it says happened cannot be read in two ways. |
| RosterTheorems.HistoryDecides | wispers-connect/src/roster.rs:177-209 | For the roster of a legal history the verdict is decided by the caller's standing alone: active keys, key mismatch, revoked or unknown. |
| RosterTheorems.ReplayNeedsOnlyKeys | wispers-connect/src/roster.rs:131-446 | For any two rosters with equal addenda whose node lists answer first-match searches alike, in presence and key, replay gives the same result at every version, faults included: it depends on the input's node list in no other way. |
| RosterTheorems.ReadBack | wispers-connect/src/roster.rs:283-324 | Every event of a legal history is read back from its addendum and from the first-match keys of the node list of any later roster. |
| RosterTheorems.ReplayOfLegal | wispers-connect/src/roster.rs:145-165 | Replaying the addenda of a legal history, up to any version, gives back that prefix of the history. |
| RosterTheorems.BuildersDenote | wispers-connect/src/roster.rs:533-696 | One builder call followed by its signature setters extends the roster of a legal history by exactly one event; the hash the signers compute in between is the digest the verifier recomputes. |
| RosterTheorems.BuildersReachDenoted | wispers-connect/src/roster.rs:533-696 | Running the builders and setters over a whole legal history from the default roster gives the roster that the history denotes. |
| RosterTheorems.RevocationPreservesVerification | wispers-connect/src/node.rs:1123-1150 | A verified roster extended by the holder's own revocation, never verified again, verifies for the holder if and only if the target was active and is not the holder; for every other number and key it verifies if and only if it did before and the number is not the target. |
| RosterTheorems.RevokedOnlyIfActive | wispers-connect/src/node.rs:1098-1104 | The other direction: if a locally built revocation has any legal history at all, that history extends the base by one event and the target was active in the base. |
| RosterTheorems.ActiveNumbersDenoted | wispers-connect/src/roster.rs:14-16 | The numbers of the non-revoked entries of a history's roster are exactly the active members of the group. |
| RosterTheorems.ClearingUndoesSigning | wispers-connect/src/roster.rs:509-522 | Clearing the latest signatures undoes the setters, for activations and revocations alike. |
| Verifier.VerifyRoster | wispers-connect/src/roster.rs:131-210 | The loop over a working copy and a key map that are changed in place returns exactly the verdict of the history semantics, including which error and for which version or node. |
| Verifier.ApplyAndVerifyActivation | wispers-connect/src/roster.rs:239-372 | Reports the first fault of the addendum, or leaves the working copy and the keys as the roster and the active keys of the history extended by the activation. |
| Verifier.ActivationSigners | wispers-connect/src/roster.rs:239-324 | The checks before an activation is applied: the first thing wrong in the order the code looks, or the keys that the two signatures must verify under. |
| Verifier.ApplyAndVerifyRevocation | wispers-connect/src/roster.rs:378-446 | Reports the first fault of the addendum, or leaves the working copy and the keys as those of the history extended by the revocation. |
| Verifier.FaultlessIsLegal | wispers-connect/src/roster.rs:239-446 | An addendum passes all checks if and only if it is a legal next event of the history so far, signed by the right keys over that history. |
| Verifier.ReplayLegal | wispers-connect/src/roster.rs:145-165 | Whatever the replay has accepted so far is a legal history of that many events. |
| Verifier.ReplayFails | wispers-connect/src/roster.rs:145-165 | A fault ends the replay with that error, whatever follows. |
| Verifier.StructureComesFirst | wispers-connect/src/roster.rs:217-232 | A version below 1, or a number of addenda other than the version, is reported exactly as such, before anything else. |
| Verifier.ActivationFaultsMean | wispers-connect/src/roster.rs:239-372 | What each error about an activation says: wrong version, self-endorsement, a number already known, an unlisted newcomer, an undecodable key, an endorser that is not active, or the first signature that does not verify. |
| Verifier.RevocationFaultsMean | wispers-connect/src/roster.rs:378-446 | And about a revocation: wrong version, a revoker or a target that is not active, or a signature that does not verify. |
| Rosters.SigningHashInjective | wispers-connect/src/roster.rs:454-489 | With a collision-free hash and an injective encoding, equal signing hashes come from equal rosters. |
| Rosters.SigningHashSeparated | wispers-connect/src/roster.rs:454-489 | With a collision-free hash, whatever text has a signing hash as its SHA-256 begins with the 34 bytes of the roster domain, and goes on with the encoded roster: no other protocol's message does. |
| Rosters.RosterBuffer.AddActivation | wispers-connect/src/roster.rs:592-616 | In place: version, new node and unsigned addendum; nothing else changes. |
| Rosters.RosterBuffer.AddRevocation | wispers-connect/src/roster.rs:637-660 | In place: version, unsigned addendum, and the first entry of the target marked as revoked; nothing else changes. |
| Rosters.RosterBuffer.MarkNodeRevoked | wispers-connect/src/roster.rs:646-652 | Flags the first entry with the number and no other; a missing number changes nothing. |
| Rosters.RosterBuffer.SetNewNodeSignature | wispers-connect/src/roster.rs:664-672 | Sets that signature of the latest addendum and nothing else. |
| Rosters.RosterBuffer.SetEndorserSignature | wispers-connect/src/roster.rs:676-684 | Sets that signature of the latest addendum and nothing else. |
| Rosters.RosterBuffer.SetRevokerSignature | wispers-connect/src/roster.rs:688-696 | Sets that signature of the latest addendum and nothing else. |
| Rosters.RosterBuffer.ClearLatestAddendumSignatures | wispers-connect/src/roster.rs:509-522 | Empties the signatures of the latest addendum, whatever its kind, and nothing else. |
| Histories.LegalGroups | wispers-connect/src/roster.rs:269-281 | After every prefix of a legal history member numbers are pairwise distinct, active members are members, and every active member's key decodes. |
| Histories.KeysKept | wispers-connect/src/roster.rs:283-324 | A number keeps the key it joined with for the rest of the history. |
| RosterSafety.ReplayKeepsInvariant | wispers-connect/src/roster.rs:145-165 | After every step of the replay: version equals the addenda count, there is one node more than there are activations, node numbers are pairwise distinct, and the key map holds exactly the non-revoked nodes, each under its own decoded key. |
| RosterSafety.RevokedNeverReturns | wispers-connect/src/roster.rs:400-443 | In every roster that verifies for anyone, a number revoked at some version is named by no later addendum: not as newcomer, endorser, revoker or target. |
| RosterSafety.RevokedNeverActs | wispers-connect/src/roster.rs:378-446 | The same over legal histories: after a revocation the number takes part in no later event. |
| RosterSafety.StaysRevoked | wispers-connect/src/roster.rs:417-443 | A member that is not active at one point of a legal history is not active at any later point. |
| RosterSafety.MembersCounted | wispers-connect/src/roster.rs:350-365 | In every legal history the members are one more than the activations. |
| RosterSafety.PrefixAgreement | wispers-connect/src/roster.rs:350-365 | With ideal signatures and injective hashing: if two rosters with legal histories carry a signature of the same owner at the same version, and that owner signed only one roster of that version, then the earlier events and addenda with all their signatures, the payload of that version, and the nodes are identical. |
| RosterSafety.VerifiedRostersAgree | wispers-connect/src/roster.rs:131-210 | The same for any two rosters that verify for any two callers: equal earlier addenda with signatures, equal payload, and equal versions and nodes after replaying up to there. |
| RosterSafety.HashedRoster | wispers-connect/src/roster.rs:477-489 | What the signers of a version hashed determines the whole history before it, and the event itself but for its signatures. |
| RosterSafety.SignaturesAreForRosters | wispers-connect/src/roster.rs:454-489 | An owner with a signature on a verified roster has signed a digest of which every preimage begins with the roster domain: a signature made for any other purpose cannot stand on a roster. |
| NodeLifecycle.EveryCachedRosterVerifies | wispers-connect/src/node.rs:109-1313 | However a node was restored, whatever the hub answered since, and however its shared-reference operations interleaved (including revocations in flight and abandoned ones): an activated node's cached roster verifies for its own number and key. |
| NodeLifecycle.StepIsSafe | wispers-connect/src/node.rs:481-1313 | Each atomic step of register, activate, refresh, logout, peer refetch and revoke keeps that, and keeps every revocation in flight acceptable to its builder. |
| NodeLifecycle.StartedRevocationVerifies | wispers-connect/src/node.rs:1072-1150 | Whatever `revoke_node` builds and signs from a trusted roster verifies for the node itself, though the code never checks. |
| NodeLifecycle.FoundPeersAreMembers | wispers-connect/src/node.rs:818-867 | A peer found in a verified roster is an active member of its history and is returned with the key it joined with. |
| NodeGuarantees.AcceptsExactly | wispers-connect/src/node.rs:725-745 | A pairing reply is accepted exactly if its MAC is under the secret of the code, it is addressed to this node, and it answers this node's nonce; a wrong MAC is reported as such. |
| NodeGuarantees.ActivatesExactly | wispers-connect/src/node.rs:688-810 | `activate` succeeds, whatever the hub answers, exactly if the node is registered, the reply is genuine, a non-empty base verifies for the endorser of the code under the replied key, and the cosigned roster verifies for the node; and then that roster is cached. |
| NodeGuarantees.ActivatedOnlyProperly | wispers-connect/src/node.rs:688-810 | In every run with any hub, a step that makes the node activated is such an `activate`, or a refresh whose roster already has the node as a member and verifies for it. |
| NodeGuarantees.NumberKept | wispers-connect/src/node.rs:462-501 | A node leaves Pending only by registering, under the number granted, returns there only by logging out, and keeps its number in between. |
| NodeGuarantees.RevocationTakesEffect | wispers-connect/src/node.rs:1072-1150 | `revoke_node` starts exactly for an active member other than the node itself; its roster has one version and one addendum more, names this node and the target, revokes the target and nobody else, keeps every other entry and all earlier addenda, and reports "verifier revoked" to the target under every key. |
| NodeGuarantees.RevocationFinishes | wispers-connect/src/node.rs:1106-1116 | In every run with any hub, a finishing revocation changes the cached roster only if the hub accepted it, and then to what an earlier step made, in that way, of the roster cached at that time. |
| NodeGuarantees.AssessExactly | wispers-connect/src/node.rs:1158-1210 | A fetched roster makes the node registered exactly if it lists no such number, activated exactly if it has a legal history in which the node is active under its own key, and revoked exactly if it has one that revoked it. |
| NodeGuarantees.FindsExactly | wispers-connect/src/node.rs:839-867 | A refetch finds a peer exactly if the roster has a legal history with both the node (under its key) and the peer active, and returns the peer's key of that history; it reports revocation exactly if the history revoked the node. |
| NodeGuarantees.LastCannotLeave | wispers-connect/src/node.rs:1269-1272 | Logging out is refused for want of others exactly if the node is the only active member of its roster. |
| NodeGuarantees.LogoutLeavesSomeone | wispers-connect/src/node.rs:1234-1313 | When it is not refused, the self-revocation submitted revokes this node and nobody else, and the roster still verifies for some other active member. |
| NodeGuarantees.LeavesExactly | wispers-connect/src/node.rs:1234-1313 | The local state is deleted exactly if the node is pending, or the hub let it go or no longer knows it, at the step where that is asked. |
| NodeGuarantees.OperationsTakeEffect | wispers-connect/src/node.rs:481-1313 | Exclusive operations that find nothing in flight, and refetches that finish, have the effect that the results above describe, and no other. |
| NodeGuarantees.RestoresExactly | wispers-connect/src/node.rs:109-182 | Start-up is pending exactly without a stored registration, else what the fetched roster makes of it, else the hub's error. |
| NodeLifecycle.LiveNode.RestoreOrInit | wispers-connect/src/node.rs:109-182 | Start-up from the store and a fetched roster: pending, registered, activated with a roster that verifies, revoked, or the error. |
| NodeLifecycle.LiveNode.RegisterWithHub | wispers-connect/src/node.rs:481-501 | Only from pending; state and stored registration change together or not at all, and always agree on the number. |
| NodeLifecycle.LiveNode.ActivateWith | wispers-connect/src/node.rs:688-810 | The checks in the order of the code; the state changes only if the cosigned roster verifies for this node. |
| NodeLifecycle.LiveNode.RefreshMembership | wispers-connect/src/node.rs:1158-1210 | Follows what the fetched roster says of this node; on an error nothing changes. |
| NodeLifecycle.LiveNode.LogOut | wispers-connect/src/node.rs:1234-1313 | Local state is deleted exactly if the hub let go of the node or no longer knows it; a failed logout changes nothing, and the last active node cannot log out. |
| NodeLifecycle.LiveNode.BeginRevokeNode | wispers-connect/src/node.rs:1072-1104 | The refusals in order, or the signed revocation, which verifies for this node. |
| NodeLifecycle.LiveNode.FinishRevokeNode | wispers-connect/src/node.rs:1106-1116 | Caches what was built without verifying it, and stays in a valid state. |
| NodeLifecycle.LiveNode.FindCachedPeer | wispers-connect/src/node.rs:823-838 | The first active entry of the cached roster with that number, if there is one. |
| NodeLifecycle.LiveNode.FinishFindPeer | wispers-connect/src/node.rs:839-867 | Caches the fetched roster only if it verifies and has the peer. |
| Ceremony.CeremonyActivates | wispers-connect/src/node.rs:688-810 | End to end over a faithful hub: in any run of the endorser in which the code is outstanding, the new node pairs; after any calls about other nodes, and for an empty base or any base that verifies for the endorser without the new node, the endorser cosigns, `activate` ends with the new node Activated on the cosigned roster, and that roster verifies for the endorser too. |
| Ceremony.GeneratedCodeActivates | wispers-connect/src/node.rs:688-810 | From the code to the activated node: the endorser gives out a code in any state; after any calls that do not use it up, before it expires, the new node pairs with it; and after any calls about others the ceremony completes as above. |
| Ceremony.GoodBaseListsEndorser | wispers-connect/src/roster.rs:184-206 | A base that verifies for the endorser lists it under its own key bytes, as encodings of keys are canonical. |
| Ceremony.CallsKeepPending | wispers-connect/src/serving.rs:169-331 | A pending endorsement survives every run of calls about other nodes unchanged. |
| Activation.CeremonyVerifiesForBoth | wispers-connect/src/node.rs:757-800 | The half after pairing: the base passes the check; the endorser cosigns the proposal exactly if the base is empty or lists it under its own key bytes; and the cosigned roster verifies for new node and endorser alike. |
| Activation.PairingSucceeds | wispers-connect/src/serving.rs:169-238 | While the code is outstanding, the endorser answers the request made from it, stores the new node's key and both nonces, and the new node accepts the reply, which names endorser and new node. |
| Activation.HashesAgree | wispers-connect/src/serving.rs:315-323 | The hash of the cleared clone that the endorser signs is the hash the new node signed. |
| Activation.CosignOfProposal | wispers-connect/src/serving.rs:241-331 | The exact condition for cosigning a proposal made from the stored pairing, and that the signature is over the hash of the unsigned proposal. |
| Activation.UnsealedDenotes | wispers-connect/src/node.rs:764-787 | The proposal is the builders' extension of the base history by the ceremony's activation. |
| EndorsementLedger.EveryRunIsSound | wispers-connect/src/serving.rs:111-332 | Over every run of generate, pair and cosign calls at any times: each generated code is still outstanding, expired or consumed by a pairing, counted exactly; each pairing's MAC is under the code it consumed; each cosignature answers a distinct earlier pairing whose number, nonces and key equal those in the request and is over the cleared roster; the cap of 100 holds. |
| EndorsementLedger.CodesUsedOnce | wispers-connect/src/serving.rs:186-205 | A code generated once is consumed by at most one successful pairing. |
| EndorsementLedger.PairsWithinTtl | wispers-connect/src/serving.rs:121-200 | In every run a pairing succeeds only under a code that an earlier call gave out and whose time to live is not over. |
| EndorsementLedger.CodesAreIssued | wispers-connect/src/serving.rs:144-160 | Every outstanding code was given out by a call of the run and expires when that call said. |
| CodeLifetime.GrantedExactly | wispers-connect/src/serving.rs:144-153 | A code is given out exactly while fewer than 100 live codes and pending endorsements are outstanding. |
| CodeLifetime.GrantedIsOutstanding | wispers-connect/src/serving.rs:155-160 | A code given out is outstanding afterwards, with the time to live it was asked for. |
| CodeLifetime.CodeStays | wispers-connect/src/serving.rs:111-238 | In every run an outstanding code stays so, whatever calls come, until it expires or a successful pairing uses it up. |
| CodeLifetime.MacBinds | wispers-connect/src/crypto.rs:208-221 | With HMAC and encoding free of collisions, equal MACs mean the same secret and the same payload, field by field. |
| CodeLifetime.PairsExactly | wispers-connect/src/serving.rs:169-205 | A message pairs exactly if its MAC was made, over this very payload, with a code that is outstanding and alive; and it uses up that code. |
| EndorsementLedger.LedgerGrows | wispers-connect/src/serving.rs:111-332 | Nothing in the past is rewritten, and a new cosignature answers a pairing that was there before the call. |
| EndorsementLedger.FailedCallsLeaveNoTrace | wispers-connect/src/serving.rs:144-331 | In every run, a generate, pair or cosign call that fails might as well not have been made: every later call, whatever comes in between, gets the answer it would have got without it. |
| EndorsementLedger.OutstandingPruned | wispers-connect/src/serving.rs:121-124 | Pruning moves each expired code from outstanding to expired, counted per code. |
| Endorsing.EndorsingState.PruneExpired | wispers-connect/src/serving.rs:121-124 | Keeps exactly the unexpired codes, in order. |
| Endorsing.EndorsingState.GenerateActivationCode | wispers-connect/src/serving.rs:144-166 | Gives out a code exactly while codes and pending endorsements, after pruning, are below the cap; the new state in full, with the code stored. |
| Endorsing.EndorsingState.Position | wispers-connect/src/serving.rs:188-192 | The first code under which the MAC verifies. |
| Endorsing.EndorsingState.PairNodes | wispers-connect/src/serving.rs:169-238 | Result, reply and new state: a consumed code, one pending endorsement; on each error only pruning. |
| Endorsing.EndorsingState.RosterCosign | wispers-connect/src/serving.rs:241-331 | Which check fails first, or the signature, with the pending endorsement removed. |
| ServingSession.Session.RunSession | wispers-connect/src/serving.rs:529-563 | The nested loops end in success, in an error or still running exactly as the flat machine does over the same events, each time with the same endorsing state. |
| ServingSession.Session.ServeLoop | wispers-connect/src/serving.rs:567-604 | Ends as shutdown, fatal or disconnected exactly when the machine leaves the serving phase that way. |
| ServingSession.Session.Reconnect | wispers-connect/src/serving.rs:607-650 | Attempts and waits follow the machine; the k-th wait is scheduled with the k-th base delay. |
| ServingSession.Session.WaitWhileServicingCommands | wispers-connect/src/serving.rs:654-667 | Commands keep being answered during the wait; it ends by sleeping through or by a stop. |
| ServingSession.Session.DispatchCommand | wispers-connect/src/serving.rs:673-698 | Stops exactly for a shutdown or a closed channel, and changes the endorsing state only as the command says. |
| ServingSession.ReconnectBackoff.NextDelay | wispers-connect/src/serving.rs:361-380 | The k-th call since the backoff was created returns base delay min(2^k, 30) seconds, and a jittered delay within 20 percent. |
| ServingSession.DelaysDouble | wispers-connect/src/serving.rs:361-380 | The base delays are 1, 2, 4, 8 and 16 seconds, and 30 from then on. |
| ServingSession.FailuresCounted | wispers-connect/src/serving.rs:607-650 | In every run, the number of failures the schedule goes by is that of the attempts that failed since the stream was last up. |
| ServingSession.UnpolledIgnored | wispers-connect/src/serving.rs:567-667 | What is not waited for in a phase changes nothing there. |
| ServingSession.EndsExactly | wispers-connect/src/serving.rs:529-563 | Over every run: `run` returns Ok if and only if a shutdown or a closed command channel was met while live, and Err if and only if an unauthenticated failure was. |
| ServingSession.OtherFailuresReconnect | wispers-connect/src/serving.rs:541-650 | In every run, a live session is away from its stream exactly from losing it (other than by a rejection) until an attempt succeeds; and one success, after the wait if one is on, has it serving again with the same endorsing state. |
| ServingSession.EndsForGood | wispers-connect/src/serving.rs:529-563 | A session that has ended takes no further part in anything. |
| ServingSession.SessionRunsEndorser | wispers-connect/src/serving.rs:673-803 | The endorsing state after any session is that of the plain run of the generate, pair and cosign calls it dispatched, connected or not. |
| ServingSession.CapHoldsAlways | wispers-connect/src/serving.rs:144-166 | In every reachable state of every session, outstanding codes and pending endorsements together never exceed 100, and the whole ledger invariant holds. |
| ServingSession.CommandsAlwaysServed | wispers-connect/src/serving.rs:654-698 | In every run, in every live phase, connected or not: a generate command below the cap leaves its code outstanding, and no command but shutdown disturbs the connection state. |
| QuicWakeups.NoLostWakeups | wispers-connect/src/quic.rs:844-909 | In every interleaving of `handshake`, `ping`, `open_stream`, `accept_stream`, `read`, `poll_read`, `poll_write` and `close_with_error` with the driver, for tasks that poll for any number of things: an operation that waits on an unfired notification (or a poll whose task was not woken) although it could return implies that the driver or a closing call is still between its change and telling it; and although the driver has exited, that the driver itself is, or that a closing call holds that very waker. |
| QuicWakeups.QuietMeansTold | wispers-connect/src/quic.rs:844-909 | Whenever the driver is back in its loop and every closing call is through, every operation that could return has been notified or woken. |
| QuicWakeups.ReturnsJustly | wispers-connect/src/quic.rs:603-689 | Nobody returns early: an operation that is not dropped leaves only when it can return or the driver has exited. |
| QuicWakeups.WaiterCanReturn | wispers-connect/src/quic.rs:603-909 | In every run, an operation that waits although it could return does so without any further event: what the driver or a closing call still owes it, and its own next round, are enough. |
| QuicWakeups.PollerCanReturn | wispers-connect/src/quic.rs:1083-1180 | Likewise a parked poll: its task is woken, polls again and gets its answer. |
| QuicWakeups.OperationsWait | wispers-connect/src/quic.rs:603-833 | An operation that can return nothing arms itself, checks, and waits. |
| QuicWakeups.PollsWait | wispers-connect/src/quic.rs:1083-1180 | A poll that can answer nothing leaves its waker in the registry; one that finds the connection locked wakes itself. |
| QuicWakeups.RoundsBegin | wispers-connect/src/quic.rs:1083-1180 | A woken task that polls again has used up that wakeup and starts a new round. |
| QuicWakeups.DriverEvents | wispers-connect/src/quic.rs:850-901 | The driver takes in packets, timeouts and its own stop while it runs, and only then, and each is followed by a notification or by its exit. |
| QuicWakeups.ApplicationEvents | wispers-connect/src/quic.rs:700-715 | Application calls change the connection; a closing one does so once. |
| QuicWakeups.NobodyWaitsForTheDead | wispers-connect/src/quic.rs:902-909 | Once the driver is gone, every armed notification has fired, and every parked poll is woken or its waker is in the hands of a closing call that has taken it and has yet to wake it. |
| QuicWakeups.EveryRunIsSafe | wispers-connect/src/quic.rs:362-378 | The invariant over every run: an armed unfired notification misses nothing its task has checked, and the waker of every polling task not yet woken is in the registry or taken by the driver or by a closing call. |
| QuicWakeups.NotificationWakesAll | wispers-connect/src/quic.rs:362-368 | One notification of the driver fires every armed notification and wakes every registered waker, in whatever order, and leaves the registry empty. |
| QuicWakeups.WakerRegistry.Register | wispers-connect/src/quic.rs:373-378 | The task is registered afterwards and listed once, however often it polls. |
| QuicWakeups.WakerRegistry.WakeAll | wispers-connect/src/quic.rs:364-367 | Empties the registry and wakes exactly the tasks that were in it. |
| QuicStreams.EveryRunIsSound | wispers-connect/src/quic.rs:726-833 | Over any run with any number of concurrent callers: opened IDs strictly increase, are 0 mod 4 for a client and 1 mod 4 for a server, and are each opened on positive credit and below the peer's limit of that time, never more of them than that limit; no ID is accepted twice; drops are drained once and in order. |
| QuicStreams.NeverOverAllocates | wispers-connect/src/quic.rs:752-769 | However many openers ran before: no more streams are open than the peer allows; an opener that finds credit gets the next ID if and only if fewer indexes were lost to failing sends than there is credit, hence always as long as no send failed for a reason of its own. |
| QuicStreams.OpensExactly | wispers-connect/src/quic.rs:739-772 | After any run, `open_stream` hands out a stream, with the next ID of its kind, exactly if the connection is open, the driver has not exited, there is credit, and the connection takes the send. |
| QuicStreams.RefusedDespiteCredit | wispers-connect/src/quic.rs:752-769 | An input on the other side, if a send below the limit can fail without opening its stream, which the code allows for and the connection is not said to exclude: the next opener finds credit and is refused. |
| QuicStreams.NextDrainCleansUp | wispers-connect/src/quic.rs:460-479 | After any run of opens, accepts, finishes, reads and drops, the next open or accept leaves nothing pending, and each half of each stream has been shut down exactly as often as a dropped handle of it left that half unfinished. |
| QuicFins.ResetExactly | wispers-connect/src/quic.rs:460-479 | Exactly when a recorded FIN is not safe: after any run, the next open or accept leaves reset a send half that some handle finished, if and only if another handle of the same stream had been dropped unfinished. |
| QuicFins.OneHandleExactly | wispers-connect/src/quic.rs:794-833 | In every run, each stream has at most one handle if and only if `accept_stream` has returned no stream that this side opened. |
| QuicFins.FinishedStaysFinished | wispers-connect/src/quic.rs:472-478 | As long as it has not, no send half whose FIN was recorded is reset, at any moment of any run. |
| QuicFins.ResetMeansTorn | wispers-connect/src/quic.rs:460-479 | At any moment of any run, drained or not, a finished half that was reset has a second handle dropped unfinished. |
| QuicFins.SecondHandleTruncates | wispers-connect/src/quic.rs:806-816 | The failing family: in any run that leaves a stream with two handles in use, finishing one, dropping the other and accepting once more resets the finished half. |
| QuicFins.OwnStreamAccepted | wispers-connect/src/quic.rs:806-816 | An input: a client opens stream 0, and `accept_stream` returns it once the peer has answered. |
| QuicStreams.CleanUpExactly | wispers-connect/src/quic.rs:464-478 | A drain asks for a half exactly as often as the drops it cleans up left it unfinished. |
| QuicStreams.EveryRunMatches | wispers-connect/src/quic.rs:1213-1229 | Across any opens, accepts, finishes, reads and drops: the recorded drops are one to one with the handles left unclean, each with the FINs it had at the end. |
| QuicStreams.FinsRecorded | wispers-connect/src/quic.rs:1052-1065 | A FIN sent or received through a handle is recorded with that handle and nowhere else. |
| QuicStreams.Streams.Drain | wispers-connect/src/quic.rs:460-479 | Takes the whole queue and issues its shutdowns in order. |
| QuicStreams.Streams.Drop | wispers-connect/src/quic.rs:1213-1229 | Queues the stream with its FIN flags unless both halves are finished. |
| QuicStreams.Streams.TryOpen | wispers-connect/src/quic.rs:742-769 | The locked section of `open_stream`: its outcome and all bookkeeping; a failed send still uses up an index. |
| QuicStreams.Streams.TryAccept | wispers-connect/src/quic.rs:799-822 | The locked section of `accept_stream`: the first readable stream not accepted yet, or none. |
| ConnectionPools.SingleFlight | wconnect/src/proxy_common.rs:93-140 | At every moment of every interleaving of calls, cancellations and clean-ups at most one connect is in flight per target, and it fills the cell that new callers will find. |
| ConnectionPools.OnlyConnectionsLeave | wconnect/src/proxy_common.rs:121-163 | Whatever a step takes out of the map held a connection: either idle for the timeout, or the exact cell whose connection the evicting call saw fail; a newer cell or one being set up is never taken. |
| ConnectionPools.IdleConnectionsExpire | wconnect/src/proxy_common.rs:143-163 | In every run a clean-up takes a target out if and only if it has a connection and no call asked for it within the last 60 seconds. |
| ConnectionPools.RetriesMoveOn | wconnect/src/proxy_common.rs:98-139 | A call sees at most two connections fail and gives up with a stream error exactly then; the second attempt is always on a newer cell than the first; and a call that succeeds does so on a connection established for its target. |
| ConnectionPools.EachConnectionLeavesOnce | wconnect/src/proxy_common.rs:93-163 | Conservation over every run: each cell made is in the map or holds a connection, was connected at most once, and has left the map exactly once or never, according to whether it is missing. |
| ConnectionPools.ReturnedForGood | wconnect/src/proxy_common.rs:93-140 | In every run the answer of a call that has returned stands. |
| ConnectionPools.EveryRunIsSound | wconnect/src/proxy_common.rs:93-163 | The invariant behind these, over every run; every eviction in the log has an earlier failure of the same call on the same cell. |
| ConnectionPools.SoloIsARun | wconnect/src/proxy_common.rs:93-140 | The retry loop run without interruption is one of the interleavings: same pool, same outcome. |
| ConnectionPools.ConnectionPool.Checkout | wconnect/src/proxy_common.rs:101-109 | Finds or makes the cell of the target and marks it used; identity of cells is identity of objects. |
| ConnectionPools.ConnectionPool.EvictIfSame | wconnect/src/proxy_common.rs:125-131 | Evicts the entry only if it still holds this very cell. |
| ConnectionPools.ConnectionPool.CleanUpIdle | wconnect/src/proxy_common.rs:143-163 | Keeps exactly the entries used within the timeout and those without a connection yet. |
| ConnectionPools.ConnectionPool.OpenStream | wconnect/src/proxy_common.rs:93-140 | The retry loop: pool and outcome for every combination of cached cell, connect result and stream result. |
| PairingCodes.DecodeEncode | wispers-connect/src/crypto.rs:238-270 | Every 7-byte or 9-byte secret encodes to base-36 text of the profile's width and decodes to itself. |
| PairingCodes.EncodeDecode | wispers-connect/src/crypto.rs:238-270 | For every accepted text, encoding the decoded secret gives its lower case if and only if the text is made of base-36 digits only. |
| PairingCodes.PlusIsAccepted | wispers-connect/src/crypto.rs:252-270 | An input on the other side: eleven characters with a leading plus sign are accepted and do not encode back. |
| PairingCodes.UnderscoreIsAccepted | wispers-connect/src/crypto.rs:252-270 | Another: so are eleven characters with an underscore. |
| PairingCodes.RejectedExactly | wispers-connect/src/crypto.rs:252-270 | A text of a valid width that reads as a number is rejected if and only if the number reaches 256^7 or 256^9. |
| PairingCodes.WidthsAreMinimal | wispers-connect/src/crypto.rs:32-75 | The widths 11 and 14 hold every secret of their profile and no smaller width does. |
| PairingCodes.ParseFormat | wispers-connect/src/crypto.rs:291-310 | A code with a valid secret parses back to itself if and only if its node number is not negative. |
| PairingCodes.SameWidthSameDigits | wispers-connect/src/crypto.rs:238-249 | At equal width two notations of one number are equal. |
| PairingCodes.AlphabetIsStandard | wispers-connect/src/crypto.rs:238-270 | The digits are 0 to 9 and a to z in this order; upper case reads like lower case, and nothing else is a digit. |
| PairingCodes.EncodesTheNumber | wispers-connect/src/crypto.rs:238-249 | The text is the base-36 notation, most significant digit first, of the big-endian number that the bytes are. |
| PairingCodes.ParseExactly | wispers-connect/src/crypto.rs:296-310 | A text parses to a code exactly if it is a 32-bit number, one dash and an accepted secret, without any other dash. |
| PairingCodes.ReadsExactly | wispers-connect/src/crypto.rs:301-303 | The number part reads exactly if it is decimal digits with at most one sign in front, in the range of 32 bits. |
| PairingCodes.LeadingMarksRejected | wispers-connect/src/crypto.rs:252-257 | A text that starts with an underscore, with plus and underscore, or with two plus signs is no base-36 number. |
| PairingCodes.ProfileLengths | wispers-connect/src/crypto.rs:32-75 | Secrets have 7 or 9 bytes and texts 11 or 14 characters, each length belonging to one profile. |
| Rtt.ObserveMovesWindow | wispers-connect/src/rtt.rs:51-59 | The deque refines the full history: one more observation turns the window of the history into the window of the longer history. |
| Rtt.RttEstimator.Observe | wispers-connect/src/rtt.rs:51-59 | In place, the deque stays the last at most 8 samples younger than 5 minutes. |
| Rtt.RttEstimator.Estimate | wispers-connect/src/rtt.rs:31-48 | The minimum of the retained samples still fresh, or of all retained ones if none is. |
| Rtt.EstimateMeans | wispers-connect/src/rtt.rs:31-48 | For every history in order of time: None exactly before the first sample; the least of those among the last 8 that are younger than 5 minutes, if the latest one is; else one of the last 8. |
| Rtt.LatestRemembered | wispers-connect/src/rtt.rs:31-59 | After the first observation the window is never empty and always ends with the latest sample. |
| Rtt.WindowExactly | wispers-connect/src/rtt.rs:51-59 | What is remembered is the longest run of latest samples that is at most 8 long and all younger than 5 minutes. |
| P2pCipher.RunBoth | wispers-connect/src/encryption.rs:122-187 | Both ends run, each with its own counter, under any interleaving of sends and deliveries, with loss, reordering and duplication: every packet is the seal of its text under the direction's keys and the number of the send, and the other end decrypts every delivered packet to exactly the text sent. |
| P2pCipher.DeliveredIntact | wispers-connect/src/encryption.rs:51-116 | Any packet of any interleaving of sends decrypts under the keys of its direction to exactly the text sent. |
| P2pCipher.DecryptPacket | wispers-connect/src/encryption.rs:92-116 | Parsing undoes the packet layout and the sealed text opens, for every 64-bit sequence number. |
| P2pCipher.NoncesDistinct | wispers-connect/src/encryption.rs:215-228 | Within 2^64 sends no end uses a nonce twice. |
| P2pCipher.NoncesRepeatExactly | wispers-connect/src/encryption.rs:215-221 | Two sends of one end share a nonce if and only if their numbers are equal modulo 2^64. |
| P2pCipher.NoKeyAndNonceTwice | wispers-connect/src/encryption.rs:190-228 | With HKDF free of collisions: of all packets of a connection, from both ends and within 2^64 sends each, no two share key and nonce; the two directions have different keys. |
| P2pCipher.ConnectionsApart | wispers-connect/src/encryption.rs:190-212 | Nor do connections that differ in their secret, or in their ID modulo 2^64, share a key in any direction. |
| P2pCipher.KeysApart | wispers-connect/src/encryption.rs:190-212 | Two directions have the same key exactly if they are the same direction of the same connection. |
| P2pCipher.PrefixesApart | wispers-connect/src/encryption.rs:203-209 | And likewise the same nonce prefix. |
| P2pCipher.ForeignPacketsRejected | wispers-connect/src/encryption.rs:92-116 | With ideal encryption, no end accepts a packet that it sent itself, nor one of another connection. |
| P2pCipher.DecryptsOnlyPackets | wispers-connect/src/encryption.rs:92-116 | Nothing decrypts but a packet sealed under these keys with the sequence number it carries in the clear. |
| P2pCipher.AadsDiffer | wispers-connect/src/encryption.rs:223-228 | The additional data begins with its label and binds the sequence number. |
| P2pCipher.Sizes | wispers-connect/src/encryption.rs:190-228 | Key, nonce and additional data have 32, 12 and 24 bytes. |
| P2pCipher.Cipher.Encrypt | wispers-connect/src/encryption.rs:51-73 | Advances the counter by one, modulo 2^64, and seals under the old value. |
| P2pCipher.Cipher.Caller | wispers-connect/src/encryption.rs:129-151 | Sends on the caller-to-answerer keys and receives on the others. |
| P2pCipher.Cipher.Answerer | wispers-connect/src/encryption.rs:154-176 | The same, mirrored. |
| IceSplit.SplitRemoteDescription | wispers-connect/src/ice.rs:285-299 | The loop returns the trimmed non-empty lines that are neither candidates nor end markers, each with CRLF, and the candidate lines, both in order. |
| IceSplit.PartitionMergesBack | wispers-connect/src/ice.rs:285-299 | Order-preserving partition: credentials, candidates and end markers merge back into the trimmed lines, each line once. |
| IceSplit.PilesExactly | wispers-connect/src/ice.rs:289-297 | A line is among the candidates, the end markers or the credentials exactly by how it begins. |
| IceSplit.SplittingTwice | wispers-connect/src/ice.rs:285-299 | Splitting the produced credentials again returns them unchanged, with no candidates and no end markers. |
| GroupAnalysis.MeaningExactly | wispers-connect/src/node.rs:550-632 | For every hub list and every roster: length and order are kept and each reported state holds exactly when the listed statuses and our membership say so, if and only if the version is above 0, or no two listed nodes are unrevoked, or some active member is listed, or the roster has no active member and revokes no listed node. |
| GroupAnalysis.StateMeans | wispers-connect/src/node.rs:550-632 | In particular for every roster that is empty at version 0. |
| GroupAnalysis.StatusOfMembers | wispers-connect/src/node.rs:583-596 | For a roster with a legal history and a listed active member, each node's status is its standing in that history: active, revoked, or never admitted. |
| GroupAnalysis.StatusOfStrangers | wispers-connect/src/node.rs:576-590 | Of a roster none of whose active members is listed, nothing is shown but that the nodes are registered. |
| GroupAnalysis.BootstrapWithRevokedAtVersionZero | wispers-connect/src/node.rs:550-632 | An input outside that condition: `Bootstrap` is reported of a list that shows a revoked node. |
| GroupAnalysis.NeedActivationByNobodyAtVersionZero | wispers-connect/src/node.rs:550-632 | Another: `NeedActivation` is reported of a list in which nobody is shown as activated. |

## Left out

- Cryptography and protobuf encoding: Ed25519, SHA-256, HKDF, HMAC, AES-GCM, X25519 and the encoding of messages are parameters (`Primitives`, `Scheme`, `Aead`) with the properties each result needs as its preconditions: signatures verify, hashing is collision free, encoding is injective, an owner's valid signatures are on what it signed, HMAC and HKDF are collision free, sealed text opens and nothing else does.
- The verifier's own key: `verify_roster` takes a decodable key; the caller that could pass an undecodable one is `activate`, where the error `UndecodableEndorserKey` stands for the panic.
- Panics of setters and of `compute_signing_hash`: the addendum kind, a version one above the base, and empty latest signatures are preconditions, as the source demands of its callers.
- Version overflow: the 64-bit version is an unbounded integer; a verified roster's version is its number of addenda, so it cannot get near the limit.
- Ceremony.CeremonyActivates: assumes a hub that relays faithfully, and that the endorser's key has one encoding, as strict DER gives it. With any other hub the node still verifies what it gets, which `NodeLifecycle.EveryCachedRosterVerifies` covers.
- Activation.PairingSucceeds: assumes that no other outstanding code happens to verify the MAC of the request; `Ceremony.GeneratedCodeActivates` derives that from HMAC being free of collisions.
- Endorsing.EndorsingState.RosterCosign: claims only what the code compares: nonces, endorser number, and the two node-list keys found under the request's number and its own. The rest of a submitted roster is not checked by the endorser.
- QuicStreams.EveryRunIsSound: of the connection itself only the peer's limit and the number of streams opened are modelled. The IDs counted as opened include those whose flush failed afterwards, so the IDs actually returned are some of them, in the same order.
- QuicWakeups.NoLostWakeups: tasks and driver are steps of a state machine rather than loops, since what matters is how they interleave. It covers driver exits through the loop's own breaks. Not covered: the abort when a `Connection` is dropped, `write_all` after the exit, the zero-byte branch of `poll_read` without FIN, and errors of `flush_send`, after which a closing call returns without notifying, and a `close_with_error` future dropped while it flushes, which never notifies either. Reads, writes and opens are taken to make no waiting operation ready, and a contended `try_lock` re-wakes its own task.
- P2pCipher.NoncesDistinct: holds for at most 2^64 sends per direction, after which the counter wraps; `NoncesRepeatExactly` says when.
- Stream index wrap: `next_stream_index` is an unbounded number.
- NodeLifecycle.LiveNode.RegisterWithHub: the store always accepts the registration and its deletion. If saving fails, memory and store may differ, and nothing is claimed then.
- Node revocation: being revoked is not claimed to be final for a node: `refresh_membership` follows whatever roster the hub returns. Within the roster chain it is final (`RosterSafety.RevokedNeverReturns`).
- `new_activated_for_test`, root-key generation, `status`, welcome messages: bypass or only report the modelled state.
- Rtt.RttEstimator.Observe: observations are atomic and in the order of their times; the code reads the clock before it takes the lock, so two of them could be stored out of order.
- ConnectionPools.ConnectionPool.OpenStream: takes the results of connecting and of opening a stream as inputs, and runs without interruption when nobody is connecting to the target; the interleaved calls are steps of the state machine.
- Session events: an event that the current `select!` does not poll is ignored rather than kept; check-ins and the handling of connection requests change nothing that is modelled.
- Texts: reasons and messages inside errors.
- I/O and the rest: SOCKS and HTTP proxies, the port allowlist, relay loops, IPC, the command line, the C interface and the other languages' wrappers, ICE and hub connections, logging, real clocks and random numbers.
