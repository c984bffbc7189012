/**
 What the operations of a node do to it (node.rs), whatever the hub answers: what it takes to become
 activated, what a revocation changes, what a fetched roster makes of the node, and who may log out.
 */
module NodeGuarantees {
  import opened Prelude
  import opened Crypto
  import opened Rosters
  import opened Histories
  import opened Verifier
  import opened RosterTheorems
  import opened PairingCodes
  import opened Endorsing
  import opened Activation
  import opened NodeLifecycle

  //-- Becoming activated --------------------------------------------------------------------------

  /** The reply is authenticated with the secret of the code, meant for us, and answers our nonce. */
  ghost predicate Genuine(c: Pairer, self: Int32, code: PairingCode, nonce: Bytes, response: PairMessage) {
    && response.payload.Some?
    && response.mac == ComputeMac(c, code.secret, response.payload.value)
    && response.payload.value.receiver == self
    && response.payload.value.replyNonce == nonce
  }

  /** The base is empty, or verifies for the endorser named by the code under the key it replied with. */
  ghost predicate BaseVouched(s: Scheme, base: Roster, code: PairingCode, spki: Bytes) {
    base.version > 0 ==>
      && s.crypto.decodeSpki(spki).Some?
      && Verdict(s, base, code.number, s.crypto.decodeSpki(spki).value).Ok?
  }

  /** A reply is accepted exactly if it is genuine, and a missing one is told apart from a forged one. */
  lemma AcceptsExactly(c: Pairer, self: Identity, code: PairingCode, nonce: Bytes, response: PairMessage)
    ensures AcceptReply(c, self, code, nonce, response).Ok? <==> Genuine(c, self.number, code, nonce, response)
    ensures AcceptReply(c, self, code, nonce, response).Ok? ==>
              AcceptReply(c, self, code, nonce, response).value == response.payload.value
    ensures response.payload.Some? && response.mac != ComputeMac(c, code.secret, response.payload.value) ==>
              AcceptReply(c, self, code, nonce, response) == Err(MacVerificationFailed)
    ensures response.payload.None? ==> AcceptReply(c, self, code, nonce, response) == Err(MissingEndorserResponse)
  {
  }

  /** Exactly when `activate` succeeds, whatever the hub answers, and what the node is then. */
  lemma ActivatesExactly(c: Pairer, sk: SigningKey, inner: Inner, code: PairingCode, nonce: Bytes,
                         response: Result<PairMessage, HubError>, base: Result<Roster, HubError>,
                         cosigned: Result<Roster, HubError>)
    ensures var r := Activate(c, sk, inner, code, nonce, response, base, cosigned);
            && (r.Ok? <==>
                  && inner.Registered? && response.Ok? && base.Ok? && cosigned.Ok?
                  && Genuine(c, inner.number, code, nonce, response.value)
                  && BaseVouched(c.scheme, base.value, code, response.value.payload.value.spki)
                  && OwnVerdict(c.scheme, sk, inner.number, cosigned.value).Ok?)
            && (r.Ok? ==> r.value == Activated(inner.number, cosigned.value))
  {
    hide Verdict, AcceptReply;
    if inner.Registered? && response.Ok? {
      AcceptsExactly(c, Identity(inner.number, sk), code, nonce, response.value);
    }
  }

  /** A node is activated only on a genuine reply to its own request, over a base the endorser vouches for. */
  ghost predicate ActivatedProperly(c: Pairer, before: Inner, step: Step) {
    && before.Registered? && step.DoActivate? && step.response.Ok? && step.base.Ok? && step.cosigned.Ok?
    && Genuine(c, before.number, step.code, step.nonce, step.response.value)
    && BaseVouched(c.scheme, step.base.value, step.code, step.response.value.payload.value.spki)
  }

  /**
   In every run with any hub: a step that activates the node is an `activate` on a genuine reply, or a
   refresh whose roster verifies for the node, which is a member of it already.
   */
  lemma ActivatedOnlyProperly(c: Pairer, sk: SigningKey, saved: Option<Int32>, fetched: Result<Roster, HubError>,
                              steps: seq<Step>, step: Step)
    requires SignsCorrectly(c.scheme.crypto, sk) && Restore(c.scheme, sk, saved, fetched).Ok?
    requires var start := Restore(c.scheme, sk, saved, fetched).value;
             !Run(c, sk, start, steps).inner.Activated? && Run(c, sk, start, steps + [step]).inner.Activated?
    ensures var start := Restore(c.scheme, sk, saved, fetched).value;
            var before, after := Run(c, sk, start, steps).inner, Run(c, sk, start, steps + [step]).inner;
            && OwnVerdict(c.scheme, sk, after.number, after.roster).Ok?
            && (|| ActivatedProperly(c, before, step)
                || (&& step.DoRefresh? && step.fetched == Ok(after.roster)
                    && Lookup(after.roster.nodes, after.number).Some?))
  {
    hide Verdict, StartRevocation, AcceptReply, CheckBase, Restore;
    var start := Restore(c.scheme, sk, saved, fetched).value;
    EveryCachedRosterVerifies(c, sk, saved, fetched, steps);
    RunStep(c, sk, start, steps, step);
    var before := Run(c, sk, start, steps).inner;
    if step.DoActivate? {
      ActivatesExactly(c, sk, before, step.code, step.nonce, step.response, step.base, step.cosigned);
    }
  }

  lemma RunStep(c: Pairer, sk: SigningKey, start: Inner, steps: seq<Step>, step: Step)
    ensures Run(c, sk, start, steps + [step]) == Next(c, sk, Run(c, sk, start, steps), step)
  {
    hide Next;
    assert (steps + [step])[..|steps|] == steps;
  }

  //-- The moves of a node -------------------------------------------------------------------------

  /**
   A node leaves Pending only by registering, under the number the hub granted, and returns there only by
   logging out; in between it keeps its number.
   */
  lemma NumberKept(c: Pairer, sk: SigningKey, sys: System, step: Step)
    ensures var before, after := sys.inner, Next(c, sk, sys, step).inner;
            && (before.Pending? && after != before ==>
                  step.DoRegister? && step.granted.Ok? && after == Registered(step.granted.value))
            && (!before.Pending? && after.Pending? ==> step.DoLogout?)
            && (!before.Pending? && !after.Pending? ==> after.number == before.number)
            && (before.Pending? && step.DoRegister? && step.granted.Ok? && sys.flights == [] ==>
                  after == Registered(step.granted.value))
  {
    hide Verdict, StartRevocation, AcceptReply, CheckBase;
  }

  //-- Revoking ------------------------------------------------------------------------------------

  /** `after` is `before` with one more version, in which `revoker` revokes `target`, and no other change. */
  ghost predicate RevokesOne(s: Scheme, before: Roster, after: Roster, target: Int32, revoker: Int32) {
    && after.version == before.version + 1
    && |after.addenda| == |before.addenda| + 1 && after.addenda[..|before.addenda|] == before.addenda
    && after.addenda[|before.addenda|].Revocation?
    && after.addenda[|before.addenda|].revocation == Some(RevocationPayload(before.version + 1, target, revoker))
    && |after.nodes| == |before.nodes|
    && (forall i | 0 <= i < |before.nodes| ::
          && after.nodes[i].number == before.nodes[i].number && after.nodes[i].spki == before.nodes[i].spki
          && (after.nodes[i].revoked <==> before.nodes[i].revoked || before.nodes[i].number == target))
    && ActiveNumbers(after) == ActiveNumbers(before) - {target}
    && target in ActiveNumbers(before)
    && forall k: VerifyingKey :: Verdict(s, after, target, k) == Err(VerifierRevoked(target))
  }

  /** `revoke_node` starts exactly for an active member other than the node itself, and then it revokes that one. */
  lemma RevocationTakesEffect(s: Scheme, sk: SigningKey, inner: Inner, target: Int32)
    requires SignsCorrectly(s.crypto, sk) && Trusted(s, sk, inner)
    ensures var r := StartRevocation(s, sk, inner, target);
            && (r.Ok? <==> inner.Activated? && target != inner.number && target in ActiveNumbers(inner.roster))
            && (r.Ok? ==> RevokesOne(s, inner.roster, r.value, target, inner.number))
            && (r == Err(CannotRevokeSelf) <==> inner.Activated? && target == inner.number)
            && (r == Err(IsRevoked) <==> inner.Revoked?)
  {
    hide Verdict, Digest, Replay, RosterTheorems.Revoked, RevokesOne;
    if StartRevocation(s, sk, inner, target).Ok? {
      RevokesTarget(s, inner.roster, inner.number, sk, target);
    }
  }

  lemma RevokesTarget(s: Scheme, base: Roster, self: Int32, sk: SigningKey, target: Int32)
    requires SignsCorrectly(s.crypto, sk) && Verdict(s, base, self, s.crypto.publicKey(sk)).Ok?
    requires target in ActiveNumbers(base)
    ensures RevokesOne(s, base, RosterTheorems.Revoked(s, base, target, self, sk), target, self)
  {
    hide Verdict, Digest, Denote, Legal, LegalEvent, GroupOf, ActiveNumbers, RosterTheorems.Revoked;
    VerifiesIffLegalHistory(s, base, self, s.crypto.publicKey(sk));
    var h :| HistoryOf(s, base, h) && Anchored(s, h, self, s.crypto.publicKey(sk));
    LegalGroups(s, h);
    ActiveNumbersDenoted(GroupOf(h), h);
    var e := RevokedDenotes(s, h, target, self, sk);
    ExpelShape(h, e);
    ExpelStands(s, h, e);
  }

  lemma ExpelStands(s: Scheme, h: History, e: Event)
    requires Legal(s, h) && LegalEvent(s, h, e) && e.Expel?
    ensures ActiveNumbers(Denote(h + [e])) == ActiveNumbers(Denote(h)) - {e.revoked}
    ensures forall k: VerifyingKey :: Verdict(s, Denote(h + [e]), e.revoked, k) == Err(VerifierRevoked(e.revoked))
  {
    hide Verdict, Digest, Denote, Legal, Signed, GroupOf, ActiveNumbers, Anchored;
    LegalGroups(s, h);
    ActiveNumbersDenoted(GroupOf(h), h);
    GroupExtend(h, e);
    LegalExtend(s, h, e);
    LegalGroups(s, h + [e]);
    ActiveNumbersDenoted(GroupOf(h + [e]), h + [e]);
    forall k: VerifyingKey ensures Verdict(s, Denote(h + [e]), e.revoked, k) == Err(VerifierRevoked(e.revoked)) {
      RevokedVerdictOf(s, h + [e], e.revoked, k);
    }
  }

  lemma RevokedVerdictOf(s: Scheme, h: History, n: Int32, k: VerifyingKey)
    requires Legal(s, h) && h != [] && n in GroupOf(h).spkis && n !in GroupOf(h).active
    ensures Verdict(s, Denote(h), n, k) == Err(VerifierRevoked(n))
  {
    hide Verdict, Legal, GroupOf, Denote;
    HistoryDecides(s, h, n, k);
  }

  lemma ExpelShape(h: History, e: Event)
    requires Consistent(GroupOf(h)) && e.Expel?
    ensures var b, a := Denote(h), Denote(h + [e]);
            && a.version == b.version + 1
            && |a.addenda| == |b.addenda| + 1 && a.addenda[..|b.addenda|] == b.addenda
            && a.addenda[|b.addenda|] == AddendumOf(e, b.version + 1)
            && |a.nodes| == |b.nodes|
            && forall i | 0 <= i < |b.nodes| ::
                 && a.nodes[i].number == b.nodes[i].number && a.nodes[i].spki == b.nodes[i].spki
                 && (a.nodes[i].revoked <==> b.nodes[i].revoked || b.nodes[i].number == e.revoked)
  {
    GroupExtend(h, e);
    AddendaExtend(h, e);
  }

  /** The revocation in flight was started by an earlier step, from the roster cached then. */
  ghost predicate StartedAt(c: Pairer, sk: SigningKey, start: Inner, steps: seq<Step>, k: nat, r: Roster)
    requires k < |steps|
  {
    var inner := Run(c, sk, start, steps[..k]).inner;
    && steps[k].BeginRevoke? && inner.Activated?
    && RevokesOne(c.scheme, inner.roster, r, steps[k].target, inner.number)
  }

  ghost predicate FlightsStarted(c: Pairer, sk: SigningKey, start: Inner, steps: seq<Step>) {
    var flights := Run(c, sk, start, steps).flights;
    forall i | 0 <= i < |flights| && flights[i].Revoking? ::
      exists k | 0 <= k < |steps| :: StartedAt(c, sk, start, steps, k, flights[i].roster)
  }

  lemma StartedBefore(c: Pairer, sk: SigningKey, start: Inner, steps: seq<Step>, step: Step, k: nat, r: Roster)
    requires k < |steps| && StartedAt(c, sk, start, steps, k, r)
    ensures StartedAt(c, sk, start, steps + [step], k, r)
  {
    assert (steps + [step])[..k] == steps[..k];
  }

  lemma FlightsAfter(c: Pairer, sk: SigningKey, sys: System, step: Step, i: nat)
    requires i < |Next(c, sk, sys, step).flights| && Next(c, sk, sys, step).flights[i].Revoking?
    ensures var f := Next(c, sk, sys, step).flights[i];
            || f in sys.flights
            || (&& step.BeginRevoke? && StartRevocation(c.scheme, sk, sys.inner, step.target).Ok?
                && f.roster == StartRevocation(c.scheme, sk, sys.inner, step.target).value)
  {
    hide StartRevocation, Register, Activate, Refresh, Logout, FoundPeer, FindActive;
  }

  lemma {:induction false} EveryFlightStarted(c: Pairer, sk: SigningKey, saved: Option<Int32>,
                                              fetched: Result<Roster, HubError>, steps: seq<Step>)
    requires SignsCorrectly(c.scheme.crypto, sk) && Restore(c.scheme, sk, saved, fetched).Ok?
    ensures FlightsStarted(c, sk, Restore(c.scheme, sk, saved, fetched).value, steps)
  {
    hide Next, Restore, RevokesOne, Verdict, StartRevocation, StartedAt;
    var start := Restore(c.scheme, sk, saved, fetched).value;
    if steps != [] {
      var n := |steps| - 1;
      var front, sys := steps[..n], Run(c, sk, start, steps[..n]);
      EveryFlightStarted(c, sk, saved, fetched, front);
      EveryCachedRosterVerifies(c, sk, saved, fetched, front);
      assert steps == front + [steps[n]];
      var flights := Run(c, sk, start, steps).flights;
      forall i | 0 <= i < |flights| && flights[i].Revoking?
        ensures exists k | 0 <= k < |steps| :: StartedAt(c, sk, start, steps, k, flights[i].roster)
      {
        FlightsAfter(c, sk, sys, steps[n], i);
        if j :| 0 <= j < |sys.flights| && sys.flights[j] == flights[i] {
          var k :| 0 <= k < |front| && StartedAt(c, sk, start, front, k, sys.flights[j].roster);
          StartedBefore(c, sk, start, front, steps[n], k, flights[i].roster);
        } else {
          StartsNow(c, sk, start, steps, flights[i].roster);
        }
      }
    }
  }

  lemma StartsNow(c: Pairer, sk: SigningKey, start: Inner, steps: seq<Step>, r: Roster)
    requires steps != [] && steps[|steps| - 1].BeginRevoke? && SignsCorrectly(c.scheme.crypto, sk)
    requires var inner := Run(c, sk, start, steps[..|steps| - 1]).inner;
             && Trusted(c.scheme, sk, inner)
             && StartRevocation(c.scheme, sk, inner, steps[|steps| - 1].target) == Ok(r)
    ensures StartedAt(c, sk, start, steps, |steps| - 1, r)
  {
    hide Run, RevokesOne, StartRevocation, Verdict;
    RevocationTakesEffect(c.scheme, sk, Run(c, sk, start, steps[..|steps| - 1]).inner, steps[|steps| - 1].target);
  }

  /**
   In every run with any hub: a finishing `revoke_node` changes the cached roster only if the hub accepted
   it, and then to what an earlier step made of the roster cached at that time: its target is revoked.
   */
  lemma RevocationFinishes(c: Pairer, sk: SigningKey, saved: Option<Int32>, fetched: Result<Roster, HubError>,
                           steps: seq<Step>, flight: nat, accepted: bool)
    requires SignsCorrectly(c.scheme.crypto, sk) && Restore(c.scheme, sk, saved, fetched).Ok?
    requires var flights := Run(c, sk, Restore(c.scheme, sk, saved, fetched).value, steps).flights;
             flight < |flights| && flights[flight].Revoking?
    ensures var start := Restore(c.scheme, sk, saved, fetched).value;
            var before := Run(c, sk, start, steps).inner;
            var after := Run(c, sk, start, steps + [FinishRevoke(flight, accepted)]).inner;
            && (!accepted ==> after == before)
            && (accepted ==>
                  && after.Activated? && after.number == before.number
                  && exists k | 0 <= k < |steps| :: StartedAt(c, sk, start, steps, k, after.roster))
  {
    hide Restore, RevokesOne, Verdict, StartRevocation, StartedAt, Run;
    var start := Restore(c.scheme, sk, saved, fetched).value;
    EveryFlightStarted(c, sk, saved, fetched, steps);
    EveryCachedRosterVerifies(c, sk, saved, fetched, steps);
    RunStep(c, sk, start, steps, FinishRevoke(flight, accepted));
  }

  //-- What a fetched roster makes of the node -----------------------------------------------------

  /** Exactly when a fetched roster makes the node registered, activated, or revoked. */
  lemma AssessExactly(s: Scheme, sk: SigningKey, number: Int32, r: Roster)
    ensures Assess(s, sk, number, r) == Ok(Registered(number)) <==> forall n | n in r.nodes :: n.number != number
    ensures Assess(s, sk, number, r) == Ok(Activated(number, r)) <==>
            exists h :: HistoryOf(s, r, h) && Anchored(s, h, number, s.crypto.publicKey(sk))
    ensures Assess(s, sk, number, r) == Ok(NodeLifecycle.Revoked(number)) <==>
            exists h :: HistoryOf(s, r, h) && number in GroupOf(h).spkis && number !in GroupOf(h).active
    ensures Assess(s, sk, number, r).Ok? ==>
              || Assess(s, sk, number, r).value == Registered(number)
              || Assess(s, sk, number, r).value == Activated(number, r)
              || Assess(s, sk, number, r).value == NodeLifecycle.Revoked(number)
  {
    hide Verdict, Denote, Legal, Anchored, Lookup;
    VerifiesIffLegalHistory(s, r, number, s.crypto.publicKey(sk));
    RevokedVerdict(s, r, number, s.crypto.publicKey(sk));
    if Lookup(r.nodes, number).None? {
      forall h | HistoryOf(s, r, h)
        ensures number !in GroupOf(h).spkis && !Anchored(s, h, number, s.crypto.publicKey(sk))
      {
        UnlistedUnknown(s, r, h, number, s.crypto.publicKey(sk));
      }
    }
  }

  lemma RevokedVerdict(s: Scheme, r: Roster, number: Int32, key: VerifyingKey)
    ensures Verdict(s, r, number, key).Err? && Verdict(s, r, number, key).error.VerifierRevoked? ==>
              Verdict(s, r, number, key).error.node == number
  {
    hide Replay, Denote, Digest;
    NoCallerFaults(s, r, |r.addenda|);
  }

  lemma UnlistedUnknown(s: Scheme, r: Roster, h: History, number: Int32, key: VerifyingKey)
    requires HistoryOf(s, r, h) && Lookup(r.nodes, number).None?
    ensures number !in GroupOf(h).spkis && !Anchored(s, h, number, key)
  {
    hide GroupOf, Legal;
    LegalGroups(s, h);
    LookupNodes(GroupOf(h), number);
  }

  /** Exactly when a refetch finds a peer: we and the peer are active members of the roster's history. */
  lemma FindsExactly(s: Scheme, sk: SigningKey, inner: Inner, peer: Int32, fetched: Result<Roster, HubError>)
    ensures var found := FoundPeer(s, sk, inner, peer, fetched);
            && (found.Ok? <==>
                  && inner.Activated? && fetched.Ok?
                  && exists h :: HistoryOf(s, fetched.value, h) && Anchored(s, h, inner.number, s.crypto.publicKey(sk))
                                 && peer in GroupOf(h).active)
            && (found.Ok? ==> exists h :: HistoryOf(s, fetched.value, h) && found.value.number == peer
                                          && !found.value.revoked && found.value.spki == SpkiOf(GroupOf(h), peer))
            && (found == Err(IsRevoked) <==>
                  && inner.Activated? && fetched.Ok?
                  && exists h :: HistoryOf(s, fetched.value, h) && inner.number in GroupOf(h).spkis
                                 && inner.number !in GroupOf(h).active)
  {
    hide Verdict, Denote, Legal, Anchored, FindActive;
    if inner.Activated? && fetched.Ok? {
      var r, key := fetched.value, s.crypto.publicKey(sk);
      VerifiesIffLegalHistory(s, r, inner.number, key);
      RevokedVerdict(s, r, inner.number, key);
      forall h | HistoryOf(s, r, h) ensures FindActive(r.nodes, peer).Some? <==> peer in GroupOf(h).active {
        ActiveEntry(s, r, h, peer);
      }
      if OwnVerdict(s, sk, inner.number, r).Ok? && FindActive(r.nodes, peer).Some? {
        FoundPeersAreMembers(s, sk, inner.number, r, peer);
      }
    }
  }

  lemma ActiveEntry(s: Scheme, r: Roster, h: History, peer: Int32)
    requires HistoryOf(s, r, h)
    ensures FindActive(r.nodes, peer).Some? <==> peer in GroupOf(h).active
  {
    hide GroupOf, Legal;
    LegalGroups(s, h);
    ActiveNumbersDenoted(GroupOf(h), h);
  }

  //-- Logging out ---------------------------------------------------------------------------------

  lemma {:induction false} ActiveCounted(nodes: seq<Node>, addenda: seq<Addendum>)
    requires forall i, j | 0 <= i < j < |nodes| :: nodes[i].number != nodes[j].number
    ensures ActiveCount(nodes) == |ActiveNumbers(Roster(0, nodes, addenda))|
  {
    var all := ActiveNumbers(Roster(0, nodes, addenda));
    if nodes == [] {
      assert all == {};
    } else {
      var rest := ActiveNumbers(Roster(0, nodes[1..], addenda));
      ActiveCounted(nodes[1..], addenda);
      assert nodes == [nodes[0]] + nodes[1..];
      if nodes[0].revoked {
        assert all == rest;
      } else {
        assert nodes[0].number !in rest;
        assert all == rest + {nodes[0].number};
      }
    }
  }

  /** Exactly when a trusted node is kept from logging out: it is the last active member. */
  lemma LastCannotLeave(s: Scheme, sk: SigningKey, inner: Inner,
                        revoked: Result<(), HubError>, deregistered: Result<(), HubError>)
    requires Trusted(s, sk, inner)
    ensures Logout(inner, revoked, deregistered) == Err(LastActiveNode) <==>
            inner.Activated? && ActiveNumbers(inner.roster) == {inner.number}
  {
    hide Verdict;
    if inner.Activated? {
      var r := inner.roster;
      ActiveOnce(s, r, inner.number, s.crypto.publicKey(sk));
      ActiveCounted(r.nodes, r.addenda);
      assert ActiveNumbers(Roster(0, r.nodes, r.addenda)) == ActiveNumbers(r);
      if |ActiveNumbers(r)| <= 1 {
        OneOnly(ActiveNumbers(r), inner.number);
      }
    }
  }

  lemma OneOnly(numbers: set<Int32>, n: Int32)
    requires n in numbers && |numbers| <= 1
    ensures numbers == {n}
  {
    assert |numbers - {n}| == 0;
  }

  lemma ActiveOnce(s: Scheme, r: Roster, number: Int32, key: VerifyingKey)
    requires Verdict(s, r, number, key).Ok?
    ensures number in ActiveNumbers(r)
    ensures forall i, j | 0 <= i < j < |r.nodes| :: r.nodes[i].number != r.nodes[j].number
  {
    hide Verdict, GroupOf, Legal;
    VerifiesIffLegalHistory(s, r, number, key);
    var h :| HistoryOf(s, r, h) && Anchored(s, h, number, key);
    LegalGroups(s, h);
    ActiveNumbersDenoted(GroupOf(h), h);
  }

  /**
   When an activated node logs out, the revocation of itself that it submits leaves another member active,
   for whom the group still verifies.
   */
  lemma LogoutLeavesSomeone(s: Scheme, sk: SigningKey, inner: Inner,
                            revoked: Result<(), HubError>, deregistered: Result<(), HubError>)
    requires SignsCorrectly(s.crypto, sk) && Trusted(s, sk, inner) && inner.Activated?
    requires Logout(inner, revoked, deregistered) != Err(LastActiveNode)
    ensures var left := RosterTheorems.Revoked(s, inner.roster, inner.number, inner.number, sk);
            && RevokesOne(s, inner.roster, left, inner.number, inner.number)
            && exists n, k :: n != inner.number && Verdict(s, left, n, k).Ok?
  {
    hide Verdict, RosterTheorems.Revoked, RevokesOne, Logout;
    var r, self, key := inner.roster, inner.number, s.crypto.publicKey(sk);
    LastCannotLeave(s, sk, inner, revoked, deregistered);
    ActiveOnce(s, r, self, key);
    RevokesTarget(s, r, self, sk, self);
    RevocationPreservesVerification(s, r, self, sk, self);
    var n :| n in ActiveNumbers(r) && n != self;
    var k := ActiveVerifies(s, r, self, key, n);
    assert Verdict(s, RosterTheorems.Revoked(s, r, self, self, sk), n, k).Ok?;
  }

  lemma ActiveVerifies(s: Scheme, r: Roster, number: Int32, key: VerifyingKey, n: Int32) returns (k: VerifyingKey)
    requires Verdict(s, r, number, key).Ok? && n in ActiveNumbers(r)
    ensures Verdict(s, r, n, k).Ok?
  {
    hide Verdict, GroupOf, Legal, Denote;
    VerifiesIffLegalHistory(s, r, number, key);
    var h :| HistoryOf(s, r, h) && Anchored(s, h, number, key);
    LegalGroups(s, h);
    ActiveNumbersDenoted(GroupOf(h), h);
    k := DecodedKey(s, SpkiOf(GroupOf(h), n));
    HistoryDecides(s, h, n, k);
  }

  /** Exactly when logging out deletes the local state: the hub let go, or knows the node no more, or never did. */
  lemma LeavesExactly(inner: Inner, revoked: Result<(), HubError>, deregistered: Result<(), HubError>)
    ensures var letGo := deregistered.Ok? || deregistered.error.gone;
            var left := Logout(inner, revoked, deregistered);
            && (left.Ok? ==> left.value == Pending)
            && (left.Ok? <==>
                  || inner.Pending?
                  || ((inner.Registered? || inner.Revoked?) && letGo)
                  || (&& inner.Activated? && ActiveCount(inner.roster.nodes) > 1
                      && (if revoked.Ok? then letGo else revoked.error.gone)))
  {
  }

  //-- Operations and interleavings ----------------------------------------------------------------

  /** Exclusive operations that find nothing in flight, and refetches that finish, have the effect they compute. */
  lemma OperationsTakeEffect(c: Pairer, sk: SigningKey, sys: System, step: Step)
    ensures var after := Next(c, sk, sys, step);
            && (sys.flights == [] && step.DoActivate? ==>
                  var r := Activate(c, sk, sys.inner, step.code, step.nonce, step.response, step.base, step.cosigned);
                  after.inner == if r.Ok? then r.value else sys.inner)
            && (sys.flights == [] && step.DoRefresh? && !sys.inner.Pending? && step.fetched.Ok? ==>
                  var r := Assess(c.scheme, sk, sys.inner.number, step.fetched.value);
                  after.inner == if r.Ok? then r.value else sys.inner)
            && (sys.flights == [] && step.DoLogout? ==>
                  (after.inner == Pending <==>
                     Logout(sys.inner, step.revoked, step.deregistered).Ok? || sys.inner.Pending?))
            && (step.BeginFind? && sys.inner.Activated? ==>
                  (Refetching(step.peer) in after.flights <==>
                     Refetching(step.peer) in sys.flights || step.peer !in ActiveNumbers(sys.inner.roster)))
            && (step.FinishFind? && step.flight < |sys.flights| && sys.flights[step.flight].Refetching? ==>
                  var r := FoundPeer(c.scheme, sk, sys.inner, sys.flights[step.flight].peer, step.refetched);
                  && |after.flights| == |sys.flights| - 1
                  && after.inner == if r.Ok? then Activated(sys.inner.number, step.refetched.value) else sys.inner)
            && (step.Abandon? && step.flight < |sys.flights| ==>
                  after == System(sys.inner, Without(sys.flights, step.flight)))
  {
    hide Verdict, AcceptReply, CheckBase, StartRevocation, Activate;
    if step.BeginFind? && sys.inner.Activated? {
      var more := sys.flights + [Refetching(step.peer)];
      assert more[|sys.flights|] == Refetching(step.peer);
    }
  }

  /** Exactly what start-up makes of the store and the fetched roster. */
  lemma RestoresExactly(s: Scheme, sk: SigningKey, saved: Option<Int32>, fetched: Result<Roster, HubError>)
    ensures Restore(s, sk, saved, fetched) == Ok(Pending) <==> saved == None
    ensures saved.Some? && fetched.Ok? ==> Restore(s, sk, saved, fetched) == Assess(s, sk, saved.value, fetched.value)
    ensures saved.Some? && fetched.Err? ==> Restore(s, sk, saved, fetched) == Err(HubFailure(fetched.error))
  {
    hide Verdict;
  }
}
