/** The new node's side of activation (node.rs), and how it fits with the endorser's. */
module Activation {
  import opened Prelude
  import opened Crypto
  import opened Rosters
  import opened Histories
  import opened Verifier
  import opened RosterTheorems
  import opened Endorsing
  import opened PairingCodes

  /** A node's number and signing key. */
  datatype Identity = Identity(number: Int32, sk: SigningKey)

  datatype ActivateError =
    | MissingEndorserResponse
    | MacVerificationFailed
    | UndecodableEndorserKey  // `verify_roster` panics on it
    | RosterVerificationFailed(cause: VerifyError)

  /** The pairing request: our key and a nonce, authenticated with the secret of the activation code. */
  function PairRequest(c: Pairer, self: Identity, code: PairingCode, nonce: Bytes): PairMessage {
    var p := PairPayload(self.number, code.number, c.scheme.crypto.publicSpki(self.sk), nonce, []);
    PairMessage(Some(p), ComputeMac(c, code.secret, p))
  }

  function AcceptReply(c: Pairer, self: Identity, code: PairingCode, nonce: Bytes, response: PairMessage)
    : Result<PairPayload, ActivateError>
  {
    if response.payload.None? then Err(MissingEndorserResponse)
    else
      var p := response.payload.value;
      if ComputeMac(c, code.secret, p) != response.mac then Err(MacVerificationFailed)
      else if p.receiver != self.number then Err(MissingEndorserResponse)
      else if p.replyNonce != nonce then Err(MacVerificationFailed)
      else Ok(p)
  }

  /** A base roster with content must verify for the endorser. */
  function CheckBase(s: Scheme, base: Roster, code: PairingCode, reply: PairPayload): Option<ActivateError> {
    if base.version <= 0 then None
    else match s.crypto.decodeSpki(reply.spki)
      case None => Some(UndecodableEndorserKey)
      case Some(key) =>
        match Verdict(s, base, code.number, key)
        case Ok(_) => None
        case Err(e) => Some(RosterVerificationFailed(e))
  }

  /** The new roster version, before anyone has signed it. */
  function Unsealed(s: Scheme, base: Roster, self: Identity, code: PairingCode, nonce: Bytes, reply: PairPayload)
    : (r: Roster)
    ensures LatestIsActivation(r) && LatestIsUnsigned(r)
  {
    var payload := BuildActivationPayload(base, self.number, code.number, nonce, reply.nonce);
    if base.version == 0 then CreateBootstrapRoster(payload, s.crypto.publicSpki(self.sk), reply.spki)
    else WithActivation(base, payload, s.crypto.publicSpki(self.sk))
  }

  /** What the new node submits to the hub: the new version with its own signature. */
  function Proposal(s: Scheme, base: Roster, self: Identity, code: PairingCode, nonce: Bytes, reply: PairPayload)
    : (r: Roster)
    ensures LatestIsActivation(r)
  {
    var r := Unsealed(s, base, self, code, nonce, reply);
    WithNewNodeSignature(r, s.crypto.sign(self.sk, SigningHash(s, r)))
  }

  //-- The ceremony --------------------------------------------------------------------------------

  /** Three parties hash the same roster: the one who proposes it, the one who cosigns it, the one who verifies it. */
  lemma HashesAgree(r: Roster, signature: Bytes)
    requires LatestIsActivation(r) && UnsignedAddendum(Latest(r))
    ensures WithClearedSignatures(WithNewNodeSignature(r, signature)) == r
  {
    assert WithClearedSignatures(WithNewNodeSignature(r, signature)).addenda == r.addenda;
  }

  /** A base to build on: nothing yet, or a roster that verifies for the endorser and does not know the new node. */
  ghost predicate GoodBase(s: Scheme, base: Roster, newNode: Identity, endorser: Identity) {
    || base.version == 0
    || (&& Verdict(s, base, endorser.number, s.crypto.publicKey(endorser.sk)).Ok?
        && Lookup(base.nodes, newNode.number).None?)
  }

  predicate ListedUnder(base: Roster, number: Int32, spki: Bytes) {
    Lookup(base.nodes, number).Some? && Lookup(base.nodes, number).value.spki == spki
  }

  /** While the code is outstanding, the endorser replies to the request and the new node accepts the reply. */
  lemma PairingSucceeds(c: Pairer, st: State, now: int, newNode: Identity, endorser: Identity, secret: Bytes,
                        nonce: Bytes, ourNonce: Bytes)
    requires exists t :: t in Unexpired(st.secrets, now) && t.secret == secret
    requires var code := PairingCode(endorser.number, secret);
             var request := PairRequest(c, newNode, code, nonce);
             forall t | t in Unexpired(st.secrets, now) ::
               ComputeMac(c, t.secret, request.payload.value) == request.mac ==> t.secret == secret
    ensures var code := PairingCode(endorser.number, secret);
            var request := PairRequest(c, newNode, code, nonce);
            && request.payload.value.sender == newNode.number && request.payload.value.receiver == endorser.number
            && PairOutcome(c, st, now, request).Ok?
            && var st' := Pair(c, st, now, request, ourNonce);
            && newNode.number in st'.pending
            && st'.pending[newNode.number] ==
               PendingEndorsement(c.scheme.crypto.publicSpki(newNode.sk), nonce, ourNonce)
            && var used := Unexpired(st.secrets, now)[PairOutcome(c, st, now, request).value].secret;
            && var reply := Reply(c, used, request.payload.value, endorser.number, endorser.sk, ourNonce);
            && AcceptReply(c, newNode, code, nonce, reply) == Ok(reply.payload.value)
            && reply.payload.value.nonce == ourNonce
            && reply.payload.value.sender == endorser.number && reply.payload.value.receiver == newNode.number
            && reply.payload.value.spki == c.scheme.crypto.publicSpki(endorser.sk)
  {
    var request := PairRequest(c, newNode, PairingCode(endorser.number, secret), nonce);
    var secrets := Unexpired(st.secrets, now);
    var t :| t in secrets && t.secret == secret;
    var k :| 0 <= k < |secrets| && secrets[k] == t;
    var i := Match(c, secrets, request.payload.value, request.mac);
    assert ComputeMac(c, secrets[k].secret, request.payload.value) == request.mac;
    assert i <= k;
    assert secrets[i] in secrets;
  }

  /** The event the ceremony adds to the history of the base. */
  function CeremonyEvent(s: Scheme, base: Roster, newNode: Identity, endorser: Identity,
                         nonce: Bytes, ourNonce: Bytes, sigN: Bytes, sigE: Bytes): Event
  {
    var newcomer := Member(newNode.number, s.crypto.publicSpki(newNode.sk));
    if base.version == 0 then
      Found(Member(endorser.number, s.crypto.publicSpki(endorser.sk)), newcomer, nonce, ourNonce, sigN, sigE)
    else
      Admit(endorser.number, newcomer, nonce, ourNonce, sigN, sigE)
  }

  lemma BaseHistory(s: Scheme, base: Roster, newNode: Identity, endorser: Identity) returns (h: History)
    requires GoodBase(s, base, newNode, endorser) && newNode.number != endorser.number
    ensures Legal(s, h) && (base.version == 0 ==> h == []) && (base.version != 0 ==> HistoryOf(s, base, h))
    ensures forall nonce, ourNonce, sigN, sigE ::
              Eligible(GroupOf(h), CeremonyEvent(s, base, newNode, endorser, nonce, ourNonce, sigN, sigE))
    ensures base.version != 0 ==>
              && endorser.number in GroupOf(h).spkis
              && s.crypto.decodeSpki(SpkiOf(GroupOf(h), endorser.number)) == Some(s.crypto.publicKey(endorser.sk))
  {
    hide Digest, Replay, Verdict;
    if base.version == 0 {
      h := [];
    } else {
      VerifiesIffLegalHistory(s, base, endorser.number, s.crypto.publicKey(endorser.sk));
      h :| HistoryOf(s, base, h) && Anchored(s, h, endorser.number, s.crypto.publicKey(endorser.sk));
      LegalGroups(s, h);
      LookupNodes(GroupOf(h), newNode.number);
    }
  }

  lemma UnsealedDenotes(s: Scheme, base: Roster, h: History, newNode: Identity, endorser: Identity, secret: Bytes,
                        nonce: Bytes, reply: PairPayload, sigN: Bytes, sigE: Bytes)
    requires Legal(s, h) && (if base.version == 0 then h == [] else base == Denote(h))
    requires reply.spki == s.crypto.publicSpki(endorser.sk)
    requires var e := CeremonyEvent(s, base, newNode, endorser, nonce, reply.nonce, sigN, sigE);
             Eligible(GroupOf(h), e)
    ensures var e := CeremonyEvent(s, base, newNode, endorser, nonce, reply.nonce, sigN, sigE);
            var r := Unsealed(s, base, newNode, PairingCode(endorser.number, secret), nonce, reply);
            && SigningHash(s, r) == Digest(s, h, e)
            && WithEndorserSignature(WithNewNodeSignature(r, sigN), sigE) == Denote(h + [e])
  {
    hide Digest, Legal, GroupOf, NodesOf, AddendaOf;
    var e := CeremonyEvent(s, base, newNode, endorser, nonce, reply.nonce, sigN, sigE);
    var r := Unsealed(s, base, newNode, PairingCode(endorser.number, secret), nonce, reply);
    BuildersDenote(s, h, e);
    assert r == Built(Denote(h), e);
  }

  /**
   The ceremony after pairing.  Whatever the endorser did in between, as long as this pairing is still
   pending: the base passes the new node's check, the endorser cosigns the proposal exactly if the base is
   empty or lists it under its own key bytes, and the cosigned roster then verifies for both.
   */
  lemma CeremonyVerifiesForBoth(c: Pairer, base: Roster, newNode: Identity, endorser: Identity, secret: Bytes,
                                nonce: Bytes, reply: PairPayload, st: State)
    requires SignsCorrectly(c.scheme.crypto, newNode.sk) && SignsCorrectly(c.scheme.crypto, endorser.sk)
    requires newNode.number != endorser.number
    requires GoodBase(c.scheme, base, newNode, endorser)
    requires reply.spki == c.scheme.crypto.publicSpki(endorser.sk)
    requires newNode.number in st.pending
    requires st.pending[newNode.number] ==
             PendingEndorsement(c.scheme.crypto.publicSpki(newNode.sk), nonce, reply.nonce)
    ensures var s := c.scheme;
            var code := PairingCode(endorser.number, secret);
            var proposal := Proposal(s, base, newNode, code, nonce, reply);
            var request := CosignRequest(newNode.number, Some(proposal));
            var cosign := CosignOutcome(c, st, request, endorser.number, endorser.sk);
            && CheckBase(s, base, code, reply).None?
            && (cosign.Ok? <==>
                  base.version == 0 || ListedUnder(base, endorser.number, s.crypto.publicSpki(endorser.sk)))
            && (cosign.Ok? ==>
                  var cosigned := WithEndorserSignature(proposal, cosign.value);
                  && Verdict(s, cosigned, newNode.number, s.crypto.publicKey(newNode.sk)).Ok?
                  && Verdict(s, cosigned, endorser.number, s.crypto.publicKey(endorser.sk)).Ok?)
  {
    hide Digest, Replay, Verdict, Denote;
    var s := c.scheme;
    var code := PairingCode(endorser.number, secret);
    var r := Unsealed(s, base, newNode, code, nonce, reply);
    var sigN, sigE := s.crypto.sign(newNode.sk, SigningHash(s, r)), s.crypto.sign(endorser.sk, SigningHash(s, r));
    CosignOfProposal(c, base, newNode, endorser, code, nonce, reply, st);
    var h := BaseHistory(s, base, newNode, endorser);
    var e := CeremonyEvent(s, base, newNode, endorser, nonce, reply.nonce, sigN, sigE);
    UnsealedDenotes(s, base, h, newNode, endorser, secret, nonce, reply, sigN, sigE);
    CeremonySigned(s, base, h, newNode, endorser, e, Digest(s, h, e));
    LegalExtend(s, h, e);
    GroupExtend(h, e);
    HistoryDecides(s, h + [e], newNode.number, s.crypto.publicKey(newNode.sk));
    HistoryDecides(s, h + [e], endorser.number, s.crypto.publicKey(endorser.sk));
  }

  lemma CeremonySigned(s: Scheme, base: Roster, h: History, newNode: Identity, endorser: Identity,
                       e: Event, digest: Bytes)
    requires SignsCorrectly(s.crypto, newNode.sk) && SignsCorrectly(s.crypto, endorser.sk)
    requires newNode.number != endorser.number
    requires !e.Expel? && e == CeremonyEvent(s, base, newNode, endorser, e.newNodeNonce, e.endorserNonce,
                               s.crypto.sign(newNode.sk, digest), s.crypto.sign(endorser.sk, digest))
    requires base.version != 0 ==>
               && endorser.number in GroupOf(h).spkis
               && s.crypto.decodeSpki(SpkiOf(GroupOf(h), endorser.number)) == Some(s.crypto.publicKey(endorser.sk))
    requires Eligible(GroupOf(h), e)
    ensures Signed(s, GroupOf(h), e, digest)
    ensures var g := After(GroupOf(h), e);
            && newNode.number in g.active && endorser.number in g.active
            && DecodedKey(s, SpkiOf(g, newNode.number)) == s.crypto.publicKey(newNode.sk)
            && DecodedKey(s, SpkiOf(g, endorser.number)) == s.crypto.publicKey(endorser.sk)
  {
    hide GroupOf;
  }

  lemma {:induction false} LookupAppended(nodes: seq<Node>, n: Node, number: Int32)
    ensures Lookup(nodes + [n], number) ==
            if Lookup(nodes, number).Some? then Lookup(nodes, number)
            else if n.number == number then Some(n) else None
  {
    if nodes != [] {
      assert (nodes + [n])[1..] == nodes[1..] + [n];
      LookupAppended(nodes[1..], n, number);
    } else {
      assert (nodes + [n])[1..] == [];
    }
  }

  lemma CosignOfProposal(c: Pairer, base: Roster, newNode: Identity, endorser: Identity, code: PairingCode,
                         nonce: Bytes, reply: PairPayload, st: State)
    requires newNode.number != endorser.number && code.number == endorser.number
    requires base.version == 0 || Lookup(base.nodes, newNode.number).None?
    requires reply.spki == c.scheme.crypto.publicSpki(endorser.sk)
    requires newNode.number in st.pending
    requires st.pending[newNode.number] ==
             PendingEndorsement(c.scheme.crypto.publicSpki(newNode.sk), nonce, reply.nonce)
    ensures var s := c.scheme;
            var r := Unsealed(s, base, newNode, code, nonce, reply);
            var request := CosignRequest(newNode.number, Some(Proposal(s, base, newNode, code, nonce, reply)));
            var cosign := CosignOutcome(c, st, request, endorser.number, endorser.sk);
            && (cosign.Ok? <==>
                  base.version == 0 || ListedUnder(base, endorser.number, s.crypto.publicSpki(endorser.sk)))
            && (cosign.Ok? ==> cosign == Ok(s.crypto.sign(endorser.sk, SigningHash(s, r))))
  {
    hide SigningHash, WithClearedSignatures, Lookup;
    var s := c.scheme;
    var r := Unsealed(s, base, newNode, code, nonce, reply);
    var us := Node(newNode.number, s.crypto.publicSpki(newNode.sk), false);
    HashesAgree(r, s.crypto.sign(newNode.sk, SigningHash(s, r)));
    if base.version == 0 {
      var them := Node(endorser.number, reply.spki, false);
      assert r.nodes == [them] + [us];
      LookupAppended([], them, newNode.number);
      LookupAppended([], them, endorser.number);
      assert [] + [them] == [them];
      LookupAppended([them], us, newNode.number);
      LookupAppended([them], us, endorser.number);
    } else {
      LookupAppended(base.nodes, us, newNode.number);
      LookupAppended(base.nodes, us, endorser.number);
    }
  }
}
