/**
 Roster verification by reconstruction (roster.rs), proved against the histories a roster stands for.
 */
module Verifier {
  import opened Prelude
  import opened Crypto
  import opened Rosters
  import opened Histories

  datatype VerifyError =
    | InvalidVersion(version: int)
    | AddendaCountMismatch(version: int, actual: nat)
    | EmptyAddendum(index: nat)
    | MissingActivationPayload(version: int)
    | MissingRevocationPayload(version: int)
    | VersionMismatch(expected: int, found: int)
    | NewNodeIsEndorser(node: Int32)
    | DuplicateNode(node: Int32)
    | NewNodeNotInRoster(version: int, node: Int32)
    | InvalidPublicKey(node: Int32)
    | EndorserNotInPreviousRoster(version: int, node: Int32)
    | RevokerNotInPreviousRoster(version: int, node: Int32)
    | RevokedNodeNotInRoster(version: int, node: Int32)
    | InvalidNewNodeSignature(version: int)
    | InvalidEndorserSignature(version: int)
    | InvalidRevokerSignature(version: int)
    | ReconstructionMismatch
    | VerifierRevoked(node: Int32)
    | VerifierNotInRoster(node: Int32)
    | VerifierKeyMismatch(node: Int32)

  type Keys = map<Int32, VerifyingKey>

  //-- Reading an addendum as the next event of a history ------------------------------------------

  predicate Complete(a: Addendum) {
    match a
    case Activation(p, _, _) => p.Some?
    case Revocation(p, _) => p.Some?
    case Empty => false
  }

  function ClaimedSpki(nodes: seq<Node>, number: Int32): Bytes {
    match Lookup(nodes, number)
    case Some(n) => n.spki
    case None => []
  }

  /** The event an addendum claims, with keys taken from the node list of the roster it came in. */
  function EventOf(nodes: seq<Node>, a: Addendum, founding: bool): Event
    requires Complete(a)
  {
    match a
    case Activation(Some(p), sigN, sigE) =>
      var newcomer := Member(p.newNode, ClaimedSpki(nodes, p.newNode));
      if founding then
        Found(Member(p.endorser, ClaimedSpki(nodes, p.endorser)), newcomer, p.newNodeNonce, p.endorserNonce, sigN, sigE)
      else
        Admit(p.endorser, newcomer, p.newNodeNonce, p.endorserNonce, sigN, sigE)
    case Revocation(Some(p), sig) => Expel(p.revoked, p.revoker, sig)
  }

  /** What is wrong with the claimed event, signatures aside, as the one that makes version `v`. */
  function ShapeFault(s: Scheme, nodes: seq<Node>, g: Group, v: int, a: Addendum): Option<VerifyError>
    requires Complete(a)
  {
    match a
    case Activation(Some(p), _, _) =>
      if p.version != v then Some(VersionMismatch(v, p.version))
      else if p.newNode == p.endorser then Some(NewNodeIsEndorser(p.newNode))
      else if p.newNode in g.spkis then Some(DuplicateNode(p.newNode))
      else if Lookup(nodes, p.newNode).None? then Some(NewNodeNotInRoster(v, p.newNode))
      else if s.crypto.decodeSpki(ClaimedSpki(nodes, p.newNode)).None? then Some(InvalidPublicKey(p.newNode))
      else if g == NOBODY && Lookup(nodes, p.endorser).None? then Some(EndorserNotInPreviousRoster(v, p.endorser))
      else if g == NOBODY && s.crypto.decodeSpki(ClaimedSpki(nodes, p.endorser)).None? then
        Some(InvalidPublicKey(p.endorser))
      else if g != NOBODY && p.endorser !in g.active then Some(EndorserNotInPreviousRoster(v, p.endorser))
      else None
    case Revocation(Some(p), _) =>
      if p.version != v then Some(VersionMismatch(v, p.version))
      else if p.revoker !in g.active then Some(RevokerNotInPreviousRoster(v, p.revoker))
      else if p.revoked !in g.active then Some(RevokedNodeNotInRoster(v, p.revoked))
      else None
  }

  /** The key the endorser must sign with: a founder's is claimed by the roster, a member's is on record. */
  function EndorserSpki(g: Group, e: Event): Bytes
    requires !e.Expel?
  {
    if e.Found? then e.endorser.spki else SpkiOf(g, e.endorserNumber)
  }

  function SignatureFault(s: Scheme, g: Group, e: Event, digest: Bytes, v: int): Option<VerifyError> {
    if e.Expel? then
      if SignedBy(s, SpkiOf(g, e.revoker), digest, e.revokerSignature) then None else Some(InvalidRevokerSignature(v))
    else if !SignedBy(s, e.newcomer.spki, digest, e.newNodeSignature) then Some(InvalidNewNodeSignature(v))
    else if !SignedBy(s, EndorserSpki(g, e), digest, e.endorserSignature) then Some(InvalidEndorserSignature(v))
    else None
  }

  /** The first thing wrong with taking `a` as the event after `h`, if anything is. */
  function Fault(s: Scheme, nodes: seq<Node>, h: History, a: Addendum): (f: Option<VerifyError>)
    ensures f.None? ==> Complete(a)
  {
    var v := |h| + 1;
    if a.Empty? then Some(EmptyAddendum(|h|))
    else if a.Activation? && a.activation.None? then Some(MissingActivationPayload(v))
    else if a.Revocation? && a.revocation.None? then Some(MissingRevocationPayload(v))
    else if ShapeFault(s, nodes, GroupOf(h), v, a).Some? then ShapeFault(s, nodes, GroupOf(h), v, a)
    else
      var e := EventOf(nodes, a, h == []);
      SignatureFault(s, GroupOf(h), e, Digest(s, h, e), v)
  }

  ghost predicate Listed(nodes: seq<Node>, e: Event) {
    forall m | m in Joins(e) :: Lookup(nodes, m.number).Some?
  }

  /** `a` encodes a legal next event, at the right version, whose newcomers the node list lists. */
  ghost predicate IsNext(s: Scheme, nodes: seq<Node>, h: History, a: Addendum) {
    && Complete(a)
    && a == AddendumOf(EventOf(nodes, a, h == []), |h| + 1)
    && Listed(nodes, EventOf(nodes, a, h == []))
    && LegalEvent(s, h, EventOf(nodes, a, h == []))
  }

  lemma ShapeIsEligible(s: Scheme, nodes: seq<Node>, g: Group, v: int, a: Addendum)
    requires Complete(a) && Consistent(g) && Decodable(s, g)
    ensures var e := EventOf(nodes, a, g == NOBODY);
            ShapeFault(s, nodes, g, v, a).None? <==>
            && a == AddendumOf(e, v) && Listed(nodes, e) && Eligible(g, e)
            && forall m | m in Joins(e) :: s.crypto.decodeSpki(m.spki).Some?
  {
    var e := EventOf(nodes, a, g == NOBODY);
    if a.Activation? {
      assert e.newcomer in Joins(e);
      assert e.Found? ==> e.endorser in Joins(e);
    }
  }

  /** Nothing is wrong with an addendum exactly when it is a legal next event. */
  lemma FaultlessIsLegal(s: Scheme, nodes: seq<Node>, h: History, a: Addendum)
    requires Legal(s, h)
    ensures Fault(s, nodes, h, a).None? <==> IsNext(s, nodes, h, a)
  {
    hide Digest, Legal, Lookup, ShapeFault;
    LegalGroups(s, h);
    if Complete(a) {
      ShapeIsEligible(s, nodes, GroupOf(h), |h| + 1, a);
      var e := EventOf(nodes, a, h == []);
      SignedHasKeys(s, GroupOf(h), e, Digest(s, h, e), |h| + 1);
    }
  }

  lemma SignedHasKeys(s: Scheme, g: Group, e: Event, digest: Bytes, v: int)
    ensures Signed(s, g, e, digest) <==> SignatureFault(s, g, e, digest, v).None?
    ensures Signed(s, g, e, digest) ==> forall m | m in Joins(e) :: s.crypto.decodeSpki(m.spki).Some?
  {
  }

  /** The history read off the first `i` addenda, or the first fault met on the way. */
  function Replay(s: Scheme, r: Roster, i: nat): Result<History, VerifyError>
    requires i <= |r.addenda|
  {
    if i == 0 then Ok([])
    else match Replay(s, r, i - 1)
      case Err(e) => Err(e)
      case Ok(h) =>
        match Fault(s, r.nodes, h, r.addenda[i - 1])
        case Some(e) => Err(e)
        case None => Ok(h + [EventOf(r.nodes, r.addenda[i - 1], h == [])])
  }

  /** A fault ends the replay for good. */
  lemma {:induction false} ReplayFails(s: Scheme, r: Roster, i: nat, j: nat)
    requires i <= j <= |r.addenda| && Replay(s, r, i).Err?
    ensures Replay(s, r, j) == Replay(s, r, i)
  {
    hide Fault, EventOf;
    if i < j {
      ReplayFails(s, r, i, j - 1);
    }
  }

  lemma {:induction false} ReplayLegal(s: Scheme, r: Roster, i: nat)
    requires i <= |r.addenda| && Replay(s, r, i).Ok?
    ensures Legal(s, Replay(s, r, i).value) && |Replay(s, r, i).value| == i
  {
    hide Digest;
    if i > 0 {
      ReplayLegal(s, r, i - 1);
      var h := Replay(s, r, i - 1).value;
      FaultlessIsLegal(s, r.nodes, h, r.addenda[i - 1]);
      LegalExtend(s, h, EventOf(r.nodes, r.addenda[i - 1], h == []));
    }
  }

  //-- The verifier --------------------------------------------------------------------------------

  /** The verifier's loop state stands for the history replayed so far. */
  ghost predicate Reflects(s: Scheme, working: Roster, keys: Keys, h: History) {
    && Legal(s, h)
    && working == Denote(h)
    && keys == ActiveKeys(s, GroupOf(h))
  }

  /** Every check that `apply_and_verify_activation` makes before it applies the addendum. */
  method ActivationSigners(s: Scheme, input: Roster, addendum: Addendum, expectedVersion: int,
                           working: RosterBuffer, keys: Keys, ghost h: History)
    returns (result: Result<(VerifyingKey, VerifyingKey), VerifyError>)
    requires addendum.Activation? && Complete(addendum) && expectedVersion == |h| + 1
    requires Reflects(s, working.Value(), keys, h)
    ensures match ShapeFault(s, input.nodes, GroupOf(h), expectedVersion, addendum)
            case Some(e) => result == Err(e)
            case None =>
              var e := EventOf(input.nodes, addendum, h == []);
              && result.Ok?
              && s.crypto.decodeSpki(e.newcomer.spki) == Some(result.value.0)
              && s.crypto.decodeSpki(EndorserSpki(GroupOf(h), e)) == Some(result.value.1)
  {
    var payload := addendum.activation.value;
    LegalGroups(s, h);
    if payload.version != expectedVersion {
      return Err(VersionMismatch(expectedVersion, payload.version));
    }
    if payload.newNode == payload.endorser {
      return Err(NewNodeIsEndorser(payload.newNode));
    }
    LookupNodes(GroupOf(h), payload.newNode);
    if Lookup(working.nodes, payload.newNode).Some? {
      return Err(DuplicateNode(payload.newNode));
    }
    var newNodeInInput := Lookup(input.nodes, payload.newNode);
    if newNodeInInput.None? {
      return Err(NewNodeNotInRoster(expectedVersion, payload.newNode));
    }
    var newNodeKey := s.crypto.decodeSpki(newNodeInInput.value.spki);
    if newNodeKey.None? {
      return Err(InvalidPublicKey(payload.newNode));
    }
    if expectedVersion == 1 {
      var endorserInInput := Lookup(input.nodes, payload.endorser);
      if endorserInInput.None? {
        return Err(EndorserNotInPreviousRoster(expectedVersion, payload.endorser));
      }
      var endorserKey := s.crypto.decodeSpki(endorserInInput.value.spki);
      if endorserKey.None? {
        return Err(InvalidPublicKey(payload.endorser));
      }
      return Ok((newNodeKey.value, endorserKey.value));
    } else {
      if payload.endorser !in keys {
        return Err(EndorserNotInPreviousRoster(expectedVersion, payload.endorser));
      }
      return Ok((newNodeKey.value, keys[payload.endorser]));
    }
  }

  method ApplyAndVerifyActivation(s: Scheme, input: Roster, addendum: Addendum, expectedVersion: int,
                                  working: RosterBuffer, keys: Keys, ghost h: History)
    returns (result: Result<Keys, VerifyError>)
    requires addendum.Activation? && expectedVersion == |h| + 1
    requires Reflects(s, working.Value(), keys, h)
    modifies working
    ensures match Fault(s, input.nodes, h, addendum)
            case Some(e) => result == Err(e)
            case None => result.Ok? &&
                         Reflects(s, working.Value(), result.value, h + [EventOf(input.nodes, addendum, h == [])])
  {
    hide Digest, Denote, ShapeFault, GroupOf, Legal, ActiveKeys, Lookup;
    if addendum.activation.None? {
      return Err(MissingActivationPayload(expectedVersion));
    }
    var payload := addendum.activation.value;
    var signers := ActivationSigners(s, input, addendum, expectedVersion, working, keys, h);
    if signers.Err? {
      return Err(signers.error);
    }
    var (newNodeKey, endorserKey) := signers.value;

    var keys' := keys;
    if expectedVersion == 1 {
      working.nodes := working.nodes + [Node(payload.endorser, ClaimedSpki(input.nodes, payload.endorser), false)];
      keys' := keys'[payload.endorser := endorserKey];
    }
    working.nodes := working.nodes + [Node(payload.newNode, ClaimedSpki(input.nodes, payload.newNode), false)];
    keys' := keys'[payload.newNode := newNodeKey];
    working.version := expectedVersion;
    working.addenda := working.addenda + [Activation(Some(payload), [], [])];

    ghost var e := EventOf(input.nodes, addendum, h == []);
    assert working.Value() == Denote(h + [Unsigned(e)]) by { AppliedActivation(s, input.nodes, h, addendum); }
    var signingHash := SigningHash(s, working.Value());
    assert signingHash == Digest(s, h, e) by { AppliedActivation(s, input.nodes, h, addendum); }
    if !s.crypto.verify(newNodeKey, signingHash, addendum.newNodeSignature) {
      return Err(InvalidNewNodeSignature(expectedVersion));
    }
    if !s.crypto.verify(endorserKey, signingHash, addendum.endorserSignature) {
      return Err(InvalidEndorserSignature(expectedVersion));
    }
    working.SetNewNodeSignature(addendum.newNodeSignature);
    working.SetEndorserSignature(addendum.endorserSignature);
    AcceptedEvent(s, input.nodes, h, addendum);
    LegalGroups(s, h);
    KeysAfterJoin(s, GroupOf(h), e);
    return Ok(keys');
  }

  lemma AppliedActivation(s: Scheme, nodes: seq<Node>, h: History, a: Addendum)
    requires Legal(s, h) && a.Activation? && Complete(a)
    requires ShapeFault(s, nodes, GroupOf(h), |h| + 1, a).None?
    ensures var e := EventOf(nodes, a, h == []);
            Denote(h + [Unsigned(e)]) ==
            Roster(|h| + 1, Denote(h).nodes + Entries(Joins(e)), Denote(h).addenda + [Activation(a.activation, [], [])])
    ensures var e := EventOf(nodes, a, h == []);
            LatestIsUnsigned(Denote(h + [Unsigned(e)])) && Digest(s, h, e) == SigningHash(s, Denote(h + [Unsigned(e)]))
  {
    hide Legal, ShapeFault, NodesOf, AddendaOf;
    LegalGroups(s, h);
    ShapeIsEligible(s, nodes, GroupOf(h), |h| + 1, a);
    DenoteJoin(h, Unsigned(EventOf(nodes, a, h == [])));
  }

  /** Putting the signatures back makes the working copy the roster of the extended history. */
  lemma AcceptedEvent(s: Scheme, nodes: seq<Node>, h: History, a: Addendum)
    requires Legal(s, h) && Fault(s, nodes, h, a).None?
    ensures var e := EventOf(nodes, a, h == []);
            && Legal(s, h + [e]) && Eligible(GroupOf(h), e)
            && GroupOf(h + [e]) == After(GroupOf(h), e)
            && Denote(h + [Unsigned(e)]).addenda != []
            && Denote(h + [e]) == ReplaceLatest(Denote(h + [Unsigned(e)]), a)
  {
    var e := EventOf(nodes, a, h == []);
    FaultlessIsLegal(s, nodes, h, a);
    LegalExtend(s, h, e);
    GroupExtend(h, e);
    DenoteSigned(h, e);
  }

  lemma KeysAfterJoin(s: Scheme, g: Group, e: Event)
    requires Consistent(g) && Eligible(g, e) && !e.Expel?
    ensures ActiveKeys(s, After(g, e)) ==
            (if e.Found? then ActiveKeys(s, g)[e.endorser.number := DecodedKey(s, e.endorser.spki)]
             else ActiveKeys(s, g))
              [e.newcomer.number := DecodedKey(s, e.newcomer.spki)]
  {
  }

  method ApplyAndVerifyRevocation(s: Scheme, addendum: Addendum, expectedVersion: int,
                                  working: RosterBuffer, keys: Keys, ghost nodes: seq<Node>, ghost h: History)
    returns (result: Result<Keys, VerifyError>)
    requires addendum.Revocation? && expectedVersion == |h| + 1
    requires Reflects(s, working.Value(), keys, h)
    modifies working
    ensures match Fault(s, nodes, h, addendum)
            case Some(e) => result == Err(e)
            case None => result.Ok? &&
                         Reflects(s, working.Value(), result.value, h + [EventOf(nodes, addendum, h == [])])
  {
    hide Digest, Denote;
    if addendum.revocation.None? {
      return Err(MissingRevocationPayload(expectedVersion));
    }
    var payload := addendum.revocation.value;
    if payload.version != expectedVersion {
      return Err(VersionMismatch(expectedVersion, payload.version));
    }
    if payload.revoker !in keys {
      return Err(RevokerNotInPreviousRoster(expectedVersion, payload.revoker));
    }
    var revokerKey := keys[payload.revoker];
    if payload.revoked !in keys {
      return Err(RevokedNodeNotInRoster(expectedVersion, payload.revoked));
    }
    ghost var e := EventOf(nodes, addendum, h == []);
    AppliedRevocation(s, nodes, h, addendum);

    working.MarkNodeRevoked(payload.revoked);
    working.version := expectedVersion;
    working.addenda := working.addenda + [Revocation(Some(payload), [])];
    assert working.Value() == Denote(h + [Unsigned(e)]);

    var signingHash := SigningHash(s, working.Value());
    if !s.crypto.verify(revokerKey, signingHash, addendum.revokerSignature) {
      return Err(InvalidRevokerSignature(expectedVersion));
    }
    working.SetRevokerSignature(addendum.revokerSignature);
    AcceptedEvent(s, nodes, h, addendum);
    return Ok(keys - {payload.revoked});
  }

  lemma AppliedRevocation(s: Scheme, nodes: seq<Node>, h: History, a: Addendum)
    requires Legal(s, h) && a.Revocation? && Complete(a) && a.revocation.value.version == |h| + 1
    ensures var e := EventOf(nodes, a, h == []);
            Denote(h + [Unsigned(e)]) ==
            Roster(|h| + 1, MarkRevoked(Denote(h).nodes, a.revocation.value.revoked),
                   Denote(h).addenda + [Revocation(a.revocation, [])])
    ensures var e := EventOf(nodes, a, h == []);
            LatestIsUnsigned(Denote(h + [Unsigned(e)])) && Digest(s, h, e) == SigningHash(s, Denote(h + [Unsigned(e)]))
    ensures forall n | n in GroupOf(h).active :: s.crypto.decodeSpki(SpkiOf(GroupOf(h), n)).Some?
  {
    LegalGroups(s, h);
    DenoteExpel(h, Unsigned(EventOf(nodes, a, h == [])));
    forall n | n in GroupOf(h).active ensures s.crypto.decodeSpki(SpkiOf(GroupOf(h), n)).Some? {
      assert n in GroupOf(h).spkis;
    }
  }

  /** What the verifier decides, in terms of the replayed history alone. */
  function Verdict(s: Scheme, r: Roster, number: Int32, key: VerifyingKey): Result<Keys, VerifyError> {
    if r.version < 1 then Err(InvalidVersion(r.version))
    else if |r.addenda| != r.version then Err(AddendaCountMismatch(r.version, |r.addenda|))
    else match Replay(s, r, |r.addenda|)
      case Err(e) => Err(e)
      case Ok(h) =>
        var g := GroupOf(h);
        if Denote(h) != r then Err(ReconstructionMismatch)
        else if number in g.active then
          if DecodedKey(s, SpkiOf(g, number)) == key then Ok(ActiveKeys(s, g)) else Err(VerifierKeyMismatch(number))
        else if number in g.spkis then Err(VerifierRevoked(number))
        else Err(VerifierNotInRoster(number))
  }

  lemma NothingReflected(s: Scheme)
    ensures Reflects(s, DEFAULT_ROSTER, map[], [])
  {
  }

  lemma EmptyFault(s: Scheme, nodes: seq<Node>, h: History)
    ensures Fault(s, nodes, h, Empty) == Some(EmptyAddendum(|h|))
  {
  }

  method VerifyRoster(s: Scheme, roster: Roster, number: Int32, verifierSpki: Bytes)
    returns (result: Result<Keys, VerifyError>)
    requires s.crypto.decodeSpki(verifierSpki).Some?
    ensures result == Verdict(s, roster, number, s.crypto.decodeSpki(verifierSpki).value)
  {
    hide Digest, Fault, EventOf, AddendaOf, NodesOf, Legal;
    var expectedKey := s.crypto.decodeSpki(verifierSpki).value;
    if roster.version < 1 {
      return Err(InvalidVersion(roster.version));
    }
    if |roster.addenda| != roster.version {
      return Err(AddendaCountMismatch(roster.version, |roster.addenda|));
    }

    var working := new RosterBuffer(DEFAULT_ROSTER);
    var keys: Keys := map[];
    ghost var h: History := [];
    NothingReflected(s);
    for i := 0 to |roster.addenda|
      invariant Replay(s, roster, i) == Ok(h) && |h| == i
      invariant Reflects(s, working.Value(), keys, h)
    {
      var step;
      match roster.addenda[i] {
        case Empty =>
          EmptyFault(s, roster.nodes, h);
          ReplayFails(s, roster, i + 1, |roster.addenda|);
          return Err(EmptyAddendum(i));
        case Activation(_, _, _) =>
          step := ApplyAndVerifyActivation(s, roster, roster.addenda[i], i + 1, working, keys, h);
        case Revocation(_, _) =>
          step := ApplyAndVerifyRevocation(s, roster.addenda[i], i + 1, working, keys, roster.nodes, h);
      }
      if step.Err? {
        ReplayFails(s, roster, i + 1, |roster.addenda|);
        return step;
      }
      keys := step.value;
      h := h + [EventOf(roster.nodes, roster.addenda[i], h == [])];
    }

    if working.Value() != roster {
      return Err(ReconstructionMismatch);
    }
    LegalGroups(s, h);
    if number !in keys {
      LookupNodes(GroupOf(h), number);
      if Lookup(working.nodes, number).Some? {
        return Err(VerifierRevoked(number));
      }
      return Err(VerifierNotInRoster(number));
    }
    if keys[number] != expectedKey {
      return Err(VerifierKeyMismatch(number));
    }
    return Ok(keys);
  }

  //-- What the errors mean -------------------------------------------------------------------------

  /** A roster whose version and addenda do not match is told so before anything else is looked at. */
  lemma StructureComesFirst(s: Scheme, r: Roster, number: Int32, key: VerifyingKey)
    ensures r.version < 1 <==> Verdict(s, r, number, key) == Err(InvalidVersion(r.version))
    ensures r.version >= 1 && |r.addenda| != r.version <==>
            Verdict(s, r, number, key) == Err(AddendaCountMismatch(r.version, |r.addenda|))
  {
    hide Denote, Digest;
    if r.version >= 1 && |r.addenda| == r.version {
      StructureIsNoFault(s, r, |r.addenda|);
    }
  }

  lemma {:induction false} StructureIsNoFault(s: Scheme, r: Roster, i: nat)
    requires i <= |r.addenda|
    ensures Replay(s, r, i).Err? ==>
              !Replay(s, r, i).error.InvalidVersion? && !Replay(s, r, i).error.AddendaCountMismatch?
  {
    hide Fault, EventOf;
    if i > 0 {
      StructureIsNoFault(s, r, i - 1);
      if Replay(s, r, i - 1).Ok? {
        FaultIsLater(s, r.nodes, Replay(s, r, i - 1).value, r.addenda[i - 1]);
      }
    }
  }

  lemma FaultIsLater(s: Scheme, nodes: seq<Node>, h: History, a: Addendum)
    ensures Fault(s, nodes, h, a).Some? ==>
              !Fault(s, nodes, h, a).value.InvalidVersion? && !Fault(s, nodes, h, a).value.AddendaCountMismatch?
  {
    hide Digest, GroupOf, Lookup;
  }

  /** What the faults of an activation say about the group so far and about the signatures. */
  lemma ActivationFaultsMean(s: Scheme, nodes: seq<Node>, h: History, a: Addendum)
    requires a.Activation? && Complete(a) && Fault(s, nodes, h, a).Some?
    ensures var p, g, v := a.activation.value, GroupOf(h), |h| + 1;
            var e := EventOf(nodes, a, h == []);
            match Fault(s, nodes, h, a).value
            case VersionMismatch(expected, found) => expected == v && found == p.version && found != v
            case NewNodeIsEndorser(n) => n == p.newNode == p.endorser
            case DuplicateNode(n) => n == p.newNode && n in g.spkis
            case NewNodeNotInRoster(_, n) => n == p.newNode && forall m | m in nodes :: m.number != n
            case InvalidPublicKey(n) => s.crypto.decodeSpki(ClaimedSpki(nodes, n)).None?
            case EndorserNotInPreviousRoster(_, n) =>
              n == p.endorser && (n !in g.active || forall m | m in nodes :: m.number != n)
            case InvalidNewNodeSignature(_) => !SignedBy(s, e.newcomer.spki, Digest(s, h, e), a.newNodeSignature)
            case InvalidEndorserSignature(_) =>
              && SignedBy(s, e.newcomer.spki, Digest(s, h, e), a.newNodeSignature)
              && !SignedBy(s, EndorserSpki(g, e), Digest(s, h, e), a.endorserSignature)
            case _ => false
  {
    hide Digest, GroupOf, SignedBy;
  }

  /** And those of a revocation. */
  lemma RevocationFaultsMean(s: Scheme, nodes: seq<Node>, h: History, a: Addendum)
    requires a.Revocation? && Complete(a) && Fault(s, nodes, h, a).Some?
    ensures var p, g, v := a.revocation.value, GroupOf(h), |h| + 1;
            match Fault(s, nodes, h, a).value
            case VersionMismatch(expected, found) => expected == v && found == p.version && found != v
            case RevokerNotInPreviousRoster(_, n) => n == p.revoker && n !in g.active
            case RevokedNodeNotInRoster(_, n) => n == p.revoked && n !in g.active && p.revoker in g.active
            case InvalidRevokerSignature(_) =>
              !SignedBy(s, SpkiOf(g, p.revoker), Digest(s, h, EventOf(nodes, a, h == [])), a.revokerSignature)
            case _ => false
  {
    hide Digest, GroupOf, SignedBy;
  }
}
