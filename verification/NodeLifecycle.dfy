/**
 The lifecycle of a node (node.rs): which roster it trusts in which state.

 The hub is not trusted: whatever it answers is an input.  `&mut self` operations are atomic, since
 nothing else can use the node meanwhile; `&self` operations (`find_peer_in_roster`, `revoke_node`)
 give up the processor at each hub call, so they are split into the step before it and the step after.
 */
module NodeLifecycle {
  import opened Prelude
  import opened Crypto
  import opened Rosters
  import opened Histories
  import opened Verifier
  import opened RosterTheorems
  import opened Endorsing
  import opened Activation
  import opened PairingCodes

  datatype Inner =
    | Pending
    | Registered(number: Int32)
    | Activated(number: Int32, roster: Roster)
    | Revoked(number: Int32)

  /** A hub call failed; `gone` if the hub no longer knows us (unauthenticated or not found). */
  datatype HubError = HubError(gone: bool)

  datatype NodeError =
    | InvalidState
    | IsRevoked
    | HubFailure(hub: HubError)
    | ActivationFailed(activation: ActivateError)
    | VerificationFailed(cause: VerifyError)
    | CannotRevokeSelf
    | NodeNotActive(node: Int32)
    | LastActiveNode
    | PeerNotFound

  //-- What each atomic step does ------------------------------------------------------------------

  function OwnVerdict(s: Scheme, sk: SigningKey, number: Int32, r: Roster): Result<Keys, VerifyError> {
    Verdict(s, r, number, s.crypto.publicKey(sk))
  }

  /** What a fetched roster says about us: not in it, active, or revoked. */
  function Assess(s: Scheme, sk: SigningKey, number: Int32, r: Roster): Result<Inner, NodeError> {
    if Lookup(r.nodes, number).None? then Ok(Registered(number))
    else match OwnVerdict(s, sk, number, r)
      case Ok(_) => Ok(Activated(number, r))
      case Err(VerifierRevoked(_)) => Ok(Revoked(number))
      case Err(e) => Err(VerificationFailed(e))
  }

  function Restore(s: Scheme, sk: SigningKey, saved: Option<Int32>, fetched: Result<Roster, HubError>)
    : Result<Inner, NodeError>
  {
    if saved.None? then Ok(Pending)
    else match fetched
      case Err(e) => Err(HubFailure(e))
      case Ok(r) => Assess(s, sk, saved.value, r)
  }

  function Register(inner: Inner, granted: Result<Int32, HubError>): Result<Inner, NodeError> {
    if !inner.Pending? then Err(InvalidState)
    else match granted
      case Err(e) => Err(HubFailure(e))
      case Ok(number) => Ok(Registered(number))
  }

  function Activate(c: Pairer, sk: SigningKey, inner: Inner, code: PairingCode, nonce: Bytes,
                    response: Result<PairMessage, HubError>, base: Result<Roster, HubError>,
                    cosigned: Result<Roster, HubError>): Result<Inner, NodeError>
  {
    if !inner.Registered? then Err(InvalidState)
    else if response.Err? then Err(HubFailure(response.error))
    else match AcceptReply(c, Identity(inner.number, sk), code, nonce, response.value)
      case Err(e) => Err(ActivationFailed(e))
      case Ok(reply) =>
        if base.Err? then Err(HubFailure(base.error))
        else match CheckBase(c.scheme, base.value, code, reply)
          case Some(e) => Err(ActivationFailed(e))
          case None =>
            if cosigned.Err? then Err(HubFailure(cosigned.error))
            else match OwnVerdict(c.scheme, sk, inner.number, cosigned.value)
              case Ok(_) => Ok(Activated(inner.number, cosigned.value))
              case Err(e) => Err(VerificationFailed(e))
  }

  function Refresh(s: Scheme, sk: SigningKey, inner: Inner, fetched: Result<Roster, HubError>)
    : Result<Inner, NodeError>
  {
    if inner.Pending? then Ok(Pending)
    else match fetched
      case Err(e) => Err(HubFailure(e))
      case Ok(r) => Assess(s, sk, inner.number, r)
  }

  function ActiveCount(nodes: seq<Node>): nat {
    if nodes == [] then 0 else (if nodes[0].revoked then 0 else 1) + ActiveCount(nodes[1..])
  }

  /** Whether a deregistration answer lets logout go on to delete the local state. */
  function Deregistered(answer: Result<(), HubError>): Result<Inner, NodeError> {
    if answer.Ok? || answer.error.gone then Ok(Pending) else Err(HubFailure(answer.error))
  }

  function Logout(inner: Inner, revoked: Result<(), HubError>, deregistered: Result<(), HubError>)
    : Result<Inner, NodeError>
  {
    match inner
    case Pending => Ok(Pending)
    case Registered(_) => Deregistered(deregistered)
    case Revoked(_) => Deregistered(deregistered)
    case Activated(_, roster) =>
      if ActiveCount(roster.nodes) <= 1 then Err(LastActiveNode)
      else if revoked.Ok? then Deregistered(deregistered)
      else if revoked.error.gone then Ok(Pending)
      else Err(HubFailure(revoked.error))
  }

  /** The first active entry with that number. */
  function FindActive(nodes: seq<Node>, number: Int32): (r: Option<Node>)
    ensures r.Some? ==> r.value in nodes && r.value.number == number && !r.value.revoked
    ensures r.None? <==> forall n | n in nodes :: n.number == number ==> n.revoked
  {
    if nodes == [] then None
    else if nodes[0].number == number && !nodes[0].revoked then Some(nodes[0])
    else FindActive(nodes[1..], number)
  }

  function FoundPeer(s: Scheme, sk: SigningKey, inner: Inner, peer: Int32, fetched: Result<Roster, HubError>)
    : Result<Node, NodeError>
  {
    if !inner.Activated? then Err(InvalidState)
    else match fetched
      case Err(e) => Err(HubFailure(e))
      case Ok(r) =>
        match OwnVerdict(s, sk, inner.number, r)
        case Err(VerifierRevoked(_)) => Err(IsRevoked)
        case Err(e) => Err(VerificationFailed(e))
        case Ok(_) => if FindActive(r.nodes, peer).Some? then Ok(FindActive(r.nodes, peer).value) else Err(PeerNotFound)
  }

  /** The roster `revoke_node` builds and signs before it asks the hub. */
  function StartRevocation(s: Scheme, sk: SigningKey, inner: Inner, target: Int32): Result<Roster, NodeError> {
    match inner
    case Revoked(_) => Err(IsRevoked)
    case Pending => Err(InvalidState)
    case Registered(_) => Err(InvalidState)
    case Activated(number, roster) =>
      if target == number then Err(CannotRevokeSelf)
      else if target !in ActiveNumbers(roster) then Err(NodeNotActive(target))
      else Ok(RosterTheorems.Revoked(s, roster, target, number, sk))
  }

  //-- Interleavings -------------------------------------------------------------------------------

  /** A `&self` operation waiting for the hub. */
  datatype Flight = Refetching(peer: Int32) | Revoking(roster: Roster)

  datatype System = System(inner: Inner, flights: seq<Flight>)

  datatype Step =
    | DoRegister(granted: Result<Int32, HubError>)
    | DoActivate(code: PairingCode, nonce: Bytes, response: Result<PairMessage, HubError>,
                 base: Result<Roster, HubError>, cosigned: Result<Roster, HubError>)
    | DoRefresh(fetched: Result<Roster, HubError>)
    | DoLogout(revoked: Result<(), HubError>, deregistered: Result<(), HubError>)
    | BeginFind(peer: Int32)
    | FinishFind(flight: nat, refetched: Result<Roster, HubError>)
    | BeginRevoke(target: Int32)
    | FinishRevoke(flight: nat, accepted: bool)
    | Abandon(flight: nat)

  function Without<T>(s: seq<T>, i: nat): seq<T>
    requires i < |s|
  {
    s[..i] + s[i + 1..]
  }

  function Settle(sys: System, outcome: Result<Inner, NodeError>): System {
    if outcome.Ok? then sys.(inner := outcome.value) else sys
  }

  /**
   One atomic step; exclusive operations wait until nothing is in flight, and a step that cannot happen
   changes nothing.
   */
  function Next(c: Pairer, sk: SigningKey, sys: System, step: Step): System {
    var s := c.scheme;
    match step
    case DoRegister(granted) => if sys.flights == [] then Settle(sys, Register(sys.inner, granted)) else sys
    case DoActivate(code, nonce, response, base, cosigned) =>
      if sys.flights == [] then Settle(sys, Activate(c, sk, sys.inner, code, nonce, response, base, cosigned)) else sys
    case DoRefresh(fetched) => if sys.flights == [] then Settle(sys, Refresh(s, sk, sys.inner, fetched)) else sys
    case DoLogout(r, d) => if sys.flights == [] then Settle(sys, Logout(sys.inner, r, d)) else sys
    case BeginFind(peer) =>
      if sys.inner.Activated? && FindActive(sys.inner.roster.nodes, peer).None? then
        sys.(flights := sys.flights + [Refetching(peer)])
      else sys
    case FinishFind(i, fetched) =>
      if i < |sys.flights| && sys.flights[i].Refetching? then
        var rest := sys.(flights := Without(sys.flights, i));
        if FoundPeer(s, sk, sys.inner, sys.flights[i].peer, fetched).Ok? then
          rest.(inner := Activated(sys.inner.number, fetched.value))
        else rest
      else sys
    case BeginRevoke(target) =>
      var start := StartRevocation(s, sk, sys.inner, target);
      if start.Ok? then sys.(flights := sys.flights + [Revoking(start.value)]) else sys
    case FinishRevoke(i, accepted) =>
      if i < |sys.flights| && sys.flights[i].Revoking? then
        var rest := sys.(flights := Without(sys.flights, i));
        if accepted && sys.inner.Activated? then
          rest.(inner := Activated(sys.inner.number, sys.flights[i].roster))
        else rest
      else sys
    case Abandon(i) => if i < |sys.flights| then sys.(flights := Without(sys.flights, i)) else sys
  }

  ghost predicate Trusted(s: Scheme, sk: SigningKey, inner: Inner) {
    inner.Activated? ==> OwnVerdict(s, sk, inner.number, inner.roster).Ok?
  }

  /** Whatever is cached, or about to be, verifies for the node's own number and key. */
  ghost predicate Safe(s: Scheme, sk: SigningKey, sys: System) {
    && Trusted(s, sk, sys.inner)
    && (sys.flights != [] ==> sys.inner.Activated?)
    && (forall i | 0 <= i < |sys.flights| :: sys.flights[i].Revoking? ==>
          OwnVerdict(s, sk, sys.inner.number, sys.flights[i].roster).Ok?)
  }

  /** A revocation the node built itself is as good as one it verified. */
  lemma StartedRevocationVerifies(s: Scheme, sk: SigningKey, inner: Inner, target: Int32)
    requires SignsCorrectly(s.crypto, sk) && Trusted(s, sk, inner)
    requires StartRevocation(s, sk, inner, target).Ok?
    ensures inner.Activated? && OwnVerdict(s, sk, inner.number, StartRevocation(s, sk, inner, target).value).Ok?
  {
    hide Verdict, RosterTheorems.Revoked;
    RevocationPreservesVerification(s, inner.roster, inner.number, sk, target);
  }

  lemma StepIsSafe(c: Pairer, sk: SigningKey, sys: System, step: Step)
    requires SignsCorrectly(c.scheme.crypto, sk) && Safe(c.scheme, sk, sys)
    ensures Safe(c.scheme, sk, Next(c, sk, sys, step))
  {
    hide Verdict, RosterTheorems.Revoked, AcceptReply, CheckBase, StartRevocation;
    if step.BeginRevoke? && StartRevocation(c.scheme, sk, sys.inner, step.target).Ok? {
      StartedRevocationVerifies(c.scheme, sk, sys.inner, step.target);
    }
  }

  function Run(c: Pairer, sk: SigningKey, start: Inner, steps: seq<Step>): System {
    if steps == [] then System(start, []) else Next(c, sk, Run(c, sk, start, steps[..|steps| - 1]), steps[|steps| - 1])
  }

  /**
   However a node was restored, whatever the hub answered since, and however its operations
   interleaved: an activated node's cached roster verifies for its own number and key.
   */
  lemma {:induction false} EveryCachedRosterVerifies(c: Pairer, sk: SigningKey, saved: Option<Int32>,
                                                    fetched: Result<Roster, HubError>, steps: seq<Step>)
    requires SignsCorrectly(c.scheme.crypto, sk)
    requires Restore(c.scheme, sk, saved, fetched).Ok?
    ensures Safe(c.scheme, sk, Run(c, sk, Restore(c.scheme, sk, saved, fetched).value, steps))
  {
    hide Verdict, Next;
    if steps != [] {
      var start := Restore(c.scheme, sk, saved, fetched).value;
      EveryCachedRosterVerifies(c, sk, saved, fetched, steps[..|steps| - 1]);
      StepIsSafe(c, sk, Run(c, sk, start, steps[..|steps| - 1]), steps[|steps| - 1]);
    }
  }

  /** A peer found in a trusted roster is an active member, under the key it joined with. */
  lemma FoundPeersAreMembers(s: Scheme, sk: SigningKey, number: Int32, r: Roster, peer: Int32)
    requires OwnVerdict(s, sk, number, r).Ok?
    requires FindActive(r.nodes, peer).Some?
    ensures exists h :: HistoryOf(s, r, h) && peer in GroupOf(h).active &&
                        FindActive(r.nodes, peer).value.spki == SpkiOf(GroupOf(h), peer)
  {
    hide Digest, Replay, Verdict;
    VerifiesIffLegalHistory(s, r, number, s.crypto.publicKey(sk));
    var h :| HistoryOf(s, r, h);
    var g := GroupOf(h);
    LegalGroups(s, h);
    var n := FindActive(r.nodes, peer).value;
    var i :| 0 <= i < |r.nodes| && r.nodes[i] == n;
    assert g.members[i] == Member(peer, n.spki);
  }

  //-- The node ------------------------------------------------------------------------------------

  class LiveNode {
    const c: Pairer
    const sk: SigningKey
    var inner: Inner
    var saved: Option<Int32>  // the registration in the store

    ghost predicate Valid()
      reads this
    {
      && SignsCorrectly(c.scheme.crypto, sk)
      && Trusted(c.scheme, sk, inner)
      // memory and store agree on whether, and as which number, the node is registered
      && saved == if inner.Pending? then None else Some(inner.number)
    }

    static method Verify(c: Pairer, sk: SigningKey, number: Int32, r: Roster) returns (v: Result<Keys, VerifyError>)
      requires SignsCorrectly(c.scheme.crypto, sk)
      ensures v == OwnVerdict(c.scheme, sk, number, r)
    {
      v := VerifyRoster(c.scheme, r, number, c.scheme.crypto.publicSpki(sk));
    }

    static method AssessRoster(c: Pairer, sk: SigningKey, number: Int32, r: Roster)
      returns (result: Result<Inner, NodeError>)
      requires SignsCorrectly(c.scheme.crypto, sk)
      ensures result == Assess(c.scheme, sk, number, r)
    {
      if Lookup(r.nodes, number).None? {
        return Ok(Registered(number));
      }
      var v := Verify(c, sk, number, r);
      if v.Ok? {
        return Ok(Activated(number, r));
      }
      if v.error.VerifierRevoked? {
        return Ok(Revoked(number));
      }
      return Err(VerificationFailed(v.error));
    }

    constructor (c: Pairer, sk: SigningKey, saved: Option<Int32>, inner: Inner)
      requires SignsCorrectly(c.scheme.crypto, sk) && Trusted(c.scheme, sk, inner)
      requires saved == if inner.Pending? then None else Some(inner.number)
      ensures Valid() && this.c == c && this.sk == sk && this.inner == inner && this.saved == saved
    {
      this.c, this.sk, this.inner, this.saved := c, sk, inner, saved;
    }

    /** `restore_or_init_node`, for a store that holds this key and perhaps a registration. */
    static method RestoreOrInit(c: Pairer, sk: SigningKey, saved: Option<Int32>, fetched: Result<Roster, HubError>)
      returns (result: Result<LiveNode, NodeError>)
      requires SignsCorrectly(c.scheme.crypto, sk)
      ensures match Restore(c.scheme, sk, saved, fetched)
              case Err(e) => result == Err(e)
              case Ok(start) =>
                && result.Ok? && fresh(result.value) && result.value.Valid()
                && result.value.c == c && result.value.sk == sk
                && result.value.inner == start && result.value.saved == saved
    {
      if saved.None? {
        var node := new LiveNode(c, sk, None, Pending);
        return Ok(node);
      }
      if fetched.Err? {
        return Err(HubFailure(fetched.error));
      }
      var start := AssessRoster(c, sk, saved.value, fetched.value);
      if start.Err? {
        return Err(start.error);
      }
      var node := new LiveNode(c, sk, saved, start.value);
      return Ok(node);
    }

    method RegisterWithHub(granted: Result<Int32, HubError>) returns (error: Option<NodeError>)
      requires Valid()
      modifies this
      ensures Valid()
      ensures match Register(old(inner), granted)
              case Ok(next) => error == None && inner == next && saved == Some(granted.value)
              case Err(e) => error == Some(e) && inner == old(inner) && saved == old(saved)
    {
      if !inner.Pending? {
        return Some(InvalidState);
      }
      if granted.Err? {
        return Some(HubFailure(granted.error));
      }
      saved := Some(granted.value);
      inner := Registered(granted.value);
      return None;
    }

    method ActivateWith(code: PairingCode, nonce: Bytes, response: Result<PairMessage, HubError>,
                        base: Result<Roster, HubError>, cosigned: Result<Roster, HubError>)
      returns (error: Option<NodeError>)
      requires Valid()
      modifies this`inner
      ensures Valid()
      ensures match Activate(c, sk, old(inner), code, nonce, response, base, cosigned)
              case Ok(next) => error == None && inner == next
              case Err(e) => error == Some(e) && inner == old(inner)
    {
      if !inner.Registered? {
        return Some(InvalidState);
      }
      if response.Err? {
        return Some(HubFailure(response.error));
      }
      var reply := AcceptReply(c, Identity(inner.number, sk), code, nonce, response.value);
      if reply.Err? {
        return Some(ActivationFailed(reply.error));
      }
      if base.Err? {
        return Some(HubFailure(base.error));
      }
      if base.value.version > 0 {
        if c.scheme.crypto.decodeSpki(reply.value.spki).None? {
          return Some(ActivationFailed(UndecodableEndorserKey));
        }
        var v := VerifyRoster(c.scheme, base.value, code.number, reply.value.spki);
        if v.Err? {
          return Some(ActivationFailed(RosterVerificationFailed(v.error)));
        }
      }
      if cosigned.Err? {
        return Some(HubFailure(cosigned.error));
      }
      var v := Verify(c, sk, inner.number, cosigned.value);
      if v.Err? {
        return Some(VerificationFailed(v.error));
      }
      inner := Activated(inner.number, cosigned.value);
      return None;
    }

    /** `refresh_membership`. */
    method RefreshMembership(fetched: Result<Roster, HubError>) returns (error: Option<NodeError>)
      requires Valid()
      modifies this`inner
      ensures Valid()
      ensures match Refresh(c.scheme, sk, old(inner), fetched)
              case Ok(next) => error == None && inner == next
              case Err(e) => error == Some(e) && inner == old(inner)
    {
      if inner.Pending? {
        return None;
      }
      if fetched.Err? {
        return Some(HubFailure(fetched.error));
      }
      var next := AssessRoster(c, sk, inner.number, fetched.value);
      if next.Err? {
        return Some(next.error);
      }
      inner := next.value;
      return None;
    }

    /** `logout`; the roster it would submit is `Revoked(.., self, ..)`, which is never cached. */
    method LogOut(revoked: Result<(), HubError>, deregistered: Result<(), HubError>) returns (error: Option<NodeError>)
      requires Valid()
      modifies this
      ensures Valid()
      ensures match Logout(old(inner), revoked, deregistered)
              case Ok(next) => error == None && inner == next && saved == None
              case Err(e) => error == Some(e) && inner == old(inner) && saved == old(saved)
    {
      hide Verdict, SignsCorrectly;
      match inner {
        case Pending =>
        case Registered(_) =>
          if deregistered.Err? && !deregistered.error.gone { return Some(HubFailure(deregistered.error)); }
        case Revoked(_) =>
          if deregistered.Err? && !deregistered.error.gone { return Some(HubFailure(deregistered.error)); }
        case Activated(_, roster) =>
          if ActiveCount(roster.nodes) <= 1 {
            return Some(LastActiveNode);
          }
          if revoked.Ok? {
            if deregistered.Err? && !deregistered.error.gone { return Some(HubFailure(deregistered.error)); }
          } else if !revoked.error.gone {
            return Some(HubFailure(revoked.error));
          }
      }
      saved := None;
      inner := Pending;
      return None;
    }

    /** `revoke_node` up to the hub call: the roster to submit, or why there is none. */
    method BeginRevokeNode(target: Int32) returns (result: Result<Roster, NodeError>)
      requires Valid()
      ensures result == StartRevocation(c.scheme, sk, inner, target)
      ensures result.Ok? ==> inner.Activated? && OwnVerdict(c.scheme, sk, inner.number, result.value).Ok?
    {
      hide Verdict;
      if inner.Revoked? {
        return Err(IsRevoked);
      }
      if !inner.Activated? {
        return Err(InvalidState);
      }
      if target == inner.number {
        return Err(CannotRevokeSelf);
      }
      if !IsActive(inner.roster, target) {
        return Err(NodeNotActive(target));
      }
      var updated := new RosterBuffer(inner.roster);
      updated.AddRevocation(BuildRevocationPayload(inner.roster, target, inner.number));
      var signingHash := SigningHash(c.scheme, updated.Value());
      updated.SetRevokerSignature(c.scheme.crypto.sign(sk, signingHash));
      StartedRevocationVerifies(c.scheme, sk, inner, target);
      return Ok(updated.Value());
    }

    /** `revoke_node` once the hub has accepted: cache what was built, without verifying it. */
    method FinishRevokeNode(built: Roster)
      requires Valid() && inner.Activated?
      requires OwnVerdict(c.scheme, sk, inner.number, built).Ok?
      modifies this`inner
      ensures Valid() && inner == Activated(old(inner).number, built)
    {
      inner := Activated(inner.number, built);
    }

    /** `find_peer_in_roster` up to the hub call: the active entry in the cached roster, if it has one. */
    method FindCachedPeer(peer: Int32) returns (found: Result<Option<Node>, NodeError>)
      requires Valid()
      ensures found == if inner.Activated? then Ok(FindActive(inner.roster.nodes, peer)) else Err(InvalidState)
    {
      hide Verdict, SignsCorrectly;
      if !inner.Activated? {
        return Err(InvalidState);
      }
      var nodes := inner.roster.nodes;
      for i := 0 to |nodes|
        invariant FindActive(nodes, peer) == FindActive(nodes[i..], peer)
      {
        if nodes[i].number == peer && !nodes[i].revoked {
          return Ok(Some(nodes[i]));
        }
        assert nodes[i..][1..] == nodes[i + 1..];
      }
      return Ok(None);
    }

    /** `find_peer_in_roster` after the cached roster did not have the peer. */
    method FinishFindPeer(peer: Int32, fetched: Result<Roster, HubError>) returns (result: Result<Node, NodeError>)
      requires Valid()
      modifies this`inner
      ensures Valid()
      ensures result == FoundPeer(c.scheme, sk, old(inner), peer, fetched)
      ensures inner == if result.Ok? then Activated(old(inner).number, fetched.value) else old(inner)
    {
      hide Verdict, SignsCorrectly;
      if !inner.Activated? {
        return Err(InvalidState);
      }
      if fetched.Err? {
        return Err(HubFailure(fetched.error));
      }
      var v := Verify(c, sk, inner.number, fetched.value);
      if v.Err? {
        return Err(if v.error.VerifierRevoked? then IsRevoked else VerificationFailed(v.error));
      }
      var found := FindActive(fetched.value.nodes, peer);
      if found.None? {
        return Err(PeerNotFound);
      }
      inner := Activated(inner.number, fetched.value);
      return Ok(found.value);
    }
  }
}
