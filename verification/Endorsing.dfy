/** The endorser's side of activation (serving.rs): activation codes, pairings and cosignatures. */
module Endorsing {
  import opened Prelude
  import opened Crypto
  import opened Rosters
  import opened PairingCodes

  datatype PairPayload = PairPayload(sender: Int32, receiver: Int32, spki: Bytes, nonce: Bytes, replyNonce: Bytes)

  datatype PairMessage = PairMessage(payload: Option<PairPayload>, mac: Bytes)

  /** HMAC over the wire encoding of a pairing payload. */
  datatype Pairer = Pairer(scheme: Scheme, encode: PairPayload -> Bytes, hmac: (Bytes, Bytes) -> Bytes)

  function ComputeMac(c: Pairer, secret: Bytes, p: PairPayload): Bytes {
    c.hmac(secret, c.encode(p))
  }

  datatype CosignRequest = CosignRequest(newNodeNumber: int, roster: Option<Roster>)

  datatype PairError = MissingPairPayload | NoActiveSession | MacMismatch

  datatype CosignError =
    | NoPendingEndorsement | MissingRoster | NoActivationAddendum | NoActivationPayload
    | NewNodeNonceMismatch | EndorserNonceMismatch | WrongEndorser
    | NewNodeNotListed | NewNodeKeyMismatch | EndorserNotListed | EndorserKeyMismatch

  datatype TimedSecret = TimedSecret(secret: Bytes, expiresAt: int)

  datatype PendingEndorsement = PendingEndorsement(spki: Bytes, newNodeNonce: Bytes, ourNonce: Bytes)

  const MAX_ACTIVE_ACTIVATIONS := 100

  datatype State = State(secrets: seq<TimedSecret>, pending: map<Int32, PendingEndorsement>)

  //-- What each call does -------------------------------------------------------------------------

  function Unexpired(secrets: seq<TimedSecret>, now: int): (r: seq<TimedSecret>)
    ensures |r| <= |secrets|
  {
    if secrets == [] then []
    else
      var last := secrets[|secrets| - 1];
      Unexpired(secrets[..|secrets| - 1], now) + if last.expiresAt > now then [last] else []
  }

  function Prune(st: State, now: int): State {
    st.(secrets := Unexpired(st.secrets, now))
  }

  function Generate(st: State, now: int, ttl: nat, secret: Bytes): State {
    var p := Prune(st, now);
    if |p.secrets| + |p.pending| >= MAX_ACTIVE_ACTIVATIONS then p
    else p.(secrets := p.secrets + [TimedSecret(secret, now + ttl)])
  }

  /** The first outstanding secret under which the message's MAC verifies, or the number of secrets. */
  function Match(c: Pairer, secrets: seq<TimedSecret>, p: PairPayload, mac: Bytes): (i: nat)
    ensures i <= |secrets|
    ensures i < |secrets| ==> ComputeMac(c, secrets[i].secret, p) == mac
    ensures forall j | 0 <= j < i :: ComputeMac(c, secrets[j].secret, p) != mac
  {
    if secrets == [] || ComputeMac(c, secrets[0].secret, p) == mac then 0
    else 1 + Match(c, secrets[1..], p, mac)
  }

  /** `Vec::swap_remove`: the last element takes the place of the removed one. */
  function SwapRemove<T>(s: seq<T>, i: nat): (r: seq<T>)
    requires i < |s|
    ensures |r| == |s| - 1 && forall k | 0 <= k < |r| :: r[k] == if k == i then s[|s| - 1] else s[k]
  {
    s[i := s[|s| - 1]][..|s| - 1]
  }

  function PairOutcome(c: Pairer, st: State, now: int, m: PairMessage): Result<nat, PairError> {
    if m.payload.None? then Err(MissingPairPayload)
    else
      var secrets := Unexpired(st.secrets, now);
      var i := Match(c, secrets, m.payload.value, m.mac);
      if i < |secrets| then Ok(i) else if secrets == [] then Err(NoActiveSession) else Err(MacMismatch)
  }

  function Pair(c: Pairer, st: State, now: int, m: PairMessage, ourNonce: Bytes): State {
    match PairOutcome(c, st, now, m)
    case Err(MissingPairPayload) => st
    case Err(_) => Prune(st, now)
    case Ok(i) =>
      var p := m.payload.value;
      State(SwapRemove(Unexpired(st.secrets, now), i),
            st.pending[p.sender := PendingEndorsement(p.spki, p.nonce, ourNonce)])
  }

  function Reply(c: Pairer, secret: Bytes, p: PairPayload, number: Int32, sk: SigningKey, ourNonce: Bytes)
    : PairMessage
  {
    var reply := PairPayload(number, p.sender, c.scheme.crypto.publicSpki(sk), ourNonce, p.nonce);
    PairMessage(Some(reply), ComputeMac(c, secret, reply))
  }

  /** What is wrong with a cosign request, for a pairing already on file. */
  function CosignFault(c: Pairer, roster: Roster, n: Int32, p: PendingEndorsement, number: Int32, sk: SigningKey)
    : Option<CosignError>
  {
    if !LatestIsActivation(roster) then Some(NoActivationAddendum)
    else match Latest(roster).activation
      case None => Some(NoActivationPayload)
      case Some(a) =>
        if a.newNodeNonce != p.newNodeNonce then Some(NewNodeNonceMismatch)
        else if a.endorserNonce != p.ourNonce then Some(EndorserNonceMismatch)
        else if a.endorser != number then Some(WrongEndorser)
        else match Lookup(roster.nodes, n)
          case None => Some(NewNodeNotListed)
          case Some(newNode) =>
            if newNode.spki != p.spki then Some(NewNodeKeyMismatch)
            else match Lookup(roster.nodes, number)
              case None => Some(EndorserNotListed)
              case Some(us) =>
                if us.spki != c.scheme.crypto.publicSpki(sk) then Some(EndorserKeyMismatch) else None
  }

  function CosignOutcome(c: Pairer, st: State, q: CosignRequest, number: Int32, sk: SigningKey)
    : Result<Bytes, CosignError>
  {
    var n := TruncateToInt32(q.newNodeNumber);
    if n !in st.pending then Err(NoPendingEndorsement)
    else if q.roster.None? then Err(MissingRoster)
    else match CosignFault(c, q.roster.value, n, st.pending[n], number, sk)
      case Some(e) => Err(e)
      case None =>
        Ok(c.scheme.crypto.sign(sk, SigningHash(c.scheme, WithClearedSignatures(q.roster.value))))
  }

  function Cosign(c: Pairer, st: State, q: CosignRequest, number: Int32, sk: SigningKey): State {
    if CosignOutcome(c, st, q, number, sk).Err? then st
    else st.(pending := st.pending - {TruncateToInt32(q.newNodeNumber)})
  }

  //-- The state changed in place ------------------------------------------------------------------

  class EndorsingState {
    var secrets: seq<TimedSecret>
    var pending: map<Int32, PendingEndorsement>

    function Value(): State
      reads this
    {
      State(secrets, pending)
    }

    constructor ()
      ensures Value() == State([], map[])
    {
      secrets, pending := [], map[];
    }

    /** `retain`: visit every secret in order and keep the unexpired ones. */
    method PruneExpired(now: int)
      modifies this`secrets
      ensures Value() == Prune(old(Value()), now)
    {
      var kept: seq<TimedSecret> := [];
      for i := 0 to |secrets|
        invariant kept == Unexpired(secrets[..i], now)
      {
        assert secrets[..i + 1][..i] == secrets[..i];
        if secrets[i].expiresAt > now {
          kept := kept + [secrets[i]];
        }
      }
      assert secrets[..|secrets|] == secrets;
      secrets := kept;
    }

    method GenerateActivationCode(number: Int32, now: int, ttl: nat, secret: Bytes) returns (code: Option<PairingCode>)
      modifies this
      ensures Value() == Generate(old(Value()), now, ttl, secret)
      ensures code == if |Unexpired(old(secrets), now)| + |old(pending)| < MAX_ACTIVE_ACTIVATIONS
                      then Some(PairingCode(number, secret)) else None
    {
      PruneExpired(now);
      if |secrets| + |pending| >= MAX_ACTIVE_ACTIVATIONS {
        return None;
      }
      secrets := secrets + [TimedSecret(secret, now + ttl)];
      return Some(PairingCode(number, secret));
    }

    /** `position`: the first secret that verifies the MAC. */
    method Position(c: Pairer, p: PairPayload, mac: Bytes) returns (i: nat)
      ensures i == Match(c, secrets, p, mac)
    {
      i := 0;
      while i < |secrets| && ComputeMac(c, secrets[i].secret, p) != mac
        invariant 0 <= i <= |secrets|
        invariant Match(c, secrets, p, mac) == i + Match(c, secrets[i..], p, mac)
      {
        assert secrets[i..][1..] == secrets[i + 1..];
        i := i + 1;
      }
    }

    method PairNodes(c: Pairer, now: int, m: PairMessage, number: Int32, sk: SigningKey, ourNonce: Bytes)
      returns (result: Result<PairMessage, PairError>)
      modifies this
      ensures Value() == Pair(c, old(Value()), now, m, ourNonce)
      ensures match PairOutcome(c, old(Value()), now, m)
              case Err(e) => result == Err(e)
              case Ok(i) =>
                result == Ok(Reply(c, Unexpired(old(secrets), now)[i].secret, m.payload.value, number, sk, ourNonce))
    {
      if m.payload.None? {
        return Err(MissingPairPayload);
      }
      var p := m.payload.value;
      PruneExpired(now);
      var i := Position(c, p, m.mac);
      if i == |secrets| {
        if secrets == [] {
          return Err(NoActiveSession);
        }
        return Err(MacMismatch);
      }
      var secret := secrets[i].secret;
      secrets := secrets[i := secrets[|secrets| - 1]][..|secrets| - 1];
      pending := pending[p.sender := PendingEndorsement(p.spki, p.nonce, ourNonce)];
      var reply := PairPayload(number, p.sender, c.scheme.crypto.publicSpki(sk), ourNonce, p.nonce);
      return Ok(PairMessage(Some(reply), ComputeMac(c, secret, reply)));
    }

    method RosterCosign(c: Pairer, q: CosignRequest, number: Int32, sk: SigningKey)
      returns (result: Result<Bytes, CosignError>)
      modifies this`pending
      ensures Value() == Cosign(c, old(Value()), q, number, sk)
      ensures result == CosignOutcome(c, old(Value()), q, number, sk)
    {
      var n := TruncateToInt32(q.newNodeNumber);
      if n !in pending {
        return Err(NoPendingEndorsement);
      }
      var p := pending[n];
      if q.roster.None? {
        return Err(MissingRoster);
      }
      var roster := q.roster.value;
      if roster.addenda == [] || !Latest(roster).Activation? {
        return Err(NoActivationAddendum);
      }
      var activation := Latest(roster).activation;
      if activation.None? {
        return Err(NoActivationPayload);
      }
      if activation.value.newNodeNonce != p.newNodeNonce {
        return Err(NewNodeNonceMismatch);
      }
      if activation.value.endorserNonce != p.ourNonce {
        return Err(EndorserNonceMismatch);
      }
      if activation.value.endorser != number {
        return Err(WrongEndorser);
      }
      var newNode := Lookup(roster.nodes, n);
      if newNode.None? {
        return Err(NewNodeNotListed);
      }
      if newNode.value.spki != p.spki {
        return Err(NewNodeKeyMismatch);
      }
      var us := Lookup(roster.nodes, number);
      if us.None? {
        return Err(EndorserNotListed);
      }
      if us.value.spki != c.scheme.crypto.publicSpki(sk) {
        return Err(EndorserKeyMismatch);
      }
      var cleared := new RosterBuffer(roster);
      cleared.ClearLatestAddendumSignatures();
      var signature := c.scheme.crypto.sign(sk, SigningHash(c.scheme, cleared.Value()));
      pending := pending - {n};
      return Ok(signature);
    }
  }
}
