/** The roster messages and the functions that build new roster versions. */
module Rosters {
  import opened Prelude
  import opened Crypto

  datatype Node = Node(number: Int32, spki: Bytes, revoked: bool)

  datatype ActivationPayload = ActivationPayload(
    version: int, newNode: Int32, endorser: Int32, newNodeNonce: Bytes, endorserNonce: Bytes)

  datatype RevocationPayload = RevocationPayload(version: int, revoked: Int32, revoker: Int32)

  /** `Empty` is an addendum whose `kind` is not set; payloads are optional on the wire. */
  datatype Addendum =
    | Activation(activation: Option<ActivationPayload>, newNodeSignature: Bytes, endorserSignature: Bytes)
    | Revocation(revocation: Option<RevocationPayload>, revokerSignature: Bytes)
    | Empty

  datatype Roster = Roster(version: int, nodes: seq<Node>, addenda: seq<Addendum>)

  const DEFAULT_ROSTER := Roster(0, [], [])

  /** The primitives together with the wire encoding of a roster. */
  datatype Scheme = Scheme(crypto: Primitives, encode: Roster -> Bytes)

  const SIGNING_HASH_DOMAIN: Bytes := Ascii("wispers-connect/roster-signing/v1\0")

  ghost predicate InjectiveEncoding(s: Scheme) {
    forall x: Roster, y: Roster :: s.encode(x) == s.encode(y) ==> x == y
  }

  predicate UnsignedAddendum(a: Addendum) {
    match a
    case Activation(_, n, e) => n == [] && e == []
    case Revocation(_, r) => r == []
    case Empty => true
  }

  predicate LatestIsUnsigned(r: Roster) {
    r.addenda == [] || UnsignedAddendum(r.addenda[|r.addenda| - 1])
  }

  function SigningHash(s: Scheme, r: Roster): Bytes
    requires LatestIsUnsigned(r)
  {
    s.crypto.sha256(SIGNING_HASH_DOMAIN + s.encode(r))
  }

  /** Equal signing hashes come from equal rosters, if the hash is collision free and the encoding injective. */
  lemma SigningHashInjective(s: Scheme, x: Roster, y: Roster)
    requires CollisionFree(s.crypto) && InjectiveEncoding(s)
    requires LatestIsUnsigned(x) && LatestIsUnsigned(y)
    requires SigningHash(s, x) == SigningHash(s, y)
    ensures x == y
  {
    var dx, dy := SIGNING_HASH_DOMAIN + s.encode(x), SIGNING_HASH_DOMAIN + s.encode(y);
    assert s.encode(x) == dx[|SIGNING_HASH_DOMAIN|..] == dy[|SIGNING_HASH_DOMAIN|..] == s.encode(y);
  }

  /** No hash of anything without the domain prefix, such as another protocol's message, is a signing hash. */
  lemma SigningHashSeparated(s: Scheme, r: Roster, x: Bytes)
    requires CollisionFree(s.crypto) && LatestIsUnsigned(r)
    ensures |SIGNING_HASH_DOMAIN| == 34
    ensures s.crypto.sha256(x) == SigningHash(s, r) ==> SIGNING_HASH_DOMAIN <= x && x[34..] == s.encode(r)
  {
    var d := SIGNING_HASH_DOMAIN + s.encode(r);
    assert d[|SIGNING_HASH_DOMAIN|..] == s.encode(r);
  }

  /** The first entry with that number, as `iter().find` returns it. */
  function Lookup(nodes: seq<Node>, number: Int32): (r: Option<Node>)
    ensures r.Some? ==> r.value in nodes && r.value.number == number
    ensures r.None? <==> forall n | n in nodes :: n.number != number
  {
    if nodes == [] then None
    else if nodes[0].number == number then Some(nodes[0])
    else Lookup(nodes[1..], number)
  }

  predicate IsActive(r: Roster, number: Int32) {
    exists n | n in r.nodes :: n.number == number && !n.revoked
  }

  /** The numbers `active_nodes` yields. */
  function ActiveNumbers(r: Roster): set<Int32> {
    set n | n in r.nodes && !n.revoked :: n.number
  }

  //-- Builders ------------------------------------------------------------------------------------

  function BuildActivationPayload(base: Roster, newNode: Int32, endorser: Int32,
                                  newNodeNonce: Bytes, endorserNonce: Bytes)
    : ActivationPayload
  {
    ActivationPayload(base.version + 1, newNode, endorser, newNodeNonce, endorserNonce)
  }

  function BuildRevocationPayload(base: Roster, revoked: Int32, revoker: Int32): RevocationPayload {
    RevocationPayload(base.version + 1, revoked, revoker)
  }

  function CreateBootstrapRoster(p: ActivationPayload, newNodeSpki: Bytes, endorserSpki: Bytes): Roster {
    Roster(1, [Node(p.endorser, endorserSpki, false), Node(p.newNode, newNodeSpki, false)],
           [Activation(Some(p), [], [])])
  }

  function WithActivation(r: Roster, p: ActivationPayload, spki: Bytes): Roster {
    Roster(p.version, r.nodes + [Node(p.newNode, spki, false)], r.addenda + [Activation(Some(p), [], [])])
  }

  /** Set the revoked flag of the first entry with that number, if there is one. */
  function MarkRevoked(nodes: seq<Node>, number: Int32): (r: seq<Node>)
    ensures |r| == |nodes|
  {
    if nodes == [] then []
    else if nodes[0].number == number then [nodes[0].(revoked := true)] + nodes[1..]
    else [nodes[0]] + MarkRevoked(nodes[1..], number)
  }

  function WithRevocation(r: Roster, p: RevocationPayload): Roster {
    Roster(p.version, MarkRevoked(r.nodes, p.revoked), r.addenda + [Revocation(Some(p), [])])
  }

  function Latest(r: Roster): Addendum
    requires r.addenda != []
  {
    r.addenda[|r.addenda| - 1]
  }

  predicate LatestIsActivation(r: Roster) {
    r.addenda != [] && Latest(r).Activation?
  }

  predicate LatestIsRevocation(r: Roster) {
    r.addenda != [] && Latest(r).Revocation?
  }

  function ReplaceLatest(r: Roster, a: Addendum): Roster
    requires r.addenda != []
  {
    r.(addenda := r.addenda[..|r.addenda| - 1] + [a])
  }

  function WithNewNodeSignature(r: Roster, signature: Bytes): Roster
    requires LatestIsActivation(r)
  {
    ReplaceLatest(r, Latest(r).(newNodeSignature := signature))
  }

  function WithEndorserSignature(r: Roster, signature: Bytes): Roster
    requires LatestIsActivation(r)
  {
    ReplaceLatest(r, Latest(r).(endorserSignature := signature))
  }

  function WithRevokerSignature(r: Roster, signature: Bytes): Roster
    requires LatestIsRevocation(r)
  {
    ReplaceLatest(r, Latest(r).(revokerSignature := signature))
  }

  function StripSignatures(a: Addendum): (r: Addendum)
    ensures UnsignedAddendum(r)
  {
    match a
    case Activation(p, _, _) => Activation(p, [], [])
    case Revocation(p, _) => Revocation(p, [])
    case Empty => Empty
  }

  function WithClearedSignatures(r: Roster): (c: Roster)
    ensures LatestIsUnsigned(c)
  {
    if r.addenda == [] then r else ReplaceLatest(r, StripSignatures(Latest(r)))
  }

  /** Only the first entry with the number is marked. */
  lemma {:induction false} MarksFirst(nodes: seq<Node>, i: nat, number: Int32)
    requires i <= |nodes| && forall k | 0 <= k < i :: nodes[k].number != number
    requires i < |nodes| ==> nodes[i].number == number
    ensures MarkRevoked(nodes, number) == if i < |nodes| then nodes[i := nodes[i].(revoked := true)] else nodes
  {
    if i > 0 {
      MarksFirst(nodes[1..], i - 1, number);
      if i < |nodes| {
        assert nodes[i := nodes[i].(revoked := true)] ==
               [nodes[0]] + nodes[1..][i - 1 := nodes[1..][i - 1].(revoked := true)];
      }
    }
  }

  /** A roster changed in place. */
  class RosterBuffer {
    var version: int
    var nodes: seq<Node>
    var addenda: seq<Addendum>

    function Value(): Roster
      reads this
    {
      Roster(version, nodes, addenda)
    }

    constructor (r: Roster)
      ensures Value() == r
    {
      version, nodes, addenda := r.version, r.nodes, r.addenda;
    }

    method AddActivation(payload: ActivationPayload, spki: Bytes)
      requires payload.version == version + 1
      modifies this
      ensures Value() == WithActivation(old(Value()), payload, spki)
    {
      version := payload.version;
      nodes := nodes + [Node(payload.newNode, spki, false)];
      addenda := addenda + [Activation(Some(payload), [], [])];
    }

    /** The loop behind `iter_mut().find(..)`: flag the first entry with the number. */
    method MarkNodeRevoked(number: Int32)
      modifies this`nodes
      ensures nodes == MarkRevoked(old(nodes), number)
    {
      for i := 0 to |nodes|
        invariant nodes == old(nodes) && forall k | 0 <= k < i :: nodes[k].number != number
      {
        if nodes[i].number == number {
          MarksFirst(nodes, i, number);
          nodes := nodes[i := nodes[i].(revoked := true)];
          return;
        }
      }
      MarksFirst(nodes, |nodes|, number);
    }

    method AddRevocation(payload: RevocationPayload)
      requires payload.version == version + 1
      modifies this
      ensures Value() == WithRevocation(old(Value()), payload)
    {
      version := payload.version;
      MarkNodeRevoked(payload.revoked);
      addenda := addenda + [Revocation(Some(payload), [])];
    }

    method ReplaceLatestAddendum(a: Addendum)
      requires addenda != []
      modifies this`addenda
      ensures Value() == ReplaceLatest(old(Value()), a)
    {
      addenda := addenda[..|addenda| - 1] + [a];
    }

    method SetNewNodeSignature(signature: Bytes)
      requires LatestIsActivation(Value())
      modifies this`addenda
      ensures Value() == WithNewNodeSignature(old(Value()), signature)
    {
      ReplaceLatestAddendum(Latest(Value()).(newNodeSignature := signature));
    }

    method SetEndorserSignature(signature: Bytes)
      requires LatestIsActivation(Value())
      modifies this`addenda
      ensures Value() == WithEndorserSignature(old(Value()), signature)
    {
      ReplaceLatestAddendum(Latest(Value()).(endorserSignature := signature));
    }

    method SetRevokerSignature(signature: Bytes)
      requires LatestIsRevocation(Value())
      modifies this`addenda
      ensures Value() == WithRevokerSignature(old(Value()), signature)
    {
      ReplaceLatestAddendum(Latest(Value()).(revokerSignature := signature));
    }

    method ClearLatestAddendumSignatures()
      modifies this`addenda
      ensures Value() == WithClearedSignatures(old(Value()))
    {
      if addenda != [] {
        ReplaceLatestAddendum(StripSignatures(Latest(Value())));
      }
    }
  }
}
