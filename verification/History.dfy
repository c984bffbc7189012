/**
 What a roster means: a history of membership events.

 A history knows nothing of working copies, key maps or first-match searches.  `Denote` says which
 roster a history stands for and `Legal` which histories the group may have; the verifier and the
 builders are each proved against these two.
 */
module Histories {
  import opened Prelude
  import opened Crypto
  import opened Rosters

  datatype Member = Member(number: Int32, spki: Bytes)

  datatype Event =
    | Found(endorser: Member, newcomer: Member, newNodeNonce: Bytes, endorserNonce: Bytes,
            newNodeSignature: Bytes, endorserSignature: Bytes)
    | Admit(endorserNumber: Int32, newcomer: Member, newNodeNonce: Bytes, endorserNonce: Bytes,
            newNodeSignature: Bytes, endorserSignature: Bytes)
    | Expel(revoked: Int32, revoker: Int32, revokerSignature: Bytes)

  type History = seq<Event>

  /** Everyone who ever joined, in order of joining; the key each number joined with; the numbers not revoked. */
  datatype Group = Group(members: seq<Member>, spkis: map<Int32, Bytes>, active: set<Int32>)

  const NOBODY := Group([], map[], {})

  function Joins(e: Event): seq<Member> {
    match e
    case Found(endorser, newcomer, _, _, _, _) => [endorser, newcomer]
    case Admit(_, newcomer, _, _, _, _) => [newcomer]
    case Expel(_, _, _) => []
  }

  function Add(g: Group, m: Member): Group {
    Group(g.members + [m], g.spkis[m.number := m.spki], g.active + {m.number})
  }

  function After(g: Group, e: Event): Group {
    match e
    case Found(endorser, newcomer, _, _, _, _) => Add(Add(g, endorser), newcomer)
    case Admit(_, newcomer, _, _, _, _) => Add(g, newcomer)
    case Expel(x, _, _) => g.(active := g.active - {x})
  }

  function GroupOf(h: History): Group {
    if h == [] then NOBODY else After(GroupOf(h[..|h| - 1]), h[|h| - 1])
  }

  function SpkiOf(g: Group, number: Int32): Bytes {
    if number in g.spkis then g.spkis[number] else []
  }

  //-- The roster a history stands for -------------------------------------------------------------

  function NodesOf(ms: seq<Member>, active: set<Int32>): (ns: seq<Node>)
    ensures |ns| == |ms|
  {
    seq(|ms|, i requires 0 <= i < |ms| => Node(ms[i].number, ms[i].spki, ms[i].number !in active))
  }

  function AddendumOf(e: Event, version: int): Addendum {
    match e
    case Found(en, nn, nonceN, nonceE, sigN, sigE) =>
      Activation(Some(ActivationPayload(version, nn.number, en.number, nonceN, nonceE)), sigN, sigE)
    case Admit(en, nn, nonceN, nonceE, sigN, sigE) =>
      Activation(Some(ActivationPayload(version, nn.number, en, nonceN, nonceE)), sigN, sigE)
    case Expel(x, actor, sig) => Revocation(Some(RevocationPayload(version, x, actor)), sig)
  }

  function AddendaOf(h: History): (a: seq<Addendum>)
    ensures |a| == |h|
  {
    seq(|h|, i requires 0 <= i < |h| => AddendumOf(h[i], i + 1))
  }

  function Denote(h: History): Roster {
    Roster(|h|, NodesOf(GroupOf(h).members, GroupOf(h).active), AddendaOf(h))
  }

  //-- The histories a group may have --------------------------------------------------------------

  function Unsigned(e: Event): Event {
    match e
    case Found(en, nn, nonceN, nonceE, _, _) => Found(en, nn, nonceN, nonceE, [], [])
    case Admit(en, nn, nonceN, nonceE, _, _) => Admit(en, nn, nonceN, nonceE, [], [])
    case Expel(x, actor, _) => Expel(x, actor, [])
  }

  /** What the signers of `e` sign: the roster right after it, without their own signatures. */
  function Digest(s: Scheme, h: History, e: Event): Bytes {
    var r := Denote(h + [Unsigned(e)]);
    assert r.addenda[|h|] == AddendumOf(Unsigned(e), |h| + 1);
    SigningHash(s, r)
  }

  /**
   Two distinct founders, then newcomers vouched for by active members, and active members removed by active
   members.
   */
  predicate Eligible(g: Group, e: Event) {
    match e
    case Found(en, nn, _, _, _, _) => g == NOBODY && en.number != nn.number
    case Admit(en, nn, _, _, _, _) => nn.number !in g.spkis && en in g.active
    case Expel(x, actor, _) => x in g.active && actor in g.active
  }

  predicate SignedBy(s: Scheme, spki: Bytes, digest: Bytes, signature: Bytes) {
    s.crypto.decodeSpki(spki).Some? && s.crypto.verify(s.crypto.decodeSpki(spki).value, digest, signature)
  }

  /** Newcomer and endorser both sign an activation, the revoker a revocation, each with the key the group knows. */
  predicate Signed(s: Scheme, g: Group, e: Event, digest: Bytes) {
    match e
    case Found(en, nn, _, _, sigN, sigE) => SignedBy(s, nn.spki, digest, sigN) && SignedBy(s, en.spki, digest, sigE)
    case Admit(en, nn, _, _, sigN, sigE) =>
      SignedBy(s, nn.spki, digest, sigN) && SignedBy(s, SpkiOf(g, en), digest, sigE)
    case Expel(_, actor, sig) => SignedBy(s, SpkiOf(g, actor), digest, sig)
  }

  predicate LegalEvent(s: Scheme, h: History, e: Event) {
    Eligible(GroupOf(h), e) && Signed(s, GroupOf(h), e, Digest(s, h, e))
  }

  predicate Legal(s: Scheme, h: History) {
    h == [] || (Legal(s, h[..|h| - 1]) && LegalEvent(s, h[..|h| - 1], h[|h| - 1]))
  }

  function DecodedKey(s: Scheme, spki: Bytes): VerifyingKey {
    match s.crypto.decodeSpki(spki)
    case Some(key) => key
    case None => VerifyingKey([])
  }

  /** The active members and their keys. */
  function ActiveKeys(s: Scheme, g: Group): map<Int32, VerifyingKey> {
    map n | n in g.active :: DecodedKey(s, SpkiOf(g, n))
  }

  //-- Facts about groups --------------------------------------------------------------------------

  lemma GroupExtend(h: History, e: Event)
    ensures GroupOf(h + [e]) == After(GroupOf(h), e)
  {
    assert (h + [e])[..|h|] == h;
  }

  lemma AddendaExtend(h: History, e: Event)
    ensures AddendaOf(h + [e]) == AddendaOf(h) + [AddendumOf(e, |h| + 1)]
  {
  }

  lemma LegalExtend(s: Scheme, h: History, e: Event)
    ensures Legal(s, h + [e]) <==> Legal(s, h) && LegalEvent(s, h, e)
  {
    assert (h + [e])[..|h|] == h;
  }

  lemma {:induction false} LegalPrefix(s: Scheme, h: History, n: nat)
    requires Legal(s, h) && n <= |h|
    ensures Legal(s, h[..n])
  {
    if n == |h| {
      assert h[..n] == h;
    } else {
      LegalPrefix(s, h[..|h| - 1], n);
      assert h[..|h| - 1][..n] == h[..n];
    }
  }

  lemma LegalAt(s: Scheme, h: History, i: nat)
    requires Legal(s, h) && i < |h|
    ensures Legal(s, h[..i]) && LegalEvent(s, h[..i], h[i])
  {
    LegalPrefix(s, h, i + 1);
    assert h[..i + 1][..i] == h[..i];
  }

  /** Members have distinct numbers, the key map says what they joined with, and only members are active. */
  ghost predicate Consistent(g: Group) {
    && (forall i, j | 0 <= i < j < |g.members| :: g.members[i].number != g.members[j].number)
    && (forall i | 0 <= i < |g.members| ::
          g.members[i].number in g.spkis && g.spkis[g.members[i].number] == g.members[i].spki)
    && (forall n | n in g.spkis :: Member(n, g.spkis[n]) in g.members)
    && g.active <= g.spkis.Keys
  }

  ghost predicate Decodable(s: Scheme, g: Group) {
    forall n | n in g.spkis :: s.crypto.decodeSpki(g.spkis[n]).Some?
  }

  lemma ConsistentAdd(g: Group, m: Member)
    requires Consistent(g) && m.number !in g.spkis
    ensures Consistent(Add(g, m))
  {
    var g' := Add(g, m);
    forall n | n in g'.spkis ensures Member(n, g'.spkis[n]) in g'.members {
      assert g'.members[|g.members|] == m;
    }
  }

  lemma ConsistentAfter(g: Group, e: Event)
    requires Consistent(g) && Eligible(g, e)
    ensures Consistent(After(g, e))
  {
    match e {
      case Found(en, nn, _, _, _, _) =>
        ConsistentAdd(g, en);
        ConsistentAdd(Add(g, en), nn);
      case Admit(_, nn, _, _, _, _) =>
        ConsistentAdd(g, nn);
      case Expel(_, _, _) =>
    }
  }

  /** Every legal history leaves a consistent group whose keys all decode, and starts with its founding. */
  lemma {:induction false} LegalGroups(s: Scheme, h: History)
    requires Legal(s, h)
    ensures Consistent(GroupOf(h)) && Decodable(s, GroupOf(h))
    ensures h != [] ==> h[0].Found? && GroupOf(h) != NOBODY
  {
    if h != [] {
      LegalGroups(s, h[..|h| - 1]);
      ConsistentAfter(GroupOf(h[..|h| - 1]), h[|h| - 1]);
    }
  }

  /** A number, once in the group, keeps its key for ever. */
  lemma {:induction false} KeysKept(s: Scheme, h: History, n: nat)
    requires Legal(s, h) && n <= |h|
    ensures GroupOf(h[..n]).members <= GroupOf(h).members
    ensures forall x | x in GroupOf(h[..n]).spkis ::
              x in GroupOf(h).spkis && GroupOf(h).spkis[x] == GroupOf(h[..n]).spkis[x]
  {
    if n == |h| {
      assert h[..n] == h;
    } else {
      KeysKept(s, h[..|h| - 1], n);
      assert h[..|h| - 1][..n] == h[..n];
    }
  }

  /** Searching the denoted node list finds exactly the members, with their keys and revocation state. */
  lemma LookupNodes(g: Group, number: Int32)
    requires Consistent(g)
    ensures Lookup(NodesOf(g.members, g.active), number) ==
            if number in g.spkis then Some(Node(number, g.spkis[number], number !in g.active)) else None
  {
    var ns := NodesOf(g.members, g.active);
    var found := Lookup(ns, number);
    if number in g.spkis {
      var i :| 0 <= i < |g.members| && g.members[i] == Member(number, g.spkis[number]);
      assert ns[i] in ns && ns[i].number == number;
      assert found.Some?;
    }
    if found.Some? {
      var i :| 0 <= i < |ns| && ns[i] == found.value;
      assert g.members[i].number == number;
    }
  }

  //-- What one event does to the roster and to the active keys ------------------------------------

  function Entries(ms: seq<Member>): seq<Node> {
    seq(|ms|, i requires 0 <= i < |ms| => Node(ms[i].number, ms[i].spki, false))
  }

  lemma NodesAdd(g: Group, m: Member)
    requires Consistent(g) && m.number !in g.spkis
    ensures NodesOf(Add(g, m).members, Add(g, m).active) ==
            NodesOf(g.members, g.active) + [Node(m.number, m.spki, false)]
  {
  }

  lemma NodesJoin(g: Group, e: Event)
    requires Consistent(g) && Eligible(g, e) && !e.Expel?
    ensures NodesOf(After(g, e).members, After(g, e).active) == NodesOf(g.members, g.active) + Entries(Joins(e))
  {
    if e.Found? {
      ConsistentAdd(g, e.endorser);
      NodesAdd(g, e.endorser);
      NodesAdd(Add(g, e.endorser), e.newcomer);
    } else {
      NodesAdd(g, e.newcomer);
    }
  }

  lemma DenoteJoin(h: History, e: Event)
    requires Consistent(GroupOf(h)) && Eligible(GroupOf(h), e) && !e.Expel?
    ensures Denote(h + [e]).version == |h| + 1
    ensures Denote(h + [e]).nodes == Denote(h).nodes + Entries(Joins(e))
    ensures Denote(h + [e]).addenda == Denote(h).addenda + [AddendumOf(e, |h| + 1)]
  {
    GroupExtend(h, e);
    AddendaExtend(h, e);
    NodesJoin(GroupOf(h), e);
  }

  lemma {:induction false} MarkRevokedNodes(ms: seq<Member>, active: set<Int32>, number: Int32)
    requires forall i, j | 0 <= i < j < |ms| :: ms[i].number != ms[j].number
    ensures MarkRevoked(NodesOf(ms, active), number) == NodesOf(ms, active - {number})
  {
    if ms != [] {
      var before, after := NodesOf(ms, active), NodesOf(ms, active - {number});
      assert before[1..] == NodesOf(ms[1..], active);
      assert after[1..] == NodesOf(ms[1..], active - {number});
      if ms[0].number == number {
        assert before[1..] == after[1..];
      } else {
        MarkRevokedNodes(ms[1..], active, number);
      }
      assert after == [after[0]] + after[1..];
    }
  }

  lemma DenoteExpel(h: History, e: Event)
    requires Consistent(GroupOf(h)) && e.Expel?
    ensures Denote(h + [e]).version == |h| + 1
    ensures Denote(h + [e]).nodes == MarkRevoked(Denote(h).nodes, e.revoked)
    ensures Denote(h + [e]).addenda == Denote(h).addenda + [AddendumOf(e, |h| + 1)]
  {
    GroupExtend(h, e);
    AddendaExtend(h, e);
    MarkRevokedNodes(GroupOf(h).members, GroupOf(h).active, e.revoked);
  }

  /** Signing the latest event changes only its addendum. */
  lemma DenoteSigned(h: History, e: Event)
    ensures Denote(h + [Unsigned(e)]).addenda != []
    ensures Denote(h + [e]) == ReplaceLatest(Denote(h + [Unsigned(e)]), AddendumOf(e, |h| + 1))
  {
    GroupExtend(h, e);
    GroupExtend(h, Unsigned(e));
    AddendaExtend(h, e);
    AddendaExtend(h, Unsigned(e));
  }
}
