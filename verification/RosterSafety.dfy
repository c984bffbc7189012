/** What holds at every version of every verified roster, and what two verified rosters share. */
module RosterSafety {
  import opened Prelude
  import opened Crypto
  import opened Rosters
  import opened Histories
  import opened Verifier
  import opened RosterTheorems

  //-- Revocation is final -------------------------------------------------------------------------

  /** Every node number an addendum names: the newcomer, the endorser, the revoker and the revoked. */
  function Named(a: Addendum): set<Int32> {
    match a
    case Activation(Some(p), _, _) => {p.newNode, p.endorser}
    case Revocation(Some(p), _) => {p.revoked, p.revoker}
    case _ => {}
  }

  lemma {:induction false} StaysRevoked(s: Scheme, h: History, m: nat, n: nat, x: Int32)
    requires Legal(s, h) && m <= n <= |h|
    requires x in GroupOf(h[..m]).spkis && x !in GroupOf(h[..m]).active
    ensures x in GroupOf(h[..n]).spkis && x !in GroupOf(h[..n]).active
  {
    hide Digest, Denote, Legal, Signed, GroupOf;
    if m < n {
      StaysRevoked(s, h, m, n - 1, x);
      LegalAt(s, h, n - 1);
      assert h[..n] == h[..n - 1] + [h[n - 1]];
      GroupExtend(h[..n - 1], h[n - 1]);
    }
  }

  function Actors(e: Event): set<Int32> {
    match e
    case Found(en, nn, _, _, _, _) => {en.number, nn.number}
    case Admit(en, nn, _, _, _, _) => {en, nn.number}
    case Expel(x, actor, _) => {x, actor}
  }

  lemma RevokedNeverActs(s: Scheme, h: History, i: nat, j: nat)
    requires Legal(s, h) && i < j < |h| && h[i].Expel?
    ensures h[i].revoked !in Actors(h[j])
  {
    hide Digest, Denote, Legal, Signed, GroupOf;
    var x := h[i].revoked;
    LegalAt(s, h, i);
    LegalGroups(s, h[..i]);
    assert h[..i + 1] == h[..i] + [h[i]];
    GroupExtend(h[..i], h[i]);
    StaysRevoked(s, h, i + 1, j, x);
    LegalAt(s, h, j);
    ActorsAreActive(GroupOf(h[..j]), h[j], x);
  }

  lemma ActorsAreActive(g: Group, e: Event, x: Int32)
    requires Eligible(g, e) && x in g.spkis && x !in g.active
    ensures x !in Actors(e)
  {
  }

  /** Once revoked, a number never signs, endorses, revokes, is revoked or joins again. */
  lemma RevokedNeverReturns(s: Scheme, r: Roster, number: Int32, key: VerifyingKey, i: nat, j: nat)
    requires Verdict(s, r, number, key).Ok?
    requires i < j < |r.addenda| && r.addenda[i].Revocation? && r.addenda[i].revocation.Some?
    ensures r.addenda[i].revocation.value.revoked !in Named(r.addenda[j])
  {
    hide Digest, Replay, Verdict, EventOf, Legal;
    VerifiesIffLegalHistory(s, r, number, key);
    var h :| HistoryOf(s, r, h);
    assert r.addenda[i] == AddendumOf(h[i], i + 1) && r.addenda[j] == AddendumOf(h[j], j + 1);
    RevokedNeverActs(s, h, i, j);
  }

  //-- The replay invariant ------------------------------------------------------------------------

  function Activations(addenda: seq<Addendum>): nat {
    if addenda == [] then 0
    else Activations(addenda[..|addenda| - 1]) + if addenda[|addenda| - 1].Activation? then 1 else 0
  }

  lemma {:induction false} MembersCounted(s: Scheme, h: History)
    requires Legal(s, h)
    ensures |GroupOf(h).members| == Activations(AddendaOf(h)) + if h == [] then 0 else 1
  {
    hide Digest, Legal, Signed, AddendaOf, AddendumOf;
    if h != [] {
      var h', e := h[..|h| - 1], h[|h| - 1];
      LegalAt(s, h, |h| - 1);
      MembersCounted(s, h');
      MemberCountStep(s, h', e);
      assert h == h' + [e];
    } else {
      assert AddendaOf(h) == [];
    }
  }

  lemma MemberCountStep(s: Scheme, h: History, e: Event)
    requires Legal(s, h) && Eligible(GroupOf(h), e)
    ensures |GroupOf(h + [e]).members| == |GroupOf(h).members| + |Joins(e)|
    ensures Activations(AddendaOf(h + [e])) == Activations(AddendaOf(h)) + if e.Expel? then 0 else 1
    ensures e.Found? <==> h == []
  {
    hide Digest, Legal, Signed;
    GroupExtend(h, e);
    AddendaExtend(h, e);
    LegalGroups(s, h);
    assert AddendaOf(h + [e])[..|h|] == AddendaOf(h);
  }

  /**
   What every step of the replay keeps: as many addenda as the version says, one node per activation
   and one more, distinct numbers, and a key on file for exactly the nodes not revoked.
   */
  lemma ReplayKeepsInvariant(s: Scheme, r: Roster, i: nat)
    requires 0 < i <= |r.addenda| && Replay(s, r, i).Ok?
    ensures var working := Denote(Replay(s, r, i).value);
            var keys := ActiveKeys(s, GroupOf(Replay(s, r, i).value));
            && working.version == |working.addenda| == i
            && |working.nodes| == Activations(working.addenda) + 1
            && (forall a, b | 0 <= a < b < |working.nodes| :: working.nodes[a].number != working.nodes[b].number)
            && keys.Keys == ActiveNumbers(working)
            && (forall n | n in working.nodes && !n.revoked ::
                  n.number in keys && s.crypto.decodeSpki(n.spki) == Some(keys[n.number]))
  {
    hide Digest, Replay;
    ReplayLegal(s, r, i);
    var h := Replay(s, r, i).value;
    LegalGroups(s, h);
    MembersCounted(s, h);
    ActiveNumbersDenoted(GroupOf(h), h);
  }

  //-- Prefix agreement ----------------------------------------------------------------------------

  /** One of the signatures on event `i` is by the owner of `key`. */
  predicate SignedUnder(s: Scheme, h: History, i: nat, key: VerifyingKey)
    requires i < |h|
  {
    var g := GroupOf(h[..i]);
    match h[i]
    case Found(en, nn, _, _, _, _) => key == DecodedKey(s, nn.spki) || key == DecodedKey(s, en.spki)
    case Admit(en, nn, _, _, _, _) => key == DecodedKey(s, nn.spki) || key == DecodedKey(s, SpkiOf(g, en))
    case Expel(_, actor, _) => key == DecodedKey(s, SpkiOf(g, actor))
  }

  /** The owner of the signed messages signed at most one roster of that version. */
  ghost predicate OnePerVersion(s: Scheme, signed: iset<Bytes>, version: int) {
    forall x: Roster, y: Roster ::
      && LatestIsUnsigned(x) && LatestIsUnsigned(y)
      && x.version == version && y.version == version
      && SigningHash(s, x) in signed && SigningHash(s, y) in signed
      ==> SigningHash(s, x) == SigningHash(s, y)
  }

  lemma SignedDigest(s: Scheme, h: History, i: nat, key: VerifyingKey, signed: iset<Bytes>)
    requires Legal(s, h) && i < |h| && SignedUnder(s, h, i, key)
    requires Unforgeable(s.crypto, key, signed)
    ensures Digest(s, h[..i], h[i]) in signed
  {
    hide Digest;
    LegalAt(s, h, i);
  }

  /**
   Whoever has a signature on a verified roster has signed the hash of a text with the roster domain in
   front: nothing signed for any other purpose will do.
   */
  lemma SignaturesAreForRosters(s: Scheme, r: Roster, n: Int32, k: VerifyingKey, i: nat, key: VerifyingKey,
                                signed: iset<Bytes>)
    requires Verdict(s, r, n, k).Ok? && i < |r.addenda| && SignedInReplay(s, r, i, key)
    requires Unforgeable(s.crypto, key, signed)
    ensures exists x :: SIGNING_HASH_DOMAIN <= x && s.crypto.sha256(x) in signed
    ensures CollisionFree(s.crypto) ==>
              exists digest :: digest in signed && forall y :: s.crypto.sha256(y) == digest ==> SIGNING_HASH_DOMAIN <= y
  {
    hide Digest, Replay, Verdict, Unforgeable, CollisionFree, SignedUnder, Denote;
    ReplayIsLegal(s, r);
    var h := Replay(s, r, |r.addenda|).value;
    SignedDigest(s, h, i, key, signed);
    UnsignedDigest(s, h[..i], h[i]);
    var x := Denote(h[..i] + [Unsigned(h[i])]);
    var text := SIGNING_HASH_DOMAIN + s.encode(x);
    assert SIGNING_HASH_DOMAIN <= text && s.crypto.sha256(text) in signed;
    if CollisionFree(s.crypto) {
      forall y | s.crypto.sha256(y) == SigningHash(s, x) ensures SIGNING_HASH_DOMAIN <= y {
        SigningHashSeparated(s, x, y);
      }
      assert SigningHash(s, x) in signed;
    }
  }

  lemma ReplayIsLegal(s: Scheme, r: Roster)
    requires Replay(s, r, |r.addenda|).Ok?
    ensures Legal(s, Replay(s, r, |r.addenda|).value)
  {
    ReplayLegal(s, r, |r.addenda|);
  }

  lemma StrippedEvent(nodes: seq<Node>, a: Addendum, founding: bool)
    requires Complete(a)
    ensures EventOf(nodes, StripSignatures(a), founding) == Unsigned(EventOf(nodes, a, founding))
  {
  }

  /** What `e`'s signers hashed determines the history before `e`, and `e` itself but for its signatures. */
  lemma HashedRoster(s: Scheme, h: History, i: nat)
    requires Legal(s, h) && i < |h|
    ensures var x := Denote(h[..i] + [Unsigned(h[i])]);
            && x.version == i + 1 && |x.addenda| == i + 1 && x.nodes == Denote(h[..i + 1]).nodes
            && (forall j | 0 <= j < i ::
                  Complete(x.addenda[j]) && EventOf(x.nodes, x.addenda[j], j == 0) == h[j])
            && Complete(x.addenda[i]) && EventOf(x.nodes, x.addenda[i], i == 0) == Unsigned(h[i])
  {
    hide Digest, EventOf, Legal;
    var p := h[..i + 1];
    var x := Denote(h[..i] + [Unsigned(h[i])]);
    assert p == h[..i] + [h[i]];
    LegalPrefix(s, h, i + 1);
    DenoteSigned(h[..i], h[i]);
    assert x.nodes == Denote(p).nodes && x.version == i + 1;
    forall j | 0 <= j < i
      ensures Complete(x.addenda[j]) && EventOf(x.nodes, x.addenda[j], j == 0) == h[j]
    {
      assert x.addenda[j] == Denote(p).addenda[j];
      ReadBack(s, p, j);
    }
    ReadBack(s, p, i);
    StrippedEvent(x.nodes, Denote(p).addenda[i], i == 0);
    assert x.addenda[i] == StripSignatures(Denote(p).addenda[i]);
  }

  /**
   If two verified rosters carry, at the same version, a signature by the same owner, who signed only
   one roster of that version, then everything up to that version is identical: the history, the
   earlier addenda with their signatures, the payload, and the nodes.
   */
  lemma PrefixAgreement(s: Scheme, r: Roster, r': Roster, h: History, h': History, i: nat,
                        key: VerifyingKey, signed: iset<Bytes>)
    requires HistoryOf(s, r, h) && HistoryOf(s, r', h')
    requires i < |h| && i < |h'| && SignedUnder(s, h, i, key) && SignedUnder(s, h', i, key)
    requires CollisionFree(s.crypto) && InjectiveEncoding(s)
    requires Unforgeable(s.crypto, key, signed) && OnePerVersion(s, signed, i + 1)
    ensures h[..i] == h'[..i] && Unsigned(h[i]) == Unsigned(h'[i])
    ensures |r.addenda| > i && |r'.addenda| > i && r.addenda[..i] == r'.addenda[..i]
    ensures StripSignatures(r.addenda[i]) == StripSignatures(r'.addenda[i])
    ensures Denote(h[..i + 1]).nodes == Denote(h'[..i + 1]).nodes
  {
    var x, y := Denote(h[..i] + [Unsigned(h[i])]), Denote(h'[..i] + [Unsigned(h'[i])]);
    SignedDigest(s, h, i, key, signed);
    SignedDigest(s, h', i, key, signed);
    HashedRoster(s, h, i);
    HashedRoster(s, h', i);
    UnsignedDigest(s, h[..i], h[i]);
    UnsignedDigest(s, h'[..i], h'[i]);
    hide Digest, Denote, EventOf;
    SigningHashInjective(s, x, y);
    forall j | 0 <= j < i ensures h[j] == h'[j] {
      assert EventOf(x.nodes, x.addenda[j], j == 0) == h[j];
      assert EventOf(y.nodes, y.addenda[j], j == 0) == h'[j];
    }
    assert h[..i] == h'[..i];
    AddendaAgree(s, r, r', h, h', i);
  }

  /** The same said of what two callers verified and of what the verifier's replay made of it. */
  lemma VerifiedRostersAgree(s: Scheme, r: Roster, n: Int32, k: VerifyingKey, r': Roster, n': Int32, k': VerifyingKey,
                             i: nat, key: VerifyingKey, signed: iset<Bytes>)
    requires Verdict(s, r, n, k).Ok? && Verdict(s, r', n', k').Ok? && i < |r.addenda| && i < |r'.addenda|
    requires SignedInReplay(s, r, i, key) && SignedInReplay(s, r', i, key)
    requires CollisionFree(s.crypto) && InjectiveEncoding(s)
    requires Unforgeable(s.crypto, key, signed) && OnePerVersion(s, signed, i + 1)
    ensures r.addenda[..i] == r'.addenda[..i] && StripSignatures(r.addenda[i]) == StripSignatures(r'.addenda[i])
    ensures Replay(s, r, i + 1).Ok? && Replay(s, r', i + 1).Ok?
    ensures var x, y := Denote(Replay(s, r, i + 1).value), Denote(Replay(s, r', i + 1).value);
            x.version == y.version == i + 1 && x.nodes == y.nodes
  {
    hide Digest, Verdict, Replay, SignedUnder, CollisionFree, InjectiveEncoding, Unforgeable, OnePerVersion;
    VerifiesIffLegalHistory(s, r, n, k);
    VerifiesIffLegalHistory(s, r', n', k');
    var h :| HistoryOf(s, r, h);
    var h' :| HistoryOf(s, r', h');
    ReplayOfLegal(s, h, |h|);
    ReplayOfLegal(s, h', |h'|);
    ReplayOfLegal(s, h, i + 1);
    ReplayOfLegal(s, h', i + 1);
    assert h[..|h|] == h && h'[..|h'|] == h';
    PrefixAgreement(s, r, r', h, h', i, key, signed);
  }

  /** The verifier's replay of `r` finds a signature by the owner of `key` on addendum `i`. */
  ghost predicate SignedInReplay(s: Scheme, r: Roster, i: nat, key: VerifyingKey)
    requires i < |r.addenda|
  {
    Replay(s, r, |r.addenda|).Ok? && i < |Replay(s, r, |r.addenda|).value| &&
    SignedUnder(s, Replay(s, r, |r.addenda|).value, i, key)
  }

  lemma UnsignedDigest(s: Scheme, h: History, e: Event)
    ensures LatestIsUnsigned(Denote(h + [Unsigned(e)])) && Digest(s, h, e) == SigningHash(s, Denote(h + [Unsigned(e)]))
  {
  }

  lemma AddendaAgree(s: Scheme, r: Roster, r': Roster, h: History, h': History, i: nat)
    requires HistoryOf(s, r, h) && HistoryOf(s, r', h') && i < |h| && i < |h'|
    requires h[..i] == h'[..i] && Unsigned(h[i]) == Unsigned(h'[i])
    ensures |r.addenda| > i && |r'.addenda| > i && r.addenda[..i] == r'.addenda[..i]
    ensures StripSignatures(r.addenda[i]) == StripSignatures(r'.addenda[i])
  {
    forall j | 0 <= j < i ensures r.addenda[j] == r'.addenda[j] {
      assert h[j] == h[..i][j] == h'[..i][j] == h'[j];
    }
    assert StripSignatures(r.addenda[i]) == AddendumOf(Unsigned(h[i]), i + 1);
    assert StripSignatures(r'.addenda[i]) == AddendumOf(Unsigned(h'[i]), i + 1);
  }
}
