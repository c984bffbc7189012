/**
 What verification means: it accepts exactly the rosters of legal histories, which are exactly the
 rosters the builders make, and revocation is final in them.
 */
module RosterTheorems {
  import opened Prelude
  import opened Crypto
  import opened Rosters
  import opened Histories
  import opened Verifier

  //-- Completeness: the roster of a legal history replays to that history -------------------------

  lemma ClaimedIsJoined(s: Scheme, h: History, i: nat, m: Member)
    requires Legal(s, h) && i < |h| && m in Joins(h[i])
    ensures Lookup(Denote(h).nodes, m.number).Some? && ClaimedSpki(Denote(h).nodes, m.number) == m.spki
  {
    hide Digest, GroupOf, Legal, Lookup;
    assert h[..i + 1] == h[..i] + [h[i]];
    LegalAt(s, h, i);
    GroupExtend(h[..i], h[i]);
    KeysKept(s, h, i + 1);
    LegalGroups(s, h);
    LookupNodes(GroupOf(h), m.number);
  }

  /** A legal event can be read back from its addendum and the node list of any later roster. */
  lemma ReadBack(s: Scheme, h: History, i: nat)
    requires Legal(s, h) && i < |h|
    ensures Denote(h).addenda[i] == AddendumOf(h[i], i + 1) && Complete(Denote(h).addenda[i])
    ensures EventOf(Denote(h).nodes, Denote(h).addenda[i], i == 0) == h[i]
    ensures Listed(Denote(h).nodes, h[i])
  {
    hide Digest;
    forall m | m in Joins(h[i])
      ensures Lookup(Denote(h).nodes, m.number).Some? && ClaimedSpki(Denote(h).nodes, m.number) == m.spki
    {
      ClaimedIsJoined(s, h, i, m);
    }
    LegalAt(s, h, i);
    LegalGroups(s, h[..i]);
    match h[i] {
      case Found(en, nn, _, _, _, _) => assert en in Joins(h[i]) && nn in Joins(h[i]);
      case Admit(_, nn, _, _, _, _) => assert nn in Joins(h[i]); assert h[..i] != [];
      case Expel(_, _, _) =>
    }
  }

  lemma {:induction false} ReplayOfLegal(s: Scheme, h: History, i: nat)
    requires Legal(s, h) && i <= |h|
    ensures Replay(s, Denote(h), i) == Ok(h[..i])
  {
    hide Digest, AddendaOf, NodesOf, Fault, EventOf, Legal;
    if i > 0 {
      ReplayOfLegal(s, h, i - 1);
      ReadBack(s, h, i - 1);
      LegalAt(s, h, i - 1);
      FaultlessIsLegal(s, Denote(h).nodes, h[..i - 1], Denote(h).addenda[i - 1]);
      assert h[..i] == h[..i - 1] + [h[i - 1]];
    }
  }

  /** Two node lists that a first-match search cannot tell apart, revocation aside. */
  ghost predicate SameKeys(nodes: seq<Node>, nodes': seq<Node>) {
    forall n: Int32 ::
      && (Lookup(nodes, n).Some? <==> Lookup(nodes', n).Some?)
      && ClaimedSpki(nodes, n) == ClaimedSpki(nodes', n)
  }

  lemma SameFault(s: Scheme, nodes: seq<Node>, nodes': seq<Node>, h: History, a: Addendum)
    requires SameKeys(nodes, nodes')
    ensures Fault(s, nodes, h, a) == Fault(s, nodes', h, a)
    ensures Complete(a) ==> EventOf(nodes, a, h == []) == EventOf(nodes', a, h == [])
  {
    hide Digest, GroupOf, Lookup;
    if Complete(a) {
      SameEvent(nodes, nodes', a, h == []);
      assert ShapeFault(s, nodes, GroupOf(h), |h| + 1, a) == ShapeFault(s, nodes', GroupOf(h), |h| + 1, a);
    }
  }

  lemma SameEvent(nodes: seq<Node>, nodes': seq<Node>, a: Addendum, founding: bool)
    requires SameKeys(nodes, nodes') && Complete(a)
    ensures EventOf(nodes, a, founding) == EventOf(nodes', a, founding)
  {
    hide Lookup;
  }

  /** Replay depends on the node list it is given only through first-match searches for presence and key. */
  lemma {:induction false} ReplayNeedsOnlyKeys(s: Scheme, r: Roster, r': Roster, i: nat)
    requires r.addenda == r'.addenda && SameKeys(r.nodes, r'.nodes) && i <= |r.addenda|
    ensures Replay(s, r, i) == Replay(s, r', i)
  {
    hide Fault, EventOf, SameKeys;
    if i > 0 {
      ReplayNeedsOnlyKeys(s, r, r', i - 1);
      if Replay(s, r, i - 1).Ok? {
        SameFault(s, r.nodes, r'.nodes, Replay(s, r, i - 1).value, r.addenda[i - 1]);
      }
    }
  }

  //-- The characterization ------------------------------------------------------------------------

  predicate Anchored(s: Scheme, h: History, number: Int32, key: VerifyingKey) {
    number in GroupOf(h).active && DecodedKey(s, SpkiOf(GroupOf(h), number)) == key
  }

  /** The roster of a legal history is judged by the caller's standing in that history and nothing else. */
  lemma HistoryDecides(s: Scheme, h: History, number: Int32, key: VerifyingKey)
    requires Legal(s, h) && h != []
    ensures var g := GroupOf(h);
            Verdict(s, Denote(h), number, key) ==
            if Anchored(s, h, number, key) then Ok(ActiveKeys(s, g))
            else if number in g.active then Err(VerifierKeyMismatch(number))
            else if number in g.spkis then Err(VerifierRevoked(number))
            else Err(VerifierNotInRoster(number))
  {
    hide Digest, Fault;
    ReplayOfLegal(s, h, |h|);
    assert h[..|h|] == h;
  }

  /** The history of a roster that some caller's verification accepts, or rejects only for who the caller is. */
  ghost predicate HistoryOf(s: Scheme, r: Roster, h: History) {
    h != [] && Legal(s, h) && Denote(h) == r
  }

  lemma VerdictHasHistory(s: Scheme, r: Roster, number: Int32, key: VerifyingKey) returns (h: History)
    requires
      var v := Verdict(s, r, number, key);
      v.Ok? || v.error.VerifierRevoked? || v.error.VerifierNotInRoster? || v.error.VerifierKeyMismatch?
    ensures HistoryOf(s, r, h)
  {
    hide Digest;
    NoCallerFaults(s, r, |r.addenda|);
    h := Replay(s, r, |r.addenda|).value;
    ReplayLegal(s, r, |r.addenda|);
  }

  /** No fault of an addendum is blamed on the caller. */
  lemma {:induction false} NoCallerFaults(s: Scheme, r: Roster, i: nat)
    requires i <= |r.addenda|
    ensures Replay(s, r, i).Err? ==>
              var e := Replay(s, r, i).error;
              !e.VerifierRevoked? && !e.VerifierNotInRoster? && !e.VerifierKeyMismatch? && !e.ReconstructionMismatch?
  {
    hide Fault, EventOf;
    if i > 0 {
      NoCallerFaults(s, r, i - 1);
      if Replay(s, r, i - 1).Ok? {
        NoCallerFault(s, r.nodes, Replay(s, r, i - 1).value, r.addenda[i - 1]);
      }
    }
  }

  lemma NoCallerFault(s: Scheme, nodes: seq<Node>, h: History, a: Addendum)
    ensures Fault(s, nodes, h, a).Some? ==>
              var e := Fault(s, nodes, h, a).value;
              !e.VerifierRevoked? && !e.VerifierNotInRoster? && !e.VerifierKeyMismatch? && !e.ReconstructionMismatch?
  {
    hide Digest, GroupOf, Lookup;
  }

  /**
   Verification accepts exactly the rosters of legal histories in which the caller is active under
   the given key; and it reports the caller as revoked exactly for legal histories that revoked it.
   */
  lemma VerifiesIffLegalHistory(s: Scheme, r: Roster, number: Int32, key: VerifyingKey)
    ensures Verdict(s, r, number, key).Ok? <==> exists h :: HistoryOf(s, r, h) && Anchored(s, h, number, key)
    ensures Verdict(s, r, number, key) == Err(VerifierRevoked(number)) <==>
            exists h :: HistoryOf(s, r, h) && number in GroupOf(h).spkis && number !in GroupOf(h).active
    ensures Verdict(s, r, number, key) == Err(VerifierNotInRoster(number)) <==>
            exists h :: HistoryOf(s, r, h) && number !in GroupOf(h).spkis
  {
    hide Digest, Replay;
    forall h | HistoryOf(s, r, h)
      ensures Verdict(s, r, number, key) ==
              if Anchored(s, h, number, key) then Ok(ActiveKeys(s, GroupOf(h)))
              else if number in GroupOf(h).active then Err(VerifierKeyMismatch(number))
              else if number in GroupOf(h).spkis then Err(VerifierRevoked(number))
              else Err(VerifierNotInRoster(number))
      ensures GroupOf(h).active <= GroupOf(h).spkis.Keys
    {
      HistoryDecides(s, h, number, key);
      LegalGroups(s, h);
    }
    var v := Verdict(s, r, number, key);
    if v.Ok? || v.error.VerifierRevoked? || v.error.VerifierNotInRoster? {
      var h := VerdictHasHistory(s, r, number, key);
      assert HistoryOf(s, r, h);
    }
  }

  /** A roster has one history: what it says happened cannot be read in two ways. */
  lemma HistoryUnique(s: Scheme, r: Roster, h: History, h': History)
    requires HistoryOf(s, r, h) && HistoryOf(s, r, h')
    ensures h == h'
  {
    ReplayOfLegal(s, h, |h|);
    ReplayOfLegal(s, h', |h'|);
    assert h[..|h|] == h && h'[..|h'|] == h';
  }

  //-- The builders --------------------------------------------------------------------------------

  /** What the builders make of `base` for the next event, before anyone has signed. */
  function Built(base: Roster, e: Event): Roster {
    match e
    case Found(en, nn, nonceN, nonceE, _, _) =>
      CreateBootstrapRoster(BuildActivationPayload(base, nn.number, en.number, nonceN, nonceE), nn.spki, en.spki)
    case Admit(en, nn, nonceN, nonceE, _, _) =>
      WithActivation(base, BuildActivationPayload(base, nn.number, en, nonceN, nonceE), nn.spki)
    case Expel(x, actor, _) => WithRevocation(base, BuildRevocationPayload(base, x, actor))
  }

  /** The signatures of `e` set on the latest addendum. */
  function Sealed(r: Roster, e: Event): Roster
    requires if e.Expel? then LatestIsRevocation(r) else LatestIsActivation(r)
  {
    match e
    case Found(_, _, _, _, sigN, sigE) => WithEndorserSignature(WithNewNodeSignature(r, sigN), sigE)
    case Admit(_, _, _, _, sigN, sigE) => WithEndorserSignature(WithNewNodeSignature(r, sigN), sigE)
    case Expel(_, _, sig) => WithRevokerSignature(r, sig)
  }

  /** One builder step and its signatures extend the denoted roster by one event. */
  lemma BuildersDenote(s: Scheme, h: History, e: Event)
    requires Legal(s, h) && Eligible(GroupOf(h), e)
    ensures Built(Denote(h), e) == Denote(h + [Unsigned(e)])
    ensures LatestIsUnsigned(Built(Denote(h), e)) && SigningHash(s, Built(Denote(h), e)) == Digest(s, h, e)
    ensures Built(Denote(h), e).addenda != [] && Latest(Built(Denote(h), e)) == AddendumOf(Unsigned(e), |h| + 1)
    ensures Sealed(Built(Denote(h), e), e) == Denote(h + [e])
  {
    hide GroupOf, Legal, NodesOf, Built, Sealed;
    BuiltDenotes(s, h, e);
    AddendaExtend(h, Unsigned(e));
    DenoteSigned(h, e);
    SealReplaces(Built(Denote(h), e), e);
  }

  lemma BuiltDenotes(s: Scheme, h: History, e: Event)
    requires Legal(s, h) && Eligible(GroupOf(h), e)
    ensures Built(Denote(h), e) == Denote(h + [Unsigned(e)])
  {
    LegalGroups(s, h);
    hide GroupOf, Legal, NodesOf, AddendaOf;
    if e.Expel? {
      DenoteExpel(h, Unsigned(e));
    } else {
      DenoteJoin(h, Unsigned(e));
    }
  }

  lemma SealReplaces(r: Roster, e: Event)
    requires r.addenda != [] && Latest(r) == AddendumOf(Unsigned(e), r.version)
    ensures Sealed(r, e) == ReplaceLatest(r, AddendumOf(e, r.version))
  {
  }

  /** The roster made by running the builders and signature setters once per event, from the default roster. */
  function BuildUp(h: History): Roster {
    if h == [] then DEFAULT_ROSTER else Sealed(Built(BuildUp(h[..|h| - 1]), h[|h| - 1]), h[|h| - 1])
  }

  /** Builders and verifier implement one semantics: what the builders build up is what verification accepts. */
  lemma {:induction false} BuildersReachDenoted(s: Scheme, h: History)
    requires Legal(s, h)
    ensures BuildUp(h) == Denote(h)
  {
    hide Digest, Denote, GroupOf, Built, Sealed;
    if h != [] {
      var h', e := h[..|h| - 1], h[|h| - 1];
      BuildersReachDenoted(s, h');
      BuildersDenote(s, h', e);
      assert h == h' + [e];
    } else {
      NothingDenoted();
    }
  }

  lemma NothingDenoted()
    ensures Denote([]) == DEFAULT_ROSTER
  {
    assert NodesOf([], {}) == [] && AddendaOf([]) == [];
  }

  lemma VerifiesIffBuilt(s: Scheme, r: Roster, number: Int32, key: VerifyingKey)
    ensures Verdict(s, r, number, key).Ok? <==>
            exists h :: h != [] && Legal(s, h) && BuildUp(h) == r && Anchored(s, h, number, key)
  {
    hide Digest, Replay, Verdict;
    VerifiesIffLegalHistory(s, r, number, key);
    forall h | Legal(s, h) ensures BuildUp(h) == Denote(h) {
      BuildersReachDenoted(s, h);
    }
    if Verdict(s, r, number, key).Ok? {
      var h :| HistoryOf(s, r, h) && Anchored(s, h, number, key);
      assert BuildUp(h) == r;
    }
  }

  //-- Extending a verified roster -----------------------------------------------------------------

  /** A revocation of `target` by the holder of `sk`, as `submit_revocation` builds and signs it. */
  function Revoked(s: Scheme, base: Roster, target: Int32, revoker: Int32, sk: SigningKey): Roster {
    var unsigned := WithRevocation(base, BuildRevocationPayload(base, target, revoker));
    WithRevokerSignature(unsigned, s.crypto.sign(sk, SigningHash(s, unsigned)))
  }

  lemma RevokedDenotes(s: Scheme, h: History, target: Int32, revoker: Int32, sk: SigningKey) returns (e: Event)
    requires Legal(s, h) && SignsCorrectly(s.crypto, sk)
    requires Anchored(s, h, revoker, s.crypto.publicKey(sk)) && target in GroupOf(h).active
    ensures e.Expel? && e.revoked == target && e.revoker == revoker
    ensures LegalEvent(s, h, e) && Denote(h + [e]) == Revoked(s, Denote(h), target, revoker, sk)
  {
    e := Expel(target, revoker, s.crypto.sign(sk, Digest(s, h, Expel(target, revoker, []))));
    BuildersDenote(s, h, e);
    LegalGroups(s, h);
  }

  /** Marking a node revoked hides nobody's key. */
  lemma {:induction false} MarkKeepsKeys(nodes: seq<Node>, target: Int32, number: Int32)
    ensures ClaimedSpki(MarkRevoked(nodes, target), number) == ClaimedSpki(nodes, number)
  {
    if nodes != [] && nodes[0].number != number && nodes[0].number != target {
      MarkKeepsKeys(nodes[1..], target, number);
    }
  }

  /** If a locally built revocation verifies for anyone, it was legal: its target was active before it. */
  lemma RevokedOnlyIfActive(s: Scheme, h: History, target: Int32, revoker: Int32, sk: SigningKey, h': History)
    requires Legal(s, h) && HistoryOf(s, Revoked(s, Denote(h), target, revoker, sk), h')
    ensures |h'| == |h| + 1 && h'[..|h|] == h && target in GroupOf(h).active
  {
    hide Digest;
    var base, r := Denote(h), Revoked(s, Denote(h), target, revoker, sk);
    assert |h'| == |r.addenda| == |h| + 1;
    forall i | 0 <= i < |h| ensures h'[i] == h[i] {
      ReadBack(s, h, i);
      ReadBack(s, h', i);
      assert r.addenda[i] == base.addenda[i];
      EventOfMarked(base.nodes, target, base.addenda[i], i == 0);
    }
    assert h'[..|h|] == h;
    LegalAt(s, h', |h|);
    ReadBack(s, h', |h|);
  }

  lemma EventOfMarked(nodes: seq<Node>, target: Int32, a: Addendum, founding: bool)
    requires Complete(a)
    ensures EventOf(MarkRevoked(nodes, target), a, founding) == EventOf(nodes, a, founding)
  {
    if a.Activation? {
      MarkKeepsKeys(nodes, target, a.activation.value.newNode);
      MarkKeepsKeys(nodes, target, a.activation.value.endorser);
    }
  }

  /**
   A roster that its holder verified, extended by the holder's own revocation of `target` and never
   verified again, still verifies for the holder exactly when the target was active and is not the
   holder itself; for everyone else it verifies exactly if it did before and they are not the target.
   */
  lemma RevocationPreservesVerification(s: Scheme, base: Roster, self: Int32, sk: SigningKey, target: Int32)
    requires SignsCorrectly(s.crypto, sk)
    requires Verdict(s, base, self, s.crypto.publicKey(sk)).Ok?
    ensures Verdict(s, Revoked(s, base, target, self, sk), self, s.crypto.publicKey(sk)).Ok? <==>
            target in ActiveNumbers(base) && target != self
    ensures target in ActiveNumbers(base) ==>
              forall n: Int32, k: VerifyingKey ::
                Verdict(s, Revoked(s, base, target, self, sk), n, k).Ok? <==>
                Verdict(s, base, n, k).Ok? && n != target
  {
    hide Digest, Replay, Verdict, Denote, Lookup, LegalEvent, Legal, GroupOf, ActiveNumbers, Revoked;
    var key := s.crypto.publicKey(sk);
    VerifiesIffLegalHistory(s, base, self, key);
    var h :| HistoryOf(s, base, h) && Anchored(s, h, self, key);
    LegalGroups(s, h);
    ActiveNumbersDenoted(GroupOf(h), h);
    var r := Revoked(s, base, target, self, sk);
    if target in GroupOf(h).active {
      var e := RevokedDenotes(s, h, target, self, sk);
      GroupExtend(h, e);
      LegalExtend(s, h, e);
      forall n: Int32, k: VerifyingKey
        ensures Verdict(s, r, n, k).Ok? <==> Verdict(s, base, n, k).Ok? && n != target
      {
        HistoryDecides(s, h, n, k);
        HistoryDecides(s, h + [e], n, k);
      }
    } else if Verdict(s, r, self, key).Ok? {
      VerifiesIffLegalHistory(s, r, self, key);
      var h' :| HistoryOf(s, r, h') && Anchored(s, h', self, key);
      RevokedOnlyIfActive(s, h, target, self, sk, h');
    }
  }

  lemma ActiveNumbersDenoted(g: Group, h: History)
    requires Consistent(g) && g == GroupOf(h)
    ensures ActiveNumbers(Denote(h)) == g.active
  {
    var r := Denote(h);
    forall n | n in g.active ensures n in ActiveNumbers(r) {
      var i :| 0 <= i < |g.members| && g.members[i] == Member(n, g.spkis[n]);
      assert r.nodes[i] == Node(n, g.spkis[n], false);
    }
    forall n | n in ActiveNumbers(r) ensures n in g.active {
      var i :| 0 <= i < |r.nodes| && r.nodes[i].number == n && !r.nodes[i].revoked;
    }
  }

  /** Clearing the latest signatures undoes the setters, for every kind of addendum. */
  lemma ClearingUndoesSigning(r: Roster, e: Event)
    requires if e.Expel? then LatestIsRevocation(r) else LatestIsActivation(r)
    requires LatestIsUnsigned(r)
    ensures WithClearedSignatures(Sealed(r, e)) == r
  {
    assert WithClearedSignatures(Sealed(r, e)).addenda == r.addenda;
  }
}
