/**
 The activation ceremony from end to end, over a hub that relays faithfully: a node paired with a code,
 whatever else its endorser does meanwhile, ends up activated with a roster that verifies for both.
 */
module Ceremony {
  import opened Prelude
  import opened Crypto
  import opened Rosters
  import opened Histories
  import opened Verifier
  import opened PairingCodes
  import opened Endorsing
  import opened EndorsementLedger
  import opened Activation
  import opened NodeLifecycle
  import opened CodeLifetime

  /** A call that is about another node than `n`: it neither pairs `n` anew nor asks for its cosignature. */
  predicate Elsewhere(t: TimedCall, n: Int32) {
    match t.call
    case GenerateCall(_, _) => true
    case PairCall(m, _) => m.payload.Some? ==> m.payload.value.sender != n
    case CosignCall(q) => TruncateToInt32(q.newNodeNumber) != n
  }

  lemma CallKeepsPending(e: Endorser, st: State, t: TimedCall, n: Int32)
    requires Elsewhere(t, n) && n in st.pending
    ensures n in Apply(e, st, t).pending && Apply(e, st, t).pending[n] == st.pending[n]
  {
    hide CosignOutcome, Match, Unexpired;
  }

  /** What was paired stays paired, whatever the endorser does for others. */
  lemma {:induction false} CallsKeepPending(e: Endorser, before: seq<TimedCall>, between: seq<TimedCall>, n: Int32)
    requires n in RunState(e, before).pending
    requires forall t | t in between :: Elsewhere(t, n)
    ensures var st := RunState(e, before + between);
            n in st.pending && st.pending[n] == RunState(e, before).pending[n]
  {
    hide Apply, Elsewhere;
    if between == [] {
      assert before + between == before;
    } else {
      var k := |between| - 1;
      CallsKeepPending(e, before, between[..k], n);
      assert (before + between)[..|before| + k] == before + between[..k];
      CallKeepsPending(e, RunState(e, before + between[..k]), between[k], n);
    }
  }

  /** A base that verifies for the endorser lists it under its own key bytes. */
  lemma GoodBaseListsEndorser(s: Scheme, base: Roster, newNode: Identity, endorser: Identity)
    requires GoodBase(s, base, newNode, endorser) && newNode.number != endorser.number && base.version != 0
    requires CanonicalSpki(s.crypto, endorser.sk)
    ensures ListedUnder(base, endorser.number, s.crypto.publicSpki(endorser.sk))
  {
    hide Digest, Verdict, Replay;
    var h := BaseHistory(s, base, newNode, endorser);
    LegalGroups(s, h);
    LookupNodes(GroupOf(h), endorser.number);
  }

  /** The code is outstanding, and no other outstanding code happens to authenticate the request made with it. */
  ghost predicate CanPair(c: Pairer, st: State, now: int, request: PairMessage, secret: Bytes) {
    && request.payload.Some?
    && (exists t :: t in Unexpired(st.secrets, now) && t.secret == secret)
    && (forall t | t in Unexpired(st.secrets, now) ::
          ComputeMac(c, t.secret, request.payload.value) == request.mac ==> t.secret == secret)
  }

  /**
   After the endorser's calls `before`, the pairing at `now` succeeds; after its calls `between` it cosigns;
   and the new node ends up activated with the cosigned roster, which verifies for the endorser too.
   */
  ghost predicate Completes(c: Pairer, newNode: Identity, endorser: Identity, before: seq<TimedCall>, now: int,
                            between: seq<TimedCall>, secret: Bytes, nonce: Bytes, ourNonce: Bytes, base: Roster)
  {
    var e, code := Endorser(c, endorser.number, endorser.sk), PairingCode(endorser.number, secret);
    var request := PairRequest(c, newNode, code, nonce);
    var st := RunState(e, before);
    var pairing := TimedCall(now, PairCall(request, ourNonce));
    var later := RunState(e, before + [pairing] + between);
    && PairOutcome(c, st, now, request).Ok?
    && var used := Unexpired(st.secrets, now)[PairOutcome(c, st, now, request).value].secret;
    && var reply := Reply(c, used, request.payload.value, endorser.number, endorser.sk, ourNonce);
    && var proposal := Proposal(c.scheme, base, newNode, code, nonce, reply.payload.value);
    && var toCosign := CosignRequest(newNode.number, Some(proposal));
    && var cosign := CosignOutcome(c, later, toCosign, endorser.number, endorser.sk);
    && cosign.Ok?
    && var cosigned := WithEndorserSignature(proposal, cosign.value);
    && Activate(c, newNode.sk, Registered(newNode.number), code, nonce, Ok(reply), Ok(base), Ok(cosigned))
       == Ok(Activated(newNode.number, cosigned))
    && Verdict(c.scheme, cosigned, endorser.number, c.scheme.crypto.publicKey(endorser.sk)).Ok?
  }

  /**
   The whole ceremony.  In any run of the endorser in which the code is still outstanding, the new
   node pairs; the endorser then serves any calls about others; the new node gets any base that is
   empty or verifies for the endorser without knowing the new node.  Then the endorser cosigns, and
   `activate` makes the new node Activated with the cosigned roster, which verifies for the endorser too.
   */
  lemma CeremonyActivates(c: Pairer, newNode: Identity, endorser: Identity, before: seq<TimedCall>, now: int,
                          between: seq<TimedCall>, secret: Bytes, nonce: Bytes, ourNonce: Bytes, base: Roster)
    requires newNode.number != endorser.number
    requires SignsCorrectly(c.scheme.crypto, newNode.sk) && SignsCorrectly(c.scheme.crypto, endorser.sk)
    requires CanonicalSpki(c.scheme.crypto, endorser.sk)
    requires GoodBase(c.scheme, base, newNode, endorser)
    requires CanPair(c, RunState(Endorser(c, endorser.number, endorser.sk), before), now,
                     PairRequest(c, newNode, PairingCode(endorser.number, secret), nonce), secret)
    requires forall t | t in between :: Elsewhere(t, newNode.number)
    ensures Completes(c, newNode, endorser, before, now, between, secret, nonce, ourNonce, base)
  {
    hide Verdict, Denote, CosignOutcome, SignsCorrectly, CanonicalSpki, Match, GoodBase, Unexpired;
    var e, code := Endorser(c, endorser.number, endorser.sk), PairingCode(endorser.number, secret);
    var request := PairRequest(c, newNode, code, nonce);
    var st := RunState(e, before);
    var pairing := TimedCall(now, PairCall(request, ourNonce));
    PairingSucceeds(c, st, now, newNode, endorser, secret, nonce, ourNonce);
    assert (before + [pairing])[..|before|] == before;
    assert RunState(e, before + [pairing]) == Pair(c, st, now, request, ourNonce);
    CallsKeepPending(e, before + [pairing], between, newNode.number);
    var used := Unexpired(st.secrets, now)[PairOutcome(c, st, now, request).value].secret;
    var reply := Reply(c, used, request.payload.value, endorser.number, endorser.sk, ourNonce);
    if base.version != 0 {
      GoodBaseListsEndorser(c.scheme, base, newNode, endorser);
    }
    CeremonyVerifiesForBoth(c, base, newNode, endorser, secret, nonce, reply.payload.value,
                            RunState(e, before + [pairing] + between));
  }

  /**
   From the code to the activated node.  The endorser gives out a code in any state; after any calls that
   do not use it up, and before it expires, the new node pairs with it; and the ceremony completes.
   */
  lemma GeneratedCodeActivates(c: Pairer, newNode: Identity, endorser: Identity, start: seq<TimedCall>,
                               at: int, ttl: nat, secret: Bytes, waiting: seq<TimedCall>, now: int,
                               between: seq<TimedCall>, nonce: Bytes, ourNonce: Bytes, base: Roster)
    requires IdealMac(c) && newNode.number != endorser.number
    requires SignsCorrectly(c.scheme.crypto, newNode.sk) && SignsCorrectly(c.scheme.crypto, endorser.sk)
    requires CanonicalSpki(c.scheme.crypto, endorser.sk)
    requires GoodBase(c.scheme, base, newNode, endorser)
    requires var e, giving := Endorser(c, endorser.number, endorser.sk), TimedCall(at, GenerateCall(ttl, secret));
             && AnswerTo(e, RunState(e, start), giving) == Generated(true)
             && forall p | p in UsedSince(e, start + [giving], waiting) :: p.secret != secret
    requires now < at + ttl && forall t | t in waiting :: t.now < at + ttl
    requires forall t | t in between :: Elsewhere(t, newNode.number)
    ensures var before := start + [TimedCall(at, GenerateCall(ttl, secret))] + waiting;
            Completes(c, newNode, endorser, before, now, between, secret, nonce, ourNonce, base)
  {
    hide Completes, RunState, IdealMac, SignsCorrectly, CanonicalSpki, GoodBase, UsedSince, AnswerTo, Elsewhere;
    hide ComputeMac;
    var e, giving := Endorser(c, endorser.number, endorser.sk), TimedCall(at, GenerateCall(ttl, secret));
    var before, x := start + [giving] + waiting, TimedSecret(secret, at + ttl);
    GrantedIsOutstanding(e, start, at, ttl, secret);
    CodeStays(e, start + [giving], waiting, x);
    StillUnexpired(RunState(e, before).secrets, x, now);
    var request := PairRequest(c, newNode, PairingCode(endorser.number, secret), nonce);
    var p := request.payload.value;
    forall t | t in Unexpired(RunState(e, before).secrets, now) && ComputeMac(c, t.secret, p) == request.mac
      ensures t.secret == secret
    {
      MacBinds(c, t.secret, p, secret, p);
    }
    CeremonyActivates(c, newNode, endorser, before, now, between, secret, nonce, ourNonce, base);
  }
}
