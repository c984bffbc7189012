/**
 Every run of the endorser's calls, with a ledger beside it: what became of each generated code, and
 which pairing each cosignature answers.
 */
module EndorsementLedger {
  import opened Prelude
  import opened Crypto
  import opened Rosters
  import opened Endorsing

  datatype Endorser = Endorser(pairer: Pairer, number: Int32, sk: SigningKey)

  datatype Call =
    | GenerateCall(ttl: nat, secret: Bytes)
    | PairCall(message: PairMessage, ourNonce: Bytes)
    | CosignCall(request: CosignRequest)

  datatype TimedCall = TimedCall(now: int, call: Call)

  function Apply(e: Endorser, st: State, t: TimedCall): State {
    match t.call
    case GenerateCall(ttl, secret) => Generate(st, t.now, ttl, secret)
    case PairCall(m, nonce) => Pair(e.pairer, st, t.now, m, nonce)
    case CosignCall(q) => Cosign(e.pairer, st, q, e.number, e.sk)
  }

  function RunState(e: Endorser, calls: seq<TimedCall>): State {
    if calls == [] then State([], map[]) else Apply(e, RunState(e, calls[..|calls| - 1]), calls[|calls| - 1])
  }

  /** A successful pairing: the code it used up and what was exchanged. */
  datatype Pairing = Pairing(secret: Bytes, payload: PairPayload, mac: Bytes, ourNonce: Bytes)

  /** An issued cosignature and the pairing it answers. */
  datatype Cosignature = Cosignature(pairing: nat, request: CosignRequest, signature: Bytes)

  /** `source` says which pairing each pending entry is from. */
  datatype Ledger = Ledger(
    generated: seq<Bytes>, expired: seq<Bytes>,
    pairings: seq<Pairing>, source: map<Int32, nat>, cosignatures: seq<Cosignature>)

  const BLANK := Ledger([], [], [], map[], [])

  function Lapsed(secrets: seq<TimedSecret>, now: int): seq<Bytes> {
    if secrets == [] then []
    else
      var last := secrets[|secrets| - 1];
      Lapsed(secrets[..|secrets| - 1], now) + if last.expiresAt > now then [] else [last.secret]
  }

  /** How often `c` is among the outstanding codes, in a log of codes, and among the codes used up by pairings. */
  function Outstanding(secrets: seq<TimedSecret>, c: Bytes): nat {
    if secrets == [] then 0
    else Outstanding(secrets[..|secrets| - 1], c) + if secrets[|secrets| - 1].secret == c then 1 else 0
  }

  function Logged(codes: seq<Bytes>, c: Bytes): nat {
    if codes == [] then 0
    else Logged(codes[..|codes| - 1], c) + if codes[|codes| - 1] == c then 1 else 0
  }

  function Used(pairings: seq<Pairing>, c: Bytes): nat {
    if pairings == [] then 0
    else Used(pairings[..|pairings| - 1], c) + if pairings[|pairings| - 1].secret == c then 1 else 0
  }

  /** The ledger after one call made in state `st`. */
  function Record(e: Endorser, l: Ledger, st: State, t: TimedCall): Ledger {
    var pruned := l.(expired := l.expired + Lapsed(st.secrets, t.now));
    match t.call
    case GenerateCall(ttl, secret) =>
      if Generate(st, t.now, ttl, secret) == Prune(st, t.now) then pruned
      else pruned.(generated := l.generated + [secret])
    case PairCall(m, nonce) =>
      (match PairOutcome(e.pairer, st, t.now, m)
       case Err(MissingPairPayload) => l
       case Err(_) => pruned
       case Ok(i) =>
         var secret := Unexpired(st.secrets, t.now)[i].secret;
         pruned.(pairings := l.pairings + [Pairing(secret, m.payload.value, m.mac, nonce)],
                 source := l.source[m.payload.value.sender := |l.pairings|]))
    case CosignCall(q) =>
      (match CosignOutcome(e.pairer, st, q, e.number, e.sk)
       case Err(_) => l
       case Ok(signature) =>
         var n := TruncateToInt32(q.newNodeNumber);
         l.(source := l.source - {n},
            cosignatures := l.cosignatures + [Cosignature(if n in l.source then l.source[n] else 0, q, signature)]))
  }

  //-- The invariant -------------------------------------------------------------------------------

  /** Conservation: each generated code is still outstanding, has expired, or was used up by one pairing. */
  ghost predicate Conserved(st: State, l: Ledger) {
    forall c: Bytes :: CodeConserved(st, l, c)
  }

  predicate CodeConserved(st: State, l: Ledger, c: Bytes) {
    Logged(l.generated, c) == Outstanding(st.secrets, c) + Logged(l.expired, c) + Used(l.pairings, c)
  }

  ghost predicate Authentic(e: Endorser, l: Ledger) {
    forall i | 0 <= i < |l.pairings| ::
      ComputeMac(e.pairer, l.pairings[i].secret, l.pairings[i].payload) == l.pairings[i].mac
  }

  ghost predicate PendingFromPairings(st: State, l: Ledger) {
    && l.source.Keys == st.pending.Keys
    && (forall n | n in l.source ::
          && l.source[n] < |l.pairings|
          && l.pairings[l.source[n]].payload.sender == n
          && st.pending[n] == PendingEndorsement(l.pairings[l.source[n]].payload.spki,
                                                 l.pairings[l.source[n]].payload.nonce,
                                                 l.pairings[l.source[n]].ourNonce))
  }

  /** What a cosignature commits to: the request repeats what the pairing exchanged, wherever the endorser compares. */
  ghost predicate Answers(e: Endorser, c: Cosignature, p: Pairing) {
    && TruncateToInt32(c.request.newNodeNumber) == p.payload.sender
    && c.request.roster.Some?
    && var r := c.request.roster.value;
    && LatestIsActivation(r) && Latest(r).activation.Some?
    && Latest(r).activation.value.newNodeNonce == p.payload.nonce
    && Latest(r).activation.value.endorserNonce == p.ourNonce
    && Latest(r).activation.value.endorser == e.number
    && Lookup(r.nodes, p.payload.sender).Some? && Lookup(r.nodes, p.payload.sender).value.spki == p.payload.spki
    && Lookup(r.nodes, e.number).Some?
    && Lookup(r.nodes, e.number).value.spki == e.pairer.scheme.crypto.publicSpki(e.sk)
    && c.signature == e.pairer.scheme.crypto.sign(e.sk, SigningHash(e.pairer.scheme, WithClearedSignatures(r)))
  }

  /** Each cosignature answers a pairing of its own, which is not pending any more. */
  ghost predicate AnsweredOnce(e: Endorser, l: Ledger) {
    && (forall i, j | 0 <= i < j < |l.cosignatures| :: l.cosignatures[i].pairing != l.cosignatures[j].pairing)
    && (forall i | 0 <= i < |l.cosignatures| ::
          && l.cosignatures[i].pairing < |l.pairings|
          && (forall n | n in l.source :: l.source[n] != l.cosignatures[i].pairing)
          && Answers(e, l.cosignatures[i], l.pairings[l.cosignatures[i].pairing]))
  }

  ghost predicate WithinCap(st: State) {
    |st.secrets| + |st.pending| <= MAX_ACTIVE_ACTIVATIONS
  }

  ghost predicate Sound(e: Endorser, st: State, l: Ledger) {
    && Conserved(st, l)
    && Authentic(e, l)
    && PendingFromPairings(st, l)
    && AnsweredOnce(e, l)
    && WithinCap(st)
  }

  //-- Every call keeps it -------------------------------------------------------------------------

  lemma OutstandingAppend(secrets: seq<TimedSecret>, t: TimedSecret, c: Bytes)
    ensures Outstanding(secrets + [t], c) == Outstanding(secrets, c) + if t.secret == c then 1 else 0
  {
    assert (secrets + [t])[..|secrets|] == secrets;
  }

  lemma LoggedAppend(codes: seq<Bytes>, x: Bytes, c: Bytes)
    ensures Logged(codes + [x], c) == Logged(codes, c) + if x == c then 1 else 0
  {
    assert (codes + [x])[..|codes|] == codes;
  }

  lemma {:induction false} LoggedConcat(codes: seq<Bytes>, more: seq<Bytes>, c: Bytes)
    ensures Logged(codes + more, c) == Logged(codes, c) + Logged(more, c)
  {
    if more == [] {
      assert codes + more == codes;
    } else {
      var n := |more| - 1;
      LoggedConcat(codes, more[..n], c);
      LoggedAppend(codes + more[..n], more[n], c);
      assert codes + more[..n] + [more[n]] == codes + more;
    }
  }

  lemma UsedAppend(pairings: seq<Pairing>, p: Pairing, c: Bytes)
    ensures Used(pairings + [p], c) == Used(pairings, c) + if p.secret == c then 1 else 0
  {
    assert (pairings + [p])[..|pairings|] == pairings;
  }

  lemma {:induction false} OutstandingPruned(secrets: seq<TimedSecret>, now: int, c: Bytes)
    ensures Outstanding(secrets, c) == Outstanding(Unexpired(secrets, now), c) + Logged(Lapsed(secrets, now), c)
  {
    if secrets != [] {
      var n := |secrets| - 1;
      OutstandingPruned(secrets[..n], now, c);
      if secrets[n].expiresAt > now {
        OutstandingAppend(Unexpired(secrets[..n], now), secrets[n], c);
        assert Lapsed(secrets[..n], now) + [] == Lapsed(secrets[..n], now);
      } else {
        LoggedAppend(Lapsed(secrets[..n], now), secrets[n].secret, c);
        assert Unexpired(secrets[..n], now) + [] == Unexpired(secrets[..n], now);
      }
    }
  }

  lemma {:induction false} OutstandingReplaced(secrets: seq<TimedSecret>, i: nat, t: TimedSecret, c: Bytes)
    requires i < |secrets|
    ensures Outstanding(secrets[i := t], c) + (if secrets[i].secret == c then 1 else 0) ==
            Outstanding(secrets, c) + (if t.secret == c then 1 else 0)
  {
    var n := |secrets| - 1;
    if i < n {
      OutstandingReplaced(secrets[..n], i, t, c);
      assert secrets[i := t][..n] == secrets[..n][i := t];
    } else {
      assert secrets[i := t][..n] == secrets[..n];
    }
  }

  lemma OutstandingRemoved(secrets: seq<TimedSecret>, i: nat, c: Bytes)
    requires i < |secrets|
    ensures Outstanding(SwapRemove(secrets, i), c) + (if secrets[i].secret == c then 1 else 0) ==
            Outstanding(secrets, c)
  {
    OutstandingReplaced(secrets, i, secrets[|secrets| - 1], c);
  }

  lemma PruneConserves(st: State, l: Ledger, now: int)
    requires Conserved(st, l)
    ensures Conserved(Prune(st, now), l.(expired := l.expired + Lapsed(st.secrets, now)))
  {
    forall c: Bytes
      ensures CodeConserved(Prune(st, now), l.(expired := l.expired + Lapsed(st.secrets, now)), c)
    {
      assert CodeConserved(st, l, c);
      OutstandingPruned(st.secrets, now, c);
      LoggedConcat(l.expired, Lapsed(st.secrets, now), c);
    }
  }

  lemma GenerateConserves(st: State, l: Ledger, t: TimedSecret)
    requires Conserved(st, l)
    ensures Conserved(st.(secrets := st.secrets + [t]), l.(generated := l.generated + [t.secret]))
  {
    forall c: Bytes
      ensures CodeConserved(st.(secrets := st.secrets + [t]), l.(generated := l.generated + [t.secret]), c)
    {
      assert CodeConserved(st, l, c);
      OutstandingAppend(st.secrets, t, c);
      LoggedAppend(l.generated, t.secret, c);
    }
  }

  lemma PairConserves(st: State, l: Ledger, i: nat, st': State, p: Pairing, l': Ledger)
    requires Conserved(st, l) && i < |st.secrets| && p.secret == st.secrets[i].secret
    requires st'.secrets == SwapRemove(st.secrets, i)
    requires l'.generated == l.generated && l'.expired == l.expired && l'.pairings == l.pairings + [p]
    ensures Conserved(st', l')
  {
    forall c: Bytes
      ensures CodeConserved(st', l', c)
    {
      assert CodeConserved(st, l, c);
      OutstandingRemoved(st.secrets, i, c);
      UsedAppend(l.pairings, p, c);
    }
  }

  lemma GenerateSound(e: Endorser, st: State, l: Ledger, now: int, ttl: nat, secret: Bytes)
    requires Sound(e, st, l)
    ensures Sound(e, Generate(st, now, ttl, secret), Record(e, l, st, TimedCall(now, GenerateCall(ttl, secret))))
  {
    hide Answers, Conserved;
    PruneConserves(st, l, now);
    var l' := l.(expired := l.expired + Lapsed(st.secrets, now));
    GenerateConserves(Prune(st, now), l', TimedSecret(secret, now + ttl));
  }

  lemma CapAfterPairing(pending: map<Int32, PendingEndorsement>, n: Int32, entry: PendingEndorsement)
    ensures |pending[n := entry]| <= |pending| + 1
  {
    assert pending[n := entry].Keys == pending.Keys + {n};
  }

  lemma PairFailsSound(e: Endorser, st: State, l: Ledger, now: int, m: PairMessage, nonce: Bytes)
    requires Sound(e, st, l) && PairOutcome(e.pairer, st, now, m).Err?
    ensures Sound(e, Pair(e.pairer, st, now, m, nonce), Record(e, l, st, TimedCall(now, PairCall(m, nonce))))
  {
    hide Answers, Conserved;
    PruneConserves(st, l, now);
  }

  lemma PairSucceedsSound(e: Endorser, st: State, l: Ledger, now: int, m: PairMessage, nonce: Bytes)
    requires Sound(e, st, l) && PairOutcome(e.pairer, st, now, m).Ok?
    ensures Sound(e, Pair(e.pairer, st, now, m, nonce), Record(e, l, st, TimedCall(now, PairCall(m, nonce))))
  {
    hide Answers, Conserved;
    var i := PairOutcome(e.pairer, st, now, m).value;
    var pruned := Prune(st, now);
    var p := Pairing(pruned.secrets[i].secret, m.payload.value, m.mac, nonce);
    var st', l' := Pair(e.pairer, st, now, m, nonce), Record(e, l, st, TimedCall(now, PairCall(m, nonce)));
    PruneConserves(st, l, now);
    PairConserves(pruned, l.(expired := l.expired + Lapsed(st.secrets, now)), i, st', p, l');
    CapAfterPairing(st.pending, p.payload.sender, PendingEndorsement(p.payload.spki, p.payload.nonce, nonce));
    AddPairing(e, st, l, st', l', p);
  }

  lemma AddPairing(e: Endorser, st: State, l: Ledger, st': State, l': Ledger, p: Pairing)
    requires Authentic(e, l) && PendingFromPairings(st, l) && AnsweredOnce(e, l)
    requires ComputeMac(e.pairer, p.secret, p.payload) == p.mac
    requires l'.pairings == l.pairings + [p] && l'.cosignatures == l.cosignatures
    requires l'.source == l.source[p.payload.sender := |l.pairings|]
    requires var entry := PendingEndorsement(p.payload.spki, p.payload.nonce, p.ourNonce);
             st'.pending == st.pending[p.payload.sender := entry]
    ensures Authentic(e, l') && PendingFromPairings(st', l') && AnsweredOnce(e, l')
  {
    hide Answers, ComputeMac;
  }

  lemma CosignSound(e: Endorser, st: State, l: Ledger, now: int, q: CosignRequest)
    requires Sound(e, st, l)
    ensures Sound(e, Cosign(e.pairer, st, q, e.number, e.sk), Record(e, l, st, TimedCall(now, CosignCall(q))))
  {
    hide CosignOutcome, Answers, AnsweredOnce;
    var n := TruncateToInt32(q.newNodeNumber);
    var st', l' := Cosign(e.pairer, st, q, e.number, e.sk), Record(e, l, st, TimedCall(now, CosignCall(q)));
    forall c: Bytes ensures CodeConserved(st', l', c) {
      assert CodeConserved(st, l, c);
    }
    if CosignOutcome(e.pairer, st, q, e.number, e.sk).Ok? {
      hide Conserved, CodeConserved, Authentic, PendingFromPairings;
      CosignAnswers(e, st, l, q);
      FewerPending(st.pending, n);
      var signature := CosignOutcome(e.pairer, st, q, e.number, e.sk).value;
      AddCosignature(e, st, l, st', l', n, Cosignature(l.source[n], q, signature));
    }
  }

  lemma FewerPending(pending: map<Int32, PendingEndorsement>, n: Int32)
    ensures |pending - {n}| <= |pending|
  {
    assert (pending - {n}).Keys == pending.Keys - {n};
    assert |pending.Keys - {n}| <= |pending.Keys|;
  }

  lemma CosignAnswers(e: Endorser, st: State, l: Ledger, q: CosignRequest)
    requires PendingFromPairings(st, l) && CosignOutcome(e.pairer, st, q, e.number, e.sk).Ok?
    ensures var n := TruncateToInt32(q.newNodeNumber);
            n in l.source && l.source[n] < |l.pairings| &&
            var signature := CosignOutcome(e.pairer, st, q, e.number, e.sk).value;
            Answers(e, Cosignature(l.source[n], q, signature), l.pairings[l.source[n]])
  {
  }

  lemma AddCosignature(e: Endorser, st: State, l: Ledger, st': State, l': Ledger, n: Int32, c: Cosignature)
    requires PendingFromPairings(st, l) && AnsweredOnce(e, l)
    requires n in l.source && c.pairing == l.source[n] && Answers(e, c, l.pairings[c.pairing])
    requires l'.pairings == l.pairings && l'.cosignatures == l.cosignatures + [c]
    requires l'.source == l.source - {n} && st'.pending == st.pending - {n}
    ensures PendingFromPairings(st', l') && AnsweredOnce(e, l')
  {
    hide Answers;
  }

  lemma StepSound(e: Endorser, st: State, l: Ledger, t: TimedCall)
    requires Sound(e, st, l)
    ensures Sound(e, Apply(e, st, t), Record(e, l, st, t))
  {
    hide Sound, Record, Generate, Pair, Cosign, PairOutcome, CosignOutcome;
    match t.call {
      case GenerateCall(ttl, secret) =>
        GenerateSound(e, st, l, t.now, ttl, secret);
      case PairCall(m, nonce) =>
        if PairOutcome(e.pairer, st, t.now, m).Ok? {
          PairSucceedsSound(e, st, l, t.now, m, nonce);
        } else {
          PairFailsSound(e, st, l, t.now, m, nonce);
        }
      case CosignCall(q) =>
        CosignSound(e, st, l, t.now, q);
    }
  }

  function Run(e: Endorser, calls: seq<TimedCall>): Ledger {
    if calls == [] then BLANK
    else Record(e, Run(e, calls[..|calls| - 1]), RunState(e, calls[..|calls| - 1]), calls[|calls| - 1])
  }

  /**
   Over every run of generate, pair and cosign calls, at any times: no code is used more often than it
   was generated, each cosignature answers an earlier pairing of its own, and the cap holds.
   */
  lemma {:induction false} EveryRunIsSound(e: Endorser, calls: seq<TimedCall>)
    ensures Sound(e, RunState(e, calls), Run(e, calls))
  {
    hide Apply, Record;
    if calls != [] {
      EveryRunIsSound(e, calls[..|calls| - 1]);
      StepSound(e, RunState(e, calls[..|calls| - 1]), Run(e, calls[..|calls| - 1]), calls[|calls| - 1]);
    }
  }

  /** The ledger only grows, and a cosignature it gains answers a pairing that was there before. */
  lemma LedgerGrows(e: Endorser, calls: seq<TimedCall>, t: TimedCall)
    ensures var l, l' := Run(e, calls), Run(e, calls + [t]);
            && l.generated <= l'.generated && l.pairings <= l'.pairings && l.cosignatures <= l'.cosignatures
            && forall i | |l.cosignatures| <= i < |l'.cosignatures| :: l'.cosignatures[i].pairing < |l.pairings|
  {
    assert (calls + [t])[..|calls|] == calls;
    EveryRunIsSound(e, calls);
    RecordGrows(e, Run(e, calls), RunState(e, calls), t);
  }

  ghost predicate Grows(l: Ledger, l': Ledger) {
    && l.generated <= l'.generated && l.pairings <= l'.pairings && l.cosignatures <= l'.cosignatures
    && forall i | |l.cosignatures| <= i < |l'.cosignatures| :: l'.cosignatures[i].pairing < |l.pairings|
  }

  lemma RecordGrows(e: Endorser, l: Ledger, st: State, t: TimedCall)
    requires Sound(e, st, l)
    ensures Grows(l, Record(e, l, st, t))
  {
    hide Grows, Record, Sound;
    if t.call.CosignCall? {
      assert PendingFromPairings(st, l) by { SoundPending(e, st, l); }
      CosignGrows(e, l, st, t);
    } else {
      OthersGrow(e, l, st, t);
    }
  }

  lemma SoundPending(e: Endorser, st: State, l: Ledger)
    requires Sound(e, st, l)
    ensures PendingFromPairings(st, l)
  {
    hide Conserved, Authentic, AnsweredOnce, PendingFromPairings;
  }

  lemma CosignGrows(e: Endorser, l: Ledger, st: State, t: TimedCall)
    requires t.call.CosignCall? && PendingFromPairings(st, l)
    ensures Grows(l, Record(e, l, st, t))
  {
    hide CosignOutcome, Lapsed;
    if CosignOutcome(e.pairer, st, t.call.request, e.number, e.sk).Ok? {
      CosignedIsPending(e, st, t.call.request);
      assert TruncateToInt32(t.call.request.newNodeNumber) in l.source;
    }
  }

  lemma OthersGrow(e: Endorser, l: Ledger, st: State, t: TimedCall)
    requires !t.call.CosignCall?
    ensures Grows(l, Record(e, l, st, t))
  {
    hide PairOutcome, Generate, Prune, Lapsed, Unexpired;
  }

  lemma CosignedIsPending(e: Endorser, st: State, q: CosignRequest)
    requires CosignOutcome(e.pairer, st, q, e.number, e.sk).Ok?
    ensures TruncateToInt32(q.newNodeNumber) in st.pending
  {
    hide CosignFault;
  }

  /** A code generated once is used by one pairing at most. */
  lemma CodesUsedOnce(e: Endorser, calls: seq<TimedCall>, i: nat, j: nat)
    requires i < j < |Run(e, calls).pairings|
    requires Logged(Run(e, calls).generated, Run(e, calls).pairings[i].secret) <= 1
    ensures Run(e, calls).pairings[i].secret != Run(e, calls).pairings[j].secret
  {
    hide Run;
    EveryRunIsSound(e, calls);
    assert CodeConserved(RunState(e, calls), Run(e, calls), Run(e, calls).pairings[i].secret);
    UsedTwice(Run(e, calls).pairings, i, j);
  }

  lemma {:induction false} UsedAt(pairings: seq<Pairing>, i: nat)
    requires i < |pairings|
    ensures Used(pairings, pairings[i].secret) >= 1
  {
    if i < |pairings| - 1 {
      UsedAt(pairings[..|pairings| - 1], i);
    }
  }

  lemma {:induction false} UsedTwice(pairings: seq<Pairing>, i: nat, j: nat)
    requires i < j < |pairings|
    ensures pairings[i].secret == pairings[j].secret ==> Used(pairings, pairings[i].secret) >= 2
  {
    if j < |pairings| - 1 {
      UsedTwice(pairings[..|pairings| - 1], i, j);
    } else {
      UsedAt(pairings[..j], i);
    }
  }

  /** `t` is the code that the call `c` gave out, with its time to live. */
  predicate IssuedBy(t: TimedSecret, c: TimedCall) {
    c.call.GenerateCall? && c.call.secret == t.secret && t.expiresAt == c.now + c.call.ttl
  }

  lemma {:induction false} UnexpiredMembers(secrets: seq<TimedSecret>, now: int)
    ensures forall t | t in Unexpired(secrets, now) :: t in secrets && t.expiresAt > now
  {
    if secrets != [] {
      UnexpiredMembers(secrets[..|secrets| - 1], now);
    }
  }

  lemma CallKeepsCodes(e: Endorser, st: State, c: TimedCall)
    ensures forall t | t in Apply(e, st, c).secrets :: t in st.secrets || IssuedBy(t, c)
  {
    hide PairOutcome, CosignOutcome, Unexpired;
    UnexpiredMembers(st.secrets, c.now);
  }

  /** Every outstanding code was given out by a call, and expires when that call said. */
  lemma {:induction false} CodesAreIssued(e: Endorser, calls: seq<TimedCall>)
    ensures forall t | t in RunState(e, calls).secrets :: exists c :: c in calls && IssuedBy(t, c)
  {
    hide Apply;
    if calls != [] {
      var n := |calls| - 1;
      CodesAreIssued(e, calls[..n]);
      CallKeepsCodes(e, RunState(e, calls[..n]), calls[n]);
      forall t | t in RunState(e, calls).secrets ensures exists c :: c in calls && IssuedBy(t, c) {
        if t in RunState(e, calls[..n]).secrets {
          var c :| c in calls[..n] && IssuedBy(t, c);
          assert c in calls;
        } else {
          assert calls[n] in calls;
        }
      }
    }
  }

  /** A pairing succeeds only with a code that was given out and whose time to live is not over. */
  lemma PairsWithinTtl(e: Endorser, calls: seq<TimedCall>, now: int, m: PairMessage)
    requires PairOutcome(e.pairer, RunState(e, calls), now, m).Ok?
    ensures exists c :: c in calls && c.call.GenerateCall? && now < c.now + c.call.ttl &&
                        m.payload.Some? && ComputeMac(e.pairer, c.call.secret, m.payload.value) == m.mac
  {
    hide RunState;
    var st := RunState(e, calls);
    CodesAreIssued(e, calls);
    UnexpiredMembers(st.secrets, now);
    var t := Unexpired(st.secrets, now)[PairOutcome(e.pairer, st, now, m).value];
    assert t in Unexpired(st.secrets, now);
    var c :| c in calls && IssuedBy(t, c);
  }

  /** A call that fails changes nothing, or only drops the secrets that had expired. */
  lemma FailuresOnlyPrune(e: Endorser, st: State, t: TimedCall)
    requires t.call.PairCall? ==> PairOutcome(e.pairer, st, t.now, t.call.message).Err?
    requires t.call.CosignCall? ==> CosignOutcome(e.pairer, st, t.call.request, e.number, e.sk).Err?
    requires t.call.GenerateCall? ==> |Unexpired(st.secrets, t.now)| + |st.pending| >= MAX_ACTIVE_ACTIVATIONS
    ensures Apply(e, st, t) == st || Apply(e, st, t) == Prune(st, t.now)
  {
  }

  //-- Failed calls leave no trace -----------------------------------------------------------------

  datatype Answer =
    | Generated(granted: bool)
    | Paired(result: Result<PairMessage, PairError>)
    | Cosigned(signature: Result<Bytes, CosignError>)

  function AnswerTo(e: Endorser, st: State, t: TimedCall): Answer {
    match t.call
    case GenerateCall(_, _) =>
      Generated(|Unexpired(st.secrets, t.now)| + |st.pending| < MAX_ACTIVE_ACTIVATIONS)
    case PairCall(m, nonce) =>
      (match PairOutcome(e.pairer, st, t.now, m)
       case Err(error) => Paired(Err(error))
       case Ok(i) =>
         Paired(Ok(Reply(e.pairer, Unexpired(st.secrets, t.now)[i].secret, m.payload.value, e.number, e.sk, nonce))))
    case CosignCall(q) => Cosigned(CosignOutcome(e.pairer, st, q, e.number, e.sk))
  }

  predicate Fails(a: Answer) {
    match a
    case Generated(granted) => !granted
    case Paired(result) => result.Err?
    case Cosigned(signature) => signature.Err?
  }

  /** Two states that differ only in codes expired by `now`. */
  predicate Alike(a: State, b: State, now: int) {
    Unexpired(a.secrets, now) == Unexpired(b.secrets, now) && a.pending == b.pending
  }

  lemma UnexpiredAppend(secrets: seq<TimedSecret>, t: TimedSecret, now: int)
    ensures Unexpired(secrets + [t], now) == Unexpired(secrets, now) + if t.expiresAt > now then [t] else []
  {
    assert (secrets + [t])[..|secrets|] == secrets;
  }

  /** Pruning early makes no difference to pruning later. */
  lemma {:induction false} UnexpiredLater(secrets: seq<TimedSecret>, now: int, later: int)
    requires now <= later
    ensures Unexpired(Unexpired(secrets, now), later) == Unexpired(secrets, later)
  {
    if secrets != [] {
      var front, last := secrets[..|secrets| - 1], secrets[|secrets| - 1];
      UnexpiredLater(front, now, later);
      UnexpiredAppend(Unexpired(front, now), last, later);
      assert Unexpired(front, now) + [] == Unexpired(front, now);
    }
  }

  lemma AlikeLater(a: State, b: State, now: int, later: int)
    requires Alike(a, b, now) && now <= later
    ensures Alike(a, b, later)
  {
    UnexpiredLater(a.secrets, now, later);
    UnexpiredLater(b.secrets, now, later);
  }

  lemma ApplyAlike(e: Endorser, a: State, b: State, t: TimedCall)
    requires Alike(a, b, t.now)
    ensures AnswerTo(e, a, t) == AnswerTo(e, b, t)
    ensures Alike(Apply(e, a, t), Apply(e, b, t), t.now)
  {
    hide Unexpired, Match, CosignFault;
  }

  lemma FailureAlike(e: Endorser, st: State, t: TimedCall)
    requires Fails(AnswerTo(e, st, t))
    ensures Alike(Apply(e, st, t), st, t.now)
  {
    hide Unexpired, CosignOutcome;
    FailuresOnlyPrune(e, st, t);
    UnexpiredLater(st.secrets, t.now, t.now);
  }

  /** The calls come at or after `now`, in order of time. */
  predicate InOrder(now: int, calls: seq<TimedCall>) {
    && (forall i | 0 <= i < |calls| :: now <= calls[i].now)
    && (forall i, j | 0 <= i < j < |calls| :: calls[i].now <= calls[j].now)
  }

  function LastTime(now: int, calls: seq<TimedCall>): int {
    if calls == [] then now else calls[|calls| - 1].now
  }

  lemma RunExtend(e: Endorser, calls: seq<TimedCall>, t: TimedCall)
    ensures RunState(e, calls + [t]) == Apply(e, RunState(e, calls), t)
  {
    hide Apply;
    assert (calls + [t])[..|calls|] == calls;
  }

  lemma {:induction false} FailureForgotten(e: Endorser, before: seq<TimedCall>, t: TimedCall, after: seq<TimedCall>)
    requires Fails(AnswerTo(e, RunState(e, before), t)) && InOrder(t.now, after)
    ensures Alike(RunState(e, before + [t] + after), RunState(e, before + after), LastTime(t.now, after))
  {
    hide Apply, Alike, Fails, AnswerTo, RunState;
    if after == [] {
      assert before + [t] + after == before + [t] && before + after == before;
      RunExtend(e, before, t);
      FailureAlike(e, RunState(e, before), t);
    } else {
      var front, last := after[..|after| - 1], after[|after| - 1];
      FailureForgotten(e, before, t, front);
      assert before + [t] + after == (before + [t] + front) + [last] && before + after == (before + front) + [last];
      RunExtend(e, before + [t] + front, last);
      RunExtend(e, before + front, last);
      var a, b := RunState(e, before + [t] + front), RunState(e, before + front);
      AlikeLater(a, b, LastTime(t.now, front), last.now);
      ApplyAlike(e, a, b, last);
    }
  }

  /**
   In every run, a call that fails might as well not have been made: every later call, whatever comes in
   between, is answered as if it had not.
   */
  lemma FailedCallsLeaveNoTrace(e: Endorser, before: seq<TimedCall>, t: TimedCall, after: seq<TimedCall>, u: TimedCall)
    requires Fails(AnswerTo(e, RunState(e, before), t)) && InOrder(t.now, after + [u])
    ensures AnswerTo(e, RunState(e, before + [t] + after), u) == AnswerTo(e, RunState(e, before + after), u)
  {
    hide RunState, AnswerTo, Alike, Fails;
    assert forall i | 0 <= i < |after| :: (after + [u])[i] == after[i];
    assert (after + [u])[|after|] == u;
    FailureForgotten(e, before, t, after);
    var a, b := RunState(e, before + [t] + after), RunState(e, before + after);
    AlikeLater(a, b, LastTime(t.now, after), u.now);
    ApplyAlike(e, a, b, u);
  }
}
