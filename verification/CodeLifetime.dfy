/**
 The life of an activation code (serving.rs): it pairs from the moment it is given out until it expires or
 is used, and only with the request that was made from it.
 */
module CodeLifetime {
  import opened Prelude
  import opened Endorsing
  import opened EndorsementLedger

  /** A code is given out exactly while fewer than 100 codes and pending endorsements are alive. */
  lemma GrantedExactly(e: Endorser, st: State, now: int, ttl: nat, secret: Bytes)
    ensures AnswerTo(e, st, TimedCall(now, GenerateCall(ttl, secret))) == Generated(true) <==>
            |Unexpired(st.secrets, now)| + |st.pending| < 100
  {
  }

  /** A code given out is outstanding, for as long as its time to live. */
  lemma GrantedIsOutstanding(e: Endorser, before: seq<TimedCall>, now: int, ttl: nat, secret: Bytes)
    requires AnswerTo(e, RunState(e, before), TimedCall(now, GenerateCall(ttl, secret))) == Generated(true)
    ensures var after := RunState(e, before + [TimedCall(now, GenerateCall(ttl, secret))]);
            TimedSecret(secret, now + ttl) in after.secrets && after.pending == RunState(e, before).pending
  {
    hide RunState, Unexpired;
    var t := TimedCall(now, GenerateCall(ttl, secret));
    RunExtend(e, before, t);
    var live := Unexpired(RunState(e, before).secrets, now);
    assert (live + [TimedSecret(secret, now + ttl)])[|live|] == TimedSecret(secret, now + ttl);
  }

  lemma {:induction false} StillUnexpired(secrets: seq<TimedSecret>, x: TimedSecret, now: int)
    requires x in secrets && now < x.expiresAt
    ensures x in Unexpired(secrets, now)
  {
    var n := |secrets| - 1;
    if secrets[n] == x {
      var rest := Unexpired(secrets[..n], now);
      assert (rest + [x])[|rest|] == x;
    } else {
      StillUnexpired(secrets[..n], x, now);
    }
  }

  lemma OthersSurviveRemoval(secrets: seq<TimedSecret>, i: nat, x: TimedSecret)
    requires i < |secrets| && x in secrets && secrets[i].secret != x.secret
    ensures x in SwapRemove(secrets, i)
  {
    var k :| 0 <= k < |secrets| && secrets[k] == x;
    var r := SwapRemove(secrets, i);
    assert if k == |secrets| - 1 then r[i] == x else r[k] == x;
  }

  /** The codes that the calls after `before` used up. */
  function UsedSince(e: Endorser, before: seq<TimedCall>, between: seq<TimedCall>): seq<Pairing> {
    var was, now := Run(e, before).pairings, Run(e, before + between).pairings;
    if |was| <= |now| then now[|was|..] else []
  }

  lemma CallKeepsCode(e: Endorser, st: State, l: Ledger, t: TimedCall, x: TimedSecret)
    requires x in st.secrets && t.now < x.expiresAt
    requires var l' := Record(e, l, st, t);
             l'.pairings == l.pairings || l'.pairings[|l'.pairings| - 1].secret != x.secret
    ensures x in Apply(e, st, t).secrets
  {
    hide Unexpired, Match, CosignOutcome, SwapRemove, Lapsed;
    StillUnexpired(st.secrets, x, t.now);
    var live := Unexpired(st.secrets, t.now);
    match t.call {
      case GenerateCall(_, _) =>
      case CosignCall(_) =>
      case PairCall(m, _) =>
        var outcome := PairOutcome(e.pairer, st, t.now, m);
        if outcome.Ok? { OthersSurviveRemoval(live, outcome.value, x); }
    }
  }

  lemma PairingsGrow(e: Endorser, l: Ledger, st: State, t: TimedCall)
    ensures var l' := Record(e, l, st, t);
            l.pairings <= l'.pairings && |l'.pairings| <= |l.pairings| + 1
  {
    hide Unexpired, Match, CosignOutcome, Lapsed;
  }

  lemma LedgerExtend(e: Endorser, calls: seq<TimedCall>, t: TimedCall)
    ensures Run(e, calls + [t]) == Record(e, Run(e, calls), RunState(e, calls), t)
  {
    hide Record;
    assert (calls + [t])[..|calls|] == calls;
  }

  lemma {:induction false} PairingsKept(e: Endorser, before: seq<TimedCall>, between: seq<TimedCall>)
    ensures Run(e, before).pairings <= Run(e, before + between).pairings
  {
    hide Record, Run;
    if between == [] {
      assert before + between == before;
    } else {
      var front, last := between[..|between| - 1], between[|between| - 1];
      PairingsKept(e, before, front);
      assert before + between == (before + front) + [last];
      LedgerExtend(e, before + front, last);
      PairingsGrow(e, Run(e, before + front), RunState(e, before + front), last);
    }
  }

  /** In every run an outstanding code stays outstanding until it expires or a pairing uses it up. */
  lemma {:induction false} CodeStays(e: Endorser, before: seq<TimedCall>, between: seq<TimedCall>, x: TimedSecret)
    requires x in RunState(e, before).secrets
    requires forall t | t in between :: t.now < x.expiresAt
    requires forall p | p in UsedSince(e, before, between) :: p.secret != x.secret
    ensures x in RunState(e, before + between).secrets
  {
    hide Record, Run, RunState, Apply;
    if between == [] {
      assert before + between == before;
    } else {
      var front, last := between[..|between| - 1], between[|between| - 1];
      var calls := before + front;
      assert before + between == calls + [last];
      PairingsKept(e, before, front);
      LedgerExtend(e, calls, last);
      RunExtend(e, calls, last);
      PairingsGrow(e, Run(e, calls), RunState(e, calls), last);
      var was, mid, now := Run(e, before).pairings, Run(e, calls).pairings, Run(e, calls + [last]).pairings;
      assert UsedSince(e, before, between) == now[|was|..];
      assert forall i | |was| <= i < |now| :: now[i] == now[|was|..][i - |was|];
      forall p | p in UsedSince(e, before, front) ensures p.secret != x.secret {
        assert UsedSince(e, before, front) == mid[|was|..];
        var i :| 0 <= i < |mid[|was|..]| && mid[|was|..][i] == p;
        assert now[|was| + i] == p;
      }
      CodeStays(e, before, front, x);
      CallKeepsCode(e, RunState(e, calls), Run(e, calls), last, x);
    }
  }

  //-- Codes and requests --------------------------------------------------------------------------

  /** HMAC and the encoding of pairing payloads taken as free of collisions. */
  ghost predicate IdealMac(c: Pairer) {
    && (forall key: Bytes, message: Bytes, key': Bytes, message': Bytes ::
          c.hmac(key, message) == c.hmac(key', message') ==> key == key' && message == message')
    && (forall p: PairPayload, p': PairPayload :: c.encode(p) == c.encode(p') ==> p == p')
  }

  /** A MAC binds the code and every field of the payload. */
  lemma MacBinds(c: Pairer, secret: Bytes, p: PairPayload, secret': Bytes, p': PairPayload)
    requires IdealMac(c)
    ensures ComputeMac(c, secret, p) == ComputeMac(c, secret', p') <==> secret == secret' && p == p'
  {
  }

  ghost predicate IsOutstanding(st: State, secret: Bytes, now: int) {
    exists t :: t in Unexpired(st.secrets, now) && t.secret == secret
  }

  /**
   A message pairs exactly if its MAC was made, over this very payload, with a code that is outstanding;
   and it uses up that code.
   */
  lemma PairsExactly(c: Pairer, st: State, now: int, secret: Bytes, p: PairPayload, p': PairPayload)
    requires IdealMac(c)
    ensures var outcome := PairOutcome(c, st, now, PairMessage(Some(p'), ComputeMac(c, secret, p)));
            && (outcome.Ok? <==> p == p' && IsOutstanding(st, secret, now))
            && (outcome.Ok? ==> Unexpired(st.secrets, now)[outcome.value].secret == secret)
            && (outcome == Err(NoActiveSession) <==> Unexpired(st.secrets, now) == [])
            && (outcome == Err(MacMismatch) <==>
                  Unexpired(st.secrets, now) != [] && !(p == p' && IsOutstanding(st, secret, now)))
  {
    hide IdealMac, ComputeMac, Unexpired, Match;
    var live := Unexpired(st.secrets, now);
    var mac := ComputeMac(c, secret, p);
    var i := Match(c, live, p', mac);
    forall t | t in live ensures ComputeMac(c, t.secret, p') == mac <==> t.secret == secret && p' == p {
      MacBinds(c, t.secret, p', secret, p);
    }
    if i < |live| { assert live[i] in live; }
    if IsOutstanding(st, secret, now) && p == p' {
      var t :| t in live && t.secret == secret;
      var k :| 0 <= k < |live| && live[k] == t;
      assert ComputeMac(c, live[k].secret, p') == mac;
      assert i <= k;
    }
  }
}
