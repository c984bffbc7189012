/**
 Whether the clean-up of dropped streams (quic.rs) can reset a send half that was finished.  Each handle
 answers for itself only, and `accept_stream` hands out any readable stream, even one that this side
 opened; so a stream can have two handles, and the answer depends on whether one does.
 */
module QuicFins {
  import opened QuicStreams

  /** Every stream has at most one handle. */
  ghost predicate OneHandleEach(w: World) {
    forall i, j | 0 <= i < j < |w.handles| :: w.handles[i].id != w.handles[j].id
  }

  /** `accept_stream` has returned no stream that this side opened. */
  ghost predicate OwnNotAccepted(b: Account) {
    forall i, j | 0 <= i < |b.openings| && 0 <= j < |b.acceptances| :: b.openings[i].id != b.acceptances[j]
  }

  /** One handle finished its send half, and another handle of the same stream was dropped unfinished. */
  ghost predicate Torn(w: World) {
    exists i, j :: 0 <= i < |w.handles| && 0 <= j < |w.handles| && w.handles[i].id == w.handles[j].id
      && w.handles[i].sentFin && w.handles[j].gone && !w.handles[j].sentFin
  }

  /** The connection was asked to reset a send half that some handle had finished. */
  ghost predicate FinReset(w: World) {
    exists i :: 0 <= i < |w.handles| && w.handles[i].sentFin && Shutdown(w.handles[i].id, WriteHalf) in w.book.shutdowns
  }

  //-- Where handles come from ---------------------------------------------------------------------

  /** The i-th opening, or the j-th acceptance. */
  datatype Origin = FromOpening(i: nat) | FromAcceptance(j: nat)

  function NewOrigins(w: World, a: Act): seq<Origin> {
    match a
    case OpenAct(closed, exited, send) =>
      if OpenOutcomeOf(w.book, closed, exited, send).OpenedAt? then [FromOpening(|w.book.openings|)] else []
    case AcceptAct(readable) =>
      if FirstNew(readable, w.book.accepted).Some? then [FromAcceptance(|w.book.acceptances|)] else []
    case _ => []
  }

  function OriginsOf(role: Role, acts: seq<Act>): seq<Origin> {
    if acts == [] then []
    else
      var front := acts[..|acts| - 1];
      OriginsOf(role, front) + NewOrigins(Run(role, front), acts[|acts| - 1])
  }

  ghost predicate Fits(b: Account, h: Handle, o: Origin) {
    match o
    case FromOpening(i) => i < |b.openings| && b.openings[i].id == h.id
    case FromAcceptance(j) => j < |b.acceptances| && b.acceptances[j] == h.id
  }

  /** Handles are one to one with openings and acceptances. */
  ghost predicate Traced(w: World, origins: seq<Origin>) {
    && |origins| == |w.handles|
    && (forall h | 0 <= h < |origins| :: Fits(w.book, w.handles[h], origins[h]))
    && (forall h, k | 0 <= h < k < |origins| :: origins[h] != origins[k])
    && (forall i | 0 <= i < |w.book.openings| :: FromOpening(i) in origins)
    && (forall j | 0 <= j < |w.book.acceptances| :: FromAcceptance(j) in origins)
  }

  /** What a step does to the three lists: at most one handle more, for an opening or an acceptance more. */
  lemma StepShape(w: World, a: Act)
    ensures var w', o := Behave(w, a), NewOrigins(w, a);
            if o == [] then
              && |w'.handles| == |w.handles| && w'.book.openings == w.book.openings
              && w'.book.acceptances == w.book.acceptances
              && forall h | 0 <= h < |w.handles| :: w'.handles[h].id == w.handles[h].id
            else
              && |o| == 1 && |w'.handles| == |w.handles| + 1 && w'.handles[..|w.handles|] == w.handles
              && Fits(w'.book, w'.handles[|w.handles|], o[0])
              && (if o[0].FromOpening? then
                    && o[0].i == |w.book.openings| && w'.book.acceptances == w.book.acceptances
                    && |w'.book.openings| == o[0].i + 1 && w'.book.openings[..o[0].i] == w.book.openings
                  else
                    && o[0].j == |w.book.acceptances| && w'.book.openings == w.book.openings
                    && |w'.book.acceptances| == o[0].j + 1 && w'.book.acceptances[..o[0].j] == w.book.acceptances)
  {
    hide CleanUpAll, Credit, Max;
  }

  lemma StepTraced(w: World, a: Act, origins: seq<Origin>)
    requires Traced(w, origins)
    ensures Traced(Behave(w, a), origins + NewOrigins(w, a))
  {
    hide Behave, NewOrigins;
    var w', o := Behave(w, a), NewOrigins(w, a);
    StepShape(w, a);
    if o == [] {
      assert origins + o == origins;
      forall h | 0 <= h < |origins| ensures Fits(w'.book, w'.handles[h], origins[h]) {
        assert Fits(w.book, w.handles[h], origins[h]);
      }
    } else {
      var origins' := origins + o;
      forall h | 0 <= h < |origins'| ensures Fits(w'.book, w'.handles[h], origins'[h]) {
        if h < |origins| {
          assert Fits(w.book, w.handles[h], origins[h]);
          assert w'.handles[..|w.handles|][h] == w'.handles[h];
          FitsStill(w.book, w'.book, w.handles[h], origins[h]);
        }
      }
      forall h, k | 0 <= h < k < |origins'| ensures origins'[h] != origins'[k] {
        assert Fits(w.book, w.handles[h], origins[h]);
      }
      assert origins'[|origins|] == o[0];
    }
  }

  lemma FitsStill(b: Account, b': Account, h: Handle, o: Origin)
    requires Fits(b, h, o) && b.openings <= b'.openings && b.acceptances <= b'.acceptances
    ensures Fits(b', h, o)
  {
  }

  lemma {:induction false} EveryRunTraced(role: Role, acts: seq<Act>)
    ensures Traced(Run(role, acts), OriginsOf(role, acts))
  {
    hide Behave, NewOrigins;
    if acts != [] {
      var front := acts[..|acts| - 1];
      EveryRunTraced(role, front);
      StepTraced(Run(role, front), acts[|acts| - 1], OriginsOf(role, front));
    }
  }

  /** In every run, streams have one handle each exactly if no stream opened here was accepted here. */
  lemma OneHandleExactly(role: Role, acts: seq<Act>)
    ensures OneHandleEach(Run(role, acts)) <==> OwnNotAccepted(Run(role, acts).book)
  {
    hide Run, OriginsOf;
    var w, origins := Run(role, acts), OriginsOf(role, acts);
    EveryRunTraced(role, acts);
    EveryRunIsSound(role, acts);
    if OneHandleEach(w) {
      forall i, j | 0 <= i < |w.book.openings| && 0 <= j < |w.book.acceptances|
        ensures w.book.openings[i].id != w.book.acceptances[j]
      {
        var h :| 0 <= h < |origins| && origins[h] == FromOpening(i);
        var k :| 0 <= k < |origins| && origins[k] == FromAcceptance(j);
        assert Fits(w.book, w.handles[h], origins[h]) && Fits(w.book, w.handles[k], origins[k]);
      }
    }
    if OwnNotAccepted(w.book) {
      forall h, k | 0 <= h < k < |w.handles| ensures w.handles[h].id != w.handles[k].id {
        assert Fits(w.book, w.handles[h], origins[h]) && Fits(w.book, w.handles[k], origins[k]);
        OriginsApart(w.book, w.handles[h], origins[h], w.handles[k], origins[k]);
      }
    }
  }

  lemma OriginsApart(b: Account, h: Handle, o: Origin, h': Handle, o': Origin)
    requires Sound(b) && OwnNotAccepted(b) && Fits(b, h, o) && Fits(b, h', o') && o != o'
    ensures h.id != h'.id
  {
    hide WithinLimit, DrainsOnce;
    if o.FromOpening? && o'.FromOpening? {
      assert o.i < o'.i || o'.i < o.i;
    } else if o.FromAcceptance? && o'.FromAcceptance? {
      assert o.j < o'.j || o'.j < o.j;
    }
  }

  //-- What is reset -------------------------------------------------------------------------------

  lemma {:induction false} CountedIsIn(calls: seq<Shutdown>, c: Shutdown)
    ensures CountOf(calls, c) > 0 <==> c in calls
  {
    if calls != [] {
      CountedIsIn(calls[..|calls| - 1], c);
    }
  }

  lemma {:induction false} LeftOpenBySome(handles: seq<Handle>, c: Shutdown)
    ensures LeftOpenBy(handles, c) > 0 <==>
            exists k | 0 <= k < |handles| :: handles[k].gone && LeftOpen(DropRecord(handles[k]), c)
  {
    hide LeftOpen;
    if handles != [] {
      var n := |handles| - 1;
      LeftOpenBySome(handles[..n], c);
      if k :| 0 <= k < |handles| && handles[k].gone && LeftOpen(DropRecord(handles[k]), c) {
        assert k < n ==> handles[..n][k] == handles[k];
      }
      if k :| 0 <= k < n && handles[..n][k].gone && LeftOpen(DropRecord(handles[..n][k]), c) {
        assert handles[k].gone && LeftOpen(DropRecord(handles[k]), c);
      }
    }
  }

  lemma {:induction false} UnfinishedPrefix(ds: seq<Dropped>, n: nat, c: Shutdown)
    requires n <= |ds|
    ensures Unfinished(ds[..n], c) <= Unfinished(ds, c)
  {
    if n == |ds| {
      assert ds[..n] == ds;
    } else {
      UnfinishedPrefix(ds[..|ds| - 1], n, c);
      assert ds[..|ds| - 1][..n] == ds[..n];
    }
  }

  /** Shutdowns are only ever asked for on account of a dropped handle. */
  lemma ShutdownsHaveCause(role: Role, acts: seq<Act>, c: Shutdown)
    requires c in Run(role, acts).book.shutdowns
    ensures LeftOpenBy(Run(role, acts).handles, c) > 0
  {
    hide Run;
    var b := Run(role, acts).book;
    EveryRunIsSound(role, acts);
    CleanUpExactly(b.dropped[..b.drained], c);
    CountedIsIn(b.shutdowns, c);
    UnfinishedPrefix(b.dropped, b.drained, c);
    DropsCounted(role, acts, c);
  }

  /**
   At any moment of any run: a finished half is reset only if a second handle of its stream was dropped
   unfinished.
   */
  lemma ResetMeansTorn(role: Role, acts: seq<Act>)
    ensures FinReset(Run(role, acts)) ==> Torn(Run(role, acts))
  {
    hide Run;
    var w := Run(role, acts);
    if i :| 0 <= i < |w.handles| && w.handles[i].sentFin && Shutdown(w.handles[i].id, WriteHalf) in w.book.shutdowns {
      ShutdownsHaveCause(role, acts, Shutdown(w.handles[i].id, WriteHalf));
      LeftOpenBySome(w.handles, Shutdown(w.handles[i].id, WriteHalf));
      var j :| 0 <= j < |w.handles| && w.handles[j].gone
               && LeftOpen(DropRecord(w.handles[j]), Shutdown(w.handles[i].id, WriteHalf));
    }
  }

  lemma DrainKeepsTorn(w: World, a: Act)
    requires a.OpenAct? || a.AcceptAct?
    ensures Torn(Behave(w, a)) <==> Torn(w)
  {
    hide CleanUpAll, Credit, OpenOutcomeOf, OpenedFrom, AcceptedFrom, FirstNew;
    var w' := Behave(w, a);
    assert w.handles <= w'.handles;
    assert forall h | |w.handles| <= h < |w'.handles| :: !w'.handles[h].sentFin && !w'.handles[h].gone;
  }

  /**
   Exactly when the next open or accept leaves a finished send half reset: if, before it, some handle had
   finished its send half and another handle of the same stream had been dropped unfinished.
   */
  lemma ResetExactly(role: Role, acts: seq<Act>, a: Act)
    requires a.OpenAct? || a.AcceptAct?
    ensures FinReset(Run(role, acts + [a])) <==> Torn(Run(role, acts))
  {
    assert (acts + [a])[..|acts|] == acts;
    assert Run(role, acts + [a]) == Behave(Run(role, acts), a);
    hide Run, Behave;
    var w := Run(role, acts + [a]);
    DrainKeepsTorn(Run(role, acts), a);
    ResetMeansTorn(role, acts + [a]);
    if Torn(w) {
      var i, j :| 0 <= i < |w.handles| && 0 <= j < |w.handles| && w.handles[i].id == w.handles[j].id
                  && w.handles[i].sentFin && w.handles[j].gone && !w.handles[j].sentFin;
      var c := Shutdown(w.handles[i].id, WriteHalf);
      assert LeftOpen(DropRecord(w.handles[j]), c);
      LeftOpenBySome(w.handles, c);
      NextDrainCleansUp(role, acts, a, c);
      CountedIsIn(w.book.shutdowns, c);
    }
  }

  /**
   As long as `accept_stream` returns no stream that this side opened, no send half whose FIN any handle
   recorded is reset, at any moment of any run.
   */
  lemma FinishedStaysFinished(role: Role, acts: seq<Act>)
    requires OwnNotAccepted(Run(role, acts).book)
    ensures !FinReset(Run(role, acts))
  {
    hide Run;
    OneHandleExactly(role, acts);
    ResetMeansTorn(role, acts);
    if Torn(Run(role, acts)) {
      TornHasTwo(Run(role, acts));
    }
  }

  lemma TornHasTwo(w: World)
    requires Torn(w)
    ensures !OneHandleEach(w)
  {
    var i, j :| 0 <= i < |w.handles| && 0 <= j < |w.handles| && w.handles[i].id == w.handles[j].id
                && w.handles[i].sentFin && w.handles[j].gone && !w.handles[j].sentFin;
    assert i != j;
  }

  /** And wherever a run has left a stream with two handles in use, it can go on to reset a finished half. */
  lemma SecondHandleTruncates(role: Role, acts: seq<Act>, i: nat, j: nat)
    requires i != j && Held(Run(role, acts), i) && Held(Run(role, acts), j)
    requires Run(role, acts).handles[i].id == Run(role, acts).handles[j].id && !Run(role, acts).handles[j].sentFin
    ensures FinReset(Run(role, acts + [FinishAct(i), DropAct(j)] + [AcceptAct([])]))
  {
    var w, more := Run(role, acts), [FinishAct(i), DropAct(j)];
    assert (acts + more)[..|acts| + 1] == acts + [FinishAct(i)];
    assert (acts + [FinishAct(i)])[..|acts|] == acts;
    var w' := Run(role, acts + more);
    assert Run(role, acts + [FinishAct(i)]) == Behave(w, FinishAct(i));
    assert (acts + more)[|acts| + 1] == DropAct(j);
    assert w' == Behave(Behave(w, FinishAct(i)), DropAct(j));
    assert w'.handles[i].sentFin && w'.handles[j].gone && !w'.handles[j].sentFin;
    ResetExactly(role, acts + more, AcceptAct([]));
  }

  /** Such a run: a client opens stream 0, and another task accepts it when the peer answers. */
  const OWN_ACCEPTED: seq<Act> := [RaiseLimitAct(1), OpenAct(false, false, Taken), AcceptAct([0])]

  lemma RunExtend(role: Role, acts: seq<Act>, a: Act)
    ensures Run(role, acts + [a]) == Behave(Run(role, acts), a)
  {
    hide Behave;
    assert (acts + [a])[..|acts|] == acts;
  }

  lemma OpenFirst(w: World)
    requires w.handles == [] && w.book == NewAccount(Client).(limit := 1)
    ensures var w' := Behave(w, OpenAct(false, false, Taken));
            w'.handles == [Handle(0, false, false, false)] && w'.book.accepted == {}
  {
    hide CleanUpAll;
  }

  lemma AcceptFirst(w: World)
    requires w.handles == [Handle(0, false, false, false)] && w.book.accepted == {}
    ensures Behave(w, AcceptAct([0])).handles == [Handle(0, false, false, false), Handle(0, false, false, false)]
  {
    hide AcceptedFrom;
    assert [0 as nat][0] !in w.book.accepted;
  }

  lemma LimitRaised()
    ensures Behave(Run(Client, []), RaiseLimitAct(1)) == World(NewAccount(Client).(limit := 1), [], [])
  {
  }

  lemma OwnStreamTwice()
    ensures Run(Client, OWN_ACCEPTED).handles == [Handle(0, false, false, false), Handle(0, false, false, false)]
  {
    hide Run, Behave;
    var limit, open, accept := RaiseLimitAct(1), OpenAct(false, false, Taken), AcceptAct([0]);
    RunExtend(Client, [], limit);
    RunExtend(Client, [limit], open);
    RunExtend(Client, [limit, open], accept);
    assert [] + [limit] == [limit] && [limit] + [open] == [limit, open] && [limit, open] + [accept] == OWN_ACCEPTED;
    LimitRaised();
    OpenFirst(Run(Client, [limit]));
    AcceptFirst(Run(Client, [limit, open]));
  }

  lemma OwnStreamAccepted()
    ensures FinReset(Run(Client, OWN_ACCEPTED + [FinishAct(0), DropAct(1)] + [AcceptAct([])]))
  {
    hide Run, FinReset, OWN_ACCEPTED;
    OwnStreamTwice();
    SecondHandleTruncates(Client, OWN_ACCEPTED, 0, 1);
  }
}
