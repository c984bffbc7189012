/**
 Stream bookkeeping of a QUIC connection (quic.rs): which IDs are handed out, and how streams dropped
 without a clean close are cleaned up.  Every method is one section under the connection lock.

 Of the connection itself the model keeps how many streams the peer lets us open and how many are open:
 opening a stream opens all those before it too (section 2.1 of RFC 9000), and one beyond the peer's
 limit is refused (section 4.6).
 */
module QuicStreams {
  import opened Prelude

  datatype Role = Client | Server

  /**
   Section 2.1 of RFC 9000: bidirectional stream IDs are 0, 4, 8, .. for the client and 1, 5, 9, .. for the
   server.
   */
  function Base(role: Role): nat {
    if role == Client then 0 else 1
  }

  function StreamIdAt(role: Role, index: nat): nat {
    Base(role) + 4 * index
  }

  /** A stream dropped without a clean close, with the half-states at that time. */
  datatype Dropped = Dropped(id: nat, sentFin: bool, receivedFin: bool)

  datatype Half = ReadHalf | WriteHalf

  datatype Shutdown = Shutdown(id: nat, half: Half)

  /** The shutdowns that clean up one dropped stream: exactly its unfinished halves. */
  function CleanUp(d: Dropped): seq<Shutdown> {
    (if d.receivedFin then [] else [Shutdown(d.id, ReadHalf)]) + (if d.sentFin then [] else [Shutdown(d.id, WriteHalf)])
  }

  function CleanUpAll(ds: seq<Dropped>): seq<Shutdown> {
    if ds == [] then [] else CleanUpAll(ds[..|ds| - 1]) + CleanUp(ds[|ds| - 1])
  }

  /** An ID handed out by `open_stream`, with the peer's credit and limit at that moment. */
  datatype Opening = Opening(id: nat, credit: nat, limit: nat)

  /**
   The bookkeeping of a connection with its whole past: every ID that `open_stream` and `accept_stream`
   returned, every unclean drop, every shutdown a drain asked for, how many drops are drained, and how
   many sends failed for a reason of their own.
   */
  datatype Account = Account(
    role: Role, nextIndex: nat, accepted: set<nat>, pending: seq<Dropped>, limit: nat, spent: nat,
    openings: seq<Opening>, acceptances: seq<nat>, dropped: seq<Dropped>, shutdowns: seq<Shutdown>, drained: nat,
    faults: nat)

  function NewAccount(role: Role): Account {
    Account(role, 0, {}, [], 0, 0, [], [], [], [], 0, 0)
  }

  /** How many more streams the peer lets us open (`peer_streams_left_bidi`). */
  function Credit(b: Account): nat {
    if b.spent <= b.limit then b.limit - b.spent else 0
  }

  //-- What each locked section does ---------------------------------------------------------------

  function Drained(b: Account): Account {
    b.(pending := [], shutdowns := b.shutdowns + CleanUpAll(b.pending), drained := |b.dropped|)
  }

  function Discarded(b: Account, d: Dropped): Account {
    if d.sentFin && d.receivedFin then b else b.(pending := b.pending + [d], dropped := b.dropped + [d])
  }

  datatype OpenOutcome = OpenedAt(id: nat) | ConnectionClosed | NoCredit | SendFailed

  /** Whether the connection takes the zero-byte send, limits aside; a failing one may have opened the stream. */
  datatype Send = Taken | Failing(opens: bool)

  function Max(a: nat, b: nat): nat {
    if a < b then b else a
  }

  /** The connection after a zero-byte send on stream `n` of ours. */
  function Sent(b: Account, n: nat, send: Send): Account {
    if n >= b.limit then b
    else if send.Taken? then b.(spent := Max(b.spent, n + 1))
    else b.(spent := if send.opens then Max(b.spent, n + 1) else b.spent, faults := b.faults + 1)
  }

  /** `closed` and `driverExited` as found under the lock. */
  function OpenOutcomeOf(b: Account, closed: bool, driverExited: bool, send: Send): OpenOutcome {
    if closed || driverExited then ConnectionClosed
    else if Credit(b) == 0 then NoCredit
    else if b.nextIndex >= b.limit || send.Failing? then SendFailed
    else OpenedAt(StreamIdAt(b.role, b.nextIndex))
  }

  /** An index is used up even if the send fails. */
  function OpenedFrom(b: Account, closed: bool, driverExited: bool, send: Send): Account {
    var d := Drained(b);
    match OpenOutcomeOf(b, closed, driverExited, send)
    case OpenedAt(id) =>
      Sent(d, d.nextIndex, send).(nextIndex := d.nextIndex + 1,
                                  openings := d.openings + [Opening(id, Credit(d), d.limit)])
    case SendFailed => Sent(d, d.nextIndex, send).(nextIndex := d.nextIndex + 1)
    case _ => d
  }

  /** The first readable stream not accepted yet. */
  function FirstNew(readable: seq<nat>, accepted: set<nat>): (r: Option<nat>)
    ensures r.None? <==> forall i | 0 <= i < |readable| :: readable[i] in accepted
    ensures r.Some? ==> r.value in readable && r.value !in accepted
  {
    if readable == [] then None
    else if readable[0] !in accepted then Some(readable[0])
    else FirstNew(readable[1..], accepted)
  }

  function AcceptedFrom(b: Account, readable: seq<nat>): Account {
    var d := Drained(b);
    match FirstNew(readable, b.accepted)
    case None => d
    case Some(id) => d.(accepted := d.accepted + {id}, acceptances := d.acceptances + [id])
  }

  /** A MAX_STREAMS frame, which never lowers the limit. */
  function Raised(b: Account, limit: nat): Account {
    b.(limit := Max(b.limit, limit))
  }

  //-- Every run -----------------------------------------------------------------------------------

  /** A stream handle: the FINs it recorded, and whether it has been dropped. */
  datatype Handle = Handle(id: nat, sentFin: bool, receivedFin: bool, gone: bool)

  /** `owners` says which handle each unclean drop was of. */
  datatype World = World(book: Account, handles: seq<Handle>, owners: seq<nat>)

  /** What any number of tasks and the peer may do; the lock puts it in some order. */
  datatype Act =
    | OpenAct(closed: bool, driverExited: bool, send: Send)
    | AcceptAct(readable: seq<nat>)
    | RaiseLimitAct(limit: nat)
    | FinishAct(handle: nat)
    | ReadFinAct(handle: nat)
    | DropAct(handle: nat)

  function DropRecord(h: Handle): Dropped {
    Dropped(h.id, h.sentFin, h.receivedFin)
  }

  predicate Held(w: World, h: nat) {
    h < |w.handles| && !w.handles[h].gone
  }

  function WithHandle(w: World, id: nat): World {
    w.(handles := w.handles + [Handle(id, false, false, false)])
  }

  function Behave(w: World, a: Act): World {
    match a
    case OpenAct(closed, exited, send) =>
      var w' := w.(book := OpenedFrom(w.book, closed, exited, send));
      var outcome := OpenOutcomeOf(w.book, closed, exited, send);
      if outcome.OpenedAt? then WithHandle(w', outcome.id) else w'
    case AcceptAct(readable) =>
      var w' := w.(book := AcceptedFrom(w.book, readable));
      var id := FirstNew(readable, w.book.accepted);
      if id.Some? then WithHandle(w', id.value) else w'
    case RaiseLimitAct(limit) => w.(book := Raised(w.book, limit))
    case FinishAct(h) => if Held(w, h) then w.(handles := w.handles[h := w.handles[h].(sentFin := true)]) else w
    case ReadFinAct(h) => if Held(w, h) then w.(handles := w.handles[h := w.handles[h].(receivedFin := true)]) else w
    case DropAct(h) =>
      if Held(w, h) then
        var d := DropRecord(w.handles[h]);
        World(Discarded(w.book, d), w.handles[h := w.handles[h].(gone := true)],
              if d.sentFin && d.receivedFin then w.owners else w.owners + [h])
      else w
  }

  function Run(role: Role, acts: seq<Act>): World {
    if acts == [] then World(NewAccount(role), [], [])
    else Behave(Run(role, acts[..|acts| - 1]), acts[|acts| - 1])
  }

  //-- Stream IDs and credit -----------------------------------------------------------------------

  /**
   IDs opened are of our kind, strictly increasing, below the next one, and each was opened on credit,
   within the limit of the time, and as the peer counts no more than it allows.
   */
  ghost predicate OpensInOrder(b: Account) {
    && (forall i | 0 <= i < |b.openings| ::
          && b.openings[i].credit > 0 && b.openings[i].id % 4 == (if b.role == Client then 0 else 1)
          && b.openings[i].id < StreamIdAt(b.role, b.nextIndex)
          && b.openings[i].id < StreamIdAt(b.role, b.openings[i].limit) && i < b.openings[i].limit <= b.limit)
    && (forall i, j | 0 <= i < j < |b.openings| :: b.openings[i].id < b.openings[j].id)
  }

  ghost predicate WithinLimit(b: Account) {
    && |b.openings| <= b.spent <= b.nextIndex
    && b.spent <= b.limit
    // indexes are only ever lost to failing sends
    && (b.faults == 0 ==> |b.openings| == b.spent == b.nextIndex)
  }

  ghost predicate AcceptsOnce(b: Account) {
    && (forall i | 0 <= i < |b.acceptances| :: b.acceptances[i] in b.accepted)
    && (forall i, j | 0 <= i < j < |b.acceptances| :: b.acceptances[i] != b.acceptances[j])
  }

  /** Each unclean drop waits in the queue until one drain cleans it up, once and in order. */
  ghost predicate DrainsOnce(b: Account) {
    && b.drained <= |b.dropped|
    && b.pending == b.dropped[b.drained..]
    && b.shutdowns == CleanUpAll(b.dropped[..b.drained])
  }

  ghost predicate Sound(b: Account) {
    OpensInOrder(b) && WithinLimit(b) && AcceptsOnce(b) && DrainsOnce(b)
  }

  lemma DrainSound(b: Account)
    requires Sound(b)
    ensures Sound(Drained(b))
  {
    CleanUpConcat(b.dropped[..b.drained], b.pending);
    assert b.dropped[..b.drained] + b.pending == b.dropped == b.dropped[..|b.dropped|];
  }

  lemma OpenSound(b: Account, closed: bool, driverExited: bool, send: Send)
    requires Sound(b)
    ensures Sound(OpenedFrom(b, closed, driverExited, send))
  {
    DrainSound(b);
    hide CleanUpAll, Sound;
    var outcome := OpenOutcomeOf(b, closed, driverExited, send);
    if outcome.OpenedAt? || outcome.SendFailed? {
      SendSound(Drained(b), closed, driverExited, send);
      assert OpenedFrom(Drained(b), closed, driverExited, send) == OpenedFrom(b, closed, driverExited, send) by {
        DrainedTwice(b);
      }
    }
  }

  lemma DrainedTwice(b: Account)
    ensures Drained(Drained(b)) == Drained(b)
  {
  }

  /** Opening with nothing to drain. */
  lemma SendSound(b: Account, closed: bool, driverExited: bool, send: Send)
    requires Sound(b) && Drained(b) == b
    ensures Sound(OpenedFrom(b, closed, driverExited, send))
  {
    hide CleanUpAll, Drained;
  }

  lemma AcceptSound(b: Account, readable: seq<nat>)
    requires Sound(b)
    ensures Sound(AcceptedFrom(b, readable))
  {
    DrainSound(b);
    hide CleanUpAll;
  }

  lemma DiscardSound(b: Account, d: Dropped)
    requires Sound(b)
    ensures Sound(Discarded(b, d))
  {
    hide CleanUpAll;
    assert (b.dropped + [d])[..b.drained] == b.dropped[..b.drained];
  }

  lemma BehaveSound(w: World, a: Act)
    requires Sound(w.book)
    ensures Sound(Behave(w, a).book) && Behave(w, a).book.role == w.book.role
  {
    hide Sound, CleanUpAll;
    match a {
      case OpenAct(closed, exited, send) => OpenSound(w.book, closed, exited, send);
      case AcceptAct(readable) => AcceptSound(w.book, readable);
      case RaiseLimitAct(limit) => RaiseSound(w.book, limit);
      case FinishAct(_) =>
      case ReadFinAct(_) =>
      case DropAct(h) =>
        if Held(w, h) { DiscardSound(w.book, DropRecord(w.handles[h])); }
    }
  }

  lemma RaiseSound(b: Account, limit: nat)
    requires Sound(b)
    ensures Sound(Raised(b, limit))
  {
  }

  /**
   Over any run with any number of concurrent openers: IDs are handed out in strictly increasing order and
   never again, congruent to 0 modulo 4 for a client and to 1 for a server; never more of them, nor a
   higher one, than the peer's limit allows; no ID is accepted twice; every dropped stream is cleaned up once.
   */
  lemma {:induction false} EveryRunIsSound(role: Role, acts: seq<Act>)
    ensures Sound(Run(role, acts).book) && Run(role, acts).book.role == role
  {
    hide Sound, Behave;
    if acts == [] {
      NewSound(role);
    } else {
      EveryRunIsSound(role, acts[..|acts| - 1]);
      BehaveSound(Run(role, acts[..|acts| - 1]), acts[|acts| - 1]);
    }
  }

  lemma NewSound(role: Role)
    ensures Sound(NewAccount(role))
  {
  }

  /**
   However many openers ran before, no more streams are open than the peer allows.  An opener that finds
   credit gets the next ID exactly if fewer indexes were lost to failing sends than there is credit; so as
   long as no send failed for a reason of its own, the connection refuses no stream that the credit check
   let through.
   */
  lemma NeverOverAllocates(role: Role, acts: seq<Act>)
    ensures var b := Run(role, acts).book;
            && |b.openings| <= b.spent <= b.limit && b.spent <= b.nextIndex
            && (Credit(b) > 0 ==>
                  (OpenOutcomeOf(b, false, false, Taken).OpenedAt? <==> b.nextIndex - b.spent < Credit(b)))
            && (b.faults == 0 && Credit(b) > 0 ==>
                  OpenOutcomeOf(b, false, false, Taken) == OpenedAt(StreamIdAt(role, |b.openings|)))
  {
    hide Run;
    EveryRunIsSound(role, acts);
  }

  /**
   Exactly when a call of `open_stream` hands out a stream, and which: never on a closed connection nor
   once the driver has exited.
   */
  lemma OpensExactly(role: Role, acts: seq<Act>, closed: bool, driverExited: bool, send: Send)
    ensures var w, w' := Run(role, acts), Run(role, acts + [OpenAct(closed, driverExited, send)]);
            if !closed && !driverExited && Credit(w.book) > 0 && w.book.nextIndex < w.book.limit && send.Taken? then
              var id := (if role == Client then 0 else 1) + 4 * w.book.nextIndex;
              w'.handles == w.handles + [Handle(id, false, false, false)] && |w'.book.openings| == |w.book.openings| + 1
            else
              w'.handles == w.handles && w'.book.openings == w.book.openings
  {
    hide Sound, Behave;
    var act := OpenAct(closed, driverExited, send);
    assert (acts + [act])[..|acts|] == acts;
    EveryRunIsSound(role, acts);
    hide Run;
    OpeningBehaves(Run(role, acts), closed, driverExited, send);
  }

  lemma OpeningBehaves(w: World, closed: bool, driverExited: bool, send: Send)
    ensures var w' := Behave(w, OpenAct(closed, driverExited, send));
            if !closed && !driverExited && Credit(w.book) > 0 && w.book.nextIndex < w.book.limit && send.Taken? then
              && w'.handles == w.handles + [Handle(StreamIdAt(w.book.role, w.book.nextIndex), false, false, false)]
              && |w'.book.openings| == |w.book.openings| + 1
            else
              w'.handles == w.handles && w'.book.openings == w.book.openings
  {
    hide CleanUpAll, Max;
  }

  /** After one send that failed without opening its stream, an opener that finds credit can be refused. */
  lemma RefusedDespiteCredit()
    ensures var b := Run(Client, [RaiseLimitAct(1), OpenAct(false, false, Failing(false))]).book;
            Credit(b) == 1 && OpenOutcomeOf(b, false, false, Taken) == SendFailed
  {
    var raise, fail := RaiseLimitAct(1), OpenAct(false, false, Failing(false));
    assert [raise, fail][..1] == [raise] && [raise][..0] == [];
    assert Run(Client, [raise]) == Behave(Run(Client, []), raise);
  }

  //-- Dropped streams -----------------------------------------------------------------------------

  predicate LeftUnclean(h: Handle) {
    h.gone && !(h.sentFin && h.receivedFin)
  }

  /** The unclean drops are of distinct handles, with the FINs those recorded, and no unclean handle is missing. */
  ghost predicate DropsMatch(w: World) {
    && |w.owners| == |w.book.dropped|
    && (forall i, j | 0 <= i < j < |w.owners| :: w.owners[i] != w.owners[j])
    && (forall i | 0 <= i < |w.owners| ::
          w.owners[i] < |w.handles| && LeftUnclean(w.handles[w.owners[i]])
          && w.book.dropped[i] == DropRecord(w.handles[w.owners[i]]))
    && (forall h | 0 <= h < |w.handles| :: LeftUnclean(w.handles[h]) ==> h in w.owners)
  }

  lemma BehaveMatches(w: World, a: Act)
    requires DropsMatch(w)
    ensures DropsMatch(Behave(w, a))
  {
    hide CleanUpAll, Credit, OpenOutcomeOf, FirstNew;
    var w' := Behave(w, a);
    if a.DropAct? {
      DropMatches(w, a.handle);
    } else {
      assert w'.owners == w.owners && w'.book.dropped == w.book.dropped;
      forall i | 0 <= i < |w.owners| ensures w'.handles[w.owners[i]] == w.handles[w.owners[i]] {
        assert LeftUnclean(w.handles[w.owners[i]]);
      }
      forall h | 0 <= h < |w'.handles| && LeftUnclean(w'.handles[h]) ensures h in w'.owners {
        assert h < |w.handles| && LeftUnclean(w.handles[h]);
      }
    }
  }

  lemma DropMatches(w: World, handle: nat)
    requires DropsMatch(w)
    ensures DropsMatch(Behave(w, DropAct(handle)))
  {
    var w' := Behave(w, DropAct(handle));
    if w'.owners != w.owners {
      forall h | 0 <= h < |w'.handles| && LeftUnclean(w'.handles[h]) ensures h in w'.owners {
        if h == handle {
          assert w'.owners[|w.owners|] == h;
        } else {
          assert LeftUnclean(w.handles[h]);
        }
      }
    }
  }

  /**
   Across any opens, accepts, finishes, reads and drops: each stream left unclean is recorded once, as it
   was left.
   */
  lemma {:induction false} EveryRunMatches(role: Role, acts: seq<Act>)
    ensures DropsMatch(Run(role, acts))
  {
    hide DropsMatch;
    if acts == [] {
      assert DropsMatch(World(NewAccount(role), [], [])) by { NewMatches(role); }
    } else {
      EveryRunMatches(role, acts[..|acts| - 1]);
      BehaveMatches(Run(role, acts[..|acts| - 1]), acts[|acts| - 1]);
    }
  }

  lemma NewMatches(role: Role)
    ensures DropsMatch(World(NewAccount(role), [], []))
  {
  }

  /** A FIN sent or received through a handle is recorded with it, and only with it. */
  lemma FinsRecorded(w: World, h: nat)
    requires Held(w, h)
    ensures Behave(w, FinishAct(h)) == w.(handles := w.handles[h := w.handles[h].(sentFin := true)])
    ensures Behave(w, ReadFinAct(h)) == w.(handles := w.handles[h := w.handles[h].(receivedFin := true)])
    ensures Behave(w, DropAct(h)).handles == w.handles[h := w.handles[h].(gone := true)]
  {
    hide Discarded;
  }

  /** How many dropped handles left the half that `c` shuts down open. */
  function LeftOpenBy(handles: seq<Handle>, c: Shutdown): nat {
    if handles == [] then 0
    else
      var h := handles[|handles| - 1];
      LeftOpenBy(handles[..|handles| - 1], c) + if h.gone && LeftOpen(DropRecord(h), c) then 1 else 0
  }

  lemma HandleAppended(handles: seq<Handle>, h: Handle, c: Shutdown)
    requires !h.gone
    ensures LeftOpenBy(handles + [h], c) == LeftOpenBy(handles, c)
  {
    assert (handles + [h])[..|handles|] == handles;
  }

  lemma {:induction false} HandleChanged(handles: seq<Handle>, i: nat, h: Handle, c: Shutdown)
    requires i < |handles| && !handles[i].gone
    ensures LeftOpenBy(handles[i := h], c) ==
            LeftOpenBy(handles, c) + if h.gone && LeftOpen(DropRecord(h), c) then 1 else 0
  {
    hide LeftOpen;
    var n := |handles| - 1;
    if i < n {
      HandleChanged(handles[..n], i, h, c);
      assert handles[i := h][..n] == handles[..n][i := h];
    } else {
      assert handles[i := h][..n] == handles[..n];
    }
  }

  lemma UnfinishedAppended(ds: seq<Dropped>, d: Dropped, c: Shutdown)
    ensures Unfinished(ds + [d], c) == Unfinished(ds, c) + if LeftOpen(d, c) then 1 else 0
  {
    assert (ds + [d])[..|ds|] == ds;
  }

  lemma BehaveCounts(w: World, a: Act, c: Shutdown)
    requires Unfinished(w.book.dropped, c) == LeftOpenBy(w.handles, c)
    ensures Unfinished(Behave(w, a).book.dropped, c) == LeftOpenBy(Behave(w, a).handles, c)
  {
    hide Unfinished, LeftOpenBy, CleanUpAll, Credit;
    var w' := Behave(w, a);
    match a {
      case OpenAct(_, _, _) =>
        if w'.handles != w.handles { HandleAppended(w.handles, w'.handles[|w.handles|], c); }
      case AcceptAct(_) =>
        if w'.handles != w.handles { HandleAppended(w.handles, w'.handles[|w.handles|], c); }
      case RaiseLimitAct(_) =>
      case FinishAct(h) =>
        if Held(w, h) { HandleChanged(w.handles, h, w'.handles[h], c); }
      case ReadFinAct(h) =>
        if Held(w, h) { HandleChanged(w.handles, h, w'.handles[h], c); }
      case DropAct(h) =>
        if Held(w, h) {
          HandleChanged(w.handles, h, w'.handles[h], c);
          UnfinishedAppended(w.book.dropped, DropRecord(w.handles[h]), c);
        }
    }
  }

  lemma {:induction false} DropsCounted(role: Role, acts: seq<Act>, c: Shutdown)
    ensures Unfinished(Run(role, acts).book.dropped, c) == LeftOpenBy(Run(role, acts).handles, c)
  {
    hide Behave;
    if acts != [] {
      DropsCounted(role, acts[..|acts| - 1], c);
      BehaveCounts(Run(role, acts[..|acts| - 1]), acts[|acts| - 1], c);
    }
  }

  /**
   The next open or accept after any run cleans up: nothing is left pending, and each shutdown has been
   asked for exactly as often as a dropped handle left that half of that stream open, no matter how the
   FINs came about.  Nothing is shut down on account of a handle that recorded its FIN; but see `QuicFins`
   for streams with a second handle.
   */
  lemma NextDrainCleansUp(role: Role, acts: seq<Act>, a: Act, c: Shutdown)
    requires a.OpenAct? || a.AcceptAct?
    ensures var w := Run(role, acts + [a]);
            w.book.pending == [] && CountOf(w.book.shutdowns, c) == LeftOpenBy(w.handles, c)
  {
    assert (acts + [a])[..|acts|] == acts;
    EveryRunIsSound(role, acts + [a]);
    DropsCounted(role, acts + [a], c);
    DrainedAll(Run(role, acts), a);
    hide Run, Sound;
    var b := Run(role, acts + [a]).book;
    assert DrainsOnce(b) by { SoundDrains(b); }
    assert b.dropped[..|b.dropped|] == b.dropped;
    CleanUpExactly(b.dropped, c);
  }

  lemma DrainedAll(w: World, a: Act)
    requires a.OpenAct? || a.AcceptAct?
    ensures Behave(w, a).book.drained == |Behave(w, a).book.dropped| && Behave(w, a).book.pending == []
  {
    hide CleanUpAll;
  }

  lemma SoundDrains(b: Account)
    requires Sound(b)
    ensures DrainsOnce(b)
  {
  }

  //-- The state changed in place ------------------------------------------------------------------

  /** A stream handle; the FIN flags are its own. */
  class Stream {
    const id: nat
    var receivedFin: bool
    var sentFin: bool

    constructor (id: nat)
      ensures this.id == id && !receivedFin && !sentFin
    {
      this.id, receivedFin, sentFin := id, false, false;
    }
  }

  class Streams {
    const role: Role
    var nextIndex: nat
    var accepted: set<nat>
    var pending: seq<Dropped>
    // of the connection
    var limit: nat
    var spent: nat
    ghost var openings: seq<Opening>
    ghost var acceptances: seq<nat>
    ghost var dropped: seq<Dropped>
    ghost var shutdowns: seq<Shutdown>
    ghost var drained: nat
    ghost var faults: nat

    ghost function Value(): Account
      reads this
    {
      Account(role, nextIndex, accepted, pending, limit, spent,
              openings, acceptances, dropped, shutdowns, drained, faults)
    }

    constructor (role: Role)
      ensures Value() == NewAccount(role)
    {
      this.role, nextIndex, accepted, pending, limit, spent := role, 0, {}, [], 0, 0;
      openings, acceptances, dropped, shutdowns, drained, faults := [], [], [], [], 0, 0;
    }

    /** `drain_pending_shutdown`: the shutdowns asked of the connection, in order. */
    method Drain() returns (calls: seq<Shutdown>)
      modifies this`pending, this`shutdowns, this`drained
      ensures Value() == Drained(old(Value())) && calls == CleanUpAll(old(pending))
    {
      var streams := pending;
      pending := [];
      calls := [];
      for i := 0 to |streams|
        invariant calls == CleanUpAll(streams[..i]) && Value() == old(Value()).(pending := [])
      {
        assert streams[..i + 1][..i] == streams[..i];
        assert calls + CleanUp(streams[i]) ==
               calls + (if streams[i].receivedFin then [] else [Shutdown(streams[i].id, ReadHalf)])
                     + (if streams[i].sentFin then [] else [Shutdown(streams[i].id, WriteHalf)]);
        if !streams[i].receivedFin {
          calls := calls + [Shutdown(streams[i].id, ReadHalf)];
        }
        if !streams[i].sentFin {
          calls := calls + [Shutdown(streams[i].id, WriteHalf)];
        }
      }
      assert streams[..|streams|] == streams;
      shutdowns := shutdowns + calls;
      drained := |dropped|;
    }

    /** `Stream::drop`. */
    method Drop(s: Stream)
      modifies this`pending, this`dropped
      ensures Value() == Discarded(old(Value()), Dropped(s.id, s.sentFin, s.receivedFin))
    {
      if s.sentFin && s.receivedFin {
        return;
      }
      pending := pending + [Dropped(s.id, s.sentFin, s.receivedFin)];
      dropped := dropped + [Dropped(s.id, s.sentFin, s.receivedFin)];
    }

    /** The connection takes in a MAX_STREAMS frame. */
    method RaiseLimit(limit: nat)
      modifies this`limit
      ensures Value() == Raised(old(Value()), limit)
    {
      if this.limit < limit {
        this.limit := limit;
      }
    }

    method PeerStreamsLeft() returns (credit: nat)
      ensures credit == Credit(Value())
    {
      credit := if spent <= limit then limit - spent else 0;
    }

    /** The connection opens stream `n` of ours for a zero-byte send, unless that is beyond the limit. */
    method SendNothing(n: nat, send: Send) returns (ok: bool)
      modifies this`spent, this`faults
      ensures Value() == Sent(old(Value()), n, send) && ok == (n < limit && send.Taken?)
    {
      if n >= limit {
        return false;
      }
      if send.Taken? || send.opens {
        spent := Max(spent, n + 1);
      }
      if send.Failing? {
        faults := faults + 1;
      }
      return send.Taken?;
    }

    /** The locked section of `open_stream`. */
    method TryOpen(closed: bool, driverExited: bool, send: Send)
      returns (outcome: OpenOutcome, stream: Stream?)
      modifies this
      ensures Value() == OpenedFrom(old(Value()), closed, driverExited, send)
      ensures outcome == OpenOutcomeOf(old(Value()), closed, driverExited, send)
      ensures outcome.OpenedAt? <==> stream != null
      ensures stream != null ==> fresh(stream) && stream.id == outcome.id && !stream.sentFin && !stream.receivedFin
    {
      var calls := Drain();
      if closed || driverExited {
        return ConnectionClosed, null;
      }
      var credit := PeerStreamsLeft();
      if credit == 0 {
        return NoCredit, null;
      }
      var n := nextIndex;
      nextIndex := nextIndex + 1;
      var id := Base(role) + 4 * n;
      ghost var limitThen := limit;
      var sent := SendNothing(n, send);
      if !sent {
        return SendFailed, null;
      }
      openings := openings + [Opening(id, credit, limitThen)];
      stream := new Stream(id);
      return OpenedAt(id), stream;
    }

    /** The locked section of `accept_stream`: the readable streams, in the order the connection yields them. */
    method TryAccept(readable: seq<nat>) returns (stream: Stream?)
      modifies this
      ensures Value() == AcceptedFrom(old(Value()), readable)
      ensures match FirstNew(readable, old(accepted))
              case None => stream == null
              case Some(id) =>
                stream != null && fresh(stream) && stream.id == id && !stream.sentFin && !stream.receivedFin
    {
      var calls := Drain();
      var i := 0;
      while i < |readable|
        invariant 0 <= i <= |readable| && Value() == Drained(old(Value()))
        invariant FirstNew(readable, accepted) == FirstNew(readable[i..], accepted)
      {
        if readable[i] !in accepted {
          accepted := accepted + {readable[i]};
          acceptances := acceptances + [readable[i]];
          stream := new Stream(readable[i]);
          return;
        }
        assert readable[i..][1..] == readable[i + 1..];
        i := i + 1;
      }
      return null;
    }
  }

  lemma CleanUpLast(ds: seq<Dropped>)
    requires ds != []
    ensures CleanUpAll(ds) == CleanUpAll(ds[..|ds| - 1]) + CleanUp(ds[|ds| - 1])
  {
    hide CleanUp;
  }

  lemma {:induction false} CleanUpConcat(a: seq<Dropped>, b: seq<Dropped>)
    ensures CleanUpAll(a + b) == CleanUpAll(a) + CleanUpAll(b)
  {
    hide CleanUp;
    if b == [] {
      assert a + b == a;
    } else {
      var n := |b| - 1;
      CleanUpConcat(a, b[..n]);
      CleanUpLast(b);
      CleanUpLast(a + b);
      assert (a + b)[..|a| + n] == a + b[..n];
    }
  }

  function CountOf(calls: seq<Shutdown>, c: Shutdown): nat {
    if calls == [] then 0 else CountOf(calls[..|calls| - 1], c) + if calls[|calls| - 1] == c then 1 else 0
  }

  /** The half that `c` shuts down was still open when the stream was dropped. */
  predicate LeftOpen(d: Dropped, c: Shutdown) {
    d.id == c.id && !(if c.half.ReadHalf? then d.receivedFin else d.sentFin)
  }

  function Unfinished(ds: seq<Dropped>, c: Shutdown): nat {
    if ds == [] then 0 else Unfinished(ds[..|ds| - 1], c) + if LeftOpen(ds[|ds| - 1], c) then 1 else 0
  }

  /** Cleaning up asks for a half exactly as often as drops left it unfinished. */
  lemma {:induction false} CleanUpExactly(ds: seq<Dropped>, c: Shutdown)
    ensures CountOf(CleanUpAll(ds), c) == Unfinished(ds, c)
  {
    hide CleanUp, LeftOpen;
    if ds != [] {
      CleanUpExactly(ds[..|ds| - 1], c);
      CleanUpOne(CleanUpAll(ds[..|ds| - 1]), ds[|ds| - 1], c);
    }
  }

  lemma CleanUpOne(calls: seq<Shutdown>, d: Dropped, c: Shutdown)
    ensures CountOf(calls + CleanUp(d), c) == CountOf(calls, c) + if LeftOpen(d, c) then 1 else 0
  {
    hide CountOf;
    var first := if d.receivedFin then [] else [Shutdown(d.id, ReadHalf)];
    var second := if d.sentFin then [] else [Shutdown(d.id, WriteHalf)];
    assert calls + CleanUp(d) == (calls + first) + second;
    CountAppend(calls, first, c);
    CountAppend(calls + first, second, c);
  }

  lemma CountAppend(calls: seq<Shutdown>, more: seq<Shutdown>, c: Shutdown)
    requires |more| <= 1
    ensures CountOf(calls + more, c) == CountOf(calls, c) + if more != [] && more[0] == c then 1 else 0
  {
    if more == [] {
      assert calls + more == calls;
    } else {
      assert (calls + more)[..|calls|] == calls;
    }
  }
}
