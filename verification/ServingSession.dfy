/**
 The serving session (serving.rs): nested serve, reconnect and wait loops that keep answering commands,
 proved against a flat state machine over the same events.
 */
module ServingSession {
  import opened Prelude
  import opened Endorsing
  import opened EndorsementLedger

  datatype Command =
    | StatusCommand
    | GenerateCommand(ttl: nat, secret: Bytes)
    | ShutdownCommand

  datatype HubRequest =
    | PairRequested(message: PairMessage, ourNonce: Bytes)
    | CosignRequested(request: CosignRequest)
    | OtherRequest

  /** What a `select!` can see happen; `at` is when. */
  datatype Event =
    | Commanded(at: int, command: Command)
    | HandlesDropped
    | CheckInTick
    | Requested(at: int, hub: HubRequest)
    | StreamEnded
    | StreamFailed(unauthenticated: bool)
    | Connected
    | ConnectFailed(unauthenticated: bool)
    | SleepOver

  //-- The flat machine ----------------------------------------------------------------------------

  /** `failures` counts the failed attempts since the stream was lost. */
  datatype Phase =
    | Serving
    | Connecting(failures: nat)
    | Sleeping(failures: nat)
    | EndedOk
    | EndedErr

  datatype Machine = Machine(phase: Phase, endorsing: State)

  const START := Machine(Serving, State([], map[]))

  predicate Live(p: Phase) {
    p.Serving? || p.Connecting? || p.Sleeping?
  }

  /** The local state after a command, and after a hub request. */
  function Obey(e: Endorser, st: State, at: int, c: Command): State {
    if c.GenerateCommand? then Apply(e, st, TimedCall(at, GenerateCall(c.ttl, c.secret))) else st
  }

  function Serve(e: Endorser, st: State, at: int, q: HubRequest): State {
    match q
    case PairRequested(m, nonce) => Apply(e, st, TimedCall(at, PairCall(m, nonce)))
    case CosignRequested(r) => Apply(e, st, TimedCall(at, CosignCall(r)))
    case OtherRequest => st
  }

  /** One event; an event that the current `select!` does not wait for changes nothing. */
  function Step(e: Endorser, m: Machine, ev: Event): Machine {
    if !Live(m.phase) then m
    else match ev
      case Commanded(at, c) =>
        if c.ShutdownCommand? then m.(phase := EndedOk) else m.(endorsing := Obey(e, m.endorsing, at, c))
      case HandlesDropped => m.(phase := EndedOk)
      case CheckInTick => m
      case Requested(at, q) => if m.phase.Serving? then m.(endorsing := Serve(e, m.endorsing, at, q)) else m
      case StreamEnded => if m.phase.Serving? then m.(phase := Connecting(0)) else m
      case StreamFailed(unauthenticated) =>
        if !m.phase.Serving? then m else m.(phase := if unauthenticated then EndedErr else Connecting(0))
      case Connected => if m.phase.Connecting? then m.(phase := Serving) else m
      case ConnectFailed(unauthenticated) =>
        if !m.phase.Connecting? then m
        else m.(phase := if unauthenticated then EndedErr else Sleeping(m.phase.failures + 1))
      case SleepOver => if m.phase.Sleeping? then m.(phase := Connecting(m.phase.failures)) else m
  }

  function After(e: Endorser, events: seq<Event>): Machine {
    if events == [] then START else Step(e, After(e, events[..|events| - 1]), events[|events| - 1])
  }

  //-- The backoff ---------------------------------------------------------------------------------

  function Pow2(n: nat): nat {
    if n == 0 then 1 else 2 * Pow2(n - 1)
  }

  /** The base delay after the k-th failure (counted from 0), in seconds. */
  function BaseDelay(k: nat): nat {
    if Pow2(k) < 30 then Pow2(k) else 30
  }

  /** A random factor, drawn anew for every wait. */
  type Jitter = j: real | 0.8 <= j < 1.2 witness 1.0

  class ReconnectBackoff {
    var current: nat
    ghost var calls: nat

    ghost predicate Valid()
      reads this
    {
      current == BaseDelay(calls)
    }

    constructor ()
      ensures Valid() && calls == 0
    {
      current, calls := 1, 0;
    }

    /** The base delay of this call and the delay with jitter; then the schedule advances. */
    method NextDelay(jitter: Jitter) returns (base: nat, delay: real)
      requires Valid()
      modifies this
      ensures Valid() && calls == old(calls) + 1
      ensures base == BaseDelay(old(calls))
      ensures Within20Percent(base as real, delay)
    {
      base := current;
      current := if current * 2 < 30 then current * 2 else 30;
      calls := calls + 1;
      PositiveDelay(calls - 1);
      delay := Jittered(base as real, jitter);
    }
  }

  predicate Within20Percent(base: real, delay: real) {
    0.8 * base <= delay < 1.2 * base
  }

  function Jittered(base: real, jitter: Jitter): (delay: real)
    requires base > 0.0
    ensures Within20Percent(base, delay)
  {
    assert base * (jitter - 0.8) >= 0.0 && base * (1.2 - jitter) > 0.0;
    base * jitter
  }

  lemma {:induction false} PositiveDelay(k: nat)
    ensures BaseDelay(k) >= 1
  {
    if k > 0 { PositiveDelay(k - 1); }
  }

  //-- The session ---------------------------------------------------------------------------------

  datatype ServeOutcome = ServeShutdown | ServeDisconnected | ServeFatal | ServeStarved

  datatype ConnectOutcome = ConnectConnected | ConnectShutdown | ConnectFatal | ConnectStarved

  /** How `run` ends; `StillRunning` if the events run out first. */
  datatype RunOutcome = RunOk | RunErr | StillRunning

  class Session {
    const e: Endorser
    const events: seq<Event>   // everything that will happen to the session
    var next: nat              // how much of it has
    const endorsing: EndorsingState
    var connected: bool
    ghost var delays: seq<nat> // base delays slept since the last disconnect

    ghost predicate Follows()
      reads this, endorsing
    {
      next <= |events| && endorsing.Value() == After(e, events[..next]).endorsing
    }

    ghost function PhaseNow(): Phase
      reads this
      requires next <= |events|
    {
      After(e, events[..next]).phase
    }

    constructor (e: Endorser, events: seq<Event>)
      ensures Follows() && next == 0 && PhaseNow() == Serving && this.e == e && this.events == events
      ensures fresh(endorsing)
    {
      this.e, this.events, this.next := e, events, 0;
      this.endorsing := new EndorsingState();
      this.connected := false;
      this.delays := [];
    }

    lemma Advance()
      requires next < |events|
      ensures After(e, events[..next + 1]) == Step(e, After(e, events[..next]), events[next])
    {
      assert events[..next + 1][..next] == events[..next];
    }

    /** `dispatch_command`: whether to break; `None` stands for a closed channel. */
    method DispatchCommand(at: int, command: Option<Command>) returns (stop: bool)
      modifies endorsing
      ensures stop <==> command.None? || command.value.ShutdownCommand?
      ensures endorsing.Value() ==
              if command.Some? then Obey(e, old(endorsing.Value()), at, command.value) else old(endorsing.Value())
    {
      match command {
        case None => return true;
        case Some(StatusCommand) => return false;
        case Some(GenerateCommand(ttl, secret)) =>
          var code := endorsing.GenerateActivationCode(e.number, at, ttl, secret);
          return false;
        case Some(ShutdownCommand) => return true;
      }
    }

    method HandleHubRequest(at: int, q: HubRequest)
      modifies endorsing
      ensures endorsing.Value() == Serve(e, old(endorsing.Value()), at, q)
    {
      match q {
        case PairRequested(m, nonce) => var reply := endorsing.PairNodes(e.pairer, at, m, e.number, e.sk, nonce);
        case CosignRequested(r) => var signature := endorsing.RosterCosign(e.pairer, r, e.number, e.sk);
        case OtherRequest =>
      }
    }

    method ServeLoop() returns (outcome: ServeOutcome)
      requires Follows() && PhaseNow() == Serving
      modifies this`next, endorsing
      ensures Follows() && next >= old(next)
      ensures match outcome
              case ServeShutdown => PhaseNow() == EndedOk
              case ServeFatal => PhaseNow() == EndedErr
              case ServeDisconnected => PhaseNow() == Connecting(0) && next > old(next)
              case ServeStarved => PhaseNow() == Serving && next == |events|
    {
      while next < |events|
        invariant Follows() && PhaseNow() == Serving && next >= old(next)
        decreases |events| - next
      {
        Advance();
        var ev := events[next];
        next := next + 1;
        match ev {
          case Commanded(at, command) =>
            var stop := DispatchCommand(at, Some(command));
            if stop { return ServeShutdown; }
          case HandlesDropped =>
            var stop := DispatchCommand(0, None);
            if stop { return ServeShutdown; }
          case CheckInTick =>
          case Requested(at, q) => HandleHubRequest(at, q);
          case StreamEnded => return ServeDisconnected;
          case StreamFailed(unauthenticated) =>
            return if unauthenticated then ServeFatal else ServeDisconnected;
          case Connected =>
          case ConnectFailed(_) =>
          case SleepOver =>
        }
      }
      return ServeStarved;
    }

    /** The race of one connection attempt against commands: its result, or that the session must stop. */
    method Attempt(ghost failures: nat) returns (result: Option<Event>, stop: bool)
      requires Follows() && PhaseNow() == Connecting(failures)
      modifies this`next, endorsing
      ensures Follows() && next >= old(next)
      ensures stop ==> PhaseNow() == EndedOk
      ensures !stop && result.None? ==> PhaseNow() == Connecting(failures) && next == |events|
      ensures !stop && result.Some? ==>
                && next > old(next)
                && match result.value
                   case Connected => PhaseNow() == Serving
                   case ConnectFailed(unauthenticated) =>
                     PhaseNow() == if unauthenticated then EndedErr else Sleeping(failures + 1)
                   case _ => false
    {
      while next < |events|
        invariant Follows() && PhaseNow() == Connecting(failures) && next >= old(next)
        decreases |events| - next
      {
        Advance();
        var ev := events[next];
        next := next + 1;
        match ev {
          case Connected => return Some(ev), false;
          case ConnectFailed(_) => return Some(ev), false;
          case Commanded(at, command) =>
            stop := DispatchCommand(at, Some(command));
            if stop { return None, true; }
          case HandlesDropped =>
            stop := DispatchCommand(0, None);
            if stop { return None, true; }
          case _ =>
        }
      }
      return None, false;
    }

    /** `wait_while_servicing_commands`: whether the sleep ended, or that the session must stop. */
    method WaitWhileServicingCommands(ghost failures: nat) returns (slept: bool, stop: bool)
      requires Follows() && PhaseNow() == Sleeping(failures)
      modifies this`next, endorsing
      ensures Follows() && next >= old(next)
      ensures stop ==> PhaseNow() == EndedOk
      ensures !stop ==> PhaseNow() == if slept then Connecting(failures) else Sleeping(failures)
      ensures !stop && !slept ==> next == |events|
    {
      while next < |events|
        invariant Follows() && PhaseNow() == Sleeping(failures) && next >= old(next)
        decreases |events| - next
      {
        Advance();
        var ev := events[next];
        next := next + 1;
        match ev {
          case SleepOver => return true, false;
          case Commanded(at, command) =>
            stop := DispatchCommand(at, Some(command));
            if stop { return false, true; }
          case HandlesDropped =>
            stop := DispatchCommand(0, None);
            if stop { return false, true; }
          case _ =>
        }
      }
      return false, false;
    }

    /** The k-th wait has base delay min(2^k, 30) seconds, counting from 0 at each disconnect. */
    ghost predicate OnSchedule()
      reads this
    {
      forall k | 0 <= k < |delays| :: delays[k] == BaseDelay(k)
    }

    /** `draws` gives the random factor for a wait that begins after so many events. */
    method Reconnect(draws: nat -> Jitter) returns (outcome: ConnectOutcome)
      requires Follows() && PhaseNow() == Connecting(0)
      modifies this`next, this`delays, endorsing
      ensures Follows() && next >= old(next) && OnSchedule()
      ensures match outcome
              case ConnectConnected => PhaseNow() == Serving && next > old(next)
              case ConnectShutdown => PhaseNow() == EndedOk
              case ConnectFatal => PhaseNow() == EndedErr
              case ConnectStarved => (PhaseNow().Connecting? || PhaseNow().Sleeping?) && next == |events|
    {
      hide After, BaseDelay, Within20Percent;
      var backoff := new ReconnectBackoff();
      delays := [];
      while true
        invariant fresh(backoff) && backoff.Valid() && backoff.calls == |delays|
        invariant Follows() && PhaseNow() == Connecting(|delays|) && next >= old(next) && OnSchedule()
        decreases |events| - next
      {
        ghost var failures := |delays|;
        var result, stop := Attempt(failures);
        if stop { return ConnectShutdown; }
        if result.None? { return ConnectStarved; }
        if result.value.Connected? { return ConnectConnected; }
        if result.value.unauthenticated { return ConnectFatal; }
        var base, delay := backoff.NextDelay(draws(next));
        delays := delays + [base];
        var slept;
        slept, stop := WaitWhileServicingCommands(failures + 1);
        if stop { return ConnectShutdown; }
        if !slept { return ConnectStarved; }
      }
    }

    /** `run`, up to the end of the events. */
    method RunSession(draws: nat -> Jitter) returns (outcome: RunOutcome)
      requires Follows() && next == 0
      modifies this, endorsing
      ensures Follows() && endorsing.Value() == After(e, events).endorsing
      ensures match outcome
              case RunOk => After(e, events).phase == EndedOk
              case RunErr => After(e, events).phase == EndedErr
              case StillRunning => Live(After(e, events).phase)
    {
      connected := true;
      assert events[..0] == [];
      while true
        invariant Follows() && PhaseNow() == Serving
        decreases |events| - next
      {
        var served := ServeLoop();
        if served == ServeStarved { assert events[..next] == events; return StillRunning; }
        if served == ServeShutdown { EndsForGood(e, events, next); return RunOk; }
        if served == ServeFatal { EndsForGood(e, events, next); return RunErr; }
        connected := false;
        var reconnected := Reconnect(draws);
        if reconnected == ConnectStarved { assert events[..next] == events; return StillRunning; }
        if reconnected == ConnectShutdown { EndsForGood(e, events, next); return RunOk; }
        if reconnected == ConnectFatal { EndsForGood(e, events, next); return RunErr; }
        connected := true;
      }
    }
  }

  /** A session that has ended stays ended. */
  lemma {:induction false} EndsForGood(e: Endorser, events: seq<Event>, n: nat)
    requires n <= |events| && !Live(After(e, events[..n]).phase)
    ensures After(e, events) == After(e, events[..n])
  {
    if n == |events| {
      assert events[..n] == events;
    } else {
      var front := events[..|events| - 1];
      assert front[..n] == events[..n];
      EndsForGood(e, front, n);
    }
  }

  //-- What every run does -------------------------------------------------------------------------

  /** The endorser's calls that the events make. */
  function CallOf(m: Machine, ev: Event): seq<TimedCall> {
    if !Live(m.phase) then []
    else match ev
      case Commanded(at, GenerateCommand(ttl, secret)) => [TimedCall(at, GenerateCall(ttl, secret))]
      case Requested(at, PairRequested(msg, nonce)) =>
        if m.phase.Serving? then [TimedCall(at, PairCall(msg, nonce))] else []
      case Requested(at, CosignRequested(q)) => if m.phase.Serving? then [TimedCall(at, CosignCall(q))] else []
      case _ => []
  }

  function Calls(e: Endorser, events: seq<Event>): seq<TimedCall> {
    if events == [] then []
    else Calls(e, events[..|events| - 1]) + CallOf(After(e, events[..|events| - 1]), events[|events| - 1])
  }

  lemma {:induction false} SessionRunsEndorser(e: Endorser, events: seq<Event>)
    ensures After(e, events).endorsing == RunState(e, Calls(e, events))
  {
    hide Apply, Step, CallOf;
    if events != [] {
      var front := events[..|events| - 1];
      SessionRunsEndorser(e, front);
      var calls, more := Calls(e, front), CallOf(After(e, front), events[|events| - 1]);
      StepCalls(e, After(e, front), events[|events| - 1]);
      if more == [] {
        assert calls + more == calls;
      } else {
        assert (calls + more)[..|calls|] == calls;
      }
    }
  }

  lemma StepCalls(e: Endorser, m: Machine, ev: Event)
    ensures |CallOf(m, ev)| <= 1
    ensures Step(e, m, ev).endorsing ==
            if CallOf(m, ev) == [] then m.endorsing else Apply(e, m.endorsing, CallOf(m, ev)[0])
  {
    hide Apply;
  }

  /** Codes and pending endorsements never exceed the cap, also for commands answered while disconnected. */
  lemma CapHoldsAlways(e: Endorser, events: seq<Event>)
    ensures WithinCap(After(e, events).endorsing)
    ensures Sound(e, After(e, events).endorsing, Run(e, Calls(e, events)))
  {
    SessionRunsEndorser(e, events);
    EveryRunIsSound(e, Calls(e, events));
  }

  /** What ends a live session well: a shutdown command, or the last handle dropped. */
  predicate StopsWell(p: Phase, ev: Event) {
    Live(p) && (ev.HandlesDropped? || (ev.Commanded? && ev.command.ShutdownCommand?))
  }

  /** What ends it badly: the hub rejecting our credentials, on the stream or on an attempt. */
  predicate StopsBadly(p: Phase, ev: Event) {
    (p.Serving? && ev == StreamFailed(true)) || (p.Connecting? && ev == ConnectFailed(true))
  }

  lemma StepEnds(e: Endorser, m: Machine, ev: Event)
    ensures Step(e, m, ev).phase == EndedOk <==> m.phase == EndedOk || StopsWell(m.phase, ev)
    ensures Step(e, m, ev).phase == EndedErr <==> m.phase == EndedErr || StopsBadly(m.phase, ev)
  {
  }

  predicate StopsWellAt(e: Endorser, events: seq<Event>, k: nat)
    requires k < |events|
  {
    StopsWell(After(e, events[..k]).phase, events[k])
  }

  predicate StopsBadlyAt(e: Endorser, events: seq<Event>, k: nat)
    requires k < |events|
  {
    StopsBadly(After(e, events[..k]).phase, events[k])
  }

  lemma SameStops(e: Endorser, events: seq<Event>, k: nat)
    requires k < |events| - 1
    ensures StopsWellAt(e, events[..|events| - 1], k) <==> StopsWellAt(e, events, k)
    ensures StopsBadlyAt(e, events[..|events| - 1], k) <==> StopsBadlyAt(e, events, k)
  {
    assert events[..|events| - 1][..k] == events[..k];
  }

  lemma LastStep(e: Endorser, events: seq<Event>)
    requires events != []
    ensures var m, n := After(e, events[..|events| - 1]), |events| - 1;
            && (After(e, events).phase == EndedOk <==> m.phase == EndedOk || StopsWellAt(e, events, n))
            && (After(e, events).phase == EndedErr <==> m.phase == EndedErr || StopsBadlyAt(e, events, n))
  {
    StepEnds(e, After(e, events[..|events| - 1]), events[|events| - 1]);
  }

  /**
   `run` ends with success exactly after a shutdown or a closed channel, and with an error exactly after a
   rejection.
   */
  lemma {:induction false} EndsExactly(e: Endorser, events: seq<Event>)
    ensures After(e, events).phase == EndedOk <==> exists k | 0 <= k < |events| :: StopsWellAt(e, events, k)
    ensures After(e, events).phase == EndedErr <==> exists k | 0 <= k < |events| :: StopsBadlyAt(e, events, k)
  {
    if events != [] {
      var front := events[..|events| - 1];
      EndsExactly(e, front);
      LastStep(e, events);
      hide After, StopsWellAt, StopsBadlyAt;
      forall k | 0 <= k < |front|
        ensures StopsWellAt(e, front, k) <==> StopsWellAt(e, events, k)
        ensures StopsBadlyAt(e, front, k) <==> StopsBadlyAt(e, events, k)
      {
        SameStops(e, events, k);
      }
    }
  }

  /** A live session loses its stream for a reason other than a rejection. */
  predicate LosesStreamAt(e: Endorser, events: seq<Event>, k: nat)
    requires k < |events|
  {
    After(e, events[..k]).phase.Serving? && (events[k].StreamEnded? || events[k] == StreamFailed(false))
  }

  predicate ConnectsAt(e: Endorser, events: seq<Event>, k: nat)
    requires k < |events|
  {
    After(e, events[..k]).phase.Connecting? && events[k].Connected?
  }

  /** The stream was lost at some point and no attempt has succeeded since. */
  ghost predicate Disconnected(e: Endorser, events: seq<Event>) {
    exists k :: 0 <= k < |events| && LosesStreamAt(e, events, k)
      && forall j | k < j < |events| :: !ConnectsAt(e, events, j)
  }

  lemma SameStream(e: Endorser, events: seq<Event>, k: nat)
    requires k < |events| - 1
    ensures LosesStreamAt(e, events[..|events| - 1], k) <==> LosesStreamAt(e, events, k)
    ensures ConnectsAt(e, events[..|events| - 1], k) <==> ConnectsAt(e, events, k)
  {
    assert events[..|events| - 1][..k] == events[..k];
  }

  lemma DisconnectedNext(e: Endorser, events: seq<Event>)
    requires events != []
    ensures var front, n := events[..|events| - 1], |events| - 1;
            Disconnected(e, events) <==>
            LosesStreamAt(e, events, n) || (Disconnected(e, front) && !ConnectsAt(e, events, n))
  {
    hide LosesStreamAt, ConnectsAt;
    var front, n := events[..|events| - 1], |events| - 1;
    forall k | 0 <= k < n
      ensures LosesStreamAt(e, front, k) <==> LosesStreamAt(e, events, k)
      ensures ConnectsAt(e, front, k) <==> ConnectsAt(e, events, k)
    {
      SameStream(e, events, k);
    }
    if LosesStreamAt(e, events, n) {
      assert Disconnected(e, events);
    } else {
      if Disconnected(e, events) {
        var k :| 0 <= k < |events| && LosesStreamAt(e, events, k)
                 && forall j | k < j < |events| :: !ConnectsAt(e, events, j);
        assert LosesStreamAt(e, front, k) && forall j | k < j < n :: !ConnectsAt(e, front, j);
      }
      if Disconnected(e, front) && !ConnectsAt(e, events, n) {
        var k :| 0 <= k < n && LosesStreamAt(e, front, k) && forall j | k < j < n :: !ConnectsAt(e, front, j);
        assert LosesStreamAt(e, events, k);
      }
    }
  }

  /** What it takes to serve again: the wait to pass, if there is one, and an attempt to succeed. */
  function Recovery(p: Phase): seq<Event> {
    match p
    case Connecting(_) => [Connected]
    case Sleeping(_) => [SleepOver, Connected]
    case _ => []
  }

  /**
   In every run, every failure but a rejection leads back to reconnecting: a live session is away from
   its stream exactly from losing it until an attempt succeeds, however many attempts fail in between, and
   one success, after the wait if one is on, has it serving again with nothing forgotten.
   */
  lemma {:induction false} OtherFailuresReconnect(e: Endorser, events: seq<Event>)
    requires Live(After(e, events).phase)
    ensures !After(e, events).phase.Serving? <==> Disconnected(e, events)
    ensures After(e, events + Recovery(After(e, events).phase)) == Machine(Serving, After(e, events).endorsing)
  {
    if events != [] {
      var front := events[..|events| - 1];
      OtherFailuresReconnect(e, front);
      DisconnectedNext(e, events);
    }
    Recovers(e, events);
  }

  lemma Recovers(e: Endorser, events: seq<Event>)
    requires Live(After(e, events).phase)
    ensures After(e, events + Recovery(After(e, events).phase)) == Machine(Serving, After(e, events).endorsing)
  {
    var more := Recovery(After(e, events).phase);
    if more == [] {
      assert events + more == events;
    } else {
      assert (events + more)[..|events| + |more| - 1] == events + more[..|more| - 1];
      if |more| == 1 {
        assert events + more[..0] == events;
      } else {
        assert (events + [SleepOver])[..|events|] == events;
      }
    }
  }

  /**
   Commands are served in every live phase, on the stream or off it: a code given out is outstanding
   afterwards, and neither it nor a status request disturbs the connection.
   */
  lemma CommandsAlwaysServed(e: Endorser, events: seq<Event>, at: int, ttl: nat, secret: Bytes)
    requires Live(After(e, events).phase)
    ensures var m := After(e, events);
            var m' := After(e, events + [Commanded(at, GenerateCommand(ttl, secret))]);
            && m'.phase == m.phase && m'.endorsing.pending == m.endorsing.pending
            && (|Unexpired(m.endorsing.secrets, at)| + |m.endorsing.pending| < 100 ==>
                  m'.endorsing.secrets == Unexpired(m.endorsing.secrets, at) + [TimedSecret(secret, at + ttl)])
    ensures After(e, events + [Commanded(at, StatusCommand)]) == After(e, events)
  {
    hide Unexpired;
    var generate, status := Commanded(at, GenerateCommand(ttl, secret)), Commanded(at, StatusCommand);
    assert (events + [generate])[..|events|] == events && (events + [status])[..|events|] == events;
  }

  /** The delays: 1, 2, 4, 8 and 16 seconds, and 30 from then on. */
  lemma DelaysDouble(k: nat)
    ensures BaseDelay(k) == if k < 5 then [1, 2, 4, 8, 16][k] else 30
  {
    if k >= 5 {
      PowGrows(k);
    }
    assert Pow2(1) == 2 && Pow2(2) == 4 && Pow2(3) == 8 && Pow2(4) == 16;
  }

  lemma {:induction false} PowGrows(k: nat)
    requires k >= 5
    ensures Pow2(k) >= 32
  {
    if k > 5 {
      PowGrows(k - 1);
    } else {
      assert Pow2(2) == 4 && Pow2(4) == 16;
    }
  }

  /** What is not waited for in a phase changes nothing: no hub traffic off the stream, no attempt's result on it. */
  lemma UnpolledIgnored(e: Endorser, events: seq<Event>, ev: Event)
    requires var p := After(e, events).phase;
             || (!p.Serving? && (ev.Requested? || ev.StreamEnded? || ev.StreamFailed?))
             || (!p.Connecting? && (ev.Connected? || ev.ConnectFailed?))
             || (!p.Sleeping? && ev.SleepOver?) || ev.CheckInTick?
    ensures After(e, events + [ev]) == After(e, events)
  {
    assert (events + [ev])[..|events|] == events;
  }

  /** The attempts that failed since the stream was last up. */
  function FailedSince(e: Endorser, events: seq<Event>): nat {
    if events == [] then 0
    else
      var front := events[..|events| - 1];
      var p := After(e, front).phase;
      if p.Serving? then 0
      else FailedSince(e, front) + if p.Connecting? && events[|events| - 1] == ConnectFailed(false) then 1 else 0
  }

  /** In every run the schedule of waits goes by the number of failures since the stream was lost. */
  lemma {:induction false} FailuresCounted(e: Endorser, events: seq<Event>)
    ensures var p := After(e, events).phase; p.Connecting? || p.Sleeping? ==> p.failures == FailedSince(e, events)
  {
    hide Apply, Obey, Serve;
    if events != [] {
      FailuresCounted(e, events[..|events| - 1]);
    }
  }
}
