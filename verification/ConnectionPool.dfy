/**
 The pool of QUIC connections behind the proxies (proxy_common.rs): callers share one connection per
 target through a once-cell, evict the cell of a connection that proved dead, and retry once, while idle
 connections are cleaned up.  Every interleaving of the callers' atomic sections is a run.
 */
module ConnectionPools {
  import opened Prelude

  type Target = int
  type CallId = nat
  type CellId = nat
  type Connection = nat

  /** In milliseconds. */
  const IDLE_TIMEOUT := 60_000

  /** A once-cell: one caller at a time may be setting it up; if that fails it is empty again. */
  datatype CellState = Empty | Initialising(call: CallId) | Ready(connection: Connection)

  datatype Entry = Entry(cell: CellId, lastUsed: int)

  /** `cells` are all the once-cells ever made, in the order they were made. */
  datatype Pool = Pool(entries: map<Target, Entry>, cells: seq<CellState>)

  //-- What each locked section does ---------------------------------------------------------------

  function CheckedOut(p: Pool, t: Target, now: int): Pool {
    if t in p.entries then p.(entries := p.entries[t := p.entries[t].(lastUsed := now)])
    else Pool(p.entries[t := Entry(|p.cells|, now)], p.cells + [Empty])
  }

  function Evicted(p: Pool, t: Target, k: CellId): Pool {
    if t in p.entries && p.entries[t].cell == k then p.(entries := p.entries - {t}) else p
  }

  predicate Keeps(p: Pool, e: Entry, now: int) {
    now - e.lastUsed < IDLE_TIMEOUT || !(e.cell < |p.cells| && p.cells[e.cell].Ready?)
  }

  function Cleaned(p: Pool, now: int): Pool {
    p.(entries := map t | t in p.entries && Keeps(p, p.entries[t], now) :: p.entries[t])
  }

  function WithCell(p: Pool, k: CellId, s: CellState): Pool
    requires k < |p.cells|
  {
    p.(cells := p.cells[k := s])
  }

  //-- Calls, interleaved --------------------------------------------------------------------------

  datatype Outcome = Opened(connection: Connection) | ConnectFailed | StreamFailed | Cancelled

  /** Where a call of `open_stream` is; `dead` are the cells whose connection it saw fail. */
  datatype Call =
    | Starting(target: Target, dead: seq<CellId>)
    | Holding(target: Target, dead: seq<CellId>, cell: CellId)
    | Connecting(target: Target, dead: seq<CellId>, cell: CellId)
    | Opening(target: Target, dead: seq<CellId>, cell: CellId, connection: Connection)
    | Failing(target: Target, dead: seq<CellId>, cell: CellId)
    | Returned(target: Target, dead: seq<CellId>, outcome: Outcome)

  datatype Event =
    | Used(target: Target, now: int)
    | Established(cell: CellId)
    | OpenFailed(call: CallId, cell: CellId)
    | Eviction(call: CallId, cell: CellId)
    | Expiry(entries: map<Target, Entry>)

  /** `homes[k]` is the target that cell `k` was made for. */
  datatype World = World(pool: Pool, homes: seq<Target>, calls: map<CallId, Call>, log: seq<Event>)

  datatype Step =
    | Begin(call: CallId, target: Target)
    | Checkout(call: CallId, now: int)
    | StartConnecting(call: CallId)
    | UseReady(call: CallId)
    | Connected(call: CallId, connection: Connection)
    | FailToConnect(call: CallId)
    | OpenStream(call: CallId)
    | FailToOpen(call: CallId)
    | Evict(call: CallId)
    | Cancel(call: CallId)
    | CleanUpIdle(now: int)

  function Next(w: World, step: Step): World {
    match step
    case Begin(c, t) => if c in w.calls then w else w.(calls := w.calls[c := Starting(t, [])])
    case CleanUpIdle(now) =>
      var after := Cleaned(w.pool, now);
      w.(pool := after, log := w.log + [Expiry(w.pool.entries - after.entries.Keys)])
    case _ => if step.call in w.calls then CallStep(w, step.call, w.calls[step.call], step) else w
  }

  /** One atomic section of an ongoing call `a`; a section whose turn it is not changes nothing. */
  function CallStep(w: World, c: CallId, a: Call, step: Step): World {
    match step
    case Checkout(_, now) =>
      if !a.Starting? then w else
      var after := CheckedOut(w.pool, a.target, now);
      w.(pool := after,
         homes := if a.target in w.pool.entries then w.homes else w.homes + [a.target],
         calls := w.calls[c := Holding(a.target, a.dead, after.entries[a.target].cell)],
         log := w.log + [Used(a.target, now)])
    case StartConnecting(_) =>
      if a.Holding? && a.cell < |w.pool.cells| && w.pool.cells[a.cell].Empty? then
        w.(pool := WithCell(w.pool, a.cell, Initialising(c)),
           calls := w.calls[c := Connecting(a.target, a.dead, a.cell)])
      else w
    case UseReady(_) =>
      if a.Holding? && a.cell < |w.pool.cells| && w.pool.cells[a.cell].Ready? then
        w.(calls := w.calls[c := Opening(a.target, a.dead, a.cell, w.pool.cells[a.cell].connection)])
      else w
    case Connected(_, connection) =>
      if a.Connecting? && a.cell < |w.pool.cells| then
        w.(pool := WithCell(w.pool, a.cell, Ready(connection)),
           calls := w.calls[c := Opening(a.target, a.dead, a.cell, connection)],
           log := w.log + [Established(a.cell)])
      else w
    case FailToConnect(_) =>
      if a.Connecting? && a.cell < |w.pool.cells| then
        w.(pool := WithCell(w.pool, a.cell, Empty), calls := w.calls[c := Returned(a.target, a.dead, ConnectFailed)])
      else w
    case OpenStream(_) =>
      if a.Opening? then w.(calls := w.calls[c := Returned(a.target, a.dead, Opened(a.connection))]) else w
    case FailToOpen(_) =>
      if a.Opening? then
        w.(calls := w.calls[c := Failing(a.target, a.dead, a.cell)], log := w.log + [OpenFailed(c, a.cell)])
      else w
    case Evict(_) =>
      if !a.Failing? then w else
      var after := Evicted(w.pool, a.target, a.cell);
      var dead := a.dead + [a.cell];
      w.(pool := after,
         calls := w.calls[c := if |dead| < 2 then Starting(a.target, dead) else Returned(a.target, dead, StreamFailed)],
         log := if after == w.pool then w.log else w.log + [Eviction(c, a.cell)])
    case Cancel(_) =>
      if a.Returned? then w
      else if a.Connecting? && a.cell < |w.pool.cells| then
        w.(pool := WithCell(w.pool, a.cell, Empty), calls := w.calls[c := Returned(a.target, a.dead, Cancelled)])
      else w.(calls := w.calls[c := Returned(a.target, a.dead, Cancelled)])
    case _ => w
  }

  const NO_CALLS := World(Pool(map[], []), [], map[], [])

  function Run(steps: seq<Step>): World {
    RunFrom(NO_CALLS, steps)
  }

  function RunFrom(w: World, steps: seq<Step>): World {
    if steps == [] then w else Next(RunFrom(w, steps[..|steps| - 1]), steps[|steps| - 1])
  }

  //-- The invariant -------------------------------------------------------------------------------

  /** Cell `k` is the one in the map for its target. */
  predicate Cached(p: Pool, homes: seq<Target>, k: CellId)
    requires k < |homes|
  {
    homes[k] in p.entries && p.entries[homes[k]].cell == k
  }

  ghost predicate CellsSound(p: Pool, homes: seq<Target>) {
    && |homes| == |p.cells|
    && (forall t | t in p.entries :: p.entries[t].cell < |homes| && homes[p.entries[t].cell] == t)
    // a cell absent from the map holds a connection
    && (forall k | 0 <= k < |homes| :: !Cached(p, homes, k) ==> p.cells[k].Ready?)
    // the cell in the map is the newest of its target
    && (forall k | 0 <= k < |homes| :: homes[k] in p.entries ==> k <= p.entries[homes[k]].cell)
  }

  /** A cell being initialised has a caller at it. */
  ghost predicate Occupied(w: World) {
    forall k | 0 <= k < |w.pool.cells| && w.pool.cells[k].Initialising? ::
      var c := w.pool.cells[k].call; c in w.calls && w.calls[c].Connecting? && w.calls[c].cell == k
  }

  predicate HasCell(a: Call) {
    a.Holding? || a.Connecting? || a.Opening? || a.Failing?
  }

  /**
   What a call has seen: cells of its target, each newer than the one before, none of which is in the map
   any more.
   */
  ghost predicate CallSound(w: World, c: CallId, a: Call)
    requires |w.homes| == |w.pool.cells|
  {
    && (forall i | 0 <= i < |a.dead| ::
          a.dead[i] < |w.homes| && w.homes[a.dead[i]] == a.target && !Cached(w.pool, w.homes, a.dead[i])
          && OpenFailed(c, a.dead[i]) in w.log)
    && (forall i, j | 0 <= i < j < |a.dead| :: a.dead[i] < a.dead[j])
    && (a.Returned? || |a.dead| <= 1)
    && (a.Returned? ==> (|a.dead| == 2 <==> a.outcome.StreamFailed?))
    && |a.dead| <= 2
    && (HasCell(a) ==>
          && a.cell < |w.homes| && w.homes[a.cell] == a.target
          && (forall i | 0 <= i < |a.dead| :: a.dead[i] < a.cell))
    && (a.Connecting? ==> w.pool.cells[a.cell] == Initialising(c))
    && (a.Opening? ==> w.pool.cells[a.cell] == Ready(a.connection))
    && (a.Failing? ==> w.pool.cells[a.cell].Ready? && OpenFailed(c, a.cell) in w.log)
    && (a.Returned? && a.outcome.Opened? ==> FromCell(w, a.target, a.outcome.connection))
  }

  /** The connection is one that was established for this target. */
  ghost predicate FromCell(w: World, t: Target, connection: Connection)
    requires |w.homes| == |w.pool.cells|
  {
    exists k | 0 <= k < |w.homes| :: w.homes[k] == t && w.pool.cells[k] == Ready(connection)
  }

  function Establishments(log: seq<Event>, k: CellId): nat {
    if log == [] then 0
    else Establishments(log[..|log| - 1], k) + if log[|log| - 1] == Established(k) then 1 else 0
  }

  /** The event takes cell `k`, made for `home`, out of the map. */
  predicate Removes(e: Event, k: CellId, home: Target) {
    match e
    case Eviction(_, cell) => cell == k
    case Expiry(entries) => home in entries && entries[home].cell == k
    case _ => false
  }

  function Removals(log: seq<Event>, k: CellId, home: Target): nat {
    if log == [] then 0
    else Removals(log[..|log| - 1], k, home) + if Removes(log[|log| - 1], k, home) then 1 else 0
  }

  /**
   A cell has got a connection once if it is ready, else never, and has left the map once if it is not
   there, else never.
   */
  ghost predicate Balanced(w: World)
    requires |w.homes| == |w.pool.cells|
  {
    && (forall k | 0 <= k < |w.homes| :: Establishments(w.log, k) == if w.pool.cells[k].Ready? then 1 else 0)
    && (forall k | 0 <= k < |w.homes| :: Removals(w.log, k, w.homes[k]) == if Cached(w.pool, w.homes, k) then 0 else 1)
    && (forall k: CellId | |w.homes| <= k :: Establishments(w.log, k) == 0)
    && (forall k: CellId, t: Target | |w.homes| <= k :: Removals(w.log, k, t) == 0)
  }

  /** When a call last asked for `t`. */
  function LastUse(log: seq<Event>, t: Target): Option<int> {
    if log == [] then None
    else
      var e := log[|log| - 1];
      if e.Used? && e.target == t then Some(e.now) else LastUse(log[..|log| - 1], t)
  }

  ghost predicate UsesRemembered(w: World) {
    forall t | t in w.pool.entries :: LastUse(w.log, t) == Some(w.pool.entries[t].lastUsed)
  }

  /** Whoever evicted a cell had seen its connection fail. */
  ghost predicate EvictionsJust(log: seq<Event>) {
    forall i | 0 <= i < |log| && log[i].Eviction? :: OpenFailed(log[i].call, log[i].cell) in log[..i]
  }

  ghost predicate Sound(w: World) {
    && CellsSound(w.pool, w.homes)
    && Occupied(w)
    && (forall c | c in w.calls :: CallSound(w, c, w.calls[c]))
    && Balanced(w)
    && UsesRemembered(w)
    && EvictionsJust(w.log)
  }

  //-- What the steps of one call leave of the others -----------------------------------------------

  /**
   Cells and cause of evictions only accumulate, cells do not return to the map, and `c` touches no one
   else's cell.
   */
  ghost predicate Extends(w: World, w': World, c: CallId) {
    && |w.homes| == |w.pool.cells| && |w'.homes| == |w'.pool.cells|
    && w.homes <= w'.homes && w.log <= w'.log
    && (forall k | 0 <= k < |w.homes| :: Cached(w'.pool, w'.homes, k) ==> Cached(w.pool, w.homes, k))
    && (forall k | 0 <= k < |w.homes| ::
          w'.pool.cells[k] == w.pool.cells[k] || w.pool.cells[k].Empty? || w.pool.cells[k] == Initialising(c))
  }

  lemma OthersStaySound(w: World, w': World, c: CallId, d: CallId, a: Call)
    requires Extends(w, w', c) && c != d && CallSound(w, d, a)
    ensures CallSound(w', d, a)
  {
  }

  lemma CheckoutKeepsCells(p: Pool, homes: seq<Target>, t: Target, now: int)
    requires CellsSound(p, homes)
    ensures var p', homes' := CheckedOut(p, t, now), if t in p.entries then homes else homes + [t];
            && CellsSound(p', homes') && Cached(p', homes', p'.entries[t].cell)
            && forall k | 0 <= k < |homes| :: Cached(p', homes', k) == Cached(p, homes, k)
  {
    var p', homes' := CheckedOut(p, t, now), if t in p.entries then homes else homes + [t];
    forall k | 0 <= k < |homes| ensures Cached(p', homes', k) == Cached(p, homes, k) {
    }
    forall k | 0 <= k < |homes'| && !Cached(p', homes', k) ensures p'.cells[k].Ready? {
      assert k < |homes| && !Cached(p, homes, k);
    }
  }

  lemma RemovalKeepsCells(p: Pool, homes: seq<Target>, p': Pool)
    requires CellsSound(p, homes) && p'.cells == p.cells && p'.entries.Keys <= p.entries.Keys
    requires forall t | t in p'.entries :: p'.entries[t] == p.entries[t]
    requires forall t | t in p.entries && t !in p'.entries :: p.cells[p.entries[t].cell].Ready?
    ensures CellsSound(p', homes)
    ensures forall k | 0 <= k < |homes| :: Cached(p', homes, k) == (Cached(p, homes, k) && homes[k] in p'.entries)
  {
    forall k | 0 <= k < |homes|
      ensures Cached(p', homes, k) == (Cached(p, homes, k) && homes[k] in p'.entries)
      ensures !Cached(p', homes, k) ==> p'.cells[k].Ready?
    {
      var t := homes[k];
      if t in p'.entries {
        assert p'.entries[t] == p.entries[t];
      } else if t in p.entries {
        assert p.cells[p.entries[t].cell].Ready?;
      }
    }
  }

  lemma SettingKeepsCells(p: Pool, homes: seq<Target>, k: CellId, s: CellState)
    requires CellsSound(p, homes) && k < |homes| && (s.Ready? || !p.cells[k].Ready?)
    ensures CellsSound(WithCell(p, k, s), homes)
    ensures forall j | 0 <= j < |homes| :: Cached(WithCell(p, k, s), homes, j) == Cached(p, homes, j)
  {
    var p' := WithCell(p, k, s);
    forall j | 0 <= j < |homes| ensures Cached(p', homes, j) == Cached(p, homes, j) {
    }
    forall j | 0 <= j < |homes| && !Cached(p', homes, j) ensures p'.cells[j].Ready? {
      assert !Cached(p, homes, j);
    }
  }

  lemma CleanUpStaysSound(w: World, now: int)
    requires Sound(w)
    ensures var w' := Next(w, CleanUpIdle(now));
            CellsSound(w'.pool, w'.homes) && Occupied(w') && forall c :: Extends(w, w', c)
  {
    hide Balanced, UsesRemembered, EvictionsJust;
    RemovalKeepsCells(w.pool, w.homes, Cleaned(w.pool, now));
  }

  lemma CheckoutStaysSound(w: World, c: CallId, now: int)
    requires Sound(w) && c in w.calls
    ensures var w' := Next(w, Checkout(c, now));
            CellsSound(w'.pool, w'.homes) && Occupied(w') && Extends(w, w', c) && CallSound(w', c, w'.calls[c])
  {
    CheckoutKeeps(w, c, now);
    CheckoutMovesOn(w, c, now);
  }

  lemma CheckoutKeeps(w: World, c: CallId, now: int)
    requires Sound(w) && c in w.calls
    ensures var w' := Next(w, Checkout(c, now)); CellsSound(w'.pool, w'.homes) && Occupied(w') && Extends(w, w', c)
    ensures w.calls[c].Starting? ==>
              var w', t := Next(w, Checkout(c, now)), w.calls[c].target;
              t in w'.pool.entries && w'.pool.entries[t].cell < |w'.homes| && w'.homes[w'.pool.entries[t].cell] == t
              && Cached(w'.pool, w'.homes, w'.pool.entries[t].cell)
  {
    hide Balanced, UsesRemembered, EvictionsJust, CallSound;
    var a := w.calls[c];
    if a.Starting? {
      CheckoutKeepsCells(w.pool, w.homes, a.target, now);
    }
  }

  lemma CheckoutMovesOn(w: World, c: CallId, now: int)
    requires Sound(w) && c in w.calls
    requires var w' := Next(w, Checkout(c, now)); CellsSound(w'.pool, w'.homes) && Extends(w, w', c)
    requires w.calls[c].Starting? ==>
               var w', t := Next(w, Checkout(c, now)), w.calls[c].target;
               t in w'.pool.entries && w'.pool.entries[t].cell < |w'.homes| && w'.homes[w'.pool.entries[t].cell] == t
               && Cached(w'.pool, w'.homes, w'.pool.entries[t].cell)
    ensures CallSound(Next(w, Checkout(c, now)), c, Next(w, Checkout(c, now)).calls[c])
  {
    hide Balanced, UsesRemembered, EvictionsJust, Occupied;
    assert CallSound(w, c, w.calls[c]);
  }

  lemma EvictStaysSound(w: World, c: CallId)
    requires Sound(w) && c in w.calls
    ensures var w' := Next(w, Evict(c));
            CellsSound(w'.pool, w'.homes) && Occupied(w') && Extends(w, w', c) && CallSound(w', c, w'.calls[c])
  {
    EvictKeepsCells(w, c);
    EvictMovesOn(w, c);
  }

  lemma EvictKeepsCells(w: World, c: CallId)
    requires Sound(w) && c in w.calls
    ensures var w' := Next(w, Evict(c)); CellsSound(w'.pool, w'.homes) && Occupied(w') && Extends(w, w', c)
  {
    hide Balanced, UsesRemembered, EvictionsJust, CellsSound;
    var a := w.calls[c];
    SoundShape(w);
    assert CallSound(w, c, a);
    if a.Failing? {
      hide CallSound, Sound;
      EvictionKeepsCells(w.pool, w.homes, a.target, a.cell);
    }
  }

  lemma EvictionKeepsCells(p: Pool, homes: seq<Target>, t: Target, k: CellId)
    requires CellsSound(p, homes) && k < |homes| && p.cells[k].Ready?
    ensures |homes| == |p.cells| && CellsSound(Evicted(p, t, k), homes)
    ensures forall j | 0 <= j < |homes| :: Cached(Evicted(p, t, k), homes, j) ==> Cached(p, homes, j)
  {
    RemovalKeepsCells(p, homes, Evicted(p, t, k));
  }

  lemma SoundShape(w: World)
    requires Sound(w)
    ensures |w.homes| == |w.pool.cells|
  {
  }

  lemma EvictMovesOn(w: World, c: CallId)
    requires Sound(w) && c in w.calls && Extends(w, Next(w, Evict(c)), c)
    ensures CallSound(Next(w, Evict(c)), c, Next(w, Evict(c)).calls[c])
  {
    hide Balanced, UsesRemembered, EvictionsJust, CellsSound, Occupied;
    var w', a := Next(w, Evict(c)), w.calls[c];
    assert CallSound(w, c, a);
    if a.Failing? {
      assert !Cached(w'.pool, w'.homes, a.cell);
      assert w'.calls[c].dead == a.dead + [a.cell];
    }
  }

  predicate SetsCell(step: Step) {
    step.StartConnecting? || step.Connected? || step.FailToConnect? || step.Cancel?
  }

  lemma ConnectingStaysSound(w: World, c: CallId, step: Step)
    requires Sound(w) && c in w.calls && SetsCell(step) && step.call == c
    ensures var w' := Next(w, step);
            CellsSound(w'.pool, w'.homes) && Occupied(w') && Extends(w, w', c) && CallSound(w', c, w'.calls[c])
  {
    ConnectingKeepsCells(w, c, step);
    ConnectingMovesOn(w, c, step);
  }

  lemma ConnectingKeepsCells(w: World, c: CallId, step: Step)
    requires Sound(w) && c in w.calls && SetsCell(step) && step.call == c
    ensures var w' := Next(w, step); CellsSound(w'.pool, w'.homes) && Occupied(w') && Extends(w, w', c)
  {
    hide Balanced, UsesRemembered, EvictionsJust;
    var w', a := Next(w, step), w.calls[c];
    assert CallSound(w, c, a);
    if w'.pool != w.pool {
      hide Sound, CallSound, CellsSound;
      SettingKeepsCells(w.pool, w.homes, a.cell, w'.pool.cells[a.cell]);
    }
  }

  lemma ConnectingMovesOn(w: World, c: CallId, step: Step)
    requires Sound(w) && c in w.calls && SetsCell(step) && step.call == c && Extends(w, Next(w, step), c)
    ensures CallSound(Next(w, step), c, Next(w, step).calls[c])
  {
    hide Balanced, UsesRemembered, EvictionsJust, CellsSound, Occupied;
    assert CallSound(w, c, w.calls[c]);
  }

  lemma UseStaysSound(w: World, c: CallId, step: Step)
    requires Sound(w) && c in w.calls && (step.UseReady? || step.OpenStream? || step.FailToOpen?) && step.call == c
    ensures var w' := Next(w, step);
            CellsSound(w'.pool, w'.homes) && Occupied(w') && Extends(w, w', c) && CallSound(w', c, w'.calls[c])
  {
    hide Balanced, UsesRemembered, EvictionsJust;
    assert CallSound(w, c, w.calls[c]);
  }

  predicate Ongoing(w: World, step: Step) {
    !step.Begin? && !step.CleanUpIdle? && step.call in w.calls
  }

  lemma ActorStaysSound(w: World, step: Step)
    requires Sound(w) && Ongoing(w, step)
    ensures var w', c := Next(w, step), step.call;
            && CellsSound(w'.pool, w'.homes) && Occupied(w') && Extends(w, w', c)
            && w'.calls.Keys == w.calls.Keys && CallSound(w', c, w'.calls[c])
            && forall d | d in w.calls && d != c :: w'.calls[d] == w.calls[d]
  {
    hide Sound, CellsSound, CallSound, Occupied, Extends;
    var c := step.call;
    if step.Checkout? {
      CheckoutStaysSound(w, c, step.now);
    } else if step.Evict? {
      EvictStaysSound(w, c);
    } else if SetsCell(step) {
      ConnectingStaysSound(w, c, step);
    } else {
      UseStaysSound(w, c, step);
    }
  }

  lemma CallsStaySound(w: World, step: Step)
    requires Sound(w)
    ensures var w' := Next(w, step);
            && CellsSound(w'.pool, w'.homes) && Occupied(w')
            && forall d | d in w'.calls :: CallSound(w', d, w'.calls[d])
  {
    hide Balanced, UsesRemembered, EvictionsJust;
    var w' := Next(w, step);
    if Ongoing(w, step) {
      hide Next, Extends, CallSound, CellsSound, Occupied;
      ActorStaysSound(w, step);
      forall d | d in w'.calls ensures |w'.homes| == |w'.pool.cells| && CallSound(w', d, w'.calls[d]) {
        ExtendsShape(w, w', step.call);
        if d != step.call { OthersStaySound(w, w', step.call, d, w.calls[d]); }
      }
    } else if step.CleanUpIdle? {
      CleanUpStaysSound(w, step.now);
      forall d | d in w'.calls ensures CallSound(w', d, w'.calls[d]) {
        OthersStaySound(w, w', d + 1, d, w.calls[d]);
      }
    } else {
      forall d | d in w'.calls ensures CallSound(w', d, w'.calls[d]) {
        if d in w.calls { assert CallSound(w, d, w.calls[d]); }
      }
    }
  }

  lemma ExtendsShape(w: World, w': World, c: CallId)
    requires Extends(w, w', c)
    ensures |w.homes| == |w.pool.cells| && |w'.homes| == |w'.pool.cells|
  {
  }

  lemma LogGrows(log: seq<Event>, e: Event, k: CellId, t: Target)
    ensures Establishments(log + [e], k) == Establishments(log, k) + if e == Established(k) then 1 else 0
    ensures Removals(log + [e], k, t) == Removals(log, k, t) + if Removes(e, k, t) then 1 else 0
  {
    assert (log + [e])[..|log|] == log;
  }

  lemma CheckoutBalanced(w: World, c: CallId, now: int)
    requires Sound(w) && c in w.calls
    ensures var w' := Next(w, Checkout(c, now)); |w'.homes| == |w'.pool.cells| && Balanced(w')
  {
    hide UsesRemembered, EvictionsJust, Occupied, CallSound, Establishments, Removals;
    var a := w.calls[c];
    if a.Starting? {
      CheckoutKeepsCells(w.pool, w.homes, a.target, now);
      LogGrowsEverywhere(w.log, Used(a.target, now));
    }
  }

  /** A step that takes cells out of the map and says so in the log. */
  lemma RemovalBalanced(w: World, w': World, e: Event)
    requires CellsSound(w.pool, w.homes) && Balanced(w)
    requires w'.homes == w.homes && w'.pool.cells == w.pool.cells && w'.log == w.log + [e] && !e.Established?
    requires forall k | 0 <= k < |w.homes| ::
               Cached(w'.pool, w.homes, k) == (Cached(w.pool, w.homes, k) && !Removes(e, k, w.homes[k]))
    requires forall k | 0 <= k < |w.homes| :: Removes(e, k, w.homes[k]) ==> Cached(w.pool, w.homes, k)
    requires forall k: CellId, t: Target | |w.homes| <= k :: !Removes(e, k, t)
    ensures Balanced(w')
  {
    hide Establishments, Removals, Removes, Cached;
    LogGrowsEverywhere(w.log, e);
    forall k | 0 <= k < |w.homes|
      ensures Removals(w'.log, k, w'.homes[k]) == if Cached(w'.pool, w'.homes, k) then 0 else 1
    {
      assert Removals(w.log, k, w.homes[k]) == if Cached(w.pool, w.homes, k) then 0 else 1;
    }
  }

  lemma EvictBalanced(w: World, c: CallId)
    requires Sound(w) && c in w.calls
    ensures var w' := Next(w, Evict(c));
            w'.homes == w.homes && |w.homes| == |w'.pool.cells| && Balanced(w')
  {
    hide UsesRemembered, EvictionsJust, Occupied, Establishments, Removals;
    var w', a := Next(w, Evict(c)), w.calls[c];
    assert CallSound(w, c, a);
    if a.Failing? && Evicted(w.pool, a.target, a.cell) != w.pool {
      RemovalKeepsCells(w.pool, w.homes, w'.pool);
      RemovalBalanced(w, w', Eviction(c, a.cell));
    }
  }

  lemma CleanUpBalanced(w: World, now: int)
    requires Sound(w)
    ensures var w' := Next(w, CleanUpIdle(now)); w'.homes == w.homes && w'.pool.cells == w.pool.cells && Balanced(w')
  {
    hide UsesRemembered, EvictionsJust, Occupied, Establishments, Removals, CallSound;
    var w' := Next(w, CleanUpIdle(now));
    RemovalKeepsCells(w.pool, w.homes, w'.pool);
    RemovalBalanced(w, w', w'.log[|w.log|]);
  }

  lemma ConnectingBalanced(w: World, c: CallId, step: Step)
    requires Sound(w) && c in w.calls && SetsCell(step) && step.call == c
    ensures Next(w, step).homes == w.homes && |w.homes| == |Next(w, step).pool.cells| && Balanced(Next(w, step))
  {
    hide UsesRemembered, EvictionsJust, Occupied, Establishments, Removals;
    var w', a := Next(w, step), w.calls[c];
    assert CallSound(w, c, a);
    if w'.pool != w.pool {
      SettingKeepsCells(w.pool, w.homes, a.cell, w'.pool.cells[a.cell]);
    }
    if HasCell(a) { LogGrowsEverywhere(w.log, Established(a.cell)); }
  }

  lemma LogGrowsEverywhere(log: seq<Event>, e: Event)
    ensures forall k: CellId ::
              Establishments(log + [e], k) == Establishments(log, k) + if e == Established(k) then 1 else 0
    ensures forall k: CellId, t: Target ::
              Removals(log + [e], k, t) == Removals(log, k, t) + if Removes(e, k, t) then 1 else 0
  {
    forall k: CellId, t: Target
      ensures Establishments(log + [e], k) == Establishments(log, k) + if e == Established(k) then 1 else 0
      ensures Removals(log + [e], k, t) == Removals(log, k, t) + if Removes(e, k, t) then 1 else 0
    {
      LogGrows(log, e, k, t);
    }
  }

  lemma UseBalanced(w: World, c: CallId, step: Step)
    requires Sound(w) && c in w.calls && (step.UseReady? || step.OpenStream? || step.FailToOpen?) && step.call == c
    ensures Next(w, step).homes == w.homes && Next(w, step).pool == w.pool && Balanced(Next(w, step))
  {
    hide UsesRemembered, EvictionsJust, Occupied, Establishments, Removals, CallSound;
    LogGrowsEverywhere(w.log, OpenFailed(c, if step.FailToOpen? && w.calls[c].Opening? then w.calls[c].cell else 0));
  }

  lemma StaysBalanced(w: World, step: Step)
    requires Sound(w)
    ensures |Next(w, step).homes| == |Next(w, step).pool.cells| && Balanced(Next(w, step))
  {
    if step.CleanUpIdle? {
      CleanUpBalanced(w, step.now);
    } else if Ongoing(w, step) {
      hide Next, Balanced;
      var c := step.call;
      if step.Checkout? {
        CheckoutBalanced(w, c, step.now);
      } else if step.Evict? {
        EvictBalanced(w, c);
      } else if SetsCell(step) {
        ConnectingBalanced(w, c, step);
      } else {
        UseBalanced(w, c, step);
      }
    }
  }

  lemma EvictionsStayJust(w: World, step: Step)
    requires Sound(w)
    ensures EvictionsJust(Next(w, step).log)
  {
    hide Balanced, UsesRemembered;
    if !step.Begin? && !step.CleanUpIdle? && step.call in w.calls {
      assert CallSound(w, step.call, w.calls[step.call]);
    }
    var log := Next(w, step).log;
    assert log[..|w.log|] == w.log;
    forall i | 0 <= i < |log| && log[i].Eviction? ensures OpenFailed(log[i].call, log[i].cell) in log[..i] {
      if i < |w.log| { assert log[..i] == w.log[..i]; }
    }
  }

  lemma UsesStayRemembered(w: World, step: Step)
    requires Sound(w)
    ensures UsesRemembered(Next(w, step))
  {
    hide Balanced, EvictionsJust, CallSound, Occupied, LastUse;
    var w' := Next(w, step);
    if w'.log != w.log {
      assert w'.log == w.log + [w'.log[|w.log|]];
      forall t: Target
        ensures var e := w'.log[|w.log|];
                LastUse(w'.log, t) == if e.Used? && e.target == t then Some(e.now) else LastUse(w.log, t)
      {
        LastUseGrows(w.log, w'.log[|w.log|], t);
      }
    }
  }

  lemma LastUseGrows(log: seq<Event>, e: Event, t: Target)
    ensures LastUse(log + [e], t) == if e.Used? && e.target == t then Some(e.now) else LastUse(log, t)
  {
    assert (log + [e])[..|log|] == log;
  }

  lemma StepIsSound(w: World, step: Step)
    requires Sound(w)
    ensures Sound(Next(w, step))
  {
    CallsStaySound(w, step);
    StaysBalanced(w, step);
    UsesStayRemembered(w, step);
    EvictionsStayJust(w, step);
  }

  /** Over every interleaving of calls, cancellations and clean-ups. */
  lemma {:induction false} EveryRunIsSound(steps: seq<Step>)
    ensures Sound(Run(steps))
  {
    if steps != [] {
      EveryRunIsSound(steps[..|steps| - 1]);
      StepIsSound(Run(steps[..|steps| - 1]), steps[|steps| - 1]);
    }
  }

  //-- Main results --------------------------------------------------------------------------------

  /** At most one connect is in flight for each target, and it is filling the cell that new callers will find. */
  lemma SingleFlight(steps: seq<Step>, c: CallId, d: CallId)
    requires var calls := Run(steps).calls;
             && c in calls && d in calls && calls[c].Connecting? && calls[d].Connecting?
             && calls[c].target == calls[d].target
    ensures c == d
    ensures var w := Run(steps);
            w.calls[c].target in w.pool.entries && w.pool.entries[w.calls[c].target].cell == w.calls[c].cell
  {
    EveryRunIsSound(steps);
    var w := Run(steps);
    assert CallSound(w, c, w.calls[c]) && CallSound(w, d, w.calls[d]);
    assert Cached(w.pool, w.homes, w.calls[c].cell) && Cached(w.pool, w.homes, w.calls[d].cell);
  }

  /** Whatever any step takes out of the map holds a connection, and the next cell for its target is a new one. */
  lemma OnlyConnectionsLeave(steps: seq<Step>, step: Step, t: Target)
    requires t in Run(steps).pool.entries
    requires var after := Next(Run(steps), step).pool;
             t !in after.entries || after.entries[t].cell != Run(steps).pool.entries[t].cell
    ensures var w := Run(steps);
            var k := w.pool.entries[t].cell;
            && k < |w.pool.cells| && w.pool.cells[k].Ready? && t !in Next(w, step).pool.entries
            && (|| (step.CleanUpIdle? && step.now - w.pool.entries[t].lastUsed >= IDLE_TIMEOUT)
                || (step.Evict? && step.call in w.calls && w.calls[step.call].Failing? && w.calls[step.call].cell == k
                    && OpenFailed(step.call, k) in w.log))
  {
    EveryRunIsSound(steps);
    var w := Run(steps);
    if !step.Begin? && !step.CleanUpIdle? && step.call in w.calls {
      assert CallSound(w, step.call, w.calls[step.call]);
    }
  }

  /**
   A clean-up takes a target's entry out exactly if it has a connection and no call asked for it within the
   timeout.
   */
  lemma IdleConnectionsExpire(steps: seq<Step>, now: int, t: Target)
    requires t in Run(steps).pool.entries
    ensures var w := Run(steps);
            && LastUse(w.log, t).Some? && w.pool.entries[t].cell < |w.pool.cells|
            && (t !in Next(w, CleanUpIdle(now)).pool.entries <==>
                w.pool.cells[w.pool.entries[t].cell].Ready? && now - LastUse(w.log, t).value >= 60_000)
  {
    EveryRunIsSound(steps);
  }

  /**
   A call sees at most two connections fail, and gives up with a stream error exactly then.  The second
   is in a newer cell than the first: a retry never meets the connection it saw dead.
   */
  lemma RetriesMoveOn(steps: seq<Step>, c: CallId)
    requires c in Run(steps).calls
    ensures var a := Run(steps).calls[c];
            && |a.dead| <= (if a.Returned? then 2 else 1)
            && (a.Returned? ==> (|a.dead| == 2 <==> a.outcome.StreamFailed?))
            && (|a.dead| == 2 ==> a.dead[0] < a.dead[1])
            && (HasCell(a) && |a.dead| == 1 ==> a.dead[0] < a.cell)
            && (a.Returned? && a.outcome.Opened? ==>
                  |Run(steps).homes| == |Run(steps).pool.cells| && FromCell(Run(steps), a.target, a.outcome.connection))
  {
    EveryRunIsSound(steps);
    assert CallSound(Run(steps), c, Run(steps).calls[c]);
  }

  /**
   Conservation: every cell made is in the map or holds a connection; it has been connected at most once,
   and has left the map, by eviction or idleness, exactly as often as it is missing from it: once or never.
   */
  lemma EachConnectionLeavesOnce(steps: seq<Step>, k: CellId)
    requires k < |Run(steps).pool.cells|
    ensures var w := Run(steps);
            && |w.homes| == |w.pool.cells|
            && (Cached(w.pool, w.homes, k) || w.pool.cells[k].Ready?)
            && Establishments(w.log, k) == (if w.pool.cells[k].Ready? then 1 else 0)
            && Removals(w.log, k, w.homes[k]) == (if Cached(w.pool, w.homes, k) then 0 else 1)
            && Removals(w.log, k, w.homes[k]) <= Establishments(w.log, k)
  {
    EveryRunIsSound(steps);
  }

  //-- One call with nobody in between -------------------------------------------------------------

  /** What one attempt meets: the time, what a connect would return, whether the stream opens. */
  datatype Luck = Luck(now: int, dial: Option<Connection>, opens: bool)

  function CellFor(p: Pool, t: Target): CellId {
    if t in p.entries then p.entries[t].cell else |p.cells|
  }

  /** Nobody is connecting to `t`, so the caller need not wait. */
  predicate Free(p: Pool, t: Target) {
    t in p.entries ==> p.entries[t].cell < |p.cells| && !p.cells[p.entries[t].cell].Initialising?
  }

  /** The pool after an attempt, and its outcome unless another attempt is due. */
  function Attempted(p: Pool, t: Target, luck: Luck): (r: (Pool, Option<Outcome>))
    requires Free(p, t)
    ensures r.1.None? ==> Free(r.0, t)
  {
    var held, k := CheckedOut(p, t, luck.now), CellFor(p, t);
    if held.cells[k].Empty? && luck.dial.None? then (held, Some(ConnectFailed))
    else
      var ready := if held.cells[k].Empty? then WithCell(held, k, Ready(luck.dial.value)) else held;
      if luck.opens then (ready, Some(Opened(ready.cells[k].connection))) else (Evicted(ready, t, k), None)
  }

  function Solo(p: Pool, t: Target, first: Luck, second: Luck): (Pool, Outcome)
    requires Free(p, t)
  {
    var (p1, r1) := Attempted(p, t, first);
    if r1.Some? then (p1, r1.value)
    else
      var (p2, r2) := Attempted(p1, t, second);
      (p2, if r2.Some? then r2.value else StreamFailed)
  }

  /** The sections of an attempt, in order. */
  function AttemptSteps(p: Pool, t: Target, c: CallId, luck: Luck): seq<Step>
    requires Free(p, t)
  {
    if CheckedOut(p, t, luck.now).cells[CellFor(p, t)].Ready? then
      [Checkout(c, luck.now), UseReady(c)] + OpeningSteps(c, luck.opens)
    else if luck.dial.Some? then
      [Checkout(c, luck.now), StartConnecting(c), Connected(c, luck.dial.value)] + OpeningSteps(c, luck.opens)
    else
      [Checkout(c, luck.now), StartConnecting(c), FailToConnect(c)]
  }

  function OpeningSteps(c: CallId, opens: bool): seq<Step> {
    if opens then [OpenStream(c)] else [FailToOpen(c), Evict(c)]
  }

  /** The first sections of an attempt, up to having a connection or failing to get one. */
  lemma ConnectRuns(w: World, c: CallId, t: Target, dead: seq<CellId>, k: CellId, dial: Option<Connection>)
    requires c in w.calls && w.calls[c] == Holding(t, dead, k) && k < |w.pool.cells| && w.pool.cells[k].Empty?
    ensures var dialled := if dial.Some? then Connected(c, dial.value) else FailToConnect(c);
            var w' := Next(Next(w, StartConnecting(c)), dialled);
            && w'.pool == (if dial.Some? then WithCell(w.pool, k, Ready(dial.value)) else w.pool)
            && w'.calls == w.calls[c := if dial.Some? then Opening(t, dead, k, dial.value)
                                        else Returned(t, dead, ConnectFailed)]
  {
    var w1 := Next(w, StartConnecting(c));
    assert w1.calls[c] == Connecting(t, dead, k);
    if dial.None? {
      assert w.pool.cells[k := Empty] == w.pool.cells;
    }
  }

  lemma OpeningEnds(w: World, c: CallId, t: Target, dead: seq<CellId>, k: CellId, connection: Connection, opens: bool)
    requires c in w.calls && w.calls[c] == Opening(t, dead, k, connection)
    ensures var w' := RunFrom(w, OpeningSteps(c, opens));
            && w'.pool == (if opens then w.pool else Evicted(w.pool, t, k))
            && c in w'.calls
            && w'.calls[c] == if opens then Returned(t, dead, Opened(connection))
                              else if |dead| < 1 then Starting(t, dead + [k])
                              else Returned(t, dead + [k], StreamFailed)
  {
    if opens {
      RunsOne(w, OpenStream(c));
    } else {
      RunsTwo(w, FailToOpen(c), Evict(c));
    }
  }

  lemma CheckoutRuns(w: World, c: CallId, t: Target, dead: seq<CellId>, now: int)
    requires c in w.calls && w.calls[c] == Starting(t, dead)
    ensures var w' := Next(w, Checkout(c, now));
            w'.pool == CheckedOut(w.pool, t, now) && w'.calls == w.calls[c := Holding(t, dead, CellFor(w.pool, t))]
  {
  }

  lemma AttemptIsARun(w: World, c: CallId, t: Target, dead: seq<CellId>, luck: Luck)
    requires c in w.calls && w.calls[c] == Starting(t, dead) && Free(w.pool, t)
    ensures var w' := RunFrom(w, AttemptSteps(w.pool, t, c, luck));
            var (after, outcome) := Attempted(w.pool, t, luck);
            && w'.pool == after && c in w'.calls
            && w'.calls[c] == if outcome.Some? then Returned(t, dead, outcome.value)
                              else if |dead| < 1 then Starting(t, dead + [CellFor(w.pool, t)])
                              else Returned(t, dead + [CellFor(w.pool, t)], StreamFailed)
  {
    hide Next, RunFrom, Evicted, OpeningSteps;
    var k, w1 := CellFor(w.pool, t), Next(w, Checkout(c, luck.now));
    CheckoutRuns(w, c, t, dead, luck.now);
    if w1.pool.cells[k].Empty? {
      var dialled := if luck.dial.Some? then Connected(c, luck.dial.value) else FailToConnect(c);
      ConnectRuns(w1, c, t, dead, k, luck.dial);
      RunsThree(w, Checkout(c, luck.now), StartConnecting(c), dialled);
      if luck.dial.Some? {
        var w3 := RunFrom(w, [Checkout(c, luck.now), StartConnecting(c), dialled]);
        RunFromConcat(w, [Checkout(c, luck.now), StartConnecting(c), dialled], OpeningSteps(c, luck.opens));
        OpeningEnds(w3, c, t, dead, k, luck.dial.value, luck.opens);
      }
    } else {
      UseRuns(w1, c, t, dead, k);
      RunsTwo(w, Checkout(c, luck.now), UseReady(c));
      var w2 := RunFrom(w, [Checkout(c, luck.now), UseReady(c)]);
      RunFromConcat(w, [Checkout(c, luck.now), UseReady(c)], OpeningSteps(c, luck.opens));
      OpeningEnds(w2, c, t, dead, k, w1.pool.cells[k].connection, luck.opens);
    }
  }

  lemma UseRuns(w: World, c: CallId, t: Target, dead: seq<CellId>, k: CellId)
    requires c in w.calls && w.calls[c] == Holding(t, dead, k) && k < |w.pool.cells| && w.pool.cells[k].Ready?
    ensures var w' := Next(w, UseReady(c));
            w'.pool == w.pool && w'.calls == w.calls[c := Opening(t, dead, k, w.pool.cells[k].connection)]
  {
  }

  /** Without interruption a call does what its sections do one after the other. */
  lemma SoloIsARun(w: World, c: CallId, t: Target, first: Luck, second: Luck)
    requires c in w.calls && w.calls[c] == Starting(t, []) && Free(w.pool, t)
    ensures var (p1, r1) := Attempted(w.pool, t, first);
            var steps := AttemptSteps(w.pool, t, c, first) + (if r1.Some? then [] else AttemptSteps(p1, t, c, second));
            var w' := RunFrom(w, steps);
            var (after, outcome) := Solo(w.pool, t, first, second);
            w'.pool == after && c in w'.calls && w'.calls[c].Returned? && w'.calls[c].outcome == outcome
  {
    var (p1, r1) := Attempted(w.pool, t, first);
    var steps1 := AttemptSteps(w.pool, t, c, first);
    AttemptIsARun(w, c, t, [], first);
    if r1.Some? {
      assert steps1 + [] == steps1;
    } else {
      var w1 := RunFrom(w, steps1);
      RunFromConcat(w, steps1, AttemptSteps(p1, t, c, second));
      AttemptIsARun(w1, c, t, [CellFor(w.pool, t)], second);
    }
  }

  lemma RunsOne(w: World, a: Step)
    ensures RunFrom(w, [a]) == Next(w, a)
  {
    hide Next;
    assert [a][..0] == [];
  }

  lemma RunsTwo(w: World, a: Step, b: Step)
    ensures RunFrom(w, [a, b]) == Next(Next(w, a), b)
  {
    hide Next;
    assert [a, b][..1] == [a];
    RunsOne(w, a);
  }

  lemma RunsThree(w: World, a: Step, b: Step, d: Step)
    ensures RunFrom(w, [a, b, d]) == Next(Next(Next(w, a), b), d)
  {
    hide Next;
    assert [a, b, d][..2] == [a, b];
    RunsTwo(w, a, b);
  }

  lemma {:induction false} RunFromConcat(w: World, a: seq<Step>, b: seq<Step>)
    ensures RunFrom(w, a + b) == RunFrom(RunFrom(w, a), b)
  {
    hide Next;
    if b == [] {
      assert a + b == a;
    } else {
      assert (a + b)[..|a + b| - 1] == a + b[..|b| - 1];
      RunFromConcat(w, a, b[..|b| - 1]);
    }
  }

  //-- The pool changed in place -------------------------------------------------------------------

  class OnceCell {
    ghost const id: CellId
    var state: CellState

    constructor (ghost id: CellId)
      ensures this.id == id && state == Empty
    {
      this.id, state := id, Empty;
    }
  }

  datatype PooledEntry = PooledEntry(cell: OnceCell, lastUsed: int)

  class ConnectionPool {
    var connections: map<Target, PooledEntry>
    ghost var made: seq<OnceCell>

    /** Cells are told apart by identity; the ghost number of a cell is its place among all those made. */
    ghost predicate Valid()
      reads this, made
    {
      && (forall i | 0 <= i < |made| :: made[i].id == i)
      && (forall t | t in connections :: connections[t].cell in made)
    }

    ghost function Value(): Pool
      reads this, made
    {
      Pool(map t | t in connections :: Entry(connections[t].cell.id, connections[t].lastUsed),
           seq(|made|, i requires 0 <= i < |made| reads this, made => made[i].state))
    }

    constructor ()
      ensures Valid() && made == [] && Value() == Pool(map[], [])
    {
      connections, made := map[], [];
    }

    /** The first locked section of `open_stream`. */
    method Checkout(t: Target, now: int) returns (cell: OnceCell)
      requires Valid()
      modifies this
      ensures Valid() && Value() == CheckedOut(old(Value()), t, now)
      ensures cell in made && cell.id == CellFor(old(Value()), t)
      ensures old(made) <= made && forall i | |old(made)| <= i < |made| :: fresh(made[i])
    {
      if t !in connections {
        cell := new OnceCell(|made|);
        made := made + [cell];
        connections := connections[t := PooledEntry(cell, now)];
      }
      cell := connections[t].cell;
      connections := connections[t := connections[t].(lastUsed := now)];
    }

    /** The second one: evict the entry, but only if it still holds this very cell. */
    method EvictIfSame(t: Target, cell: OnceCell)
      requires Valid() && cell in made
      modifies this`connections
      ensures Valid() && Value() == Evicted(old(Value()), t, cell.id)
    {
      if t in connections && connections[t].cell == cell {
        connections := connections - {t};
      }
    }

    method CleanUpIdle(now: int)
      requires Valid()
      modifies this`connections
      ensures Valid() && Value() == Cleaned(old(Value()), now)
    {
      assert forall t | t in connections :: made[connections[t].cell.id] == connections[t].cell;
      connections := map t | t in connections
                             && (now - connections[t].lastUsed < IDLE_TIMEOUT || !connections[t].cell.state.Ready?)
                         :: connections[t];
      ghost var before, after := Cleaned(old(Value()), now).entries, Value().entries;
      forall t | t in old(connections) ensures (t in before <==> t in after) && (t in after ==> before[t] == after[t]) {
      }
      assert before == after;
    }

    /** `open_stream` with nobody in between: `luck[i]` is what attempt `i` meets. */
    method OpenStream(t: Target, call: CallId, luck: seq<Luck>) returns (outcome: Outcome)
      requires Valid() && Free(Value(), t) && |luck| == 2
      modifies this, made
      ensures Valid() && (Value(), outcome) == Solo(old(Value()), t, luck[0], luck[1])
    {
      for attempt := 0 to 2
        invariant Valid() && Free(Value(), t)
        invariant attempt == 0 ==> Value() == old(Value())
        invariant attempt == 1 ==> Attempted(old(Value()), t, luck[0]) == (Value(), None)
        invariant attempt == 2 ==> Solo(old(Value()), t, luck[0], luck[1]) == (Value(), StreamFailed)
        invariant old(made) <= made && forall i | |old(made)| <= i < |made| :: fresh(made[i])
      {
        ghost var before := Value();
        var done: Option<Outcome> := Try(t, call, luck[attempt]);
        if done.Some? {
          return done.value;
        }
      }
      return StreamFailed;
    }

    /** One round of the loop. */
    method Try(t: Target, call: CallId, luck: Luck) returns (done: Option<Outcome>)
      requires Valid() && Free(Value(), t)
      modifies this, made
      ensures Valid() && (Value(), done) == Attempted(old(Value()), t, luck)
      ensures old(made) <= made && forall i | |old(made)| <= i < |made| :: fresh(made[i])
    {
      var cell := Checkout(t, luck.now);
      ghost var held := Value();
      assert made[cell.id] == cell && held.cells[cell.id] == cell.state;
      if cell.state.Empty? {
        cell.state := Initialising(call);
        if luck.dial.None? {
          cell.state := Empty;
          assert Value().cells == held.cells;
          return Some(ConnectFailed);
        }
        cell.state := Ready(luck.dial.value);
        assert Value().cells == WithCell(held, cell.id, Ready(luck.dial.value)).cells;
      }
      if luck.opens {
        return Some(Opened(cell.state.connection));
      }
      EvictIfSame(t, cell);
      return None;
    }
  }

  /** A call that has returned takes no further part: its answer stands. */
  lemma ReturnedForGood(steps: seq<Step>, step: Step, c: CallId)
    requires c in Run(steps).calls && Run(steps).calls[c].Returned?
    ensures c in Run(steps + [step]).calls && Run(steps + [step]).calls[c] == Run(steps).calls[c]
  {
    assert (steps + [step])[..|steps|] == steps;
    assert Run(steps + [step]) == Next(Run(steps), step);
  }
}
