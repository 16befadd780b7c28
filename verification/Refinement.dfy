/** The string-keyed, typed, expiring keyspace behaves as a queue and a plain map from triples
    to counters. */
module Refinement {
  import opened Wrappers
  import opened Keys
  import opened Wire
  import opened Collector
  import opened Redis
  import opened Machine

  /** The state a reader of the collector has in mind. */
  datatype Board = Board(clock: nat, queue: seq<QueueEntry>, counters: map<Triple, Tally>)

  const EMPTY_BOARD := Board(0, [], map[])

  function Bumped(tally: Option<Tally>): Tally {
    match tally
    case None => Tally(1, None)
    case Some(x) => Tally(x.count + 1, x.deadline)
  }

  predicate LiveTally(tally: Tally, now: nat) {
    tally.deadline.Some? ==> now < tally.deadline.value
  }

  function Lookup(counters: map<Triple, Tally>, t: Triple): Option<Tally> {
    if t in counters then Some(counters[t]) else None
  }

  function Entry(b: Board, t: Triple): Option<Tally> {
    Lookup(b.counters, t)
  }

  predicate BoardAllows(b: Board, e: Event) {
    e.Bump? && e.ok && e.t in b.counters ==> b.counters[e.t].count < MAX_COUNT
  }

  function Refreshed(b: Board, t: Triple): Board {
    if t in b.counters
    then b.(counters := b.counters[t := Tally(b.counters[t].count, Some(b.clock + COUNTER_TTL))])
    else b
  }

  function BoardStep(b: Board, e: Event): Board {
    match e
    case Push(_, entry, ok) => if ok then b.(queue := [entry] + b.queue) else b
    case Bump(_, t, ok) => if ok then b.(counters := b.counters[t := Bumped(Entry(b, t))]) else b
    case Refresh(_, t, ok) => if ok then Refreshed(b, t) else b
    case Tick(dt) =>
      var now := b.clock + dt;
      Board(now, b.queue, map t | t in b.counters && LiveTally(b.counters[t], now) :: b.counters[t])
    case _ => b
  }

  function CellOf(tally: Tally): Cell {
    Cell(Counter(tally.count), tally.deadline)
  }

  predicate QueueCell(cells: map<string, Cell>, queue: seq<QueueEntry>) {
    if queue == [] then QUEUE_KEY !in cells
    else QUEUE_KEY in cells && cells[QUEUE_KEY] == Cell(List(queue), None)
  }

  /** The cell named `k` is that of a counter with this tally, or missing if there is none. */
  predicate Holds(cells: map<string, Cell>, k: string, tally: Option<Tally>) {
    match tally
    case None => k !in cells
    case Some(x) => k in cells && cells[k] == CellOf(x)
  }

  ghost predicate CounterCells(cells: map<string, Cell>, counters: map<Triple, Tally>) {
    forall t: Triple :: Holds(cells, CounterKey(t), Lookup(counters, t))
  }

  predicate NoOtherCells(cells: map<string, Cell>) {
    forall k :: k in cells ==> k == QUEUE_KEY || DecodeKey(k).Some?
  }

  /** The keyspace holds exactly the board's queue and counters, each under its own name. */
  ghost predicate Represents(s: Store, b: Board) {
    && s.clock == b.clock
    && QueueCell(s.cells, b.queue)
    && CounterCells(s.cells, b.counters)
    && NoOtherCells(s.cells)
  }

  lemma CounterCellAt(s: Store, b: Board, t: Triple)
    requires Represents(s, b)
    ensures Holds(s.cells, CounterKey(t), Entry(b, t))
  {
  }

  /** Writing one counter's cell is writing one map entry. */
  lemma WriteCounter(s: Store, b: Board, t: Triple, tally: Tally)
    requires Represents(s, b)
    ensures Represents(Put(s, CounterKey(t), Counter(tally.count), tally.deadline), b.(counters := b.counters[t := tally]))
  {
    var cells := s.cells[CounterKey(t) := CellOf(tally)];
    CounterKeyIsNotQueue(t);
    DecodeCounterKey(t);
    forall u: Triple
      ensures Holds(cells, CounterKey(u), Lookup(b.counters[t := tally], u))
    {
      CounterKeyInjective(t, u);
      CounterCellAt(s, b, u);
    }
  }

  /** Writing the queue's cell touches no counter. */
  lemma WriteQueue(s: Store, b: Board, queue: seq<QueueEntry>)
    requires Represents(s, b) && queue != []
    ensures Represents(Put(s, QUEUE_KEY, List(queue), None), b.(queue := queue))
  {
    var cells := s.cells[QUEUE_KEY := Cell(List(queue), None)];
    forall u: Triple
      ensures Holds(cells, CounterKey(u), Lookup(b.counters, u))
    {
      CounterKeyIsNotQueue(u);
      CounterCellAt(s, b, u);
    }
  }

  lemma AdvanceHolds(s: Store, k: string, tally: Option<Tally>, dt: nat)
    requires Holds(s.cells, k, tally)
    ensures Holds(Advance(s, dt).cells, k, if tally.Some? && LiveTally(tally.value, s.clock + dt) then tally else None)
  {
  }

  lemma AdvanceRefines(s: Store, b: Board, dt: nat)
    requires Represents(s, b)
    ensures Represents(Advance(s, dt), BoardStep(b, Tick(dt)))
  {
    forall u: Triple
      ensures Holds(Advance(s, dt).cells, CounterKey(u), Entry(BoardStep(b, Tick(dt)), u))
    {
      CounterCellAt(s, b, u);
      AdvanceHolds(s, CounterKey(u), Entry(b, u), dt);
    }
  }

  /** Representation depends on nothing but the two values. */
  lemma SameRepresents(s: Store, b: Board, s': Store, b': Board)
    requires Represents(s, b) && s == s' && b == b'
    ensures Represents(s', b')
  {
  }

  lemma PushRefines(s: Store, b: Board, entry: QueueEntry)
    requires Represents(s, b)
    ensures LPush(s, QUEUE_KEY, entry).1.Done?
    ensures Represents(LPush(s, QUEUE_KEY, entry).0, b.(queue := [entry] + b.queue))
  {
    WriteQueue(s, b, [entry] + b.queue);
    if b.queue == [] {
      assert [entry] + b.queue == [entry];
    }
  }

  lemma IncrementWrites(s: Store, k: string, tally: Option<Tally>)
    requires Holds(s.cells, k, tally)
    ensures Incr(s, k).1.Done? <==> (tally.Some? ==> tally.value.count < MAX_COUNT)
    ensures Incr(s, k).1.Done? ==> Incr(s, k).0 == Put(s, k, Counter(Bumped(tally).count), Bumped(tally).deadline)
  {
  }

  lemma ExpireWrites(s: Store, k: string, tally: Option<Tally>, ttl: nat)
    requires Holds(s.cells, k, tally)
    ensures Expire(s, k, ttl) == if tally.Some? then Put(s, k, Counter(tally.value.count), Some(s.clock + ttl)) else s
  {
  }

  lemma BumpRefines(s: Store, b: Board, e: Event)
    requires Represents(s, b) && e.Bump?
    ensures StoreAllows(s, e) <==> BoardAllows(b, e)
    ensures StoreAllows(s, e) ==> Represents(Obey(s, e), BoardStep(b, e))
  {
    CounterCellAt(s, b, e.t);
    IncrementWrites(s, CounterKey(e.t), Entry(b, e.t));
    if e.ok && BoardAllows(b, e) {
      var tally := Bumped(Entry(b, e.t));
      WriteCounter(s, b, e.t, tally);
      SameRepresents(Put(s, CounterKey(e.t), Counter(tally.count), tally.deadline),
                     b.(counters := b.counters[e.t := tally]), Obey(s, e), BoardStep(b, e));
    }
  }

  lemma RefreshRefines(s: Store, b: Board, e: Event)
    requires Represents(s, b) && e.Refresh?
    ensures Represents(Obey(s, e), BoardStep(b, e))
  {
    CounterCellAt(s, b, e.t);
    ExpireWrites(s, CounterKey(e.t), Entry(b, e.t), COUNTER_TTL);
    if e.ok && e.t in b.counters {
      var tally := Tally(b.counters[e.t].count, Some(b.clock + COUNTER_TTL));
      WriteCounter(s, b, e.t, tally);
      SameRepresents(Put(s, CounterKey(e.t), Counter(tally.count), tally.deadline),
                     b.(counters := b.counters[e.t := tally]), Obey(s, e), BoardStep(b, e));
    } else {
      SameRepresents(s, b, Obey(s, e), BoardStep(b, e));
    }
  }

  /** One step of the keyspace is one step of the board, possible exactly when the board allows
      it: no name clash and no type error ever gets in the way. */
  lemma StepRefines(s: Store, b: Board, e: Event)
    requires Represents(s, b)
    ensures StoreAllows(s, e) <==> BoardAllows(b, e)
    ensures StoreAllows(s, e) ==> Represents(Obey(s, e), BoardStep(b, e))
  {
    match e
    case Push(_, entry, ok) =>
      PushRefines(s, b, entry);
      if ok {
        SameRepresents(LPush(s, QUEUE_KEY, entry).0, b.(queue := [entry] + b.queue), Obey(s, e), BoardStep(b, e));
      }
    case Bump(_, _, _) =>
      BumpRefines(s, b, e);
    case Refresh(_, _, _) =>
      RefreshRefines(s, b, e);
    case Tick(dt) =>
      AdvanceRefines(s, b, dt);
    case _ =>
  }

  /** The board after a run. */
  function BoardAt(es: seq<Event>): Board {
    if es == [] then EMPTY_BOARD else BoardStep(BoardAt(Front(es)), Last(es))
  }

  /** Refinement over whole runs: after any interleaving, failures, ticks and expiries included,
      the keyspace is the board's. */
  lemma {:induction false} RunRefines(decode: Decoder, es: seq<Event>)
    requires IsRun(decode, es)
    ensures Represents(At(decode, es).store, BoardAt(es))
  {
    if es != [] {
      RunUnfolds(decode, es);
      RunRefines(decode, Front(es));
      StepRefines(At(decode, Front(es)).store, BoardAt(Front(es)), Last(es));
    }
  }

  /** Reading the keyspace through key names gives the board's answers. */
  lemma Readings(s: Store, b: Board, t: Triple)
    requires Represents(s, b)
    ensures TallyOf(s, t) == Entry(b, t)
    ensures QueueOf(s) == b.queue
  {
    CounterCellAt(s, b, t);
  }

  /** After a run, exactly the steps the board allows are possible: a push can always succeed,
      an increment unless the counter is at its maximum, and neither ever meets a cell of the
      wrong type. */
  lemma NextStepAgrees(decode: Decoder, es: seq<Event>, e: Event)
    requires IsRun(decode, es)
    ensures IsRun(decode, es + [e]) <==>
            WorkerReady(At(decode, es).workers, e) && BoardAllows(BoardAt(es), e)
    ensures e.Bump? ==> (BoardAllows(BoardAt(es), e) <==> !e.ok || CountOf(At(decode, es).store, e.t) < 0x7FFF_FFFF_FFFF_FFFF)
  {
    assert Front(es + [e]) == es;
    RunUnfolds(decode, es + [e]);
    RunRefines(decode, es);
    StepRefines(At(decode, es).store, BoardAt(es), e);
    if e.Bump? {
      Readings(At(decode, es).store, BoardAt(es), e.t);
    }
  }

  lemma OneMoreStep(decode: Decoder, es: seq<Event>, e: Event)
    requires IsRun(decode, es) && WorkerReady(At(decode, es).workers, e) && BoardAllows(BoardAt(es), e)
    ensures IsRun(decode, es + [e])
    ensures At(decode, es + [e]).workers == MoveWorker(decode, At(decode, es).workers, e)
    ensures BoardAt(es + [e]) == BoardStep(BoardAt(es), e)
  {
    NextStepAgrees(decode, es, e);
    RunUnfolds(decode, es + [e]);
    assert Front(es + [e]) == es;
  }

  /** What one step does to the counter of `t`. Only successful commands on `t` itself and the
      clock matter. */
  function Own(tally: Option<Tally>, now: nat, e: Event, t: Triple): Option<Tally> {
    match e
    case Bump(_, u, true) => if u == t then Some(Bumped(tally)) else tally
    case Refresh(_, u, true) =>
      if u == t && tally.Some? then Some(tally.value.(deadline := Some(now + COUNTER_TTL))) else tally
    case Tick(dt) => if tally.Some? && LiveTally(tally.value, now + dt) then tally else None
    case _ => tally
  }

  lemma BoardStepIsLocal(b: Board, e: Event, t: Triple)
    ensures Entry(BoardStep(b, e), t) == Own(Entry(b, t), b.clock, e, t)
    ensures BoardStep(b, e).queue == (if e.Push? && e.ok then [e.entry] else []) + b.queue
    ensures BoardStep(b, e).clock == b.clock + if e.Tick? then e.dt else 0
  {
  }

  /** No leak: in the string-keyed store, the counter of each triple moves by its own commands
      and the clock alone, and the queue by pushes alone. */
  lemma StepsAreLocal(decode: Decoder, es: seq<Event>, t: Triple)
    requires es != [] && IsRun(decode, es)
    ensures IsRun(decode, Front(es))
    ensures var before, after, e := At(decode, Front(es)).store, At(decode, es).store, Last(es);
            && TallyOf(after, t) == Own(TallyOf(before, t), before.clock, e, t)
            && QueueOf(after) == (if e.Push? && e.ok then [e.entry] else []) + QueueOf(before)
            && after.clock == before.clock + (if e.Tick? then e.dt else 0)
  {
    RunUnfolds(decode, es);
    BoardReadings(decode, Front(es), t);
    BoardReadings(decode, es, t);
    BoardStepIsLocal(BoardAt(Front(es)), Last(es), t);
  }

  lemma BoardReadings(decode: Decoder, es: seq<Event>, t: Triple)
    requires IsRun(decode, es)
    ensures var s, b := At(decode, es).store, BoardAt(es);
            TallyOf(s, t) == Entry(b, t) && QueueOf(s) == b.queue && s.clock == b.clock
  {
    RunRefines(decode, es);
    Readings(At(decode, es).store, BoardAt(es), t);
  }

  /** The queue keeps its type and never gets a deadline, whatever is counted or refreshed. */
  lemma QueueNeverExpires(decode: Decoder, es: seq<Event>)
    requires IsRun(decode, es)
    ensures var cells := At(decode, es).store.cells;
            "submissionQueue" in cells ==>
              cells["submissionQueue"] == Cell(List(QueueOf(At(decode, es).store)), None)
  {
    RunRefines(decode, es);
  }

  /** Does this event matter to the counter of `t`? */
  predicate Concerns(e: Event, t: Triple) {
    match e
    case Bump(_, u, ok) => ok && u == t
    case Refresh(_, u, ok) => ok && u == t
    case Tick(_) => true
    case _ => false
  }

  function Concerning(es: seq<Event>, t: Triple): seq<Event> {
    if es == [] then []
    else Concerning(Front(es), t) + if Concerns(Last(es), t) then [Last(es)] else []
  }

  /** One counter run on its own: the clock and the counter after these events. */
  function Solo(es: seq<Event>, t: Triple): (nat, Option<Tally>) {
    if es == [] then (0, None)
    else
      var (now, tally) := Solo(Front(es), t);
      var e := Last(es);
      (if e.Tick? then now + e.dt else now, Own(tally, now, e, t))
  }

  lemma {:induction false} SoloIgnoresTheRest(es: seq<Event>, t: Triple)
    ensures Solo(es, t) == Solo(Concerning(es, t), t)
  {
    if es != [] {
      SoloIgnoresTheRest(Front(es), t);
      var kept := Concerning(Front(es), t);
      if Concerns(Last(es), t) {
        assert Front(kept + [Last(es)]) == kept;
      } else {
        assert Concerning(es, t) == kept;
      }
    }
  }

  lemma {:induction false} RunsSolo(decode: Decoder, es: seq<Event>, t: Triple)
    requires IsRun(decode, es)
    ensures Solo(es, t) == (At(decode, es).store.clock, TallyOf(At(decode, es).store, t))
  {
    if es != [] {
      StepsAreLocal(decode, es, t);
      RunsSolo(decode, Front(es), t);
    }
  }

  /** Non-interference: two runs that agree on the clock and on the successful commands for `t`
      leave the same counter for `t`, whatever else they do. */
  lemma CountersAreIndependent(decode: Decoder, es: seq<Event>, fs: seq<Event>, t: Triple)
    requires IsRun(decode, es) && IsRun(decode, fs)
    requires Concerning(es, t) == Concerning(fs, t)
    ensures TallyOf(At(decode, es).store, t) == TallyOf(At(decode, fs).store, t)
  {
    RunsSolo(decode, es, t);
    RunsSolo(decode, fs, t);
    SoloIgnoresTheRest(es, t);
    SoloIgnoresTheRest(fs, t);
  }
}
