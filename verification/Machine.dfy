/** Any number of stream handlers sharing one Redis. Each read and each Redis command of each
    handler is one step; steps of different handlers and of the clock interleave freely.

    An event carries what it did: the chunk read, the read that ended the stream, the entry queued, the triple counted, and
    whether the command succeeded. A command succeeds only if Redis answers without an error;
    it may fail at any time, and then it changes nothing. */
module Machine {
  import opened Wrappers
  import opened Keys
  import opened Wire
  import opened Collector
  import opened Redis

  /** Where one handler stands in its pass. */
  datatype Worker =
    | Reading
    | Holding(entry: QueueEntry, sub: Submission)
    | Pushed(t: Triple)
    | Counted(t: Triple)
    | Stopped(exit: Exit)

  datatype Event =
    | Open(w: nat)
    | Receive(w: nat, chunk: Bytes)
    | Hangup(w: nat, read: Read)
    | Push(w: nat, entry: QueueEntry, ok: bool)
    | Bump(w: nat, t: Triple, ok: bool)
    | Refresh(w: nat, t: Triple, ok: bool)
    | Tick(dt: nat)

  datatype System = System(store: Store, workers: map<nat, Worker>)

  const START := System(Store(0, map[]), map[])

  /** The handlers' side of a step: is some handler at the point where it does this? */
  predicate WorkerReady(workers: map<nat, Worker>, e: Event) {
    match e
    case Open(w) => w !in workers
    case Receive(w, chunk) => w in workers && workers[w] == Reading && |chunk| <= BUFFER_SIZE
    case Hangup(w, read) =>
      w in workers && workers[w] == Reading && read.status != Fine && |read.chunk| <= BUFFER_SIZE
    case Push(w, entry, _) => w in workers && workers[w].Holding? && workers[w].entry == entry
    case Bump(w, t, _) => w in workers && workers[w] == Pushed(t)
    case Refresh(w, t, _) => w in workers && workers[w] == Counted(t)
    case Tick(_) => true
  }

  function Intaken(decode: Decoder, chunk: Bytes): Worker {
    match Examine(decode, chunk)
    case TooShort => Stopped(Panicked)
    case Undecodable => Reading
    case Accepted(entry, sub) => Holding(entry, sub)
  }

  function AfterPush(sub: Submission, ok: bool): Worker {
    if !ok then Reading
    else
      match TripleOf(sub)
      case None => Stopped(Panicked)
      case Some(t) => Pushed(t)
  }

  /** The handlers after a step. A failed increment is logged and the expiry still refreshed. */
  function MoveWorker(decode: Decoder, workers: map<nat, Worker>, e: Event): map<nat, Worker>
    requires WorkerReady(workers, e)
  {
    match e
    case Open(w) => workers[w := Reading]
    case Receive(w, chunk) => workers[w := Intaken(decode, chunk)]
    case Hangup(w, _) => workers[w := Stopped(Returned)]
    case Push(w, _, ok) => workers[w := AfterPush(workers[w].sub, ok)]
    case Bump(w, t, _) => workers[w := Counted(t)]
    case Refresh(w, _, _) => workers[w := Reading]
    case Tick(_) => workers
  }

  /** Redis' side of a step: may this command succeed, if the event says that it did? */
  predicate StoreAllows(s: Store, e: Event) {
    match e
    case Push(_, entry, ok) => ok ==> LPush(s, QUEUE_KEY, entry).1.Done?
    case Bump(_, t, ok) => ok ==> Incr(s, CounterKey(t)).1.Done?
    case _ => true
  }

  function Obey(s: Store, e: Event): Store {
    match e
    case Push(_, entry, ok) => if ok then LPush(s, QUEUE_KEY, entry).0 else s
    case Bump(_, t, ok) => if ok then Incr(s, CounterKey(t)).0 else s
    case Refresh(_, t, ok) => if ok then Expire(s, CounterKey(t), COUNTER_TTL) else s
    case Tick(dt) => Advance(s, dt)
    case _ => s
  }

  predicate Enabled(c: System, e: Event) {
    WorkerReady(c.workers, e) && StoreAllows(c.store, e)
  }

  function Step(decode: Decoder, c: System, e: Event): System
    requires Enabled(c, e)
  {
    System(Obey(c.store, e), MoveWorker(decode, c.workers, e))
  }

  /** The system after a run, if the events form one. */
  function Reach(decode: Decoder, es: seq<Event>): Option<System> {
    if es == [] then Some(START)
    else
      var e := es[|es| - 1];
      match Reach(decode, es[..|es| - 1])
      case None => None
      case Some(c) => if Enabled(c, e) then Some(Step(decode, c, e)) else None
  }

  predicate IsRun(decode: Decoder, es: seq<Event>) {
    Reach(decode, es).Some?
  }

  function At(decode: Decoder, es: seq<Event>): System
    requires IsRun(decode, es)
  {
    Reach(decode, es).value
  }

  function Front(es: seq<Event>): seq<Event>
    requires es != []
  {
    es[..|es| - 1]
  }

  function Last(es: seq<Event>): Event
    requires es != []
  {
    es[|es| - 1]
  }

  /** A non-empty run is a shorter run followed by an enabled step. */
  lemma RunUnfolds(decode: Decoder, es: seq<Event>)
    requires es != []
    ensures IsRun(decode, es) <==> IsRun(decode, Front(es)) && Enabled(At(decode, Front(es)), Last(es))
    ensures IsRun(decode, es) ==> At(decode, es) == Step(decode, At(decode, Front(es)), Last(es))
  {
  }

  /** The queue, newest entry first. */
  function QueueOf(s: Store): seq<QueueEntry> {
    if QUEUE_KEY in s.cells && s.cells[QUEUE_KEY].value.List? then s.cells[QUEUE_KEY].value.entries else []
  }

  /** One counter: its value and when it disappears. */
  datatype Tally = Tally(count: nat, deadline: Option<nat>)

  function TallyOf(s: Store, t: Triple): Option<Tally> {
    var key := CounterKey(t);
    if key in s.cells && s.cells[key].value.Counter?
    then Some(Tally(s.cells[key].value.count, s.cells[key].deadline))
    else None
  }

  function CountOf(s: Store, t: Triple): nat {
    match TallyOf(s, t)
    case None => 0
    case Some(tally) => tally.count
  }
}
