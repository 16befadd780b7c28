/** What each stream contributes to a run: its handler follows the sequential loop, and the
    queue merges the streams without reordering any of them. */
module Streams {
  import opened Wrappers
  import opened Keys
  import opened Wire
  import opened Collector
  import opened Redis
  import opened Machine
  import opened Refinement
  import opened Conservation

  function Amend(rs: seq<Round>, e: Event): seq<Round> {
    if rs == [] then []
    else
      var front, last := rs[..|rs| - 1], rs[|rs| - 1];
      match e
      case Push(_, _, ok) => front + [last.(pushOk := ok)]
      case Bump(_, _, ok) => front + [last.(incrOk := ok)]
      case Refresh(_, _, ok) => front + [last.(expireOk := ok)]
      case _ => rs
  }

  predicate By(e: Event, w: nat) {
    !e.Tick? && e.w == w
  }

  /** A handler's passes after one more event of its own. */
  function NextRounds(rs: seq<Round>, e: Event): seq<Round> {
    match e
    case Receive(_, chunk) => rs + [Round(Read.Read(chunk, Fine), false, false, false)]
    case Hangup(_, read) => rs + [Round(read, false, false, false)]
    case _ => Amend(rs, e)
  }

  /** The passes of handler `w` as the outside world played them in this run. */
  function RoundsOf(es: seq<Event>, w: nat): seq<Round> {
    if es == [] then []
    else if By(Last(es), w) then NextRounds(RoundsOf(Front(es), w), Last(es))
    else RoundsOf(Front(es), w)
  }

  /** The command an event sent to Redis, if any. */
  function CommandOf(e: Event): seq<Command> {
    match e
    case Push(_, entry, ok) => [SendPush(entry, ok)]
    case Bump(_, t, ok) => [SendIncr(CounterKey(t), ok)]
    case Refresh(_, t, ok) => [SendExpire(CounterKey(t), COUNTER_TTL, ok)]
    case _ => []
  }

  /** The commands handler `w` issued in this run. */
  function IssuedBy(es: seq<Event>, w: nat): seq<Command> {
    if es == [] then []
    else IssuedBy(Front(es), w) + if By(Last(es), w) then CommandOf(Last(es)) else []
  }

  /** The pass in progress has read this chunk and the loop was still running before it. */
  predicate InPass(decode: Decoder, rs: seq<Round>, entry: QueueEntry, sub: Submission) {
    && rs != []
    && ExitOf(decode, rs[..|rs| - 1]) == Running
    && rs[|rs| - 1].read.status == Fine
    && Examine(decode, rs[|rs| - 1].read.chunk) == Accepted(entry, sub)
  }

  /** The push of a pass whose chunk was accepted. */
  function PushOf(decode: Decoder, r: Round): Command
    requires Examine(decode, r.read.chunk).Accepted?
  {
    SendPush(Examine(decode, r.read.chunk).entry, r.pushOk)
  }

  predicate Counting(decode: Decoder, rs: seq<Round>, t: Triple) {
    && rs != []
    && ExitOf(decode, rs[..|rs| - 1]) == Running
    && rs[|rs| - 1].read.status == Fine
    && Examine(decode, rs[|rs| - 1].read.chunk).Accepted?
    && TripleOf(Examine(decode, rs[|rs| - 1].read.chunk).sub) == Some(t)
    && rs[|rs| - 1].pushOk
  }

  /** A handler in state `p`, having gone through `rs`, has issued `issued`: the commands of all
      finished passes and those of the pass in progress up to where it stands. */
  predicate Follows(decode: Decoder, p: Worker, rs: seq<Round>, issued: seq<Command>) {
    match p
    case Reading => ExitOf(decode, rs) == Running && issued == Commands(decode, rs)
    case Stopped(exit) => ExitOf(decode, rs) == exit != Running && issued == Commands(decode, rs)
    case Holding(entry, sub) => InPass(decode, rs, entry, sub) && issued == Commands(decode, rs[..|rs| - 1])
    case Pushed(t) =>
      && Counting(decode, rs, t)
      && issued == Commands(decode, rs[..|rs| - 1]) + [PushOf(decode, rs[|rs| - 1])]
    case Counted(t) =>
      && Counting(decode, rs, t)
      && issued == Commands(decode, rs[..|rs| - 1])
                   + [PushOf(decode, rs[|rs| - 1]), SendIncr(CounterKey(t), rs[|rs| - 1].incrOk)]
  }

  lemma ReceiveFollows(decode: Decoder, rs: seq<Round>, issued: seq<Command>, chunk: Bytes)
    requires Follows(decode, Reading, rs, issued)
    ensures Follows(decode, Intaken(decode, chunk), rs + [Round(Read.Read(chunk, Fine), false, false, false)], issued)
  {
    var r := Round(Read.Read(chunk, Fine), false, false, false);
    CommandsSnoc(decode, rs, r);
    assert (rs + [r])[..|rs + [r]| - 1] == rs;
  }

  lemma HangupFollows(decode: Decoder, rs: seq<Round>, issued: seq<Command>, read: Read)
    requires Follows(decode, Reading, rs, issued) && read.status != Fine
    ensures Follows(decode, Stopped(Returned), rs + [Round(read, false, false, false)], issued)
  {
    CommandsSnoc(decode, rs, Round(read, false, false, false));
  }

  lemma PushFollows(decode: Decoder, rs: seq<Round>, issued: seq<Command>, e: Event, sub: Submission)
    requires e.Push? && Follows(decode, Holding(e.entry, sub), rs, issued)
    ensures Follows(decode, AfterPush(sub, e.ok), Amend(rs, e), issued + [SendPush(e.entry, e.ok)])
  {
    var front, r := rs[..|rs| - 1], rs[|rs| - 1].(pushOk := e.ok);
    CommandsSnoc(decode, front, r);
    assert (front + [r])[..|front + [r]| - 1] == front;
    assert !e.ok || TripleOf(sub).None? ==> RoundCommands(decode, r) == [SendPush(e.entry, e.ok)];
  }

  lemma BumpFollows(decode: Decoder, rs: seq<Round>, issued: seq<Command>, e: Event)
    requires e.Bump? && Follows(decode, Pushed(e.t), rs, issued)
    ensures Follows(decode, Counted(e.t), Amend(rs, e), issued + [SendIncr(CounterKey(e.t), e.ok)])
  {
    var front, r := rs[..|rs| - 1], rs[|rs| - 1].(incrOk := e.ok);
    assert (front + [r])[..|front + [r]| - 1] == front;
    assert PushOf(decode, r) == PushOf(decode, rs[|rs| - 1]);
  }

  /** A pass that counted is a finished pass of the loop. */
  lemma FinishedPass(decode: Decoder, front: seq<Round>, r: Round, t: Triple)
    requires Counting(decode, front + [r], t)
    ensures ExitOf(decode, front + [r]) == Running
    ensures Commands(decode, front + [r]) ==
            Commands(decode, front)
            + ([PushOf(decode, r), SendIncr(CounterKey(t), r.incrOk)] + [SendExpire(CounterKey(t), COUNTER_TTL, r.expireOk)])
  {
    assert (front + [r])[..|front + [r]| - 1] == front;
    CommandsSnoc(decode, front, r);
    CountingCommands(decode, r, t);
  }

  lemma RefreshFollows(decode: Decoder, rs: seq<Round>, issued: seq<Command>, e: Event)
    requires e.Refresh? && Follows(decode, Counted(e.t), rs, issued)
    ensures Follows(decode, Reading, Amend(rs, e), issued + [SendExpire(CounterKey(e.t), COUNTER_TTL, e.ok)])
  {
    var front, r := rs[..|rs| - 1], rs[|rs| - 1].(expireOk := e.ok);
    assert (front + [r])[..|front + [r]| - 1] == front;
    assert PushOf(decode, r) == PushOf(decode, rs[|rs| - 1]);
    FinishedPass(decode, front, r, e.t);
  }

  /** One event of a handler's own keeps it in step with the loop. */
  lemma FollowsStep(decode: Decoder, workers: map<nat, Worker>, rs: seq<Round>, issued: seq<Command>, e: Event)
    requires !e.Tick? && WorkerReady(workers, e)
    requires if e.w in workers then Follows(decode, workers[e.w], rs, issued) else rs == [] && issued == []
    ensures Follows(decode, MoveWorker(decode, workers, e)[e.w], NextRounds(rs, e), issued + CommandOf(e))
  {
    assert issued + [] == issued;
    match e
    case Receive(_, chunk) => ReceiveFollows(decode, rs, issued, chunk);
    case Hangup(_, read) => HangupFollows(decode, rs, issued, read);
    case Push(w, _, _) => PushFollows(decode, rs, issued, e, workers[w].sub);
    case Bump(_, _, _) => BumpFollows(decode, rs, issued, e);
    case Refresh(_, _, _) => RefreshFollows(decode, rs, issued, e);
    case Open(_) =>
  }

  /** In any interleaving, each handler does what the sequential loop does on its own stream:
      between passes it has issued exactly the loop's commands, and inside a pass the first part
      of that pass' commands as well. */
  lemma {:induction false} HandlersFollowTheLoop(decode: Decoder, es: seq<Event>, w: nat)
    requires IsRun(decode, es)
    ensures var workers := At(decode, es).workers;
            if w in workers then Follows(decode, workers[w], RoundsOf(es, w), IssuedBy(es, w))
            else RoundsOf(es, w) == [] && IssuedBy(es, w) == []
  {
    if es != [] {
      RunUnfolds(decode, es);
      HandlersFollowTheLoop(decode, Front(es), w);
      if By(Last(es), w) {
        FollowsStep(decode, At(decode, Front(es)).workers, RoundsOf(Front(es), w), IssuedBy(Front(es), w), Last(es));
      } else {
        assert IssuedBy(Front(es), w) + [] == IssuedBy(Front(es), w);
      }
    }
  }

  /** After one more possible event, with what it changes for each stream. */
  lemma PlayOne(decode: Decoder, es: seq<Event>, e: Event, w: nat)
    requires IsRun(decode, es) && !e.Tick? && e.w == w
    requires WorkerReady(At(decode, es).workers, e) && BoardAllows(BoardAt(es), e)
    ensures IsRun(decode, es + [e])
    ensures At(decode, es + [e]).workers == MoveWorker(decode, At(decode, es).workers, e)
    ensures BoardAt(es + [e]) == BoardStep(BoardAt(es), e)
    ensures IssuedBy(es + [e], w) == IssuedBy(es, w) + CommandOf(e)
    ensures forall v :: v != w ==> IssuedBy(es + [e], v) == IssuedBy(es, v)
  {
    OneMoreStep(decode, es, e);
    assert Front(es + [e]) == es;
  }

  function AfterPass(exit: Exit): Worker {
    if exit == Running then Reading else Stopped(exit)
  }

  /** The first two events of a pass whose chunk is accepted. */
  lemma PlayPush(decode: Decoder, es: seq<Event>, w: nat, r: Round) returns (gs: seq<Event>)
    requires IsRun(decode, es) && w in At(decode, es).workers && At(decode, es).workers[w] == Reading
    requires |r.read.chunk| <= 1024 && Examine(decode, r.read.chunk).Accepted?
    ensures IsRun(decode, es + gs)
    ensures At(decode, es + gs).workers == At(decode, es).workers[w := AfterPush(Examine(decode, r.read.chunk).sub, r.pushOk)]
    ensures BoardAt(es + gs).counters == BoardAt(es).counters
    ensures IssuedBy(es + gs, w) == IssuedBy(es, w) + [SendPush(Examine(decode, r.read.chunk).entry, r.pushOk)]
    ensures forall v :: v != w ==> IssuedBy(es + gs, v) == IssuedBy(es, v)
  {
    var receive, push := Receive(w, r.read.chunk), Push(w, Examine(decode, r.read.chunk).entry, r.pushOk);
    gs := [receive, push];
    PlayOne(decode, es, receive, w);
    PlayOne(decode, es + [receive], push, w);
    assert es + gs == es + [receive] + [push];
  }

  /** The last two events of a pass that counts. */
  lemma PlayCount(decode: Decoder, es: seq<Event>, w: nat, t: Triple, incrOk: bool, expireOk: bool) returns (gs: seq<Event>)
    requires IsRun(decode, es) && w in At(decode, es).workers && At(decode, es).workers[w] == Pushed(t)
    requires incrOk && t in BoardAt(es).counters ==> BoardAt(es).counters[t].count < MAX_COUNT
    ensures IsRun(decode, es + gs)
    ensures At(decode, es + gs).workers == At(decode, es).workers[w := Reading]
    ensures IssuedBy(es + gs, w) ==
            IssuedBy(es, w) + [SendIncr(CounterKey(t), incrOk)] + [SendExpire(CounterKey(t), COUNTER_TTL, expireOk)]
    ensures forall v :: v != w ==> IssuedBy(es + gs, v) == IssuedBy(es, v)
  {
    var bump, refresh := Bump(w, t, incrOk), Refresh(w, t, expireOk);
    gs := [bump, refresh];
    PlayOne(decode, es, bump, w);
    PlayOne(decode, es + [bump], refresh, w);
    assert es + gs == es + [bump] + [refresh];
  }

  /** The increment of this pass, if it gets that far and is to succeed, has room. */
  predicate HasRoom(decode: Decoder, s: Store, r: Round) {
    var x := Examine(decode, r.read.chunk);
    r.incrOk && x.Accepted? && TripleOf(x.sub).Some? ==> CountOf(s, TripleOf(x.sub).value) < 0x7FFF_FFFF_FFFF_FFFF
  }

  lemma ThreeMore(cs: seq<Command>, a: Command, b: Command, c: Command)
    ensures cs + [a] + [b] + [c] == cs + ([a, b] + [c])
  {
  }

  lemma Associates(a: seq<Event>, b: seq<Event>, c: seq<Event>)
    ensures a + (b + c) == a + b + c
  {
  }

  lemma PlayAccepted(decode: Decoder, es: seq<Event>, w: nat, r: Round) returns (fs: seq<Event>)
    requires IsRun(decode, es) && w in At(decode, es).workers && At(decode, es).workers[w] == Reading
    requires |r.read.chunk| <= 1024 && r.read.status == Fine && Examine(decode, r.read.chunk).Accepted?
    requires HasRoom(decode, At(decode, es).store, r)
    ensures IsRun(decode, es + fs)
    ensures At(decode, es + fs).workers == At(decode, es).workers[w := AfterPass(RoundExit(decode, r))]
    ensures IssuedBy(es + fs, w) == IssuedBy(es, w) + RoundCommands(decode, r)
    ensures forall v :: v != w ==> IssuedBy(es + fs, v) == IssuedBy(es, v)
  {
    fs := PlayPush(decode, es, w, r);
    var triple := TripleOf(Examine(decode, r.read.chunk).sub);
    if r.pushOk && triple.Some? {
      BoardReadings(decode, es, triple.value);
      var gs := PlayCount(decode, es + fs, w, triple.value, r.incrOk, r.expireOk);
      CountingCommands(decode, r, triple.value);
      ThreeMore(IssuedBy(es, w), SendPush(Examine(decode, r.read.chunk).entry, r.pushOk),
                SendIncr(CounterKey(triple.value), r.incrOk), SendExpire(CounterKey(triple.value), COUNTER_TTL, r.expireOk));
      Associates(es, fs, gs);
      fs := fs + gs;
    }
  }

  /** Conversely, the concurrent system leaves out nothing the loop can do: from any reachable
      state, a handler about to read can go through any pass at all, short of incrementing a
      counter beyond its maximum, and it then sends what the loop sends and ends as the loop
      does, while nothing happens to the others. */
  lemma AnyPassCanBePlayed(decode: Decoder, es: seq<Event>, w: nat, r: Round) returns (fs: seq<Event>)
    requires IsRun(decode, es) && w in At(decode, es).workers && At(decode, es).workers[w] == Reading
    requires |r.read.chunk| <= 1024 && HasRoom(decode, At(decode, es).store, r)
    ensures IsRun(decode, es + fs)
    ensures At(decode, es + fs).workers == At(decode, es).workers[w := AfterPass(RoundExit(decode, r))]
    ensures IssuedBy(es + fs, w) == IssuedBy(es, w) + RoundCommands(decode, r)
    ensures forall v :: v != w ==> IssuedBy(es + fs, v) == IssuedBy(es, v)
  {
    if r.read.status != Fine {
      fs := [Hangup(w, r.read)];
      PlayOne(decode, es, fs[0], w);
    } else if !Examine(decode, r.read.chunk).Accepted? {
      fs := [Receive(w, r.read.chunk)];
      PlayOne(decode, es, fs[0], w);
    } else {
      fs := PlayAccepted(decode, es, w, r);
    }
  }

  /** Queue entries in the order they were accepted. */
  function OldestFirst(queue: seq<QueueEntry>): seq<QueueEntry> {
    if queue == [] then [] else OldestFirst(queue[1..]) + [queue[0]]
  }

  /** The streams of the accepted entries, in the order of acceptance. */
  function Origins(es: seq<Event>): seq<nat> {
    if es == [] then []
    else Origins(Front(es)) + if Last(es).Push? && Last(es).ok then [Last(es).w] else []
  }

  /** The part of `entries` that came from stream `w`, in order. */
  function FromStream(entries: seq<QueueEntry>, origins: seq<nat>, w: nat): seq<QueueEntry>
    requires |entries| == |origins|
  {
    if entries == [] then []
    else
      var n := |entries| - 1;
      FromStream(entries[..n], origins[..n], w) + if origins[n] == w then [entries[n]] else []
  }

  /** The entries a handler's commands put on the queue, in order. */
  function AcceptedIn(cs: seq<Command>): seq<QueueEntry> {
    if cs == [] then []
    else
      var c := cs[|cs| - 1];
      AcceptedIn(cs[..|cs| - 1]) + if c.SendPush? && c.ok then [c.entry] else []
  }

  lemma AcceptedAppend(cs: seq<Command>, more: seq<Command>)
    requires |more| <= 1
    ensures AcceptedIn(cs + more) == AcceptedIn(cs) + AcceptedIn(more)
  {
    if more == [] {
      assert cs + more == cs;
    } else {
      assert (cs + more)[..|cs + more| - 1] == cs;
      assert more[..|more| - 1] == [];
    }
  }

  lemma FromStreamSnoc(entries: seq<QueueEntry>, origins: seq<nat>, entry: QueueEntry, v: nat, w: nat)
    requires |entries| == |origins|
    ensures FromStream(entries + [entry], origins + [v], w) ==
            FromStream(entries, origins, w) + if v == w then [entry] else []
  {
    assert (entries + [entry])[..|entries|] == entries && (origins + [v])[..|origins|] == origins;
  }

  lemma OldestFirstCons(entry: QueueEntry, queue: seq<QueueEntry>)
    ensures OldestFirst([entry] + queue) == OldestFirst(queue) + [entry]
  {
    assert ([entry] + queue)[1..] == queue;
  }

  lemma IssuedAccepted(es: seq<Event>, w: nat)
    requires es != []
    ensures AcceptedIn(IssuedBy(es, w)) ==
            AcceptedIn(IssuedBy(Front(es), w)) +
            if By(Last(es), w) && Last(es).Push? && Last(es).ok then [Last(es).entry] else []
  {
    var more := if By(Last(es), w) then CommandOf(Last(es)) else [];
    AcceptedAppend(IssuedBy(Front(es), w), more);
    AcceptedCommand(Last(es));
  }

  lemma AcceptedCommand(e: Event)
    ensures AcceptedIn(CommandOf(e)) == if e.Push? && e.ok then [e.entry] else []
  {
    assert AcceptedIn([]) == [];
    if CommandOf(e) != [] {
      assert CommandOf(e)[..|CommandOf(e)| - 1] == [];
    }
  }

  /** Acceptance order and origins of the entries, one step at a time. */
  lemma OldestFirstStep(decode: Decoder, es: seq<Event>)
    requires es != [] && IsRun(decode, es)
    ensures IsRun(decode, Front(es))
    ensures OldestFirst(QueueOf(At(decode, es).store)) ==
            OldestFirst(QueueOf(At(decode, Front(es)).store))
            + if Last(es).Push? && Last(es).ok then [Last(es).entry] else []
  {
    StepsAreLocal(decode, es, Triple("", 0, 0));
    var e, queue := Last(es), QueueOf(At(decode, Front(es)).store);
    if e.Push? && e.ok {
      OldestFirstCons(e.entry, queue);
    } else {
      assert [] + queue == queue;
    }
  }

  /** The queue, oldest entry first, is an order-preserving merge of what the streams had
      accepted: the entries from each stream, in their order on the queue, are the ones its
      handler pushed, in the order it pushed them. */
  lemma {:induction false} QueueMergesStreams(decode: Decoder, es: seq<Event>, w: nat)
    requires IsRun(decode, es)
    ensures var oldest := OldestFirst(QueueOf(At(decode, es).store));
            && |oldest| == |Origins(es)|
            && FromStream(oldest, Origins(es), w) == AcceptedIn(IssuedBy(es, w))
  {
    if es != [] {
      OldestFirstStep(decode, es);
      QueueMergesStreams(decode, Front(es), w);
      IssuedAccepted(es, w);
      var e, oldest := Last(es), OldestFirst(QueueOf(At(decode, Front(es)).store));
      if e.Push? && e.ok {
        FromStreamSnoc(oldest, Origins(Front(es)), e.entry, e.w, w);
      } else {
        assert oldest + [] == oldest && Origins(es) == Origins(Front(es));
      }
    }
  }

  /** Between passes, a stream's share of the queue is what the sequential loop accepts from the
      chunks that stream delivered. */
  lemma QueueMergesLoops(decode: Decoder, es: seq<Event>, w: nat)
    requires IsRun(decode, es) && w in At(decode, es).workers
    requires var p := At(decode, es).workers[w]; p.Reading? || p.Stopped?
    ensures var oldest := OldestFirst(QueueOf(At(decode, es).store));
            && |oldest| == |Origins(es)|
            && FromStream(oldest, Origins(es), w) == AcceptedIn(Commands(decode, RoundsOf(es, w)))
  {
    QueueMergesStreams(decode, es, w);
    HandlersFollowTheLoop(decode, es, w);
  }

  ghost predicate WasRead(es: seq<Event>, entry: QueueEntry) {
    exists w :: Receive(w, entry.id + entry.data) in es
  }

  lemma ReadStaysRead(es: seq<Event>, entry: QueueEntry)
    requires es != [] && WasRead(Front(es), entry)
    ensures WasRead(es, entry)
  {
    var w :| Receive(w, entry.id + entry.data) in Front(es);
    assert Receive(w, entry.id + entry.data) in es;
  }

  /** The entry a handler holds was cut from a chunk that was read. */
  lemma {:induction false} HeldEntriesWereRead(decode: Decoder, es: seq<Event>, w: nat)
    requires IsRun(decode, es) && w in At(decode, es).workers && At(decode, es).workers[w].Holding?
    ensures WasRead(es, At(decode, es).workers[w].entry)
  {
    RunUnfolds(decode, es);
    var e, entry := Last(es), At(decode, es).workers[w].entry;
    if By(e, w) && e.Receive? {
      ExamineExact(decode, e.chunk, entry);
      assert Receive(w, entry.id + entry.data) == es[|es| - 1];
    } else {
      HeldEntriesWereRead(decode, Front(es), w);
      ReadStaysRead(es, entry);
    }
  }

  /** Coherence of the queue in every reachable state: each entry's id followed by its data is a
      chunk that was read, the id is 36 bytes, and the data decodes to the stored market. */
  lemma {:induction false} QueueIsCoherent(decode: Decoder, es: seq<Event>, entry: QueueEntry)
    requires IsRun(decode, es) && entry in QueueOf(At(decode, es).store)
    ensures Coherent(decode, entry) && WasRead(es, entry)
  {
    if es != [] {
      var e := Last(es);
      StepsAreLocal(decode, es, Triple("", 0, 0));
      if entry in QueueOf(At(decode, Front(es)).store) {
        QueueIsCoherent(decode, Front(es), entry);
      } else {
        RunUnfolds(decode, es);
        HandlersAreFaithful(decode, Front(es));
        HeldEntriesWereRead(decode, Front(es), e.w);
      }
      ReadStaysRead(es, entry);
    }
  }

  /** The latest entry handler `w` put on the queue. */
  function LatestPush(es: seq<Event>, w: nat): Option<QueueEntry> {
    if es == [] then None
    else if By(Last(es), w) && Last(es).Push? && Last(es).ok then Some(Last(es).entry)
    else LatestPush(Front(es), w)
  }

  lemma QueueKeepsEntries(decode: Decoder, es: seq<Event>, entry: QueueEntry)
    requires es != [] && IsRun(decode, es)
    ensures IsRun(decode, Front(es))
    ensures entry in QueueOf(At(decode, es).store) <==>
            || entry in QueueOf(At(decode, Front(es)).store)
            || (Last(es).Push? && Last(es).ok && Last(es).entry == entry)
  {
    StepsAreLocal(decode, es, Triple("", 0, 0));
  }

  lemma PushedTripleIsTheEntrys(decode: Decoder, es: seq<Event>, t: Triple)
    requires es != [] && IsRun(decode, es) && Last(es).Push? && Last(es).ok
    requires var w := Last(es).w; w in At(decode, es).workers && At(decode, es).workers[w] in {Pushed(t), Counted(t)}
    ensures EntryTriple(decode, Last(es).entry) == Some(t)
  {
    RunUnfolds(decode, es);
    HandlersAreFaithful(decode, Front(es));
  }

  /** The triple a handler counts is the one decoded from the entry it has just queued. */
  lemma {:induction false} CountedIsWhatWasQueued(decode: Decoder, es: seq<Event>, w: nat, t: Triple)
    requires IsRun(decode, es) && w in At(decode, es).workers
    requires At(decode, es).workers[w] in {Pushed(t), Counted(t)}
    ensures LatestPush(es, w).Some?
    ensures LatestPush(es, w).value in QueueOf(At(decode, es).store)
    ensures decode(LatestPush(es, w).value.data) == Some(Submission(t.market, Some(Request(t.slot, t.epoch))))
  {
    RunUnfolds(decode, es);
    var e := Last(es);
    if By(e, w) && e.Push? && e.ok {
      PushedTripleIsTheEntrys(decode, es, t);
      EntryTripleInFields(decode, e.entry, t);
      QueueKeepsEntries(decode, es, e.entry);
    } else {
      CountedIsWhatWasQueued(decode, Front(es), w, t);
      QueueKeepsEntries(decode, es, LatestPush(es, w).value);
    }
  }
}
