/** The watch loop: forwards unpacked events from a log subscription to a sink until it is told to
    quit, the subscription ends, or a log cannot be unpacked. */
module Watch {
  import opened Wrappers
  import opened Events

  /** The outcome of one select: a log arrived, the subscription ended, quit was requested, or
      the sink accepted the event in hand. */
  datatype Choice<L> = Arrived(log: L) | Ended(err: Option<Error>) | QuitAsked | Accepted

  /** An event on its way to the sink. */
  datatype Parcel<L, E> = Parcel(event: E, raw: L)

  /** Waiting at the outer select; holding an event at the inner one; or returned, with what the
      loop returned and the log it had read but not forwarded, if any. */
  datatype Place<L, E> =
    | Waiting
    | Holding(parcel: Parcel<L, E>)
    | Stopped(result: Option<Error>, left: seq<L>)

  datatype Watcher<L, E> = Watcher(place: Place<L, E>, sent: seq<Parcel<L, E>>)

  predicate Legal<L, E>(w: Watcher<L, E>, c: Choice<L>) {
    match w.place
    case Waiting => !c.Accepted?
    case Holding(_) => !c.Arrived?
    case Stopped(_, _) => false
  }

  function Choose<L, E>(unpack: Unpacker<L, E>, w: Watcher<L, E>, c: Choice<L>): Watcher<L, E>
    requires Legal(w, c)
  {
    var held := if w.place.Holding? then [w.place.parcel.raw] else [];
    match c
    case Arrived(log) =>
      (match unpack(log)
       case Good(e) => w.(place := Holding(Parcel(e, log)))
       case Bad(err) => w.(place := Stopped(Some(err), [log])))
    case Accepted => Watcher(Waiting, w.sent + [w.place.parcel])
    case Ended(err) => w.(place := Stopped(err, held))
    case QuitAsked => w.(place := Stopped(None, held))
  }

  /** The loop after these selects, if they can happen in this order. */
  function Run<L, E>(unpack: Unpacker<L, E>, cs: seq<Choice<L>>): Option<Watcher<L, E>> {
    if cs == [] then Some(Watcher(Waiting, []))
    else
      match Run(unpack, cs[..|cs| - 1])
      case None => None
      case Some(w) => if Legal(w, cs[|cs| - 1]) then Some(Choose(unpack, w, cs[|cs| - 1])) else None
  }

  lemma {:induction false} RunsHavePrefixes<L, E>(unpack: Unpacker<L, E>, cs: seq<Choice<L>>, n: nat)
    requires n <= |cs| && Run(unpack, cs).Some?
    ensures Run(unpack, cs[..n]).Some?
    ensures n < |cs| ==> Legal(Run(unpack, cs[..n]).value, cs[n])
    decreases |cs|
  {
    if n == |cs| {
      assert cs[..n] == cs;
    } else {
      var front := cs[..|cs| - 1];
      RunsHavePrefixes(unpack, front, n);
      assert front[..n] == cs[..n];
    }
  }

  lemma NextSelect<L, E>(unpack: Unpacker<L, E>, cs: seq<Choice<L>>, i: nat)
    requires i < |cs| && Run(unpack, cs).Some?
    ensures Run(unpack, cs[..i]).Some? && Legal(Run(unpack, cs[..i]).value, cs[i])
    ensures Run(unpack, cs[..i + 1]) == Some(Choose(unpack, Run(unpack, cs[..i]).value, cs[i]))
  {
    RunsHavePrefixes(unpack, cs, i);
    assert cs[..i + 1][..i] == cs[..i];
  }

  /** The logs the loop has received, in order. */
  function Received<L>(cs: seq<Choice<L>>): seq<L> {
    if cs == [] then []
    else Received(cs[..|cs| - 1]) + if cs[|cs| - 1].Arrived? then [cs[|cs| - 1].log] else []
  }

  function Raws<L, E>(parcels: seq<Parcel<L, E>>): seq<L> {
    seq(|parcels|, i requires 0 <= i < |parcels| => parcels[i].raw)
  }

  /** Received and not forwarded. */
  function InHand<L, E>(place: Place<L, E>): seq<L> {
    match place
    case Waiting => []
    case Holding(parcel) => [parcel.raw]
    case Stopped(_, left) => left
  }

  /** A parcel carries what its raw log unpacks to. */
  ghost predicate Genuine<L, E>(unpack: Unpacker<L, E>, parcel: Parcel<L, E>) {
    unpack(parcel.raw) == Good(parcel.event)
  }

  /** Why the loop returned what it did, given the select it returned from. */
  ghost predicate StoppedBy<L, E>(unpack: Unpacker<L, E>, place: Place<L, E>, c: Choice<L>)
    requires place.Stopped?
  {
    match c
    case Arrived(log) => place.left == [log] && unpack(log).Bad? && place.result == Some(unpack(log).err)
    case Ended(err) => place.result == err && AllGood(unpack, place.left)
    case QuitAsked => place.result == None && AllGood(unpack, place.left)
    case Accepted => false
  }

  /** In every reachable state the logs received are, in order, the events forwarded and at most
      one more, and every event is what its log unpacks to. The loop has returned exactly when
      its last select brought the end of the subscription, a request to quit, or a log that
      cannot be unpacked, and it returns accordingly. */
  lemma {:induction false} ForwardsAllButOne<L, E>(unpack: Unpacker<L, E>, cs: seq<Choice<L>>)
    requires Run(unpack, cs).Some?
    ensures var w := Run(unpack, cs).value;
            && Received(cs) == Raws(w.sent) + InHand(w.place)
            && |InHand(w.place)| <= 1
            && (forall i :: 0 <= i < |w.sent| ==> Genuine(unpack, w.sent[i]))
            && (w.place.Holding? ==> Genuine(unpack, w.place.parcel))
            && (w.place.Stopped? ==> cs != [] && StoppedBy(unpack, w.place, cs[|cs| - 1]))
    ensures Run(unpack, cs).value.place.Stopped? <==>
            cs != [] && var last := cs[|cs| - 1];
            last.Ended? || last.QuitAsked? || (last.Arrived? && unpack(last.log).Bad?)
  {
    if cs != [] {
      var front, c := cs[..|cs| - 1], cs[|cs| - 1];
      var w := Run(unpack, front).value;
      ForwardsAllButOne(unpack, front);
      if c.Accepted? {
        assert Raws(w.sent + [w.place.parcel]) == Raws(w.sent) + [w.place.parcel.raw];
      }
    }
  }

  /** Which select can come next, told from the last one: none once the loop has returned; after a
      log came in, anything but another log; otherwise anything but the sink. */
  lemma NextSelectExactly<L, E>(unpack: Unpacker<L, E>, cs: seq<Choice<L>>, c: Choice<L>)
    requires Run(unpack, cs).Some?
    ensures Run(unpack, cs + [c]).Some? <==>
            if cs == [] then !c.Accepted?
            else
              match cs[|cs| - 1]
              case Arrived(log) => unpack(log).Good? && !c.Arrived?
              case Accepted => !c.Accepted?
              case _ => false
  {
    assert (cs + [c])[..|cs|] == cs;
    if cs != [] {
      RunsHavePrefixes(unpack, cs, |cs| - 1);
    }
  }

  /** Where the loop's results go. */
  class Sink<L, E> {
    var received: seq<Parcel<L, E>>

    constructor ()
      ensures received == []
    {
      received := [];
    }
  }

  /** The forwarding goroutine, played against the outcomes of its selects. It ends by
      returning, or blocked at one of the two selects when the outcomes run out. */
  method Forward<L, E>(unpack: Unpacker<L, E>, choices: seq<Choice<L>>, sink: Sink<L, E>) returns (place: Place<L, E>)
    requires Run(unpack, choices).Some?
    modifies sink
    ensures place == Run(unpack, choices).value.place
    ensures sink.received == old(sink.received) + Run(unpack, choices).value.sent
    ensures Received(choices) == Raws(sink.received[|old(sink.received)|..]) + InHand(place)
    ensures place.Stopped? <==>
            choices != [] && var last := choices[|choices| - 1];
            last.Ended? || last.QuitAsked? || (last.Arrived? && unpack(last.log).Bad?)
  {
    ForwardsAllButOne(unpack, choices);
    ghost var whole := Run(unpack, choices).value.sent;
    assert (old(sink.received) + whole)[|old(sink.received)|..] == whole;
    var i := 0;
    place := Waiting;
    ghost var sent: seq<Parcel<L, E>> := [];
    while i < |choices|
      invariant i <= |choices|
      invariant Run(unpack, choices[..i]) == Some(Watcher(place, sent))
      invariant sink.received == old(sink.received) + sent
      invariant place.Waiting? || i == |choices|
    {
      NextSelect(unpack, choices, i);
      var choice := choices[i];
      i := i + 1;
      match choice
      case Ended(err) =>
        StopsAtEnd(unpack, choices, i);
        return Stopped(err, []);
      case QuitAsked =>
        StopsAtEnd(unpack, choices, i);
        return Stopped(None, []);
      case Arrived(log) =>
        var unpacked := unpack(log);
        if unpacked.Bad? {
          StopsAtEnd(unpack, choices, i);
          return Stopped(Some(unpacked.err), [log]);
        }
        var event := Parcel(unpacked.event, log);
        if i == |choices| {
          place := Holding(event);
          break;
        }
        NextSelect(unpack, choices, i);
        choice := choices[i];
        i := i + 1;
        match choice
        case Accepted =>
          sink.received := sink.received + [event];
          sent := sent + [event];
        case Ended(err) =>
          StopsAtEnd(unpack, choices, i);
          return Stopped(err, [log]);
        case QuitAsked =>
          StopsAtEnd(unpack, choices, i);
          return Stopped(None, [log]);
    }
    assert choices[..i] == choices;
  }

  /** Once the loop has returned there are no further selects. */
  lemma StopsAtEnd<L, E>(unpack: Unpacker<L, E>, cs: seq<Choice<L>>, n: nat)
    requires n <= |cs| && Run(unpack, cs).Some?
    requires Run(unpack, cs[..n]).Some? && Run(unpack, cs[..n]).value.place.Stopped?
    ensures n == |cs| && cs[..n] == cs
  {
    RunsHavePrefixes(unpack, cs, n);
  }
}
