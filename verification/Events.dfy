/** Pulling contract events out of a log subscription: the iterator returned by the filter calls.
    The same code is generated for every event type; here it is generic over logs and events. */
module Events {
  import opened Wrappers

  type Error = string

  /** Unpacking a raw log: the event, or the error that prevented it. */
  datatype Unpacked<E> = Good(event: E) | Bad(err: Error)
  type Unpacker<!L, E> = L -> Unpacked<E>

  /** The iterator's Event field: nil, freshly allocated, or completely filled in. */
  datatype Item<L, E> = Nil | Blank | Full(event: E, raw: L)

  /** The iterator's own fields. */
  datatype Cursor<L, E> = Cursor(item: Item<L, E>, done: bool, fail: Option<Error>)

  /** The producer's side: logs sent and not yet received and, once the subscription has ended,
      its error (nil if it ended well). */
  datatype Feed<L> = Feed(logs: seq<L>, ended: Option<Option<Error>>)

  /** A call to Next returns at once, or has something to receive. Otherwise it waits. */
  predicate CanReturn<L, E>(it: Cursor<L, E>, feed: Feed<L>) {
    it.fail.Some? || it.done || feed.logs != [] || feed.ended.Some?
  }

  /** When both a log and the end are ready, either may be chosen: `pickLog` says which. */
  predicate CanPick<L, E>(it: Cursor<L, E>, feed: Feed<L>, pickLog: bool) {
    && CanReturn(it, feed)
    && (it.fail.None? && !it.done ==> if pickLog then feed.logs != [] else feed.ended.Some?)
  }

  datatype Outcome<L, E> = Outcome(it: Cursor<L, E>, feed: Feed<L>, more: bool)

  /** Receiving the next log. */
  function TakeLog<L, E>(unpack: Unpacker<L, E>, it: Cursor<L, E>, feed: Feed<L>): Outcome<L, E>
    requires feed.logs != []
  {
    var log := feed.logs[0];
    var rest := feed.(logs := feed.logs[1..]);
    match unpack(log)
    case Good(e) => Outcome(it.(item := Full(e, log)), rest, true)
    case Bad(err) => Outcome(it.(item := Blank, fail := Some(err)), rest, false)
  }

  /** One call to Next. */
  function Next<L, E>(unpack: Unpacker<L, E>, it: Cursor<L, E>, feed: Feed<L>, pickLog: bool): Outcome<L, E>
    requires CanPick(it, feed, pickLog)
    decreases if it.done then 0 else 1
  {
    if it.fail.Some? then Outcome(it, feed, false)
    else if it.done then
      if feed.logs != [] then TakeLog(unpack, it, feed) else Outcome(it, feed, false)
    else if pickLog then TakeLog(unpack, it, feed)
    else Next(unpack, it.(done := true, fail := feed.ended.value), feed, pickLog)
  }

  /** The fields once the end of the subscription has been noticed. */
  function Noticed<L, E>(it: Cursor<L, E>, feed: Feed<L>, pickLog: bool): Cursor<L, E>
    requires CanPick(it, feed, pickLog)
  {
    if it.fail.None? && !it.done && !pickLog then it.(done := true, fail := feed.ended.value) else it
  }

  /** The self-call goes one deep: a call notices the end if it picks it, and then either
      receives the next log or returns false with nothing received. */
  lemma NextUnfolds<L, E>(unpack: Unpacker<L, E>, it: Cursor<L, E>, feed: Feed<L>, pickLog: bool)
    requires CanPick(it, feed, pickLog)
    ensures var it' := Noticed(it, feed, pickLog);
            Next(unpack, it, feed, pickLog) ==
            if it'.fail.None? && feed.logs != [] then TakeLog(unpack, it', feed) else Outcome(it', feed, false)
  {
  }

  /** The generated iterator object, with the subscription it drains. */
  class EventIterator<L, E> {
    const unpack: Unpacker<L, E>
    var item: Item<L, E>
    var done: bool
    var fail: Option<Error>
    var logs: seq<L>
    var ended: Option<Option<Error>>

    ghost function It(): Cursor<L, E>
      reads this
    {
      Cursor(item, done, fail)
    }

    ghost function Source(): Feed<L>
      reads this
    {
      Feed(logs, ended)
    }

    constructor (unpack: Unpacker<L, E>)
      ensures this.unpack == unpack && It() == Cursor(Nil, false, None) && Source() == Feed([], None)
    {
      this.unpack := unpack;
      item, done, fail, logs, ended := Nil, false, None, [], None;
    }

    method Deliver() returns (more: bool)
      requires logs != []
      modifies this`item, this`fail, this`logs
      ensures Outcome(It(), Source(), more) == TakeLog(unpack, old(It()), old(Source()))
    {
      var log := logs[0];
      logs, item := logs[1..], Blank;
      var unpacked := unpack(log);
      if unpacked.Bad? {
        fail := Some(unpacked.err);
        return false;
      }
      item := Full(unpacked.event, log);
      return true;
    }

    /** Advances to the next event; calls itself once when the subscription has ended. */
    method Advance(pickLog: bool) returns (more: bool)
      requires CanPick(It(), Source(), pickLog)
      modifies this`item, this`done, this`fail, this`logs
      ensures Outcome(It(), Source(), more) == Next(unpack, old(It()), old(Source()), pickLog)
      decreases if done then 0 else 1
    {
      if fail.Some? {
        return false;
      }
      if done {
        if logs == [] {
          return false;
        }
        more := Deliver();
        return;
      }
      if pickLog {
        more := Deliver();
      } else {
        done, fail := true, ended.value;
        more := Advance(pickLog);
      }
    }
  }

  /** One step of producer or consumer. The producer sends nothing after the end. */
  datatype Event<L> = Produce(log: L) | End(err: Option<Error>) | Call(pickLog: bool)

  datatype State<L, E> = State(it: Cursor<L, E>, feed: Feed<L>, more: bool)

  predicate Possible<L, E>(s: State<L, E>, e: Event<L>) {
    match e
    case Produce(_) => s.feed.ended.None?
    case End(_) => s.feed.ended.None?
    case Call(pickLog) => CanPick(s.it, s.feed, pickLog)
  }

  function Step<L, E>(unpack: Unpacker<L, E>, s: State<L, E>, e: Event<L>): State<L, E>
    requires Possible(s, e)
  {
    match e
    case Produce(log) => s.(feed := s.feed.(logs := s.feed.logs + [log]))
    case End(err) => s.(feed := s.feed.(ended := Some(err)))
    case Call(pickLog) =>
      var o := Next(unpack, s.it, s.feed, pickLog);
      State(o.it, o.feed, o.more)
  }

  function Start<L, E>(): State<L, E> {
    State(Cursor(Nil, false, None), Feed([], None), true)
  }

  /** The state after a run; `more` is what the latest call returned. */
  function Reach<L, E>(unpack: Unpacker<L, E>, es: seq<Event<L>>): Option<State<L, E>> {
    if es == [] then Some(Start())
    else
      match Reach(unpack, es[..|es| - 1])
      case None => None
      case Some(s) =>
        if Possible(s, es[|es| - 1]) then Some(Step(unpack, s, es[|es| - 1])) else None
  }

  function Produced<L>(es: seq<Event<L>>): seq<L> {
    if es == [] then []
    else Produced(es[..|es| - 1]) + if es[|es| - 1].Produce? then [es[|es| - 1].log] else []
  }

  /** The raw logs of the events handed out: one for each call that returned true. */
  function Delivered<L, E>(unpack: Unpacker<L, E>, es: seq<Event<L>>): seq<L>
    requires Reach(unpack, es).Some?
  {
    if es == [] then []
    else
      var s := Reach(unpack, es).value;
      Delivered(unpack, es[..|es| - 1]) +
      if es[|es| - 1].Call? && s.more && s.it.item.Full? then [s.it.item.raw] else []
  }

  /** A log received but not delivered: at most one, the one that failed to unpack. */
  predicate Spoiled<L, E>(unpack: Unpacker<L, E>, it: Cursor<L, E>, bad: seq<L>) {
    bad == [] || (|bad| == 1 && unpack(bad[0]).Bad? && it.fail == Some(unpack(bad[0]).err))
  }

  predicate AllGood<L, E>(unpack: Unpacker<L, E>, logs: seq<L>) {
    forall i :: 0 <= i < |logs| ==> unpack(logs[i]).Good?
  }

  /** What holds between calls: flags that say the subscription ended are right, a failure has a
      cause, and a call that returned false had one. */
  predicate Sound<L, E>(s: State<L, E>, bad: seq<L>) {
    && (s.it.done ==> s.feed.ended.Some?)
    && (s.it.done && s.it.fail.None? ==> s.feed.ended == Some(None))
    && (s.it.fail.Some? && bad == [] ==> s.feed.ended == Some(s.it.fail))
    && (!s.more ==> s.it.fail.Some? || (s.it.done && s.feed.logs == []))
  }

  lemma CallStep<L, E>(unpack: Unpacker<L, E>, s: State<L, E>, pickLog: bool, given: seq<L>, bad: seq<L>)
    returns (given': seq<L>, bad': seq<L>)
    requires CanPick(s.it, s.feed, pickLog) && Spoiled(unpack, s.it, bad) && Sound(s, bad) && AllGood(unpack, given)
    ensures var s' := Step(unpack, s, Call(pickLog));
            && given' == given + (if s'.more && s'.it.item.Full? then [s'.it.item.raw] else [])
            && given' + bad' + s'.feed.logs == given + bad + s.feed.logs
            && Spoiled(unpack, s'.it, bad') && Sound(s', bad') && AllGood(unpack, given')
  {
    var s' := Step(unpack, s, Call(pickLog));
    given' := given + if s'.more && s'.it.item.Full? then [s'.it.item.raw] else [];
    bad' := bad;
    NextUnfolds(unpack, s.it, s.feed, pickLog);
    var it, logs := Noticed(s.it, s.feed, pickLog), s.feed.logs;
    if it.fail.None? && logs != [] {
      if !s'.more {
        bad' := [logs[0]];
      }
      assert bad == [] && given' + bad' == given + [logs[0]];
      assert (given + [logs[0]]) + logs[1..] == given + logs;
    } else {
      assert given' == given;
    }
  }

  /** Every log produced is, in order, delivered, spoiled (at most one) or still pending. */
  lemma {:induction false} LogsAreAccountedFor<L, E>(unpack: Unpacker<L, E>, es: seq<Event<L>>)
    returns (bad: seq<L>)
    requires Reach(unpack, es).Some?
    ensures var s := Reach(unpack, es).value;
            && Produced(es) == Delivered(unpack, es) + bad + s.feed.logs
            && Spoiled(unpack, s.it, bad) && Sound(s, bad) && AllGood(unpack, Delivered(unpack, es))
  {
    if es == [] {
      return [];
    }
    var front, e := es[..|es| - 1], es[|es| - 1];
    var s, given := Reach(unpack, front).value, Delivered(unpack, front);
    bad := LogsAreAccountedFor(unpack, front);
    match e
    case Call(pickLog) =>
      given, bad := CallStep(unpack, s, pickLog, given, bad);
    case Produce(log) =>
      assert Delivered(unpack, es) == given;
      assert (given + bad + s.feed.logs) + [log] == given + bad + (s.feed.logs + [log]);
    case End(_) =>
      assert Delivered(unpack, es) == given;
  }

  /** The delivered logs are always an ordered prefix of the produced ones; and when a call has
      returned false, Error() is nil exactly when the subscription ended well and everything it
      sent could be unpacked, in which case everything has been delivered. */
  lemma CompleteUnlessError<L, E>(unpack: Unpacker<L, E>, es: seq<Event<L>>)
    requires Reach(unpack, es).Some?
    ensures var s := Reach(unpack, es).value;
            && Delivered(unpack, es) <= Produced(es)
            && (!s.more ==> (s.it.fail.None? <==> s.feed.ended == Some(None) && AllGood(unpack, Produced(es))))
            && (!s.more && s.it.fail.None? ==> Delivered(unpack, es) == Produced(es))
  {
    var s := Reach(unpack, es).value;
    var bad := LogsAreAccountedFor(unpack, es);
    var delivered := Delivered(unpack, es);
    assert Produced(es) == delivered + (bad + s.feed.logs);
    if bad != [] {
      assert Produced(es)[|delivered|] == bad[0];
    }
  }

  /** A call that returns true hands out the next log together with what it unpacks to, and once
      the subscription has ended brings draining one log nearer its end. */
  lemma TrueCallDelivers<L, E>(unpack: Unpacker<L, E>, it: Cursor<L, E>, feed: Feed<L>, pickLog: bool)
    requires CanPick(it, feed, pickLog)
    ensures var o := Next(unpack, it, feed, pickLog);
            o.more ==>
              && feed.logs != [] && feed.logs == [feed.logs[0]] + o.feed.logs
              && unpack(feed.logs[0]).Good?
              && o.it.item == Full(unpack(feed.logs[0]).event, feed.logs[0])
              && o.it.fail.None?
  {
    NextUnfolds(unpack, it, feed, pickLog);
  }

  /** The reasons for returning false, and all that the call changes in each case: a log that
      cannot be unpacked was received; there was a failure already, or the channel has been
      drained; or the end was just noticed, with an error or with nothing pending. */
  lemma FalseCallExplained<L, E>(unpack: Unpacker<L, E>, it: Cursor<L, E>, feed: Feed<L>, pickLog: bool)
    requires CanPick(it, feed, pickLog) && !Next(unpack, it, feed, pickLog).more
    ensures var o := Next(unpack, it, feed, pickLog);
            var noticed := it.fail.None? && !it.done && !pickLog;
            && o.feed.ended == feed.ended
            && (o.it.done <==> it.done || noticed)
            && if it.fail.Some? then
                 o.it == it && o.feed == feed
               else if noticed && feed.ended.value.Some? then
                 o.it.fail == feed.ended.value && o.it.item == it.item && o.feed == feed
               else if feed.logs == [] then
                 o.it.fail.None? && o.it.item == it.item && o.feed == feed
               else
                 && unpack(feed.logs[0]).Bad?
                 && o.it.fail == Some(unpack(feed.logs[0]).err)
                 && o.it.item == Blank
                 && o.feed.logs == feed.logs[1..]
  {
    NextUnfolds(unpack, it, feed, pickLog);
  }

  lemma ReachSnoc<L, E>(unpack: Unpacker<L, E>, es: seq<Event<L>>, e: Event<L>)
    ensures Reach(unpack, es + [e]) ==
            match Reach(unpack, es)
            case None => None
            case Some(s) => if Possible(s, e) then Some(Step(unpack, s, e)) else None
  {
    assert (es + [e])[..|es|] == es;
  }

  /** The first false is final: whatever happens next, later calls return false as well, hand
      out nothing, receive nothing, and leave the iterator's fields alone. */
  lemma {:induction false} FalseIsFinal<L, E>(unpack: Unpacker<L, E>, es: seq<Event<L>>, fs: seq<Event<L>>)
    requires Reach(unpack, es + fs).Some? && Reach(unpack, es).Some? && !Reach(unpack, es).value.more
    ensures var s, s' := Reach(unpack, es).value, Reach(unpack, es + fs).value;
            && !s'.more && s'.it == s.it
            && Delivered(unpack, es + fs) == Delivered(unpack, es)
            && s'.feed.logs == s.feed.logs + Produced(fs)
    decreases |fs|
  {
    if fs == [] {
      assert es + fs == es;
    } else {
      var front, e := fs[..|fs| - 1], fs[|fs| - 1];
      assert es + fs == (es + front) + [e];
      assert (es + fs)[..|es + fs| - 1] == es + front;
      ReachSnoc(unpack, es + front, e);
      FalseIsFinal(unpack, es, front);
      var t := Reach(unpack, es + front).value;
      var bad := LogsAreAccountedFor(unpack, es + front);
      if e.Call? {
        NextUnfolds(unpack, t.it, t.feed, e.pickLog);
      }
    }
  }

  /** Once the iterator has noticed the end it never forgets it, and a failure stays the same. */
  lemma {:induction false} FlagsStay<L, E>(unpack: Unpacker<L, E>, es: seq<Event<L>>, fs: seq<Event<L>>)
    requires Reach(unpack, es).Some? && Reach(unpack, es + fs).Some?
    ensures var it, it' := Reach(unpack, es).value.it, Reach(unpack, es + fs).value.it;
            && (it.done ==> it'.done)
            && (it.fail.Some? ==> it'.fail == it.fail && it'.item == it.item)
    decreases |fs|
  {
    if fs == [] {
      assert es + fs == es;
    } else {
      var front, e := fs[..|fs| - 1], fs[|fs| - 1];
      assert es + fs == (es + front) + [e];
      ReachSnoc(unpack, es + front, e);
      FlagsStay(unpack, es, front);
      var t := Reach(unpack, es + front).value;
      if e.Call? {
        NextUnfolds(unpack, t.it, t.feed, e.pickLog);
      }
    }
  }

  function Calls<L>(es: seq<Event<L>>): nat {
    if es == [] then 0 else Calls(es[..|es| - 1]) + if es[|es| - 1].Call? then 1 else 0
  }

  /** Calls that returned true. */
  function TrueCalls<L, E>(unpack: Unpacker<L, E>, es: seq<Event<L>>): nat
    requires Reach(unpack, es).Some?
  {
    if es == [] then 0
    else
      TrueCalls(unpack, es[..|es| - 1]) + if es[|es| - 1].Call? && Reach(unpack, es).value.more then 1 else 0
  }

  lemma CallAfterEnd<L, E>(unpack: Unpacker<L, E>, s: State<L, E>, pickLog: bool, bad: seq<L>)
    requires CanPick(s.it, s.feed, pickLog) && s.feed.ended.Some? && Sound(s, bad)
    ensures var s' := Step(unpack, s, Call(pickLog));
            && s'.feed.ended == s.feed.ended
            && |s'.feed.logs| <= |s.feed.logs|
            && (s'.more ==> s.more && |s'.feed.logs| == |s.feed.logs| - 1)
  {
    NextUnfolds(unpack, s.it, s.feed, pickLog);
  }

  /** Termination: after the end at most as many further calls return true as logs are pending,
      and once there have been more calls than that the latest has returned false. */
  lemma {:induction false} DrainingEnds<L, E>(unpack: Unpacker<L, E>, es: seq<Event<L>>, fs: seq<Event<L>>)
    requires Reach(unpack, es).Some? && Reach(unpack, es + fs).Some? && Reach(unpack, es).value.feed.ended.Some?
    ensures var s, s' := Reach(unpack, es).value, Reach(unpack, es + fs).value;
            && s'.feed.ended == s.feed.ended
            && TrueCalls(unpack, es + fs) + |s'.feed.logs| <= TrueCalls(unpack, es) + |s.feed.logs|
            && (s'.more ==> Calls(fs) + |s'.feed.logs| == |s.feed.logs|)
            && (Calls(fs) > |s.feed.logs| ==> !s'.more)
    decreases |fs|
  {
    if fs == [] {
      assert es + fs == es;
    } else {
      var front, e := fs[..|fs| - 1], fs[|fs| - 1];
      assert es + fs == (es + front) + [e];
      assert (es + fs)[..|es + fs| - 1] == es + front;
      ReachSnoc(unpack, es + front, e);
      DrainingEnds(unpack, es, front);
      var t := Reach(unpack, es + front).value;
      var bad := LogsAreAccountedFor(unpack, es + front);
      if e.Call? {
        CallAfterEnd(unpack, t, e.pickLog, bad);
      }
    }
  }
}
