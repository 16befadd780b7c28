/** The bounded alert channel: producers never wait, one consumer drains it. */
module Alerts {
  import opened Wrappers

  datatype Alert = Alert(processName: string, errorMsg: string, timestamp: string, severity: string)

  const CAPACITY: nat := 10_000

  /** One atomic operation on the channel. `Take` is possible only when something is buffered:
      the consumer waits otherwise. */
  datatype Event = Offer(alert: Alert) | Take

  /** The channel and what became of everything that left it or never got in. */
  datatype Traffic = Traffic(buffer: seq<Alert>, delivered: seq<Alert>, dropped: seq<Alert>)

  const QUIET := Traffic([], [], [])

  predicate Possible(tr: Traffic, e: Event) {
    e.Take? ==> tr.buffer != []
  }

  function Step(tr: Traffic, e: Event): Traffic
    requires Possible(tr, e)
  {
    match e
    case Offer(a) =>
      if |tr.buffer| < CAPACITY then tr.(buffer := tr.buffer + [a]) else tr.(dropped := tr.dropped + [a])
    case Take => tr.(buffer := tr.buffer[1..], delivered := tr.delivered + [tr.buffer[0]])
  }

  function Reach(es: seq<Event>): Option<Traffic> {
    if es == [] then Some(QUIET)
    else
      match Reach(es[..|es| - 1])
      case None => None
      case Some(tr) => if Possible(tr, es[|es| - 1]) then Some(Step(tr, es[|es| - 1])) else None
  }

  function Offered(es: seq<Event>): seq<Alert> {
    if es == [] then []
    else Offered(es[..|es| - 1]) + if es[|es| - 1].Offer? then [es[|es| - 1].alert] else []
  }

  function Taken(es: seq<Event>): nat {
    if es == [] then 0 else Taken(es[..|es| - 1]) + if es[|es| - 1].Take? then 1 else 0
  }

  /** For each offer, in order: did it find room? */
  function Verdicts(es: seq<Event>): seq<bool>
    requires Reach(es).Some?
  {
    if es == [] then []
    else
      var front := es[..|es| - 1];
      Verdicts(front) + if es[|es| - 1].Offer? then [|Reach(front).value.buffer| < CAPACITY] else []
  }

  /** The alerts whose verdict is `v`, in order. */
  function WithVerdict(alerts: seq<Alert>, verdicts: seq<bool>, v: bool): seq<Alert>
    requires |alerts| == |verdicts|
  {
    if alerts == [] then []
    else
      var n := |alerts| - 1;
      WithVerdict(alerts[..n], verdicts[..n], v) + if verdicts[n] == v then [alerts[n]] else []
  }

  lemma WithVerdictSnoc(alerts: seq<Alert>, verdicts: seq<bool>, a: Alert, x: bool, v: bool)
    requires |alerts| == |verdicts|
    ensures WithVerdict(alerts + [a], verdicts + [x], v) == WithVerdict(alerts, verdicts, v) + if x == v then [a] else []
  {
    assert (alerts + [a])[..|alerts|] == alerts && (verdicts + [x])[..|alerts|] == verdicts;
  }

  /** The offers that found room are, in order, the delivered ones followed by the buffered
      ones; the others are the dropped ones; and the buffer fits the channel. */
  ghost predicate Accounted(offered: seq<Alert>, verdicts: seq<bool>, tr: Traffic) {
    && |verdicts| == |offered|
    && WithVerdict(offered, verdicts, true) == tr.delivered + tr.buffer
    && WithVerdict(offered, verdicts, false) == tr.dropped
    && |offered| == |tr.delivered| + |tr.buffer| + |tr.dropped|
    && |tr.buffer| <= CAPACITY
  }

  lemma OfferAccounted(offered: seq<Alert>, verdicts: seq<bool>, tr: Traffic, a: Alert)
    requires Accounted(offered, verdicts, tr)
    ensures Accounted(offered + [a], verdicts + [|tr.buffer| < CAPACITY], Step(tr, Offer(a)))
  {
    WithVerdictSnoc(offered, verdicts, a, |tr.buffer| < CAPACITY, true);
    WithVerdictSnoc(offered, verdicts, a, |tr.buffer| < CAPACITY, false);
    assert tr.delivered + (tr.buffer + [a]) == (tr.delivered + tr.buffer) + [a];
  }

  lemma TakeAccounted(offered: seq<Alert>, verdicts: seq<bool>, tr: Traffic)
    requires Accounted(offered, verdicts, tr) && tr.buffer != []
    ensures Accounted(offered, verdicts, Step(tr, Take))
  {
    assert (tr.delivered + [tr.buffer[0]]) + tr.buffer[1..] == tr.delivered + tr.buffer;
  }

  /** Every offer is accounted for, over any mix of producers and consumer. */
  lemma {:induction false} OffersAreAccountedFor(es: seq<Event>)
    requires Reach(es).Some?
    ensures Accounted(Offered(es), Verdicts(es), Reach(es).value)
    ensures |Reach(es).value.delivered| == Taken(es)
  {
    if es != [] {
      var front, e := es[..|es| - 1], es[|es| - 1];
      OffersAreAccountedFor(front);
      if e.Offer? {
        OfferAccounted(Offered(front), Verdicts(front), Reach(front).value, e.alert);
      } else {
        TakeAccounted(Offered(front), Verdicts(front), Reach(front).value);
        assert Offered(es) == Offered(front) && Verdicts(es) == Verdicts(front);
      }
    }
  }

  /** In numerals: with nothing taken, the first 10000 offers are buffered and all later ones
      dropped. */
  lemma {:induction false} TenThousandFit(es: seq<Event>)
    requires Reach(es).Some? && Taken(es) == 0
    ensures var offers := Offered(es);
            if |offers| <= 10_000 then Reach(es).value == Traffic(offers, [], [])
            else Reach(es).value == Traffic(offers[..10_000], [], offers[10_000..])
  {
    if es != [] {
      TenThousandFit(es[..|es| - 1]);
    }
  }

  /** Offers not yet taken. */
  function Outstanding(es: seq<Event>): int {
    |Offered(es)| - Taken(es)
  }

  predicate NeverCrowded(es: seq<Event>) {
    forall n :: 0 <= n <= |es| ==> Outstanding(es[..n]) <= CAPACITY
  }

  lemma NeverCrowdedFront(es: seq<Event>)
    requires es != []
    ensures NeverCrowded(es) <==> NeverCrowded(es[..|es| - 1]) && Outstanding(es) <= CAPACITY
  {
    var front := es[..|es| - 1];
    assert es[..|es|] == es;
    forall n | 0 <= n <= |front|
      ensures front[..n] == es[..n]
    {
    }
    if NeverCrowded(front) && Outstanding(es) <= CAPACITY {
      forall n | 0 <= n <= |es|
        ensures Outstanding(es[..n]) <= CAPACITY
      {
        if n < |es| { assert front[..n] == es[..n]; }
      }
    }
    if NeverCrowded(es) {
      forall n | 0 <= n <= |front|
        ensures Outstanding(front[..n]) <= CAPACITY
      {
        assert front[..n] == es[..n];
      }
    }
  }

  /** Nothing is dropped exactly when there are never more than 10000 offers outstanding. */
  lemma {:induction false} LosslessIffNeverCrowded(es: seq<Event>)
    requires Reach(es).Some?
    ensures Reach(es).value.dropped == [] <==> NeverCrowded(es)
  {
    if es == [] {
      assert es[..0] == es;
    } else {
      var front := es[..|es| - 1];
      LosslessIffNeverCrowded(front);
      OffersAreAccountedFor(front);
      OffersAreAccountedFor(es);
      NeverCrowdedFront(es);
    }
  }

  /** The process-wide channel. `delivered` and `dropped` only record what happened. */
  class AlertChannel {
    var buffer: seq<Alert>
    ghost var delivered: seq<Alert>
    ghost var dropped: seq<Alert>

    ghost predicate Valid()
      reads this
    {
      |buffer| <= CAPACITY
    }

    ghost function State(): Traffic
      reads this
    {
      Traffic(buffer, delivered, dropped)
    }

    constructor ()
      ensures Valid() && State() == QUIET
    {
      buffer, delivered, dropped := [], [], [];
    }

    /** Queues an alert if there is room and drops it otherwise; never waits. */
    method SendFailureNotification(processName: string, errorMsg: string, timestamp: string, severity: string)
      requires Valid()
      modifies this
      ensures Valid()
      ensures State() == Step(old(State()), Offer(Alert(processName, errorMsg, timestamp, severity)))
      ensures buffer == old(buffer) +
                if |old(buffer)| < 10_000 then [Alert(processName, errorMsg, timestamp, severity)] else []
    {
      var issue := Alert(processName, errorMsg, timestamp, severity);
      if |buffer| < CAPACITY {
        buffer := buffer + [issue];
      } else {
        dropped := dropped + [issue];
      }
    }

    method Receive() returns (issue: Alert)
      requires Valid() && buffer != []
      modifies this
      ensures Valid() && State() == Step(old(State()), Take)
      ensures issue == old(buffer)[0] && buffer == old(buffer)[1..]
    {
      issue := buffer[0];
      buffer, delivered := buffer[1..], delivered + [issue];
    }
  }

  /** The channel after producers have offered these alerts. */
  function OfferAll(tr: Traffic, alerts: seq<Alert>): Traffic
    decreases |alerts|
  {
    if alerts == [] then tr else OfferAll(Step(tr, Offer(alerts[0])), alerts[1..])
  }

  /** Producers offer a burst, and then the consumer receives one alert if there is any. */
  function Burst(tr: Traffic, alerts: seq<Alert>): Traffic {
    var offered := OfferAll(tr, alerts);
    if offered.buffer == [] then offered else Step(offered, Take)
  }

  /** The channel after the consumer has taken what it can, one alert after each burst and then
      all that is left. */
  function Consume(tr: Traffic, bursts: seq<seq<Alert>>): Traffic
    decreases |bursts|, |tr.buffer|
  {
    if bursts != [] then Consume(Burst(tr, bursts[0]), bursts[1..])
    else if tr.buffer != [] then Consume(Step(tr, Take), [])
    else tr
  }

  function Flatten(bursts: seq<seq<Alert>>): seq<Alert> {
    if bursts == [] then [] else bursts[0] + Flatten(bursts[1..])
  }

  lemma Snoc(es: seq<Event>, e: Event)
    requires Reach(es).Some? && Possible(Reach(es).value, e)
    ensures Reach(es + [e]) == Some(Step(Reach(es).value, e))
    ensures Offered(es + [e]) == Offered(es) + if e.Offer? then [e.alert] else []
  {
    assert (es + [e])[..|es|] == es;
  }

  lemma {:induction false} OffersAreARun(es: seq<Event>, alerts: seq<Alert>) returns (fs: seq<Event>)
    requires Reach(es).Some?
    ensures Reach(fs) == Some(OfferAll(Reach(es).value, alerts))
    ensures Offered(fs) == Offered(es) + alerts
    decreases |alerts|
  {
    if alerts == [] {
      return es;
    }
    Snoc(es, Offer(alerts[0]));
    fs := OffersAreARun(es + [Offer(alerts[0])], alerts[1..]);
    assert [alerts[0]] + alerts[1..] == alerts;
    assert (Offered(es) + [alerts[0]]) + alerts[1..] == Offered(es) + alerts;
  }

  lemma BurstIsARun(es: seq<Event>, alerts: seq<Alert>) returns (fs: seq<Event>)
    requires Reach(es).Some?
    ensures Reach(fs) == Some(Burst(Reach(es).value, alerts))
    ensures Offered(fs) == Offered(es) + alerts
  {
    fs := OffersAreARun(es, alerts);
    if Reach(fs).value.buffer != [] {
      Snoc(fs, Take);
      fs := fs + [Take];
    }
  }

  lemma {:induction false} DrainingIsARun(es: seq<Event>) returns (fs: seq<Event>)
    requires Reach(es).Some?
    ensures Reach(fs) == Some(Consume(Reach(es).value, []))
    ensures Offered(fs) == Offered(es) && Reach(fs).value.buffer == []
    decreases |Reach(es).value.buffer|
  {
    if Reach(es).value.buffer == [] {
      return es;
    }
    Snoc(es, Take);
    fs := DrainingIsARun(es + [Take]);
  }

  lemma ConsumeUnfolds(tr: Traffic, bursts: seq<seq<Alert>>)
    requires bursts != []
    ensures Consume(tr, bursts) == Consume(Burst(tr, bursts[0]), bursts[1..])
    ensures Flatten(bursts) == bursts[0] + Flatten(bursts[1..])
  {
  }

  /** Consuming between bursts is a run of the channel in which exactly the bursts are offered, in
      order, so all that is proved of runs holds of it; it ends with nothing buffered. */
  lemma {:induction false} ConsumingIsARun(es: seq<Event>, bursts: seq<seq<Alert>>) returns (fs: seq<Event>)
    requires Reach(es).Some?
    ensures Reach(fs) == Some(Consume(Reach(es).value, bursts))
    ensures Offered(fs) == Offered(es) + Flatten(bursts)
    ensures Reach(fs).value.buffer == []
    decreases |bursts|
  {
    if bursts == [] {
      fs := DrainingIsARun(es);
    } else {
      var gs := BurstIsARun(es, bursts[0]);
      fs := ConsumingIsARun(gs, bursts[1..]);
      ConsumeUnfolds(Reach(es).value, bursts);
      assert (Offered(es) + bursts[0]) + Flatten(bursts[1..]) == Offered(es) + (bursts[0] + Flatten(bursts[1..]));
    }
  }

  /** The single consumer; `posted` is what it has handed to the reporting service. */
  class Reporter {
    var posted: seq<Alert>

    constructor ()
      ensures posted == []
    {
      posted := [];
    }

    /** Producers at work while the consumer waits or posts. */
    static method Interfere(channel: AlertChannel, alerts: seq<Alert>)
      requires channel.Valid()
      modifies channel
      ensures channel.Valid() && channel.State() == OfferAll(old(channel.State()), alerts)
      ensures channel.delivered == old(channel.delivered)
    {
      var i := 0;
      while i < |alerts|
        invariant channel.Valid() && i <= |alerts|
        invariant OfferAll(channel.State(), alerts[i..]) == OfferAll(old(channel.State()), alerts)
        invariant channel.delivered == old(channel.delivered)
      {
        assert alerts[i..][1..] == alerts[i + 1..];
        var a := alerts[i];
        channel.SendFailureNotification(a.processName, a.errorMsg, a.timestamp, a.severity);
        i := i + 1;
      }
    }

    /** The consumer's loop, against bursts of alerts offered before each receive, until it would
        wait for ever. */
    method StartListening(channel: AlertChannel, bursts: seq<seq<Alert>>)
      requires channel.Valid()
      modifies this, channel
      ensures channel.Valid()
      ensures channel.State() == Consume(old(channel.State()), bursts)
      ensures old(channel.delivered) <= channel.delivered
      ensures posted == old(posted) + channel.delivered[|old(channel.delivered)|..]
    {
      var i := 0;
      while i < |bursts| || channel.buffer != []
        invariant channel.Valid() && i <= |bursts|
        invariant Consume(channel.State(), bursts[i..]) == Consume(old(channel.State()), bursts)
        invariant old(channel.delivered) <= channel.delivered
        invariant posted == old(posted) + channel.delivered[|old(channel.delivered)|..]
        decreases |bursts| - i, |channel.buffer|
      {
        if i < |bursts| {
          assert bursts[i..][1..] == bursts[i + 1..];
          Interfere(channel, bursts[i]);
          i := i + 1;
        }
        if channel.buffer != [] {
          var issue := channel.Receive();
          posted := posted + [issue];
        }
      }
    }
  }
}
