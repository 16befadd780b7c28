/** Every queued submission is accounted for: counted, lost to expiry, missed by a failed
    increment, or still to be counted. */
module Conservation {
  import opened Wrappers
  import opened Keys
  import opened Wire
  import opened Machine
  import opened Refinement

  /** A handler holds exactly what its chunk decodes to. */
  ghost predicate Faithful(decode: Decoder, workers: map<nat, Worker>) {
    forall w :: w in workers && workers[w].Holding? ==>
      Coherent(decode, workers[w].entry) && decode(workers[w].entry.data) == Some(workers[w].sub)
  }

  lemma {:induction false} HandlersAreFaithful(decode: Decoder, es: seq<Event>)
    requires IsRun(decode, es)
    ensures Faithful(decode, At(decode, es).workers)
  {
    if es != [] {
      RunUnfolds(decode, es);
      HandlersAreFaithful(decode, Front(es));
      if Last(es).Receive? && Examine(decode, Last(es).chunk).Accepted? {
        ExamineExact(decode, Last(es).chunk, Examine(decode, Last(es).chunk).entry);
      }
    }
  }

  /** Queue entries to be counted under `t`. */
  function EntriesFor(decode: Decoder, queue: seq<QueueEntry>, t: Triple): nat {
    if queue == [] then 0
    else (if EntryTriple(decode, queue[0]) == Some(t) then 1 else 0) + EntriesFor(decode, queue[1..], t)
  }

  /** Handlers that have pushed a submission for `t` and not yet sent its increment. */
  function Waiting(workers: map<nat, Worker>, t: Triple): set<nat> {
    set w | w in workers && workers[w] == Pushed(t)
  }

  /** Successful increments of `t`. */
  function Bumps(es: seq<Event>, t: Triple): nat {
    if es == [] then 0
    else Bumps(Front(es), t) + if Last(es).Bump? && Last(es).ok && Last(es).t == t then 1 else 0
  }

  /** Failed increments of `t`. */
  function Missed(es: seq<Event>, t: Triple): nat {
    if es == [] then 0
    else Missed(Front(es), t) + if Last(es).Bump? && !Last(es).ok && Last(es).t == t then 1 else 0
  }

  /** What the counter of `t` held each time it expired, summed up. */
  function Lost(decode: Decoder, es: seq<Event>, t: Triple): nat
    requires IsRun(decode, es)
  {
    if es == [] then 0
    else
      RunUnfolds(decode, es);
      var before, after := At(decode, Front(es)).store, At(decode, es).store;
      Lost(decode, Front(es), t) + if TallyOf(after, t).None? then CountOf(before, t) else 0
  }

  lemma WaitingAfterMove(workers: map<nat, Worker>, w: nat, p: Worker, t: Triple)
    ensures Waiting(workers[w := p], t) ==
            if p == Pushed(t) then Waiting(workers, t) + {w} else Waiting(workers, t) - {w}
  {
  }

  /** How one step changes the number of waiting handlers. */
  lemma WaitingStep(decode: Decoder, es: seq<Event>, t: Triple)
    requires es != [] && IsRun(decode, es)
    ensures IsRun(decode, Front(es))
    ensures var before, after, e := At(decode, Front(es)).workers, At(decode, es).workers, Last(es);
            |Waiting(after, t)| ==
            |Waiting(before, t)|
            + (if e.Push? && e.ok && EntryTriple(decode, e.entry) == Some(t) then 1 else 0)
            - (if e.Bump? && e.t == t then 1 else 0)
  {
    RunUnfolds(decode, es);
    HandlersAreFaithful(decode, Front(es));
    var before, after, e := At(decode, Front(es)).workers, At(decode, es).workers, Last(es);
    if !e.Tick? {
      WaitingAfterMove(before, e.w, after[e.w], t);
      assert after == before[e.w := after[e.w]];
      assert e.w in Waiting(before, t) <==> e.w in before && before[e.w] == Pushed(t);
    }
  }

  /** Increments are either in the counter or were lost with it. */
  lemma {:induction false} BumpsAreKeptOrLost(decode: Decoder, es: seq<Event>, t: Triple)
    requires IsRun(decode, es)
    ensures Bumps(es, t) == CountOf(At(decode, es).store, t) + Lost(decode, es, t)
  {
    if es != [] {
      StepsAreLocal(decode, es, t);
      BumpsAreKeptOrLost(decode, Front(es), t);
    }
  }

  /** Each queued submission for `t` was followed by an increment, successful or not, unless
      its handler has not got that far. */
  lemma {:induction false} EntriesAreBumpedOrWaiting(decode: Decoder, es: seq<Event>, t: Triple)
    requires IsRun(decode, es)
    ensures EntriesFor(decode, QueueOf(At(decode, es).store), t) ==
            Bumps(es, t) + Missed(es, t) + |Waiting(At(decode, es).workers, t)|
  {
    if es != [] {
      StepsAreLocal(decode, es, t);
      WaitingStep(decode, es, t);
      EntriesAreBumpedOrWaiting(decode, Front(es), t);
      var e, before := Last(es), QueueOf(At(decode, Front(es)).store);
      if e.Push? && e.ok {
        assert ([e.entry] + before)[1..] == before;
      } else {
        assert [] + before == before;
      }
    }
  }

  /** Conservation, in every reachable state and for every triple. */
  lemma {:induction false} QueueIsAccountedFor(decode: Decoder, es: seq<Event>, t: Triple)
    requires IsRun(decode, es)
    ensures EntriesFor(decode, QueueOf(At(decode, es).store), t) ==
            CountOf(At(decode, es).store, t) + Lost(decode, es, t) + Missed(es, t)
            + |Waiting(At(decode, es).workers, t)|
  {
    BumpsAreKeptOrLost(decode, es, t);
    EntriesAreBumpedOrWaiting(decode, es, t);
  }

  /** The counter never exceeds the queue's entries for its triple, and equals them exactly when
      nothing expired, no increment failed and no handler is about to count. */
  lemma {:induction false} CounterMatchesQueue(decode: Decoder, es: seq<Event>, t: Triple)
    requires IsRun(decode, es)
    ensures var entries := EntriesFor(decode, QueueOf(At(decode, es).store), t);
            && CountOf(At(decode, es).store, t) <= entries
            && (CountOf(At(decode, es).store, t) == entries <==>
                Lost(decode, es, t) == 0 && Missed(es, t) == 0 && Waiting(At(decode, es).workers, t) == {})
  {
    QueueIsAccountedFor(decode, es, t);
  }
}
