/** The five-minute sliding window of a counter, over timed runs. */
module Timing {
  import opened Wrappers
  import opened Keys
  import opened Wire
  import opened Collector
  import opened Machine
  import opened Refinement
  import opened Conservation

  /** Time elapsed over a run. */
  function Elapsed(es: seq<Event>): nat {
    if es == [] then 0 else Elapsed(Front(es)) + if Last(es).Tick? then Last(es).dt else 0
  }

  /** The window of a triple, read off the timed events alone: not opened yet; open until the
      deadline set by the latest refresh, if there was one; or missed, once a command on the
      triple came at or after that deadline. */
  datatype Window = Unopened | OpenUntil(until: Option<nat>) | MissedWindow

  function Touch(win: Window, now: nat, until: Option<nat>): Window {
    match win
    case OpenUntil(Some(d)) => if d <= now then MissedWindow else OpenUntil(until)
    case OpenUntil(None) => OpenUntil(until)
    case _ => win
  }

  function NextWindow(win: Window, now: nat, e: Event, t: Triple): Window {
    match e
    case Bump(_, u, true) =>
      if u != t then win
      else if win == Unopened then OpenUntil(None)
      else Touch(win, now, if win.OpenUntil? then win.until else None)
    case Refresh(_, u, true) => if u != t then win else Touch(win, now, Some(now + COUNTER_TTL))
    case _ => win
  }

  function WindowOf(es: seq<Event>, t: Triple): Window {
    if es == [] then Unopened
    else NextWindow(WindowOf(Front(es), t), Elapsed(Front(es)), Last(es), t)
  }

  /** Every command on `t` came before the deadline set by the refresh before it, and that
      deadline has not passed since. */
  predicate OnTime(es: seq<Event>, t: Triple) {
    match WindowOf(es, t)
    case Unopened => true
    case OpenUntil(until) => until.Some? ==> Elapsed(es) < until.value
    case MissedWindow => false
  }

  /** How the window and the stored counter hang together. */
  predicate WindowFits(win: Window, now: nat, tally: Option<Tally>, lost: nat) {
    match win
    case Unopened => tally.None? && lost == 0
    case OpenUntil(until) =>
      if until.Some? && until.value <= now then tally.None? && lost > 0
      else tally.Some? && tally.value.deadline == until && tally.value.count > 0 && lost == 0
    case MissedWindow => lost > 0
  }

  lemma {:induction false} ClockIsElapsed(decode: Decoder, es: seq<Event>)
    requires IsRun(decode, es)
    ensures At(decode, es).store.clock == Elapsed(es)
  {
    if es != [] {
      StepsAreLocal(decode, es, Triple("", 0, 0));
      ClockIsElapsed(decode, Front(es));
    }
  }

  lemma WindowFitsStep(win: Window, now: nat, tally: Option<Tally>, lost: nat, e: Event, t: Triple)
    requires WindowFits(win, now, tally, lost)
    ensures var now' := now + if e.Tick? then e.dt else 0;
            var tally' := Own(tally, now, e, t);
            var lost' := lost + if tally'.None? && tally.Some? then tally.value.count else 0;
            WindowFits(NextWindow(win, now, e, t), now', tally', lost')
  {
  }

  lemma {:induction false} WindowFitsStore(decode: Decoder, es: seq<Event>, t: Triple)
    requires IsRun(decode, es)
    ensures WindowFits(WindowOf(es, t), Elapsed(es), TallyOf(At(decode, es).store, t), Lost(decode, es, t))
  {
    if es != [] {
      var before := TallyOf(At(decode, Front(es)).store, t);
      StepsAreLocal(decode, es, t);
      ClockIsElapsed(decode, Front(es));
      WindowFitsStore(decode, Front(es), t);
      WindowFitsStep(WindowOf(Front(es), t), Elapsed(Front(es)), before, Lost(decode, Front(es), t), Last(es), t);
    }
  }

  /** Sliding-window exactness: nothing is ever lost, and the counter is every successful
      increment so far, exactly when every command on the triple was on time. */
  lemma SlidingWindow(decode: Decoder, es: seq<Event>, t: Triple)
    requires IsRun(decode, es)
    ensures OnTime(es, t) <==> Lost(decode, es, t) == 0
    ensures OnTime(es, t) <==> CountOf(At(decode, es).store, t) == Bumps(es, t)
  {
    WindowFitsStore(decode, es, t);
    BumpsAreKeptOrLost(decode, es, t);
  }

  /** In a timed run the counter equals the queue's entries for its triple exactly when commands
      were on time, no increment failed and no handler is about to count. */
  lemma TimelyCounterMatchesQueue(decode: Decoder, es: seq<Event>, t: Triple)
    requires IsRun(decode, es)
    ensures CountOf(At(decode, es).store, t) == EntriesFor(decode, QueueOf(At(decode, es).store), t) <==>
            OnTime(es, t) && Missed(es, t) == 0 && Waiting(At(decode, es).workers, t) == {}
  {
    SlidingWindow(decode, es, t);
    CounterMatchesQueue(decode, es, t);
  }

  /** A stored deadline lies in the next five minutes. */
  lemma {:induction false} DeadlinesAreNear(decode: Decoder, es: seq<Event>, t: Triple)
    requires IsRun(decode, es)
    ensures var s := At(decode, es).store;
            TallyOf(s, t).Some? && TallyOf(s, t).value.deadline.Some? ==>
              s.clock < TallyOf(s, t).value.deadline.value <= s.clock + COUNTER_TTL
  {
    if es != [] {
      StepsAreLocal(decode, es, t);
      DeadlinesAreNear(decode, Front(es), t);
    }
  }

  /** While a counter lives, no step takes its deadline away or moves it back. */
  lemma DeadlinesMoveForward(decode: Decoder, es: seq<Event>, t: Triple)
    requires es != [] && IsRun(decode, es)
    ensures IsRun(decode, Front(es))
    ensures var before, after := TallyOf(At(decode, Front(es)).store, t), TallyOf(At(decode, es).store, t);
            before.Some? && after.Some? && before.value.deadline.Some? ==>
              after.value.deadline.Some? && before.value.deadline.value <= after.value.deadline.value
  {
    StepsAreLocal(decode, es, t);
    DeadlinesAreNear(decode, Front(es), t);
  }

  /** A refresh of `t` has failed since its present counter was created. */
  predicate RefreshFailedInLife(decode: Decoder, es: seq<Event>, t: Triple)
    requires IsRun(decode, es)
  {
    if es == [] then false
    else
      RunUnfolds(decode, es);
      && TallyOf(At(decode, Front(es)).store, t).Some?
      && (RefreshFailedInLife(decode, Front(es), t) || (Last(es).Refresh? && !Last(es).ok && Last(es).t == t))
  }

  /** Some handler is between the increment and the refresh of `t`. */
  predicate RefreshIsComing(workers: map<nat, Worker>, t: Triple) {
    exists w :: w in workers && workers[w] == Counted(t)
  }

  /** A handler about to refresh `t` does so in its own next step and waits until then. */
  lemma ComingUntilRefreshed(decode: Decoder, workers: map<nat, Worker>, e: Event, t: Triple)
    requires WorkerReady(workers, e) && RefreshIsComing(workers, t)
    ensures RefreshIsComing(MoveWorker(decode, workers, e), t) || (e.Refresh? && e.t == t)
  {
    var w :| w in workers && workers[w] == Counted(t);
    if e.Tick? || e.w != w {
      assert w in MoveWorker(decode, workers, e) && MoveWorker(decode, workers, e)[w] == Counted(t);
    }
  }

  /** No immortal counters: a counter without a deadline has a handler about to give it one,
      unless a refresh of that very counter has failed in its present life. */
  lemma {:induction false} NoImmortalCounters(decode: Decoder, es: seq<Event>, t: Triple)
    requires IsRun(decode, es)
    ensures var c := At(decode, es);
            TallyOf(c.store, t).Some? && TallyOf(c.store, t).value.deadline.None? ==>
              RefreshIsComing(c.workers, t) || RefreshFailedInLife(decode, es, t)
  {
    if es != [] {
      var e, c, c' := Last(es), At(decode, Front(es)), At(decode, es);
      RunUnfolds(decode, es);
      StepsAreLocal(decode, es, t);
      NoImmortalCounters(decode, Front(es), t);
      if TallyOf(c'.store, t).Some? && TallyOf(c'.store, t).value.deadline.None? {
        if e.Bump? && e.t == t {
          assert c'.workers[e.w] == Counted(t);
        } else if RefreshIsComing(c.workers, t) {
          ComingUntilRefreshed(decode, c.workers, e, t);
        }
      }
    }
  }

  predicate RefreshesSucceed(es: seq<Event>) {
    forall i :: 0 <= i < |es| && es[i].Refresh? ==> es[i].ok
  }

  lemma {:induction false} NoFailureInLife(decode: Decoder, es: seq<Event>, t: Triple)
    requires IsRun(decode, es) && RefreshesSucceed(es)
    ensures !RefreshFailedInLife(decode, es, t)
  {
    if es != [] {
      RunUnfolds(decode, es);
      assert es[|es| - 1].Refresh? ==> es[|es| - 1].ok;
      NoFailureInLife(decode, Front(es), t);
    }
  }

  /** While expire commands succeed, every counter without a deadline has a handler about to give
      it one. */
  lemma {:induction false} NoImmortalCountersWhileExpiresSucceed(decode: Decoder, es: seq<Event>, t: Triple)
    requires IsRun(decode, es) && RefreshesSucceed(es)
    ensures var c := At(decode, es);
            TallyOf(c.store, t).Some? && TallyOf(c.store, t).value.deadline.None? ==> RefreshIsComing(c.workers, t)
  {
    NoImmortalCounters(decode, es, t);
    NoFailureInLife(decode, es, t);
  }

  /** Successful refreshes of the counter of `t` since it last came into being. */
  function RefreshesInLife(decode: Decoder, es: seq<Event>, t: Triple): nat
    requires IsRun(decode, es)
  {
    if es == [] then 0
    else
      RunUnfolds(decode, es);
      if TallyOf(At(decode, Front(es)).store, t).None? then 0
      else
        RefreshesInLife(decode, Front(es), t)
        + if Last(es).Refresh? && Last(es).ok && Last(es).t == t then 1 else 0
  }

  /** When expire commands may fail: a live counter has no deadline exactly when none of them
      has succeeded since the counter was created. */
  lemma {:induction false} ImmortalUntilRefreshed(decode: Decoder, es: seq<Event>, t: Triple)
    requires IsRun(decode, es) && TallyOf(At(decode, es).store, t).Some?
    ensures TallyOf(At(decode, es).store, t).value.deadline.None? <==> RefreshesInLife(decode, es, t) == 0
  {
    if es != [] {
      RunUnfolds(decode, es);
      StepsAreLocal(decode, es, t);
      if TallyOf(At(decode, Front(es)).store, t).Some? {
        ImmortalUntilRefreshed(decode, Front(es), t);
      }
    }
  }

  /** A single stream that has queued and counted one submission. */
  lemma OneCounted(decode: Decoder, chunk: Bytes, t: Triple) returns (es: seq<Event>)
    requires |chunk| <= 1024
    requires Examine(decode, chunk).Accepted? && TripleOf(Examine(decode, chunk).sub) == Some(t)
    ensures IsRun(decode, es) && At(decode, es).workers == map[0 := Counted(t)]
    ensures BoardAt(es).clock == 0 && BoardAt(es).counters == map[t := Tally(1, None)]
  {
    es := [];
    OneMoreStep(decode, es, Open(0));
    es := es + [Open(0)];
    OneMoreStep(decode, es, Receive(0, chunk));
    es := es + [Receive(0, chunk)];
    var entry := Examine(decode, chunk).entry;
    OneMoreStep(decode, es, Push(0, entry, true));
    es := es + [Push(0, entry, true)];
    OneMoreStep(decode, es, Bump(0, t, true));
    es := es + [Bump(0, t, true)];
  }

  /** One submission whose expire command fails leaves a counter that no passage of time removes,
      with no handler about to refresh it. */
  lemma FailedRefreshLeavesImmortal(decode: Decoder, chunk: Bytes, t: Triple, dt: nat) returns (es: seq<Event>)
    requires |chunk| <= 1024
    requires Examine(decode, chunk).Accepted? && TripleOf(Examine(decode, chunk).sub) == Some(t)
    ensures IsRun(decode, es) && At(decode, es).store.clock == dt
    ensures TallyOf(At(decode, es).store, t) == Some(Tally(1, None))
    ensures At(decode, es).workers == map[0 := Reading]
  {
    es := OneCounted(decode, chunk, t);
    OneMoreStep(decode, es, Refresh(0, t, false));
    es := es + [Refresh(0, t, false)];
    OneMoreStep(decode, es, Tick(dt));
    es := es + [Tick(dt)];
    BoardReadings(decode, es, t);
  }

  /** In numerals: a counter refreshed now is there for exactly the next 300000 milliseconds. */
  lemma {:induction false} RefreshedCounterLastsFiveMinutes(decode: Decoder, es: seq<Event>, dt: nat)
    requires es != [] && IsRun(decode, es) && Last(es).Refresh? && Last(es).ok
    requires TallyOf(At(decode, es).store, Last(es).t).Some?
    ensures IsRun(decode, es + [Tick(dt)])
    ensures TallyOf(At(decode, es + [Tick(dt)]).store, Last(es).t) ==
            if dt < 300_000 then TallyOf(At(decode, es).store, Last(es).t) else None
  {
    var t := Last(es).t;
    StepsAreLocal(decode, es, t);
    OneMoreStep(decode, es, Tick(dt));
    StepsAreLocal(decode, es + [Tick(dt)], t);
    assert Front(es + [Tick(dt)]) == es;
  }
}
