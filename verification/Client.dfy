/** The Redis client functions. Each takes, for every command it issues, whether that command gets
    through to the server (`up`); failures are reported on the alert channel. */
module Client {
  import opened Wrappers
  import opened Redis
  import opened Alerts

  /** The members a reader of an index set sees; a failed read looks like an empty set. */
  function MembersOf(s: Store, key: string): set<string> {
    match SMembers(s, key)
    case Done(ms) => ms
    case _ => {}
  }

  /** The arguments of one call of SetSubmission. */
  datatype Submit = Submit(key: string, value: string, index: string, ttl: Expiration)

  /** The first command of a call got through and was accepted. */
  predicate Filed(s: Store, call: Submit, upAdd: bool) {
    upAdd && SAdd(s, call.index, call.key).1.Done?
  }

  /** An uninterrupted call on the store: the index is written first, and the value only if that
      worked. */
  function Submitted(s: Store, call: Submit, upAdd: bool, upSet: bool): Store {
    if !Filed(s, call, upAdd) then s
    else
      var filed := SAdd(s, call.index, call.key).0;
      if upSet then SetText(filed, call.key, call.value, call.ttl) else filed
  }

  /** The deadline a value gets, given the cell it is written to. */
  predicate DueIn(before: Store, key: string, ttl: Expiration, deadline: Option<nat>) {
    match ttl
    case After(ms) => deadline == (if ms > 0 then Some(before.clock + ms) else None)
    case Keep => deadline == (if key in before.cells then before.cells[key].deadline else None)
  }

  /** A call said on cells. If the index name is free or holds a set, the key joins that set; if
      the second command got through too, the key's cell then holds the value and its deadline;
      nothing else changes. */
  ghost predicate SubmittedInCells(before: Store, after: Store, key: string, value: string, index: string,
                                   ttl: Expiration, upAdd: bool, failed: bool)
  {
    if !upAdd || (index in before.cells && !before.cells[index].value.Members?) then
      failed && after == before
    else
      && after.clock == before.clock
      && (failed || index != key ==>
          index in after.cells && after.cells[index] ==
            if index in before.cells
            then Cell(Members(before.cells[index].value.members + {key}), before.cells[index].deadline)
            else Cell(Members({key}), None))
      && (!failed ==>
          && key in after.cells
          && after.cells[key].value == Text(value)
          && DueIn(before, key, ttl, after.cells[key].deadline))
      && (forall k :: k != index && (failed || k != key) ==>
          (k in after.cells <==> k in before.cells) && (k in before.cells ==> after.cells[k] == before.cells[k]))
  }

  lemma SubmittedOnCells(s: Store, call: Submit, upAdd: bool, upSet: bool)
    ensures SubmittedInCells(s, Submitted(s, call, upAdd, upSet), call.key, call.value, call.index, call.ttl, upAdd,
                             !(Filed(s, call, upAdd) && upSet))
  {
  }

  class Client {
    const alerts: AlertChannel
    var store: Store

    constructor (alerts: AlertChannel, store: Store)
      ensures this.alerts == alerts && this.store == store
    {
      this.alerts, this.store := alerts, store;
    }

    /** The count after the increment, or zero and an error. An existing deadline stays. */
    method Increment(key: string, up: bool) returns (count: nat, failed: bool)
      modifies this`store
      ensures failed <==> !(up && Incr(old(store), key).1.Done?)
      ensures !failed <==>
              up && (key in old(store).cells ==>
                old(store).cells[key].value.Counter? && old(store).cells[key].value.count < 0x7FFF_FFFF_FFFF_FFFF)
      ensures store == if failed then old(store) else Incr(old(store), key).0
      ensures count == if failed then 0 else Incr(old(store), key).1.value
      ensures !failed ==>
                && count == (if key in old(store).cells then old(store).cells[key].value.count + 1 else 1)
                && store.clock == old(store).clock
                && store.cells == old(store).cells[key :=
                     Cell(Counter(count), if key in old(store).cells then old(store).cells[key].deadline else None)]
    {
      if !up {
        return 0, true;
      }
      var (after, reply) := Incr(store, key);
      store := after;
      match reply
      case Done(n) => return n, false;
      case _ => return 0, true;
    }

    /** Adds the key to its index set and then writes its value. Either command may fail; the
        second is not tried if the first failed. One alert is offered for a failure. */
    method SetSubmission(key: string, value: string, index: string, ttl: Expiration, upAdd: bool, upSet: bool, now: string)
      returns (failed: bool)
      requires alerts.Valid()
      modifies this`store, alerts
      ensures alerts.Valid()
      ensures failed <==> !(Filed(old(store), Submit(key, value, index, ttl), upAdd) && upSet)
      ensures store == Submitted(old(store), Submit(key, value, index, ttl), upAdd, upSet)
      ensures SubmittedInCells(old(store), store, key, value, index, ttl, upAdd, failed)
      ensures if failed then exists cause ::
                alerts.State() == Alerts.Step(old(alerts.State()), Offer(Alert("Redis error", cause, now, "High")))
              else alerts.State() == old(alerts.State())
    {
      SubmittedOnCells(store, Submit(key, value, index, ttl), upAdd, upSet);
      var added := false;
      if upAdd {
        var (after, reply) := SAdd(store, index, key);
        store, added := after, reply.Done?;
      }
      if !added {
        alerts.SendFailureNotification("Redis error", "SADD failed", now, "High");
        return true;
      }
      if !upSet {
        alerts.SendFailureNotification("Redis error", "SET failed", now, "High");
        return true;
      }
      store := SetText(store, key, value, ttl);
      return false;
    }

    /** A missing key reads as the empty string without error or alert. */
    method Get(key: string, up: bool, now: string) returns (value: string, failed: bool)
      requires alerts.Valid()
      modifies alerts
      ensures alerts.Valid()
      ensures failed <==> !up || (key in store.cells && !store.cells[key].value.Text?)
      ensures value == if !failed && key in store.cells then store.cells[key].value.text else ""
      ensures if failed then exists cause ::
                alerts.State() == Alerts.Step(old(alerts.State()), Offer(Alert("Redis error", cause, now, "High")))
              else alerts.State() == old(alerts.State())
    {
      var reply := GetText(store, key);
      if !up || !reply.Done? {
        alerts.SendFailureNotification("Redis error", "GET failed", now, "High");
        return "", true;
      }
      return if reply.value.Some? then reply.value.value else "", false;
    }

    method GetSetKeys(index: string, up: bool) returns (keys: set<string>)
      ensures keys == if up && index in store.cells && store.cells[index].value.Members?
                      then store.cells[index].value.members else {}
    {
      var reply := SMembers(store, index);
      return if up && reply.Done? then reply.value else {};
    }

    method Set(key: string, value: string, ttl: Expiration, up: bool) returns (failed: bool)
      modifies this`store
      ensures failed == !up
      ensures store == if up then SetText(old(store), key, value, ttl) else old(store)
      ensures up ==>
                && key in store.cells
                && DueIn(old(store), key, ttl, store.cells[key].deadline)
                && store.clock == old(store).clock
                && store.cells == old(store).cells[key := Cell(Text(value), store.cells[key].deadline)]
    {
      if up {
        store := SetText(store, key, value, ttl);
      }
      return !up;
    }
  }

  // Any number of callers of SetSubmission, interleaved command by command.

  /** The two commands of a call, and the clock. A Write event repeats the call whose value it
      writes. */
  datatype Event =
    | Add(c: nat, call: Submit, ok: bool)
    | Write(c: nat, call: Submit, ok: bool)
    | Tick(dt: nat)

  /** `calls` are the calls between their two commands. */
  datatype System = System(store: Store, calls: map<nat, Submit>)

  predicate Possible(s: System, e: Event) {
    match e
    case Add(c, call, ok) => c !in s.calls && (ok ==> SAdd(s.store, call.index, call.key).1.Done?)
    case Write(c, call, _) => c in s.calls && s.calls[c] == call
    case Tick(_) => true
  }

  function Step(s: System, e: Event): System
    requires Possible(s, e)
  {
    match e
    case Add(c, call, ok) =>
      if ok then System(SAdd(s.store, call.index, call.key).0, s.calls[c := call]) else s
    case Write(c, call, ok) =>
      System(if ok then SetText(s.store, call.key, call.value, call.ttl) else s.store, s.calls - {c})
    case Tick(dt) => s.(store := Advance(s.store, dt))
  }

  function Then(s: Option<System>, e: Event): Option<System> {
    if s.Some? && Possible(s.value, e) then Some(Step(s.value, e)) else None
  }

  const IDLE := System(Store(0, map[]), map[])

  function Reach(es: seq<Event>): Option<System> {
    if es == [] then Some(IDLE) else Then(Reach(es[..|es| - 1]), es[|es| - 1])
  }

  lemma ReachSnoc(es: seq<Event>, e: Event)
    ensures Reach(es + [e]) == Then(Reach(es), e)
  {
    assert (es + [e])[..|es|] == es;
  }

  /** A call that nothing interrupts is two events of the system, or one if it is not filed. */
  lemma CallIsItsEvents(s: System, c: nat, call: Submit, upAdd: bool, upSet: bool)
    requires c !in s.calls
    ensures var filed := Filed(s.store, call, upAdd);
            var added := Then(Some(s), Add(c, call, filed));
            (if filed then Then(added, Write(c, call, upSet)) else added)
            == Some(s.(store := Submitted(s.store, call, upAdd, upSet)))
  {
    assert s.calls[c := call] - {c} == s.calls;
  }

  /** Looking back from the end: was the key filed under this index since the index was last
      overwritten by a submission of that name? */
  predicate FiledSince(es: seq<Event>, key: string, index: string) {
    if es == [] then false
    else
      match es[|es| - 1]
      case Add(_, call, true) =>
        (call.key == key && call.index == index) || FiledSince(es[..|es| - 1], key, index)
      case Write(_, call, true) => call.key != index && FiledSince(es[..|es| - 1], key, index)
      case _ => FiledSince(es[..|es| - 1], key, index)
  }

  /** Some call got as far as filing the key under this index. */
  predicate FiledUnder(es: seq<Event>, key: string, index: string) {
    exists i :: 0 <= i < |es| && es[i].Add? && es[i].ok && es[i].call.key == key && es[i].call.index == index
  }

  /** The latest call that wrote the key's value. */
  function LatestWrite(es: seq<Event>, key: string): Option<Submit> {
    if es == [] then None
    else
      var e := es[|es| - 1];
      if e.Write? && e.ok && e.call.key == key then Some(e.call) else LatestWrite(es[..|es| - 1], key)
  }

  /** Time elapsed over a run. */
  function Elapsed(es: seq<Event>): nat {
    if es == [] then 0 else Elapsed(es[..|es| - 1]) + if es[|es| - 1].Tick? then es[|es| - 1].dt else 0
  }

  /** The time of the latest write of the key's value. */
  function WrittenAt(es: seq<Event>, key: string): nat {
    if es == [] then 0
    else
      var front, e := es[..|es| - 1], es[|es| - 1];
      if e.Write? && e.ok && e.call.key == key then Elapsed(front) else WrittenAt(front, key)
  }

  /** When the key's latest value falls due, if ever. A write that keeps the deadline keeps that of
      a value not yet due. */
  function Due(es: seq<Event>, key: string): Option<nat> {
    if es == [] then None
    else
      var front, e := es[..|es| - 1], es[|es| - 1];
      var due, now := Due(front, key), Elapsed(front);
      if !(e.Write? && e.ok && e.call.key == key) then due
      else
        match e.call.ttl
        case After(ms) => if ms > 0 then Some(now + ms) else None
        case Keep => if due.Some? && now < due.value then due else None
  }

  /** Index sets are never empty and never expire; other cells are texts. */
  predicate IndexOrText(s: Store, k: string) {
    k in s.cells ==>
      || s.cells[k].value.Text?
      || (s.cells[k].value.Members? && s.cells[k].value.members != {} && s.cells[k].deadline.None?)
  }

  lemma {:induction false} CellsAreIndexesOrTexts(es: seq<Event>, k: string)
    requires Reach(es).Some?
    ensures IndexOrText(Reach(es).value.store, k)
  {
    if es != [] {
      CellsAreIndexesOrTexts(es[..|es| - 1], k);
    }
  }

  /** In every run, whatever the names: the members of an index set are exactly the keys filed
      under it since it was last overwritten. */
  lemma {:induction false} FiledKeysAreMembers(es: seq<Event>, key: string, index: string)
    requires Reach(es).Some?
    ensures key in MembersOf(Reach(es).value.store, index) <==> FiledSince(es, key, index)
  {
    if es != [] {
      CellsAreIndexesOrTexts(es[..|es| - 1], index);
      FiledKeysAreMembers(es[..|es| - 1], key, index);
    }
  }

  lemma FiledLater(es: seq<Event>, key: string, index: string)
    requires es != [] && FiledUnder(es[..|es| - 1], key, index)
    ensures FiledUnder(es, key, index)
  {
    var front := es[..|es| - 1];
    var i :| 0 <= i < |front| && front[i].Add? && front[i].ok && front[i].call.key == key && front[i].call.index == index;
    assert es[i] == front[i];
  }

  /** A call under way has filed its key. */
  lemma {:induction false} PendingCallsAreFiled(es: seq<Event>, c: nat)
    requires Reach(es).Some? && c in Reach(es).value.calls
    ensures FiledUnder(es, Reach(es).value.calls[c].key, Reach(es).value.calls[c].index)
  {
    var front := es[..|es| - 1];
    var call := Reach(es).value.calls[c];
    if c in Reach(front).value.calls && Reach(front).value.calls[c] == call {
      PendingCallsAreFiled(front, c);
      FiledLater(es, call.key, call.index);
    } else {
      assert es[|es| - 1].Add? && es[|es| - 1].call == call;
    }
  }

  /** A text on a key is the one its latest write put there, and that write's call had filed the
      key before. */
  lemma {:induction false} LiveTextsWereWritten(es: seq<Event>, key: string)
    requires Reach(es).Some?
    ensures var cells := Reach(es).value.store.cells;
            key in cells && cells[key].value.Text? ==>
              && LatestWrite(es, key).Some?
              && cells[key].value.text == LatestWrite(es, key).value.value
              && FiledUnder(es, key, LatestWrite(es, key).value.index)
  {
    if es != [] {
      var front, e := es[..|es| - 1], es[|es| - 1];
      LiveTextsWereWritten(front, key);
      if e.Write? && e.ok && e.call.key == key {
        PendingCallsAreFiled(front, e.c);
        FiledLater(es, key, e.call.index);
      } else if LatestWrite(front, key).Some? && FiledUnder(front, key, LatestWrite(front, key).value.index) {
        FiledLater(es, key, LatestWrite(front, key).value.index);
      }
    }
  }

  predicate LiveText(s: Store, key: string) {
    key in s.cells && s.cells[key].value.Text?
  }

  /** In every run: a key holds a text exactly from its first write on while its latest value is
      not due, and the text's deadline is when it falls due. */
  lemma {:induction false} TextsLiveUntilDue(es: seq<Event>, key: string)
    requires Reach(es).Some?
    ensures var s := Reach(es).value.store;
            && s.clock == Elapsed(es)
            && (LiveText(s, key) <==>
                LatestWrite(es, key).Some? && (Due(es, key).Some? ==> Elapsed(es) < Due(es, key).value))
            && (LiveText(s, key) ==> s.cells[key].deadline == Due(es, key))
            && (LatestWrite(es, key).None? ==> Due(es, key).None?)
  {
    if es != [] {
      TextsLiveUntilDue(es[..|es| - 1], key);
      CellsAreIndexesOrTexts(es[..|es| - 1], key);
    }
  }

  lemma {:induction false} DueAfterWrite(es: seq<Event>, key: string)
    requires LatestWrite(es, key).Some? && LatestWrite(es, key).value.ttl.After?
    ensures var ms := LatestWrite(es, key).value.ttl.ms;
            Due(es, key) == if ms > 0 then Some(WrittenAt(es, key) + ms) else None
  {
    var e := es[|es| - 1];
    if !(e.Write? && e.ok && e.call.key == key) {
      DueAfterWrite(es[..|es| - 1], key);
    }
  }

  /** A value written to live for `ms` milliseconds is there exactly that long, and for ever if
      `ms` is not positive, whatever else happens in the run. */
  lemma {:induction false} ValuesLiveTheirTime(es: seq<Event>, key: string)
    requires Reach(es).Some? && LatestWrite(es, key).Some? && LatestWrite(es, key).value.ttl.After?
    ensures var ms := LatestWrite(es, key).value.ttl.ms;
            LiveText(Reach(es).value.store, key) <==> (ms > 0 ==> Elapsed(es) < WrittenAt(es, key) + ms)
  {
    TextsLiveUntilDue(es, key);
    DueAfterWrite(es, key);
  }

  /** A write with the keep code leaves the deadline the key's cell had. */
  lemma {:induction false} KeepLeavesDeadline(es: seq<Event>, c: nat, call: Submit)
    requires Reach(es + [Write(c, call, true)]).Some? && call.ttl == Keep
    ensures Reach(es).Some?
    ensures var before, after := Reach(es).value.store, Reach(es + [Write(c, call, true)]).value.store;
            && LiveText(after, call.key)
            && after.cells[call.key].deadline ==
               if call.key in before.cells then before.cells[call.key].deadline else None
  {
    ReachSnoc(es, Write(c, call, true));
  }

  /** Index before value, in every run: a live submission reads as its latest value, and a scan of
      the index set it was last written under finds it exactly when no submission named like
      that set has been written since it was filed. */
  lemma {:induction false} ScansFindLiveSubmissions(es: seq<Event>, key: string)
    requires Reach(es).Some? && LiveText(Reach(es).value.store, key)
    ensures var s, write := Reach(es).value.store, LatestWrite(es, key);
            && write.Some?
            && GetText(s, key) == Done(Some(write.value.value))
            && (key in MembersOf(s, write.value.index) <==> FiledSince(es, key, write.value.index))
  {
    LiveTextsWereWritten(es, key);
    FiledKeysAreMembers(es, key, LatestWrite(es, key).value.index);
  }

  lemma RefusedIffIndex(s: Store, key: string)
    requires IndexOrText(s, key)
    ensures GetText(s, key) == WrongType <==> MembersOf(s, key) != {}
  {
  }

  lemma {:induction false} IndexIffFiled(es: seq<Event>, index: string)
    requires Reach(es).Some?
    ensures MembersOf(Reach(es).value.store, index) != {} <==> exists k :: FiledSince(es, k, index)
  {
    var ms := MembersOf(Reach(es).value.store, index);
    if ms != {} {
      var k :| k in ms;
      FiledKeysAreMembers(es, k, index);
      assert FiledSince(es, k, index);
    }
    if k :| FiledSince(es, k, index) {
      FiledKeysAreMembers(es, k, index);
      assert k in ms;
    }
  }

  /** In every run: a key that a scan turns up reads as its latest value or, when stale, as
      missing; the read is refused exactly when the key itself names an index set. */
  lemma {:induction false} FiledKeysReadCleanly(es: seq<Event>, key: string)
    requires Reach(es).Some?
    ensures var r := GetText(Reach(es).value.store, key);
            && (r == Done(None) || r == WrongType ||
                (LatestWrite(es, key).Some? && r == Done(Some(LatestWrite(es, key).value.value))))
            && (r == WrongType <==> exists k :: FiledSince(es, k, key))
  {
    CellsAreIndexesOrTexts(es, key);
    LiveTextsWereWritten(es, key);
    RefusedIffIndex(Reach(es).value.store, key);
    IndexIffFiled(es, key);
  }

  // Which names keep the relation.

  /** Every live submission is in the index set it was last written under. */
  ghost predicate IndexHolds(es: seq<Event>)
    requires Reach(es).Some?
  {
    var s := Reach(es).value.store;
    forall key :: LiveText(s, key) ==>
      LatestWrite(es, key).Some? && key in MembersOf(s, LatestWrite(es, key).value.index)
  }

  /** The run makes no other calls than these. */
  predicate Makes(es: seq<Event>, calls: set<Submit>) {
    forall i :: 0 <= i < |es| && es[i].Add? ==> es[i].call in calls
  }

  ghost predicate KeepsIndex(calls: set<Submit>) {
    forall es :: Reach(es).Some? && Makes(es, calls) ==> IndexHolds(es)
  }

  /** No submission of one call is named like the index set of another, or like its own. */
  predicate NamedApart(calls: set<Submit>) {
    forall a, b :: a in calls && b in calls ==> a.key != b.index
  }

  lemma MakesFront(es: seq<Event>, calls: set<Submit>)
    requires es != [] && Makes(es, calls)
    ensures Makes(es[..|es| - 1], calls)
  {
    assert forall i :: 0 <= i < |es| - 1 ==> es[..|es| - 1][i] == es[i];
  }

  lemma {:induction false} PendingCallsWereMade(es: seq<Event>, calls: set<Submit>, c: nat)
    requires Reach(es).Some? && Makes(es, calls) && c in Reach(es).value.calls
    ensures Reach(es).value.calls[c] in calls
  {
    var front := es[..|es| - 1];
    MakesFront(es, calls);
    if c in Reach(front).value.calls {
      PendingCallsWereMade(front, calls, c);
    }
  }

  /** With names apart a key once filed stays filed. */
  lemma {:induction false} FiledStaysFiled(es: seq<Event>, calls: set<Submit>, key: string, index: string)
    requires Reach(es).Some? && Makes(es, calls) && NamedApart(calls) && FiledUnder(es, key, index)
    ensures FiledSince(es, key, index)
  {
    var front, e := es[..|es| - 1], es[|es| - 1];
    var i :| 0 <= i < |es| && es[i].Add? && es[i].ok && es[i].call.key == key && es[i].call.index == index;
    if i < |front| {
      MakesFront(es, calls);
      assert front[i] == es[i];
      FiledStaysFiled(front, calls, key, index);
      if e.Write? {
        PendingCallsWereMade(front, calls, e.c);
        assert e.call in calls && es[i].call in calls;
      }
    }
  }

  lemma {:induction false} NamesApartKeepIndex(es: seq<Event>, calls: set<Submit>)
    requires Reach(es).Some? && Makes(es, calls) && NamedApart(calls)
    ensures IndexHolds(es)
  {
    forall key | LiveText(Reach(es).value.store, key)
      ensures LatestWrite(es, key).Some? && key in MembersOf(Reach(es).value.store, LatestWrite(es, key).value.index)
    {
      LiveTextsWereWritten(es, key);
      FiledStaysFiled(es, calls, key, LatestWrite(es, key).value.index);
      ScansFindLiveSubmissions(es, key);
    }
  }

  /** A submission filed under its own key: two events after which it is live and not indexed. */
  lemma SelfIndexedSubmissionIsLost(a: Submit) returns (es: seq<Event>)
    requires a.key == a.index
    ensures Reach(es).Some? && Makes(es, {a}) && !IndexHolds(es)
    ensures GetText(Reach(es).value.store, a.key) == Done(Some(a.value))
  {
    var one := [Add(0, a, true)];
    es := one + [Write(0, a, true)];
    ReachSnoc([], Add(0, a, true));
    ReachSnoc(one, Write(0, a, true));
    assert [] + one == one;
    assert es[|es| - 1] == Write(0, a, true);
    ScanMisses(es, a.key);
  }

  /** Two interleaved calls, neither filed under its own key: `b` is filed under an index set that
      `a` then overwrites, and its value is written last. */
  lemma OverwrittenIndexLosesSubmission(a: Submit, b: Submit) returns (es: seq<Event>)
    requires a.key == b.index && a.key != a.index && b.key != b.index
    ensures Reach(es).Some? && Makes(es, {a, b}) && !IndexHolds(es)
    ensures GetText(Reach(es).value.store, b.key) == Done(Some(b.value))
  {
    var one := [Add(0, a, true)];
    var two := one + [Add(1, b, true)];
    var three := two + [Write(0, a, true)];
    es := three + [Write(1, b, true)];
    assert [] + one == one;
    ReachSnoc([], Add(0, a, true));
    ReachSnoc(one, Add(1, b, true));
    ReachSnoc(two, Write(0, a, true));
    ReachSnoc(three, Write(1, b, true));
    assert es[|es| - 1] == Write(1, b, true);
    ScanMisses(es, b.key);
  }

  lemma {:induction false} ScanMisses(es: seq<Event>, key: string)
    requires Reach(es).Some? && LiveText(Reach(es).value.store, key) && LatestWrite(es, key).Some?
    requires key !in MembersOf(Reach(es).value.store, LatestWrite(es, key).value.index)
    ensures !IndexHolds(es)
  {
  }

  /** The condition a caller can check: every run of these calls, however interleaved and whatever
      fails or expires, keeps the index relation exactly when no call's key is any call's index. */
  lemma {:induction false} IndexKeptIffNamedApart(calls: set<Submit>)
    ensures KeepsIndex(calls) <==> NamedApart(calls)
  {
    if NamedApart(calls) {
      forall es | Reach(es).Some? && Makes(es, calls)
        ensures IndexHolds(es)
      {
        NamesApartKeepIndex(es, calls);
      }
    } else {
      var a, b :| a in calls && b in calls && a.key == b.index;
      var es;
      if a.key == a.index {
        es := SelfIndexedSubmissionIsLost(a);
      } else if b.key == b.index {
        es := SelfIndexedSubmissionIsLost(b);
      } else {
        es := OverwrittenIndexLosesSubmission(a, b);
      }
      assert Makes(es, calls);
    }
  }

  /** Every live text is a member of the index set recorded for it. */
  predicate Covered(s: Store, filed: map<string, string>) {
    forall k :: k in filed && LiveText(s, k) ==> k in MembersOf(s, filed[k])
  }

  /** One uninterrupted successful call keeps the index relation exactly when the key it writes is
      not itself the index set of a live submission, the new one included. */
  lemma SetSubmissionKeepsIndex(s: Store, filed: map<string, string>, call: Submit)
    requires Covered(s, filed) && Filed(s, call, true)
    ensures var filed' := filed[call.key := call.index];
            Covered(Submitted(s, call, true, true), filed') <==>
            forall k :: k in filed' && (k == call.key || LiveText(s, k)) ==> filed'[k] != call.key
  {
    var after := Submitted(s, call, true, true);
    var filed' := filed[call.key := call.index];
    assert MembersOf(after, call.key) == {};
    forall k | k in filed'
      ensures LiveText(after, k) <==> k == call.key || LiveText(s, k)
      ensures filed'[k] != call.key && LiveText(after, k) ==> k in MembersOf(after, filed'[k])
    {
    }
  }
}
