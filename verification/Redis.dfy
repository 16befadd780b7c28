/** The Redis keyspace as its clients see it: one flat map of named, typed cells with optional
    deadlines, and the effect of each single command. A cell is gone once the clock reaches its
    deadline. Every command here is the case in which the server answers; a command that does
    not get through changes nothing. */
module Redis {
  import opened Wrappers
  import opened Wire

  /** Counters are signed 64-bit integers. */
  const MAX_COUNT: nat := 0x7FFF_FFFF_FFFF_FFFF

  datatype Value =
    | Counter(count: nat)
    | Text(text: string)
    | List(entries: seq<QueueEntry>)
    | Members(members: set<string>)

  datatype Cell = Cell(value: Value, deadline: Option<nat>)

  /** `clock` is in milliseconds. */
  datatype Store = Store(clock: nat, cells: map<string, Cell>)

  datatype Reply<+T> = Done(value: T) | WrongType | Overflow

  function Put(s: Store, key: string, value: Value, deadline: Option<nat>): Store {
    s.(cells := s.cells[key := Cell(value, deadline)])
  }

  /** Prepends to a list, creating it if need be. */
  function LPush(s: Store, key: string, entry: QueueEntry): (Store, Reply<()>) {
    if key !in s.cells then (Put(s, key, List([entry]), None), Done(()))
    else
      match s.cells[key].value
      case List(entries) => (Put(s, key, List([entry] + entries), s.cells[key].deadline), Done(()))
      case _ => (s, WrongType)
  }

  /** Adds one to a counter, creating it without a deadline if need be. An existing deadline
      stays. */
  function Incr(s: Store, key: string): (Store, Reply<nat>) {
    if key !in s.cells then (Put(s, key, Counter(1), None), Done(1))
    else
      match s.cells[key].value
      case Counter(n) =>
        if n < MAX_COUNT then (Put(s, key, Counter(n + 1), s.cells[key].deadline), Done(n + 1))
        else (s, Overflow)
      case _ => (s, WrongType)
  }

  /** Sets the deadline of an existing cell; does nothing to a missing one. */
  function Expire(s: Store, key: string, ttl: nat): Store {
    if key in s.cells then Put(s, key, s.cells[key].value, Some(s.clock + ttl)) else s
  }

  function SAdd(s: Store, key: string, member: string): (Store, Reply<()>) {
    if key !in s.cells then (Put(s, key, Members({member}), None), Done(()))
    else
      match s.cells[key].value
      case Members(ms) => (Put(s, key, Members(ms + {member}), s.cells[key].deadline), Done(()))
      case _ => (s, WrongType)
  }

  function SMembers(s: Store, key: string): Reply<set<string>> {
    if key !in s.cells then Done({})
    else
      match s.cells[key].value
      case Members(ms) => Done(ms)
      case _ => WrongType
  }

  /** How long a value is to live: a number of milliseconds, where none or fewer means for ever,
      or the client's code for keeping the cell's present deadline. */
  datatype Expiration = After(ms: int) | Keep

  function DeadlineFor(s: Store, key: string, ttl: Expiration): Option<nat> {
    match ttl
    case After(ms) => if ms > 0 then Some(s.clock + ms) else None
    case Keep => if key in s.cells then s.cells[key].deadline else None
  }

  /** Overwrites whatever the cell held, its type included. */
  function SetText(s: Store, key: string, text: string, ttl: Expiration): Store {
    Put(s, key, Text(text), DeadlineFor(s, key, ttl))
  }

  function GetText(s: Store, key: string): Reply<Option<string>> {
    if key !in s.cells then Done(None)
    else
      match s.cells[key].value
      case Text(text) => Done(Some(text))
      case _ => WrongType
  }

  predicate Live(cell: Cell, now: nat) {
    cell.deadline.Some? ==> now < cell.deadline.value
  }

  /** Time passes and cells whose deadline it reaches disappear. */
  function Advance(s: Store, dt: nat): (r: Store)
    ensures r.clock == s.clock + dt
    ensures forall k :: k in r.cells <==> k in s.cells && Live(s.cells[k], r.clock)
    ensures forall k :: k in r.cells ==> r.cells[k] == s.cells[k]
  {
    var now := s.clock + dt;
    Store(now, map k | k in s.cells && Live(s.cells[k], now) :: s.cells[k])
  }
}
