/** The per-stream loop: read a chunk, queue it, count it, refresh the counter's expiry. */
module Collector {
  import opened Wrappers
  import opened Keys
  import opened Wire

  datatype Status = Fine | EndOfFile | Broken

  /** One read of the stream: the bytes delivered and the error returned with them. */
  datatype Read = Read(chunk: Bytes, status: Status)

  /** One pass of the loop as the outside world plays it: the read, and whether each Redis
      command would succeed if the pass got as far as issuing it. */
  datatype Round = Round(read: Read, pushOk: bool, incrOk: bool, expireOk: bool)

  datatype Command =
    | SendPush(entry: QueueEntry, ok: bool)
    | SendIncr(key: string, ok: bool)
    | SendExpire(key: string, ttl: nat, ok: bool)

  /** How the handler stands: still looping, returned, or stopped by a run-time panic. */
  datatype Exit = Running | Returned | Panicked

  /** Five minutes, in milliseconds. */
  const COUNTER_TTL: nat := 300_000

  /** The commands one pass issues, in order. */
  function RoundCommands(decode: Decoder, r: Round): seq<Command> {
    if r.read.status != Fine then []
    else
      match Examine(decode, r.read.chunk)
      case TooShort => []
      case Undecodable => []
      case Accepted(entry, sub) =>
        [SendPush(entry, r.pushOk)] +
        if r.pushOk && TripleOf(sub).Some? then
          var key := CounterKey(TripleOf(sub).value);
          [SendIncr(key, r.incrOk), SendExpire(key, COUNTER_TTL, r.expireOk)]
        else
          []
  }

  /** How one pass ends. A chunk too short to split and a nil request both panic, the latter
      only after the entry was queued. */
  function RoundExit(decode: Decoder, r: Round): Exit {
    if r.read.status != Fine then Returned
    else
      match Examine(decode, r.read.chunk)
      case TooShort => Panicked
      case Undecodable => Running
      case Accepted(entry, sub) =>
        if r.pushOk && TripleOf(sub).None? then Panicked else Running
  }

  function ExitOf(decode: Decoder, rs: seq<Round>): Exit {
    if rs == [] then Running
    else
      var before := ExitOf(decode, rs[..|rs| - 1]);
      if before == Running then RoundExit(decode, rs[|rs| - 1]) else before
  }

  /** Everything the handler sends to Redis over a whole stream. */
  function Commands(decode: Decoder, rs: seq<Round>): seq<Command> {
    if rs == [] then []
    else
      var front := rs[..|rs| - 1];
      Commands(decode, front) +
      if ExitOf(decode, front) == Running then RoundCommands(decode, rs[|rs| - 1]) else []
  }

  /** The commands that took effect. */
  function Effects(cs: seq<Command>): seq<Command> {
    if cs == [] then []
    else Effects(cs[..|cs| - 1]) + if cs[|cs| - 1].ok then [cs[|cs| - 1]] else []
  }

  lemma {:induction false} EffectsConcat(a: seq<Command>, b: seq<Command>)
    ensures Effects(a + b) == Effects(a) + Effects(b)
  {
    if b == [] {
      assert a + b == a;
    } else {
      EffectsConcat(a, b[..|b| - 1]);
      assert (a + b)[..|a + b| - 1] == a + b[..|b| - 1];
    }
  }

  lemma CommandsSnoc(decode: Decoder, rs: seq<Round>, r: Round)
    ensures Commands(decode, rs + [r]) ==
            Commands(decode, rs) + if ExitOf(decode, rs) == Running then RoundCommands(decode, r) else []
    ensures ExitOf(decode, rs + [r]) ==
            if ExitOf(decode, rs) == Running then RoundExit(decode, r) else ExitOf(decode, rs)
  {
    assert (rs + [r])[..|rs + [r]| - 1] == rs;
  }

  /** Nothing after the terminal event has any effect, and nothing restarts the loop. */
  lemma {:induction false} NothingAfterExit(decode: Decoder, a: seq<Round>, b: seq<Round>)
    requires ExitOf(decode, a) != Running
    ensures Commands(decode, a + b) == Commands(decode, a)
    ensures ExitOf(decode, a + b) == ExitOf(decode, a)
  {
    if b == [] {
      assert a + b == a;
    } else {
      NothingAfterExit(decode, a, b[..|b| - 1]);
      CommandsSnoc(decode, a + b[..|b| - 1], b[|b| - 1]);
      assert a + b == (a + b[..|b| - 1]) + [b[|b| - 1]];
    }
  }

  /** A pass that reads an undecodable chunk, or whose push fails. */
  predicate Fruitless(decode: Decoder, r: Round) {
    && r.read.status == Fine
    && |r.read.chunk| >= 36
    && (decode(r.read.chunk[36..]).Some? ==> !r.pushOk)
  }

  lemma FruitlessAlone(decode: Decoder, r: Round)
    requires Fruitless(decode, r)
    ensures RoundExit(decode, r) == Running && Effects(RoundCommands(decode, r)) == []
  {
    if Examine(decode, r.read.chunk).Accepted? {
      assert RoundCommands(decode, r) == [SendPush(Examine(decode, r.read.chunk).entry, false)];
    }
  }

  lemma EffectsSnoc(decode: Decoder, rs: seq<Round>, r: Round)
    ensures Effects(Commands(decode, rs + [r])) ==
            Effects(Commands(decode, rs)) +
            if ExitOf(decode, rs) == Running then Effects(RoundCommands(decode, r)) else []
  {
    CommandsSnoc(decode, rs, r);
    EffectsConcat(Commands(decode, rs), if ExitOf(decode, rs) == Running then RoundCommands(decode, r) else []);
  }

  /** Two histories that look alike still do after the same further pass. */
  lemma {:induction false} AlikeSnoc(decode: Decoder, x: seq<Round>, y: seq<Round>, r: Round)
    requires Effects(Commands(decode, x)) == Effects(Commands(decode, y))
    requires ExitOf(decode, x) == ExitOf(decode, y)
    ensures Effects(Commands(decode, x + [r])) == Effects(Commands(decode, y + [r]))
    ensures ExitOf(decode, x + [r]) == ExitOf(decode, y + [r])
  {
    EffectsSnoc(decode, x, r);
    EffectsSnoc(decode, y, r);
    CommandsSnoc(decode, x, r);
    CommandsSnoc(decode, y, r);
  }

  lemma FruitlessSnoc(decode: Decoder, rs: seq<Round>, r: Round)
    requires Fruitless(decode, r)
    ensures Effects(Commands(decode, rs + [r])) == Effects(Commands(decode, rs))
    ensures ExitOf(decode, rs + [r]) == ExitOf(decode, rs)
  {
    FruitlessAlone(decode, r);
    EffectsSnoc(decode, rs, r);
    CommandsSnoc(decode, rs, r);
  }

  lemma LastOfConcat<T>(a: seq<T>, b: seq<T>)
    ensures b == [] ==> a + b == a
    ensures b != [] ==> a + b == (a + b[..|b| - 1]) + [b[|b| - 1]]
  {
  }

  /** Fruitless passes may be inserted anywhere without changing any other effect or the way
      the handler ends. */
  lemma {:induction false} FruitlessPassesVanish(decode: Decoder, a: seq<Round>, r: Round, b: seq<Round>)
    requires Fruitless(decode, r)
    ensures Effects(Commands(decode, a + [r] + b)) == Effects(Commands(decode, a + b))
    ensures ExitOf(decode, a + [r] + b) == ExitOf(decode, a + b)
    decreases |b|
  {
    var with := a + [r];
    LastOfConcat(with, b);
    LastOfConcat(a, b);
    if b == [] {
      FruitlessSnoc(decode, a, r);
    } else {
      var front, last := b[..|b| - 1], b[|b| - 1];
      FruitlessPassesVanish(decode, a, r, front);
      AlikeSnoc(decode, with + front, a + front, last);
    }
  }

  /** The outside world of one handler: the stream it reads and the Redis connection it
      writes to. `issued` is everything sent to Redis so far. */
  class Link {
    const script: seq<Round>
    var pos: nat
    var issued: seq<Command>

    ghost predicate Valid()
      reads this
    {
      && pos <= |script|
      && forall i :: 0 <= i < |script| ==> |script[i].read.chunk| <= 1024
    }

    constructor (script: seq<Round>)
      requires forall i :: 0 <= i < |script| ==> |script[i].read.chunk| <= 1024
      ensures Valid() && this.script == script && pos == 0 && issued == []
    {
      this.script := script;
      pos, issued := 0, [];
    }

    /** Fills the front of `buf`; bytes may come together with an error. */
    method Read(buf: array<byte>) returns (length: nat, status: Status)
      requires Valid() && pos < |script| && buf.Length == BUFFER_SIZE
      modifies this`pos, buf
      ensures Valid() && pos == old(pos) + 1
      ensures length == |script[old(pos)].read.chunk| && status == script[old(pos)].read.status
      ensures buf[..length] == script[old(pos)].read.chunk
      ensures buf[length..] == old(buf[..])[length..]
    {
      var read := script[pos].read;
      length, status, pos := |read.chunk|, read.status, pos + 1;
      forall i | 0 <= i < length {
        buf[i] := read.chunk[i];
      }
    }

    method Push(entry: QueueEntry) returns (ok: bool)
      requires Valid() && 0 < pos
      modifies this`issued
      ensures ok == script[pos - 1].pushOk && issued == old(issued) + [SendPush(entry, ok)]
    {
      ok := script[pos - 1].pushOk;
      issued := issued + [SendPush(entry, ok)];
    }

    method Increment(key: string) returns (ok: bool)
      requires Valid() && 0 < pos
      modifies this`issued
      ensures ok == script[pos - 1].incrOk && issued == old(issued) + [SendIncr(key, ok)]
    {
      ok := script[pos - 1].incrOk;
      issued := issued + [SendIncr(key, ok)];
    }

    method Refresh(key: string, ttl: nat) returns (ok: bool)
      requires Valid() && 0 < pos
      modifies this`issued
      ensures ok == script[pos - 1].expireOk && issued == old(issued) + [SendExpire(key, ttl, ok)]
    {
      ok := script[pos - 1].expireOk;
      issued := issued + [SendExpire(key, ttl, ok)];
    }
  }

  /** Splits the bytes read so far after the 36-byte id. No result stands for the run-time
      panic on slicing past the end. */
  method ParseSubmissionBytes(data: Bytes) returns (r: Option<(Bytes, Bytes)>)
    ensures r.Some? <==> |data| >= ID_LENGTH
    ensures r.Some? ==> |r.value.0| == ID_LENGTH && r.value.0 + r.value.1 == data
  {
    var currentPos := 0;
    if |data| < currentPos + ID_LENGTH {
      return None;
    }
    var id := data[currentPos..currentPos + ID_LENGTH];
    currentPos := currentPos + ID_LENGTH;
    r := Some((id, data[currentPos..]));
  }

  /** A pass said on bytes and fields: what it sends to Redis and how it ends. */
  ghost predicate PassOnBytes(decode: Decoder, r: Round, sent: seq<Command>, exit: Exit) {
    var chunk := r.read.chunk;
    if r.read.status != Fine then
      sent == [] && exit == Returned
    else if |chunk| < 36 then
      sent == [] && exit == Panicked
    else if decode(chunk[36..]).None? then
      sent == [] && exit == Running
    else
      var sub := decode(chunk[36..]).value;
      && sent != []
      && sent[0] == SendPush(QueueEntry(chunk[..36], sub.market, chunk[36..]), r.pushOk)
      && if !r.pushOk then
           |sent| == 1 && exit == Running
         else if sub.request.None? then
           |sent| == 1 && exit == Panicked
         else
           && |sent| == 3 && exit == Running
           && sent[1].SendIncr? && sent[1].ok == r.incrOk
           && DecodeKey(sent[1].key) == Some(Triple(sub.market, sub.request.value.slot, sub.request.value.epoch))
           && sent[2] == SendExpire(sent[1].key, 300_000, r.expireOk)
  }

  /** The three commands of a pass that counts. */
  lemma CountingCommands(decode: Decoder, r: Round, t: Triple)
    requires r.read.status == Fine && Examine(decode, r.read.chunk).Accepted? && r.pushOk
    requires TripleOf(Examine(decode, r.read.chunk).sub) == Some(t)
    ensures RoundExit(decode, r) == Running
    ensures RoundCommands(decode, r) ==
            [SendPush(Examine(decode, r.read.chunk).entry, r.pushOk), SendIncr(CounterKey(t), r.incrOk)]
            + [SendExpire(CounterKey(t), COUNTER_TTL, r.expireOk)]
  {
  }

  /** The functional pass does what bytes and fields say. */
  lemma RoundOnBytes(decode: Decoder, r: Round)
    ensures PassOnBytes(decode, r, RoundCommands(decode, r), RoundExit(decode, r))
  {
    if r.read.status == Fine && Examine(decode, r.read.chunk).Accepted? {
      var sub := Examine(decode, r.read.chunk).sub;
      if r.pushOk && TripleOf(sub).Some? {
        CountingCommands(decode, r, TripleOf(sub).value);
        DecodeCounterKey(TripleOf(sub).value);
      }
    }
  }

  /** The statements of one pass of the handler's loop, on a fresh buffer. */
  method PassSteps(decode: Decoder, link: Link) returns (exit: Exit)
    requires link.Valid() && link.pos < |link.script|
    modifies link
    ensures link.Valid() && link.pos == old(link.pos) + 1
    ensures exit == RoundExit(decode, link.script[old(link.pos)])
    ensures link.issued == old(link.issued) + RoundCommands(decode, link.script[old(link.pos)])
  {
    var buf := new byte[BUFFER_SIZE];
    var length, status := link.Read(buf);
    if status != Fine {
      return Returned;
    }
    var parts := ParseSubmissionBytes(buf[..length]);
    if parts.None? {
      return Panicked;
    }
    var (id, data) := parts.value;
    assert id == buf[..length][..ID_LENGTH] && data == buf[..length][ID_LENGTH..];
    var decoded := decode(data);
    if decoded.None? {
      return Running;
    }
    var sub := decoded.value;
    var pushed := link.Push(QueueEntry(id, sub.market, data));
    if !pushed {
      return Running;
    }
    if sub.request.None? {
      return Panicked;
    }
    var key := CounterKey(Triple(sub.market, sub.request.value.slot, sub.request.value.epoch));
    var counted := link.Increment(key);
    var refreshed := link.Refresh(key, COUNTER_TTL);
    return Running;
  }

  /** One pass of the handler's loop: what it sends and how it ends, as a function of the pass and,
      the same thing said independently, on bytes and fields. */
  method Pass(decode: Decoder, link: Link) returns (exit: Exit)
    requires link.Valid() && link.pos < |link.script|
    modifies link
    ensures link.Valid() && link.pos == old(link.pos) + 1
    ensures exit == RoundExit(decode, link.script[old(link.pos)])
    ensures link.issued == old(link.issued) + RoundCommands(decode, link.script[old(link.pos)])
    ensures PassOnBytes(decode, link.script[old(link.pos)], RoundCommands(decode, link.script[old(link.pos)]), exit)
  {
    RoundOnBytes(decode, link.script[link.pos]);
    exit := PassSteps(decode, link);
  }

  /** In everything a handler sends, each increment comes right after the successful push of an
      entry, under the key of the market, slot and epoch that the entry's data decodes to, and
      right before the five-minute expire of the same key. */
  ghost predicate CountsWhatItQueued(decode: Decoder, cs: seq<Command>, i: nat)
    requires i < |cs|
  {
    cs[i].SendIncr? ==>
      && 0 < i < |cs| - 1
      && cs[i - 1].SendPush? && cs[i - 1].ok
      && (match decode(cs[i - 1].entry.data)
          case Some(Submission(market, Some(Request(slot, epoch)))) =>
            DecodeKey(cs[i].key) == Some(Triple(market, slot, epoch))
          case _ => false)
      && cs[i + 1].SendExpire? && cs[i + 1].key == cs[i].key && cs[i + 1].ttl == 300_000
  }

  lemma PassCountsWhatItQueued(decode: Decoder, r: Round, i: nat)
    requires i < |RoundCommands(decode, r)|
    ensures CountsWhatItQueued(decode, RoundCommands(decode, r), i)
  {
    RoundOnBytes(decode, r);
  }

  lemma {:induction false} IncrementsFollowTheirPushes(decode: Decoder, rs: seq<Round>, i: nat)
    requires i < |Commands(decode, rs)|
    ensures CountsWhatItQueued(decode, Commands(decode, rs), i)
  {
    var front := rs[..|rs| - 1];
    var n := |Commands(decode, front)|;
    if i < n {
      IncrementsFollowTheirPushes(decode, front, i);
    } else {
      PassCountsWhatItQueued(decode, rs[|rs| - 1], i - n);
    }
  }

  /** After `n` passes of the script the handler stands at `exit` and has issued `sent`. */
  predicate Progress(decode: Decoder, script: seq<Round>, n: nat, exit: Exit, sent: seq<Command>) {
    n <= |script| && exit == ExitOf(decode, script[..n]) && sent == Commands(decode, script[..n])
  }

  lemma OneMorePass(decode: Decoder, script: seq<Round>, n: nat, sent: seq<Command>)
    requires n < |script| && Progress(decode, script, n, Running, sent)
    ensures Progress(decode, script, n + 1, RoundExit(decode, script[n]), sent + RoundCommands(decode, script[n]))
  {
    CommandsSnoc(decode, script[..n], script[n]);
    assert script[..n] + [script[n]] == script[..n + 1];
  }

  lemma Appended(decode: Decoder, script: seq<Round>, n: nat, exit: Exit,
                 before: seq<Command>, sent: seq<Command>, issued: seq<Command>)
    returns (sent': seq<Command>)
    requires n < |script| && Progress(decode, script, n, Running, sent)
    requires exit == RoundExit(decode, script[n]) && issued == before + sent + RoundCommands(decode, script[n])
    ensures Progress(decode, script, n + 1, exit, sent') && issued == before + sent'
  {
    OneMorePass(decode, script, n, sent);
    sent' := sent + RoundCommands(decode, script[n]);
    assert before + sent + RoundCommands(decode, script[n]) == before + sent';
  }

  lemma NoMorePasses(decode: Decoder, script: seq<Round>, n: nat, exit: Exit, sent: seq<Command>)
    requires Progress(decode, script, n, exit, sent) && (exit != Running || n == |script|)
    ensures exit == ExitOf(decode, script) && sent == Commands(decode, script)
  {
    assert script[..n] + script[n..] == script;
    if exit != Running {
      NothingAfterExit(decode, script[..n], script[n..]);
    } else {
      assert script[..n] == script;
    }
  }

  /** The loop's next pass, keeping track of what the loop has sent since it started. */
  method NextPass(decode: Decoder, link: Link, ghost before: seq<Command>, ghost sent: seq<Command>)
    returns (exit: Exit, ghost sent': seq<Command>)
    requires link.Valid() && link.pos < |link.script|
    requires Progress(decode, link.script, link.pos, Running, sent) && link.issued == before + sent
    modifies link
    ensures link.Valid() && link.pos == old(link.pos) + 1
    ensures Progress(decode, link.script, link.pos, exit, sent') && link.issued == before + sent'
  {
    ghost var n := link.pos;
    exit := Pass(decode, link);
    sent' := Appended(decode, link.script, n, exit, before, sent, link.issued);
  }

  /** The stream handler. The terminal event, if there is one, is the last thing it reads;
      `Running` means that it is waiting for the next read. */
  method HandleStream(decode: Decoder, link: Link) returns (exit: Exit)
    requires link.Valid() && link.pos == 0
    modifies link
    ensures link.Valid()
    ensures exit == ExitOf(decode, link.script)
    ensures link.issued == old(link.issued) + Commands(decode, link.script)
    ensures exit == ExitOf(decode, link.script[..link.pos])
    ensures exit != Running ==> 0 < link.pos && ExitOf(decode, link.script[..link.pos - 1]) == Running
    ensures exit == Running ==> link.pos == |link.script|
  {
    exit := Running;
    ghost var sent := [];
    while link.pos < |link.script| && exit == Running
      invariant link.Valid()
      invariant Progress(decode, link.script, link.pos, exit, sent)
      invariant exit != Running ==> 0 < link.pos && ExitOf(decode, link.script[..link.pos - 1]) == Running
      invariant link.issued == old(link.issued) + sent
      decreases |link.script| - link.pos
    {
      exit, sent := NextPass(decode, link, old(link.issued), sent);
    }
    NoMorePasses(decode, link.script, link.pos, exit, sent);
  }
}
