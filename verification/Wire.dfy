/** What arrives on a collection stream and what is queued for it. */
module Wire {
  import opened Wrappers
  import opened Keys

  type byte = n: nat | n < 256
  type Bytes = seq<byte>

  const ID_LENGTH: nat := 36
  const BUFFER_SIZE: nat := 1024

  /** The two request fields the collector reads; `request` is a pointer and may be nil. */
  datatype Request = Request(slot: uint64, epoch: uint64)
  datatype Submission = Submission(market: string, request: Option<Request>)

  /** One record of the submission queue, before it is rendered as JSON. */
  datatype QueueEntry = QueueEntry(id: Bytes, market: string, data: Bytes)

  /** JSON decoding of a submission body: any partial function. */
  type Decoder = Bytes -> Option<Submission>

  /** What the collector makes of one chunk before it talks to Redis. */
  datatype Intake = TooShort | Undecodable | Accepted(entry: QueueEntry, sub: Submission)

  function Examine(decode: Decoder, chunk: Bytes): Intake {
    if |chunk| < ID_LENGTH then TooShort
    else
      var id, data := chunk[..ID_LENGTH], chunk[ID_LENGTH..];
      match decode(data)
      case None => Undecodable
      case Some(sub) => Accepted(QueueEntry(id, sub.market, data), sub)
  }

  function TripleOf(sub: Submission): Option<Triple> {
    match sub.request
    case None => None
    case Some(r) => Some(Triple(sub.market, r.slot, r.epoch))
  }

  /** An entry agrees with the chunk it was cut from and with the decoded body. */
  predicate Coherent(decode: Decoder, entry: QueueEntry) {
    && |entry.id| == ID_LENGTH
    && decode(entry.data).Some?
    && decode(entry.data).value.market == entry.market
  }

  /** The triple an entry's body asks to be counted under, if its request is not nil. */
  function EntryTriple(decode: Decoder, entry: QueueEntry): Option<Triple> {
    match decode(entry.data)
    case None => None
    case Some(sub) => TripleOf(sub)
  }

  /** Cutting a chunk loses nothing and invents nothing: a coherent entry is accepted from
      exactly one chunk, its id followed by its data. Of the other chunks, those under 36 bytes
      are too short and the rest are undecodable. */
  lemma ExamineExact(decode: Decoder, chunk: Bytes, entry: QueueEntry)
    ensures Examine(decode, chunk).TooShort? <==> |chunk| < 36
    ensures Examine(decode, chunk).Undecodable? <==> |chunk| >= 36 && decode(chunk[36..]).None?
    ensures (Examine(decode, chunk).Accepted? && Examine(decode, chunk).entry == entry)
       <==> (Coherent(decode, entry) && entry.id + entry.data == chunk)
    ensures Examine(decode, chunk).Accepted? ==>
              EntryTriple(decode, Examine(decode, chunk).entry) == TripleOf(Examine(decode, chunk).sub)
  {
    if |chunk| >= ID_LENGTH {
      assert chunk[..ID_LENGTH] + chunk[ID_LENGTH..] == chunk;
    }
    if Coherent(decode, entry) && entry.id + entry.data == chunk {
      assert chunk[..ID_LENGTH] == entry.id && chunk[ID_LENGTH..] == entry.data;
    }
  }

  /** An entry is counted under the market its body decodes to and the slot and epoch of the body's
      request, and under nothing if there is no request. */
  lemma EntryTripleInFields(decode: Decoder, entry: QueueEntry, t: Triple)
    ensures EntryTriple(decode, entry) == Some(t) <==>
            && decode(entry.data).Some?
            && decode(entry.data).value.market == t.market
            && decode(entry.data).value.request == Some(Request(t.slot, t.epoch))
  {
  }
}
