/** Redis key names: the shared queue and the per-(market, slot, epoch) counters. */
module Keys {
  import opened Wrappers
  import opened Decimal

  type uint64 = n: nat | n < 0x1_0000_0000_0000_0000

  /** What a counter counts submissions for. The market is any text, dots included. */
  datatype Triple = Triple(market: string, slot: uint64, epoch: uint64)

  const COUNTS_PREFIX := "EpochSubmissionCountsReceivedInSlotKey"
  const QUEUE_KEY := "submissionQueue"

  /** The name `head.market.slot.epoch`. */
  function DottedKey(head: string, t: Triple): string {
    head + "." + t.market + "." + Print(t.slot) + "." + Print(t.epoch)
  }

  function CounterKey(t: Triple): string {
    DottedKey(COUNTS_PREFIX, t)
  }

  /** Splits at the last dot: the text before it and the text after it. */
  function SplitLastDot(s: string): (r: Option<(string, string)>)
    ensures r.Some? ==> r.value.0 + "." + r.value.1 == s && '.' !in r.value.1
    ensures r.None? ==> '.' !in s
  {
    if s == [] then None
    else if s[|s| - 1] == '.' then Some((s[..|s| - 1], ""))
    else
      match SplitLastDot(s[..|s| - 1])
      case None => None
      case Some(p) => Some((p.0, p.1 + [s[|s| - 1]]))
  }

  lemma SplitLastDotUnique(a: string, b: string)
    requires '.' !in b
    ensures SplitLastDot(a + "." + b) == Some((a, b))
  {
    var s := a + "." + b;
    assert s[|a|] == '.' && '.' in s;
    var p := SplitLastDot(s).value;
    assert p.0 + "." + p.1 == s;
    assert s[|p.0|] == '.';
    assert |p.0| == |a|;
    assert p.0 == s[..|a|] == a && p.1 == s[|a| + 1..] == b;
  }

  function ParseUint64(s: string): Option<uint64> {
    match Parse(s)
    case Some(n) => if n < 0x1_0000_0000_0000_0000 then Some(n) else None
    case None => None
  }

  /** Reads `head.market.slot.epoch` back: the last two dots delimit epoch and slot. */
  function DecodeDotted(head: string, k: string): Option<Triple> {
    match SplitLastDot(k)
    case None => None
    case Some(outer) =>
      match SplitLastDot(outer.0)
      case None => None
      case Some(inner) =>
        var slot, epoch := ParseUint64(inner.1), ParseUint64(outer.1);
        if head + "." <= inner.0 && slot.Some? && epoch.Some?
        then Some(Triple(inner.0[|head| + 1..], slot.value, epoch.value))
        else None
  }

  function DecodeKey(k: string): Option<Triple> {
    DecodeDotted(COUNTS_PREFIX, k)
  }

  lemma PrintHasNoDot(n: nat)
    ensures '.' !in Print(n)
  {
    forall i | 0 <= i < |Print(n)|
      ensures Print(n)[i] != '.'
    {
      assert IsDigit(Print(n)[i]);
    }
  }

  lemma DecodeDottedKey(head: string, t: Triple)
    ensures DecodeDotted(head, DottedKey(head, t)) == Some(t)
  {
    var market := head + "." + t.market;
    PrintHasNoDot(t.slot);
    PrintHasNoDot(t.epoch);
    SplitLastDotUnique(market + "." + Print(t.slot), Print(t.epoch));
    SplitLastDotUnique(market, Print(t.slot));
    ParsePrint(t.slot);
    ParsePrint(t.epoch);
    assert market[|head| + 1..] == t.market;
  }

  lemma PrintParsedUint64(s: string)
    requires ParseUint64(s).Some?
    ensures Print(ParseUint64(s).value) == s
  {
    PrintParse(s);
  }

  lemma PrefixThenRest(head: string, s: string)
    requires head <= s
    ensures head + s[|head|..] == s
  {
  }

  lemma DottedKeyOfDecoded(head: string, k: string)
    requires DecodeDotted(head, k).Some?
    ensures DottedKey(head, DecodeDotted(head, k).value) == k
  {
    var outer := SplitLastDot(k).value;
    var inner := SplitLastDot(outer.0).value;
    var t := DecodeDotted(head, k).value;
    assert Print(t.slot) == inner.1 by { PrintParsedUint64(inner.1); }
    assert Print(t.epoch) == outer.1 by { PrintParsedUint64(outer.1); }
    assert head + "." + t.market == inner.0 by { PrefixThenRest(head + ".", inner.0); }
  }

  /** Every counter key reads back as the triple it was printed from, dots in the market included. */
  lemma DecodeCounterKey(t: Triple)
    ensures DecodeKey(CounterKey(t)) == Some(t)
  {
    DecodeDottedKey(COUNTS_PREFIX, t);
  }

  /** The decoder accepts nothing but counter keys. */
  lemma CounterKeyOfDecoded(k: string)
    requires DecodeKey(k).Some?
    ensures CounterKey(DecodeKey(k).value) == k
  {
    DottedKeyOfDecoded(COUNTS_PREFIX, k);
  }

  lemma CounterKeyInjective(t: Triple, u: Triple)
    ensures CounterKey(t) == CounterKey(u) <==> t == u
  {
    DecodeCounterKey(t);
    DecodeCounterKey(u);
  }

  /** The names as they stand in Redis. */
  lemma KeysInLetters()
    ensures CounterKey(Triple("0xA.b", 7, 42)) == "EpochSubmissionCountsReceivedInSlotKey.0xA.b.7.42"
    ensures QUEUE_KEY == "submissionQueue"
  {
    PrintDigit(4, 2);
  }

  /** The queue and the counters live under different names, whatever the market is called. */
  lemma CounterKeyIsNotQueue(t: Triple)
    ensures CounterKey(t) != QUEUE_KEY
  {
    assert |CounterKey(t)| > |COUNTS_PREFIX| > |QUEUE_KEY|;
  }
}
