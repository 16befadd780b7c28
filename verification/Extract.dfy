/** Extraction of a quoted field from raw text by leftmost search. */
module Extract {
  import opened Wrappers

  predicate OccursAt(s: string, pat: string, i: nat) {
    i + |pat| <= |s| && s[i..i + |pat|] == pat
  }

  /** `i` is where `pat` first occurs in `s`. */
  predicate FirstAt(s: string, pat: string, i: nat) {
    OccursAt(s, pat, i) && forall j :: 0 <= j < i ==> !OccursAt(s, pat, j)
  }

  /** Leftmost search, as the standard library's Index does it. */
  function IndexFrom(s: string, pat: string, from: nat): (r: Option<nat>)
    requires from <= |s|
    ensures r.Some? ==> from <= r.value && OccursAt(s, pat, r.value)
    ensures r.Some? ==> forall j :: from <= j < r.value ==> !OccursAt(s, pat, j)
    ensures r.None? ==> forall j :: from <= j ==> !OccursAt(s, pat, j)
    decreases |s| - from
  {
    if OccursAt(s, pat, from) then Some(from)
    else if from == |s| then None
    else IndexFrom(s, pat, from + 1)
  }

  function Index(s: string, pat: string): (r: Option<nat>)
    ensures r.Some? <==> exists i: nat :: FirstAt(s, pat, i)
    ensures r.Some? ==> FirstAt(s, pat, r.value)
  {
    var r := IndexFrom(s, pat, 0);
    assert r.Some? ==> FirstAt(s, pat, r.value);
    r
  }

  lemma FirstAtUnique(s: string, pat: string, i: nat, j: nat)
    requires FirstAt(s, pat, i) && FirstAt(s, pat, j)
    ensures i == j
  {
  }

  /** Either a text or the run-time panic on slicing past the end of the input. */
  datatype Outcome = Field(text: string) | OutOfRange

  function ExtractField(s: string, name: string): Outcome {
    match Index(s, name + ":")
    case None => Field("")
    case Some(at) =>
      // past the name, the colon and the opening quote
      var start := at + |name| + 2;
      if start > |s| then OutOfRange
      else
        match Index(s[start..], "\"")
        case None => Field("")
        case Some(end) => Field(s[start..start + end])
  }

  predicate QuoteFree(s: string) {
    forall i :: 0 <= i < |s| ==> s[i] != '\"'
  }

  /** Where a result `v` comes from: the leftmost `name:` stands at `at`, one further character
      is skipped unread, and `v` runs up to the next quote. */
  predicate Delimits(s: string, name: string, at: nat, v: string) {
    && FirstAt(s, name + ":", at)
    && QuoteFree(v)
    && OccursAt(s, v + "\"", at + |name| + 2)
  }

  lemma FirstQuote(s: string, end: nat)
    ensures FirstAt(s, "\"", end) <==> end < |s| && s[end] == '\"' && QuoteFree(s[..end])
  {
    forall j: nat
      ensures OccursAt(s, "\"", j) <==> j < |s| && s[j] == '\"'
    {
      if j < |s| { assert s[j..j + 1] == [s[j]]; }
    }
    if end < |s| {
      forall j | 0 <= j < end
        ensures s[..end][j] == s[j]
      {
      }
    }
  }

  lemma OccursQuoted(s: string, v: string, start: nat)
    requires start <= |s|
    ensures OccursAt(s, v + "\"", start) <==>
            |v| < |s[start..]| && s[start..][|v|] == '\"' && s[start..][..|v|] == v
  {
    var rest := s[start..];
    if |v| < |rest| {
      assert s[start..start + |v| + 1] == rest[..|v|] + [rest[|v|]];
      if OccursAt(s, v + "\"", start) {
        assert (v + "\"")[..|v|] == v && (v + "\"")[|v|] == '\"';
      }
    }
  }

  /** A field delimited by quotes is returned, whatever surrounds it. */
  lemma ExtractsDelimited(s: string, name: string, at: nat, v: string)
    requires Delimits(s, name, at, v)
    ensures ExtractField(s, name) == Field(v)
  {
    FirstAtUnique(s, name + ":", at, Index(s, name + ":").value);
    var start := at + |name| + 2;
    OccursQuoted(s, v, start);
    FirstQuote(s[start..], |v|);
    FirstAtUnique(s[start..], "\"", |v|, Index(s[start..], "\"").value);
  }

  /** Soundness and completeness for non-empty fields: the result is `v` exactly when `v` is
      delimited in the text. */
  lemma ExtractFieldExact(s: string, name: string, v: string)
    requires v != ""
    ensures ExtractField(s, name) == Field(v) <==> exists at: nat :: Delimits(s, name, at, v)
  {
    if ExtractField(s, name) == Field(v) {
      var at := Index(s, name + ":").value;
      var start := at + |name| + 2;
      var end := Index(s[start..], "\"").value;
      FirstQuote(s[start..], end);
      OccursQuoted(s, v, start);
      assert s[start..][..end] == s[start..start + end];
      assert Delimits(s, name, at, v);
    }
    if at: nat :| Delimits(s, name, at, v) {
      ExtractsDelimited(s, name, at, v);
    }
  }

  /** No value to be read at `start`: no quote follows, or one follows at once. */
  predicate Valueless(s: string, start: nat) {
    start <= |s| && (QuoteFree(s[start..]) || s[start] == '\"')
  }

  /** An empty result means that the name is missing, that no quote follows it, or that the value
      is empty; the caller cannot tell which. */
  lemma EmptyResultExactly(s: string, name: string)
    ensures ExtractField(s, name) == Field("") <==>
            forall at: nat :: FirstAt(s, name + ":", at) ==> Valueless(s, at + |name| + 2)
  {
    if Index(s, name + ":").Some? {
      var at := Index(s, name + ":").value;
      var start := at + |name| + 2;
      forall i: nat | FirstAt(s, name + ":", i)
        ensures i == at
      {
        FirstAtUnique(s, name + ":", at, i);
      }
      if start <= |s| {
        FirstQuoteAtStart(s[start..]);
        assert ExtractField(s, name) == Field("") <==> Valueless(s, start);
      }
    }
  }

  lemma FirstQuoteAtStart(s: string)
    ensures Index(s, "\"").None? <==> QuoteFree(s)
    ensures Index(s, "\"") == Some(0) <==> s != "" && s[0] == '\"'
  {
    if Index(s, "\"").None? {
      NoQuote(s);
    } else {
      FirstQuote(s, Index(s, "\"").value);
    }
    if s != "" && s[0] == '\"' {
      FirstQuote(s, 0);
      FirstAtUnique(s, "\"", 0, Index(s, "\"").value);
    }
  }

  lemma NoQuote(s: string)
    requires Index(s, "\"").None?
    ensures QuoteFree(s)
  {
    forall i | 0 <= i < |s|
      ensures s[i] != '\"'
    {
      FirstQuoteExists(s, i);
    }
  }

  /** If there is a quote there is a first one. */
  lemma {:induction false} FirstQuoteExists(s: string, i: nat)
    requires i < |s|
    ensures s[i] == '\"' ==> exists j: nat :: FirstAt(s, "\"", j)
  {
    if s[i] == '\"' {
      if k :| 0 <= k < i && s[k] == '\"' {
        FirstQuoteExists(s, k);
      } else {
        FirstQuote(s, i);
        assert FirstAt(s, "\"", i);
      }
    }
  }

  /** Round trip: a quoted value without quotes, written after the first `name:`, is read back
      for any suffix. */
  lemma ExtractFieldRoundTrip(prefix: string, name: string, v: string, suffix: string)
    requires QuoteFree(v)
    requires FirstAt(prefix + name + ":\"" + v + "\"" + suffix, name + ":", |prefix|)
    ensures ExtractField(prefix + name + ":\"" + v + "\"" + suffix, name) == Field(v)
  {
    var s := prefix + name + ":\"" + v + "\"" + suffix;
    var start := |prefix| + |name| + 2;
    assert s[start..start + |v| + 1] == v + "\"";
    ExtractsDelimited(s, name, |prefix|, v);
  }

  lemma RangeAtMatch(s: string, name: string)
    ensures ExtractField(s, name) == OutOfRange <==>
            Index(s, name + ":").Some? && Index(s, name + ":").value + |name| + 2 > |s|
  {
  }

  /** The slice is in range except when the leftmost `name:` ends the text. */
  lemma OutOfRangeExactly(s: string, name: string)
    ensures ExtractField(s, name) == OutOfRange <==>
            |name| + 1 <= |s| && FirstAt(s, name + ":", |s| - |name| - 1)
  {
    RangeAtMatch(s, name);
    var found := Index(s, name + ":");
    if found.Some? {
      assert found.value + |name| + 1 <= |s|;
      if |name| + 1 <= |s| && FirstAt(s, name + ":", |s| - |name| - 1) {
        FirstAtUnique(s, name + ":", |s| - |name| - 1, found.value);
      }
    }
  }
}
