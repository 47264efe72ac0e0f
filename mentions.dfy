/** The evidence verifier: a web search scoped to a LinkedIn profile, and a
    case-insensitive look for the phrase in the organic results. */
module Mentions {

  import opened Wrappers
  import opened Json
  import opened Text

  /** One element of the search response's `organic` list: an object with
      (possibly missing) title, subtitle and snippet, or something that is
      not an object at all. */
  datatype Organic =
    | Entry(title: JsonValue, subtitle: JsonValue, snippet: JsonValue)
    | NonObject

  /** How the scan of a response ends: a field matched, nothing matched, or
      an exception was raised (the caller turns it into `False`). */
  datatype Outcome = Match | NoMatch | Raised

  /** The search query sent for a profile: `site:<url> <phrase>`. The URL
      and the phrase can be read back from it. */
  function Query(url: string, phrase: string): (q: string)
    ensures StartsWith(q, "site:")
    ensures |q| == 6 + |url| + |phrase|
    ensures q[5..5 + |url|] == url && q[5 + |url|] == ' ' && q[6 + |url|..] == phrase
  {
    "site:" + url + " " + phrase
  }

  /** `res.get(key, "")` followed by `.lower()`: a missing field reads as
      the empty string, and a `null` field cannot be lower-cased. */
  function FieldText(v: JsonValue): Option<string> {
    match v
    case Absent => Some("")
    case Str(s) => Some(s)
    case Null => None
  }

  /** One field matches when it reads as a string whose lower-cased form
      contains the lower-cased phrase. */
  predicate FieldMentions(v: JsonValue, phrase: string) {
    FieldText(v).Some? && Contains(Lower(FieldText(v).value), Lower(phrase))
  }

  /** The `any(...)` over [title, subtitle, snippet]: evaluated lazily, so a
      field that cannot be lower-cased raises only if no earlier field
      matched. */
  function FieldsOutcome(fields: seq<JsonValue>, phrase: string): (o: Outcome)
    ensures o == Match ==> exists k :: 0 <= k < |fields| && FieldMentions(fields[k], phrase)
    ensures o == Raised ==> exists k :: 0 <= k < |fields| && fields[k].Null?
    ensures (forall k :: 0 <= k < |fields| ==> !fields[k].Null?) ==>
              (o == Match <==> exists k :: 0 <= k < |fields| && FieldMentions(fields[k], phrase))
  {
    if fields == [] then NoMatch
    else if FieldText(fields[0]).None? then Raised
    else if Contains(Lower(FieldText(fields[0]).value), Lower(phrase)) then Match
    else
      var rest := FieldsOutcome(fields[1..], phrase);
      assert forall k :: 0 <= k < |fields| - 1 ==> fields[1..][k] == fields[k + 1];
      rest
  }

  /** Field `k` mentions the phrase and no field before it is `null`: the
      lazy `any` reaches it and stops there with a match. */
  predicate MatchAt(fields: seq<JsonValue>, phrase: string, k: nat) {
    k < |fields| && FieldMentions(fields[k], phrase) &&
    forall j :: 0 <= j < k ==> !fields[j].Null?
  }

  /** Field `k` is `null` and no field before it mentions the phrase: the
      lazy `any` reaches it and raises. */
  predicate RaiseAt(fields: seq<JsonValue>, phrase: string, k: nat) {
    k < |fields| && fields[k].Null? &&
    forall j :: 0 <= j < k ==> !FieldMentions(fields[j], phrase)
  }

  /** The outcome of the lazy `any` exactly: a match when a mentioning field
      comes before any `null` field, an exception when a `null` field comes
      before any mentioning field, and no match otherwise. */
  lemma {:induction false} FieldsOutcomeExact(fields: seq<JsonValue>, phrase: string)
    ensures FieldsOutcome(fields, phrase) == Match <==> exists k: nat :: MatchAt(fields, phrase, k)
    ensures FieldsOutcome(fields, phrase) == Raised <==> exists k: nat :: RaiseAt(fields, phrase, k)
  {
    if fields != [] {
      var rest := fields[1..];
      if FieldText(fields[0]).None? {
        assert RaiseAt(fields, phrase, 0);
      } else if FieldMentions(fields[0], phrase) {
        assert MatchAt(fields, phrase, 0);
      } else {
        FieldsOutcomeExact(rest, phrase);
        forall k: nat | MatchAt(fields, phrase, k)
          ensures MatchAt(rest, phrase, k - 1)
        {
          assert forall j :: 0 <= j < k - 1 ==> rest[j] == fields[j + 1];
        }
        forall k: nat | MatchAt(rest, phrase, k)
          ensures MatchAt(fields, phrase, k + 1)
        {
          assert forall j :: 1 <= j < k + 1 ==> fields[j] == rest[j - 1];
        }
        forall k: nat | RaiseAt(fields, phrase, k)
          ensures RaiseAt(rest, phrase, k - 1)
        {
          assert forall j :: 0 <= j < k - 1 ==> rest[j] == fields[j + 1];
        }
        forall k: nat | RaiseAt(rest, phrase, k)
          ensures RaiseAt(fields, phrase, k + 1)
        {
          assert forall j :: 1 <= j < k + 1 ==> fields[j] == rest[j - 1];
        }
      }
    }
  }

  /** The three fields of a result, in the order the script reads them. */
  function Parts(e: Organic): seq<JsonValue>
    requires e.Entry?
  {
    [e.title, e.subtitle, e.snippet]
  }

  /** What one result contributes: a non-object raises on `.get`. */
  function EntryOutcome(e: Organic, phrase: string): Outcome {
    match e
    case NonObject => Raised
    case Entry(_, _, _) => FieldsOutcome(Parts(e), phrase)
  }

  /** The loop over the organic results, as a value: the first result that
      matches or raises ends it. */
  function Scan(results: seq<Organic>, phrase: string): Outcome {
    if results == [] then NoMatch
    else if EntryOutcome(results[0], phrase) != NoMatch then EntryOutcome(results[0], phrase)
    else Scan(results[1..], phrase)
  }

  /** Reference definition: some field of some result mentions the phrase. */
  predicate EntryMentions(e: Organic, phrase: string) {
    e.Entry? &&
    (FieldMentions(e.title, phrase) || FieldMentions(e.subtitle, phrase)
     || FieldMentions(e.snippet, phrase))
  }

  ghost predicate Mentioned(results: seq<Organic>, phrase: string) {
    exists i :: 0 <= i < |results| && EntryMentions(results[i], phrase)
  }

  /** A result the script can read without raising: an object whose fields
      are missing or strings. */
  predicate WellFormed(e: Organic) {
    e.Entry? && !e.title.Null? && !e.subtitle.Null? && !e.snippet.Null?
  }

  /** The lazy `any` over one field: raise on `null`, match on a mention. */
  function FieldStep(v: JsonValue, phrase: string, rest: Outcome): Outcome {
    if FieldText(v).None? then Raised else if FieldMentions(v, phrase) then Match else rest
  }

  /** The lazy `any` over three fields, unfolded field by field. */
  lemma FieldsOutcomeOfThree(a: JsonValue, b: JsonValue, c: JsonValue, phrase: string)
    ensures FieldsOutcome([a, b, c], phrase)
            == FieldStep(a, phrase, FieldStep(b, phrase, FieldStep(c, phrase, NoMatch)))
  {
    assert [a, b, c][1..] == [b, c];
    assert [b, c][1..] == [c];
    assert [c][1..] == [];
    assert FieldsOutcome([c], phrase) == FieldStep(c, phrase, NoMatch);
    assert FieldsOutcome([b, c], phrase) == FieldStep(b, phrase, FieldsOutcome([c], phrase));
  }

  /** Per result, the lazy `any` agrees with the reference definition. */
  lemma EntryOutcomeMeaning(e: Organic, phrase: string)
    ensures EntryOutcome(e, phrase) == Match ==> EntryMentions(e, phrase)
    ensures WellFormed(e) ==>
              EntryOutcome(e, phrase) == (if EntryMentions(e, phrase) then Match else NoMatch)
  {
    if e.Entry? {
      assert Parts(e) == [e.title, e.subtitle, e.snippet];
      FieldsOutcomeOfThree(e.title, e.subtitle, e.snippet, phrase);
    }
  }

  /** A match found by the scan is a real mention. */
  lemma {:induction false} ScanSound(results: seq<Organic>, phrase: string)
    ensures Scan(results, phrase) == Match ==> Mentioned(results, phrase)
  {
    if results != [] {
      EntryOutcomeMeaning(results[0], phrase);
      ScanSound(results[1..], phrase);
      if Scan(results, phrase) == Match && EntryOutcome(results[0], phrase) != Match {
        var i :| 0 <= i < |results| - 1 && EntryMentions(results[1..][i], phrase);
        assert results[1..][i] == results[i + 1];
      }
    }
  }

  /** On a response the script can read in full, the scan finds a match
      exactly when some field of some result mentions the phrase. */
  lemma {:induction false} ScanComplete(results: seq<Organic>, phrase: string)
    requires forall i :: 0 <= i < |results| ==> WellFormed(results[i])
    ensures Scan(results, phrase) == (if Mentioned(results, phrase) then Match else NoMatch)
  {
    if results != [] {
      EntryOutcomeMeaning(results[0], phrase);
      assert forall i :: 0 <= i < |results| - 1 ==> results[1..][i] == results[i + 1];
      ScanComplete(results[1..], phrase);
      if Mentioned(results, phrase) && !EntryMentions(results[0], phrase) {
        var i :| 0 <= i < |results| && EntryMentions(results[i], phrase);
        assert results[1..][i - 1] == results[i];
      }
    }
  }

  /** Scanning a concatenation: the second part is reached only when the
      first part neither matched nor raised. */
  lemma {:induction false} ScanAppend(a: seq<Organic>, b: seq<Organic>, phrase: string)
    ensures Scan(a + b, phrase) == if Scan(a, phrase) == NoMatch then Scan(b, phrase) else Scan(a, phrase)
  {
    if a == [] {
      assert a + b == b;
    } else {
      assert (a + b)[0] == a[0];
      assert (a + b)[1..] == a[1..] + b;
      ScanAppend(a[1..], b, phrase);
    }
  }

  /** The scan at result `i`: it extends the scan of the results before
      `i` by that result's outcome, and the scan of the whole list goes on
      past `i` only if nothing before or at `i` matched or raised. */
  lemma ScanStep(results: seq<Organic>, i: nat, phrase: string)
    requires i < |results|
    ensures Scan(results[..i + 1], phrase) ==
            if Scan(results[..i], phrase) == NoMatch then EntryOutcome(results[i], phrase)
            else Scan(results[..i], phrase)
    ensures Scan(results, phrase) ==
            if Scan(results[..i + 1], phrase) == NoMatch then Scan(results[i + 1..], phrase)
            else Scan(results[..i + 1], phrase)
  {
    assert results[..i + 1] == results[..i] + [results[i]];
    ScanAppend(results[..i], [results[i]], phrase);
    assert results[..i + 1] + results[i + 1..] == results;
    ScanAppend(results[..i + 1], results[i + 1..], phrase);
  }

  /** `check_linkedin_snippet_with_serper(url, phrase)` as a value, with the
      search service as a parameter: `None` stands for every failure before
      the results are read (network error, timeout, error status, a body
      that is not a JSON object, an `organic` key that is not a list), and
      a response without `organic` is `Some([])`. */
  function VerifyMention(search: string -> Option<seq<Organic>>, url: string, phrase: string): bool {
    match search(Query(url, phrase))
    case None => false
    case Some(results) => Scan(results, phrase) == Match
  }

  /** A positive answer is always backed by a result that mentions the
      phrase; a failed search is always a negative answer. */
  lemma VerifyMentionSound(search: string -> Option<seq<Organic>>, url: string, phrase: string)
    ensures search(Query(url, phrase)).None? ==> !VerifyMention(search, url, phrase)
    ensures VerifyMention(search, url, phrase) ==>
              search(Query(url, phrase)).Some? && Mentioned(search(Query(url, phrase)).value, phrase)
  {
    if search(Query(url, phrase)).Some? {
      ScanSound(search(Query(url, phrase)).value, phrase);
    }
  }

  /** An exception anywhere in the scan is a `False` answer: when the
      results before `i` neither matched nor raised and result `i` raises,
      later results are never looked at. */
  lemma RaisedIsFalse(search: string -> Option<seq<Organic>>, url: string, phrase: string, i: nat)
    requires search(Query(url, phrase)).Some?
    requires i < |search(Query(url, phrase)).value|
    requires Scan(search(Query(url, phrase)).value[..i], phrase) == NoMatch
    requires EntryOutcome(search(Query(url, phrase)).value[i], phrase) == Raised
    ensures !VerifyMention(search, url, phrase)
  {
    ScanStep(search(Query(url, phrase)).value, i, phrase);
  }

  /** On a response the script can read in full, the answer is `True`
      exactly when some field of some result mentions the phrase; a
      response without organic results is always `False`. */
  lemma VerifyMentionComplete(search: string -> Option<seq<Organic>>, url: string, phrase: string)
    requires search(Query(url, phrase)).Some?
    requires forall i :: 0 <= i < |search(Query(url, phrase)).value| ==>
               WellFormed(search(Query(url, phrase)).value[i])
    ensures VerifyMention(search, url, phrase) <==> Mentioned(search(Query(url, phrase)).value, phrase)
    ensures search(Query(url, phrase)).value == [] ==> !VerifyMention(search, url, phrase)
  {
    ScanComplete(search(Query(url, phrase)).value, phrase);
  }

  /** `check_linkedin_snippet_with_serper`: issue the query, walk the
      organic results in order, return `True` at the first result with a
      matching field and `False` when the list is exhausted or anything
      raises. */
  method CheckLinkedInSnippet(search: string -> Option<seq<Organic>>, url: string, phrase: string)
    returns (found: bool)
    ensures found == VerifyMention(search, url, phrase)
    ensures found ==> Mentioned(search(Query(url, phrase)).value, phrase)
  {
    var response := search(Query(url, phrase));
    if response.None? {
      return false;
    }
    var results := response.value;
    for i := 0 to |results|
      invariant Scan(results[..i], phrase) == NoMatch
    {
      ScanStep(results, i, phrase);
      var outcome := EntryOutcome(results[i], phrase);
      if outcome == Match {
        ScanSound(results, phrase);
        return true;
      } else if outcome == Raised {
        return false;
      }
    }
    assert results[..|results|] == results;
    found := false;
  }
}
