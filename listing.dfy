/** The listing fetcher: the directory index is read page by page, from
    page 0, until a page comes back with no hits. */
module Listing {

  import opened Wrappers
  import opened Json

  /** One hit of the directory index, reduced to the keys the script reads. */
  datatype Company = Company(name: JsonValue, longDescription: JsonValue, slug: JsonValue)

  /** What `fetch_page(page)` gives: the page's hits, or an error that
      escapes (an error status raised by `raise_for_status`, or a body
      without `results[0].hits`). */
  datatype PageResult = Hits(hits: seq<Company>) | Failed

  /** A page on which the loop stops: it failed, or it has no hits. */
  predicate Halts(p: PageResult) {
    p.Failed? || p.hits == []
  }

  /** The first page, from `from` on, on which the loop stops. `last` is a
      page known to stop it; the source has no page cap, so such a page is
      the hypothesis under which the loop terminates. */
  function FirstHalt(fetch: nat -> PageResult, from: nat, last: nat): (k: nat)
    requires from <= last && Halts(fetch(last))
    ensures from <= k <= last && Halts(fetch(k))
    ensures forall j :: from <= j < k ==> !Halts(fetch(j))
    decreases last - from
  {
    if Halts(fetch(from)) then from else FirstHalt(fetch, from + 1, last)
  }

  /** Any two pages known to stop the loop lead to the same first stop:
      the choice of `last` does not change anything observable. */
  lemma FirstHaltUnique(fetch: nat -> PageResult, last1: nat, last2: nat)
    requires Halts(fetch(last1)) && Halts(fetch(last2))
    ensures FirstHalt(fetch, 0, last1) == FirstHalt(fetch, 0, last2)
  {
  }

  /** The hits of pages 0 .. n-1, concatenated in page order. */
  function HitsBefore(fetch: nat -> PageResult, n: nat): seq<Company>
    requires forall j :: 0 <= j < n ==> fetch(j).Hits?
  {
    if n == 0 then [] else HitsBefore(fetch, n - 1) + fetch(n - 1).hits
  }

  /** Pages are concatenated in page order: the hits of page `j` sit in
      HitsBefore(n), for every n > j, right after the hits of the pages
      before `j`, in their own order. */
  lemma {:induction false} HitsBeforeContents(fetch: nat -> PageResult, n: nat, j: nat)
    requires forall p :: 0 <= p < n ==> fetch(p).Hits?
    requires j < n
    ensures |HitsBefore(fetch, j)| + |fetch(j).hits| <= |HitsBefore(fetch, n)|
    ensures HitsBefore(fetch, n)[|HitsBefore(fetch, j)|..|HitsBefore(fetch, j)| + |fetch(j).hits|]
            == fetch(j).hits
    decreases n
  {
    if j < n - 1 {
      HitsBeforeContents(fetch, n - 1, j);
      var prefix := HitsBefore(fetch, n - 1);
      assert HitsBefore(fetch, n) == prefix + fetch(n - 1).hits;
      var lo, hi := |HitsBefore(fetch, j)|, |HitsBefore(fetch, j)| + |fetch(j).hits|;
      assert (prefix + fetch(n - 1).hits)[lo..hi] == prefix[lo..hi];
    }
  }

  /** `load_companies()` as a value: the hits of every page before the
      first stopping page, or the page whose fetch failed. */
  function Load(fetch: nat -> PageResult, last: nat): Result<seq<Company>, nat>
    requires Halts(fetch(last))
  {
    var k := FirstHalt(fetch, 0, last);
    if fetch(k).Failed? then Failure(k) else Success(HitsBefore(fetch, k))
  }

  /** `load_companies()`: request pages 0, 1, 2, ... in order, stop at the
      first page without hits and return all earlier hits in order; a
      failed request aborts the whole listing. `requested` is the list of
      pages asked for: exactly pages 0 .. k, where k is the stopping page. */
  method LoadCompanies(fetch: nat -> PageResult, ghost last: nat)
    returns (listing: Result<seq<Company>, nat>, requested: seq<nat>)
    requires Halts(fetch(last))
    ensures listing == Load(fetch, last)
    ensures |requested| == FirstHalt(fetch, 0, last) + 1
    ensures forall i :: 0 <= i < |requested| ==> requested[i] == i
  {
    var all: seq<Company> := [];
    var page: nat := 0;
    requested := [];
    while true
      invariant page <= last
      invariant forall j :: 0 <= j < page ==> !Halts(fetch(j))
      invariant all == HitsBefore(fetch, page)
      invariant |requested| == page
      invariant forall i :: 0 <= i < page ==> requested[i] == i
      decreases last - page
    {
      var data := fetch(page);
      requested := requested + [page];
      if data.Failed? {
        listing := Failure(page);
        return;
      }
      if data.hits == [] {
        break;
      }
      all := all + data.hits;
      page := page + 1;
    }
    listing := Success(all);
  }
}
