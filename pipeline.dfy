/** The whole enrichment run: list the companies, then enrich each one with
    the concrete link extractor and mention verifier. */
module Pipeline {

  import opened Wrappers
  import opened Links
  import opened Mentions
  import opened Listing
  import opened Records

  /** The phrase looked for on every LinkedIn profile. */
  const Phrase: string := "YC S25"

  /** `get_company_links`, given the profile pages the web would serve. */
  function ProfileExtractor(pages: string -> Option<seq<string>>): string -> LinkSet {
    slug => CompanyLinks(pages, slug)
  }

  /** `check_linkedin_snippet_with_serper(url, "YC S25")`, given the search
      service. */
  function Verifier(search: string -> Option<seq<Organic>>): string -> bool {
    url => VerifyMention(search, url, Phrase)
  }

  /** One run: the listing, then one record per listed company. Only a
      failure of the listing aborts the run. */
  function Run(listing: nat -> PageResult, last: nat, pages: string -> Option<seq<string>>,
               search: string -> Option<seq<Organic>>): Result<seq<EnrichedRecord>, nat>
    requires Halts(listing(last))
  {
    match Load(listing, last)
    case Failure(page) => Failure(page)
    case Success(companies) =>
      Success(EnrichAll(companies, ProfileExtractor(pages), Verifier(search)))
  }

  /** A run fails exactly when the listing fails, at the same page; it
      otherwise holds one record per listed company, in listing order. */
  lemma RunShape(listing: nat -> PageResult, last: nat, pages: string -> Option<seq<string>>,
                 search: string -> Option<seq<Organic>>)
    requires Halts(listing(last))
    ensures Run(listing, last, pages, search).Failure? <==> Load(listing, last).Failure?
    ensures Run(listing, last, pages, search).Failure? ==>
              Run(listing, last, pages, search).error == Load(listing, last).error
    ensures Run(listing, last, pages, search).Success? ==>
              |Run(listing, last, pages, search).value| == |Load(listing, last).value|
    ensures Run(listing, last, pages, search).Success? ==>
              forall j :: 0 <= j < |Run(listing, last, pages, search).value| ==>
                Run(listing, last, pages, search).value[j]
                == Enrich(Load(listing, last).value[j], ProfileExtractor(pages), Verifier(search))
  {
  }

  /** A company whose profile page cannot be fetched gets no website, no
      LinkedIn profile and "No", and no search is made for it. */
  lemma FailureAbsorbed(listing: nat -> PageResult, last: nat,
                        pages: string -> Option<seq<string>>,
                        search: string -> Option<seq<Organic>>, i: nat)
    requires Halts(listing(last)) && Run(listing, last, pages, search).Success?
    requires i < |Load(listing, last).value|
    requires Slug(Load(listing, last).value[i]).Some? ==>
               pages(CompanyUrl(Slug(Load(listing, last).value[i]).value)).None?
    ensures i < |Run(listing, last, pages, search).value|
    ensures Run(listing, last, pages, search).value[i].website.None?
    ensures Run(listing, last, pages, search).value[i].linkedIn.None?
    ensures Run(listing, last, pages, search).value[i].mentions == "No"
    ensures CallsFor(Load(listing, last).value[i], ProfileExtractor(pages)) ==
              if Slug(Load(listing, last).value[i]).Some?
              then [FetchProfile(Slug(Load(listing, last).value[i]).value)] else []
  {
  }

  /** In every record of a run: a website starts with `http` and names no
      excluded domain, a LinkedIn profile contains `linkedin.com`, and
      "Yes" is backed by a search result that mentions the phrase. */
  lemma RunRecordsSound(listing: nat -> PageResult, last: nat,
                        pages: string -> Option<seq<string>>,
                        search: string -> Option<seq<Organic>>, i: nat)
    requires Halts(listing(last)) && Run(listing, last, pages, search).Success?
    requires i < |Run(listing, last, pages, search).value|
    ensures var r := Run(listing, last, pages, search).value[i];
            (r.website.Some? ==> IsWebsite(r.website.value)) &&
            (r.linkedIn.Some? ==> IsLinkedIn(r.linkedIn.value)) &&
            (r.mentions == "Yes" ==>
               r.linkedIn.Some? && search(Query(r.linkedIn.value, Phrase)).Some? &&
               Mentioned(search(Query(r.linkedIn.value, Phrase)).value, Phrase))
  {
    var r := Run(listing, last, pages, search).value[i];
    if r.mentions == "Yes" {
      VerifyMentionSound(search, r.linkedIn.value, Phrase);
    }
  }
}
