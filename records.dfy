/** Record assembly: one six-column record per listed company, in listing
    order. The link extractor and the mention verifier are parameters. */
module Records {

  import opened Wrappers
  import opened Json
  import opened Text
  import opened Links
  import opened Listing

  /** One output row: Company Name, Website, Description, YC URL, LinkedIn,
      and whether the LinkedIn profile mentions the phrase ("Yes"/"No"). */
  datatype EnrichedRecord = EnrichedRecord(
    companyName: Option<string>,
    website: Option<string>,
    description: Option<string>,
    ycUrl: string,
    linkedIn: Option<string>,
    mentions: string)

  /** An outside call made while enriching: a profile page fetch for a
      slug, or a search for a LinkedIn profile. */
  datatype Call = FetchProfile(slug: string) | SearchProfile(url: string)

  /** The slug when it is truthy: present, a string, and not empty. */
  function Slug(c: Company): (r: Option<string>)
    ensures r.Some? <==> c.slug.Str? && c.slug.s != ""
    ensures r.Some? ==> r.value == c.slug.s
  {
    if c.slug.Str? && c.slug.s != "" then Some(c.slug.s) else None
  }

  /** The links for a company: none at all, and no fetch, without a slug. */
  function LinksFor(c: Company, extract: string -> LinkSet): LinkSet {
    match Slug(c)
    case Some(s) => extract(s)
    case None => NoLinks
  }

  /** The verifier is consulted only for a truthy LinkedIn profile. */
  function Flag(links: LinkSet, verify: string -> bool): bool {
    Truthy(links.linkedin) && verify(links.linkedin.value)
  }

  /** The record for one company. */
  function Enrich(c: Company, extract: string -> LinkSet, verify: string -> bool): EnrichedRecord {
    var links := LinksFor(c, extract);
    EnrichedRecord(
      Get(c.name),
      links.website,
      GetOr(c.longDescription, "-"),
      match Slug(c) case Some(s) => CompanyUrl(s) case None => "-",
      links.linkedin,
      if Flag(links, verify) then "Yes" else "No")
  }

  /** The outside calls made for one company, in order. */
  function CallsFor(c: Company, extract: string -> LinkSet): seq<Call> {
    match Slug(c)
    case None => []
    case Some(s) =>
      [FetchProfile(s)]
      + (if Truthy(extract(s).linkedin) then [SearchProfile(extract(s).linkedin.value)] else [])
  }

  /** The outside calls made for a list of companies, in order. */
  function CallsOf(cs: seq<Company>, extract: string -> LinkSet): seq<Call> {
    if cs == [] then [] else CallsOf(cs[..|cs| - 1], extract) + CallsFor(cs[|cs| - 1], extract)
  }

  /** The records of a list of companies, one per company, in order. */
  function EnrichAll(cs: seq<Company>, extract: string -> LinkSet, verify: string -> bool)
    : seq<EnrichedRecord>
  {
    seq(|cs|, i requires 0 <= i < |cs| => Enrich(cs[i], extract, verify))
  }

  /** The YC URL is "-" exactly when there is no slug; otherwise it is the
      profile page URL, from which the slug reads back. */
  lemma YcUrlMeaning(c: Company, extract: string -> LinkSet, verify: string -> bool)
    ensures Enrich(c, extract, verify).ycUrl == "-" <==> Slug(c).None?
    ensures Slug(c).Some? ==>
              StartsWith(Enrich(c, extract, verify).ycUrl, BaseCompanyUrl) &&
              Enrich(c, extract, verify).ycUrl[|BaseCompanyUrl|..] == Slug(c).value
  {
    if Slug(c).Some? {
      assert |Enrich(c, extract, verify).ycUrl| > |"-"|;
    }
  }

  /** Without a slug there are no links, the mention is "No", and no outside
      call is made. */
  lemma NoSlug(c: Company, extract: string -> LinkSet, verify: string -> bool)
    requires Slug(c).None?
    ensures Enrich(c, extract, verify).website.None?
    ensures Enrich(c, extract, verify).linkedIn.None?
    ensures Enrich(c, extract, verify).mentions == "No"
    ensures CallsFor(c, extract) == []
  {
  }

  /** The mention column is "Yes" exactly when a truthy LinkedIn profile
      was found and the verifier confirmed it, and "No" otherwise. */
  lemma MentionsMeaning(c: Company, extract: string -> LinkSet, verify: string -> bool)
    ensures Enrich(c, extract, verify).mentions in {"Yes", "No"}
    ensures Enrich(c, extract, verify).mentions == "Yes" <==>
              Truthy(Enrich(c, extract, verify).linkedIn) &&
              verify(Enrich(c, extract, verify).linkedIn.value)
  {
  }

  /** The description is "-" when the key is missing, `None` when it is
      `null`, and the text itself otherwise. */
  lemma DescriptionDefault(c: Company, extract: string -> LinkSet, verify: string -> bool)
    ensures c.longDescription.Absent? ==> Enrich(c, extract, verify).description == Some("-")
    ensures c.longDescription.Null? ==> Enrich(c, extract, verify).description.None?
    ensures c.longDescription.Str? ==>
              Enrich(c, extract, verify).description == Some(c.longDescription.s)
  {
  }

  /** A search is made only for the LinkedIn profile the record shows, only
      when it is truthy, and only after the profile page was fetched. */
  lemma SearchOnlyWithLinkedIn(c: Company, extract: string -> LinkSet, verify: string -> bool,
                               k: nat)
    requires k < |CallsFor(c, extract)| && CallsFor(c, extract)[k].SearchProfile?
    ensures k == 1 && CallsFor(c, extract)[0] == FetchProfile(Slug(c).value)
    ensures Enrich(c, extract, verify).linkedIn == Some(CallsFor(c, extract)[k].url)
    ensures Truthy(Enrich(c, extract, verify).linkedIn)
  {
  }

  /** The calls for one more company extend the calls made so far. */
  lemma CallsOfPrefix(cs: seq<Company>, i: nat, extract: string -> LinkSet)
    requires i < |cs|
    ensures CallsOf(cs[..i + 1], extract) == CallsOf(cs[..i], extract) + CallsFor(cs[i], extract)
  {
    assert cs[..i + 1][..i] == cs[..i];
  }

  /** Appending the record of the next company keeps the records in step
      with the companies. */
  lemma RecordsSnoc(companies: seq<Company>, records: seq<EnrichedRecord>, record: EnrichedRecord,
                    extract: string -> LinkSet, verify: string -> bool)
    requires |records| < |companies|
    requires forall j :: 0 <= j < |records| ==> records[j] == Enrich(companies[j], extract, verify)
    requires record == Enrich(companies[|records|], extract, verify)
    ensures forall j :: 0 <= j <= |records| ==>
              (records + [record])[j] == Enrich(companies[j], extract, verify)
  {
  }

  /** The body of the loop of `main` for one company: read its name,
      description and slug, fetch its links only when the slug is truthy,
      consult the verifier only when the LinkedIn profile is truthy, and
      build the record. `calls` lists the outside calls made. */
  method EnrichCompany(company: Company, extract: string -> LinkSet, verify: string -> bool)
    returns (record: EnrichedRecord, calls: seq<Call>)
    ensures record == Enrich(company, extract, verify)
    ensures calls == CallsFor(company, extract)
  {
    calls := [];
    var name := Get(company.name);
    var description := GetOr(company.longDescription, "-");
    var slug := company.slug;
    var ycUrl := if slug.Str? && slug.s != "" then BaseCompanyUrl + slug.s else "-";
    var website: Option<string>, linkedin: Option<string> := None, None;
    if slug.Str? && slug.s != "" {
      var links := extract(slug.s);
      calls := calls + [FetchProfile(slug.s)];
      website, linkedin := links.website, links.linkedin;
    }
    var flag := false;
    if Truthy(linkedin) {
      flag := verify(linkedin.value);
      calls := calls + [SearchProfile(linkedin.value)];
    }
    record := EnrichedRecord(name, website, description, ycUrl, linkedin,
                             if flag then "Yes" else "No");
  }

  /** The loop of `main`: one record per company, appended in listing
      order, and the outside calls of each company in the same order. */
  method BuildRecords(companies: seq<Company>, extract: string -> LinkSet, verify: string -> bool)
    returns (records: seq<EnrichedRecord>, calls: seq<Call>)
    ensures |records| == |companies|
    ensures forall i :: 0 <= i < |companies| ==> records[i] == Enrich(companies[i], extract, verify)
    ensures calls == CallsOf(companies, extract)
  {
    records, calls := [], [];
    for i := 0 to |companies|
      invariant |records| == i
      invariant forall j :: 0 <= j < i ==> records[j] == Enrich(companies[j], extract, verify)
      invariant calls == CallsOf(companies[..i], extract)
    {
      var record, companyCalls := EnrichCompany(companies[i], extract, verify);
      RecordsSnoc(companies, records, record, extract, verify);
      CallsOfPrefix(companies, i, extract);
      records := records + [record];
      calls := calls + companyCalls;
    }
    assert companies[..|companies|] == companies;
  }
}
