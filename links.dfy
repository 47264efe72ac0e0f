/** The link extractor: a company's public profile page is fetched and its
    anchors are classified, in document order, into an official website and
    a LinkedIn profile, first match wins for each. */
module Links {

  import opened Wrappers
  import opened Text

  /** Prefix of every company's public profile page. */
  const BaseCompanyUrl: string := "https://www.ycombinator.com/companies/"

  /** Domains that never make an anchor the company's own website. */
  const ExcludedDomains: seq<string> :=
    ["ycombinator.com", "startupschool.org", "github.com", "linkedin.com"]

  /** What the extractor reports for one company. */
  datatype LinkSet = LinkSet(website: Option<string>, linkedin: Option<string>)

  const NoLinks: LinkSet := LinkSet(None, None)

  /** The profile page of a company: the base URL followed by the slug, from
      which the slug can be read back. */
  function CompanyUrl(slug: string): (url: string)
    ensures StartsWith(url, BaseCompanyUrl)
    ensures url[|BaseCompanyUrl|..] == slug
  {
    BaseCompanyUrl + slug
  }

  predicate IsLinkedIn(href: string) {
    Contains(href, "linkedin.com")
  }

  /** None of the excluded domains occurs anywhere in the href. */
  predicate NotExcluded(href: string) {
    forall k :: 0 <= k < |ExcludedDomains| ==> !Contains(href, ExcludedDomains[k])
  }

  predicate IsWebsite(href: string) {
    StartsWith(href, "http") && NotExcluded(href)
  }

  /** The two fields of a LinkSet, each filled by its own test. */
  datatype Slot = WebsiteSlot | LinkedInSlot

  predicate Accepts(slot: Slot, href: string) {
    match slot
    case WebsiteSlot => IsWebsite(href)
    case LinkedInSlot => IsLinkedIn(href)
  }

  /** No href is a candidate for both fields: `linkedin.com` is excluded
      from websites. */
  lemma SlotsDisjoint(href: string)
    ensures !(IsLinkedIn(href) && IsWebsite(href))
  {
    assert ExcludedDomains[3] == "linkedin.com";
  }

  /** The first stripped href accepted for `slot`, if there is one. */
  function FirstFor(slot: Slot, hrefs: seq<string>): (r: Option<string>)
    ensures r.Some? ==> Accepts(slot, r.value)
  {
    if hrefs == [] then None
    else if Accepts(slot, Strip(hrefs[0])) then Some(Strip(hrefs[0]))
    else FirstFor(slot, hrefs[1..])
  }

  /** An href whose stripped form is rejected is passed over. */
  lemma FirstForSkip(slot: Slot, hrefs: seq<string>)
    requires hrefs != [] && !Accepts(slot, Strip(hrefs[0]))
    ensures FirstFor(slot, hrefs) == FirstFor(slot, hrefs[1..])
  {
  }

  /** FirstFor finds nothing exactly when no stripped href is accepted. */
  lemma {:induction false} FirstForNone(slot: Slot, hrefs: seq<string>)
    ensures FirstFor(slot, hrefs).None? <==>
            forall i :: 0 <= i < |hrefs| ==> !Accepts(slot, Strip(hrefs[i]))
  {
    if hrefs != [] {
      FirstForNone(slot, hrefs[1..]);
      assert forall i :: 1 <= i < |hrefs| ==> hrefs[1..][i - 1] == hrefs[i];
    }
  }

  /** When the href at index `i` is the first accepted one, FirstFor
      returns it, stripped. */
  lemma {:induction false} FirstForAt(slot: Slot, hrefs: seq<string>, i: nat)
    requires i < |hrefs| && Accepts(slot, Strip(hrefs[i]))
    requires forall j :: 0 <= j < i ==> !Accepts(slot, Strip(hrefs[j]))
    ensures FirstFor(slot, hrefs) == Some(Strip(hrefs[i]))
  {
    if i > 0 {
      assert !Accepts(slot, Strip(hrefs[0]));
      FirstForAt(slot, hrefs[1..], i - 1);
    }
  }

  /** Once a field is found it never changes: hrefs after it are ignored,
      and before it is found the later hrefs decide. */
  lemma {:induction false} FirstForAppend(slot: Slot, a: seq<string>, b: seq<string>)
    ensures FirstFor(slot, a + b) ==
            if FirstFor(slot, a).Some? then FirstFor(slot, a) else FirstFor(slot, b)
  {
    if a == [] {
      assert a + b == b;
    } else {
      assert (a + b)[0] == a[0];
      assert (a + b)[1..] == a[1..] + b;
      FirstForAppend(slot, a[1..], b);
    }
  }

  /** The classification of an anchor list: each field is the first
      stripped href its own test accepts. A website always starts with
      `http` and names no excluded domain; a LinkedIn profile always
      contains `linkedin.com` and so is never empty. */
  function ExtractLinks(hrefs: seq<string>): (links: LinkSet)
    ensures links.website.Some? ==>
              StartsWith(links.website.value, "http") && NotExcluded(links.website.value)
    ensures links.linkedin.Some? ==>
              Contains(links.linkedin.value, "linkedin.com") && Truthy(links.linkedin)
  {
    var links := LinkSet(FirstFor(WebsiteSlot, hrefs), FirstFor(LinkedInSlot, hrefs));
    assert links.linkedin.Some? ==> links.linkedin.value != "" by {
      if links.linkedin.Some? {
        ContainsLength(links.linkedin.value, "linkedin.com");
      }
    }
    links
  }

  /** Both fields are stable under appending anchors once found. */
  lemma ExtractLinksStable(a: seq<string>, b: seq<string>)
    ensures ExtractLinks(a).website.Some? ==>
              ExtractLinks(a + b).website == ExtractLinks(a).website
    ensures ExtractLinks(a).linkedin.Some? ==>
              ExtractLinks(a + b).linkedin == ExtractLinks(a).linkedin
  {
    FirstForAppend(WebsiteSlot, a, b);
    FirstForAppend(LinkedInSlot, a, b);
  }

  /** `get_company_links(slug)` as a value: a failed fetch of the profile
      page (network error, timeout, error status) gives no links at all. */
  function CompanyLinks(fetch: string -> Option<seq<string>>, slug: string): LinkSet {
    match fetch(CompanyUrl(slug))
    case None => NoLinks
    case Some(hrefs) => ExtractLinks(hrefs)
  }

  /** One iteration of the classification loop, at anchor `i`, on the
      fields found among the anchors before it: a LinkedIn href fills an
      empty LinkedIn field, otherwise a website candidate fills an empty
      website field, otherwise nothing changes; and this is exactly what
      FirstFor gives on the anchors up to and including `i`. Fields once
      found are truthy, so the loop's `not linkedin` and `not website`
      tests are tests for emptiness. */
  lemma ClassifyStep(hrefs: seq<string>, i: nat)
    requires i < |hrefs|
    ensures var href := Strip(hrefs[i]);
            var website, linkedin := FirstFor(WebsiteSlot, hrefs[..i]), FirstFor(LinkedInSlot, hrefs[..i]);
            var website', linkedin' := FirstFor(WebsiteSlot, hrefs[..i + 1]), FirstFor(LinkedInSlot, hrefs[..i + 1]);
            (website.Some? ==> Truthy(website)) && (linkedin.Some? ==> Truthy(linkedin)) &&
            if IsLinkedIn(href) && !Truthy(linkedin) then
              linkedin' == Some(href) && website' == website
            else if IsWebsite(href) && !Truthy(website) then
              website' == Some(href) && linkedin' == linkedin
            else
              website' == website && linkedin' == linkedin
  {
    assert hrefs[..i + 1] == hrefs[..i] + [hrefs[i]];
    FirstForAppend(WebsiteSlot, hrefs[..i], [hrefs[i]]);
    FirstForAppend(LinkedInSlot, hrefs[..i], [hrefs[i]]);
    SlotsDisjoint(Strip(hrefs[i]));
    if FirstFor(LinkedInSlot, hrefs[..i]).Some? {
      ContainsLength(FirstFor(LinkedInSlot, hrefs[..i]).value, "linkedin.com");
    }
  }

  /** `get_company_links(slug)`: fetch the profile page, then one pass over
      its anchors that updates the two optional fields. Each field is
      exactly the first match of its own test, so the if/elif order of the
      loop does not couple them. */
  method GetCompanyLinks(fetch: string -> Option<seq<string>>, slug: string)
    returns (website: Option<string>, linkedin: Option<string>)
    ensures LinkSet(website, linkedin) == CompanyLinks(fetch, slug)
    ensures fetch(CompanyUrl(slug)).None? ==> website.None? && linkedin.None?
    ensures fetch(CompanyUrl(slug)).Some? ==>
              website == FirstFor(WebsiteSlot, fetch(CompanyUrl(slug)).value) &&
              linkedin == FirstFor(LinkedInSlot, fetch(CompanyUrl(slug)).value)
  {
    var page := fetch(CompanyUrl(slug));
    if page.None? {
      return None, None;
    }
    var anchors := page.value;
    website, linkedin := None, None;
    var i := 0;
    while i < |anchors|
      invariant i <= |anchors|
      invariant website == FirstFor(WebsiteSlot, anchors[..i])
      invariant linkedin == FirstFor(LinkedInSlot, anchors[..i])
    {
      var href := Strip(anchors[i]);
      ClassifyStep(anchors, i);
      if Contains(href, "linkedin.com") && !Truthy(linkedin) {
        linkedin := Some(href);
      } else if StartsWith(href, "http") && NotExcluded(href) && !Truthy(website) {
        website := Some(href);
      }
      i := i + 1;
    }
    assert anchors[..i] == anchors;
  }
}
