/** Worked examples on concrete inputs: anchors of a profile page, a
    search response, and a paginated listing. */
module Examples {

  import opened Wrappers
  import opened Json
  import opened Text
  import opened Links
  import opened Mentions
  import opened Listing

  /** Each excluded domain has a character of its own that an href can
      lack: without `y`, `u`, `g` and `k` an href names none of them. */
  lemma NotExcludedByChars(href: string)
    requires 'y' !in href && 'u' !in href && 'g' !in href && 'k' !in href
    ensures NotExcluded(href)
  {
    NotContainsByChar(href, ExcludedDomains[0], 0);
    NotContainsByChar(href, ExcludedDomains[1], 5);
    NotContainsByChar(href, ExcludedDomains[2], 0);
    NotContainsByChar(href, ExcludedDomains[3], 3);
  }

  /** An absolute URL on a domain of its own is a website candidate. */
  lemma RealSiteIsWebsite()
    ensures IsWebsite("https://real-site.com")
  {
    NotExcludedByChars("https://real-site.com");
  }

  /** A scheme-less LinkedIn link is a profile but never a website. */
  lemma RelativeLinkedIn()
    ensures IsLinkedIn("linkedin.com/a") && !IsWebsite("linkedin.com/a")
  {
    ContainsAt("linkedin.com/a", "linkedin.com", 0);
    assert "linkedin.com/a"[..4][0] != "http"[0];
  }

  /** An href naming github.com anywhere is not a website. */
  lemma GithubIsNotWebsite(h: string)
    requires Contains(h, "github.com")
    ensures !IsWebsite(h)
  {
    assert ExcludedDomains[2] == "github.com";
  }

  /** The LinkedIn half of the example below, on any four anchors. */
  lemma LinkedInOfFour(a0: string, a1: string, a2: string, a3: string)
    requires IsLinkedIn(Strip(a0))
    ensures FirstFor(LinkedInSlot, [a0, a1, a2, a3]) == Some(Strip(a0))
  {
    FirstForAt(LinkedInSlot, [a0, a1, a2, a3], 0);
  }

  /** The website half of the example below, on any four anchors. */
  lemma WebsiteOfFour(a0: string, a1: string, a2: string, a3: string)
    requires !IsWebsite(Strip(a0)) && !IsWebsite(Strip(a1)) && IsWebsite(Strip(a2))
    ensures FirstFor(WebsiteSlot, [a0, a1, a2, a3]) == Some(Strip(a2))
  {
    FirstForSkip(WebsiteSlot, [a0, a1, a2, a3]);
    assert [a0, a1, a2, a3][1..] == [a1, a2, a3];
    FirstForSkip(WebsiteSlot, [a1, a2, a3]);
    assert [a1, a2, a3][1..] == [a2, a3];
  }

  /** The anchors of the example below have no surrounding whitespace. */
  lemma LinkedInAnchorStripped()
    ensures Strip("linkedin.com/a") == "linkedin.com/a"
  {
    StripUnchanged("linkedin.com/a");
  }

  lemma GithubAnchorStripped()
    ensures Strip("https://excluded.github.com/x") == "https://excluded.github.com/x"
  {
    StripUnchanged("https://excluded.github.com/x");
  }

  /** The code-hosting anchor of the example below names github.com. */
  lemma GithubAnchorNotWebsite()
    ensures !IsWebsite("https://excluded.github.com/x")
  {
    var h := "https://excluded.github.com/x";
    assert h[17..][..10] == "github.com";
    ContainsAt(h, "github.com", 17);
    GithubIsNotWebsite(h);
  }

  lemma RealSiteAnchorStripped()
    ensures Strip("https://real-site.com") == "https://real-site.com"
  {
    StripUnchanged("https://real-site.com");
  }

  /** A profile page whose anchors are, in order, a LinkedIn page, a page on
      an excluded code-hosting domain, the real site and a second LinkedIn
      page: the first LinkedIn page and the real site are reported. */
  lemma ExtractLinksExample()
    ensures ExtractLinks(["linkedin.com/a", "https://excluded.github.com/x",
                          "https://real-site.com", "linkedin.com/b"])
            == LinkSet(Some("https://real-site.com"), Some("linkedin.com/a"))
  {
    var a0, a1, a2 := "linkedin.com/a", "https://excluded.github.com/x", "https://real-site.com";
    LinkedInAnchorStripped();
    GithubAnchorStripped();
    RealSiteAnchorStripped();
    RelativeLinkedIn();
    GithubAnchorNotWebsite();
    RealSiteIsWebsite();
    LinkedInOfFour(a0, a1, a2, "linkedin.com/b");
    WebsiteOfFour(a0, a1, a2, "linkedin.com/b");
  }

  /** A result whose snippet carries the phrase is found. */
  lemma SnippetExample()
    ensures Scan([Entry(Str(""), Str(""), Str("Proud member of YC S25 cohort"))], "YC S25") == Match
  {
    var snippet := "Proud member of YC S25 cohort";
    var lowered := Lower(snippet);
    assert lowered[16..][..6] == Lower("YC S25");
    ContainsAt(lowered, Lower("YC S25"), 16);
    ContainsLength(Lower(""), Lower("YC S25"));
  }

  /** The phrase and the fields are both lower-cased: a snippet carrying
      the phrase in lower case is found. */
  lemma SnippetOtherCase()
    ensures Scan([Entry(Absent, Absent, Str("proud member of yc s25"))], "YC S25") == Match
  {
    var lowered := Lower("proud member of yc s25");
    assert lowered[16..][..6] == Lower("YC S25");
    ContainsAt(lowered, Lower("YC S25"), 16);
    ContainsLength(Lower(""), Lower("YC S25"));
  }

  /** The fields are tested one by one, not joined: a phrase split between
      title and subtitle is not found, although the joined text holds it. */
  lemma FieldsNotJoined()
    ensures Contains(Lower("YC " + "S25"), Lower("YC S25"))
    ensures Scan([Entry(Str("YC "), Str("S25"), Absent)], "YC S25") == NoMatch
  {
    assert "YC " + "S25" == "YC S25";
    ContainsAt(Lower("YC S25"), Lower("YC S25"), 0);
    ContainsLength(Lower("YC "), Lower("YC S25"));
    ContainsLength(Lower("S25"), Lower("YC S25"));
    ContainsLength(Lower(""), Lower("YC S25"));
  }

  /** A backend whose pages hold 40, 40, 17 and then 0 hits. */
  function ExamplePages(h: Company): nat -> PageResult {
    p => Hits(if p < 2 then seq(40, _ => h) else if p == 2 then seq(17, _ => h) else [])
  }

  /** With pages of 40, 40, 17 and 0 hits, the listing stops at page 3
      and holds 97 companies. */
  lemma PaginationExample(h: Company)
    ensures FirstHalt(ExamplePages(h), 0, 3) == 3
    ensures Load(ExamplePages(h), 3).Success?
    ensures |Load(ExamplePages(h), 3).value| == 97
  {
    var fetch := ExamplePages(h);
    assert !Halts(fetch(0)) && !Halts(fetch(1)) && !Halts(fetch(2));
    assert HitsBefore(fetch, 1) == fetch(0).hits;
  }
}
