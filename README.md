# YC batch tracker: a Dafny model of its enrichment core

`YCombinatorScraping.py` is a Streamlit script. It lists every company of
one YC batch from a paginated search index, visits each company's public
profile page to pick out its website and LinkedIn profile, and asks a web
search whether that LinkedIn profile mentions "YC S25". It then shows one
six-column row per company. This project models the deterministic part of
that pipeline and proves what the script promises about it. The network,
the HTML parser and the JSON decoder become parameters.

- `text.dfy` (`Text`) holds the Python string operations the script uses:
  - `str.strip()`, with Python's full `isspace` character set;
  - `startswith` and the substring test `t in s`;
  - `lower()`, restricted to ASCII letters.
- `common.dfy` (`Wrappers`, `Json`) holds `Option`, `Result` and Python
  truthiness. It also holds the three states a JSON key can be in:
  missing, `null`, or a string. `dict.get(k)` and `dict.get(k, default)`
  are modelled on those three states.
- `links.dfy` (`Links`) models `get_company_links`:
  - `ExtractLinks` is the classification as a value: each field is the
    first stripped href its own test accepts;
  - `GetCompanyLinks` is the loop with its two mutable fields, proved
    equal to `ExtractLinks`;
  - a failed page fetch gives no links.
- `mentions.dfy` (`Mentions`) models `check_linkedin_snippet_with_serper`:
  - the `site:` query;
  - the lazy `any` over title, subtitle and snippet;
  - the early `return True`;
  - the collapse of every exception into `False`.

  A field mapped to `null` cannot be lower-cased. It raises, and the
  answer is `False`, unless an earlier field or result already matched.
  `Mentions.FieldsOutcomeExact` and `Mentions.RaisedIsFalse` state this.
- `listing.dfy` (`Listing`) models `load_companies`. Pages are requested
  from 0 and the loop stops at the first page with no hits. A failed
  page request aborts the listing.
- `records.dfy` (`Records`) models the loop of `main`: one record per
  company, in order. The link extractor and the verifier are function
  parameters. The outside calls made are returned as a trace.
- `pipeline.dfy` (`Pipeline`) plugs the concrete extractor and verifier
  into the record loop and states what holds for every row of a run.
- `examples.dfy` (`Examples`) holds worked examples on
  concrete anchors, search results and pages.

One could read the search as joining title, subtitle and snippet before
looking for the phrase. Line 84 tests each field on its own instead, and
`Examples.FieldsNotJoined` shows an input on which the two readings
differ.

## Model

| member | source | states |
|---|---|---|
| Text.StripLeading | YCombinatorScraping.py:53 | the result is a suffix of the input and does not start with whitespace |
| Text.StripTrailing | YCombinatorScraping.py:53 | the result is a prefix of the input and does not end with whitespace |
| Text.StripLeadingDropsSpace | YCombinatorScraping.py:53 | every character dropped at the front is whitespace |
| Text.StripTrailingDropsSpace | YCombinatorScraping.py:53 | every character dropped at the back is whitespace |
| Text.IsSpace | YCombinatorScraping.py:53 | definition, no contract: Python's `isspace` on one character |
| Text.Strip | YCombinatorScraping.py:53 | `strip()` leaves no whitespace at either end and never lengthens the string; `Text.StripDropsSpace` gives the rest |
| Text.SpaceAround | YCombinatorScraping.py:53 | definition, no contract: `r` is the slice of `s` at `i` with only whitespace before and after it |
| Text.StripLeadingAllSpace | YCombinatorScraping.py:53 | every character before StripLeading's result is whitespace |
| Text.StripTrailingAllSpace | YCombinatorScraping.py:53 | every character after StripTrailing's result is whitespace |
| Text.StripTailSpace | YCombinatorScraping.py:53 | every character after what `strip()` keeps is whitespace |
| Text.StripDropsSpace | YCombinatorScraping.py:53 | what `strip()` keeps is a slice of the input with only whitespace cut off before and after it |
| Text.StripUnchanged | YCombinatorScraping.py:53 | a string without whitespace at either end is left as it is |
| Text.StripIdempotent | YCombinatorScraping.py:53 | stripping twice is stripping once |
| Text.StartsWith | YCombinatorScraping.py:57 | definition, no contract: `str.startswith` |
| Text.OccursAt | YCombinatorScraping.py:54-58 | definition, no contract: `t` occurs in `s` at index `i` |
| Text.Contains | YCombinatorScraping.py:54-58 | definition, no contract: the substring test `t in s`, as an occurrence at some index |
| Text.ContainsAt | YCombinatorScraping.py:54 | an occurrence at some index makes `t in s` true |
| Text.ContainsChar | YCombinatorScraping.py:58 | every character of a contained string occurs in the containing one |
| Text.NotContainsByChar | YCombinatorScraping.py:58 | a string lacking one character of `t` does not contain `t` |
| Text.ContainsLength | YCombinatorScraping.py:54 | `t in s` implies `t` is no longer than `s` |
| Text.LowerChar | YCombinatorScraping.py:84 | an ASCII upper-case letter becomes the lower-case letter at the same place in the alphabet; every other character is kept |
| Text.Lower | YCombinatorScraping.py:84 | `lower()` keeps the length, lowers each character on its own, and leaves no A-Z |
| Text.LowerIdempotent | YCombinatorScraping.py:84 | lower-casing twice is lower-casing once |
| Wrappers.Truthy | YCombinatorScraping.py:54-59 | definition, no contract: Python truthiness of an optional string, as in `not linkedin`, `not website`, `if slug` and `if linkedin` (also lines 120-122) |
| Json.Get | YCombinatorScraping.py:117 | `company.get("name")` is a string exactly when the key maps to a string, and then it is that string |
| Json.GetOr | YCombinatorScraping.py:118 | `.get(key, "-")` gives the default for a missing key, None for `null`, and the mapped string otherwise |
| Links.CompanyUrl | YCombinatorScraping.py:42 | the profile URL starts with the base URL, and the slug reads back from what follows it |
| Links.IsLinkedIn | YCombinatorScraping.py:54 | definition, no contract: the href contains `linkedin.com` |
| Links.NotExcluded | YCombinatorScraping.py:58 | definition, no contract: the href names none of the four excluded domains |
| Links.IsWebsite | YCombinatorScraping.py:57-58 | definition, no contract: the href starts with `http` and names no excluded domain |
| Links.Accepts | YCombinatorScraping.py:54-58 | definition, no contract: the LinkedIn field takes the line 54 test, the website field the lines 57-58 test |
| Links.SlotsDisjoint | YCombinatorScraping.py:54-58 | no href is both a LinkedIn candidate and a website candidate |
| Links.FirstFor | YCombinatorScraping.py:52-61 | a field found by the first-match pass passes that field's own test |
| Links.FirstForSkip | YCombinatorScraping.py:52-61 | an href whose stripped form a field's test rejects leaves that field to the hrefs after it |
| Links.FirstForNone | YCombinatorScraping.py:52-61 | a field stays empty exactly when no stripped href passes its test |
| Links.FirstForAt | YCombinatorScraping.py:52-61 | the field is the first stripped href that passes its test |
| Links.FirstForAppend | YCombinatorScraping.py:54-59 | once a field is found, later hrefs do not change it; until then, the later hrefs decide |
| Links.ExtractLinks | YCombinatorScraping.py:54-61 | a website starts with `http` and names no excluded domain; a LinkedIn link contains `linkedin.com` and is non-empty |
| Links.ExtractLinksStable | YCombinatorScraping.py:54-59 | each found field is unchanged by appending anchors |
| Links.CompanyLinks | YCombinatorScraping.py:41-65 | definition, no contract: the links of a fetched page, or (None, None) when the fetch fails; `Links.GetCompanyLinks` is proved equal to it |
| Links.ClassifyStep | YCombinatorScraping.py:53-61 | one if/elif step on anchor `i` turns the first matches among anchors before `i` into those of anchors up to `i` |
| Links.GetCompanyLinks | YCombinatorScraping.py:41-65 | the loop returns, for each field, the first stripped href its test accepts, with the two fields independent; a failed fetch gives (None, None) |
| Mentions.Query | YCombinatorScraping.py:74 | the query is `site:`, the URL, a space, then the phrase, and both read back from it |
| Mentions.FieldText | YCombinatorScraping.py:83-84 | definition, no contract: a field's text, "" when the key is missing, None when it is `null` |
| Mentions.FieldMentions | YCombinatorScraping.py:84 | definition, no contract: `phrase.lower() in part.lower()` on a field that reads as a string |
| Mentions.FieldsOutcome | YCombinatorScraping.py:83-84 | the lazy `any` matches only if some field mentions the phrase; it raises only on a `null` field; with no `null` field it matches exactly when some field mentions the phrase |
| Mentions.MatchAt | YCombinatorScraping.py:83-84 | definition, no contract: field `k` mentions the phrase and no field before it is `null` |
| Mentions.RaiseAt | YCombinatorScraping.py:83-84 | definition, no contract: field `k` is `null` and no field before it mentions the phrase |
| Mentions.FieldsOutcomeExact | YCombinatorScraping.py:83-84 | the lazy `any` matches exactly when some field mentions the phrase before any `null` field, and raises exactly when a `null` field comes before any mention |
| Mentions.Parts | YCombinatorScraping.py:83 | definition, no contract: `text_parts`, the title, subtitle and snippet in that order |
| Mentions.FieldStep | YCombinatorScraping.py:84 | definition, no contract: one step of the lazy `any`: raise on `null`, match on a mention, otherwise go on |
| Mentions.FieldsOutcomeOfThree | YCombinatorScraping.py:83-84 | the `any` over three fields is the three steps in order |
| Mentions.EntryOutcome | YCombinatorScraping.py:82-84 | definition, no contract: the outcome of the `any` over one result's three fields; a result that is not an object raises |
| Mentions.Scan | YCombinatorScraping.py:82-85 | definition, no contract: results are looked at in order until one matches or raises |
| Mentions.EntryMentions | YCombinatorScraping.py:82-84 | definition, no contract: the reference reading of one result: it is an object and one of its three fields mentions the phrase |
| Mentions.Mentioned | YCombinatorScraping.py:82-84 | definition, no contract: some result mentions the phrase in the sense of `EntryMentions` |
| Mentions.WellFormed | YCombinatorScraping.py:82-84 | definition, no contract: a result the loop reads without raising: an object with no `null` field; the exact characterisations of the scan hold for such results |
| Mentions.EntryOutcomeMeaning | YCombinatorScraping.py:82-85 | per result, a match is a real mention, and on a readable result the scan agrees with the reference definition |
| Mentions.ScanSound | YCombinatorScraping.py:82-89 | a match found by the scan is backed by some field of some result |
| Mentions.ScanComplete | YCombinatorScraping.py:82-89 | on readable results the scan matches exactly when some field of some result mentions the phrase |
| Mentions.ScanStep | YCombinatorScraping.py:82-85 | the scan up to result `i` extends the scan before it by that result's outcome, and nothing after `i` is looked at once `i` matched or raised |
| Mentions.ScanAppend | YCombinatorScraping.py:82-85 | results after the first match or exception are never looked at |
| Mentions.VerifyMention | YCombinatorScraping.py:68-89 | definition, no contract: the answer is `True` only when the search succeeds and the scan matches; `Mentions.CheckLinkedInSnippet` is proved equal to it |
| Mentions.VerifyMentionSound | YCombinatorScraping.py:77-89 | a failed search answers `False`; `True` is always backed by a result that mentions the phrase |
| Mentions.RaisedIsFalse | YCombinatorScraping.py:82-89 | a result that raises after only non-matching results makes the answer `False`, whatever follows it |
| Mentions.VerifyMentionComplete | YCombinatorScraping.py:82-89 | on a readable response the answer is `True` exactly when some result mentions the phrase; no organic results means `False` |
| Mentions.CheckLinkedInSnippet | YCombinatorScraping.py:68-89 | the loop with early returns computes the reference answer, and `True` implies a real mention |
| Listing.Halts | YCombinatorScraping.py:97-100 | definition, no contract: a page on which the loop stops: its request failed (the error raised at line 37) or it has no hits (`if not hits: break`) |
| Listing.FirstHalt | YCombinatorScraping.py:96-100 | the stopping page is the first page that fails or has no hits |
| Listing.FirstHaltUnique | YCombinatorScraping.py:96-100 | the stopping page does not depend on which stopping page is assumed to exist |
| Listing.HitsBefore | YCombinatorScraping.py:101 | definition, no contract: the hits of pages before `k`, concatenated in page order |
| Listing.HitsBeforeContents | YCombinatorScraping.py:101 | the hits of each page sit in the listing in page order, right after those of earlier pages |
| Listing.Load | YCombinatorScraping.py:96-105 | definition, no contract: the hits before the stopping page, or the failure of the page that stopped the listing; `Listing.LoadCompanies` is proved equal to it |
| Listing.LoadCompanies | YCombinatorScraping.py:92-105 | the loop returns the hits of pages 0..k-1 in order, or the page whose request failed; it requests exactly pages 0..k, where k is the stopping page |
| Records.Slug | YCombinatorScraping.py:119-121 | the slug is used only when it is a non-empty string |
| Records.LinksFor | YCombinatorScraping.py:121 | definition, no contract: the company's links when it has a slug, (None, None) otherwise |
| Records.Flag | YCombinatorScraping.py:122 | definition, no contract: the verifier's answer when a truthy LinkedIn link was found, `False` otherwise |
| Records.Enrich | YCombinatorScraping.py:116-131 | definition, no contract: the six-column record of one company |
| Records.CallsFor | YCombinatorScraping.py:121-122 | definition, no contract: the profile fetch and the search one company causes, in order |
| Records.CallsOf | YCombinatorScraping.py:116-122 | definition, no contract: the outside calls of a list of companies, each company's calls in turn |
| Records.EnrichAll | YCombinatorScraping.py:115-131 | definition, no contract: the record of each company in listing order |
| Records.YcUrlMeaning | YCombinatorScraping.py:120 | the YC URL is "-" exactly when there is no slug; otherwise it is the base URL followed by the slug |
| Records.NoSlug | YCombinatorScraping.py:121-122 | without a slug there are no links, the mention is "No", and no call is made |
| Records.MentionsMeaning | YCombinatorScraping.py:122-130 | the mention column is "Yes" or "No", and "Yes" exactly when a truthy LinkedIn profile was found and the verifier confirmed it |
| Records.DescriptionDefault | YCombinatorScraping.py:118 | a missing description reads "-", a `null` one is None, and otherwise the text is kept |
| Records.SearchOnlyWithLinkedIn | YCombinatorScraping.py:121-122 | a search is made only for the record's own truthy LinkedIn profile, and only after its profile page was fetched |
| Records.CallsOfPrefix | YCombinatorScraping.py:116-122 | the calls made for one more company extend the calls made so far |
| Records.EnrichCompany | YCombinatorScraping.py:117-131 | the loop body builds the reference record and makes the reference calls |
| Records.BuildRecords | YCombinatorScraping.py:115-131 | one record per company, each the reference record of its company, in listing order; the calls are those of each company in turn |
| Pipeline.ProfileExtractor | YCombinatorScraping.py:121 | definition, no contract: `get_company_links` on the given profile pages |
| Pipeline.Verifier | YCombinatorScraping.py:122 | definition, no contract: `check_linkedin_snippet_with_serper` on the given search, with "YC S25" |
| Pipeline.Run | YCombinatorScraping.py:113-131 | definition, no contract: the listing followed by the record loop with the concrete extractor and verifier |
| Pipeline.RunShape | YCombinatorScraping.py:113-131 | a run fails exactly when the listing fails, at the same page; otherwise it has one row per listed company, row `j` being the record of company `j` |
| Pipeline.FailureAbsorbed | YCombinatorScraping.py:64-65 | a company whose profile page cannot be fetched gets no links and "No", and no search is made for it |
| Pipeline.RunRecordsSound | YCombinatorScraping.py:116-131 | in every row, a website passes the website test, a LinkedIn link passes the LinkedIn test, and "Yes" is backed by a search result that mentions "YC S25" |
| Examples.NotExcludedByChars | YCombinatorScraping.py:58 | an href without `y`, `u`, `g` and `k` names no excluded domain |
| Examples.RealSiteIsWebsite | YCombinatorScraping.py:57-58 | `https://real-site.com` is a website candidate |
| Examples.RelativeLinkedIn | YCombinatorScraping.py:54-58 | `linkedin.com/a` is a LinkedIn link but not a website |
| Examples.GithubIsNotWebsite | YCombinatorScraping.py:58 | any href that contains `github.com` is not a website |
| Examples.GithubAnchorNotWebsite | YCombinatorScraping.py:58 | `https://excluded.github.com/x` contains `github.com`, so it is not a website |
| Examples.LinkedInOfFour | YCombinatorScraping.py:54-55 | a first anchor that is a LinkedIn link is the LinkedIn field |
| Examples.WebsiteOfFour | YCombinatorScraping.py:56-61 | the first anchor that passes the website test is the website, whatever comes after it |
| Examples.LinkedInAnchorStripped | YCombinatorScraping.py:53 | `strip()` leaves `linkedin.com/a` as it is |
| Examples.GithubAnchorStripped | YCombinatorScraping.py:53 | `strip()` leaves `https://excluded.github.com/x` as it is |
| Examples.RealSiteAnchorStripped | YCombinatorScraping.py:53 | `strip()` leaves `https://real-site.com` as it is |
| Examples.ExtractLinksExample | YCombinatorScraping.py:51-61 | on [LinkedIn, github URL, real site, second LinkedIn], the first LinkedIn link and the real site are reported |
| Examples.SnippetExample | YCombinatorScraping.py:84 | a snippet holding the phrase, among empty title and subtitle, is a match |
| Examples.SnippetOtherCase | YCombinatorScraping.py:84 | a snippet holding the phrase only in lower case is a match, since both sides are lower-cased |
| Examples.FieldsNotJoined | YCombinatorScraping.py:83-84 | a phrase split between title and subtitle is not found, though the joined text contains it |
| Examples.ExamplePages | YCombinatorScraping.py:97-98 | definition, no contract: a backend whose pages 0 to 3 hold 40, 40, 17 and 0 hits |
| Examples.PaginationExample | YCombinatorScraping.py:96-105 | pages of 40, 40, 17 and 0 hits give 97 companies, stopping at page 3 |

## Left out

- HTTP requests, timeouts and `raise_for_status` are inputs, not code. A profile fetch is an `Option` of the page's hrefs. A search is an `Option` of the organic results. A page fetch is a `PageResult`.
- BeautifulSoup parsing is not modelled. The hrefs of the `<a href>` elements are given in document order.
- JSON decoding is not modelled, and a JSON value is limited to missing, `null` or a string. Numbers, booleans, lists and objects in a read field are not modelled.
- A search body that is not an object, or whose `organic` is not a list, is folded into the search's `None`. A missing `organic` is an empty list.
- Text.Lower: ASCII letters only. Python's Unicode case mapping is not modelled.
- Listing.LoadCompanies: the source has no page cap. The method therefore takes a ghost page `last` on which the loop is known to stop, and `Listing.FirstHaltUnique` shows the result does not depend on the choice.
- The index name, the batch filter and the page size of 40 in the request body (lines 27-35) are not modelled. Only the page number matters to the listing.
- `time.sleep(0.5)` between pages and the `tqdm` progress bar are timing and display only.
- The Streamlit page, the secrets, the DataFrame and the CSV export (lines 10-19, 108-112, 133-137) are presentation and are not modelled.
- A failed listing makes the script crash with the HTTP error. Here it is a `Failure` carrying the page number.
- The verifier's phrase parameter keeps its default "YC S25" only in `Pipeline`. `Mentions` takes any phrase.
