# SEO audit model

A Dafny model of `full_seo_audit`, the function that turns one fetched web page into an
SEO report. The report has these sections:

- the input classification ("Domain" or "URL with path");
- the HTTP facts of the response;
- the title and meta-description reports;
- the metadata lookups (charset, canonical, favicon, viewport, keywords);
- the heading counts;
- the word count with its anchor-text share;
- the links summary;
- the images analysis.

The audit is all or nothing. When the fetch fails, or any extractor raises, the result is the
empty dictionary. Here that empty dictionary is `None`.

The parsed page is an abstract tree. A `Node` is either a text node or an element: an element
has a name, an attribute map, its `rel` tokens and its children. A `Document` is the sequence
of top-level nodes.

The tree operations that stand in for BeautifulSoup:

- `find_all` keeps the matching elements of the document in preorder. `find` takes the first
  of them.
- `.string` is the text of an element with exactly one child. With one element child it is
  that child's `.string`; otherwise it is `None`.
- `.text` is the concatenation of every descendant text.
- A `rel` search matches when one token equals the value, or when all the tokens joined by
  single spaces equal it.

Characters:

- Whitespace is Python's `str.isspace` set, listed by code point.
- `\w` is `[A-Za-z0-9_]`.
- `str.lower` is ASCII lower-casing.

Modules, one per section of the report: `Dom` (the tree and its searches), `Strings` (the
runs of a character class, stripping, joining, lower-casing), `Seqs` (counting, filtering,
mapping), `TagText` (title and description), `Metadata`, `Headings`, `WordCount`, `Links`,
`Images` and `Audit` (the assembled report and its failure policy).

The model follows the code, including these behaviours that a reader of the report's field names might not expect:

- An image counts as having "No src tag" (likewise "No alt tag") when the attribute is absent
  *or* empty, because the code tests `not img.get("src")`.
- A meta description element without `content` raises `KeyError`, so the whole audit is
  empty. It does not yield an empty description.
- Every metadata lookup subscripts the element (`tag["href"]`, `tag["content"]`). An element
  found without the attribute therefore empties the audit.
- `<title></title>` has no `.string`, and `len(None)` raises, so such a page also audits to
  the empty dictionary.
- The anchor percentage is not bounded by 100. Words are counted with `\b\w+\b` on the
  lower-cased page text, but anchor words are counted with `split()` on the untrimmed `.text`
  of the anchors.

## Model

| member | source | states |
|---|---|---|
| Audit.ClassifyInput | seo_audit.py:44-45 | "Domain" exactly when the path consists only of `/` characters (empty included) |
| Audit.HttpInfoOf | seo_audit.py:22-30 | the http section carries the response's status, headers, encoding, redirect flag and final URL |
| Audit.ExtractionFails | seo_audit.py:58-112 | the definition of "some extractor raises": a first `title` without `.string`, a first description `meta` without `content`, or a canonical, favicon, viewport or keywords element without the attribute read from it |
| Audit.AuditOf | seo_audit.py:33-197 | empty result exactly when the fetch failed or an extractor raises; otherwise the input, http and every section are the extractors' results |
| Audit.FullSeoAudit | seo_audit.py:35-197 | the imperative audit (early returns on failure, the heading loop) computes exactly `AuditOf` |
| Audit.InputTypeIgnoresFinalUrl | seo_audit.py:40-50 | a different final URL after redirects changes neither the outcome nor the input section; only the http section differs |
| Audit.EmptyPage | seo_audit.py:57-189 | a page with no nodes audits without fault: title and description not found, all heading counts 0, no links, no images, no words |
| Audit.EmptyPageSections | seo_audit.py:57-189 | on the empty document no extractor raises and every section reports nothing found |
| Audit.SkeletonPage | seo_audit.py:57-189 | the bare page `<html><head></head><body></body></html>` audits without fault: title and description not found, all heading counts 0, no links, no images, no words |
| Audit.SkeletonSections | seo_audit.py:57-189 | on the bare page no extractor raises and every section reports nothing found |
| Audit.UnnamedFindsNothing | seo_audit.py:58-61 | a search finds nothing, and counts 0, on a page with no element of the searched name |
| Audit.NoHeadings | seo_audit.py:116-119 | a page without `h1` … `h6` elements has every heading count at 0 |
| Audit.NoTextNoWords | seo_audit.py:129-132 | a page without text has a word total of 0 |
| Audit.EmptyTitleFailsAudit | seo_audit.py:58-60 | a page whose only node is an empty `<title>` yields the empty result (`len(None)` raises) |
| Audit.DescriptionWithoutContentFailsAudit | seo_audit.py:76-77 | a description `meta` without `content` yields the empty result (`KeyError`) |
| Audit.FetchFailureIsEmpty | seo_audit.py:38 | a failed fetch yields the empty result |
| Dom.Elements | seo_audit.py:58 | the preorder listing holds only elements |
| Dom.Texts | seo_audit.py:130 | the definition of the strings below a list of nodes, in document order: what `stripped_strings` walks and what `.text` concatenates |
| Dom.Attr | seo_audit.py:165 | the definition of `tag.get(attr)`: the value when the element has the attribute, else None (also at lines 185-186) |
| Dom.AttrOr | seo_audit.py:155 | the definition of `tag.get(attr, default)` (also at line 179) |
| Dom.Matches | seo_audit.py:58 | the definition of the filter `find` and `find_all` apply: the element's name, and per query form an attribute equal to a value, an attribute present, or a `rel` match (as at lines 76, 97, 100, 103-105, 108, 111) |
| Dom.RelMatches | seo_audit.py:100 | the definition of a `rel` search: one token equals the value, or the space-joined tokens do (also at lines 103-105) |
| Dom.WellFormedRel | seo_audit.py:103-105 | the definition of a parsed `rel` attribute: non-empty tokens without whitespace, as the parser's whitespace split yields |
| Dom.WellFormed | seo_audit.py:103-105 | the definition of a parsed page: every element's `rel` tokens are well formed |
| Dom.FindAll | seo_audit.py:61 | the definition of `soup.find_all(...)`: the matching elements in document order |
| Dom.Find | seo_audit.py:58 | the definition of `soup.find(...)`: the first matching element, or None |
| Dom.Count | seo_audit.py:61 | the definition of `len(soup.find_all(...))` |
| Dom.StringOf | seo_audit.py:59 | the definition of `.string`: the text of a single child, looked for through single-child elements, None otherwise |
| Dom.TextOf | seo_audit.py:121 | the definition of `.text`: the concatenation of every descendant text (also at lines 135 and 163) |
| Dom.Select | seo_audit.py:61 | `find_all` keeps exactly the matching elements, and nothing else |
| Dom.FirstMatch | seo_audit.py:58 | `find` returns a matching element, and none exactly when nothing matches |
| Dom.FirstMatchIsFirstSelected | seo_audit.py:58-61 | the first match is the head of the full list of matches |
| Dom.FindIsFirstOfFindAll | seo_audit.py:58-61 | `find` is the first of `find_all`; it finds something exactly when `find_all` has at least one element |
| Dom.StringIsText | seo_audit.py:59 | when `.string` exists it equals `.text` |
| Dom.EmptyElementHasNoString | seo_audit.py:59-60 | an element without children has no `.string` |
| TagText.Ratio | seo_audit.py:69 | characters per word times the word count is the length; at least 1 when words do not outnumber characters |
| TagText.Stats | seo_audit.py:60-72 | length and characters are the data's length; words are its whitespace-separated tokens, zero exactly for blank data |
| TagText.TitleSection | seo_audit.py:57-73 | raises exactly when the first `title` has no `.string`; tag number counts all titles; found exactly when there is one; data is the first title's `.string`; length, characters, words and characters per word are `Stats` of that data |
| TagText.DescriptionSection | seo_audit.py:75-93 | raises exactly when the first description `meta` lacks `content`; number counts them; data is the first one's `content`; length, characters, words and characters per word are `Stats` of that data |
| TagText.HelloWorldHasTwoTokens | seo_audit.py:68 | "Hello World" splits into two tokens |
| TagText.HelloWorldTitle | seo_audit.py:57-73 | the title "Hello World": found, length 11, 2 words, 5.5 characters per word, one tag |
| TagText.TwoDescriptions | seo_audit.py:75-93 | with two description tags the data is the first one's content and the number is 2 |
| Metadata.ValueIfFound | seo_audit.py:97-112 | `tag[attr] if tag else None`: raises exactly when the tag is found without the attribute |
| Metadata.FoundWithout | seo_audit.py:101-112 | the definition of the subscript `tag[attr]` raising: the tag was found and lacks the attribute |
| Metadata.FaviconTag | seo_audit.py:103-105 | the definition of `find("link", {"rel": "icon"}) or find("link", {"rel": "shortcut icon"})` |
| Metadata.MetadataSection | seo_audit.py:95-114 | raises exactly when canonical, favicon, viewport or keywords lacks its attribute; each field is present exactly when its element exists (for the favicon, the `icon` link or else the `shortcut icon` link) and holds that element's attribute |
| Metadata.JoinOfSeveralHasSpace | seo_audit.py:103-105 | several `rel` tokens joined contain a space, so they never equal the single word "icon" |
| Metadata.ShortcutIconMatchesIcon | seo_audit.py:103-105 | with space-free tokens, an element matched by `rel="shortcut icon"` is also matched by `rel="icon"` |
| Metadata.NoIconNoShortcutIcon | seo_audit.py:103-105 | with space-free tokens on every element, when no element matches `rel="icon"`, none matches `rel="shortcut icon"` |
| Metadata.FaviconIsFirstIconLink | seo_audit.py:103-106 | on a page with space-free `rel` tokens the `shortcut icon` fallback never changes the favicon |
| Headings.FillCounts | seo_audit.py:118-119 | the loop sets every key to the number of elements named by the key in lower case |
| Headings.HeadingCounts | seo_audit.py:117-119 | the definition of the dictionary after the loop: each key H1 … H6 maps to the number of elements named by its lower case |
| Headings.CountHeadings | seo_audit.py:117-119 | the heading dictionary after the loop |
| Headings.HeadingTagNames | seo_audit.py:119 | `"H1".lower()` … `"H6".lower()` are `h1` … `h6` |
| Headings.HeadingKeySet | seo_audit.py:117 | the dictionary has exactly the keys H1 … H6 |
| Headings.HeadingCountAt | seo_audit.py:118-119 | the entry of each key counts the elements named by its lower case |
| Headings.HeadingCountsByLevel | seo_audit.py:117-119 | each key H*n* counts the `hn` elements |
| Headings.H1Content | seo_audit.py:121 | the definition of `soup.find("h1").text if soup.find("h1") else ""` |
| Headings.HeadingsSection | seo_audit.py:116-127 | keys H1 … H6 each count their level's elements at any depth; "H1 count" equals the H1 entry; the content is the first `h1`'s text, or empty without one |
| WordCount.StrippedStrings | seo_audit.py:130 | `stripped_strings` yields no empty string |
| WordCount.TextContent | seo_audit.py:130 | the definition of `" ".join(soup.stripped_strings)` |
| WordCount.TotalWords | seo_audit.py:131-132 | the definition of `len(re.findall(r"\b\w+\b", text_content.lower()))` |
| WordCount.NonBlankTexts | seo_audit.py:135 | the definition of `a.text for a in anchor_elements if a.text.strip()` |
| WordCount.AnchorTextWords | seo_audit.py:135-136 | the definition of `len(" ".join(...).split())` over the non-blank anchor texts |
| WordCount.StrippedStringsKeepWords | seo_audit.py:130-131 | stripping and dropping blank strings loses no `\w+` run |
| WordCount.TotalWordsIsSumOverTexts | seo_audit.py:130-132 | the total is the sum of the `\w+` runs of the page's text nodes: joining with spaces and lower-casing change nothing |
| WordCount.NonBlankTextsKeepTokens | seo_audit.py:135 | dropping blank anchor texts loses no token |
| WordCount.AnchorWordsIsSumOverAnchors | seo_audit.py:134-136 | the anchor word count is the sum of the tokens of every anchor's text |
| WordCount.Percentage | seo_audit.py:137-141 | 0 when there are no words; otherwise times the total it is 100 times the anchor words; never negative |
| WordCount.Report | seo_audit.py:143-148 | "Corrected word count" repeats the total; the percentage relates anchor words to the total |
| WordCount.WordCountSection | seo_audit.py:129-148 | the total is the page's `\w+` count, the anchor words the anchors' token count, the percentage their ratio |
| WordCount.NoAnchorsNoPercentage | seo_audit.py:134-141 | without anchors there are no anchor words and the percentage is 0 |
| WordCount.AnchorPercentageCanExceed100 | seo_audit.py:131-141 | the page `<p>hi</p><a>- - -</a>` has 1 word in all, 3 anchor words and a percentage of 300 |
| WordCount.HiDashesCounts | seo_audit.py:131-136 | "hi" and "- - -" hold one `\w+` run; "- - -" holds three tokens |
| WordCount.DashesAreThreeTokens | seo_audit.py:136 | "- - -" splits into three tokens |
| Links.LinkListing | seo_audit.py:162-166 | one record per anchor with a non-empty `href`, and every listed `href` is non-empty |
| Links.IsExternal | seo_audit.py:155 | the definition of `link.get("href", "").startswith(("http", "https"))` |
| Links.IsNofollow | seo_audit.py:159 | the definition of `"nofollow" in link.get("rel", [])` |
| Links.HasHref | seo_audit.py:165 | the definition of `link.get("href")` being truthy: present and non-empty |
| Links.RecordOf | seo_audit.py:163 | the definition of `{"href": link["href"], "text": link.text.strip()}` |
| Links.LinksSection | seo_audit.py:150-174 | total counts the anchors; external counts those passing the `http` prefix test, nofollow those whose `rel` holds `nofollow`; internal is total minus external and never negative; the listing is the record of each anchor with a non-empty `href`, in document order |
| Links.ExternalIffHttpPrefix | seo_audit.py:152-156 | an anchor is external exactly when its `href` (or "") starts with "http"; an anchor without `href` is internal |
| Links.InternalCountsNonExternal | seo_audit.py:157 | "Internal" is the number of anchors that are not external |
| Links.LinkListingIsHrefAnchors | seo_audit.py:162-166 | the listing is the record of each anchor with `href`, in document order |
| Links.HreflessAnchorsCounted | seo_audit.py:151-166 | anchors without `href` count in the total and as internal but are not listed |
| Links.ExternalAndLocalAnchors | seo_audit.py:150-174 | an external nofollow anchor and a local one: 2 total, 1 external, 1 internal, 1 nofollow, both records listed |
| Links.ClickAnchor | seo_audit.py:155-165 | `<a href="http://x.com" rel="nofollow">click</a>` is external, nofollow, listed as (http://x.com, click) |
| Links.LocalAnchor | seo_audit.py:155-165 | `<a href="/local">here</a>` is internal, not nofollow, listed as (/local, here) |
| Links.TwoAnchorsSummary | seo_audit.py:150-174 | the summary of two anchors from their individual classifications |
| Links.TwoAnchorCounts | seo_audit.py:152-166 | an external nofollow anchor then a local one: one external, one nofollow, both records listed |
| Links.AnchorsAreFound | seo_audit.py:151 | two leaf anchors at top level are exactly `find_all("a")` |
| Links.LeafText | seo_audit.py:163 | an element with one text child has that text as `.text` |
| Links.PlainWordStrips | seo_audit.py:163 | `strip()` leaves a string without surrounding whitespace unchanged |
| Images.ImagesSection | seo_audit.py:176-189 | total is the number of images and of records; each record holds its image's `src` and `alt` (or ""); the "No src"/"No alt" counts are the records with empty `src`/`alt` |
| Images.RecordOf | seo_audit.py:179 | the definition of `{"src": img.get("src", ""), "alt": img.get("alt", "")}` |
| Images.Missing | seo_audit.py:185-186 | the definition of `not img.get(attr)`: the attribute is absent or empty |
| Seqs.CountIf | seo_audit.py:152-160 | a count never exceeds the length, and is 0 exactly when nothing qualifies |
| Seqs.Filter | seo_audit.py:162-166 | the kept elements qualify, come from the input, and number as many as qualify |
| Seqs.Map | seo_audit.py:178-180 | one result per element, each the function's value on it |
| Seqs.CountIfComplement | seo_audit.py:157 | the count of a property and of its negation add up to the length |
| Seqs.CountIfMonotone | seo_audit.py:151-166 | a weaker property never counts fewer elements |
| Seqs.CountIfMap | seo_audit.py:185-186 | counting over mapped records equals counting the originals by the composed property |
| Seqs.MapAppend | seo_audit.py:162-166 | mapping distributes over concatenation: the map of `a + b` is the map of `a` followed by the map of `b` |
| Strings.Runs | seo_audit.py:131 | at most one run per character, none exactly when no character is in the class |
| Strings.IsSpace | seo_audit.py:68 | the definition of `str.isspace`, by code point, behind `split()` and `strip()` (also at lines 136 and 163) |
| Strings.IsWordChar | seo_audit.py:131 | the definition of `\w` as `[A-Za-z0-9_]` |
| Strings.LowerChar | seo_audit.py:119 | the definition of ASCII `lower()` on one character (also at line 131) |
| Strings.SplitCount | seo_audit.py:68 | the definition of `len(s.split())`: the number of runs of non-whitespace |
| Strings.WordRuns | seo_audit.py:131 | the definition of `len(re.findall(r"\b\w+\b", s))`: the number of runs of word characters |
| Strings.Strip | seo_audit.py:163 | the definition of `s.strip()` |
| Strings.StartsWith | seo_audit.py:155 | the definition of `s.startswith(prefix)` |
| Strings.JoinSpace | seo_audit.py:130 | the definition of `" ".join(parts)` |
| Strings.LeadCount | seo_audit.py:45 | the leading characters in the class, and the next one is not |
| Strings.TrailCount | seo_audit.py:45 | the trailing characters in the class, and the one before is not |
| Strings.StripBy | seo_audit.py:45 | `strip(chars)`: no longer than the input, neither end in the class, empty exactly when every character is |
| Strings.Lower | seo_audit.py:119 | same length, each character lower-cased |
| Strings.SumRunsAppend | seo_audit.py:130 | the run total over two lists is the sum of their totals |
| Strings.RunsAppend | seo_audit.py:131 | runs do not merge across a boundary character outside the class |
| Strings.RunsOfBlock | seo_audit.py:131 | a non-empty string wholly in the class is one run |
| Strings.RunsJoinSpace | seo_audit.py:130-131 | joining with spaces adds or merges no run of a class without the space |
| Strings.StripBySlice | seo_audit.py:163 | the stripped string is a slice with only class characters outside it |
| Strings.RunsStrip | seo_audit.py:130 | stripping characters outside the class keeps every run |
| Strings.WordRunsLower | seo_audit.py:131 | lower-casing keeps the number of `\w+` runs |
| Strings.SplitCountZeroIffBlank | seo_audit.py:135-136 | `split()` is empty exactly when `strip()` is |
| Strings.HttpsStartsWithHttp | seo_audit.py:155 | the prefix "https" implies "http", so the tuple `("http", "https")` tests "http" alone |

## Left out

- Fetching: `fetch_url_content` is an input. `None` means the request raised, `Some` gives the response.
- Parsing failures: a `Response` always carries a parsed document, so a parser that raises is folded, like a failed fetch, into the `None` input.
- `get_http_info` copies the response fields; the header dictionary is a finite map of strings.
- HTML parsing: the page is given as a tree. The parser's repair of malformed markup, comments, doctype and `<script>`, `<style>` and `<template>` text are not modelled: the parser keeps the last three as special strings that `stripped_strings` and `.text` skip, while `Texts` and `TextOf` here keep every text node.
- `urlparse`: the path component of the input URL is given as a string. The parser's own `ValueError` on malformed URLs is not modelled.
- Rounding: ratios and the anchor percentage are exact reals, without `round(·, 2)`.
- `\w` and `lower()` cover ASCII only, not Unicode letters and digits. `WordRunsLower` and `TotalWordsIsSumOverTexts` rely on this: in Python `"İ".lower()` is `i` followed by U+0307, which is not `\w`, so lower-casing can split one `\w+` run into two.
- Logging and the stack trace are not modelled. Every exception, of whatever type, becomes the same empty result.
- `using_https` is computed but never used, so it is not modelled.
- The example usage under `__main__` is not modelled.
