# Link checker for Less.works — a Dafny model

`linkchecker.py` is a scrapy spider that crawls a site. Every page it
fetches is handed to `LinkCheckerParser.parse`, except the GET retry of a
page that answered 405, which goes to `parse_405`. `parse` decides three
things for each response:
- whether the page is retried with GET (status 405);
- whether the page is reported as broken (a status that is not 405, not 2xx
  and not 999);
- whether the page is fetched again with GET (a page with a non-failing
  status, 2xx or 999, that was only HEAD-fetched, has `text` in its content
  type and lies inside the crawl, that is, its URL contains the first start
  URL).

Whatever the status, `parse` then sends one HEAD request for every link of
the page. The links come from `LinkCheckerBot`:
- the `url(...)` references in a stylesheet body;
- the `href` and `src` attribute values;
- the `url(...)` references in `<style>` elements.

References naming `linkedin.com` or `amazonaws.com` are skipped, and the rest
are resolved against the page URL (a `<base href>` is not taken into
account; see "## Left out"). Broken pages are reported to an error
writer, which remembers whether anything was reported.

The model has six modules:

- `Text`: Python's `in` on strings (`Contains`, with a scanning definition
  `ScanFor` proved equal to it), `''.join` and `str(int)`.
- `CssScan`: the pattern `url\(\s*.(.*).\s*\)` under Python's `re` semantics.
  - `MatchAt` is a match, and `Outranks` is the backtracking order: greedy
    counts, the lead first, then the group, then the trail.
  - `Preferred` and `FirstMatch` say what `re.search` reports, and
    `IsFinditer` and `Finditer` say what `re.finditer` yields.
  - The engine is a set of recursive functions: `WsRun`, `LineRun`, `Tail`,
    `TryLen`, `LeadAttempt`, `TryLead`, `MatchFrom`, `Search`, `MatchesFrom`.
  - `UrlCaptures` gives the group-1 texts.
  - `FindAllLinksInCss` is the scanning loop of `_find_all_links_in_css`.
- `Http`: the request methods and a response as the checker reads it.
- `LinkBot`: `LinkCheckerBot`.
  - The functions (`ContentType`, `IsUnfetchedText`, `IsInternalLink`,
    `CssLinksOf`, `HtmlLinksOf`, `Kept`, `AllLinksOf`) specify its generators.
  - The methods (`CssLinks`, `HtmlLinks`, `AllLinks`) are its loops.
  - The functions take the CSS scanner as a parameter of type `CssFinder`, so
    every law about them holds for any scanner. The methods and the scenarios
    use `CssScan.UrlCaptures`.
- `ErrorSink`: the error writer, a class with the reported `lines` and the
  `returnCode`.
- `Crawl`: `LinkCheckerParser`.
  - `Prelude` and `Decide` specify what one call of `parse` reports and
    yields, given the links of the page.
  - `RetryErrors` does the same for `parse_405`, and `ErrorLine` is the line
    `_error` reports.
  - The class `LinkCheckerParser` holds the methods `Parse`, `Parse405` and
    `Error`, which update the shared `ErrorWriter`.
  - `parse` reads `start_urls[0]` on every call (linkchecker.py:36). The test
    suite assigns the class attribute `LinkCheckerParser.start_urls`
    (tests/test_linkchecker.py:22) before any spider exists, so the first
    start URL is fixed for the life of a spider, and the model keeps it as the
    spider's `seed`. The constructor `Default` uses the configured
    `StartUrl`; the other constructor takes the seed as an argument, as the
    test suite's assignment does.

The decision is modelled as data:
- A request is `Request(url, verb, handler)`.
- The handler is `Parse(parent)` or `Parse405(parent)`, which is all the
  callback closures carry.
- The generator `parse` becomes the sequence of requests it yields.

## Model

| member | source | states |
|---|---|---|
| ErrorSink.ErrorWriter.constructor | linkchecker.py:14-15 | a new writer has reported nothing and its return code is 0 |
| ErrorSink.ErrorWriter.Report | linkchecker.py:16-18 | a report is appended after every earlier one and the return code is 2 from then on (never reset) |
| Crawl.LinkCheckerParser.constructor | linkchecker.py:31-33 | the spider keeps its seed URL and the error writer it was given |
| Crawl.LinkCheckerParser.Default | linkchecker.py:24-33 | the spider built without arguments crawls from the configured start URL `https://less.works/` and reports to a new writer that has reported nothing |
| Crawl.LinkCheckerParser.Parse | linkchecker.py:35-46 | `parse` yields exactly `Decide(...).requests` for the page's links and appends exactly `Decide(...).errors` to the writer, keeping the writer's return code consistent |
| Crawl.LinkCheckerParser.Triage | linkchecker.py:38-44 | the status branch of `parse`: its requests and reports are those of `Prelude` |
| Crawl.HeadRequests | linkchecker.py:45-46 | the link loop yields `LinkRequests` of the links, one per link in order |
| Crawl.LinkCheckerParser.Parse405 | linkchecker.py:48-50 | `parse_405` reports the retried page exactly as `RetryErrors` says |
| Crawl.LinkCheckerParser.Error | linkchecker.py:52-54 | `_error` appends exactly the line `url, status: N, parent: P` and sets the return code to 2 |
| Crawl.IsFailure | linkchecker.py:40 | a status is reported when `status // 100 != 2` and it is not 999 (floor division, which Dafny's `/` is for a positive divisor) |
| Crawl.ParentText | linkchecker.py:53-54 | the parent as `format` renders it: its URL, or `None` when there is none |
| Crawl.ErrorLine | linkchecker.py:53-54 | the reported line is the URL, `, status: `, the status in decimal, `, parent: ` and the parent |
| Crawl.RefetchDue | linkchecker.py:43 | a page is fetched again when it is unfetched text and its URL is internal to the seed |
| Crawl.Prelude | linkchecker.py:38-44 | the status branch of `parse`: a GET retry handled by `parse_405` for 405; else one report and no request for a failing status; else a GET refetch handled by `parse` with the same parent when one is due; else nothing |
| Crawl.Decide | linkchecker.py:35-46 | `parse` reports what the prelude reports and yields the prelude's requests followed by one HEAD per link |
| Crawl.RetryErrors | linkchecker.py:48-50 | `parse_405` reports one line for a failing status and nothing otherwise; it yields nothing |
| Crawl.LinkRequests | linkchecker.py:45-46 | one request per link |
| Crawl.LinkRequestsAreHeads | linkchecker.py:45-46 | request k is a HEAD for link k, handled by `parse` with the page as parent |
| Crawl.FailureRange | linkchecker.py:40 | `status // 100 != 2 and status != 999` holds exactly for statuses outside 200..299 other than 999 |
| Crawl.LinksAlwaysChecked | linkchecker.py:38-46 | for every status the requests end with one HEAD per link, in link order, after at most one other request |
| Crawl.GetLaw | linkchecker.py:38-44 | a GET is yielded exactly for a 405 or for a non-failing, HEAD-fetched text page inside the crawl; it is the first request, for the page URL, handled by `parse_405` (405) or `parse` with the same parent |
| Crawl.ErrorLaw | linkchecker.py:38-54 | `parse` reports at most one line, exactly for a status that is not 405, not 2xx and not 999, and that line is `_error`'s; `parse_405` reports exactly for a status that is not 2xx and not 999 |
| Crawl.QuietPage | linkchecker.py:38-46 | a 2xx page that needs no refetch reports nothing and yields only its link requests |
| Crawl.NotFoundReported | tests/test_linkchecker.py:111-114 | a 404 with parent "parent" reports exactly `http://domain/, status: 404, parent: parent` |
| Crawl.HeadHtmlRefetched | tests/test_linkchecker.py:98-100 | a HEAD-fetched HTML page of the test domain is first fetched again with GET |
| Crawl.ImageLinks | tests/test_linkchecker.py:102-104 | an image with no markup links has no links |
| Crawl.HeadImageLeftAlone | tests/test_linkchecker.py:102-104 | a HEAD-fetched PNG reports nothing and yields no request |
| Crawl.MarkupFreeLinks | tests/test_linkchecker.py:145-148 | an HTML page without link markup has no links, whatever its body |
| Crawl.MarkupFreePageIgnored | tests/test_linkchecker.py:106-109 | a GET-fetched HTML page without link markup reports nothing and yields nothing, even when its body looks like CSS (also the scenario of tests/test_linkchecker.py:145-148) |
| Crawl.OneLinkFound | tests/test_linkchecker.py:116-132 | a page whose one link is `xxx.html`, `http://google.com`, `xxx.jpg` or `xxx.ico` links to that reference, resolved |
| Crawl.OneLinkChecked | tests/test_linkchecker.py:116-132 | such a page yields exactly one HEAD request for that link, external or not |
| Crawl.OneSheetReference | tests/test_linkchecker.py:134-143 | a stylesheet whose body yields one reference that is not excluded links to that reference alone, resolved |
| Crawl.StylesheetReferenceChecked | tests/test_linkchecker.py:134-143 | such a stylesheet yields exactly one HEAD request, for the reference resolved against the stylesheet |
| Crawl.QuotedReferenceChecked | tests/test_linkchecker.py:134-138 | the test stylesheet `.x{background:url('g')};`, for any one-line image name `g` that is not excluded, yields exactly one HEAD request, for `g` resolved against the stylesheet |
| Crawl.QuotedStylesheetChecked | tests/test_linkchecker.py:134-138 | the test stylesheet itself yields exactly one HEAD request, for `x.jpg` resolved against it |
| Crawl.SpacedReferenceChecked | tests/test_linkchecker.py:140-143 | the spaced test stylesheet `.x{background:url(  "g"  )};` yields exactly one HEAD request, for `g` followed by the closing quote and one space |
| Crawl.SpacedStylesheetChecked | tests/test_linkchecker.py:140-143 | the spaced test stylesheet itself yields exactly one HEAD request, built from `x.jpg" ` resolved against it (the URL as handed to `scrapy.Request`, before scrapy escapes it) |
| Crawl.OneStyleReference | tests/test_linkchecker.py:150-153 | an HTML page whose one `<style>` element yields one reference that is not excluded links to it alone, resolved |
| Crawl.EmbeddedStyleChecked | tests/test_linkchecker.py:150-153 | such a page yields exactly one HEAD request for that reference |
| Crawl.EmbeddedReferenceChecked | tests/test_linkchecker.py:150-153 | the test page whose one `<style>` element is `<style>.x{background:url("g")};</style>`, for any one-line image name `g` that is not excluded, yields exactly one HEAD request, for `g` resolved against the page |
| Crawl.EmbeddedStylesheetChecked | tests/test_linkchecker.py:150-153 | the test page itself yields exactly one HEAD request, for `x.jpg` resolved against it |
| LinkBot.ContentType | linkchecker.py:94-95 | the content type is the response's content-type values joined with no separator |
| LinkBot.IsUnfetchedText | linkchecker.py:71-72 | the page was fetched with HEAD and `text` occurs in its content type |
| LinkBot.IsInternalLink | linkchecker.py:74-75 | a URL is internal when the seed URL occurs in it anywhere |
| LinkBot.CssLinksOf | linkchecker.py:77-81 | the body's references when `text/css` occurs in the content type, and none otherwise |
| LinkBot.StyleLinksOf | linkchecker.py:86-88 | the references of each `<style>` element, element after element, in order |
| LinkBot.HtmlLinksOf | linkchecker.py:83-88 | the `href` values, then the `src` values, then the `<style>` references |
| LinkBot.IsExcluded | linkchecker.py:64-67 | a reference is skipped when `linkedin.com` or `amazonaws.com` occurs in it |
| LinkBot.Kept | linkchecker.py:62-69 | the candidates in order, the excluded ones dropped and the rest resolved against the base URL |
| LinkBot.AllLinksOf | linkchecker.py:62-69 | the kept stylesheet-body references followed by the kept markup links |
| LinkBot.ContentTypeHasEveryValue | linkchecker.py:94-95 | whatever occurs in one content-type value occurs in the joined content type |
| LinkBot.SingleHeader | linkchecker.py:94-95 | a single header value starting with `t` puts `t` in the content type |
| LinkBot.KeptAppend | linkchecker.py:62-69 | filtering a concatenation is concatenating the filtered parts (order is kept) |
| LinkBot.KeptOne | linkchecker.py:64-68 | one candidate is dropped when excluded and resolved otherwise |
| LinkBot.KeptMembers | linkchecker.py:62-69 | a link is yielded if and only if some candidate that names neither excluded host resolves to it |
| LinkBot.KeptFour | linkchecker.py:62-69 | filtering four candidate lists in a row is filtering each in turn |
| LinkBot.AllLinksInOrder | linkchecker.py:62-88 | the links are the kept CSS-body links, then the kept `href` values, then the kept `src` values, then the kept `<style>` links |
| LinkBot.CssOnlyForStylesheets | linkchecker.py:77-81 | without "text/css" in the content type the body is never scanned: the links are the HTML ones and do not depend on the body |
| LinkBot.StyleLinksAppend | linkchecker.py:86-88 | the `<style>` elements contribute their references element by element, in order |
| LinkBot.NoCandidates | linkchecker.py:62-88 | no CSS body to scan and no markup links means no links |
| LinkBot.SingleAttribute | linkchecker.py:62-85 | a single non-excluded `href` or `src` value is the one link, resolved |
| LinkBot.StylesheetCandidates | linkchecker.py:77-81 | a stylesheet without markup links links to the kept references of its body |
| LinkBot.StyleElementCandidates | linkchecker.py:86-88 | a non-stylesheet whose only markup is one `<style>` element links to the kept references of that element |
| LinkBot.NotExcluded | linkchecker.py:64-67 | a reference with no `k` and no `z` names neither excluded host |
| LinkBot.CssLinks | linkchecker.py:77-81 | `_css_links` yields `CssLinksOf` with the real scanner |
| LinkBot.StyleLinks | linkchecker.py:86-88 | the `<style>` loop yields `StyleLinksOf` with the real scanner |
| LinkBot.HtmlLinks | linkchecker.py:83-88 | `_html_links` yields the `href` values, the `src` values, then the `<style>` references |
| LinkBot.AllLinks | linkchecker.py:62-69 | `all_links` yields `AllLinksOf` with the real scanner |
| LinkBot.KeepLinks | linkchecker.py:63-69 | the filtering loop with its two `continue`s yields `Kept` of its candidates |
| Text.Contains | linkchecker.py:64 | Python's `in` on strings (also at lines 72, 75 and 78): `t` occurs in `s` at some position |
| Text.ScanForIsContains | linkchecker.py:64 | the scanning definition of `in` finds exactly the occurrences |
| Text.AbsentChar | linkchecker.py:64 | a string lacking one character of `t` does not contain `t` |
| Text.AbsentPair | linkchecker.py:64 | a string lacking one adjacent pair of `t` does not contain `t` |
| Text.ContainsWithin | linkchecker.py:95 | an occurrence in a part is an occurrence in any string built around it |
| Text.Join | linkchecker.py:95 | joining one value gives that value |
| Text.JoinKeepsPart | linkchecker.py:95 | whatever occurs in a part occurs in the join |
| Text.NatToString | linkchecker.py:53 | the rendering is decimal digits denoting the number, with no leading zero |
| Text.IntToString | linkchecker.py:53 | a negative number renders as `-` followed by the digits of its magnitude |
| CssScan.MatchAt | linkchecker.py:91 | a match of `url\(\s*.(.*).\s*\)`: `url(`, a run of whitespace (the lead), one character, a newline-free group, one character, a run of whitespace (the trail) and `)` |
| CssScan.Outranks | linkchecker.py:91 | the backtracking order at one position: the longer lead first, then the longer group, then the longer trail |
| CssScan.Preferred | linkchecker.py:91 | the match Python reports at a position: no match there outranks it |
| CssScan.FirstMatch | linkchecker.py:91 | what `re.search` from a position reports: the preferred match at the leftmost position that has one, or nothing when no match starts there or later |
| CssScan.IsFinditer | linkchecker.py:91 | what `re.finditer` yields: each match is the search result from where the previous one ended, and the sequence stops when the search finds nothing |
| CssScan.Finditer | linkchecker.py:91 | the one sequence that `re.finditer` yields on the text |
| CssScan.TryLen | linkchecker.py:91 | the group is tried from n characters down to none, the first successful tail wins |
| CssScan.LeadAttempt | linkchecker.py:91 | the attempt with exactly a given lead: the character after it, then the longest group the line allows |
| CssScan.TryLead | linkchecker.py:91 | the lead is tried from the longest whitespace run down to none, the first success wins |
| CssScan.MatchFrom | linkchecker.py:91 | the attempt at one position: `url(` there, then the lead attempts |
| CssScan.MatchesFrom | linkchecker.py:91 | the engine's `finditer`: search, then resume at the end of the match found |
| CssScan.UrlCaptures | linkchecker.py:91-92 | the group-1 texts of the matches, in order |
| CssScan.IsSpace | linkchecker.py:91 | the pattern's `\s`: the characters for which Python 3's `str.isspace` holds, the newline included (under Python 2, which the `print_function` import at line 4 still supports, a byte-string pattern's `\s` would be ASCII whitespace only) |
| CssScan.Capture | linkchecker.py:92 | `m.group(1)`: the text of the match from `CapStart` to `CapEnd`, between the character dropped after the lead and the one dropped before the trail |
| CssScan.WsRun | linkchecker.py:91 | greedy `\s*` stops at the first non-whitespace and takes only whitespace |
| CssScan.LineRun | linkchecker.py:91 | greedy `.*` stops at the first newline and takes no newline |
| CssScan.Tail | linkchecker.py:91 | the tail `.\s*\)` ends inside the text when it succeeds |
| CssScan.Search | linkchecker.py:91 | a found match starts at or after the search position and lies in the text |
| CssScan.CapturesOf | linkchecker.py:92 | one capture per match |
| CssScan.TailOfMatch | linkchecker.py:91 | every match has a matching prefix, a newline-free group and the tail's own trail |
| CssScan.MatchOfTail | linkchecker.py:91 | a matching prefix, a newline-free group and a successful tail form a match |
| CssScan.TailHit | linkchecker.py:91 | a successful tail gives the best match for its lead and group length |
| CssScan.TailMiss | linkchecker.py:91 | a failed tail rules out every match with that lead and group length |
| CssScan.TryLenSpec | linkchecker.py:91 | backtracking over the group finds the best match with that lead and a group of at most n characters |
| CssScan.GroupWithinLine | linkchecker.py:91 | a group never reaches the end of its line |
| CssScan.LeadBlocked | linkchecker.py:91 | nothing matches when a newline or the end of the text follows the lead |
| CssScan.LeadLine | linkchecker.py:91 | every group with a given lead fits before the end of the line |
| CssScan.LeadAttemptSpec | linkchecker.py:91 | the attempt with a given lead finds the best match with exactly that lead |
| CssScan.TryLeadSpec | linkchecker.py:91 | backtracking over the lead finds the best match with at most that lead |
| CssScan.MatchFromSpec | linkchecker.py:91 | the attempt at one position finds the match Python prefers there, or there is none |
| CssScan.MatchFromSound | linkchecker.py:91 | a match found at a position starts there and lies in the text |
| CssScan.SearchSpec | linkchecker.py:91 | `Search` is `re.search`: the preferred match at the leftmost position that has one |
| CssScan.FirstMatchUnique | linkchecker.py:91 | at most one search result fits that description |
| CssScan.MatchesFromSpec | linkchecker.py:91 | `MatchesFrom` yields what `re.finditer` yields: each search resumes where the last match ended |
| CssScan.FinditerUnique | linkchecker.py:91 | at most one sequence of matches fits that description |
| CssScan.FinditerSpec | linkchecker.py:91 | `Finditer` is the sequence `re.finditer` yields |
| CssScan.FinditerIs | linkchecker.py:91 | any sequence `re.finditer` may yield is `Finditer` |
| CssScan.EngineIsFinditer | linkchecker.py:91 | the engine computes `Finditer` |
| CssScan.FinditerMatches | linkchecker.py:91 | everything `re.finditer` yields is a match |
| CssScan.CapturesOfIndex | linkchecker.py:92 | capture k is the group of match k |
| CssScan.CapturesOfMatches | linkchecker.py:91-92 | each capture of a finditer sequence is its match's group text and has no newline |
| CssScan.CapturesAreGroups | linkchecker.py:90-92 | `_find_all_links_in_css` yields one capture per `re.finditer` match, in order; each is the text between the character dropped after `url(` and the lead and the character dropped before the trail and `)`, and none contains a newline |
| CssScan.MatchParens | linkchecker.py:91 | every match has `(` after `url` and `)` at its close |
| CssScan.LoneReferenceNoEarlier | linkchecker.py:91 | in a single-reference text nothing matches before the reference |
| CssScan.LoneReferenceBest | linkchecker.py:91 | in such a text no match at the reference outranks the one reaching its `)` |
| CssScan.LoneReferenceFirst | linkchecker.py:91 | in such a text the first match starts at `url(` and reaches its `)` |
| CssScan.LoneReferenceLast | linkchecker.py:91 | in such a text nothing matches after that `)` |
| CssScan.LoneReferenceCapture | linkchecker.py:90-92 | such a text yields one capture, everything between the first and the last character inside the parentheses beyond the lead, quotes or not |
| CssScan.AssembledReference | linkchecker.py:91 | a text built as prefix, `url(`, whitespace, a character, a group, a character, `)` and suffix has that shape |
| CssScan.SingleReference | linkchecker.py:90-92 | such a text yields exactly the group |
| CssScan.QuotedReference | tests/test_linkchecker.py:134-138 | `.x{background:url('x.jpg')};` yields `x.jpg` |
| CssScan.SpacedReference | tests/test_linkchecker.py:140-143 | `.x{background:url(  "x.jpg"  )};` yields the single capture `x.jpg" ` (closing quote and one space kept) |
| CssScan.EmbeddedReference | tests/test_linkchecker.py:150-153 | the `<style>` markup of the test yields `x.jpg` |
| CssScan.UnquotedReference | linkchecker.py:91 | `url(img.png)` yields `mg.pn`: one character is dropped on each side whether or not it is a quote |
| CssScan.GreedyOverTwoReferences | linkchecker.py:91 | `url('a') url('b')` yields the one greedy capture `a') url('b` |
| CssScan.FindAllLinksInCss | linkchecker.py:90-92 | the scanning loop yields `UrlCaptures`, the `re.finditer` captures in order |

The code is followed where the tests or the documented behaviour differ:

- tests/test_linkchecker.py:121-123 expects no request for an external link
  (`http://google.com`). `all_links` has no scope check, so the code sends a
  HEAD request for it, and `Crawl.OneLinkChecked` proves exactly one such
  request.
- The link loop at linkchecker.py:45-46 runs for every status, 404 and 405
  included. `Crawl.LinksAlwaysChecked` holds for every status.
- `_html_links` also runs for `text/css` responses, so a stylesheet's markup
  links (if a selector returned any) are followed too.
- Exclusion tests the raw reference before it is resolved
  (`LinkBot.IsExcluded`).

## Left out

- `execute` and the `__main__` entry (linkchecker.py:98-116): process start-up, option parsing and scrapy settings. `custom_settings`, `USER_AGENT` and the unused `max_pages` are configuration of that machinery.
- HTML parsing by scrapy selectors (linkchecker.py:84-88): the `href` values, the `src` values and the outer markup of each `<style>` element are inputs of the response.
- Crawl.LinkRequests, Crawl.LinksAlwaysChecked and the datatype Crawl.Request: building a `scrapy.Request` (linkchecker.py:39, 44, 46) is modelled as a plain record that never fails. A request's `url` is the string handed to `scrapy.Request`; scrapy's own normalisation of it (escaping such as `x.jpg" ` to `x.jpg%22%20`) is not modelled. Nor is the `ValueError` that scrapy versions requiring `://` raise for a link such as `mailto:…` or `javascript:…`: inside the `parse` generator it ends `parse` at that link, so "one HEAD per link" holds only for pages without such a link.
- `response.urljoin` (linkchecker.py:68): URL resolution is scrapy's, which is not part of this model. It is the function parameter `join`, about which nothing is assumed.
- The `<base href>` of a page: scrapy resolves the links of a text or HTML response against the page's `<base href>` when it has one, and against `response.url` otherwise. The model always passes the page URL to `join` (`LinkBot.AllLinksOf`, `LinkBot.AllLinks`), so a page with a `<base>` element is modelled as if it had none.
- Header rendering (linkchecker.py:95): each content-type value is the header text itself (`text/html; charset=utf-8`). Python 3's `str()` of the bytes value adds a `b'…'` wrapping, which is not modelled; only `in` tests read the content type, and the wrapping contains neither `text` nor `text/css`.
- Selector errors: scrapy refuses selectors on a response that is not text. Such a response is modelled as having no markup links.
- Body decoding: `text` is the decoded body.
- Scheduling: callbacks as closures, request de-duplication, concurrency and the crawl order of the scrapy engine. A request records only the handler and the parent it would be called with.
- Laziness: the generators become sequences. The interleaving of a generator's output with the error writer's output is not modelled, only the two results.
- Printing to the standard error stream (linkchecker.py:17) becomes appending to `ErrorWriter.lines`.
- ErrorSink.ErrorWriter.Report: `return_code` is a class attribute in Python, shared by every writer, while the model keeps it per writer object. The program creates a single writer.
- LinkBot.CssLinksOf, LinkBot.HtmlLinksOf, LinkBot.AllLinksOf: these take the CSS scanner as a parameter. The methods `CssLinks`, `HtmlLinks` and `AllLinks` fix it to `CssScan.UrlCaptures`, and so do the scenarios.
- The default argument `error_writer=STDErrorWriter()` (linkchecker.py:31) is evaluated once by Python, so every spider built without a writer shares one writer object. `Crawl.LinkCheckerParser.Default` gives each such spider a writer of its own; the sharing is not modelled.
