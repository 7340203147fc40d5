/** `LinkCheckerParser`: what the spider does with each response it is handed —
    which requests it schedules next and which broken links it reports. */
module Crawl {
  import opened Wrappers
  import opened Text
  import opened Http
  import opened LinkBot
  import opened ErrorSink
  import CssScan

  /** The first configured start URL of the spider; the crawl is internal to it. */
  const StartUrl := "https://less.works/"

  /** The callback a scheduled request is handed to, with the parent it carries. */
  datatype Handler = Parse(parent: Option<string>) | Parse405(parent: Option<string>)

  /** A request the spider yields; `url` is the string handed to
      `scrapy.Request`, before scrapy normalises it. */
  datatype Request = Request(url: string, verb: Method, handler: Handler)

  /** Everything one call of a callback does: the lines it reports, then the
      requests it yields, each in order. */
  datatype Decision = Decision(errors: seq<string>, requests: seq<Request>)

  /** A status that is reported as broken: not 2xx (Python's `// 100`,
      which is Dafny's `/` for a positive divisor) and not 999. */
  predicate IsFailure(status: int) {
    status / 100 != 2 && status != 999
  }

  /** How `str.format` renders the parent: the URL, or `None`. */
  function ParentText(parent: Option<string>): string {
    match parent
    case None => "None"
    case Some(p) => p
  }

  /** The line `_error` reports. */
  function ErrorLine(url: string, status: int, parent: Option<string>): string {
    url + ", status: " + IntToString(status) + ", parent: " + ParentText(parent)
  }

  /** One HEAD request per link, each parsed with `page` as its parent. */
  function LinkRequests(page: string, links: seq<string>): (rs: seq<Request>)
    ensures |rs| == |links|
    decreases |links|
  {
    if links == [] then []
    else LinkRequests(page, links[..|links| - 1]) + [Request(links[|links| - 1], HEAD, Parse(Some(page)))]
  }

  /** The page itself is fetched again with GET: it was only HEAD-fetched,
      it is text, and its URL lies inside the crawl. */
  predicate RefetchDue(seed: string, r: Response) {
    IsUnfetchedText(r) && IsInternalLink(seed, r.url)
  }

  /** What `parse` does before it turns to the links: a 405 is retried with
      GET, a failure is reported, a text page inside the crawl that was only
      HEAD-fetched is fetched again with GET, anything else is left alone. */
  function Prelude(seed: string, r: Response, parent: Option<string>): Decision {
    if r.status == 405 then Decision([], [Request(r.url, GET, Parse405(parent))])
    else if IsFailure(r.status) then Decision([ErrorLine(r.url, r.status, parent)], [])
    else if RefetchDue(seed, r) then Decision([], [Request(r.url, GET, Parse(parent))])
    else Decision([], [])
  }

  /** `parse`, given the links `all_links` yields: the prelude, then,
      whatever the status, a HEAD request for every link. */
  function Decide(seed: string, r: Response, parent: Option<string>, links: seq<string>): Decision {
    var p := Prelude(seed, r, parent);
    Decision(p.errors, p.requests + LinkRequests(r.url, links))
  }

  /** `parse_405`: the GET retry is reported when it fails too; it yields nothing. */
  function RetryErrors(r: Response, parent: Option<string>): seq<string> {
    if IsFailure(r.status) then [ErrorLine(r.url, r.status, parent)] else []
  }

  /** The spider. `seed` is its first start URL; the error writer is shared
      with whoever created it. */
  class LinkCheckerParser {
    const seed: string
    const errorWriter: ErrorWriter

    constructor (seed: string, errorWriter: ErrorWriter)
      ensures this.seed == seed && this.errorWriter == errorWriter
    {
      this.seed := seed;
      this.errorWriter := errorWriter;
    }

    /** The spider as the program starts it: the configured start URL and a
        writer of its own that has reported nothing yet. */
    constructor Default()
      ensures seed == StartUrl
      ensures fresh(errorWriter) && errorWriter.Valid() && errorWriter.lines == []
    {
      seed := StartUrl;
      errorWriter := new ErrorWriter();
    }

    /** `parse`: reports what `Decide` reports and yields what it yields. */
    method Parse(r: Response, parent: Option<string>, join: UrlJoin) returns (requests: seq<Request>)
      requires errorWriter.Valid()
      modifies errorWriter
      ensures errorWriter.Valid()
      ensures requests == Decide(seed, r, parent, AllLinksOf(r, join, CssScan.UrlCaptures)).requests
      ensures errorWriter.lines == old(errorWriter.lines) + Decide(seed, r, parent, AllLinksOf(r, join, CssScan.UrlCaptures)).errors
    {
      requests := Triage(r, parent);
      var links := AllLinks(r, join);
      var heads := HeadRequests(r.url, links);
      requests := requests + heads;
    }

    /** The first half of `parse`: retry, report or refetch the page itself. */
    method Triage(r: Response, parent: Option<string>) returns (requests: seq<Request>)
      requires errorWriter.Valid()
      modifies errorWriter
      ensures errorWriter.Valid()
      ensures requests == Prelude(seed, r, parent).requests
      ensures errorWriter.lines == old(errorWriter.lines) + Prelude(seed, r, parent).errors
    {
      requests := [];
      if r.status == 405 {
        requests := [Request(r.url, GET, Handler.Parse405(parent))];
      } else if r.status / 100 != 2 && r.status != 999 {
        Error(r, parent);
      } else if IsUnfetchedText(r) && IsInternalLink(seed, r.url) {
        requests := [Request(r.url, GET, Handler.Parse(parent))];
      }
    }

    /** `parse_405`: reports the retried page when it still fails. */
    method Parse405(r: Response, parent: Option<string>)
      requires errorWriter.Valid()
      modifies errorWriter
      ensures errorWriter.Valid()
      ensures errorWriter.lines == old(errorWriter.lines) + RetryErrors(r, parent)
    {
      if r.status / 100 != 2 && r.status != 999 {
        Error(r, parent);
      }
    }

    /** `_error`: one line naming the URL, the status and the parent. */
    method Error(r: Response, parent: Option<string>)
      requires errorWriter.Valid()
      modifies errorWriter
      ensures errorWriter.Valid() && errorWriter.returnCode == 2
      ensures errorWriter.lines == old(errorWriter.lines) + [ErrorLine(r.url, r.status, parent)]
    {
      errorWriter.Report(ErrorLine(r.url, r.status, parent));
    }
  }

  /** The second half of `parse`: a HEAD request for every link. */
  method HeadRequests(page: string, links: seq<string>) returns (requests: seq<Request>)
    ensures requests == LinkRequests(page, links)
  {
    requests := [];
    for i := 0 to |links|
      invariant requests == LinkRequests(page, links[..i])
    {
      assert links[..i + 1][..i] == links[..i];
      requests := requests + [Request(links[i], HEAD, Parse(Some(page)))];
    }
    assert links[..|links|] == links;
  }

  // ---------------------------------------------------------------------
  // Properties of a parse

  /** The link requests: one HEAD per link, in link order, parented by the page. */
  lemma {:induction false} LinkRequestsAreHeads(page: string, links: seq<string>)
    ensures forall k | 0 <= k < |links| ::
      LinkRequests(page, links)[k] == Request(links[k], HEAD, Parse(Some(page)))
    decreases |links|
  {
    if links != [] {
      var init := links[..|links| - 1];
      LinkRequestsAreHeads(page, init);
      forall k | 0 <= k < |init| ensures init[k] == links[k] { }
    }
  }

  /** A status is reported as broken exactly when it is outside 200..299 and
      is neither 999 nor (for `parse`) 405. */
  lemma FailureRange(status: int)
    ensures IsFailure(status) <==> !(200 <= status < 300) && status != 999
  {
    if 200 <= status < 300 {
      assert status / 100 == 2;
    } else if status < 200 {
      assert status / 100 <= 1;
    } else {
      assert status / 100 >= 3;
    }
  }

  /** Every link is checked, whatever the status: the requests end with one
      HEAD per link, in link order, after at most one GET. */
  lemma LinksAlwaysChecked(seed: string, r: Response, parent: Option<string>, links: seq<string>)
    ensures var d := Decide(seed, r, parent, links);
      |links| <= |d.requests| <= |links| + 1 &&
      forall k | 0 <= k < |links| ::
        d.requests[|d.requests| - |links| + k] == Request(links[k], HEAD, Parse(Some(r.url)))
  {
    var first := Prelude(seed, r, parent).requests;
    var heads := LinkRequests(r.url, links);
    LinkRequestsAreHeads(r.url, links);
    forall k | 0 <= k < |links|
      ensures (first + heads)[|first| + k] == Request(links[k], HEAD, Parse(Some(r.url)))
    {
    }
  }

  /** The page is fetched with GET exactly when it answered 405 (retried by
      `parse_405`) or when it is an unfetched text page inside the crawl that
      did not fail; that GET is the first request, for the page's own URL. */
  lemma GetLaw(seed: string, r: Response, parent: Option<string>, links: seq<string>)
    ensures var d := Decide(seed, r, parent, links);
      ((exists k | 0 <= k < |d.requests| :: d.requests[k].verb == GET) <==>
        r.status == 405 || (!IsFailure(r.status) && RefetchDue(seed, r))) &&
      (forall k | 0 <= k < |d.requests| && d.requests[k].verb == GET ::
        k == 0 && d.requests[k].url == r.url &&
        d.requests[k].handler == (if r.status == 405 then Parse405(parent) else Parse(parent)))
  {
    var first := Prelude(seed, r, parent).requests;
    var heads := LinkRequests(r.url, links);
    LinkRequestsAreHeads(r.url, links);
    var requests := first + heads;
    forall k | |first| <= k < |requests| ensures requests[k].verb == HEAD {
      assert requests[k] == heads[k - |first|];
    }
    assert first != [] <==> r.status == 405 || (!IsFailure(r.status) && RefetchDue(seed, r));
    if first != [] {
      assert requests[0] == first[0];
    }
  }

  /** `parse` reports at most one line, exactly for a failing status other
      than 405, and that line is `_error`'s; a 405 is reported, if at all,
      by `parse_405` under the same rule. */
  lemma ErrorLaw(seed: string, r: Response, parent: Option<string>, links: seq<string>)
    ensures var d := Decide(seed, r, parent, links);
      |d.errors| <= 1 &&
      (d.errors != [] <==> r.status != 405 && !(200 <= r.status < 300) && r.status != 999) &&
      (d.errors != [] ==> d.errors[0] == ErrorLine(r.url, r.status, parent))
    ensures RetryErrors(r, parent) != [] <==> !(200 <= r.status < 300) && r.status != 999
    ensures RetryErrors(r, parent) != [] ==> RetryErrors(r, parent) == [ErrorLine(r.url, r.status, parent)]
  {
    FailureRange(r.status);
  }

  /** A page that answered 2xx and needs no refetch reports nothing and
      yields only its link requests. */
  lemma QuietPage(seed: string, r: Response, parent: Option<string>, links: seq<string>)
    requires 200 <= r.status < 300 && !RefetchDue(seed, r)
    ensures Decide(seed, r, parent, links) == Decision([], LinkRequests(r.url, links))
  {
    FailureRange(r.status);
  }

  // ---------------------------------------------------------------------
  // The documented scenarios, for the test domain `http://domain/`

  /** A 404 page with parent "parent" is reported as
      "http://domain/, status: 404, parent: parent", and nothing else is. */
  lemma NotFoundReported(r: Response, links: seq<string>)
    requires r.url == "http://domain/" && r.status == 404
    ensures Decide("http://domain/", r, Some("parent"), links).errors ==
      ["http://domain/, status: 404, parent: parent"]
  {
    assert IntToString(404) == "404" by {
      assert NatToString(40) == "40" by {
        assert NatToString(4) == "4";
      }
    }
    NotFoundLineText(r.url);
  }

  /** The expected line of the test above, assembled from its parts. Dafny
      proves it unaided; it is kept apart from NotFoundReported because the
      literal concatenation costs the solver several times more there. */
  lemma NotFoundLineText(url: string)
    requires url == "http://domain/"
    ensures url + ", status: " + "404" + ", parent: " + "parent" ==
      "http://domain/, status: 404, parent: parent"
  {
  }

  /** An HTML page inside the crawl that was only HEAD-fetched is fetched
      again with GET, before anything else, whatever its links. */
  lemma HeadHtmlRefetched(r: Response, links: seq<string>)
    requires r.url == "http://domain/" && r.status == 200 && r.requestMethod == HEAD
    requires r.contentTypes == ["text/html; charset=utf-8"]
    ensures var requests := Decide("http://domain/", r, None, links).requests;
      requests != [] && requests[0] == Request("http://domain/", GET, Parse(None))
  {
    SingleHeader(r, "text");
    assert OccursAt(r.url, "http://domain/", 0);
  }

  /** The HEAD-fetched image of the scenario below has no links. */
  lemma ImageLinks(r: Response, join: UrlJoin)
    requires r.contentTypes == ["image/png; charset=utf-8"]
    requires r.hrefs == [] && r.srcs == [] && r.styles == []
    ensures AllLinksOf(r, join, CssScan.UrlCaptures) == []
  {
    AbsentChar(ContentType(r), "text/css", 2);
    NoCandidates(r, join, CssScan.UrlCaptures);
  }

  /** A HEAD-fetched image with no links yields no request at all. */
  lemma HeadImageLeftAlone(r: Response, join: UrlJoin)
    requires r.url == "http://domain/a.png" && r.status == 200 && r.requestMethod == HEAD
    requires r.contentTypes == ["image/png; charset=utf-8"]
    requires r.hrefs == [] && r.srcs == [] && r.styles == []
    ensures Decide("http://domain/", r, None, AllLinksOf(r, join, CssScan.UrlCaptures)) == Decision([], [])
  {
    ImageLinks(r, join);
    AbsentChar(ContentType(r), "text", 2);
    QuietPage("http://domain/", r, None, []);
  }

  /** An HTML page with no link markup has no links, whatever its body says. */
  lemma MarkupFreeLinks(r: Response, join: UrlJoin)
    requires r.contentTypes == ["text/html; charset=utf-8"]
    requires r.hrefs == [] && r.srcs == [] && r.styles == []
    ensures AllLinksOf(r, join, CssScan.UrlCaptures) == []
  {
    AbsentPair(ContentType(r), "text/css", 4);
    NoCandidates(r, join, CssScan.UrlCaptures);
  }

  /** A GET-fetched HTML page with no link markup reports nothing and yields
      nothing, even when its body looks like CSS. */
  lemma MarkupFreePageIgnored(r: Response, join: UrlJoin)
    requires r.url == "http://domain/" && r.status == 200 && r.requestMethod == GET
    requires r.contentTypes == ["text/html; charset=utf-8"]
    requires r.hrefs == [] && r.srcs == [] && r.styles == []
    ensures Decide("http://domain/", r, None, AllLinksOf(r, join, CssScan.UrlCaptures)) == Decision([], [])
  {
    MarkupFreeLinks(r, join);
    QuietPage("http://domain/", r, None, []);
  }

  /** The links of an HTML page whose one link is an `<a>`, `<img>` or
      `<link>` reference of the scenarios below. */
  lemma OneLinkFound(r: Response, join: UrlJoin, link: string)
    requires link in ["xxx.html", "http://google.com", "xxx.jpg", "xxx.ico"]
    requires r.contentTypes == ["text/html; charset=utf-8"]
    requires r.hrefs + r.srcs == [link] && r.styles == []
    ensures AllLinksOf(r, join, CssScan.UrlCaptures) == [join(r.url, link)]
  {
    AbsentPair(ContentType(r), "text/css", 4);
    NotExcluded(link);
    SingleAttribute(r, join, CssScan.UrlCaptures, link);
  }

  /** A GET-fetched HTML page with one link, external or not, yields exactly
      one HEAD request, for that link resolved against the page. */
  lemma OneLinkChecked(r: Response, join: UrlJoin, link: string)
    requires link in ["xxx.html", "http://google.com", "xxx.jpg", "xxx.ico"]
    requires r.url == "http://domain/" && r.status == 200 && r.requestMethod == GET
    requires r.contentTypes == ["text/html; charset=utf-8"]
    requires r.hrefs + r.srcs == [link] && r.styles == []
    ensures Decide("http://domain/", r, None, AllLinksOf(r, join, CssScan.UrlCaptures)).requests ==
      [Request(join("http://domain/", link), HEAD, Parse(Some("http://domain/")))]
  {
    OneLinkFound(r, join, link);
    QuietPage("http://domain/", r, None, [join(r.url, link)]);
  }

  /** A stylesheet of the scenarios below, whose body holds one plain
      reference, links to that reference alone. */
  lemma OneSheetReference(r: Response, join: UrlJoin, find: CssFinder, g: string)
    requires r.contentTypes == ["text/css; charset=utf-8"]
    requires r.hrefs == [] && r.srcs == [] && r.styles == []
    requires find(r.text) == [g] && !IsExcluded(g)
    ensures AllLinksOf(r, join, find) == [join(r.url, g)]
  {
    SingleHeader(r, "text/css");
    StylesheetCandidates(r, join, find);
    KeptOne(r.url, g, join);
  }

  /** A stylesheet whose body holds one plain `url(...)` reference yields one
      HEAD request, for that reference resolved against the stylesheet.
      CssScan.QuotedReference and CssScan.SpacedReference give the two test
      bodies this shape: `x.jpg`, and, with spaces inside the parentheses,
      `x.jpg" ` (the capture keeps the closing quote and one space). */
  lemma StylesheetReferenceChecked(r: Response, join: UrlJoin, g: string)
    requires r.url == "http://domain/a.css" && r.status == 200 && r.requestMethod == GET
    requires r.contentTypes == ["text/css; charset=utf-8"]
    requires CssScan.UrlCaptures(r.text) == [g] && !IsExcluded(g)
    requires r.hrefs == [] && r.srcs == [] && r.styles == []
    ensures Decide("http://domain/", r, None, AllLinksOf(r, join, CssScan.UrlCaptures)).requests ==
      [Request(join("http://domain/a.css", g), HEAD, Parse(Some("http://domain/a.css")))]
  {
    OneSheetReference(r, join, CssScan.UrlCaptures, g);
    QuietPage("http://domain/", r, None, [join(r.url, g)]);
  }

  /** An HTML page of the scenario below, whose one `<style>` element holds
      one plain reference, links to that reference alone. */
  lemma OneStyleReference(r: Response, join: UrlJoin, find: CssFinder, g: string)
    requires r.contentTypes == ["text/html; charset=utf-8"]
    requires r.hrefs == [] && r.srcs == [] && |r.styles| == 1
    requires find(r.styles[0]) == [g] && !IsExcluded(g)
    ensures AllLinksOf(r, join, find) == [join(r.url, g)]
  {
    AbsentPair(ContentType(r), "text/css", 4);
    StyleElementCandidates(r, join, find);
    KeptOne(r.url, g, join);
  }

  /** A `<style>` element in an HTML page contributes its references: with
      one plain reference, the page yields one HEAD request for it.
      CssScan.EmbeddedReference gives the test element this shape, with `x.jpg`. */
  lemma EmbeddedStyleChecked(r: Response, join: UrlJoin, g: string)
    requires r.url == "http://domain/" && r.status == 200 && r.requestMethod == GET
    requires r.contentTypes == ["text/html; charset=utf-8"]
    requires r.hrefs == [] && r.srcs == [] && |r.styles| == 1
    requires CssScan.UrlCaptures(r.styles[0]) == [g] && !IsExcluded(g)
    ensures Decide("http://domain/", r, None, AllLinksOf(r, join, CssScan.UrlCaptures)).requests ==
      [Request(join("http://domain/", g), HEAD, Parse(Some("http://domain/")))]
  {
    OneStyleReference(r, join, CssScan.UrlCaptures, g);
    QuietPage("http://domain/", r, None, [join(r.url, g)]);
  }

  /** The stylesheet of the test suite, `.x{background:url('x.jpg')};`, with
      any image name `g` on one line: exactly one HEAD request, for `g`
      resolved against the stylesheet. */
  lemma QuotedReferenceChecked(r: Response, join: UrlJoin, g: string)
    requires r.url == "http://domain/a.css" && r.status == 200 && r.requestMethod == GET
    requires r.contentTypes == ["text/css; charset=utf-8"]
    requires r.text == ".x{background:url('" + g + "')};"
    requires forall k | 0 <= k < |g| :: g[k] != '\n'
    requires !IsExcluded(g)
    requires r.hrefs == [] && r.srcs == [] && r.styles == []
    ensures Decide("http://domain/", r, None, AllLinksOf(r, join, CssScan.UrlCaptures)).requests ==
      [Request(join("http://domain/a.css", g), HEAD, Parse(Some("http://domain/a.css")))]
  {
    var pre, post := ".x{background:", "};";
    assert pre + "url(" + "" + ['\''] + g + ['\''] + ")" + post == r.text;
    CssScan.SingleReference(pre, "", '\'', g, '\'', post);
    StylesheetReferenceChecked(r, join, g);
  }

  /** The test stylesheet itself: one HEAD request, for `x.jpg`. */
  lemma QuotedStylesheetChecked(r: Response, join: UrlJoin)
    requires r.url == "http://domain/a.css" && r.status == 200 && r.requestMethod == GET
    requires r.contentTypes == ["text/css; charset=utf-8"]
    requires r.text == ".x{background:url('x.jpg')};"
    requires r.hrefs == [] && r.srcs == [] && r.styles == []
    ensures Decide("http://domain/", r, None, AllLinksOf(r, join, CssScan.UrlCaptures)).requests ==
      [Request(join("http://domain/a.css", "x.jpg"), HEAD, Parse(Some("http://domain/a.css")))]
  {
    NotExcluded("x.jpg");
    QuotedReferenceChecked(r, join, "x.jpg");
  }

  /** The stylesheet with spaces inside the parentheses,
      `.x{background:url(  "x.jpg"  )};`, with any image name `g` on one
      line: the one HEAD request is for `g` followed by the closing quote and
      one space, resolved against the stylesheet. */
  lemma SpacedReferenceChecked(r: Response, join: UrlJoin, g: string)
    requires r.url == "http://domain/a.css" && r.status == 200 && r.requestMethod == GET
    requires r.contentTypes == ["text/css; charset=utf-8"]
    requires r.text == ".x{background:url(  \"" + g + "\"  )};"
    requires forall k | 0 <= k < |g| :: g[k] != '\n'
    requires !IsExcluded(g + "\" ")
    requires r.hrefs == [] && r.srcs == [] && r.styles == []
    ensures Decide("http://domain/", r, None, AllLinksOf(r, join, CssScan.UrlCaptures)).requests ==
      [Request(join("http://domain/a.css", g + "\" "), HEAD, Parse(Some("http://domain/a.css")))]
  {
    var pre, post := ".x{background:", "};";
    assert pre + "url(" + "  " + ['"'] + (g + "\" ") + [' '] + ")" + post == r.text;
    CssScan.SingleReference(pre, "  ", '"', g + "\" ", ' ', post);
    StylesheetReferenceChecked(r, join, g + "\" ");
  }

  /** The spaced test stylesheet itself: one HEAD request, for `x.jpg" `. */
  lemma SpacedStylesheetChecked(r: Response, join: UrlJoin)
    requires r.url == "http://domain/a.css" && r.status == 200 && r.requestMethod == GET
    requires r.contentTypes == ["text/css; charset=utf-8"]
    requires r.text == ".x{background:url(  \"x.jpg\"  )};"
    requires r.hrefs == [] && r.srcs == [] && r.styles == []
    ensures Decide("http://domain/", r, None, AllLinksOf(r, join, CssScan.UrlCaptures)).requests ==
      [Request(join("http://domain/a.css", "x.jpg\" "), HEAD, Parse(Some("http://domain/a.css")))]
  {
    assert "x.jpg" + "\" " == "x.jpg\" ";
    NotExcluded("x.jpg\" ");
    SpacedReferenceChecked(r, join, "x.jpg");
  }

  /** The HTML page of the test suite whose one `<style>` element is
      `<style>.x{background:url("x.jpg")};</style>`, with any image name `g`
      on one line: exactly one HEAD request, for `g` resolved against the
      page. */
  lemma EmbeddedReferenceChecked(r: Response, join: UrlJoin, g: string)
    requires r.url == "http://domain/" && r.status == 200 && r.requestMethod == GET
    requires r.contentTypes == ["text/html; charset=utf-8"]
    requires r.hrefs == [] && r.srcs == []
    requires |r.styles| == 1 && r.styles[0] == "<style>.x{background:url(\"" + g + "\")};</style>"
    requires forall k | 0 <= k < |g| :: g[k] != '\n'
    requires !IsExcluded(g)
    ensures Decide("http://domain/", r, None, AllLinksOf(r, join, CssScan.UrlCaptures)).requests ==
      [Request(join("http://domain/", g), HEAD, Parse(Some("http://domain/")))]
  {
    var pre, post := "<style>.x{background:", "};</style>";
    assert pre + "url(" + "" + ['"'] + g + ['"'] + ")" + post == r.styles[0];
    CssScan.SingleReference(pre, "", '"', g, '"', post);
    EmbeddedStyleChecked(r, join, g);
  }

  /** The test page itself: one HEAD request, for `x.jpg`. */
  lemma EmbeddedStylesheetChecked(r: Response, join: UrlJoin)
    requires r.url == "http://domain/" && r.status == 200 && r.requestMethod == GET
    requires r.contentTypes == ["text/html; charset=utf-8"]
    requires r.hrefs == [] && r.srcs == []
    requires |r.styles| == 1 && r.styles[0] == "<style>.x{background:url(\"x.jpg\")};</style>"
    ensures Decide("http://domain/", r, None, AllLinksOf(r, join, CssScan.UrlCaptures)).requests ==
      [Request(join("http://domain/", "x.jpg"), HEAD, Parse(Some("http://domain/")))]
  {
    NotExcluded("x.jpg");
    EmbeddedReferenceChecked(r, join, "x.jpg");
  }
}
