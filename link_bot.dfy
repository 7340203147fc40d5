/** `LinkCheckerBot`: which links a response holds, and the two tests the
    crawl decision asks of a response. */
module LinkBot {
  import opened Text
  import opened Http
  import CssScan

  /** `response.urljoin(uri)`: resolving a reference against the page URL.
      It is library code outside this model, so it is a parameter. */
  type UrlJoin = (string, string) -> string

  /** `_find_all_links_in_css` as the functions below see it: any map from
      a CSS text to the references in it, in order. The methods use
      CssScan.UrlCaptures, which CssScan.FindAllLinksInCss computes, so the
      properties proved here for every finder hold for that one. */
  type CssFinder = string -> seq<string>

  /** `_content_type`: the values of every `content-type` header, joined. */
  function ContentType(r: Response): string {
    Join(r.contentTypes)
  }

  /** Whatever occurs in one header value occurs in the content type. */
  lemma ContentTypeHasEveryValue(r: Response, k: nat, t: string)
    requires k < |r.contentTypes| && Contains(r.contentTypes[k], t)
    ensures Contains(ContentType(r), t)
  {
    JoinKeepsPart(r.contentTypes, k, t);
  }

  /** `is_unfetched_text`: fetched with HEAD, and "text" occurs in the content type. */
  predicate IsUnfetchedText(r: Response) {
    r.requestMethod == HEAD && Contains(ContentType(r), "text")
  }

  /** `is_internal_link`: the seed URL occurs anywhere in the page URL. */
  predicate IsInternalLink(seed: string, nextPage: string) {
    Contains(nextPage, seed)
  }

  /** What `_css_links` yields: the references in the body, only when the
      content type mentions "text/css". */
  function CssLinksOf(r: Response, find: CssFinder): seq<string> {
    if Contains(ContentType(r), "text/css") then find(r.text) else []
  }

  /** The references found in each `<style>` element, element by element. */
  function StyleLinksOf(styles: seq<string>, find: CssFinder): seq<string>
    decreases |styles|
  {
    if styles == [] then []
    else StyleLinksOf(styles[..|styles| - 1], find) + find(styles[|styles| - 1])
  }

  /** What `_html_links` yields: href values, then src values, then the
      references in `<style>` elements. */
  function HtmlLinksOf(r: Response, find: CssFinder): seq<string> {
    r.hrefs + r.srcs + StyleLinksOf(r.styles, find)
  }

  /** The raw reference names a host that refuses HEAD requests. The test is
      on the reference as written, before it is resolved. */
  predicate IsExcluded(uri: string) {
    Contains(uri, "linkedin.com") || Contains(uri, "amazonaws.com")
  }

  /** The candidates that survive the exclusion, each resolved against `base`. */
  function Kept(base: string, candidates: seq<string>, join: UrlJoin): seq<string>
    decreases |candidates|
  {
    if candidates == [] then []
    else
      var uri := candidates[|candidates| - 1];
      Kept(base, candidates[..|candidates| - 1], join) + (if IsExcluded(uri) then [] else [join(base, uri)])
  }

  /** What `all_links` yields: the CSS links, then the HTML links, filtered. */
  function AllLinksOf(r: Response, join: UrlJoin, find: CssFinder): seq<string> {
    Kept(r.url, CssLinksOf(r, find) + HtmlLinksOf(r, find), join)
  }

  // ---------------------------------------------------------------------
  // Properties

  /** The filter keeps order: filtering a concatenation is concatenating the filtered parts. */
  lemma {:induction false} KeptAppend(base: string, a: seq<string>, b: seq<string>, join: UrlJoin)
    ensures Kept(base, a + b, join) == Kept(base, a, join) + Kept(base, b, join)
    decreases |b|
  {
    if b != [] {
      var init := b[..|b| - 1];
      assert (a + b)[..|a + b| - 1] == a + init;
      KeptAppend(base, a, init, join);
    } else {
      assert a + b == a;
    }
  }

  /** One candidate is dropped when excluded and resolved otherwise. */
  lemma KeptOne(base: string, uri: string, join: UrlJoin)
    ensures Kept(base, [uri], join) == if IsExcluded(uri) then [] else [join(base, uri)]
  {
    assert [uri][..0] == [];
  }

  /** A link is kept exactly when some candidate that is not excluded resolves to it. */
  lemma {:induction false} KeptMembers(base: string, candidates: seq<string>, join: UrlJoin, u: string)
    ensures u in Kept(base, candidates, join) <==>
      exists k :: 0 <= k < |candidates| && !IsExcluded(candidates[k]) && u == join(base, candidates[k])
    decreases |candidates|
  {
    if candidates != [] {
      var n := |candidates| - 1;
      var init := candidates[..n];
      KeptMembers(base, init, join, u);
      if exists k :: 0 <= k < |candidates| && !IsExcluded(candidates[k]) && u == join(base, candidates[k]) {
        var k :| 0 <= k < |candidates| && !IsExcluded(candidates[k]) && u == join(base, candidates[k]);
        if k < n {
          assert init[k] == candidates[k];
        }
      }
      if u in Kept(base, init, join) {
        var k :| 0 <= k < |init| && !IsExcluded(init[k]) && u == join(base, init[k]);
        assert candidates[k] == init[k];
      }
    }
  }

  /** Filtering four candidate lists one after the other. */
  lemma KeptFour(base: string, a: seq<string>, b: seq<string>, c: seq<string>, d: seq<string>, join: UrlJoin)
    ensures Kept(base, a + (b + c + d), join) ==
      Kept(base, a, join) + Kept(base, b, join) + Kept(base, c, join) + Kept(base, d, join)
  {
    KeptAppend(base, a, b + c + d, join);
    KeptAppend(base, b + c, d, join);
    KeptAppend(base, b, c, join);
  }

  /** The candidates in source order: CSS-body links, href values, src values,
      then `<style>` links, each kept or dropped on its own. */
  lemma AllLinksInOrder(r: Response, join: UrlJoin, find: CssFinder)
    ensures AllLinksOf(r, join, find) ==
      Kept(r.url, CssLinksOf(r, find), join) + Kept(r.url, r.hrefs, join) +
      Kept(r.url, r.srcs, join) + Kept(r.url, StyleLinksOf(r.styles, find), join)
  {
    KeptFour(r.url, CssLinksOf(r, find), r.hrefs, r.srcs, StyleLinksOf(r.styles, find), join);
  }

  /** The CSS body is scanned only for a "text/css" content type: for any
      other response the candidates are the HTML ones alone, whatever the body. */
  lemma CssOnlyForStylesheets(r: Response, join: UrlJoin, find: CssFinder)
    requires !Contains(ContentType(r), "text/css")
    ensures AllLinksOf(r, join, find) == Kept(r.url, HtmlLinksOf(r, find), join)
    ensures forall body :: AllLinksOf(r.(text := body), join, find) == AllLinksOf(r, join, find)
  {
    assert [] + HtmlLinksOf(r, find) == HtmlLinksOf(r, find);
  }

  /** Every `<style>` element contributes its references, in element order. */
  lemma {:induction false} StyleLinksAppend(a: seq<string>, b: seq<string>, find: CssFinder)
    ensures StyleLinksOf(a + b, find) == StyleLinksOf(a, find) + StyleLinksOf(b, find)
    decreases |b|
  {
    if b != [] {
      var init := b[..|b| - 1];
      assert (a + b)[..|a + b| - 1] == a + init;
      StyleLinksAppend(a, init, find);
    } else {
      assert a + b == a;
    }
  }

  /** A response with no CSS body to scan and no markup links has no links. */
  lemma NoCandidates(r: Response, join: UrlJoin, find: CssFinder)
    requires !Contains(ContentType(r), "text/css")
    requires r.hrefs == [] && r.srcs == [] && r.styles == []
    ensures AllLinksOf(r, join, find) == []
  {
  }

  /** A page whose only candidate is one `href` or `src` value that is not
      excluded links to exactly that value, resolved against the page. */
  lemma SingleAttribute(r: Response, join: UrlJoin, find: CssFinder, u: string)
    requires !Contains(ContentType(r), "text/css")
    requires r.hrefs + r.srcs == [u] && r.styles == [] && !IsExcluded(u)
    ensures AllLinksOf(r, join, find) == [join(r.url, u)]
  {
    assert HtmlLinksOf(r, find) == [u];
    assert [] + [u] == [u];
    KeptOne(r.url, u, join);
  }

  /** A stylesheet without markup links links to the references in its body. */
  lemma StylesheetCandidates(r: Response, join: UrlJoin, find: CssFinder)
    requires Contains(ContentType(r), "text/css")
    requires r.hrefs == [] && r.srcs == [] && r.styles == []
    ensures AllLinksOf(r, join, find) == Kept(r.url, find(r.text), join)
  {
    assert HtmlLinksOf(r, find) == [];
    assert find(r.text) + [] == find(r.text);
  }

  /** A page whose only markup is one `<style>` element links to the
      references in that element. */
  lemma StyleElementCandidates(r: Response, join: UrlJoin, find: CssFinder)
    requires !Contains(ContentType(r), "text/css")
    requires r.hrefs == [] && r.srcs == [] && |r.styles| == 1
    ensures AllLinksOf(r, join, find) == Kept(r.url, find(r.styles[0]), join)
  {
    assert r.styles[..0] == [];
    assert StyleLinksOf(r.styles, find) == find(r.styles[0]);
    assert [] + HtmlLinksOf(r, find) == find(r.styles[0]);
  }

  /** A reference with neither a `k` nor a `z` in it is never excluded. */
  lemma NotExcluded(uri: string)
    requires forall k | 0 <= k < |uri| :: uri[k] != 'k' && uri[k] != 'z'
    ensures !IsExcluded(uri)
  {
    AbsentChar(uri, "linkedin.com", 3);
    AbsentChar(uri, "amazonaws.com", 3);
  }

  /** A single header value that starts with `t` puts `t` in the content type. */
  lemma SingleHeader(r: Response, t: string)
    requires |r.contentTypes| == 1 && |t| <= |r.contentTypes[0]|
    requires r.contentTypes[0][..|t|] == t
    ensures Contains(ContentType(r), t)
  {
    assert OccursAt(ContentType(r), t, 0);
  }

  // ---------------------------------------------------------------------
  // The generators, as loops

  /** `_css_links`. */
  method CssLinks(r: Response) returns (links: seq<string>)
    ensures links == CssLinksOf(r, CssScan.UrlCaptures)
  {
    links := [];
    if !Contains(ContentType(r), "text/css") {
      return;
    }
    links := CssScan.FindAllLinksInCss(r.text);
  }

  /** The second half of `_html_links`: the references of each `<style>` element in turn. */
  method StyleLinks(styles: seq<string>) returns (links: seq<string>)
    ensures links == StyleLinksOf(styles, CssScan.UrlCaptures)
  {
    links := [];
    for j := 0 to |styles|
      invariant links == StyleLinksOf(styles[..j], CssScan.UrlCaptures)
    {
      var found := CssScan.FindAllLinksInCss(styles[j]);
      assert styles[..j + 1][..j] == styles[..j];
      links := links + found;
    }
    assert styles[..|styles|] == styles;
  }

  /** `_html_links`: the attribute values, then the references of each `<style>` element. */
  method HtmlLinks(r: Response) returns (links: seq<string>)
    ensures links == HtmlLinksOf(r, CssScan.UrlCaptures)
  {
    var attributes := r.hrefs + r.srcs;
    links := [];
    for i := 0 to |attributes|
      invariant links == attributes[..i]
    {
      links := links + [attributes[i]];
    }
    assert links == attributes;
    var styleLinks := StyleLinks(r.styles);
    links := links + styleLinks;
  }

  /** `all_links`: skips every excluded candidate and resolves the others. */
  method AllLinks(r: Response, join: UrlJoin) returns (links: seq<string>)
    ensures links == AllLinksOf(r, join, CssScan.UrlCaptures)
  {
    var css := CssLinks(r);
    var html := HtmlLinks(r);
    links := KeepLinks(r.url, css + html, join);
  }

  /** The loop of `all_links` over the candidates, in order. */
  method KeepLinks(base: string, candidates: seq<string>, join: UrlJoin) returns (links: seq<string>)
    ensures links == Kept(base, candidates, join)
  {
    links := [];
    for i := 0 to |candidates|
      invariant links == Kept(base, candidates[..i], join)
    {
      var uri := candidates[i];
      assert candidates[..i + 1][..i] == candidates[..i];
      if Contains(uri, "linkedin.com") {
        continue;
      }
      if Contains(uri, "amazonaws.com") {
        continue;
      }
      var nextPage := join(base, uri);
      links := links + [nextPage];
    }
    assert candidates[..|candidates|] == candidates;
  }
}
