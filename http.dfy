/** The requests and responses the crawl engine exchanges with the link checker. */
module Http {

  /** The only two methods the link checker ever uses. */
  datatype Method = HEAD | GET

  /** A completed fetch, as the link checker reads it.
      `contentTypes` holds every value of the `content-type` header, as header
      text (without the `b'…'` that Python 3's `str()` adds); `text` is the decoded body (empty for a HEAD);
      `hrefs`, `srcs` and `styles` are what the HTML selectors return: every
      `href` attribute value, every `src` attribute value and the outer markup
      of every `<style>` element, each in document order. */
  datatype Response = Response(
    url: string,
    status: int,
    contentTypes: seq<string>,
    requestMethod: Method,
    text: string,
    hrefs: seq<string>,
    srcs: seq<string>,
    styles: seq<string>)
}
