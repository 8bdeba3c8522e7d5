/** The newer forward expander: one `prop=links` download, the `links` array
    of its first page, and a `catch (Exception)` that turns every failure
    into a `RuntimeException` naming the article, with no partial list. */
module ComForward {
  import opened Jdk
  import opened Gson
  import opened UrlEncoder
  import opened LinkArray
  import opened TitleLinks
  import opened WikipediaApi
  import opened ComAbstract

  const ForwardFailureFormat: string := "Forward article \"" + "%s" + "\" failed to expand."

  /** The exception the `catch` throws for `articleTitle` and its cause. */
  function Wrap(articleTitle: string, cause: Exc): Exc
  {
    Exc(RuntimeException, "Forward article \"" + articleTitle + "\" failed to expand.", Some(cause))
  }

  /** The message of the wrapping exception is
      `String.format("Forward article \"%s\" failed to expand.", articleTitle)`. */
  lemma {:induction false} WrapIsFormatted(articleTitle: string, cause: Exc)
    ensures Conforms(ForwardFailureFormat, 1)
    ensures Wrap(articleTitle, cause) ==
      Exc(RuntimeException, Format(ForwardFailureFormat, [articleTitle]), Some(cause))
  {
    FormatOne("Forward article \"", "\" failed to expand.", articleTitle);
  }

  /** The body of the `try`, before the `catch` turns its failure into a
      `RuntimeException`. */
  function Expand(e: Expander, charsets: set<string>, articleTitle: string, server: string -> Download)
    : Outcome<seq<string>>
  {
    var jsonText :- DownloadJson(e, charsets, articleTitle, true, server);
    var es :- ForwardEntries(jsonText);
    var s := ScanLinks(es, EncodedLink(ArticlePrefix(e.languageLocaleName), charsets));
    if s.stopped.Some? then Throw(s.stopped.value) else Ok(s.links)
  }

  lemma {:induction false} ExpandOfEntries(e: Expander, charsets: set<string>, articleTitle: string, server: string -> Download,
                        d: Decoded, es: seq<Json>)
    requires DownloadJson(e, charsets, articleTitle, true, server) == Ok(d) && ForwardEntries(d) == Ok(es)
    ensures Neighbors(e, charsets, false, articleTitle, server) ==
      var s := ScanLinks(es, EncodedLink(ArticlePrefix(e.languageLocaleName), charsets));
      if s.stopped.Some? then Throw(Wrap(articleTitle, s.stopped.value)) else Ok(s.links)
  {
  }

  /** What `getNeighbors(articleTitle)` returns; `closed` is the flag it
      tests first. */
  function Neighbors(e: Expander, charsets: set<string>, closed: bool, articleTitle: string,
                     server: string -> Download): Outcome<seq<string>>
  {
    if closed then Ok([])
    else
      match Expand(e, charsets, articleTitle, server)
      case Throw(exc) => Throw(Wrap(articleTitle, exc))
      case Ok(links) => Ok(links)
  }

  method GetNeighbors(e: Expander, charsets: set<string>, closed: bool, articleTitle: string,
                      server: string -> Download)
    returns (r: Outcome<seq<string>>)
    ensures r == Neighbors(e, charsets, closed, articleTitle, server)
  {
    if closed {
      return Ok([]);
    }
    var jsonText := DownloadJson(e, charsets, articleTitle, true, server);
    if jsonText.Throw? {
      return Throw(Wrap(articleTitle, jsonText.exc));
    }
    var linkArray := ForwardEntries(jsonText.value);
    if linkArray.Throw? {
      return Throw(Wrap(articleTitle, linkArray.exc));
    }
    var es := linkArray.value;
    ExpandOfEntries(e, charsets, articleTitle, server, jsonText.value, es);
    var linkNameList, stopped := CollectLinks(e, charsets, es);
    if stopped.Some? {
      return Throw(Wrap(articleTitle, stopped.value));
    }
    return Ok(linkNameList);
  }

  /** `isValidNode(node)`: whether `getNeighbors(node)` is non-empty; its
      exception propagates. */
  method IsValidNode(e: Expander, charsets: set<string>, closed: bool, node: string, server: string -> Download)
    returns (r: Outcome<bool>)
    ensures r.Ok? <==> Neighbors(e, charsets, closed, node, server).Ok?
    ensures r.Ok? ==> (r.value <==> Neighbors(e, charsets, closed, node, server).value != [])
    ensures r.Throw? ==> r.exc == Neighbors(e, charsets, closed, node, server).exc
  {
    var neighbors := GetNeighbors(e, charsets, closed, node, server);
    if neighbors.Throw? {
      return Throw(neighbors.exc);
    }
    return Ok(neighbors.value != []);
  }

  // ---------------------------------------------------------------------------
  // Properties

  /** The URL of the one download: the forward template with the
      form-encoded title. */
  function ForwardUrl(e: Expander, articleTitle: string): string
  {
    e.apiUrl + "?action=query&titles=" + FormEncode(articleTitle) + "&prop=links&pllimit=max&format=json"
  }

  /** A closed expander answers the empty list whatever the server would
      have said, so it downloads nothing. */
  lemma {:induction false} ClosedDownloadsNothing(e: Expander, charsets: set<string>, articleTitle: string,
                               server1: string -> Download, server2: string -> Download)
    ensures Neighbors(e, charsets, true, articleTitle, server1) == Neighbors(e, charsets, true, articleTitle, server2) == Ok([])
  {
  }

  /** An open expander's answer depends on the server only through its
      answer to the forward URL of the title. */
  lemma {:induction false} OneForwardDownload(e: Expander, charsets: set<string>, articleTitle: string,
                           server1: string -> Download, server2: string -> Download)
    requires Utf8Charset in charsets
    requires server1(ForwardUrl(e, articleTitle)) == server2(ForwardUrl(e, articleTitle))
    ensures Neighbors(e, charsets, false, articleTitle, server1) == Neighbors(e, charsets, false, articleTitle, server2)
  {
    assert DownloadJson(e, charsets, articleTitle, true, server1) == DownloadJson(e, charsets, articleTitle, true, server2);
  }

  /** A page whose link entries all read: the canonical article URL of each
      namespace-0 title, in order. */
  lemma {:induction false} NeighborsOfPage(e: Expander, charsets: set<string>, articleTitle: string, server: string -> Download,
                        root: Members, es: seq<Json>)
    requires Utf8Charset in charsets
    requires server(ForwardUrl(e, articleTitle)) == Ok(Parsed(JObj(root)))
    requires ForwardShape(root, es) && AllReadable(es)
    ensures Neighbors(e, charsets, false, articleTitle, server) ==
      Ok(CanonicalLinks(ArticlePrefix(e.languageLocaleName), ContentTitles(es)))
  {
    ForwardEntriesOfShape(root, es);
    ScanEncoded(ArticlePrefix(e.languageLocaleName), charsets, es);
  }

  /** The first entry that does not read ends the expansion with its
      exception wrapped; the links before it are discarded. */
  lemma {:induction false} NeighborsStopAtEntry(e: Expander, charsets: set<string>, articleTitle: string, server: string -> Download,
                             root: Members, es: seq<Json>, k: nat)
    requires Utf8Charset in charsets
    requires server(ForwardUrl(e, articleTitle)) == Ok(Parsed(JObj(root)))
    requires ForwardShape(root, es)
    requires k < |es| && AllReadable(es[..k]) && !Readable(es[k])
    ensures Neighbors(e, charsets, false, articleTitle, server) == Throw(Wrap(articleTitle, ReadFailure(es[k])))
  {
    ForwardEntriesOfShape(root, es);
    ScanEncodedStops(ArticlePrefix(e.languageLocaleName), charsets, es, k);
  }

  /** A first page without `links`, as the service answers for an article
      that does not exist, is a wrapped null dereference. The tests expect
      an exception for a made-up title. */
  lemma {:induction false} MissingArticleThrows(e: Expander, charsets: set<string>, articleTitle: string, server: string -> Download,
                             root: Members)
    requires Utf8Charset in charsets
    requires server(ForwardUrl(e, articleTitle)) == Ok(Parsed(JObj(root))) && ForwardShapeWithoutLinks(root)
    ensures Neighbors(e, charsets, false, articleTitle, server) == Throw(Wrap(articleTitle, Fail(NullPointerException)))
  {
    PagesLinkArrayWithoutLinks(root);
    assert ForwardEntries(Parsed(JObj(root))) == Throw(Fail(NullPointerException));
    assert Expand(e, charsets, articleTitle, server) == Throw(Fail(NullPointerException));
  }

  /** So is a blank response. */
  lemma {:induction false} BlankResponseThrows(e: Expander, charsets: set<string>, articleTitle: string, server: string -> Download)
    requires Utf8Charset in charsets
    requires server(ForwardUrl(e, articleTitle)) == Ok(Blank)
    ensures Neighbors(e, charsets, false, articleTitle, server) == Throw(Wrap(articleTitle, Fail(NullPointerException)))
  {
  }

  /** Without UTF-8 every open expansion fails, at the download. */
  lemma {:induction false} WithoutUtf8Throws(e: Expander, charsets: set<string>, articleTitle: string, server: string -> Download)
    requires Utf8Charset !in charsets
    ensures Neighbors(e, charsets, false, articleTitle, server) ==
      Throw(Wrap(articleTitle, Exc(UnsupportedEncodingException, "UTF-8", None)))
  {
  }

  /** Every failure is a `RuntimeException` naming the article, caused by
      what the `try` raised. */
  lemma {:induction false} FailuresNameTheArticle(e: Expander, charsets: set<string>, closed: bool, articleTitle: string,
                               server: string -> Download)
    requires Neighbors(e, charsets, closed, articleTitle, server).Throw?
    ensures !closed
    ensures Neighbors(e, charsets, closed, articleTitle, server).exc ==
      Exc(RuntimeException, "Forward article \"" + articleTitle + "\" failed to expand.",
          Some(Expand(e, charsets, articleTitle, server).exc))
  {
  }

  /** Every link returned is the canonical article URL of the title of a
      namespace-0 entry of the page, at most one per entry. */
  lemma {:induction false} NeighborsAreCanonicalLinks(e: Expander, charsets: set<string>, articleTitle: string, server: string -> Download,
                                   d: Decoded, es: seq<Json>, links: seq<string>)
    requires Utf8Charset in charsets
    requires server(ForwardUrl(e, articleTitle)) == Ok(d) && ForwardEntries(d) == Ok(es)
    requires Neighbors(e, charsets, false, articleTitle, server) == Ok(links)
    ensures |links| <= |es|
    ensures forall link <- links :: LinkOfContentEntry(ArticlePrefix(e.languageLocaleName), es, link)
  {
    assert DownloadJson(e, charsets, articleTitle, true, server) == Ok(d);
    ExpandOfEntries(e, charsets, articleTitle, server, d, es);
    ScanEncodedLinks(ArticlePrefix(e.languageLocaleName), charsets, es);
  }

  /** Every link returned starts with the article prefix of the expander's
      language, and what follows holds no space and no `+`. */
  lemma {:induction false} NeighborsAreArticleLinks(e: Expander, charsets: set<string>, articleTitle: string,
                                                    server: string -> Download, links: seq<string>)
    requires Neighbors(e, charsets, false, articleTitle, server) == Ok(links)
    ensures forall link <- links :: IsArticleLink(ArticlePrefix(e.languageLocaleName), link)
  {
    var d := DownloadJson(e, charsets, articleTitle, true, server).value;
    var es := ForwardEntries(d).value;
    ExpandOfEntries(e, charsets, articleTitle, server, d, es);
    ScanArticleLinks(ArticlePrefix(e.languageLocaleName), charsets, es);
  }
}
