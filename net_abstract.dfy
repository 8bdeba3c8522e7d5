/** The shared part of the older (`net.coderodde`) expanders: the article
    URL, `baseGetNeighbors`, and the two extractors whose `catch (NullPointerException)` returns the
    list collected so far. */
module NetAbstract {
  import opened Jdk
  import opened Gson
  import opened UrlEncoder
  import opened LinkArray
  import opened TitleLinks
  import opened WikipediaApi

  const IoErrorPrefix: string := "[I/O ERROR] Failed loading the JSON data from the Wikipedia API: "

  /** `constructFullWikipediaLink`. */
  function FullWikipediaLink(e: Expander, title: string): string
  {
    "https://" + e.languageLocaleName + ".wikipedia.org/wiki/" + title
  }

  /** `catch (NullPointerException ex) { return linkNameList; }`. */
  function CatchNullPointer(exc: Exc, collected: seq<string>): Outcome<seq<string>>
  {
    if exc.kind == NullPointerException then Ok(collected) else Throw(exc)
  }

  /** What an extractor returns once its loop has reached state `s`. */
  function Finish(s: Scan): Outcome<seq<string>>
  {
    if s.stopped.Some? then CatchNullPointer(s.stopped.value, s.links) else Ok(s.links)
  }

  // ---------------------------------------------------------------------------
  // extractForwardLinkTitles

  /** The forward walk of `extractForwardLinkTitles`, which also reads
      `pagesObject.getAsJsonArray("links")` into a variable it never uses. */
  function ForwardLinkArray(d: Decoded): Outcome<seq<Json>>
  {
    var root :- FromJson(d);
    var query :- Get(root, "query");
    var queryObject :- AsJsonObject(query);
    var pages :- GetAsJsonObject(Some(queryObject), "pages");
    var unused :- GetAsJsonArray(pages, "links");
    var idElement :- FirstValue(pages);
    var idObject :- AsJsonObject(idElement);
    var links :- GetAsJsonArray(Some(idObject), "links");
    Elements(links)
  }

  /** The unused `pagesObject.getAsJsonArray("links")` succeeds: the pages
      object has no `links` member, or an array there. */
  predicate UnusedLinksRead(pages: Members)
  {
    Lookup(pages, "links").None? || Lookup(pages, "links").value.JArr?
  }

  /** Titles are collected as they are. */
  function RawTitle(): string -> Outcome<string>
  {
    t => Ok(t)
  }

  /** The result of `extractForwardLinkTitles(jsonText)`. */
  function ForwardLinkTitles(d: Decoded): Outcome<seq<string>>
  {
    match ForwardLinkArray(d)
    case Throw(exc) => CatchNullPointer(exc, [])
    case Ok(es) => Finish(ScanLinks(es, RawTitle()))
  }

  method ExtractForwardLinkTitles(d: Decoded) returns (r: Outcome<seq<string>>)
    ensures r == ForwardLinkTitles(d)
  {
    var linkNameList: seq<string> := [];
    var linkArray := ForwardLinkArray(d);
    if linkArray.Throw? {
      return CatchNullPointer(linkArray.exc, linkNameList);
    }
    var es := linkArray.value;
    var i := 0;
    while i < |es|
      invariant 0 <= i <= |es|
      invariant ScanLinks(es[..i], RawTitle()) == Scan(linkNameList, None)
    {
      ScanStep(es, i, RawTitle());
      match Visit(es[i], RawTitle()) {
        case Throw(exc) =>
          ScanStopped(es, i + 1, RawTitle());
          return CatchNullPointer(exc, linkNameList);
        case Ok(None) =>
        case Ok(Some(title)) =>
          linkNameList := linkNameList + [title];
      }
      i := i + 1;
    }
    assert es[..i] == es;
    return Ok(linkNameList);
  }

  /** A forward page whose pages object has no `links` member other than an
      array (as page ids never are) and whose entries all read: the titles of the
      namespace-0 entries, raw and in order. */
  lemma ForwardTitlesOfPage(root: Members, es: seq<Json>)
    requires ForwardShape(root, es) && UnusedLinksRead(PagesObject(root).value)
    requires AllReadable(es)
    ensures ForwardLinkTitles(Parsed(JObj(root))) == Ok(ContentTitles(es))
  {
    assert ForwardLinkArray(Parsed(JObj(root))) == Ok(es);
    ScanReadable(es, RawTitle(), t => t);
    MapIdentity(ContentTitles(es));
  }

  /** A null dereference at entry `k` (a missing `ns`, or a missing `title`
      on a namespace-0 entry) returns the titles collected before it; any
      other failure there propagates. */
  lemma ForwardTitlesStopAtEntry(root: Members, es: seq<Json>, k: nat)
    requires ForwardShape(root, es) && UnusedLinksRead(PagesObject(root).value)
    requires k < |es| && AllReadable(es[..k]) && !Readable(es[k])
    ensures ReadFailure(es[k]).kind == NullPointerException ==>
      ForwardLinkTitles(Parsed(JObj(root))) == Ok(ContentTitles(es[..k]))
    ensures ReadFailure(es[k]).kind != NullPointerException ==>
      ForwardLinkTitles(Parsed(JObj(root))) == Throw(ReadFailure(es[k]))
  {
    assert ForwardLinkArray(Parsed(JObj(root))) == Ok(es);
    ScanStopsAtFirstUnreadable(es, k, RawTitle(), t => t);
    MapIdentity(ContentTitles(es[..k]));
  }

  /** A page without a `links` array, a response without `query`, and a
      blank text all give the empty list. */
  lemma ForwardTitlesMissingData(d: Decoded)
    requires
      || d == Blank
      || (d.Parsed? && d.root.JObj? && Lookup(d.root.members, "query") == None)
      || (d.Parsed? && d.root.JObj? && ForwardShapeWithoutLinks(d.root.members)
          && UnusedLinksRead(PagesObject(d.root.members).value))
    ensures ForwardLinkTitles(d) == Ok([])
  {
  }

  /** An empty `pages` object is not caught: `NoSuchElementException`. */
  lemma ForwardTitlesNoPages(root: Members, query: Members)
    requires Lookup(root, "query") == Some(JObj(query)) && Lookup(query, "pages") == Some(JObj([]))
    ensures ForwardLinkTitles(Parsed(JObj(root))) == Throw(Fail(NoSuchElementException))
  {
  }

  // ---------------------------------------------------------------------------
  // extractBackwardLinkTitles

  /** Backlink titles become article URLs, without encoding. */
  function LinkOf(e: Expander): string -> Outcome<string>
  {
    t => Ok(FullWikipediaLink(e, t))
  }

  /** The result of `extractBackwardLinkTitles(jsonText)`. */
  function BackwardLinkTitles(e: Expander, d: Decoded): Outcome<seq<string>>
  {
    match BackwardEntries(d)
    case Throw(exc) => CatchNullPointer(exc, [])
    case Ok(es) => Finish(ScanLinks(es, LinkOf(e)))
  }

  method ExtractBackwardLinkTitles(e: Expander, d: Decoded) returns (r: Outcome<seq<string>>)
    ensures r == BackwardLinkTitles(e, d)
  {
    var linkNameList: seq<string> := [];
    var pagesArray := BackwardEntries(d);
    if pagesArray.Throw? {
      return CatchNullPointer(pagesArray.exc, linkNameList);
    }
    var es := pagesArray.value;
    var i := 0;
    while i < |es|
      invariant 0 <= i <= |es|
      invariant ScanLinks(es[..i], LinkOf(e)) == Scan(linkNameList, None)
    {
      ScanStep(es, i, LinkOf(e));
      match Visit(es[i], LinkOf(e)) {
        case Throw(exc) =>
          ScanStopped(es, i + 1, LinkOf(e));
          return CatchNullPointer(exc, linkNameList);
        case Ok(None) =>
        case Ok(Some(link)) =>
          linkNameList := linkNameList + [link];
      }
      i := i + 1;
    }
    assert es[..i] == es;
    return Ok(linkNameList);
  }

  /** Readable backlinks give, in order, the article URL of each namespace-0
      title, the title appended unencoded. */
  lemma BackwardTitlesOfPage(e: Expander, root: Members, es: seq<Json>)
    requires BackwardShape(root, es)
    requires AllReadable(es)
    ensures BackwardLinkTitles(e, Parsed(JObj(root))) ==
      Ok(Map(t => "https://" + e.languageLocaleName + ".wikipedia.org/wiki/" + t, ContentTitles(es)))
  {
    assert BackwardEntries(Parsed(JObj(root))) == Ok(es);
    ScanReadable(es, LinkOf(e), t => "https://" + e.languageLocaleName + ".wikipedia.org/wiki/" + t);
  }

  /** As for the forward extractor, a null dereference at entry `k` keeps
      the prefix and any other failure propagates. */
  lemma BackwardTitlesStopAtEntry(e: Expander, root: Members, es: seq<Json>, k: nat)
    requires BackwardShape(root, es)
    requires k < |es| && AllReadable(es[..k]) && !Readable(es[k])
    ensures ReadFailure(es[k]).kind == NullPointerException ==>
      BackwardLinkTitles(e, Parsed(JObj(root))) == Ok(Map(t => FullWikipediaLink(e, t), ContentTitles(es[..k])))
    ensures ReadFailure(es[k]).kind != NullPointerException ==>
      BackwardLinkTitles(e, Parsed(JObj(root))) == Throw(ReadFailure(es[k]))
  {
    assert BackwardEntries(Parsed(JObj(root))) == Ok(es);
    ScanStopsAtFirstUnreadable(es, k, LinkOf(e), t => FullWikipediaLink(e, t));
  }

  /** A response without `query` or without `backlinks`, or a blank text,
      gives the empty list. */
  lemma BackwardTitlesMissingData(e: Expander, d: Decoded)
    requires
      || d == Blank
      || (d.Parsed? && d.root.JObj? && Lookup(d.root.members, "query") == None)
      || (d.Parsed? && d.root.JObj? && ObjectMember(d.root.members, "query").Some?
          && Lookup(ObjectMember(d.root.members, "query").value, "backlinks") == None)
    ensures BackwardLinkTitles(e, d) == Ok([])
  {
  }

  /** `extractForwardLinkTitles` returns at most one title per array entry,
      each the title of a namespace-0 entry. */
  lemma ForwardTitlesProvenance(d: Decoded, es: seq<Json>, titles: seq<string>)
    requires ForwardLinkArray(d) == Ok(es) && ForwardLinkTitles(d) == Ok(titles)
    ensures |titles| <= |es|
    ensures forall t <- titles :: RenderedFromContentEntry(es, RawTitle(), t)
  {
    ScanProvenance(es, RawTitle());
    assert titles == ScanLinks(es, RawTitle()).links;
  }

  /** `link` is the article URL of the title of a namespace-0 entry of `es`. */
  predicate LinkToContentEntry(e: Expander, es: seq<Json>, link: string)
  {
    exists i :: 0 <= i < |es| && Namespace(es[i]) == Ok(0) && Title(es[i]).Ok? &&
                link == FullWikipediaLink(e, Title(es[i]).value)
  }

  /** `extractBackwardLinkTitles` returns at most one link per array entry,
      each the article URL of the title of a namespace-0 entry. */
  lemma BackwardTitlesProvenance(e: Expander, d: Decoded, es: seq<Json>, links: seq<string>)
    requires BackwardEntries(d) == Ok(es) && BackwardLinkTitles(e, d) == Ok(links)
    ensures |links| <= |es|
    ensures forall link <- links :: LinkToContentEntry(e, es, link)
  {
    ScanProvenance(es, LinkOf(e));
    assert links == ScanLinks(es, LinkOf(e)).links;
    forall link <- links
      ensures LinkToContentEntry(e, es, link)
    {
      var i :| 0 <= i < |es| && Namespace(es[i]) == Ok(0) && Title(es[i]).Ok? &&
               LinkOf(e)(Title(es[i]).value) == Ok(link);
    }
  }

  lemma MapIdentity(ts: seq<string>)
    ensures Map(t => t, ts) == ts
  {
  }

  // ---------------------------------------------------------------------------
  // baseGetNeighbors

  /** `baseGetNeighbors(articleName, languageLocaleName, forward)` against a
      server answering each URL with `server(url)`. An
      `UnsupportedEncodingException` and an `IOException` of the download
      each become an `IllegalStateException`; the other download failures
      propagate; the page then goes to the extractor of the direction. */
  method BaseGetNeighbors(e: Expander, charsets: set<string>, articleName: string, forward: bool,
                          server: string -> Download)
    returns (r: Outcome<seq<string>>)
    ensures r == BaseNeighbors(e, charsets, articleName, forward, server)
    ensures Utf8Charset !in charsets ==>
      r == Throw(Exc(IllegalStateException, Utf8Charset, Some(Exc(UnsupportedEncodingException, Utf8Charset, None))))
    ensures Utf8Charset in charsets ==>
      var jsonText := server(RequestUrl(e.apiUrl, forward, FormEncode(articleName)));
      && (jsonText.Throw? && IsIOException(jsonText.exc) ==>
            r == Throw(Exc(IllegalStateException, IoErrorPrefix + jsonText.exc.message, Some(jsonText.exc))))
      && (jsonText.Throw? && !IsIOException(jsonText.exc) ==> r == Throw(jsonText.exc))
      && (jsonText.Ok? && forward ==> r == ForwardLinkTitles(jsonText.value))
      && (jsonText.Ok? && !forward ==> r == BackwardLinkTitles(e, jsonText.value))
  {
    var encoded := Encode(articleName, Utf8Charset, charsets);
    if encoded.Throw? {
      return Throw(Exc(IllegalStateException, encoded.exc.message, Some(encoded.exc)));
    }
    var jsonDataUrl := RequestUrl(e.apiUrl, forward, encoded.value);
    var jsonText := server(jsonDataUrl);
    if jsonText.Throw? {
      if IsIOException(jsonText.exc) {
        return Throw(Exc(IllegalStateException, IoErrorPrefix + jsonText.exc.message, Some(jsonText.exc)));
      }
      return Throw(jsonText.exc);
    }
    if forward {
      r := ExtractForwardLinkTitles(jsonText.value);
    } else {
      r := ExtractBackwardLinkTitles(e, jsonText.value);
    }
  }

  /** What `baseGetNeighbors` returns. */
  function BaseNeighbors(e: Expander, charsets: set<string>, articleName: string, forward: bool,
                         server: string -> Download): Outcome<seq<string>>
  {
    match Encode(articleName, Utf8Charset, charsets)
    case Throw(exc) => Throw(Exc(IllegalStateException, exc.message, Some(exc)))
    case Ok(encoded) =>
      match server(RequestUrl(e.apiUrl, forward, encoded))
      case Throw(exc) =>
        if IsIOException(exc) then Throw(Exc(IllegalStateException, IoErrorPrefix + exc.message, Some(exc)))
        else Throw(exc)
      case Ok(d) => if forward then ForwardLinkTitles(d) else BackwardLinkTitles(e, d)
  }

  /** The page `baseGetNeighbors` asks for is the form-encoded title placed
      in the template of its direction. */
  lemma BaseNeighborsRequest(e: Expander, charsets: set<string>, articleName: string, forward: bool,
                             server: string -> Download)
    requires Utf8Charset in charsets
    ensures BaseNeighbors(e, charsets, articleName, forward, server) ==
      match server(RequestUrl(e.apiUrl, forward, FormEncode(articleName)))
      case Throw(exc) =>
        if IsIOException(exc) then Throw(Exc(IllegalStateException, IoErrorPrefix + exc.message, Some(exc)))
        else Throw(exc)
      case Ok(d) => if forward then ForwardLinkTitles(d) else BackwardLinkTitles(e, d)
  {
  }

  // ---------------------------------------------------------------------------
  // What both subclasses' `generateSuccessors` do with a kept title

  /** `constructFullWikipediaLink(URLEncoder.encode(title, "UTF-8").replace("+", "_"))`,
      written with the shared `ArticlePrefix`; `SuccessorLinkIsFullLink`
      shows it is the net abstract class's `constructFullWikipediaLink`. */
  function SuccessorLink(e: Expander, charsets: set<string>): string -> Outcome<string>
  {
    EncodedLink(ArticlePrefix(e.languageLocaleName), charsets)
  }

  lemma FullWikipediaLinkIsPrefixed(e: Expander, title: string)
    ensures FullWikipediaLink(e, title) == ArticlePrefix(e.languageLocaleName) + title
  {
  }

  /** A kept title's link is the encoding failure, or `FullWikipediaLink` of
      the encoded title with `+` replaced by `_`. */
  lemma SuccessorLinkIsFullLink(e: Expander, charsets: set<string>, title: string)
    ensures SuccessorLink(e, charsets)(title) ==
      match Encode(title, Utf8Charset, charsets)
      case Throw(exc) => Throw(exc)
      case Ok(encoded) => Ok(FullWikipediaLink(e, ReplacePlus(encoded)))
  {
    if Utf8Charset in charsets {
      FullWikipediaLinkIsPrefixed(e, ReplacePlus(FormEncode(title)));
    }
  }

  /** The two handlers of `generateSuccessors`: the encoding failure returns
      the empty list, a null dereference the list collected so far. */
  function CatchInSuccessors(exc: Exc, collected: seq<string>): Outcome<seq<string>>
  {
    if exc.kind == UnsupportedEncodingException then Ok([])
    else if exc.kind == NullPointerException then Ok(collected)
    else Throw(exc)
  }
}
