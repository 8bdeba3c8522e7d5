/** The older forward expander: the pages an article links to, read from
    the `links` array of the first page of a `prop=links` response. */
module NetForward {
  import opened Jdk
  import opened Gson
  import opened UrlEncoder
  import opened LinkArray
  import opened TitleLinks
  import opened WikipediaApi
  import opened NetAbstract

  /** What `generateSuccessors` returns for the downloaded page `jsonText`. A
      failed download happens before the `try` and propagates. */
  function Successors(e: Expander, charsets: set<string>, jsonText: Download): Outcome<seq<string>>
  {
    match jsonText
    case Throw(exc) => Throw(exc)
    case Ok(d) =>
      match ForwardEntries(d)
      case Throw(exc) => CatchInSuccessors(exc, [])
      case Ok(es) =>
        var s := ScanLinks(es, SuccessorLink(e, charsets));
        if s.stopped.Some? then CatchInSuccessors(s.stopped.value, s.links) else Ok(s.links)
  }

  /** `generateSuccessors(articleTitle)`, where `downloadJson(title, forward)`
      stands for the download the expander delegates to. */
  method GenerateSuccessors(e: Expander, charsets: set<string>, articleTitle: string,
                            downloadJson: (string, bool) -> Download)
    returns (r: Outcome<seq<string>>)
    ensures r == Successors(e, charsets, downloadJson(articleTitle, true))
  {
    var linkNameList: seq<string> := [];
    var jsonText := downloadJson(articleTitle, true);
    if jsonText.Throw? {
      return Throw(jsonText.exc);
    }
    var linkArray := ForwardEntries(jsonText.value);
    if linkArray.Throw? {
      return CatchInSuccessors(linkArray.exc, linkNameList);
    }
    var es := linkArray.value;
    ghost var render := SuccessorLink(e, charsets);
    var i := 0;
    while i < |es|
      invariant 0 <= i <= |es|
      invariant ScanLinks(es[..i], render) == Scan(linkNameList, None)
    {
      ScanStep(es, i, render);
      var namespace := Namespace(es[i]);
      if namespace.Throw? {
        ScanStopped(es, i + 1, render);
        return CatchInSuccessors(namespace.exc, linkNameList);
      }
      if namespace.value == 0 {
        var title := Title(es[i]);
        if title.Throw? {
          ScanStopped(es, i + 1, render);
          return CatchInSuccessors(title.exc, linkNameList);
        }
        var encoded := Encode(title.value, Utf8Charset, charsets);
        if encoded.Throw? {
          ScanStopped(es, i + 1, render);
          return Ok([]);
        }
        linkNameList := linkNameList + [FullWikipediaLink(e, ReplacePlus(encoded.value))];
      }
      i := i + 1;
    }
    assert es[..i] == es;
    return Ok(linkNameList);
  }

  /** `isValidNode(node)`: whether `generateSuccessors(node)` is non-empty;
      its exceptions propagate. */
  method IsValidNode(e: Expander, charsets: set<string>, node: string, downloadJson: (string, bool) -> Download)
    returns (r: Outcome<bool>)
    ensures r.Ok? <==> Successors(e, charsets, downloadJson(node, true)).Ok?
    ensures r.Ok? ==> (r.value <==> Successors(e, charsets, downloadJson(node, true)).value != [])
    ensures r.Throw? ==> r.exc == Successors(e, charsets, downloadJson(node, true)).exc
  {
    var successors := GenerateSuccessors(e, charsets, node, downloadJson);
    if successors.Throw? {
      return Throw(successors.exc);
    }
    return Ok(successors.value != []);
  }

  // ---------------------------------------------------------------------------
  // Properties

  /** A page whose link entries all read: the canonical article URL of each
      namespace-0 title, in order. */
  lemma SuccessorsOfPage(e: Expander, charsets: set<string>, root: Members, es: seq<Json>)
    requires Utf8Charset in charsets
    requires ForwardShape(root, es) && AllReadable(es)
    ensures Successors(e, charsets, Ok(Parsed(JObj(root)))) ==
      Ok(CanonicalLinks(ArticlePrefix(e.languageLocaleName), ContentTitles(es)))
  {
    ForwardEntriesOfShape(root, es);
    ScanEncoded(ArticlePrefix(e.languageLocaleName), charsets, es);
  }

  /** A null dereference at entry `k` returns the links of the entries
      before it; any other failure of that entry propagates. */
  lemma SuccessorsStopAtEntry(e: Expander, charsets: set<string>, root: Members, es: seq<Json>, k: nat)
    requires Utf8Charset in charsets
    requires ForwardShape(root, es)
    requires k < |es| && AllReadable(es[..k]) && !Readable(es[k])
    ensures ReadFailure(es[k]).kind == NullPointerException ==>
      Successors(e, charsets, Ok(Parsed(JObj(root)))) ==
        Ok(CanonicalLinks(ArticlePrefix(e.languageLocaleName), ContentTitles(es[..k])))
    ensures ReadFailure(es[k]).kind != NullPointerException ==>
      Successors(e, charsets, Ok(Parsed(JObj(root)))) == Throw(ReadFailure(es[k]))
  {
    ForwardEntriesOfShape(root, es);
    ScanEncodedStops(ArticlePrefix(e.languageLocaleName), charsets, es, k);
    ReadFailureKind(es[k]);
    var failure := ReadFailure(es[k]);
    assert failure.kind != UnsupportedEncodingException;
    assert Successors(e, charsets, Ok(Parsed(JObj(root)))) ==
      CatchInSuccessors(failure, CanonicalLinks(ArticlePrefix(e.languageLocaleName), ContentTitles(es[..k])));
  }

  /** Without UTF-8 the first content title ends the loop with the empty
      list, so no list the expander returns is ever non-empty, and the
      encoding failure never escapes. */
  lemma SuccessorsWithoutUtf8(e: Expander, charsets: set<string>, jsonText: Download)
    requires Utf8Charset !in charsets
    ensures Successors(e, charsets, jsonText).Ok? ==> Successors(e, charsets, jsonText).value == []
    ensures jsonText.Ok? && Successors(e, charsets, jsonText).Throw? ==>
      Successors(e, charsets, jsonText).exc.kind != UnsupportedEncodingException
  {
    if jsonText.Ok? && ForwardEntries(jsonText.value).Ok? {
      ScanWithoutUtf8(ArticlePrefix(e.languageLocaleName), charsets, ForwardEntries(jsonText.value).value);
    }
  }

  /** Without UTF-8, a page whose entries all read gives the empty list: the
      encoding failure of its first kept title is caught and returns `[]`. */
  lemma {:induction false} SuccessorsWithoutUtf8OfPage(e: Expander, charsets: set<string>, root: Members, es: seq<Json>)
    requires Utf8Charset !in charsets
    requires ForwardShape(root, es) && AllReadable(es)
    ensures Successors(e, charsets, Ok(Parsed(JObj(root)))) == Ok([])
  {
    ForwardEntriesOfShape(root, es);
    ScanReadableWithoutUtf8(ArticlePrefix(e.languageLocaleName), charsets, es);
  }

  /** Every link returned is the canonical article URL of the title of a
      namespace-0 entry of the page, at most one per entry. */
  lemma SuccessorsAreCanonicalLinks(e: Expander, charsets: set<string>, d: Decoded, es: seq<Json>, links: seq<string>)
    requires ForwardEntries(d) == Ok(es) && Successors(e, charsets, Ok(d)) == Ok(links)
    ensures |links| <= |es|
    ensures forall link <- links :: LinkOfContentEntry(ArticlePrefix(e.languageLocaleName), es, link)
  {
    ScanEncodedLinks(ArticlePrefix(e.languageLocaleName), charsets, es);
    assert links == [] || links == ScanLinks(es, SuccessorLink(e, charsets)).links;
  }

  /** A blank response, one without `query`, and a first page without a
      `links` array, as the service answers for a missing article, give the
      empty list; so such an article is not a valid node. */
  lemma SuccessorsMissingData(e: Expander, charsets: set<string>, d: Decoded)
    requires
      || d == Blank
      || (d.Parsed? && d.root.JObj? && Lookup(d.root.members, "query") == None)
      || (d.Parsed? && d.root.JObj? && ForwardShapeWithoutLinks(d.root.members))
    ensures Successors(e, charsets, Ok(d)) == Ok([])
  {
    if d.Parsed? && d.root.JObj? && ForwardShapeWithoutLinks(d.root.members) {
      PagesLinkArrayWithoutLinks(d.root.members);
    }
  }

  /** A text that is not a JSON object is not caught. */
  lemma SuccessorsMalformed(e: Expander, charsets: set<string>, d: Decoded)
    requires d == Malformed || (d.Parsed? && !d.root.JObj?)
    ensures Successors(e, charsets, Ok(d)) == Throw(Fail(JsonSyntaxException))
  {
  }
}
