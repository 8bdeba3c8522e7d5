/** The newer backward expander: `list=backlinks` pages downloaded one after
    another, each but the last carrying the cursor of the next under
    `continue.blcontinue`; every failure on any page becomes an `Exception`
    naming the article, with no partial list. */
module ComBackward {
  import opened Jdk
  import opened Gson
  import opened UrlEncoder
  import opened LinkArray
  import opened TitleLinks
  import opened WikipediaApi
  import opened ComAbstract

  const BackwardFailureFormat: string := "Backward article \"" + "%s" + "\" failed to expand."

  /** The exception the `catch` throws for `articleTitle` and its cause. */
  function Wrap(articleTitle: string, cause: Exc): Exc
  {
    Exc(Exception, "Backward article \"" + articleTitle + "\" failed to expand.", Some(cause))
  }

  /** The message of the wrapping exception is
      `String.format("Backward article \"%s\" failed to expand.", articleTitle)`. */
  lemma WrapIsFormatted(articleTitle: string, cause: Exc)
    ensures Conforms(BackwardFailureFormat, 1)
    ensures Wrap(articleTitle, cause) ==
      Exc(Exception, Format(BackwardFailureFormat, [articleTitle]), Some(cause))
  {
    FormatOne("Backward article \"", "\" failed to expand.", articleTitle);
  }

  /** `downloadJson(articleTitle, false, continuationCode)`: the expander
      hands the cursor to a download whose URL building is not part of this
      model, so the download is an input. */
  type Downloader = (string, bool, Option<string>) -> Download

  /** What one page contributes: its links, and the cursor of the next
      download, or `None` when the page has no `continue` member. */
  datatype Page = Page(links: seq<string>, next: Option<string>)

  /** The `continue` member: none ends the loop; otherwise
      `getAsJsonObject().get("blcontinue").getAsString()` is the cursor. */
  function ContinuationCode(continueElement: Option<Json>): (r: Outcome<Option<string>>)
    ensures continueElement.None? ==> r == Ok(None)
    ensures continueElement.Some? && r.Ok? ==> r.value.Some?
  {
    match continueElement
    case None => Ok(None)
    case Some(c) =>
      var continueJsonObject :- AsJsonObject(Some(c));
      var s :- AsString(Lookup(continueJsonObject, "blcontinue"));
      Ok(Some(s))
  }

  /** One pass of the `while (true)` body over a downloaded page, in the
      order of the source: parse, `query`, `continue` (a lookup on the root,
      which cannot fail once `query` was looked up), `backlinks`, the
      entries. */
  function ReadPage(e: Expander, charsets: set<string>, d: Decoded): Outcome<Page>
  {
    var root :- FromJson(d);
    var queryElement :- Get(root, "query");
    var next :- ContinuationCode(Lookup(root.value, "continue"));
    var es :- BacklinkArray(queryElement);
    var s := ScanLinks(es, EncodedLink(ArticlePrefix(e.languageLocaleName), charsets));
    if s.stopped.Some? then Throw(s.stopped.value) else Ok(Page(s.links, next))
  }

  /** The download with `cursor` and the pass over its page. */
  function Fetch(e: Expander, charsets: set<string>, articleTitle: string, downloadJson: Downloader,
                 cursor: Option<string>): Outcome<Page>
  {
    var d :- downloadJson(articleTitle, false, cursor);
    ReadPage(e, charsets, d)
  }

  /** The downloads and passes of one expansion, as a function of the
      cursor handed to the download. */
  type PageSource = Option<string> -> Outcome<Page>

  function Pages(e: Expander, charsets: set<string>, articleTitle: string, downloadJson: Downloader): PageSource
  {
    cursor => Fetch(e, charsets, articleTitle, downloadJson, cursor)
  }

  /** How a run of the loop ends (`None` when it has not ended within the
      downloads allowed), and the cursor of each download it made. */
  datatype Run = Run(result: Option<Outcome<seq<string>>>, cursors: seq<Option<string>>)

  /** `links` collected before `r`. */
  function Prepend(links: seq<string>, r: Option<Outcome<seq<string>>>): Option<Outcome<seq<string>>>
  {
    match r
    case Some(Ok(rest)) => Some(Ok(links + rest))
    case _ => r
  }

  /** The loop from a download with `cursor`, allowed `fuel` more downloads,
      before the `catch` wraps its failure. */
  function Expand(fetch: PageSource, cursor: Option<string>, fuel: nat): Run
    decreases fuel
  {
    if fuel == 0 then Run(None, [])
    else
      match fetch(cursor)
      case Throw(exc) => Run(Some(Throw(exc)), [cursor])
      case Ok(page) =>
        if page.next.None? then Run(Some(Ok(page.links)), [cursor])
        else
          var rest := Expand(fetch, page.next, fuel - 1);
          Run(Prepend(page.links, rest.result), [cursor] + rest.cursors)
  }

  /** What `getNeighbors(articleTitle)` returns, when it returns within
      `fuel` downloads. */
  function Neighbors(e: Expander, charsets: set<string>, articleTitle: string, downloadJson: Downloader, fuel: nat)
    : Option<Outcome<seq<string>>>
  {
    match Expand(Pages(e, charsets, articleTitle, downloadJson), None, fuel).result
    case None => None
    case Some(Throw(exc)) => Some(Throw(Wrap(articleTitle, exc)))
    case Some(Ok(links)) => Some(Ok(links))
  }

  // The loop's state against what is left of the run.

  /** The whole run, seen from a loop that has collected `links` and made the
      downloads `requests`, and whose remaining run is `rest`. */
  function Resume(links: seq<string>, requests: seq<Option<string>>, rest: Run): Run
  {
    Run(Prepend(links, rest.result), requests + rest.cursors)
  }

  lemma ResumeNothing(run: Run)
    ensures Resume([], [], run) == run
  {
    assert [] + run.cursors == run.cursors;
    match run.result
    case Some(Ok(links)) =>
      assert [] + links == links;
    case _ =>
  }

  lemma ResumeStop(fetch: PageSource, cursor: Option<string>, fuel: nat, links: seq<string>, requests: seq<Option<string>>, exc: Exc)
    requires fuel > 0 && fetch(cursor) == Throw(exc)
    ensures Resume(links, requests, Expand(fetch, cursor, fuel)) ==
      Run(Some(Throw(exc)), requests + [cursor])
  {
  }

  lemma ResumeExit(fetch: PageSource, cursor: Option<string>, fuel: nat, links: seq<string>, requests: seq<Option<string>>, page: Page)
    requires fuel > 0 && fetch(cursor) == Ok(page) && page.next.None?
    ensures Resume(links, requests, Expand(fetch, cursor, fuel)) ==
      Run(Some(Ok(links + page.links)), requests + [cursor])
  {
  }

  lemma ResumeContinue(fetch: PageSource, cursor: Option<string>, fuel: nat, links: seq<string>, requests: seq<Option<string>>, page: Page)
    requires fuel > 0 && fetch(cursor) == Ok(page) && page.next.Some?
    ensures Resume(links, requests, Expand(fetch, cursor, fuel)) ==
      Resume(links + page.links, requests + [cursor], Expand(fetch, page.next, fuel - 1))
  {
    var rest := Expand(fetch, page.next, fuel - 1);
    assert requests + ([cursor] + rest.cursors) == requests + [cursor] + rest.cursors;
    match rest.result
    case Some(Ok(more)) =>
      assert links + (page.links + more) == links + page.links + more;
    case _ =>
  }

  /** `fetch` answers every cursor as the downloads and passes do. */
  ghost predicate Serves(fetch: PageSource, e: Expander, charsets: set<string>, articleTitle: string,
                         downloadJson: Downloader)
  {
    forall cursor {:trigger Fetch(e, charsets, articleTitle, downloadJson, cursor)} ::
      fetch(cursor) == Fetch(e, charsets, articleTitle, downloadJson, cursor)
  }

  lemma PagesServe(e: Expander, charsets: set<string>, articleTitle: string, downloadJson: Downloader)
    ensures Serves(Pages(e, charsets, articleTitle, downloadJson), e, charsets, articleTitle, downloadJson)
  {
  }

  /** `getNeighbors(articleTitle)`, allowed `fuel` downloads: `r` is `None`
      when the loop has not returned by then. `requests` are the cursors
      handed to the downloads, in order. */
  method GetNeighbors(e: Expander, charsets: set<string>, articleTitle: string, downloadJson: Downloader, fuel: nat)
    returns (r: Option<Outcome<seq<string>>>, requests: seq<Option<string>>)
    ensures r == Neighbors(e, charsets, articleTitle, downloadJson, fuel)
    ensures requests == Expand(Pages(e, charsets, articleTitle, downloadJson), None, fuel).cursors
  {
    PagesServe(e, charsets, articleTitle, downloadJson);
    var result;
    result, requests := Collect(e, charsets, articleTitle, downloadJson, fuel, Pages(e, charsets, articleTitle, downloadJson));
    match result
    case None =>
      r := None;
    case Some(Throw(exc)) =>
      r := Some(Throw(Wrap(articleTitle, exc)));
    case Some(Ok(linkNameList)) =>
      r := Some(Ok(linkNameList));
  }

  /** The `while (true)` loop inside the `try`: download with the current
      cursor, pass over the page, then either take the page's cursor or
      leave the loop. */
  method Collect(e: Expander, charsets: set<string>, articleTitle: string, downloadJson: Downloader, fuel: nat,
                 ghost fetch: PageSource)
    returns (r: Option<Outcome<seq<string>>>, requests: seq<Option<string>>)
    requires Serves(fetch, e, charsets, articleTitle, downloadJson)
    ensures Run(r, requests) == Expand(fetch, None, fuel)
  {
    var continuationCode: Option<string> := None;
    var linkNameList: seq<string> := [];
    var exitRequested := false;
    var remaining := fuel;
    requests := [];
    ghost var whole := Expand(fetch, None, fuel);
    ResumeNothing(whole);
    while true
      invariant !exitRequested
      invariant Resume(linkNameList, requests, Expand(fetch, continuationCode, remaining)) == whole
      decreases remaining
    {
      if remaining == 0 {
        return None, requests;
      }
      ghost var before := requests;
      requests := requests + [continuationCode];
      var page := DownloadPage(e, charsets, articleTitle, downloadJson, continuationCode);
      assert fetch(continuationCode) == page;
      if page.Throw? {
        ResumeStop(fetch, continuationCode, remaining, linkNameList, before, page.exc);
        return Some(Throw(page.exc)), requests;
      }
      ghost var cursor := continuationCode;
      if page.value.next.Some? {
        continuationCode := page.value.next;
      } else {
        exitRequested := true;
      }
      if exitRequested {
        ResumeExit(fetch, cursor, remaining, linkNameList, before, page.value);
        linkNameList := linkNameList + page.value.links;
        return Some(Ok(linkNameList)), requests;
      }
      ResumeContinue(fetch, cursor, remaining, linkNameList, before, page.value);
      linkNameList := linkNameList + page.value.links;
      remaining := remaining - 1;
    }
  }

  /** The download with the cursor, then one pass over its page. */
  method DownloadPage(e: Expander, charsets: set<string>, articleTitle: string, downloadJson: Downloader,
                      continuationCode: Option<string>)
    returns (r: Outcome<Page>)
    ensures r == Fetch(e, charsets, articleTitle, downloadJson, continuationCode)
  {
    var jsonText := downloadJson(articleTitle, false, continuationCode);
    if jsonText.Throw? {
      return Throw(jsonText.exc);
    }
    r := PassPage(e, charsets, jsonText.value);
  }

  /** One pass of the loop body over a downloaded page: `continue` is read
      before `backlinks`, and the namespace-0 entries are encoded and
      collected in order. */
  method PassPage(e: Expander, charsets: set<string>, jsonText: Decoded) returns (r: Outcome<Page>)
    ensures r == ReadPage(e, charsets, jsonText)
  {
    var root := FromJson(jsonText);
    if root.Throw? {
      return Throw(root.exc);
    }
    var queryElement := Get(root.value, "query");
    if queryElement.Throw? {
      return Throw(queryElement.exc);
    }
    var continueElement := Lookup(root.value.value, "continue");
    var next := ContinuationCode(continueElement);
    if next.Throw? {
      return Throw(next.exc);
    }
    var pagesArray := BacklinkArray(queryElement.value);
    if pagesArray.Throw? {
      return Throw(pagesArray.exc);
    }
    var es := pagesArray.value;
    PageOfEntries(e, charsets, jsonText, es, next.value);
    var linkNameList, stopped := CollectLinks(e, charsets, es);
    if stopped.Some? {
      return Throw(stopped.value);
    }
    return Ok(Page(linkNameList, next.value));
  }

  lemma PageOfEntries(e: Expander, charsets: set<string>, d: Decoded, es: seq<Json>, next: Option<string>)
    requires FromJson(d).Ok? && FromJson(d).value.Some?
    requires ContinuationCode(Lookup(FromJson(d).value.value, "continue")) == Ok(next)
    requires BacklinkArray(Lookup(FromJson(d).value.value, "query")) == Ok(es)
    ensures ReadPage(e, charsets, d) ==
      var s := ScanLinks(es, EncodedLink(ArticlePrefix(e.languageLocaleName), charsets));
      if s.stopped.Some? then Throw(s.stopped.value) else Ok(Page(s.links, next))
  {
  }

  /** `isValidNode(node)`: whether `getNeighbors(node)` is non-empty, with
      its exception propagating. */
  method IsValidNode(e: Expander, charsets: set<string>, node: string, downloadJson: Downloader, fuel: nat)
    returns (r: Option<Outcome<bool>>)
    ensures r.None? <==> Neighbors(e, charsets, node, downloadJson, fuel).None?
    ensures r.Some? ==> (r.value.Ok? <==> Neighbors(e, charsets, node, downloadJson, fuel).value.Ok?)
    ensures r.Some? && r.value.Ok? ==> (r.value.value <==> Neighbors(e, charsets, node, downloadJson, fuel).value.value != [])
    ensures r.Some? && r.value.Throw? ==> r.value.exc == Neighbors(e, charsets, node, downloadJson, fuel).value.exc
  {
    var neighbors, _ := GetNeighbors(e, charsets, node, downloadJson, fuel);
    match neighbors
    case None =>
      r := None;
    case Some(Throw(exc)) =>
      r := Some(Throw(exc));
    case Some(Ok(links)) =>
      r := Some(Ok(links != []));
  }

  // ---------------------------------------------------------------------------
  // Properties of a run, whatever the pages

  /** The download with `cursor` gave a page whose `continue` names `next`. */
  predicate Continues(fetch: PageSource, cursor: Option<string>, next: Option<string>)
  {
    fetch(cursor).Ok? && next.Some? && fetch(cursor).value.next == next
  }

  function Last(cursors: seq<Option<string>>): Option<string>
    requires |cursors| > 0
  {
    cursors[|cursors| - 1]
  }

  /** The links of the pages downloaded with `cursors`, page after page. */
  function LinksOf(fetch: PageSource, cursors: seq<Option<string>>): seq<string>
  {
    if cursors == [] then []
    else (if fetch(cursors[0]).Ok? then fetch(cursors[0]).value.links else []) + LinksOf(fetch, cursors[1..])
  }

  /** The first download has the initial cursor, each later one the cursor
      the page before it named, and there are at most `fuel` of them. */
  lemma {:induction false} RunCursors(fetch: PageSource, cursor: Option<string>, fuel: nat)
    ensures |Expand(fetch, cursor, fuel).cursors| <= fuel
    ensures fuel > 0 ==> |Expand(fetch, cursor, fuel).cursors| > 0 && Expand(fetch, cursor, fuel).cursors[0] == cursor
    ensures forall i :: 0 <= i < |Expand(fetch, cursor, fuel).cursors| - 1 ==>
      Continues(fetch, Expand(fetch, cursor, fuel).cursors[i], Expand(fetch, cursor, fuel).cursors[i + 1])
    decreases fuel
  {
    if fuel > 0 && fetch(cursor).Ok? && fetch(cursor).value.next.Some? {
      var next := fetch(cursor).value.next;
      var rest := Expand(fetch, next, fuel - 1);
      RunCursors(fetch, next, fuel - 1);
      var cursors := Expand(fetch, cursor, fuel).cursors;
      assert cursors == [cursor] + rest.cursors;
      forall i | 0 <= i < |cursors| - 1
        ensures Continues(fetch, cursors[i], cursors[i + 1])
      {
        if i > 0 {
          assert cursors[i] == rest.cursors[i - 1] && cursors[i + 1] == rest.cursors[i];
        }
      }
    }
  }

  /** How the run ended is decided by its last download: a failure aborts
      with that failure and no links; a page without `continue` returns the
      links of all pages, the last one included; and a run that has not
      returned used up all `fuel` downloads on pages that continued. */
  lemma {:induction false} RunEnd(fetch: PageSource, cursor: Option<string>, fuel: nat)
    ensures match Expand(fetch, cursor, fuel).result
      case None =>
        |Expand(fetch, cursor, fuel).cursors| == fuel &&
        (fuel > 0 ==> fetch(Last(Expand(fetch, cursor, fuel).cursors)).Ok? &&
                      fetch(Last(Expand(fetch, cursor, fuel).cursors)).value.next.Some?)
      case Some(Throw(exc)) =>
        |Expand(fetch, cursor, fuel).cursors| > 0 && fetch(Last(Expand(fetch, cursor, fuel).cursors)) == Throw(exc)
      case Some(Ok(links)) =>
        |Expand(fetch, cursor, fuel).cursors| > 0 &&
        fetch(Last(Expand(fetch, cursor, fuel).cursors)).Ok? &&
        fetch(Last(Expand(fetch, cursor, fuel).cursors)).value.next.None? &&
        links == LinksOf(fetch, Expand(fetch, cursor, fuel).cursors)
    decreases fuel
  {
    if fuel > 0 && fetch(cursor).Ok? {
      var page := fetch(cursor).value;
      if page.next.None? {
        assert LinksOf(fetch, [cursor]) == page.links + LinksOf(fetch, []);
        assert page.links + [] == page.links;
      } else {
        var rest := Expand(fetch, page.next, fuel - 1);
        RunEnd(fetch, page.next, fuel - 1);
        var cursors := [cursor] + rest.cursors;
        assert Expand(fetch, cursor, fuel).cursors == cursors;
        assert cursors[1..] == rest.cursors;
        assert LinksOf(fetch, cursors) == page.links + LinksOf(fetch, rest.cursors);
        if rest.cursors != [] {
          assert Last(cursors) == Last(rest.cursors);
        }
      }
    }
  }

  /** A run that has returned returns the same with more downloads allowed. */
  lemma {:induction false} MoreFuel(fetch: PageSource, cursor: Option<string>, fuel: nat, more: nat)
    requires Expand(fetch, cursor, fuel).result.Some? && fuel <= more
    ensures Expand(fetch, cursor, more) == Expand(fetch, cursor, fuel)
    decreases fuel
  {
    if fetch(cursor).Ok? && fetch(cursor).value.next.Some? {
      MoreFuel(fetch, fetch(cursor).value.next, fuel - 1, more - 1);
    }
  }

  /** Every link of the pages downloaded with `cursors` is a link of one of
      those pages. */
  lemma {:induction false} LinkOfSomePage(fetch: PageSource, cursors: seq<Option<string>>, link: string)
    requires link in LinksOf(fetch, cursors)
    ensures exists i :: 0 <= i < |cursors| && fetch(cursors[i]).Ok? && link in fetch(cursors[i]).value.links
    decreases |cursors|
  {
    var first := if fetch(cursors[0]).Ok? then fetch(cursors[0]).value.links else [];
    assert LinksOf(fetch, cursors) == first + LinksOf(fetch, cursors[1..]);
    if link !in first {
      LinkOfSomePage(fetch, cursors[1..], link);
      var i :| 0 <= i < |cursors[1..]| && fetch(cursors[1..][i]).Ok? && link in fetch(cursors[1..][i]).value.links;
      assert cursors[1..][i] == cursors[i + 1];
    }
  }

  // ---------------------------------------------------------------------------
  // Properties of the expander's own pages

  /** A page the pass reads: a JSON object, whose `continue` member, when
      present, is an object whose `blcontinue` string is the next cursor;
      its links are article links, and there are none without UTF-8. */
  lemma {:induction false} PageRead(e: Expander, charsets: set<string>, d: Decoded, page: Page)
    requires ReadPage(e, charsets, d) == Ok(page)
    ensures d.Parsed? && d.root.JObj?
    ensures page.next.None? <==> Lookup(d.root.members, "continue").None?
    ensures page.next.Some? ==>
      exists c :: Lookup(d.root.members, "continue") == Some(JObj(c)) && AsString(Lookup(c, "blcontinue")) == Ok(page.next.value)
    ensures forall link <- page.links :: IsArticleLink(ArticlePrefix(e.languageLocaleName), link)
    ensures Utf8Charset !in charsets ==> page.links == []
  {
    var root := d.root.members;
    var es := BacklinkArray(Lookup(root, "query")).value;
    PageOfEntries(e, charsets, d, es, page.next);
    ScanArticleLinks(ArticlePrefix(e.languageLocaleName), charsets, es);
    if Utf8Charset !in charsets {
      ScanWithoutUtf8(ArticlePrefix(e.languageLocaleName), charsets, es);
    }
    if page.next.Some? {
      var c := AsJsonObject(Lookup(root, "continue")).value;
      assert Lookup(root, "continue") == Some(JObj(c));
    }
  }

  /** A page with the backlinks `es`, every entry of which reads: the
      canonical links of its namespace-0 titles, and the cursor its
      `continue` member gives. */
  lemma {:induction false} PageOfShape(e: Expander, charsets: set<string>, root: Members, es: seq<Json>, next: Option<string>)
    requires Utf8Charset in charsets
    requires BackwardShape(root, es) && AllReadable(es)
    requires ContinuationCode(Lookup(root, "continue")) == Ok(next)
    ensures ReadPage(e, charsets, Parsed(JObj(root))) ==
      Ok(Page(CanonicalLinks(ArticlePrefix(e.languageLocaleName), ContentTitles(es)), next))
  {
    BacklinkArrayOfShape(root, es);
    PageOfEntries(e, charsets, Parsed(JObj(root)), es, next);
    ScanEncoded(ArticlePrefix(e.languageLocaleName), charsets, es);
  }

  /** The download with `cursor` gave a page whose `continue` names the
      cursor `next`. */
  predicate Named(e: Expander, charsets: set<string>, articleTitle: string, downloadJson: Downloader,
                  cursor: Option<string>, next: Option<string>)
  {
    var page := Fetch(e, charsets, articleTitle, downloadJson, cursor);
    page.Ok? && next.Some? && page.value.next == next
  }

  /** The first download is made without a cursor, and each later one with
      the `blcontinue` code of the page before it. */
  lemma {:induction false} RequestsFollowContinuation(e: Expander, charsets: set<string>, articleTitle: string,
                                   downloadJson: Downloader, fuel: nat)
    ensures |Expand(Pages(e, charsets, articleTitle, downloadJson), None, fuel).cursors| <= fuel
    ensures fuel > 0 ==> |Expand(Pages(e, charsets, articleTitle, downloadJson), None, fuel).cursors| > 0 &&
                         Expand(Pages(e, charsets, articleTitle, downloadJson), None, fuel).cursors[0] == None
    ensures forall i :: 0 <= i < |Expand(Pages(e, charsets, articleTitle, downloadJson), None, fuel).cursors| - 1 ==>
      Named(e, charsets, articleTitle, downloadJson,
            Expand(Pages(e, charsets, articleTitle, downloadJson), None, fuel).cursors[i],
            Expand(Pages(e, charsets, articleTitle, downloadJson), None, fuel).cursors[i + 1])
  {
    PagesServe(e, charsets, articleTitle, downloadJson);
    ServedRequests(Pages(e, charsets, articleTitle, downloadJson), e, charsets, articleTitle, downloadJson, fuel);
  }

  lemma {:induction false} ServedRequests(fetch: PageSource, e: Expander, charsets: set<string>, articleTitle: string,
                       downloadJson: Downloader, fuel: nat)
    requires Serves(fetch, e, charsets, articleTitle, downloadJson)
    ensures |Expand(fetch, None, fuel).cursors| <= fuel
    ensures fuel > 0 ==> |Expand(fetch, None, fuel).cursors| > 0 && Expand(fetch, None, fuel).cursors[0] == None
    ensures forall i :: 0 <= i < |Expand(fetch, None, fuel).cursors| - 1 ==>
      Named(e, charsets, articleTitle, downloadJson, Expand(fetch, None, fuel).cursors[i], Expand(fetch, None, fuel).cursors[i + 1])
  {
    RunCursors(fetch, None, fuel);
    var requests := Expand(fetch, None, fuel).cursors;
    forall i | 0 <= i < |requests| - 1
      ensures Named(e, charsets, articleTitle, downloadJson, requests[i], requests[i + 1])
    {
      assert Continues(fetch, requests[i], requests[i + 1]);
      assert fetch(requests[i]) == Fetch(e, charsets, articleTitle, downloadJson, requests[i]);
    }
  }

  /** A returned list is the links of every page downloaded, in order, the
      last page being the first without `continue`; each is an article link;
      without UTF-8 there are none. */
  lemma {:induction false} NeighborsAreAllPages(e: Expander, charsets: set<string>, articleTitle: string,
                             downloadJson: Downloader, fuel: nat, links: seq<string>)
    requires Neighbors(e, charsets, articleTitle, downloadJson, fuel) == Some(Ok(links))
    ensures |Expand(Pages(e, charsets, articleTitle, downloadJson), None, fuel).cursors| > 0
    ensures Fetch(e, charsets, articleTitle, downloadJson,
                  Last(Expand(Pages(e, charsets, articleTitle, downloadJson), None, fuel).cursors)).Ok?
    ensures Fetch(e, charsets, articleTitle, downloadJson,
                  Last(Expand(Pages(e, charsets, articleTitle, downloadJson), None, fuel).cursors)).value.next.None?
    ensures links == LinksOf(Pages(e, charsets, articleTitle, downloadJson),
                             Expand(Pages(e, charsets, articleTitle, downloadJson), None, fuel).cursors)
    ensures forall link <- links :: IsArticleLink(ArticlePrefix(e.languageLocaleName), link)
    ensures Utf8Charset !in charsets ==> links == []
  {
    PagesServe(e, charsets, articleTitle, downloadJson);
    var fetch := Pages(e, charsets, articleTitle, downloadJson);
    RunEnd(fetch, None, fuel);
    ServedLinks(fetch, e, charsets, articleTitle, downloadJson, Expand(fetch, None, fuel).cursors);
  }

  lemma {:induction false} ServedLinks(fetch: PageSource, e: Expander, charsets: set<string>, articleTitle: string,
                    downloadJson: Downloader, requests: seq<Option<string>>)
    requires Serves(fetch, e, charsets, articleTitle, downloadJson)
    ensures forall link <- LinksOf(fetch, requests) :: IsArticleLink(ArticlePrefix(e.languageLocaleName), link)
    ensures Utf8Charset !in charsets ==> LinksOf(fetch, requests) == []
  {
    forall link | link in LinksOf(fetch, requests)
      ensures IsArticleLink(ArticlePrefix(e.languageLocaleName), link)
      ensures Utf8Charset !in charsets ==> false
    {
      LinkOfSomePage(fetch, requests, link);
      var i :| 0 <= i < |requests| && fetch(requests[i]).Ok? && link in fetch(requests[i]).value.links;
      assert fetch(requests[i]) == Fetch(e, charsets, articleTitle, downloadJson, requests[i]);
      var d := downloadJson(articleTitle, false, requests[i]).value;
      PageRead(e, charsets, d, fetch(requests[i]).value);
    }
    if Utf8Charset !in charsets && LinksOf(fetch, requests) != [] {
      assert LinksOf(fetch, requests)[0] in LinksOf(fetch, requests);
    }
  }

  /** Every failure, on whichever page, is an `Exception` naming the article,
      caused by what the last download or its pass raised. */
  lemma {:induction false} FailuresNameTheArticle(e: Expander, charsets: set<string>, articleTitle: string,
                               downloadJson: Downloader, fuel: nat, exc: Exc)
    requires Neighbors(e, charsets, articleTitle, downloadJson, fuel) == Some(Throw(exc))
    ensures var requests := Expand(Pages(e, charsets, articleTitle, downloadJson), None, fuel).cursors;
      |requests| > 0 && Fetch(e, charsets, articleTitle, downloadJson, Last(requests)).Throw? &&
      exc == Exc(Exception, "Backward article \"" + articleTitle + "\" failed to expand.",
                 Some(Fetch(e, charsets, articleTitle, downloadJson, Last(requests)).exc))
  {
    RunEnd(Pages(e, charsets, articleTitle, downloadJson), None, fuel);
  }

  /** A title whose first page has no `continue`: one download, without a
      cursor, and the canonical links of that page. */
  lemma {:induction false} SinglePage(e: Expander, charsets: set<string>, articleTitle: string, downloadJson: Downloader, fuel: nat,
                   root: Members, es: seq<Json>)
    requires Utf8Charset in charsets && fuel > 0
    requires downloadJson(articleTitle, false, None) == Ok(Parsed(JObj(root)))
    requires BackwardShape(root, es) && AllReadable(es) && Lookup(root, "continue") == None
    ensures Neighbors(e, charsets, articleTitle, downloadJson, fuel) ==
      Some(Ok(CanonicalLinks(ArticlePrefix(e.languageLocaleName), ContentTitles(es))))
    ensures Expand(Pages(e, charsets, articleTitle, downloadJson), None, fuel).cursors == [None]
  {
    PageOfShape(e, charsets, root, es, None);
  }

  /** A title without backlinks yields the empty list, so it is not a valid
      node; the tests expect that of a made-up title. */
  lemma {:induction false} NoBacklinks(e: Expander, charsets: set<string>, articleTitle: string, downloadJson: Downloader, fuel: nat,
                    root: Members)
    requires Utf8Charset in charsets && fuel > 0
    requires downloadJson(articleTitle, false, None) == Ok(Parsed(JObj(root)))
    requires BackwardShape(root, []) && Lookup(root, "continue") == None
    ensures Neighbors(e, charsets, articleTitle, downloadJson, fuel) == Some(Ok([]))
  {
    SinglePage(e, charsets, articleTitle, downloadJson, fuel, root, []);
  }

  /** Two pages: the first names the cursor `code` under
      `continue.blcontinue`, the second has no `continue`; the second
      download carries `code`, and the list is the first page's links
      followed by the second's. */
  lemma {:induction false} TwoPages(e: Expander, charsets: set<string>, articleTitle: string, downloadJson: Downloader, fuel: nat,
                 root1: Members, es1: seq<Json>, c: Members, code: string, root2: Members, es2: seq<Json>)
    requires Utf8Charset in charsets && fuel >= 2
    requires downloadJson(articleTitle, false, None) == Ok(Parsed(JObj(root1)))
    requires BackwardShape(root1, es1) && AllReadable(es1)
    requires Lookup(root1, "continue") == Some(JObj(c)) && Lookup(c, "blcontinue") == Some(JStr(code))
    requires downloadJson(articleTitle, false, Some(code)) == Ok(Parsed(JObj(root2)))
    requires BackwardShape(root2, es2) && AllReadable(es2) && Lookup(root2, "continue") == None
    ensures Neighbors(e, charsets, articleTitle, downloadJson, fuel) ==
      Some(Ok(CanonicalLinks(ArticlePrefix(e.languageLocaleName), ContentTitles(es1)) +
              CanonicalLinks(ArticlePrefix(e.languageLocaleName), ContentTitles(es2))))
    ensures Expand(Pages(e, charsets, articleTitle, downloadJson), None, fuel).cursors == [None, Some(code)]
  {
    var prefix := ArticlePrefix(e.languageLocaleName);
    assert ContinuationCode(Lookup(root1, "continue")) == Ok(Some(code));
    PageOfShape(e, charsets, root1, es1, Some(code));
    PageOfShape(e, charsets, root2, es2, None);
    PagesServe(e, charsets, articleTitle, downloadJson);
    ServedTwoPages(Pages(e, charsets, articleTitle, downloadJson), e, charsets, articleTitle, downloadJson, fuel,
                   Page(CanonicalLinks(prefix, ContentTitles(es1)), Some(code)),
                   Page(CanonicalLinks(prefix, ContentTitles(es2)), None));
  }

  lemma {:induction false} ServedTwoPages(fetch: PageSource, e: Expander, charsets: set<string>, articleTitle: string,
                       downloadJson: Downloader, fuel: nat, page1: Page, page2: Page)
    requires Serves(fetch, e, charsets, articleTitle, downloadJson) && fuel >= 2
    requires Fetch(e, charsets, articleTitle, downloadJson, None) == Ok(page1) && page1.next.Some?
    requires Fetch(e, charsets, articleTitle, downloadJson, page1.next) == Ok(page2) && page2.next.None?
    ensures Expand(fetch, None, fuel) == Run(Some(Ok(page1.links + page2.links)), [None, page1.next])
  {
    assert Expand(fetch, page1.next, fuel - 1) == Run(Some(Ok(page2.links)), [page1.next]);
  }

  /** A page whose `continue` object has no `blcontinue` fails with a null
      dereference, wrapped; nothing collected on that page is returned. */
  lemma {:induction false} ContinueWithoutCursorThrows(e: Expander, charsets: set<string>, articleTitle: string,
                                    downloadJson: Downloader, fuel: nat, root: Members, c: Members)
    requires fuel > 0
    requires downloadJson(articleTitle, false, None) == Ok(Parsed(JObj(root)))
    requires Lookup(root, "query").Some?
    requires Lookup(root, "continue") == Some(JObj(c)) && Lookup(c, "blcontinue") == None
    ensures Neighbors(e, charsets, articleTitle, downloadJson, fuel) ==
      Some(Throw(Wrap(articleTitle, Fail(NullPointerException))))
  {
    assert ContinuationCode(Lookup(root, "continue")) == Throw(Fail(NullPointerException));
    assert ReadPage(e, charsets, Parsed(JObj(root))) == Throw(Fail(NullPointerException));
  }

  /** A failed download ends the expansion with its exception wrapped. */
  lemma {:induction false} DownloadFailureThrows(e: Expander, charsets: set<string>, articleTitle: string,
                              downloadJson: Downloader, fuel: nat, exc: Exc)
    requires fuel > 0 && downloadJson(articleTitle, false, None) == Throw(exc)
    ensures Neighbors(e, charsets, articleTitle, downloadJson, fuel) == Some(Throw(Wrap(articleTitle, exc)))
  {
  }

  /** `gson.fromJson` of a blank text is null, and `root.get("query")` a
      null dereference. */
  lemma {:induction false} BlankResponseThrows(e: Expander, charsets: set<string>, articleTitle: string,
                            downloadJson: Downloader, fuel: nat)
    requires fuel > 0 && downloadJson(articleTitle, false, None) == Ok(Blank)
    ensures Neighbors(e, charsets, articleTitle, downloadJson, fuel) ==
      Some(Throw(Wrap(articleTitle, Fail(NullPointerException))))
  {
  }
}
