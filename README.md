# Wikipedia graph node expanders, modelled in Dafny

The repository expands a node of the Wikipedia article graph. Forward, it gives
the articles a page links to. Backward, it gives the articles that link to a page.
It asks the MediaWiki API (`action=query`, `prop=links` or `list=backlinks`)
and turns the titles it gets back into article URLs
`https://<lang>.wikipedia.org/wiki/<title>`. There are two generations of the
code, and both are modelled as written. Several places in them do not
compile as shown: members the classes use but do not declare, which the
model takes as inputs, and two calls or declarations that their superclass
does not allow (see "## Left out"):

- `net.coderodde…`: `AbstractWikipediaGraphNodeExpander` with
  `baseGetNeighbors` and two extractors whose `catch (NullPointerException)`
  returns the titles collected so far, plus the `generateSuccessors` of
  the forward and backward subclasses.
- `com.github.coderodde…`: the abstract class with `downloadJson` and
  `constructFullWikipediaLink`, the forward `getNeighbors` (one page, a
  `closed` flag, every failure wrapped in a `RuntimeException`), and the
  backward `getNeighbors`. The backward one follows `continue.blcontinue`
  cursors page after page in a `while (true)` loop and wraps every failure in
  an `Exception`.

Modules, one per concern of the source:

- `Jdk`: Java exceptions as values (`Outcome`, `Exc` with kind, message
  and cause), `String.format` on `%s`, 32-bit integers, `Integer.parseInt`.
- `Gson`: the JSON tree and each accessor the expanders call. Each accessor
  has the exception Gson raises on a null or wrongly typed receiver:
  null dereference, `ClassCastException`, `IllegalStateException`.
- `UrlEncoder`: `URLEncoder.encode(s, "UTF-8")`, the form encoding of
  section 5.2 of the WHATWG URL Standard, followed by `replace("+", "_")`.
- `LinkArray`: one link entry (`ns`, then `title`) and the left-to-right
  scan that all six loops perform. The first failure stops the scan.
- `TitleLinks`: the article prefix, and what the scan gives when titles are
  encoded into article links.
- `WikipediaApi`: what both abstract classes share — the templates, the API
  URL, the language check and the query URL.
- `NetAbstract`, `NetForward`, `NetBackward`, `ComAbstract`, `ComForward`,
  `ComBackward`: one module per source file of the two generations.

Java loops are `method`s with `while` loops. Each method is proved equal to a
function that states its result, and the lemmas are about those functions.
Downloads are inputs: a function from URL to response, or the subclass's
`downloadJson`. A response is `Blank`, `Malformed` or a parsed JSON value.
The backward loop of the newer code may in principle never return. The model
gives it a bound `fuel` on the number of downloads, and records the cursor
handed to each download.

## Model

| member | source | states |
|---|---|---|
| WikipediaApi.ApiUrlIsFormatted | src/main/java/com/github/coderodde/wikipedia/graph/expansion/AbstractWikipediaGraphNodeExpander.java:125-127 | the API URL is `String.format(API_URL_FORMAT, lang)`, i.e. `https://<lang>.wikipedia.org/w/api.php` |
| WikipediaApi.CheckLanguageLocaleName | src/main/java/com/github/coderodde/wikipedia/graph/expansion/AbstractWikipediaGraphNodeExpander.java:134-142 | the check passes exactly when the code is an ISO language |
| WikipediaApi.UnknownLanguageIsFormatted | src/main/java/net/coderodde/wikipedia/graph/expansion/AbstractWikipediaGraphNodeExpander.java:144-152 | a rejected code throws `IllegalArgumentException` with message `String.format("Unknown language locale name: %s.", lang)` and no cause |
| WikipediaApi.New | src/main/java/com/github/coderodde/wikipedia/graph/expansion/AbstractWikipediaGraphNodeExpander.java:58-63 | construction succeeds iff the code is an ISO language; it then stores the code unchanged and its API URL; otherwise it throws the check's exception |
| WikipediaApi.RequestUrlIsFormatted | src/main/java/net/coderodde/wikipedia/graph/expansion/AbstractWikipediaGraphNodeExpander.java:116-121 | the query URL is `apiUrl + String.format(template, encodedTitle)`, with the forward or the backward template |
| WikipediaApi.ForwardSuffix | src/main/java/net/coderodde/wikipedia/graph/expansion/AbstractWikipediaGraphNodeExpander.java:35-40 | the forward template has one `%s`, between `?action=query&titles=` and `&prop=links&pllimit=max&format=json` |
| WikipediaApi.BackwardSuffix | src/main/java/net/coderodde/wikipedia/graph/expansion/AbstractWikipediaGraphNodeExpander.java:45-50 | the backward template has one `%s`, between `?action=query&list=backlinks&bltitle=` and `&bllimit=max&format=json` |
| NetAbstract.ExtractForwardLinkTitles | src/main/java/net/coderodde/wikipedia/graph/expansion/AbstractWikipediaGraphNodeExpander.java:161-231 | the loop returns `ForwardLinkTitles`; a null dereference returns the titles so far, and other failures propagate |
| NetAbstract.ForwardTitlesOfPage | src/main/java/net/coderodde/wikipedia/graph/expansion/AbstractWikipediaGraphNodeExpander.java:167-203 | readable entries give the raw titles of exactly the namespace-0 entries, in order |
| NetAbstract.ForwardTitlesStopAtEntry | src/main/java/net/coderodde/wikipedia/graph/expansion/AbstractWikipediaGraphNodeExpander.java:186-206 | the first unreadable entry returns the titles before it if the failure is a null dereference, and otherwise throws that failure |
| NetAbstract.ForwardTitlesMissingData | src/main/java/net/coderodde/wikipedia/graph/expansion/AbstractWikipediaGraphNodeExpander.java:167-205 | a blank text, a response without `query`, or a page without `links` gives the empty list |
| NetAbstract.ForwardTitlesNoPages | src/main/java/net/coderodde/wikipedia/graph/expansion/AbstractWikipediaGraphNodeExpander.java:173-180 | an empty `pages` object throws `NoSuchElementException`, which is not caught |
| NetAbstract.ForwardTitlesProvenance | src/main/java/net/coderodde/wikipedia/graph/expansion/AbstractWikipediaGraphNodeExpander.java:186-203 | at most one title per entry, each the title of a namespace-0 entry |
| NetAbstract.ExtractBackwardLinkTitles | src/main/java/net/coderodde/wikipedia/graph/expansion/AbstractWikipediaGraphNodeExpander.java:240-273 | the loop returns `BackwardLinkTitles`, with the same null-dereference handling as the forward extractor |
| NetAbstract.BackwardTitlesOfPage | src/main/java/net/coderodde/wikipedia/graph/expansion/AbstractWikipediaGraphNodeExpander.java:253-265 | readable backlinks give the unencoded article URL of each namespace-0 title, in order |
| NetAbstract.BackwardTitlesStopAtEntry | src/main/java/net/coderodde/wikipedia/graph/expansion/AbstractWikipediaGraphNodeExpander.java:253-268 | the first unreadable backlink keeps the links before it on a null dereference, and otherwise throws |
| NetAbstract.BackwardTitlesMissingData | src/main/java/net/coderodde/wikipedia/graph/expansion/AbstractWikipediaGraphNodeExpander.java:245-267 | a blank text, or one without `query` or without `backlinks`, gives the empty list |
| NetAbstract.BackwardTitlesProvenance | src/main/java/net/coderodde/wikipedia/graph/expansion/AbstractWikipediaGraphNodeExpander.java:253-265 | at most one link per entry, each the article URL of a namespace-0 title |
| NetAbstract.BaseGetNeighbors | src/main/java/net/coderodde/wikipedia/graph/expansion/AbstractWikipediaGraphNodeExpander.java:110-142 | without UTF-8 the method throws an `IllegalStateException` whose cause is the `UnsupportedEncodingException`; with it, the download of the direction's URL decides: an `IOException` becomes an `IllegalStateException` with the I/O prefix before its message, other download failures propagate, and a page goes to the extractor of the direction; the encoding failure's `IllegalStateException` keeps its message; the result is `BaseNeighbors` |
| NetAbstract.BaseNeighborsRequest | src/main/java/net/coderodde/wikipedia/graph/expansion/AbstractWikipediaGraphNodeExpander.java:116-132 | with UTF-8 available, the page asked for is the form-encoded title in the template of the direction |
| NetAbstract.FullWikipediaLinkIsPrefixed | src/main/java/net/coderodde/wikipedia/graph/expansion/AbstractWikipediaGraphNodeExpander.java:275-277 | the article URL is the article prefix of the language followed by the title |
| NetAbstract.SuccessorLinkIsFullLink | src/main/java/net/coderodde/wikipedia/graph/expansion/ForwardWikipediaGraphNodeExpander.java:69-83 | a kept title's link is the encoding failure, or `constructFullWikipediaLink` of the encoded title with `+` replaced by `_` |
| NetForward.GenerateSuccessors | src/main/java/net/coderodde/wikipedia/graph/expansion/ForwardWikipediaGraphNodeExpander.java:32-90 | the loop returns `Successors` of the download; a failed download propagates because it happens outside the `try` |
| NetForward.IsValidNode | src/main/java/net/coderodde/wikipedia/graph/expansion/AbstractWikipediaGraphNodeExpander.java:81-83 | valid iff the successors are non-empty; exceptions propagate |
| NetForward.SuccessorsOfPage | src/main/java/net/coderodde/wikipedia/graph/expansion/ForwardWikipediaGraphNodeExpander.java:40-84 | readable entries give the canonical article URL of every namespace-0 title, in order |
| NetForward.SuccessorsStopAtEntry | src/main/java/net/coderodde/wikipedia/graph/expansion/ForwardWikipediaGraphNodeExpander.java:56-87 | a null dereference at the first unreadable entry keeps the links before it; any other failure propagates |
| NetForward.SuccessorsWithoutUtf8 | src/main/java/net/coderodde/wikipedia/graph/expansion/ForwardWikipediaGraphNodeExpander.java:69-81 | without UTF-8 no list returned is non-empty, and the `UnsupportedEncodingException` never escapes |
| NetForward.SuccessorsWithoutUtf8OfPage | src/main/java/net/coderodde/wikipedia/graph/expansion/ForwardWikipediaGraphNodeExpander.java:69-81 | without UTF-8 a page whose entries all read gives exactly the empty list: the encoding failure of its first kept title is caught and returns `[]` |
| NetForward.SuccessorsAreCanonicalLinks | src/main/java/net/coderodde/wikipedia/graph/expansion/ForwardWikipediaGraphNodeExpander.java:56-84 | at most one link per entry, each the canonical link of a namespace-0 title |
| NetForward.SuccessorsMissingData | src/main/java/net/coderodde/wikipedia/graph/expansion/ForwardWikipediaGraphNodeExpander.java:40-87 | a blank text, a response without `query`, or a page without `links` gives the empty list |
| NetForward.SuccessorsMalformed | src/main/java/net/coderodde/wikipedia/graph/expansion/ForwardWikipediaGraphNodeExpander.java:40 | a text that is not a JSON object throws `JsonSyntaxException` |
| NetBackward.GenerateSuccessors | src/main/java/net/coderodde/wikipedia/graph/expansion/BackwardWikipediaGraphNodeExpander.java:31-73 | the loop returns `Successors` of the backward download; a failed download propagates |
| NetBackward.IsValidNode | src/main/java/net/coderodde/wikipedia/graph/expansion/AbstractWikipediaGraphNodeExpander.java:81-83 | valid iff the successors are non-empty; exceptions propagate |
| NetBackward.SuccessorsOfPage | src/main/java/net/coderodde/wikipedia/graph/expansion/BackwardWikipediaGraphNodeExpander.java:38-67 | readable backlinks give the canonical article URL of every namespace-0 title, in order |
| NetBackward.SuccessorsStopAtEntry | src/main/java/net/coderodde/wikipedia/graph/expansion/BackwardWikipediaGraphNodeExpander.java:45-70 | a null dereference keeps the links before it; any other failure propagates |
| NetBackward.SuccessorsWithoutUtf8 | src/main/java/net/coderodde/wikipedia/graph/expansion/BackwardWikipediaGraphNodeExpander.java:51-63 | without UTF-8 no list returned is non-empty, and the `UnsupportedEncodingException` never escapes |
| NetBackward.SuccessorsWithoutUtf8OfPage | src/main/java/net/coderodde/wikipedia/graph/expansion/BackwardWikipediaGraphNodeExpander.java:51-63 | without UTF-8 a page whose entries all read gives exactly the empty list: the encoding failure of its first kept title is caught and returns `[]` |
| NetBackward.SuccessorsAreCanonicalLinks | src/main/java/net/coderodde/wikipedia/graph/expansion/BackwardWikipediaGraphNodeExpander.java:45-67 | at most one link per backlink, each the canonical link of a namespace-0 title |
| NetBackward.SuccessorsMissingData | src/main/java/net/coderodde/wikipedia/graph/expansion/BackwardWikipediaGraphNodeExpander.java:38-70 | a blank text, or one without `query` or without `backlinks`, gives the empty list |
| NetBackward.SuccessorsMalformed | src/main/java/net/coderodde/wikipedia/graph/expansion/BackwardWikipediaGraphNodeExpander.java:38 | a text that is not a JSON object throws `JsonSyntaxException` |
| ComAbstract.ConstructFullWikipediaLink | src/main/java/com/github/coderodde/wikipedia/graph/expansion/AbstractWikipediaGraphNodeExpander.java:110-114 | `String.format("https://%s.wikipedia.org/wiki/%s", lang, title)` is the article prefix followed by the title |
| ComAbstract.DownloadJson | src/main/java/com/github/coderodde/wikipedia/graph/expansion/AbstractWikipediaGraphNodeExpander.java:90-102 | without UTF-8 it throws `UnsupportedEncodingException("UTF-8")`; otherwise it returns the server's answer to the forward or backward URL of the form-encoded title |
| ComAbstract.CollectLinks | src/main/java/com/github/coderodde/wikipedia/graph/expansion/BackwardWikipediaGraphNodeExpander.java:65-79 | the `for` loop collects exactly the scan's links, and stops with the scan's first failure |
| ComAbstract.UnknownCodeRejected | src/test/java/com/github/coderodde/wikipedia/graph/expansion/BackwardWikipediaGraphNodeExpanderTest.java:24-27 | `"shit"` is rejected with an `IllegalArgumentException` naming it |
| ComForward.GetNeighbors | src/main/java/com/github/coderodde/wikipedia/graph/expansion/ForwardWikipediaGraphNodeExpander.java:30-89 | the method returns `Neighbors`: the empty list when closed; otherwise one download and the page's links, or the wrapped failure |
| ComForward.IsValidNode | src/main/java/com/github/coderodde/wikipedia/graph/expansion/AbstractWikipediaGraphNodeExpander.java:65-67 | valid iff the neighbours are non-empty; the exception propagates |
| ComForward.WrapIsFormatted | src/main/java/com/github/coderodde/wikipedia/graph/expansion/ForwardWikipediaGraphNodeExpander.java:82-88 | the wrapper is a `RuntimeException` with message `String.format("Forward article \"%s\" failed to expand.", title)` and the failure as cause |
| ComForward.ClosedDownloadsNothing | src/main/java/com/github/coderodde/wikipedia/graph/expansion/ForwardWikipediaGraphNodeExpander.java:32-34 | a closed expander answers `[]` whatever the server says |
| ComForward.OneForwardDownload | src/main/java/com/github/coderodde/wikipedia/graph/expansion/ForwardWikipediaGraphNodeExpander.java:38 | the answer depends on the server only through its answer to the forward URL of the title |
| ComForward.NeighborsOfPage | src/main/java/com/github/coderodde/wikipedia/graph/expansion/ForwardWikipediaGraphNodeExpander.java:42-80 | readable entries give the canonical article URL of every namespace-0 title, in order |
| ComForward.NeighborsStopAtEntry | src/main/java/com/github/coderodde/wikipedia/graph/expansion/ForwardWikipediaGraphNodeExpander.java:58-88 | the first unreadable entry throws its failure wrapped, and the links before it are discarded |
| ComForward.MissingArticleThrows | src/test/java/com/github/coderodde/wikipedia/graph/expansion/ForwardWikipediaGraphNodeExpanderTest.java:20-34 | a page without `links`, which is what a missing article gets, throws a wrapped null dereference |
| ComForward.BlankResponseThrows | src/main/java/com/github/coderodde/wikipedia/graph/expansion/ForwardWikipediaGraphNodeExpander.java:42-43 | a blank response throws a wrapped null dereference |
| ComForward.WithoutUtf8Throws | src/main/java/com/github/coderodde/wikipedia/graph/expansion/ForwardWikipediaGraphNodeExpander.java:36-38 | without UTF-8 every open expansion throws the wrapped `UnsupportedEncodingException` |
| ComForward.FailuresNameTheArticle | src/main/java/com/github/coderodde/wikipedia/graph/expansion/ForwardWikipediaGraphNodeExpander.java:82-88 | every failure is a `RuntimeException` naming the article, caused by what the `try` raised |
| ComForward.NeighborsAreCanonicalLinks | src/main/java/com/github/coderodde/wikipedia/graph/expansion/ForwardWikipediaGraphNodeExpander.java:58-78 | at most one link per entry, each the canonical link of a namespace-0 title |
| ComForward.NeighborsAreArticleLinks | src/main/java/com/github/coderodde/wikipedia/graph/expansion/ForwardWikipediaGraphNodeExpander.java:72-77 | every link starts with the article prefix, and holds no space and no `+` after it |
| ComBackward.WrapIsFormatted | src/main/java/com/github/coderodde/wikipedia/graph/expansion/BackwardWikipediaGraphNodeExpander.java:85-91 | the wrapper is an `Exception` with message `String.format("Backward article \"%s\" failed to expand.", title)` and the failure as cause |
| ComBackward.ContinuationCode | src/main/java/com/github/coderodde/wikipedia/graph/expansion/BackwardWikipediaGraphNodeExpander.java:46-58 | no `continue` ends the loop; a `continue` that reads always yields a cursor |
| ComBackward.GetNeighbors | src/main/java/com/github/coderodde/wikipedia/graph/expansion/BackwardWikipediaGraphNodeExpander.java:28-92 | the method returns `Neighbors` (the run with its failure wrapped), and the cursors it handed to the downloads are the run's cursors |
| ComBackward.Collect | src/main/java/com/github/coderodde/wikipedia/graph/expansion/BackwardWikipediaGraphNodeExpander.java:30-84 | the `while (true)` loop's result and download cursors are exactly those of `Expand` from a null cursor |
| ComBackward.DownloadPage | src/main/java/com/github/coderodde/wikipedia/graph/expansion/BackwardWikipediaGraphNodeExpander.java:37-39 | a download with the cursor, then one pass over the page |
| ComBackward.PassPage | src/main/java/com/github/coderodde/wikipedia/graph/expansion/BackwardWikipediaGraphNodeExpander.java:41-79 | one pass of the loop body is `ReadPage`: parse, `query`, `continue`, `backlinks`, then the entries in order |
| ComBackward.IsValidNode | src/main/java/com/github/coderodde/wikipedia/graph/expansion/AbstractWikipediaGraphNodeExpander.java:65-67 | valid iff the neighbours are non-empty; the exception propagates; no answer when the run has not returned |
| ComBackward.RunCursors | src/main/java/com/github/coderodde/wikipedia/graph/expansion/BackwardWikipediaGraphNodeExpander.java:30-53 | there are at most `fuel` downloads; the first uses the initial cursor, and each later one uses the cursor the previous page named |
| ComBackward.RunEnd | src/main/java/com/github/coderodde/wikipedia/graph/expansion/BackwardWikipediaGraphNodeExpander.java:35-91 | a failed last download aborts with that failure; a last page without `continue` returns the links of all pages, in order; an unfinished run used all its downloads on pages that continued |
| ComBackward.MoreFuel | src/main/java/com/github/coderodde/wikipedia/graph/expansion/BackwardWikipediaGraphNodeExpander.java:35-84 | a run that has returned returns the same with more downloads allowed |
| ComBackward.PageRead | src/main/java/com/github/coderodde/wikipedia/graph/expansion/BackwardWikipediaGraphNodeExpander.java:41-79 | a page read is a JSON object; it names a cursor iff it has `continue`, and the cursor is the `blcontinue` string; its links are article links, and there are none without UTF-8 |
| ComBackward.PageOfShape | src/main/java/com/github/coderodde/wikipedia/graph/expansion/BackwardWikipediaGraphNodeExpander.java:60-79 | readable backlinks give the canonical links of the namespace-0 titles, with the page's cursor |
| ComBackward.RequestsFollowContinuation | src/main/java/com/github/coderodde/wikipedia/graph/expansion/BackwardWikipediaGraphNodeExpander.java:30-53 | the first download has a null cursor, each later one the `blcontinue` of the page before it, and there are at most `fuel` downloads |
| ComBackward.NeighborsAreAllPages | src/main/java/com/github/coderodde/wikipedia/graph/expansion/BackwardWikipediaGraphNodeExpander.java:65-83 | a returned list is the concatenation of every downloaded page's links, the last page being the first without `continue`; every link is an article link; without UTF-8 the list is empty |
| ComBackward.FailuresNameTheArticle | src/main/java/com/github/coderodde/wikipedia/graph/expansion/BackwardWikipediaGraphNodeExpander.java:85-91 | every failure is an `Exception` naming the article, caused by the last download's failure; no partial list is returned |
| ComBackward.SinglePage | src/main/java/com/github/coderodde/wikipedia/graph/expansion/BackwardWikipediaGraphNodeExpander.java:56-83 | a first page without `continue` means one download with a null cursor, and that page's canonical links |
| ComBackward.NoBacklinks | src/test/java/com/github/coderodde/wikipedia/graph/expansion/BackwardWikipediaGraphNodeExpanderTest.java:20-21 | a title without backlinks gives the empty list, so it is not a valid node |
| ComBackward.TwoPages | src/main/java/com/github/coderodde/wikipedia/graph/expansion/BackwardWikipediaGraphNodeExpander.java:46-58 | a first page with `blcontinue` code `c` leads to a second download with `c`; the list is both pages' links in order |
| ComBackward.ContinueWithoutCursorThrows | src/main/java/com/github/coderodde/wikipedia/graph/expansion/BackwardWikipediaGraphNodeExpander.java:47-53 | a `continue` without `blcontinue` throws a wrapped null dereference |
| ComBackward.DownloadFailureThrows | src/main/java/com/github/coderodde/wikipedia/graph/expansion/BackwardWikipediaGraphNodeExpander.java:37-39 | a failed download ends the expansion with that failure wrapped |
| ComBackward.BlankResponseThrows | src/main/java/com/github/coderodde/wikipedia/graph/expansion/BackwardWikipediaGraphNodeExpander.java:41-43 | a blank response is a null root, and `root.get("query")` a wrapped null dereference |
| UrlEncoder.CanonicalAlphabet | src/main/java/com/github/coderodde/wikipedia/graph/expansion/ForwardWikipediaGraphNodeExpander.java:72-75 | an encoded title, with `+` replaced by `_`, has only unreserved characters and `%`, so no space and no `+` |
| UrlEncoder.SpacesAndUnderscoresAgree | src/main/java/com/github/coderodde/wikipedia/graph/expansion/ForwardWikipediaGraphNodeExpander.java:72-75 | a title written with spaces and the same title written with underscores give the same node |
| UrlEncoder.QuestionMarkExample | src/main/java/com/github/coderodde/wikipedia/graph/expansion/ForwardWikipediaGraphNodeExpander.java:72-75 | `Who?` encodes to `Who%3F` |
| UrlEncoder.DecodeEncode | src/main/java/com/github/coderodde/wikipedia/graph/expansion/AbstractWikipediaGraphNodeExpander.java:94-99 | form encoding loses nothing: decoding the encoding of UTF-8 bytes gives the bytes back |
| UrlEncoder.FormEncodeInjective | src/main/java/com/github/coderodde/wikipedia/graph/expansion/AbstractWikipediaGraphNodeExpander.java:94-99 | titles with the same form encoding have the same UTF-8 bytes |
| LinkArray.ScanStopsAtFirstUnreadable | src/main/java/com/github/coderodde/wikipedia/graph/expansion/ForwardWikipediaGraphNodeExpander.java:58-78 | the loop stops at the first unreadable entry, with the links of the entries before it and that entry's failure |
| LinkArray.ScanProvenance | src/main/java/com/github/coderodde/wikipedia/graph/expansion/ForwardWikipediaGraphNodeExpander.java:58-78 | at most one link per entry, each rendered from a namespace-0 entry's title |
| TitleLinks.ScanEncoded | src/main/java/com/github/coderodde/wikipedia/graph/expansion/BackwardWikipediaGraphNodeExpander.java:65-79 | with UTF-8 available, readable entries give the canonical links of the namespace-0 titles, in order |
| TitleLinks.ScanReadableWithoutUtf8 | src/main/java/net/coderodde/wikipedia/graph/expansion/BackwardWikipediaGraphNodeExpander.java:51-63 | without UTF-8 a loop over readable entries collects nothing, and stops with the encoding failure exactly when some entry is namespace 0 with a title |
| TitleLinks.ScanWithoutUtf8 | src/main/java/net/coderodde/wikipedia/graph/expansion/ForwardWikipediaGraphNodeExpander.java:69-81 | without UTF-8 the scan collects nothing, and any stop is on the encoding or on a read failure |
| Gson.Lookup | src/main/java/net/coderodde/wikipedia/graph/expansion/ForwardWikipediaGraphNodeExpander.java:57-58 | `get(name)` is null iff no member has the name |
| Gson.LookupIsLast | src/main/java/net/coderodde/wikipedia/graph/expansion/ForwardWikipediaGraphNodeExpander.java:57-58 | a non-null `get(name)` is the value of a member with that name that no later member repeats, i.e. the last one, as `put` leaves it |
| Gson.RepeatedNameKeepsLast | src/main/java/net/coderodde/wikipedia/graph/expansion/AbstractWikipediaGraphNodeExpander.java:174-180 | with a repeated name, `get` and the first entry of `entrySet()` both see the value of its last occurrence |
| Gson.FromJson | src/main/java/com/github/coderodde/wikipedia/graph/expansion/BackwardWikipediaGraphNodeExpander.java:41 | `fromJson` gives null exactly for a blank text, an object exactly for a JSON object, and otherwise `JsonSyntaxException` |
| Gson.IntOf | src/main/java/com/github/coderodde/wikipedia/graph/expansion/BackwardWikipediaGraphNodeExpander.java:66 | `getAsInt` gives a 32-bit value, or throws one of the number-format, illegal-state or unsupported-operation exceptions |
| Jdk.ParseIntToDecimal | src/main/java/com/github/coderodde/wikipedia/graph/expansion/BackwardWikipediaGraphNodeExpander.java:66 | `Integer.parseInt` of an int's decimal form gives it back |

## Left out

- Network I/O: `IOUtils.toString(new URL(…))` is an input, a function from URL to response. The com backward expander's three-argument `downloadJson(title, forward, cursor)` and the net subclasses' `downloadJson(title, forward)` are not declared in the files modelled; they are inputs too.
- JSON text parsing: a response is modelled as blank, malformed, or a parsed tree. Floating-point JSON numbers are not modelled; the trees have integral numbers only.
- `Locale.getISOLanguages()` is a parameter, `isoLanguages`. Whether the platform has the UTF-8 charset is a parameter, `charsets`, so that the `UnsupportedEncodingException` paths can be stated.
- The `closed` flag of the com forward expander is not declared in the files modelled. It is a parameter of `ComForward.GetNeighbors`.
- The `GSON` instance the com backward expander parses with is not declared in the files modelled either. Its parse is `Gson.FromJson`, the same as the `new Gson()` of the other expanders.
- Printing to standard output and standard error is left out; it does not change any result.
- ComBackward.GetNeighbors: the source loop may download forever. The model allows `fuel` downloads and answers `None` when the loop has not returned by then; `ComBackward.MoreFuel` shows that a returned answer does not depend on the bound.
- ComBackward.Collect: the download is made through `DownloadPage`. The loop is proved against any page source that agrees with the real downloads (`Serves`), and `GetNeighbors` instantiates it with those downloads.
- The com backward `getNeighbors` declares `throws Exception`, which its abstract method does not allow. The model treats the wrapped `Exception` as thrown.
- The net subclasses call `constructFullWikipediaLink`, which is `private` in the net abstract class, so the calls do not compile as written. The model takes the call to mean that method's concatenation: the article prefix followed by the encoded title.
- Jdk.ParseInt: accepts the ASCII digits `0`-`9` only. `Integer.parseInt` accepts every Unicode decimal digit (through `Character.digit`), so a `ns` string written in other scripts' digits is a `NumberFormatException` in the model but a number in Java.
- Values Dafny strings cannot hold are not modelled: a null title or language code (Java throws a `NullPointerException` from `URLEncoder.encode` for the title, and reports "Unknown language locale name: null." for the code), and lone UTF-16 surrogates (which `URLEncoder` encodes as `%3F`).
- The com backward code reads `continue` before `backlinks`. A failure on `backlinks` aborts the whole expansion, so the cursor read first never matters in that case; the model reads them in the source's order.
- `getLanguageLocaleName()` of the net abstract class is the `languageLocaleName` field of `Expander`.
- The templates, the API URL and the language check are identical in both generations and are modelled once, in `WikipediaApi`.
- `String.format` is modelled for `%s` directives only, the only ones the source uses.
- The benchmarks, the net tests, and any concurrent use of an expander are not part of this model.
