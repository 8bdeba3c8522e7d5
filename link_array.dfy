/** The body that all six extraction loops share: read an entry's `ns`, skip
    it unless it is 0, read its `title` and render it. `ScanLinks` is the
    state those loops reach after a prefix of the link array; every
    expander's loop keeps its accumulated list equal to it. */
module LinkArray {
  import opened Jdk
  import opened Gson

  /** `entry.getAsJsonObject().get("ns").getAsInt()`. */
  function Namespace(entry: Json): Outcome<int>
  {
    var ms :- AsJsonObject(Some(entry));
    var ns :- Get(Some(ms), "ns");
    AsInt(ns)
  }

  /** `entry.getAsJsonObject().get("title").getAsString()`. */
  function Title(entry: Json): Outcome<string>
  {
    var ms :- AsJsonObject(Some(entry));
    var title :- Get(Some(ms), "title");
    AsString(title)
  }

  /** One pass of a loop body: `None` when the entry is skipped, the rendered
      title when it is kept, the exception when a read or the rendering fails. */
  function Visit(entry: Json, render: string -> Outcome<string>): Outcome<Option<string>>
  {
    var ns :- Namespace(entry);
    if ns != 0 then Ok(None)
    else
      var title :- Title(entry);
      var link :- render(title);
      Ok(Some(link))
  }

  /** The loop state: the links collected so far and, once an entry has
      failed, the exception that leaves the loop. */
  datatype Scan = Scan(links: seq<string>, stopped: Option<Exc>)

  /** The state after the loop has run over `es`, left to right. */
  function ScanLinks(es: seq<Json>, render: string -> Outcome<string>): Scan
    decreases |es|
  {
    if |es| == 0 then Scan([], None)
    else
      var s := ScanLinks(es[..|es| - 1], render);
      if s.stopped.Some? then s
      else
        match Visit(es[|es| - 1], render)
        case Throw(e) => Scan(s.links, Some(e))
        case Ok(None) => s
        case Ok(Some(link)) => Scan(s.links + [link], None)
  }

  /** One more iteration of a loop that has not stopped. */
  lemma ScanStep(es: seq<Json>, i: nat, render: string -> Outcome<string>)
    requires i < |es|
    ensures ScanLinks(es[..i + 1], render) ==
      var s := ScanLinks(es[..i], render);
      if s.stopped.Some? then s
      else
        match Visit(es[i], render)
        case Throw(e) => Scan(s.links, Some(e))
        case Ok(None) => s
        case Ok(Some(link)) => Scan(s.links + [link], None)
  {
    assert es[..i + 1][..i] == es[..i];
  }

  /** A non-empty array is its prefix and its last entry. */
  lemma SplitLast(es: seq<Json>)
    requires |es| > 0
    ensures es[..|es| - 1 + 1] == es && es == es[..|es| - 1] + [es[|es| - 1]]
  {
  }

  // ---------------------------------------------------------------------------
  // A reference definition of what the loops collect

  /** The loop reads the entry without an exception: an object whose `ns`
      reads as an int and, when that is 0, whose `title` reads as a string. */
  predicate Readable(entry: Json)
  {
    Namespace(entry).Ok? && (Namespace(entry).value == 0 ==> Title(entry).Ok?)
  }

  /** Every entry of `es` is readable. Stated from the end of the array, the
      way the loop state grows. */
  predicate AllReadable(es: seq<Json>)
    decreases |es|
  {
    |es| == 0 || (AllReadable(es[..|es| - 1]) && Readable(es[|es| - 1]))
  }

  lemma {:induction false} AllReadableMeans(es: seq<Json>)
    ensures AllReadable(es) <==> forall i :: 0 <= i < |es| ==> Readable(es[i])
    decreases |es|
  {
    if |es| > 0 {
      var n := |es| - 1;
      AllReadableMeans(es[..n]);
      assert forall i :: 0 <= i < n ==> es[..n][i] == es[i];
    }
  }

  /** The exception a non-readable entry raises. */
  function ReadFailure(entry: Json): Exc
    requires !Readable(entry)
  {
    if Namespace(entry).Throw? then Namespace(entry).exc else Title(entry).exc
  }

  /** Reading an entry fails with a null dereference, a wrong element kind
      or a malformed number; never with an encoding or I/O failure. */
  lemma ReadFailureKind(entry: Json)
    requires !Readable(entry)
    ensures ReadFailure(entry).kind in
      {NullPointerException, IllegalStateException, UnsupportedOperationException, NumberFormatException}
  {
  }

  /** The title an entry contributes: its own for a readable namespace-0
      entry, none otherwise. */
  function Kept(entry: Json): seq<string>
  {
    if Namespace(entry) == Ok(0) && Title(entry).Ok? then [Title(entry).value] else []
  }

  /** The titles of the namespace-0 entries of `es`, in array order. */
  function ContentTitles(es: seq<Json>): seq<string>
    decreases |es|
  {
    if |es| == 0 then [] else Kept(es[0]) + ContentTitles(es[1..])
  }

  function Map(f: string -> string, ts: seq<string>): (r: seq<string>)
    ensures |r| == |ts|
    ensures forall i :: 0 <= i < |ts| ==> r[i] == f(ts[i])
    decreases |ts|
  {
    if |ts| == 0 then [] else [f(ts[0])] + Map(f, ts[1..])
  }

  lemma {:induction false} ContentTitlesAppend(es: seq<Json>, e: Json)
    ensures ContentTitles(es + [e]) == ContentTitles(es) + Kept(e)
    decreases |es|
  {
    if |es| == 0 {
      assert es + [e] == [e];
      assert [e][1..] == [];
    } else {
      assert (es + [e])[0] == es[0];
      assert (es + [e])[1..] == es[1..] + [e];
      ContentTitlesAppend(es[1..], e);
    }
  }

  lemma {:induction false} MapAppend(f: string -> string, a: seq<string>, b: seq<string>)
    ensures Map(f, a + b) == Map(f, a) + Map(f, b)
  {
    var left, right := Map(f, a + b), Map(f, a) + Map(f, b);
    forall i | 0 <= i < |left|
      ensures left[i] == right[i]
    {
      if i < |a| {
        assert (a + b)[i] == a[i];
      } else {
        assert (a + b)[i] == b[i - |a|];
      }
    }
  }

  /** With a rendering that never fails, a loop over readable entries
      collects the rendered titles of exactly the namespace-0 entries, in
      order, and does not stop. */
  lemma {:induction false} ScanReadable(es: seq<Json>, render: string -> Outcome<string>, f: string -> string)
    requires forall t :: render(t) == Ok(f(t))
    requires AllReadable(es)
    ensures ScanLinks(es, render) == Scan(Map(f, ContentTitles(es)), None)
    decreases |es|
  {
    if |es| > 0 {
      var n := |es| - 1;
      var init := es[..n];
      ScanReadable(init, render, f);
      ScanStep(es, n, render);
      SplitLast(es);
      ContentTitlesAppend(init, es[n]);
      MapAppend(f, ContentTitles(init), Kept(es[n]));
      ReadableVisit(es[n], render, f);
    }
  }

  /** One readable entry under a rendering that never fails. */
  lemma ReadableVisit(entry: Json, render: string -> Outcome<string>, f: string -> string)
    requires forall t :: render(t) == Ok(f(t))
    requires Readable(entry)
    ensures Visit(entry, render) == if Kept(entry) == [] then Ok(None) else Ok(Some(f(Kept(entry)[0])))
    ensures Map(f, Kept(entry)) == if Kept(entry) == [] then [] else [f(Kept(entry)[0])]
  {
  }

  /** With a rendering that never fails, the loop stops at the first
      unreadable entry, with the exception it raised and the rendered titles
      of the namespace-0 entries before it. */
  lemma ScanStopsAtFirstUnreadable(es: seq<Json>, k: nat, render: string -> Outcome<string>, f: string -> string)
    requires forall t :: render(t) == Ok(f(t))
    requires k < |es| && AllReadable(es[..k]) && !Readable(es[k])
    ensures ScanLinks(es, render) == Scan(Map(f, ContentTitles(es[..k])), Some(ReadFailure(es[k])))
  {
    ScanReadable(es[..k], render, f);
    ScanStep(es, k, render);
    ScanStopped(es, k + 1, render);
  }

  /** Once the loop has stopped it stays stopped. */
  lemma {:induction false} ScanStopped(es: seq<Json>, k: nat, render: string -> Outcome<string>)
    requires k <= |es|
    requires ScanLinks(es[..k], render).stopped.Some?
    ensures ScanLinks(es, render) == ScanLinks(es[..k], render)
    decreases |es| - k
  {
    if k < |es| {
      ScanStep(es, k, render);
      ScanStopped(es, k + 1, render);
    } else {
      assert es[..k] == es;
    }
  }

  /** `link` is the rendering of the title of a namespace-0 entry of `es`. */
  predicate RenderedFromContentEntry(es: seq<Json>, render: string -> Outcome<string>, link: string)
  {
    exists i :: 0 <= i < |es| && Namespace(es[i]) == Ok(0) && Title(es[i]).Ok? &&
                render(Title(es[i]).value) == Ok(link)
  }

  /** Whatever the rendering, the loop collects at most one link per entry,
      and each link is the rendering of the title of a namespace-0 entry. */
  lemma {:induction false} ScanProvenance(es: seq<Json>, render: string -> Outcome<string>)
    ensures |ScanLinks(es, render).links| <= |es|
    ensures forall link <- ScanLinks(es, render).links :: RenderedFromContentEntry(es, render, link)
    decreases |es|
  {
    if |es| > 0 {
      var n := |es| - 1;
      ScanProvenance(es[..n], render);
      ScanStep(es, n, render);
      SplitLast(es);
      var s := ScanLinks(es[..n], render);
      var r := ScanLinks(es, render);
      forall link <- r.links
        ensures RenderedFromContentEntry(es, render, link)
      {
        if link in s.links {
          var i :| 0 <= i < n && Namespace(es[..n][i]) == Ok(0) && Title(es[..n][i]).Ok? &&
            render(Title(es[..n][i]).value) == Ok(link);
          assert es[..n][i] == es[i];
        } else {
          assert render(Title(es[n]).value) == Ok(link);
        }
      }
    }
  }

  // ---------------------------------------------------------------------------
  // Where the two response shapes keep their link arrays

  /** The forward shape, as the forward expanders walk it:
      `root.get("query").getAsJsonObject().getAsJsonObject("pages")`, the
      value of its first entry as an object, its `links` array, iterated. */
  function PagesLinkArray(root: Option<Members>): Outcome<seq<Json>>
  {
    var query :- Get(root, "query");
    var queryObject :- AsJsonObject(query);
    var pages :- GetAsJsonObject(Some(queryObject), "pages");
    var idElement :- FirstValue(pages);
    var idObject :- AsJsonObject(idElement);
    var links :- GetAsJsonArray(Some(idObject), "links");
    Elements(links)
  }

  /** The backward shape: `query.getAsJsonObject().get("backlinks").getAsJsonArray()`. */
  function BacklinkArray(query: Option<Json>): Outcome<seq<Json>>
  {
    var queryObject :- AsJsonObject(query);
    var backlinks :- Get(Some(queryObject), "backlinks");
    AsJsonArray(backlinks)
  }

  /** The link array of a downloaded forward response: the parsed root, then
      the walk to its first page's `links`. */
  function ForwardEntries(d: Decoded): Outcome<seq<Json>>
  {
    var root :- FromJson(d);
    PagesLinkArray(root)
  }

  /** The backlink array of a downloaded backward response. */
  function BackwardEntries(d: Decoded): Outcome<seq<Json>>
  {
    var root :- FromJson(d);
    var query :- Get(root, "query");
    BacklinkArray(query)
  }

  /** The object held under `name`, if `ms` holds an object there. */
  function ObjectMember(ms: Members, name: string): Option<Members>
  {
    match Lookup(ms, name)
    case Some(JObj(m)) => Some(m)
    case _ => None
  }

  /** The `query.pages` object of a forward response. */
  function PagesObject(root: Members): Option<Members>
  {
    match ObjectMember(root, "query")
    case None => None
    case Some(query) => ObjectMember(query, "pages")
  }

  /** The value of the first entry of `query.pages`, when it is an object. */
  function FirstPage(root: Members): Option<Members>
  {
    match PagesObject(root)
    case None => None
    case Some(pages) => if |pages| > 0 then ObjectMember(pages, pages[0].0) else None
  }

  /** A forward response whose first page carries the link array `es`. */
  predicate ForwardShape(root: Members, es: seq<Json>)
  {
    FirstPage(root).Some? && Lookup(FirstPage(root).value, "links") == Some(JArr(es))
  }

  /** A forward response whose first page has no `links` member, as the
      service answers for an article that does not exist. */
  predicate ForwardShapeWithoutLinks(root: Members)
  {
    FirstPage(root).Some? && Lookup(FirstPage(root).value, "links") == None
  }

  /** A backward response carrying the array `es` under `query.backlinks`. */
  predicate BackwardShape(root: Members, es: seq<Json>)
  {
    ObjectMember(root, "query").Some? && Lookup(ObjectMember(root, "query").value, "backlinks") == Some(JArr(es))
  }

  lemma PagesLinkArrayOfShape(root: Members, es: seq<Json>)
    requires ForwardShape(root, es)
    ensures PagesLinkArray(Some(root)) == Ok(es)
  {
  }

  lemma PagesLinkArrayWithoutLinks(root: Members)
    requires ForwardShapeWithoutLinks(root)
    ensures PagesLinkArray(Some(root)) == Throw(Fail(NullPointerException))
  {
  }

  lemma BacklinkArrayOfShape(root: Members, es: seq<Json>)
    requires BackwardShape(root, es)
    ensures BacklinkArray(Lookup(root, "query")) == Ok(es)
  {
  }

  lemma ForwardEntriesOfShape(root: Members, es: seq<Json>)
    requires ForwardShape(root, es)
    ensures ForwardEntries(Parsed(JObj(root))) == Ok(es)
  {
    PagesLinkArrayOfShape(root, es);
  }

  lemma BackwardEntriesOfShape(root: Members, es: seq<Json>)
    requires BackwardShape(root, es)
    ensures BackwardEntries(Parsed(JObj(root))) == Ok(es)
  {
    BacklinkArrayOfShape(root, es);
  }
}
