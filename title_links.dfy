/** What every expander but the older backward extractor does with a kept
    title: `URLEncoder.encode(title, "UTF-8").replace("+", "_")`, then the
    article URL of the result. */
module TitleLinks {
  import opened Jdk
  import opened Gson
  import opened UrlEncoder
  import opened LinkArray

  /** The part of an article URL before the title. */
  function ArticlePrefix(languageLocaleName: string): string
  {
    "https://" + languageLocaleName + ".wikipedia.org/wiki/"
  }

  /** Encoding a title and appending it to `prefix`; the encoding throws
      `UnsupportedEncodingException` where UTF-8 is not supported. */
  function EncodedLink(prefix: string, charsets: set<string>): string -> Outcome<string>
  {
    t =>
      match Encode(t, Utf8Charset, charsets)
      case Throw(exc) => Throw(exc)
      case Ok(encoded) => Ok(prefix + ReplacePlus(encoded))
  }

  /** The links of the titles `ts`, each in its canonical form after `prefix`. */
  function CanonicalLinks(prefix: string, ts: seq<string>): seq<string>
    decreases |ts|
  {
    if |ts| == 0 then [] else [prefix + Canonical(ts[0])] + CanonicalLinks(prefix, ts[1..])
  }

  lemma {:induction false} CanonicalLinksAt(prefix: string, ts: seq<string>, i: nat)
    requires i < |ts|
    ensures |CanonicalLinks(prefix, ts)| == |ts|
    ensures CanonicalLinks(prefix, ts)[i] == prefix + Canonical(ts[i])
    decreases |ts|
  {
    if i > 0 {
      CanonicalLinksAt(prefix, ts[1..], i - 1);
    } else if |ts| > 1 {
      CanonicalLinksAt(prefix, ts[1..], 0);
    }
  }

  lemma {:induction false} CanonicalLinksAppend(prefix: string, a: seq<string>, b: seq<string>)
    ensures CanonicalLinks(prefix, a + b) == CanonicalLinks(prefix, a) + CanonicalLinks(prefix, b)
    decreases |a|
  {
    if |a| == 0 {
      assert a + b == b;
    } else {
      assert (a + b)[1..] == a[1..] + b;
      CanonicalLinksAppend(prefix, a[1..], b);
    }
  }

  /** With UTF-8 supported and every entry readable, the loop collects the
      canonical link of each namespace-0 title, in order, and runs to the end. */
  lemma {:induction false} ScanEncoded(prefix: string, charsets: set<string>, es: seq<Json>)
    requires Utf8Charset in charsets
    requires AllReadable(es)
    ensures ScanLinks(es, EncodedLink(prefix, charsets)) == Scan(CanonicalLinks(prefix, ContentTitles(es)), None)
    decreases |es|
  {
    if |es| > 0 {
      var n := |es| - 1;
      var init := es[..n];
      ScanEncoded(prefix, charsets, init);
      ScanStep(es, n, EncodedLink(prefix, charsets));
      SplitLast(es);
      ContentTitlesAppend(init, es[n]);
      CanonicalLinksAppend(prefix, ContentTitles(init), Kept(es[n]));
      EncodedVisit(prefix, charsets, es[n]);
    }
  }

  /** One readable entry, encoded: its kept title's canonical link, if any. */
  lemma EncodedVisit(prefix: string, charsets: set<string>, entry: Json)
    requires Utf8Charset in charsets && Readable(entry)
    ensures Visit(entry, EncodedLink(prefix, charsets)) ==
      if Kept(entry) == [] then Ok(None) else Ok(Some(prefix + Canonical(Kept(entry)[0])))
    ensures CanonicalLinks(prefix, Kept(entry)) ==
      if Kept(entry) == [] then [] else [prefix + Canonical(Kept(entry)[0])]
  {
    var f := (t: string) => prefix + Canonical(t);
    forall t: string
      ensures EncodedLink(prefix, charsets)(t) == Ok(f(t))
    {
    }
    ReadableVisit(entry, EncodedLink(prefix, charsets), f);
  }

  /** With UTF-8 supported, the loop stops at the first unreadable entry with
      its exception and the canonical links of the entries before it. */
  lemma ScanEncodedStops(prefix: string, charsets: set<string>, es: seq<Json>, k: nat)
    requires Utf8Charset in charsets
    requires k < |es| && AllReadable(es[..k]) && !Readable(es[k])
    ensures ScanLinks(es, EncodedLink(prefix, charsets)) ==
      Scan(CanonicalLinks(prefix, ContentTitles(es[..k])), Some(ReadFailure(es[k])))
  {
    ScanEncoded(prefix, charsets, es[..k]);
    ScanStep(es, k, EncodedLink(prefix, charsets));
    ScanStopped(es, k + 1, EncodedLink(prefix, charsets));
    ReadFailureKind(es[k]);
  }

  /** Without UTF-8 no link is ever collected: the first namespace-0 title
      with a readable title stops the loop with the encoding failure. */
  lemma {:induction false} ScanWithoutUtf8(prefix: string, charsets: set<string>, es: seq<Json>)
    requires Utf8Charset !in charsets
    ensures ScanLinks(es, EncodedLink(prefix, charsets)).links == []
    ensures ScanLinks(es, EncodedLink(prefix, charsets)).stopped.Some? ==>
      ScanLinks(es, EncodedLink(prefix, charsets)).stopped.value.kind in
        {NullPointerException, IllegalStateException, UnsupportedOperationException, NumberFormatException,
         UnsupportedEncodingException}
    decreases |es|
  {
    if |es| > 0 {
      var n := |es| - 1;
      ScanWithoutUtf8(prefix, charsets, es[..n]);
      ScanStep(es, n, EncodedLink(prefix, charsets));
      SplitLast(es);
      if !Readable(es[n]) {
        ReadFailureKind(es[n]);
      }
    }
  }

  /** One readable entry without UTF-8: skipped unless it is kept, and a
      kept title fails to encode. */
  lemma VisitWithoutUtf8(prefix: string, charsets: set<string>, entry: Json)
    requires Utf8Charset !in charsets && Readable(entry)
    ensures Visit(entry, EncodedLink(prefix, charsets)) ==
      if Kept(entry) == [] then Ok(None) else Throw(Exc(UnsupportedEncodingException, Utf8Charset, None))
  {
  }

  /** Without UTF-8, a loop over readable entries collects nothing, and it
      stops with the encoding failure exactly when some entry is kept. */
  lemma {:induction false} ScanReadableWithoutUtf8(prefix: string, charsets: set<string>, es: seq<Json>)
    requires Utf8Charset !in charsets && AllReadable(es)
    ensures ScanLinks(es, EncodedLink(prefix, charsets)) ==
      Scan([], if ContentTitles(es) == [] then None else Some(Exc(UnsupportedEncodingException, Utf8Charset, None)))
    decreases |es|
  {
    if |es| > 0 {
      var n := |es| - 1;
      var init := es[..n];
      ScanReadableWithoutUtf8(prefix, charsets, init);
      ScanStep(es, n, EncodedLink(prefix, charsets));
      SplitLast(es);
      ContentTitlesAppend(init, es[n]);
      VisitWithoutUtf8(prefix, charsets, es[n]);
    }
  }

  lemma EncodedLinkOk(prefix: string, charsets: set<string>, t: string, link: string)
    requires EncodedLink(prefix, charsets)(t) == Ok(link)
    ensures link == prefix + Canonical(t)
  {
  }

  /** `link` is `prefix` followed by the canonical form of the title of a
      namespace-0 entry of `es`. */
  predicate LinkOfContentEntry(prefix: string, es: seq<Json>, link: string)
  {
    exists i :: 0 <= i < |es| && Namespace(es[i]) == Ok(0) && Title(es[i]).Ok? &&
                link == prefix + Canonical(Title(es[i]).value)
  }

  /** At most one link per entry, and each comes from a namespace-0 entry. */
  lemma ScanEncodedLinks(prefix: string, charsets: set<string>, es: seq<Json>)
    ensures |ScanLinks(es, EncodedLink(prefix, charsets)).links| <= |es|
    ensures forall link <- ScanLinks(es, EncodedLink(prefix, charsets)).links :: LinkOfContentEntry(prefix, es, link)
  {
    var render := EncodedLink(prefix, charsets);
    ScanProvenance(es, render);
    forall link <- ScanLinks(es, render).links
      ensures LinkOfContentEntry(prefix, es, link)
    {
      var i :| 0 <= i < |es| && Namespace(es[i]) == Ok(0) && Title(es[i]).Ok? &&
               render(Title(es[i]).value) == Ok(link);
      EncodedLinkOk(prefix, charsets, Title(es[i]).value, link);
    }
  }

  /** `link` is `prefix` followed by a part with neither a space nor a `+`,
      as every link the encoding expanders collect is. */
  predicate IsArticleLink(prefix: string, link: string)
  {
    |prefix| <= |link| && link[..|prefix|] == prefix && ' ' !in link[|prefix|..] && '+' !in link[|prefix|..]
  }

  lemma CanonicalLinkIsArticleLink(prefix: string, t: string)
    ensures IsArticleLink(prefix, prefix + Canonical(t))
  {
    CanonicalAlphabet(t);
    var link := prefix + Canonical(t);
    assert link[..|prefix|] == prefix;
    assert link[|prefix|..] == Canonical(t);
  }

  /** Every link the loop collects is an article link after `prefix`. */
  lemma ScanArticleLinks(prefix: string, charsets: set<string>, es: seq<Json>)
    ensures forall link <- ScanLinks(es, EncodedLink(prefix, charsets)).links :: IsArticleLink(prefix, link)
  {
    ScanEncodedLinks(prefix, charsets, es);
    forall link <- ScanLinks(es, EncodedLink(prefix, charsets)).links
      ensures IsArticleLink(prefix, link)
    {
      assert LinkOfContentEntry(prefix, es, link);
      var i :| 0 <= i < |es| && Namespace(es[i]) == Ok(0) && Title(es[i]).Ok? &&
               link == prefix + Canonical(Title(es[i]).value);
      CanonicalLinkIsArticleLink(prefix, Title(es[i]).value);
    }
  }
}
