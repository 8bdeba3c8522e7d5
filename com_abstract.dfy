/** The shared part of the newer (`com.github.coderodde`) expanders: the
    article URL through `String.format`, and `downloadJson`, which builds the
    query URL and lets every failure propagate. The constructor, the
    templates and the API URL are those of `WikipediaApi`. */
module ComAbstract {
  import opened Jdk
  import opened Gson
  import opened UrlEncoder
  import opened LinkArray
  import opened TitleLinks
  import opened WikipediaApi

  const FullLinkFormat: string := "https://" + "%s" + ".wikipedia.org/wiki/" + "%s"

  /** `constructFullWikipediaLink(title)`: the article prefix of the
      expander's language, then `title` as it is. A method, so that callers
      see its contract rather than the unfolding of the template. */
  method ConstructFullWikipediaLink(e: Expander, title: string) returns (link: string)
    ensures link == ArticlePrefix(e.languageLocaleName) + title
    ensures link == "https://" + e.languageLocaleName + ".wikipedia.org/wiki/" + title
  {
    FullLinkShape(e.languageLocaleName, title);
    link := Format(FullLinkFormat, [e.languageLocaleName, title]);
  }

  lemma FullLinkShape(lang: string, title: string)
    ensures Conforms(FullLinkFormat, 2)
    ensures Format(FullLinkFormat, [lang, title]) == "https://" + lang + ".wikipedia.org/wiki/" + title
  {
    var a, b, c := "https://", ".wikipedia.org/wiki/", "";
    assert FullLinkFormat == a + "%s" + b + "%s" + c;
    FormatTwo(a, b, c, lang, title);
  }

  /** `downloadJson(articleName, forward)` against a server answering each
      URL with `server(url)`: `URLEncoder.encode(articleName, "UTF-8")`,
      whose `UnsupportedEncodingException` propagates, placed in the
      template of the direction, then the download, whose failures
      propagate. */
  function DownloadJson(e: Expander, charsets: set<string>, articleName: string, forward: bool,
                        server: string -> Download): (r: Download)
    ensures Utf8Charset !in charsets ==> r == Throw(Exc(UnsupportedEncodingException, "UTF-8", None))
    ensures Utf8Charset in charsets && forward ==>
      r == server(e.apiUrl + "?action=query&titles=" + FormEncode(articleName) + "&prop=links&pllimit=max&format=json")
    ensures Utf8Charset in charsets && !forward ==>
      r == server(e.apiUrl + "?action=query&list=backlinks&bltitle=" + FormEncode(articleName) + "&bllimit=max&format=json")
  {
    var encoded :- Encode(articleName, Utf8Charset, charsets);
    server(RequestUrl(e.apiUrl, forward, encoded))
  }

  /** The `for` loop both `getNeighbors` run over a link array: the title of
      each namespace-0 entry, encoded with UTF-8, `+` replaced by `_`, as an
      article link, in order; `stopped` is the exception that ended the
      loop early, if one did. */
  method CollectLinks(e: Expander, charsets: set<string>, es: seq<Json>)
    returns (linkNameList: seq<string>, stopped: Option<Exc>)
    ensures ScanLinks(es, EncodedLink(ArticlePrefix(e.languageLocaleName), charsets)) == Scan(linkNameList, stopped)
  {
    ghost var render := EncodedLink(ArticlePrefix(e.languageLocaleName), charsets);
    linkNameList := [];
    var i := 0;
    while i < |es|
      invariant 0 <= i <= |es|
      invariant ScanLinks(es[..i], render) == Scan(linkNameList, None)
    {
      ScanStep(es, i, render);
      var namespace := Namespace(es[i]);
      if namespace.Throw? {
        ScanStopped(es, i + 1, render);
        return linkNameList, Some(namespace.exc);
      }
      if namespace.value == 0 {
        var title := Title(es[i]);
        if title.Throw? {
          ScanStopped(es, i + 1, render);
          return linkNameList, Some(title.exc);
        }
        var encoded := Encode(title.value, Utf8Charset, charsets);
        if encoded.Throw? {
          assert Visit(es[i], render) == Throw(encoded.exc);
          ScanStopped(es, i + 1, render);
          return linkNameList, Some(encoded.exc);
        }
        var link := ConstructFullWikipediaLink(e, ReplacePlus(encoded.value));
        assert Visit(es[i], render) == Ok(Some(link));
        linkNameList := linkNameList + [link];
      } else {
        assert Visit(es[i], render) == Ok(None);
      }
      i := i + 1;
    }
    assert es[..i] == es;
    return linkNameList, None;
  }

  /** The constructor rejects a code that is not an ISO language, with the
      message naming it; `"shit"` is the code the tests use. */
  lemma UnknownCodeRejected(isoLanguages: set<string>)
    requires "shit" !in isoLanguages
    ensures New(isoLanguages, "shit") == Throw(Exc(IllegalArgumentException, "Unknown language locale name: shit.", None))
  {
    assert "Unknown language locale name: " + "shit" + "." == "Unknown language locale name: shit.";
  }
}
