/** What both versions of the abstract expander share word for word: the
    query templates, the API URL, the language check of the constructor, and
    the query URL built from an encoded title. */
module WikipediaApi {
  import opened Jdk

  const ForwardRequestApiUrlSuffix: string := "?action=query&titles=" + "%s" + "&prop=links&pllimit=max&format=json"
  const BackwardRequestApiUrlSuffix: string := "?action=query&list=backlinks&bltitle=" + "%s" + "&bllimit=max&format=json"
  const ApiUrlFormat: string := "https://" + "%s" + ".wikipedia.org/w/api.php"
  const UnknownLanguageFormat: string := "Unknown language locale name: " + "%s" + "."

  /** An expander's final fields. */
  datatype Expander = Expander(languageLocaleName: string, apiUrl: string)

  /** The API URL of a language: `String.format(API_URL_FORMAT,
      languageLocaleName)`, as `ApiUrlIsFormatted` shows. */
  function ConstructApiUrl(languageLocaleName: string): string
  {
    "https://" + languageLocaleName + ".wikipedia.org/w/api.php"
  }

  lemma ApiUrlIsFormatted(languageLocaleName: string)
    ensures Conforms(ApiUrlFormat, 1)
    ensures ConstructApiUrl(languageLocaleName) == Format(ApiUrlFormat, [languageLocaleName])
  {
    FormatOne("https://", ".wikipedia.org/w/api.php", languageLocaleName);
  }

  /** `checkLanguageLocaleName`: `IllegalArgumentException` unless the code is
      one of `Locale.getISOLanguages()`, given here as `isoLanguages`. */
  function CheckLanguageLocaleName(isoLanguages: set<string>, languageLocaleName: string): (r: Outcome<()>)
    ensures r.Ok? <==> languageLocaleName in isoLanguages
  {
    if languageLocaleName in isoLanguages then Ok(())
    else Throw(Exc(IllegalArgumentException, "Unknown language locale name: " + languageLocaleName + ".", None))
  }

  /** The message of the rejection is
      `String.format("Unknown language locale name: %s.", languageLocaleName)`. */
  lemma UnknownLanguageIsFormatted(isoLanguages: set<string>, languageLocaleName: string)
    requires languageLocaleName !in isoLanguages
    ensures Conforms(UnknownLanguageFormat, 1)
    ensures CheckLanguageLocaleName(isoLanguages, languageLocaleName) ==
      Throw(Exc(IllegalArgumentException, Format(UnknownLanguageFormat, [languageLocaleName]), None))
  {
    FormatOne("Unknown language locale name: ", ".", languageLocaleName);
  }

  /** The constructor: the code is checked first, then stored unchanged with
      the API URL built from it. */
  function New(isoLanguages: set<string>, languageLocaleName: string): (r: Outcome<Expander>)
    ensures r.Ok? <==> languageLocaleName in isoLanguages
    ensures r.Ok? ==> r.value.languageLocaleName == languageLocaleName
    ensures r.Ok? ==> r.value.apiUrl == "https://" + languageLocaleName + ".wikipedia.org/w/api.php"
    ensures r.Throw? ==> r.exc == Exc(IllegalArgumentException, "Unknown language locale name: " + languageLocaleName + ".", None)
  {
    var _ :- CheckLanguageLocaleName(isoLanguages, languageLocaleName);
    Ok(Expander(languageLocaleName, ConstructApiUrl(languageLocaleName)))
  }

  /** The query URL of `baseGetNeighbors` and `downloadJson`: the API URL,
      then the forward or the backward template with the encoded title at
      its one `%s`. */
  function RequestUrl(apiUrl: string, forward: bool, encodedTitle: string): string
  {
    if forward then apiUrl + "?action=query&titles=" + encodedTitle + "&prop=links&pllimit=max&format=json"
    else apiUrl + "?action=query&list=backlinks&bltitle=" + encodedTitle + "&bllimit=max&format=json"
  }

  /** `RequestUrl` is `apiUrl + String.format(template, encodedTitle)` with
      the template of the direction. */
  lemma RequestUrlIsFormatted(apiUrl: string, forward: bool, encodedTitle: string)
    ensures Conforms(ForwardRequestApiUrlSuffix, 1) && Conforms(BackwardRequestApiUrlSuffix, 1)
    ensures forward ==> RequestUrl(apiUrl, forward, encodedTitle) == apiUrl + Format(ForwardRequestApiUrlSuffix, [encodedTitle])
    ensures !forward ==> RequestUrl(apiUrl, forward, encodedTitle) == apiUrl + Format(BackwardRequestApiUrlSuffix, [encodedTitle])
  {
    ForwardSuffix(encodedTitle);
    BackwardSuffix(encodedTitle);
    Concatenation(apiUrl, "?action=query&titles=", encodedTitle, "&prop=links&pllimit=max&format=json");
    Concatenation(apiUrl, "?action=query&list=backlinks&bltitle=", encodedTitle, "&bllimit=max&format=json");
  }

  lemma Concatenation(w: string, x: string, y: string, z: string)
    ensures w + x + y + z == w + (x + y + z)
  {
  }

  lemma ForwardSuffix(x: string)
    ensures Conforms(ForwardRequestApiUrlSuffix, 1)
    ensures Format(ForwardRequestApiUrlSuffix, [x]) == "?action=query&titles=" + x + "&prop=links&pllimit=max&format=json"
  {
    FormatOne("?action=query&titles=", "&prop=links&pllimit=max&format=json", x);
  }

  lemma BackwardSuffix(x: string)
    ensures Conforms(BackwardRequestApiUrlSuffix, 1)
    ensures Format(BackwardRequestApiUrlSuffix, [x]) == "?action=query&list=backlinks&bltitle=" + x + "&bllimit=max&format=json"
  {
    FormatOne("?action=query&list=backlinks&bltitle=", "&bllimit=max&format=json", x);
  }
}
