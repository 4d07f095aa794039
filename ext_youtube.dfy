/**
 * The extension's view of the active tab: only watch, shorts and youtu.be
 * links count as a YouTube video page. Also the web-app link it opens.
 */
module ExtYouTube {
  import opened Wrappers
  import opened Strings
  import YouTubeUrl

  /** `getCurrentYouTubeUrl()` for the active tab's URL (`None` when the tab
      has none). */
  function CurrentYouTubeUrl(tabUrl: Option<string>): (r: Option<string>)
    ensures r.Some? <==> tabUrl.Some? && tabUrl.value != ""
                         && (Contains(tabUrl.value, "youtube.com/watch")
                             || Contains(tabUrl.value, "youtube.com/shorts")
                             || Contains(tabUrl.value, "youtu.be/"))
    ensures r.Some? ==> r == tabUrl
  {
    match tabUrl
    case None => None
    case Some(u) =>
      if u == "" then None
      else if !Contains(u, "youtube.com/watch") && !Contains(u, "youtube.com/shorts") && !Contains(u, "youtu.be/") then None
      else Some(u)
  }

  /** `getCurrentVideoId()`: the extracted id of a URL that passes the
      filter; `parse` is the URL parser. */
  function CurrentVideoId(tabUrl: Option<string>, parse: string -> Option<YouTubeUrl.Url>): Option<string> {
    match CurrentYouTubeUrl(tabUrl)
    case None => None
    case Some(u) => YouTubeUrl.ExtractVideoId(parse(u))
  }

  /** Without a tab URL there is no id; with one that passes the filter, the
      id is what the extractor finds. */
  lemma CurrentVideoIdSpec(tabUrl: Option<string>, parse: string -> Option<YouTubeUrl.Url>)
    ensures tabUrl.None? ==> CurrentVideoId(tabUrl, parse).None?
    ensures CurrentYouTubeUrl(tabUrl).Some? ==>
              CurrentVideoId(tabUrl, parse) == YouTubeUrl.ExtractVideoId(parse(tabUrl.value))
    ensures CurrentYouTubeUrl(tabUrl).None? ==> CurrentVideoId(tabUrl, parse).None?
  {
  }

  /** An embed link is refused by the tab filter although the extractor
      finds its id. */
  lemma EmbedLinkFiltered(parse: string -> Option<YouTubeUrl.Url>)
    requires parse("https://youtube.com/embed/x") == Some(YouTubeUrl.EmbedLink("", "x"))
    ensures YouTubeUrl.ExtractVideoId(parse("https://youtube.com/embed/x")) == Some("x")
    ensures CurrentYouTubeUrl(Some("https://youtube.com/embed/x")) == None
  {
    var s := "https://youtube.com/embed/x";
    YouTubeUrl.EmbedLinkRoundTrip("", "x");
    EmbedLinkShape(s);
    AbsentCharNotContained(s, "youtube.com/watch", 'w');
    AbsentCharNotContained(s, "youtube.com/shorts", 'r');
    NoShortLinkHost(s);
  }

  /** The characters of the embed link that the proof above needs. */
  lemma EmbedLinkShape(s: string)
    requires s == "https://youtube.com/embed/x"
    ensures |s| == 27 && 'w' !in s && 'r' !in s && s[10] == 'u'
    ensures forall j :: 0 <= j < |s| && s[j] == '.' ==> j == 15
  {
  }

  /** A pattern with a character the text lacks does not occur in it. */
  lemma AbsentCharNotContained(s: string, p: string, c: char)
    requires c in p && c !in s
    ensures !Contains(s, p)
  {
    ContainsIff(s, p);
  }

  /** "youtu.be/" does not occur in a text whose only "." is at index 15,
      preceded by no "youtu". */
  lemma NoShortLinkHost(s: string)
    requires |s| >= 16 && s[10] == 'u'
    requires forall j :: 0 <= j < |s| && s[j] == '.' ==> j == 15
    ensures !Contains(s, "youtu.be/")
  {
    var p := "youtu.be/";
    ContainsIff(s, p);
    forall i | 0 <= i && i + |p| <= |s|
      ensures !OccursAt(s, p, i)
    {
      if i == 10 {
        assert s[i..i + |p|][0] == 'u';
      } else {
        assert s[i..i + |p|][5] != '.';
      }
    }
  }

  const DefaultAppUrl: string := "https://ytrecall.online"

  /** `openWebApp(path)`: the configured app URL, or the default one, with the
      path appended; the path defaults to "". */
  function WebAppUrl(configured: Option<string>, path: Option<string>): (url: string)
    ensures configured.Some? && configured.value != "" ==> url == configured.value + path.GetOr("")
    ensures configured.None? || configured.value == "" ==> url == DefaultAppUrl + path.GetOr("")
  {
    var appUrl := if configured.Some? && configured.value != "" then configured.value else DefaultAppUrl;
    appUrl + path.GetOr("")
  }
}
