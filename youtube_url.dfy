/**
 * Video-id extraction from YouTube links. The URL is taken as the WHATWG URL
 * parser leaves it (host name, path, query pairs in order); `None` stands for a
 * string the parser rejects.
 */
module YouTubeUrl {
  import opened Wrappers
  import opened Strings

  datatype Url = Url(hostname: string, pathname: string, query: seq<(string, string)>)

  /** `searchParams.get(key)`: the value of the first pair with that key. */
  function QueryGet(query: seq<(string, string)>, key: string): (v: Option<string>)
    ensures v.Some? <==> exists i :: 0 <= i < |query| && query[i].0 == key
    ensures v.Some? ==> exists i :: 0 <= i < |query| && query[i] == (key, v.value)
                                 && forall j :: 0 <= j < i ==> query[j].0 != key
  {
    if query == [] then None
    else if query[0].0 == key then Some(query[0].1)
    else
      var v := QueryGet(query[1..], key);
      assert forall i :: 1 <= i < |query| ==> query[i] == query[1..][i - 1];
      v
  }

  predicate IsYouTubeHost(hostname: string) {
    Contains(hostname, "youtube.com")
  }

  /** `pathname.split("/")[2]` for a path that starts with "/" + w + "/". */
  function SecondSegment(path: string, w: string): string
    requires '/' !in w && StartsWith(path, "/" + w + "/")
  {
    var rest := path[|w| + 2..];
    assert path == "/" + w + "/" + rest;
    SplitThirdSegment(w, rest);
    Split(path, '/')[2]
  }

  /** `extractYouTubeVideoId`. */
  function ExtractVideoId(url: Option<Url>): Option<string>
  {
    match url
    case None => None
    case Some(u) =>
      if IsYouTubeHost(u.hostname) && u.pathname == "/watch" then
        QueryGet(u.query, "v")
      else if u.hostname == "youtu.be" then
        Some(if u.pathname == "" then "" else u.pathname[1..])
      else if IsYouTubeHost(u.hostname) && StartsWith(u.pathname, "/shorts/") then
        Some(SecondSegment(u.pathname, "shorts"))
      else if IsYouTubeHost(u.hostname) && StartsWith(u.pathname, "/embed/") then
        Some(SecondSegment(u.pathname, "embed"))
      else
        None
  }

  /** `isValidYouTubeUrl`. */
  function IsValidYouTubeUrl(url: Option<Url>): bool {
    ExtractVideoId(url) != None
  }

  /** Validity is exactly "an id can be extracted", and a URL the parser
      rejects is never valid. */
  lemma ValidIffExtracts(url: Option<Url>)
    ensures IsValidYouTubeUrl(url) <==> ExtractVideoId(url).Some?
    ensures url.None? ==> !IsValidYouTubeUrl(url)
  {
  }

  /** Any subdomain of youtube.com (www., m., music., ...) is a YouTube host. */
  lemma SubdomainIsYouTubeHost(sub: string)
    ensures IsYouTubeHost(sub + "youtube.com")
  {
    StartsWithContains("youtube.com", "youtube.com");
    ContainsAfterPrefix(sub, "youtube.com", "youtube.com");
  }

  /** The four link shapes the extractor recognises, built from an id. */
  function WatchLink(sub: string, id: string): Url { Url(sub + "youtube.com", "/watch", [("v", id)]) }
  function ShortLink(id: string): Url { Url("youtu.be", "/" + id, []) }
  function ShortsLink(sub: string, id: string): Url { Url(sub + "youtube.com", "/shorts/" + id, []) }
  function EmbedLink(sub: string, id: string): Url { Url(sub + "youtube.com", "/embed/" + id, []) }

  /** Extraction inverts link building: a watch link on any youtube.com
      subdomain yields its `v` parameter. */
  lemma WatchLinkRoundTrip(sub: string, id: string)
    ensures ExtractVideoId(Some(WatchLink(sub, id))) == Some(id)
  {
    SubdomainIsYouTubeHost(sub);
  }

  /** A youtu.be link yields the path after its leading "/". */
  lemma ShortLinkRoundTrip(id: string)
    ensures ExtractVideoId(Some(ShortLink(id))) == Some(id)
  {
    assert ("/" + id)[1..] == id;
  }

  /** A shorts link on any youtube.com subdomain yields its id when the id has
      no "/". */
  lemma ShortsLinkRoundTrip(sub: string, id: string)
    requires '/' !in id
    ensures ExtractVideoId(Some(ShortsLink(sub, id))) == Some(id)
  {
    SubdomainIsYouTubeHost(sub);
    ShortsPath(id);
  }

  /** The path of a shorts link is not the watch path, and its second
      segment is the id. */
  lemma ShortsPath(id: string)
    requires '/' !in id
    ensures var p := "/shorts/" + id;
            p != "/watch" && StartsWith(p, "/shorts/") && SecondSegment(p, "shorts") == id
  {
    var p := "/shorts/" + id;
    assert p == "/" + "shorts" + "/" + id;
    assert p[..8] == "/shorts/";
    assert p != "/watch" by { assert p[1] != "/watch"[1]; }
    SplitThirdSegment("shorts", id);
    assert TakeUntil(id, '/') == id;
  }

  /** An embed link on any youtube.com subdomain yields its id when the id has
      no "/". */
  lemma EmbedLinkRoundTrip(sub: string, id: string)
    requires '/' !in id
    ensures ExtractVideoId(Some(EmbedLink(sub, id))) == Some(id)
  {
    SubdomainIsYouTubeHost(sub);
    EmbedPath(id);
  }

  /** The path of an embed link is taken for neither of the earlier shapes,
      and its second segment is the id. */
  lemma EmbedPath(id: string)
    requires '/' !in id
    ensures var q := "/embed/" + id;
            q != "/watch" && !StartsWith(q, "/shorts/") && StartsWith(q, "/embed/")
            && SecondSegment(q, "embed") == id
  {
    var q := "/embed/" + id;
    assert q == "/" + "embed" + "/" + id;
    assert q[..7] == "/embed/";
    assert q != "/watch" by { assert q[1] != "/watch"[1]; }
    assert !StartsWith(q, "/shorts/") by { assert q[1] != "/shorts/"[1]; }
    SplitThirdSegment("embed", id);
    assert TakeUntil(id, '/') == id;
  }

  /** A host that neither contains "youtube.com" nor is "youtu.be" yields no id. */
  lemma OtherHostsRejected(u: Url)
    requires !IsYouTubeHost(u.hostname) && u.hostname != "youtu.be"
    ensures ExtractVideoId(Some(u)) == None
  {
  }

  /** On a YouTube host, a watch link yields exactly its first `v` parameter,
      and a watch link without one yields nothing. */
  lemma WatchLinkUsesV(u: Url)
    requires IsYouTubeHost(u.hostname) && u.pathname == "/watch"
    ensures ExtractVideoId(Some(u)) == QueryGet(u.query, "v")
    ensures (forall i :: 0 <= i < |u.query| ==> u.query[i].0 != "v") ==> ExtractVideoId(Some(u)) == None
  {
  }
}
