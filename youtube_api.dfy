/**
 * The YouTube Data API client of the web app: the liked-videos fetch (playlist
 * pagination, detail batches of 50, playlist-order sort) and the duration and
 * relative-date formatting it applies to every video. The API itself is a
 * parameter: the sequence of playlist pages it returns to successive requests
 * and the sequence of detail responses it returns to successive batches.
 */
module YouTubeApi {
  import opened Wrappers
  import opened Strings
  import opened Seqs

  // ---------------------------------------------------------------------------
  // Durations

  /** Index of the first "PT", where the duration pattern's match begins. */
  function FindPT(s: string): (k: Option<nat>)
    ensures k.Some? ==> k.value + 2 <= |s| && s[k.value] == 'P' && s[k.value + 1] == 'T'
    ensures k.Some? ==> forall j :: 0 <= j < k.value ==> !(s[j] == 'P' && s[j + 1] == 'T')
    ensures k.None? ==> forall j :: 0 <= j < |s| - 1 ==> !(s[j] == 'P' && s[j + 1] == 'T')
  {
    if |s| < 2 then None
    else if s[0] == 'P' && s[1] == 'T' then Some(0)
    else match FindPT(s[1..])
      case None => None
      case Some(k) => Some(k + 1)
  }

  /** Length of the run of digits `s` starts with. */
  function DigitRun(s: string): (n: nat)
    ensures n <= |s| && AllDigits(s[..n])
    ensures n < |s| ==> !IsDigit(s[n])
  {
    if s != [] && IsDigit(s[0]) then 1 + DigitRun(s[1..]) else 0
  }

  /** The optional group `(?:(\d+)d)?` at the head of `s`: the number and the
      text after the designator, or nothing and `s` unchanged. */
  function Group(s: string, d: char): (Option<nat>, string) {
    var n := DigitRun(s);
    if 0 < n < |s| && s[n] == d then (Some(DigitsValue(s[..n])), s[n + 1..]) else (None, s)
  }

  /** `H:MM:SS` when there are hours, `M:SS` otherwise. */
  function FormatClock(h: nat, m: nat, s: nat): string {
    if h > 0 then NatString(h) + ":" + PadStart2(NatString(m)) + ":" + PadStart2(NatString(s))
    else NatString(m) + ":" + PadStart2(NatString(s))
  }

  /** `parseDuration`: the ISO 8601 `PT…H…M…S` duration as a clock, missing
      parts counting as zero; no "PT" at all gives "". */
  function ParseDuration(duration: string): string {
    match FindPT(duration)
    case None => ""
    case Some(k) =>
      var hours := Group(duration[k + 2..], 'H');
      var minutes := Group(hours.1, 'M');
      var seconds := Group(minutes.1, 'S');
      FormatClock(hours.0.GetOr(0), minutes.0.GetOr(0), seconds.0.GetOr(0))
  }

  /** One component of an ISO 8601 duration, when present. */
  function Part(o: Option<nat>, d: char): string {
    match o
    case None => ""
    case Some(n) => NatString(n) + [d]
  }

  /** The ISO 8601 duration the API writes for the given components. */
  function IsoDuration(h: Option<nat>, m: Option<nat>, s: Option<nat>): string {
    "PT" + Part(h, 'H') + Part(m, 'M') + Part(s, 'S')
  }

  lemma DigitRunOfNumber(n: nat, rest: string)
    requires rest != [] && !IsDigit(rest[0])
    ensures DigitRun(NatString(n) + rest) == |NatString(n)|
  {
    var a := NatString(n);
    var s := a + rest;
    var k := DigitRun(s);
    assert forall i :: 0 <= i < |a| ==> s[i] == a[i];
    assert s[|a|] == rest[0];
  }

  /** A present component is read back, leaving what follows it. */
  lemma GroupPart(o: Option<nat>, d: char, tail: string)
    requires !IsDigit(d)
    requires Group(tail, d) == (None, tail)
    ensures Group(Part(o, d) + tail, d) == (o, tail)
  {
    if o.Some? {
      var a := NatString(o.value);
      var s := a + [d] + tail;
      assert s == a + ([d] + tail);
      DigitRunOfNumber(o.value, [d] + tail);
      assert s[..|a|] == a;
      assert s[|a| + 1..] == tail;
      NatStringRoundTrip(o.value);
    } else {
      assert Part(o, d) + tail == tail;
    }
  }

  /** A component with another designator is skipped: the group is absent. */
  lemma GroupSkip(o: Option<nat>, e: char, tail: string, d: char)
    requires !IsDigit(e) && e != d
    requires o.None? ==> Group(tail, d) == (None, tail)
    ensures Group(Part(o, e) + tail, d) == (None, Part(o, e) + tail)
  {
    if o.Some? {
      var a := NatString(o.value);
      var s := a + [e] + tail;
      assert s == a + ([e] + tail);
      DigitRunOfNumber(o.value, [e] + tail);
    } else {
      assert Part(o, e) + tail == tail;
    }
  }

  /** Parsing what the API writes gives the clock of its components, the
      missing ones taken as zero. */
  lemma ParseIsoDuration(h: Option<nat>, m: Option<nat>, s: Option<nat>)
    ensures ParseDuration(IsoDuration(h, m, s)) == FormatClock(h.GetOr(0), m.GetOr(0), s.GetOr(0))
  {
    var a, b, c := Part(h, 'H'), Part(m, 'M'), Part(s, 'S');
    var iso := IsoDuration(h, m, s);
    assert iso == "PT" + (a + (b + c));
    assert FindPT(iso) == Some(0);
    assert iso[2..] == a + (b + c);
    assert Group([], 'H') == (None, []) && Group([], 'M') == (None, []) && Group([], 'S') == (None, []);
    GroupSkip(s, 'S', [], 'H');
    assert c + [] == c;
    GroupSkip(m, 'M', c, 'H');
    GroupPart(h, 'H', b + c);
    GroupSkip(s, 'S', [], 'M');
    GroupPart(m, 'M', c);
    GroupPart(s, 'S', []);
  }

  /** The example of the source comment: four minutes thirteen seconds. */
  lemma ParseDurationMinutesSeconds()
    ensures ParseDuration("PT4M13S") == "4:13"
  {
    assert NatString(13) == "13";
    assert IsoDuration(None, Some(4), Some(13)) == "PT4M13S" by {
      assert Part(Some(13), 'S') == "13S";
    }
    assert FormatClock(0, 4, 13) == "4:13";
    ParseIsoDuration(None, Some(4), Some(13));
  }

  /** With hours, minutes and seconds are padded to two digits. */
  lemma ParseDurationHours()
    ensures ParseDuration("PT1H2M3S") == "1:02:03"
  {
    assert IsoDuration(Some(1), Some(2), Some(3)) == "PT1H2M3S" by {
      assert Part(Some(1), 'H') == "1H" && Part(Some(2), 'M') == "2M" && Part(Some(3), 'S') == "3S";
    }
    assert FormatClock(1, 2, 3) == "1:02:03";
    ParseIsoDuration(Some(1), Some(2), Some(3));
  }

  /** A duration without "PT" (days only) gives the empty string. */
  lemma ParseDurationWithoutTime()
    ensures ParseDuration("P1D") == ""
  {
    assert FindPT("P1D") == None;
  }

  /** Reads a clock back: three numbers for `H:MM:SS`, two for `M:SS`. */
  function ReadClock(t: string): Option<(nat, nat, nat)> {
    var parts := Split(t, ':');
    if |parts| == 3 && AllDigits(parts[0]) && AllDigits(parts[1]) && AllDigits(parts[2]) then
      Some((DigitsValue(parts[0]), DigitsValue(parts[1]), DigitsValue(parts[2])))
    else if |parts| == 2 && AllDigits(parts[0]) && AllDigits(parts[1]) then
      Some((0, DigitsValue(parts[0]), DigitsValue(parts[1])))
    else None
  }

  lemma SplitWithoutSeparator(a: string)
    requires AllDigits(a)
    ensures Split(a, ':') == [a]
  {
    assert FirstIndex(a, ':') == |a|;
  }

  lemma SplitAfterDigits(a: string, b: string)
    requires AllDigits(a)
    ensures Split(a + ":" + b, ':') == [a] + Split(b, ':')
  {
    var s := a + ":" + b;
    assert s[|a|] == ':';
    assert FirstIndex(s, ':') == |a|;
    assert s[..|a|] == a && s[|a| + 1..] == b;
  }

  /** A leading zero does not change a number's value. */
  lemma {:induction false} LeadingZero(x: string)
    requires AllDigits(x)
    ensures AllDigits("0" + x) && DigitsValue("0" + x) == DigitsValue(x)
    decreases |x|
  {
    if x != [] {
      var y := "0" + x;
      assert y[..|y| - 1] == "0" + x[..|x| - 1];
      LeadingZero(x[..|x| - 1]);
    }
  }

  /** Zero-padding to two digits keeps the value. */
  lemma PaddedValue(n: nat)
    ensures AllDigits(PadStart2(NatString(n)))
    ensures DigitsValue(PadStart2(NatString(n))) == n
  {
    var x := NatString(n);
    NatStringRoundTrip(n);
    if |x| == 1 {
      LeadingZero(x);
    }
  }

  /** The clock determines its components: reading it back recovers them. */
  lemma ClockRoundTrip(h: nat, m: nat, s: nat)
    ensures ReadClock(FormatClock(h, m, s)) == Some((h, m, s))
  {
    if h > 0 {
      HoursClockRoundTrip(h, m, s);
    } else {
      MinutesClockRoundTrip(m, s);
    }
  }

  lemma HoursClockRoundTrip(h: nat, m: nat, s: nat)
    requires h > 0
    ensures ReadClock(FormatClock(h, m, s)) == Some((h, m, s))
  {
    PaddedValue(m);
    PaddedValue(s);
    NatStringRoundTrip(h);
    var hs, pm, ps := NatString(h), PadStart2(NatString(m)), PadStart2(NatString(s));
    assert FormatClock(h, m, s) == hs + ":" + (pm + ":" + ps);
    ReadThreeFields(hs, pm, ps);
  }

  lemma ReadThreeFields(a: string, b: string, c: string)
    requires AllDigits(a) && AllDigits(b) && AllDigits(c)
    ensures ReadClock(a + ":" + (b + ":" + c)) == Some((DigitsValue(a), DigitsValue(b), DigitsValue(c)))
  {
    SplitWithoutSeparator(c);
    SplitAfterDigits(b, c);
    SplitAfterDigits(a, b + ":" + c);
    assert Split(a + ":" + (b + ":" + c), ':') == [a, b, c];
  }

  lemma MinutesClockRoundTrip(m: nat, s: nat)
    ensures ReadClock(FormatClock(0, m, s)) == Some((0, m, s))
  {
    PaddedValue(s);
    NatStringRoundTrip(m);
    var ms, ps := NatString(m), PadStart2(NatString(s));
    SplitWithoutSeparator(ps);
    SplitAfterDigits(ms, ps);
    assert Split(FormatClock(0, m, s), ':') == [ms, ps];
  }

  // ---------------------------------------------------------------------------
  // Relative dates

  /** A date string as `new Date` reads it: missing (null, undefined or ""),
      unparseable (NaN), or an instant in milliseconds. */
  datatype DateInput = Absent | Invalid | Instant(ms: int)

  const MsPerDay: int := 1000 * 60 * 60 * 24

  /** `Math.floor(diffMs / 86400000)`: Dafny's division by a positive divisor
      rounds down, as `Math.floor` does. */
  function DaysBetween(dateMs: int, nowMs: int): int {
    (nowMs - dateMs) / MsPerDay
  }

  /** The text for a whole number of days ago. */
  function DaysLabel(days: int): string {
    if days == 0 then "Today"
    else if days == 1 then "Yesterday"
    else if days < 7 then IntString(days) + " days ago"
    else if days < 30 then NatString(days / 7) + " weeks ago"
    else if days < 365 then NatString(days / 30) + " months ago"
    else NatString(days / 365) + " years ago"
  }

  /** `formatDate` with the clock read as `nowMs`. Every comparison with NaN is
      false, so an unparseable date falls through to "NaN years ago". */
  function FormatDate(date: DateInput, nowMs: int): string {
    match date
    case Absent => ""
    case Invalid => "NaN years ago"
    case Instant(t) => DaysLabel(DaysBetween(t, nowMs))
  }

  /** The day count is the number of whole days elapsed, rounded down. */
  lemma DaysBetweenIsFloor(dateMs: int, nowMs: int)
    ensures DaysBetween(dateMs, nowMs) * MsPerDay <= nowMs - dateMs < (DaysBetween(dateMs, nowMs) + 1) * MsPerDay
  {
  }

  /** "Today" is less than a day ago, "Yesterday" one to two days ago; the
      week, month and year counts fall in the ranges their buckets imply, and
      a date in the future reads as a negative number of days. */
  lemma FormatDateBuckets(t: int, nowMs: int)
    ensures var diff := nowMs - t;
            FormatDate(Instant(t), nowMs) == "Today" <==> 0 <= diff < MsPerDay
    ensures var diff := nowMs - t;
            FormatDate(Instant(t), nowMs) == "Yesterday" <==> MsPerDay <= diff < 2 * MsPerDay
    ensures var d := DaysBetween(t, nowMs);
            7 <= d < 30 ==> 1 <= d / 7 <= 4 && FormatDate(Instant(t), nowMs) == NatString(d / 7) + " weeks ago"
    ensures var d := DaysBetween(t, nowMs);
            30 <= d < 365 ==> 1 <= d / 30 <= 12 && FormatDate(Instant(t), nowMs) == NatString(d / 30) + " months ago"
    ensures nowMs < t ==> FormatDate(Instant(t), nowMs)[0] == '-'
  {
    var d := DaysBetween(t, nowMs);
    DaysBetweenIsFloor(t, nowMs);
    var text := FormatDate(Instant(t), nowMs);
    if d != 0 && d != 1 {
      assert text != "Today" && text != "Yesterday" by {
        if d < 7 {
          assert text == IntString(d) + " days ago";
          assert |text| >= 10;
        } else if d < 30 {
          assert |text| >= 10;
        } else if d < 365 {
          assert |text| >= 11;
        } else {
          assert |text| >= 10;
        }
      }
    }
  }

  // ---------------------------------------------------------------------------
  // Liked videos

  /** A liked-playlist entry: the video id and when it was liked. */
  datatype PlaylistItem = PlaylistItem(videoId: Option<string>, publishedAt: Option<string>)

  /** One page of the liked playlist ("LL"). */
  datatype PlaylistPage = PlaylistPage(items: seq<PlaylistItem>, nextPageToken: Option<string>)

  /** Thumbnail URLs by size; `standard` is the API's `default` entry. */
  datatype Thumbnails = Thumbnails(high: Option<string>, medium: Option<string>, standard: Option<string>)

  /** A video resource from the detail endpoint. */
  datatype VideoResource = VideoResource(
    id: string,
    title: Option<string>,
    channelTitle: Option<string>,
    thumbnails: Thumbnails,
    duration: Option<string>,
    publishedAt: DateInput)

  /** A video as the liked-videos fetch hands it to the store. */
  datatype LikedVideo = LikedVideo(
    videoId: string,
    title: string,
    channelName: string,
    channelThumbnail: Option<string>,
    thumbnail: string,
    duration: string,
    publishedAt: string,
    likedAt: Option<string>)

  /** JavaScript truthiness of an optional string. */
  predicate Truthy(o: Option<string>) {
    o.Some? && o.value != ""
  }

  /** `o || fallback`. */
  function OrElse(o: Option<string>, fallback: string): (r: string)
    ensures Truthy(o) ==> r == o.value
    ensures !Truthy(o) ==> r == fallback
  {
    if Truthy(o) then o.value else fallback
  }

  /** The largest available thumbnail: high, then medium, then default, then "". */
  function PickThumbnail(t: Thumbnails): (r: string)
    ensures r == "" <==> !Truthy(t.high) && !Truthy(t.medium) && !Truthy(t.standard)
    ensures Truthy(t.high) ==> r == t.high.value
    ensures !Truthy(t.high) && Truthy(t.medium) ==> r == t.medium.value
  {
    OrElse(t.high, OrElse(t.medium, OrElse(t.standard, "")))
  }

  /** The page the API returns to the `k`-th request; past the end of the
      playlist it is an empty page without a next token. */
  function PageAt(pages: seq<PlaylistPage>, k: nat): PlaylistPage {
    if k < |pages| then pages[k] else PlaylistPage([], None)
  }

  /** The ids a page contributes: every item with a non-empty video id. */
  function ItemIds(items: seq<PlaylistItem>): (ids: seq<string>)
    ensures |ids| <= |items|
    ensures forall i :: 0 <= i < |ids| ==> ids[i] != ""
  {
    if items == [] then []
    else
      var last := items[|items| - 1];
      ItemIds(items[..|items| - 1]) + (if Truthy(last.videoId) then [last.videoId.value] else [])
  }

  /** The liked-at map after recording `items`: a later entry for the same id
      overwrites an earlier one. */
  function RecordLikedAt(m: map<string, string>, items: seq<PlaylistItem>): map<string, string> {
    if items == [] then m
    else
      var m' := RecordLikedAt(m, items[..|items| - 1]);
      var last := items[|items| - 1];
      if Truthy(last.videoId) && Truthy(last.publishedAt) then m'[last.videoId.value := last.publishedAt.value] else m'
  }

  /** The ids collected after `k` playlist requests. */
  function CollectedIds(pages: seq<PlaylistPage>, k: nat): seq<string> {
    if k == 0 then [] else CollectedIds(pages, k - 1) + ItemIds(PageAt(pages, k - 1).items)
  }

  /** The liked-at map after `k` playlist requests. */
  function CollectedLikedAt(pages: seq<PlaylistPage>, k: nat): map<string, string> {
    if k == 0 then map[] else RecordLikedAt(CollectedLikedAt(pages, k - 1), PageAt(pages, k - 1).items)
  }

  /** The do-while condition after `k >= 1` requests: a non-empty next token and
      fewer ids than wanted. */
  predicate Continues(pages: seq<PlaylistPage>, maxResults: nat, k: nat) {
    k >= 1 && Truthy(PageAt(pages, k - 1).nextPageToken) && |CollectedIds(pages, k)| < maxResults
  }

  /** How many requests the pagination makes: at least one, then as long as
      the condition holds. */
  function RequestCount(pages: seq<PlaylistPage>, maxResults: nat, k: nat): (n: nat)
    requires 1 <= k <= |pages| + 1
    ensures k <= n <= |pages| + 1 && !Continues(pages, maxResults, n)
    ensures forall j :: k <= j < n ==> Continues(pages, maxResults, j)
    decreases |pages| + 1 - k
  {
    if Continues(pages, maxResults, k) then RequestCount(pages, maxResults, k + 1) else k
  }

  /** The body of one pagination step: every item with a video id adds it to
      the list, and its liked-at time to the map when there is one. */
  method CollectPage(items: seq<PlaylistItem>, ids0: seq<string>, likedAt0: map<string, string>)
      returns (ids: seq<string>, likedAt: map<string, string>)
    ensures ids == ids0 + ItemIds(items)
    ensures likedAt == RecordLikedAt(likedAt0, items)
  {
    ids, likedAt := ids0, likedAt0;
    for i := 0 to |items|
      invariant ids == ids0 + ItemIds(items[..i])
      invariant likedAt == RecordLikedAt(likedAt0, items[..i])
    {
      var item := items[i];
      if Truthy(item.videoId) {
        ids := ids + [item.videoId.value];
        if Truthy(item.publishedAt) {
          likedAt := likedAt[item.videoId.value := item.publishedAt.value];
        }
      }
      assert items[..i + 1][..i] == items[..i];
    }
    assert items[..|items|] == items;
  }

  /** The pagination loop of `getLikedVideos`: fetch a page, collect its ids
      and liked-at times, and repeat while there is a next page and fewer ids
      than wanted. */
  method CollectLikedIds(pages: seq<PlaylistPage>, maxResults: nat)
      returns (ids: seq<string>, likedAt: map<string, string>, requests: nat)
    ensures requests == RequestCount(pages, maxResults, 1)
    ensures ids == CollectedIds(pages, requests)
    ensures likedAt == CollectedLikedAt(pages, requests)
  {
    var page := PageAt(pages, 0);
    ids, likedAt := CollectPage(page.items, [], map[]);
    requests := 1;
    while Truthy(page.nextPageToken) && |ids| < maxResults
      invariant 1 <= requests <= |pages| + 1
      invariant page == PageAt(pages, requests - 1)
      invariant ids == CollectedIds(pages, requests)
      invariant likedAt == CollectedLikedAt(pages, requests)
      invariant RequestCount(pages, maxResults, 1) == RequestCount(pages, maxResults, requests)
      decreases |pages| + 1 - requests
    {
      assert Continues(pages, maxResults, requests);
      page := PageAt(pages, requests);
      ids, likedAt := CollectPage(page.items, ids, likedAt);
      requests := requests + 1;
    }
    assert !Continues(pages, maxResults, requests);
  }

  /** `arrays.flat()`. */
  function Flatten<T>(ss: seq<seq<T>>): seq<T> {
    if ss == [] then [] else Flatten(ss[..|ss| - 1]) + ss[|ss| - 1]
  }

  /** The detail response to the `b`-th batch (`items || []`). */
  function ResponseAt(responses: seq<seq<VideoResource>>, b: nat): seq<VideoResource> {
    if b < |responses| then responses[b] else []
  }

  /** The responses to the first `n` batches. */
  function ResponsesFor(responses: seq<seq<VideoResource>>, n: nat): seq<seq<VideoResource>> {
    if n == 0 then [] else ResponsesFor(responses, n - 1) + [ResponseAt(responses, n - 1)]
  }

  /** The batch loop of `getLikedVideos`: the ids are requested in batches of
      at most 50, which cover the ids exactly and in order, every batch but the
      last being full; the resources returned are gathered in batch order. */
  method FetchDetails(ids: seq<string>, responses: seq<seq<VideoResource>>)
      returns (items: seq<VideoResource>, batches: seq<seq<string>>)
    ensures Flatten(batches) == ids
    ensures forall b :: 0 <= b < |batches| ==> 1 <= |batches[b]| <= 50
    ensures forall b :: 0 <= b < |batches| - 1 ==> |batches[b]| == 50
    ensures |batches| == (|ids| + 49) / 50
    ensures items == Flatten(ResponsesFor(responses, |batches|))
  {
    items, batches := [], [];
    var i := 0;
    while i < |ids|
      invariant i == 50 * |batches| && i < |ids| + 50
      invariant Flatten(batches) == ids[..if i < |ids| then i else |ids|]
      invariant forall b :: 0 <= b < |batches| ==> 1 <= |batches[b]| <= 50
      invariant forall b :: 0 <= b < |batches| - 1 ==> |batches[b]| == 50
      invariant |batches| > 0 ==> |batches[|batches| - 1]| == 50 || i >= |ids|
      invariant items == Flatten(ResponsesFor(responses, |batches|))
    {
      var end := if i + 50 < |ids| then i + 50 else |ids|;
      var batch := ids[i..end];
      assert ids[..end] == ids[..i] + batch;
      items := items + ResponseAt(responses, |batches|);
      batches := batches + [batch];
      i := i + 50;
    }
    assert ids[..|ids|] == ids;
    BatchCount(|ids|, |batches|);
  }

  /** `k` batches of 50 are the fewest that hold `n` ids. */
  lemma BatchCount(n: nat, k: nat)
    requires n <= 50 * k < n + 50
    ensures k == (n + 49) / 50
  {
  }

  /** The playlist position of a returned video (the last position of its id,
      as a `Map` built from the positions keeps it), or 0 for an id that was not
      requested. */
  function OrderKey(ids: seq<string>, id: string): int {
    if id in ids then LastIndexOf(ids, id) else 0
  }

  /** The video a resource becomes. */
  function ToLikedVideo(v: VideoResource, likedAt: map<string, string>, nowMs: int): LikedVideo {
    LikedVideo(
      v.id,
      OrElse(v.title, ""),
      OrElse(v.channelTitle, ""),
      v.thumbnails.standard,
      PickThumbnail(v.thumbnails),
      ParseDuration(OrElse(v.duration, "")),
      FormatDate(v.publishedAt, nowMs),
      if v.id in likedAt && likedAt[v.id] != "" then Some(likedAt[v.id]) else None)
  }

  function ToLikedVideos(vs: seq<VideoResource>, likedAt: map<string, string>, nowMs: int): (r: seq<LikedVideo>)
    ensures |r| == |vs|
    ensures forall i :: 0 <= i < |vs| ==> r[i] == ToLikedVideo(vs[i], likedAt, nowMs)
  {
    if vs == [] then [] else [ToLikedVideo(vs[0], likedAt, nowMs)] + ToLikedVideos(vs[1..], likedAt, nowMs)
  }

  function Min(a: int, b: int): int { if a < b then a else b }

  /** `getLikedVideos(…, maxResults)` with the clock read as `nowMs`: paginate,
      keep the first `maxResults` ids, fetch their details in batches, sort the
      resources back into playlist order and convert them. */
  method GetLikedVideos(pages: seq<PlaylistPage>, maxResults: nat, responses: seq<seq<VideoResource>>, nowMs: int)
      returns (videos: seq<LikedVideo>, batches: seq<seq<string>>)
    ensures var ids := CollectedIds(pages, RequestCount(pages, maxResults, 1));
            ids == [] ==> videos == [] && batches == []
    ensures var ids := CollectedIds(pages, RequestCount(pages, maxResults, 1));
            var wanted := ids[..Min(maxResults, |ids|)];
            ids != [] ==>
              Flatten(batches) == wanted
              && (forall b :: 0 <= b < |batches| ==> 1 <= |batches[b]| <= 50)
              && videos == ToLikedVideos(
                   SortBy(Flatten(ResponsesFor(responses, |batches|)), (v: VideoResource) => OrderKey(wanted, v.id)),
                   CollectedLikedAt(pages, RequestCount(pages, maxResults, 1)), nowMs)
  {
    var ids, likedAt, requests := CollectLikedIds(pages, maxResults);
    if |ids| == 0 {
      return [], [];
    }
    var wanted := ids[..Min(maxResults, |ids|)];
    var items;
    items, batches := FetchDetails(wanted, responses);
    var sorted := SortBy(items, (v: VideoResource) => OrderKey(wanted, v.id));
    videos := ToLikedVideos(sorted, likedAt, nowMs);
  }

  /** The fetch returns videos in playlist order and loses none of the
      resources the detail requests returned. */
  lemma LikedVideosInPlaylistOrder(wanted: seq<string>, items: seq<VideoResource>, likedAt: map<string, string>, nowMs: int)
    ensures var key := (v: VideoResource) => OrderKey(wanted, v.id);
            var sorted := SortBy(items, key);
            var videos := ToLikedVideos(sorted, likedAt, nowMs);
            |videos| == |items|
            && multiset(sorted) == multiset(items)
            && forall i, j :: 0 <= i < j < |videos| ==>
                 OrderKey(wanted, videos[i].videoId) <= OrderKey(wanted, videos[j].videoId)
  {
    var key := (v: VideoResource) => OrderKey(wanted, v.id);
    var sorted := SortBy(items, key);
    assert |sorted| == |multiset(sorted)| == |multiset(items)| == |items|;
  }
}
