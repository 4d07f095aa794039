/**
 * `GET /api/videos` (the user check, the query-string parsing, the tag-filter
 * expansion, the candidate video ids and the tag flattening) and
 * `DELETE /api/videos`.
 */
module VideosRoute {
  import opened Wrappers
  import opened Strings
  import opened Seqs
  import L = Library
  import YouTubeApi
  import VideoService

  // ---------------------------------------------------------------------------
  // Query parameters

  /** `searchParams.get("tagIds")?.split(",").filter(Boolean) || []`. */
  function TagIds(param: Option<string>): (ids: seq<string>)
    ensures forall i :: 0 <= i < |ids| ==> ids[i] != ""
    ensures param.Some? ==> ids == Filter(Split(param.value, ','), (p: string) => p != "")
    ensures param.None? || param.value == "" ==> ids == []
  {
    match param
    case None => []
    case Some(s) => Filter(Split(s, ','), (p: string) => p != "")
  }

  /** Every non-empty piece between commas is a selected id, and nothing else is. */
  lemma TagIdsPieces(s: string)
    ensures forall x :: x in TagIds(Some(s)) <==> x in Split(s, ',') && x != ""
  {
  }

  /** `parseInt(s)` in base 10: leading white space, an optional sign, then the
      longest run of digits; `None` (NaN) when there are no digits. */
  function ParseInt(s: string): Option<int> {
    var t := TrimStart(s);
    var neg := t != [] && t[0] == '-';
    var u := if t != [] && (t[0] == '-' || t[0] == '+') then t[1..] else t;
    var n := YouTubeApi.DigitRun(u);
    var v: int := DigitsValue(u[..n]);
    if n == 0 then None else Some(if neg then -v else v)
  }

  /** A numeral, possibly followed by text that does not start with a digit,
      parses to its value; text starting with neither a digit, a sign nor
      white space is NaN. */
  lemma ParseIntNumeral(n: nat, rest: string)
    requires rest == [] || !IsDigit(rest[0])
    ensures ParseInt(NatString(n) + rest) == Some(n)
  {
    var s := NatString(n) + rest;
    assert !IsSpace(s[0]) && s[0] != '-' && s[0] != '+';
    assert TrimStart(s) == s;
    if rest == [] {
      assert s == NatString(n);
      DigitRunOfAll(s);
    } else {
      YouTubeApi.DigitRunOfNumber(n, rest);
    }
    assert s[..|NatString(n)|] == NatString(n);
    NatStringRoundTrip(n);
  }

  lemma ParseIntNaN(other: string)
    requires other != [] && !IsDigit(other[0]) && !IsSpace(other[0]) && other[0] != '-' && other[0] != '+'
    ensures ParseInt(other) == None
  {
    assert TrimStart(other) == other;
  }

  /** A string of digits is one run of digits. */
  lemma {:induction false} DigitRunOfAll(s: string)
    requires AllDigits(s)
    ensures YouTubeApi.DigitRun(s) == |s|
  {
    if s != [] {
      assert AllDigits(s[1..]);
      DigitRunOfAll(s[1..]);
    }
  }

  /** `parseInt(searchParams.get("limit") || "50")`. */
  function Limit(param: Option<string>): Option<int> {
    ParseInt(if param.Some? && param.value != "" then param.value else "50")
  }

  /** Without a `limit` parameter, or with an empty one, the limit is 50. */
  lemma LimitDefault()
    ensures Limit(None) == Some(50) && Limit(Some("")) == Some(50)
  {
    var t := "50";
    assert TrimStart(t) == t;
    assert YouTubeApi.DigitRun(t) == 2 by { DigitRunOfAll(t); }
    assert t[..2] == t;
    assert DigitsValue(t) == 50 by {
      assert t[..1] == "5";
      assert DigitsValue("5") == 5 by { assert "5"[..0] == []; }
    }
  }

  /** A given numeral is read as its value. */
  lemma LimitNumeral(n: nat)
    ensures Limit(Some(NatString(n))) == Some(n)
  {
    ParseIntNumeral(n, []);
    assert NatString(n) + [] == NatString(n);
  }

  // ---------------------------------------------------------------------------
  // Tag-filter expansion

  /** A row of `tags.select("id, parent_id")`. */
  datatype TagRow = TagRow(id: string, parentId: Option<string>)

  /** The children of the selected tags: tags whose parent is a selected id. */
  function ChildrenOf(allTags: seq<TagRow>, tagIds: seq<string>): set<string> {
    set t | t in allTags && t.parentId.Some? && t.parentId.value in tagIds :: t.id
  }

  /** The selected ids and their direct children. */
  function Expanded(tagIds: seq<string>, allTags: seq<TagRow>): set<string> {
    (set x | x in tagIds) + ChildrenOf(allTags, tagIds)
  }

  /** The `expandedTagIds` set the two nested `forEach` loops build. */
  method ExpandTagIds(tagIds: seq<string>, allTags: seq<TagRow>) returns (expanded: set<string>)
    ensures expanded == Expanded(tagIds, allTags)
  {
    expanded := set x | x in tagIds;
    for i := 0 to |tagIds|
      invariant expanded == (set x | x in tagIds) + ChildrenOf(allTags, tagIds[..i])
    {
      var tagId := tagIds[i];
      ghost var before := expanded;
      for j := 0 to |allTags|
        invariant expanded == before + (set k | 0 <= k < j && allTags[k].parentId == Some(tagId) :: allTags[k].id)
      {
        if allTags[j].parentId == Some(tagId) {
          expanded := expanded + {allTags[j].id};
        }
      }
      assert (set k | 0 <= k < |allTags| && allTags[k].parentId == Some(tagId) :: allTags[k].id)
          == (set t | t in allTags && t.parentId == Some(tagId) :: t.id);
      assert tagIds[..i + 1] == tagIds[..i] + [tagId];
      assert ChildrenOf(allTags, tagIds[..i + 1])
          == ChildrenOf(allTags, tagIds[..i]) + (set t | t in allTags && t.parentId == Some(tagId) :: t.id);
    }
    assert tagIds[..|tagIds|] == tagIds;
  }

  /** An id is in the expanded set exactly when it is selected or is the id of
      a tag whose `parent_id` is selected. */
  lemma ExpandedIff(tagIds: seq<string>, allTags: seq<TagRow>, x: string)
    ensures x in Expanded(tagIds, allTags) <==>
              x in tagIds || exists t :: t in allTags && t.id == x && t.parentId.Some? && t.parentId.value in tagIds
  {
  }

  /** The expansion goes one level only: a grandchild of a selected tag is not
      added. */
  lemma GrandchildNotExpanded()
    ensures var allTags := [TagRow("b", Some("a")), TagRow("c", Some("b"))];
            "b" in Expanded(["a"], allTags) && "c" !in Expanded(["a"], allTags)
  {
    var allTags := [TagRow("b", Some("a")), TagRow("c", Some("b"))];
    assert allTags[0] in allTags;
    assert "c" != "a";
  }

  // ---------------------------------------------------------------------------
  // Candidate videos

  /** `[...new Set(videoTags.map(vt => vt.video_id))]` over the link rows whose
      tag is in the expanded set, in the order the rows come back. */
  function CandidateIds(links: seq<L.VideoTag>, expanded: set<string>): (ids: seq<string>)
    ensures NoDups(ids)
    ensures forall x :: x in ids <==> exists l :: l in links && l.tagId in expanded && l.videoId == x
  {
    var rows := Filter(links, (l: L.VideoTag) => l.tagId in expanded);
    var vids := VideoIdsOf(rows);
    assert forall x :: x in vids <==> exists l :: l in rows && l.videoId == x;
    Dedupe(vids)
  }

  function VideoIdsOf(rows: seq<L.VideoTag>): (r: seq<string>)
    ensures |r| == |rows| && forall i :: 0 <= i < |rows| ==> r[i] == rows[i].videoId
  {
    if rows == [] then [] else [rows[0].videoId] + VideoIdsOf(rows[1..])
  }

  /** How the tag filter restricts the main query. */
  datatype TagScope =
    | AnyVideo                 // no tag filter
    | NoVideo                  // answer `{videos: []}` without running the main query
    | Among(ids: seq<string>)  // `.in("id", ids)`

  function Scope(tagIds: seq<string>, allTags: seq<TagRow>, links: seq<L.VideoTag>): TagScope {
    if tagIds == [] then AnyVideo
    else
      var ids := CandidateIds(links, Expanded(tagIds, allTags));
      if ids == [] then NoVideo else Among(ids)
  }

  /** The main query is skipped exactly when tags are selected and no link row
      carries any expanded tag; otherwise it is restricted to distinct ids of
      videos carrying one. */
  lemma ScopeSpec(tagIds: seq<string>, allTags: seq<TagRow>, links: seq<L.VideoTag>)
    ensures var sc := Scope(tagIds, allTags, links);
            (sc.AnyVideo? <==> tagIds == [])
            && (sc.NoVideo? <==> tagIds != [] && forall l :: l in links ==> l.tagId !in Expanded(tagIds, allTags))
            && (sc.Among? ==> NoDups(sc.ids) && forall x :: x in sc.ids <==>
                  exists l :: l in links && l.tagId in Expanded(tagIds, allTags) && l.videoId == x)
  {
    if tagIds != [] {
      var ids := CandidateIds(links, Expanded(tagIds, allTags));
      if ids != [] {
        assert ids[0] in ids;
      }
    }
  }

  // ---------------------------------------------------------------------------
  // Tag flattening

  /** `video.tags?.map(vt => vt.tag).filter(Boolean) || []`: the joined tags
      with the null ones removed, in order. */
  function FlattenTags(joined: Option<seq<Option<L.Tag>>>): (tags: seq<L.Tag>)
    ensures joined.None? ==> tags == []
    ensures joined.Some? ==> forall t :: t in tags <==> Some(t) in joined.value
  {
    match joined
    case None => []
    case Some(js) => Present(js)
  }

  function Present(js: seq<Option<L.Tag>>): (tags: seq<L.Tag>)
    ensures forall t :: t in tags <==> Some(t) in js
    ensures |tags| <= |js|
  {
    if js == [] then []
    else
      var rest := Present(js[1..]);
      assert forall o :: o in js <==> o == js[0] || o in js[1..];
      match js[0]
      case None => rest
      case Some(t) => [t] + rest
  }

  /** Flattening keeps the non-null tags in their order: a join without nulls
      comes back whole. */
  lemma {:induction false} PresentWithoutNulls(ts: seq<L.Tag>)
    ensures Present(Wrap(ts)) == ts
  {
    if ts != [] {
      assert Wrap(ts)[1..] == Wrap(ts[1..]);
      PresentWithoutNulls(ts[1..]);
    }
  }

  function Wrap(ts: seq<L.Tag>): (js: seq<Option<L.Tag>>)
    ensures |js| == |ts| && forall i :: 0 <= i < |ts| ==> js[i] == Some(ts[i])
  {
    if ts == [] then [] else [Some(ts[0])] + Wrap(ts[1..])
  }

  // ---------------------------------------------------------------------------
  // GET

  /** What `GET /api/videos` does with the request before its main query:
      401 without a user, `{videos: []}` when the tag filter leaves no video,
      otherwise the user's main query with its filters and tag scope. */
  datatype ListPlan =
    | ListUnauthorized
    | EmptyList
    | MainQuery(userId: string, folderId: Option<string>, search: Option<string>, limit: Option<int>, scope: TagScope)
  {
    function Status(): int {
      match this
      case ListUnauthorized => 401
      case EmptyList => 200
      case MainQuery(_, _, _, _, _) => 200
    }
  }

  /** A query parameter used as an `if (param)` filter: absent when empty. */
  function Filled(param: Option<string>): Option<string> {
    if param.Some? && param.value != "" then param else None
  }

  /** The handler up to the main query. `allTags` are the user's tag rows and
      `links` the link rows the `video_tags` query returns. */
  function List(user: Option<string>, folderId: Option<string>, search: Option<string>, tagIds: Option<string>,
                limit: Option<string>, allTags: seq<TagRow>, links: seq<L.VideoTag>): ListPlan
  {
    if user.None? then ListUnauthorized
    else
      var scope := Scope(TagIds(tagIds), allTags, links);
      if scope.NoVideo? then EmptyList
      else MainQuery(user.value, Filled(folderId), Filled(search), Limit(limit), scope)
  }

  /** 401 exactly without a user. With a user, the answer is the empty list
      exactly when tags are selected and no link row carries an expanded tag.
      Otherwise the main query is the user's, with the parsed limit, a folder
      filter exactly when a folder id is given, no tag restriction exactly when
      no tag is selected, and else the distinct ids of the videos carrying an
      expanded tag. */
  lemma ListSpec(user: Option<string>, folderId: Option<string>, search: Option<string>, tagIds: Option<string>,
                 limit: Option<string>, allTags: seq<TagRow>, links: seq<L.VideoTag>)
    ensures var p := List(user, folderId, search, tagIds, limit, allTags, links);
            var selected := TagIds(tagIds);
            (p.ListUnauthorized? <==> user.None?)
            && (p.EmptyList? <==> user.Some? && selected != []
                                  && forall l :: l in links ==> l.tagId !in Expanded(selected, allTags))
    ensures var p := List(user, folderId, search, tagIds, limit, allTags, links);
            var selected := TagIds(tagIds);
            p.MainQuery? ==>
              p.userId == user.value && p.limit == Limit(limit)
              && (p.folderId.Some? <==> folderId.Some? && folderId.value != "")
              && (p.scope.AnyVideo? <==> selected == [])
              && p.scope.Among? == (selected != [])
              && (p.scope.Among? ==> NoDups(p.scope.ids) && forall x :: x in p.scope.ids <==>
                    exists l :: l in links && l.tagId in Expanded(selected, allTags) && l.videoId == x)
  {
    ScopeSpec(TagIds(tagIds), allTags, links);
  }

  // ---------------------------------------------------------------------------
  // DELETE

  datatype DeleteReply = Unauthorized | MissingId | Deleted
  {
    function Status(): int {
      match this
      case Unauthorized => 401
      case MissingId => 400
      case Deleted => 200
    }
  }

  /** `DELETE /api/videos?id=...`: deletes the caller's rows with that id. */
  function Delete(db: L.Tables, user: Option<string>, id: Option<string>): (L.Tables, DeleteReply) {
    if user.None? then (db, Unauthorized)
    else if id.None? || id.value == "" then (db, MissingId)
    else (db.(videos := Filter(db.videos, (v: L.Video) => !(v.id == id.value && v.userId == user.value))), Deleted)
  }

  /** 401 without a user and 400 without an id, both without a write;
      otherwise exactly the caller's rows with that id are gone, every other
      row stays, and no other table changes. */
  lemma DeleteSpec(db: L.Tables, user: Option<string>, id: Option<string>)
    ensures var (db', reply) := Delete(db, user, id);
            (reply.Unauthorized? <==> user.None?)
            && (reply.MissingId? <==> user.Some? && (id.None? || id.value == ""))
            && (!reply.Deleted? ==> db' == db)
            && db' == db.(videos := db'.videos)
    ensures var (db', reply) := Delete(db, user, id);
            reply.Deleted? ==>
              (forall v :: v in db'.videos ==> !(v.id == id.value && v.userId == user.value))
              && (forall v :: v in db.videos && !(v.id == id.value && v.userId == user.value) ==> v in db'.videos)
              && (forall v :: v in db'.videos ==> v in db.videos)
  {
  }

  /** The route as a step on the store. */
  method DeleteVideo(store: VideoService.Store, user: Option<string>, id: Option<string>) returns (reply: DeleteReply)
    modifies store
    ensures (store.Tables(), reply) == Delete(old(store.Tables()), user, id)
  {
    if user.None? {
      return Unauthorized;
    }
    if id.None? || id.value == "" {
      return MissingId;
    }
    var userId := user.value;
    store.videos := Filter(store.videos, (v: L.Video) => !(v.id == id.value && v.userId == userId));
    reply := Deleted;
  }
}
