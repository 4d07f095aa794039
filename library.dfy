/**
 * The video library's tables and the meaning of every store operation on
 * them, as functions from the tables before to the tables after. The `Store`
 * class in `VideoService` performs these operations in place and is proved
 * against these functions; the lemmas here state what the operations promise.
 *
 * Timestamps other than the ones the operations write (`last_sync_at`,
 * `liked_at`) and the database's error paths are not part of the tables.
 */
module Library {
  import opened Wrappers
  import opened Strings
  import opened Seqs
  import opened TagConstants
  import opened AutoTag
  import opened YouTubeApi

  datatype Profile = Profile(
    id: string,
    accessToken: Option<string>,
    refreshToken: Option<string>,
    lastSyncAt: Option<string>)

  datatype Folder = Folder(id: string, userId: string, name: string, position: int, isDefault: bool)

  datatype Video = Video(
    id: string,
    userId: string,
    folderId: Option<string>,
    youtubeId: string,
    title: string,
    channelName: string,
    channelThumbnail: Option<string>,
    thumbnailUrl: string,
    duration: Option<string>,
    notes: Option<string>,
    likedAt: Option<string>,
    resumeAtSeconds: Option<int>)

  datatype Tag = Tag(id: string, userId: string, name: string, color: string, parentId: Option<string>)

  /** A row of the `video_tags` link table; the pair is the row's key. */
  datatype VideoTag = VideoTag(videoId: string, tagId: string)

  /** All five tables, and the counter new row ids are drawn from. */
  datatype Tables = Tables(
    profiles: seq<Profile>,
    folders: seq<Folder>,
    videos: seq<Video>,
    tags: seq<Tag>,
    videoTags: set<VideoTag>,
    nextId: nat)

  /** The id given to the next inserted row. */
  function FreshId(db: Tables): string {
    NatString(db.nextId)
  }

  // ---------------------------------------------------------------------------
  // Tags

  /** The (user, name) tag, when exactly one exists. */
  function ExistingTag(tags: seq<Tag>, userId: string, name: string): Option<Tag> {
    Single(tags, (t: Tag) => t.userId == userId && t.name == name)
  }

  function TagsNamed(tags: seq<Tag>, userId: string, name: string): seq<Tag> {
    Filter(tags, (t: Tag) => t.userId == userId && t.name == name)
  }

  /** `getOrCreateTag`: the user's tag of that name, or a new one with the
      given colour (indigo when none is given). */
  function GetOrCreateTag(db: Tables, userId: string, name: string, color: Option<string>): (Tables, Tag) {
    match ExistingTag(db.tags, userId, name)
    case Some(t) => (db, t)
    case None =>
      var t := Tag(FreshId(db), userId, name, OrElse(color, DefaultTagColor), None);
      (db.(tags := db.tags + [t], nextId := db.nextId + 1), t)
  }

  /** An existing tag is returned unchanged; otherwise exactly one tag is
      appended, for that user and name, with the colour or the default; nothing
      but the tag table and the id counter changes. */
  lemma GetOrCreateTagSpec(db: Tables, userId: string, name: string, color: Option<string>)
    ensures var (db', t) := GetOrCreateTag(db, userId, name, color);
            t.userId == userId && t.name == name
            && db'.profiles == db.profiles && db'.folders == db.folders
            && db'.videos == db.videos && db'.videoTags == db.videoTags
            && (|TagsNamed(db.tags, userId, name)| == 1 ==> db' == db && t in db.tags)
            && (|TagsNamed(db.tags, userId, name)| != 1 ==>
                  db'.tags == db.tags + [t] && t.color == (if Truthy(color) then color.value else "#6366f1"))
  {
  }

  /** Get-or-create is idempotent while the user has at most one tag of that
      name: a second call returns the same tag and changes nothing. */
  lemma GetOrCreateTagIdempotent(db: Tables, userId: string, name: string, c1: Option<string>, c2: Option<string>)
    requires |TagsNamed(db.tags, userId, name)| <= 1
    ensures var (db1, t1) := GetOrCreateTag(db, userId, name, c1);
            GetOrCreateTag(db1, userId, name, c2) == (db1, t1)
  {
    var p := (t: Tag) => t.userId == userId && t.name == name;
    var (db1, t1) := GetOrCreateTag(db, userId, name, c1);
    if |TagsNamed(db.tags, userId, name)| == 0 {
      FilterAppend(db.tags, [t1], p);
      assert Filter([t1], p) == [t1];
    }
  }

  /** The auto-tagging loop: for each name, get or create the tag (with the
      colour `colorOf` gives the name) and link the video to it. */
  function LinkTags(db: Tables, videoId: string, userId: string, names: seq<string>, colorOf: string -> string): Tables
    decreases |names|
  {
    if names == [] then db
    else
      var (db1, t) := GetOrCreateTag(db, userId, names[0], Some(colorOf(names[0])));
      LinkTags(db1.(videoTags := db1.videoTags + {VideoTag(videoId, t.id)}), videoId, userId, names[1..], colorOf)
  }

  /** `autoTagVideo`. */
  function AutoTagVideo(db: Tables, videoId: string, userId: string, title: string): Tables {
    LinkTags(db, videoId, userId, Detect(title), GetTagColor)
  }

  /** Linking touches only tags, links and the counter: tags are only added,
      links are only added, and every new link is for this video. */
  lemma {:induction false} LinkTagsFrame(db: Tables, videoId: string, userId: string, names: seq<string>,
                                         colorOf: string -> string)
    ensures var db' := LinkTags(db, videoId, userId, names, colorOf);
            db'.profiles == db.profiles && db'.folders == db.folders && db'.videos == db.videos
            && |db.tags| <= |db'.tags| && db'.tags[..|db.tags|] == db.tags
            && db.videoTags <= db'.videoTags
            && (forall l :: l in db'.videoTags && l !in db.videoTags ==> l.videoId == videoId)
            && db.nextId <= db'.nextId
    decreases |names|
  {
    if names != [] {
      var (db1, t) := GetOrCreateTag(db, userId, names[0], Some(colorOf(names[0])));
      GetOrCreateTagSpec(db, userId, names[0], Some(colorOf(names[0])));
      var db2 := db1.(videoTags := db1.videoTags + {VideoTag(videoId, t.id)});
      LinkTagsFrame(db2, videoId, userId, names[1..], colorOf);
      var db' := LinkTags(db, videoId, userId, names, colorOf);
      assert db'.tags[..|db2.tags|] == db2.tags;
      assert db2.tags[..|db.tags|] == db.tags;
      assert db'.tags[..|db.tags|] == db'.tags[..|db2.tags|][..|db.tags|];
    }
  }

  /** Every name is linked: after linking, for each name the video is linked
      to a tag of the user carrying that name. */
  lemma {:induction false} LinkTagsLinksEveryName(db: Tables, videoId: string, userId: string, names: seq<string>,
                                         colorOf: string -> string)
    ensures var db' := LinkTags(db, videoId, userId, names, colorOf);
            forall k :: 0 <= k < |names| ==>
              exists t :: t in db'.tags && t.userId == userId && t.name == names[k]
                          && VideoTag(videoId, t.id) in db'.videoTags
    decreases |names|
  {
    if names != [] {
      var (db1, t) := GetOrCreateTag(db, userId, names[0], Some(colorOf(names[0])));
      GetOrCreateTagSpec(db, userId, names[0], Some(colorOf(names[0])));
      var db2 := db1.(videoTags := db1.videoTags + {VideoTag(videoId, t.id)});
      LinkTagsLinksEveryName(db2, videoId, userId, names[1..], colorOf);
      LinkTagsFrame(db2, videoId, userId, names[1..], colorOf);
      var db' := LinkTags(db, videoId, userId, names, colorOf);
      assert t in db2.tags;
      assert t in db'.tags by {
        var i :| 0 <= i < |db2.tags| && db2.tags[i] == t;
        assert db'.tags[i] == t;
      }
      forall k | 0 <= k < |names|
        ensures exists t :: t in db'.tags && t.userId == userId && t.name == names[k]
                            && VideoTag(videoId, t.id) in db'.videoTags
      {
        if k == 0 {
          assert VideoTag(videoId, t.id) in db'.videoTags;
        } else {
          assert names[k] == names[1..][k - 1];
        }
      }
    }
  }

  /** A title without any keyword changes nothing; otherwise each detected
      tag is linked to the video, and nothing but tags and links changes. */
  lemma AutoTagVideoSpec(db: Tables, videoId: string, userId: string, title: string)
    ensures Detect(title) == [] ==> AutoTagVideo(db, videoId, userId, title) == db
    ensures var db' := AutoTagVideo(db, videoId, userId, title);
            db'.profiles == db.profiles && db'.folders == db.folders && db'.videos == db.videos
            && db.videoTags <= db'.videoTags
            && (forall l :: l in db'.videoTags && l !in db.videoTags ==> l.videoId == videoId)
    ensures var db' := AutoTagVideo(db, videoId, userId, title);
            forall name :: name in Detect(title) ==>
              exists t :: t in db'.tags && t.userId == userId && t.name == name
                          && VideoTag(videoId, t.id) in db'.videoTags
  {
    LinkTagsFrame(db, videoId, userId, Detect(title), GetTagColor);
    LinkTagsLinksEveryName(db, videoId, userId, Detect(title), GetTagColor);
  }

  /** Auto-tagging leaves profiles, folders and videos as they were. */
  lemma AutoTagVideoKeepsRows(db: Tables, videoId: string, userId: string, title: string)
    ensures var db' := AutoTagVideo(db, videoId, userId, title);
            db'.profiles == db.profiles && db'.folders == db.folders && db'.videos == db.videos
  {
    LinkTagsFrame(db, videoId, userId, Detect(title), GetTagColor);
  }

  // ---------------------------------------------------------------------------
  // Inserting and syncing videos

  /** The message of the `RangeError` that `toISOString` throws on a date it
      cannot read. */
  const InvalidTimeValue: string := "Invalid time value"

  /** The `liked_at` written for a fetched video. `new Date(t).toISOString()`
      is the parameter `toIso`, which gives `None` where the conversion
      throws. A video without a like time gets now instead. */
  function LikedAtOf(y: LikedVideo, nowIso: string, toIso: string -> Option<string>): Option<string> {
    if Truthy(y.likedAt) then toIso(y.likedAt.value) else Some(nowIso)
  }

  /** Every like time among `ys` converts, so building the rows does not throw. */
  predicate LikedAtsConvert(ys: seq<LikedVideo>, nowIso: string, toIso: string -> Option<string>) {
    forall i :: 0 <= i < |ys| ==> LikedAtOf(ys[i], nowIso, toIso).Some?
  }

  /** The row inserted for a fetched video, with `liked_at` as given:
      `channel_thumbnail` and `duration` become null when empty. */
  function NewVideoRow(id: string, userId: string, folderId: Option<string>, y: LikedVideo, likedAt: Option<string>): Video {
    Video(
      id, userId, folderId, y.videoId, y.title, y.channelName,
      if Truthy(y.channelThumbnail) then y.channelThumbnail else None,
      y.thumbnail,
      if y.duration != "" then Some(y.duration) else None,
      None,
      likedAt,
      None)
  }

  /** The rows for `ys`, each with its converted like time, with ids drawn from the counter starting at `start`. */
  function NewVideoRows(start: nat, userId: string, folderId: Option<string>, ys: seq<LikedVideo>, nowIso: string, toIso: string -> Option<string>): (rows: seq<Video>)
    ensures |rows| == |ys|
    ensures forall i :: 0 <= i < |ys| ==> rows[i] == NewVideoRow(NatString(start + i), userId, folderId, ys[i], LikedAtOf(ys[i], nowIso, toIso))
    decreases |ys|
  {
    if ys == [] then []
    else [NewVideoRow(NatString(start), userId, folderId, ys[0], LikedAtOf(ys[0], nowIso, toIso))] + NewVideoRows(start + 1, userId, folderId, ys[1..], nowIso, toIso)
  }

  /** The tagging loop of `insertVideos`: auto-tag each inserted row. */
  function TagEach(db: Tables, userId: string, rows: seq<Video>): Tables
    decreases |rows|
  {
    if rows == [] then db else TagEach(AutoTagVideo(db, rows[0].id, userId, rows[0].title), userId, rows[1..])
  }

  /** Tagging leaves profiles, folders and videos alone. */
  lemma {:induction false} TagEachFrame(db: Tables, userId: string, rows: seq<Video>)
    ensures var db' := TagEach(db, userId, rows);
            db'.profiles == db.profiles && db'.folders == db.folders && db'.videos == db.videos
    decreases |rows|
  {
    if rows != [] {
      AutoTagVideoSpec(db, rows[0].id, userId, rows[0].title);
      TagEachFrame(AutoTagVideo(db, rows[0].id, userId, rows[0].title), userId, rows[1..]);
    }
  }

  /** `insertVideos`: append one row per fetched video, then auto-tag them;
      `None`, with nothing written, when building the rows throws. */
  function InsertVideos(db: Tables, userId: string, ys: seq<LikedVideo>, folderId: Option<string>, nowIso: string, toIso: string -> Option<string>): (Tables, Option<seq<Video>>) {
    if !LikedAtsConvert(ys, nowIso, toIso) then (db, None)
    else
      var rows := NewVideoRows(db.nextId, userId, folderId, ys, nowIso, toIso);
      var db1 := db.(videos := db.videos + rows, nextId := db.nextId + |ys|);
      (TagEach(db1, userId, rows), Some(rows))
  }

  /** The insert throws, writing nothing, exactly when some fetched video has
      a like time that does not convert. Otherwise exactly the new rows are
      appended to the videos, one per fetched video and in order. Each row is
      in the given folder, owned by the user, with the fetched id and title,
      and its `liked_at` is the converted like time or else now. Profiles and
      folders do not change. */
  lemma InsertVideosSpec(db: Tables, userId: string, ys: seq<LikedVideo>, folderId: Option<string>, nowIso: string, toIso: string -> Option<string>)
    ensures var (db', out) := InsertVideos(db, userId, ys, folderId, nowIso, toIso);
            (out.None? <==> exists i :: 0 <= i < |ys| && Truthy(ys[i].likedAt) && toIso(ys[i].likedAt.value).None?)
            && (out.None? ==> db' == db)
    ensures var (db', out) := InsertVideos(db, userId, ys, folderId, nowIso, toIso);
            out.Some? ==>
              var rows := out.value;
              db'.videos == db.videos + rows && |rows| == |ys|
              && db'.profiles == db.profiles && db'.folders == db.folders
              && forall i :: 0 <= i < |ys| ==>
                   rows[i].userId == userId && rows[i].folderId == folderId
                   && rows[i].youtubeId == ys[i].videoId && rows[i].title == ys[i].title
                   && rows[i].likedAt.Some?
                   && rows[i].likedAt == (if Truthy(ys[i].likedAt) then toIso(ys[i].likedAt.value) else Some(nowIso))
  {
    if LikedAtsConvert(ys, nowIso, toIso) {
      var rows := NewVideoRows(db.nextId, userId, folderId, ys, nowIso, toIso);
      TagEachFrame(db.(videos := db.videos + rows, nextId := db.nextId + |ys|), userId, rows);
    }
  }

  /** The part of the above that places the rows. */
  lemma InsertVideosAppends(db: Tables, userId: string, ys: seq<LikedVideo>, folderId: Option<string>, nowIso: string, toIso: string -> Option<string>)
    requires LikedAtsConvert(ys, nowIso, toIso)
    ensures var (db', out) := InsertVideos(db, userId, ys, folderId, nowIso, toIso);
            out.Some? && var rows := out.value;
            db'.videos == db.videos + rows && |rows| == |ys|
            && forall i :: 0 <= i < |ys| ==>
                 rows[i].userId == userId && rows[i].folderId == folderId && rows[i].youtubeId == ys[i].videoId
  {
    InsertVideosSpec(db, userId, ys, folderId, nowIso, toIso);
  }

  /** The YouTube ids of some video rows. */
  function YouTubeIdsOf(vs: seq<Video>): (r: seq<string>)
    ensures |r| == |vs|
    ensures forall i :: 0 <= i < |vs| ==> r[i] == vs[i].youtubeId
  {
    if vs == [] then [] else [vs[0].youtubeId] + YouTubeIdsOf(vs[1..])
  }

  /** `getExistingYouTubeIds`: the YouTube ids of the user's rows whose id is
      among `ytIds`, one per row, in table order. */
  function ExistingYouTubeIds(videos: seq<Video>, userId: string, ytIds: seq<string>): seq<string> {
    YouTubeIdsOf(Filter(videos, (v: Video) => v.userId == userId && v.youtubeId in ytIds))
  }

  /** An id is reported exactly when it was asked about and the user has a
      row with it. */
  lemma ExistingYouTubeIdsIff(videos: seq<Video>, userId: string, ytIds: seq<string>, x: string)
    ensures x in ExistingYouTubeIds(videos, userId, ytIds) <==>
            x in ytIds && exists i :: 0 <= i < |videos| && videos[i].userId == userId && videos[i].youtubeId == x
  {
    var p := (v: Video) => v.userId == userId && v.youtubeId in ytIds;
    var m := Filter(videos, p);
    if x in ExistingYouTubeIds(videos, userId, ytIds) {
      var k :| 0 <= k < |m| && YouTubeIdsOf(m)[k] == x;
      assert m[k] in videos;
    }
    if x in ytIds && exists i :: 0 <= i < |videos| && videos[i].userId == userId && videos[i].youtubeId == x {
      var i :| 0 <= i < |videos| && videos[i].userId == userId && videos[i].youtubeId == x;
      assert videos[i] in m;
      var k :| 0 <= k < |m| && m[k] == videos[i];
      assert YouTubeIdsOf(m)[k] == x;
    }
  }

  /** The fetched videos not already stored (`existingIds.includes` fails). */
  function NewOnly(ys: seq<LikedVideo>, existing: seq<string>): seq<LikedVideo> {
    Filter(ys, (y: LikedVideo) => y.videoId !in existing)
  }

  function VideoIdsOf(ys: seq<LikedVideo>): (r: seq<string>)
    ensures |r| == |ys|
    ensures forall i :: 0 <= i < |ys| ==> r[i] == ys[i].videoId
  {
    if ys == [] then [] else [ys[0].videoId] + VideoIdsOf(ys[1..])
  }

  /** The profile rows after stamping `last_sync_at` on the user's row. */
  function StampLastSync(profiles: seq<Profile>, userId: string, nowIso: string): (r: seq<Profile>)
    ensures |r| == |profiles|
    ensures forall i :: 0 <= i < |profiles| ==>
              r[i] == if profiles[i].id == userId then profiles[i].(lastSyncAt := Some(nowIso)) else profiles[i]
  {
    if profiles == [] then []
    else
      [if profiles[0].id == userId then profiles[0].(lastSyncAt := Some(nowIso)) else profiles[0]]
        + StampLastSync(profiles[1..], userId, nowIso)
  }

  /** What the liked-videos fetch gave: the videos, or the error it raised. */
  datatype FetchOutcome = Fetched(videos: seq<LikedVideo>) | FetchFailed(message: string)

  /** The sync report; the optional fields are absent on the paths that do not
      set them. */
  datatype SyncResult = SyncResult(
    success: bool,
    newVideosCount: nat,
    totalVideos: nat,
    totalFromYouTube: Option<nat>,
    existingCount: Option<nat>,
    youtubeError: Option<string>,
    errors: Option<seq<string>>,
    syncedAt: string)

  const ProfileNotFound: string := "User profile not found"
  const NotConnected: string := "YouTube not connected. Please connect your YouTube account first."

  function Failure(message: string, nowIso: string): SyncResult {
    SyncResult(false, 0, 0, None, None, None, Some([message]), nowIso)
  }

  /** The user's profile, when exactly one row has that id. */
  function ProfileOf(db: Tables, userId: string): Option<Profile> {
    Single(db.profiles, (p: Profile) => p.id == userId)
  }

  /** The fetched videos the user has no row for yet. */
  function Unseen(db: Tables, userId: string, ys: seq<LikedVideo>): seq<LikedVideo> {
    NewOnly(ys, ExistingYouTubeIds(db.videos, userId, VideoIdsOf(ys)))
  }

  /** `syncLikedVideos(userId)` with the fetch outcome, the clock and the date
      conversion as parameters. */
  function SyncLikedVideos(db: Tables, userId: string, fetch: FetchOutcome, nowIso: string, toIso: string -> Option<string>): (Tables, SyncResult) {
    match ProfileOf(db, userId)
    case None => (db, Failure(ProfileNotFound, nowIso))
    case Some(profile) =>
      if !Truthy(profile.accessToken) then (db, Failure(NotConnected, nowIso))
      else match fetch
        case FetchFailed(message) =>
          (db, SyncResult(false, 0, 0, Some(0), Some(0), Some(message), Some([message]), nowIso))
        case Fetched(ys) =>
          if ys == [] then (db, SyncResult(true, 0, 0, Some(0), Some(0), None, None, nowIso))
          else
            var existing := ExistingYouTubeIds(db.videos, userId, VideoIdsOf(ys));
            var unseen := NewOnly(ys, existing);
            if unseen == [] then
              (db.(profiles := StampLastSync(db.profiles, userId, nowIso)),
               SyncResult(true, 0, |ys|, Some(|ys|), Some(|existing|), None, None, nowIso))
            else
              var (db1, inserted) := InsertVideos(db, userId, unseen, None, nowIso, toIso);
              if inserted.None? then (db, Failure(InvalidTimeValue, nowIso))
              else
                (db1.(profiles := StampLastSync(db1.profiles, userId, nowIso)),
                 SyncResult(true, |inserted.value|, |ys|, Some(|ys|), Some(|existing|), None, None, nowIso))
  }

  /** A user without exactly one profile, or without an access token, gets a
      failure and nothing is written. */
  lemma SyncWithoutConnection(db: Tables, userId: string, fetch: FetchOutcome, nowIso: string, toIso: string -> Option<string>)
    requires ProfileOf(db, userId).None? || !Truthy(ProfileOf(db, userId).value.accessToken)
    ensures var (db', r) := SyncLikedVideos(db, userId, fetch, nowIso, toIso);
            db' == db && !r.success && r.errors.Some? && |r.errors.value| == 1
            && r.errors.value[0] == (if ProfileOf(db, userId).None? then ProfileNotFound else NotConnected)
  {
  }

  /** A failed fetch and an empty liked list write nothing; the first reports
      the error, the second success with every count zero. */
  lemma SyncWithoutVideos(db: Tables, userId: string, fetch: FetchOutcome, nowIso: string, toIso: string -> Option<string>)
    requires ProfileOf(db, userId).Some? && Truthy(ProfileOf(db, userId).value.accessToken)
    requires fetch.FetchFailed? || fetch.videos == []
    ensures var (db', r) := SyncLikedVideos(db, userId, fetch, nowIso, toIso);
            db' == db && r.newVideosCount == 0 && r.totalVideos == 0
            && (fetch.FetchFailed? ==> !r.success && r.youtubeError == Some(fetch.message))
            && (fetch.Fetched? ==> r.success && r.totalFromYouTube == Some(0) && r.existingCount == Some(0))
  {
  }

  /** A non-empty fetch reports inserted, fetched and already-stored counts,
      one insert per fetched video the user does not have yet, stamps
      `last_sync_at` on the user's profile and leaves folders alone. */
  lemma SyncInsertsExactlyNew(db: Tables, userId: string, ys: seq<LikedVideo>, nowIso: string, toIso: string -> Option<string>)
    requires ProfileOf(db, userId).Some? && Truthy(ProfileOf(db, userId).value.accessToken)
    requires ys != []
    requires LikedAtsConvert(Unseen(db, userId, ys), nowIso, toIso)
    ensures var (db', r) := SyncLikedVideos(db, userId, Fetched(ys), nowIso, toIso);
            var existing := ExistingYouTubeIds(db.videos, userId, VideoIdsOf(ys));
            var unseen := NewOnly(ys, existing);
            r.success && r.newVideosCount == |unseen| && r.totalVideos == |ys|
            && r.existingCount == Some(|existing|)
            && db'.profiles == StampLastSync(db.profiles, userId, nowIso)
            && db'.folders == db.folders
  {
    var existing := ExistingYouTubeIds(db.videos, userId, VideoIdsOf(ys));
    var unseen := NewOnly(ys, existing);
    var (db', r) := SyncLikedVideos(db, userId, Fetched(ys), nowIso, toIso);
    if unseen != [] {
      var (db1, inserted) := InsertVideos(db, userId, unseen, None, nowIso, toIso);
      InsertVideosSpec(db, userId, unseen, None, nowIso, toIso);
      assert db' == db1.(profiles := StampLastSync(db1.profiles, userId, nowIso));
      assert r.newVideosCount == |inserted.value| == |unseen|;
    }
  }

  /** The rows a non-empty fetch appends are the unseen videos, in order,
      liked-only (no folder) and the user's; the old rows stay in front. */
  lemma SyncAppendsNewRows(db: Tables, userId: string, ys: seq<LikedVideo>, nowIso: string, toIso: string -> Option<string>)
    requires ProfileOf(db, userId).Some? && Truthy(ProfileOf(db, userId).value.accessToken)
    requires ys != []
    requires LikedAtsConvert(Unseen(db, userId, ys), nowIso, toIso)
    ensures var db' := SyncLikedVideos(db, userId, Fetched(ys), nowIso, toIso).0;
            var unseen := NewOnly(ys, ExistingYouTubeIds(db.videos, userId, VideoIdsOf(ys)));
            |db'.videos| == |db.videos| + |unseen| && db'.videos[..|db.videos|] == db.videos
            && (forall i :: 0 <= i < |unseen| ==>
                  var v := db'.videos[|db.videos| + i];
                  v.youtubeId == unseen[i].videoId && v.userId == userId && v.folderId == None)
  {
    var unseen := NewOnly(ys, ExistingYouTubeIds(db.videos, userId, VideoIdsOf(ys)));
    var db' := SyncLikedVideos(db, userId, Fetched(ys), nowIso, toIso).0;
    var rows := if unseen == [] then [] else InsertVideos(db, userId, unseen, None, nowIso, toIso).1.value;
    SyncVideos(db, userId, ys, nowIso, toIso);
    AppendedRows(db.videos, db'.videos, rows, unseen, userId);
  }

  /** A like time that does not convert, among the videos the user does not
      have yet, makes the sync fail with the conversion's message: nothing is
      inserted and `last_sync_at` is not stamped. */
  lemma SyncRejectsUnreadableLikedAt(db: Tables, userId: string, ys: seq<LikedVideo>, nowIso: string, toIso: string -> Option<string>)
    requires ProfileOf(db, userId).Some? && Truthy(ProfileOf(db, userId).value.accessToken)
    requires ys != [] && !LikedAtsConvert(Unseen(db, userId, ys), nowIso, toIso)
    ensures var (db', r) := SyncLikedVideos(db, userId, Fetched(ys), nowIso, toIso);
            db' == db && !r.success && r.newVideosCount == 0 && r.errors == Some([InvalidTimeValue])
  {
  }

  /** Rows appended behind the old ones, one per unseen video. */
  lemma AppendedRows(videos: seq<Video>, vs: seq<Video>, rows: seq<Video>, unseen: seq<LikedVideo>, userId: string)
    requires vs == videos + rows && |rows| == |unseen|
    requires forall i :: 0 <= i < |unseen| ==>
               rows[i].userId == userId && rows[i].folderId == None && rows[i].youtubeId == unseen[i].videoId
    ensures |vs| == |videos| + |unseen| && vs[..|videos|] == videos
            && (forall i :: 0 <= i < |unseen| ==>
                  var v := vs[|videos| + i];
                  v.youtubeId == unseen[i].videoId && v.userId == userId && v.folderId == None)
  {
    assert vs[..|videos|] == videos;
    forall i | 0 <= i < |unseen|
      ensures vs[|videos| + i] == rows[i]
    {
    }
  }

  /** Stamping `last_sync_at` keeps every profile id, so the user's profile is
      still found, with its tokens unchanged. */
  lemma {:induction false} StampKeepsProfiles(profiles: seq<Profile>, userId: string, nowIso: string)
    ensures Filter(StampLastSync(profiles, userId, nowIso), (p: Profile) => p.id == userId)
         == StampLastSync(Filter(profiles, (p: Profile) => p.id == userId), userId, nowIso)
  {
    if profiles != [] {
      StampKeepsProfiles(profiles[1..], userId, nowIso);
      var q := (p: Profile) => p.id == userId;
      var st := StampLastSync(profiles, userId, nowIso);
      assert st[1..] == StampLastSync(profiles[1..], userId, nowIso);
      assert Filter(st, q) == (if q(st[0]) then [st[0]] else []) + Filter(st[1..], q);
    }
  }

  /** The video rows after a non-empty fetch. */
  lemma SyncVideos(db: Tables, userId: string, ys: seq<LikedVideo>, nowIso: string, toIso: string -> Option<string>)
    requires ProfileOf(db, userId).Some? && Truthy(ProfileOf(db, userId).value.accessToken)
    requires ys != []
    requires LikedAtsConvert(Unseen(db, userId, ys), nowIso, toIso)
    ensures var unseen := NewOnly(ys, ExistingYouTubeIds(db.videos, userId, VideoIdsOf(ys)));
            var rows := if unseen == [] then [] else InsertVideos(db, userId, unseen, None, nowIso, toIso).1.value;
            SyncLikedVideos(db, userId, Fetched(ys), nowIso, toIso).0.videos == db.videos + rows
            && |rows| == |unseen|
            && forall i :: 0 <= i < |unseen| ==>
                 rows[i].userId == userId && rows[i].folderId == None && rows[i].youtubeId == unseen[i].videoId
  {
    var unseen := NewOnly(ys, ExistingYouTubeIds(db.videos, userId, VideoIdsOf(ys)));
    if unseen == [] {
      assert SyncLikedVideos(db, userId, Fetched(ys), nowIso, toIso).0.videos == db.videos;
    } else {
      InsertVideosAppends(db, userId, unseen, None, nowIso, toIso);
    }
  }

  /** After a sync every fetched video is stored for the user: either it was
      there already or it has just been inserted. */
  lemma SyncStoresEveryFetched(db: Tables, userId: string, ys: seq<LikedVideo>, nowIso: string, toIso: string -> Option<string>)
    requires ProfileOf(db, userId).Some? && Truthy(ProfileOf(db, userId).value.accessToken)
    requires ys != []
    requires LikedAtsConvert(Unseen(db, userId, ys), nowIso, toIso)
    ensures var db' := SyncLikedVideos(db, userId, Fetched(ys), nowIso, toIso).0;
            forall k :: 0 <= k < |ys| ==>
              exists i :: 0 <= i < |db'.videos| && db'.videos[i].userId == userId && db'.videos[i].youtubeId == ys[k].videoId
  {
    var db' := SyncLikedVideos(db, userId, Fetched(ys), nowIso, toIso).0;
    var ids := VideoIdsOf(ys);
    var existing := ExistingYouTubeIds(db.videos, userId, ids);
    var unseen := NewOnly(ys, existing);
    SyncAppendsNewRows(db, userId, ys, nowIso, toIso);
    forall k | 0 <= k < |ys|
      ensures exists i :: 0 <= i < |db'.videos| && db'.videos[i].userId == userId && db'.videos[i].youtubeId == ys[k].videoId
    {
      var x := ys[k].videoId;
      assert ids[k] == x;
      if x in existing {
        ExistingYouTubeIdsIff(db.videos, userId, ids, x);
        var i :| 0 <= i < |db.videos| && db.videos[i].userId == userId && db.videos[i].youtubeId == x;
        assert db'.videos[i] == db'.videos[..|db.videos|][i];
      } else {
        assert ys[k] in unseen;
        var j :| 0 <= j < |unseen| && unseen[j] == ys[k];
        assert db'.videos[|db.videos| + j].youtubeId == x;
      }
    }
  }

  /** Syncing the same liked list twice inserts nothing the second time: the
      videos stay as the first sync left them and the count of new videos is 0. */
  lemma SyncTwiceInsertsNothing(db: Tables, userId: string, ys: seq<LikedVideo>, now1: string, now2: string, toIso: string -> Option<string>)
    requires ProfileOf(db, userId).Some? && Truthy(ProfileOf(db, userId).value.accessToken)
    requires ys != []
    requires LikedAtsConvert(Unseen(db, userId, ys), now1, toIso)
    ensures var db1 := SyncLikedVideos(db, userId, Fetched(ys), now1, toIso).0;
            var (db2, r) := SyncLikedVideos(db1, userId, Fetched(ys), now2, toIso);
            r.success && r.newVideosCount == 0 && db2.videos == db1.videos
  {
    var q := (p: Profile) => p.id == userId;
    var existing := ExistingYouTubeIds(db.videos, userId, VideoIdsOf(ys));
    var unseen := NewOnly(ys, existing);
    var db1 := SyncLikedVideos(db, userId, Fetched(ys), now1, toIso).0;
    SyncInsertsExactlyNew(db, userId, ys, now1, toIso);
    StampKeepsProfiles(db.profiles, userId, now1);
    assert Filter(db1.profiles, q) == StampLastSync(Filter(db.profiles, q), userId, now1);
    assert ProfileOf(db1, userId).Some? && Truthy(ProfileOf(db1, userId).value.accessToken);
    SyncStoresEveryFetched(db, userId, ys, now1, toIso);
    var ids := VideoIdsOf(ys);
    var existing2 := ExistingYouTubeIds(db1.videos, userId, ids);
    forall k | 0 <= k < |ys|
      ensures ys[k].videoId in existing2
    {
      assert ids[k] == ys[k].videoId;
      ExistingYouTubeIdsIff(db1.videos, userId, ids, ys[k].videoId);
    }
    FilterNone(ys, (y: LikedVideo) => y.videoId !in existing2);
    assert NewOnly(ys, existing2) == [];
  }

  // ---------------------------------------------------------------------------
  // Moving videos

  /** The video rows after setting `folder_id` on the selected rows. */
  function UpdateFolder(videos: seq<Video>, selected: Video -> bool, folderId: Option<string>): (r: seq<Video>)
    ensures |r| == |videos|
    ensures forall i :: 0 <= i < |videos| ==>
              r[i] == if selected(videos[i]) then videos[i].(folderId := folderId) else videos[i]
  {
    if videos == [] then []
    else [if selected(videos[0]) then videos[0].(folderId := folderId) else videos[0]]
           + UpdateFolder(videos[1..], selected, folderId)
  }

  const VideoNotFound: string := "Video not found or you don't have permission"
  const FolderNotFound: string := "Folder not found or you don't have permission"
  /** The shorter message `deleteFolder` raises for a folder the user does not own. */
  const NoSuchFolder: string := "Folder not found"

  function OwnedVideo(db: Tables, videoId: string, userId: string): Option<Video> {
    Single(db.videos, (v: Video) => v.id == videoId && v.userId == userId)
  }

  function OwnedFolder(db: Tables, folderId: string, userId: string): Option<Folder> {
    Single(db.folders, (f: Folder) => f.id == folderId && f.userId == userId)
  }

  /** `moveVideo(videoId, newFolderId, userId)`: a null target removes the
      video from its folder, any other target must be a folder of the user. */
  function MoveVideo(db: Tables, videoId: string, newFolderId: Option<string>, userId: string): (Tables, Outcome<string>) {
    if OwnedVideo(db, videoId, userId).None? then (db, Fail(VideoNotFound))
    else match newFolderId
      case None =>
        (db.(videos := UpdateFolder(db.videos, (v: Video) => v.id == videoId && v.userId == userId, None)), Pass)
      case Some(target) =>
        if OwnedFolder(db, target, userId).None? then (db, Fail(FolderNotFound))
        else (db.(videos := UpdateFolder(db.videos, (v: Video) => v.id == videoId, Some(target))), Pass)
  }

  /** The move fails, writing nothing, exactly when the user does not own the
      video or a non-null target is not a folder of the user. On success only
      `folder_id` of the rows with that video id changes, to the target. */
  lemma MoveVideoSpec(db: Tables, videoId: string, newFolderId: Option<string>, userId: string)
    ensures var (db', out) := MoveVideo(db, videoId, newFolderId, userId);
            out.Fail? <==> OwnedVideo(db, videoId, userId).None?
                           || (newFolderId.Some? && OwnedFolder(db, newFolderId.value, userId).None?)
    ensures var (db', out) := MoveVideo(db, videoId, newFolderId, userId);
            out.Fail? ==> db' == db
    ensures var (db', out) := MoveVideo(db, videoId, newFolderId, userId);
            db'.profiles == db.profiles && db'.folders == db.folders && db'.tags == db.tags
            && db'.videoTags == db.videoTags && |db'.videos| == |db.videos|
            && forall i :: 0 <= i < |db.videos| ==>
                 db'.videos[i] == db.videos[i].(folderId := db'.videos[i].folderId)
                 && (db.videos[i].id != videoId ==> db'.videos[i] == db.videos[i])
                 && (out.Pass? && db.videos[i].id == videoId && db.videos[i].userId == userId ==>
                       db'.videos[i].folderId == newFolderId)
  {
  }

  // ---------------------------------------------------------------------------
  // Folders

  function UserFolders(folders: seq<Folder>, userId: string): seq<Folder> {
    Filter(folders, (f: Folder) => f.userId == userId)
  }

  /** `getUserFolders`: the user's folders by ascending `position_index`. */
  function GetUserFolders(db: Tables, userId: string): seq<Folder> {
    SortBy(UserFolders(db.folders, userId), (f: Folder) => f.position)
  }

  /** The listing is exactly the user's folders, each once, in position order. */
  lemma GetUserFoldersSpec(db: Tables, userId: string)
    ensures var r := GetUserFolders(db, userId);
            multiset(r) == multiset(UserFolders(db.folders, userId))
            && (forall i :: 0 <= i < |r| ==> r[i].userId == userId && r[i] in db.folders)
            && (forall f :: f in db.folders && f.userId == userId ==> f in r)
            && forall i, j :: 0 <= i < j < |r| ==> r[i].position <= r[j].position
  {
    var r := GetUserFolders(db, userId);
    var u := UserFolders(db.folders, userId);
    forall i | 0 <= i < |r| ensures r[i].userId == userId && r[i] in db.folders {
      assert r[i] in multiset(u);
    }
    forall f | f in db.folders && f.userId == userId ensures f in r {
      assert f in u;
      assert f in multiset(r);
    }
  }

  /** The highest `position_index` among `folders`, when there are any. */
  function MaxPosition(folders: seq<Folder>): (m: int)
    requires folders != []
    ensures forall i :: 0 <= i < |folders| ==> folders[i].position <= m
    ensures exists i :: 0 <= i < |folders| && folders[i].position == m
  {
    if |folders| == 1 then folders[0].position
    else
      var m := MaxPosition(folders[1..]);
      assert forall i :: 1 <= i < |folders| ==> folders[i] == folders[1..][i - 1];
      if folders[0].position > m then folders[0].position else m
  }

  /** The position a new folder gets: one past the user's highest, else 0. */
  function NextPosition(folders: seq<Folder>, userId: string): int {
    var mine := UserFolders(folders, userId);
    if mine == [] then 0 else MaxPosition(mine) + 1
  }

  /** `createFolder(userId, name)`: a non-default folder placed after the
      user's other folders. */
  function CreateFolder(db: Tables, userId: string, name: string): (Tables, Folder) {
    var f := Folder(FreshId(db), userId, name, NextPosition(db.folders, userId), false);
    (db.(folders := db.folders + [f], nextId := db.nextId + 1), f)
  }

  /** The new folder is appended, belongs to the user, has the given name, is
      not the default, and sits strictly after every folder the user had,
      at one past the highest (or 0 for the first folder). */
  lemma CreateFolderSpec(db: Tables, userId: string, name: string)
    ensures var (db', f) := CreateFolder(db, userId, name);
            db'.folders == db.folders + [f] && f.userId == userId && f.name == name && !f.isDefault
            && db'.videos == db.videos && db'.profiles == db.profiles && db'.tags == db.tags
            && (forall g :: g in db.folders && g.userId == userId ==> g.position < f.position)
            && ((forall g :: g in db.folders ==> g.userId != userId) ==> f.position == 0)
            && ((exists g :: g in db.folders && g.userId == userId) ==>
                  exists g :: g in db.folders && g.userId == userId && f.position == g.position + 1)
  {
    var mine := UserFolders(db.folders, userId);
    var (db', f) := CreateFolder(db, userId, name);
    forall g | g in db.folders && g.userId == userId ensures g.position < f.position {
      assert g in mine;
    }
    if exists g :: g in db.folders && g.userId == userId {
      var g :| g in db.folders && g.userId == userId;
      assert g in mine;
      var i :| 0 <= i < |mine| && mine[i].position == MaxPosition(mine);
      assert mine[i] in db.folders;
    }
  }

  /** One step of the reorder loop: the user's folder `id` moves to `pos`. */
  function SetPosition(folders: seq<Folder>, id: string, userId: string, pos: int): (r: seq<Folder>)
    ensures |r| == |folders|
    ensures forall i :: 0 <= i < |folders| ==>
              r[i] == if folders[i].id == id && folders[i].userId == userId then folders[i].(position := pos) else folders[i]
  {
    if folders == [] then []
    else [if folders[0].id == id && folders[0].userId == userId then folders[0].(position := pos) else folders[0]]
           + SetPosition(folders[1..], id, userId, pos)
  }

  /** The folder rows after the first `n` steps of `reorderFolders`. */
  function ReorderSteps(folders: seq<Folder>, userId: string, folderIds: seq<string>, n: nat): seq<Folder>
    requires n <= |folderIds|
  {
    if n == 0 then folders
    else SetPosition(ReorderSteps(folders, userId, folderIds, n - 1), folderIds[n - 1], userId, n - 1)
  }

  /** `reorderFolders(userId, folderIds)`. */
  function ReorderFolders(db: Tables, userId: string, folderIds: seq<string>): Tables {
    db.(folders := ReorderSteps(db.folders, userId, folderIds, |folderIds|))
  }

  /** After `n` steps each of the user's folders whose id is among the first
      `n` listed sits at the last index listing it; every other row is as it
      was. */
  lemma {:induction false} ReorderStepsSpec(folders: seq<Folder>, userId: string, folderIds: seq<string>, n: nat)
    requires n <= |folderIds|
    ensures var r := ReorderSteps(folders, userId, folderIds, n);
            |r| == |folders|
            && forall i :: 0 <= i < |folders| ==>
                 r[i] == if folders[i].userId == userId && folders[i].id in folderIds[..n]
                         then folders[i].(position := LastIndexOf(folderIds[..n], folders[i].id))
                         else folders[i]
  {
    if n > 0 {
      ReorderStepsSpec(folders, userId, folderIds, n - 1);
      var prev := folderIds[..n - 1];
      var ids := folderIds[..n];
      assert ids == prev + [folderIds[n - 1]];
      assert ids[..n - 1] == prev;
      var r := ReorderSteps(folders, userId, folderIds, n);
      forall i | 0 <= i < |folders|
        ensures r[i] == if folders[i].userId == userId && folders[i].id in ids
                        then folders[i].(position := LastIndexOf(ids, folders[i].id))
                        else folders[i]
      {
        var f := folders[i];
        if f.userId == userId && f.id == folderIds[n - 1] {
          assert LastIndexOf(ids, f.id) == n - 1;
        } else if f.userId == userId && f.id in prev {
          assert f.id in ids;
          assert LastIndexOf(ids, f.id) == LastIndexOf(prev, f.id);
        } else if f.userId == userId {
          assert f.id !in ids;
        }
      }
    }
  }

  /** The user's folder listed at index `i` gets `position_index` `i` (the last
      such index when listed twice); other users' folders, unlisted folders,
      and every other field and table are untouched. */
  lemma ReorderFoldersSpec(db: Tables, userId: string, folderIds: seq<string>)
    ensures var db' := ReorderFolders(db, userId, folderIds);
            db'.videos == db.videos && db'.profiles == db.profiles && db'.tags == db.tags
            && |db'.folders| == |db.folders|
            && forall i :: 0 <= i < |db.folders| ==>
                 var f := db.folders[i];
                 db'.folders[i] == if f.userId == userId && f.id in folderIds
                                   then f.(position := LastIndexOf(folderIds, f.id))
                                   else f
  {
    ReorderStepsSpec(db.folders, userId, folderIds, |folderIds|);
    assert folderIds[..|folderIds|] == folderIds;
  }

  const CannotDeleteDefault: string := "Cannot delete default Inbox folder"
  const CannotDeleteNonEmpty: string := "Cannot delete folder with videos. Move videos first."

  /** The number of videos, of any user, filed in the folder. */
  function VideosInFolder(videos: seq<Video>, folderId: string): nat {
    |Filter(videos, (v: Video) => v.folderId == Some(folderId))|
  }

  /** `deleteFolder(folderId, userId)`. */
  function DeleteFolder(db: Tables, folderId: string, userId: string): (Tables, Outcome<string>) {
    match OwnedFolder(db, folderId, userId)
    case None => (db, Fail(NoSuchFolder))
    case Some(f) =>
      if f.isDefault then (db, Fail(CannotDeleteDefault))
      else if VideosInFolder(db.videos, folderId) > 0 then (db, Fail(CannotDeleteNonEmpty))
      else (db.(folders := Filter(db.folders, (g: Folder) => !(g.id == folderId && g.userId == userId))), Pass)
  }

  /** Deletion succeeds exactly for the user's one folder of that id that is
      not the default and holds no video; it then removes exactly that row and
      keeps the others in order. Any failure writes nothing. */
  lemma DeleteFolderSpec(db: Tables, folderId: string, userId: string)
    ensures var (db', out) := DeleteFolder(db, folderId, userId);
            out.Pass? <==> OwnedFolder(db, folderId, userId).Some?
                           && !OwnedFolder(db, folderId, userId).value.isDefault
                           && VideosInFolder(db.videos, folderId) == 0
    ensures var (db', out) := DeleteFolder(db, folderId, userId);
            out.Fail? ==> db' == db
    ensures var (db', out) := DeleteFolder(db, folderId, userId);
            out.Pass? ==>
              |db'.folders| == |db.folders| - 1
              && (forall g :: g in db'.folders <==> g in db.folders && !(g.id == folderId && g.userId == userId))
              && db'.videos == db.videos && db'.profiles == db.profiles && db'.tags == db.tags
  {
    var p := (g: Folder) => g.id == folderId && g.userId == userId;
    var q := (g: Folder) => !(g.id == folderId && g.userId == userId);
    if OwnedFolder(db, folderId, userId).Some? {
      FilterSplitCount(db.folders, p, q);
    }
  }

  /** A row either matches or is kept, so the kept rows number all rows less
      the matching ones. */
  lemma {:induction false} FilterSplitCount(folders: seq<Folder>, p: Folder -> bool, q: Folder -> bool)
    requires forall g :: q(g) <==> !p(g)
    ensures |Filter(folders, q)| == |folders| - |Filter(folders, p)|
  {
    if folders != [] {
      FilterSplitCount(folders[1..], p, q);
    }
  }
}
