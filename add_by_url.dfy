/**
 * `POST /api/videos/add-by-url`: the ordered chain of checks (auth, url, id,
 * duplicate, target folder), then the insert of one row and its auto-tagging.
 * The WHATWG URL parser and the YouTube lookup `getVideoById` are parameters.
 */
module AddByUrl {
  import opened Wrappers
  import opened Seqs
  import opened Http
  import opened AutoTag
  import opened YouTubeApi
  import YouTubeUrl
  import L = Library
  import VideoService

  datatype AddReply =
    | Unauthorized
    | UrlRequired
    | InvalidUrl
    | AlreadySaved(message: string)
    | DefaultFolderMissing
    | FolderNotFound
    | AddFailed
    | SavedButUnreadable
    | Added(video: L.Video, tags: set<L.Tag>)
  {
    function Status(): int {
      match this
      case Unauthorized => 401
      case UrlRequired => 400
      case InvalidUrl => 400
      case AlreadySaved(_) => 409
      case DefaultFolderMissing => 500
      case FolderNotFound => 404
      case AddFailed => 500
      case SavedButUnreadable => 500
      case Added(_, _) => 201
    }
  }

  /** The extracted id, or `None` when it is missing or empty (falsy). */
  function VideoIdOf(url: string, parse: string -> Option<YouTubeUrl.Url>): Option<string> {
    var id := YouTubeUrl.ExtractVideoId(parse(url));
    if Truthy(id) then id else None
  }

  /** The caller's stored row for that YouTube id, by `.single()`. */
  function ExistingRow(db: L.Tables, userId: string, videoId: string): Option<L.Video> {
    Single(db.videos, (v: L.Video) => v.userId == userId && v.youtubeId == videoId)
  }

  /** The 409 message: the stored title and, when its folder can be read and
      has a name, that folder's name in quotes. */
  function DuplicateMessage(db: L.Tables, existing: L.Video): string {
    var folder := if Truthy(existing.folderId)
                  then Single(db.folders, (f: L.Folder) => f.id == existing.folderId.value)
                  else None;
    var folderName := if folder.Some? && folder.value.name != "" then "\"" + folder.value.name + "\"" else "a folder";
    "\"" + existing.title + "\" is already saved in " + folderName
  }

  /** Where the video goes: the given folder if the caller owns it, else the
      caller's default folder when no folder is given. */
  datatype Target = Into(folderId: string) | NoDefault | NotOwned

  function ResolveFolder(db: L.Tables, userId: string, folderId: Field): Target {
    if !folderId.Truthy() then
      match Single(db.folders, (f: L.Folder) => f.userId == userId && f.isDefault)
      case None => NoDefault
      case Some(f) => Into(f.id)
    else if folderId.Str? && Single(db.folders, (f: L.Folder) => f.id == folderId.s && f.userId == userId).Some? then
      Into(folderId.s)
    else NotOwned
  }

  /** The inserted row: like a synced row, but with `liked_at` null. */
  function AddedRow(db: L.Tables, userId: string, folderId: string, v: LikedVideo): L.Video {
    L.NewVideoRow(L.FreshId(db), userId, Some(folderId), v, None)
  }

  /** The video's tags as the `video_tags(tag:tags(*))` join returns them, with
      links to missing tags dropped. */
  function TagsOf(db: L.Tables, videoId: string): set<L.Tag> {
    set t | t in db.tags && L.VideoTag(videoId, t.id) in db.videoTags
  }

  function HasId(id: string): L.Video -> bool {
    (w: L.Video) => w.id == id
  }

  /** The tables after the insert and the auto-tagging. */
  function Inserted(db: L.Tables, userId: string, folderId: string, v: LikedVideo): L.Tables {
    var row := AddedRow(db, userId, folderId, v);
    L.AutoTagVideo(db.(videos := db.videos + [row], nextId := db.nextId + 1), row.id, userId, row.title)
  }

  /** Insert, auto-tag, then read the row back by `.single()`. */
  function Insert(db: L.Tables, userId: string, folderId: string, v: LikedVideo): (L.Tables, AddReply) {
    var db2 := Inserted(db, userId, folderId, v);
    (db2, match Single(db2.videos, HasId(AddedRow(db, userId, folderId, v).id))
          case None => SavedButUnreadable
          case Some(w) => Added(w, TagsOf(db2, w.id)))
  }

  /** The route. `fetched` is what `getVideoById` returns for the extracted
      id, `None` when it throws. */
  function Add(db: L.Tables, user: Option<string>, url: Field, folderId: Field,
               parse: string -> Option<YouTubeUrl.Url>, fetched: Option<LikedVideo>): (L.Tables, AddReply) {
    if user.None? then (db, Unauthorized)
    else if !url.Truthy() || !url.Str? then (db, UrlRequired)
    else
      var userId := user.value;
      match VideoIdOf(url.s, parse)
      case None => (db, InvalidUrl)
      case Some(videoId) =>
        match ExistingRow(db, userId, videoId)
        case Some(existing) => (db, AlreadySaved(DuplicateMessage(db, existing)))
        case None =>
          match ResolveFolder(db, userId, folderId)
          case NoDefault => (db, DefaultFolderMissing)
          case NotOwned => (db, FolderNotFound)
          case Into(target) =>
            match fetched
            case None => (db, AddFailed)
            case Some(v) => Insert(db, userId, target, v)
  }

  /** The checks run in order and every answer before the insert writes
      nothing: 401 without a user, 400 for a missing or non-string url, 400
      when no id can be extracted, 409 when the caller already has the video. */
  lemma CheckOrder(db: L.Tables, user: Option<string>, url: Field, folderId: Field,
                   parse: string -> Option<YouTubeUrl.Url>, fetched: Option<LikedVideo>)
    ensures var (db', reply) := Add(db, user, url, folderId, parse, fetched);
            (reply.Unauthorized? <==> user.None?)
            && (reply.UrlRequired? <==> user.Some? && (!url.Str? || url.s == ""))
            && (reply.InvalidUrl? <==> user.Some? && url.Str? && url.s != "" && VideoIdOf(url.s, parse).None?)
            && (reply.AlreadySaved? <==> user.Some? && url.Str? && url.s != "" && VideoIdOf(url.s, parse).Some?
                                          && ExistingRow(db, user.value, VideoIdOf(url.s, parse).value).Some?)
            && (!reply.Added? && !reply.SavedButUnreadable? ==> db' == db)
  {
    if user.Some? && url.Truthy() && url.Str? && VideoIdOf(url.s, parse).Some?
       && ExistingRow(db, user.value, VideoIdOf(url.s, parse).value).None?
       && ResolveFolder(db, user.value, folderId).Into? && fetched.Some? {
      AddReachesInsert(db, user, url, folderId, parse, fetched);
      InsertAnswers(db, user.value, ResolveFolder(db, user.value, folderId).folderId, fetched.value);
    }
  }

  /** The insert answers 201 or, when the row cannot be read back, 500. */
  lemma InsertAnswers(db: L.Tables, userId: string, folderId: string, v: LikedVideo)
    ensures Insert(db, userId, folderId, v).1.Added? || Insert(db, userId, folderId, v).1.SavedButUnreadable?
  {
  }

  /** A video the caller already has, as one row, is answered 409 and never
      inserted a second time. */
  lemma DuplicateNotInserted(db: L.Tables, userId: string, url: string, folderId: Field,
                             parse: string -> Option<YouTubeUrl.Url>, fetched: Option<LikedVideo>)
    requires url != "" && VideoIdOf(url, parse).Some?
    requires |Filter(db.videos, (v: L.Video) => v.userId == userId && v.youtubeId == VideoIdOf(url, parse).value)| == 1
    ensures Add(db, Some(userId), Str(url), folderId, parse, fetched).1.AlreadySaved?
    ensures Add(db, Some(userId), Str(url), folderId, parse, fetched).0 == db
  {
  }

  /** Without a folder the caller's default folder is the target, and 500 is
      the answer when there is none; a given folder the caller does not own
      is answered 404. */
  lemma FolderResolution(db: L.Tables, userId: string, folderId: Field)
    ensures var t := ResolveFolder(db, userId, folderId);
            (!folderId.Truthy() ==>
               (t.NoDefault? <==> |Filter(db.folders, (f: L.Folder) => f.userId == userId && f.isDefault)| != 1)
               && (t.Into? ==> exists f :: f in db.folders && f.userId == userId && f.isDefault && f.id == t.folderId))
            && (folderId.Truthy() ==>
                  !t.NoDefault?
                  && (t.Into? <==> folderId.Str? && |Filter(db.folders, (f: L.Folder) => f.id == folderId.s && f.userId == userId)| == 1)
                  && (t.Into? ==> t.folderId == folderId.s))
  {
  }

  /** Exactly one row is appended: the caller's, in the resolved folder, with
      the fetched video's id and title and `liked_at` null. */
  lemma InsertSpec(db: L.Tables, userId: string, folderId: string, v: LikedVideo)
    ensures var (db', reply) := Insert(db, userId, folderId, v);
            var row := AddedRow(db, userId, folderId, v);
            db'.videos == db.videos + [row] && db'.folders == db.folders && db'.profiles == db.profiles
            && row.userId == userId && row.folderId == Some(folderId) && row.youtubeId == v.videoId
            && row.title == v.title && row.likedAt == None
  {
    AddedRowFields(db, userId, folderId, v);
    InsertedFrame(db, userId, folderId, v);
  }

  lemma AddedRowFields(db: L.Tables, userId: string, folderId: string, v: LikedVideo)
    ensures var row := AddedRow(db, userId, folderId, v);
            row.userId == userId && row.folderId == Some(folderId) && row.youtubeId == v.videoId
            && row.title == v.title && row.likedAt == None
  {
  }

  lemma InsertedFrame(db: L.Tables, userId: string, folderId: string, v: LikedVideo)
    ensures var db' := Inserted(db, userId, folderId, v);
            db'.videos == db.videos + [AddedRow(db, userId, folderId, v)] && db'.folders == db.folders && db'.profiles == db.profiles
  {
    var row := AddedRow(db, userId, folderId, v);
    L.AutoTagVideoKeepsRows(db.(videos := db.videos + [row], nextId := db.nextId + 1), row.id, userId, row.title);
  }

  /** A 201 answer carries the inserted row. */
  lemma InsertReadsBack(db: L.Tables, userId: string, folderId: string, v: LikedVideo)
    ensures var (db', reply) := Insert(db, userId, folderId, v);
            reply.Added? ==> reply.video == AddedRow(db, userId, folderId, v)
  {
    var row := AddedRow(db, userId, folderId, v);
    var db2 := Inserted(db, userId, folderId, v);
    InsertSpec(db, userId, folderId, v);
    assert db2.videos[|db.videos|] == row;
    SingleIsTheMatch(db2.videos, HasId(row.id), row);
  }

  /** When exactly one row matches, `.single()` returns any matching row. */
  lemma SingleIsTheMatch<T>(rows: seq<T>, p: T -> bool, x: T)
    requires x in rows && p(x)
    ensures Single(rows, p).Some? ==> Single(rows, p) == Some(x)
  {
    var m := Filter(rows, p);
    assert x in m;
  }

  /** Every tag detected in the title is among the tags of a 201 answer. */
  lemma InsertTagsDetected(db: L.Tables, userId: string, folderId: string, v: LikedVideo)
    ensures var (db', reply) := Insert(db, userId, folderId, v);
            reply.Added? ==>
              forall name :: name in Detect(v.title) ==>
                exists t :: t in reply.tags && t.userId == userId && t.name == name
  {
    var row := AddedRow(db, userId, folderId, v);
    InsertedTagsDetected(db, userId, folderId, v);
    InsertReadsBack(db, userId, folderId, v);
  }

  /** After the auto-tagging, the new row is linked to a tag of the caller's
      for every name detected in the title. */
  lemma InsertedTagsDetected(db: L.Tables, userId: string, folderId: string, v: LikedVideo)
    ensures var row := AddedRow(db, userId, folderId, v);
            forall name :: name in Detect(v.title) ==>
              exists t :: t in TagsOf(Inserted(db, userId, folderId, v), row.id) && t.userId == userId && t.name == name
  {
    var row := AddedRow(db, userId, folderId, v);
    var db1 := db.(videos := db.videos + [row], nextId := db.nextId + 1);
    AddedRowFields(db, userId, folderId, v);
    assert Inserted(db, userId, folderId, v) == L.AutoTagVideo(db1, row.id, userId, v.title);
    AutoTaggedTags(db1, row.id, userId, v.title);
  }

  /** The join over the auto-tagged tables finds a tag of the caller's for
      every detected name. */
  lemma AutoTaggedTags(db: L.Tables, videoId: string, userId: string, title: string)
    ensures forall name :: name in Detect(title) ==>
              exists t :: t in TagsOf(L.AutoTagVideo(db, videoId, userId, title), videoId) && t.userId == userId && t.name == name
  {
    var db' := L.AutoTagVideo(db, videoId, userId, title);
    L.AutoTagVideoSpec(db, videoId, userId, title);
    forall name | name in Detect(title)
      ensures exists t :: t in TagsOf(db', videoId) && t.userId == userId && t.name == name
    {
      var t :| t in db'.tags && t.userId == userId && t.name == name && L.VideoTag(videoId, t.id) in db'.videoTags;
      assert t in TagsOf(db', videoId);
    }
  }

  /** Past every check, the route is the insert. */
  lemma AddReachesInsert(db: L.Tables, user: Option<string>, url: Field, folderId: Field,
                         parse: string -> Option<YouTubeUrl.Url>, fetched: Option<LikedVideo>)
    requires user.Some? && url.Truthy() && url.Str? && VideoIdOf(url.s, parse).Some?
    requires ExistingRow(db, user.value, VideoIdOf(url.s, parse).value).None?
    requires ResolveFolder(db, user.value, folderId).Into? && fetched.Some?
    ensures Add(db, user, url, folderId, parse, fetched)
            == Insert(db, user.value, ResolveFolder(db, user.value, folderId).folderId, fetched.value)
  {
  }

  /** The route as a step on the store. */
  method Post(store: VideoService.Store, user: Option<string>, url: Field, folderId: Field,
              parse: string -> Option<YouTubeUrl.Url>, fetched: Option<LikedVideo>)
      returns (reply: AddReply)
    modifies store
    ensures (store.Tables(), reply) == Add(old(store.Tables()), user, url, folderId, parse, fetched)
  {
    if user.None? {
      return Unauthorized;
    }
    if !url.Truthy() || !url.Str? {
      return UrlRequired;
    }
    var userId := user.value;
    var videoId := VideoIdOf(url.s, parse);
    if videoId.None? {
      return InvalidUrl;
    }
    var existing := ExistingRow(store.Tables(), userId, videoId.value);
    if existing.Some? {
      return AlreadySaved(DuplicateMessage(store.Tables(), existing.value));
    }
    var target := ResolveFolder(store.Tables(), userId, folderId);
    if target.NoDefault? {
      return DefaultFolderMissing;
    }
    if target.NotOwned? {
      return FolderNotFound;
    }
    if fetched.None? {
      return AddFailed;
    }
    AddReachesInsert(store.Tables(), user, url, folderId, parse, fetched);
    reply := InsertInto(store, userId, target.folderId, fetched.value);
  }

  /** Insert, auto-tag and read back, on the store. */
  method InsertInto(store: VideoService.Store, userId: string, folderId: string, v: LikedVideo)
      returns (reply: AddReply)
    modifies store
    ensures (store.Tables(), reply) == Insert(old(store.Tables()), userId, folderId, v)
  {
    ghost var db := store.Tables();
    var row := AddedRow(store.Tables(), userId, folderId, v);
    store.videos := store.videos + [row];
    store.nextId := store.nextId + 1;
    assert store.Tables() == db.(videos := db.videos + [row], nextId := db.nextId + 1);
    store.AutoTagVideo(row.id, userId, row.title);
    assert store.Tables() == Inserted(db, userId, folderId, v);
    var found := Single(store.videos, HasId(row.id));
    if found.None? {
      return SavedButUnreadable;
    }
    reply := Added(found.value, TagsOf(store.Tables(), found.value.id));
  }
}
