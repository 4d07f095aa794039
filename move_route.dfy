/**
 * `POST /api/videos/move`: validates the body and delegates to the store's
 * `moveVideo`; any error the service raises becomes a 500.
 */
module MoveRoute {
  import opened Wrappers
  import opened Http
  import L = Library
  import VideoService

  datatype MoveReply = Unauthorized | MissingFields | Moved(videoId: string, newFolderId: string) | MoveFailed(message: string)
  {
    function Status(): int {
      match this
      case Unauthorized => 401
      case MissingFields => 400
      case Moved(_, _) => 200
      case MoveFailed(_) => 500
    }
  }

  /** A truthy field that is not a string names no row: the service's video
      lookup decides the message, and a non-string target then fails the
      folder lookup. */
  function NonStringTarget(db: L.Tables, videoId: string, userId: string): string {
    if L.OwnedVideo(db, videoId, userId).None? then L.VideoNotFound else L.FolderNotFound
  }

  /** The route on the tables: `user` is the authenticated user, if any. */
  function Move(db: L.Tables, user: Option<string>, videoId: Field, newFolderId: Field): (L.Tables, MoveReply) {
    if user.None? then (db, Unauthorized)
    else if !videoId.Truthy() || !newFolderId.Truthy() then (db, MissingFields)
    else if !videoId.Str? then (db, MoveFailed(L.VideoNotFound))
    else if !newFolderId.Str? then (db, MoveFailed(NonStringTarget(db, videoId.s, user.value)))
    else
      var (db', out) := L.MoveVideo(db, videoId.s, Some(newFolderId.s), user.value);
      match out
      case Pass => (db', Moved(videoId.s, newFolderId.s))
      case Fail(e) => (db, MoveFailed(e))
  }

  /** 401 without a user and 400 when either field is falsy, both without a
      write; otherwise the answer is 200, echoing both ids, exactly when the
      service's move succeeds, and then the tables are the service's. */
  lemma MoveSpec(db: L.Tables, user: Option<string>, videoId: Field, newFolderId: Field)
    ensures var (db', reply) := Move(db, user, videoId, newFolderId);
            (reply.Unauthorized? <==> user.None?)
            && (reply.MissingFields? <==> user.Some? && (!videoId.Truthy() || !newFolderId.Truthy()))
            && (!reply.Moved? ==> db' == db)
    ensures var (db', reply) := Move(db, user, videoId, newFolderId);
            user.Some? && videoId.Str? && newFolderId.Str? && videoId.s != "" && newFolderId.s != "" ==>
              (reply.Moved? <==> L.MoveVideo(db, videoId.s, Some(newFolderId.s), user.value).1.Pass?)
              && (reply.Moved? ==> reply == Moved(videoId.s, newFolderId.s)
                                   && db' == L.MoveVideo(db, videoId.s, Some(newFolderId.s), user.value).0)
  {
  }

  /** A truthy id that is not a string is looked up like an id naming no row:
      a non-string video id gives the service's video error, and a non-string
      target gives the folder error once the video check has passed. Nothing
      is written. */
  lemma NonStringIdsFail(db: L.Tables, userId: string, videoId: Field, newFolderId: Field, missing: string)
    requires videoId.Truthy() && newFolderId.Truthy() && !(videoId.Str? && newFolderId.Str?)
    requires missing != "" && (forall f :: f in db.folders ==> f.id != missing)
    ensures var (db', reply) := Move(db, Some(userId), videoId, newFolderId);
            db' == db && reply.MoveFailed?
            && (videoId.Str? ==> reply.message == L.MoveVideo(db, videoId.s, Some(missing), userId).1.error)
            && (!videoId.Str? ==> reply.message == L.VideoNotFound)
  {
    if videoId.Str? {
      AbsentFolderNotOwned(db, missing, userId);
    }
  }

  /** An id that names no folder row is not a folder of the user. */
  lemma AbsentFolderNotOwned(db: L.Tables, folderId: string, userId: string)
    requires forall f :: f in db.folders ==> f.id != folderId
    ensures L.OwnedFolder(db, folderId, userId).None?
  {
  }

  /** The route rejects a null target with 400, although the service would
      accept it and take the video out of its folder. */
  lemma NullTargetRejected(db: L.Tables, userId: string, videoId: string)
    requires videoId != ""
    requires L.OwnedVideo(db, videoId, userId).Some?
    ensures Move(db, Some(userId), Str(videoId), Null) == (db, MissingFields)
    ensures L.MoveVideo(db, videoId, None, userId).1 == Pass
  {
  }

  /** The route as a step on the store. */
  method Post(store: VideoService.Store, user: Option<string>, videoId: Field, newFolderId: Field)
      returns (reply: MoveReply)
    modifies store
    ensures (store.Tables(), reply) == Move(old(store.Tables()), user, videoId, newFolderId)
  {
    if user.None? {
      return Unauthorized;
    }
    if !videoId.Truthy() || !newFolderId.Truthy() {
      return MissingFields;
    }
    if !videoId.Str? {
      return MoveFailed(L.VideoNotFound);
    }
    if !newFolderId.Str? {
      return MoveFailed(NonStringTarget(store.Tables(), videoId.s, user.value));
    }
    var out := store.MoveVideo(videoId.s, Some(newFolderId.s), user.value);
    match out
    case Pass => reply := Moved(videoId.s, newFolderId.s);
    case Fail(e) => reply := MoveFailed(e);
  }
}
