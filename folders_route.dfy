/**
 * `/api/folders`: validation and status mapping of the five methods. Listing,
 * creation, reordering and deletion delegate to the store; renaming updates
 * the folder row itself.
 */
module FoldersRoute {
  import opened Wrappers
  import opened Strings
  import opened Seqs
  import opened Http
  import L = Library
  import VideoService

  datatype FolderReply =
    | Unauthorized
    | BadRequest(error: string)
    | Listing(folders: seq<L.Folder>, counts: Option<seq<nat>>)
    | Created(folder: L.Folder)
    | Done
    | Renamed(folder: L.Folder)
    | ServerError(error: string, message: string)
  {
    function Status(): int {
      match this
      case Unauthorized => 401
      case BadRequest(_) => 400
      case Listing(_, _) => 200
      case Created(_) => 201
      case Done => 200
      case Renamed(_) => 200
      case ServerError(_, _) => 500
    }
  }

  const NameRequired: string := "Folder name is required"
  const IdsRequired: string := "folderIds array is required"
  const IdRequired: string := "Folder ID is required"
  const IdAndNameRequired: string := "Folder ID and name are required"
  /** The TypeError of calling `.trim()` on a field that is not a string. */
  const TrimNotAFunction: string := "name.trim is not a function"
  /** The error of `.single()` when the update touched no row or several. */
  const NotSingleRow: string := "JSON object requested, multiple (or no) rows returned"

  // ---------------------------------------------------------------------------
  // GET

  /** `video_count` of each folder: the exact count of video rows filed in it. */
  function Counts(folders: seq<L.Folder>, videos: seq<L.Video>): (cs: seq<nat>)
    ensures |cs| == |folders|
    ensures forall i :: 0 <= i < |folders| ==> cs[i] == L.VideosInFolder(videos, folders[i].id)
  {
    if folders == [] then [] else [L.VideosInFolder(videos, folders[0].id)] + Counts(folders[1..], videos)
  }

  function Get(db: L.Tables, user: Option<string>, includeCount: Option<string>): FolderReply {
    if user.None? then Unauthorized
    else
      var folders := L.GetUserFolders(db, user.value);
      Listing(folders, if includeCount == Some("true") then Some(Counts(folders, db.videos)) else None)
  }

  /** The listing holds exactly the user's folders in `position_index` order;
      counts come exactly with `includeCount=true`, one per folder, each the
      number of videos filed in that folder. */
  lemma GetSpec(db: L.Tables, user: Option<string>, includeCount: Option<string>)
    ensures var reply := Get(db, user, includeCount);
            (reply.Unauthorized? <==> user.None?)
            && (reply.Listing? ==>
                  (forall i, j :: 0 <= i < j < |reply.folders| ==> reply.folders[i].position <= reply.folders[j].position)
                  && (forall f :: f in reply.folders <==> f in db.folders && f.userId == user.value)
                  && (reply.counts.Some? <==> includeCount == Some("true"))
                  && (reply.counts.Some? ==>
                        |reply.counts.value| == |reply.folders|
                        && forall i :: 0 <= i < |reply.folders| ==>
                             reply.counts.value[i] == L.VideosInFolder(db.videos, reply.folders[i].id)))
  {
    if user.Some? {
      L.GetUserFoldersSpec(db, user.value);
    }
  }

  // ---------------------------------------------------------------------------
  // POST

  function Post(db: L.Tables, user: Option<string>, name: Field): (L.Tables, FolderReply) {
    if user.None? then (db, Unauthorized)
    else if !name.Truthy() then (db, BadRequest(NameRequired))
    else if !name.Str? then (db, ServerError("Failed to create folder", TrimNotAFunction))
    else if Trim(name.s) == "" then (db, BadRequest(NameRequired))
    else
      var (db', folder) := L.CreateFolder(db, user.value, Trim(name.s));
      (db', Created(folder))
  }

  /** A missing, empty or blank name is refused with 400 and no write. A
      string name is otherwise stored trimmed in a new folder of the user,
      placed after the user's other folders, and the answer is 201. */
  lemma PostSpec(db: L.Tables, user: Option<string>, name: Field)
    ensures var (db', reply) := Post(db, user, name);
            (reply.BadRequest? <==> user.Some? && (!name.Truthy() || (name.Str? && AllSpace(name.s))))
            && (!reply.Created? ==> db' == db)
    ensures var (db', reply) := Post(db, user, name);
            user.Some? && name.Str? && !AllSpace(name.s) ==>
              reply.Created? && reply.Status() == 201
              && reply.folder.name == Trim(name.s) && reply.folder.userId == user.value && !reply.folder.isDefault
              && db'.folders == db.folders + [reply.folder]
              && (forall g :: g in db.folders && g.userId == user.value ==> g.position < reply.folder.position)
  {
    if name.Str? {
      TrimEmptyIff(name.s);
      if user.Some? && !AllSpace(name.s) {
        PostCreates(db, user.value, name.s);
      }
    }
  }

  /** The step above for a name that trims to something. */
  lemma PostCreates(db: L.Tables, userId: string, name: string)
    requires name != "" && Trim(name) != ""
    ensures var (db', reply) := Post(db, Some(userId), Str(name));
            reply.Created? && reply.folder.name == Trim(name) && reply.folder.userId == userId && !reply.folder.isDefault
            && db'.folders == db.folders + [reply.folder]
            && (forall g :: g in db.folders && g.userId == userId ==> g.position < reply.folder.position)
  {
    L.CreateFolderSpec(db, userId, Trim(name));
  }

  // ---------------------------------------------------------------------------
  // PATCH

  function Patch(db: L.Tables, user: Option<string>, folderIds: Field): (L.Tables, FolderReply) {
    if user.None? then (db, Unauthorized)
    else if !folderIds.Truthy() || !folderIds.Arr? then (db, BadRequest(IdsRequired))
    else (L.ReorderFolders(db, user.value, folderIds.items), Done)
  }

  /** Anything but an array is refused with 400 and no write; an array
      reorders the user's folders by list index and answers 200. */
  lemma PatchSpec(db: L.Tables, user: Option<string>, folderIds: Field)
    ensures var (db', reply) := Patch(db, user, folderIds);
            (reply.BadRequest? <==> user.Some? && !folderIds.Arr?)
            && (!reply.Done? ==> db' == db)
            && (reply.Done? ==> |db'.folders| == |db.folders| && forall i :: 0 <= i < |db.folders| ==>
                  var f := db.folders[i];
                  db'.folders[i] == if f.userId == user.value && f.id in folderIds.items
                                    then f.(position := LastIndexOf(folderIds.items, f.id))
                                    else f)
  {
    if user.Some? && folderIds.Arr? {
      L.ReorderFoldersSpec(db, user.value, folderIds.items);
    }
  }

  // ---------------------------------------------------------------------------
  // DELETE

  function Delete(db: L.Tables, user: Option<string>, id: Option<string>): (L.Tables, FolderReply) {
    if user.None? then (db, Unauthorized)
    else if id.None? || id.value == "" then (db, BadRequest(IdRequired))
    else
      var (db', out) := L.DeleteFolder(db, id.value, user.value);
      match out
      case Pass => (db', Done)
      case Fail(e) => (db, ServerError("Failed to delete folder", e))
  }

  /** Without an id the answer is 400. A refusal of the store (missing,
      default or non-empty folder) surfaces as 500 with its message and no
      write; otherwise the answer is 200 and the folder row is gone. */
  lemma DeleteSpec(db: L.Tables, user: Option<string>, id: Option<string>)
    ensures var (db', reply) := Delete(db, user, id);
            (reply.BadRequest? <==> user.Some? && (id.None? || id.value == ""))
            && (!reply.Done? ==> db' == db)
    ensures var (db', reply) := Delete(db, user, id);
            user.Some? && id.Some? && id.value != "" ==>
              var folder := L.OwnedFolder(db, id.value, user.value);
              (reply.Done? <==> folder.Some? && !folder.value.isDefault && L.VideosInFolder(db.videos, id.value) == 0)
              && (reply.ServerError? && folder.Some? && folder.value.isDefault ==> reply.message == L.CannotDeleteDefault)
              && (reply.Done? ==> forall g :: g in db'.folders <==> g in db.folders && !(g.id == id.value && g.userId == user.value))
  {
    if user.Some? && id.Some? && id.value != "" {
      L.DeleteFolderSpec(db, id.value, user.value);
    }
  }

  // ---------------------------------------------------------------------------
  // PUT

  /** `update({name}).eq("id", id).eq("user_id", userId)` on the folder rows. */
  function RenameRows(folders: seq<L.Folder>, id: string, userId: string, name: string): (r: seq<L.Folder>)
    ensures |r| == |folders|
    ensures forall i :: 0 <= i < |folders| ==>
              r[i] == if folders[i].id == id && folders[i].userId == userId then folders[i].(name := name) else folders[i]
  {
    if folders == [] then []
    else [if folders[0].id == id && folders[0].userId == userId then folders[0].(name := name) else folders[0]]
           + RenameRows(folders[1..], id, userId, name)
  }

  /** The update's filter: the caller's rows with that id. */
  function Selects(id: string, userId: string): L.Folder -> bool {
    (f: L.Folder) => f.id == id && f.userId == userId
  }

  /** The update and its `.single()` for an id and a trimmed, non-empty name. */
  function Rename(db: L.Tables, userId: string, id: string, name: string): (L.Tables, FolderReply) {
    var folders := RenameRows(db.folders, id, userId, name);
    match Single(folders, Selects(id, userId))
    case None => (db.(folders := folders), ServerError("Failed to update folder", NotSingleRow))
    case Some(f) => (db.(folders := folders), Renamed(f))
  }

  function Put(db: L.Tables, user: Option<string>, id: Field, name: Field): (L.Tables, FolderReply) {
    if user.None? then (db, Unauthorized)
    else if !id.Truthy() || !name.Truthy() then (db, BadRequest(IdAndNameRequired))
    else if !name.Str? then (db, ServerError("Failed to update folder", TrimNotAFunction))
    else if Trim(name.s) == "" then (db, BadRequest(IdAndNameRequired))
    else if !id.Str? then (db, ServerError("Failed to update folder", NotSingleRow))
    else Rename(db, user.value, id.s, Trim(name.s))
  }

  /** Without an id or with a missing or blank name the answer is 400 and
      nothing changes; whatever the answer, only folder rows can change. */
  lemma PutGuards(db: L.Tables, user: Option<string>, id: Field, name: Field)
    ensures var (db', reply) := Put(db, user, id, name);
            (reply.BadRequest? <==> user.Some? && (!id.Truthy() || !name.Truthy() || (name.Str? && AllSpace(name.s))))
            && db' == db.(folders := db'.folders) && |db'.folders| == |db.folders|
            && (reply.BadRequest? || reply.Unauthorized? ==> db' == db)
  {
    if name.Str? {
      TrimEmptyIff(name.s);
    }
  }

  /** For a string id and a name that is not blank, the request renames. */
  lemma PutRenames(db: L.Tables, userId: string, id: string, name: string)
    requires id != "" && !AllSpace(name)
    ensures Put(db, Some(userId), Str(id), Str(name)) == Rename(db, userId, id, Trim(name))
  {
    TrimEmptyIff(name);
    assert name != "";
    PutValid(db, userId, id, name);
  }

  /** The step above once the name is known to trim to something. */
  lemma PutValid(db: L.Tables, userId: string, id: string, name: string)
    requires id != "" && name != "" && Trim(name) != ""
    ensures Put(db, Some(userId), Str(id), Str(name)) == Rename(db, userId, id, Trim(name))
  {
  }

  /** Only the caller's rows with that id get the new name, and the answer is
      200 with the row exactly when one row was renamed. */
  lemma RenameSpec(db: L.Tables, userId: string, id: string, name: string)
    ensures var (db', reply) := Rename(db, userId, id, name);
            db' == db.(folders := db'.folders) && |db'.folders| == |db.folders|
            && (forall i :: 0 <= i < |db.folders| ==>
                  db'.folders[i] == if db.folders[i].id == id && db.folders[i].userId == userId
                                    then db.folders[i].(name := name) else db.folders[i])
            && (reply.Renamed? <==> |Filter(db.folders, Selects(id, userId))| == 1)
            && (reply.Renamed? ==> reply.folder.id == id && reply.folder.userId == userId && reply.folder.name == name)
  {
    var folders := RenameRows(db.folders, id, userId, name);
    RenamedMatchSame(db.folders, id, userId, name);
    var r := Single(folders, Selects(id, userId));
    if r.Some? {
      var k :| 0 <= k < |folders| && folders[k] == r.value;
      assert db.folders[k].id == id && db.folders[k].userId == userId;
    }
  }

  /** Renaming keeps which rows match the update's filter. */
  lemma {:induction false} RenamedMatchSame(folders: seq<L.Folder>, id: string, userId: string, name: string)
    ensures |Filter(RenameRows(folders, id, userId, name), Selects(id, userId))|
         == |Filter(folders, Selects(id, userId))|
  {
    if folders != [] {
      RenamedMatchSame(folders[1..], id, userId, name);
      assert RenameRows(folders, id, userId, name)[1..] == RenameRows(folders[1..], id, userId, name);
    }
  }

  /** PUT as a step on the store. */
  method PutFolder(store: VideoService.Store, user: Option<string>, id: Field, name: Field) returns (reply: FolderReply)
    modifies store
    ensures (store.Tables(), reply) == Put(old(store.Tables()), user, id, name)
  {
    if user.None? {
      return Unauthorized;
    }
    if !id.Truthy() || !name.Truthy() {
      return BadRequest(IdAndNameRequired);
    }
    if !name.Str? {
      return ServerError("Failed to update folder", TrimNotAFunction);
    }
    var trimmed := Trim(name.s);
    if trimmed == "" {
      return BadRequest(IdAndNameRequired);
    }
    if !id.Str? {
      return ServerError("Failed to update folder", NotSingleRow);
    }
    var userId := user.value;
    store.folders := RenameRows(store.folders, id.s, userId, trimmed);
    var row := Single(store.folders, Selects(id.s, userId));
    if row.None? {
      reply := ServerError("Failed to update folder", NotSingleRow);
    } else {
      reply := Renamed(row.value);
    }
  }
}
