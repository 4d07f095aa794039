/**
 * `VideoService`: the store operations as methods updating the tables in
 * place. Each method is proved to leave the tables as the corresponding
 * function of `Library` says; the promises of the operations are the lemmas
 * proved there.
 */
module VideoService {
  import opened Wrappers
  import opened Strings
  import opened Seqs
  import opened TagConstants
  import opened AutoTag
  import opened YouTubeApi
  import L = Library

  class Store {
    var profiles: seq<L.Profile>
    var folders: seq<L.Folder>
    var videos: seq<L.Video>
    var tags: seq<L.Tag>
    var videoTags: set<L.VideoTag>
    var nextId: nat

    /** The tables as a value. */
    function Tables(): L.Tables
      reads this
    {
      L.Tables(profiles, folders, videos, tags, videoTags, nextId)
    }

    constructor (db: L.Tables)
      ensures Tables() == db
    {
      profiles, folders, videos, tags, videoTags, nextId :=
        db.profiles, db.folders, db.videos, db.tags, db.videoTags, db.nextId;
    }

    /** `getExistingYouTubeIds`. */
    method GetExistingYouTubeIds(userId: string, ytIds: seq<string>) returns (ids: seq<string>)
      ensures forall x :: x in ids <==> x in ytIds && exists i :: 0 <= i < |videos| && videos[i].userId == userId && videos[i].youtubeId == x
      ensures ids == L.ExistingYouTubeIds(videos, userId, ytIds)
    {
      ids := L.ExistingYouTubeIds(videos, userId, ytIds);
      forall x ensures x in ids <==> x in ytIds && exists i :: 0 <= i < |videos| && videos[i].userId == userId && videos[i].youtubeId == x {
        L.ExistingYouTubeIdsIff(videos, userId, ytIds, x);
      }
    }

    /** `getOrCreateTag`. */
    method GetOrCreateTag(userId: string, name: string, color: Option<string>) returns (tag: L.Tag)
      modifies this
      ensures (Tables(), tag) == L.GetOrCreateTag(old(Tables()), userId, name, color)
    {
      var existing := L.ExistingTag(tags, userId, name);
      if existing.Some? {
        return existing.value;
      }
      tag := L.Tag(NatString(nextId), userId, name, OrElse(color, DefaultTagColor), None);
      tags := tags + [tag];
      nextId := nextId + 1;
    }

    /** `autoTagVideo`: one get-or-create and one link per detected tag. */
    method AutoTagVideo(videoId: string, userId: string, title: string)
      modifies this
      ensures Tables() == L.AutoTagVideo(old(Tables()), videoId, userId, title)
    {
      var names := DetectTags(title);
      if names == [] {
        return;
      }
      for i := 0 to |names|
        invariant L.LinkTags(Tables(), videoId, userId, names[i..], GetTagColor) == L.LinkTags(old(Tables()), videoId, userId, names, GetTagColor)
      {
        assert names[i..][1..] == names[i + 1..];
        var tag := GetOrCreateTag(userId, names[i], Some(GetTagColor(names[i])));
        videoTags := videoTags + {L.VideoTag(videoId, tag.id)};
      }
    }

    /** `insertVideos`: insert one row per video, then auto-tag each row. */
    method InsertVideos(userId: string, ys: seq<LikedVideo>, folderId: Option<string>, nowIso: string, toIso: string -> Option<string>)
        returns (inserted: Option<seq<L.Video>>)
      modifies this
      ensures (Tables(), inserted) == L.InsertVideos(old(Tables()), userId, ys, folderId, nowIso, toIso)
    {
      if !L.LikedAtsConvert(ys, nowIso, toIso) {
        return None;
      }
      var rows := L.NewVideoRows(nextId, userId, folderId, ys, nowIso, toIso);
      videos := videos + rows;
      nextId := nextId + |ys|;
      TagEach(userId, rows);
      inserted := Some(rows);
    }

    /** The loop of `insertVideos` that auto-tags each inserted row in turn. */
    method TagEach(userId: string, rows: seq<L.Video>)
      modifies this
      ensures Tables() == L.TagEach(old(Tables()), userId, rows)
    {
      for i := 0 to |rows|
        invariant L.TagEach(Tables(), userId, rows[i..]) == L.TagEach(old(Tables()), userId, rows)
      {
        assert rows[i..][1..] == rows[i + 1..];
        AutoTagVideo(rows[i].id, userId, rows[i].title);
      }
      assert rows[|rows|..] == [];
    }

    /** `syncLikedVideos`, with the outcome of the liked-videos fetch and the
        clock as parameters. */
    method SyncLikedVideos(userId: string, fetch: L.FetchOutcome, nowIso: string, toIso: string -> Option<string>) returns (result: L.SyncResult)
      modifies this
      ensures (Tables(), result) == L.SyncLikedVideos(old(Tables()), userId, fetch, nowIso, toIso)
    {
      var profile := L.ProfileOf(Tables(), userId);
      if profile.None? {
        return L.Failure(L.ProfileNotFound, nowIso);
      }
      if !Truthy(profile.value.accessToken) {
        return L.Failure(L.NotConnected, nowIso);
      }
      if fetch.FetchFailed? {
        return L.SyncResult(false, 0, 0, Some(0), Some(0), Some(fetch.message), Some([fetch.message]), nowIso);
      }
      var ys := fetch.videos;
      if ys == [] {
        return L.SyncResult(true, 0, 0, Some(0), Some(0), None, None, nowIso);
      }
      var existing := GetExistingYouTubeIds(userId, L.VideoIdsOf(ys));
      var unseen := L.NewOnly(ys, existing);
      if unseen == [] {
        profiles := L.StampLastSync(profiles, userId, nowIso);
        return L.SyncResult(true, 0, |ys|, Some(|ys|), Some(|existing|), None, None, nowIso);
      }
      var inserted := InsertVideos(userId, unseen, None, nowIso, toIso);
      if inserted.None? {
        return L.Failure(L.InvalidTimeValue, nowIso);
      }
      profiles := L.StampLastSync(profiles, userId, nowIso);
      result := L.SyncResult(true, |inserted.value|, |ys|, Some(|ys|), Some(|existing|), None, None, nowIso);
    }

    /** `moveVideo`. */
    method MoveVideo(videoId: string, newFolderId: Option<string>, userId: string) returns (outcome: Outcome<string>)
      modifies this
      ensures (Tables(), outcome) == L.MoveVideo(old(Tables()), videoId, newFolderId, userId)
    {
      if L.OwnedVideo(Tables(), videoId, userId).None? {
        return Fail(L.VideoNotFound);
      }
      if newFolderId.None? {
        videos := L.UpdateFolder(videos, (v: L.Video) => v.id == videoId && v.userId == userId, None);
        return Pass;
      }
      if L.OwnedFolder(Tables(), newFolderId.value, userId).None? {
        return Fail(L.FolderNotFound);
      }
      videos := L.UpdateFolder(videos, (v: L.Video) => v.id == videoId, newFolderId);
      outcome := Pass;
    }

    /** `getUserFolders`. */
    method GetUserFolders(userId: string) returns (result: seq<L.Folder>)
      ensures result == L.GetUserFolders(Tables(), userId)
      ensures forall i, j :: 0 <= i < j < |result| ==> result[i].position <= result[j].position
      ensures multiset(result) == multiset(L.UserFolders(folders, userId))
    {
      result := L.GetUserFolders(Tables(), userId);
      L.GetUserFoldersSpec(Tables(), userId);
    }

    /** `createFolder`. */
    method CreateFolder(userId: string, name: string) returns (folder: L.Folder)
      modifies this
      ensures (Tables(), folder) == L.CreateFolder(old(Tables()), userId, name)
    {
      var position := L.NextPosition(folders, userId);
      folder := L.Folder(NatString(nextId), userId, name, position, false);
      folders := folders + [folder];
      nextId := nextId + 1;
    }

    /** `reorderFolders`: the i-th listed folder of the user gets position i. */
    method ReorderFolders(userId: string, folderIds: seq<string>)
      modifies this
      ensures Tables() == L.ReorderFolders(old(Tables()), userId, folderIds)
    {
      for i := 0 to |folderIds|
        invariant Tables() == old(Tables()).(folders := L.ReorderSteps(old(folders), userId, folderIds, i))
      {
        folders := L.SetPosition(folders, folderIds[i], userId, i);
      }
    }

    /** `deleteFolder`. */
    method DeleteFolder(folderId: string, userId: string) returns (outcome: Outcome<string>)
      modifies this
      ensures (Tables(), outcome) == L.DeleteFolder(old(Tables()), folderId, userId)
    {
      var folder := L.OwnedFolder(Tables(), folderId, userId);
      if folder.None? {
        return Fail(L.NoSuchFolder);
      }
      if folder.value.isDefault {
        return Fail(L.CannotDeleteDefault);
      }
      if L.VideosInFolder(videos, folderId) > 0 {
        return Fail(L.CannotDeleteNonEmpty);
      }
      folders := Filter(folders, (g: L.Folder) => !(g.id == folderId && g.userId == userId));
      outcome := Pass;
    }
  }
}
