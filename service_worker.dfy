/**
 * The extension's background worker: a folder list cached for five
 * minutes, the context menu built from it, the origin check on messages
 * from the web app and their dispatch. Chrome's menus, notifications and
 * tab scripting are left out; what they are given and what they return are
 * values here.
 */
module ServiceWorker {
  import opened Wrappers
  import opened Strings
  import L = Library
  import ExtAuth

  const MenuRoot: string := "recall-add-to-folder"
  const MenuLogin: string := "recall-login"
  const MenuRefresh: string := "refresh-folders"
  const MenuSeparator: string := "separator-1"
  const FolderPrefix: string := "folder-"

  /** Five minutes, in milliseconds. */
  const CacheDuration: int := 5 * 60 * 1000

  // ---------------------------------------------------------------------
  // String replacement

  /** `s.replace(p, r)` with a string pattern: only the first occurrence is
      replaced; an empty pattern matches at the start. */
  function ReplaceFirst(s: string, p: string, r: string): string
    decreases |s|
  {
    if |p| == 0 then r + s
    else if |s| < |p| then s
    else if StartsWith(s, p) then r + s[|p|..]
    else [s[0]] + ReplaceFirst(s[1..], p, r)
  }

  /** Replacing a prefix removes exactly that prefix. */
  lemma ReplaceFirstAtStart(s: string, p: string, r: string)
    requires StartsWith(s, p)
    ensures ReplaceFirst(s, p, r) == r + s[|p|..]
  {
  }

  /** An origin with its development port removed. */
  function Stripped(o: string): string {
    ReplaceFirst(o, ":3000", "")
  }

  /** No colon of `a` starts the port ":3000": each one is followed, within
      `a`, by something other than '3'. */
  predicate NoPortIn(a: string) {
    forall i :: 0 <= i < |a| && a[i] == ':' ==> i + 1 < |a| && a[i + 1] != '3'
  }

  /** The replacement passes over such a prefix unchanged. */
  lemma {:induction false} StripPortAfter(a: string, t: string)
    requires NoPortIn(a)
    ensures Stripped(a + t) == a + Stripped(t)
    decreases |a|
  {
    if a != [] {
      var s := a + t;
      var port := ":3000";
      if |s| >= |port| {
        assert !StartsWith(s, port) by {
          if a[0] == ':' {
            assert s[..|port|][1] == a[1] != port[1];
          } else {
            assert s[..|port|][0] == a[0] != port[0];
          }
        }
        assert Stripped(s) == [s[0]] + Stripped(s[1..]);
        assert s[1..] == a[1..] + t;
        StripPortAfter(a[1..], t);
        assert [a[0]] + (a[1..] + Stripped(t)) == a + Stripped(t);
      } else {
        assert Stripped(s) == s;
        assert Stripped(t) == t;
      }
    } else {
      assert a + t == t;
    }
  }

  // ---------------------------------------------------------------------
  // Origin check on messages from the web app

  const WorkerOrigins: seq<string> := ["http://localhost:3000", "http://127.0.0.1:3000", "https://localhost:3000", "https://ytrecall.online"]

  /** The colon of a scheme is followed by '/'. */
  lemma SchemeHasNoPort(scheme: string, host: string)
    requires |scheme| > 0 && scheme[|scheme| - 1] == ':'
    requires forall i :: 0 <= i < |scheme| - 1 ==> scheme[i] != ':'
    requires forall i :: 0 <= i < |host| ==> host[i] != ':'
    ensures NoPortIn(scheme + "//" + host)
  {
    var a := scheme + "//" + host;
    forall i | 0 <= i < |a|
      ensures a[i] != ':' || (i + 1 < |a| && a[i + 1] != '3')
    {
      if i < |scheme| - 1 {
        assert a[i] == scheme[i];
      } else if i == |scheme| - 1 {
        assert a[i + 1] == '/';
      } else if i < |scheme| + 2 {
        assert a[i] == '/';
      } else {
        assert a[i] == host[i - |scheme| - 2];
      }
    }
  }

  /** The check against a list of allowed origins. */
  predicate AllowedBy(origin: Option<string>, allowed: seq<string>) {
    origin.Some? && origin.value != ""
    && exists i :: 0 <= i < |allowed| && (origin.value == allowed[i] || StartsWith(origin.value, Stripped(allowed[i])))
  }

  /** The sender's origin is present and equals an allowed origin or starts
      with one whose development port has been removed. */
  predicate OriginAllowed(origin: Option<string>) {
    AllowedBy(origin, WorkerOrigins)
  }

  /** An allowed `host:3000` lets through every origin that starts with the
      host, and an allowed origin without that port every origin that starts
      with it. */
  lemma {:induction false} HostPrefixAllowed(allowed: seq<string>, k: nat, host: string, port: string, rest: string)
    requires k < |allowed| && allowed[k] == host + port && (port == ":3000" || port == "")
    requires NoPortIn(host) && host != ""
    ensures AllowedBy(Some(host + rest), allowed)
  {
    StripPortAfter(host, port);
    assert Stripped(port) == "" by {
      if port != "" { assert StartsWith(port, ":3000"); }
    }
    assert Stripped(allowed[k]) == host;
    assert (host + rest)[..|host|] == host;
  }

  /** One allowed origin, written as scheme, host and optional port. */
  lemma OriginAccepted(k: nat, scheme: string, host: string, url: string, port: string, rest: string)
    requires |scheme| > 0 && scheme[|scheme| - 1] == ':'
    requires forall i :: 0 <= i < |scheme| - 1 ==> scheme[i] != ':'
    requires forall i :: 0 <= i < |host| ==> host[i] != ':'
    requires url == scheme + "//" + host && (port == ":3000" || port == "")
    requires k < |WorkerOrigins| && WorkerOrigins[k] == url + port
    ensures OriginAllowed(Some(url + rest))
  {
    SchemeHasNoPort(scheme, host);
    HostPrefixAllowed(WorkerOrigins, k, url, port, rest);
  }

  /** The allowed origins without their development port. */
  const AllowedHosts: seq<string> := ["http://localhost", "http://127.0.0.1", "https://localhost", "https://ytrecall.online"]

  /** Because the match is by prefix, every port of both local hosts and any
      host name that merely begins with an allowed one is accepted. */
  lemma OriginPrefixAccepted(k: nat, rest: string)
    requires k < |AllowedHosts|
    ensures OriginAllowed(Some(AllowedHosts[k] + rest))
  {
    if k == 0 {
      LocalhostAccepted(rest);
    } else if k == 1 {
      LoopbackAccepted(rest);
    } else if k == 2 {
      SecureLocalhostAccepted(rest);
    } else {
      SiteAccepted(rest);
    }
  }

  // The four allowed hosts, one lemma each.
  lemma LocalhostAccepted(rest: string)
    ensures OriginAllowed(Some(AllowedHosts[0] + rest))
  {
    OriginAccepted(0, "http:", "localhost", "http://localhost", ":3000", rest);
  }

  lemma LoopbackAccepted(rest: string)
    ensures OriginAllowed(Some(AllowedHosts[1] + rest))
  {
    OriginAccepted(1, "http:", "127.0.0.1", "http://127.0.0.1", ":3000", rest);
  }

  lemma SecureLocalhostAccepted(rest: string)
    ensures OriginAllowed(Some(AllowedHosts[2] + rest))
  {
    OriginAccepted(2, "https:", "localhost", "https://localhost", ":3000", rest);
  }

  lemma SiteAccepted(rest: string)
    ensures OriginAllowed(Some(AllowedHosts[3] + rest))
  {
    OriginAccepted(3, "https:", "ytrecall.online", "https://ytrecall.online", "", rest);
  }

  /** Removing the development port from an allowed origin leaves its host,
      which the origin itself starts with. */
  lemma {:induction false} StrippedOrigin(k: nat, scheme: string, host: string, url: string, port: string)
    requires |scheme| > 0 && scheme[|scheme| - 1] == ':'
    requires forall i :: 0 <= i < |scheme| - 1 ==> scheme[i] != ':'
    requires forall i :: 0 <= i < |host| ==> host[i] != ':'
    requires url == scheme + "//" + host && (port == ":3000" || port == "")
    requires k < |WorkerOrigins| && k < |AllowedHosts|
    requires WorkerOrigins[k] == url + port && AllowedHosts[k] == url
    ensures Stripped(WorkerOrigins[k]) == AllowedHosts[k]
    ensures StartsWith(WorkerOrigins[k], AllowedHosts[k])
  {
    SchemeHasNoPort(scheme, host);
    StripPortAfter(url, port);
    assert Stripped(port) == "" by {
      if port != "" { assert StartsWith(port, ":3000"); }
    }
    assert (url + port)[..|url|] == url;
  }

  /** The origins the check lets through all start with one of the four
      hosts: this is the refusing direction, stated per allowed origin. */
  lemma OriginRefusedUnlessHost(o: string, k: nat)
    requires k < |WorkerOrigins|
    requires o == WorkerOrigins[k] || StartsWith(o, Stripped(WorkerOrigins[k]))
    ensures StartsWith(o, AllowedHosts[k])
  {
    if k == 0 {
      LocalhostOnly(o);
    } else if k == 1 {
      LoopbackOnly(o);
    } else if k == 2 {
      SecureLocalhostOnly(o);
    } else {
      SiteOnly(o);
    }
  }

  // The four allowed origins, one lemma each.
  lemma LocalhostOnly(o: string)
    requires o == WorkerOrigins[0] || StartsWith(o, Stripped(WorkerOrigins[0]))
    ensures StartsWith(o, AllowedHosts[0])
  {
    StrippedOrigin(0, "http:", "localhost", "http://localhost", ":3000");
    PrefixOfPrefix(o, WorkerOrigins[0], AllowedHosts[0]);
  }

  lemma LoopbackOnly(o: string)
    requires o == WorkerOrigins[1] || StartsWith(o, Stripped(WorkerOrigins[1]))
    ensures StartsWith(o, AllowedHosts[1])
  {
    StrippedOrigin(1, "http:", "127.0.0.1", "http://127.0.0.1", ":3000");
    PrefixOfPrefix(o, WorkerOrigins[1], AllowedHosts[1]);
  }

  lemma SecureLocalhostOnly(o: string)
    requires o == WorkerOrigins[2] || StartsWith(o, Stripped(WorkerOrigins[2]))
    ensures StartsWith(o, AllowedHosts[2])
  {
    StrippedOrigin(2, "https:", "localhost", "https://localhost", ":3000");
    PrefixOfPrefix(o, WorkerOrigins[2], AllowedHosts[2]);
  }

  lemma SiteOnly(o: string)
    requires o == WorkerOrigins[3] || StartsWith(o, Stripped(WorkerOrigins[3]))
    ensures StartsWith(o, AllowedHosts[3])
  {
    StrippedOrigin(3, "https:", "ytrecall.online", "https://ytrecall.online", "");
    PrefixOfPrefix(o, WorkerOrigins[3], AllowedHosts[3]);
  }

  /** A string equal to `w` starts with every prefix of `w`. */
  lemma PrefixOfPrefix(o: string, w: string, h: string)
    requires StartsWith(w, h)
    requires o == w || StartsWith(o, h)
    ensures StartsWith(o, h)
  {
  }

  /** The origin check accepts exactly the non-empty origins that start with
      one of the four hosts without the development port. */
  lemma OriginAllowedIff(o: string)
    ensures OriginAllowed(Some(o)) <==>
            o != "" && exists k :: 0 <= k < |AllowedHosts| && StartsWith(o, AllowedHosts[k])
  {
    if OriginAllowed(Some(o)) {
      var i :| 0 <= i < |WorkerOrigins| && (o == WorkerOrigins[i] || StartsWith(o, Stripped(WorkerOrigins[i])));
      OriginRefusedUnlessHost(o, i);
    }
    if o != "" && exists k :: 0 <= k < |AllowedHosts| && StartsWith(o, AllowedHosts[k]) {
      var k :| 0 <= k < |AllowedHosts| && StartsWith(o, AllowedHosts[k]);
      var rest := o[|AllowedHosts[k]|..];
      assert o == AllowedHosts[k] + rest;
      OriginPrefixAccepted(k, rest);
    }
  }

  /** A missing or empty origin is refused. */
  lemma NoOriginRefused()
    ensures !OriginAllowed(None) && !OriginAllowed(Some(""))
  {
  }

  // ---------------------------------------------------------------------
  // Context menu

  datatype MenuItem = MenuItem(id: string, parentId: Option<string>, title: string, separator: bool)

  const LoginMenu: seq<MenuItem> := [MenuItem(MenuLogin, None, "Login to Recall", false)]

  /** A folder's entry is titled with its name, marked when it is the
      default folder. */
  function FolderTitle(f: L.Folder): (t: string)
    ensures f.isDefault ==> t == f.name + " (default)"
    ensures !f.isDefault ==> t == f.name
  {
    f.name + (if f.isDefault then " (default)" else "")
  }

  function FolderItems(folders: seq<L.Folder>): (items: seq<MenuItem>)
    ensures |items| == |folders|
    ensures forall i :: 0 <= i < |folders| ==>
              items[i] == MenuItem(FolderPrefix + folders[i].id, Some(MenuRoot), FolderTitle(folders[i]), false)
  {
    if folders == [] then []
    else [MenuItem(FolderPrefix + folders[0].id, Some(MenuRoot), FolderTitle(folders[0]), false)] + FolderItems(folders[1..])
  }

  /** `createFolderContextMenu(folders)`. */
  function FolderMenu(folders: seq<L.Folder>): seq<MenuItem> {
    [MenuItem(MenuRoot, None, "Save to Recall", false)]
    + FolderItems(folders)
    + [MenuItem(MenuSeparator, Some(MenuRoot), "", true), MenuItem(MenuRefresh, Some(MenuRoot), "↻ Refresh folders", false)]
  }

  /** The menu is the root, one entry per folder in order under it, then a
      separator and the refresh entry. */
  lemma FolderMenuSpec(folders: seq<L.Folder>)
    ensures var m := FolderMenu(folders);
            |m| == |folders| + 3 && m[0].id == MenuRoot && m[0].parentId.None?
            && (forall i :: 0 <= i < |folders| ==> m[i + 1].id == FolderPrefix + folders[i].id && m[i + 1].parentId == Some(MenuRoot)
                                                   && m[i + 1].title == FolderTitle(folders[i]))
            && m[|folders| + 1].separator && m[|folders| + 2].id == MenuRefresh
  {
  }

  /** What a click on a menu entry does. */
  datatype Click = OpenWebApp | RefreshFolders | AddToFolder(folderId: string) | NoAction

  function OnClick(menuItemId: string): Click {
    if menuItemId == MenuLogin then OpenWebApp
    else if menuItemId == MenuRefresh then RefreshFolders
    else if StartsWith(menuItemId, FolderPrefix) then AddToFolder(ReplaceFirst(menuItemId, FolderPrefix, ""))
    else NoAction
  }

  /** Clicking a folder's entry adds to that folder; the refresh and login
      entries do what they say, and the root and separator do nothing. */
  lemma OnClickSpec(folders: seq<L.Folder>, i: nat)
    requires i < |folders|
    ensures OnClick(FolderMenu(folders)[i + 1].id) == AddToFolder(folders[i].id)
    ensures OnClick(MenuRefresh) == RefreshFolders && OnClick(MenuLogin) == OpenWebApp
    ensures OnClick(MenuRoot) == NoAction && OnClick(MenuSeparator) == NoAction
  {
    FolderMenuSpec(folders);
    var id := FolderPrefix + folders[i].id;
    assert id[..|FolderPrefix|] == FolderPrefix;
    ReplaceFirstAtStart(id, FolderPrefix, "");
    assert id[|FolderPrefix|..] == folders[i].id;
    assert id != MenuLogin by { assert id[0] != MenuLogin[0]; }
    assert id != MenuRefresh by { assert id[0] != MenuRefresh[0]; }
    assert MenuRoot[0] != FolderPrefix[0];
    assert MenuSeparator[0] != FolderPrefix[0];
  }

  // ---------------------------------------------------------------------
  // Adding the current video from a menu click

  /** `getResumeSecondsFromTab`: the value the tab script returned, kept
      only when it is a positive number. */
  function ResumeSeconds(value: Option<int>): (s: nat)
    ensures s > 0 <==> value.Some? && value.value > 0
    ensures s > 0 ==> s == value.value
  {
    if value.Some? && value.value > 0 then value.value else 0
  }

  /** The resume position passed on: only with a tab, and a zero becomes
      undefined. */
  function ResumeArgument(tabId: Option<int>, value: Option<int>): (r: Option<nat>)
    ensures r.Some? <==> tabId.Some? && tabId.value != 0 && value.Some? && value.value > 0
    ensures r.Some? ==> r.value == value.value && r.value > 0
  {
    if tabId.Some? && tabId.value != 0 then
      var s := ResumeSeconds(value);
      if s == 0 then None else Some(s)
    else None
  }

  /** `folder?.name || "folder"` for the first cached folder with the id. */
  function FolderLabel(cache: seq<L.Folder>, folderId: string): (shown: string)
    ensures shown != ""
    ensures (forall i :: 0 <= i < |cache| ==> cache[i].id != folderId) ==> shown == "folder"
    ensures forall i ::
              (0 <= i < |cache| && cache[i].id == folderId && cache[i].name != ""
               && forall j :: 0 <= j < i ==> cache[j].id != folderId)
              ==> shown == cache[i].name
  {
    if cache == [] then "folder"
    else if cache[0].id == folderId then (if cache[0].name != "" then cache[0].name else "folder")
    else FolderLabel(cache[1..], folderId)
  }

  /** What `addVideoByUrl` came back with, or what it threw: the message of
      an `Error`, `None` for any other value. */
  datatype ApiOutcome = Returned(success: bool, message: Option<string>, error: Option<string>) | Threw(thrown: Option<string>)

  datatype Feedback = Feedback(title: string, message: string, success: bool)

  /** The feedback of `handleAddToFolder`, when there is any. */
  function AddFeedback(cache: seq<L.Folder>, folderId: string, token: Option<string>, url: Option<string>, outcome: ApiOutcome): (fb: Feedback)
    ensures fb.success <==> token.Some? && url.Some? && outcome.Returned? && outcome.success
    ensures fb.success ==> fb == Feedback("Video Saved!", "Added to \"" + FolderLabel(cache, folderId) + "\"", true)
    ensures token.None? ==> fb == Feedback("Error", "Not authenticated", false)
    ensures token.Some? && url.None? ==> fb == Feedback("Error", "Please navigate to a YouTube video page", false)
    ensures outcome.Threw? && token.Some? && url.Some? ==> fb.message == outcome.thrown.GetOr("An error occurred")
    ensures outcome.Returned? && !outcome.success && token.Some? && url.Some? ==>
              fb.message != "" && (outcome.message.Some? && outcome.message.value != "" ==> fb.message == outcome.message.value)
    ensures !fb.success ==> fb.title == "Error"
  {
    if token.None? then Feedback("Error", "Not authenticated", false)
    else if url.None? then Feedback("Error", "Please navigate to a YouTube video page", false)
    else match outcome
      case Threw(m) => Feedback("Error", m.GetOr("An error occurred"), false)
      case Returned(ok, message, error) =>
        if ok then Feedback("Video Saved!", "Added to \"" + FolderLabel(cache, folderId) + "\"", true)
        else Feedback("Error",
                      if message.Some? && message.value != "" then message.value
                      else if error.Some? && error.value != "" then error.value
                      else "Failed to save video",
                      false)
  }

  // ---------------------------------------------------------------------
  // The folder cache

  datatype CacheState = CacheState(folders: seq<L.Folder>, timestamp: int)

  const EmptyCache := CacheState([], 0)

  predicate CacheHit(c: CacheState, now: int) {
    |c.folders| > 0 && now - c.timestamp < CacheDuration
  }

  /** Cached folders, or a fetch (`None` when it throws) that is stored with
      the time it was made. */
  function Lookup(c: CacheState, now: int, fetched: Option<seq<L.Folder>>): (CacheState, Option<seq<L.Folder>>) {
    if CacheHit(c, now) then (c, Some(c.folders))
    else if fetched.None? then (c, None)
    else (CacheState(fetched.value, now), fetched)
  }

  /** A hit returns the cache and keeps it; a miss returns what was fetched
      and stores it with the current time; a failed fetch keeps the cache.
      An empty cache never hits. */
  lemma LookupSpec(c: CacheState, now: int, fetched: Option<seq<L.Folder>>)
    ensures var (c', r) := Lookup(c, now, fetched);
            (CacheHit(c, now) <==> |c.folders| > 0 && now - c.timestamp < 300000)
            && (CacheHit(c, now) ==> c' == c && r == Some(c.folders))
            && (!CacheHit(c, now) && fetched.Some? ==> c' == CacheState(fetched.value, now) && r == fetched)
            && (!CacheHit(c, now) && fetched.None? ==> c' == c && r.None?)
            && (c.folders == [] ==> r == fetched)
  {
  }

  /** `setupContextMenu`, given what the session read returned. */
  function Menu(token: Option<string>, c: CacheState, now: int, fetched: Option<seq<L.Folder>>): (CacheState, seq<MenuItem>) {
    if token.None? then (c, LoginMenu)
    else
      var (c', fs) := Lookup(c, now, fetched);
      if fs.None? then (c', LoginMenu) else (c', FolderMenu(fs.value))
  }

  /** After the cache is emptied, the next menu is built from a fresh fetch. */
  lemma RefreshRefetches(token: string, now: int, folders: seq<L.Folder>)
    ensures Menu(Some(token), EmptyCache, now, Some(folders)) == (CacheState(folders, now), FolderMenu(folders))
  {
  }

  /** What the `getFolders` message answers. */
  datatype FoldersReply = Listed(folders: seq<L.Folder>) | NotAuthenticated | FetchFailed

  function FoldersMessage(token: Option<string>, c: CacheState, now: int, fetched: Option<seq<L.Folder>>): (CacheState, FoldersReply) {
    if token.None? then (c, NotAuthenticated)
    else
      var (c', fs) := Lookup(c, now, fetched);
      if fs.None? then (c', FetchFailed) else (c', Listed(fs.value))
  }

  /** The `getFolders` message and the menu agree: the menu lists exactly
      the folders the message would answer with, and both leave the cache in
      the same state. */
  lemma MenuListsFolders(token: Option<string>, c: CacheState, now: int, fetched: Option<seq<L.Folder>>)
    ensures var (c1, reply) := FoldersMessage(token, c, now, fetched);
            var (c2, menu) := Menu(token, c, now, fetched);
            c1 == c2 && (reply.Listed? <==> menu != LoginMenu)
            && (reply.Listed? ==> menu == FolderMenu(reply.folders))
  {
  }

  // ---------------------------------------------------------------------
  // Messages from the web app

  datatype ExternalRequest =
    | AuthSync(accessToken: Option<string>, refreshToken: Option<string>, expiresAt: Option<int>, user: Option<ExtAuth.User>)
    | AuthLogout
    | Ping
    | CheckAuth
    | UnknownType

  datatype ExternalReply = Failure(error: string) | Synced | LoggedOut | Pong | AuthStatus(authenticated: bool)

  const UnauthorizedOrigin: string := "Unauthorized origin"
  const NoAccessToken: string := "No access token provided"
  const UnknownMessage: string := "Unknown message type"

  /** The stored auth entries, the cache and the reply after one message. */
  function External(origin: Option<string>, request: ExternalRequest, entries: map<string, ExtAuth.Stored>,
                    c: CacheState, now: int, fetched: Option<seq<L.Folder>>): (map<string, ExtAuth.Stored>, CacheState, ExternalReply)
  {
    if !OriginAllowed(origin) then (entries, c, Failure(UnauthorizedOrigin))
    else match request
      case AuthSync(access, refresh, expiresAt, user) =>
        if access.None? || access.value == "" then (entries, c, Failure(NoAccessToken))
        else
          var saved := ExtAuth.Saved(entries, ExtAuth.AuthData(access.value, refresh, expiresAt, user));
          var (e, token) := ExtAuth.ReadSession(saved, now);
          (e, Menu(token, c, now, fetched).0, Synced)
      case AuthLogout =>
        var (e, token) := ExtAuth.ReadSession(ExtAuth.Cleared(entries), now);
        (e, Menu(token, EmptyCache, now, fetched).0, LoggedOut)
      case Ping => (entries, c, Pong)
      case CheckAuth =>
        var (e, token) := ExtAuth.ReadSession(entries, now);
        (e, c, AuthStatus(token.Some?))
      case UnknownType => (entries, c, Failure(UnknownMessage))
  }

  /** A message from an origin that is not allowed, an `AUTH_SYNC` without an
      access token and an unknown type fail and change nothing. A logout
      removes both auth keys and empties the cache; a sync stores the token,
      which a later read returns while it has not expired. */
  lemma ExternalSpec(origin: Option<string>, request: ExternalRequest, entries: map<string, ExtAuth.Stored>,
                     c: CacheState, now: int, fetched: Option<seq<L.Folder>>)
    ensures var (e, c', reply) := External(origin, request, entries, c, now, fetched);
            (!OriginAllowed(origin) ==> e == entries && c' == c && reply == Failure(UnauthorizedOrigin))
            && (OriginAllowed(origin) && request.AuthSync? && (request.accessToken.None? || request.accessToken.value == "") ==>
                  e == entries && c' == c && reply == Failure(NoAccessToken))
            && (OriginAllowed(origin) && request.UnknownType? ==> e == entries && c' == c && reply == Failure(UnknownMessage))
            && (reply.Failure? ==> e == entries && c' == c)
    ensures var (e, c', reply) := External(origin, request, entries, c, now, fetched);
            OriginAllowed(origin) && request.AuthLogout? ==>
              ExtAuth.AuthKey !in e && ExtAuth.UserKey !in e && c' == EmptyCache && reply == LoggedOut
    ensures var (e, c', reply) := External(origin, request, entries, c, now, fetched);
            OriginAllowed(origin) && request.AuthSync? && request.accessToken.Some? && request.accessToken.value != ""
            && (request.expiresAt.None? || request.expiresAt.value == 0 || now <= request.expiresAt.value * 1000) ==>
              reply == Synced && ExtAuth.ReadSession(e, now).1 == request.accessToken
  {
    if OriginAllowed(origin) {
      match request
      case AuthLogout =>
        assert ExtAuth.TokenOf(ExtAuth.Cleared(entries)).None?;
      case AuthSync(access, refresh, expiresAt, user) =>
        if access.Some? && access.value != "" {
          var data := ExtAuth.AuthData(access.value, refresh, expiresAt, user);
          ExtAuth.SaveThenRead(entries, data, now);
          ExtAuth.ReadSessionTwice(ExtAuth.Saved(entries, data), now);
        }
      case _ =>
    }
  }

  // ---------------------------------------------------------------------
  // The worker's state

  class Worker {
    var foldersCache: seq<L.Folder>
    var cacheTimestamp: int

    function State(): CacheState
      reads this
    {
      CacheState(foldersCache, cacheTimestamp)
    }

    constructor ()
      ensures State() == EmptyCache
    {
      foldersCache := [];
      cacheTimestamp := 0;
    }

    /** Shared by the refresh entry, the `refreshFolders` message and
        `AUTH_LOGOUT`. */
    method ClearCache()
      modifies this
      ensures State() == EmptyCache
    {
      foldersCache := [];
      cacheTimestamp := 0;
    }

    /** The cache-or-fetch step. */
    method CachedFolders(now: int, fetched: Option<seq<L.Folder>>) returns (folders: Option<seq<L.Folder>>)
      modifies this
      ensures (State(), folders) == Lookup(old(State()), now, fetched)
    {
      if |foldersCache| > 0 && now - cacheTimestamp < CacheDuration {
        return Some(foldersCache);
      }
      if fetched.None? {
        return None;
      }
      foldersCache := fetched.value;
      cacheTimestamp := now;
      folders := fetched;
    }

    method SetupContextMenu(auth: ExtAuth.Storage, now: int, fetched: Option<seq<L.Folder>>) returns (menu: seq<MenuItem>)
      modifies this, auth
      ensures auth.entries == ExtAuth.ReadSession(old(auth.entries), now).0
      ensures (State(), menu) == Menu(ExtAuth.ReadSession(old(auth.entries), now).1, old(State()), now, fetched)
    {
      ExtAuth.ReadSessionTwice(auth.entries, now);
      var authenticated := auth.IsAuthenticated(now);
      if !authenticated {
        return LoginMenu;
      }
      var token := auth.GetSession(now);
      if token.None? {
        return LoginMenu;
      }
      var folders := CachedFolders(now, fetched);
      if folders.None? {
        return LoginMenu;
      }
      menu := FolderMenu(folders.value);
    }

    /** The refresh entry and the `refreshFolders` message. */
    method Refresh(auth: ExtAuth.Storage, now: int, fetched: Option<seq<L.Folder>>) returns (menu: seq<MenuItem>)
      modifies this, auth
      ensures auth.entries == ExtAuth.ReadSession(old(auth.entries), now).0
      ensures (State(), menu) == Menu(ExtAuth.ReadSession(old(auth.entries), now).1, EmptyCache, now, fetched)
    {
      ClearCache();
      menu := SetupContextMenu(auth, now, fetched);
    }

    /** The `getFolders` message. */
    method GetFolders(auth: ExtAuth.Storage, now: int, fetched: Option<seq<L.Folder>>) returns (reply: FoldersReply)
      modifies this, auth
      ensures auth.entries == ExtAuth.ReadSession(old(auth.entries), now).0
      ensures (State(), reply) == FoldersMessage(ExtAuth.ReadSession(old(auth.entries), now).1, old(State()), now, fetched)
    {
      var token := auth.GetSession(now);
      if token.None? {
        return NotAuthenticated;
      }
      var folders := CachedFolders(now, fetched);
      if folders.None? {
        return FetchFailed;
      }
      reply := Listed(folders.value);
    }

    /** The listener for messages from the web app. */
    method HandleExternal(origin: Option<string>, request: ExternalRequest, auth: ExtAuth.Storage, now: int,
                          fetched: Option<seq<L.Folder>>) returns (reply: ExternalReply)
      modifies this, auth
      ensures (auth.entries, State(), reply) == External(origin, request, old(auth.entries), old(State()), now, fetched)
    {
      if !OriginAllowed(origin) {
        return Failure(UnauthorizedOrigin);
      }
      match request
      case AuthSync(access, refresh, expiresAt, user) =>
        if access.None? || access.value == "" {
          return Failure(NoAccessToken);
        }
        auth.Save(ExtAuth.AuthData(access.value, refresh, expiresAt, user));
        var _ := SetupContextMenu(auth, now, fetched);
        reply := Synced;
      case AuthLogout =>
        auth.Clear();
        ClearCache();
        var _ := SetupContextMenu(auth, now, fetched);
        reply := LoggedOut;
      case Ping =>
        reply := Pong;
      case CheckAuth =>
        var authenticated := auth.IsAuthenticated(now);
        reply := AuthStatus(authenticated);
      case UnknownType =>
        reply := Failure(UnknownMessage);
    }
  }
}
