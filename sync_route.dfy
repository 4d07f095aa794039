/**
 * `POST /api/videos/sync`: starts a background sync unless one is already
 * running for the same user. The per-user "in progress" flags live in a map
 * owned by the route; the background sync's completion is an explicit
 * `Finish` event that runs the store's sync and then drops the flag.
 */
module SyncRoute {
  import opened Wrappers
  import L = Library
  import VideoService

  /** The three answers of the route. */
  datatype SyncReply = Unauthorized | AlreadyRunning | Started(startedAt: string)
  {
    function Status(): int {
      match this
      case Unauthorized => 401
      case AlreadyRunning => 200
      case Started(_) => 202
    }
  }

  /** `syncInProgressByUser.get(userId)` read as a condition: an absent key is
      `undefined`, which is falsy. */
  predicate Running(flags: map<string, bool>, userId: string) {
    userId in flags && flags[userId]
  }

  /** The route's decision for a request by `user` (`None` when the request is
      not authenticated), and the flag map afterwards. */
  function Decide(flags: map<string, bool>, user: Option<string>, nowIso: string): (map<string, bool>, SyncReply) {
    match user
    case None => (flags, Unauthorized)
    case Some(u) =>
      if Running(flags, u) then (flags, AlreadyRunning)
      else (flags[u := true], Started(nowIso))
  }

  /** An unauthenticated request gets 401 and a request while the user's sync
      runs gets 200 `alreadyRunning`; neither touches the flags. A request
      starts a sync (202) exactly when it is authenticated and the user's flag
      is not set, and after any authenticated request the flag is set. */
  lemma DecideSpec(flags: map<string, bool>, user: Option<string>, nowIso: string)
    ensures var (flags', reply) := Decide(flags, user, nowIso);
            (reply.Unauthorized? <==> user.None?)
            && (reply.AlreadyRunning? <==> user.Some? && Running(flags, user.value))
            && (reply.Started? <==> user.Some? && !Running(flags, user.value))
            && (!reply.Started? ==> flags' == flags)
            && (reply.Started? ==> reply.startedAt == nowIso && reply.Status() == 202)
            && (user.Some? ==> Running(flags', user.value))
  {
  }

  /** Flags are per user: a request by one user leaves every other user's flag
      as it was, and its answer does not depend on other users' flags. */
  lemma FlagsArePerUser(flags: map<string, bool>, u: string, v: string, b: bool, nowIso: string)
    requires u != v
    ensures Running(Decide(flags, Some(u), nowIso).0, v) == Running(flags, v)
    ensures Decide(flags[v := b], Some(u), nowIso).1 == Decide(flags, Some(u), nowIso).1
  {
  }

  /** The map after the sync started for `userId` finishes, whether it
      succeeded or failed. */
  function Finished(flags: map<string, bool>, userId: string): (flags': map<string, bool>)
    ensures !Running(flags', userId)
    ensures forall v :: v != userId ==> Running(flags', v) == Running(flags, v)
  {
    flags - {userId}
  }

  /** Once the user's sync has finished, the next request starts a new one. */
  lemma FinishThenPostStarts(flags: map<string, bool>, userId: string, nowIso: string)
    ensures Decide(Finished(flags, userId), Some(userId), nowIso).1 == Started(nowIso)
  {
  }

  /** Start, then finish: the flags are back to what they were for every user
      whose sync was not running before. */
  lemma StartFinishRestores(flags: map<string, bool>, userId: string, nowIso: string)
    requires userId !in flags
    ensures Finished(Decide(flags, Some(userId), nowIso).0, userId) == flags
  {
  }

  /** The module-level `syncInProgressByUser` map and the two events. */
  class Route {
    var inProgress: map<string, bool>

    constructor ()
      ensures inProgress == map[]
    {
      inProgress := map[];
    }

    /** A request to the route. */
    method Post(user: Option<string>, nowIso: string) returns (reply: SyncReply)
      modifies this
      ensures (inProgress, reply) == Decide(old(inProgress), user, nowIso)
    {
      if user.None? {
        return Unauthorized;
      }
      var userId := user.value;
      if userId in inProgress && inProgress[userId] {
        return AlreadyRunning;
      }
      inProgress := inProgress[userId := true];
      reply := Started(nowIso);
    }

    /** The background sync for `userId` runs to completion against the
        store, and its `finally` removes the user's flag. */
    method Finish(userId: string, store: VideoService.Store, fetch: L.FetchOutcome, nowIso: string, toIso: string -> Option<string>)
        returns (result: L.SyncResult)
      modifies this, store
      ensures inProgress == Finished(old(inProgress), userId)
      ensures (store.Tables(), result) == L.SyncLikedVideos(old(store.Tables()), userId, fetch, nowIso, toIso)
    {
      result := store.SyncLikedVideos(userId, fetch, nowIso, toIso);
      inProgress := inProgress - {userId};
    }
  }
}
