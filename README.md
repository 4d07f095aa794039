# Recall: a verified model of the liked-videos organiser

Recall keeps a user's liked YouTube videos in a personal library. The web
app syncs the liked-videos playlist into a table of videos and tags each
new video by keywords in its title. The user files videos into ordered
folders and filters them by tag. A Chrome extension saves the video open
in the current tab into a chosen folder, using a session token that the
web app hands over.

This project models the rules under that system in Dafny and proves what
they promise:

- **Auto-tagger** (`TagConstants`, `AutoTag`). The rule table and its well-formedness. Case-insensitive keyword detection in table order, and tag colours.
- **Library store** (`Library`, `VideoService`). Profiles, folders, videos, tags and video-tag links are in-memory tables. Every store operation is a function from the old tables to the new ones. The `VideoService.Store` class performs the same operations in place, and each method is proved equal to its function. The functions come with lemmas: liked-video sync, get-or-create tags, auto-tagging, moving a video, creating, reordering and deleting folders.
- **Routes** (`SyncRoute`, `MoveRoute`, `VideosRoute`, `TagsRoute`, `FoldersRoute`, `AddByUrl`, with `Http` for JSON body fields). The check chains, status codes and store effects of the API routes. The per-user "sync in progress" flags. Tag-filter expansion, and grouping tags into parents and children.
- **Helpers**. ISO 8601 durations (the time designators of section 4.4.3.2 of ISO 8601:2004). Relative dates. Paginated, batched fetching of the liked playlist (`YouTubeApi`). Video-id extraction from YouTube links (`YouTubeUrl`). The auto-sync throttle (`AutoSync`).
- **Middleware** (`Middleware`). The CORS allowlist and the header copying, following the CORS protocol of section 3.2 of the WHATWG Fetch Standard.
- **Extension** (`ExtAuth`, `ExtYouTube`, `ServiceWorker`):
  - the auth record in `chrome.storage.local` and its expiry rule;
  - the tab-URL filter;
  - the background worker's five-minute folder cache, its context menu and menu-id parsing;
  - the origin check on messages from the web app and their dispatch.

The database, the clock, the date conversion, YouTube's API, the URL parser
and the signed-in user are parameters. A request field is an `Http.Field`, which makes
JavaScript truthiness explicit. `Strings` and `Seqs` hold the string and
sequence primitives the source relies on.

## Model

| member | source | states |
|---|---|---|
| TagConstants.TagRulesDistinct | recall-react-app/shared/constants/tags.ts:27-143 | the rule table has ten rules and no two share a tag name |
| TagConstants.TagRulesWellFormed | recall-react-app/shared/constants/tags.ts:6-143 | every rule has a keyword and a colour taken from the palette |
| TagConstants.KeywordsAreLowerCase | recall-react-app/shared/constants/tags.ts:27-143 | every keyword of every rule is already lower case |
| TagConstants.DevRuleLowerCase | recall-react-app/shared/constants/tags.ts:29-49 | the Dev keywords are lower case |
| TagConstants.TutorialRuleLowerCase | recall-react-app/shared/constants/tags.ts:54-65 | the Tutorial keywords are lower case |
| TagConstants.MusicRuleLowerCase | recall-react-app/shared/constants/tags.ts:70-79 | the Music keywords are lower case |
| TagConstants.CookingRuleLowerCase | recall-react-app/shared/constants/tags.ts:84-93 | the Cooking keywords are lower case |
| TagConstants.GamingRuleLowerCase | recall-react-app/shared/constants/tags.ts:98-106 | the Gaming keywords are lower case |
| TagConstants.VlogRuleLowerCase | recall-react-app/shared/constants/tags.ts:111 | the Vlog keywords are lower case |
| TagConstants.TechReviewRuleLowerCase | recall-react-app/shared/constants/tags.ts:116-124 | the Tech Review keywords are lower case |
| TagConstants.FitnessRuleLowerCase | recall-react-app/shared/constants/tags.ts:129 | the Fitness keywords are lower case |
| TagConstants.ComedyRuleLowerCase | recall-react-app/shared/constants/tags.ts:134 | the Comedy keywords are lower case |
| TagConstants.PodcastRuleLowerCase | recall-react-app/shared/constants/tags.ts:139 | the Podcast keywords are lower case |
| TagConstants.DefaultColorIsFirst | recall-react-app/shared/constants/tags.ts:3-7 | the default tag colour is the first palette colour and the default folder is "Inbox" |
| TagConstants.SharedKeywordAndColor | recall-react-app/shared/constants/tags.ts:61-136 | "walkthrough" belongs to both Tutorial and Gaming; Cooking and Comedy share a colour |
| AutoTag.DetectTags | shared/utils/auto-tag.ts:9-25 | the method's result is the tag list of the rule-table scan over the lower-cased title |
| AutoTag.ScanRules | shared/utils/auto-tag.ts:13-22 | the nested loop, which leaves a rule after its first matching keyword and skips names already pushed, computes the scan's tag list |
| AutoTag.DetectedIff | shared/utils/auto-tag.ts:13-21 | a name is output iff some rule with that name has a keyword occurring in the lower-cased title |
| AutoTag.DetectedNoDups | shared/utils/auto-tag.ts:16-19 | the output has no duplicates and is no longer than the rule table |
| AutoTag.DetectedInTableOrder | shared/utils/auto-tag.ts:13-17 | with distinct rule names the output is exactly the names of the matching rules, in table order |
| AutoTag.DetectSpec | shared/utils/auto-tag.ts:9-24 | on the real table: the matching rules' names in order, no duplicates, at most ten, each rule's name present iff it matches, and `[]` when nothing matches |
| AutoTag.DetectIgnoresCase | shared/utils/auto-tag.ts:10-15 | a title and its lower-cased form get the same tags |
| AutoTag.WalkthroughTagsTwice | shared/utils/auto-tag.ts:13-21 | a title containing "walkthrough" in any case gets both Tutorial and Gaming |
| AutoTag.WalkthroughMatchesTutorial | recall-react-app/shared/constants/tags.ts:61 | a lower-cased title containing "walkthrough" matches the Tutorial rule |
| AutoTag.WalkthroughMatchesGaming | recall-react-app/shared/constants/tags.ts:104 | a lower-cased title containing "walkthrough" matches the Gaming rule |
| AutoTag.FindRule | shared/utils/auto-tag.ts:31 | `find` returns the first rule with the name, or none when no rule has it |
| AutoTag.TagColorSpec | shared/utils/auto-tag.ts:30-33 | a rule's name maps to the colour of the first rule with that name; any other name gets the default indigo; the result is always a palette colour |
| AutoSync.ShouldAutoSyncIff | recall-react-app/lib/services/auto-sync.ts:18-23 | for a parsed timestamp, comparing fractional minutes equals comparing elapsed milliseconds with interval × 60000 |
| AutoSync.NeverAndUnparseable | recall-react-app/lib/services/auto-sync.ts:14-23 | a missing timestamp is always due; an unparseable one (NaN difference) never is |
| AutoSync.DueIsMonotone | recall-react-app/lib/services/auto-sync.ts:20-23 | once due, a sync stays due as the clock advances |
| AutoSync.FutureNeverDue | recall-react-app/lib/services/auto-sync.ts:18-23 | for every positive interval, a last sync stamped later than the clock is never due |
| AutoSync.DefaultHour | recall-react-app/lib/services/auto-sync.ts:12-23 | with the default 60 minutes, 59 minutes after the last sync is not due, 60 is, and a timestamp in the future is not, as `AutoSync.FutureNeverDue` states for every positive interval |
| YouTubeUrl.QueryGet | recall-react-app/shared/utils/youtube.ts:17 | `searchParams.get` finds a value iff the key is present, and returns the value of a pair with that key |
| YouTubeUrl.ValidIffExtracts | recall-react-app/shared/utils/youtube.ts:44-46 | a URL is valid iff an id can be extracted; one that fails to parse is invalid |
| YouTubeUrl.SubdomainIsYouTubeHost | recall-react-app/shared/utils/youtube.ts:16-31 | every host ending in "youtube.com" passes the host test, since it is a substring test |
| YouTubeUrl.WatchLinkRoundTrip | recall-react-app/shared/utils/youtube.ts:16-17 | a watch link built from an id yields that id |
| YouTubeUrl.ShortLinkRoundTrip | recall-react-app/shared/utils/youtube.ts:21-22 | a youtu.be link yields its path without the leading "/" |
| YouTubeUrl.ShortsLinkRoundTrip | recall-react-app/shared/utils/youtube.ts:26-27 | a shorts link yields its id when the id has no "/" |
| YouTubeUrl.EmbedLinkRoundTrip | recall-react-app/shared/utils/youtube.ts:31-32 | an embed link yields its id when the id has no "/" |
| YouTubeUrl.OtherHostsRejected | recall-react-app/shared/utils/youtube.ts:16-35 | any other host yields no id |
| YouTubeUrl.WatchLinkUsesV | recall-react-app/shared/utils/youtube.ts:16-17 | on a YouTube host, "/watch" yields the first `v` parameter, and none when there is no `v` |
| YouTubeApi.FindPT | recall-react-app/lib/youtube.ts:150 | the unanchored pattern's match starts at the first "PT", and there is none when "PT" does not occur |
| YouTubeApi.DigitRun | recall-react-app/lib/youtube.ts:150 | `\d+` takes the longest run of digits at the head of the text |
| YouTubeApi.GroupPart | recall-react-app/lib/youtube.ts:150-155 | an optional `(\d+)X` group reads back the number written before its designator |
| YouTubeApi.GroupSkip | recall-react-app/lib/youtube.ts:150-155 | a group whose designator is absent matches nothing and reads as 0 |
| YouTubeApi.ParseIsoDuration | recall-react-app/lib/youtube.ts:148-161 | parsing any `PT…H…M…S` duration gives the clock of its components, with missing ones as 0 |
| YouTubeApi.ParseDurationMinutesSeconds | recall-react-app/lib/youtube.ts:149-160 | "PT4M13S" becomes "4:13" |
| YouTubeApi.ParseDurationHours | recall-react-app/lib/youtube.ts:157-158 | with hours, minutes and seconds are padded: "PT1H2M3S" becomes "1:02:03" |
| YouTubeApi.ParseDurationWithoutTime | recall-react-app/lib/youtube.ts:150-151 | a duration without "PT" gives "" |
| YouTubeApi.PaddedValue | recall-react-app/lib/youtube.ts:158-160 | `padStart(2, "0")` keeps the number's value |
| YouTubeApi.ClockRoundTrip | recall-react-app/lib/youtube.ts:157-160 | the clock text determines hours, minutes and seconds: reading it back recovers them |
| YouTubeApi.HoursClockRoundTrip | recall-react-app/lib/youtube.ts:157-158 | the `H:MM:SS` form reads back to its components |
| YouTubeApi.MinutesClockRoundTrip | recall-react-app/lib/youtube.ts:160 | the `M:SS` form reads back to its components |
| YouTubeApi.DaysBetweenIsFloor | recall-react-app/lib/youtube.ts:167-168 | the day count is the number of whole days elapsed, rounded down |
| YouTubeApi.FormatDateBuckets | recall-react-app/lib/youtube.ts:163-176 | "Today" iff less than a day ago; "Yesterday" iff one to two days; weeks 1-4 and months 1-12 in their ranges; a future date gives a negative count |
| YouTubeApi.OrElse | recall-react-app/lib/youtube.ts:128-129 | a field or its fallback: the field when it is a non-empty string, else the fallback |
| YouTubeApi.PickThumbnail | recall-react-app/lib/youtube.ts:131 | the high, then medium, then default thumbnail; "" exactly when none is a non-empty string |
| YouTubeApi.ItemIds | recall-react-app/lib/youtube.ts:86-89 | only items with a non-empty video id contribute, so no more ids than items and none empty |
| YouTubeApi.RequestCount | recall-react-app/lib/youtube.ts:78-97 | the do-while makes at least one request and continues exactly while there is a next-page token and fewer than `maxResults` ids |
| YouTubeApi.CollectPage | recall-react-app/lib/youtube.ts:86-94 | one page appends its ids and records each liked-at time |
| YouTubeApi.CollectLikedIds | recall-react-app/lib/youtube.ts:74-97 | the pagination loop makes that many requests and ends with the ids and liked-at times of the pages it fetched |
| YouTubeApi.FetchDetails | recall-react-app/lib/youtube.ts:107-116 | the ids are requested in order, in batches of 1 to 50 of which all but the last are full; the items are the responses concatenated |
| YouTubeApi.ToLikedVideos | recall-react-app/lib/youtube.ts:122-136 | each resource becomes one video, in order |
| YouTubeApi.GetLikedVideos | recall-react-app/lib/youtube.ts:52-146 | no ids gives `[]`; otherwise the first `maxResults` ids are fetched in batches and the resources, sorted by playlist position, are converted |
| YouTubeApi.LikedVideosInPlaylistOrder | recall-react-app/lib/youtube.ts:118-120 | the sort keeps every returned resource (a permutation) and orders the videos by playlist position |
| Library.GetOrCreateTagSpec | recall-react-app/lib/services/video-service.ts:247-283 | the user's one tag of that name is returned with nothing written; otherwise exactly one tag with that user, name and the colour or the indigo default is appended; no other table changes |
| Library.GetOrCreateTagIdempotent | recall-react-app/lib/services/video-service.ts:255-265 | a second get-or-create returns the same tag and writes nothing |
| Library.LinkTagsFrame | recall-react-app/lib/services/video-service.ts:233-241 | the linking loop only adds tags and links, and every new link is for this video |
| Library.LinkTagsLinksEveryName | recall-react-app/lib/services/video-service.ts:233-241 | after the loop, each name is linked to this video through a tag of the user with that name |
| Library.AutoTagVideoSpec | recall-react-app/lib/services/video-service.ts:218-242 | no detected tag writes nothing; otherwise every detected name is linked to the video, and only tags and links change |
| Library.NewVideoRows | recall-react-app/lib/services/video-service.ts:183-194 | one row per fetched video, in order, with the row built from that video; its `liked_at` is the like time converted to ISO form, or now when there is none |
| Library.TagEachFrame | recall-react-app/lib/services/video-service.ts:208-210 | tagging the inserted rows leaves profiles, folders and videos alone |
| Library.InsertVideosSpec | recall-react-app/lib/services/video-service.ts:174-213 | the insert throws and writes nothing exactly when some like time does not convert to ISO form; otherwise exactly one row per fetched video is appended, in order, with the user, folder, id and title, and `liked_at` set to the converted like time or else now; profiles and folders are unchanged |
| Library.YouTubeIdsOf | recall-react-app/lib/services/video-service.ts:166 | the `youtube_id` of each row, in order |
| Library.ExistingYouTubeIdsIff | recall-react-app/lib/services/video-service.ts:152-167 | an id is reported iff it was asked about and the user has a row with it |
| Library.VideoIdsOf | recall-react-app/lib/services/video-service.ts:96 | the fetched videos' ids, in order |
| Library.StampLastSync | recall-react-app/lib/services/video-service.ts:105-127 | only the user's profile row gets the new `last_sync_at`; every row keeps its id |
| Library.SyncWithoutConnection | recall-react-app/lib/services/video-service.ts:30-146 | without exactly one profile, or without an access token, the sync fails with that message and writes nothing |
| Library.SyncWithoutVideos | recall-react-app/lib/services/video-service.ts:60-93 | a failed fetch reports the YouTube error; an empty list reports success with zero counts; neither writes anything |
| Library.SyncInsertsExactlyNew | recall-react-app/lib/services/video-service.ts:95-136 | a non-empty fetch reports one insert per unseen video, the fetched and the existing counts, stamps the user's profile and leaves folders alone |
| Library.SyncRejectsUnreadableLikedAt | recall-react-app/lib/services/video-service.ts:120-146 | when a like time of an unseen video does not convert, the sync fails with "Invalid time value", inserts nothing and does not stamp `last_sync_at` |
| Library.SyncAppendsNewRows | recall-react-app/lib/services/video-service.ts:96-120 | a non-empty fetch appends exactly the unseen videos, in order, as the user's rows with no folder, behind the old rows |
| Library.StampKeepsProfiles | recall-react-app/lib/services/video-service.ts:124-127 | stamping keeps the set of rows with the user's id, so the profile is still found |
| Library.SyncStoresEveryFetched | recall-react-app/lib/services/video-service.ts:95-121 | after a sync every fetched video is stored for the user |
| Library.SyncTwiceInsertsNothing | recall-react-app/lib/services/video-service.ts:97-118 | syncing the same list again inserts nothing and reports zero new videos |
| Library.UpdateFolder | recall-react-app/lib/services/video-service.ts:306-333 | the update sets `folder_id` on exactly the selected rows and leaves every other field as it was |
| Library.MoveVideoSpec | recall-react-app/lib/services/video-service.ts:289-338 | the move fails iff the user does not own the video or does not own a non-null target; a failure writes nothing; a success changes only `folder_id` of the rows with that id, to the target or null |
| Library.GetUserFoldersSpec | recall-react-app/lib/services/video-service.ts:343-357 | the listing is a permutation of the user's folders, in ascending position |
| Library.MaxPosition | recall-react-app/lib/services/video-service.ts:366-371 | the highest position is at least every position and is one of them |
| Library.CreateFolderSpec | recall-react-app/lib/services/video-service.ts:362-391 | the new non-default folder of the user with that name is appended, one past the user's highest position, or at 0 for a first folder |
| Library.SetPosition | recall-react-app/lib/services/video-service.ts:401-405 | one update sets the position of the user's folders with that id and nothing else |
| Library.ReorderStepsSpec | recall-react-app/lib/services/video-service.ts:400-406 | after n steps each of the user's folders listed among the first n ids sits at the last index that lists it; the others are untouched |
| Library.ReorderFoldersSpec | recall-react-app/lib/services/video-service.ts:396-407 | the user's folder listed at index i gets position i (the last such i when listed twice); other folders, fields and tables are untouched |
| Library.DeleteFolderSpec | recall-react-app/lib/services/video-service.ts:412-447 | deletion succeeds iff the user's one folder of that id is not the default and holds no video; it then removes exactly that row; a failure writes nothing |
| Library.FilterSplitCount | recall-react-app/lib/services/video-service.ts:442 | the rows kept by the delete number all rows less the deleted ones |
| VideoService.Store.constructor | recall-react-app/lib/services/video-service.ts:20 | a store holding the given tables |
| VideoService.Store.GetExistingYouTubeIds | recall-react-app/lib/services/video-service.ts:152-167 | an id is reported iff it was asked about and the user has a row with it; the tables are unchanged |
| VideoService.Store.GetOrCreateTag | recall-react-app/lib/services/video-service.ts:247-283 | the tables and tag are those of get-or-create on the old tables |
| VideoService.Store.AutoTagVideo | recall-react-app/lib/services/video-service.ts:218-242 | the tables are those of auto-tagging the old tables |
| VideoService.Store.InsertVideos | recall-react-app/lib/services/video-service.ts:174-213 | the tables and inserted rows are those of the insert on the old tables |
| VideoService.Store.TagEach | recall-react-app/lib/services/video-service.ts:207-210 | the loop leaves the tables of auto-tagging each row in turn |
| VideoService.Store.SyncLikedVideos | recall-react-app/lib/services/video-service.ts:25-147 | the tables and report are those of the sync on the old tables |
| VideoService.Store.MoveVideo | recall-react-app/lib/services/video-service.ts:289-338 | the tables and outcome are those of the move on the old tables |
| VideoService.Store.GetUserFolders | recall-react-app/lib/services/video-service.ts:343-357 | the user's folders, as a permutation, in ascending position |
| VideoService.Store.CreateFolder | recall-react-app/lib/services/video-service.ts:362-391 | the tables and folder are those of the create on the old tables |
| VideoService.Store.ReorderFolders | recall-react-app/lib/services/video-service.ts:396-407 | the update loop leaves the tables of the reorder on the old tables |
| VideoService.Store.DeleteFolder | recall-react-app/lib/services/video-service.ts:412-447 | the tables and outcome are those of the delete on the old tables |
| SyncRoute.DecideSpec | recall-react-app/app/api/videos/sync/route.ts:22-34 | 401 exactly without a user, 200 "already running" exactly when the user's flag is set, 202 with the start time exactly otherwise; only a start changes the flags, and afterwards the user's flag is set |
| SyncRoute.FlagsArePerUser | recall-react-app/app/api/videos/sync/route.ts:7-34 | a request by one user leaves every other user's flag as it was, and its answer does not depend on other users' flags |
| SyncRoute.Finished | recall-react-app/app/api/videos/sync/route.ts:48-50 | when a background sync ends, however it ends, the user's flag is cleared and no other user's flag changes |
| SyncRoute.FinishThenPostStarts | recall-react-app/app/api/videos/sync/route.ts:27-58 | once the user's sync has finished, the next request by that user starts a new sync |
| SyncRoute.StartFinishRestores | recall-react-app/app/api/videos/sync/route.ts:34-49 | for a user with no entry in the flag map, starting and then finishing a sync leaves the map exactly as before |
| SyncRoute.Route.constructor | recall-react-app/app/api/videos/sync/route.ts:7 | no sync is in progress at start |
| SyncRoute.Route.Post | recall-react-app/app/api/videos/sync/route.ts:14-59 | the new flag map and the answer are the route's decision on the old map |
| SyncRoute.Route.Finish | recall-react-app/app/api/videos/sync/route.ts:37-50 | the store becomes the result of syncing the liked videos, and the user's flag is then cleared |
| MoveRoute.MoveSpec | recall-react-app/app/api/videos/move/route.ts:19-43 | 401 exactly without a user, 400 exactly when either field is falsy, no write on any failure; with two non-empty string ids the answer is 200 echoing both ids exactly when the service's move succeeds, and the tables are then the service's |
| MoveRoute.NonStringIdsFail | recall-react-app/app/api/videos/move/route.ts:34-51 | a truthy id that is not a string names no row: a non-string video id gives the video error, and a non-string target gives the same error as a target naming no folder (the folder error when the caller owns the video); nothing is written |
| MoveRoute.NullTargetRejected | recall-react-app/app/api/videos/move/route.ts:26-31 | a null target folder is refused with 400, although the service would accept it |
| MoveRoute.Post | recall-react-app/app/api/videos/move/route.ts:11-54 | the store and the answer are those of the route on the old tables |
| VideosRoute.TagIds | recall-react-app/app/api/videos/route.ts:24 | the selected tag ids are the non-empty pieces of the comma-separated parameter, none of them empty, and there are none without the parameter or with an empty one |
| VideosRoute.TagIdsPieces | recall-react-app/app/api/videos/route.ts:24 | a string is a selected id exactly when it is a non-empty piece between commas |
| VideosRoute.ParseIntNumeral | recall-react-app/app/api/videos/route.ts:25 | `parseInt` reads a decimal numeral, followed by anything that does not start with a digit, as its value |
| VideosRoute.ParseIntNaN | recall-react-app/app/api/videos/route.ts:25 | text starting with neither white space, a sign nor a digit parses to NaN |
| VideosRoute.LimitDefault | recall-react-app/app/api/videos/route.ts:25 | without a `limit` parameter, or with an empty one, the limit is 50 |
| VideosRoute.LimitNumeral | recall-react-app/app/api/videos/route.ts:25 | a numeral given as `limit` is read as its value |
| VideosRoute.ExpandTagIds | recall-react-app/app/api/videos/route.ts:63-68 | the two nested loops build exactly the selected ids together with the ids of tags whose parent is selected |
| VideosRoute.ExpandedIff | recall-react-app/app/api/videos/route.ts:63-68 | an id is expanded exactly when it is selected or is a tag whose `parent_id` is selected |
| VideosRoute.GrandchildNotExpanded | recall-react-app/app/api/videos/route.ts:64-67 | the expansion goes one level down only: a grandchild of a selected tag is not included |
| VideosRoute.CandidateIds | recall-react-app/app/api/videos/route.ts:71-80 | the candidate ids have no duplicates and are exactly the videos of the link rows carrying an expanded tag |
| VideosRoute.ScopeSpec | recall-react-app/app/api/videos/route.ts:51-88 | no filter without selected tags; an empty `{videos: []}` answer exactly when tags are selected and no link carries an expanded tag; otherwise the query is restricted to the distinct candidate ids |
| VideosRoute.ListSpec | recall-react-app/app/api/videos/route.ts:9-90 | 401 exactly without a user; with one, the empty list exactly when tags are selected and no link row carries an expanded tag; otherwise the user's main query with the parsed limit, a folder filter exactly when a folder id is given, and the tag scope (none when no tag is selected, else the distinct ids of videos carrying an expanded tag) |
| VideosRoute.FlattenTags | recall-react-app/app/api/videos/route.ts:97-100 | a video without joined tags has none; otherwise its tags are exactly the non-null joined tags |
| VideosRoute.Present | recall-react-app/app/api/videos/route.ts:99 | dropping the null joins keeps exactly the present tags and never lengthens the list |
| VideosRoute.PresentWithoutNulls | recall-react-app/app/api/videos/route.ts:99 | a join without nulls comes back whole and in order |
| VideosRoute.DeleteSpec | recall-react-app/app/api/videos/route.ts:138-159 | 401 exactly without a user, 400 exactly without an id, no write on either; on success exactly the caller's rows with that id are gone, every other row stays, and only the videos table changes |
| VideosRoute.DeleteVideo | recall-react-app/app/api/videos/route.ts:130-170 | the store and the answer are those of the delete function on the old tables |
| TagsRoute.GroupAll | recall-react-app/app/api/tags/route.ts:36-39 | there is one group per top-level tag, in order, each holding that tag's children |
| TagsRoute.ParentsSpec | recall-react-app/app/api/tags/route.ts:32-44 | the flat list is the input unchanged; the groups' parents are exactly the tags without a parent, in input order |
| TagsRoute.ChildrenSpec | recall-react-app/app/api/tags/route.ts:33-38 | each group's children are exactly the tags whose `parent_id` is the group's id, in input order |
| TagsRoute.OrphanInNoGroup | recall-react-app/app/api/tags/route.ts:32-44 | a tag whose parent is missing or is itself a child appears in the flat list but in no group |
| FoldersRoute.Counts | recall-react-app/app/api/folders/route.ts:32-44 | one count per folder, each the number of video rows filed in that folder |
| FoldersRoute.GetSpec | recall-react-app/app/api/folders/route.ts:13-49 | 401 exactly without a user; the listing holds exactly the user's folders in `position_index` order; counts come exactly with `includeCount=true`, one per folder, each that folder's number of videos |
| FoldersRoute.PostCreates | recall-react-app/app/api/folders/route.ts:78-87 | a string name that trims to something is stored trimmed in a new, non-default folder of the user, appended after the user's other folders |
| FoldersRoute.PostSpec | recall-react-app/app/api/folders/route.ts:74-87 | a missing, empty or blank name gets 400 and no write; a string name that is not blank is stored trimmed in a new, non-default folder of the user, appended after the user's other folders, with 201 |
| FoldersRoute.PatchSpec | recall-react-app/app/api/folders/route.ts:112-128 | anything but an array gets 400 and no write; an array gives each of the user's listed folders its (last) index in the array as position, leaves every other row as it was, and answers 200 |
| FoldersRoute.DeleteSpec | recall-react-app/app/api/folders/route.ts:153-166 | without an id 400; the answer is 200 exactly when the user owns that folder, it is not the default and it holds no video, and then only that row is gone; refusing the default folder carries its message; nothing is written on any refusal |
| FoldersRoute.RenameRows | recall-react-app/app/api/folders/route.ts:206-210 | the update renames exactly the caller's rows with that id and leaves every other row as it was |
| FoldersRoute.PutGuards | recall-react-app/app/api/folders/route.ts:191-203 | 400 exactly when the id or the name is missing or the name is blank, with no write; in every case only folder rows can change |
| FoldersRoute.PutRenames | recall-react-app/app/api/folders/route.ts:198-212 | a non-empty string id and a name that is not blank lead to the update with the trimmed name |
| FoldersRoute.RenameSpec | recall-react-app/app/api/folders/route.ts:206-218 | only the caller's rows with that id get the new name; the answer is 200 with the renamed row exactly when one row matched, and otherwise the `.single()` error |
| FoldersRoute.PutFolder | recall-react-app/app/api/folders/route.ts:183-229 | the store and the answer are those of the PUT function on the old tables |
| AddByUrl.CheckOrder | recall-react-app/app/api/videos/add-by-url/route.ts:20-75 | the checks run in order (401 without a user, 400 for a missing or non-string url, 400 when no id can be extracted, 409 when the caller already has the video), each exactly in its case, and none of them writes |
| AddByUrl.DuplicateNotInserted | recall-react-app/app/api/videos/add-by-url/route.ts:46-75 | a video the caller already holds as one row gets 409 and is not inserted again |
| AddByUrl.FolderResolution | recall-react-app/app/api/videos/add-by-url/route.ts:77-109 | without a folder the target is the caller's one default folder, and 500 unless the caller has exactly one; a given folder is the target exactly when the caller owns it as one row, and 404 otherwise |
| AddByUrl.InsertSpec | recall-react-app/app/api/videos/add-by-url/route.ts:114-141 | exactly one row is appended: the caller's, in the resolved folder, with the fetched id and title and `liked_at` null; folders and profiles do not change |
| AddByUrl.InsertReadsBack | recall-react-app/app/api/videos/add-by-url/route.ts:143-175 | a 201 answer carries the inserted row |
| AddByUrl.SingleIsTheMatch | recall-react-app/app/api/videos/add-by-url/route.ts:152-153 | when `.single()` succeeds it returns the one matching row |
| AddByUrl.InsertTagsDetected | recall-react-app/app/api/videos/add-by-url/route.ts:140-166 | every tag name detected in the title appears, as a tag of the caller, among the tags of a 201 answer |
| AddByUrl.Post | recall-react-app/app/api/videos/add-by-url/route.ts:16-187 | the store and the answer are those of the route function on the old tables |
| AddByUrl.InsertInto | recall-react-app/app/api/videos/add-by-url/route.ts:114-166 | the insert, auto-tag and read-back steps leave the store and give the answer of the insert function on the old tables |
| AddByUrl.AddReachesInsert | recall-react-app/app/api/videos/add-by-url/route.ts:16-114 | once every check passes, the route's outcome is the insert into the resolved folder |
| ExtYouTube.CurrentYouTubeUrl | recall-chrome-ext/src/lib/youtube.ts:6-26 | the tab URL is returned, unchanged, exactly when it is present, non-empty and contains a watch, shorts or youtu.be link; otherwise null |
| ExtYouTube.CurrentVideoIdSpec | recall-chrome-ext/src/lib/youtube.ts:31-36 | no id without a YouTube tab URL; with one, the id is what the shared extractor finds in it |
| ExtYouTube.EmbedLinkFiltered | recall-chrome-ext/src/lib/youtube.ts:15-19 | an embed link is refused by the tab filter although the shared extractor finds its id |
| ExtYouTube.AbsentCharNotContained | recall-chrome-ext/src/lib/youtube.ts:15-17 | a pattern with a character the URL lacks does not occur in it |
| ExtYouTube.NoShortLinkHost | recall-chrome-ext/src/lib/youtube.ts:17 | "youtu.be/" does not occur in a URL whose only dot is not preceded by "youtu" |
| ExtYouTube.WebAppUrl | recall-chrome-ext/src/lib/youtube.ts:41-44 | the opened URL is the configured app URL, or "https://ytrecall.online" when none is configured, followed by the path, which defaults to "" |
| ExtAuth.Cleared | recall-chrome-ext/src/lib/supabase.ts:88-95 | logout removes both auth keys and keeps every other entry as it was |
| ExtAuth.ReadSessionSpec | recall-chrome-ext/src/lib/supabase.ts:59-83 | without a stored token the answer is null and nothing changes; past the expiry both keys are removed and the answer is null; otherwise the stored token comes back and nothing changes; a token comes back exactly when one is stored and not expired |
| ExtAuth.NoExpiryNeverExpires | recall-chrome-ext/src/lib/supabase.ts:71 | a saved session without an expiry is read back at any time, and the read changes nothing |
| ExtAuth.SaveThenRead | recall-chrome-ext/src/lib/supabase.ts:38-83 | after a save, a read up to the expiry (in seconds, compared in milliseconds) returns the saved token; a later read returns null and removes both keys |
| ExtAuth.ReadSessionTwice | recall-chrome-ext/src/lib/supabase.ts:59-83 | a second read gives the same answer and changes nothing more |
| ExtAuth.UserOf | recall-chrome-ext/src/lib/supabase.ts:100-108 | the user comes back exactly when the user-data record holds one, and it is that user |
| ExtAuth.Storage.constructor | recall-chrome-ext/src/lib/supabase.ts:18-19 | the storage area starts with the given entries |
| ExtAuth.Storage.Save | recall-chrome-ext/src/lib/supabase.ts:38-53 | the entries become the saved ones: the token under the auth key, the rest of the session under the user key |
| ExtAuth.Storage.Clear | recall-chrome-ext/src/lib/supabase.ts:88-95 | the entries lose both auth keys and nothing else |
| ExtAuth.Storage.GetSession | recall-chrome-ext/src/lib/supabase.ts:59-83 | the new entries and the token are those of the session read on the old entries |
| ExtAuth.Storage.GetSessionFromCookies | recall-chrome-ext/src/lib/supabase.ts:113-115 | the legacy name performs the same session read |
| ExtAuth.Storage.IsAuthenticated | recall-chrome-ext/src/lib/supabase.ts:144-147 | authenticated exactly when the session read returns a token, with the read's effect on storage |
| ExtAuth.Storage.GetUser | recall-chrome-ext/src/lib/supabase.ts:100-108 | the stored user, or null, with storage unchanged |
| Middleware.CorsHeaders | recall-react-app/middleware.ts:7-24 | five headers; Allow-Origin echoes the origin exactly when it is allowed and is empty otherwise; the other four are the constant, non-empty method, header, credentials and max-age values |
| Middleware.AllowedOriginsSpec | recall-react-app/middleware.ts:9-15 | every extension origin and both local development origins, followed by anything, are allowed; a missing or empty origin is not |
| Middleware.WithCorsUntouched | recall-react-app/middleware.ts:44-48 | a response header that no non-empty CORS entry names keeps its value, or stays absent |
| Middleware.WithCorsLastWins | recall-react-app/middleware.ts:44-48 | a response header named by a non-empty CORS entry ends with the value of the last such entry |
| Middleware.CopyCorsHeaders | recall-react-app/middleware.ts:43-48 | the copy loop sets the response headers to those of the header fold |
| Middleware.HandleSpec | recall-react-app/middleware.ts:26-52 | a preflight (204 with the CORS headers) exactly for OPTIONS on an API path; other API responses to a request with an origin carry Allow-Credentials "true" and, when the origin is allowed, an Allow-Origin echoing it, while a disallowed origin leaves Allow-Origin as the session set it; non-API paths pass the session response through untouched |
| Middleware.Middleware | recall-react-app/middleware.ts:26-52 | the middleware's answer is the one the handling function describes |
| ServiceWorker.ReplaceFirstAtStart | recall-chrome-ext/src/background/service-worker.ts:229 | replacing a pattern the string starts with removes exactly that prefix |
| ServiceWorker.StripPortAfter | recall-chrome-ext/src/background/service-worker.ts:41 | removing ":3000" passes unchanged over a prefix in which no colon starts that port |
| ServiceWorker.SchemeHasNoPort | recall-chrome-ext/src/background/service-worker.ts:34-41 | in "scheme://host" with a colon-free host, no colon starts the port ":3000" |
| ServiceWorker.HostPrefixAllowed | recall-chrome-ext/src/background/service-worker.ts:41 | an allowed "host:3000" or "host" lets through every origin that starts with the host |
| ServiceWorker.OriginAccepted | recall-chrome-ext/src/background/service-worker.ts:34-41 | each allowed origin, written as scheme, host and optional port, lets through every origin that starts with its scheme and host |
| ServiceWorker.OriginPrefixAccepted | recall-chrome-ext/src/background/service-worker.ts:34-45 | because the match is by prefix, any origin starting with "http://localhost", "http://127.0.0.1", "https://localhost" or "https://ytrecall.online" is accepted, whatever port or host-name suffix follows; `ServiceWorker.OriginAllowedIff` proves the converse |
| ServiceWorker.StrippedOrigin | recall-chrome-ext/src/background/service-worker.ts:34-41 | removing ":3000" from an allowed origin leaves exactly its scheme and host, which the origin starts with |
| ServiceWorker.OriginRefusedUnlessHost | recall-chrome-ext/src/background/service-worker.ts:41-45 | an origin let through by the k-th allowed origin, by equality or by prefix, starts with the k-th host; every other origin is refused |
| ServiceWorker.OriginAllowedIff | recall-chrome-ext/src/background/service-worker.ts:34-45 | both directions: an origin is accepted if and only if it is non-empty and starts with one of the four hosts without the development port |
| ServiceWorker.NoOriginRefused | recall-chrome-ext/src/background/service-worker.ts:41-45 | a missing or empty sender origin is refused |
| ServiceWorker.FolderTitle | recall-chrome-ext/src/background/service-worker.ts:186 | a folder's entry is its name, followed by " (default)" exactly for the default folder |
| ServiceWorker.FolderItems | recall-chrome-ext/src/background/service-worker.ts:182-190 | one entry per folder, in order, each with id "folder-" and the folder's id, under the root and titled by the folder |
| ServiceWorker.FolderMenuSpec | recall-chrome-ext/src/background/service-worker.ts:172-208 | the menu is the root, then one entry per folder in order under it, then a separator and the refresh entry |
| ServiceWorker.OnClickSpec | recall-chrome-ext/src/background/service-worker.ts:213-232 | clicking a folder's entry adds to exactly that folder; the login entry opens the web app and the refresh entry refreshes; the root and the separator do nothing |
| ServiceWorker.ResumeSeconds | recall-chrome-ext/src/background/service-worker.ts:237-252 | the resume position is the value the tab returned when that is positive, and 0 otherwise |
| ServiceWorker.ResumeArgument | recall-chrome-ext/src/background/service-worker.ts:271-276 | a resume position is passed on exactly when there is a tab and its position is positive, and it is that position |
| ServiceWorker.FolderLabel | recall-chrome-ext/src/background/service-worker.ts:282-286 | the label is the name of the first cached folder with that id when that name is non-empty, and "folder" when no cached folder has the id; never empty |
| ServiceWorker.AddFeedback | recall-chrome-ext/src/background/service-worker.ts:257-306 | "Video Saved!" exactly when there is a token and a YouTube URL and the call reports success, naming the folder label; otherwise an "Error" with "Not authenticated", the navigation hint, the thrown message (or "An error occurred"), or the reported message, error or "Failed to save video" |
| ServiceWorker.LookupSpec | recall-chrome-ext/src/background/service-worker.ts:143-153 | a non-empty cache younger than five minutes is returned and kept; otherwise the fetched folders are returned and stored with the current time, and a failed fetch keeps the cache; an empty cache never hits |
| ServiceWorker.RefreshRefetches | recall-chrome-ext/src/background/service-worker.ts:219-224 | after the cache is emptied, the next menu is built from a fresh fetch, which is cached with the current time |
| ServiceWorker.MenuListsFolders | recall-chrome-ext/src/background/service-worker.ts:118-167 | the `getFolders` message and the context menu leave the cache in the same state, and the menu lists exactly the folders the message answers with, falling back to the login entry exactly when the message fails |
| ServiceWorker.ExternalSpec | recall-chrome-ext/src/background/service-worker.ts:28-104 | a message from an origin that is not allowed, an `AUTH_SYNC` without an access token and an unknown type fail and change nothing; a logout removes both auth keys and empties the cache; a sync stores the token, which a read returns while it has not expired |
| ServiceWorker.Worker.constructor | recall-chrome-ext/src/background/service-worker.ts:11-12 | the worker starts with an empty cache stamped 0 |
| ServiceWorker.Worker.ClearCache | recall-chrome-ext/src/background/service-worker.ts:69-70 | the cache is empty and stamped 0 |
| ServiceWorker.Worker.CachedFolders | recall-chrome-ext/src/background/service-worker.ts:143-153 | the new cache and the folders are those of the cache lookup on the old cache |
| ServiceWorker.Worker.SetupContextMenu | recall-chrome-ext/src/background/service-worker.ts:118-167 | the storage is what the session read leaves, and the new cache and the menu are those the menu function gives for the read token and the old cache |
| ServiceWorker.Worker.Refresh | recall-chrome-ext/src/background/service-worker.ts:219-224 | the menu and cache are those of the menu function from an empty cache |
| ServiceWorker.Worker.GetFolders | recall-chrome-ext/src/background/service-worker.ts:394-425 | the storage is what the session read leaves, and the new cache and the answer are those of the `getFolders` function |
| ServiceWorker.Worker.HandleExternal | recall-chrome-ext/src/background/service-worker.ts:28-104 | the stored auth entries, the cache and the reply are those of the external-message function on the old state |

## Left out

- The Supabase database is replaced by in-memory tables. Database errors are not modelled: a failed insert, update or select that the source rethrows as a 500. Only the guards the code itself raises, and the null result of `.single()`, are modelled.
- Authentication is a parameter: the signed-in user, or none. This covers `auth.getUser` and the cookie-or-bearer `createClientWithAuth`. Supabase client construction and `getAuthenticatedClient` in the extension are not part of this model.
- Google OAuth, the YouTube routes and the Google client calls are not part of this model. The token-refresh callback that `syncLikedVideos` passes to `getLikedVideos` is left out. Playlist pages, detail responses, `getVideoById` and the outcome of the liked-videos fetch are parameters.
- The WHATWG URL parser is a parameter. A parsed URL is a record of host name, path and query pairs.
- Clocks are parameters: milliseconds as `int`, or the ISO string that is written. The conversion `new Date(likedAt).toISOString()` in `insertVideos` is the parameter `toIso`; it gives `None` where `Date` cannot read the time and the conversion throws. `Date` parsing of stored timestamps is abstracted into the `AutoSync.LastSync` and `YouTubeApi.DateInput` datatypes.
- Concurrency: the sync route's background promise is an explicit `Finish` event, and interleavings of concurrent requests are not modelled.
- The interval, visibility and auth-event triggers of the client-side auto-sync are left out.
- `VideosRoute`: the main `GET /api/videos` query runs in the database and is left out. That is the folder filter, the `ilike` search, the `liked_at` order and the limit. `VideosRoute.List` stops at that query: the user check, the parsing of its parameters and the tag scope are modelled, and so is the tag flattening of its rows. `POST /api/videos`, a fixed 501 answer, is left out.
- `VideosRoute.ParseIntNumeral`: `parseInt` is modelled for decimal numerals only. Hex prefixes and values beyond the safe-integer range are not represented.
- `Http.Field`: a JSON array is kept as the list of strings it holds, so a `folderIds` array with non-string elements is not represented.
- `FoldersRoute.Post`, `FoldersRoute.Patch`, `FoldersRoute.Delete` and `FoldersRoute.Put` model the folders route with its missing imports restored. recall-react-app/app/api/folders/route.ts imports only `createClientWithAuth`, yet these four handlers call `createClient` and `VideoService`. As written, each of them throws a `ReferenceError` inside its `try` and answers 500; the model gives the behaviour the handlers evidently intend.
- A truthy id field that is not a string, as in `MoveRoute.Move` and `FoldersRoute.Put`, is treated as naming no row: each database lookup made with it finds nothing, in the source's order.
- `Strings`: `toLowerCase` and `trim` are modelled on ASCII letters and ASCII white space only.
- `AutoSync.ShouldAutoSyncIff`: the source's floating-point division is modelled on exact reals. Rounding at the boundary is not modelled.
- `ServiceWorker.ResumeSeconds`: the tab script's `Math.floor(video.currentTime)` is taken as the integer (or absence) it returns. The floating-point time and the DOM lookup are left out.
- Chrome APIs are left out and become values:
  - `contextMenus.removeAll` and `create` become a list of `ServiceWorker.MenuItem`s;
  - `tabs.query` gives the tab URL, which is a parameter;
  - `tabs.create` in `openWebApp` is the URL computed by `ExtYouTube.WebAppUrl`;
  - notifications and in-tab toasts are left out, and so is `showFeedback`'s choice between them. The title and message are `ServiceWorker.AddFeedback`.
- The `onInstalled` and `tabs.onUpdated` listeners only call `setupContextMenu`, which is `ServiceWorker.Worker.SetupContextMenu`; their triggers are left out.
- The extension's internal messages:
  - `checkAuth` is `ExtAuth.Storage.IsAuthenticated`;
  - `getSessionToken` is `ExtAuth.Storage.GetSession`;
  - `refreshFolders` is `ServiceWorker.Worker.Refresh`;
  - `getFolders` is `ServiceWorker.Worker.GetFolders`;
  - `getExtensionId` and the extension id and version in the `PING` reply come from the Chrome runtime and are left out.
- The `addToFolder` message and `handleAddToFolder` call the extension's API client, recall-chrome-ext/src/lib/api.ts, which is not part of this model. The call's outcome is the parameter `ServiceWorker.ApiOutcome`. That client takes three arguments, so the resume position computed by `ServiceWorker.ResumeArgument` never reaches the server.
- `ExtAuth.TokenOf`: only `saveAuthToStorage` writes the auth key, always with a string, so any other value there counts as no token.
- Logging (`console.*`) is left out.
