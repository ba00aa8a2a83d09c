# Genzskillboost core, modelled in Dafny

Genzskillboost is a Next.js social platform where young people share skill projects and short videos. The repository has no central engine. Its behaviour is spread over small pieces of deterministic logic, and this project models those pieces:

- the CloudFront URL builders;
- the input sanitisers of the middleware;
- the upload forms: the image cap, the multipart chunk plan, the resumable byte loop and the tag lists;
- the profile schema and its skill list;
- the client stores: the notification inbox, the forum thread list, the following feed, the paged video feed, the project search page, and activity pagination;
- the relative-time labels;
- the server-side query builders of the search, projects, videos and project-search API routes;
- the (commented-out) socket connection registry.

Each component's state becomes a `class` whose fields its handlers reassign. Pure helpers become functions with lemmas, and loops become methods with invariants. Database, Elasticsearch, S3 and `fetch` calls become parameters: an ok/failed flag plus the returned data. A Supabase query builder becomes the list of operations applied to it (`QueryOps.Op`).

Shared JavaScript semantics live in two modules:

- `JsString`: `String.prototype.trim` over the ECMAScript white-space set, `split`/`join`, `parseInt` as an `Option`, decimal printing, and `filter`-based removal.
- `StableSort`: the stable `Array.prototype.sort`, as an insertion sort with its sortedness, permutation and stability lemmas.

`Paging.Number` stands for a JavaScript number that can be `NaN`, so a non-numeric `page` parameter flows through the arithmetic as it does in the routes.

## Model

| member | source | states |
|---|---|---|
| JsString.Trim | middleware.ts:19 | the result neither starts nor ends with white space |
| JsString.TrimSlice | middleware.ts:19 | the trimmed string is one contiguous slice of the input, and everything cut away on either side is white space |
| JsString.TrimEmptyIffAllSpace | components/skills/community-forum.tsx:354 | a string trims to empty exactly when every character is white space (the "blank" test used by every guard) |
| JsString.TrimIdempotent | middleware.ts:19 | trimming twice is the same as trimming once |
| JsString.JoinSplit | app/api/search/route.ts:30-31 | joining the pieces of `split(sep)` with `sep` gives back the original string |
| JsString.SplitJoinChar | app/api/search/route.ts:30-31 | splitting a `join(",")` of comma-free parts gives back exactly those parts |
| JsString.ParseIntOfIntToString | app/api/projects/route.ts:9-10 | `parseInt` reads back any printed integer, so numeric parameters round-trip |
| JsString.CeilDiv | app/api/projects/route.ts:55 | `Math.ceil(n / d)` for positive d: the least r with n <= r·d |
| JsString.RemoveAll | components/skills/project-upload.tsx:109-112 | `filter(x => x !== v)`: v is gone, every other element keeps its multiplicity, and an absent v leaves the list unchanged |
| JsString.RemoveAllKeepsNoDuplicates | components/skills/project-search.tsx:117-122 | removing a value keeps a duplicate-free list duplicate-free |
| StableSort.SortDescSortedPermutation | app/following/page.tsx:138 | the sort result is ordered by descending key and is a permutation of its input |
| StableSort.SortDescStable | app/following/page.tsx:138 | items with equal keys keep their input order (the stability of `Array.prototype.sort`) |
| StableSort.SortDescOfSorted | components/skills/project-search.tsx:96-112 | sorting an already ordered list leaves it unchanged |
| CloudFront.S3KeyWithoutMarker | lib/cloudfront.ts:29 | with no ".com/" in the URL the key falls back to the whole URL |
| CloudFront.S3KeyBetweenMarkers | lib/cloudfront.ts:29 | the key is the text between the first and second ".com/", or the whole URL when that text is empty |
| CloudFront.S3KeyAfterLastMarker | lib/cloudfront.ts:29 | with a single ".com/" the key is everything after it, or the whole URL when nothing follows |
| CloudFront.SerializeSplit | lib/cloudfront.ts:39 | the query string splits on "&" into exactly the "name=value" pairs in the order they were appended |
| CloudFront.LookupAppend | lib/cloudfront.ts:32-37 | looking up a name in appended parameters finds the first group that has it |
| CloudFront.ImageParams | lib/cloudfront.ts:32-37 | parameters appear in strictly increasing w, h, q, f rank, and "f" with the format name is always last |
| CloudFront.ImageParamsLookup | lib/cloudfront.ts:34-37 | w, h and q are present exactly when their values are truthy (0 is omitted), each with its decimal text |
| CloudFront.OptimizedImageUrl | lib/cloudfront.ts:22-24 | with an empty distribution domain or an empty URL the original URL is returned unchanged |
| CloudFront.ImageUrlShape | lib/cloudfront.ts:26-42 | otherwise the URL is "https://" + domain + "/" + key + "?" + query, with quality defaulting to 80 |
| CloudFront.ImageUrlDefaults | lib/cloudfront.ts:26 | with no options the URL ends in "?q=80&f=webp" |
| CloudFront.OptimizedVideoUrl | lib/cloudfront.ts:45-48 | without a distribution domain or a URL the URL comes back unchanged |
| CloudFront.VideoUrlShape | lib/cloudfront.ts:50-56 | otherwise the URL reads as "https://" + domain + "/", then the two-letter quality folder (hd, md or sd), then "/" and the S3 key, and nothing more |
| CloudFront.VideoUrlQualities | lib/cloudfront.ts:45-54 | leaving out the quality is asking for 720p, and different qualities give different URLs for the same video |
| CloudFront.VideoUrlHasNoQuery | lib/cloudfront.ts:56 | a video URL has no query string |
| CloudFront.UseOptimizedImage | lib/cloudfront.ts:79-88 | src is the optimised URL; srcSet is the "1x" entry and the "2x" entry joined by ", " |
| CloudFront.SrcSetTwoXWidth | lib/cloudfront.ts:86 | the 2x entry asks for width (options.width or 400) times 2 |
| Middleware.RemoveAllCIShrinks | middleware.ts:17 | a case-insensitive global replace by "" never lengthens the text nor adds characters |
| Middleware.RemoveAllCINoMatch | middleware.ts:17 | with no case-insensitive match the text is unchanged |
| Middleware.FindCI | middleware.ts:16 | finds the first case-insensitive match at or after a position, or reports that there is none |
| Middleware.RemoveScripts | middleware.ts:16 | removing script blocks never lengthens the text nor adds characters |
| Middleware.RemoveScriptsNoTag | middleware.ts:16 | text without "<" is left unchanged |
| Middleware.ScriptBlockRemoved | middleware.ts:16 | a "<script>…</script>" block at the front is removed whole |
| Middleware.HandlerLength | middleware.ts:18 | a matched `on<word>\s*=` starts with "on" (any case) and ends with "=" |
| Middleware.HandlerLengthMeaning | middleware.ts:18 | a length is reported iff `/on\w+\s*=/i` matches at the front with that length, and nothing is reported iff no match starts there |
| Middleware.HandlerMatchLength | middleware.ts:18 | every match at the front has the reported length, so the match is unique |
| Middleware.HandlerLengthSound | middleware.ts:18 | a reported length is the length of a match |
| Middleware.RemoveHandlers | middleware.ts:18 | removing inline event handlers never lengthens the text nor adds characters |
| Middleware.RemoveHandlersNoO | middleware.ts:18 | text without an "o" in either case is unchanged |
| Middleware.HandlerRemoved | middleware.ts:18 | "on" + word + spaces + "=" at the front is removed |
| Middleware.SanitizeInput | middleware.ts:14-20 | the result has no white space at either end |
| Middleware.SanitizeShrinks | middleware.ts:14-20 | sanitising never lengthens the input nor adds characters |
| Middleware.SanitizeWithoutTagsOrHandlers | middleware.ts:15-19 | for text without tags or handlers the passes reduce to removing "javascript:" and trimming, in that order |
| Middleware.ProtocolRemovedOnce | middleware.ts:17 | the single left-to-right pass turns "javajavascript:script:" into "javascript:" |
| Middleware.SanitizeNotIdempotent | middleware.ts:14-20 | sanitising "javajavascript:script:" gives "javascript:", and sanitising that gives "" |
| Middleware.Compile | middleware.ts:45 | `new RegExp` fails exactly for a keyword that starts with "*"; a keyword without "*" is a literal |
| Middleware.RemoveEveryCI | middleware.ts:44-47 | removes every occurrence of one character in either case and keeps all other characters |
| Middleware.ApplyKeywordsFails | middleware.ts:43-47 | once any keyword fails to compile, the whole forEach fails |
| Middleware.SlashStarDeletesSlashes | middleware.ts:38 | the "/*" entry compiles to "zero or more slashes" and deletes every "/" while keeping all other characters |
| Middleware.PreventSqlInjection | middleware.ts:23-50 | the function as written fails for every input because the "*/" entry is not a valid pattern |
| Middleware.PreventSqlInjectionEscaped | middleware.ts:23-50 | with the keywords taken literally, the result only loses characters and never contains ";" |
| Middleware.EscapedRemovesSemicolons | middleware.ts:37 | the literal ";" keyword leaves no ";" behind, whatever the later keywords remove |
| FormLists.AddEntry | components/skills/project-upload.tsx:101-107 | the list grows by the trimmed input exactly when that is non-empty and absent; the input is cleared only then |
| FormLists.RemoveEntry | components/skills/project-upload.tsx:109-112 | every occurrence of the entry is removed and all others keep their multiplicity |
| FormLists.AddEntryKeepsClean | app/profile/page.tsx:284-290 | adding keeps the list duplicate-free and made of trimmed, non-empty entries |
| FormLists.RemoveEntryKeepsClean | app/profile/page.tsx:292-295 | removing keeps the list duplicate-free and made of trimmed, non-empty entries |
| FormLists.RemoveUndoesAdd | components/videos/video-upload.tsx:299-310 | removing the entry just added gives the previous list back |
| FormLists.AddEntryTwice | components/videos/video-upload.tsx:299-305 | adding the same input twice is the same as adding it once |
| FormLists.AddEntryUncapped | app/profile/page.tsx:284-290 | adding a new value always grows the list by one; there is no cap in the handler |
| Chunking.Min | components/skills/project-upload.tsx:159 | `Math.min`: the result is one of its arguments and at most both |
| Chunking.ChunksTile | components/skills/project-upload.tsx:139-174 | the chunk list tiles [lo, hi): contiguous, non-empty, at most one chunk size each, from lo to hi |
| Chunking.ChunksCount | components/skills/project-upload.tsx:140 | there are ceil((hi − lo) / chunk size) chunks |
| Chunking.ChunksAt | components/skills/project-upload.tsx:157-160 | chunk i is [lo + i·c, min(lo + (i+1)·c, hi)) |
| Chunking.TilesOrdered | components/skills/project-upload.tsx:157-160 | chunks of a tiling are disjoint and ordered |
| Chunking.TilesCover | components/skills/project-upload.tsx:157-160 | every byte of [lo, hi) lies in some chunk |
| Chunking.TilesTotal | components/videos/video-upload.tsx:128-149 | the chunk lengths add up to hi − lo |
| ProjectUpload.SchemaAccepts | components/skills/project-upload.tsx:23-28 | the schema accepts exactly: title 1..100, description 10..1000, a non-empty category and 1..10 tags (images are not part of the schema) |
| ProjectUpload.FieldErrorRules | components/skills/project-upload.tsx:115-134 | title 1..100; description error over 1000 chars, else under 10; images error for none or over 5; other fields have no rule |
| ProjectUpload.FieldKeyInjective | components/skills/project-upload.tsx:115-134 | each field stores its error under its own key, so validating one field never writes another's entry |
| ProjectUpload.FieldErrorAgreesWithSchema | components/skills/project-upload.tsx:115-134 | the field validator and the schema agree on title, description and images |
| ProjectUpload.MergeErrors | components/skills/project-upload.tsx:133 | new errors are merged in; no key is ever removed and other keys keep their messages |
| ProjectUpload.CorrectedFieldKeepsError | components/skills/project-upload.tsx:133 | validating a corrected field leaves its old error in the map |
| ProjectUpload.RemoveAt | components/skills/project-upload.tsx:90-99 | exactly position i is dropped and the rest keep their order; an index out of range changes nothing |
| ProjectUpload.PlanUpload | components/skills/project-upload.tsx:138-174 | files over 50 MiB get a multipart plan of 5 MiB parts numbered from 1 that tile [0, size); smaller files get one upload |
| ProjectUpload.ProjectUploadForm.constructor | components/skills/project-upload.tsx:43-53 | the form starts empty: no images, previews, tags or errors |
| ProjectUpload.ProjectUploadForm.HandleImageUpload | components/skills/project-upload.tsx:71-88 | files are appended with one preview each exactly when the total stays at most 5; otherwise nothing changes |
| ProjectUpload.ProjectUploadForm.RemoveImage | components/skills/project-upload.tsx:90-99 | position i is removed from both images and previews, keeping them paired |
| ProjectUpload.ProjectUploadForm.AddTag | components/skills/project-upload.tsx:101-107 | the tag list and input change as `AddEntry` prescribes |
| ProjectUpload.ProjectUploadForm.RemoveTag | components/skills/project-upload.tsx:109-112 | the tag list changes as `RemoveEntry` prescribes |
| ProjectUpload.ProjectUploadForm.ValidateField | components/skills/project-upload.tsx:115-135 | returns true iff the field has no error, and merges the error into the map |
| ProjectUpload.ProjectUploadForm.Submit | components/skills/project-upload.tsx:196-253 | no images stops before any upload; an upload failure creates nothing; success posts the uploaded URLs and resets the form; uploading ends in every other case |
| VideoUpload.SchemaAccepts | components/videos/video-upload.tsx:21-25 | the schema accepts exactly: title 1..100, description at most 500, at most 10 tags |
| VideoUpload.ValidateVideo | components/videos/video-upload.tsx:73-95 | a duration is accepted iff 15 <= d <= 60; below 15 is too short |
| VideoUpload.CheckVideoFile | components/videos/video-upload.tsx:170-192 | a file is selected iff its type starts with "video/" and it is at most 100 MiB |
| VideoUpload.Round | components/videos/video-upload.tsx:362 | `Math.round` gives the integer within half a unit (halves round up) |
| VideoUpload.VideoUploadForm.constructor | components/videos/video-upload.tsx:36-50 | the form starts with nothing selected, no tags, no upload id and not paused |
| VideoUpload.VideoUploadForm.HandleVideoSelect | components/videos/video-upload.tsx:170-197 | a rejected file leaves the selection unchanged; an accepted one is selected with its preview |
| VideoUpload.VideoUploadForm.OnMetadataLoaded | components/videos/video-upload.tsx:199-215 | the duration is recorded; an invalid duration clears the selection |
| VideoUpload.VideoUploadForm.OnThumbnailsGenerated | components/videos/video-upload.tsx:229-232 | the options are stored and the third one is preselected ("" when there is none) |
| VideoUpload.VideoUploadForm.SelectThumbnail | components/videos/video-upload.tsx:490 | the chosen thumbnail becomes the selection |
| VideoUpload.VideoUploadForm.TogglePause | components/videos/video-upload.tsx:582 | the pause flag flips |
| VideoUpload.VideoUploadForm.AddTag | components/videos/video-upload.tsx:299-305 | the tag list and input change as `AddEntry` prescribes |
| VideoUpload.VideoUploadForm.RemoveTag | components/videos/video-upload.tsx:307-310 | the tag list changes as `RemoveEntry` prescribes |
| VideoUpload.VideoUploadForm.RemoveVideo | components/videos/video-upload.tsx:312-325 | the selection, previews, thumbnails, playing flag and duration are all cleared |
| VideoUpload.SendChunks | components/videos/video-upload.tsx:120-149 | the chunks sent are the 1 MiB tiling of [existing, size), in order; a paused loop sends nothing; a failed chunk request stops the loop, leaving a proper prefix sent; otherwise the byte count ends at size |
| VideoUpload.VideoUploadForm.ResumableUpload | components/videos/video-upload.tsx:98-168 | an existing id is reused, otherwise the init id is stored, and a thrown init request ends the upload with the id untouched; a thrown status request sends nothing; chunks are sent in order until one fails; a paused upload sends nothing and never finalises; a thrown finalize comes after every chunk and keeps the id; success covers [existing, size) and clears the id |
| VideoUpload.VideoUploadForm.Submit | components/videos/video-upload.tsx:327-400 | nothing is uploaded without a video and a thumbnail; publishing happens iff the session starts, the status, every chunk, the finalize, the thumbnail and the POST succeed; the body carries the rounded duration and the tags; uploading and pause are reset; after a failed or paused video upload the id is the one stored before or the new init id, and it is cleared once the video is up; short of publishing, the selection, previews, thumbnails, duration and dialog keep their values; the tag input is never touched |
| VideoUpload.VideoUploadForm.AfterUpload | components/videos/video-upload.tsx:339-395 | a failed video upload or thumbnail upload ends the submit; otherwise the POSTed body carries the title, the description ("" when absent), both URLs, the rounded duration and the tags, and only a successful POST resets the form and opens the success dialog |
| VideoUpload.ResumedChunksCoverRest | components/videos/video-upload.tsx:128-149 | resuming at a byte offset sends chunks that tile the remainder exactly |
| Profile.UsernamePatternChars | app/profile/page.tsx:31 | the username pattern matches exactly the non-empty strings of [A-Za-z0-9_] |
| Profile.UsernameRule | app/profile/page.tsx:28-32 | a username has no issue iff it has 3..20 characters, all from [A-Za-z0-9_] |
| Profile.SchemaAccepts | app/profile/page.tsx:26-40 | the schema accepts exactly: fullName 2..50, a valid username, bio at most 500, location at most 100, at most 20 skills |
| Profile.ProfileForm.constructor | app/profile/page.tsx:111-116 | the form starts with no skills and an empty input |
| Profile.ProfileForm.AddSkill | app/profile/page.tsx:284-290 | the skill list and input change as `AddEntry` prescribes |
| Profile.ProfileForm.RemoveSkill | app/profile/page.tsx:292-295 | every occurrence of the skill is removed and the input is kept |
| Profile.SkillCapOnlyInSchema | app/profile/page.tsx:39 | a 21st skill is accepted by the handler and only the schema reports it |
| Notifications.CountUnread | components/notifications/notifications.tsx:29 | the number of unread items never exceeds the list length |
| Notifications.MarkRead | components/notifications/notifications.tsx:103-105 | only items with the id become read; the others are unchanged |
| Notifications.MarkAllRead | components/notifications/notifications.tsx:120 | every item becomes read |
| Notifications.WithoutId | components/notifications/notifications.tsx:135 | exactly the items with other ids remain |
| Notifications.Find | components/notifications/notifications.tsx:137 | `find` returns an item with the id, or none when no item has it |
| Notifications.FindFirst | components/notifications/notifications.tsx:137 | `find` returns the first item with the id |
| Notifications.BadgeText | components/notifications/notifications.tsx:201-206 | the badge is shown iff the count is positive, and reads "99+" above 99 |
| Notifications.BadgeReadsBack | components/notifications/notifications.tsx:206 | for counts 1..99 the badge text reads back as the count |
| Notifications.ClickTargetRules | components/notifications/notifications.tsx:170-191 | like and comment go to the project if any, else the video; follow to the user; message to the conversation; other kinds do not navigate |
| Notifications.Inbox.constructor | components/notifications/notifications.tsx:28-30 | the inbox starts empty, at count 0 and closed |
| Notifications.Inbox.Load | components/notifications/notifications.tsx:79-92 | a signed-in, successful fetch replaces the list and the count; anything else changes nothing |
| Notifications.Inbox.OnNotification | components/notifications/notifications.tsx:53-56 | the item is prepended and the count rises by 1 whatever its read flag |
| Notifications.Inbox.MarkAsRead | components/notifications/notifications.tsx:96-111 | on success the item is marked read and the count drops to max(0, count − 1); on failure nothing changes |
| Notifications.Inbox.MarkAllAsRead | components/notifications/notifications.tsx:113-126 | on success every item is read and the count is 0; on failure nothing changes |
| Notifications.Inbox.Delete | components/notifications/notifications.tsx:128-144 | on success the id's items are removed from the current list, and the count drops by 1 iff the first match in the render-time list was unread; when no update landed in between that is the current list; on failure nothing changes |
| Notifications.Inbox.Click | components/notifications/notifications.tsx:163-194 | it marks read only an unread item (on success the item is read and the counter drops to max(0, counter − 1)), closes the panel and navigates by the routing rules |
| Notifications.ReceiveUnreadKeepsCount | components/notifications/notifications.tsx:53-56 | prepending an unread item raises the true unread number by 1, in step with the counter |
| Notifications.ReceiveReadDrifts | components/notifications/notifications.tsx:53-56 | prepending an already read item leaves the true unread number unchanged while the counter rises |
| Notifications.MarkReadCount | components/notifications/notifications.tsx:103-106 | with unique ids, marking read lowers the true unread number by 1 exactly when that item was unread |
| Notifications.MarkReadMissing | components/notifications/notifications.tsx:103-105 | marking an absent id read changes no item |
| Notifications.MarkAllReadCount | components/notifications/notifications.tsx:120-121 | after marking all read nothing is unread |
| Notifications.DeleteCount | components/notifications/notifications.tsx:135-139 | with unique ids, deleting lowers the true unread number by 1 exactly when the deleted item was unread |
| Notifications.WithoutMissing | components/notifications/notifications.tsx:135 | deleting an absent id changes nothing |
| Notifications.DeleteCanGoNegative | components/notifications/notifications.tsx:96-144 | on an inbox of two unread items with counter 2, deleting the first while its mark-read request is still out, letting that request succeed, then deleting the second leaves the counter at −1: the mark-read decrement does not check that the item is still listed, and delete has no clamp |
| Notifications.DeleteReadsRenderedList | components/notifications/notifications.tsx:96-144 | one unread item with counter 1: a mark-read answer landing before the delete answer lowers the counter to 0, and the delete, deciding on the render-time list where the item is still unread, leaves −1 and an empty inbox |
| Forum.ReplaceById | components/skills/community-forum.tsx:92-94 | every thread with the id is replaced and the others are kept, at the same positions |
| Forum.BumpComments | components/skills/community-forum.tsx:100-102 | only threads with the id get one more comment |
| Forum.SetLikes | components/skills/community-forum.tsx:161-162 | only threads with the id take the server's like count |
| Forum.FilteredThreads | components/skills/community-forum.tsx:169-172 | "all" shows every thread; any other tab shows exactly the threads of that category |
| Forum.FilteredAppend | components/skills/community-forum.tsx:169-172 | filtering preserves order: it distributes over concatenation |
| Forum.BumpCommentsTotal | components/skills/community-forum.tsx:100-102 | the comment total grows by the number of threads with the id |
| Forum.Ids | components/skills/community-forum.tsx:66 | lists the thread ids in order |
| Forum.UpdatesKeepIds | components/skills/community-forum.tsx:92-102 | no update handler reorders, adds or removes threads |
| Forum.SetLikesOnlyMatching | components/skills/community-forum.tsx:161-162 | a like changes only the like count of the matching thread |
| Forum.TrimAll | components/skills/community-forum.tsx:369 | every piece is trimmed, in place |
| Forum.DropEmpty | components/skills/community-forum.tsx:370 | exactly the non-empty pieces remain |
| Forum.ParseTags | components/skills/community-forum.tsx:367-370 | every parsed tag is non-empty and is one of the trimmed comma-separated pieces |
| Forum.ParsedTagsClean | components/skills/community-forum.tsx:367-370 | parsed tags are non-empty and already trimmed |
| Forum.ParseTagsJoin | components/skills/community-forum.tsx:367-370 | parsing a ","-join of clean tags gives those tags back, in order |
| Forum.ThreadForm.constructor | components/skills/community-forum.tsx:345-348 | the thread form starts empty |
| Forum.ThreadForm.Submit | components/skills/community-forum.tsx:352-394 | it sends iff the trimmed title, the trimmed content and the category are all non-empty; it sends the parsed tags; success clears the form |
| Forum.CommentBox.constructor | components/skills/community-forum.tsx:467 | the comment box starts empty |
| Forum.CommentBox.Submit | components/skills/community-forum.tsx:470-496 | it sends the trimmed text iff that text is non-empty; success clears the box |
| Forum.ForumPage.constructor | components/skills/community-forum.tsx:66-70 | no threads, no selection, no comments, tab "all" |
| Forum.ForumPage.SetTab | components/skills/community-forum.tsx:113-126 | the tab is set and a successful fetch replaces the threads |
| Forum.ForumPage.OnThreadCreated | components/skills/community-forum.tsx:84-85 | the new thread is prepended |
| Forum.ForumPage.OnThreadUpdated | components/skills/community-forum.tsx:92-94 | threads with the id are replaced in place |
| Forum.ForumPage.OnCommentCreated | components/skills/community-forum.tsx:96-103 | the counts of the matching threads rise, and the comment is appended iff the open thread matches |
| Forum.ForumPage.LikeThread | components/skills/community-forum.tsx:155-167 | a successful like sets the server count on the matching thread only |
| Forum.ForumPage.OpenThread | components/skills/community-forum.tsx:128-145 | the thread is selected and a successful fetch replaces the comments |
| Forum.ForumPage.CloseThread | components/skills/community-forum.tsx:254 | the selection is cleared |
| Forum.ForumPage.OnCommentAdded | components/skills/community-forum.tsx:255 | the comment is appended |
| TimeAgo.BucketByMinutesMeaning | app/following/page.tsx:232-247 | whole minutes: under 1 is "just now", under 60 minutes, under 24 hours, under 7 days, else the date; each count is the floored quotient |
| TimeAgo.BucketByHoursMeaning | app/explore/page.tsx:250-260 | whole hours: under 1 (including the future) is "just now", never minutes, under 24 hours, under 7 days, else the date |
| TimeAgo.VariantsAgreeFromOneHour | app/activity/page.tsx:114-129 | from one hour on, the hour-based and minute-based labels agree; below it the hour-based one says "just now" |
| TimeAgo.FormatTimeAgoJustNow | app/following/page.tsx:236 | the minute-based label is "Vừa xong" exactly under one minute |
| TimeAgo.FormatTimeAgoHoursJustNow | app/explore/page.tsx:255 | the hour-based label is "Vừa xong" exactly under one hour |
| Content.KindName | app/following/page.tsx:117-133 | the type names are non-empty, dash-free and start with different letters |
| Content.LikeKeyInjective | app/following/page.tsx:100 | "type-id" like keys identify the content: equal keys mean the same type and id |
| Content.DetailLinkRoundTrip | app/explore/page.tsx:320 | a detail link parses back to its kind and id |
| Content.DetailLinkInjective | app/explore/page.tsx:320 | different contents have different detail links |
| Explore.Badge | app/explore/page.tsx:279 | the badge reads "Dự án" exactly for projects and "Video" exactly for videos |
| Explore.CardConsistent | app/explore/page.tsx:262-320 | a card's link leads to its own content, and its badge names its kind |
| Following.LikedKeys | app/following/page.tsx:100 | the like set holds exactly the "type-id" keys of the user's like rows, and is empty without rows |
| Following.LikedKeysExact | app/following/page.tsx:100-131 | an item counts as liked iff a like row has its type and id |
| Following.ViewsOrZero | app/following/page.tsx:113 | `views_count \|\| 0` |
| Following.ToItems | app/following/page.tsx:103-134 | each row becomes one item, in order; a missing result gives none |
| Following.BuildFeed | app/following/page.tsx:49-52 | with no followed users the feed is empty |
| Following.FeedSortedPermutation | app/following/page.tsx:100-138 | the feed is the projects and videos together, newest first |
| Following.FeedStable | app/following/page.tsx:138 | items with the same timestamp keep the projects-then-videos order |
| Following.FeedItems | app/following/page.tsx:103-134 | every feed item starts at 0 likes and 0 comments and is liked iff the user has a like row for it |
| Following.ApplyPatch | app/following/page.tsx:162-167 | the update merges into every item with the same id and type; others are unchanged |
| Following.ApplyPatchIdempotent | app/following/page.tsx:162-167 | applying an update twice is the same as once, and ids and types never change |
| Following.FindItem | app/following/page.tsx:182 | finds an item with that id and type, or reports none |
| Following.ToggleLike | app/following/page.tsx:203-216 | the matching items flip isLiked and move likes by ±1; the others are unchanged |
| Following.ToggleLikeTwice | app/following/page.tsx:203-216 | liking twice restores the list |
| Following.FindAfterToggle | app/following/page.tsx:203-216 | after a toggle the found item is the toggled version of the one found before |
| Following.FollowingPage.constructor | app/following/page.tsx:31-33 | empty content, loading |
| Following.FollowingPage.Refresh | app/following/page.tsx:37-147 | signed out changes nothing; signed in stores the built feed and ends loading |
| Following.FollowingPage.OnNewContent | app/following/page.tsx:157-160 | the item is prepended |
| Following.FollowingPage.OnContentUpdated | app/following/page.tsx:162-167 | the update is applied to the matching items |
| Following.FollowingPage.Like | app/following/page.tsx:178-230 | signed out, or with no match in the render-time list, nothing changes or is sent; otherwise the matching items of the current list toggle, and the like row is deleted or inserted and `content_liked` carries the negation, both by the render-time item's state |
| Paging.GetOr | app/api/projects/route.ts:9-14 | `get(name) \|\| default`: a present, non-empty value, else the default |
| Paging.IntParamReads | app/api/projects/route.ts:9-10 | an absent parameter reads as its default; a printed integer reads back as itself |
| Paging.PageWindow | app/api/projects/route.ts:39-40 | the window from (page−1)·limit to from+limit−1 holds exactly limit rows |
| Paging.RangeBounds | app/api/videos/route.ts:44-46 | the bounds are the window for finite numbers, and NaN when page or limit is NaN |
| Paging.WindowsAdjacent | app/api/videos/route.ts:44-45 | the next page starts right after the previous one ends |
| Paging.WindowsDisjoint | app/api/videos/route.ts:44-45 | windows of different pages do not overlap |
| Paging.WindowOfRow | app/activity/page.tsx:69-70 | every row index falls inside the window of page index/limit + 1 |
| Paging.TotalPages | app/api/projects/route.ts:55 | `Math.ceil((count \|\| 0) / limit)` is a non-negative integer for a positive limit, and NaN for a NaN limit |
| Paging.TotalPagesCover | app/api/projects/route.ts:53-55 | a missing count gives 0 pages; every row's page lies between 1 and the page total |
| Paging.ListAnswer | app/api/videos/route.ts:50-61 | a query error answers 500 with its message; otherwise the rows with page, limit, `count \|\| 0` and the page total |
| QueryString.Pieces | components/videos/video-feed.tsx:38 | each pair becomes its "name=value" piece, in order |
| QueryString.PairOfPiece | components/videos/video-feed.tsx:38 | a piece of plain text reads back as its name and value |
| QueryString.QueryRoundTrip | app/api/videos/route.ts:8-12 | `searchParams.get` on a built query finds each first value by name, and no names that were not there |
| Activity.FilterKey | app/activity/page.tsx:39 | every filter key has at least three letters |
| Activity.TypeFilter | app/activity/page.tsx:64-66 | "all" adds no type filter; any other filter is its key minus the last letter |
| Activity.TypeFilterValues | app/activity/page.tsx:64-66 | likes, comments, uploads and follows give like, comment, upload and follow |
| Activity.ActivityQueryShape | app/activity/page.tsx:42-108 | a type equality is present iff the filter is not "all"; there is one descending created_at order; the 20-row range comes last |
| Activity.NavigationStaysInRange | app/activity/page.tsx:318-346 | Prev and Next stay within 1..total, stop at the ends, and Next undoes Prev |
| Activity.NextWithZeroPages | app/activity/page.tsx:102 | with no count the total is 0, and Next from page 1 goes to page 0 |
| Activity.PageButtons | app/activity/page.tsx:327-328 | the numbered buttons are pages 1..min(5, total) |
| Activity.Noun | app/activity/page.tsx:148-163 | "dự án" for project content, "video" otherwise |
| Activity.ActivityText | app/activity/page.tsx:148-163 | follow and unknown types have fixed sentences |
| Activity.ActivityTextNoun | app/activity/page.tsx:148-163 | for the content types two sentences agree iff both or neither are about a project |
| Activity.ActivityPage.constructor | app/activity/page.tsx:35-39 | no rows, loading, page 1 of 1, filter "all" |
| Activity.ActivityPage.Fetch | app/activity/page.tsx:42-108 | signed out changes nothing; otherwise the query for the current filter and page is issued and the total comes from the count |
| Activity.ActivityPage.SetFilter | app/activity/page.tsx:268-271 | changing the filter resets to page 1 |
| Activity.ActivityPage.Prev | app/activity/page.tsx:318 | the page becomes max(1, page − 1) |
| Activity.ActivityPage.Next | app/activity/page.tsx:346 | the page becomes min(total, page + 1) |
| Activity.ActivityPage.GoToPage | app/activity/page.tsx:332 | a numbered button selects its page |
| Activity.PaginationNeverShown | app/activity/page.tsx:310 | no handler stores rows, so the pagination bar never shows |
| VideosApi.ParseParamsDefaults | app/api/videos/route.ts:9-12 | the defaults are page 1, limit 10, type "for-you", no user |
| VideosApi.BuildQuery | app/api/videos/route.ts:25-46 | `QueryFor`: "trending" filters is_trending and orders by trending_score; every other type orders by created_at, both descending; the user filter applies iff a user id is given; the range comes last |
| VideosApi.Get | app/api/videos/route.ts:6-65 | the query holds everything `BuildQuery` promises for the parsed parameters (`QueryFor`): the feed-type ordering, the trending filter iff "trending", the user_id filter iff a user id is given, and the range last; the answer follows `ListAnswer` |
| ProjectsApi.ParseParamsDefaults | app/api/projects/route.ts:9-14 | the defaults are page 1, limit 12, sortBy "created_at", order "desc" |
| ProjectsApi.BuildQuery | app/api/projects/route.ts:16-41 | `QueryFor`: the category filter applies iff present and not "all"; the user filter iff given; one order, ascending iff order is "asc"; the range comes last |
| ProjectsApi.Get | app/api/projects/route.ts:6-61 | the query holds everything `BuildQuery` promises for the parsed parameters (`QueryFor`): the category filter iff present and not "all", the user filter iff given, one order, and the range last; the answer follows `ListAnswer` |
| ProjectsApi.Post | app/api/projects/route.ts:63-107 | no session gives 401 and no insert; a falsy title, description or category gives 400; the inserted row takes the session user, the body's title, description and category, [] defaults for images and tags, and "active"; success answers 201 with the row |
| ProjectsApi.InsertOnlyWhenAuthorizedAndComplete | app/api/projects/route.ts:65-78 | an insert happens iff there is a session user and all three fields are present |
| ProjectSearchApi.SortOrder | app/api/projects/search/route.ts:35-50 | oldest is created_at ascending, most-liked likes_count, most-viewed views_count, and anything else created_at descending |
| ProjectSearchApi.FilterCalls | app/api/projects/search/route.ts:20-32 | text search iff the query is non-blank (sent untrimmed); `in` iff categories are non-empty; `overlaps` iff tags are non-empty |
| ProjectSearchApi.OrderingCall | app/api/projects/search/route.ts:35-50 | exactly one ordering is applied |
| ProjectSearchApi.BuildQuery | app/api/projects/search/route.ts:9-50 | `QueryFor`: each filter call exactly when its input is given, and the single ordering last |
| ProjectSearchApi.Post | app/api/projects/search/route.ts:4-61 | a missing body or filters object gives 500 and no query; otherwise the query holds everything `BuildQuery` promises (`QueryFor`): the text search on the untrimmed query iff it is non-blank, the `in` and `overlaps` filters iff their lists are non-empty, and the one ordering last; a query error gives 500 |
| SearchApi.ListParam | app/api/search/route.ts:30-31 | an absent list parameter gives the default; a present one gives at least one piece |
| SearchApi.ParseRequest | app/api/search/route.ts:26-38 | the request never carries a date range |
| SearchApi.ParseRequestDefaults | app/api/search/route.ts:26-38 | the defaults are q "", page 1, limit 20, no categories or tags, all three types, sort "relevance" |
| SearchApi.ListParamReads | app/api/search/route.ts:30-31 | an empty parameter gives [""], and a ","-joined list reads back as its parts |
| SearchApi.MustForMeaning | app/api/search/route.ts:84-97 | match_all iff the query is blank; otherwise multi_match on the untrimmed query |
| SearchApi.FilterClausesShape | app/api/search/route.ts:100-130 | one clause per non-empty list plus the date; content_type first and the date range last |
| SearchApi.SortFor | app/api/search/route.ts:133-150 | "_score" iff sortBy is not one of the four known values |
| SearchApi.PushFilters | app/api/search/route.ts:100-130 | the pushed clauses are exactly the filter clauses |
| SearchApi.BuildSearchBody | app/api/search/route.ts:49-150 | one must clause, the filter clauses, one sort entry, from (page−1)·limit and size limit |
| SearchApi.NoDateClause | app/api/search/route.ts:120-130 | without a date range only terms clauses are pushed |
| SearchApi.Get | app/api/search/route.ts:23-47 | the body is built from the parsed request and holds no date clause; since the query function returns `undefined`, the answer is always 500 with `{ error: "Search failed" }` |
| SearchApi.DocTypeName | app/api/search/route.ts:245 | the three type names are non-empty and start with different letters |
| SearchApi.IndexNamesDistinct | app/api/search/route.ts:247 | index names start with "genzskillboost_" and differ for different types |
| SearchApi.DeleteMatchesIndex | app/api/search/route.ts:266-279 | deletion addresses the index and id that indexing wrote, and no other type's index |
| SearchApi.DefaultTypeFilterMissesIndexedDocuments | app/api/search/route.ts:254 | a document's stored content_type is not in the default type filter |
| SearchApi.Singular | app/api/search/route.ts:32-36 | drops the plural "s" |
| SearchApi.StoredTypes | app/api/search/route.ts:32-36 | maps each requested type to its singular |
| SearchApi.StoredTypesMatchIndexedDocuments | app/api/search/route.ts:254 | the singular form of a requested type matches the stored content_type, and the default list covers every type |
| VideoFeed.FirstFeedUrl | tests/video-feed.test.tsx:97 | the first request is "/api/videos?page=1&limit=10&type=for-you" |
| VideoFeed.FeedRequestReadByRoute | components/videos/video-feed.tsx:38 | the videos route reads the feed URL back as the page, limit 10, the feed type and no user |
| VideoFeed.CommentTargetIsDetailPage | components/videos/video-feed.tsx:145-148 | commenting navigates to "/videos/<id>", the video's detail page |
| VideoFeed.WithLike | components/videos/video-feed.tsx:108-113 | only the video with the id takes the new like count and flag |
| VideoFeed.WithLikeStable | components/videos/video-feed.tsx:108-113 | applying a like answer twice is the same as once, and an absent id changes nothing |
| VideoFeed.Feed.constructor | components/videos/video-feed.tsx:16-19 | the initial videos, not loading, more to come, page 1 |
| VideoFeed.Feed.StartFetch | components/videos/video-feed.tsx:32-38 | while loading nothing is requested; otherwise the feed URL is requested and loading begins |
| VideoFeed.Feed.FinishFetch | components/videos/video-feed.tsx:39-60 | a failure changes nothing; an empty page ends the feed; a non-empty page 1 replaces the list; later pages append; the page advances; loading ends |
| VideoFeed.Feed.LoadMore | components/videos/video-feed.tsx:64-68 | the next page is requested iff in view, more remain and no fetch is running |
| VideoFeed.Feed.HandleLike | components/videos/video-feed.tsx:101-122 | the like URL is called, and only a successful answer updates the video |
| ProjectSearch.SortedProjectsOrder | components/skills/project-search.tsx:95-115 | for the re-sort with comparators reading the returned columns: the result is a permutation; newest, oldest, most-liked and most-viewed order by their field; other values keep the order; ties keep their order |
| ProjectSearch.ClientSortAgreesWithServer | app/api/projects/search/route.ts:35-50 | with comparators reading the returned columns (the corrected re-sort), the client key for each sort choice is the route's order column with its direction, and a list the route already ordered comes back unchanged |
| ProjectSearch.Get | components/skills/project-search.tsx:103-110 | a property the row lacks reads as NaN, and only a row that has it yields a number |
| ProjectSearch.ClientCompare | components/skills/project-search.tsx:101-110 | only the four sort choices yield a number from the comparator |
| ProjectSearch.InsertRow | components/skills/project-search.tsx:99-112 | inserting a row keeps every row (a NaN or non-positive comparison puts it first) |
| ProjectSearch.ClientSortedRows | components/skills/project-search.tsx:96-115 | the re-sort as written is a permutation of the rows |
| ProjectSearch.ClientSortKeepsRouteRows | components/skills/project-search.tsx:99-112 | on rows carrying only the route's snake-case keys, every comparison is NaN and the re-sort leaves the server's order untouched, for every sort choice |
| ProjectSearch.RouteRowCompare | components/skills/project-search.tsx:101-110 | two route rows always compare as NaN |
| ProjectSearch.ClientSortIgnoresOrder | components/skills/project-search.tsx:101-102 | an older row before a newer one stays there under "newest" |
| ProjectSearch.Toggled | components/skills/project-search.tsx:117-122 | checking appends, even a duplicate; unchecking removes every occurrence |
| ProjectSearch.QuickToggleFlips | components/skills/project-search.tsx:212 | a quick tag flips membership, leaves other tags alone, keeps the list duplicate-free, and two presses restore it |
| ProjectSearch.RequestBodyFilters | components/skills/project-search.tsx:74-77 | the route adds a category filter iff categories are chosen and a tag filter iff tags are, and orders by the matching column |
| ProjectSearch.SearchPage.constructor | components/skills/project-search.tsx:51-60 | no query, no projects, no filters, sort "newest" |
| ProjectSearch.SearchPage.OnCategoryChange | components/skills/project-search.tsx:117-122 | the categories change as `Toggled` prescribes, and checking adds one to the active count |
| ProjectSearch.SearchPage.OnTagChange | components/skills/project-search.tsx:124-129 | the tags change as `Toggled` prescribes, and checking adds one to the active count |
| ProjectSearch.SearchPage.OnQuickTag | components/skills/project-search.tsx:212 | the quick filter flips the tag's membership |
| ProjectSearch.SearchPage.OnSortChange | components/skills/project-search.tsx:95-115 | only the sort order changes |
| ProjectSearch.SearchPage.ClearFilters | components/skills/project-search.tsx:131-137 | the filters are empty with sort "newest", and the active count is 0 |
| ProjectSearch.SearchPage.StartFetch | components/skills/project-search.tsx:65-77 | loading begins and the body carries the query and the current filters |
| ProjectSearch.SearchPage.FinishFetch | components/skills/project-search.tsx:79-88 | an answer replaces the projects, a failure keeps them, and loading ends |
| Socket.RoomNamesDistinct | lib/socket.ts:113 | user, conversation and thread rooms never share a name, and each id has its own room |
| Socket.RelayEvents | lib/socket.ts:327-355 | comment relays reuse the like events' names and id keys per content type; only thread comments go to a room; the rest go to everyone but the sender |
| Socket.Server.constructor | lib/socket.ts:60 | no connected users, nothing emitted or inserted |
| Socket.Connection.constructor | lib/socket.ts:66-77 | a fresh socket is unauthenticated, with empty presence and typing maps, no rooms and no pending timers |
| Socket.Connection.Authenticate | lib/socket.ts:80-125 | a failed lookup only emits auth_error; success overwrites the user's registration, marks them online, joins "user:<id>" and announces them to the others |
| Socket.Connection.UpdatePresence | lib/socket.ts:128-143 | the status and last-seen change, and are broadcast, only when the socket is authenticated and has its own presence entry |
| Socket.Connection.JoinRoom | lib/socket.ts:146-149 | the room is joined |
| Socket.Connection.LeaveRoom | lib/socket.ts:151-154 | the room is left |
| Socket.Connection.SendNotification | lib/socket.ts:157-186 | the row, with the sender's `data` passed through, is inserted, and it is sent to the user's room only when the insert returns it |
| Socket.Connection.SendMessage | lib/socket.ts:189-246 | an unknown sender gets an error and nothing is inserted; an insert failure gets an error; success goes to the conversation room, with a notification only when the receiver is connected |
| Socket.Connection.TypingStart | lib/socket.ts:249-274 | the user joins the conversation's typing set, the others are told, and a 3 s removal is queued that nothing cancels |
| Socket.Connection.TypingTimeoutFires | lib/socket.ts:265-273 | the oldest timer removes its user from the set and tells the others typing stopped |
| Socket.Connection.TypingStop | lib/socket.ts:276-286 | the user leaves the set and the others are told, even if the user was not typing |
| Socket.Connection.NewFollower | lib/socket.ts:289-324 | with a known follower, a follow notification carrying the follower's id, username and avatar is inserted and sent to the followed user's room; otherwise nothing happens |
| Socket.Connection.OnRelay | lib/socket.ts:327-355 | each relayed event becomes its one emit |
| Socket.Connection.Disconnect | lib/socket.ts:358-366 | an authenticated socket removes its user's registration and presence and broadcasts user_offline, even if another socket of that user is live |

## Left out

- Network and database I/O (`fetch`, Supabase, Elasticsearch, S3, the resumable-upload endpoints): each becomes a parameter carrying success or failure and the returned data.
- The Upstash rate limiter and `logRequest` in middleware.ts: an external service and console logging.
- DOM and media work: canvas thumbnails, players, `preloadImage`/`preloadVideo`, intersection observers, share and clipboard. `OnThumbnailsGenerated` receives the generated URLs.
- Floating point: upload progress percentages and the division behind `Math.round(videoDuration)`. `VideoUpload.Round` takes a real duration.
- JavaScript numbers are modelled as unbounded integers. This affects the following members:
  - CloudFront.ImageParams, CloudFront.ImageParamsLookup, CloudFront.DoubleWidth and CloudFront.SrcSetTwoXWidth take integer widths, heights and qualities, so a fractional width such as 400.5, which prints as "400.5", is not covered.
  - JsString.ParseIntOfIntToString and Paging.IntParamReads claim an exact round trip through `parseInt`. For an integer beyond 2^53 the double that `parseInt` returns loses precision, so the round trip does not hold there.
- Dates: timestamps and their differences are integers in milliseconds. `toLocaleDateString` is an opaque string parameter.
- String lengths count characters, whereas JavaScript counts UTF-16 code units. The two differ for text outside the Basic Multilingual Plane.
- Case-insensitive matching folds ASCII letters only, which is what a non-Unicode JavaScript regular expression does for these ASCII patterns.
- Zod's URL checks on the profile links, and react-hook-form plumbing.
- QueryString.QueryRoundTrip: it is stated for names and values that need no percent-encoding, since the model builds and parses queries without it.
- Elasticsearch highlight and aggregation settings, and the commented-out response shaping. The search GET therefore never answers with hits: the query function returns `undefined`, serializing it throws, and the catch answers 500.
- Socket transport, room delivery and real timers. Emits are appended to an outbox, and typing timeouts fire oldest first. Each socket handler is applied atomically, without the interleaving of its awaits.
- Client-side stores: each state update applies to the state current when it lands, as React's updater functions do. A value a handler reads from its render across an await is a parameter (`rendered` in Notifications.Inbox.Delete and Following.FollowingPage.Like). The other store handlers read state only before their first await, or through updater functions. The upload form's pause flag is covered by the ResumableUpload line below.
- VideoUpload.VideoUploadForm.ResumableUpload: an init reply without `uploadId` (which leaves the id `undefined` and sends the status request for it) is not modelled; the init request either returns a string id or throws.
- VideoUpload.VideoUploadForm.ResumableUpload: pausing is read once when the call starts (VideoUpload.SendChunks takes it as a constant). The loop reads the render-time value of `uploadPaused`, so a pause pressed during the upload cannot stop it.
- `new URL(request.url)` failures in the routes: the routes receive already parsed parameters.
- Pure presentation components and commented-out plumbing (profile load and save, explore fetch, the skills-community page).

## Findings

| source | as written | input that shows it | evidently intended | confidence | as-written member | corrected member |
|---|---|---|---|---|---|---|
| middleware.ts:39-45 | the keyword "*/" is passed to `new RegExp`, which throws because "*" has nothing to repeat | any input, for example "" | the keywords escaped or matched literally, so that ";" and comment markers are removed | not executed | Middleware.PreventSqlInjection | Middleware.PreventSqlInjectionEscaped |
| components/skills/project-search.tsx:99-112 | the comparators read `createdAt`, `likesCount` and `viewsCount`, while the search route returns the rows of the `projects` table under their column names `created_at`, `likes_count` and `views_count` (types/database.ts:46-60), so every comparison is NaN, which the sort treats as 0 | the rows [{created_at: 1}, {created_at: 2}] under "newest" stay in that order | the comparators read the columns the route returns, giving the route's own order | not executed | ProjectSearch.ClientSortKeepsRouteRows | ProjectSearch.ClientSortAgreesWithServer |
| app/api/search/route.ts:32-36 | the default type filter is ["projects", "videos", "users"], while indexing stores the content_type "project", "video" or "user" (line 254) | a GET without "type" against any indexed document | the filter uses the singular type names that indexing stores | not executed | SearchApi.DefaultTypeFilterMissesIndexedDocuments | SearchApi.StoredTypesMatchIndexedDocuments |
