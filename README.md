# cheater-4u: a Dafny model of its core

cheater-4u is a Next.js site where players report Steam profiles they suspect
of cheating, attach evidence (video links, screenshots, written descriptions)
and discuss each profile in threaded comments. This project models, in Dafny,
the parts of the site that carry its rules:

- **Comment threading and vote tally** (`getUserComments`). The flat,
  oldest-first list of comment rows becomes a forest of replies. Each comment
  gets its like and dislike counts and the viewer's own vote. The model is
  imperative: the two loops become methods with invariants, and JavaScript
  object references become indices into an arena of nodes.
- **Submission actions** (`submitEvidenceAction`,
  `submitProfileReportAction`). They write to an abstract database: a class
  holding the `profiles`, `reports` and `evidence` tables. Each action is a
  method proved equal to a specification function. The properties of the
  actions are lemmas about those functions: what is written, what is kept
  when a later step fails, and duplicate profiles.
- **Steam ids** (`getSteamIDsFromProfileUrl`, `convert64to32`,
  `resolveVanityURL`, `fetchSteamUserSummary`, `fetchSteamBans`). This covers
  the two link patterns, `BigInt` reading, the id offset, and the error
  messages.
- **Evidence rules and embed addresses** (`parseEvidenceFields`,
  `getYouTubeVideoId`, the thumbnail providers). The video-id regular
  expression is modelled exactly: the greedy `^.*` makes the last marker on
  the first line win.
- **Client-side state and display rules**:
  - the like/dislike buttons, the comment and evidence lists kept in React
    state, and the evidence form, as classes whose methods update their
    fields;
  - the status badge, the header background and the standing bars;
  - the card grid, the table and the landing-page percentages;
  - the newest-first ordering of the evidence and report lists: a stable
    sort proved sorted, a permutation, and order-preserving among equal
    times.

Each source file of the core is one module. `Text` holds the JavaScript
string operations the source relies on (`includes`, `trim`, `split`, ASCII
case mapping, decimal text). `Store` holds the database tables. Clocks, the
network, hashing, `new URL` and `encodeURIComponent` are parameters of the
operations that use them.

## Model

| member | source | states |
|---|---|---|
| CommentThreads.VotesOrEmpty | app/profiles/actions.ts:79-83 | a failed vote fetch reads as no votes, a successful one as its rows |
| CommentThreads.CountVotes | app/profiles/actions.ts:91-93 | a comment's like or dislike count never exceeds the number of vote rows |
| CommentThreads.LikesPlusDislikes | app/profiles/actions.ts:91-93 | likes plus dislikes of a comment is the number of vote rows on it |
| CommentThreads.ViewerVote | app/profiles/actions.ts:94 | the viewer's vote is the kind of the first row the viewer cast on the comment, as `find` returns it; no viewer, or no such row, gives no vote |
| CommentThreads.BuildVoteMap | app/profiles/actions.ts:86-96 | every loaded comment has a map entry, and every entry is that comment's tally |
| CommentThreads.LastIndexOf | app/profiles/actions.ts:121-126 | `map.get` finds the latest row registered under the id, or nothing when no earlier row has it |
| CommentThreads.SlotOf | app/profiles/actions.ts:121-131 | a reply's parent comes no later than the reply itself (strictly earlier when the parent is looked up first) |
| CommentThreads.SlotMeaning | app/profiles/actions.ts:123-131 | a comment goes under the latest loaded comment whose id is its `parent_id`; with no parent, or a parent not yet loaded, it goes to the top level |
| CommentThreads.PlaceComment | app/profiles/actions.ts:103-132 | one pass of the threading loop extends the top-level list, the arena and the id map by exactly comment `i` |
| CommentThreads.NothingPlacedYet | app/profiles/actions.ts:99-100 | before the loop, the empty list, arena and map are the state after no comments |
| CommentThreads.PlaceAll | app/profiles/actions.ts:102-132 | after the loop, the top-level list, the arena and the id map are those of all the comments |
| CommentThreads.Thread | app/profiles/actions.ts:99-135 | the threading yields the forest of the rows: every node carries its row's fields and tally, and every list holds exactly the comments placed in it |
| CommentThreads.ForestComplete | app/profiles/actions.ts:133-135 | the loop's state after the last comment is the whole forest |
| CommentThreads.GetUserComments | app/profiles/actions.ts:49-136 | a failed comment fetch gives an empty list; otherwise the forest as written, with zero tallies when the vote fetch failed |
| CommentThreads.PlacedMembers | app/profiles/actions.ts:123-131 | a list contains exactly the comments whose slot it is |
| CommentThreads.PlacedOrdered | app/profiles/actions.ts:102-131 | every list keeps the comments oldest first |
| CommentThreads.PlacedOnce | app/profiles/actions.ts:123-131 | each comment appears in exactly one list, once |
| CommentThreads.SelfParentHidden | app/profiles/actions.ts:121-128 | as written, a comment that names itself as parent is not top-level and no path from the top level passes through it, so neither it nor any comment beneath it is shown |
| CommentThreads.SelfParentExample | app/profiles/actions.ts:121-131 | one self-parented comment: an empty thread as written, a one-comment thread once corrected |
| CommentThreads.GetUserCommentsFixed | app/profiles/actions.ts:99-135 | the corrected order: the parent is looked up before the comment is registered |
| CommentThreads.AllShown | app/profiles/actions.ts:99-135 | once corrected, every comment is reachable from the top level |
| CommentThreads.PathExtends | app/profiles/actions.ts:126-128 | a path followed by a reply of its last node is a path again, ending at that reply |
| CommentThreads.CommentCountBounds | app/profiles/actions.ts:148-151 | `comment_count` is at most the number of comments, and equal to it exactly when none is a reply |
| Store.FindProfile | app/reports/actions.ts:45-50 | the lookup by `steam_id_64` returns a row with that id, and returns none exactly when no row has it |
| Store.Upsert | app/reports/actions.ts:26-40 | the upsert fails on an error, is ignored exactly when the id is already stored, otherwise appends one row with the given ids and link; the unique-id invariant is kept |
| Store.UpsertIdempotent | app/reports/actions.ts:34-37 | upserting the same 64-bit id twice changes nothing the second time |
| Store.Database.constructor | app/reports/actions.ts:16 | a new client starts from empty, well-formed tables |
| Store.Database.UpsertProfile | app/reports/actions.ts:26-40 | the tables and the reply are those of the upsert specification |
| Store.Database.SelectProfile | app/reports/actions.ts:45-50 | a failed read returns nothing, otherwise the row stored under the id |
| Store.Database.InsertReport | app/reports/actions.ts:65-71 | an insert appends the row, or returns the error and leaves the tables unchanged |
| Store.Database.InsertEvidence | app/evidence/actions.ts:32-40 | an insert appends the row, or returns the error and leaves the tables unchanged |
| EvidenceActions.NullIfEmpty | app/evidence/actions.ts:36-37 | an empty text is stored as null, any other text as itself |
| EvidenceActions.GameOrNull | app/evidence/actions.ts:38 | the game is null exactly when it is missing or empty |
| EvidenceActions.EvidenceRowFor | app/evidence/actions.ts:32-40 | the row stores the parsed type; URL and content are null when empty; `steam_id_64` and `reporter` are null only when absent; the game is null when absent or empty |
| EvidenceActions.SubmitEvidenceSpec | app/evidence/actions.ts:11-50 | with no evidence fields it skips with its message; an insert error is returned as the error; success appends exactly one row; nothing is written unless it succeeds |
| EvidenceActions.SubmitEvidence | app/evidence/actions.ts:11-50 | the action's new tables and reply are those of its specification |
| EvidenceActions.StoredRowShape | app/evidence/actions.ts:22-40 | a stored row is a video, screenshot or description; it has a link exactly for the first two; other tables are unchanged |
| ReportActions.ParseEvidenceFields | app/reports/actions.ts:98-129 | the local parser finds no evidence exactly when the video link, the screenshot link and the description are all empty |
| ReportActions.LocalParseAgrees | app/reports/actions.ts:98-129 | the local copy parses every form exactly as the shared `parseEvidenceFields` |
| ReportActions.EvidenceRowFor | app/reports/actions.ts:152-158 | the local insert stores URL and content as null when empty and has no game and no reporter |
| ReportActions.SubmitEvidenceSpec | app/reports/actions.ts:136-169 | the local evidence action skips, fails with the insert error, or appends exactly one row |
| ReportActions.SubmitEvidence | app/reports/actions.ts:136-169 | the local action's new tables and reply are those of its specification |
| ReportActions.ProfileStepErrors | app/reports/actions.ts:25-66 | an upsert error becomes the reply with nothing written; when the re-read of a stored profile fails the reply is "Could not upsert profile." with nothing written; otherwise the report row is inserted |
| ReportActions.ProfileIdAfter | app/reports/actions.ts:42-54 | the id is the inserted row's; after an ignored upsert it is the stored profile's id; there is none after an upsert error or a failed re-read |
| ReportActions.FileReport | app/reports/actions.ts:60-81 | a report error writes nothing more; otherwise one report row with the hashed placeholder address is added, then the evidence; success exactly when both inserts succeed and the form names evidence |
| ReportActions.ReportResolved | app/reports/actions.ts:25-86 | each table grows by at most one row and keeps its old rows; new reports carry the hashed placeholder address; success adds one report and one evidence row; uniqueness of `steam_id_64` is kept |
| ReportActions.SubmitProfileReportSpec | app/reports/actions.ts:14-91 | an unresolvable link writes nothing and its message is the reply; otherwise the resolved steps run, with the same growth and invariant guarantees |
| ReportActions.SubmitProfileReport | app/reports/actions.ts:14-91 | the action's new tables and reply are those of its specification |
| ReportActions.SubmitResolved | app/reports/actions.ts:25-86 | the steps after the link resolved change the tables and reply as their specification says |
| ReportActions.SubmitReportRows | app/reports/actions.ts:60-81 | the report and evidence inserts change the tables and reply as their specification says |
| ReportActions.SubmittedRowsLinkProfile | app/reports/actions.ts:42-81 | after a success, the new report and evidence rows point at the profile stored under the resolved 64-bit id |
| ReportActions.FindInserted | app/reports/actions.ts:26-40 | a profile appended under a new id is found by the lookup |
| ReportActions.FindPrefix | app/reports/actions.ts:45-50 | a profile found in the tables is still found after more rows are appended |
| ReportActions.RejectedLinkWritesNothing | app/reports/actions.ts:19-23 | a link not starting with "http" changes no table and fails with the invalid-URL message |
| ReportActions.NoRollbackWithoutEvidence | app/reports/actions.ts:73-81 | a form without evidence fails with "Failed to insert evidence", yet the profile and the report row stay written |
| ReportActions.EvidenceErrorKeepsReport | app/reports/actions.ts:75-81 | an evidence insert error becomes the reply while the report row stays |
| ReportActions.ExistingProfileReused | app/reports/actions.ts:42-50 | reporting a stored profile adds no profile and files the report under the stored id |
| ReportActions.ResubmissionSharesProfile | app/reports/actions.ts:26-71 | the same report twice stores one profile and two identical reports |
| SteamApis.DigitValue | lib/steam/steamApis.ts:62 | a decimal digit has its usual value, and no character is worth more than 16 |
| SteamApis.BigIntOf | lib/steam/steamApis.ts:62 | text of decimal digits reads as its decimal value |
| SteamApis.ReadTrimmed | lib/steam/steamApis.ts:62 | digit text reads as its decimal value, and anything read starts with a digit or a sign |
| SteamApis.RadixPrefixRead | lib/steam/steamApis.ts:62 | trimmed text made of a `0x`, `0o` or `0b` prefix and digits of that base reads as their value in that base |
| SteamApis.HexPrefixRead | lib/steam/steamApis.ts:62 | the instance "0x10": it reads as sixteen |
| SteamApis.Convert64To32 | lib/steam/steamApis.ts:61-65 | the conversion throws exactly when `BigInt` cannot read the text, with the engine's message |
| SteamApis.ConvertRoundTrip | lib/steam/steamApis.ts:61-65 | for a digit string the 32-bit text reads back, plus the offset, as the 64-bit id |
| SteamApis.SmallIdsGoNegative | lib/steam/steamApis.ts:61-65 | there is no range check: ids below the offset give negative numbers |
| SteamApis.UnreadableIsNotANumber | lib/steam/steamApis.ts:61-65 | trimmed text whose first character is neither a digit nor a sign makes the conversion throw |
| SteamApis.Run | lib/steam/steamApis.ts:35 | a repeated group takes the longest run of accepted characters |
| SteamApis.FirstMatch | lib/steam/steamApis.ts:35 | `match` finds the leftmost position where the pattern matches, or none |
| SteamApis.Capture | lib/steam/steamApis.ts:35-43 | the capture is the non-empty, maximal run after the leftmost position where the pattern matches, with no match before it; there is none exactly when the pattern matches nowhere |
| SteamApis.ResolveVanity | lib/steam/steamApis.ts:71-89 | a reply that is ok and reports success 1 gives its `steamid`; anything else throws the resolve message |
| SteamApis.IdsFor | lib/steam/steamApis.ts:37-39 | the pair holds the 64-bit id and its conversion, or the conversion's error |
| SteamApis.GetSteamIds | lib/steam/steamApis.ts:17-55 | a link not starting with "http" is rejected; a result has a non-empty 64-bit id with its 32-bit conversion, and only a reachable link gives one |
| SteamApis.NumericProfileWins | lib/steam/steamApis.ts:34-40 | a reachable `/profiles/<digits>` link yields that digit run, whatever the vanity lookup would say |
| SteamApis.PatternOrder | lib/steam/steamApis.ts:34-54 | with neither pattern the format is unsupported; a vanity link fails when Steam does not resolve it, and otherwise uses the resolved id |
| SteamApis.VanityNonNumeric | lib/steam/steamApis.ts:43-52 | a vanity name resolving to text `BigInt` refuses makes the lookup fail with the conversion error |
| SteamApis.FirstPlayer | lib/steam/steamApis.ts:109-112 | the first player, or none exactly when the list is absent or empty |
| SteamApis.FetchSteamUserSummary | lib/steam/steamApis.ts:95-122 | a failed reply throws with its status text; an empty list gives null; otherwise the three fields of the first player, the country code absent when Steam leaves it out |
| SteamApis.FetchSteamBans | lib/steam/steamApis.ts:128-148 | a failed reply throws with its status text; otherwise the first ban record, or null |
| Utils.ParseEvidenceFields | lib/utils.ts:22-54 | video link before screenshot link before description, each as an if-and-only-if, with that kind's URL and content; all empty when none is given; a URL exactly for videos and screenshots |
| Utils.GamePrefix | lib/utils.ts:49-51 | the "Game:" line is added exactly when a game and content are both given, and the content reads back after it |
| Utils.LineEnd | lib/utils.ts:9 | the leading `.*` reaches up to the first line terminator |
| Utils.MarkerLength | lib/utils.ts:9 | a marker match has one of the six alternatives' lengths and lies within the text |
| Utils.LastMarker | lib/utils.ts:9 | the greedy `^.*` stops at the last position on the first line where a marker matches |
| Utils.IdRun | lib/utils.ts:9 | `[^#&?]*` captures the longest run free of '#', '&' and '?' |
| Utils.YouTubeVideoId | lib/utils.ts:8-12 | a returned id has exactly 11 characters, none of them '#', '&' or '?' |
| Utils.NoMarkerWithoutPunctuation | lib/utils.ts:9 | no alternative matches where no '/', '?' or '&' follows |
| Utils.IdAfterPrefix | lib/utils.ts:8-12 | an 11-character id right after the last marker of a one-line prefix is returned |
| Utils.WatchLinkId | lib/utils.ts:8-12 | `https://www.youtube.com/watch?v=` followed by an id yields the id |
| Utils.ShortLinkId | lib/utils.ts:8-12 | `https://youtu.be/` followed by an id yields the id |
| Utils.EmbedLinkId | lib/utils.ts:8-12 | `https://www.youtube.com/embed/` followed by an id yields the id |
| CommentItem.DislikeMirrorsLike | components/comments/comment-item.tsx:33-59 | disliking is liking with the two buttons exchanged |
| CommentItem.ClicksKeepConsistent | components/comments/comment-item.tsx:33-59 | after any clicks at most one button is pressed and each count is its initial value plus one while pressed |
| CommentItem.AnyClicksFromStart | components/comments/comment-item.tsx:27-59 | from the initial state every click sequence ends consistent |
| CommentItem.ClickTwice | components/comments/comment-item.tsx:33-59 | two clicks on one button restore the state, except that the other button stays released |
| CommentItem.CommentItemState.constructor | components/comments/comment-item.tsx:27-30 | both buttons released, the comment's own counts |
| CommentItem.CommentItemState.HandleLike | components/comments/comment-item.tsx:33-45 | the new state is the like transition of the old one, and consistency is kept |
| CommentItem.CommentItemState.HandleDislike | components/comments/comment-item.tsx:47-59 | the new state is the dislike transition of the old one, and consistency is kept |
| CommentItem.WordStarts | components/comments/comment-item.tsx:65-70 | word starts are non-space characters, no more than the text's length |
| CommentItem.FirstCharsAreWordStarts | components/comments/comment-item.tsx:65-68 | the first characters of the `split(/\s/)` pieces are exactly the characters that begin a word |
| CommentItem.Initials | components/comments/comment-item.tsx:65-70 | at most two characters: the first two word starts, upper-cased |
| CommentItem.TwoWordInitials | components/comments/comment-item.tsx:65-70 | "a b" gives "AB" |
| CommentSection.CommentSectionState.constructor | components/comments/comment-section.tsx:21-22 | an empty draft and the given comments |
| CommentSection.CommentSectionState.HandleSubmitComment | components/comments/comment-section.tsx:25-43 | a blank draft changes nothing; otherwise the untrimmed draft is put first and the draft cleared; the list grows exactly when the draft has a non-space character, and the old comments stay in order |
| CommentSection.ElapsedSeconds | components/comments/comment-section.tsx:49 | the whole seconds elapsed, rounded down also for dates in the future |
| CommentSection.AgeOf | components/comments/comment-section.tsx:51-56 | "just now" exactly below one minute |
| CommentSection.AgeBounds | components/comments/comment-section.tsx:51-56 | a shown count is at least one and is the whole number of units in the elapsed time; minutes stay below 60, hours below 24, days below 30 |
| CommentSection.UnitChoice | components/comments/comment-section.tsx:51-56 | the unit chosen fits into the elapsed time, and the next unit does not |
| CommentSection.RelativeTime | components/comments/comment-section.tsx:46-57 | under a minute reads "just now"; an unreadable date reads "NaN years ago" |
| CommentSection.LabelCount | components/comments/comment-section.tsx:46-57 | past a minute the label starts with a positive decimal count |
| EvidenceSection.Voted | components/evidence/evidence-section.tsx:31-44 | voting keeps the list's length and ids, leaves every other item unchanged, and gives each item with the id one more upvote (or downvote) with all its other fields kept |
| EvidenceSection.VoteTotals | components/evidence/evidence-section.tsx:31-44 | over the whole list, a vote adds the number of items with the id to its own counter's total and nothing to the other total |
| EvidenceSection.UnknownIdUnchanged | components/evidence/evidence-section.tsx:31-44 | a vote on an unknown id leaves the list as it was |
| EvidenceSection.VideoId | components/evidence/evidence-section.tsx:78-82 | the local copy of the id extraction returns 11-character ids free of '#', '&' and '?', the same as the shared one |
| EvidenceSection.EvidenceSectionState.constructor | components/evidence/evidence-section.tsx:25-28 | the form is closed and empty, and the list is the given one |
| EvidenceSection.EvidenceSectionState.HandleVote | components/evidence/evidence-section.tsx:31-44 | the list becomes the voted list and the form is unchanged |
| EvidenceSection.EvidenceSectionState.HandleSubmitEvidence | components/evidence/evidence-section.tsx:47-75 | a link naming neither YouTube host changes nothing; otherwise a new video item goes first and the form is cleared and closed |
| EvidenceSection.NewEvidenceShape | components/evidence/evidence-section.tsx:57-66 | a new item is a video with the link, the description, no votes and an id made from the time |
| EvidenceForm.CheckAdmitsLinkWithoutId | components/forms/evidence-form.tsx:16-22 | the check is on the text alone: "youtube.com" passes it, though no video id can be read from it |
| EvidenceForm.EvidenceFormState.constructor | components/forms/evidence-form.tsx:11-12 | both fields empty |
| EvidenceForm.EvidenceFormState.HandleSubmit | components/forms/evidence-form.tsx:14-26 | submits exactly when the link names a YouTube host, passing both fields, which are then cleared; a rejected link keeps them |
| EvidenceThumbnail.Segments | components/evidence/evidence-thumbnail.tsx:28 | `split("/").filter(Boolean)` gives non-empty segments without '/' |
| EvidenceThumbnail.YoutubeEmbedUrl | components/evidence/evidence-thumbnail.tsx:14-17 | an embed address exists exactly when a video id does, and is the embed prefix plus 11 characters |
| EvidenceThumbnail.YoutubeEmbedKeepsId | components/evidence/evidence-thumbnail.tsx:14-17 | the id read back from the embed address is the id it was built from |
| EvidenceThumbnail.AllstarClipId | components/evidence/evidence-thumbnail.tsx:25-39 | a clip id exists exactly when the path starts with "clip" and has a second segment, which is the id |
| EvidenceThumbnail.AllstarClip | components/evidence/evidence-thumbnail.tsx:25-39 | clip data exists exactly when a clip id does |
| EvidenceThumbnail.AllstarAddressesCarryId | components/evidence/evidence-thumbnail.tsx:29-33 | both the thumbnail and the embed address contain the clip id at their prefix's end |
| EvidenceThumbnail.TwitterEmbedUrl | components/evidence/evidence-thumbnail.tsx:44-49 | an embed exists exactly for links containing "twitter.com", and carries the encoded link after the Twitframe prefix |
| EvidenceThumbnail.StreamableId | components/evidence/evidence-thumbnail.tsx:59-64 | the id is the second segment after "e", else the first segment, else empty |
| EvidenceThumbnail.StreamableEmbedUrl | components/evidence/evidence-thumbnail.tsx:54-73 | an embed exists exactly for parsable links whose host contains "streamable.com" and whose path has a segment |
| EvidenceThumbnail.EmbedPathSegments | components/evidence/evidence-thumbnail.tsx:58 | the path "/e/<id>" splits into "e" and the id |
| EvidenceThumbnail.StreamableIdempotent | components/evidence/evidence-thumbnail.tsx:54-73 | the function fed its own output returns that output again |
| EvidenceThumbnail.ThumbnailFor | components/evidence/evidence-thumbnail.tsx:80-191 | a video is framed or falls back to a link, and falls back exactly when no provider matches; a screenshot is an image; anything else renders nothing |
| EvidenceThumbnail.YouTubeComesFirst | components/evidence/evidence-thumbnail.tsx:81-84 | a video link with a YouTube id is embedded from YouTube whatever the other providers say |
| EvidenceThumbnail.TwitterAfterAllstar | components/evidence/evidence-thumbnail.tsx:105-131 | a tweet link goes through Twitframe only when YouTube and Allstar do not claim it first |
| StatusBadge.StatusBadge | components/badge/status-badge.tsx:3-22 | cheater before banned before a score of 70 or more before active, each as an if-and-only-if |
| StatusBadge.VariantDeterminesLabel | components/badge/status-badge.tsx:12-21 | each label has its own variant, so the variant tells the badge |
| HeaderBackground.GradientFollowsBadge | components/profiles/profile-header-background.tsx:19-28 | the header's gradient is the one of the profile's status badge |
| HeaderBackground.PatternTiers | components/profiles/profile-header-background.tsx:33-43 | cheaters and banned profiles share the cheater pattern; the topography pattern goes exactly with a "Suspicious" badge |
| HeaderBackground.BackgroundClass | components/profiles/profile-header-background.tsx:16-49 | the class list starts with the height, which is 32 when none is given |
| CheaterStatusBar.BandOf | components/profiles/cheater-status-bar.tsx:41-48 | the four score bands: from 85, from 70, from 50, below |
| CheaterStatusBar.ScoreColour | components/profiles/cheater-status-bar.tsx:41-48 | the bar colour is the colour of the score's band |
| CheaterStatusBar.ColourMonotone | components/profiles/cheater-status-bar.tsx:41-48 | a higher score never gets a milder band |
| CheaterStatusBar.StatusBar | components/profiles/cheater-status-bar.tsx:15-63 | the caption defaults to "Account Standing"; a cheater shows "CHEATER" on a full red bar; otherwise the score and its band colour, with the width equal to the score text |
| CheaterStatusBar.CheaterOverridesScore | components/profiles/cheater-status-bar.tsx:22-38 | a cheater's bar does not depend on the score |
| CheaterStatusBar.WidthUnclamped | components/profiles/cheater-status-bar.tsx:59 | the width is not clamped: a score of 150 gives "150%" |
| SuspectCardGrid.CardBadge | components/card/suspect-card-grid.tsx:106-112 | "Banned" exactly when banned, "Suspicious" exactly for more than one report otherwise, else "Good" |
| SuspectCardGrid.GradientMatchesBadge | components/card/suspect-card-grid.tsx:45-52 | the red banner goes exactly with "Banned" and the green one exactly with "Good" |
| SuspectCardGrid.ColoursAsWritten | components/card/suspect-card-grid.tsx:56-72 | as written, the border keeps its initial green, and the bar has its band's fill below 50 and its band's border class from 50 |
| SuspectCardGrid.ColoursAsWrittenMisplaced | components/card/suspect-card-grid.tsx:65-77 | as written, from a score of 50 the bar gets a border class, and the border is green at every score |
| SuspectCardGrid.CardColours | components/card/suspect-card-grid.tsx:56-72 | corrected: the bar has the fill of the score's band and the border the border colour of the same band |
| SuspectCardGrid.ColoursAgreeWithStatusBar | components/card/suspect-card-grid.tsx:56-63 | the card's bar colour is the profile page bar's colour, and two borders agree exactly when the scores share a band |
| SuspectCardGrid.CardOf | components/card/suspect-card-grid.tsx:29-124 | a card shows the banner gradient and the badge of its ban status and report count, the colours as written, and the score text as width; a missing name shows "Unknown" with initial "U" |
| SuspectCardGrid.CardOfCorrected | components/card/suspect-card-grid.tsx:65-77 | corrected, the card is the same but its bar has the profile page bar's colour and its border the border colour of the score's band |
| SuspectCardGrid.Grid | components/card/suspect-card-grid.tsx:21-28 | an empty list shows its message, otherwise one card per profile in order |
| ProfileStats.SuspiciousScore | components/profiles/profile-stats.tsx:104-127 | the four captions for the four bands, each as an if-and-only-if; the badge is destructive exactly from 85, otherwise outline |
| ProfileStats.SameBandsAsStatusBar | components/profiles/profile-stats.tsx:104-117 | the panel's colour is the standing bar's for the same score, and the caption names the band |
| MiddleSection.ConfidenceScore | components/bento/middle-section.tsx:11 | five points per report, capped at 100, reached exactly from 20 reports |
| MiddleSection.VerificationRate | components/bento/middle-section.tsx:12 | one point per two pieces of evidence, rounded down, capped at 100, reached exactly from 200 |
| MiddleSection.Monotone | components/bento/middle-section.tsx:11-12 | more reports or evidence never lower a percentage |
| SuspectTable.ProgressWidth | components/table/suspect-table.tsx:60 | ten percent per report, capped at 100, reached exactly from 10 reports |
| SuspectTable.ProgressMonotone | components/table/suspect-table.tsx:60 | the width grows with the report count |
| SuspectTable.StatusText | components/table/suspect-table.tsx:66-70 | "Banned" exactly when banned, else "Active" |
| SuspectTable.AvatarOf | components/table/suspect-table.tsx:37-45 | without an avatar address the cell shows the name's first character, or nothing for an empty name |
| SuspectTable.Table | components/table/suspect-table.tsx:25-71 | an empty list shows its message, otherwise one row per profile with a width of at most 100 and the ban status |
| NewestFirst.Insert | components/evidence/evidence-list.tsx:21-23 | inserting adds exactly the one item |
| NewestFirst.InsertKeepsOrder | components/evidence/evidence-list.tsx:21-23 | inserting into a newest-first list keeps it newest first |
| NewestFirst.Sort | components/evidence/evidence-list.tsx:21-23 | the sorted copy is newest first and a permutation of the input |
| NewestFirst.InsertKeepsTies | components/evidence/evidence-list.tsx:21-23 | inserting keeps the order among items of equal time |
| NewestFirst.SortIsStable | components/evidence/evidence-list.tsx:21-23 | items with equal times keep their relative order |
| EvidenceList.SortedEvidence | components/evidence/evidence-list.tsx:21-23 | the evidence, newest first, is a permutation of the given list |
| EvidenceList.SameTimeKeepsOrder | components/evidence/evidence-list.tsx:21-23 | evidence submitted at the same time keeps its order |
| EvidenceList.TypeLabel | components/evidence/evidence-list.tsx:43 | the type with its first character upper-cased and the rest unchanged |
| EvidenceList.Submitter | components/evidence/evidence-list.tsx:86 | "Anonymous" without a user id, else "User " with the first eight characters of the id and an ellipsis |
| EvidenceList.EvidenceList | components/evidence/evidence-list.tsx:19-93 | an empty list shows its message, otherwise one item per piece of evidence in newest-first order |
| ReportsList.SortedReports | components/reports/reports-list.tsx:16-18 | the reports, newest first, are a permutation of the given list |
| ReportsList.Shortened | components/reports/reports-list.tsx:41-44 | the first eight characters followed by "..." |
| ReportsList.ReportsList | components/reports/reports-list.tsx:14-58 | no reports give one "No reports found." row; otherwise one "Verified" row per report, newest first |

## Left out

- Network, database and framework calls are not modelled as code. This covers `fetchSupabase`, the HEAD request, the Steam Web API requests, `createClient`, `revalidatePath`, `console.error` and `alert`. Their outcomes are inputs: the `Probe`, the `VanityReply` oracle, `Reply`, the `Faults` and `fault` parameters, and the optional fetch responses.
- `Date.now()`, `new Date()` and `toISOString` are parameters. An unreadable date is `None`, and its NaN arithmetic is written out where the source shows it.
- `hashIP` is an oracle `hashIp` applied to the placeholder address. `new URL` is an oracle `parse`, where None stands for a constructor that throws. `encodeURIComponent` is an oracle `encode`.
- `Store.Upsert`: the `.single()` after an ignored upsert is read as the code reads it: no row and no error, so the existing profile is re-read. The database client's behaviour with zero rows is not modelled.
- `ReportActions.SubmitProfileReportSpec`: the `"Unknown error"` fallback of the catch block is not modelled. Every error the model throws carries a message.
- `SteamApis.Steam32Offset`: lib/constants is not part of this model. The value is the one the doc comment of `convert64to32` states.
- `SteamApis.ResolveVanity`: a reply body that is not JSON, or that lacks `response`, is not modelled. Such a reply throws a TypeError in the source.
- `CommentItem.Initials`: upper-casing is limited to the ASCII letters, and an author without a name, on which `split` would throw, is not modelled.
- `EvidenceList.TypeLabel`: upper-casing is limited to the ASCII letters.
- `SteamApis.GetSteamIds`: the link is lower-cased over the ASCII letters only, where `toLowerCase` maps every letter. A vanity name such as "Ä" is passed to the lookup as "Ä", not "ä".
- Text is a sequence of Unicode scalar values, where JavaScript counts UTF-16 code units. Lengths, `substring` and first-character reads differ on characters outside the Basic Multilingual Plane. This affects `Utils.YouTubeVideoId` (the 11-unit length test), `EvidenceList.Submitter` and `ReportsList.Shortened` (the first eight units), and `SuspectTable.AvatarOf`, `SuspectCardGrid.CardOf` and `CommentItem.Initials` (the first unit of a name or word).
- `NewestFirst.Sort`: times are integers, so the NaN comparator result of an unreadable date is not modelled. The sort is specified by its result, not by the engine's algorithm.
- Scores and counts are integers. Fractional scores and `toFixed` formatting are not modelled.
- JSX markup, CSS classes other than the ones the rules choose, and the `Image`/`Link` components are not modelled.
- `getUserEvidence`, `getUserReports`, `enrichSuspect`, `calculateSuspiciousScore`, `getReportCount` and `getEvidenceCount` are not part of this model. Only `comment_count` of `enrichSuspect` is covered.

## Findings

| source | as written | input that shows it | evidently intended | confidence | as-written member | corrected member |
|---|---|---|---|---|---|---|
| app/profiles/actions.ts:121-131 | the comment is put into `map` before its parent is looked up, so a comment whose `parent_id` is its own id is pushed onto its own replies | one comment with id 7 and parent_id 7: the returned list is empty and the comment is never shown; any reply to it is hidden with it | look the parent up before registering the comment, so that the comment becomes top-level as an orphan | not executed | CommentThreads.SelfParentHidden | CommentThreads.AllShown |
| components/card/suspect-card-grid.tsx:65-77 | the second threshold chain assigns `scoreColor` instead of `borderColour`, so the bar receives a border class and the border stays green | a profile with suspicious_score 90: the bar class is "border-red-500" and the border is "border-green-500" | the bar keeps its fill colour and the border takes the colour of the same band | not executed | SuspectCardGrid.ColoursAsWrittenMisplaced | SuspectCardGrid.ColoursAgreeWithStatusBar |
