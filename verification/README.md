# NutriLongX health dashboard — a Dafny model of its core

NutriLongX is a wellness app. Users log achievements (challenges, routines,
mind sessions) and earn points, levels, streaks, daily-mission bonuses and
badges. They also receive a daily tip, chosen by weight from the tips targeted
at them. Admins write tips and content on two screens.

This project models, as pure Dafny functions and methods:

- the server handlers:
  - `POST /api/achievements/log` (module `Progression`);
  - `POST /api/actions/log` (`ActionLog`);
  - `GET /api/progress` (`LifeProgress`);
  - `GET /api/leaderboard` (`Leaderboard`);
  - `GET /api/ai/daily-tip` (`DailyTip`);
  - `POST /api/tips/create` (`TipsCreate`);
  - `GET /api/tips/list` (`TipsList`);
  - `POST /api/notify/subscribe` (`NotifySubscribe`);
  - `POST /api/upload` (`Upload`);
- the client state reducer (`AppTypes`, `AppReducer`);
- the "log an achievement" screen (`LogAchievementPage`);
- the admin tips form (`AdminTips`);
- both versions of the admin content manager:
  - what they share (`ContentForm`);
  - the draft screen with file limits (`ContentDraft`);
  - the publishing screen that uploads and creates (`ContentPublish`).

Shared vocabulary lives in three modules:

- `Wrappers`: optional values, JS numbers as integer-or-`NaN`, HTTP replies, store results.
- `Text`: `trim`, ASCII case mapping, `includes`, decimal rendering.
- `JsValues`: `String(v)`, `Number(v)`, `parseInt`.

Every store read (Supabase rows, REST answers) is a parameter of the handler
that needs it. Every write whose outcome the handler awaits is part of its result, so
"what is written" can be stated in a contract; the writes that are not
carried are named under "## Left out". A store error is a `StoreErr` value the
caller passes in. The same applies to the clock, the draw of `Math.random()`,
the generated AI text and the ids the client makes up.

## Model

| member | source | states |
|---|---|---|
| Progression.LevelsWellFormed | api/achievements/log.ts:5-12 | the level table starts at threshold 0, numbers its entries 1..6 and has strictly increasing thresholds |
| Progression.ScanLevels | api/achievements/log.ts:22-23 | the scan over the table ends on an entry whose threshold is reached, with every later entry's threshold above the points |
| Progression.FirstAbove | api/achievements/log.ts:24 | `find` returns the first entry above the threshold, and `None` exactly when no entry is above it |
| Progression.LevelFor | api/achievements/log.ts:21-27 | the current level is the highest one whose threshold is reached (level 1 for negative points); the next level exists below level 6 and is the following entry; `toNext` is the positive gap to it, or 0 at the top |
| Progression.LevelForMonotone | api/achievements/log.ts:21-27 | more points never give a lower level |
| Progression.Gain | api/achievements/log.ts:46 | the gain is at least 1 and at least `dvg`, and is either 1 or `dvg` |
| Progression.StreakStep | api/achievements/log.ts:77-92 | a second log on the same day keeps the streak; a log the day after the last one adds one; any other log restarts at 1; `best` rises to the new current |
| Progression.StreakBestIsMax | api/achievements/log.ts:89-91 | over any history, `best` is the high-water mark of `current` and never falls below it |
| Progression.StreakCountsConsecutiveDays | api/achievements/log.ts:77-92 | for logs in calendar order by a new user, `current` is exactly the number of consecutive days ending on the last log day that carry a log |
| Progression.MissionOf | api/achievements/log.ts:108-111 | only the sections `RETOS`, `RUTINAS` and `MENTE` map to a mission counter |
| Progression.MissionStep | api/achievements/log.ts:113-141 | one event adds 1 to its own counter only (a missing row reads as zeros); the bonus fires exactly when all three counters become positive and it had not fired before |
| Progression.BonusAtMostOnce | api/achievements/log.ts:128 | once the day row records the bonus, no later event fires it again |
| Progression.DailyBonusOncePerDay | api/achievements/log.ts:113-148 | over a whole day the bonus fires exactly once if every mission was logged and never otherwise; each counter is positive exactly when its mission was logged |
| Progression.PointCodes | api/achievements/log.ts:151-156 | a code qualifies exactly when its badge has a threshold and that threshold is reached |
| Progression.StreakCodes | api/achievements/log.ts:168-170 | a streak badge qualifies exactly when the streak reaches its day count |
| Progression.NotHeld | api/achievements/log.ts:161 | the codes kept are exactly those not already held |
| Progression.GrantBadges | api/achievements/log.ts:150-179 | point grants are the qualifying codes not held; streak grants are the qualifying streak codes held neither before nor by the point grants; the final holding is the old one plus every qualifying code |
| Progression.GrantBadgesIdempotent | api/achievements/log.ts:157-179 | reconciling a second time on the outcome grants nothing |
| Progression.MissionOutcome | api/achievements/log.ts:113-148 | the day row is written exactly for a mission section; that event adds one to its own counter and leaves the other two alone (a missing row reads as zeros); the bonus fires exactly when the three counters are then positive and the stored row had not awarded it |
| Progression.Apply | api/achievements/log.ts:46-201 | the reply's points are the old points plus the gain; level, level name, next level and gap are the table's for these pre-bonus points; the day row and the bonus are the mission outcome; the first record carries the user's id, the request's content id, section, title and days and the gain; a bonus adds a second record (no content, section RETOS, title "Bonus diario", 5 days, 5 points) and 5 stored points; the user row records today; the badge list and grants come from both reconciliations |
| Progression.ApplyGrantsQualifyingBadges | api/achievements/log.ts:150-200 | after the step the user holds the old badges plus every qualifying code, and the grants are exactly the codes that were missing |
| Progression.ApplyStreak | api/achievements/log.ts:77-92 | the handler's streak fields follow the same-day / next-day / gap rules and keep `best >= current` |
| Wrappers.MessageOr | api/achievements/log.ts:203-205 | `e?.message || fallback`: the error's message when it is non-empty, otherwise the handler's own fallback text ("log failed" here), so a non-empty fallback never yields an empty text |
| Progression.FirstFault | api/achievements/log.ts:56-147 | no write fails exactly when the user upsert (for a new user), the record insert and the user update succeed, the bonus writes succeed when the bonus fires, and the day update succeeds for a mission section |
| Progression.RecordAchievement | api/achievements/log.ts:38-206 | 405 for a non-POST; an unparsable body answers 500 with the parser's message; a missing body or external id gives 400; the first failing write the event reaches answers 500 with its message, or "log failed" for an empty one; otherwise the step applied to the stored user or a fresh one; no other status is possible |
| Progression.UnreachedWritesDoNotMatter | api/achievements/log.ts:108-148 | an event outside the three missions is answered, and answered alike, whatever the day-row and bonus writes would have done |
| AppReducer.Reduce | context/AppContext.tsx:7-56 | HYDRATE replaces the state; every other action keeps user, KPIs and stats; each action touches only its own list; an unrecognised action changes nothing |
| AppReducer.LoginOnlyAuthenticates | context/AppContext.tsx:11-15 | LOGIN sets the authenticated flag and changes nothing else |
| AppReducer.CompleteRoutineSpec | context/AppContext.tsx:16-24 | the matching routines end completed at 100%, the others are unchanged, and repeating the action changes nothing |
| AppReducer.AddJournalEntrySpec | context/AppContext.tsx:25-33 | the entry is prepended to the journal and the rest of the mind data is kept |
| AppReducer.AddAchievementLogSpec | context/AppContext.tsx:34-43 | the log is prepended; the logged challenge becomes completed at 100% if achieved, and not-completed at its old progress otherwise |
| AppReducer.JoinChallengeSpec | context/AppContext.tsx:44-52 | only the matching challenge moves to in-progress, and joining twice is joining once |
| AppReducer.UnmatchedIdChangesNoList | context/AppContext.tsx:16-52 | an id that matches nothing leaves the routines and challenges exactly as they were |
| LogAchievementPage.CategoryGroup | pages/LogAchievement.tsx:8-15 | every challenge category belongs to one of the three real groups, never to "Todos" |
| LogAchievementPage.FilteredChallenges | pages/LogAchievement.tsx:27-33 | the result keeps list order, and a challenge is in it exactly when its group matches and its lower-cased title contains the lower-cased search |
| LogAchievementPage.FilteredChallengesAppend | pages/LogAchievement.tsx:27-33 | filtering a concatenation is the concatenation of the filtered parts, so each challenge keeps its multiplicity |
| LogAchievementPage.FilteredChallengesSingle | pages/LogAchievement.tsx:27-33 | a single challenge is kept exactly when it matches the group and the search |
| LogAchievementPage.NoFilterListsAll | pages/LogAchievement.tsx:28-32 | the "Todos" filter with an empty search lists every challenge |
| LogAchievementPage.TodosIgnoresCategory | pages/LogAchievement.tsx:29 | under "Todos" only the title search decides |
| LogAchievementPage.HandleSave | pages/LogAchievement.tsx:39-54 | nothing is dispatched without a selected challenge; otherwise an ADD_ACHIEVEMENT_LOG carrying its id, title, the achieved flag and the comment, with log id `ach_<now>` and the ISO time |
| LogAchievementPage.SaveIdsDistinct | pages/LogAchievement.tsx:46 | logs saved at different times get different ids |
| LogAchievementPage.SaveCompletesChallenge | pages/LogAchievement.tsx:39-54 | saving an achieved challenge leaves it completed at 100% with the new log first |
| ActionLog.NormaliseExternalId | api/actions/log.ts:38 | the id is the text of the value with whitespace cut from both ends and nothing else changed (an infix whose surroundings are all whitespace, which Text.TrimUnique shows is unique); a whitespace-free text is kept as is |
| ActionLog.NormaliseActionId | api/actions/log.ts:39 | the action id is the normalised external id of the value, upper-cased, so it has no lower case and no surrounding whitespace |
| ActionLog.NormaliseActionIdIdempotent | api/actions/log.ts:39 | normalising a normalised action id changes nothing |
| ActionLog.QtyAsWritten | api/actions/log.ts:40 | a non-numeric quantity gives 1; a finite result is at least 1; the result is NaN exactly when `Number` accepts the value but `parseInt` does not |
| ActionLog.QtyAsWrittenNaN | api/actions/log.ts:40 | `null`, both booleans and every all-whitespace string (the empty one included) pass the finiteness guard yet give NaN as written, where the intended quantity is 1 |
| ActionLog.Qty | api/actions/log.ts:40 | the intended quantity is at least 1; it agrees with the as-written one wherever that is finite, and is 1 where that is NaN |
| ActionLog.QtyOfNumber | api/actions/log.ts:40 | a numeric quantity, sent as a number or as its decimal text, is used as `max(1, n)` |
| ActionLog.BuildRow | api/actions/log.ts:56-70 | points and life hours and days are the catalog values (null as 0) times the quantity; pillar and level code come from the catalog |
| ActionLog.Times | api/actions/log.ts:56-58 | a catalog figure times the quantity is NaN exactly when the quantity is, and otherwise the figure (null as 0) times it |
| ActionLog.RowFor | api/actions/log.ts:38-70 | the row carries the normalised ids, the quantity as written or as intended, the catalog figures times that quantity, and the catalog pillar and level code |
| ActionLog.Handle | api/actions/log.ts:12-84 | 405 for a non-POST, 500 without configuration, 400 for a bad body or a missing id, 500 for a failed lookup, 404 for an unknown action; a row is inserted exactly for a known action; 200 with the store's row exactly when that insert succeeds, 400 when it fails |
| ActionLog.LogAction | api/actions/log.ts:12-84 | the handler as written: the row carries the as-written quantity, and a NaN quantity writes NaN points, hours and days; statuses and writes are those of ActionLog.Handle |
| ActionLog.LogActionIntended | api/actions/log.ts:12-84 | the handler with the intended quantity: every written row has a quantity of at least 1 and real figures |
| ActionLog.IntendedDiffersOnlyOnNaN | api/actions/log.ts:40-70 | both handlers give the same reply and write in the same cases; they write the same row whenever the as-written quantity is a number, and differ only where it is NaN |
| ActionLog.UnknownActionWritesNothing | api/actions/log.ts:52-54 | an action id the catalog does not know gives 404 and writes nothing |
| LifeProgress.Index | api/progress.ts:49-50 | every catalog id is indexed, to a row carrying that id |
| LifeProgress.IndexLastWins | api/progress.ts:49-50 | a later catalog row with the same id replaces an earlier one |
| LifeProgress.PillarKey | api/progress.ts:65 | the pillar key is never empty and is the row's pillar when that is set |
| LifeProgress.UnmatchedContributesNothing | api/progress.ts:58-59 | a log of an action missing from the catalog adds nothing to any total or pillar |
| LifeProgress.Bump | api/progress.ts:66 | the entry for the pillar grows by the value, every other entry is unchanged, keys stay distinct, and the sum grows by the value (Object.prototype key names admitted under Left out) |
| LifeProgress.Aggregate | api/progress.ts:53-67 | the loop's totals equal the reference sums over all logs; each pillar's entry equals the reference per-pillar sum; the entries sum to the total days (Object.prototype key names admitted under Left out) |
| LifeProgress.Recent | api/progress.ts:70-74 | the first ten logs in order; each title is the catalog title when the action is in the catalog with a non-empty title, else the action id; each pillar is the catalog pillar when present and non-empty, else null |
| LifeProgress.Progress | api/progress.ts:11-36 | 400 without any external id; a given id is always answered, `externalId` winning over `externalid`; an empty log list gives zero totals; otherwise the reply carries the reference totals, per-pillar sums and the recent list |
| Leaderboard.AtLevel | api/leaderboard.ts:25 | the users at the level, in table order and nothing else |
| Leaderboard.FindMe | api/leaderboard.ts:14-18 | `.single()`: the row when exactly one user carries the id; none when no user or several users carry it; a found row always carries the id |
| Leaderboard.WithId | api/leaderboard.ts:14-17 | the users carrying the id, and only they |
| Leaderboard.WithIdCount | api/leaderboard.ts:14-18 | one carrier gives exactly its row as the match; two carriers give at least two matches |
| Leaderboard.ResolveLevel | api/leaderboard.ts:11-21 | a truthy numeric `level` query wins; otherwise the caller's non-zero level; otherwise 1; the result is never 0 |
| Leaderboard.CountAbove | api/leaderboard.ts:31-34 | the count is 0 exactly when no same-level user has more points |
| Leaderboard.CountAboveAntitone | api/leaderboard.ts:31-35 | counting above a higher score never gives more users |
| Leaderboard.Rank | api/leaderboard.ts:35 | the rank is at least 1, and is 1 exactly when nobody at the level scores more |
| Leaderboard.RankMonotone | api/leaderboard.ts:29-36 | more points never give a worse rank, and equal points share one |
| Leaderboard.SortByPoints | api/leaderboard.ts:26 | the order by points descending is a non-increasing permutation |
| Leaderboard.Top | api/leaderboard.ts:23-27 | ten users, or all of the level when there are fewer, all at the level, in non-increasing points: the head of the level sorted by points |
| Leaderboard.TakeAtMost | api/leaderboard.ts:27 | `limit(n)` gives the first n rows, or all of them when there are fewer |
| Leaderboard.TopIsBest | api/leaderboard.ts:23-27 | the top and the rest of the sorted level together are exactly the level's users; nobody left out scores more than anyone in the top; with ten or fewer users the top is all of them |
| Leaderboard.Standings | api/leaderboard.ts:5-40 | the caller is looked up exactly when a non-empty id is given; the level is resolved from the query and that caller and is never 0; the rank exists exactly with the caller, is one more than the users ahead, and is 1 exactly when nobody at the level scores more; the list is the level's top |
| DailyTip.ScanFindsFirstReached | api/ai/daily-tip.ts:27-31 | the subtracting loop picks the first item whose cumulative weight reaches the draw, or item 0 when none does |
| DailyTip.PickIndex | api/ai/daily-tip.ts:23-32 | the chosen index is the first one whose cumulative weight reaches `u` times the total |
| DailyTip.PickWeighted | api/ai/daily-tip.ts:23-32 | nothing is picked exactly from an empty list, and a pick is always one of the items |
| DailyTip.PickInInterval | api/ai/daily-tip.ts:23-32 | with positive weights and a draw in [0, 1), the pick is the item whose weight interval contains the scaled draw |
| DailyTip.MissingWeightCountsAsOne | api/ai/daily-tip.ts:25-28 | writing every missing weight as 1 changes neither the total nor the pick |
| DailyTip.Dedupe | api/ai/daily-tip.ts:177-182 | the reference de-duplication keeps distinct ids and loses none |
| DailyTip.DedupeKeepsFirst | api/ai/daily-tip.ts:177-182 | every tip kept is the first tip of its id |
| DailyTip.PushOne | api/ai/daily-tip.ts:176-183 | one pass skips a tip without id, already seen, outside its window or inactive, and otherwise appends it and marks its id |
| DailyTip.PushUnique | api/ai/daily-tip.ts:175-184 | the merged list is the de-duplication of the eligible tips seen so far, and `seen` is its id set |
| DailyTip.Prioritize | api/ai/daily-tip.ts:186-189 | the merged list holds distinct eligible tips, covers the id of every eligible candidate, and keeps each id's first tip in priority order |
| DailyTip.UserTargetedWins | api/ai/daily-tip.ts:186-189 | an eligible user-targeted tip is never displaced by a lower-priority tip with the same id |
| DailyTip.Pool | api/ai/daily-tip.ts:206-210 | the pool holds the tips not sent today, or all tips when every one was sent; it is empty only for an empty list |
| DailyTip.FinalText | api/ai/daily-tip.ts:227-244 | the text is the tip's body or the generated text; the generated text is shown when the tip asks for generation and the text is longer than 20 characters, and only then |
| DailyTip.FinalTextNeedsAiAndLength | api/ai/daily-tip.ts:228-243 | a non-AI tip always shows its body, and a short generated text is never shown |
| DailyTip.LevelName | api/ai/daily-tip.ts:14-21 | levels 1 to 6 get the table's names `inicio` … `diamante`; level 0 gets the empty name; any other level gets its decimal text, which `parseInt` reads back as the level |
| DailyTip.LevelNameLead | api/ai/daily-tip.ts:14-21 | only level 0 has an empty name, and a name starts with a lower-case letter exactly when it comes from the table |
| DailyTip.LevelNameInjective | api/ai/daily-tip.ts:14-21 | different levels never share a name, so the `nivel:` tag identifies the level |
| DailyTip.AddCategories | api/ai/daily-tip.ts:114-117 | the tags stay distinct and keep their order, and the lower-cased non-empty categories are added |
| DailyTip.UserTags | api/ai/daily-tip.ts:87-118 | the tags are distinct; for a non-zero level the first is `nivel:<name>`; the tags are exactly that level tag (when the level is non-zero) and the lower-cased non-empty categories, nothing else |
| DailyTip.MergedCandidates | api/ai/daily-tip.ts:175-210 | the merged list is empty exactly when no candidate is eligible, and holds an unsent tip whenever an eligible candidate is unsent |
| DailyTip.Chosen | api/ai/daily-tip.ts:186-211 | nothing is chosen exactly when no candidate is eligible; the chosen tip is an eligible candidate; it is one not sent today whenever an eligible candidate is unsent |
| DailyTip.DailyTipFor | api/ai/daily-tip.ts:64-277 | 400 without external id and 404 for an unknown user; past these checks, the fallback text exactly when no candidate tip is eligible; the `tip_history` row is written exactly when a tip is drawn, naming it; 500 with the message on a history failure other than a duplicate, 500 with the Gemini error's message when the drawn tip is an AI tip and the request is rejected, and otherwise the drawn tip (DailyTip.Chosen) with its final text, the user's level, level name and tags |
| TipsCreate.StoredWeight | api/tips/create.ts:35 | a positive weight is kept, and anything else becomes 1 |
| TipsCreate.BuildTipRow | api/tips/create.ts:29-43 | `is_ai` only when explicitly true, active unless explicitly false, the stored weight, and empty dates as null |
| TipsCreate.FiniteLevels | api/tips/create.ts:50 | the finite levels are kept and NaN is dropped (order and multiplicity by TipsCreate.FiniteLevelsAppend) |
| TipsCreate.NonEmpty | api/tips/create.ts:58 | the empty external ids are dropped and every other id is kept (order and multiplicity by TipsCreate.NonEmptyAppend) |
| TipsCreate.FiniteLevelsAppend | api/tips/create.ts:50 | the level filter distributes over concatenation, so it keeps order and multiplicity |
| TipsCreate.FiniteLevelsBase | api/tips/create.ts:50 | the level filter of the empty list is empty, and of one level is that level when finite and nothing otherwise |
| TipsCreate.NonEmptyAppend | api/tips/create.ts:58 | the id filter distributes over concatenation, so it keeps order and multiplicity |
| TipsCreate.NonEmptyBase | api/tips/create.ts:58 | the id filter of the empty list is empty, and of one id is that id when non-empty and nothing otherwise |
| TipsCreate.NormaliseTag | api/tips/create.ts:73 | a tag comes out lower-case with no surrounding whitespace |
| TipsCreate.NormaliseTagSpec | api/tips/create.ts:73 | lower-casing then trimming equals trimming then lower-casing, and normalising twice is normalising once |
| TipsCreate.NormaliseTagsSpec | api/tips/create.ts:73 | every stored tag is non-empty, lower-case and trimmed, and every tag that normalises to something non-empty is stored |
| TipsCreate.CreateTip | api/tips/create.ts:20-87 | 405 for a non-POST and 400 without title or body, writing nothing; a valid request always writes the row built from the payload; a failed tip insert answers 500; with the tip stored the reply is the tip id exactly when no target write is refused, and otherwise the tip is deleted and 500 answered; the targets written are the filtered and normalised ones |
| TipsCreate.WriteTargets | api/tips/create.ts:47-84 | levels, then users, then tags are written, each exactly when it has rows and no earlier stage was refused; the users written are the ones the lookup found; the first refusal answers 500 with its message, deletes the tip and stops the later stages; the tip id is answered exactly when nothing was refused |
| TipsList.Limit | api/tips/list.ts:8 | a missing limit is 50; a numeric limit is clamped to 1..100; a non-numeric one gives NaN |
| TipsList.Group | api/tips/list.ts:36-46 | a tip id has an entry exactly when some row carries it |
| TipsList.GroupSpec | api/tips/list.ts:36-52 | each tip's group is exactly the values of its rows, in row order |
| TipsList.ListTips | api/tips/list.ts:5-58 | 405 for a non-GET and 500 on a store error; otherwise one output per tip, each with its grouped level, tag and user targets |
| NotifySubscribe.RowFor | api/notify/subscribe.ts:39-48 | a channel yields one row exactly when its configuration has an address, with consent defaulting to true |
| NotifySubscribe.ChannelRows | api/notify/subscribe.ts:38-49 | at most three rows, all for the user with an address, in the order email, WhatsApp, Telegram |
| NotifySubscribe.ChannelRowsComplete | api/notify/subscribe.ts:38-49 | a channel gets a row exactly when its configuration has an address |
| NotifySubscribe.Subscribe | api/notify/subscribe.ts:12-67 | 405 for a non-POST and 400 without external id; the user row `{external_id, display_name}` (both the external id) is inserted exactly when the lookup finds no user, and a failed insert gives 500; with the user known, no channel with an address answers "No channels provided" and writes nothing; otherwise the channel rows are upserted and the store's returned rows, or its error with 500, are the answer |
| Upload.Sanitise | api/upload.ts:10-11 | the name keeps its length, and each character is kept exactly when it is in `[a-zA-Z0-9_.-]`, else becomes `_` |
| Upload.SanitiseIdempotent | api/upload.ts:10-11 | sanitising twice is sanitising once, and a clean name is left alone |
| Upload.DefaultNameIsClean | api/upload.ts:10 | the `upload-<time>` default needs no sanitising |
| Upload.FileName | api/upload.ts:10-11 | a non-empty header name is used, sanitised; otherwise the default name |
| Upload.DatePart | api/upload.ts:16 | the date folder is the first ten characters of the ISO time |
| Upload.StoragePath | api/upload.ts:16 | the path is the date folder, a `/` and the clean file name |
| Upload.HandleUpload | api/upload.ts:5-32 | 405 for a non-POST; 500 with the store's message when the upload fails; answered exactly otherwise, with the path `<date>/<name>` and the store's public URL for that path |
| AdminTips.SplitCsv | src/pages/admin/AdminTipsManager.tsx:320-325 | every piece is non-empty and free of separators |
| AdminTips.SplitCsvEmptyIffAllSeps | src/pages/admin/AdminTipsManager.tsx:320-325 | no piece comes out exactly when the input is all separators |
| AdminTips.SplitCsvPiecesAreMaximal | src/pages/admin/AdminTipsManager.tsx:320-325 | the first piece starts after the leading separators, ends at a separator or the end of the input, and the rest are the pieces of what follows, so each piece is a maximal run |
| AdminTips.SplitCsvKeepsEveryOtherChar | src/pages/admin/AdminTipsManager.tsx:320-325 | run together, the pieces are the input with the separators removed |
| AdminTips.SplitCsvJoinRoundTrip | src/pages/admin/AdminTipsManager.tsx:320-325 | joining separator-free pieces with commas and splitting again gives the pieces back |
| AdminTips.ClientTags | src/pages/admin/AdminTipsManager.tsx:62-65 | the tags are the lower-cased pieces, none empty |
| AdminTips.ClientTagsNeedNoNormalising | src/pages/admin/AdminTipsManager.tsx:62-65 | the tags the form sends are already what the create handler stores |
| AdminTips.ToggleLevel | src/pages/admin/AdminTipsManager.tsx:84-86 | the toggled level is present exactly when it was absent, and the other levels are unchanged |
| AdminTips.ToggleTwice | src/pages/admin/AdminTipsManager.tsx:84-86 | toggling twice restores the same levels, and the same list when the level was absent |
| AdminTips.Submit | src/pages/admin/AdminTipsManager.tsx:94-128 | a blank title or body is refused first; then a date the parser cannot read is refused with "Invalid time value"; otherwise the payload carries the trimmed texts, the weight or 1, the dates converted to ISO text (null when empty) and the targets |
| AdminTips.SubmittedPayloadPassesCreateChecks | src/pages/admin/AdminTipsManager.tsx:97-116 | a payload the form accepts passes the create handler's checks, and its levels survive the finiteness filter |
| ContentForm.DetectKind | pages/admin/AdminContentManager.tsx:86-90 | `image/` types are images, other `video/` types are videos, and everything else is a file |
| ContentForm.DetectKindOfPrefix | pages/admin/AdminContentManager.tsx:86-90 | any `image/…` type is an image and any `video/…` type is a video |
| ContentForm.TotalBytesAppend | src/pages/admin/AdminContentManager.tsx:103 | the byte total of two lists is the sum of their totals |
| ContentForm.RemoveMedia | pages/admin/AdminContentManager.tsx:124-126 | the result keeps the order, and an attachment stays exactly when its id differs |
| ContentForm.RemoveMediaAppend | pages/admin/AdminContentManager.tsx:124-126 | removing from a concatenation is the concatenation of the removals, so each attachment keeps its multiplicity |
| ContentForm.RemoveMediaSingle | pages/admin/AdminContentManager.tsx:124-126 | a single attachment is kept exactly when its id differs |
| ContentForm.RemoveMediaIdempotent | pages/admin/AdminContentManager.tsx:124-126 | removing the same id twice is removing it once |
| ContentForm.OptionalText | src/pages/admin/AdminContentManager.tsx:187 | a blank text is dropped, and any other is kept trimmed |
| ContentDraft.OnFilesSelected | src/pages/admin/AdminContentManager.tsx:125-147 | the files are appended in order and never past 12 attachments or 200 MB; the selection stops only where the next file would break a limit; a selection that fits is taken whole |
| ContentDraft.Validate | src/pages/admin/AdminContentManager.tsx:159-168 | the message is that of the first failing check, in the order admin, section, title, description, days of life for RETOS; none exactly when all checks pass |
| ContentDraft.ValidateIgnoresDvgOutsideRetos | src/pages/admin/AdminContentManager.tsx:164 | outside RETOS the days-of-life field plays no part |
| ContentDraft.BuildPayload | src/pages/admin/AdminContentManager.tsx:179-191 | days of life exactly for RETOS; trimmed title and description; optional trimmed text |
| ContentDraft.HandleSave | src/pages/admin/AdminContentManager.tsx:170-211 | a validation message blocks; a storage failure gives the retry message; otherwise the payload is saved with the status toast |
| ContentDraft.SavedRetosHasDays | src/pages/admin/AdminContentManager.tsx:164-185 | a saved RETOS draft carries a finite number of days and non-blank title and description |
| ContentPublish.ErrorList | pages/admin/AdminContentManager.tsx:74-83 | each message is present exactly when its check fails, in the fixed order |
| ContentPublish.DerivedErrors | pages/admin/AdminContentManager.tsx:74-83 | the title, description, category, section and days-of-life messages each appear exactly when their check fails, in that order |
| ContentPublish.DerivedErrorsIgnoreDvgOutsideRetos | pages/admin/AdminContentManager.tsx:80 | outside RETOS the days-of-life field plays no part in the errors |
| ContentPublish.ScreensAgree | pages/admin/AdminContentManager.tsx:74-83 | with an admin and a category chosen, the draft screen validates a form exactly when the publishing screen finds no error |
| ContentPublish.OnFilesSelected | pages/admin/AdminContentManager.tsx:93-109 | the picked files, each with its pending file, go in order before the existing media |
| ContentPublish.UploadOne | pages/admin/AdminContentManager.tsx:138-154 | an item without a pending file keeps its URL; otherwise the upload decides |
| ContentPublish.UploadAll | pages/admin/AdminContentManager.tsx:166-172 | all uploads succeed exactly when each does; each uploaded item has its URL and no pending file; an error is one item's error |
| ContentPublish.UploadKeepsUrlWithoutFile | pages/admin/AdminContentManager.tsx:139 | items never picked from disk go through the uploads unchanged except for the pending file |
| ContentPublish.BuildBody | pages/admin/AdminContentManager.tsx:175-188 | days of life exactly for RETOS; visibility public exactly when published and draft exactly when a draft; trimmed texts; author and media |
| ContentPublish.HandleSaveToDb | pages/admin/AdminContentManager.tsx:157-210 | blocked exactly when there is an error, showing the first; failed exactly on an upload or create error; otherwise saved with the built body |
| ContentPublish.BlockedShowsFirstError | pages/admin/AdminContentManager.tsx:158-161 | a blocked save shows the first failing check in the order title, description, category, section, days of life |
| JsValues.ParseInt | api/actions/log.ts:40 | blank gives NaN; a leading digit gives a non-negative number; any other leading character but a sign gives NaN (the value read is stated by JsValues.ParseIntLeadingDigits) |
| JsValues.ParseIntLeadingDigits | api/actions/log.ts:40 | an optional sign, a run of digits, then text not starting with a digit reads as the signed number the digits spell |
| JsValues.ToNumber | api/tips/list.ts:8 | numbers are kept, `undefined` is NaN, `null` is 0, booleans are 0/1 and blank strings are 0 |
| JsValues.IntRoundTrip | api/actions/log.ts:40 | rendering an integer and reading it back with `parseInt` or `Number` gives the integer |
| JsValues.NumberStringRoundTrip | api/actions/log.ts:40 | `Number(String(x))` gives a number back, and keeps NaN as NaN |
| Text.TrimIdempotent | src/pages/admin/AdminTipsManager.tsx:323 | trimming twice is trimming once |
| Text.TrimToUpper | api/actions/log.ts:39 | upper-casing and trimming commute |
| Text.TrimIsTrimOf | api/actions/log.ts:38 | `trim` gives an infix of its input with no whitespace at either end and only whitespace cut away on both sides |
| Text.TrimUnique | api/actions/log.ts:38 | any such whitespace-cut infix is the trim itself |
| Text.ContainsSpec | pages/LogAchievement.tsx:30 | `includes` holds exactly when the needle occurs at some position |

## Left out

- The store, the network and the file system are not called. Reads are parameters and writes are results. Calls to the store that the handlers make but ignore the error of are not modelled. Examples are the badge inserts in api/achievements/log.ts and the target queries in api/tips/list.ts, which read as empty lists.
- Days are integers in the service time zone. `todayInTZ`, the Madrid start of day in api/ai/daily-tip.ts and the `Date` parsing of tip windows are replaced by integer days and times.
- Several values are inputs rather than computed:
  - `Math.random()` is the draw `u` in [0, 1).
  - `Date.now()` and the ISO clock are `now` and `isoNow`.
  - `uid()` and `URL.createObjectURL` are carried in `SelectedFile`.
- JavaScript numbers are integers plus `NaN`. Fractions, infinities and floating-point rounding are not modelled.
- Numeric strings are only optional whitespace, a sign and decimal digits. Exponents, hex, decimals and `Infinity` read as `NaN` here, where JavaScript reads them as numbers. So:
  - a quantity of `"2.5"` is 1 here and 2 in api/actions/log.ts;
  - a quantity of `".5"` is 1 here, but `NaN` in the source, which is one more input for the finding below;
  - a `level` query of `"1e1"` in api/leaderboard.ts and a `limit` of `"1e2"` in api/tips/list.ts are `NaN` here and 10 and 100 in the source.
- The life totals are exact reals, and the two-decimal `toFixed` rounding of api/progress.ts is left out.
- Case mapping covers ASCII letters only. The whitespace set is JavaScript's `trim` set.
- The Gemini call in api/ai/daily-tip.ts is out. Its outcome is a parameter: a text, no text, or a rejected request. Prompt building and the debug context of the reply are not modelled.
- The global-tips RPC and its fallback query are out. Both give the list `globals`, which is a parameter.
- The order of keys in JSON objects and the exact response headers are not modelled.
- api/progress.ts answers with the upstream status when a fetch fails. That path is not modelled.
- LifeProgress.Progress: upstream text that is not JSON makes `JSON.parse` throw, and the catch-all answers 500 with its message. That path is not modelled; the logs and catalog arrive parsed.
- The leaderboard's order among users with equal points is the store's, so only the multiset and non-increasing points are stated.
- `Promise.all` rejection is modelled as the first failing item in list order. The source rejects with whichever upload fails first in time.
- The content body's `duration_min`, `level` and `tags` are constant `null`s and are not carried.
- The draft screen's local-storage fallback and the `onSave` callback are folded into the `stored` outcome.
- Toast timing, the saving flag, drag state, form reset and navigation are UI state outside the model.
- LifeProgress.Bump: the per-pillar table is a map. In the source it is a plain object, and `byPillar[p] || 0` also reads names inherited from `Object.prototype`. For the pillar "constructor", "toString", "valueOf", "hasOwnProperty" and the other inherited method names, the entry becomes that function's text joined to the number. For "__proto__" the assignment is ignored and the pillar is missing from `by_pillar`. The model adds numerically for every pillar name.
- LifeProgress.Aggregate: its per-pillar sums, and the entries summing to the total days, hold in the source only when no pillar is named after an `Object.prototype` member, for the reason given for Bump.
- LifeProgress.Progress: its `by_pillar` carries the same gap through Aggregate.
- Progression.Apply: `badges` is listed as the held codes, then the point grants, then the streak grants. The source re-reads `user_badges` without an order, so there the order is the store's and only the set of codes is promised.
- Progression.Gain: integer `dvg` only. A numeric-string or fractional `dvg` is not modelled, because numbers are integers here.
- Progression.RecordAchievement: a request that fails part-way answers 500, but the result does not list the writes made before the failing one. The badge inserts and the badge reads are not awaited for errors and are not among the failures.
- Progression.RecordAchievement: the user lookup's own error is not modelled; a lookup that finds nothing is the `stored = None` case.
- DailyTip.PickWeighted: states only that the pick is one of the items. The exact choice is stated by DailyTip.PickIndex and DailyTip.PickInInterval.
- DailyTip.FinalText: lengths are counted in characters, where JavaScript's `length` counts UTF-16 code units. A generated text with characters outside the Basic Multilingual Plane can cross the 20 limit at a different length than the model says.
- ActionLog.LogAction: a row with `NaN` figures reaches the store as JSON `null`s. Whether the store accepts it is the `inserted` parameter.
- AdminTips.Submit: the `Date` parser behind `new Date(v).toISOString()` is the parameter `toIso`. Which texts it accepts, and the ISO text it gives, are not modelled.
- Upload.HandleUpload: the store's `getPublicUrl` is the parameter `publicUrl`. It is a pure function of the path, and its URL format is not modelled.
- TipsCreate.CreateTip: `await req.json()` sits outside any try, so an unparsable body makes the runtime fail the request. The model's `None` payload is a JSON `null` body, which answers 400.
- NotifySubscribe.Subscribe: the same holds for its unparsable body. Its `None` body is a JSON `null` body, which answers 400.
- DailyTip.DailyTipFor: the history insert's outcome is a parameter. The insert runs before generation, so a tip whose Gemini request is rejected is still recorded.
- Upload.HandleUpload: the uploaded bytes and content type are not carried in the result; only the path written to is, inside the answer.
- Upload.Sanitise: the source's pattern has no `u` flag, so it replaces each UTF-16 code unit and a character outside the Basic Multilingual Plane becomes `__`. The model replaces per character.
- TipsList.ListTips: the users' external ids come already joined from the store, and the `users!inner` join itself is not modelled.

## Findings

| source | as written | input that shows it | evidently intended | confidence | as-written member | corrected member |
|---|---|---|---|---|---|---|
| api/actions/log.ts:40 | `Number.isFinite(Number(qty)) ? Math.max(1, parseInt(String(qty), 10)) : 1` | `qty` = `null`, `true`, `false`, `""` or `"  "`: `Number` gives a finite 0 or 1, but `parseInt` of `"null"`, `"true"`, `"false"` or a blank text is `NaN`, so the inserted quantity, points and life figures are `NaN` (sent as `null`) | a quantity of at least 1, falling back to 1 whenever the value is not a usable number | not executed | ActionLog.QtyAsWrittenNaN | ActionLog.LogActionIntended |
