# ChessAPI leaderboard — a Dafny model of the update engine

ChessAPI keeps a school chess leaderboard. A JSON store (`data/players.json`)
holds one record per student, and the system works on it in four ways:

- A scheduled back end refreshes the store from the Chess.com stats API. It
  runs only on weekdays from 06:00. It drops students whose cohort ("promo")
  has graduated, and re-ranks players by rapid rating. It merges each
  player's fresh ratings, keeps a one-entry-per-day seven-day history, and
  saves the store only when at least one fetch succeeded.
- Two Slack slash commands add a student (with duplicate checks) and delete
  one by name.
- A second, daily ranking script (`update_leaderboard.py`) re-ranks the
  store with its own, flatter record shape.
- A browser page and a small Express server show the board. The page
  computes the class labels, the rank arrows, the countdown and the podium
  plus two-column layout. The server serves per-category ratings with nulls
  last, behind two short-lived caches.

The model is purely functional:

- Records are immutable datatypes.
- Every list operation is a function over `seq`.
- The clock, the HTTP and Slack clients, and the file reads and writes are
  parameters: a fetch is a function `string -> Option<...>`, and a store
  read is an `Option<seq<...>>`.
- All rankings share one stable descending insertion sort (`Ordering`). It
  is proved to be a permutation, sorted, and stable, in the sense that the
  elements of each key keep their input order.

Modules, one per source component:

| module | file | models |
|---|---|---|
| `Wrappers` | wrappers.dfy | `Option`, `Result` |
| `Text` | text.dfy | `isdigit`/`int`, `parseInt`, `String(n)`, `lower`/`upper`, `split()`, `split(' ', 1)`, `padStart` |
| `Ordering` | ordering.dfy | the stable descending sort, `Map`, subsequences, `s[-n:]` |
| `Players` | players.dfy | the stored record and the configuration constants |
| `ChessApi` | chess_api.dfy | `app/chess_api.py` |
| `Updater` | updater.dfy | `app/chess_updater.py` |
| `Scenarios` | scenarios.dfy | worked examples of the cohort filter and rank pass |
| `Roster` | roster.dfy | the workers of `api_server.py` |
| `Leaderboard` | leaderboard.dfy | `update_leaderboard.py` |
| `Frontend` | frontend.dfy | the helpers of `static/app.js` |
| `RatingsServer` | ratings_server.dfy | `server.js` |

Where the code and its own comments disagree, the model follows the code:

- `remove_expired_promos` drops every record whose promo is missing, empty
  or not all digits (`"B2"`, `"2027abc"`), not only graduated cohorts.
- `update_player_rank` writes into `previousRank` the position in the
  *sorted* list it has just produced, so after the pass `previousRank` is
  1..N in list order. The cycle saves its list sorted by rapid score and
  the page sorts by the same key, so this position is the rank the last
  published board showed (`Frontend.RankPassRecordsPublishedBoard`). It
  differs only when records expired, or the list was replaced through
  `/api/players`, between two cycles. The daily script instead records the
  position *before* its sort.
- The "keep the best" `max` in the merge runs after
  `player['rapid'] = new_stats['rapid']` has made the player's object the
  provider's object. It therefore compares the provider's best with itself,
  and the stored best is overwritten, never kept (`Updater.OldBestIsNotKept`).

## Model

| member | source | states |
|---|---|---|
| Updater.ShouldRunUpdate | app/chess_updater.py:13-31 | the update may run iff the weekday is in `WORKING_DAYS` and the hour is at least `START_HOUR` |
| Updater.WorkingWindow | app/config.py:29-30 | with the configured constants the window is exactly Monday–Friday from 06:00 to the end of the day |
| Updater.KeepUnexpired | app/chess_updater.py:47-50 | a record is kept iff its promo is a non-empty all-digit string whose value exceeds the current year; every unexpired record keeps all its copies and every expired one loses them all; kept records keep their input order |
| Updater.RemoveExpiredPromos | app/chess_updater.py:44-60 | the filter returns the kept records, and `removed` is the number of input positions holding an expired record, so kept plus removed is the input length |
| Scenarios.ExpiryExample | app/chess_updater.py:47-52 | in 2025 a 2024 promo and the non-numeric promo "B2" are removed, a 2026 promo is kept, and `removed` is 2 |
| Updater.UpdatePlayerRank | app/chess_updater.py:62-79 | the output, ignoring ranks, is a stable permutation of the input sorted by rapid score (missing = 0), highest first; the ranks read in list order are exactly 1..N |
| Updater.RanksAreOneToN | app/chess_updater.py:76-77 | the rank pass hands out each of 1..N exactly once |
| Scenarios.RankPassOfThree | app/chess_updater.py:73-77 | for any three stored players with scores b > a > c, the rank pass returns b, a, c with previous ranks 1, 2, 3 |
| Scenarios.ExampleRankPass | app/chess_updater.py:73-77 | a store a(1000), b(1200), c(900) ranks as b=1, a=2, c=3: previous ranks come from the sorted order, not the stored one |
| Updater.UpdateHistory7Days | app/chess_updater.py:81-111 | on the day of the last history update nothing changes; otherwise the score is appended, only the newest seven are kept (length min(old+1, 7), newest last), and the date is set to today; no other field changes |
| Updater.HistorySameDayIdempotent | app/chess_updater.py:93-99 | two history updates on the same day equal one |
| Updater.HistoryOverDistinctDays | app/chess_updater.py:101-109 | over refreshes on successive distinct days the history is the last seven of old history followed by all observed scores |
| Updater.HistoryKeepsLastSevenObservations | app/chess_updater.py:101-109 | after seven or more such days the history is exactly the last seven observed scores, oldest first |
| Updater.RefreshOne | app/chess_updater.py:157-195 | one loop step keeps `previousRank` and username; the rapid score becomes the provider's on a successful fetch of a named player and is otherwise unchanged |
| Updater.SuccessfulRefresh | app/chess_updater.py:171-189 | a successful fetch sets rapid, blitz (best included) and the record to the provider's values, replaces the avatar only with a non-empty one, updates the history once per day with the new rapid score, and leaves every other field unchanged |
| Updater.OldBestIsNotKept | app/chess_updater.py:173-178 | a stored best of 2000 is replaced by the provider's best of 1800: the `max` does not keep the historical best |
| Updater.FailedRefreshKeepsRecord | app/chess_updater.py:158-160 | a player without a username, or whose fetch fails, keeps its record unchanged |
| Updater.RefreshAll | app/chess_updater.py:154-195 | each record is refreshed in place with its own outcome; `updated` counts the named players fetched successfully and `errors` the named players whose fetch failed, so `updated + errors <= total` |
| Updater.UpdateAllPlayers | app/chess_updater.py:113-224 | outside the window the result is failure before any load; an unreadable store is failure; "no successful updates" happens iff no unexpired named player is fetched successfully; a saved snapshot is sorted by rapid score, holds exactly the unexpired records (`total`, `removed` match), has `updated > 0` and `updated + errors <= total`, and its previous ranks are exactly 1..total; whenever the window is open, the store reads and some unexpired named player is fetched, the cycle saves if the write succeeds and reports a save failure otherwise; a saved snapshot is the stable sort by rapid score of the refresh pass over the re-ranked unexpired records, with that pass's `updated` and `errors` and the number of expired records as `removed` |
| Updater.AnySuccessInRanked | app/chess_updater.py:151-201 | whether any fetch succeeds does not depend on the ranking: it is decided on the unexpired records alone |
| Updater.SavedSnapshotProvenance | app/chess_updater.py:144-205 | each record of a saved snapshot is a stored unexpired record with a new rank, refreshed with its own fetch; if its fetch failed it equals the stored record apart from the rank |
| ChessApi.FetchPlayerProfile | app/chess_api.py:8-27 | the profile is present iff the request answered 200 with a body |
| ChessApi.PickRecord | app/chess_api.py:69-76 | the W/L/D record comes from rapid if present and non-empty, else from blitz, else zeros; missing keys read as 0 |
| ChessApi.FetchPlayerStats | app/chess_api.py:29-85 | the result is present iff the stats request answered 200 with a body; ratings default to 0; the avatar is the profile's or "" |
| ChessApi.StatsFailureWins | app/chess_api.py:53-56 | a non-200 or raised stats request gives None whatever the profile request did |
| ChessApi.ProfileFailureOnlyBlanksAvatar | app/chess_api.py:47-50 | a failed profile request never yields None by itself: the result differs from any other profile's only in the avatar, which is "" |
| ChessApi.MissingModesReadAsZero | app/chess_api.py:59-76 | a 200 answer lacking both rating sections still succeeds, with ratings 0/0 and an all-zero record |
| Roster.ParseCommand | api_server.py:75-78 | the three fields contain no whitespace and the class has no lower-case letter |
| Roster.ParseCommandOfWords | api_server.py:75-78 | words typed with single spaces come back as pseudo, promo and upper-cased class; missing ones are "" |
| Roster.ParseCommandOfSpacedWords | api_server.py:75-78 | the same holds for words separated by any runs of whitespace, with any leading and trailing whitespace |
| Roster.ResolveNames | api_server.py:96-106 | the profile's own names when either is set; otherwise `real_name` cut at its first space (the whole name and "" when it has no space) |
| Roster.ResolveNamesFromRealName | api_server.py:101-106 | a `real_name` "first rest" with a space-free first word resolves to (first, rest) |
| Roster.NewRecord | api_server.py:120-139 | the new record has `previousRank` 0, a history of seven copies of the rapid score, `lastHistoryUpdate` today, and the command's and provider's values elsewhere |
| Roster.AddAccount | api_server.py:73-172 | a set user id without a token fails; an empty pseudo fails; success iff the stats fetch succeeds, the username is new, and (when both names are known) no record matches both names ignoring case; on success the new record is appended and every existing record is unchanged |
| Roster.AddKeepsUniqueUsernames | api_server.py:150-164 | adding preserves pairwise-distinct usernames |
| Roster.NoPseudoIgnoresStore | api_server.py:110-112 | with an empty pseudo the outcome depends on neither the stats client nor the store |
| Roster.UnreadableStoreReadsEmpty | api_server.py:143-147 | on add, an unreadable store behaves as an empty list |
| Roster.RemoveByName | api_server.py:241-251 | removal keeps exactly the records not matching both names ignoring case, in order, each non-matching record with all its copies; the length is unchanged iff nothing matched |
| Roster.RemoveByNameAppend | api_server.py:241-247 | removal distributes over appending a record |
| Roster.RemoveByNameAbsent | api_server.py:241-247 | removal with no match leaves the store as it is |
| Roster.DeleteAccount | api_server.py:191-282 | a missing user id, missing token or failed lookup fails; success iff both names are known, the store is readable, some record matches and the write succeeds; the result is the store without the matching records, in order, every other record keeping all its copies, and strictly shorter |
| Roster.DeleteUndoesAdd | api_server.py:150-168 | deleting right after a successful add by the same user, whose names are both known, gives back the store as before the add |
| Roster.UpdatePlayers | api_server.py:40-50 | a non-list payload answers 400; 200 iff the payload is a list and the write succeeds, and then the store is that list |
| Leaderboard.FetchChessComRating | update_leaderboard.py:36-64 | `success` iff `current` is present; every error path gives (null, null, false); otherwise current and best are the rapid section's `last`/`best` ratings |
| Leaderboard.NoLastIsFailure | update_leaderboard.py:48-54 | a rapid section without `last.rating` is a failed reading whatever its best |
| Leaderboard.MergeReading | update_leaderboard.py:93-99 | a success overwrites current and best; a failure leaves the record unchanged |
| Leaderboard.FailedFetchKeepsRating | update_leaderboard.py:90-101 | a failed fetch keeps the old rating, a successful one replaces both values |
| Leaderboard.CountCall | update_leaderboard.py:78-91 | after each call the per-minute counter lies in 1..300 |
| Leaderboard.CountCallAdvances | update_leaderboard.py:78-91 | counting a call after `i` earlier ones makes it call `i mod 300 + 1` of its window |
| Leaderboard.FetchAllRatings | update_leaderboard.py:66-109 | same count and order, each record merged with its own reading, and the i-th call is call `i mod 300 + 1` of its window, never beyond the 300th |
| Leaderboard.OldRanks | update_leaderboard.py:122-124 | each username maps to its last 1-based position in the input |
| Leaderboard.AppendScore | update_leaderboard.py:142-153 | the score is appended and the newest seven kept only when it is present and non-zero; nothing else changes |
| Leaderboard.UpdateRankings | update_leaderboard.py:111-170 | the output, ignoring ranks, is a stable permutation of the history-advanced input sorted by `current or 0`; each `previousRank` is the player's last 1-based position in the input |
| Leaderboard.TwoRunsAppendTwice | update_leaderboard.py:141-153 | with no per-day guard, two runs append the score twice |
| Frontend.ClassLabel | static/app.js:108-114 | 1..5 years to graduation name the study year B1..M2 counted back from graduation, more than five is B1, zero or fewer is "Diplômé" |
| Frontend.CalculateClass | static/app.js:103-117 | the dash iff the promo is empty, the dash, or `parseInt` gives NaN; otherwise the label for `parseInt(promo) - currentYear` |
| Frontend.ClassOfYear | static/app.js:106-107 | a year written in digits is read back exactly by `parseInt` |
| Frontend.KeptPlayersHaveAClass | static/app.js:103-117 | every record the back-end filter keeps is shown with one of B1..M2 |
| Frontend.DirectionFor | static/app.js:134-145 | up iff rank < previous, down iff rank > previous, neutral iff previous is null or equal |
| Frontend.NewcomerShowsDown | static/app.js:134-145 | a previous rank of 0, as a fresh record has, always shows down |
| Frontend.ClientOrder | static/app.js:131 | the client sort is a stable permutation sorted by rapid score (missing = 0), highest first |
| Frontend.ClientKeepsSortedOrder | static/app.js:131 | a store saved in rank order is shown in stored order |
| Frontend.RankPassRecordsPublishedBoard | app/chess_updater.py:73-77 | on a list sorted by rapid score, as the cycle saves it, the rank pass gives each record its position on the board the page draws from that list: same record, same order, `previousRank` equal to the shown rank |
| Frontend.BoardRows | static/app.js:131-147 | at most fifty rows; row i shows rank i+1, the i-th player of the client order, and its arrow |
| Frontend.CountdownText | static/app.js:282-289 | the text is `mm:ss`: at least two digits, a colon, exactly two digits |
| Frontend.CountdownRoundTrip | static/app.js:284-287 | reading back, minutes × 60 + seconds is ⌊ms/1000⌋ and the seconds field is below 60 |
| Frontend.PaddedValue | static/app.js:287 | a number below 100, padded, is two digits that read back as the number |
| Frontend.Render | static/app.js:298-439 | the podium holds rows 1..3; each column has exactly 25 lines ranked 4..28 and 29..53; a line holds the row of its rank when there is one among the first 50 and a placeholder otherwise |
| Frontend.RenderShowsFiftyRows | static/app.js:358 | rows past the fiftieth never reach the board: a longer list draws the same board as its first 50 rows |
| Frontend.LastLinesAreAlwaysEmpty | static/app.js:358-363 | only fifty rows reach the board, so ranks 51..53 are always placeholders |
| Frontend.EveryRowIsPlaced | static/app.js:303-438 | every shown row sits on the podium or a column at the line its rank names |
| RatingsServer.MapCategoryToStatKey | server.js:25-36 | total; always one of the five stats sections; any unknown category reads blitz |
| RatingsServer.EveryStatKeyIsReachable | server.js:25-36 | each stats section is selected by its short category name, and blitz and rapid also by their `live_` aliases |
| RatingsServer.RequestedCategory | server.js:77 | the category is never empty: the query when non-empty, else blitz |
| RatingsServer.ExtractRatings | server.js:96-101 | current is `last.rating`, else the section's `rating`, and best is `best.rating`; both null without stats or the section |
| RatingsServer.ServerAndScriptAgreeOnRapid | server.js:99-100 | on the rapid section the server and the daily ranking script read the same current rating when `last.rating` exists, and the same best |
| RatingsServer.PropertyOf | server.js:106 | a property read on the parsed scores object: an own key gives its score, a name inherited from `Object.prototype` gives that member, anything else `undefined` |
| RatingsServer.LastKnown | server.js:106 | the category's score, or the inherited member a category named like one reads; only when the category reads as nullish, the stat key's score; else null |
| RatingsServer.StatKeyIsNeverInherited | server.js:25-36 | the stats-section fallback never reads an inherited member: only the category itself can |
| RatingsServer.PrototypeCategoryShowsNeutral | server.js:106-111 | a category such as `toString` with no own score reads the inherited member, not the stat key's score, so the row's direction is neutral whatever the ratings |
| RatingsServer.Movement | server.js:107-111 | up iff both are present, the last known value is a number and current > last known; down likewise with current < last known; an inherited member compares as NaN and gives neutral |
| RatingsServer.MovementMirrorsRankDirection | server.js:107-111 | the rating movement is the board's rank direction with the order reversed |
| RatingsServer.BuildRow | server.js:90-124 | a row carries the entry's identity, the extracted ratings, the last known score, the movement between them, and the profile's avatar or null |
| RatingsServer.RatingRows | server.js:90-129 | one row per entry, a stable permutation sorted by current rating, highest first |
| RatingsServer.MissingRatingsComeLast | server.js:128-129 | after a row without a rating every row lacks one |
| RatingsServer.EveryPlayerHasARow | server.js:90-126 | every roster entry's row appears in the answer |
| RatingsServer.FetchProfileCached | server.js:50-64 | a profile cached less than 60 000 ms ago is served without a request; otherwise the request's answer, cached under now only on success |
| RatingsServer.ProfileServedFromCacheWithinAMinute | server.js:52-56 | a fetched profile is returned again, whatever the network says, by any call within the next minute |
| RatingsServer.FailedProfileIsNotCached | server.js:59-62 | a failed request caches nothing |
| RatingsServer.ServeRatings | server.js:81-84 | a ratings answer cached less than 15 000 ms ago is served; otherwise the fresh answer, cached only when it was built |
| RatingsServer.RatingsServedFromCacheWithinTtl | server.js:23 | within 15 s of being stored an answer is served again unchanged, and other categories' entries are untouched |
| Ordering.SortDescIsStable | server.js:129 | the shared sort is a permutation, sorted highest first, and stable per key |
| Ordering.SortDescOfSorted | static/app.js:131 | sorting a sorted list changes nothing |
| Text.ParseIntIgnoresTail | static/app.js:107 | `parseInt` reads the digit prefix of "2027abc" as 2027, where `isdigit` rejects the string |
| Text.SplitJoinRoundTrip | api_server.py:75 | splitting words joined by single spaces gives back the words |
| Text.SplitSpacedRoundTrip | api_server.py:75 | splitting words separated by non-empty whitespace runs, with optional whitespace at both ends, gives back the words |
| Text.WhitespaceTablesDiffer | api_server.py:75 | Python's `split` separates on `\x1c`, which JavaScript's `parseInt` does not skip, and `parseInt` skips U+FEFF, which `split` keeps |

## Left out

- Flask routes, Slack `response_url` posting, Express serving and all HTTP
  calls. Their answers are parameters, and reply texts are the error
  constructors.
- The lock `PLAYERS_JSON_LOCK`, the worker threads and the scheduler's
  single-instance setting. These are concurrency.
- The `time.sleep` rate-limit pauses, the clock readings, and the
  temporary-file save with `shutil.move`. The clock readings are
  parameters, and a save is "the written store is the final list" or a
  failure flag.
- `sparkline`, `renderWinLossDraw` percentages, DOM and HTML building,
  `setStatus` and `setLastUpdated`. These are floating point and
  presentation.
- `updateDailyHistory` and `loadHistoryFromCache`. These are localStorage
  I/O and are never called.
- The root `app.js` (a superseded copy), `generate_fake_data.py`,
  `generate_players.py` and `test_update.py` (data generators and an ad-hoc
  script), and `app/scheduler.py` (wiring). The constants of
  `app/config.py` are reused as Dafny constants.
- The `main` function of `update_leaderboard.py` only chains load,
  `fetch_all_ratings`, `update_rankings` and save. It has no model of its
  own.
- JSON values of the wrong type are not modelled. This covers a numeric
  promo (which makes `isdigit` raise), `null` names or ratings, and
  non-object store entries (which the workers skip with `isinstance`).
- Missing keys are not modelled: records are typed, so every record has
  every field. Where the source reads a key with `get`, the field's value
  in the model is that default. Where it indexes the key directly, a record
  without it raises `KeyError`, and the model has no such abort. The
  affected reads are `p['username']` in the removal log
  (app/chess_updater.py:55, reached when an expired record has no
  username, which ends the cycle before the save) and `player['username']`
  or the printed names in update_leaderboard.py:87, 124, 136 and 166,
  which end that script.
- Text: digits and letter case are ASCII only. Python's Unicode-aware
  `isdigit` and `lower`/`upper` are modelled on ASCII digits and letters.
  Whitespace is not ASCII only. `Text.IsSpace` is Python's `str.isspace`
  table, which `split` uses. `Text.IsJsSpace` is JavaScript's whitespace
  and line-terminator set, which `parseInt` skips.
- Updater.UpdateAllPlayers: one `Clock` reading serves the whole cycle.
  The source reads the clock separately for the working-hours gate
  (app/chess_updater.py:18), for the expiry year (line 44) and for each
  record's history date (line 93). A cycle that crosses midnight or New
  Year can therefore date records differently; the model does not cover
  that.
- Updater.UpdateAllPlayers: the fetch is a function of the username, so
  two records sharing a username get the same answer. The source makes two
  separate requests, which could differ.
- Frontend.CalculateClass: JavaScript numbers are unbounded integers here.
  Precision loss for promos beyond 2^53 is not modelled.
- Frontend.BoardRows: a `Player` always has a `previousRank`, so rows
  pass it as present. `DirectionFor` covers the `null`/missing case, but
  records uploaded through `/api/players` without a `previousRank` are not
  modelled. The page shows them with the neutral arrow until the next
  refresh cycle ranks them.
- Leaderboard.FetchAllRatings: the counter's reset also waits out the rest
  of the minute. Only the counter is modelled, not the elapsed time.
- Roster.AddAccount: a failed write after the duplicate checks raises an
  uncaught exception in the worker thread. The model treats the write as
  always succeeding.
- RatingsServer.BuildRow: the JSON encoding of the row is not modelled.
  A `lastKnown` that is an inherited function is left out of the answer,
  and `__proto__` is written as `{}`. The row holds `PrototypeMember`
  instead.
- RatingsServer.RatingRows: a stats section present in the JSON as `null`
  is falsy in the server and reads as absent. Sections are typed here, so
  that case does not arise.
