/** The Express server `server.js`: the `/api/ratings` endpoint, which reads
    the roster, asks the stats and profile clients for each player, derives
    the rating for one category and the movement against the last known
    score, and sorts the rows with missing ratings last; plus its two
    in-memory caches. The HTTP clients, the file read and the clock are
    parameters. */
module RatingsServer {
  import opened Wrappers
  import opened Ordering
  import opened ChessApi
  import Leaderboard
  import opened Frontend

  /** Age below which a cached `/api/ratings` answer is served, in ms. */
  const CACHE_TTL: int := 15 * 1000
  /** Age below which a cached profile is served, in ms. */
  const PROFILE_TTL: int := 60 * 1000

  /** The stats sections a category can select. */
  const STAT_KEYS: set<string> := {"chess_blitz", "chess_rapid", "chess_bullet", "chess_daily", "tactics"}

  /** `mapCategoryToStatKey`: the stats section a category reads; anything
      unknown reads the blitz section. */
  function MapCategoryToStatKey(category: string): (key: string)
    ensures key in STAT_KEYS
    ensures category !in {"blitz", "live_blitz", "rapid", "live_rapid", "bullet", "daily", "puzzle_rush"} ==> key == "chess_blitz"
  {
    if category == "live_blitz" || category == "blitz" then "chess_blitz"
    else if category == "live_rapid" || category == "rapid" then "chess_rapid"
    else if category == "bullet" then "chess_bullet"
    else if category == "daily" then "chess_daily"
    else if category == "puzzle_rush" then "tactics"
    else "chess_blitz"
  }

  /** The short category name of each stats section. */
  function CategoryOf(key: string): string {
    if key == "chess_rapid" then "rapid"
    else if key == "chess_bullet" then "bullet"
    else if key == "chess_daily" then "daily"
    else if key == "tactics" then "puzzle_rush"
    else "blitz"
  }

  /** Every stats section is reachable, through its short name and through
      the `live_` alias where there is one. */
  lemma EveryStatKeyIsReachable(key: string)
    requires key in STAT_KEYS
    ensures MapCategoryToStatKey(CategoryOf(key)) == key
    ensures key == "chess_blitz" ==> MapCategoryToStatKey("live_blitz") == key
    ensures key == "chess_rapid" ==> MapCategoryToStatKey("live_rapid") == key
  {
  }

  /** `req.query.category || 'blitz'`. */
  function RequestedCategory(query: Option<string>): (category: string)
    ensures category != ""
    ensures query.Some? && query.value != "" ==> category == query.value
  {
    match query
    case Some(c) => if c == "" then "blitz" else c
    case None => "blitz"
  }

  /** A roster entry as this server reads it; `lastScores` maps category
      names or stat keys to the score last recorded. */
  datatype RosterEntry = RosterEntry(
    username: string,
    firstName: string,
    lastName: string,
    classLetter: string,
    lastScores: Option<map<string, int>>)

  /** The current and best rating of one stats section:
      `last?.rating ?? rating` and `best?.rating`, both `null` when the stats
      are missing or lack the section. */
  function ExtractRatings(stats: Option<StatsDocument>, statKey: string): (r: (Option<int>, Option<int>))
    ensures stats.None? || statKey !in stats.value ==> r == (None, None)
    ensures stats.Some? && statKey in stats.value ==>
      var entry := stats.value[statKey];
      r.0 == (if Leaderboard.RatingOf(entry.last).Some? then Leaderboard.RatingOf(entry.last) else entry.rating)
      && r.1 == Leaderboard.RatingOf(entry.best)
  {
    match stats
    case None => (None, None)
    case Some(doc) =>
      if statKey !in doc then (None, None)
      else
        var entry := doc[statKey];
        var last := Leaderboard.RatingOf(entry.last);
        (if last.Some? then last else entry.rating, Leaderboard.RatingOf(entry.best))
  }

  /** On the rapid section the server and the daily ranking script read the
      same current rating whenever `last.rating` is present; when it is
      absent the server falls back to the top-level `rating`, where the
      script reports a failed reading. */
  lemma ServerAndScriptAgreeOnRapid(doc: StatsDocument)
    requires "chess_rapid" in doc
    ensures Leaderboard.FetchChessComRating(Some(doc)).success ==>
      ExtractRatings(Some(doc), "chess_rapid").0 == Leaderboard.FetchChessComRating(Some(doc)).current
    ensures !Leaderboard.FetchChessComRating(Some(doc)).success ==>
      ExtractRatings(Some(doc), "chess_rapid").0 == doc["chess_rapid"].rating
    ensures ExtractRatings(Some(doc), "chess_rapid").1 == Leaderboard.FetchChessComRating(Some(doc)).best
  {
  }

  /** The names a plain JavaScript object inherits from `Object.prototype`.
      Reading one that is not an own key yields a function (or, for
      `__proto__`, the prototype object itself), never `undefined`. */
  const OBJECT_PROTOTYPE_MEMBERS: set<string> := {
    "constructor", "hasOwnProperty", "isPrototypeOf", "propertyIsEnumerable",
    "toLocaleString", "toString", "valueOf", "__proto__",
    "__defineGetter__", "__defineSetter__", "__lookupGetter__", "__lookupSetter__"}

  /** What a property read on the parsed `lastScores` object gives: `null`
      when the key is neither own nor inherited, the stored number for an
      own key, and the inherited member otherwise. */
  datatype Known = Null | Number(n: int) | PrototypeMember(name: string)

  /** `scores[key]` on an object parsed from JSON: own keys first (JSON
      parsing makes even `"__proto__"` an own key), then the prototype. */
  function PropertyOf(scores: map<string, int>, key: string): (r: Known)
    ensures r.Number? <==> key in scores
    ensures r.Number? ==> r.n == scores[key]
    ensures r.PrototypeMember? <==> key !in scores && key in OBJECT_PROTOTYPE_MEMBERS
    ensures r.PrototypeMember? ==> r.name == key
  {
    if key in scores then Number(scores[key])
    else if key in OBJECT_PROTOTYPE_MEMBERS then PrototypeMember(key)
    else Null
  }

  /** `(lastScores && (lastScores[category] ?? lastScores[statKey])) ?? null`:
      the category's entry unless it reads as nullish, then the stat key's. */
  function LastKnown(p: RosterEntry, category: string, statKey: string): (r: Known)
    ensures p.lastScores.None? ==> r.Null?
    ensures r.Number? ==>
      (p.lastScores.Some?
       && ((category in p.lastScores.value && r.n == p.lastScores.value[category])
           || (category !in p.lastScores.value && category !in OBJECT_PROTOTYPE_MEMBERS
               && statKey in p.lastScores.value && r.n == p.lastScores.value[statKey])))
    ensures r.PrototypeMember? ==>
      (p.lastScores.Some? && category !in p.lastScores.value
       && ((category in OBJECT_PROTOTYPE_MEMBERS && r.name == category)
           || (category !in OBJECT_PROTOTYPE_MEMBERS && statKey !in p.lastScores.value
               && statKey in OBJECT_PROTOTYPE_MEMBERS && r.name == statKey)))
    ensures r.Null? ==>
      (p.lastScores.None?
       || (category !in p.lastScores.value && category !in OBJECT_PROTOTYPE_MEMBERS
           && statKey !in p.lastScores.value && statKey !in OBJECT_PROTOTYPE_MEMBERS))
  {
    match p.lastScores
    case None => Null
    case Some(scores) =>
      var own := PropertyOf(scores, category);
      if own.Null? then PropertyOf(scores, statKey) else own
  }

  /** No stats section is named like an inherited member, so the fallback
      read on the stat key is either a stored score or `null`. */
  lemma StatKeyIsNeverInherited(p: RosterEntry, category: string)
    ensures LastKnown(p, category, MapCategoryToStatKey(category)).PrototypeMember? ==>
      category in OBJECT_PROTOTYPE_MEMBERS
  {
  }

  /** Movement of the current rating against the last known one; neutral
      when either is `null`, and neutral against an inherited member, which
      compares as NaN. */
  function Movement(current: Option<int>, lastKnown: Known): (d: Direction)
    ensures d == Up <==> current.Some? && lastKnown.Number? && current.value > lastKnown.n
    ensures d == Down <==> current.Some? && lastKnown.Number? && current.value < lastKnown.n
  {
    if lastKnown.Number? && current.Some? then
      if current.value > lastKnown.n then Up
      else if current.value < lastKnown.n then Down
      else Neutral
    else Neutral
  }

  /** A category named like an inherited member, with no own score of that
      name, reads the inherited member instead of falling back to the stat
      key, so the movement is neutral whatever the scores say. */

  /** A rating movement is the board's rank movement with the comparison
      turned round: a higher rating is better, a higher rank is worse. */
  lemma MovementMirrorsRankDirection(current: int, lastKnown: int)
    ensures Movement(Some(current), Number(lastKnown)) == DirectionFor(-current, Some(-lastKnown))
  {
  }

  /** One element of the `/api/ratings` answer. In its JSON form a
      `lastKnown` that is an inherited member is left out when it is a
      function and written as `{}` for `__proto__`. */
  datatype RatingRow = RatingRow(
    username: string,
    firstName: string,
    lastName: string,
    classLetter: string,
    best: Option<int>,
    current: Option<int>,
    lastKnown: Known,
    direction: Direction,
    avatar: Option<string>)

  /** The row of one roster entry, given what the stats and profile clients
      answered for it (None for a failed or non-ok request). */
  function BuildRow(p: RosterEntry, category: string, stats: Option<StatsDocument>, profile: Option<Profile>): (row: RatingRow)
    ensures row.username == p.username && row.firstName == p.firstName
    ensures row.lastName == p.lastName && row.classLetter == p.classLetter
    ensures (row.current, row.best) == ExtractRatings(stats, MapCategoryToStatKey(category))
    ensures row.lastKnown == LastKnown(p, category, MapCategoryToStatKey(category))
    ensures row.direction == Movement(row.current, row.lastKnown)
    ensures row.avatar == (if profile.Some? then profile.value.avatar else None)
  {
    var statKey := MapCategoryToStatKey(category);
    var (current, best) := ExtractRatings(stats, statKey);
    var lastKnown := LastKnown(p, category, statKey);
    RatingRow(p.username, p.firstName, p.lastName, p.classLetter, best, current, lastKnown,
      Movement(current, lastKnown), if profile.Some? then profile.value.avatar else None)
  }

  lemma PrototypeCategoryShowsNeutral(p: RosterEntry, category: string,
                                      stats: Option<StatsDocument>, profile: Option<Profile>)
    requires p.lastScores.Some? && category !in p.lastScores.value
    requires category in OBJECT_PROTOTYPE_MEMBERS
    ensures BuildRow(p, category, stats, profile).lastKnown == PrototypeMember(category)
    ensures BuildRow(p, category, stats, profile).direction == Neutral
  {
  }

  /** `current ?? -Infinity`: a missing rating ranks below every rating. */
  function CurrentKey(row: RatingRow): Key {
    match row.current
    case Some(c) => Val(c)
    case None => Bottom
  }

  /** The rows of `/api/ratings`, one per roster entry, highest current
      rating first, ties and missing ratings in roster order. */
  function RatingRows(players: seq<RosterEntry>, category: string,
                      stats: string -> Option<StatsDocument>, profile: string -> Option<Profile>)
    : (rows: seq<RatingRow>)
    ensures |rows| == |players|
    ensures IsStableSortOf(rows, Map((p: RosterEntry) => BuildRow(p, category, stats(p.username), profile(p.username)), players), CurrentKey)
  {
    var built := Map((p: RosterEntry) => BuildRow(p, category, stats(p.username), profile(p.username)), players);
    SortDescIsStable(built, CurrentKey);
    SortDesc(built, CurrentKey)
  }

  /** Once a row without a rating appears, every later row lacks one too. */
  lemma MissingRatingsComeLast(players: seq<RosterEntry>, category: string,
                               stats: string -> Option<StatsDocument>, profile: string -> Option<Profile>, i: nat, j: nat)
    requires i < j < |players|
    requires RatingRows(players, category, stats, profile)[i].current.None?
    ensures RatingRows(players, category, stats, profile)[j].current.None?
  {
    var rows := RatingRows(players, category, stats, profile);
    assert KeyLe(CurrentKey(rows[j]), CurrentKey(rows[i]));
  }

  /** Every roster entry has its row, and nothing else is there. */
  lemma EveryPlayerHasARow(players: seq<RosterEntry>, category: string,
                           stats: string -> Option<StatsDocument>, profile: string -> Option<Profile>, p: RosterEntry)
    requires p in players
    ensures BuildRow(p, category, stats(p.username), profile(p.username)) in RatingRows(players, category, stats, profile)
  {
    var f := (p: RosterEntry) => BuildRow(p, category, stats(p.username), profile(p.username));
    var k :| 0 <= k < |players| && players[k] == p;
    var built := Map(f, players);
    assert built[k] == f(p);
    assert f(p) in multiset(built);
  }

  /** A cached value and the time it was stored, in ms. */
  datatype CacheEntry<T> = CacheEntry(timestamp: int, data: T)

  /** The entry is younger than `ttl` at time `now`. */
  predicate Fresh<T>(entry: CacheEntry<T>, now: int, ttl: int) {
    now - entry.timestamp < ttl
  }

  /** `fetchPlayerProfile` with its cache: a profile stored less than a
      minute ago is returned without a request; otherwise `fetched` is the
      request's answer, stored under `now` when it succeeded. Returns the
      profile and the cache afterwards. */
  function FetchProfileCached(cache: map<string, CacheEntry<Profile>>, username: string, now: int, fetched: Option<Profile>)
    : (r: (Option<Profile>, map<string, CacheEntry<Profile>>))
    ensures username in cache && Fresh(cache[username], now, PROFILE_TTL) ==> r == (Some(cache[username].data), cache)
    ensures !(username in cache && Fresh(cache[username], now, PROFILE_TTL)) ==>
      r.0 == fetched
      && r.1 == (if fetched.Some? then cache[username := CacheEntry(now, fetched.value)] else cache)
  {
    if username in cache && Fresh(cache[username], now, PROFILE_TTL) then (Some(cache[username].data), cache)
    else match fetched
      case None => (None, cache)
      case Some(d) => (Some(d), cache[username := CacheEntry(now, d)])
  }

  /** A profile fetched at `now` is returned again, whatever the network
      says, by any call within the following minute. */
  lemma ProfileServedFromCacheWithinAMinute(cache: map<string, CacheEntry<Profile>>, username: string, now: int,
                                            d: Profile, later: int, refetched: Option<Profile>)
    requires !(username in cache && Fresh(cache[username], now, PROFILE_TTL))
    requires now <= later < now + PROFILE_TTL
    ensures FetchProfileCached(FetchProfileCached(cache, username, now, Some(d)).1, username, later, refetched).0 == Some(d)
  {
  }

  /** A failed request caches nothing: the next call asks again. */
  lemma FailedProfileIsNotCached(cache: map<string, CacheEntry<Profile>>, username: string, now: int, later: int,
                                 refetched: Option<Profile>)
    requires username !in cache
    ensures FetchProfileCached(FetchProfileCached(cache, username, now, None).1, username, later, refetched).0 == refetched
  {
  }

  /** The `/api/ratings` handler with its per-category cache. `computed` is
      the freshly built answer (None when reading the roster fails, which
      answers 500), `doneAt` the time it was stored. Returns the answer and
      the cache afterwards. */
  function ServeRatings(cache: map<string, CacheEntry<seq<RatingRow>>>, category: string, now: int,
                        computed: Option<seq<RatingRow>>, doneAt: int)
    : (r: (Option<seq<RatingRow>>, map<string, CacheEntry<seq<RatingRow>>>))
    ensures category in cache && Fresh(cache[category], now, CACHE_TTL) ==> r == (Some(cache[category].data), cache)
    ensures !(category in cache && Fresh(cache[category], now, CACHE_TTL)) ==>
      r.0 == computed
      && r.1 == (if computed.Some? then cache[category := CacheEntry(doneAt, computed.value)] else cache)
  {
    if category in cache && Fresh(cache[category], now, CACHE_TTL) then (Some(cache[category].data), cache)
    else match computed
      case None => (None, cache)
      case Some(rows) => (Some(rows), cache[category := CacheEntry(doneAt, rows)])
  }

  /** Within fifteen seconds of being stored, an answer is served again
      unchanged; other categories' entries are untouched. */
  lemma RatingsServedFromCacheWithinTtl(cache: map<string, CacheEntry<seq<RatingRow>>>, category: string, now: int,
                                        rows: seq<RatingRow>, doneAt: int, later: int, recomputed: Option<seq<RatingRow>>,
                                        other: string)
    requires !(category in cache && Fresh(cache[category], now, CACHE_TTL))
    requires doneAt <= later < doneAt + CACHE_TTL
    requires other != category
    ensures ServeRatings(ServeRatings(cache, category, now, Some(rows), doneAt).1, category, later, recomputed, later).0 == Some(rows)
    ensures other in cache ==> ServeRatings(cache, category, now, Some(rows), doneAt).1[other] == cache[other]
  {
  }
}
