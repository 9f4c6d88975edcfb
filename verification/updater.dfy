/** The refresh cycle of `app/chess_updater.py`: the working-hours gate, the
    cohort-expiry filter, the rank pass, the once-a-day rolling history, the
    per-player merge of fetched stats and the orchestrator that sequences
    them. The clock and the stats provider are inputs; the save is modelled
    as "the persisted snapshot is the final list". */
module Updater {
  import opened Wrappers
  import opened Text
  import opened Ordering
  import opened Players

  /** `should_run_update` on the weekday (0 = Monday) and hour of `now`. */
  function ShouldRunUpdate(weekday: int, hour: int): (ok: bool)
    ensures ok <==> weekday in WORKING_DAYS && hour >= START_HOUR
  {
    if weekday !in WORKING_DAYS then false
    else if hour < START_HOUR then false
    else true
  }

  /** With the configured constants the window is Monday to Friday from 06:00. */
  lemma WorkingWindow(weekday: int, hour: int)
    requires 0 <= weekday <= 6 && 0 <= hour <= 23
    ensures ShouldRunUpdate(weekday, hour) <==> weekday <= 4 && hour >= 6
  {
  }

  /** A player survives the cohort filter when its promo is a non-empty
      digit string whose value is after the current year; a missing,
      empty or non-numeric promo does not survive. */
  predicate Unexpired(p: Player, currentYear: int) {
    IsDigits(p.promo) && DecimalValue(p.promo) > currentYear
  }

  /** The test of the cohort filter's list comprehension. */
  function StillEnrolled(currentYear: int): Player -> bool {
    p => Unexpired(p, currentYear)
  }

  /** The unexpired players in their original order: every unexpired record
      keeps all its copies and every expired one loses them all. */
  function KeepUnexpired(ps: seq<Player>, currentYear: int): (kept: seq<Player>)
    ensures forall p :: p in kept <==> p in ps && Unexpired(p, currentYear)
    ensures forall p :: multiset(kept)[p] == if Unexpired(p, currentYear) then multiset(ps)[p] else 0
    ensures IsSubsequence(kept, ps)
    ensures |kept| <= |ps|
  {
    var keep := StillEnrolled(currentYear);
    FilterFacts(ps, keep);
    FilterCount(ps, keep);
    assert forall p :: keep(p) == Unexpired(p, currentYear);
    Filter(ps, keep)
  }

  /** The positions of the expired records. */
  ghost function ExpiredPositions(ps: seq<Player>, currentYear: int): set<int> {
    set i | 0 <= i < |ps| && !Unexpired(ps[i], currentYear)
  }

  datatype Filtered = Filtered(kept: seq<Player>, removed: nat)

  /** `remove_expired_promos`: the unexpired players in their original order,
      and how many records were expired. */
  function RemoveExpiredPromos(ps: seq<Player>, currentYear: int): (r: Filtered)
    ensures r.kept == KeepUnexpired(ps, currentYear)
    ensures r.removed == |ExpiredPositions(ps, currentYear)|
    ensures |r.kept| + r.removed == |ps|
  {
    var kept := KeepUnexpired(ps, currentYear);
    FilterCount(ps, StillEnrolled(currentYear));
    assert Dropped(ps, StillEnrolled(currentYear)) == ExpiredPositions(ps, currentYear);
    Filtered(kept, |ps| - |kept|)
  }

  function Unranked(p: Player): Player {
    p.(previousRank := 0)
  }

  function PreviousRank(p: Player): int {
    p.previousRank
  }

  /** `[1, 2, ..., n]`. */
  function Positions(n: nat): (r: seq<int>)
    ensures |r| == n
    ensures forall i :: 0 <= i < n ==> r[i] == i + 1
  {
    seq(n, i => i + 1)
  }

  /** `previousRank` set to the 1-based position in `s`. */
  function AssignRanks(s: seq<Player>): (r: seq<Player>)
    ensures |r| == |s|
    ensures forall i :: 0 <= i < |s| ==> r[i] == s[i].(previousRank := i + 1)
  {
    seq(|s|, i requires 0 <= i < |s| => s[i].(previousRank := i + 1))
  }

  lemma AssignRanksKeepsRecords(s: seq<Player>)
    ensures Map(Unranked, AssignRanks(s)) == Map(Unranked, s)
  {
  }

  lemma AssignRanksPositions(s: seq<Player>)
    ensures Map(PreviousRank, AssignRanks(s)) == Positions(|s|)
  {
  }

  lemma AssignRanksKeepsOrder(s: seq<Player>)
    requires SortedDesc(s, RapidKey)
    ensures SortedDesc(AssignRanks(s), RapidKey)
  {
    var r := AssignRanks(s);
    assert forall i :: 0 <= i < |s| ==> RapidKey(r[i]) == RapidKey(s[i]);
  }

  /** `update_player_rank`: stable sort by rapid score, highest first, then
      every player's `previousRank` is overwritten with its 1-based position
      in the sorted output (not its position before the sort). */
  function UpdatePlayerRank(ps: seq<Player>): (r: seq<Player>)
    ensures |r| == |ps|
    ensures Map(PreviousRank, r) == Positions(|ps|)
    ensures SortedDesc(r, RapidKey)
    ensures IsStableSortOf(Map(Unranked, r), Map(Unranked, ps), RapidKey)
  {
    var s := SortDesc(ps, RapidKey);
    AssignRanksKeepsRecords(s);
    AssignRanksPositions(s);
    AssignRanksKeepsOrder(s);
    MapSortDesc(Unranked, ps, RapidKey, RapidKey);
    SortDescIsStable(Map(Unranked, ps), RapidKey);
    AssignRanks(s)
  }

  /** The rank pass hands out the ranks 1..N, each exactly once. */
  lemma RanksAreOneToN(ps: seq<Player>)
    ensures multiset(Map(PreviousRank, UpdatePlayerRank(ps))) == multiset(Positions(|ps|))
  {
  }

  /** `update_history_7days`: at most one entry per calendar day; on a new
      day `newCurrent` is appended and only the newest seven entries kept. */
  function UpdateHistory7Days(p: Player, newCurrent: int, today: string): (r: Player)
    ensures r.lastHistoryUpdate == today
    ensures r.(history := p.history, lastHistoryUpdate := p.lastHistoryUpdate) == p
    ensures p.lastHistoryUpdate == today ==> r.history == p.history
    ensures p.lastHistoryUpdate != today ==>
      && |r.history| == (if |p.history| + 1 < HISTORY_DAYS then |p.history| + 1 else HISTORY_DAYS)
      && r.history[|r.history| - 1] == newCurrent
      && r.history == (p.history + [newCurrent])[|p.history| + 1 - |r.history|..]
  {
    if p.lastHistoryUpdate == today then p
    else p.(history := LastN(p.history + [newCurrent], HISTORY_DAYS), lastHistoryUpdate := today)
  }

  /** Refreshing twice on the same day is refreshing once. */
  lemma HistorySameDayIdempotent(p: Player, first: int, second: int, today: string)
    ensures UpdateHistory7Days(UpdateHistory7Days(p, first, today), second, today)
         == UpdateHistory7Days(p, first, today)
  {
  }

  /** The history updates of consecutive refreshes, one per element of
      `days`, with the scores observed on those days. */
  function ApplyDays(p: Player, scores: seq<int>, days: seq<string>): Player
    requires |scores| == |days|
    decreases |scores|
  {
    if scores == [] then p
    else
      var n := |scores| - 1;
      UpdateHistory7Days(ApplyDays(p, scores[..n], days[..n]), scores[n], days[n])
  }

  /** Over a run of refreshes each on a different day from the one before,
      the history is the last seven of the old history followed by every
      observed score: after seven or more days, exactly the last seven
      observations, oldest first. */
  lemma {:induction false} HistoryOverDistinctDays(p: Player, scores: seq<int>, days: seq<string>)
    requires |scores| == |days| > 0
    requires days[0] != p.lastHistoryUpdate
    requires forall i :: 0 < i < |days| ==> days[i] != days[i - 1]
    ensures ApplyDays(p, scores, days).history == LastN(p.history + scores, HISTORY_DAYS)
    ensures ApplyDays(p, scores, days).lastHistoryUpdate == days[|days| - 1]
    decreases |scores|
  {
    var n := |scores| - 1;
    var before := ApplyDays(p, scores[..n], days[..n]);
    assert ApplyDays(p, scores, days) == UpdateHistory7Days(before, scores[n], days[n]);
    AppendSplitLast(p.history, scores);
    if n == 0 {
      assert before == p;
      assert p.history + scores == p.history + [scores[n]];
    } else {
      var earlier := days[..n];
      assert earlier[0] == days[0];
      assert forall i :: 0 < i < |earlier| ==> earlier[i] != earlier[i - 1] by {
        forall i | 0 < i < |earlier| ensures earlier[i] != earlier[i - 1] {
          assert earlier[i] == days[i] && earlier[i - 1] == days[i - 1];
        }
      }
      HistoryOverDistinctDays(p, scores[..n], earlier);
      assert before.lastHistoryUpdate == days[n - 1] != days[n];
      assert before.history == LastN(p.history + scores[..n], HISTORY_DAYS);
      LastNAppend(p.history + scores[..n], scores[n], HISTORY_DAYS);
    }
  }

  /** After seven or more refreshes on successive distinct days the history
      is exactly the last seven observed scores, oldest first. */
  lemma HistoryKeepsLastSevenObservations(p: Player, scores: seq<int>, days: seq<string>)
    requires |scores| == |days| >= HISTORY_DAYS
    requires days[0] != p.lastHistoryUpdate
    requires forall i :: 0 < i < |days| ==> days[i] != days[i - 1]
    ensures ApplyDays(p, scores, days).history == scores[|scores| - HISTORY_DAYS..]
  {
    HistoryOverDistinctDays(p, scores, days);
    LastNOfLongTail(p.history, scores, HISTORY_DAYS);
  }

  function Max(a: int, b: int): int {
    if a >= b then a else b
  }

  /** Lines 172-189 of a successful fetch. `player['rapid'] = new_stats['rapid']`
      makes the player's dict the provider's dict, so the "keep the best"
      `max` that follows compares the provider's best with itself. */
  function ApplyStats(p: Player, s: Stats, today: string): Player {
    var rapid := s.rapid.(best := Max(s.rapid.best, s.rapid.best));
    var blitz := s.blitz.(best := Max(s.blitz.best, s.blitz.best));
    var merged := p.(rapid := Some(rapid), blitz := Some(blitz), record := Some(s.record),
                     avatar := if s.avatar != "" then s.avatar else p.avatar);
    UpdateHistory7Days(merged, s.rapid.current, today)
  }

  /** One iteration of the refresh loop: a player without a username is
      skipped, a failed fetch keeps the old record, a successful one merges. */
  function RefreshOne(p: Player, outcome: Option<Stats>, today: string): (r: Player)
    ensures r.previousRank == p.previousRank && r.username == p.username
    ensures RapidScore(r) == if p.username != "" && outcome.Some? then outcome.value.rapid.current else RapidScore(p)
  {
    if p.username == "" then p
    else
      match outcome
      case None => p
      case Some(s) => ApplyStats(p, s, today)
  }

  /** What a successful fetch does to a named player: both rating modes,
      best included, become the provider's values (the old best is not
      kept), the record is replaced, the avatar only by a non-empty one, the
      history takes the new rapid score once per day, and the identity
      fields and `previousRank` are untouched. */
  lemma SuccessfulRefresh(p: Player, s: Stats, today: string)
    requires p.username != ""
    ensures var r := RefreshOne(p, Some(s), today);
      && r.rapid == Some(s.rapid)
      && r.blitz == Some(s.blitz)
      && r.record == Some(s.record)
      && r.avatar == (if s.avatar != "" then s.avatar else p.avatar)
      && r.history == (if p.lastHistoryUpdate == today then p.history
                       else LastN(p.history + [s.rapid.current], HISTORY_DAYS))
      && r.lastHistoryUpdate == today
      && r.(rapid := p.rapid, blitz := p.blitz, record := p.record, avatar := p.avatar,
            history := p.history, lastHistoryUpdate := p.lastHistoryUpdate) == p
  {
  }

  /** A stored best above the provider's best is overwritten, not kept. */
  lemma OldBestIsNotKept()
    ensures var p := Player("magnus", "", "", "2030", "", 1, Some(Rating(1500, 2000)),
                            None, [], "", None, "");
            var s := Stats(Rating(1400, 1800), Rating(0, 0), WinLossDraw(0, 0, 0), "");
            RefreshOne(p, Some(s), "2026-01-05").rapid.value.best == 1800
  {
  }

  /** A failed fetch, or a player without a username, leaves the record as it was. */
  lemma FailedRefreshKeepsRecord(p: Player, outcome: Option<Stats>, today: string)
    requires p.username == "" || outcome.None?
    ensures RefreshOne(p, outcome, today) == p
  {
  }

  /** The positions of the named players whose fetch succeeded (`fetched`)
      or failed (`!fetched`). */
  ghost function Indices(ps: seq<Player>, os: seq<Option<Stats>>, fetched: bool): set<int>
    requires |os| == |ps|
  {
    set i | 0 <= i < |ps| && ps[i].username != "" && os[i].Some? == fetched
  }

  ghost function SuccessIndices(ps: seq<Player>, os: seq<Option<Stats>>): set<int>
    requires |os| == |ps|
  {
    Indices(ps, os, true)
  }

  ghost function FailureIndices(ps: seq<Player>, os: seq<Option<Stats>>): set<int>
    requires |os| == |ps|
  {
    Indices(ps, os, false)
  }

  /** Extending the players by one adds at most its own position. */
  lemma IndicesStep(ps: seq<Player>, os: seq<Option<Stats>>, fetched: bool)
    requires |os| == |ps| > 0
    ensures var n := |ps| - 1;
      |Indices(ps, os, fetched)| == |Indices(ps[..n], os[..n], fetched)|
        + (if ps[n].username != "" && os[n].Some? == fetched then 1 else 0)
  {
    var n := |ps| - 1;
    var s0 := Indices(ps[..n], os[..n], fetched);
    assert n !in s0;
    var extra: set<int> := if ps[n].username != "" && os[n].Some? == fetched then {n} else {};
    assert Indices(ps, os, fetched) == s0 + extra;
  }

  /** The two counters of the refresh loop. */
  function Counts(ps: seq<Player>, os: seq<Option<Stats>>): (c: (nat, nat))
    requires |os| == |ps|
    ensures c.0 == |SuccessIndices(ps, os)| && c.1 == |FailureIndices(ps, os)|
    ensures c.0 + c.1 <= |ps|
    decreases |ps|
  {
    if ps == [] then (0, 0)
    else
      var n := |ps| - 1;
      var prev := Counts(ps[..n], os[..n]);
      var named := ps[n].username != "";
      IndicesStep(ps, os, true);
      IndicesStep(ps, os, false);
      (prev.0 + (if named && os[n].Some? then 1 else 0), prev.1 + (if named && os[n].None? then 1 else 0))
  }

  datatype Pass = Pass(players: seq<Player>, updated: nat, errors: nat)

  /** The refresh loop over the ranked players, with `os[i]` the outcome of
      fetching player `i`: every record is refreshed in place, `updated`
      counts the named players whose fetch succeeded and `errors` those
      whose fetch failed; players without a username are in neither. */
  function RefreshAll(ps: seq<Player>, os: seq<Option<Stats>>, today: string): (r: Pass)
    requires |os| == |ps|
    ensures |r.players| == |ps|
    ensures forall i :: 0 <= i < |ps| ==> r.players[i] == RefreshOne(ps[i], os[i], today)
    ensures r.updated == |SuccessIndices(ps, os)|
    ensures r.errors == |FailureIndices(ps, os)|
    ensures r.updated + r.errors <= |ps|
  {
    var c := Counts(ps, os);
    Pass(seq(|ps|, i requires 0 <= i < |ps| => RefreshOne(ps[i], os[i], today)), c.0, c.1)
  }

  /** The wall-clock readings one cycle uses, taken once. */
  datatype Clock = Clock(weekday: int, hour: int, year: int, today: string)

  /** The summary `update_all_players` returns. Only `Saved` writes the store. */
  datatype CycleResult =
    | OutsideWorkingHours
    | LoadFailed
    | NoSuccessfulUpdates
    | SaveFailed
    | Saved(snapshot: seq<Player>, updated: nat, errors: nat, removed: nat, total: nat)

  /** The fetch outcome of each player, in order. */
  function Outcomes(ps: seq<Player>, fetch: string -> Option<Stats>): (os: seq<Option<Stats>>)
    ensures |os| == |ps|
    ensures forall i :: 0 <= i < |ps| ==> os[i] == fetch(ps[i].username)
  {
    seq(|ps|, i requires 0 <= i < |ps| => fetch(ps[i].username))
  }

  /** `update_all_players`. `load` is the parsed store (`None` when it cannot
      be read), `fetch` the provider, `saveSucceeds` whether the atomic
      replace of the store succeeds. */
  function UpdateAllPlayers(clock: Clock, load: Option<seq<Player>>,
                            fetch: string -> Option<Stats>, saveSucceeds: bool): (r: CycleResult)
    ensures !ShouldRunUpdate(clock.weekday, clock.hour) ==> r == OutsideWorkingHours
    ensures ShouldRunUpdate(clock.weekday, clock.hour) && load.None? ==> r == LoadFailed
    ensures ShouldRunUpdate(clock.weekday, clock.hour) && load.Some? ==>
      (r.NoSuccessfulUpdates? <==>
         forall p :: p in KeepUnexpired(load.value, clock.year) && p.username != "" ==> fetch(p.username).None?)
    ensures r.Saved? ==>
      && load.Some? && saveSucceeds
      && r.total == |r.snapshot| == |KeepUnexpired(load.value, clock.year)|
      && r.removed == |load.value| - r.total
      && 0 < r.updated && r.updated + r.errors <= r.total
      && SortedDesc(r.snapshot, RapidKey)
      && multiset(Map(PreviousRank, r.snapshot)) == multiset(Positions(r.total))
    ensures (&& ShouldRunUpdate(clock.weekday, clock.hour) && load.Some?
             && exists p :: p in KeepUnexpired(load.value, clock.year) && p.username != "" && fetch(p.username).Some?)
        ==> (if saveSucceeds then r.Saved? else r == SaveFailed)
    ensures r.Saved? ==>
      var ranked := UpdatePlayerRank(KeepUnexpired(load.value, clock.year));
      var pass := RefreshAll(ranked, Outcomes(ranked, fetch), clock.today);
      && IsStableSortOf(r.snapshot, pass.players, RapidKey)
      && r.updated == pass.updated && r.errors == pass.errors
      && r.removed == |ExpiredPositions(load.value, clock.year)|
  {
    if !ShouldRunUpdate(clock.weekday, clock.hour) then OutsideWorkingHours
    else
      match load
      case None => LoadFailed
      case Some(stored) =>
        var filtered := RemoveExpiredPromos(stored, clock.year);
        var ranked := UpdatePlayerRank(filtered.kept);
        var pass := RefreshAll(ranked, Outcomes(ranked, fetch), clock.today);
        var final := SortDesc(pass.players, RapidKey);
        RefreshKeepsRanks(ranked, Outcomes(ranked, fetch), clock.today);
        MapSortDescMultiset(PreviousRank, pass.players, RapidKey);
        AnySuccessInRanked(filtered.kept, fetch, clock.today);
        SortDescIsStable(pass.players, RapidKey);
        if pass.updated > 0 then
          if saveSucceeds then Saved(final, pass.updated, pass.errors, filtered.removed, |final|)
          else SaveFailed
        else NoSuccessfulUpdates
  }

  lemma RefreshKeepsRanks(ps: seq<Player>, os: seq<Option<Stats>>, today: string)
    requires |os| == |ps|
    ensures Map(PreviousRank, RefreshAll(ps, os, today).players) == Map(PreviousRank, ps)
  {
  }

  function Username(p: Player): string {
    p.username
  }

  /** No non-empty username in `us` is fetched successfully. */
  ghost predicate NoneFetched(us: seq<string>, fetch: string -> Option<Stats>) {
    forall u :: u in us && u != "" ==> fetch(u).None?
  }

  lemma NoSuccessIndices(ps: seq<Player>, os: seq<Option<Stats>>, fetch: string -> Option<Stats>)
    requires os == Outcomes(ps, fetch)
    ensures |SuccessIndices(ps, os)| == 0 <==> NoneFetched(Map(Username, ps), fetch)
  {
    var us := Map(Username, ps);
    var s := SuccessIndices(ps, os);
    if NoneFetched(us, fetch) {
      forall i | i in s
        ensures false
      {
      }
      assert s == {};
    } else {
      var u :| u in us && u != "" && fetch(u).Some?;
      var i :| 0 <= i < |us| && us[i] == u;
      assert i in s;
    }
  }

  /** The rank pass keeps the same players, so the same usernames. */
  lemma RankPassKeepsUsernames(kept: seq<Player>)
    ensures multiset(Map(Username, UpdatePlayerRank(kept))) == multiset(Map(Username, kept))
  {
    var s := SortDesc(kept, RapidKey);
    assert Map(Username, AssignRanks(s)) == Map(Username, s);
    MapSortDescMultiset(Username, kept, RapidKey);
  }

  lemma NoneFetchedPermutation(a: seq<string>, b: seq<string>, fetch: string -> Option<Stats>)
    requires multiset(a) == multiset(b)
    ensures NoneFetched(a, fetch) == NoneFetched(b, fetch)
  {
    assert forall u :: u in a <==> u in multiset(a);
    assert forall u :: u in b <==> u in multiset(b);
  }

  lemma NoneFetchedPlayers(ps: seq<Player>, fetch: string -> Option<Stats>)
    ensures NoneFetched(Map(Username, ps), fetch) <==>
      forall p :: p in ps && p.username != "" ==> fetch(p.username).None?
  {
    var us := Map(Username, ps);
    if NoneFetched(us, fetch) {
      forall p | p in ps && p.username != ""
        ensures fetch(p.username).None?
      {
        var i :| 0 <= i < |ps| && ps[i] == p;
        assert us[i] in us;
      }
    }
  }

  /** Whether any fetch of the cycle succeeds does not depend on the ranking. */
  lemma AnySuccessInRanked(kept: seq<Player>, fetch: string -> Option<Stats>, today: string)
    ensures var ranked := UpdatePlayerRank(kept);
      RefreshAll(ranked, Outcomes(ranked, fetch), today).updated == 0 <==>
      forall p :: p in kept && p.username != "" ==> fetch(p.username).None?
  {
    var ranked := UpdatePlayerRank(kept);
    NoSuccessIndices(ranked, Outcomes(ranked, fetch), fetch);
    RankPassKeepsUsernames(kept);
    NoneFetchedPermutation(Map(Username, ranked), Map(Username, kept), fetch);
    NoneFetchedPlayers(kept, fetch);
  }

  lemma InSortedMeansIn<T>(q: T, xs: seq<T>, key: T -> Key)
    requires q in SortDesc(xs, key)
    ensures q in xs
  {
    assert q in multiset(SortDesc(xs, key));
  }

  lemma InRefreshedMeansRefreshed(q: Player, ranked: seq<Player>, fetch: string -> Option<Stats>, today: string)
    returns (i: int)
    requires q in RefreshAll(ranked, Outcomes(ranked, fetch), today).players
    ensures 0 <= i < |ranked| && q == RefreshOne(ranked[i], fetch(ranked[i].username), today)
  {
    var players := RefreshAll(ranked, Outcomes(ranked, fetch), today).players;
    i :| 0 <= i < |players| && players[i] == q;
  }

  lemma RankedEntryFromKept(kept: seq<Player>, fetch: string -> Option<Stats>, today: string, q: Player, i: int)
    requires 0 <= i < |kept|
    requires q == RefreshOne(UpdatePlayerRank(kept)[i], fetch(UpdatePlayerRank(kept)[i].username), today)
    ensures exists p :: p in kept && q == RefreshOne(p.(previousRank := q.previousRank), fetch(p.username), today)
  {
    var s := SortDesc(kept, RapidKey);
    assert s[i] in multiset(kept);
    var p := s[i];
    assert UpdatePlayerRank(kept)[i] == p.(previousRank := i + 1);
    assert q.previousRank == i + 1;
    assert p in kept;
  }

  /** Every record the refresh pass produces is a filtered record, re-ranked
      and refreshed with its own fetch outcome. */
  lemma RefreshedRecordsComeFromKept(kept: seq<Player>, fetch: string -> Option<Stats>, today: string, q: Player)
    requires var ranked := UpdatePlayerRank(kept);
      q in SortDesc(RefreshAll(ranked, Outcomes(ranked, fetch), today).players, RapidKey)
    ensures exists p :: p in kept && q == RefreshOne(p.(previousRank := q.previousRank), fetch(p.username), today)
  {
    var ranked := UpdatePlayerRank(kept);
    InSortedMeansIn(q, RefreshAll(ranked, Outcomes(ranked, fetch), today).players, RapidKey);
    var i := InRefreshedMeansRefreshed(q, ranked, fetch, today);
    RankedEntryFromKept(kept, fetch, today, q, i);
  }

  /** What a saved snapshot holds: each record is a stored, unexpired record
      with a new `previousRank`, refreshed with its own fetch outcome; a
      record whose fetch failed is its stored self apart from the rank. */
  lemma SavedSnapshotProvenance(clock: Clock, load: Option<seq<Player>>,
                                fetch: string -> Option<Stats>, saveSucceeds: bool, q: Player)
    requires UpdateAllPlayers(clock, load, fetch, saveSucceeds).Saved?
    requires q in UpdateAllPlayers(clock, load, fetch, saveSucceeds).snapshot
    ensures exists p :: (p in load.value && Unexpired(p, clock.year)
      && q == RefreshOne(p.(previousRank := q.previousRank), fetch(p.username), clock.today))
    ensures fetch(q.username).None? ==>
      exists p :: p in load.value && q == p.(previousRank := q.previousRank)
  {
    var kept := KeepUnexpired(load.value, clock.year);
    RefreshedRecordsComeFromKept(kept, fetch, clock.today, q);
    var p :| p in kept && q == RefreshOne(p.(previousRank := q.previousRank), fetch(p.username), clock.today);
    assert q.username == p.username;
  }
}
