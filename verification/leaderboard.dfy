/** The daily ranking script `update_leaderboard.py`, a second updater next
    to the refresh cycle that keeps a flatter record: one rating, with
    `current`/`best` at the top level. The HTTP call is a parameter, the
    sleeps and the clock are outside the model; the per-minute call counter
    is kept. */
module Leaderboard {
  import opened Wrappers
  import opened Ordering
  import opened ChessApi

  /** Calls allowed per one-minute window. */
  const RATE_LIMIT_PER_MINUTE: nat := 300
  /** Length of the score history. */
  const HISTORY_LENGTH: nat := 7

  /** A record as this script reads and writes it; `current` and `best` are
      `null` until a fetch succeeds. */
  datatype LegacyPlayer = LegacyPlayer(
    username: string,
    firstName: string,
    lastName: string,
    current: Option<int>,
    best: Option<int>,
    previousRank: int,
    history: seq<int>)

  /** What `fetch_chess_com_rating` returns. */
  datatype RatingReading = RatingReading(current: Option<int>, best: Option<int>, success: bool)

  /** The `rating` of an optional `{"rating": n}` object, `null` when absent. */
  function RatingOf(f: Option<RatingField>): Option<int> {
    match f
    case Some(RatingField(r)) => r
    case None => None
  }

  /** `fetch_chess_com_rating`, given the decoded body of the stats request
      (None when the request raised, an HTTP error included). */
  function FetchChessComRating(response: Option<StatsDocument>): (r: RatingReading)
    ensures r.success <==> r.current.Some?
    ensures response.None? ==> r == RatingReading(None, None, false)
    ensures response.Some? ==>
      r.current == RatingOf(Mode(response.value, "chess_rapid").last)
      && r.best == RatingOf(Mode(response.value, "chess_rapid").best)
  {
    match response
    case None => RatingReading(None, None, false)
    case Some(doc) =>
      var rapid := Mode(doc, "chess_rapid");
      var current := RatingOf(rapid.last);
      RatingReading(current, RatingOf(rapid.best), current.Some?)
  }

  /** A rapid section without a `last` rating is a failed reading, whatever
      its `best` says. */
  lemma NoLastIsFailure(doc: StatsDocument)
    requires RatingOf(Mode(doc, "chess_rapid").last).None?
    ensures !FetchChessComRating(Some(doc)).success
    ensures FetchChessComRating(Some(doc)).current.None?
  {
  }

  /** One player's step of `fetch_all_ratings`. */
  function MergeReading(p: LegacyPlayer, reading: RatingReading): (q: LegacyPlayer)
    ensures reading.success ==> q == p.(current := reading.current, best := reading.best)
    ensures !reading.success ==> q == p
    ensures q.username == p.username && q.previousRank == p.previousRank && q.history == p.history
  {
    if reading.success then p.(current := reading.current, best := reading.best) else p
  }

  /** The counter after a call, given its value before: reset once the
      window's allowance is used up, then incremented. */
  function CountCall(calls: nat): (next: nat)
    ensures 1 <= next <= RATE_LIMIT_PER_MINUTE
  {
    (if calls >= RATE_LIMIT_PER_MINUTE then 0 else calls) + 1
  }

  /** Counting the call after `i` earlier ones makes it call `i mod 300 + 1`
      of its window. */
  lemma CountCallAdvances(i: nat)
    ensures CountCall(if i == 0 then 0 else (i - 1) % RATE_LIMIT_PER_MINUTE + 1) == i % RATE_LIMIT_PER_MINUTE + 1
  {
  }

  /** `fetch_all_ratings`: one request per player, in order. `slots[i]` is
      the counter after the i-th request, its place within its window. */
  method FetchAllRatings(players: seq<LegacyPlayer>, fetch: string -> Option<StatsDocument>)
    returns (updated: seq<LegacyPlayer>, slots: seq<nat>)
    ensures |updated| == |players| && |slots| == |players|
    ensures forall i :: 0 <= i < |players| ==>
      updated[i] == MergeReading(players[i], FetchChessComRating(fetch(players[i].username)))
    ensures forall i :: 0 <= i < |players| ==>
      slots[i] == i % RATE_LIMIT_PER_MINUTE + 1 && slots[i] <= RATE_LIMIT_PER_MINUTE
  {
    updated := [];
    slots := [];
    var calls: nat := 0;
    var i := 0;
    while i < |players|
      invariant 0 <= i <= |players|
      invariant |updated| == i && |slots| == i
      invariant forall k :: 0 <= k < i ==>
        updated[k] == MergeReading(players[k], FetchChessComRating(fetch(players[k].username)))
      invariant forall k :: 0 <= k < i ==> slots[k] == k % RATE_LIMIT_PER_MINUTE + 1
      invariant calls == if i == 0 then 0 else (i - 1) % RATE_LIMIT_PER_MINUTE + 1
    {
      var reading := FetchChessComRating(fetch(players[i].username));
      CountCallAdvances(i);
      calls := CountCall(calls);
      updated := updated + [MergeReading(players[i], reading)];
      slots := slots + [calls];
      i := i + 1;
    }
  }

  /** A failed fetch leaves the old rating in place; a successful one
      replaces both values, `best` included. */
  lemma FailedFetchKeepsRating(p: LegacyPlayer, response: Option<StatsDocument>)
    ensures !FetchChessComRating(response).success ==> MergeReading(p, FetchChessComRating(response)) == p
    ensures FetchChessComRating(response).success ==>
      MergeReading(p, FetchChessComRating(response)).current.Some?
      && MergeReading(p, FetchChessComRating(response)).best == FetchChessComRating(response).best
  {
  }

  /** `p.get('current') or 0`: a missing and a zero score both rank as 0. */
  function Score(p: LegacyPlayer): int {
    match p.current
    case Some(c) => c
    case None => 0
  }

  function ScoreKey(p: LegacyPlayer): Key {
    Val(Score(p))
  }

  /** The score is worth recording: present and non-zero, Python truthiness. */
  predicate HasScore(p: LegacyPlayer) {
    p.current.Some? && p.current.value != 0
  }

  /** Some record of `ps` has username `u`. */
  ghost predicate Occurs(ps: seq<LegacyPlayer>, u: string) {
    exists i :: 0 <= i < |ps| && ps[i].username == u
  }

  /** `k` is the 1-based position of the last record of `ps` with username `u`. */
  predicate LastPositionOf(ps: seq<LegacyPlayer>, u: string, k: int) {
    1 <= k <= |ps| && ps[k - 1].username == u
    && forall j :: k <= j < |ps| ==> ps[j].username != u
  }

  /** `old_ranks`: username to 1-based position in `ps`, a later duplicate
      overwriting an earlier one. */
  function OldRanks(ps: seq<LegacyPlayer>): (m: map<string, nat>)
    ensures forall u :: u in m <==> Occurs(ps, u)
    ensures forall u :: u in m ==> LastPositionOf(ps, u, m[u])
    decreases |ps|
  {
    if ps == [] then map[]
    else
      var n := |ps| - 1;
      var m := OldRanks(ps[..n]);
      var m' := m[ps[n].username := |ps|];
      OldRanksStep(ps, m, m');
      m'
  }

  /** The step of `OldRanks`: the last record's position overwrites any
      earlier one for its username. */
  lemma OldRanksStep(ps: seq<LegacyPlayer>, m: map<string, nat>, m': map<string, nat>)
    requires ps != [] && m' == m[ps[|ps| - 1].username := |ps|]
    requires forall u :: u in m <==> Occurs(ps[..|ps| - 1], u)
    requires forall u :: u in m ==> LastPositionOf(ps[..|ps| - 1], u, m[u])
    ensures forall u :: u in m' <==> Occurs(ps, u)
    ensures forall u :: u in m' ==> LastPositionOf(ps, u, m'[u])
  {
    forall u
      ensures u in m' <==> Occurs(ps, u)
      ensures u in m' ==> LastPositionOf(ps, u, m'[u])
    {
      OldRanksStepAt(ps, m, m', u);
    }
  }

  lemma OldRanksStepAt(ps: seq<LegacyPlayer>, m: map<string, nat>, m': map<string, nat>, u: string)
    requires ps != [] && m' == m[ps[|ps| - 1].username := |ps|]
    requires u in m <==> Occurs(ps[..|ps| - 1], u)
    requires u in m ==> LastPositionOf(ps[..|ps| - 1], u, m[u])
    ensures u in m' <==> Occurs(ps, u)
    ensures u in m' ==> LastPositionOf(ps, u, m'[u])
  {
    var n := |ps| - 1;
    var init := ps[..n];
    if u != ps[n].username {
      if u in m {
        var i :| 0 <= i < n && init[i].username == u;
        assert ps[i].username == u;
        assert init[m[u] - 1].username == u;
        forall j | m[u] <= j < |ps|
          ensures ps[j].username != u
        {
          if j < n { assert init[j] == ps[j]; }
        }
      }
      if Occurs(ps, u) {
        var i :| 0 <= i < |ps| && ps[i].username == u;
        assert init[i].username == u;
      }
    }
  }

  /** The history step of `update_rankings`: the score is appended whenever
      it is truthy, and the newest seven entries kept. */
  function AppendScore(p: LegacyPlayer): (q: LegacyPlayer)
    ensures q.(history := p.history) == p
    ensures HasScore(p) ==> q.history == LastN(p.history + [p.current.value], HISTORY_LENGTH)
    ensures !HasScore(p) ==> q.history == p.history
  {
    if HasScore(p) then p.(history := LastN(p.history + [p.current.value], HISTORY_LENGTH)) else p
  }

  /** The record with its rank left out, for comparing before and after. */
  function Unranked(p: LegacyPlayer): LegacyPlayer {
    p.(previousRank := 0)
  }

  /** The history step with the rank left out. */
  function Advanced(p: LegacyPlayer): LegacyPlayer {
    Unranked(AppendScore(p))
  }

  /** The `i`-th record of the output, given the sorted input. */
  function Ranked(s: seq<LegacyPlayer>, ranks: map<string, nat>, i: nat): LegacyPlayer
    requires i < |s|
  {
    AppendScore(s[i]).(previousRank := if s[i].username in ranks then ranks[s[i].username] else i + 1)
  }

  /** The sorted records with their old positions and extended histories. */
  function RankedSeq(ps: seq<LegacyPlayer>): seq<LegacyPlayer> {
    var s := SortDesc(ps, ScoreKey);
    var ranks := OldRanks(ps);
    seq(|s|, i requires 0 <= i < |s| => Ranked(s, ranks, i))
  }

  /** `update_rankings`: sort by score, highest first and stably; record each
      player's position before the sort as `previousRank`; extend the
      history. Returns the new list. */
  function UpdateRankings(ps: seq<LegacyPlayer>): (r: seq<LegacyPlayer>)
    ensures |r| == |ps|
    ensures SortedDesc(r, ScoreKey)
    ensures IsStableSortOf(Map(Unranked, r), Map(Advanced, ps), ScoreKey)
    ensures forall i :: 0 <= i < |r| ==> RankIsLastPosition(ps, r[i])
  {
    RankedSorted(ps);
    RankedStable(ps);
    RankedRanks(ps);
    RankedSeq(ps)
  }

  lemma RankedSorted(ps: seq<LegacyPlayer>)
    ensures |RankedSeq(ps)| == |ps|
    ensures SortedDesc(RankedSeq(ps), ScoreKey)
  {
    var s := SortDesc(ps, ScoreKey);
    var r := RankedSeq(ps);
    assert forall i :: 0 <= i < |r| ==> ScoreKey(r[i]) == ScoreKey(s[i]);
  }

  lemma RankedStable(ps: seq<LegacyPlayer>)
    ensures IsStableSortOf(Map(Unranked, RankedSeq(ps)), Map(Advanced, ps), ScoreKey)
  {
    var s := SortDesc(ps, ScoreKey);
    var r := RankedSeq(ps);
    var a := Map(Unranked, r);
    var b := Map(Advanced, s);
    forall i | 0 <= i < |a|
      ensures a[i] == b[i]
    {
      assert r[i] == Ranked(s, OldRanks(ps), i);
    }
    assert a == b;
    MapSortDesc(Advanced, ps, ScoreKey, ScoreKey);
    SortDescIsStable(Map(Advanced, ps), ScoreKey);
  }

  /** `q.previousRank` is the 1-based position of the last record of `ps`
      with `q`'s username. */
  predicate RankIsLastPosition(ps: seq<LegacyPlayer>, q: LegacyPlayer) {
    LastPositionOf(ps, q.username, q.previousRank)
  }

  lemma RankedRanks(ps: seq<LegacyPlayer>)
    ensures forall i :: 0 <= i < |RankedSeq(ps)| ==> RankIsLastPosition(ps, RankedSeq(ps)[i])
  {
    forall i | 0 <= i < |RankedSeq(ps)|
      ensures RankIsLastPosition(ps, RankedSeq(ps)[i])
    {
      RankedRankAt(ps, i);
    }
  }

  lemma RankedRankAt(ps: seq<LegacyPlayer>, i: nat)
    requires i < |RankedSeq(ps)|
    ensures RankIsLastPosition(ps, RankedSeq(ps)[i])
  {
    var s := SortDesc(ps, ScoreKey);
    var ranks := OldRanks(ps);
    var u := s[i].username;
    assert s[i] in multiset(ps);
    var k :| 0 <= k < |ps| && ps[k] == s[i];
    assert u in ranks;
    assert RankedSeq(ps)[i] == Ranked(s, ranks, i);
  }

  /** The script has no once-per-day guard: running it twice appends the
      score twice. */
  lemma TwoRunsAppendTwice(p: LegacyPlayer)
    requires HasScore(p)
    ensures AppendScore(AppendScore(p)).history
         == LastN(p.history + [p.current.value, p.current.value], HISTORY_LENGTH)
  {
    var c := p.current.value;
    LastNAppend(p.history + [c], c, HISTORY_LENGTH);
    assert p.history + [c] + [c] == p.history + [c, c];
  }
}
