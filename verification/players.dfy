/** The record store's entity: one tracked player, as stored in
    `data/players.json` by the back end, together with the configuration
    constants of `app/config.py` the update engine reads. */
module Players {
  import opened Wrappers
  import opened Ordering

  /** Weekdays on which the refresh may run, Python numbering (0 = Monday). */
  const WORKING_DAYS: set<int> := {0, 1, 2, 3, 4}
  /** First hour of the day at which the refresh may run. */
  const START_HOUR: int := 6
  /** Length of the rolling score history. */
  const HISTORY_DAYS: nat := 7

  /** A rating mode's `{current, best}` pair. */
  datatype Rating = Rating(current: int, best: int)

  /** The `{wins, losses, draws}` record. */
  datatype WinLossDraw = WinLossDraw(wins: int, losses: int, draws: int)

  /** What the stats client hands back on success: both rating modes, the
      win/loss/draw record and the avatar URL (`""` when unknown). */
  datatype Stats = Stats(rapid: Rating, blitz: Rating, record: WinLossDraw, avatar: string)

  /** One entry of the store. A JSON key that is missing reads as `""` for
      strings, `[]` for the history and `None` for the nested objects, the
      defaults the code passes to `dict.get`. `rapid` is the primary mode
      (ranking, history), `blitz` the secondary one. */
  datatype Player = Player(
    username: string,
    firstName: string,
    lastName: string,
    promo: string,
    classLetter: string,
    previousRank: int,
    rapid: Option<Rating>,
    blitz: Option<Rating>,
    history: seq<int>,
    lastHistoryUpdate: string,
    record: Option<WinLossDraw>,
    avatar: string)

  /** `p.get('rapid', {}).get('current', 0)`, and `p.rapid?.current || 0` in
      the browser. */
  function RapidScore(p: Player): int {
    match p.rapid
    case Some(r) => r.current
    case None => 0
  }

  /** The ranking key: rapid score, never absent. */
  function RapidKey(p: Player): Key {
    Val(RapidScore(p))
  }

  /** The usernames of a store are pairwise distinct. */
  ghost predicate UniqueUsernames(ps: seq<Player>) {
    forall i, j :: 0 <= i < j < |ps| ==> ps[i].username != ps[j].username
  }
}
