/** The stats client (`app/chess_api.py`): turns the provider's answers to
    the profile query and the stats query into the engine's `Stats`, or into
    `None` when the stats are unavailable. The HTTP calls themselves are not
    modelled; their outcomes are inputs. */
module ChessApi {
  import opened Wrappers
  import opened Players

  /** A `{"rating": n}` object whose `rating` key may be missing. */
  datatype RatingField = RatingField(rating: Option<int>)

  /** A `record` object: `win`, `loss`, `draw`, each possibly missing, and
      whether it holds any other key (the provider also sends
      `time_per_move` and `timeout_percent`). */
  datatype RecordField = RecordField(win: Option<int>, loss: Option<int>, draw: Option<int>, otherKeys: bool) {
    /** Python truthiness of the dict: false only for `{}`. */
    predicate NonEmpty() {
      win.Some? || loss.Some? || draw.Some? || otherKeys
    }
  }

  /** One rating mode's entry of the provider's stats document. `rating` is
      the flat form some modes use instead of `last`. */
  datatype ModeStats = ModeStats(
    last: Option<RatingField>,
    best: Option<RatingField>,
    rating: Option<int>,
    record: Option<RecordField>)

  /** The stats document: rating-mode name (`chess_rapid`, `chess_blitz`,
      `tactics`, ...) to its entry. */
  type StatsDocument = map<string, ModeStats>

  /** The profile document; only its `avatar` key is read. */
  datatype Profile = Profile(avatar: Option<string>)

  /** One HTTP exchange: a response with its status code and JSON body
      (`None` when the body is not valid JSON, so that reading it raises),
      or an exception raised before any response (timeout, connection). */
  datatype Exchange<T> = Response(status: int, body: Option<T>) | Raised

  const EMPTY_MODE: ModeStats := ModeStats(None, None, None, None)

  /** `stats.get(name, {})`. */
  function Mode(doc: StatsDocument, name: string): ModeStats {
    if name in doc then doc[name] else EMPTY_MODE
  }

  /** `field.get('rating', 0)` on an optional `{"rating": n}` object. */
  function RatingOrZero(f: Option<RatingField>): int {
    match f
    case Some(RatingField(Some(n))) => n
    case _ => 0
  }

  /** `fetch_player_profile`: the body of a 200 response, otherwise `None`. */
  function FetchPlayerProfile(ex: Exchange<Profile>): (r: Option<Profile>)
    ensures r.Some? <==> ex.Response? && ex.status == 200 && ex.body.Some?
    ensures r.Some? ==> r.value == ex.body.value
  {
    match ex
    case Response(200, Some(p)) => Some(p)
    case _ => None
  }

  /** `rapid_data.get('record') or blitz_data.get('record') or {}`, read as
      a win/loss/draw triple with missing counts as 0. */
  function PickRecord(rapid: ModeStats, blitz: ModeStats): (w: WinLossDraw)
    ensures rapid.record.Some? && rapid.record.value.NonEmpty() ==>
      w == WinLossDraw(rapid.record.value.win.GetOr(0), rapid.record.value.loss.GetOr(0), rapid.record.value.draw.GetOr(0))
    ensures !(rapid.record.Some? && rapid.record.value.NonEmpty()) && blitz.record.Some? && blitz.record.value.NonEmpty() ==>
      w == WinLossDraw(blitz.record.value.win.GetOr(0), blitz.record.value.loss.GetOr(0), blitz.record.value.draw.GetOr(0))
    ensures !(rapid.record.Some? && rapid.record.value.NonEmpty()) && !(blitz.record.Some? && blitz.record.value.NonEmpty()) ==>
      w == WinLossDraw(0, 0, 0)
  {
    var chosen :=
      if rapid.record.Some? && rapid.record.value.NonEmpty() then rapid.record.value
      else if blitz.record.Some? && blitz.record.value.NonEmpty() then blitz.record.value
      else RecordField(None, None, None, false);
    WinLossDraw(chosen.win.GetOr(0), chosen.loss.GetOr(0), chosen.draw.GetOr(0))
  }

  /** `fetch_player_stats`: the profile query only supplies the avatar; the
      stats query decides success. */
  function FetchPlayerStats(profile: Exchange<Profile>, stats: Exchange<StatsDocument>): (r: Option<Stats>)
    ensures r.Some? <==> stats.Response? && stats.status == 200 && stats.body.Some?
    ensures r.Some? ==>
      var doc := stats.body.value;
      && r.value.rapid == Rating(RatingOrZero(Mode(doc, "chess_rapid").last), RatingOrZero(Mode(doc, "chess_rapid").best))
      && r.value.blitz == Rating(RatingOrZero(Mode(doc, "chess_blitz").last), RatingOrZero(Mode(doc, "chess_blitz").best))
      && r.value.record == PickRecord(Mode(doc, "chess_rapid"), Mode(doc, "chess_blitz"))
    ensures r.Some? ==>
      r.value.avatar == match FetchPlayerProfile(profile)
                        case Some(p) => p.avatar.GetOr("")
                        case None => ""
  {
    var avatar :=
      match FetchPlayerProfile(profile)
      case Some(p) => p.avatar.GetOr("")
      case None => "";
    match stats
    case Response(200, Some(doc)) =>
      var rapid := Mode(doc, "chess_rapid");
      var blitz := Mode(doc, "chess_blitz");
      Some(Stats(
        Rating(RatingOrZero(rapid.last), RatingOrZero(rapid.best)),
        Rating(RatingOrZero(blitz.last), RatingOrZero(blitz.best)),
        PickRecord(rapid, blitz),
        avatar))
    case _ => None
  }

  /** A failed stats query yields `None` whatever the profile query did. */
  lemma StatsFailureWins(profile: Exchange<Profile>, stats: Exchange<StatsDocument>)
    requires !(stats.Response? && stats.status == 200 && stats.body.Some?)
    ensures FetchPlayerStats(profile, stats) == None
  {
  }

  /** A failed profile query never fails the fetch: it yields the same stats
      as any other profile answer, with an empty avatar. */
  lemma ProfileFailureOnlyBlanksAvatar(failed: Exchange<Profile>, other: Exchange<Profile>, stats: Exchange<StatsDocument>)
    requires FetchPlayerProfile(failed).None?
    ensures FetchPlayerStats(failed, stats).Some? == FetchPlayerStats(other, stats).Some?
    ensures FetchPlayerStats(failed, stats).Some? ==>
      FetchPlayerStats(failed, stats).value == FetchPlayerStats(other, stats).value.(avatar := "")
  {
  }

  /** A successful stats answer that lacks both rating modes gives all-zero
      ratings and an all-zero record. */
  lemma MissingModesReadAsZero(profile: Exchange<Profile>, doc: StatsDocument)
    requires "chess_rapid" !in doc && "chess_blitz" !in doc
    ensures FetchPlayerStats(profile, Response(200, Some(doc))).Some?
    ensures var s := FetchPlayerStats(profile, Response(200, Some(doc))).value;
      s.rapid == Rating(0, 0) && s.blitz == Rating(0, 0) && s.record == WinLossDraw(0, 0, 0)
  {
  }
}
