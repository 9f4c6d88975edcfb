/** The pure helpers of the browser page `static/app.js`: the class label
    derived from a promo year, the client-side ordering and the rank
    movement arrows, the countdown text of the refresh button and the
    podium-plus-two-columns layout. The DOM, the timers and the current
    year are outside the model; the year is a parameter. */
module Frontend {
  import opened Wrappers
  import opened Text
  import opened Ordering
  import opened Players
  import Updater

  /** The label shown for a missing or unreadable promo. */
  const NO_CLASS: string := "—"
  /** The label of a promo already finished. */
  const GRADUATE: string := "Diplômé"
  /** The five years of study, first to last. */
  const PROGRAMME: seq<string> := ["B1", "B2", "B3", "M1", "M2"]

  /** The label for a promo graduating `years` years from now. */
  function ClassLabel(years: int): (name: string)
    ensures 1 <= years <= 5 ==> name == PROGRAMME[5 - years]
    ensures years > 5 ==> name == PROGRAMME[0]
    ensures years <= 0 <==> name == GRADUATE
    ensures name != NO_CLASS
  {
    if years >= 5 then "B1"
    else if years == 4 then "B2"
    else if years == 3 then "B3"
    else if years == 2 then "M1"
    else if years == 1 then "M2"
    else GRADUATE
  }

  /** `calculateClass(promo)`: the promo read with `parseInt` and compared
      to the current year. An empty promo, the dash and anything `parseInt`
      reads as `NaN` give the dash. */
  function CalculateClass(promo: string, currentYear: int): (name: string)
    ensures name == NO_CLASS <==> promo == "" || promo == NO_CLASS || ParseInt(promo).None?
    ensures name != NO_CLASS ==> name == ClassLabel(ParseInt(promo).value - currentYear)
  {
    if promo == "" || promo == NO_CLASS then NO_CLASS
    else match ParseInt(promo)
      case None => NO_CLASS
      case Some(year) => ClassLabel(year - currentYear)
  }

  /** A year written out in digits is read back exactly: the year of study
      counts down to graduation. */
  lemma ClassOfYear(year: nat, currentYear: int)
    ensures CalculateClass(NatToString(year), currentYear) == ClassLabel(year - currentYear)
  {
    ParseIntRoundTrip(year);
  }

  /** Every player the back end keeps after its expiry filter is shown with
      one of the five years of study, never the dash nor the graduate label. */
  lemma KeptPlayersHaveAClass(p: Player, currentYear: int)
    requires IsDigits(p.promo) && DecimalValue(p.promo) > currentYear
    ensures CalculateClass(p.promo, currentYear) in PROGRAMME
  {
    ParseIntOfDigits(p.promo);
    assert p.promo != NO_CLASS by { assert !IsDigit(NO_CLASS[0]); }
  }

  /** The arrow shown next to a rank. */
  datatype Direction = Up | Down | Neutral

  /** Movement between the stored previous rank (`null` read as None) and
      the 1-based rank shown now; a smaller rank is better. */
  function DirectionFor(rank: int, previousRank: Option<int>): (d: Direction)
    ensures d == Up <==> previousRank.Some? && rank < previousRank.value
    ensures d == Down <==> previousRank.Some? && rank > previousRank.value
    ensures d == Neutral <==> previousRank.None? || rank == previousRank.value
  {
    match previousRank
    case None => Neutral
    case Some(prev) => if rank < prev then Up else if rank > prev then Down else Neutral
  }

  /** A record the roster worker has just added carries previous rank 0,
      which every shown rank exceeds: it is shown as going down. */
  lemma NewcomerShowsDown(rank: int)
    requires rank >= 1
    ensures DirectionFor(rank, Some(0)) == Down
  {
  }

  /** The client's ordering: `players.sort` by `rapid?.current || 0`,
      highest first, stable. */
  function ClientOrder(ps: seq<Player>): (r: seq<Player>)
    ensures |r| == |ps|
    ensures IsStableSortOf(r, ps, RapidKey)
  {
    SortDescIsStable(ps, RapidKey);
    SortDesc(ps, RapidKey)
  }

  /** A list already in rank order, as the refresh cycle saves it, is shown
      in the stored order. */
  lemma ClientKeepsSortedOrder(ps: seq<Player>)
    requires SortedDesc(ps, RapidKey)
    ensures ClientOrder(ps) == ps
  {
    SortDescOfSorted(ps, RapidKey);
  }

  /** One line of the board: the rank shown (1-based position in the
      client's ordering), the player and the arrow. */
  datatype Row = Row(rank: nat, player: Player, direction: Direction)

  /** How many players the board shows. */
  const SHOWN: nat := 50

  /** `loadClientOnly`: sort, attach directions, keep the first fifty. */
  function BoardRows(ps: seq<Player>): (rows: seq<Row>)
    ensures |rows| == if |ps| < SHOWN then |ps| else SHOWN
    ensures forall i :: 0 <= i < |rows| ==>
      rows[i].rank == i + 1 && rows[i].player == ClientOrder(ps)[i]
      && rows[i].direction == DirectionFor(i + 1, Some(ClientOrder(ps)[i].previousRank))
  {
    var sorted := ClientOrder(ps);
    var n := if |ps| < SHOWN then |ps| else SHOWN;
    seq(n, i requires 0 <= i < n => Row(i + 1, sorted[i], DirectionFor(i + 1, Some(sorted[i].previousRank))))
  }

  /** The refresh cycle saves its list sorted by rapid score, and the page
      sorts by the same key, so the ranks the next rank pass writes into
      `previousRank` are the ranks the published board shows: each player
      keeps its record and receives its board position. */
  lemma RankPassRecordsPublishedBoard(s: seq<Player>)
    requires SortedDesc(s, RapidKey)
    ensures forall i :: 0 <= i < |s| ==> Updater.UpdatePlayerRank(s)[i] == ClientOrder(s)[i].(previousRank := i + 1)
    ensures forall i :: 0 <= i < |BoardRows(s)| ==>
      BoardRows(s)[i].player.username == Updater.UpdatePlayerRank(s)[i].username
      && BoardRows(s)[i].rank == Updater.UpdatePlayerRank(s)[i].previousRank
  {
  }

  /** A value of at most two digits renders in at most two characters. */
  lemma SmallNatToString(n: nat)
    requires n < 100
    ensures |NatToString(n)| <= 2
  {
  }

  /** Leading zeros do not change a digit string's value. */
  lemma {:induction false} LeadingZeroValue(s: string)
    requires IsDigits(s) || s == []
    ensures AllDigitsIn("0" + s, 10) && ValueIn("0" + s, 10) == ValueIn(s, 10)
    decreases |s|
  {
    if s != [] {
      var init := s[..|s| - 1];
      assert ("0" + s)[..|s|] == "0" + init;
      if init != [] {
        assert IsDigits(init) by { assert forall i :: 0 <= i < |init| ==> init[i] == s[i]; }
      }
      LeadingZeroValue(init);
    }
  }

  /** The two-digit field of a number below 100 reads back as the number. */
  lemma PaddedValue(n: nat)
    requires n < 100
    ensures |PadTwo(NatToString(n))| == 2 && IsDigits(PadTwo(NatToString(n)))
    ensures DecimalValue(PadTwo(NatToString(n))) == n
  {
    NatToStringRoundTrip(n);
    SmallNatToString(n);
    if n < 10 {
      LeadingZeroValue(NatToString(n));
      assert PadTwo(NatToString(n)) == "0" + NatToString(n);
    }
  }

  /** A number rendered and padded is digits only. */
  lemma PaddedDigits(n: nat)
    ensures IsDigits(PadTwo(NatToString(n)))
    ensures |PadTwo(NatToString(n))| >= 2
  {
  }

  /** The refresh button's `mm:ss` countdown for `ms` milliseconds left. */
  function CountdownText(ms: nat): (text: string)
    ensures |text| >= 5 && text[|text| - 3] == ':'
    ensures IsDigits(text[..|text| - 3]) && IsDigits(text[|text| - 2..])
  {
    var s := ms / 1000;
    var mm := PadTwo(NatToString(s / 60));
    var ss := PadTwo(NatToString(s % 60));
    PaddedDigits(s / 60);
    PaddedValue(s % 60);
    assert (mm + ":" + ss)[..|mm|] == mm;
    assert (mm + ":" + ss)[|mm| + 1..] == ss;
    mm + ":" + ss
  }

  /** The countdown splits back into its two padded fields. */
  lemma CountdownFields(ms: nat)
    ensures var text := CountdownText(ms);
      && text[..|text| - 3] == PadTwo(NatToString(ms / 1000 / 60))
      && text[|text| - 2..] == PadTwo(NatToString(ms / 1000 % 60))
  {
    var s := ms / 1000;
    var mm := PadTwo(NatToString(s / 60));
    var ss := PadTwo(NatToString(s % 60));
    PaddedValue(s % 60);
    var text := CountdownText(ms);
    assert text == mm + ":" + ss;
    assert text[..|text| - 3] == mm;
    assert text[|text| - 2..] == ss;
  }

  /** A number rendered and padded reads back as the number. */
  lemma PaddedRoundTrip(n: nat)
    ensures IsDigits(PadTwo(NatToString(n))) && DecimalValue(PadTwo(NatToString(n))) == n
  {
    NatToStringRoundTrip(n);
    if |NatToString(n)| < 2 {
      LeadingZeroValue(NatToString(n));
      assert PadTwo(NatToString(n)) == "0" + NatToString(n);
    }
  }

  /** Reading the countdown back: the minutes field times sixty plus the
      seconds field is the whole seconds left, and the seconds field is
      below sixty. */
  lemma CountdownRoundTrip(ms: nat)
    ensures DecimalValue(CountdownText(ms)[|CountdownText(ms)| - 2..]) < 60
    ensures DecimalValue(CountdownText(ms)[..|CountdownText(ms)| - 3]) * 60
          + DecimalValue(CountdownText(ms)[|CountdownText(ms)| - 2..]) == ms / 1000
  {
    CountdownFields(ms);
    PaddedRoundTrip(ms / 1000 / 60);
    PaddedRoundTrip(ms / 1000 % 60);
  }

  /** A board line: a row, or an empty placeholder carrying only its rank. */
  datatype Slot = Filled(row: Row) | Placeholder(rank: nat)
  {
    function Rank(): nat {
      match this
      case Filled(r) => r.rank
      case Placeholder(k) => k
    }
  }

  /** Lines per column below the podium. */
  const ROWS_PER_COLUMN: nat := 25

  /** The board: the first three rows on the podium, the next ones in two
      columns of exactly 25 lines, ranks 4..28 and 29..53. */
  datatype Board = Board(podium: seq<Row>, left: seq<Slot>, right: seq<Slot>)

  /** The `i`-th line of a column whose first rank is `start`: the columns
      draw from the rows ranked 4 to 50 only, so a rank past 50 is a
      placeholder even when the caller passed more rows. */
  function ColumnSlot(rows: seq<Row>, start: nat, i: nat): Slot
    requires start >= 1
  {
    var k := start - 1 + i;
    if k < |rows| && k < SHOWN then Filled(rows[k]) else Placeholder(start + i)
  }

  /** `render(rows)`. */
  function Render(rows: seq<Row>): (b: Board)
    requires forall i :: 0 <= i < |rows| ==> rows[i].rank == i + 1
    ensures |b.podium| == (if |rows| < 3 then |rows| else 3)
    ensures |b.left| == ROWS_PER_COLUMN && |b.right| == ROWS_PER_COLUMN
    ensures forall i :: 0 <= i < |b.podium| ==> b.podium[i] == rows[i]
    ensures forall i :: 0 <= i < ROWS_PER_COLUMN ==> b.left[i].Rank() == 4 + i && b.right[i].Rank() == 29 + i
    ensures forall i :: 0 <= i < ROWS_PER_COLUMN ==> (b.left[i].Filled? <==> 4 + i <= |rows|)
    ensures forall i :: 0 <= i < ROWS_PER_COLUMN ==> (b.right[i].Filled? <==> 29 + i <= |rows| && 29 + i <= SHOWN)
    ensures forall i :: 0 <= i < ROWS_PER_COLUMN && 4 + i <= |rows| ==> b.left[i].row == rows[3 + i]
    ensures forall i :: 0 <= i < ROWS_PER_COLUMN && 29 + i <= |rows| && 29 + i <= SHOWN ==> b.right[i].row == rows[28 + i]
  {
    var podium := if |rows| < 3 then rows else rows[..3];
    Board(podium,
      seq(ROWS_PER_COLUMN, i requires 0 <= i < ROWS_PER_COLUMN => ColumnSlot(rows, 4, i)),
      seq(ROWS_PER_COLUMN, i requires 0 <= i < ROWS_PER_COLUMN => ColumnSlot(rows, 4 + ROWS_PER_COLUMN, i)))
  }

  /** Rows past the fiftieth never reach the board: rendering a longer list
      draws the same board as rendering its first fifty rows. */
  lemma RenderShowsFiftyRows(rows: seq<Row>)
    requires forall i :: 0 <= i < |rows| ==> rows[i].rank == i + 1
    requires |rows| > SHOWN
    ensures Render(rows) == Render(rows[..SHOWN])
  {
  }

  /** Only fifty rows reach the board, so the last three lines of the
      second column (ranks 51 to 53) are always placeholders. */
  lemma LastLinesAreAlwaysEmpty(ps: seq<Player>)
    ensures forall i :: 22 <= i < ROWS_PER_COLUMN ==> Render(BoardRows(ps)).right[i].Placeholder?
  {
  }

  /** Every shown row appears on the board exactly where its rank says:
      the podium for 1..3, the left column for 4..28, the right one for
      29..50. */
  lemma EveryRowIsPlaced(ps: seq<Player>, k: nat)
    requires 1 <= k <= |BoardRows(ps)|
    ensures k <= 3 ==> Render(BoardRows(ps)).podium[k - 1] == BoardRows(ps)[k - 1]
    ensures 4 <= k <= 28 ==> Render(BoardRows(ps)).left[k - 4] == Filled(BoardRows(ps)[k - 1])
    ensures 29 <= k ==> k <= 50 && Render(BoardRows(ps)).right[k - 29] == Filled(BoardRows(ps)[k - 1])
  {
  }
}
