/** Worked examples of the refresh engine's cohort filter and rank pass on
    small stores. */
module Scenarios {
  import opened Wrappers
  import opened Players
  import opened Updater

  function Student(username: string, promo: string, rapid: int): Player {
    Player(username, "", "", promo, "", 0, Some(Rating(rapid, rapid)), None, [], "", None, "")
  }

  /** With the current year 2025 a promo of 2024 expires, 2026 stays, and a
      non-numeric promo such as "B2" is dropped as well. */
  lemma ExpiryExample()
    ensures var ps := [Student("old", "2024", 1000), Student("new", "2026", 1000), Student("tag", "B2", 1000)];
      RemoveExpiredPromos(ps, 2025) == Filtered([Student("new", "2026", 1000)], 2)
  {
    var ps := [Student("old", "2024", 1000), Student("new", "2026", 1000), Student("tag", "B2", 1000)];
    var keep := StillEnrolled(2025);
    Text.FourDigitValue("2024");
    Text.FourDigitValue("2026");
    assert !Text.IsDigit("B2"[0]);
    assert !keep(ps[0]) && keep(ps[1]) && !keep(ps[2]);
    assert ps[1..][1..] == [ps[2]];
    assert Ordering.Filter([ps[2]], keep) == [] by {
      assert [ps[2]][1..] == [];
    }
    assert Ordering.Filter(ps, keep) == [ps[1]];
    assert ExpiredPositions(ps, 2025) == {0, 2};
  }

  const A: Player := Student("a", "2030", 1000)
  const B: Player := Student("b", "2030", 1200)
  const C: Player := Student("c", "2030", 900)

  /** Promos after the current year all survive the filter. */
  lemma ExampleFilterKeepsAll()
    ensures RemoveExpiredPromos([A, B, C], 2026) == Filtered([A, B, C], 0)
  {
    Text.FourDigitValue("2030");
    var stored := [A, B, C];
    var keep := StillEnrolled(2026);
    assert keep(A) && keep(B) && keep(C);
    assert forall i :: 0 <= i < |stored| ==> keep(stored[i]);
    Ordering.FilterKeepsAll(stored, keep);
    assert ExpiredPositions(stored, 2026) == {};
  }

  /** With scores b > a > c, the stable sort of [a, b, c] is [b, a, c]. */
  lemma SortOfThree(a: Player, b: Player, c: Player)
    requires RapidScore(b) > RapidScore(a) > RapidScore(c)
    ensures Ordering.SortDesc([a, b, c], RapidKey) == [b, a, c]
  {
    assert [a, b, c][1..] == [b, c];
    assert [b, c][1..] == [c];
    assert Ordering.SortDesc([c], RapidKey) == [c];
    assert Ordering.SortDesc([b, c], RapidKey) == [b, c];
    assert Ordering.Insert(a, [c], RapidKey) == [a, c];
    assert Ordering.Insert(a, [b, c], RapidKey) == [b] + Ordering.Insert(a, [c], RapidKey);
  }

  /** Stored in the order a, b, c with scores b > a > c, the rank pass gives
      b rank 1, a rank 2 and c rank 3: positions in the sorted list, where
      the stored positions would have been 2, 1 and 3. */
  lemma RankPassOfThree(a: Player, b: Player, c: Player)
    requires RapidScore(b) > RapidScore(a) > RapidScore(c)
    ensures UpdatePlayerRank([a, b, c]) == [b.(previousRank := 1), a.(previousRank := 2), c.(previousRank := 3)]
  {
    SortOfThree(a, b, c);
    var r := AssignRanks([b, a, c]);
    assert r[0] == b.(previousRank := 1);
    assert r[1] == a.(previousRank := 2);
    assert r[2] == c.(previousRank := 3);
    assert r == [b.(previousRank := 1), a.(previousRank := 2), c.(previousRank := 3)];
  }

  /** Stored in the order a (1000), b (1200), c (900): b gets rank 1, a
      rank 2, c rank 3. */
  lemma ExampleRankPass()
    ensures UpdatePlayerRank([A, B, C]) == [B.(previousRank := 1), A.(previousRank := 2), C.(previousRank := 3)]
  {
    RankPassOfThree(A, B, C);
  }
}
