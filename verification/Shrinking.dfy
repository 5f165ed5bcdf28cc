/** How much room a negotiation needs for its moves to shrink.  Rounding can make a move longer than the one before
    it; this module says exactly how wide a band rules that out, and exactly when a narrower one still does. */
module Shrinking {
  import opened Negotiation

  ghost predicate MovesShrink(p: seq<real>) {
    forall i | 0 <= i < |p| - 2 :: Move(p, i + 1) <= Move(p, i)
  }

  /** All moves but the last, which goes to the limit unrounded. */
  ghost predicate EarlyMovesShrink(p: seq<real>) {
    forall i | 0 <= i < |p| - 3 :: Move(p, i + 1) <= Move(p, i)
  }

  /** The gap is at least `c` rounding steps for each of the m(m + 3)/2 units the moves are made of. */
  predicate Room(gap: real, m: int, c: real) {
    gap >= c * ROUNDING * ((m * (m + 3)) as real / 2.0)
  }

  lemma {:induction false} WeightClosed(m: nat, k: nat)
    requires k <= m
    ensures 2 * Weight(m, k) == k * (2 * m + 3 - k)
  {
    if k > 0 {
      WeightClosed(m, k - 1);
    }
  }

  lemma RoomIsUnit(gap: real, m: nat, c: real)
    requires m >= 1
    ensures Room(gap, m, c) <==> Unit(gap, m) >= c * ROUNDING
  {
    WeightClosed(m, m);
    WeightPositive(m, m);
    var w := Weight(m, m) as real;
    assert w == (m * (m + 3)) as real / 2.0 && w > 0.0;
    assert Unit(gap, m) * w == gap;
    ScaleUp(Unit(gap, m), c * ROUNDING, w);
  }

  lemma ScaleUp(x: real, y: real, w: real)
    requires w > 0.0
    ensures x >= y <==> x * w >= y * w
  {
    if x >= y {
      assert (x - y) * w >= 0.0;
    } else {
      assert (y - x) * w > 0.0;
    }
  }

  // --- with room for one step each -------------------------------------------------------------------------

  /** Successive targets, in units. */
  lemma NextReach(gap: real, m: nat, k: nat)
    requires gap > 0.0 && 1 <= k <= m
    ensures Reach(gap, m, k) - Reach(gap, m, k - 1) == Unit(gap, m) * (m + 2 - k) as real
    ensures Reach(gap, m, k) - Reach(gap, m, k - 1) >= 2.0 * Unit(gap, m)
  {
    UnitPositive(gap, m);
    MoveBeforeRounding(gap, m, k);
    assert Unit(gap, m) * ((m + 2 - k) as real - 2.0) >= 0.0;
  }

  lemma MarkClimbs(gap: real, m: nat, k: nat)
    requires gap > 0.0 && 1 <= k <= m && Unit(gap, m) >= ROUNDING
    ensures Mark(gap, m, k - 1) < Mark(gap, m, k)
  {
    NextReach(gap, m, k);
    RoundedDown(Reach(gap, m, k));
    RoundedDown(Reach(gap, m, k - 1));
  }

  lemma NextMarkIsNearer(gap: real, m: nat, k: nat)
    requires gap > 0.0 && 1 <= k < m && Unit(gap, m) >= ROUNDING
    ensures Mark(gap, m, k + 1) - Mark(gap, m, k) <= Mark(gap, m, k) - Mark(gap, m, k - 1)
  {
    NextReach(gap, m, k);
    NextReach(gap, m, k + 1);
    var u := Unit(gap, m);
    var a, b, c := Reach(gap, m, k + 1), Reach(gap, m, k), Reach(gap, m, k - 1);
    assert u * (m + 2 - k) as real == u * (m + 2 - (k + 1)) as real + u;
    assert (b - c) - (a - b) == u;
    RoundedDown(a);
    RoundedDown(b);
    RoundedDown(c);
    var later, earlier := Steps(a) - Steps(b), Steps(b) - Steps(c);
    assert later as real * ROUNDING < earlier as real * ROUNDING + ROUNDING;
    assert later < earlier + 1;
  }

  lemma {:induction false} RungsAreMarks(gap: real, m: nat, k: nat)
    requires gap > 0.0 && k < m && Unit(gap, m) >= ROUNDING
    ensures |Rungs(gap, m, k)| == k + 1
    ensures forall i | 0 <= i <= k :: Rungs(gap, m, k)[i] == Mark(gap, m, i)
  {
    if k == 0 {
      FirstMark(gap, m);
    } else {
      RungsAreMarks(gap, m, k - 1);
      MarkClimbs(gap, m, k);
    }
  }

  /** The move to the limit is no longer than the one before it. */
  predicate LastIsNearer(gap: real, m: nat)
    requires m >= 2
  {
    gap - Mark(gap, m, m - 1) <= Mark(gap, m, m - 1) - Mark(gap, m, m - 2)
  }

  lemma DistancesAreMarks(gap: real, m: nat)
    requires m >= 1 && gap > 0.0 && Unit(gap, m) >= ROUNDING
    ensures var d := Distances(gap, m);
      && |d| == m + 1 && d[m] == gap
      && (forall i | 0 <= i < m :: d[i] == Mark(gap, m, i))
      && (forall i | 0 <= i < m :: d[i] < d[i + 1])
  {
    RungsAreMarks(gap, m, m - 1);
    var d := Distances(gap, m);
    forall i | 0 <= i < m ensures d[i] < d[i + 1] {
      if i + 1 < m {
        MarkClimbs(gap, m, i + 1);
      } else if i == 0 {
        FirstMark(gap, m);
      } else {
        MarkGrows(gap, m, i);
      }
    }
  }

  lemma MovesOfPrices(side: Side, open: real, d: seq<real>)
    requires forall i | 0 <= i < |d| - 1 :: d[i] < d[i + 1]
    ensures var p := Prices(side, open, d);
      forall i | 0 <= i < |p| - 1 :: Move(p, i) == d[i + 1] - d[i]
  {
    PricesKeepMoves(side, open, d);
  }

  lemma MovesOfMarks(side: Side, band: Band, m: nat)
    requires m >= 1 && Gap(side, band) > 0.0 && Unit(Gap(side, band), m) >= ROUNDING
    ensures var gap, p := Gap(side, band), LadderOf(side, band, m);
      && |p| == m + 1
      && (forall i | 0 <= i < m - 1 :: Move(p, i) == Mark(gap, m, i + 1) - Mark(gap, m, i))
      && Move(p, m - 1) == gap - Mark(gap, m, m - 1)
  {
    var gap := Gap(side, band);
    DistancesAreMarks(gap, m);
    MovesOfPrices(side, band.open, Distances(gap, m));
  }

  /** With room for one rounding step a unit, only the last move can grow, so the moves shrink exactly when that one
      is no longer than the one before. */
  lemma ShrinkIff(side: Side, band: Band, m: nat)
    requires m >= 2 && Room(Gap(side, band), m, 1.0)
    ensures EarlyMovesShrink(LadderOf(side, band, m))
    ensures MovesShrink(LadderOf(side, band, m)) <==> LastIsNearer(Gap(side, band), m)
  {
    var gap, p := Gap(side, band), LadderOf(side, band, m);
    RoomIsPositive(gap, m, 1.0);
    RoomIsUnit(gap, m, 1.0);
    MovesOfMarks(side, band, m);
    forall i | 0 <= i < m - 2 ensures Move(p, i + 1) <= Move(p, i) {
      NextMarkIsNearer(gap, m, i + 1);
    }
    assert Move(p, m - 2) == Mark(gap, m, m - 1) - Mark(gap, m, m - 2);
    if LastIsNearer(gap, m) {
      forall i | 0 <= i < m - 1 ensures Move(p, i + 1) <= Move(p, i) {}
    } else {
      assert Move(p, m - 2 + 1) > Move(p, m - 2);
    }
  }

  lemma RoomIsPositive(gap: real, m: int, c: real)
    requires m >= 1 && c > 0.0 && Room(gap, m, c)
    ensures gap > 0.0
  {
    assert m * (m + 3) > 0;
    assert c * ROUNDING * ((m * (m + 3)) as real / 2.0) > 0.0;
  }

  // --- with room for five thirds ---------------------------------------------------------------------------

  const ENOUGH: real := 5.0 / 3.0

  /** With `y` and `u` in rounding steps: the last two targets are 3u apart and the limit is 2u further. */
  lemma LastSteps(y: real, u: real)
    requires u >= ENOUGH
    ensures y + 5.0 * u + y.Floor as real <= 2.0 * (y + 3.0 * u).Floor as real
  {
    var whole, z := y.Floor, y + 3.0 * u;
    var q := z.Floor - whole;
    assert z - whole as real >= 5.0;
    assert q >= 5;
    assert z - whole as real < q as real + 1.0;
  }

  lemma EnoughRoomForTheLast(gap: real, m: nat)
    requires m >= 2 && gap > 0.0 && Unit(gap, m) >= ENOUGH * ROUNDING
    ensures LastIsNearer(gap, m)
  {
    UnitPositive(gap, m);
    MoveBeforeRounding(gap, m, m - 1);
    MoveBeforeRounding(gap, m, m);
    var u, x := Unit(gap, m), Reach(gap, m, m - 2);
    assert Reach(gap, m, m - 1) == x + 3.0 * u && gap == x + 5.0 * u;
    var y := x / ROUNDING;
    assert (x + 3.0 * u) / ROUNDING == y + 3.0 * (u / ROUNDING);
    LastSteps(y, u / ROUNDING);
  }

  /** Enough room makes the moves shrink, all of them. */
  lemma EnoughRoom(side: Side, band: Band, m: int)
    requires m >= 1 && Room(Gap(side, band), m, ENOUGH)
    ensures MovesShrink(LadderOf(side, band, m))
  {
    var gap := Gap(side, band);
    RoomIsPositive(gap, m, ENOUGH);
    RoomIsUnit(gap, m, ENOUGH);
    if m == 1 {
      MovesOfMarks(side, band, m);
    } else {
      RoomIsUnit(gap, m, 1.0);
      EnoughRoomForTheLast(gap, m);
      ShrinkIff(side, band, m);
    }
  }

  /** In two moves, any room between 8/5 and 5/3 is too little. */
  lemma TwoMovesNeedEnough(u: real)
    requires 1.6 < u < ENOUGH
    ensures Room(25.0 * u, 2, u) && !MovesShrink(LadderOf(Buy, Band(0.0, 25.0 * u), 2))
  {
    var gap, p := 25.0 * u, LadderOf(Buy, Band(0.0, 25.0 * u), 2);
    assert Weight(2, 1) == 3 && Weight(2, 2) == 5;
    assert Unit(gap, 2) == 5.0 * u;
    assert Reach(gap, 2, 1) == 15.0 * u;
    assert (15.0 * u / ROUNDING).Floor == 4;
    MovesOfMarks(Buy, Band(0.0, gap), 2);
    FirstMark(gap, 2);
    assert Move(p, 0) == 20.0 && Move(p, 0 + 1) == gap - 20.0;
  }

  /** Whether a ladder with room `c` has moves that shrink. */
  ghost predicate ShrinksGiven(c: real, side: Side, band: Band, m: int) {
    m >= 1 && Room(Gap(side, band), m, c) ==> MovesShrink(LadderOf(side, band, m))
  }

  /** Room for c steps a unit makes the moves shrink for every side, band and number of moves if and only if c is at
      least 5/3. */
  lemma RoomThatSufficesIff(c: real)
    ensures (forall side, band, m :: ShrinksGiven(c, side, band, m)) <==> c >= ENOUGH
  {
    if c >= ENOUGH {
      forall side, band, m ensures ShrinksGiven(c, side, band, m) {
        if m >= 1 && Room(Gap(side, band), m, c) {
          MoreRoom(Gap(side, band), m, ENOUGH, c);
          EnoughRoom(side, band, m);
        }
      }
    } else {
      var u := if c > 1.65 then c else 1.65;
      TwoMovesNeedEnough(u);
      MoreRoom(25.0 * u, 2, c, u);
      assert !ShrinksGiven(c, Buy, Band(0.0, 25.0 * u), 2);
    }
  }

  lemma MoreRoom(gap: real, m: int, c: real, d: real)
    requires m >= 1 && c <= d && Room(gap, m, d)
    ensures Room(gap, m, c)
  {
    RoomIsUnit(gap, m, c);
    RoomIsUnit(gap, m, d);
  }

  // --- moves before the last -------------------------------------------------------------------------------

  /** With a little less than one step a unit, the second of three or more moves outgrows the first. */
  lemma SecondMoveGrows(m: nat, u: real, gap: real)
    requires m >= 3 && u > 0.0 && u * (2 * m + 1) as real == (2 * m - 1) as real
    requires Weight(m, m) > 0 && gap == u * ROUNDING * Weight(m, m) as real
    ensures Room(gap, m, u) && !EarlyMovesShrink(LadderOf(Buy, Band(0.0, gap), m))
  {
    SecondMoveUnits(m, u, gap);
    RoomIsUnit(gap, m, u);
    FirstMark(gap, m);
    SecondMoveMarks(m, u, gap);
    SecondMoveLadder(m, gap);
  }

  lemma SecondMoveUnits(m: nat, u: real, gap: real)
    requires m >= 3 && Weight(m, m) > 0 && u > 0.0 && gap == u * ROUNDING * Weight(m, m) as real
    ensures gap > 0.0 && Unit(gap, m) == u * ROUNDING
    ensures Reach(gap, m, 1) == u * ROUNDING * (m + 1) as real
    ensures Reach(gap, m, 2) == u * ROUNDING * (2 * m + 1) as real
  {
    var w := Weight(m, m) as real;
    assert u * ROUNDING * w / w == u * ROUNDING;
    assert Weight(m, 1) == m + 1;
    assert Weight(m, 2) == 2 * m + 1;
  }

  lemma RoundedIs(x: real, n: int)
    requires n as real * ROUNDING <= x < n as real * ROUNDING + ROUNDING
    ensures Rounded(x) == n as real * ROUNDING
  {
    var q := x / ROUNDING;
    assert n as real <= q < n as real + 1.0;
    assert q.Floor == n;
  }

  lemma SecondMoveMarks(m: nat, u: real, gap: real)
    requires m >= 3 && u * (2 * m + 1) as real == (2 * m - 1) as real
    requires Reach(gap, m, 1) == u * ROUNDING * (m + 1) as real
    requires Reach(gap, m, 2) == u * ROUNDING * (2 * m + 1) as real
    ensures Mark(gap, m, 1) == (m - 1) as real * ROUNDING
    ensures Mark(gap, m, 2) == (2 * m - 1) as real * ROUNDING
  {
    var reach1, reach2 := u * ROUNDING * (m + 1) as real, u * ROUNDING * (2 * m + 1) as real;
    SecondMoveTargets(m as real, u);
    RoundedIs(reach1, m - 1);
    RoundedIs(reach2, 2 * m - 1);
  }

  lemma SecondMoveTargets(m: real, u: real)
    requires m >= 3.0 && u * (2.0 * m + 1.0) == 2.0 * m - 1.0
    ensures u * ROUNDING * (2.0 * m + 1.0) == (2.0 * m - 1.0) * ROUNDING
    ensures (m - 1.0) * ROUNDING <= u * ROUNDING * (m + 1.0) < (m - 1.0) * ROUNDING + ROUNDING
  {
    assert u * ROUNDING * (2.0 * m + 1.0) == ROUNDING * (u * (2.0 * m + 1.0));
    assert u * ROUNDING * (m + 1.0) * 2.0 == ROUNDING * (u * (2.0 * m + 1.0)) + ROUNDING * u;
    if u >= 1.0 {
      TimesNonNegative(u - 1.0, 2.0 * m + 1.0);
    } else if u <= 0.0 {
      TimesNonNegative(-u, 2.0 * m + 1.0);
    }
  }

  lemma TimesNonNegative(x: real, y: real)
    requires x >= 0.0 && y >= 0.0
    ensures x * y >= 0.0
  {
  }

  lemma SecondMoveLadder(m: nat, gap: real)
    requires m >= 3 && gap > 0.0 && Mark(gap, m, 0) == 0.0
    requires Mark(gap, m, 1) == (m - 1) as real * ROUNDING && Mark(gap, m, 2) == (2 * m - 1) as real * ROUNDING
    ensures !EarlyMovesShrink(LadderOf(Buy, Band(0.0, gap), m))
  {
    var p := LadderOf(Buy, Band(0.0, gap), m);
    assert Rungs(gap, m, 0) == [0.0];
    assert Rungs(gap, m, 1) == [0.0, Mark(gap, m, 1)];
    assert Rungs(gap, m, 2) == [0.0, Mark(gap, m, 1), Mark(gap, m, 2)];
    RungsKept(gap, m, 2, m - 1);
    assert p[..3] == [0.0, Mark(gap, m, 1), Mark(gap, m, 2)];
    assert Move(p, 0 + 1) > Move(p, 0);
  }

  lemma {:induction false} RungsKept(gap: real, m: nat, j: nat, k: nat)
    requires m >= 1 && j <= k
    ensures Rungs(gap, m, j) <= Rungs(gap, m, k)
  {
    if j < k {
      RungsKept(gap, m, j, k - 1);
    }
  }

  ghost predicate EarlyShrinkGiven(c: real, side: Side, band: Band, m: int) {
    m >= 1 && Room(Gap(side, band), m, c) ==> EarlyMovesShrink(LadderOf(side, band, m))
  }

  /** The moves before the last shrink, for every side, band and number of moves with room for c steps a unit, if and
      only if c is at least 1. */
  lemma RoomForEarlyMovesIff(c: real)
    ensures (forall side, band, m :: EarlyShrinkGiven(c, side, band, m)) <==> c >= 1.0
  {
    if c >= 1.0 {
      forall side, band, m ensures EarlyShrinkGiven(c, side, band, m) {
        if m >= 1 && Room(Gap(side, band), m, c) {
          MoreRoom(Gap(side, band), m, 1.0, c);
          OneStepIsEnough(side, band, m);
        }
      }
    } else {
      var m, u := ManyMoves(c);
      WeightPositive(m, m);
      var gap := u * ROUNDING * Weight(m, m) as real;
      SecondMoveGrows(m, u, gap);
      MoreRoom(gap, m, c, u);
      assert Gap(Buy, Band(0.0, gap)) == gap;
      assert !EarlyShrinkGiven(c, Buy, Band(0.0, gap), m);
    }
  }

  lemma OneStepIsEnough(side: Side, band: Band, m: int)
    requires m >= 1 && Room(Gap(side, band), m, 1.0)
    ensures EarlyMovesShrink(LadderOf(side, band, m))
  {
    if m == 1 {
      RoomIsPositive(Gap(side, band), m, 1.0);
      RoomIsUnit(Gap(side, band), m, 1.0);
      MovesOfMarks(side, band, m);
    } else {
      ShrinkIff(side, band, m);
    }
  }

  /** Enough moves bring (2m - 1)/(2m + 1) beyond any c below 1. */
  lemma ManyMoves(c: real) returns (m: nat, u: real)
    requires c < 1.0
    ensures m >= 3 && u > 0.0 && u >= c && u * (2 * m + 1) as real == (2 * m - 1) as real
  {
    var need := 1.0 / (1.0 - c);
    m := if need >= 3.0 then need.Floor + 1 else 3;
    var n := (2 * m + 1) as real;
    TimesNonNegative(m as real - need, 1.0 - c);
    assert need * (1.0 - c) == 1.0;
    assert n * (1.0 - c) >= 2.0;
    u := (n - 2.0) / n;
    assert u * n == n - 2.0;
    ScaleUp(u, c, n);
  }

  /** A move before the last that grows: 22 in three moves are 5, then 10, then 7. */
  lemma MiddleMoveMayGrow()
    ensures LadderOf(Buy, Band(0.0, 22.0), 3) == [0.0, 5.0, 15.0, 22.0]
  {
    assert Weight(3, 1) == 4 && Weight(3, 2) == 7 && Weight(3, 3) == 9;
    assert (Reach(22.0, 3, 1) / ROUNDING).Floor == 1;
    assert (Reach(22.0, 3, 2) / ROUNDING).Floor == 3;
    assert Rungs(22.0, 3, 0) == [0.0];
    assert Rungs(22.0, 3, 1) == [0.0, 5.0];
    assert Rungs(22.0, 3, 2) == [0.0, 5.0, 15.0];
  }
}
