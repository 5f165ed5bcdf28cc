/** The prices a negotiation may name, and the haggling they lead to.  Prices are reals: what the code computes
    apart from floating-point rounding. */
module Negotiation {
  import opened Wrappers

  const ROUNDING: real := 5.0

  datatype Side = Buy | Sell

  datatype Outcome = Accepted | Counter | Escalate

  datatype Band = Band(open: real, limit: real)

  datatype Step = Step(outcome: Outcome, price: Option<real>)

  /** `_beyond`. */
  predicate Beyond(side: Side, price: real, mark: real) {
    if side.Buy? then price > mark else price < mark
  }

  /** `_takes`. */
  predicate Takes(side: Side, ask: real, price: real) {
    if side.Buy? then ask <= price else ask >= price
  }

  /** How far the limit lies beyond the opening price. */
  function Gap(side: Side, band: Band): real {
    if side.Buy? then band.limit - band.open else band.open - band.limit
  }

  function Priced(side: Side, open: real, distance: real): real {
    if side.Buy? then open + distance else open - distance
  }

  // --- the moves before rounding ---------------------------------------------------------------------------

  function SumOf(weights: seq<int>): int {
    if weights == [] then 0 else SumOf(weights[..|weights| - 1]) + weights[|weights| - 1]
  }

  /** m + 1, m, ..., 2. */
  function Weights(m: nat): seq<int> {
    seq(m, i => m + 1 - i)
  }

  /** The sum of the first `k` weights. */
  function Weight(m: nat, k: nat): int {
    if k == 0 then 0 else Weight(m, k - 1) + (m + 2 - k)
  }

  lemma {:induction false} WeightIsSum(m: nat, k: nat)
    requires k <= m
    ensures SumOf(Weights(m)[..k]) == Weight(m, k)
  {
    if k > 0 {
      WeightIsSum(m, k - 1);
      assert Weights(m)[..k][..k - 1] == Weights(m)[..k - 1];
    }
  }

  lemma {:induction false} WeightPositive(m: nat, k: nat)
    requires k <= m
    ensures Weight(m, k) >= 2 * k
  {
    if k > 0 {
      WeightPositive(m, k - 1);
    }
  }

  /** What one unit of weight moves. */
  function Unit(gap: real, m: nat): real
    requires m >= 1
  {
    WeightPositive(m, m);
    gap / Weight(m, m) as real
  }

  /** How far the first `k` moves go. */
  function Reach(gap: real, m: nat, k: nat): real
    requires m >= 1
  {
    Unit(gap, m) * Weight(m, k) as real
  }

  lemma UnitPositive(gap: real, m: nat)
    requires gap > 0.0 && m >= 1
    ensures Unit(gap, m) > 0.0
    ensures Reach(gap, m, m) == gap
  {
    WeightPositive(m, m);
  }

  /** Move `k` goes m + 2 - k units. */
  lemma MoveBeforeRounding(gap: real, m: nat, k: nat)
    requires m >= 1 && 1 <= k <= m
    ensures Reach(gap, m, k) == Reach(gap, m, k - 1) + Unit(gap, m) * (m + 2 - k) as real
  {
    var u := Unit(gap, m);
    assert Weight(m, k) as real == Weight(m, k - 1) as real + (m + 2 - k) as real;
    var w, v := Weight(m, k - 1) as real, (m + 2 - k) as real;
    assert u * (w + v) == u * w + u * v;
  }

  /** An earlier move is longer. */
  lemma MovesShrinkBeforeRounding(gap: real, m: nat, j: nat, k: nat)
    requires gap > 0.0 && m >= 1 && 1 <= j < k <= m
    ensures Reach(gap, m, k) - Reach(gap, m, k - 1) < Reach(gap, m, j) - Reach(gap, m, j - 1)
    ensures 0.0 < Reach(gap, m, k) - Reach(gap, m, k - 1)
  {
    UnitPositive(gap, m);
    MoveBeforeRounding(gap, m, j);
    MoveBeforeRounding(gap, m, k);
    var u, x, y := Unit(gap, m), (m + 2 - j) as real, (m + 2 - k) as real;
    assert x > y > 0.0;
    assert u * (x - y) > 0.0;
    assert u * x == u * (x - y) + u * y;
    assert u * y > 0.0;
  }

  lemma {:induction false} ReachGrows(gap: real, m: nat, k: nat)
    requires gap > 0.0 && 1 <= k <= m
    ensures Reach(gap, m, k - 1) < Reach(gap, m, k) <= gap
    decreases m - k
  {
    UnitPositive(gap, m);
    MoveBeforeRounding(gap, m, k);
    assert Unit(gap, m) * (m + 2 - k) as real > 0.0;
    if k < m {
      ReachGrows(gap, m, k + 1);
    }
  }

  // --- rounding --------------------------------------------------------------------------------------------

  function Steps(x: real): int {
    (x / ROUNDING).Floor
  }

  function Rounded(x: real): real {
    Steps(x) as real * ROUNDING
  }

  lemma RoundedDown(x: real)
    ensures x - ROUNDING < Rounded(x) <= x
  {
    var q := x / ROUNDING;
    assert q - 1.0 < q.Floor as real <= q;
    assert q * ROUNDING == x;
  }

  lemma RoundedGrows(x: real, y: real)
    requires x <= y
    ensures Rounded(x) <= Rounded(y)
  {
    assert x / ROUNDING <= y / ROUNDING;
  }

  /** The distance of the rung move `k` aims at. */
  function Mark(gap: real, m: nat, k: nat): real
    requires m >= 1
  {
    Rounded(Reach(gap, m, k))
  }

  lemma MarkGrows(gap: real, m: nat, k: nat)
    requires gap > 0.0 && 1 <= k <= m
    ensures Mark(gap, m, k - 1) <= Mark(gap, m, k) <= gap
    ensures k < m ==> Mark(gap, m, k) < gap
  {
    ReachGrows(gap, m, k);
    RoundedGrows(Reach(gap, m, k - 1), Reach(gap, m, k));
    RoundedDown(Reach(gap, m, k));
    if k < m {
      ReachGrows(gap, m, k + 1);
    }
  }

  /** Rounding lets a later move outgrow an earlier one by at most one step of ROUNDING. */
  lemma RoundedMovesShrink(gap: real, m: nat, j: nat, k: nat)
    requires gap > 0.0 && 1 <= j < k <= m
    ensures Mark(gap, m, k) - Mark(gap, m, k - 1) <= Mark(gap, m, j) - Mark(gap, m, j - 1) + ROUNDING
  {
    MovesShrinkBeforeRounding(gap, m, j, k);
    var a, b, c, d := Reach(gap, m, k), Reach(gap, m, k - 1), Reach(gap, m, j), Reach(gap, m, j - 1);
    RoundedDown(a);
    RoundedDown(b);
    RoundedDown(c);
    RoundedDown(d);
    var later, earlier := Steps(a) - Steps(b), Steps(c) - Steps(d);
    assert later as real * ROUNDING < earlier as real * ROUNDING + 2.0 * ROUNDING;
    assert later < earlier + 2;
  }

  /** The rest of the way to the limit outgrows an earlier rounded move by less than two steps. */
  lemma LastMoveBounded(gap: real, m: nat, j: nat)
    requires gap > 0.0 && 1 <= j < m
    ensures gap - Mark(gap, m, m - 1) < Mark(gap, m, j) - Mark(gap, m, j - 1) + 2.0 * ROUNDING
  {
    UnitPositive(gap, m);
    MovesShrinkBeforeRounding(gap, m, j, m);
    RoundedDown(Reach(gap, m, m - 1));
    RoundedDown(Reach(gap, m, j));
    RoundedDown(Reach(gap, m, j - 1));
  }

  // --- the ladder ------------------------------------------------------------------------------------------

  /** The distances of the rungs up to move `k`; a move that rounds to nothing leaves no rung. */
  function Rungs(gap: real, m: nat, k: nat): (r: seq<real>)
    requires m >= 1
    ensures r != []
  {
    if k == 0 then [0.0]
    else
      var r := Rungs(gap, m, k - 1);
      if Mark(gap, m, k) > r[|r| - 1] then r + [Mark(gap, m, k)] else r
  }

  function Distances(gap: real, concessions: int): (r: seq<real>)
    ensures r != []
  {
    if gap <= 0.0 || concessions <= 0 then [0.0] else Rungs(gap, concessions, concessions - 1) + [gap]
  }

  function Prices(side: Side, open: real, distances: seq<real>): seq<real> {
    seq(|distances|, i requires 0 <= i < |distances| => Priced(side, open, distances[i]))
  }

  function LadderOf(side: Side, band: Band, concessions: int): (prices: seq<real>)
    ensures prices != []
  {
    Prices(side, band.open, Distances(Gap(side, band), concessions))
  }

  /** Comparing prices is comparing distances. */
  lemma OneMorePrice(side: Side, open: real, distances: seq<real>, mark: real)
    requires distances != []
    ensures var prices := Prices(side, open, distances);
      var price := Priced(side, open, mark);
      Prices(side, open, if mark > distances[|distances| - 1] then distances + [mark] else distances)
      == if Beyond(side, price, prices[|prices| - 1]) then prices + [price] else prices
  {
  }

  lemma WeighedMove(gap: real, m: nat, k: nat, weight: int, total: int)
    requires m >= 1 && k < m && weight == m + 1 - k && total == Weight(m, m) && total > 0
    ensures Reach(gap, m, k + 1) == Reach(gap, m, k) + gap * weight as real / total as real
  {
    MoveBeforeRounding(gap, m, k + 1);
    DivideFirst(gap, weight as real, total as real);
    assert m + 2 - (k + 1) == weight;
  }

  lemma DivideFirst(x: real, y: real, z: real)
    requires z != 0.0
    ensures x * y / z == x / z * y
  {
    assert x / z * y * z == x * y;
  }

  /** What a weight is worth. */
  function Share(gap: real, total: int): int -> real
    requires total != 0
  {
    weight => gap * weight as real / total as real
  }

  lemma ShareOf(gap: real, total: int, weight: int)
    requires total != 0
    ensures Share(gap, total)(weight) == gap * weight as real / total as real
  {
  }

  /** The two variables of the ladder's loop after `k` turns. */
  function MovedBy(share: int -> real, weights: seq<int>, k: nat): real
    requires k <= |weights|
  {
    if k == 0 then 0.0 else MovedBy(share, weights, k - 1) + share(weights[k - 1])
  }

  function Climbed(side: Side, open: real, share: int -> real, weights: seq<int>, k: nat): (prices: seq<real>)
    requires k <= |weights|
    ensures prices != []
  {
    if k == 0 then [open]
    else
      var prices := Climbed(side, open, share, weights, k - 1);
      var price := Priced(side, open, Rounded(MovedBy(share, weights, k)));
      if Beyond(side, price, prices[|prices| - 1]) then prices + [price] else prices
  }

  lemma {:induction false} MovedIsReach(gap: real, m: nat, k: nat)
    requires m >= 1 && k <= m && Weight(m, m) > 0
    ensures MovedBy(Share(gap, Weight(m, m)), Weights(m), k) == Reach(gap, m, k)
  {
    if k > 0 {
      MovedIsReach(gap, m, k - 1);
      var weight := Weights(m)[k - 1];
      WeighedMove(gap, m, k - 1, weight, Weight(m, m));
      ShareOf(gap, Weight(m, m), weight);
    }
  }

  lemma {:induction false} ClimbedIsRungs(side: Side, open: real, gap: real, m: nat, k: nat)
    requires m >= 1 && k <= m && Weight(m, m) > 0
    ensures Climbed(side, open, Share(gap, Weight(m, m)), Weights(m), k) == Prices(side, open, Rungs(gap, m, k))
  {
    if k > 0 {
      ClimbedIsRungs(side, open, gap, m, k - 1);
      MovedIsReach(gap, m, k);
      OneMorePrice(side, open, Rungs(gap, m, k - 1), Mark(gap, m, k));
    }
  }

  /** The loop of `ladder`. */
  method Climb(side: Side, open: real, share: int -> real, weights: seq<int>, moves: nat) returns (prices: seq<real>)
    requires moves <= |weights|
    ensures prices == Climbed(side, open, share, weights, moves)
  {
    prices := [open];
    var moved := 0.0;
    for k := 0 to moves
      invariant moved == MovedBy(share, weights, k)
      invariant prices == Climbed(side, open, share, weights, k)
    {
      moved := moved + share(weights[k]);
      var step := (moved / ROUNDING).Floor as real * ROUNDING;
      var price := if side.Buy? then open + step else open - step;
      if Beyond(side, price, prices[|prices| - 1]) {
        prices := prices + [price];
      }
    }
  }

  lemma LadderIsClimbed(side: Side, band: Band, m: nat)
    requires Gap(side, band) > 0.0 && m >= 1
    ensures SumOf(Weights(m)) > 0
    ensures LadderOf(side, band, m) ==
      Climbed(side, band.open, Share(Gap(side, band), SumOf(Weights(m))), Weights(m), m - 1) + [band.limit]
  {
    var gap := Gap(side, band);
    WeightPositive(m, m);
    WeightIsSum(m, m);
    assert Weights(m)[..m] == Weights(m);
    ClimbedIsRungs(side, band.open, gap, m, m - 1);
    var rungs := Rungs(gap, m, m - 1);
    assert Prices(side, band.open, rungs + [gap]) == Prices(side, band.open, rungs) + [band.limit];
  }

  /** `ladder`. */
  method Ladder(side: Side, band: Band, concessions: int) returns (prices: seq<real>)
    ensures prices == LadderOf(side, band, concessions)
  {
    var gap := if side.Buy? then band.limit - band.open else band.open - band.limit;
    if gap <= 0.0 || concessions <= 0 {
      return [band.open];
    }
    var m: nat := concessions;
    var weights := Weights(m);
    var total := SumOf(weights);
    LadderIsClimbed(side, band, m);
    prices := Climb(side, band.open, Share(gap, total), weights, m - 1);
    prices := prices + [band.limit];
  }

  function Move(prices: seq<real>, i: nat): real
    requires i + 1 < |prices|
  {
    if prices[i] <= prices[i + 1] then prices[i + 1] - prices[i] else prices[i] - prices[i + 1]
  }

  /** The rungs climb from 0 to the last mark, and the last of several comes from some move `j`. */
  ghost predicate Climbs(r: seq<real>, gap: real, m: nat, k: nat, j: nat)
    requires m >= 1
  {
    && r != [] && r[0] == 0.0 && r[|r| - 1] == Mark(gap, m, k) < gap && |r| <= k + 1
    && (forall i | 0 <= i < |r| - 1 :: r[i] < r[i + 1])
    && (|r| >= 2 ==> 1 <= j <= k && Move(r, |r| - 2) == Mark(gap, m, j) - Mark(gap, m, j - 1))
    && (forall i | 0 <= i < |r| - 2 :: Move(r, i + 1) <= Move(r, i) + ROUNDING)
  }

  lemma {:induction false} RungsClimb(gap: real, m: nat, k: nat) returns (j: nat)
    requires gap > 0.0 && m >= 1 && k < m
    ensures Climbs(Rungs(gap, m, k), gap, m, k, j)
  {
    j := 0;
    if k == 0 {
      FirstMark(gap, m);
    } else {
      j := RungsClimb(gap, m, k - 1);
      MarkGrows(gap, m, k);
      if |Rungs(gap, m, k - 1)| >= 2 {
        RoundedMovesShrink(gap, m, j, k);
      }
      var s := Rungs(gap, m, k - 1);
      if Mark(gap, m, k) > s[|s| - 1] {
        OneHigher(s, gap, m, k, j);
        j := k;
      }
    }
  }

  lemma FirstMark(gap: real, m: nat)
    requires gap > 0.0 && m >= 1
    ensures Mark(gap, m, 0) == 0.0
  {
    assert Reach(gap, m, 0) == 0.0;
    assert (0.0 / ROUNDING).Floor == 0;
  }

  lemma OneHigher(s: seq<real>, gap: real, m: nat, k: nat, j: nat)
    requires m >= 1 && k >= 1 && Climbs(s, gap, m, k - 1, j)
    requires Mark(gap, m, k - 1) < Mark(gap, m, k) < gap
    requires |s| >= 2 ==> Mark(gap, m, k) - Mark(gap, m, k - 1) <= Mark(gap, m, j) - Mark(gap, m, j - 1) + ROUNDING
    ensures Climbs(s + [Mark(gap, m, k)], gap, m, k, k)
  {
    var r := s + [Mark(gap, m, k)];
    assert forall i | 0 <= i < |s| - 1 :: Move(r, i) == Move(s, i);
    assert Move(r, |r| - 2) == Mark(gap, m, k) - Mark(gap, m, k - 1);
  }

  lemma PricesKeepMoves(side: Side, open: real, distances: seq<real>)
    ensures var p := Prices(side, open, distances);
      && (forall i | 0 <= i < |p| - 1 :: Move(p, i) == Move(distances, i))
      && (forall i | 0 <= i < |p| - 1 :: Beyond(side, p[i + 1], p[i]) <==> distances[i] < distances[i + 1])
  {
  }

  lemma {:induction false} StepsMakeOrder(side: Side, p: seq<real>, i: nat, j: nat)
    requires i < j < |p|
    requires forall k | 0 <= k < |p| - 1 :: Beyond(side, p[k + 1], p[k])
    ensures Beyond(side, p[j], p[i])
  {
    if i + 1 < j {
      StepsMakeOrder(side, p, i, j - 1);
    }
  }

  ghost predicate MovesBounded(p: seq<real>) {
    && (forall i | 0 <= i < |p| - 3 :: Move(p, i + 1) <= Move(p, i) + ROUNDING)
    && (|p| >= 3 ==> Move(p, |p| - 2) < Move(p, |p| - 3) + 2.0 * ROUNDING)
  }

  lemma DistancesShape(gap: real, m: nat)
    requires gap > 0.0 && m >= 1
    ensures var d := Distances(gap, m);
      && 2 <= |d| <= m + 1 && d[0] == 0.0 && d[|d| - 1] == gap
      && (forall i | 0 <= i < |d| - 1 :: d[i] < d[i + 1])
      && MovesBounded(d)
  {
    var j := RungsClimb(gap, m, m - 1);
    var r := Rungs(gap, m, m - 1);
    var d := r + [gap];
    assert forall i | 0 <= i < |r| - 1 :: Move(d, i) == Move(r, i);
    assert Move(d, |d| - 2) == gap - Mark(gap, m, m - 1);
    if |r| >= 2 {
      LastMoveBounded(gap, m, j);
    }
  }

  /** With room to move and moves to make, the ladder starts at the opening price, never goes back or stands
      still, ends exactly at the limit, and has at most one rung more than there are moves.  A move exceeds the one
      before by at most ROUNDING; the last, which is not rounded, by less than twice that. */
  lemma LadderShape(side: Side, band: Band, m: int)
    requires Gap(side, band) > 0.0 && m >= 1
    ensures var p := LadderOf(side, band, m);
      && 2 <= |p| <= m + 1 && p[0] == band.open && p[|p| - 1] == band.limit
      && (forall i, j | 0 <= i < j < |p| :: Beyond(side, p[j], p[i]))
      && MovesBounded(p)
  {
    var d := Distances(Gap(side, band), m);
    var p := LadderOf(side, band, m);
    DistancesShape(Gap(side, band), m);
    PricesKeepMoves(side, band.open, d);
    forall i, k | 0 <= i < k < |p| ensures Beyond(side, p[k], p[i]) {
      StepsMakeOrder(side, p, i, k);
    }
  }

  /** The ladder is the opening price alone exactly when there is no room or no move to make. */
  lemma NoMoveIff(side: Side, band: Band, concessions: int)
    ensures LadderOf(side, band, concessions) == [band.open] <==> Gap(side, band) <= 0.0 || concessions <= 0
  {
    if Gap(side, band) > 0.0 && concessions > 0 {
      LadderShape(side, band, concessions);
    }
  }

  /** The first k of m moves weigh k (2m + 3 - k) / 2. */
  lemma {:induction false} WeightInOne(m: nat, k: nat)
    ensures 2 * Weight(m, k) == k * (2 * m + 3 - k)
  {
    if k > 0 {
      WeightInOne(m, k - 1);
    }
  }

  /** How far the limit is to be approached in k of m moves, before rounding. */
  ghost function Target(gap: real, m: nat, k: nat): real
    requires m >= 1
  {
    gap * (k * (2 * m + 3 - k)) as real / (m * (m + 3)) as real
  }

  lemma HalvesCancel(gap: real, v: real, w: real)
    requires v != 0.0
    ensures gap / v * w == gap * (2.0 * w) / (2.0 * v)
  {
    var q := gap / v;
    assert q * v == gap;
    assert gap * (2.0 * w) == q * w * (2.0 * v);
  }

  lemma ReachIsTarget(gap: real, m: nat, k: nat)
    requires m >= 1
    ensures Reach(gap, m, k) == Target(gap, m, k)
  {
    WeightPositive(m, m);
    WeightInOne(m, k);
    WeightInOne(m, m);
    HalvesCancel(gap, Weight(m, m) as real, Weight(m, k) as real);
    assert (k * (2 * m + 3 - k)) as real == 2.0 * Weight(m, k) as real;
    assert (m * (m + 3)) as real == 2.0 * Weight(m, m) as real;
  }

  /** The price lies a multiple of ROUNDING from the opening price, the last one not beyond the target of move `k`. */
  ghost predicate IsRungOf(side: Side, band: Band, m: nat, k: nat, price: real)
    requires m >= 1
  {
    var d := if side.Buy? then price - band.open else band.open - price;
    && d <= Target(Gap(side, band), m, k) < d + ROUNDING
    && (d / ROUNDING).Floor as real * ROUNDING == d
  }

  lemma MarkIsRung(side: Side, band: Band, m: nat, k: nat)
    requires m >= 1
    ensures IsRungOf(side, band, m, k, Priced(side, band.open, Mark(Gap(side, band), m, k)))
  {
    var gap := Gap(side, band);
    ReachIsTarget(gap, m, k);
    RoundedDown(Reach(gap, m, k));
    var steps := Steps(Reach(gap, m, k));
    assert steps as real * ROUNDING / ROUNDING == steps as real;
  }

  /** Every move's mark is among the rungs, and every rung is some move's mark. */
  lemma {:induction false} RungsAreMarks(gap: real, m: nat, k: nat)
    requires gap > 0.0 && m >= 1 && k < m
    ensures forall j | 0 <= j <= k :: Mark(gap, m, j) in Rungs(gap, m, k)
    ensures forall d | d in Rungs(gap, m, k) :: exists j | 0 <= j <= k :: d == Mark(gap, m, j)
    ensures var r := Rungs(gap, m, k); r[|r| - 1] == Mark(gap, m, k)
  {
    if k == 0 {
      FirstMark(gap, m);
      assert Mark(gap, m, 0) in Rungs(gap, m, 0);
    } else {
      RungsAreMarks(gap, m, k - 1);
      MarkGrows(gap, m, k);
      assert Mark(gap, m, k) in Rungs(gap, m, k);
    }
  }

  /** Among the prices is a rung of move `k`. */
  ghost predicate HasRung(side: Side, band: Band, m: nat, k: nat, prices: seq<real>)
    requires m >= 1
  {
    exists price | price in prices :: IsRungOf(side, band, m, k, price)
  }

  /** The price is a rung of some move but the last. */
  ghost predicate IsSomeRung(side: Side, band: Band, m: nat, price: real)
    requires m >= 1
  {
    exists k: nat | k < m :: IsRungOf(side, band, m, k, price)
  }

  lemma PriceOfMark(side: Side, band: Band, m: nat, k: nat, distances: seq<real>, i: nat)
    requires m >= 1 && k < m && i < |distances| && distances[i] == Mark(Gap(side, band), m, k)
    ensures HasRung(side, band, m, k, Prices(side, band.open, distances))
    ensures IsSomeRung(side, band, m, Prices(side, band.open, distances)[i])
  {
    MarkIsRung(side, band, m, k);
    var prices := Prices(side, band.open, distances);
    assert prices[i] == Priced(side, band.open, distances[i]) && prices[i] in prices;
  }

  /** The ladder's prices below the limit are, for each move but the last, the target of that move rounded down:
      none is missing and there is no other. */
  lemma RungsAreRoundedTargets(side: Side, band: Band, m: int)
    requires Gap(side, band) > 0.0 && m >= 1
    ensures var p := LadderOf(side, band, m);
      var below := p[..|p| - 1];
      && (forall k | 0 <= k < m :: HasRung(side, band, m, k, below))
      && (forall i | 0 <= i < |below| :: IsSomeRung(side, band, m, below[i]))
  {
    var gap, p := Gap(side, band), LadderOf(side, band, m);
    var r := Rungs(gap, m, m - 1);
    var below := Prices(side, band.open, r);
    assert p[..|p| - 1] == below;
    RungsAreMarks(gap, m, m - 1);
    forall k | 0 <= k < m ensures HasRung(side, band, m, k, below) {
      var i :| 0 <= i < |r| && r[i] == Mark(gap, m, k);
      PriceOfMark(side, band, m, k, r, i);
    }
    forall i | 0 <= i < |below| ensures IsSomeRung(side, band, m, below[i]) {
      assert r[i] in r;
      var k :| 0 <= k <= m - 1 && r[i] == Mark(gap, m, k);
      PriceOfMark(side, band, m, k, r, i);
    }
  }

  /** Selling down a band is buying up its mirror image. */
  lemma SellMirrorsBuy(band: Band, concessions: int)
    ensures var sell := LadderOf(Sell, band, concessions);
      var buy := LadderOf(Buy, Band(-band.open, -band.limit), concessions);
      |sell| == |buy| && forall i | 0 <= i < |sell| :: sell[i] == -buy[i]
  {
    assert Gap(Sell, band) == Gap(Buy, Band(-band.open, -band.limit));
  }

  /** Moves need not shrink: with 16 to go in two moves they are 5 and then 11. */
  lemma MovesMayGrow()
    ensures LadderOf(Buy, Band(0.0, 16.0), 2) == [0.0, 5.0, 16.0]
  {
    assert Weight(2, 1) == 3 && Weight(2, 2) == 5;
    assert Reach(16.0, 2, 1) == 9.6;
    assert (9.6 / ROUNDING).Floor == 1;
    assert Rungs(16.0, 2, 0) == [0.0];
    assert Rungs(16.0, 2, 1) == [0.0, 5.0];
  }

  // --- haggling --------------------------------------------------------------------------------------------

  /** `next_step`. */
  function NextStep(side: Side, band: Band, offers: seq<real>, ask: Option<real>, concessions: int): Step {
    if ask.Some? && offers != [] && Takes(side, ask.value, offers[|offers| - 1]) then Step(Accepted, ask)
    else
      var prices := LadderOf(side, band, concessions);
      if |offers| >= |prices| then Step(Escalate, ask)
      else
        var candidate := prices[|offers|];
        if ask.Some? && Takes(side, ask.value, candidate) then Step(Accepted, ask)
        else Step(Counter, Some(candidate))
  }

  /** Answering one ask after another, each counter becoming an offer, until something else than a counter. */
  function Haggle(side: Side, band: Band, offers: seq<real>, asks: seq<Option<real>>, concessions: int): seq<Step>
    decreases |asks|
  {
    if asks == [] then []
    else
      var step := NextStep(side, band, offers, asks[0], concessions);
      if step.outcome.Counter?
      then [step] + Haggle(side, band, offers + [step.price.value], asks[1..], concessions)
      else [step]
  }

  /** The ask is there and costs us no more than a price of ours. */
  ghost predicate AsGoodAs(side: Side, ask: Option<real>, price: real) {
    ask.Some? && if side.Buy? then ask.value <= price else price <= ask.value
  }

  /** The ask is worth taking after `n` prices: as good as the one we named last or as the one we would name now. */
  ghost predicate WorthTaking(side: Side, prices: seq<real>, n: nat, ask: Option<real>)
    requires n <= |prices|
  {
    || (n > 0 && AsGoodAs(side, ask, prices[n - 1]))
    || (n < |prices| && AsGoodAs(side, ask, prices[n]))
  }

  /** What is right about the answer given after `n` of the prices have been named. */
  ghost predicate AnswerOk(side: Side, limit: real, prices: seq<real>, n: nat, ask: Option<real>, step: Step) {
    && n <= |prices|
    && (step.outcome.Accepted? <==> WorthTaking(side, prices, n, ask))
    && (step.outcome.Counter? <==> n < |prices| && !WorthTaking(side, prices, n, ask))
    && match step.outcome
    case Counter =>
      && step.price == Some(prices[n])
      && !Beyond(side, prices[n], limit)
      && (ask.Some? ==> Beyond(side, ask.value, prices[n]))
    case Accepted =>
      && ask.Some? && step.price == ask && !Beyond(side, ask.value, limit)
    case Escalate =>
      && n == |prices| > 0 && step.price == ask
      && (ask.Some? ==> Beyond(side, ask.value, prices[n - 1]))
  }

  lemma RungsWithinLimit(side: Side, band: Band, concessions: int, n: nat)
    requires Gap(side, band) >= 0.0 && n < |LadderOf(side, band, concessions)|
    ensures !Beyond(side, LadderOf(side, band, concessions)[n], band.limit)
  {
    if Gap(side, band) > 0.0 && concessions >= 1 {
      LadderShape(side, band, concessions);
      var p := LadderOf(side, band, concessions);
      if n < |p| - 1 {
        assert Beyond(side, p[|p| - 1], p[n]);
      }
    }
  }

  lemma NextStepOk(side: Side, band: Band, concessions: int, n: nat, ask: Option<real>)
    requires Gap(side, band) >= 0.0 && n <= |LadderOf(side, band, concessions)|
    ensures var p := LadderOf(side, band, concessions);
      AnswerOk(side, band.limit, p, n, ask, NextStep(side, band, p[..n], ask, concessions))
  {
    var p := LadderOf(side, band, concessions);
    if n < |p| {
      RungsWithinLimit(side, band, concessions, n);
    }
    if n > 0 {
      RungsWithinLimit(side, band, concessions, n - 1);
      assert p[..n][n - 1] == p[n - 1];
    }
  }

  /** What is right about a whole haggle that starts with answer number `n`. */
  ghost predicate HaggleOk(side: Side, limit: real, prices: seq<real>, n: nat, asks: seq<Option<real>>,
                           steps: seq<Step>)
  {
    && |steps| <= |asks| && n + |steps| <= |prices| + 1
    && (forall i | 0 <= i < |steps| :: AnswerOk(side, limit, prices, n + i, asks[i], steps[i]))
    && (forall i | 0 <= i < |steps| - 1 :: steps[i].outcome.Counter?)
    && (|steps| < |asks| ==> steps != [] && !steps[|steps| - 1].outcome.Counter?)
  }

  lemma HaggleGoesOn(side: Side, limit: real, prices: seq<real>, n: nat, asks: seq<Option<real>>, step: Step,
                     rest: seq<Step>)
    requires asks != [] && step.outcome.Counter? && AnswerOk(side, limit, prices, n, asks[0], step)
    requires HaggleOk(side, limit, prices, n + 1, asks[1..], rest)
    ensures HaggleOk(side, limit, prices, n, asks, [step] + rest)
  {
    var steps := [step] + rest;
    forall i | 0 <= i < |steps| ensures AnswerOk(side, limit, prices, n + i, asks[i], steps[i]) {
      if i > 0 {
        assert AnswerOk(side, limit, prices, n + 1 + (i - 1), asks[1..][i - 1], rest[i - 1]);
      }
    }
  }

  lemma {:induction false} HaggleFrom(side: Side, band: Band, concessions: int, n: nat, asks: seq<Option<real>>)
    requires Gap(side, band) >= 0.0 && n <= |LadderOf(side, band, concessions)|
    ensures var p := LadderOf(side, band, concessions);
      HaggleOk(side, band.limit, p, n, asks, Haggle(side, band, p[..n], asks, concessions))
    decreases |asks|
  {
    if asks != [] {
      var p := LadderOf(side, band, concessions);
      NextStepOk(side, band, concessions, n, asks[0]);
      var step := NextStep(side, band, p[..n], asks[0], concessions);
      if step.outcome.Counter? {
        HaggleFrom(side, band, concessions, n + 1, asks[1..]);
        assert p[..n] + [p[n]] == p[..n + 1];
        HaggleGoesOn(side, band.limit, p, n, asks, step, Haggle(side, band, p[..n + 1], asks[1..], concessions));
      }
    }
  }

  /** From no offers, whatever the other side asks, and with a limit not behind the opening price: the offers are
      the ladder's prices in order; no offer or accepted ask passes the limit; a counter is strictly better for us
      than the ask it answers; only an ask worse than the limit, once named, goes to a person; and within
      ladder-length + 1 answers the haggling is over. */
  lemma HagglingIsSound(side: Side, band: Band, concessions: int, asks: seq<Option<real>>)
    requires Gap(side, band) >= 0.0
    ensures var p := LadderOf(side, band, concessions);
      var steps := Haggle(side, band, [], asks, concessions);
      && |steps| <= |asks| && |steps| <= |p| + 1
      && (forall i | 0 <= i < |steps| :: AnswerOk(side, band.limit, p, i, asks[i], steps[i]))
      && (forall i | 0 <= i < |steps| - 1 :: steps[i].outcome.Counter?)
      && (|asks| > |p| ==> !steps[|steps| - 1].outcome.Counter?)
  {
    var p := LadderOf(side, band, concessions);
    assert p[..0] == [];
    HaggleFrom(side, band, concessions, 0, asks);
    var steps := Haggle(side, band, [], asks, concessions);
    if |asks| > |p| && |steps| == |asks| {
      assert AnswerOk(side, band.limit, p, |p|, asks[|p|], steps[|p|]);
    }
  }

  lemma SoundIsKept(side: Side, band: Band, concessions: int, asks: seq<Option<real>>)
    requires Gap(side, band) >= 0.0
    ensures Kept(side, band, Haggle(side, band, [], asks, concessions))
  {
    HagglingIsSound(side, band, concessions, asks);
    var steps := Haggle(side, band, [], asks, concessions);
    forall i | 0 <= i < |steps| && !steps[i].outcome.Escalate? && steps[i].price.Some?
      ensures !Beyond(side, steps[i].price.value, band.limit)
    {
      assert AnswerOk(side, band.limit, LadderOf(side, band, concessions), i, asks[i], steps[i]);
    }
  }

  /** The limit is kept exactly when it is not behind the opening price: if it is, the very first counter passes it. */
  lemma LimitKeptIff(side: Side, band: Band, concessions: int)
    ensures (forall asks :: KeptFor(side, band, concessions, asks)) <==> Gap(side, band) >= 0.0
  {
    if Gap(side, band) >= 0.0 {
      forall asks ensures KeptFor(side, band, concessions, asks) {
        SoundIsKept(side, band, concessions, asks);
      }
    } else {
      var asks: seq<Option<real>> := [None];
      var steps := Haggle(side, band, [], asks, concessions);
      assert steps[0] == Step(Counter, Some(band.open));
      assert !KeptFor(side, band, concessions, asks);
    }
  }

  ghost predicate KeptFor(side: Side, band: Band, concessions: int, asks: seq<Option<real>>) {
    Kept(side, band, Haggle(side, band, [], asks, concessions))
  }

  ghost predicate Kept(side: Side, band: Band, steps: seq<Step>) {
    forall i | 0 <= i < |steps| && !steps[i].outcome.Escalate? && steps[i].price.Some? ::
      !Beyond(side, steps[i].price.value, band.limit)
  }
}
