/**
  How good the loan-amount search is on the code's own floored profit
  (crates/detector/src/opportunity.rs:249-282). The floors make that profit
  jagged, so a round may cut off the best amount; the curve under it is concave, so
  what such a cut loses is at most what the floors lost.
 */
module NearOptimal {
  import opened Words
  import opened Types
  import opened Amm
  import opened TwoHop
  import opened TernarySearch
  import opened ClosedForm

  // ------------------------------------------------------------------------
  // Concavity
  // ------------------------------------------------------------------------

  /** Chords of a curve flatten. */
  lemma Concave(c: Curve, x: real, y: real, z: real)
    requires c.Valid() && 0.0 <= x <= y <= z
    ensures (c.Out(z) - c.Out(y)) * (y - x) <= (c.Out(y) - c.Out(x)) * (z - y)
  {
    DenGrows(c, x, z);
    GapIs(c, x, y);
    GapIs(c, y, z);
    hide *;
    ConcaveAlgebra(c.Out(y) - c.Out(x), c.Out(z) - c.Out(y), y - x, z - y, Den(c, x), Den(c, y), Den(c, z), c.K * c.D);
  }

  lemma DenGrows(c: Curve, x: real, z: real)
    requires c.Valid() && 0.0 <= x <= z
    ensures Den(c, x) <= Den(c, z)
  {
    RealMono(x, z, c.E);
  }

  lemma ConcaveAlgebra(gap: real, gap': real, h: real, h': real, A: real, B: real, C: real, s: real)
    requires A <= C && Gains(gap, A, B, s, h) && Gains(gap', B, C, s, h')
    ensures gap' * h <= gap * h'
  {
    RealPositive(B, C);
    RealMono(A, C, B);
    assert gap * h' >= 0.0;
    RealMono(A * B, C * B, gap * h');
    assert (gap' * h) * (B * C) == (gap' * (B * C)) * h;
    assert (gap * h') * (A * B) == (gap * (A * B)) * h';
    OrderedQuotients(gap' * h, gap * h', B * C);
  }

  ghost function Net(c: Curve, a: real): real
    requires c.Valid() && a >= 0.0
  {
    c.Out(a) - a
  }

  /** Past its top a curve falls faster and faster. */
  lemma FallsFaster(c: Curve, x: real, y: real, z: real)
    requires c.Valid() && 0.0 <= x < y && y - x <= z - y && Net(c, x) > Net(c, y)
    ensures Net(c, x) - Net(c, y) <= Net(c, y) - Net(c, z)
  {
    hide Curve.Out;
    Concave(c, x, y, z);
    var d, d' := Net(c, x) - Net(c, y), Net(c, y) - Net(c, z);
    assert c.Out(y) - c.Out(x) == (y - x) - d && c.Out(z) - c.Out(y) == (z - y) - d';
    CrossMultiply(-d', -d, y - x, z - y, c.Out(z) - c.Out(y), c.Out(y) - c.Out(x));
    LongerSide(d, d', z - y, y - x);
  }

  /** Before its top a curve rises slower and slower. */
  lemma RisesSlower(c: Curve, x: real, y: real, z: real)
    requires c.Valid() && 0.0 <= x && y < z && z - y <= y - x && Net(c, z) > Net(c, y)
    ensures Net(c, z) - Net(c, y) <= Net(c, y) - Net(c, x)
  {
    hide Curve.Out;
    Concave(c, x, y, z);
    var e, e' := Net(c, y) - Net(c, x), Net(c, z) - Net(c, y);
    CrossMultiply(e', e, y - x, z - y, c.Out(z) - c.Out(y), c.Out(y) - c.Out(x));
    LongerSide(e', e, y - x, z - y);
  }

  lemma CrossMultiply(e': real, e: real, h: real, h': real, gap': real, gap: real)
    requires gap' == h' + e' && gap == h + e && gap' * h <= gap * h'
    ensures e' * h <= e * h'
  {
    assert gap' * h == h' * h + e' * h && gap * h' == h * h' + e * h';
  }

  lemma LongerSide(d: real, e: real, long: real, short: real)
    requires d > 0.0 && 0.0 < short <= long && d * long <= e * short
    ensures d <= e
  {
    RealMono(short, long, d);
    OrderedQuotients(d, e, short);
  }

  // ------------------------------------------------------------------------
  // One round, with a comparison that may be wrong by the loss
  // ------------------------------------------------------------------------

  /** The comparison is of amounts that pay within `loss` below the profile. */
  ghost predicate Tracks(less: (int, int) -> bool, c: Curve, admits: int -> bool, loss: real, b: Bracket)
    requires c.Valid()
  {
    && (forall x: int, y: int :: b.low <= x < y <= b.high && less(x, y) ==>
          Profile(c, admits, y) > 0.0 && Profile(c, admits, x) < Profile(c, admits, y) + loss)
    && (forall x: int, y: int :: b.low <= x < y <= b.high && !less(x, y) ==>
          Profile(c, admits, y) < Profile(c, admits, x) + loss)
  }

  lemma PositiveIsNet(c: Curve, admits: int -> bool, a: int, b: int)
    requires c.Valid() && DownwardClosed(admits) && 0 < a <= b && Profile(c, admits, b) > 0.0
    ensures Profile(c, admits, a) == Net(c, a as real) > 0.0
    ensures Profile(c, admits, b) == Net(c, b as real)
  {
    ProfitReachesDown(c, a as real, b as real);
  }

  /** A round that cuts off p leaves an amount whose profile is lower by at most the loss. */
  lemma CutLosesLittle(less: (int, int) -> bool, c: Curve, admits: int -> bool, loss: real, b: Bracket, p: int)
    returns (q: int)
    requires c.Valid() && DownwardClosed(admits) && loss >= 0.0
    requires 0 < b.low <= p <= b.high && Third(b) > 0 && Tracks(less, c, admits, loss, b)
    ensures Cut(less, b).low <= q <= Cut(less, b).high
    ensures Profile(c, admits, p) <= Profile(c, admits, q) + loss
  {
    hide Profile, DownwardClosed, Curve.Out, Net;
    var m1, m2 := b.low + Third(b), b.high - Third(b);
    q := p;
    if less(m1, m2) {
      if p < m1 {
        q := m1;
        PositiveIsNet(c, admits, p, m2);
        PositiveIsNet(c, admits, m1, m2);
        if Net(c, p as real) > Net(c, m1 as real) {
          FallsFaster(c, p as real, m1 as real, m2 as real);
        }
      }
    } else if p > m2 {
      q := m2;
      ProfileAtLeastZero(c, admits, m2);
      if Profile(c, admits, p) > 0.0 {
        PositiveIsNet(c, admits, m1, p);
        PositiveIsNet(c, admits, m2, p);
        if Net(c, p as real) > Net(c, m2 as real) {
          RisesSlower(c, m1 as real, m2 as real, p as real);
        }
      }
    }
  }

  lemma ProfileAtLeastZero(c: Curve, admits: int -> bool, a: int)
    requires c.Valid()
    ensures Profile(c, admits, a) >= 0.0
  {
  }

  /** n rounds lose at most n times the loss. */
  lemma {:induction false} SearchLosesLittle(less: (int, int) -> bool, c: Curve, admits: int -> bool, loss: real,
                                             b: Bracket, rounds: nat, p: int) returns (q: int)
    requires c.Valid() && DownwardClosed(admits) && loss >= 0.0
    requires 0 < b.low <= p <= b.high && Tracks(less, c, admits, loss, b)
    ensures Search(less, b, rounds).low <= q <= Search(less, b, rounds).high
    ensures Profile(c, admits, p) <= Profile(c, admits, q) + rounds as real * loss
    decreases rounds
  {
    hide Profile, DownwardClosed, Tracks, Search, Cut;
    SearchStep(less, b, rounds);
    LossAdds(rounds, loss);
    q := p;
    if rounds > 0 && Third(b) > 0 {
      var next := CutLosesLittle(less, c, admits, loss, b, p);
      CutTracks(less, c, admits, loss, b);
      q := SearchLosesLittle(less, c, admits, loss, Cut(less, b), rounds - 1, next);
    }
  }

  lemma LossAdds(n: nat, loss: real)
    requires loss >= 0.0
    ensures n as real * loss >= 0.0 && (n > 0 ==> n as real * loss == (n - 1) as real * loss + loss)
  {
  }

  lemma CutTracks(less: (int, int) -> bool, c: Curve, admits: int -> bool, loss: real, b: Bracket)
    requires c.Valid() && b.low <= b.high && Tracks(less, c, admits, loss, b)
    ensures Tracks(less, c, admits, loss, Cut(less, b)) && b.low <= Cut(less, b).low
  {
    hide Profile;
  }

  // ------------------------------------------------------------------------
  // The search on a path
  // ------------------------------------------------------------------------

  lemma RisesTracks(path: PartialPath)
    requires LivePath(path)
    ensures Tracks(Rises(path), CurveOf(path), Admits(path), FloorLoss(path), START)
  {
    hide LivePath, CurveOf, Admits, FloorLoss, Profile, PathProfit;
    forall x: int, y: int | LOWEST <= x < y <= HIGHEST
      ensures PathProfit(path, x) as real <= Profile(CurveOf(path), Admits(path), x)
              < PathProfit(path, x) as real + FloorLoss(path)
      ensures PathProfit(path, y) as real <= Profile(CurveOf(path), Admits(path), y)
              < PathProfit(path, y) as real + FloorLoss(path)
    {
      ProfitNearProfile(path, x);
      ProfitNearProfile(path, y);
    }
  }

  /** Wherever the best amount is, the search ends within the half-width of one that pays almost as much. */
  lemma NearBestAmount(path: PartialPath, a: u256) returns (q: u256)
    requires LivePath(path) && LOWEST <= a <= HIGHEST
    ensures LOWEST <= q <= HIGHEST
    ensures q <= OptimalAmount(path) + HALF_WIDTH && OptimalAmount(path) <= q + HALF_WIDTH
    ensures Profile(CurveOf(path), Admits(path), a)
         <= Profile(CurveOf(path), Admits(path), q) + 64.0 * FloorLoss(path)
  {
    hide LivePath, CurveOf, Admits, FloorLoss, Profile, Search, WidthAfter, Rises, DownwardClosed, Tracks;
    AdmitsDownward(path);
    RisesTracks(path);
    var found := SearchLosesLittle(Rises(path), CurveOf(path), Admits(path), FloorLoss(path), START, ROUNDS, a);
    WidthIgnoresProfits(Rises(path), START, ROUNDS);
    FinalWidth();
    q := found;
  }

  /** Moving an amount by at most h, without being refused, costs at most h at the initial rate. */
  lemma Nearby(c: Curve, admits: int -> bool, q: int, m: int, h: nat)
    requires c.Valid() && DownwardClosed(admits) && 0 < q && 0 < m && q <= m + h && m <= q + h && admits(m)
    ensures Profile(c, admits, q) <= Profile(c, admits, m) + (c.K / c.D) * h as real
  {
    hide DownwardClosed, Profile;
    MovingIsNoGain(c, h);
    ProfileAtLeastZero(c, admits, m);
    if Profile(c, admits, q) > 0.0 {
      if m <= q {
        MovingDown(c, admits, q, m, h);
      } else {
        MovingUp(c, admits, q, m, h);
      }
    }
  }

  lemma MovingIsNoGain(c: Curve, h: nat)
    requires c.Valid()
    ensures (c.K / c.D) * h as real >= 0.0
  {
    assert c.K / c.D > 0.0;
    RealMono(0.0, c.K / c.D, h as real);
  }

  lemma MovingDown(c: Curve, admits: int -> bool, q: int, m: int, h: nat)
    requires c.Valid() && DownwardClosed(admits) && 0 < m <= q <= m + h && Profile(c, admits, q) > 0.0
    ensures Profile(c, admits, q) <= Profile(c, admits, m) + (c.K / c.D) * h as real
  {
    hide Curve.Out, DownwardClosed, Net, Profile;
    PositiveIsNet(c, admits, m, q);
    NetMoves(c, m as real, q as real);
    assert c.K / c.D > 0.0;
    RealMono(q as real - m as real, h as real, c.K / c.D);
  }

  lemma MovingUp(c: Curve, admits: int -> bool, q: int, m: int, h: nat)
    requires c.Valid() && DownwardClosed(admits) && 0 < q <= m <= q + h && admits(m) && Profile(c, admits, q) > 0.0
    ensures Profile(c, admits, q) <= Profile(c, admits, m) + (c.K / c.D) * h as real
  {
    hide Curve.Out, DownwardClosed, Net, Profile;
    PositiveIsNet(c, admits, q, q);
    RateAboveOne(c, q as real);
    NetMoves(c, q as real, m as real);
    AdmittedAtLeastNet(c, admits, m);
    AtLeastItself(h as real, c.K / c.D);
  }

  lemma AtLeastItself(h: real, slope: real)
    requires slope >= 1.0 && h >= 0.0
    ensures h <= slope * h
  {
    RealMono(1.0, slope, h);
  }

  lemma NetMoves(c: Curve, x: real, y: real)
    requires c.Valid() && 0.0 <= x <= y
    ensures Net(c, y) - Net(c, x) <= (c.K / c.D) * (y - x)
    ensures Net(c, x) - Net(c, y) <= y - x
  {
    hide Curve.Out;
    OutGap(c, x, y);
  }

  lemma RateAboveOne(c: Curve, a: real)
    requires c.Valid() && a > 0.0 && Net(c, a) > 0.0
    ensures c.K / c.D >= 1.0
  {
    hide Curve.Out;
    NetSign(c, a);
    DenPositive(c, a);
    QuotientAtLeastOne(c.K, c.D);
  }

  lemma QuotientAtLeastOne(K: real, D: real)
    requires K >= D > 0.0
    ensures K / D >= 1.0
  {
    assert (K / D) * D == K;
  }

  lemma AdmittedAtLeastNet(c: Curve, admits: int -> bool, a: int)
    requires c.Valid() && a > 0 && admits(a)
    ensures Profile(c, admits, a) >= Net(c, a as real)
  {
  }

  /** What the search can lose: one floor loss a round and one for the answer, and half a final bracket. */
  ghost function Slack(path: PartialPath): real
    requires LivePath(path)
  {
    var c := CurveOf(path);
    65.0 * FloorLoss(path) + (c.K / c.D) * HALF_WIDTH as real
  }

  /**
    The code's own answer: no amount of the range pays more than the answer
    does, plus the slack. It fails exactly when the answer is refused and something
    in the range pays more than the slack.
   */
  lemma SearchNearOptimalIff(path: PartialPath, a: u256)
    requires LivePath(path) && LOWEST <= a <= HIGHEST
    ensures PathProfit(path, a) as real <= PathProfit(path, OptimalAmount(path)) as real + Slack(path)
       <==> Admits(path)(OptimalAmount(path)) || PathProfit(path, a) as real <= Slack(path)
  {
    hide LivePath, CurveOf, Admits, FloorLoss, Profile, PathProfit, OptimalAmount;
    var m := OptimalAmount(path);
    if Admits(path)(m) {
      AnswerNearOptimal(path, a);
    } else {
      RefusedPaysNothing(path, m);
    }
  }

  lemma AnswerRange(path: PartialPath)
    ensures LEAST_ANSWER <= OptimalAmount(path) <= HIGHEST - MIN_WIDTH / 2
  {
    hide Midpoint;
    MidpointRange(Rises(path));
  }

  lemma AnswerNearOptimal(path: PartialPath, a: u256)
    requires LivePath(path) && LOWEST <= a <= HIGHEST && Admits(path)(OptimalAmount(path))
    ensures PathProfit(path, a) as real <= PathProfit(path, OptimalAmount(path)) as real + Slack(path)
  {
    hide LivePath, CurveOf, Admits, FloorLoss, Profile, PathProfit, DownwardClosed, OptimalAmount;
    var m := OptimalAmount(path);
    AnswerRange(path);
    var q := NearBestAmount(path, a);
    AdmitsDownward(path);
    Nearby(CurveOf(path), Admits(path), q, m, HALF_WIDTH);
    ProfitNearProfile(path, a);
    ProfitNearProfile(path, m);
  }

  lemma RefusedPaysNothing(path: PartialPath, a: u256)
    requires LivePath(path) && !Admits(path)(a)
    ensures PathProfit(path, a) == 0
  {
    hide LivePath, CurveOf, Admits, FloorLoss, PoolOutput, Curve.Out;
    OutputNearCurve(path, a);
  }

  /**
    Two profits and one admission tell that the search turns back in time: the
    profit has dropped by more than the floors can explain between p and t, and
    the pools still take an amount half a final bracket above t.
   */
  ghost predicate TurnsBefore(path: PartialPath, p: u256, t: u256)
    requires LivePath(path)
  {
    && LOWEST <= p < t <= HIGHEST
    && PathProfit(path, p) as real >= PathProfit(path, t) as real + 65.0 * FloorLoss(path)
    && Admits(path)(t + HALF_WIDTH)
  }

  /** Then the answer is not refused. */
  lemma AnswerAdmitted(path: PartialPath, p: u256, t: u256)
    requires LivePath(path) && TurnsBefore(path, p, t)
    ensures Admits(path)(OptimalAmount(path))
  {
    hide LivePath, CurveOf, Admits, FloorLoss, Profile, PathProfit, OptimalAmount;
    AnswerRange(path);
    var q := NearBestAmount(path, p);
    ProfitNearProfile(path, p);
    ProfitNearProfile(path, t);
    NotAboveOnceFallen(path, p, t, q);
    AdmitsDownward(path);
    assert 0 < OptimalAmount(path) <= t + HALF_WIDTH;
  }

  /** A profile that has fallen from p to t stays at or below t's from there on. */
  lemma NotAboveOnceFallen(path: PartialPath, p: int, t: int, q: int)
    requires LivePath(path) && LOWEST <= p < t <= HIGHEST && q <= HIGHEST
    requires Profile(CurveOf(path), Admits(path), p) > Profile(CurveOf(path), Admits(path), t)
    requires Profile(CurveOf(path), Admits(path), q) > Profile(CurveOf(path), Admits(path), t)
    ensures q <= t
  {
    hide LivePath, CurveOf, Admits, Profile, DownwardClosed;
    AdmitsDownward(path);
    var less := Compare(CurveOf(path), Admits(path));
    var peak := PeakExists(CurveOf(path), Admits(path), LOWEST, LOWEST, HIGHEST);
    assert !less(p, t);
    assert q > t ==> !less(t, q);
  }

  /** So no amount of the range pays more than the answer does, plus the slack. */
  lemma SearchNearOptimal(path: PartialPath, p: u256, t: u256, a: u256)
    requires LivePath(path) && LOWEST <= a <= HIGHEST
    requires Admits(path)(HIGHEST) || TurnsBefore(path, p, t)
    ensures PathProfit(path, a) as real <= PathProfit(path, OptimalAmount(path)) as real + Slack(path)
  {
    hide LivePath, CurveOf, Admits, FloorLoss, Profile, PathProfit, OptimalAmount, Slack, TurnsBefore;
    if Admits(path)(HIGHEST) {
      AnswerRange(path);
      AdmitsDownward(path);
    } else {
      AnswerAdmitted(path, p, t);
    }
    AnswerNearOptimal(path, a);
  }

  /** So what pays more than the slack anywhere in the range is found. */
  lemma ProfitFound(path: PartialPath, p: u256, t: u256, a: u256)
    requires LivePath(path) && LOWEST <= a <= HIGHEST
    requires Admits(path)(HIGHEST) || TurnsBefore(path, p, t)
    requires PathProfit(path, a) as real > Slack(path)
    ensures PathProfit(path, OptimalAmount(path)) > 0
  {
    hide LivePath, Admits, PathProfit, OptimalAmount, Slack, TurnsBefore;
    SearchNearOptimal(path, p, t, a);
  }

  /** Pools of any kind that refuse even the least answer hide every profit from the search. */
  lemma BlindIfLeastRefused(path: PartialPath)
    requires LivePath(path) && !Admits(path)(LEAST_ANSWER)
    ensures PathProfit(path, OptimalAmount(path)) == 0
  {
    hide LivePath, Admits, PathProfit, OptimalAmount;
    AnswerRange(path);
    AdmitsDownward(path);
    RefusedPaysNothing(path, OptimalAmount(path));
  }

  /** A leg at price zero, or one whose fee takes everything, quotes nothing. */
  lemma DeadLeg(tokenIn: Address, pool: PoolState, a: u256)
    requires ReservesRanged(pool) && pool.Contains(tokenIn) && pool.token0 != pool.token1
    ensures !Live(tokenIn, pool) || a == 0 ==> PoolOutput(tokenIn, a, pool) == 0
  {
    hide PoolOutput, SpotNum, SpotDen;
    QuoteAtMostSpot(tokenIn, a, pool);
    var out, den, num, f := PoolOutput(tokenIn, a, pool), SpotDen(tokenIn, pool), SpotNum(tokenIn, pool),
                            FeeFactor(pool.feeTier);
    if out > 0 {
      MulMono(1, out, den * FEE_SCALE, den * FEE_SCALE);
      PositiveFactors(a, num, f);
    }
  }

  lemma PositiveFactors(a: nat, num: nat, f: nat)
    requires a * (num * f) > 0
    ensures a > 0 && num > 0 && f > 0
  {
  }

  /** Routable pairs outside the theorem have such a leg, and never pay. */
  lemma DeadPathPaysNothing(path: PartialPath, a: u256)
    requires Routable(path) && !LivePath(path)
    ensures PathProfit(path, a) == 0
  {
    hide PoolOutput, Live;
    DeadLeg(path.tokenIn, path.poolA, a);
    DeadLeg(path.tokenMid, path.poolB, PoolOutput(path.tokenIn, a, path.poolA));
  }
}
