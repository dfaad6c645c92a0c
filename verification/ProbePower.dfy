/**
  The transmit power of probe replies (framework/apps/cran.py): from the PHY rates in the cell and the backhaul to a
  capacity, from that to a priority, and from that to a power.  Arithmetic is over the reals.
 */
module ProbePower {
  import opened Agent
  import opened ActiveClients

  function Min(a: real, b: real): (r: real)
  {
    if a <= b then a else b
  }

  function Max(a: real, b: real): (r: real)
  {
    if a >= b then a else b
  }

  predicate AllPositive(rates: seq<real>)
  {
    forall i | 0 <= i < |rates| :: rates[i] > 0.0
  }

  // ---------------------------------------------------------------- capacity of the cell

  /** Time to send one unit to every client. */
  function AirTime(rates: seq<real>): (t: real)
    requires AllPositive(rates)
    ensures t >= 0.0 && (rates != [] ==> t > 0.0)
  {
    if rates == [] then 0.0 else AirTime(rates[..|rates| - 1]) + 1.0 / rates[|rates| - 1]
  }

  function Capacity(rates: seq<real>, backhaul: real): (c: real)
    requires AllPositive(rates) && rates != []
  {
    Min(1.0 / AirTime(rates), backhaul / 1000000.0)
  }

  function Normalized(rates: seq<real>, backhaul: real, maxMacRate: real): (p: real)
    requires AllPositive(rates) && rates != [] && maxMacRate > 0.0
  {
    Min(1.0, Capacity(rates, backhaul) / maxMacRate)
  }

  /** WifiCapacityEstimator.calc */
  method Calc(rates: seq<real>, backhaul: real) returns (macRate: real)
    requires AllPositive(rates) && rates != []
    ensures macRate == Capacity(rates, backhaul)
  {
    var sum := 0.0;
    for i := 0 to |rates|
      invariant sum == AirTime(rates[..i])
    {
      assert rates[..i + 1][..i] == rates[..i];
      sum := sum + 1.0 / rates[i];
    }
    assert rates[..|rates|] == rates;
    macRate := 1.0 / sum;
    macRate := Min(macRate, backhaul / 1000000.0);
  }

  function Slowest(rates: seq<real>): (r: real)
    requires rates != []
    ensures r in rates && forall i | 0 <= i < |rates| :: r <= rates[i]
  {
    if |rates| == 1 then rates[0] else Min(Slowest(rates[..|rates| - 1]), rates[|rates| - 1])
  }

  lemma Scale(x: real, y: real, d: real)
    requires d > 0.0
    ensures x < y ==> x * d < y * d
    ensures x <= y ==> x * d <= y * d
  {
    if x < y {
      assert (y - x) * d > 0.0;
    }
  }

  lemma Reciprocal(a: real, b: real)
    requires 0.0 < a <= b
    ensures 0.0 < 1.0 / b <= 1.0 / a
  {
    var x, y := 1.0 / a, 1.0 / b;
    assert x * a == 1.0 && y * b == 1.0 && x > 0.0;
    Scale(x, y, b);
    Scale(a, b, x);
  }

  function Times(n: nat, x: real): (r: real)
  {
    if n == 0 then 0.0 else Times(n - 1, x) + x
  }

  lemma {:induction false} TimesIsProduct(n: nat, x: real)
    ensures Times(n, x) == n as real * x
  {
    if n > 0 {
      TimesIsProduct(n - 1, x);
    }
  }

  lemma {:induction false} AirTimeAtMost(rates: seq<real>, s: real)
    requires AllPositive(rates) && s > 0.0 && forall i | 0 <= i < |rates| :: s <= rates[i]
    ensures AirTime(rates) <= Times(|rates|, 1.0 / s)
  {
    if rates != [] {
      var n := |rates| - 1;
      AirTimeAtMost(rates[..n], s);
      Reciprocal(s, rates[n]);
    }
  }

  lemma {:induction false} AirTimeAtLeast(rates: seq<real>, i: nat)
    requires AllPositive(rates) && i < |rates|
    ensures AirTime(rates) >= 1.0 / rates[i]
  {
    var n := |rates| - 1;
    if i < n {
      AirTimeAtLeast(rates[..n], i);
      Reciprocal(rates[n], rates[n]);
    }
  }

  lemma SlowestIndex(rates: seq<real>) returns (i: nat)
    requires rates != []
    ensures i < |rates| && rates[i] == Slowest(rates)
  {
    i :| 0 <= i < |rates| && rates[i] == Slowest(rates);
  }

  /** Between an equal share of the slowest client's rate and that rate, and never above the backhaul. */
  lemma CapacityBounds(rates: seq<real>, backhaul: real)
    requires AllPositive(rates) && rates != []
    ensures var slow, b := Slowest(rates), backhaul / 1000000.0;
            Min(slow / |rates| as real, b) <= Capacity(rates, backhaul) <= Min(slow, b)
  {
    var i := SlowestIndex(rates);
    AirTimeAtLeast(rates, i);
    AirTimeAtMost(rates, rates[i]);
    CapacityFromAirTime(rates[i], |rates|, AirTime(rates), backhaul / 1000000.0);
  }

  lemma CapacityFromAirTime(s: real, n: nat, t: real, b: real)
    requires s > 0.0 && n > 0 && t > 0.0 && 1.0 / s <= t <= Times(n, 1.0 / s)
    ensures Min(s / n as real, b) <= Min(1.0 / t, b) <= Min(s, b)
  {
    TimesIsProduct(n, 1.0 / s);
    BetweenReciprocals(s, n as real, t);
    MinMonotone(s / n as real, 1.0 / t, s, b);
  }

  lemma MinMonotone(a: real, b: real, c: real, d: real)
    requires a <= b <= c
    ensures Min(a, d) <= Min(b, d) <= Min(c, d)
  {
  }

  lemma BetweenReciprocals(s: real, n: real, t: real)
    requires s > 0.0 && n > 0.0 && 1.0 / s <= t <= n * (1.0 / s)
    ensures t > 0.0 && s / n <= 1.0 / t <= s
  {
    Reciprocal(s, s);
    Inverse(1.0 / s, s);
    Reciprocal(1.0 / s, t);
    Inverse(n * (1.0 / s), s / n);
    Reciprocal(t, n * (1.0 / s));
  }

  lemma Inverse(x: real, y: real)
    requires x > 0.0 && y > 0.0 && x * y == 1.0
    ensures 1.0 / x == y
  {
    var z := 1.0 / x;
    assert z * x == 1.0;
    assert (z - y) * x == 0.0;
  }

  /** More clients and less backhaul never add capacity. */
  lemma CapacityMonotone(rates: seq<real>, r: real, backhaul: real, less: real)
    requires AllPositive(rates) && rates != [] && r > 0.0 && less <= backhaul
    ensures Capacity(rates, less) <= Capacity(rates, backhaul)
    ensures AllPositive(rates + [r]) && Capacity(rates + [r], backhaul) <= Capacity(rates, backhaul)
  {
    assert (rates + [r])[..|rates|] == rates;
    Reciprocal(r, r);
    Reciprocal(AirTime(rates), AirTime(rates + [r]));
  }

  // ---------------------------------------------------------------- laws of the capacity

  lemma {:induction false} AirTimeAppend(a: seq<real>, b: seq<real>)
    requires AllPositive(a) && AllPositive(b)
    ensures AllPositive(a + b) && AirTime(a + b) == AirTime(a) + AirTime(b)
  {
    if b == [] {
      assert a + b == a;
    } else {
      var n := |b| - 1;
      assert (a + b)[..|a| + n] == a + b[..n];
      AirTimeAppend(a, b[..n]);
    }
  }

  /** The backhaul is no bottleneck for any client alone. */
  predicate Ample(rates: seq<real>, backhaul: real)
  {
    forall i | 0 <= i < |rates| :: rates[i] <= backhaul / 1000000.0
  }

  lemma InverseTwice(t: real)
    requires t > 0.0
    ensures 1.0 / t > 0.0 && 1.0 / (1.0 / t) == t
  {
    Reciprocal(t, t);
    Inverse(1.0 / t, t);
  }

  lemma AtMostRate(s: real, t: real)
    requires s > 0.0 && t >= 1.0 / s
    ensures t > 0.0 && 1.0 / t <= s
  {
    InverseTwice(s);
    Reciprocal(1.0 / s, t);
  }

  /** Then the capacity is the inverse of the air time. */
  lemma AmpleCapacity(rates: seq<real>, backhaul: real)
    requires AllPositive(rates) && rates != [] && Ample(rates, backhaul)
    ensures Capacity(rates, backhaul) == 1.0 / AirTime(rates) && Capacity(rates, backhaul) > 0.0
    ensures 1.0 / Capacity(rates, backhaul) == AirTime(rates)
  {
    AirTimeAtLeast(rates, 0);
    AtMostRate(rates[0], AirTime(rates));
    InverseTwice(AirTime(rates));
  }

  /** One client gets its own rate, or what the backhaul allows. */
  lemma OneClient(r: real, backhaul: real)
    requires r > 0.0
    ensures Capacity([r], backhaul) == Min(r, backhaul / 1000000.0)
  {
    AirTimeOne(r);
    Inverse(1.0 / r, r);
  }

  function Copies(n: nat, r: real): (rates: seq<real>)
  {
    seq(n, i requires 0 <= i < n => r)
  }

  lemma {:induction false} AirTimeOfCopies(n: nat, r: real)
    requires r > 0.0
    ensures AirTime(Copies(n, r)) == Times(n, 1.0 / r)
  {
    if n > 0 {
      assert Copies(n, r)[..n - 1] == Copies(n - 1, r);
      AirTimeOfCopies(n - 1, r);
    }
  }

  /** n clients at the same rate share it. */
  lemma EqualClients(n: nat, r: real, backhaul: real)
    requires n > 0 && r > 0.0
    ensures Capacity(Copies(n, r), backhaul) == Min(r / n as real, backhaul / 1000000.0)
  {
    AirTimeOfCopies(n, r);
    TimesIsProduct(n, 1.0 / r);
    Inverse(n as real * (1.0 / r), r / n as real);
  }

  lemma AmpleAppend(a: seq<real>, b: seq<real>, backhaul: real)
    requires Ample(a, backhaul) && Ample(b, backhaul)
    ensures Ample(a + b, backhaul)
  {
    forall i | 0 <= i < |a + b| ensures (a + b)[i] <= backhaul / 1000000.0 {
      if i < |a| {
        assert (a + b)[i] == a[i];
      } else {
        assert (a + b)[i] == b[i - |a|];
      }
    }
  }

  /** With ample backhaul, the times that two groups of clients need for a unit each add up. */
  lemma TimesAddUp(a: seq<real>, b: seq<real>, backhaul: real)
    requires AllPositive(a) && AllPositive(b) && a != [] && b != [] && Ample(a, backhaul) && Ample(b, backhaul)
    ensures AllPositive(a + b) && Capacity(a + b, backhaul) > 0.0
    ensures Capacity(a, backhaul) > 0.0 && Capacity(b, backhaul) > 0.0
    ensures 1.0 / Capacity(a + b, backhaul) == 1.0 / Capacity(a, backhaul) + 1.0 / Capacity(b, backhaul)
  {
    AirTimeAppend(a, b);
    AmpleCapacity(a, backhaul);
    AmpleCapacity(b, backhaul);
    AmpleAppend(a, b, backhaul);
    AmpleCapacity(a + b, backhaul);
  }

  lemma AirTimeOne(r: real)
    requires r > 0.0
    ensures AirTime([r]) == 1.0 / r
  {
    assert [r][..0] == [];
    assert AirTime([]) == 0.0;
  }

  lemma AirTimeBetween(left: seq<real>, r: real, right: seq<real>)
    requires AllPositive(left) && r > 0.0 && AllPositive(right)
    ensures AllPositive(left + ([r] + right)) && AllPositive(left + right)
    ensures AirTime(left + ([r] + right)) == AirTime(left + right) + 1.0 / r
  {
    AirTimeOne(r);
    AirTimeAppend([r], right);
    AirTimeAppend(left, [r] + right);
    AirTimeAppend(left, right);
  }

  lemma Pieces(b: seq<real>, i: nat)
    requires i < |b|
    ensures b[..i] + ([b[i]] + b[i + 1..]) == b
  {
  }

  /** One client taken out of the list. */
  lemma AirTimeWithout(b: seq<real>, i: nat)
    requires AllPositive(b) && i < |b|
    ensures AllPositive(b[..i] + b[i + 1..]) && AirTime(b) == AirTime(b[..i] + b[i + 1..]) + 1.0 / b[i]
  {
    Pieces(b, i);
    AirTimeBetween(b[..i], b[i], b[i + 1..]);
  }

  lemma MultisetWithout(b: seq<real>, i: nat)
    requires i < |b|
    ensures multiset(b[..i] + b[i + 1..]) == multiset(b) - multiset{b[i]}
  {
    assert b == b[..i] + [b[i]] + b[i + 1..];
  }

  lemma {:induction false} AirTimeOrder(a: seq<real>, b: seq<real>)
    requires AllPositive(a) && AllPositive(b) && multiset(a) == multiset(b)
    ensures AirTime(a) == AirTime(b)
    decreases |a|
  {
    if a == [] {
      assert |multiset(b)| == 0;
    } else {
      var n := |a| - 1;
      assert a[n] in multiset(b);
      var i :| 0 <= i < |b| && b[i] == a[n];
      assert a[..n] + a[n + 1..] == a[..n];
      MultisetWithout(a, n);
      MultisetWithout(b, i);
      AirTimeWithout(b, i);
      AirTimeOrder(a[..n], b[..i] + b[i + 1..]);
    }
  }

  /** In whatever order the clients are listed. */
  lemma OrderIsIrrelevant(a: seq<real>, b: seq<real>, backhaul: real)
    requires AllPositive(a) && AllPositive(b) && a != [] && b != [] && multiset(a) == multiset(b)
    ensures Capacity(a, backhaul) == Capacity(b, backhaul)
  {
    AirTimeOrder(a, b);
  }

  /** With ample backhaul, another client strictly lowers the capacity. */
  lemma NewClientLowers(rates: seq<real>, r: real, backhaul: real)
    requires AllPositive(rates) && rates != [] && r > 0.0 && Ample(rates, backhaul)
    ensures AllPositive(rates + [r]) && Capacity(rates + [r], backhaul) < Capacity(rates, backhaul)
  {
    assert (rates + [r])[..|rates|] == rates;
    AmpleCapacity(rates, backhaul);
    Reciprocal(r, r);
    StrictReciprocal(AirTime(rates), AirTime(rates + [r]));
  }

  lemma StrictReciprocal(a: real, b: real)
    requires 0.0 < a < b
    ensures 1.0 / b < 1.0 / a
  {
    Reciprocal(a, b);
    var x, y := 1.0 / a, 1.0 / b;
    assert x * a == 1.0 && y * b == 1.0;
    Scale(a, b, x);
    assert x * a < x * b;
  }

  // ---------------------------------------------------------------- power

  datatype Config = Config(maxPower: real, defaultPower: real, lowRx: real, highRx: real)

  /** The power for a raise above the one that just reaches the low threshold. */
  function Raised(c: Config, rx: real, raise: real): (p: real)
  {
    Min(c.maxPower, Max(1.0, c.defaultPower - (rx - c.lowRx)) + raise)
  }

  function TxPower(c: Config, rx: real, prio: real): (p: real)
  {
    Raised(c, rx, Raise(c, prio))
  }

  /** The share of the range of received powers that the priority grants. */
  function Raise(c: Config, prio: real): (r: real)
  {
    Product(prio, c.highRx - c.lowRx)
  }

  function Product(a: real, b: real): (p: real)
  {
    a * b
  }

  /** What the client is expected to receive. */
  function RxAfter(c: Config, rx: real, prio: real): (p: real)
  {
    TxPower(c, rx, prio) - (c.defaultPower - rx)
  }

  /** Both assertions of calc_tx_power hold. */
  lemma AssertionsHold(c: Config, rx: real, prio: real)
    requires prio >= 0.0 && c.lowRx <= c.highRx && c.maxPower >= 0.0
    ensures 0.0 <= TxPower(c, rx, prio) <= c.maxPower
  {
    ProductSign(prio, c.highRx - c.lowRx);
    RaisedBounds(c, rx, Raise(c, prio));
  }

  lemma RaisedBounds(c: Config, rx: real, raise: real)
    requires raise >= 0.0 && c.maxPower >= 0.0
    ensures 0.0 <= Raised(c, rx, raise) <= c.maxPower
  {
  }

  lemma ProductSign(a: real, b: real)
    requires a >= 0.0 && b >= 0.0
    ensures Product(a, b) >= 0.0
  {
  }

  lemma ProductOrder(a: real, b: real, d: real)
    requires a <= b && d >= 0.0
    ensures Product(a, d) <= Product(b, d)
  {
    ProductSign(b - a, d);
    assert (b - a) * d == b * d - a * d;
  }

  lemma RaisedMonotone(c: Config, rx: real, raise: real, more: real)
    requires raise <= more
    ensures Raised(c, rx, raise) <= Raised(c, rx, more)
  {
  }

  lemma PowerMonotone(c: Config, rx: real, prio: real, more: real)
    requires prio <= more && c.lowRx <= c.highRx
    ensures TxPower(c, rx, prio) <= TxPower(c, rx, more)
  {
    var d := c.highRx - c.lowRx;
    ProductOrder(prio, more, d);
    RaisedMonotone(c, rx, Raise(c, prio), Raise(c, more));
  }

  /** The client hears the reply at or above the low threshold if and only if full power would reach it there. */
  lemma StaysAudible(c: Config, rx: real, prio: real)
    requires prio >= 0.0 && c.lowRx <= c.highRx
    ensures RxAfter(c, rx, prio) >= c.lowRx <==> c.maxPower - (c.defaultPower - rx) >= c.lowRx
    ensures rx >= c.lowRx && c.defaultPower <= c.maxPower ==> RxAfter(c, rx, prio) >= c.lowRx
  {
    ProductSign(prio, c.highRx - c.lowRx);
    RaisedAudible(c, rx, Raise(c, prio));
  }

  lemma RaisedAudible(c: Config, rx: real, raise: real)
    requires raise >= 0.0
    ensures Raised(c, rx, raise) - (c.defaultPower - rx) >= c.lowRx <==> c.maxPower - (c.defaultPower - rx) >= c.lowRx
  {
  }

  /**
    What the client receives, while neither the least power of 1 nor the maximum cuts in: the low threshold and the
    granted share of the range, so that priority 0 gives the low threshold and priority 1 the high one.
   */
  lemma ReceivedLevel(c: Config, rx: real, prio: real)
    requires c.defaultPower - (rx - c.lowRx) >= 1.0
    requires c.defaultPower - (rx - c.lowRx) + prio * (c.highRx - c.lowRx) <= c.maxPower
    ensures RxAfter(c, rx, prio) == c.lowRx + prio * (c.highRx - c.lowRx)
  {
  }

  /** A client so near that 1 dBm or less would do gets 1 dBm and the granted share of the range, up to the maximum. */
  lemma NearClient(c: Config, rx: real, prio: real)
    requires c.defaultPower - (rx - c.lowRx) <= 1.0
    ensures TxPower(c, rx, prio) == Min(c.maxPower, 1.0 + prio * (c.highRx - c.lowRx))
  {
  }

  /** A client that even the maximum does not bring to the granted level gets the maximum. */
  lemma FarClient(c: Config, rx: real, prio: real)
    requires c.defaultPower - (rx - c.lowRx) + prio * (c.highRx - c.lowRx) >= c.maxPower
    ensures TxPower(c, rx, prio) == c.maxPower
  {
  }

  lemma DivideBy(x: real, d: real)
    requires d > 0.0
    ensures x / d * d == x && (x / d >= 1.0 <==> x >= d)
  {
    DivideOrder(x, d, d);
    assert d / d == 1.0;
  }

  /** The priority is the share of the largest rate that the cell can offer, and 1 from that rate on. */
  lemma PriorityIsShare(rates: seq<real>, backhaul: real, maxMacRate: real)
    requires AllPositive(rates) && rates != [] && maxMacRate > 0.0
    ensures Capacity(rates, backhaul) >= maxMacRate ==> Normalized(rates, backhaul, maxMacRate) == 1.0
    ensures Capacity(rates, backhaul) <= maxMacRate ==>
              Normalized(rates, backhaul, maxMacRate) * maxMacRate == Capacity(rates, backhaul)
  {
    DivideBy(Capacity(rates, backhaul), maxMacRate);
  }

  lemma DivideMonotone(a: real, b: real, d: real)
    requires a <= b && d > 0.0
    ensures a / d <= b / d
  {
    var x, y := a / d, b / d;
    assert x * d == a && y * d == b;
    Scale(y, x, d);
  }

  /** Another client in the cell never raises the power. */
  lemma ClientNeverRaisesPower(c: Config, rx: real, rates: seq<real>, r: real, backhaul: real, maxMacRate: real)
    requires AllPositive(rates) && rates != [] && r > 0.0 && maxMacRate > 0.0 && c.lowRx <= c.highRx
    ensures AllPositive(rates + [r])
    ensures PowerFor(c, rx, rates + [r], backhaul, maxMacRate) <= PowerFor(c, rx, rates, backhaul, maxMacRate)
  {
    CapacityMonotone(rates, r, backhaul, backhaul);
    DivideMonotone(Capacity(rates + [r], backhaul), Capacity(rates, backhaul), maxMacRate);
    PowerMonotone(c, rx, Normalized(rates + [r], backhaul, maxMacRate), Normalized(rates, backhaul, maxMacRate));
  }

  /** Less backhaul never raises the power. */
  lemma BackhaulNeverRaisesPower(c: Config, rx: real, rates: seq<real>, backhaul: real, less: real, maxMacRate: real)
    requires AllPositive(rates) && rates != [] && less <= backhaul && maxMacRate > 0.0 && c.lowRx <= c.highRx
    ensures PowerFor(c, rx, rates, less, maxMacRate) <= PowerFor(c, rx, rates, backhaul, maxMacRate)
  {
    CapacityMonotone(rates, 1.0, backhaul, less);
    DivideMonotone(Capacity(rates, less), Capacity(rates, backhaul), maxMacRate);
    PowerMonotone(c, rx, Normalized(rates, less, maxMacRate), Normalized(rates, backhaul, maxMacRate));
  }

  /** The power for a cell with these rates behind this backhaul. */
  function PowerFor(c: Config, rx: real, rates: seq<real>, backhaul: real, maxMacRate: real): (p: real)
    requires AllPositive(rates) && rates != [] && maxMacRate > 0.0
  {
    TxPower(c, rx, Normalized(rates, backhaul, maxMacRate))
  }

  /** get_normalized followed by calc_tx_power. */
  method CalcTxPower(c: Config, rx: real, rates: seq<real>, backhaul: real, maxMacRate: real) returns (p: real)
    requires AllPositive(rates) && rates != [] && maxMacRate > 0.0
    ensures p == PowerFor(c, rx, rates, backhaul, maxMacRate)
  {
    var capacity := Calc(rates, backhaul);
    var prio := Min(1.0, capacity / maxMacRate);
    var low := Max(1.0, c.defaultPower - (rx - c.lowRx));
    p := Min(c.maxPower, low + prio * (c.highRx - c.lowRx));
  }

  // ---------------------------------------------------------------- PHY rate from signal strength

  /** A rate in Mbit/s and its sensitivity in dBm. */
  datatype Sensitivity = Sensitivity(rate: int, dbm: real)

  const TABLE: seq<Sensitivity> :=
    [Sensitivity(6, -86.0), Sensitivity(9, -84.0), Sensitivity(12, -82.0), Sensitivity(18, -80.0),
     Sensitivity(24, -77.0), Sensitivity(36, -74.0), Sensitivity(48, -72.0), Sensitivity(54, -70.0)]

  /** get_phy_bitrate: the fastest rate that the signal supports, in whatever order the table is read; 1 if none. */
  method GetPhyBitrate(table: seq<Sensitivity>, rx: real) returns (best: int)
    ensures best >= 1 && (best == 1 || exists i | 0 <= i < |table| :: table[i].rate == best && table[i].dbm <= rx)
    ensures forall i | 0 <= i < |table| && table[i].dbm <= rx :: table[i].rate <= best
  {
    best := 1;
    for i := 0 to |table|
      invariant best >= 1 && (best == 1 || exists j | 0 <= j < i :: table[j].rate == best && table[j].dbm <= rx)
      invariant forall j | 0 <= j < i && table[j].dbm <= rx :: table[j].rate <= best
    {
      if table[i].dbm <= rx {
        if best < table[i].rate {
          best := table[i].rate;
        }
      }
    }
  }

  /** The rate that a signal supports, in Mbit/s. */
  function SupportedRate(rx: real): (r: real)
  {
    if rx < -86.0 then 1.0 else if rx < -84.0 then 6.0 else if rx < -82.0 then 9.0 else if rx < -80.0 then 12.0
    else if rx < -77.0 then 18.0 else if rx < -74.0 then 24.0 else if rx < -72.0 then 36.0
    else if rx < -70.0 then 48.0 else 54.0
  }

  /** With the sensitivities of the table, that is what the search for the fastest supported rate finds. */
  lemma FastestOfTable(rx: real, best: int)
    requires best == 1 || exists i | 0 <= i < |TABLE| :: TABLE[i].rate == best && TABLE[i].dbm <= rx
    requires best >= 1 && forall i | 0 <= i < |TABLE| && TABLE[i].dbm <= rx :: TABLE[i].rate <= best
    ensures best as real == SupportedRate(rx)
  {
    assert TABLE[0] == Sensitivity(6, -86.0) && TABLE[1] == Sensitivity(9, -84.0);
    assert TABLE[2] == Sensitivity(12, -82.0) && TABLE[3] == Sensitivity(18, -80.0);
    assert TABLE[4] == Sensitivity(24, -77.0) && TABLE[5] == Sensitivity(36, -74.0);
    assert TABLE[6] == Sensitivity(48, -72.0) && TABLE[7] == Sensitivity(54, -70.0);
  }

  /** A better signal never supports a lower rate. */
  lemma BetterSignal(rx: real, more: real)
    requires rx <= more
    ensures SupportedRate(rx) <= SupportedRate(more)
  {
  }

  // ---------------------------------------------------------------- all access points

  const PLACEHOLDER: string := "XXXXXXXX"

  /** The backhaul that the home AP reckons with. */
  function HomeBackhaul(hostname: string, backhaul: real): (b: real)
  {
    if hostname == PLACEHOLDER then 1000.0 else backhaul
  }

  function Bottleneck(home: real, down: real, up: real): (b: real)
  {
    Min(Min(down, up), home)
  }

  /** The power that calculate_preply_tx_power finds for a host. */
  function PowerAt(host: string, hostname: string, c: Config, rx: real, rates: seq<real>, backhaul: real,
                   neighbors: map<string, (real, real)>, maxMacRate: real): (p: real)
    requires AllPositive(rates) && rates != [] && maxMacRate > 0.0
  {
    if host in neighbors then
      PowerFor(c, rx, rates, Bottleneck(backhaul, neighbors[host].0, neighbors[host].1), maxMacRate)
    else PowerFor(c, rx, rates, HomeBackhaul(hostname, backhaul), maxMacRate)
  }

  /** The rates of the active clients and of the new one, which is the fastest that its signal supports. */
  method PhyRates(clients: seq<Client>, rx: real) returns (rates: seq<real>)
    requires RatesPositive(clients)
    ensures rates == ActiveRates(clients) + [SupportedRate(rx)] && AllPositive(rates)
  {
    rates := CollectRates(clients);
    ActiveRatesPositive(clients);
    var rate := GetPhyBitrate(TABLE, rx);
    FastestOfTable(rx, rate);
    rates := rates + [rate as real];
  }

  /** The cell with the new client. */
  function Cell(clients: seq<Client>, rx: real): (rates: seq<real>)
    requires RatesPositive(clients)
    ensures AllPositive(rates) && rates != []
  {
    ActiveRatesPositive(clients);
    ActiveRates(clients) + [SupportedRate(rx)]
  }

  method NeighborPower(nb: string, hostname: string, c: Config, rx: real, rates: seq<real>, backhaul: real,
                       neighbors: map<string, (real, real)>, maxMacRate: real) returns (p: real)
    requires AllPositive(rates) && rates != [] && maxMacRate > 0.0 && nb in neighbors
    ensures p == PowerAt(nb, hostname, c, rx, rates, backhaul, neighbors, maxMacRate)
  {
    p := CalcTxPower(c, rx, rates, Bottleneck(backhaul, neighbors[nb].0, neighbors[nb].1), maxMacRate);
  }

  lemma OneLess(all: set<string>, todo: set<string>, nb: string, h: string)
    requires nb in todo && todo <= all
    ensures (all - (todo - {nb})) + {h} == ((all - todo) + {h}) + {nb}
  {
  }

  /** The loop over the home AP and its neighbours. */
  method PowersOfAll(hostname: string, c: Config, rx: real, rates: seq<real>, backhaul: real,
                     neighbors: map<string, (real, real)>, maxMacRate: real) returns (powers: map<string, real>)
    requires AllPositive(rates) && rates != [] && maxMacRate > 0.0
    ensures powers.Keys == neighbors.Keys + {hostname}
    ensures forall h | h in powers :: powers[h] == PowerAt(h, hostname, c, rx, rates, backhaul, neighbors, maxMacRate)
  {
    var power := CalcTxPower(c, rx, rates, HomeBackhaul(hostname, backhaul), maxMacRate);
    powers := map[hostname := power];
    var todo := neighbors.Keys;
    while todo != {}
      invariant todo <= neighbors.Keys && powers.Keys == (neighbors.Keys - todo) + {hostname}
      invariant forall h | h in powers && h !in todo ::
                  powers[h] == PowerAt(h, hostname, c, rx, rates, backhaul, neighbors, maxMacRate)
      decreases |todo|
    {
      var nb :| nb in todo;
      power := NeighborPower(nb, hostname, c, rx, rates, backhaul, neighbors, maxMacRate);
      OneLess(neighbors.Keys, todo, nb, hostname);
      powers := powers[nb := power];
      todo := todo - {nb};
    }
  }

  /**
    calculate_preply_tx_power, for the clients' samples and the measured backhauls.  Every host gets one power.  No
    neighbour gets more than the home AP, except in the placeholder branch under the condition given.
   */
  method CalculatePreplyTxPower(hostname: string, c: Config, rx: real, clients: seq<Client>, backhaul: real,
                                neighbors: map<string, (real, real)>, maxMacRate: real)
    returns (powers: map<string, real>)
    requires RatesPositive(clients) && maxMacRate > 0.0
    ensures powers.Keys == neighbors.Keys + {hostname}
    ensures forall h | h in powers ::
              powers[h] == PowerAt(h, hostname, c, rx, Cell(clients, rx), backhaul, neighbors, maxMacRate)
    ensures c.lowRx <= c.highRx && hostname !in neighbors && hostname != "XXXXXXXX" ==>
              forall nb | nb in neighbors :: powers[nb] <= powers[hostname]
    ensures c.lowRx <= c.highRx && hostname !in neighbors && hostname == "XXXXXXXX" ==>
              forall nb | nb in neighbors ::
                powers[nb] > powers[hostname] <==>
                Outshines(c, rx, Cell(clients, rx), Bottleneck(backhaul, neighbors[nb].0, neighbors[nb].1), maxMacRate)
  {
    var rates := PhyRates(clients, rx);
    powers := PowersOfAll(hostname, c, rx, rates, backhaul, neighbors, maxMacRate);
    ComparePowers(hostname, c, rx, rates, backhaul, neighbors, maxMacRate);
  }

  /** The neighbours' powers beside the home AP's. */
  lemma ComparePowers(hostname: string, c: Config, rx: real, rates: seq<real>, backhaul: real,
                      neighbors: map<string, (real, real)>, maxMacRate: real)
    requires AllPositive(rates) && rates != [] && maxMacRate > 0.0
    ensures c.lowRx <= c.highRx && hostname !in neighbors ==>
              forall nb | nb in neighbors ::
                var p := PowerAt(nb, hostname, c, rx, rates, backhaul, neighbors, maxMacRate);
                var home := PowerAt(hostname, hostname, c, rx, rates, backhaul, neighbors, maxMacRate);
                if hostname == PLACEHOLDER then
                  p > home <==>
                  Outshines(c, rx, rates, Bottleneck(backhaul, neighbors[nb].0, neighbors[nb].1), maxMacRate)
                else p <= home
  {
    if c.lowRx <= c.highRx && hostname !in neighbors {
      forall nb | nb in neighbors
        ensures var p := PowerAt(nb, hostname, c, rx, rates, backhaul, neighbors, maxMacRate);
                var home := PowerAt(hostname, hostname, c, rx, rates, backhaul, neighbors, maxMacRate);
                if hostname == PLACEHOLDER then
                  p > home <==>
                  Outshines(c, rx, rates, Bottleneck(backhaul, neighbors[nb].0, neighbors[nb].1), maxMacRate)
                else p <= home
      {
        if hostname == PLACEHOLDER {
          PlaceholderIsQuieter(c, rx, rates, backhaul, neighbors[nb].0, neighbors[nb].1, maxMacRate);
        } else {
          NeighborNotLouder(hostname, c, rx, rates, backhaul, neighbors[nb].0, neighbors[nb].1, maxMacRate);
        }
      }
    }
  }

  /** Outside the placeholder branch no neighbour gets more power than the home AP. */
  lemma NeighborNotLouder(hostname: string, c: Config, rx: real, rates: seq<real>, backhaul: real, down: real, up: real,
                          maxMacRate: real)
    requires AllPositive(rates) && rates != [] && maxMacRate > 0.0 && c.lowRx <= c.highRx && hostname != PLACEHOLDER
    ensures PowerFor(c, rx, rates, Bottleneck(backhaul, down, up), maxMacRate)
         <= PowerFor(c, rx, rates, HomeBackhaul(hostname, backhaul), maxMacRate)
  {
    BackhaulNeverRaisesPower(c, rx, rates, backhaul, Bottleneck(backhaul, down, up), maxMacRate);
  }

  /** A neighbour is reckoned with the least of the three backhauls. */
  lemma BottleneckIsLeast(home: real, down: real, up: real)
    ensures var b := Bottleneck(home, down, up);
            b <= home && b <= down && b <= up && (b == home || b == down || b == up)
  {
  }

  /**
    With the program's settings and no active client, the home AP answers with its full 16 dBm, except where the
    signal is too weak for 6 Mbit/s but not so weak that full power is needed anyway.
   */
  lemma AloneInCell(c: Config, rx: real, hostname: string)
    requires c == Config(16.0, 16.0, -90.0, -50.0) && hostname != PLACEHOLDER
    ensures RatesPositive([])
    ensures var p := PowerAt(hostname, hostname, c, rx, Cell([], rx), 50000000.0, map[], 35.0);
            if -90.0 + 8.0 / 7.0 < rx < -86.0 then p == 8.0 / 7.0 - 74.0 - rx < 16.0 else p == 16.0
  {
    var r := SupportedRate(rx);
    assert ActiveRates([]) == [];
    assert Cell([], rx) == [r];
    OneClient(r, 50000000.0);
    AloneRaise(c, rx);
  }

  lemma AloneRaise(c: Config, rx: real)
    requires c == Config(16.0, 16.0, -90.0, -50.0)
    ensures var prio := Min(1.0, Min(SupportedRate(rx), 50.0) / 35.0);
            if -90.0 + 8.0 / 7.0 < rx < -86.0 then TxPower(c, rx, prio) == 8.0 / 7.0 - 74.0 - rx < 16.0
            else TxPower(c, rx, prio) == 16.0
  {
    assert Raise(c, 1.0) == 40.0;
    assert Raise(c, 1.0 / 35.0) == 8.0 / 7.0;
  }

  lemma NormalizedNotNegative(rates: seq<real>, backhaul: real, maxMacRate: real)
    requires AllPositive(rates) && rates != [] && maxMacRate > 0.0 && backhaul >= 0.0
    ensures 0.0 <= Normalized(rates, backhaul, maxMacRate) <= 1.0
  {
    Reciprocal(AirTime(rates), AirTime(rates));
    DivideMonotone(0.0, Capacity(rates, backhaul), maxMacRate);
  }

  /** Both assertions of calc_tx_power hold for every priority that the program computes. */
  lemma AssertionsHoldFor(c: Config, rx: real, rates: seq<real>, backhaul: real, maxMacRate: real)
    requires AllPositive(rates) && rates != [] && maxMacRate > 0.0 && backhaul >= 0.0
    requires c.lowRx <= c.highRx && c.maxPower >= 0.0
    ensures 0.0 <= PowerFor(c, rx, rates, backhaul, maxMacRate) <= c.maxPower
  {
    NormalizedNotNegative(rates, backhaul, maxMacRate);
    AssertionsHold(c, rx, Normalized(rates, backhaul, maxMacRate));
  }

  lemma DivideOrder(a: real, b: real, d: real)
    requires d > 0.0
    ensures a / d < b / d <==> a < b
  {
    if a < b {
      DivideMonotone(a, b, d);
      var x, y := a / d, b / d;
      assert x * d == a && y * d == b;
    } else {
      DivideMonotone(b, a, d);
    }
  }

  /** When more backhaul than the 1000 of the placeholder branch raises the normalised capacity. */
  lemma NormalizedGrows(rates: seq<real>, backhaul: real, maxMacRate: real)
    requires AllPositive(rates) && rates != [] && maxMacRate > 0.0
    ensures Normalized(rates, backhaul, maxMacRate) > Normalized(rates, 1000.0, maxMacRate)
       <==> backhaul > 1000.0 && 1.0 / AirTime(rates) > 0.001 && maxMacRate > 0.001
  {
    var wifi, small, large := 1.0 / AirTime(rates), Capacity(rates, 1000.0), Capacity(rates, backhaul);
    DivideOrder(small, large, maxMacRate);
    DivideOrder(small, maxMacRate, maxMacRate);
    MinStrict(wifi, 0.001, backhaul / 1000000.0);
    MinStrict(1.0, small / maxMacRate, large / maxMacRate);
  }

  lemma MinStrict(a: real, x: real, y: real)
    ensures Min(a, x) < Min(a, y) <==> x < y && x < a
  {
  }

  lemma RaisedStrict(c: Config, rx: real, raise: real, more: real)
    ensures Raised(c, rx, raise) < Raised(c, rx, more)
       <==> raise < more && Max(1.0, c.defaultPower - (rx - c.lowRx)) + raise < c.maxPower
  {
  }

  lemma ProductStrict(a: real, b: real, d: real)
    requires d >= 0.0
    ensures Product(a, d) < Product(b, d) <==> a < b && d > 0.0
  {
    if a < b && d > 0.0 {
      Scale(a, b, d);
    } else if a >= b {
      ProductOrder(b, a, d);
    }
  }

  lemma RaiseStrict(c: Config, prio: real, more: real)
    requires c.lowRx <= c.highRx
    ensures Raise(c, prio) < Raise(c, more) <==> prio < more && c.highRx > c.lowRx
  {
    ProductStrict(prio, more, c.highRx - c.lowRx);
  }

  lemma PowerStrict(c: Config, rx: real, prio: real, more: real)
    requires c.lowRx <= c.highRx
    ensures TxPower(c, rx, more) > TxPower(c, rx, prio)
       <==> prio < more && c.highRx > c.lowRx && BelowMaximum(c, rx, prio)
  {
    RaiseStrict(c, prio, more);
    RaisedStrict(c, rx, Raise(c, prio), Raise(c, more));
  }

  /** The power before it is cut off at the maximum is below it. */
  predicate BelowMaximum(c: Config, rx: real, prio: real)
  {
    Max(1.0, c.defaultPower - (rx - c.lowRx)) + Raise(c, prio) < c.maxPower
  }

  /**
    There is a range of received powers, more backhaul and more wireless capacity than the placeholder branch
    reckons with, and the home AP is not at its maximum already.
   */
  predicate Outshines(c: Config, rx: real, rates: seq<real>, bottleneck: real, maxMacRate: real)
    requires AllPositive(rates) && rates != [] && maxMacRate > 0.0
  {
    && c.highRx > c.lowRx && BelowMaximum(c, rx, Normalized(rates, 1000.0, maxMacRate))
    && bottleneck > 1000.0 && 1.0 / AirTime(rates) > 0.001 && maxMacRate > 0.001
  }

  /** Exactly then a neighbour gets more power than the home AP in the placeholder branch. */
  lemma PlaceholderIsQuieter(c: Config, rx: real, rates: seq<real>, backhaul: real, down: real, up: real,
                             maxMacRate: real)
    requires AllPositive(rates) && rates != [] && maxMacRate > 0.0 && c.lowRx <= c.highRx
    ensures PowerFor(c, rx, rates, Bottleneck(backhaul, down, up), maxMacRate)
              > PowerFor(c, rx, rates, HomeBackhaul(PLACEHOLDER, backhaul), maxMacRate)
       <==> Outshines(c, rx, rates, Bottleneck(backhaul, down, up), maxMacRate)
  {
    var bottleneck := Bottleneck(backhaul, down, up);
    NormalizedGrows(rates, bottleneck, maxMacRate);
    PowerStrict(c, rx, Normalized(rates, 1000.0, maxMacRate), Normalized(rates, bottleneck, maxMacRate));
  }

  /** It happens with the program's own settings. */
  lemma PlaceholderPoint(c: Config, rates: seq<real>)
    requires c == Config(16.0, 16.0, -90.0, -50.0) && rates == [54.0]
    ensures PowerFor(c, -80.0, rates, Bottleneck(50000000.0, 50000000.0, 50000000.0), 35.0)
          > PowerFor(c, -80.0, rates, HomeBackhaul(PLACEHOLDER, 50000000.0), 35.0)
  {
    assert AirTime(rates) == 1.0 / 54.0 by {
      assert AirTime([]) == 0.0;
    }
    Inverse(1.0 / 54.0, 54.0);
    PlaceholderIsQuieter(c, -80.0, rates, 50000000.0, 50000000.0, 50000000.0, 35.0);
  }
}
