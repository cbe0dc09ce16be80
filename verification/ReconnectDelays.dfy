/** src/ws/GraphQLWebSocketClient.ts: how long a client waits before it connects again. */
module ReconnectDelays {
  import opened GraphQLAst

  datatype Settings = Settings(min: int, max: int, multiplier: real)

  /** The settings of a client; a minimum below 10 is not accepted. */
  function SettingsOf(min: Option<int>, max: Option<int>, multiplier: Option<real>): (s: Settings)
    ensures s.min >= 10 && (min.Some? && min.value >= 10 ==> s.min == min.value) && (min.Some? && min.value < 10 ==> s.min == 10)
    ensures (max.Some? ==> s.max == max.value) && (multiplier.Some? ==> s.multiplier == multiplier.value)
    ensures (min.None? ==> s.min == 500) && (max.None? ==> s.max == 30000) && (multiplier.None? ==> s.multiplier == 2.0)
  {
    Settings(Larger(if min.Some? then min.value else 500, 10),
             if max.Some? then max.value else 30000,
             if multiplier.Some? then multiplier.value else 2.0)
  }

  function Larger(a: int, b: int): int {
    if a < b then b else a
  }

  function Smaller(a: real, b: real): real {
    if a < b then a else b
  }

  /** What a random draw adds to a delay. */
  function Jitter(draw: real, min: int): (added: real)
    ensures min > 0 && 0.0 <= draw < 1.0 ==> 0.0 <= added < min as real
  {
    DrawBelow(draw, min as real);
    draw * (min as real)
  }

  lemma Times(a: real, b: real, m: real)
    requires m > 0.0 && a < b
    ensures a * m < b * m
  {
    assert b * m == a * m + (b - a) * m;
    Positive(b - a, m);
  }

  lemma Positive(a: real, b: real)
    requires a > 0.0 && b > 0.0
    ensures a * b > 0.0
  {
  }

  lemma Quotient(x: real, m: real)
    requires m > 0.0 && 0.0 <= x < m
    ensures 0.0 <= x / m < 1.0 && (x / m) * m == x
  {
    var q := x / m;
    assert q * m == x;
    if q > 1.0 {
      Times(1.0, q, m);
    }
    if q < 0.0 {
      Times(q, 0.0, m);
    }
  }

  lemma SameFactor(a: real, b: real, m: real)
    requires m > 0.0 && a * m == b * m
    ensures a == b
  {
    if a < b {
      Times(a, b, m);
    }
    if b < a {
      Times(b, a, m);
    }
  }

  /** Draws spread over the whole range below the minimum: each amount is added by exactly one of them. */
  lemma JitterReaches(added: real, min: int) returns (draw: real)
    requires min > 0 && 0.0 <= added < min as real
    ensures 0.0 <= draw < 1.0 && Jitter(draw, min) == added
    ensures forall other | Jitter(other, min) == added :: other == draw
  {
    Quotient(added, min as real);
    draw := added / (min as real);
    forall other | Jitter(other, min) == added ensures other == draw {
      SameFactor(other, draw, min as real);
    }
  }

  lemma DrawBelow(draw: real, min: real)
    ensures min > 0.0 && 0.0 <= draw < 1.0 ==> 0.0 <= draw * min < min
  {
    if min > 0.0 && 0.0 <= draw < 1.0 {
      assert (1.0 - draw) * min > 0.0;
      assert (1.0 - draw) * min == min - draw * min;
    }
  }

  /** One failure, with the random draw made for it. */
  function Increased(s: Settings, delay: int, draw: real): int {
    (Smaller(s.multiplier * (Larger(delay, s.min) as real), s.max as real) + Jitter(draw, s.min)).Floor
  }

  function DelayAfter(s: Settings, start: int, draws: seq<real>): int {
    if draws == [] then start
    else Increased(s, DelayAfter(s, start, draws[..|draws| - 1]), draws[|draws| - 1])
  }

  predicate Draws(draws: seq<real>) {
    forall k | 0 <= k < |draws| :: 0.0 <= draws[k] < 1.0
  }

  function Pow(n: nat, k: nat): nat {
    if k == 0 then 1 else n * Pow(n, k - 1)
  }

  /** Whatever the multiplier, no delay reaches the maximum and the minimum together. */
  lemma IncreasedBelow(s: Settings, delay: int, draw: real)
    requires s.min > 0 && 0.0 <= draw < 1.0
    ensures Increased(s, delay, draw) < s.max + s.min
  {
    SumBelow(Smaller(s.multiplier * (Larger(delay, s.min) as real), s.max as real), Jitter(draw, s.min), s.max, s.min);
  }

  lemma SumBelow(base: real, extra: real, max: int, min: int)
    requires base <= max as real && extra < min as real
    ensures (base + extra).Floor < max + min
  {
    assert (max + min) as real == max as real + min as real;
    assert (base + extra).Floor as real <= base + extra;
  }

  /** One failure multiplies the delay, up to the maximum; the draw only adds to it. */
  lemma IncreasedAtLeast(s: Settings, n: nat, delay: int, draw: real, bound: int)
    requires s.min > 0 && 0.0 <= draw < 1.0 && s.multiplier == n as real
    requires bound <= n * Larger(delay, s.min) && bound <= s.max
    ensures Increased(s, delay, draw) >= bound
  {
    assert s.multiplier * (Larger(delay, s.min) as real) == (n * Larger(delay, s.min)) as real;
  }

  lemma Multiplied(n: nat, x: int, y: int)
    requires n >= 1 && x >= y && x >= 0
    ensures n * x >= n * y && n * x >= x
  {
  }

  function Least(a: int, b: int): int {
    if a < b then a else b
  }

  lemma Grows(s: Settings, n: nat, delay: int, draw: real, power: int)
    requires s.min > 0 && n >= 1 && s.multiplier == n as real && 0.0 <= draw < 1.0
    requires Larger(delay, s.min) >= Least(power, s.max)
    ensures Increased(s, delay, draw) >= Least(n * power, s.max)
  {
    Multiplied(n, Larger(delay, s.min), Least(power, s.max));
    IncreasedAtLeast(s, n, delay, draw, Least(n * power, s.max));
  }

  lemma PowStep(n: nat, k: nat, min: int)
    ensures Pow(n, k + 1) * min == n * (Pow(n, k) * min)
  {
    assert Pow(n, k + 1) == n * Pow(n, k);
    assert (n * Pow(n, k)) * min == n * (Pow(n, k) * min);
  }

  /** After `|draws|` failures in a row, since construction or since the last success. */
  lemma {:induction false} BackOffBound(s: Settings, n: nat, start: int, draws: seq<real>)
    requires s.min > 0 && n >= 1 && s.multiplier == n as real && (start == 0 || start == s.min)
    requires Draws(draws) && draws != []
    ensures Least(Pow(n, |draws|) * s.min, s.max) <= DelayAfter(s, start, draws) < s.max + s.min
  {
    var init := draws[..|draws| - 1];
    if init != [] {
      BackOffBound(s, n, start, init);
    }
    var before, power := DelayAfter(s, start, init), Pow(n, |init|) * s.min;
    assert Larger(before, s.min) >= Least(power, s.max);
    IncreasedBelow(s, before, draws[|init|]);
    Grows(s, n, before, draws[|init|], power);
    PowStep(n, |init|, s.min);
  }

  lemma {:induction false} PowAtLeastDoubles(n: nat, k: nat)
    requires n >= 2
    ensures Pow(n, k) >= Pow(2, k)
  {
    if k > 0 {
      PowAtLeastDoubles(n, k - 1);
      TwiceAtMost(n, Pow(n, k - 1), Pow(2, k - 1));
    }
  }

  lemma TwiceAtMost(n: nat, x: nat, y: nat)
    requires n >= 2 && x >= y
    ensures n * x >= 2 * y
  {
    assert n * x == 2 * x + (n - 2) * x;
    assert (n - 2) * x >= 0;
  }

  lemma Scaled(x: int, y: int, min: int)
    requires x >= y && min > 0
    ensures x * min >= y * min
  {
  }

  /** Logarithmically many failures reach the maximum: as many as it takes to double the minimum up to it. */
  lemma Saturates(s: Settings, n: nat, start: int, draws: seq<real>)
    requires s.min > 0 && n >= 2 && s.multiplier == n as real && (start == 0 || start == s.min)
    requires Draws(draws) && draws != [] && Pow(2, |draws|) * s.min >= s.max
    ensures s.max <= DelayAfter(s, start, draws) < s.max + s.min
  {
    BackOffBound(s, n, start, draws);
    PowAtLeastDoubles(n, |draws|);
    Scaled(Pow(n, |draws|), Pow(2, |draws|), s.min);
  }

  // ----- which multipliers grow at all -----

  /** Rounding down leaves at least one unit of growth, already at the minimum. */
  predicate Grown(s: Settings) {
    (s.multiplier - 1.0) * (s.min as real) >= 1.0
  }

  lemma ScaledReal(a: real, x: real, y: real)
    requires a >= 0.0 && x >= y
    ensures a * x >= a * y
  {
  }

  lemma FloorAtLeast(x: real, n: int)
    requires x >= n as real
    ensures x.Floor >= n
  {
  }

  lemma IncreasedNoLess(s: Settings, delay: int, draw: real, bound: int)
    requires s.min > 0 && 0.0 <= draw < 1.0 && bound <= s.max
    requires s.multiplier * (Larger(delay, s.min) as real) >= bound as real
    ensures Increased(s, delay, draw) >= bound
  {
    FloorAtLeast(Smaller(s.multiplier * (Larger(delay, s.min) as real), s.max as real) + Jitter(draw, s.min), bound);
  }

  lemma GrowsByOne(multiplier: real, min: real, delay: real)
    requires (multiplier - 1.0) * min >= 1.0 && min > 0.0 && delay >= min
    ensures multiplier * delay >= delay + 1.0
  {
    var rate := multiplier - 1.0;
    if rate <= 0.0 {
      ScaledReal(-rate, min, 0.0);
    }
    ScaledReal(rate, delay, min);
    assert multiplier * delay == delay + rate * delay;
  }

  lemma IncreasedRises(s: Settings, delay: int, draw: real)
    requires s.min > 0 && 0.0 <= draw < 1.0 && Grown(s) && s.min <= delay < s.max
    ensures Increased(s, delay, draw) > delay
  {
    GrowsByOne(s.multiplier, s.min as real, delay as real);
    IncreasedNoLess(s, delay, draw, delay + 1);
  }

  /** Without a draw, the first failure at the minimum stays there. */
  lemma MinimumStays(s: Settings)
    requires s.min > 0 && s.max > s.min && !Grown(s)
    ensures Increased(s, s.min, 0.0) <= s.min
    ensures s.multiplier >= 1.0 ==> Increased(s, s.min, 0.0) == s.min
  {
    var m := s.min as real;
    assert s.multiplier * m == m + (s.multiplier - 1.0) * m;
    assert Jitter(0.0, s.min) == 0.0;
    assert Increased(s, s.min, 0.0) == Smaller(s.multiplier * m, s.max as real).Floor;
    assert Smaller(s.multiplier * m, s.max as real) < (s.min + 1) as real;
    if s.multiplier >= 1.0 {
      ScaledReal(s.multiplier - 1.0, m, 0.0);
      FloorAtLeast(Smaller(s.multiplier * m, s.max as real), s.min);
    }
  }

  /** Failure after failure, whatever the draws, the delay rises strictly until it reaches the maximum. */
  ghost predicate RisesToMax(s: Settings) {
    forall start, draws | StartsAt(s, start, draws) && DelayAfter(s, start, draws[..|draws| - 1]) < s.max ::
      DelayAfter(s, start, draws) > DelayAfter(s, start, draws[..|draws| - 1])
  }

  /** From the minimum after a success, or after the first failure since construction. */
  predicate StartsAt(s: Settings, start: int, draws: seq<real>) {
    Draws(draws) && ((start == s.min && draws != []) || (start == 0 && |draws| >= 2))
  }

  lemma {:induction false} AtLeastMinimum(s: Settings, start: int, draws: seq<real>)
    requires s.min > 0 && s.max > s.min && Grown(s) && Draws(draws) && (start == s.min || (start == 0 && draws != []))
    ensures DelayAfter(s, start, draws) >= s.min
  {
    if draws != [] {
      var init, draw := draws[..|draws| - 1], draws[|draws| - 1];
      var before := DelayAfter(s, start, init);
      if start == 0 && init == [] {
        IncreasedRises(s, s.min, draw);
        assert Increased(s, 0, draw) == Increased(s, s.min, draw);
      } else {
        AtLeastMinimum(s, start, init);
        if before < s.max {
          IncreasedRises(s, before, draw);
        } else {
          IncreasedKeepsMax(s, before, draw);
        }
      }
    }
  }

  lemma IncreasedKeepsMax(s: Settings, delay: int, draw: real)
    requires s.min > 0 && 0.0 <= draw < 1.0 && Grown(s) && s.max > s.min && delay >= s.max
    ensures Increased(s, delay, draw) >= s.max
  {
    GrowsByOne(s.multiplier, s.min as real, delay as real);
    IncreasedNoLess(s, delay, draw, s.max);
  }

  /** The back-off rises for all draws exactly when the multiplier adds at least one unit to the minimum. */
  lemma RisesIffGrown(s: Settings)
    requires s.min > 0 && s.max > s.min
    ensures RisesToMax(s) <==> Grown(s)
  {
    if Grown(s) {
      forall start, draws | StartsAt(s, start, draws) && DelayAfter(s, start, draws[..|draws| - 1]) < s.max
        ensures DelayAfter(s, start, draws) > DelayAfter(s, start, draws[..|draws| - 1])
      {
        AtLeastMinimum(s, start, draws[..|draws| - 1]);
        IncreasedRises(s, DelayAfter(s, start, draws[..|draws| - 1]), draws[|draws| - 1]);
      }
    } else {
      MinimumStays(s);
      var draws := [0.0];
      assert draws[..|draws| - 1] == [] && StartsAt(s, s.min, draws);
      assert DelayAfter(s, s.min, draws) == Increased(s, s.min, 0.0);
    }
  }

  /** Otherwise a multiplier of at least 1 can leave the delay at the minimum for ever: rounding takes all growth away. */
  lemma {:induction false} FractionalMultiplierStalls(s: Settings, start: int, draws: seq<real>)
    requires s.min > 0 && s.max > s.min && s.multiplier >= 1.0 && !Grown(s) && (start == 0 || start == s.min)
    requires draws != [] && forall k | 0 <= k < |draws| :: draws[k] == 0.0
    ensures DelayAfter(s, start, draws) == s.min
  {
    var init := draws[..|draws| - 1];
    if init != [] {
      FractionalMultiplierStalls(s, start, init);
    }
    MinimumStays(s);
    assert Increased(s, DelayAfter(s, start, init), 0.0) == Increased(s, s.min, 0.0);
  }
}
