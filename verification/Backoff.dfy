/** internal/protocol/session/backoff.go over the reals: retry delays in nanoseconds. */
module Backoff {
  import opened Errors

  datatype BackoffConfig = BackoffConfig(initialDelay: int, multiplier: real, maxDelay: int, jitter: bool)

  function Pow(b: real, n: nat): real
  {
    if n == 0 then 1.0 else b * Pow(b, n - 1)
  }

  function Factor(cfg: BackoffConfig): real { if cfg.multiplier < 1.0 then 1.0 else cfg.multiplier }

  function Cap(cfg: BackoffConfig, delay: real): real
  {
    if cfg.maxDelay > 0 && delay > cfg.maxDelay as real then cfg.maxDelay as real else delay
  }

  /** The initial delay, or a positive maximum when that is smaller. */
  function Smaller(cfg: BackoffConfig): int
  {
    if cfg.maxDelay > 0 && cfg.maxDelay < cfg.initialDelay then cfg.maxDelay else cfg.initialDelay
  }

  function Uncapped(cfg: BackoffConfig, attempt: int): real
    requires attempt >= 1
  {
    cfg.initialDelay as real * Pow(Factor(cfg), attempt - 1)
  }

  /** The delay before jitter and rounding, for the second attempt on. */
  function Grown(cfg: BackoffConfig, attempt: int): real
    requires attempt >= 1
  {
    Cap(cfg, Uncapped(cfg, attempt))
  }

  /** Half to one and a half times; without a source of randomness, half. */
  function JitterFactor(draw: Option<real>): real { if draw.Some? then 0.5 + draw.value else 0.5 }

  function Scaled(delay: real, factor: real): real { delay * factor }

  /** The delay before retry `attempt`, counted from 1. The first one is never capped or jittered. */
  function NextBackoffDelay(cfg: BackoffConfig, attempt: int, draw: Option<real>): int
  {
    if attempt <= 1 then cfg.initialDelay
    else if cfg.initialDelay <= 0 then 0
    else (if cfg.jitter then Scaled(Grown(cfg, attempt), JitterFactor(draw)) else Grown(cfg, attempt)).Floor
  }

  /** A draw of rng.Float64(). */
  predicate Drawn(draw: Option<real>) { draw.Some? ==> 0.0 <= draw.value < 1.0 }

  lemma TimesAtLeast(x: real, y: real, m: real)
    requires 0.0 <= x <= y && 0.0 <= m
    ensures x * m <= y * m
    ensures 1.0 <= m ==> x <= x * m
  {
  }

  lemma {:induction false} PowGrows(b: real, n: nat)
    requires b >= 1.0
    ensures 1.0 <= Pow(b, n) <= Pow(b, n + 1)
  {
    if n > 0 {
      PowGrows(b, n - 1);
      assert Pow(b, n) == Pow(b, n - 1) * b;
      TimesAtLeast(Pow(b, n - 1), Pow(b, n), b);
      assert Pow(b, n + 1) == Pow(b, n) * b;
      TimesAtLeast(Pow(b, n), Pow(b, n), b);
    }
  }

  /** The uncapped delay starts at the initial one and grows. */
  lemma PowerGrows(cfg: BackoffConfig, attempt: int)
    requires attempt >= 1 && cfg.initialDelay > 0
    ensures 0.0 < cfg.initialDelay as real <= Uncapped(cfg, attempt) <= Uncapped(cfg, attempt + 1)
  {
    var i, p, q := cfg.initialDelay as real, Pow(Factor(cfg), attempt - 1), Pow(Factor(cfg), attempt);
    PowGrows(Factor(cfg), attempt - 1);
    TimesAtLeast(p, q, i);
    TimesAtLeast(i, i, p);
    assert p * i == i * p && q * i == i * q;
  }

  lemma GrownGrows(cfg: BackoffConfig, attempt: int)
    requires attempt >= 1 && cfg.initialDelay > 0
    ensures 0.0 < Grown(cfg, attempt) <= Grown(cfg, attempt + 1)
    ensures cfg.maxDelay > 0 ==> Grown(cfg, attempt) <= cfg.maxDelay as real
    ensures Grown(cfg, attempt) >= Smaller(cfg) as real
  {
    hide Uncapped, Cap;
    PowerGrows(cfg, attempt);
    CapGrows(cfg, Uncapped(cfg, attempt), Uncapped(cfg, attempt + 1));
  }

  lemma CapGrows(cfg: BackoffConfig, x: real, y: real)
    requires 0.0 < cfg.initialDelay as real <= x <= y
    ensures 0.0 < Cap(cfg, x) <= Cap(cfg, y) && Cap(cfg, x) >= Smaller(cfg) as real
    ensures cfg.maxDelay > 0 ==> Cap(cfg, x) <= cfg.maxDelay as real
  {
  }

  /** Without jitter delays never decrease exactly when the initial delay does not exceed a positive maximum. */
  lemma DelaysMonotoneIff(cfg: BackoffConfig, draw: Option<real>)
    requires !cfg.jitter
    ensures (forall a :: a >= 1 ==> NextBackoffDelay(cfg, a, draw) <= NextBackoffDelay(cfg, a + 1, draw))
            <==> !(0 < cfg.maxDelay < cfg.initialDelay)
  {
    if 0 < cfg.maxDelay < cfg.initialDelay {
      GrownGrows(cfg, 1);
      GrownGrows(cfg, 2);
      assert NextBackoffDelay(cfg, 1, draw) > NextBackoffDelay(cfg, 1 + 1, draw);
    } else {
      forall a | a >= 1 ensures NextBackoffDelay(cfg, a, draw) <= NextBackoffDelay(cfg, a + 1, draw) {
        if cfg.initialDelay > 0 {
          GrownGrows(cfg, a);
          GrownGrows(cfg, a + 1);
        }
      }
    }
  }

  /** Without jitter no delay exceeds a positive maximum exactly when the initial one does not. */
  lemma DelaysCappedIff(cfg: BackoffConfig, draw: Option<real>)
    requires !cfg.jitter && cfg.maxDelay > 0
    ensures (forall a :: a >= 1 ==> NextBackoffDelay(cfg, a, draw) <= cfg.maxDelay) <==> cfg.initialDelay <= cfg.maxDelay
  {
    assert NextBackoffDelay(cfg, 1, draw) == cfg.initialDelay;
    if cfg.initialDelay <= cfg.maxDelay {
      forall a | a >= 1 ensures NextBackoffDelay(cfg, a, draw) <= cfg.maxDelay {
        if cfg.initialDelay > 0 { GrownGrows(cfg, a); }
      }
    }
  }

  /** Scaling a positive delay keeps the order of the factors. */
  lemma ScaledOrder(g: real, x: real, y: real)
    requires 0.0 < g
    ensures x < y <==> Scaled(g, x) < Scaled(g, y)
  {
    if x < y { assert g * (y - x) > 0.0; }
    if y < x { assert g * (x - y) > 0.0; }
  }

  lemma ScaledBy(g: real)
    ensures Scaled(g, 1.0) == g && Scaled(g, 0.5) == g * 0.5 && Scaled(g, 1.5) == g * 1.5
  {
  }

  /** A jittered delay stays below one and a half times the delay it is made of, so below one and a half times a
      positive maximum. */
  lemma JitterBound(cfg: BackoffConfig, attempt: int, draw: Option<real>)
    requires cfg.jitter && cfg.initialDelay > 0 && attempt >= 2 && Drawn(draw)
    ensures NextBackoffDelay(cfg, attempt, draw) as real < Grown(cfg, attempt) * 1.5
    ensures cfg.maxDelay > 0 ==> 2 * NextBackoffDelay(cfg, attempt, draw) < 3 * cfg.maxDelay
  {
    hide Grown, Scaled;
    GrownGrows(cfg, attempt);
    ScaledOrder(Grown(cfg, attempt), JitterFactor(draw), 1.5);
    ScaledBy(Grown(cfg, attempt));
  }

  /** The draw that takes a delay `g` to exactly `limit`. */
  lemma DrawReaching(g: real, limit: real) returns (x: real)
    requires 0.0 < g <= limit < g * 1.5
    ensures 0.0 <= x < 1.0 && Scaled(g, 0.5 + x) == limit
  {
    hide Scaled;
    x := limit / g - 0.5;
    ScaledQuotient(g, limit);
    assert 0.5 + x == limit / g;
    ScaledBy(g);
    ScaledOrder(g, limit / g, 1.0);
    ScaledOrder(g, limit / g, 1.5);
  }

  lemma ScaledQuotient(g: real, limit: real)
    requires 0.0 < g
    ensures Scaled(g, limit / g) == limit
  {
  }

  /** Jitter comes after the cap: no draw takes a later delay above a positive maximum exactly when one and a half
      times the unjittered delay does not exceed it by more than one. */
  lemma JitterCappedIff(cfg: BackoffConfig, attempt: int)
    requires cfg.jitter && cfg.maxDelay > 0 && cfg.initialDelay > 0 && attempt >= 2
    ensures (forall x: real :: 0.0 <= x < 1.0 ==> NextBackoffDelay(cfg, attempt, Some(x)) <= cfg.maxDelay)
            <==> Grown(cfg, attempt) * 1.5 <= cfg.maxDelay as real + 1.0
  {
    hide Grown, Scaled;
    GrownGrows(cfg, attempt);
    var g, limit := Grown(cfg, attempt), cfg.maxDelay as real + 1.0;
    if g * 1.5 <= limit {
      ScaledBy(g);
      forall x: real | 0.0 <= x < 1.0 ensures NextBackoffDelay(cfg, attempt, Some(x)) <= cfg.maxDelay {
        ScaledOrder(g, 0.5 + x, 1.5);
      }
    } else {
      var x := DrawReaching(g, limit);
      assert NextBackoffDelay(cfg, attempt, Some(x)) == limit.Floor == cfg.maxDelay + 1;
    }
  }

  /** An input whose jittered delay exceeds the maximum. */
  lemma JitterExceedsCap()
    ensures NextBackoffDelay(BackoffConfig(250, 2.0, 500, true), 3, Some(0.75)) == 625
  {
    assert Pow(2.0, 2) == 4.0;
  }

  /** Half of the smaller of the initial delay and a positive maximum, rounded down. */
  function ShortestDelay(cfg: BackoffConfig): int { Smaller(cfg) / 2 }

  lemma HalfFloor(n: int, g: real, f: real)
    requires 0.0 < g && g >= n as real && f >= 0.5 && n >= 0
    ensures Scaled(g, f).Floor >= n / 2
  {
    hide Scaled;
    ScaledBy(g);
    ScaledOrder(g, f, 0.5);
    assert (n / 2) as real <= n as real * 0.5 <= 0.5 * g;
  }

  /** No delay is shorter than that, jittered or not. */
  lemma DelayAtLeast(cfg: BackoffConfig, attempt: int, draw: Option<real>)
    requires attempt >= 1 && cfg.initialDelay > 0 && Drawn(draw)
    ensures NextBackoffDelay(cfg, attempt, draw) >= ShortestDelay(cfg) >= 0
  {
    hide Grown, Scaled;
    if attempt > 1 {
      GrownGrows(cfg, attempt);
      ScaledBy(Grown(cfg, attempt));
      HalfFloor(Smaller(cfg), Grown(cfg, attempt), if cfg.jitter then JitterFactor(draw) else 1.0);
    }
  }

  // ---------------------------------------------------------------- exponential growth

  function Times(x: real, y: real): real { x * y }

  lemma TimesOrder(x: real, y: real, m: real)
    requires m >= 1.0
    ensures x < y <==> Times(x, m) < Times(y, m)
    ensures 0.0 <= x ==> x <= Times(x, m)
  {
    if x < y { assert (y - x) * m > 0.0; }
    if y < x { assert (x - y) * m > 0.0; }
    if 0.0 <= x { assert x * (m - 1.0) >= 0.0; }
  }

  /** The uncapped delay of the next attempt is the factor times that of this one. */
  lemma UncappedMultiplies(cfg: BackoffConfig, attempt: int)
    requires attempt >= 1
    ensures Uncapped(cfg, attempt + 1) == Times(Uncapped(cfg, attempt), Factor(cfg))
    ensures Uncapped(cfg, 1) == cfg.initialDelay as real
  {
    var i, p, f := cfg.initialDelay as real, Pow(Factor(cfg), attempt - 1), Factor(cfg);
    assert Pow(f, attempt) == f * p;
    assert i * (f * p) == (i * p) * f;
    assert Pow(f, 0) == 1.0;
  }

  /** With a whole multiplier the delay before jitter is a whole number: `m` times the one before while that is no more
      than a positive maximum, and the maximum from then on. */
  lemma {:induction false} WholeDelays(cfg: BackoffConfig, m: int, attempt: int) returns (d: int)
    requires m >= 1 && cfg.multiplier == m as real && cfg.initialDelay > 0 && attempt >= 1
    ensures d >= 1 && Uncapped(cfg, attempt) == d as real
    decreases attempt
  {
    hide Uncapped;
    if attempt == 1 {
      UncappedMultiplies(cfg, 1);
      d := cfg.initialDelay;
    } else {
      var c := WholeDelays(cfg, m, attempt - 1);
      UncappedMultiplies(cfg, attempt - 1);
      d := WholeProduct(c, m);
    }
  }

  lemma WholeProduct(c: int, m: int) returns (d: int)
    requires c >= 1 && m >= 1
    ensures d == m * c && d >= c && Times(c as real, m as real) == d as real
  {
    d := m * c;
    assert (m - 1) * c >= 0;
    CastProduct(c, m);
  }

  lemma CastProduct(c: int, m: int)
    ensures c as real * m as real == (m * c) as real
  {
  }

  /** Exponential backoff. Without jitter and with a whole multiplier every delay is that many times the one before, until
      a positive maximum is reached, and the maximum from then on. The first delay is the configured one. */
  lemma DelaysMultiply(cfg: BackoffConfig, m: int, attempt: int, draw: Option<real>)
    requires !cfg.jitter && m >= 1 && cfg.multiplier == m as real && cfg.initialDelay > 0 && attempt >= 1
    ensures NextBackoffDelay(cfg, 1, draw) == cfg.initialDelay
    ensures var (d, d') := (NextBackoffDelay(cfg, attempt, draw), NextBackoffDelay(cfg, attempt + 1, draw));
            d' == if cfg.maxDelay > 0 && m * d > cfg.maxDelay then cfg.maxDelay else m * d
  {
    hide Uncapped, Times;
    var u := WholeDelays(cfg, m, attempt);
    var u' := WholeProduct(u, m);
    UncappedMultiplies(cfg, attempt);
    if cfg.maxDelay > 0 && u > cfg.maxDelay && attempt > 1 {
      var c := WholeProduct(cfg.maxDelay, m);
    }
  }

  /** With any multiplier of at least 1 the next delay is the multiplier times this one up to the rounding, until that
      exceeds a positive maximum, and the maximum from then on. A multiplier below 1 counts as 1. */
  lemma DelaysScale(cfg: BackoffConfig, attempt: int, draw: Option<real>)
    requires !cfg.jitter && cfg.initialDelay > 0 && attempt >= 1
    ensures var f := if cfg.multiplier < 1.0 then 1.0 else cfg.multiplier;
            var (d, d') := (NextBackoffDelay(cfg, attempt, draw), NextBackoffDelay(cfg, attempt + 1, draw));
            && (cfg.maxDelay <= 0 || Times((d + 1) as real, f) <= cfg.maxDelay as real ==>
                  Times(d as real, f) - 1.0 < d' as real < Times((d + 1) as real, f))
            && (cfg.maxDelay > 0 && Times(d as real, f) >= cfg.maxDelay as real ==> d' == cfg.maxDelay)
  {
    hide Uncapped, Times;
    var f, u := Factor(cfg), Uncapped(cfg, attempt);
    var d := NextBackoffDelay(cfg, attempt, draw);
    UncappedMultiplies(cfg, attempt);
    PowerGrows(cfg, attempt);
    TimesOrder(d as real, u, f);
    TimesOrder(u, d as real, f);
    TimesOrder(u, (d + 1) as real, f);
    TimesOrder((d + 1) as real, u, f);
  }

  /** Jitter moves the unjittered delay by half to one and a half times, as the draw says, up to the rounding. */
  lemma JitterScales(cfg: BackoffConfig, attempt: int, draw: Option<real>)
    requires cfg.jitter && cfg.initialDelay > 0 && attempt >= 2 && Drawn(draw)
    ensures var d := NextBackoffDelay(cfg.(jitter := false), attempt, None);
            var j := if draw.Some? then 0.5 + draw.value else 0.5;
            Times(d as real, j) - 1.0 < NextBackoffDelay(cfg, attempt, draw) as real < Times((d + 1) as real, j)
  {
    hide Grown, Times, Scaled;
    SameGrowth(cfg, attempt);
    var g, d, j := Grown(cfg, attempt), NextBackoffDelay(cfg.(jitter := false), attempt, None), JitterFactor(draw);
    assert d as real <= g < (d + 1) as real;
    TimesRises(d as real, g, j);
    TimesRises(g, (d + 1) as real, j);
    ScaledIsTimes(g, j);
  }

  lemma TimesRises(x: real, y: real, m: real)
    requires m > 0.0
    ensures x < y ==> Times(x, m) < Times(y, m)
    ensures x == y ==> Times(x, m) == Times(y, m)
  {
    if x < y { assert (y - x) * m > 0.0; }
  }

  lemma ScaledIsTimes(g: real, j: real)
    ensures Scaled(g, j) == Times(g, j)
  {
  }

  lemma SameGrowth(cfg: BackoffConfig, attempt: int)
    requires attempt >= 1
    ensures Grown(cfg.(jitter := false), attempt) == Grown(cfg, attempt)
  {
    hide Pow;
    assert Factor(cfg.(jitter := false)) == Factor(cfg);
  }
}
