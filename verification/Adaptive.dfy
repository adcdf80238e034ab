/** The load-adaptive limit, in exact arithmetic. */
module Adaptive {

  datatype Config = Config(baseLimit: int, minLimit: int, maxLimit: int, highLoad: real, lowLoad: real)

  /** Conversion to an integer, toward zero. */
  function Truncate(r: real): int { if r >= 0.0 then r.Floor else -((-r).Floor) }

  /** How far the load is from the low to the high mark, as a share of the span of the limits. */
  function Reduction(cfg: Config, load: real): real
    requires cfg.lowLoad < load < cfg.highLoad
  {
    (load - cfg.lowLoad) / (cfg.highLoad - cfg.lowLoad) * ((cfg.maxLimit - cfg.minLimit) as real)
  }

  function Limit(cfg: Config, load: real): int {
    if load >= cfg.highLoad then cfg.minLimit
    else if load <= cfg.lowLoad then cfg.maxLimit
    else cfg.maxLimit - Truncate(Reduction(cfg, load))
  }

  lemma ReductionGrows(cfg: Config, load: real, more: real)
    requires cfg.minLimit <= cfg.maxLimit && cfg.lowLoad < load <= more < cfg.highLoad
    ensures Reduction(cfg, load) <= Reduction(cfg, more)
  {
    var d, span := cfg.highLoad - cfg.lowLoad, (cfg.maxLimit - cfg.minLimit) as real;
    var a, b := (load - cfg.lowLoad) / d, (more - cfg.lowLoad) / d;
    assert a <= b;
    assert a * span <= b * span;
  }

  lemma ShareWithin(a: real, d: real, span: real)
    requires 0.0 <= a <= d && d > 0.0 && span >= 0.0
    ensures 0.0 <= a / d * span <= span
  {}

  lemma ReductionWithin(cfg: Config, load: real)
    requires cfg.minLimit <= cfg.maxLimit && cfg.lowLoad < load < cfg.highLoad
    ensures 0 <= Truncate(Reduction(cfg, load)) <= cfg.maxLimit - cfg.minLimit
  {
    var span := (cfg.maxLimit - cfg.minLimit) as real;
    ShareWithin(load - cfg.lowLoad, cfg.highLoad - cfg.lowLoad, span);
    FloorMonotone(Reduction(cfg, load), span);
    assert span.Floor == cfg.maxLimit - cfg.minLimit;
  }

  lemma FloorMonotone(a: real, b: real)
    requires a <= b
    ensures a.Floor <= b.Floor
  {}

  lemma LimitWithin(cfg: Config, load: real)
    requires cfg.minLimit <= cfg.maxLimit
    ensures cfg.minLimit <= Limit(cfg, load) <= cfg.maxLimit
  {
    if cfg.lowLoad < load < cfg.highLoad {
      ReductionWithin(cfg, load);
    }
  }

  lemma LimitFalls(cfg: Config, load: real, more: real)
    requires cfg.minLimit <= cfg.maxLimit && load <= more
    ensures Limit(cfg, load) >= Limit(cfg, more)
  {
    hide Reduction;
    LimitWithin(cfg, load);
    LimitWithin(cfg, more);
    if cfg.lowLoad < load && more < cfg.highLoad {
      ReductionGrows(cfg, load, more);
      TruncateMonotone(Reduction(cfg, load), Reduction(cfg, more));
    }
  }

  lemma TruncateMonotone(a: real, b: real)
    requires a <= b
    ensures Truncate(a) <= Truncate(b)
  {}

  /** Whatever the load marks, the limit stays between its bounds and never rises with the load exactly
      when the bounds are in order. */
  lemma WithinAndFallingIff(cfg: Config)
    ensures cfg.minLimit <= cfg.maxLimit <==> forall load: real :: cfg.minLimit <= Limit(cfg, load) <= cfg.maxLimit
    ensures cfg.minLimit <= cfg.maxLimit <==>
            forall load: real, more: real :: load <= more ==> Limit(cfg, load) >= Limit(cfg, more)
  {
    if cfg.minLimit <= cfg.maxLimit {
      forall load: real ensures cfg.minLimit <= Limit(cfg, load) <= cfg.maxLimit { LimitWithin(cfg, load); }
      forall load: real, more: real | load <= more ensures Limit(cfg, load) >= Limit(cfg, more) {
        LimitFalls(cfg, load, more);
      }
    } else {
      var calm := if cfg.lowLoad < cfg.highLoad then cfg.lowLoad else cfg.highLoad - 1.0;
      assert Limit(cfg, calm) == cfg.maxLimit && Limit(cfg, cfg.highLoad) == cfg.minLimit;
    }
  }

  lemma PartTimesWhole(part: real, d: real, span: real)
    requires d > 0.0
    ensures part / d * span * d == part * span
  {
    var q := part / d;
    assert q * d == part;
    assert q * span * d == q * d * span;
  }

  lemma SameSign(part: real, d: real, span: real)
    requires part > 0.0 && d > 0.0
    ensures (span >= 0.0 ==> part / d * span >= 0.0) && (span <= 0.0 ==> part / d * span <= 0.0)
  {
    var q := part / d;
    assert q * d == part;
    assert q > 0.0;
  }

  lemma Scale(a: real, b: real, d: real, p: real, q: real)
    requires d > 0.0 && p == a * d && q == b * d
    ensures (a <= b ==> p <= q) && (a < b ==> p < q)
  {
    assert q - p == (b - a) * d;
  }

  lemma TruncateBetween(r: real)
    ensures r >= 0.0 ==> Truncate(r) as real <= r < (Truncate(r) + 1) as real
    ensures r <= 0.0 ==> (Truncate(r) - 1) as real < r <= Truncate(r) as real
  {
    var f := (-r).Floor;
    assert f as real <= -r < (f + 1) as real;
  }

  /** `n` is `share / d` rounded down. */
  predicate RoundsDown(n: int, share: real, d: real) { n as real * d <= share < (n + 1) as real * d }

  /** `n` is `share / d` rounded up. */
  predicate RoundsUp(n: int, share: real, d: real) { (n - 1) as real * d < share <= n as real * d }

  lemma QuotientRounds(n: int, r: real, share: real, d: real)
    requires d > 0.0 && r * d == share
    ensures n as real <= r < (n + 1) as real ==> RoundsDown(n, share, d)
    ensures (n - 1) as real < r <= n as real ==> RoundsUp(n, share, d)
  {
    Scale((n - 1) as real, r, d, (n - 1) as real * d, share);
    Scale(n as real, r, d, n as real * d, share);
    Scale(r, n as real, d, share, n as real * d);
    Scale(r, (n + 1) as real, d, share, (n + 1) as real * d);
  }

  lemma RoundedScaled(r: real, share: real, d: real)
    requires d > 0.0 && r * d == share
    ensures r >= 0.0 ==> RoundsDown(Truncate(r), share, d)
    ensures r <= 0.0 ==> RoundsUp(Truncate(r), share, d)
  {
    TruncateBetween(r);
    hide Truncate, RoundsDown, RoundsUp;
    QuotientRounds(Truncate(r), r, share, d);
  }

  lemma ReductionIsShare(cfg: Config, load: real)
    requires cfg.lowLoad < load < cfg.highLoad
    ensures var r := Reduction(cfg, load);
            && r * (cfg.highLoad - cfg.lowLoad) == (load - cfg.lowLoad) * (cfg.maxLimit - cfg.minLimit) as real
            && (cfg.minLimit <= cfg.maxLimit ==> r >= 0.0) && (cfg.maxLimit <= cfg.minLimit ==> r <= 0.0)
  {
    var part, d, span := load - cfg.lowLoad, cfg.highLoad - cfg.lowLoad, (cfg.maxLimit - cfg.minLimit) as real;
    PartTimesWhole(part, d, span);
    SameSign(part, d, span);
  }

  /** Between the marks the limit is below the maximum by the load's share of the span of the limits, rounded
      toward zero. */
  lemma Interpolates(cfg: Config, load: real)
    requires cfg.lowLoad < load < cfg.highLoad
    ensures var down, range := cfg.maxLimit - Limit(cfg, load), cfg.highLoad - cfg.lowLoad;
            var share := (load - cfg.lowLoad) * (cfg.maxLimit - cfg.minLimit) as real;
            && (cfg.minLimit <= cfg.maxLimit ==> RoundsDown(down, share, range))
            && (cfg.maxLimit <= cfg.minLimit ==> RoundsUp(down, share, range))
  {
    hide Truncate, Reduction, RoundsDown, RoundsUp;
    var share := (load - cfg.lowLoad) * (cfg.maxLimit - cfg.minLimit) as real;
    ReductionIsShare(cfg, load);
    RoundedScaled(Reduction(cfg, load), share, cfg.highLoad - cfg.lowLoad);
    assert cfg.maxLimit - Limit(cfg, load) == Truncate(Reduction(cfg, load));
  }

  /** From the high mark on the limit is the lowest, and up to the low mark the highest. */
  lemma LimitAtMarks(cfg: Config, load: real)
    ensures load >= cfg.highLoad ==> Limit(cfg, load) == cfg.minLimit
    ensures load < cfg.highLoad && load <= cfg.lowLoad ==> Limit(cfg, load) == cfg.maxLimit
  {}

  /** A reading of the load function, if one is configured. */
  datatype Reading = NoLoadFunc | Load(value: real)

  class AdaptiveLimiter {
    const cfg: Config
    var currentLimit: int

    /** Limits that are not positive and load marks that are zero are replaced by defaults. */
    constructor (cfg: Config)
      ensures this.cfg.baseLimit == currentLimit == cfg.baseLimit
      ensures this.cfg.minLimit == if cfg.minLimit > 0 then cfg.minLimit else 1
      ensures this.cfg.maxLimit == if cfg.maxLimit > 0 then cfg.maxLimit else 2 * cfg.baseLimit
      ensures this.cfg.highLoad == if cfg.highLoad != 0.0 then cfg.highLoad else 0.8
      ensures this.cfg.lowLoad == if cfg.lowLoad != 0.0 then cfg.lowLoad else 0.4
    {
      var c := cfg;
      if c.minLimit <= 0 {
        c := c.(minLimit := 1);
      }
      if c.maxLimit <= 0 {
        c := c.(maxLimit := c.baseLimit * 2);
      }
      if c.highLoad == 0.0 {
        c := c.(highLoad := 0.8);
      }
      if c.lowLoad == 0.0 {
        c := c.(lowLoad := 0.4);
      }
      this.cfg, currentLimit := c, c.baseLimit;
    }

    /** Update the limit from a load reading. */
    method Recalculate(reading: Reading)
      modifies this
      ensures currentLimit == if reading.Load? then Limit(cfg, reading.value) else old(currentLimit)
      ensures reading.Load? && cfg.minLimit <= cfg.maxLimit ==> cfg.minLimit <= currentLimit <= cfg.maxLimit
    {
      if reading.NoLoadFunc? {
        return;
      }
      var load := reading.value;
      if load >= cfg.highLoad {
        currentLimit := cfg.minLimit;
      } else if load <= cfg.lowLoad {
        currentLimit := cfg.maxLimit;
      } else {
        var range := cfg.highLoad - cfg.lowLoad;
        var ratio := (load - cfg.lowLoad) / range;
        var span := (cfg.maxLimit - cfg.minLimit) as real;
        currentLimit := cfg.maxLimit - Truncate(ratio * span);
      }
      if cfg.minLimit <= cfg.maxLimit {
        LimitWithin(cfg, load);
      }
    }
  }
}
