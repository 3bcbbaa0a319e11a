/**
 * The animation half of the `Windy` engine: the sampled wind field and its
 * rejection-sampling respawn (`createField`, `field.randomize`), the pixel
 * bounds (`buildBounds`), the particles created by `animate` and one tick
 * of `evolve`, which moves or respawns every particle and sorts the
 * visible ones into colour buckets (`indexFor`).
 */
module WindyField {
  import opened Wrappers
  import opened JsMath

  /** A distorted wind vector `[u, v, magnitude]` in pixels per frame. */
  datatype Wind = Wind(u: real, v: real, m: real)

  /**
   * The sparse `columns` array filled by `interpolateField`: column `x`,
   * row `y`. A missing column or row is `NULL_WIND_VECTOR`.
   */
  type Columns = map<int, map<int, Wind>>

  /** `field(x, y)`: the vector at the nearest pixel, or nothing (`m === null`). */
  function FieldAt(columns: Columns, x: real, y: real): Option<Wind>
  {
    var cx, cy := Round(x), Round(y);
    if cx in columns && cy in columns[cx] then Some(columns[cx][cy]) else None
  }

  /** Every point rounding to pixel `(i, j)` sees that pixel's vector. */
  lemma FieldAtNearestPixel(columns: Columns, i: int, j: int, x: real, y: real)
    requires i as real - 0.5 <= x < i as real + 0.5 && j as real - 0.5 <= y < j as real + 0.5
    ensures FieldAt(columns, x, y) == FieldAt(columns, i as real, j as real)
  {
    assert Round(x) == i && Round(i as real) == i;
    assert Round(y) == j && Round(j as real) == j;
  }

  /** Whether pixel `(x, y)` has a vector; at whole pixels `field` is this lookup. */
  predicate HasWind(columns: Columns, x: int, y: int)
  {
    x in columns && y in columns[x]
  }

  lemma FieldAtPixel(columns: Columns, x: int, y: int)
    ensures FieldAt(columns, x as real, y as real).Some? <==> HasWind(columns, x, y)
  {
    assert Round(x as real) == x && Round(y as real) == y;
  }

  /** The canvas rectangle `buildBounds` returns. */
  datatype Bounds = Bounds(x: int, y: int, xMax: int, yMax: int, width: nat, height: nat)

  /**
   * `buildBounds`: the upper-left pixel rounded; `y` is the floor of the
   * top edge, or 0 above the canvas; `yMax` is the ceiling of the bottom
   * edge, or the last canvas row below it. The `xMax` it computes is dropped: the
   * record carries the canvas width instead.
   */
  function BuildBounds(upperLeft: (real, real), lowerRight: (real, real), width: nat, height: nat): (b: Bounds)
    ensures b.x == Round(upperLeft.0) && b.width == width && b.height == height
    ensures upperLeft.1 >= 0.0 ==> b.y as real <= upperLeft.1 < b.y as real + 1.0
    ensures upperLeft.1 < 0.0 ==> b.y == 0
    ensures lowerRight.1 <= (height - 1) as real ==> (b.yMax - 1) as real < lowerRight.1 <= b.yMax as real
    ensures lowerRight.1 > (height - 1) as real ==> b.yMax == height - 1
    ensures b.xMax == width
  {
    var x := Round(upperLeft.0);
    var y := Max(upperLeft.1.Floor, 0);
    var xMax := Min(Ceil(lowerRight.0), width - 1);
    var yMax := Min(Ceil(lowerRight.1), height - 1);
    Bounds(x, y, width, yMax, width, height)
  }

  function Max(a: int, b: int): int { if a < b then b else a }
  function Min(a: int, b: int): int { if a < b then a else b }

  /** The lower-right corner's longitude has no effect on the bounds. */
  lemma BuildBoundsIgnoresRightEdge(upperLeft: (real, real), r1: real, r2: real, bottom: real, width: nat, height: nat)
    ensures BuildBounds(upperLeft, (r1, bottom), width, height) == BuildBounds(upperLeft, (r2, bottom), width, height)
  {
  }

  /** `Math.random()` returns values in `[0, 1)`. */
  ghost predicate UnitDraws(draws: nat -> real)
  {
    forall k :: 0.0 <= draws(k) < 1.0
  }

  /** A stream of `Math.random()` draws; `pos` counts the draws taken. */
  class Random {
    const draws: nat -> real
    var pos: nat

    constructor (draws: nat -> real)
      requires UnitDraws(draws)
      ensures this.draws == draws && pos == 0
    {
      this.draws := draws;
      pos := 0;
    }

    method Next() returns (r: real)
      requires UnitDraws(draws)
      modifies this
      ensures r == draws(old(pos)) && pos == old(pos) + 1
      ensures 0.0 <= r < 1.0
    {
      r := draws(pos);
      pos := pos + 1;
    }
  }

  /**
   * `r * n` for a whole `n`, written as repeated addition so that the
   * verifier's reasoning about draws stays linear; `ScaleIsProduct` shows
   * it is the product.
   */
  function Scale(r: real, n: nat): real
  {
    if n == 0 then 0.0 else Scale(r, n - 1) + r
  }

  lemma {:induction false} ScaleIsProduct(r: real, n: nat)
    ensures Scale(r, n) == r * n as real
  {
    if n > 0 {
      ScaleIsProduct(r, n - 1);
      assert r * (n - 1) as real + r == r * n as real;
    }
  }

  lemma {:induction false} ScaleBounds(r: real, n: nat)
    requires 0.0 <= r < 1.0
    ensures 0.0 <= Scale(r, n) <= n as real
    ensures n >= 1 ==> Scale(r, n) < n as real
  {
    if n > 0 {
      ScaleBounds(r, n - 1);
    }
  }

  /** `Math.floor(Math.random() * n)`. */
  function ScaledDraw(r: real, n: nat): int
  {
    Scale(r, n).Floor
  }

  /** `Math.floor(r * n)` for a draw `r` lands in `[0, n - 1]`. */
  lemma ScaledDrawInRange(r: real, n: nat)
    requires 0.0 <= r < 1.0 && n >= 1
    ensures 0 <= ScaledDraw(r, n) <= n - 1
  {
    ScaleBounds(r, n);
  }

  /** The candidate pixel built from draws `pos` and `pos + 1`. */
  function Candidate(b: Bounds, draws: nat -> real, pos: nat): (int, int)
  {
    (ScaledDraw(draws(pos), b.width) + b.x, ScaledDraw(draws(pos + 1), b.height) + b.y)
  }

  /** Candidate pixels lie inside the bounds rectangle. */
  lemma CandidateInBounds(b: Bounds, draws: nat -> real, pos: nat)
    requires 0.0 <= draws(pos) < 1.0 && 0.0 <= draws(pos + 1) < 1.0
    requires b.width >= 1 && b.height >= 1
    ensures var (x, y) := Candidate(b, draws, pos);
            b.x <= x <= b.x + b.width - 1 && b.y <= y <= b.y + b.height - 1
  {
    ScaledDrawInRange(draws(pos), b.width);
    ScaledDrawInRange(draws(pos + 1), b.height);
  }

  /**
   * `field.randomize` from draw `pos`: draw a candidate; draw again while it
   * has no wind and the safety net holds, that is while the candidate was
   * drawn before position `last`. The result is the pixel and the stream
   * position after it.
   */
  function RespawnFrom(columns: Columns, b: Bounds, draws: nat -> real, pos: nat, last: nat): (int, int, nat)
    requires pos <= last
    decreases last - pos
  {
    var c := Candidate(b, draws, pos);
    if !HasWind(columns, c.0, c.1) && pos + 2 <= last then
      RespawnFrom(columns, b, draws, pos + 2, last)
    else
      (c.0, c.1, pos + 2)
  }

  /** A whole `field.randomize` from draw `pos`: 30 retries of two draws each, so the last candidate is drawn at `pos + 60`. */
  function Respawn(columns: Columns, b: Bounds, draws: nat -> real, pos: nat): (int, int, nat)
  {
    RespawnFrom(columns, b, draws, pos, pos + 60)
  }

  /**
   * The respawn ends on the candidate it drew last, at most at `last`, and
   * that candidate has wind unless the safety net ran out.
   */
  lemma {:induction false} RespawnShape(columns: Columns, b: Bounds, draws: nat -> real, pos: nat, last: nat)
    requires pos <= last && (last - pos) % 2 == 0
    ensures var r := RespawnFrom(columns, b, draws, pos, last);
            && pos + 2 <= r.2 <= last + 2 && (r.2 - pos) % 2 == 0
            && (r.0, r.1) == Candidate(b, draws, r.2 - 2)
            && (HasWind(columns, r.0, r.1) || r.2 == last + 2)
    decreases last - pos
  {
    var c := Candidate(b, draws, pos);
    if !HasWind(columns, c.0, c.1) && pos + 2 <= last {
      RespawnShape(columns, b, draws, pos + 2, last);
    }
  }

  /** Every candidate the respawn passed over had no wind: it is rejection sampling. */
  lemma {:induction false} RespawnRejectsOnlyCalm(columns: Columns, b: Bounds, draws: nat -> real, pos: nat, last: nat, k: nat)
    requires pos <= last
    requires pos <= k && (k - pos) % 2 == 0 && k + 2 < RespawnFrom(columns, b, draws, pos, last).2
    ensures !HasWind(columns, Candidate(b, draws, k).0, Candidate(b, draws, k).1)
    decreases last - pos
  {
    var c := Candidate(b, draws, pos);
    if !HasWind(columns, c.0, c.1) && pos + 2 <= last {
      if k != pos {
        RespawnRejectsOnlyCalm(columns, b, draws, pos + 2, last, k);
      }
    }
  }

  /** A respawned pixel lies inside the bounds rectangle. */
  lemma {:induction false} RespawnInBounds(columns: Columns, b: Bounds, draws: nat -> real, pos: nat, last: nat)
    requires pos <= last
    requires UnitDraws(draws)
    requires b.width >= 1 && b.height >= 1
    ensures var r := RespawnFrom(columns, b, draws, pos, last);
            b.x <= r.0 <= b.x + b.width - 1 && b.y <= r.1 <= b.y + b.height - 1
    decreases last - pos
  {
    var c := Candidate(b, draws, pos);
    if !HasWind(columns, c.0, c.1) && pos + 2 <= last {
      RespawnInBounds(columns, b, draws, pos + 2, last);
    } else {
      CandidateInBounds(b, draws, pos);
    }
  }

  /** The field closure: the sampled columns and the bounds they cover. */
  class Field {
    var columns: Columns
    const bounds: Bounds

    constructor (columns: Columns, bounds: Bounds)
      ensures this.columns == columns && this.bounds == bounds
    {
      this.columns := columns;
      this.bounds := bounds;
    }

    /** `field.release`: drop the columns, so every lookup finds no wind. */
    method Release()
      modifies this
      ensures columns == map[]
    {
      columns := map[];
    }

    /** Two draws scaled to the bounds: one candidate pixel. */
    method DrawCandidate(rng: Random) returns (x: int, y: int)
      requires UnitDraws(rng.draws)
      modifies rng
      ensures x == Candidate(bounds, rng.draws, old(rng.pos)).0
      ensures y == Candidate(bounds, rng.draws, old(rng.pos)).1
      ensures rng.pos == old(rng.pos) + 2
    {
      var rx := rng.Next();
      var ry := rng.Next();
      x := ScaledDraw(rx, bounds.width) + bounds.x;
      y := ScaledDraw(ry, bounds.height) + bounds.y;
    }

    /**
     * `field.randomize`: the do-while over at most 31 candidates. The
     * candidates are whole pixels, where `field(x, y)[2] === null` is
     * `!HasWind` (`FieldAtPixel`).
     */
    method Randomize(rng: Random) returns (x: int, y: int)
      requires UnitDraws(rng.draws)
      modifies rng
      ensures var r := Respawn(columns, bounds, rng.draws, old(rng.pos));
              x == r.0 && y == r.1 && rng.pos == r.2
      ensures rng.pos - old(rng.pos) <= 62
    {
      var cols := columns;
      ghost var draws, start := rng.draws, rng.pos;
      ghost var at := rng.pos;
      var safetyNet := 0;
      x, y := DrawCandidate(rng);
      while !HasWind(cols, x, y) && safetyNet < 30
        invariant 0 <= safetyNet <= 30 && rng.draws == draws
        invariant at == start + 2 * safetyNet && rng.pos == at + 2
        invariant x == Candidate(bounds, draws, at).0 && y == Candidate(bounds, draws, at).1
        invariant Respawn(cols, bounds, draws, start) == RespawnFrom(cols, bounds, draws, at, start + 60)
        decreases 30 - safetyNet
      {
        RespawnContinues(cols, bounds, draws, at, start + 60);
        safetyNet := safetyNet + 1;
        at := rng.pos;
        x, y := DrawCandidate(rng);
      }
      RespawnStops(cols, bounds, draws, at, start + 60);
    }
  }

  lemma RespawnContinues(columns: Columns, b: Bounds, draws: nat -> real, pos: nat, last: nat)
    requires pos + 2 <= last
    requires !HasWind(columns, Candidate(b, draws, pos).0, Candidate(b, draws, pos).1)
    ensures RespawnFrom(columns, b, draws, pos, last) == RespawnFrom(columns, b, draws, pos + 2, last)
  {
  }

  lemma RespawnStops(columns: Columns, b: Bounds, draws: nat -> real, pos: nat, last: nat)
    requires pos <= last
    requires HasWind(columns, Candidate(b, draws, pos).0, Candidate(b, draws, pos).1) || last < pos + 2
    ensures RespawnFrom(columns, b, draws, pos, last)
            == (Candidate(b, draws, pos).0, Candidate(b, draws, pos).1, pos + 2)
  {
  }

  /** `colorScale.indexFor`: the colour of speed `m`, clamped to the scale. */
  function IndexFor(m: real, minV: real, maxV: real, colors: nat): (c: int)
    requires minV != maxV && colors > 0
    ensures 0 <= c <= colors - 1
  {
    Max(0, Min(colors - 1, Round((m - minV) / (maxV - minV) * (colors - 1) as real)))
  }

  lemma RatioMonotone(m1: real, m2: real, minV: real, maxV: real, n: real)
    requires minV < maxV && m1 <= m2 && 0.0 <= n
    ensures (m1 - minV) / (maxV - minV) * n <= (m2 - minV) / (maxV - minV) * n
  {
    var d := maxV - minV;
    assert (m2 - minV) / d - (m1 - minV) / d == (m2 - m1) / d;
    assert 0.0 <= (m2 - m1) / d;
    assert ((m2 - minV) / d - (m1 - minV) / d) * n >= 0.0;
  }

  /** Faster winds never get an earlier colour. */
  lemma IndexForMonotone(m1: real, m2: real, minV: real, maxV: real, colors: nat)
    requires minV < maxV && colors > 0 && m1 <= m2
    ensures IndexFor(m1, minV, maxV, colors) <= IndexFor(m2, minV, maxV, colors)
  {
    RatioMonotone(m1, m2, minV, maxV, (colors - 1) as real);
    RoundMonotone((m1 - minV) / (maxV - minV) * (colors - 1) as real,
                  (m2 - minV) / (maxV - minV) * (colors - 1) as real);
  }

  /** The slowest speed takes the first colour and the fastest the last. */
  lemma IndexForEnds(minV: real, maxV: real, colors: nat)
    requires minV < maxV && colors > 0
    ensures IndexFor(minV, minV, maxV, colors) == 0
    ensures IndexFor(maxV, minV, maxV, colors) == colors - 1
  {
    assert (maxV - minV) / (maxV - minV) == 1.0;
  }

  /**
   * The bucket `buckets[colorStyles.indexFor(m)]` names, as JavaScript
   * computes it, or `None` where that bucket is `undefined` and `push`
   * throws a TypeError: an empty colour scale, or `min == max`, where the
   * ratio is `0/0 = NaN` at `m == min` and an infinity elsewhere, which a
   * one-colour scale turns into `Infinity * 0 = NaN`.
   */
  function BucketIndex(m: real, minV: real, maxV: real, colors: nat): (r: Option<nat>)
    ensures r.Some? ==> r.value < colors
    ensures r.None? <==> colors == 0 || (minV == maxV && (m == minV || colors == 1))
  {
    if colors == 0 then None
    else if minV != maxV then Some(IndexFor(m, minV, maxV, colors))
    else if m == minV || colors == 1 then None
    else if m > minV then Some(colors - 1)
    else Some(0)
  }

  /** A drawn particle's destination and the speed that colours it. */
  datatype Target = Target(xt: real, yt: real, v: real)

  /**
   * A particle. `target` is `None` until the first visible step records
   * `xt`, `yt` and `v`.
   */
  datatype Particle = Particle(x: real, y: real, target: Option<Target>, age: int)

  /** The engine settings `evolve` reads. */
  datatype Config = Config(maxAge: nat, minV: real, maxV: real, colors: nat)

  predicate ValidConfig(cfg: Config)
  {
    cfg.minV != cfg.maxV && cfg.colors > 0
  }

  /** One particle's share of a tick, the colour bucket it joins and the stream position after it. */
  datatype Outcome = Outcome(p: Particle, bucket: Option<nat>, pos: nat)

  /** The respawn at the head of the step: only particles older than the maximum age. */
  function Renewed(columns: Columns, b: Bounds, draws: nat -> real, pos: nat, p: Particle, maxAge: int): (Particle, nat)
  {
    if p.age > maxAge then
      var (x, y, pos') := Respawn(columns, b, draws, pos);
      (p.(x := x as real, y := y as real, age := 0), pos')
    else (p, pos)
  }

  /** The body of the `particles.forEach` in `evolve`. */
  function Step(columns: Columns, b: Bounds, draws: nat -> real, pos: nat, p: Particle, cfg: Config): Outcome
    requires ValidConfig(cfg)
  {
    var (q, pos') := Renewed(columns, b, draws, pos, p, cfg.maxAge);
    match FieldAt(columns, q.x, q.y)
    case None => Outcome(q.(age := cfg.maxAge + 1), None, pos')
    case Some(w) =>
      var xt, yt := q.x + w.u, q.y + w.v;
      if FieldAt(columns, xt, yt).Some? then
        Outcome(q.(target := Some(Target(xt, yt, w.m)), age := q.age + 1),
                Some(IndexFor(w.m, cfg.minV, cfg.maxV, cfg.colors)), pos')
      else
        Outcome(q.(x := xt, y := yt, age := q.age + 1), None, pos')
  }

  /**
   * What a step does to a particle: it ages by one from its (possibly
   * reset) age, unless it stands where there is no wind, which sends it to
   * the maximum age; a particle is bucketed exactly when its target has
   * wind, and a bucketed particle keeps its position.
   */
  lemma StepLifecycle(columns: Columns, b: Bounds, draws: nat -> real, pos: nat, p: Particle, cfg: Config)
    requires ValidConfig(cfg)
    ensures var o := Step(columns, b, draws, pos, p, cfg);
            var (q, _) := Renewed(columns, b, draws, pos, p, cfg.maxAge);
            && (p.age > cfg.maxAge ==> q.age == 0)
            && (p.age <= cfg.maxAge ==> q == p)
            && (FieldAt(columns, q.x, q.y).None? ==> o.p == q.(age := cfg.maxAge + 1) && o.bucket.None?)
            && (FieldAt(columns, q.x, q.y).Some? ==>
                  var w := FieldAt(columns, q.x, q.y).value;
                  && o.p.age == q.age + 1
                  && (o.bucket.Some? <==> FieldAt(columns, q.x + w.u, q.y + w.v).Some?)
                  && (o.bucket.Some? ==>
                        o.p.x == q.x && o.p.y == q.y && o.p.target == Some(Target(q.x + w.u, q.y + w.v, w.m)))
                  && (o.bucket.None? ==> o.p.x == q.x + w.u && o.p.y == q.y + w.v && o.p.target == q.target))
  {
  }

  /** Buckets are always colour indices of the scale. */
  lemma StepBucketInRange(columns: Columns, b: Bounds, draws: nat -> real, pos: nat, p: Particle, cfg: Config)
    requires ValidConfig(cfg)
    ensures var o := Step(columns, b, draws, pos, p, cfg);
            o.bucket.Some? ==> o.bucket.value < cfg.colors
  {
  }

  /** Ages stay within `[0, maxAge + 1]` from tick to tick. */
  lemma StepKeepsAgeBound(columns: Columns, b: Bounds, draws: nat -> real, pos: nat, p: Particle, cfg: Config)
    requires ValidConfig(cfg) && 0 <= p.age <= cfg.maxAge + 1
    ensures var o := Step(columns, b, draws, pos, p, cfg);
            1 <= o.p.age <= cfg.maxAge + 1
  {
    StepLifecycle(columns, b, draws, pos, p, cfg);
  }

  /** A step takes no draws unless it respawns, and then at most 62. */
  lemma StepDraws(columns: Columns, b: Bounds, draws: nat -> real, pos: nat, p: Particle, cfg: Config)
    requires ValidConfig(cfg)
    ensures var o := Step(columns, b, draws, pos, p, cfg);
            (p.age <= cfg.maxAge ==> o.pos == pos) && (p.age > cfg.maxAge ==> pos + 2 <= o.pos <= pos + 62)
  {
    RespawnShape(columns, b, draws, pos, pos + 60);
  }

  /** A respawned particle restarts inside the bounds. */
  lemma StepRespawnInBounds(columns: Columns, b: Bounds, draws: nat -> real, pos: nat, p: Particle, cfg: Config)
    requires ValidConfig(cfg) && p.age > cfg.maxAge
    requires UnitDraws(draws)
    requires b.width >= 1 && b.height >= 1
    ensures var (q, _) := Renewed(columns, b, draws, pos, p, cfg.maxAge);
            b.x as real <= q.x <= (b.x + b.width - 1) as real && b.y as real <= q.y <= (b.y + b.height - 1) as real
  {
    RespawnInBounds(columns, b, draws, pos, pos + 60);
  }

  /** A tick over the particles in order: their new states, their buckets and the stream position after it. */
  function EvolveAll(columns: Columns, b: Bounds, draws: nat -> real, pos: nat, ps: seq<Particle>, cfg: Config)
    : (r: (seq<Particle>, seq<Option<nat>>, nat))
    requires ValidConfig(cfg)
    ensures |r.0| == |ps| && |r.1| == |ps|
  {
    if |ps| == 0 then ([], [], pos)
    else
      var (qs, bs, pos') := EvolveAll(columns, b, draws, pos, ps[..|ps| - 1], cfg);
      var o := Step(columns, b, draws, pos', ps[|ps| - 1], cfg);
      (qs + [o.p], bs + [o.bucket], o.pos)
  }

  /** The particles (by index, in order) that joined bucket `c`. */
  function BucketOf(bs: seq<Option<nat>>, c: nat): seq<nat>
  {
    if |bs| == 0 then []
    else
      BucketOf(bs[..|bs| - 1], c) + (if bs[|bs| - 1] == Some(c) then [|bs| - 1] else [])
  }

  /** A bucket holds exactly the indices of the particles drawn in its colour, in increasing order. */
  lemma {:induction false} BucketOfMembers(bs: seq<Option<nat>>, c: nat)
    ensures forall k :: 0 <= k < |BucketOf(bs, c)| ==> BucketOf(bs, c)[k] < |bs| && bs[BucketOf(bs, c)[k]] == Some(c)
    ensures forall k :: 0 <= k < |bs| && bs[k] == Some(c) ==> k in BucketOf(bs, c)
    ensures forall k, l :: 0 <= k < l < |BucketOf(bs, c)| ==> BucketOf(bs, c)[k] < BucketOf(bs, c)[l]
  {
    if |bs| > 0 {
      var n := |bs| - 1;
      var init := bs[..n];
      BucketOfMembers(init, c);
      var r0, r := BucketOf(init, c), BucketOf(bs, c);
      assert r == r0 + (if bs[n] == Some(c) then [n] else []);
      forall k | 0 <= k < |r|
        ensures r[k] < |bs| && bs[r[k]] == Some(c)
      {
        if k < |r0| {
          assert r[k] == r0[k] && init[r0[k]] == bs[r0[k]];
        }
      }
      forall k | 0 <= k < |bs| && bs[k] == Some(c)
        ensures k in r
      {
        if k < n {
          assert init[k] == bs[k];
          assert k in r0;
        } else {
          assert r[|r| - 1] == n;
        }
      }
      forall k, l | 0 <= k < l < |r|
        ensures r[k] < r[l]
      {
        if l >= |r0| {
          assert r[k] == r0[k] && r0[k] < n;
        }
      }
    }
  }

  /** A tick ages every particle within the bound and puts every drawn particle in a colour of the scale. */
  lemma {:induction false} EvolveAllKeepsAgeBound(columns: Columns, b: Bounds, draws: nat -> real, pos: nat,
                                                   ps: seq<Particle>, cfg: Config)
    requires ValidConfig(cfg)
    requires forall k :: 0 <= k < |ps| ==> 0 <= ps[k].age <= cfg.maxAge + 1
    ensures var (qs, bs, _) := EvolveAll(columns, b, draws, pos, ps, cfg);
            (forall k :: 0 <= k < |qs| ==> 1 <= qs[k].age <= cfg.maxAge + 1)
            && (forall k :: 0 <= k < |bs| && bs[k].Some? ==> bs[k].value < cfg.colors)
  {
    if |ps| > 0 {
      var n := |ps| - 1;
      var init := ps[..n];
      assert forall k :: 0 <= k < n ==> init[k] == ps[k];
      EvolveAllKeepsAgeBound(columns, b, draws, pos, init, cfg);
      var prev := EvolveAll(columns, b, draws, pos, init, cfg);
      var o := Step(columns, b, draws, prev.2, ps[n], cfg);
      StepKeepsAgeBound(columns, b, draws, prev.2, ps[n], cfg);
      EvolveAdvance(columns, b, draws, pos, ps, n, cfg, prev.0, prev.1, prev.2, o);
      assert ps[..n + 1] == ps;
      var qs, bs := prev.0 + [o.p], prev.1 + [o.bucket];
      assert forall k :: 0 <= k < n ==> qs[k] == prev.0[k] && bs[k] == prev.1[k];
    }
  }

  /** The running animation: the field, the settings, the particles and the colour buckets. */
  class Animation {
    const field: Field
    const cfg: Config
    const particles: array<Particle>
    var buckets: seq<seq<nat>>

    /**
     * The set-up in `animate`: one bucket per colour and `count`
     * particles, each aged `Math.floor(Math.random() * MAX_PARTICLE_AGE)`
     * and placed by `field.randomize`, in order.
     */
    constructor (field: Field, cfg: Config, count: nat, rng: Random)
      requires UnitDraws(rng.draws)
      modifies rng
      ensures this.field == field && this.cfg == cfg
      ensures fresh(particles)
      ensures |buckets| == cfg.colors && forall c :: 0 <= c < cfg.colors ==> buckets[c] == []
      ensures (particles[..], rng.pos) == SpawnAll(field.columns, field.bounds, rng.draws, old(rng.pos), cfg.maxAge, count)
    {
      this.field := field;
      this.cfg := cfg;
      buckets := seq(cfg.colors, _ => []);
      var ps := SpawnParticles(field, cfg.maxAge, count, rng);
      particles := ps;
    }

    /** `Evolve` one particle: `Step`, taking the respawn draws from `rng`. */
    method StepOne(p: Particle, rng: Random) returns (o: Outcome)
      requires ValidConfig(cfg) && UnitDraws(rng.draws)
      modifies rng
      ensures o == Step(field.columns, field.bounds, rng.draws, old(rng.pos), p, cfg)
      ensures rng.pos == o.pos
    {
      var q := p;
      if q.age > cfg.maxAge {
        var x, y := field.Randomize(rng);
        q := q.(x := x as real, y := y as real, age := 0);
      }
      assert (q, rng.pos) == Renewed(field.columns, field.bounds, rng.draws, old(rng.pos), p, cfg.maxAge);
      match FieldAt(field.columns, q.x, q.y)
      case None =>
        o := Outcome(q.(age := cfg.maxAge + 1), None, rng.pos);
      case Some(w) =>
        var xt, yt := q.x + w.u, q.y + w.v;
        if FieldAt(field.columns, xt, yt).Some? {
          o := Outcome(q.(target := Some(Target(xt, yt, w.m)), age := q.age + 1),
                       Some(IndexFor(w.m, cfg.minV, cfg.maxV, cfg.colors)), rng.pos);
        } else {
          o := Outcome(q.(x := xt, y := yt, age := q.age + 1), None, rng.pos);
        }
    }

    /** Step particle `i`, store it back and push its index on its colour bucket. */
    method Apply(i: nat, rng: Random) returns (o: Outcome)
      requires ValidConfig(cfg) && |buckets| == cfg.colors && UnitDraws(rng.draws)
      requires i < particles.Length
      modifies this, particles, rng
      ensures o == Step(field.columns, field.bounds, rng.draws, old(rng.pos), old(particles[i]), cfg)
      ensures rng.pos == o.pos
      ensures particles[..] == old(particles[..])[i := o.p]
      ensures buckets == if o.bucket.Some? then old(buckets)[o.bucket.value := old(buckets)[o.bucket.value] + [i]]
                         else old(buckets)
      ensures |buckets| == cfg.colors
    {
      o := StepOne(particles[i], rng);
      StepBucketInRange(field.columns, field.bounds, rng.draws, old(rng.pos), old(particles[i]), cfg);
      particles[i] := o.p;
      if o.bucket.Some? {
        buckets := buckets[o.bucket.value := buckets[o.bucket.value] + [i]];
      }
    }

    /**
     * One particle of `evolve`, which extends the tick over the particles
     * before it by one.
     */
    method Advance(i: nat, rng: Random, ghost ps: seq<Particle>, ghost pos0: nat, ghost bs: seq<Option<nat>>)
      returns (ghost bs': seq<Option<nat>>)
      requires ValidConfig(cfg) && |buckets| == cfg.colors && UnitDraws(rng.draws)
      requires i < particles.Length == |ps| && particles[i..] == ps[i..]
      requires (particles[..i], bs, rng.pos) == EvolveAll(field.columns, field.bounds, rng.draws, pos0, ps[..i], cfg)
      requires forall c :: 0 <= c < cfg.colors ==> buckets[c] == BucketOf(bs, c)
      modifies this, particles, rng
      ensures (particles[..i + 1], bs', rng.pos) == EvolveAll(field.columns, field.bounds, rng.draws, pos0, ps[..i + 1], cfg)
      ensures particles[i + 1..] == ps[i + 1..]
      ensures |buckets| == cfg.colors
      ensures forall c :: 0 <= c < cfg.colors ==> buckets[c] == BucketOf(bs', c)
    {
      ghost var all, pos, columns := particles[..], rng.pos, field.columns;
      assert all[i] == ps[i];
      var o := Apply(i, rng);
      assert o == Step(columns, field.bounds, rng.draws, pos, ps[i], cfg);
      EvolveAdvance(columns, field.bounds, rng.draws, pos0, ps, i, cfg, all[..i], bs, pos, o);
      UpdateSplits(all, ps, i, o.p);
      bs' := bs + [o.bucket];
      forall c | 0 <= c < cfg.colors
        ensures buckets[c] == BucketOf(bs', c)
      {
        BucketOfSnoc(bs, o.bucket, c);
      }
    }

    /**
     * `evolve`: empty the buckets, then step every particle in order,
     * replacing it in place and appending its index to its colour bucket.
     */
    method Evolve(rng: Random)
      requires ValidConfig(cfg) && |buckets| == cfg.colors && UnitDraws(rng.draws)
      modifies this, particles, rng
      ensures var r := EvolveAll(field.columns, field.bounds, rng.draws, old(rng.pos), old(particles[..]), cfg);
              && particles[..] == r.0
              && rng.pos == r.2
              && |buckets| == cfg.colors
              && forall c :: 0 <= c < cfg.colors ==> buckets[c] == BucketOf(r.1, c)
    {
      buckets := seq(cfg.colors, _ => []);
      ghost var ps, pos0 := particles[..], rng.pos;
      ghost var bs: seq<Option<nat>> := [];
      var i := 0;
      while i < particles.Length
        invariant 0 <= i <= particles.Length == |ps|
        invariant (particles[..i], bs, rng.pos) == EvolveAll(field.columns, field.bounds, rng.draws, pos0, ps[..i], cfg)
        invariant particles[i..] == ps[i..]
        invariant |buckets| == cfg.colors
        invariant forall c :: 0 <= c < cfg.colors ==> buckets[c] == BucketOf(bs, c)
      {
        bs := Advance(i, rng, ps, pos0, bs);
        i := i + 1;
      }
      assert ps[..i] == ps;
    }
  }

  /** A freshly created particle: a young age, no target, a pixel inside the bounds. */
  ghost predicate Spawned(p: Particle, b: Bounds, maxAge: nat)
  {
    && 0 <= p.age < maxAge && p.target == None
    && b.x as real <= p.x <= (b.x + b.width - 1) as real
    && b.y as real <= p.y <= (b.y + b.height - 1) as real
  }

  /**
   * One spawn in `animate`: the age from draw `pos`, then `field.randomize`
   * from draw `pos + 1`; the particle and the stream position after it.
   */
  function SpawnFrom(columns: Columns, b: Bounds, draws: nat -> real, pos: nat, maxAge: nat): (Particle, nat)
  {
    var r := Respawn(columns, b, draws, pos + 1);
    (Particle(r.0 as real, r.1 as real, None, ScaledDraw(draws(pos), maxAge)), r.2)
  }

  /** `count` steps of `step` in order, each starting where the last one ended. */
  function Iterate<T>(step: nat -> (T, nat), pos: nat, count: nat): (seq<T>, nat)
  {
    if count == 0 then ([], pos)
    else
      var prev := Iterate(step, pos, count - 1);
      (prev.0 + [step(prev.1).0], step(prev.1).1)
  }

  lemma {:induction false} IterateLength<T>(step: nat -> (T, nat), pos: nat, count: nat)
    ensures |Iterate(step, pos, count).0| == count
  {
    if count > 0 {
      IterateLength(step, pos, count - 1);
    }
  }

  /** Element `k` of an iteration is the step from where the first `k` steps ended. */
  lemma {:induction false} IterateAt<T>(step: nat -> (T, nat), pos: nat, count: nat, k: nat)
    requires k < count
    ensures |Iterate(step, pos, count).0| == count
    ensures Iterate(step, pos, count).0[k] == step(Iterate(step, pos, k).1).0
  {
    IterateLength(step, pos, count);
    if k < count - 1 {
      IterateAt(step, pos, count - 1, k);
      IterateLength(step, pos, count - 1);
    }
  }

  /** The spawning loop of `animate`: `count` spawns in order, threading the draws. */
  function SpawnAll(columns: Columns, b: Bounds, draws: nat -> real, pos: nat, maxAge: nat, count: nat): (seq<Particle>, nat)
  {
    Iterate(p => SpawnFrom(columns, b, draws, p, maxAge), pos, count)
  }

  /** One more pass of the spawning loop appends the spawn from where the others stopped. */
  lemma SpawnAllNext(columns: Columns, b: Bounds, draws: nat -> real, pos: nat, maxAge: nat, count: nat)
    ensures var prev := SpawnAll(columns, b, draws, pos, maxAge, count);
            var s := SpawnFrom(columns, b, draws, prev.1, maxAge);
            SpawnAll(columns, b, draws, pos, maxAge, count + 1) == (prev.0 + [s.0], s.1)
  {
  }

  /** A spawn is young, has no target, lies in the bounds and takes 3 to 63 draws. */
  lemma SpawnFromSpawned(columns: Columns, b: Bounds, draws: nat -> real, pos: nat, maxAge: nat)
    requires UnitDraws(draws) && maxAge >= 1 && b.width >= 1 && b.height >= 1
    ensures var s := SpawnFrom(columns, b, draws, pos, maxAge);
            Spawned(s.0, b, maxAge) && pos + 3 <= s.1 <= pos + 63
  {
    ScaledDrawInRange(draws(pos), maxAge);
    RespawnInBounds(columns, b, draws, pos + 1, pos + 61);
    RespawnShape(columns, b, draws, pos + 1, pos + 61);
  }

  /** The loop takes from 3 to 63 draws per particle. */
  lemma {:induction false} SpawnAllDraws(columns: Columns, b: Bounds, draws: nat -> real, pos: nat, maxAge: nat, count: nat)
    requires UnitDraws(draws) && maxAge >= 1 && b.width >= 1 && b.height >= 1
    ensures var r := SpawnAll(columns, b, draws, pos, maxAge, count);
            pos + 3 * count <= r.1 <= pos + 63 * count
  {
    if count > 0 {
      SpawnAllDraws(columns, b, draws, pos, maxAge, count - 1);
      SpawnAllNext(columns, b, draws, pos, maxAge, count - 1);
      var prev := SpawnAll(columns, b, draws, pos, maxAge, count - 1);
      SpawnFromSpawned(columns, b, draws, prev.1, maxAge);
    }
  }

  /** The loop makes `count` particles, each of them spawned. */
  lemma SpawnAllSpawned(columns: Columns, b: Bounds, draws: nat -> real, pos: nat, maxAge: nat, count: nat)
    requires UnitDraws(draws) && maxAge >= 1 && b.width >= 1 && b.height >= 1
    ensures var r := SpawnAll(columns, b, draws, pos, maxAge, count);
            |r.0| == count && forall k :: 0 <= k < count ==> Spawned(r.0[k], b, maxAge)
  {
    IterateLength(p => SpawnFrom(columns, b, draws, p, maxAge), pos, count);
    var r := SpawnAll(columns, b, draws, pos, maxAge, count);
    forall k | 0 <= k < count
      ensures Spawned(r.0[k], b, maxAge)
    {
      IterateAt(p => SpawnFrom(columns, b, draws, p, maxAge), pos, count, k);
      SpawnFromSpawned(columns, b, draws, SpawnAll(columns, b, draws, pos, maxAge, k).1, maxAge);
    }
  }

  /** One `field.randomize({age: Math.floor(Math.random() * MAX_PARTICLE_AGE)})`. */
  method Spawn(field: Field, maxAge: nat, rng: Random) returns (p: Particle)
    requires UnitDraws(rng.draws)
    modifies rng
    ensures (p, rng.pos) == SpawnFrom(field.columns, field.bounds, rng.draws, old(rng.pos), maxAge)
  {
    var r := rng.Next();
    var age := ScaledDraw(r, maxAge);
    var x, y := field.Randomize(rng);
    p := Particle(x as real, y as real, None, age);
  }

  /** The spawning loop of `animate`: `count` calls of `Spawn`, stored in order in a new array. */
  method SpawnParticles(field: Field, maxAge: nat, count: nat, rng: Random) returns (ps: array<Particle>)
    requires UnitDraws(rng.draws)
    modifies rng
    ensures fresh(ps)
    ensures (ps[..], rng.pos) == SpawnAll(field.columns, field.bounds, rng.draws, old(rng.pos), maxAge, count)
  {
    ps := new Particle[count](_ => Particle(0.0, 0.0, None, 0));
    ghost var pos0, columns, draws := rng.pos, field.columns, rng.draws;
    var i := 0;
    while i < count
      invariant 0 <= i <= count
      invariant field.columns == columns && rng.draws == draws
      invariant (ps[..i], rng.pos) == SpawnAll(columns, field.bounds, draws, pos0, maxAge, i)
    {
      ghost var before := ps[..i];
      SpawnAllNext(columns, field.bounds, draws, pos0, maxAge, i);
      var p := Spawn(field, maxAge, rng);
      ps[i] := p;
      assert ps[..i + 1] == before + [p];
      i := i + 1;
    }
    assert ps[..] == ps[..count];
  }

  lemma EvolveAllSnoc(columns: Columns, b: Bounds, draws: nat -> real, pos: nat, ps: seq<Particle>, i: nat, cfg: Config)
    requires ValidConfig(cfg) && i < |ps|
    ensures var prev := EvolveAll(columns, b, draws, pos, ps[..i], cfg);
            var o := Step(columns, b, draws, prev.2, ps[i], cfg);
            EvolveAll(columns, b, draws, pos, ps[..i + 1], cfg) == (prev.0 + [o.p], prev.1 + [o.bucket], o.pos)
  {
    assert ps[..i + 1][..i] == ps[..i];
  }

  /** One more particle stepped extends the tick by its outcome. */
  lemma EvolveAdvance(columns: Columns, b: Bounds, draws: nat -> real, pos0: nat, ps: seq<Particle>, i: nat, cfg: Config,
                      done: seq<Particle>, bs: seq<Option<nat>>, pos: nat, o: Outcome)
    requires ValidConfig(cfg) && i < |ps|
    requires (done, bs, pos) == EvolveAll(columns, b, draws, pos0, ps[..i], cfg)
    requires o == Step(columns, b, draws, pos, ps[i], cfg)
    ensures (done + [o.p], bs + [o.bucket], o.pos) == EvolveAll(columns, b, draws, pos0, ps[..i + 1], cfg)
    ensures o.bucket.Some? ==> o.bucket.value < cfg.colors
  {
    EvolveAllSnoc(columns, b, draws, pos0, ps, i, cfg);
    StepBucketInRange(columns, b, draws, pos, ps[i], cfg);
  }

  /** Replacing element `i` of a sequence whose tail from `i` is `ps`'s. */
  lemma UpdateSplits<T>(all: seq<T>, ps: seq<T>, i: nat, x: T)
    requires i < |all| == |ps| && all[i..] == ps[i..]
    ensures all[i := x][..i + 1] == all[..i] + [x]
    ensures all[i := x][i + 1..] == ps[i + 1..]
  {
    assert forall k :: i + 1 <= k < |ps| ==> all[k] == all[i..][k - i] == ps[i..][k - i] == ps[k];
  }

  lemma BucketOfSnoc(bs: seq<Option<nat>>, last: Option<nat>, c: nat)
    ensures BucketOf(bs + [last], c) == BucketOf(bs, c) + (if last == Some(c) then [|bs|] else [])
  {
    assert (bs + [last])[..|bs|] == bs;
  }
}
