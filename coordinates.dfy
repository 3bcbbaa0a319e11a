/**
 * The discrete parts of `CoordinateUtil`: the rectangle outside which the
 * GCJ-02 offset is not applied, the identity branches of `gcj_encrypt` and
 * `gcj_decrypt`, the bounded bisection of `gcj_decrypt_exact`, and the
 * clamp that keeps the cosine handed to `Math.acos` in `distance` within
 * `[-1, 1]`. The offset itself (`delta`, built from `sin`, `cos` and
 * `sqrt`) is a parameter.
 */
module Coordinates {
  import opened JsMath

  datatype LatLon = LatLon(lat: real, lon: real)

  /** `outOfChina(lat, lon)`: outside the box 72.004–137.8347 E, 0.8293–55.8271 N. */
  predicate OutOfChina(lat: real, lon: real)
  {
    lon < 72.004 || lon > 137.8347 || lat < 0.8293 || lat > 55.8271
  }

  /** `gcj_encrypt`, for the offset `delta` would compute at a point. */
  function Encrypt(wgsLat: real, wgsLon: real, delta: (real, real) -> LatLon): (r: LatLon)
    ensures OutOfChina(wgsLat, wgsLon) ==> r == LatLon(wgsLat, wgsLon)
  {
    if OutOfChina(wgsLat, wgsLon) then LatLon(wgsLat, wgsLon)
    else var d := delta(wgsLat, wgsLon); LatLon(wgsLat + d.lat, wgsLon + d.lon)
  }

  /** `gcj_decrypt`: the offset at the given point, subtracted. */
  function Decrypt(gcjLat: real, gcjLon: real, delta: (real, real) -> LatLon): (r: LatLon)
    ensures OutOfChina(gcjLat, gcjLon) ==> r == LatLon(gcjLat, gcjLon)
  {
    if OutOfChina(gcjLat, gcjLon) then LatLon(gcjLat, gcjLon)
    else var d := delta(gcjLat, gcjLon); LatLon(gcjLat - d.lat, gcjLon - d.lon)
  }

  /**
   * Outside China decrypting undoes encrypting; inside, where the offset
   * is the same at both points (as for a constant offset), it does too.
   */
  lemma DecryptEncrypt(lat: real, lon: real, delta: (real, real) -> LatLon)
    requires OutOfChina(lat, lon) ||
             (var e := Encrypt(lat, lon, delta); !OutOfChina(e.lat, e.lon) && delta(e.lat, e.lon) == delta(lat, lon))
    ensures var e := Encrypt(lat, lon, delta); Decrypt(e.lat, e.lon, delta) == LatLon(lat, lon)
  {
  }

  /** A point inside China whose offset is not zero is moved by encrypting. */
  lemma EncryptMovesInside(lat: real, lon: real, delta: (real, real) -> LatLon)
    requires !OutOfChina(lat, lon) && delta(lat, lon) != LatLon(0.0, 0.0)
    ensures Encrypt(lat, lon, delta) != LatLon(lat, lon)
  {
  }

  const InitDelta: real := 0.01
  const Threshold: real := 0.000000001
  /** The bisection stops after this many rounds at the latest. */
  const MaxRounds: nat := 10001

  function Pow2(k: nat): (r: real)
    ensures r >= 1.0
  {
    if k == 0 then 1.0 else 2.0 * Pow2(k - 1)
  }

  /** The encrypted guess is within the threshold of the target in both coordinates. */
  predicate Converged(guess: LatLon, gcjLat: real, gcjLon: real, delta: (real, real) -> LatLon)
  {
    var tmp := Encrypt(guess.lat, guess.lon, delta);
    Abs(tmp.lat - gcjLat) < Threshold && Abs(tmp.lon - gcjLon) < Threshold
  }

  /**
   * `gcj_decrypt_exact(gcjLat, gcjLon)`: bisect each coordinate inside a
   * bracket 0.01 wide on either side of the input, moving the upper end
   * down when the encrypted midpoint overshoots and the lower end up
   * otherwise. It stops as soon as the encrypted midpoint is within the
   * threshold of the input, or after 10001 rounds, and returns the last
   * midpoint. Whatever the offset, that midpoint never leaves the first
   * bracket, and the bracket halves every round.
   */
  method DecryptExact(gcjLat: real, gcjLon: real, delta: (real, real) -> LatLon) returns (wgs: LatLon, ghost rounds: nat)
    ensures gcjLat - InitDelta <= wgs.lat <= gcjLat + InitDelta
    ensures gcjLon - InitDelta <= wgs.lon <= gcjLon + InitDelta
    ensures 1 <= rounds <= MaxRounds
    ensures rounds < MaxRounds ==> Converged(wgs, gcjLat, gcjLon, delta)
  {
    var dLat, dLon := InitDelta, InitDelta;
    var mLat, mLon := gcjLat - dLat, gcjLon - dLon;
    var pLat, pLon := gcjLat + dLat, gcjLon + dLon;
    var wgsLat, wgsLon := gcjLat, gcjLon;
    var i := 0;
    ghost var width := 2.0 * InitDelta;
    while true
      invariant 0 <= i <= MaxRounds - 1
      invariant gcjLat - InitDelta <= mLat <= pLat <= gcjLat + InitDelta
      invariant gcjLon - InitDelta <= mLon <= pLon <= gcjLon + InitDelta
      invariant pLat - mLat == width && pLon - mLon == width
      invariant width * Pow2(i) == 2.0 * InitDelta
      decreases MaxRounds - i
    {
      wgsLat := (mLat + pLat) / 2.0;
      wgsLon := (mLon + pLon) / 2.0;
      var tmp := Encrypt(wgsLat, wgsLon, delta);
      dLat := tmp.lat - gcjLat;
      dLon := tmp.lon - gcjLon;
      if Abs(dLat) < Threshold && Abs(dLon) < Threshold {
        assert Converged(LatLon(wgsLat, wgsLon), gcjLat, gcjLon, delta);
        wgs := LatLon(wgsLat, wgsLon);
        rounds := i + 1;
        return;
      }
      HalveWidth(width, i);
      width := width / 2.0;
      if dLat > 0.0 { pLat := wgsLat; } else { mLat := wgsLat; }
      if dLon > 0.0 { pLon := wgsLon; } else { mLon := wgsLon; }
      i := i + 1;
      if i > 10000 {
        break;
      }
    }
    wgs := LatLon(wgsLat, wgsLon);
    rounds := MaxRounds;
  }

  /** Halving the bracket doubles the power of two that scales it back to the first width. */
  lemma HalveWidth(width: real, i: nat)
    requires width * Pow2(i) == 2.0 * InitDelta
    ensures (width / 2.0) * Pow2(i + 1) == 2.0 * InitDelta
  {
    assert (width / 2.0) * Pow2(i + 1) == (width / 2.0) * (2.0 * Pow2(i));
  }

  /** The clamp in `distance`: the computed cosine, pulled into `[-1, 1]` against rounding. */
  function ClampCosine(s: real): (r: real)
    ensures -1.0 <= r <= 1.0
    ensures -1.0 <= s <= 1.0 ==> r == s
    ensures s > 1.0 ==> r == 1.0
    ensures s < -1.0 ==> r == -1.0
  {
    var s1 := if s > 1.0 then 1.0 else s;
    if s1 < -1.0 then -1.0 else s1
  }

  /** The clamp keeps the order of cosines, so `acos` still sees larger angles for smaller cosines. */
  lemma ClampMonotone(a: real, b: real)
    requires a <= b
    ensures ClampCosine(a) <= ClampCosine(b)
  {
  }
}
