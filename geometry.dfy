/**
 * `Util.contain(p, poly)`: whether a point lies in a polygon, by casting a
 * ray towards growing x and counting the edges it crosses. A point on a
 * vertex, or on an edge where the ray's line meets it, counts as inside.
 * Coordinates are exact reals here.
 */
module Geometry {

  datatype Vertex = Vertex(x: real, y: real)

  /** The index `j` the loop pairs with `i`: the previous vertex, the last one for the first. */
  function Prev(l: nat, i: nat): nat
    requires i < l
  {
    if i == 0 then l - 1 else i - 1
  }

  /** The edge from `s` to `t` has one end strictly below `py` and the other at or above it. */
  predicate Straddles(s: Vertex, t: Vertex, py: real)
  {
    (s.y < py && t.y >= py) || (s.y >= py && t.y < py)
  }

  /** Where the edge from `s` to `t` meets the line `y = py`. */
  function CrossX(s: Vertex, t: Vertex, py: real): real
    requires Straddles(s, t, py)
  {
    s.x + (py - s.y) * (t.x - s.x) / (t.y - s.y)
  }

  /** Edge `i` settles the answer at once: `p` is one of its ends, or lies on it at the ray's height. */
  predicate Touches(p: Vertex, poly: seq<Vertex>, i: nat)
    requires i < |poly|
  {
    var s, t := poly[i], poly[Prev(|poly|, i)];
    s == p || t == p || (Straddles(s, t, p.y) && CrossX(s, t, p.y) == p.x)
  }

  /** The ray from `p` crosses edge `i`. */
  predicate Crosses(p: Vertex, poly: seq<Vertex>, i: nat)
    requires i < |poly|
  {
    var s, t := poly[i], poly[Prev(|poly|, i)];
    Straddles(s, t, p.y) && CrossX(s, t, p.y) > p.x
  }

  /** How many of the first `n` edges the ray crosses. */
  function CrossCount(p: Vertex, poly: seq<Vertex>, n: nat): nat
    requires n <= |poly|
  {
    if n == 0 then 0
    else CrossCount(p, poly, n - 1) + (if Crosses(p, poly, n - 1) then 1 else 0)
  }

  /** The even-odd rule with the boundary included: the reference the loop is held to. */
  predicate Inside(p: Vertex, poly: seq<Vertex>)
  {
    (exists i :: 0 <= i < |poly| && Touches(p, poly, i)) || CrossCount(p, poly, |poly|) % 2 == 1
  }

  /** `Util.contain(p, poly)`, one edge per iteration, returning as soon as an edge touches `p`. */
  method Contain(p: Vertex, poly: seq<Vertex>) returns (r: bool)
    ensures r == Inside(p, poly)
  {
    var flag := false;
    var l := |poly|;
    var i := 0;
    var j := l - 1;
    while i < l
      invariant 0 <= i <= l
      invariant i < l ==> j == Prev(l, i)
      invariant forall k :: 0 <= k < i ==> !Touches(p, poly, k)
      invariant flag == (CrossCount(p, poly, i) % 2 == 1)
    {
      var s, t := poly[i], poly[j];
      assert CrossCount(p, poly, i + 1) == CrossCount(p, poly, i) + (if Crosses(p, poly, i) then 1 else 0);
      if (s.x == p.x && s.y == p.y) || (t.x == p.x && t.y == p.y) {
        assert Touches(p, poly, i);
        return true;
      }
      if (s.y < p.y && t.y >= p.y) || (s.y >= p.y && t.y < p.y) {
        var x := CrossX(s, t, p.y);
        if x == p.x {
          assert Touches(p, poly, i);
          return true;
        }
        if x > p.x {
          flag := !flag;
        }
      }
      j := i;
      i := i + 1;
    }
    r := flag;
  }

  /** Every vertex of the polygon counts as inside it. */
  lemma VertexInside(poly: seq<Vertex>, k: nat)
    requires k < |poly|
    ensures Inside(poly[k], poly)
  {
    assert Touches(poly[k], poly, k);
  }

  /** An empty polygon contains nothing. */
  lemma EmptyPolygon(p: Vertex)
    ensures !Inside(p, [])
  {
  }

  /** No edge reaches the ray's height when every vertex is below the point. */
  lemma {:induction false} BelowCrossesNothing(p: Vertex, poly: seq<Vertex>, n: nat)
    requires n <= |poly|
    requires forall k :: 0 <= k < |poly| ==> poly[k].y < p.y
    ensures CrossCount(p, poly, n) == 0
  {
    if n > 0 {
      BelowCrossesNothing(p, poly, n - 1);
    }
  }

  /** A point above every vertex of the polygon is outside it. */
  lemma AboveIsOutside(p: Vertex, poly: seq<Vertex>)
    requires forall k :: 0 <= k < |poly| ==> poly[k].y < p.y
    ensures !Inside(p, poly)
  {
    BelowCrossesNothing(p, poly, |poly|);
  }

  /** The unit square, counter-clockwise. */
  function UnitSquare(): seq<Vertex>
  {
    [Vertex(0.0, 0.0), Vertex(1.0, 0.0), Vertex(1.0, 1.0), Vertex(0.0, 1.0)]
  }

  /** The unit square contains every point strictly inside it. */
  lemma UnitSquareInterior(c: Vertex)
    requires 0.0 < c.x < 1.0 && 0.0 < c.y < 1.0
    ensures Inside(c, UnitSquare())
  {
    var sq := UnitSquare();
    assert CrossX(sq[0], sq[3], c.y) == 0.0;
    assert CrossX(sq[2], sq[1], c.y) == 1.0;
    assert CrossCount(c, sq, 1) == 0;
    assert CrossCount(c, sq, 2) == 0;
    assert CrossCount(c, sq, 3) == 1;
    assert CrossCount(c, sq, 4) == 1;
  }

  /** A point level with the unit square but to its left is outside: the ray crosses both sides. */
  lemma UnitSquareLeft(o: Vertex)
    requires o.x < 0.0 && 0.0 < o.y < 1.0
    ensures !Inside(o, UnitSquare())
  {
    var sq := UnitSquare();
    assert CrossX(sq[0], sq[3], o.y) == 0.0;
    assert CrossX(sq[2], sq[1], o.y) == 1.0;
    assert CrossCount(o, sq, 1) == 1;
    assert CrossCount(o, sq, 2) == 1;
    assert CrossCount(o, sq, 3) == 2;
    assert CrossCount(o, sq, 4) == 2;
    assert !Touches(o, sq, 0) && !Touches(o, sq, 1) && !Touches(o, sq, 2) && !Touches(o, sq, 3);
  }
}
