/**
 * The collision layer group: markers with an icon are shown only where
 * none of their boxes overlaps a box of a marker already shown, placed
 * greedily in insertion order after every `moveend`; markers without an
 * icon are always shown. The R-tree holding the shown boxes is a list of
 * boxes here, searched with the inclusive overlap test.
 */
module Collision {
  import opened Wrappers

  /** A box `[minX, minY, maxX, maxY]` in pixels. */
  datatype Box = Box(minX: real, minY: real, maxX: real, maxY: real)

  /** A layer point, `map.latLngToLayerPoint(latlng)`. */
  datatype Point = Point(x: real, y: real)

  /** Leaflet's `_leaflet_id`, which identifies a layer. */
  type LayerId = nat

  /** `box` moved by `(dx, dy)`. */
  function Translate(box: Box, dx: real, dy: real): Box
  {
    Box(box.minX + dx, box.minY + dy, box.maxX + dx, box.maxY + dy)
  }

  /** `box` grown by `m` on every side. */
  function Grow(box: Box, m: real): Box
  {
    Box(box.minX - m, box.minY - m, box.maxX + m, box.maxY + m)
  }

  /** `_offsetBoxes(a, b)`: a child's box, relative to its parent box `b`. */
  function OffsetBox(a: Box, b: Box): (r: Box)
    ensures r == Translate(a, b.minX, b.minY)
    ensures r.maxX - r.minX == a.maxX - a.minX && r.maxY - r.minY == a.maxY - a.minY
  {
    Box(a.minX + b.minX, a.minY + b.minY, a.maxX + b.minX, a.maxY + b.minY)
  }

  /** `_positionBox(offset, box)`: moved to the marker's layer point and grown by the margin. */
  function PositionBox(offset: Point, box: Box, margin: real): (r: Box)
    ensures r == Grow(Translate(box, offset.x, offset.y), margin)
    ensures r.maxX - r.minX == box.maxX - box.minX + 2.0 * margin
    ensures r.maxY - r.minY == box.maxY - box.minY + 2.0 * margin
  {
    Box(box.minX + offset.x - margin, box.minY + offset.y - margin,
        box.maxX + offset.x + margin, box.maxY + offset.y + margin)
  }

  /** Every box of `boxes` positioned; a fresh list, the cached boxes stay as they are. */
  function Positioned(offset: Point, boxes: seq<Box>, margin: real): (r: seq<Box>)
    ensures |r| == |boxes|
    ensures forall i :: 0 <= i < |boxes| ==> r[i] == PositionBox(offset, boxes[i], margin)
  {
    seq(|boxes|, i requires 0 <= i < |boxes| => PositionBox(offset, boxes[i], margin))
  }

  /** `_positionBoxes(offset, boxes)`, one box per iteration. */
  method PositionBoxes(offset: Point, boxes: seq<Box>, margin: real) returns (newBoxes: seq<Box>)
    ensures newBoxes == Positioned(offset, boxes, margin)
  {
    newBoxes := [];
    var i := 0;
    while i < |boxes|
      invariant 0 <= i <= |boxes|
      invariant newBoxes == Positioned(offset, boxes[..i], margin)
    {
      newBoxes := newBoxes + [PositionBox(offset, boxes[i], margin)];
      i := i + 1;
    }
    assert boxes[..i] == boxes;
  }

  /** Two boxes overlap, edges included (the R-tree's search test). */
  predicate Intersects(a: Box, b: Box)
  {
    a.minX <= b.maxX && a.minY <= b.maxY && b.minX <= a.maxX && b.minY <= a.maxY
  }

  lemma IntersectsSymmetric(a: Box, b: Box)
    ensures Intersects(a, b) <==> Intersects(b, a)
  {
  }

  /** Moving two boxes by the same amount does not change whether they overlap. */
  lemma IntersectsTranslate(a: Box, b: Box, dx: real, dy: real)
    ensures Intersects(Translate(a, dx, dy), Translate(b, dx, dy)) <==> Intersects(a, b)
  {
  }

  /**
   * The margin keeps shown markers apart: two positioned boxes that do not
   * overlap leave a gap wider than twice the margin between the unmargined
   * boxes, across or along.
   */
  lemma MarginSeparates(o1: Point, a: Box, o2: Point, b: Box, margin: real)
    requires !Intersects(PositionBox(o1, a, margin), PositionBox(o2, b, margin))
    ensures var a', b' := Translate(a, o1.x, o1.y), Translate(b, o2.x, o2.y);
      a'.maxX + 2.0 * margin < b'.minX || b'.maxX + 2.0 * margin < a'.minX ||
      a'.maxY + 2.0 * margin < b'.minY || b'.maxY + 2.0 * margin < a'.minY
  {
  }

  /** `bush.search(box).length > 0`: some box in the tree overlaps `box`. */
  predicate Hit(bush: seq<Box>, box: Box)
  {
    exists j :: 0 <= j < |bush| && Intersects(bush[j], box)
  }

  /** Some box of `boxes` overlaps some box of the tree. */
  predicate Collides(bush: seq<Box>, boxes: seq<Box>)
  {
    exists i :: 0 <= i < |boxes| && Hit(bush, boxes[i])
  }

  /** The collision loop of `_maybeAddLayerToRBush`, which stops at the first box that hits. */
  method CollisionLoop(bush: seq<Box>, boxes: seq<Box>) returns (collision: bool)
    ensures collision <==> Collides(bush, boxes)
  {
    collision := false;
    var i := 0;
    while i < |boxes| && !collision
      invariant 0 <= i <= |boxes|
      invariant collision <==> exists k :: 0 <= k < i && Hit(bush, boxes[k])
    {
      collision := Hit(bush, boxes[i]);
      i := i + 1;
    }
  }

  // ---------------------------------------------------------------------
  // Greedy placement

  /**
   * What DOM measurement gives for a marker the first time it is placed:
   * the boxes of its icon's descendants, already offset into the icon
   * (`_getRelativeBoxes`), and the icon's own box (`_getIconBox`).
   */
  datatype Measure = Measure(children: seq<Box>, icon: Box)

  /**
   * The part of the group one placement step reads and writes: the shown
   * layers, the tree's boxes, the cached relative boxes, and, as
   * bookkeeping, the boxes loaded for each shown layer since the tree was
   * last emptied.
   */
  datatype Placement = Placement(visible: seq<LayerId>, bush: seq<Box>,
                                 cached: map<LayerId, seq<Box>>, groups: seq<seq<Box>>)

  /** A layer's relative boxes: the cached ones, or the measured ones (descendants first, icon last). */
  function RelativeBoxes(cached: map<LayerId, seq<Box>>, layer: LayerId, m: Measure): seq<Box>
  {
    if layer in cached then cached[layer] else m.children + [m.icon]
  }

  /** One call of `_maybeAddLayerToRBush`. */
  function Place(st: Placement, layer: LayerId, m: Measure, offset: Point, margin: real): Placement
  {
    var rel := RelativeBoxes(st.cached, layer, m);
    var boxes := Positioned(offset, rel, margin);
    var cached := st.cached[layer := rel];
    if Collides(st.bush, boxes) then st.(cached := cached)
    else Placement(st.visible + [layer], st.bush + boxes, cached, st.groups + [boxes])
  }

  /** The loop of `_onMoveEnd`: `Place` for each layer in view, in order. */
  function PlaceAll(st: Placement, layers: seq<LayerId>, inView: LayerId -> bool,
                    measure: LayerId -> Measure, offsetOf: LayerId -> Point, margin: real): Placement
  {
    if |layers| == 0 then st
    else
      var prev := PlaceAll(st, layers[..|layers| - 1], inView, measure, offsetOf, margin);
      var layer := layers[|layers| - 1];
      if inView(layer) then Place(prev, layer, measure(layer), offsetOf(layer), margin) else prev
  }

  /** One more layer of the list: placed when in view, skipped otherwise. */
  lemma PlaceAllStep(st: Placement, layers: seq<LayerId>, i: nat, inView: LayerId -> bool,
                     measure: LayerId -> Measure, offsetOf: LayerId -> Point, margin: real)
    requires i < |layers|
    ensures var prev := PlaceAll(st, layers[..i], inView, measure, offsetOf, margin);
      PlaceAll(st, layers[..i + 1], inView, measure, offsetOf, margin) ==
        if inView(layers[i]) then Place(prev, layers[i], measure(layers[i]), offsetOf(layers[i]), margin) else prev
  {
    assert layers[..i + 1][..i] == layers[..i];
  }

  function Concat(groups: seq<seq<Box>>): seq<Box>
  {
    if |groups| == 0 then [] else Concat(groups[..|groups| - 1]) + groups[|groups| - 1]
  }

  /** No box of group `i` overlaps a box of group `j`. */
  predicate Apart(groups: seq<seq<Box>>, i: nat, j: nat)
    requires i < |groups| && j < |groups|
  {
    forall p, q :: 0 <= p < |groups[i]| && 0 <= q < |groups[j]| ==> !Intersects(groups[i][p], groups[j][q])
  }

  /** Boxes of two different shown layers never overlap. */
  predicate Separated(groups: seq<seq<Box>>)
  {
    forall i, j :: 0 <= i < j < |groups| ==> Apart(groups, i, j)
  }

  /** The tree holds exactly the loaded groups, and they are pairwise apart. */
  predicate Sound(st: Placement)
  {
    st.bush == Concat(st.groups) && Separated(st.groups)
  }

  lemma {:induction false} ConcatContains(groups: seq<seq<Box>>, i: nat, p: nat)
    requires i < |groups| && p < |groups[i]|
    ensures groups[i][p] in Concat(groups)
    decreases |groups|
  {
    if i < |groups| - 1 {
      ConcatContains(groups[..|groups| - 1], i, p);
    }
  }

  /**
   * A placement step keeps the tree sound: a layer is shown exactly when
   * none of its positioned boxes overlaps a box already in the tree, and
   * then its boxes are loaded as a new group.
   */
  lemma PlaceSound(st: Placement, layer: LayerId, m: Measure, offset: Point, margin: real)
    requires Sound(st)
    ensures var st' := Place(st, layer, m, offset, margin);
      var boxes := Positioned(offset, RelativeBoxes(st.cached, layer, m), margin);
      Sound(st') &&
      (st'.visible == st.visible + [layer] <==> !Collides(st.bush, boxes)) &&
      (Collides(st.bush, boxes) ==> st'.visible == st.visible && st'.bush == st.bush) &&
      |st'.visible| - |st.visible| == |st'.groups| - |st.groups| &&
      st'.cached == st.cached[layer := RelativeBoxes(st.cached, layer, m)]
  {
    var boxes := Positioned(offset, RelativeBoxes(st.cached, layer, m), margin);
    if !Collides(st.bush, boxes) {
      var g := st.groups + [boxes];
      assert g[..|g| - 1] == st.groups;
      forall i, j | 0 <= i < j < |g|
        ensures Apart(g, i, j)
      {
        if j == |g| - 1 {
          forall p, q | 0 <= p < |g[i]| && 0 <= q < |g[j]|
            ensures !Intersects(g[i][p], g[j][q])
          {
            ConcatContains(st.groups, i, p);
            assert !Hit(st.bush, boxes[q]);
          }
        } else {
          assert Apart(st.groups, i, j);
        }
      }
    }
  }

  /**
   * `after` is `before` with layers appended, each taken from `layers` and
   * in view.
   */
  predicate Grows(before: seq<LayerId>, after: seq<LayerId>, layers: seq<LayerId>, inView: LayerId -> bool)
  {
    |before| <= |after| && after[..|before|] == before &&
    forall k :: |before| <= k < |after| ==> after[k] in layers && inView(after[k])
  }

  lemma GrowsStep(a: seq<LayerId>, b: seq<LayerId>, c: seq<LayerId>, init: seq<LayerId>,
                  layer: LayerId, inView: LayerId -> bool)
    requires Grows(a, b, init, inView)
    requires c == b || (c == b + [layer] && inView(layer))
    ensures Grows(a, c, init + [layer], inView)
  {
    assert c[..|b|] == b;
    assert c[..|a|] == b[..|a|];
    forall k | |a| <= k < |c|
      ensures c[k] in init + [layer] && inView(c[k])
    {
      if k < |b| {
        assert c[k] == b[k];
      }
    }
  }

  /** Every pass of `_onMoveEnd` leaves the tree sound, and only appends to the shown list. */
  lemma {:induction false} PlaceAllSound(st: Placement, layers: seq<LayerId>, inView: LayerId -> bool,
                                         measure: LayerId -> Measure, offsetOf: LayerId -> Point, margin: real)
    requires Sound(st)
    ensures var st' := PlaceAll(st, layers, inView, measure, offsetOf, margin);
      Sound(st') && Grows(st.visible, st'.visible, layers, inView) &&
      |st'.visible| - |st.visible| == |st'.groups| - |st.groups|
    decreases |layers|
  {
    if |layers| > 0 {
      var init := layers[..|layers| - 1];
      var layer := layers[|layers| - 1];
      PlaceAllSound(st, init, inView, measure, offsetOf, margin);
      var prev := PlaceAll(st, init, inView, measure, offsetOf, margin);
      var next := PlaceAll(st, layers, inView, measure, offsetOf, margin);
      PlaceAllStep(st, layers, |layers| - 1, inView, measure, offsetOf, margin);
      assert layers[..|layers| - 1] == init;
      StepSound(prev, next, layer, inView, measure, offsetOf, margin);
      assert layers == init + [layer];
      GrowsStep(st.visible, prev.visible, next.visible, init, layer, inView);
    }
  }

  /** One step of the pass keeps the tree sound and appends at most the layer itself to the shown list. */
  lemma StepSound(prev: Placement, next: Placement, layer: LayerId, inView: LayerId -> bool,
                  measure: LayerId -> Measure, offsetOf: LayerId -> Point, margin: real)
    requires Sound(prev)
    requires next == if inView(layer) then Place(prev, layer, measure(layer), offsetOf(layer), margin) else prev
    ensures Sound(next)
    ensures next.visible == prev.visible || (next.visible == prev.visible + [layer] && inView(layer))
    ensures |next.visible| - |prev.visible| == |next.groups| - |prev.groups|
  {
    if inView(layer) {
      PlaceSound(prev, layer, measure(layer), offsetOf(layer), margin);
    }
  }

  /** The first index of `x` in `s`, or -1: `indexOf`. */
  function IndexOf(s: seq<LayerId>, x: LayerId): (i: int)
    ensures -1 <= i < |s|
    ensures i >= 0 ==> s[i] == x && x !in s[..i]
    ensures i == -1 <==> x !in s
  {
    if |s| == 0 then -1
    else if s[0] == x then 0
    else var k := IndexOf(s[1..], x); if k == -1 then -1 else k + 1
  }

  /** `i = s.indexOf(x); if (i !== -1) s.splice(i, 1)`. */
  function RemoveFirst(s: seq<LayerId>, x: LayerId): seq<LayerId>
  {
    var i := IndexOf(s, x);
    if i == -1 then s else s[..i] + s[i + 1..]
  }

  /** `i = s.indexOf(x); if (i !== -1) s.splice(i, 1)`, on the list's value. */
  method Splice(s: seq<LayerId>, x: LayerId) returns (r: seq<LayerId>)
    ensures r == RemoveFirst(s, x)
  {
    r := s;
    var i := IndexOf(s, x);
    if i != -1 {
      r := s[..i] + s[i + 1..];
    }
  }

  /** Removing drops one occurrence of `x` and nothing else, and keeps the order of the rest. */
  lemma RemoveFirstDropsOne(s: seq<LayerId>, x: LayerId)
    ensures multiset(RemoveFirst(s, x)) == multiset(s) - multiset{x}
    ensures x !in s ==> RemoveFirst(s, x) == s
    ensures x in s ==> |RemoveFirst(s, x)| == |s| - 1
  {
    var i := IndexOf(s, x);
    if i != -1 {
      assert s[i] == x;
      assert RemoveFirst(s, x) == s[..i] + s[i + 1..];
      SpliceMultiset(s, i);
    } else {
      assert RemoveFirst(s, x) == s;
    }
  }

  lemma SpliceMultiset(s: seq<LayerId>, i: nat)
    requires i < |s|
    ensures multiset(s[..i] + s[i + 1..]) == multiset(s) - multiset{s[i]}
  {
    assert s == s[..i] + [s[i]] + s[i + 1..];
    assert multiset(s) == multiset(s[..i]) + multiset{s[i]} + multiset(s[i + 1..]);
  }

  /** A layer listed twice is still listed once after one removal. */
  lemma RemoveFirstLeavesSecondCopy(x: LayerId)
    ensures RemoveFirst([x, x], x) == [x]
  {
  }

  /** The group. `bush` is `None` while `_rbush` is still `null`. */
  class CollisionGroup {
    var originalLayers: seq<LayerId>
    var visibleLayers: seq<LayerId>
    var staticLayers: seq<LayerId>
    var bush: Option<seq<Box>>
    var cached: map<LayerId, seq<Box>>
    var onMap: bool
    const margin: real
    /** The boxes loaded per shown layer since the tree was last emptied. */
    ghost var groups: seq<seq<Box>>

    ghost function State(): Placement
      reads this
      requires bush.Some?
    {
      Placement(visibleLayers, bush.value, cached, groups)
    }

    ghost predicate Valid()
      reads this
    {
      (bush.Some? ==> Sound(State())) && (onMap ==> bush.Some?)
    }

    /** `initialize(options)`: `margin` is `options.margin || 0`, passed here already resolved. */
    constructor (margin: real)
      ensures Valid()
      ensures originalLayers == [] && visibleLayers == [] && staticLayers == []
      ensures bush == None && cached == map[] && !onMap && this.margin == margin
    {
      originalLayers, visibleLayers, staticLayers := [], [], [];
      bush := None;
      cached := map[];
      onMap := false;
      this.margin := margin;
      groups := [];
    }

    /** `_maybeAddLayerToRBush(layer)`; `m` is what measuring the icon would give, `offset` the marker's layer point. */
    method MaybeAddLayerToRBush(layer: LayerId, m: Measure, offset: Point)
      requires Valid() && bush.Some?
      modifies this
      ensures Valid() && bush.Some?
      ensures State() == Place(old(State()), layer, m, offset, margin)
      ensures originalLayers == old(originalLayers) && staticLayers == old(staticLayers)
      ensures onMap == old(onMap)
    {
      ghost var st := State();
      ghost var target := Place(st, layer, m, offset, margin);
      PlaceSound(st, layer, m, offset, margin);
      var rel: seq<Box>;
      if layer in cached {
        rel := cached[layer];
      } else {
        rel := m.children + [m.icon];
        cached := cached[layer := rel];
      }
      assert rel == RelativeBoxes(st.cached, layer, m);
      assert cached == target.cached;
      var boxes := PositionBoxes(offset, rel, margin);
      var collision := CollisionLoop(bush.value, boxes);
      if !collision {
        visibleLayers := visibleLayers + [layer];
        bush := Some(bush.value + boxes);
        groups := groups + [boxes];
        assert target == Placement(visibleLayers, bush.value, cached, groups);
      } else {
        assert target == st.(cached := cached);
      }
    }

    /** `addLayer(layer)`: a layer without an icon is always shown; one with an icon is placed at once when the group is on a map. */
    method AddLayer(layer: LayerId, hasIcon: bool, m: Measure, offset: Point)
      requires Valid()
      modifies this
      ensures Valid()
      ensures !hasIcon ==> (staticLayers == old(staticLayers) + [layer] && originalLayers == old(originalLayers) &&
                            visibleLayers == old(visibleLayers) && bush == old(bush) && cached == old(cached))
      ensures hasIcon ==> staticLayers == old(staticLayers) && originalLayers == old(originalLayers) + [layer]
      ensures hasIcon && !onMap ==> visibleLayers == old(visibleLayers) && bush == old(bush) && cached == old(cached)
      ensures hasIcon && onMap ==> bush.Some? && old(bush).Some? && State() == Place(old(State()), layer, m, offset, margin)
      ensures onMap == old(onMap)
    {
      if !hasIcon {
        staticLayers := staticLayers + [layer];
        return;
      }
      originalLayers := originalLayers + [layer];
      if onMap {
        MaybeAddLayerToRBush(layer, m, offset);
      }
    }

    /**
     * `removeLayer(layer)`. Before the tree exists, `this._rbush.remove`
     * throws. The removal from the tree is handed the cached relative
     * boxes, which are never an item of the tree, so the tree keeps the
     * layer's boxes until the next `moveend`.
     */
    method RemoveLayer(layer: LayerId) returns (r: Result<()>)
      requires Valid()
      modifies this
      ensures Valid()
      ensures old(bush).None? ==> r == Throw(TypeError) && unchanged(this)
      ensures old(bush).Some? ==> r == Ok(()) && bush == old(bush) && groups == old(groups)
      ensures old(bush).Some? ==> cached == old(cached) - {layer}
      ensures old(bush).Some? ==> originalLayers == RemoveFirst(old(originalLayers), layer)
      ensures old(bush).Some? ==> visibleLayers == RemoveFirst(old(visibleLayers), layer)
      ensures old(bush).Some? ==> staticLayers == RemoveFirst(old(staticLayers), layer)
      ensures onMap == old(onMap)
    {
      if bush.None? {
        return Throw(TypeError);
      }
      ghost var st := State();
      cached := cached - {layer};
      originalLayers := Splice(originalLayers, layer);
      visibleLayers := Splice(visibleLayers, layer);
      staticLayers := Splice(staticLayers, layer);
      assert Sound(State()) by {
        assert State().bush == st.bush && State().groups == st.groups;
      }
      r := Ok(());
    }

    /** `clearLayers()`: a fresh, empty tree and empty lists. */
    method ClearLayers()
      requires Valid()
      modifies this
      ensures Valid()
      ensures bush == Some([]) && originalLayers == [] && visibleLayers == [] && staticLayers == []
      ensures cached == map[] && onMap == old(onMap)
    {
      bush := Some([]);
      groups := [];
      originalLayers, visibleLayers, staticLayers := [], [], [];
      cached := map[];
    }

    /**
     * `_onMoveEnd()`: empty the tree, then place each layer whose position
     * the map's bounds contain, in insertion order. `_visibleLayers` is not
     * emptied, so the shown layers of earlier passes stay listed.
     */
    method OnMoveEnd(inView: LayerId -> bool, measure: LayerId -> Measure, offsetOf: LayerId -> Point)
      requires Valid() && onMap
      modifies this
      ensures Valid() && bush.Some?
      ensures State() == PlaceAll(Placement(old(visibleLayers), [], old(cached), []),
                                  originalLayers, inView, measure, offsetOf, margin)
      ensures originalLayers == old(originalLayers) && staticLayers == old(staticLayers) && onMap
    {
      bush := Some([]);
      groups := [];
      Pass(inView, measure, offsetOf);
    }

    /** `_onMoveEnd` as evidently intended: the shown list is rebuilt along with the tree. */
    method OnMoveEndCorrected(inView: LayerId -> bool, measure: LayerId -> Measure, offsetOf: LayerId -> Point)
      requires Valid() && onMap
      modifies this
      ensures Valid() && bush.Some?
      ensures State() == PlaceAll(Placement([], [], old(cached), []),
                                  originalLayers, inView, measure, offsetOf, margin)
      ensures originalLayers == old(originalLayers) && staticLayers == old(staticLayers) && onMap
    {
      visibleLayers := [];
      bush := Some([]);
      groups := [];
      Pass(inView, measure, offsetOf);
    }

    /** The placement loop shared by both versions of `_onMoveEnd`. */
    method Pass(inView: LayerId -> bool, measure: LayerId -> Measure, offsetOf: LayerId -> Point)
      requires Valid() && bush.Some?
      modifies this
      ensures Valid() && bush.Some?
      ensures State() == PlaceAll(old(State()), originalLayers, inView, measure, offsetOf, margin)
      ensures originalLayers == old(originalLayers) && staticLayers == old(staticLayers) && onMap == old(onMap)
    {
      ghost var start := State();
      var layers := originalLayers;
      var i := 0;
      while i < |layers|
        invariant 0 <= i <= |layers|
        invariant bush.Some?
        invariant originalLayers == layers && staticLayers == old(staticLayers) && onMap == old(onMap)
        invariant State() == PlaceAll(start, layers[..i], inView, measure, offsetOf, margin)
      {
        PlaceAllStep(start, layers, i, inView, measure, offsetOf, margin);
        if inView(layers[i]) {
          PlaceAllSound(start, layers[..i], inView, measure, offsetOf, margin);
          MaybeAddLayerToRBush(layers[i], measure(layers[i]), offsetOf(layers[i]));
        }
        i := i + 1;
      }
      assert layers[..i] == layers;
      PlaceAllSound(start, layers, inView, measure, offsetOf, margin);
    }

    /** `onAdd(map)`: the group is on the map and a first placement pass runs. */
    method OnAdd(inView: LayerId -> bool, measure: LayerId -> Measure, offsetOf: LayerId -> Point)
      requires Valid()
      modifies this
      ensures Valid() && onMap && bush.Some?
      ensures State() == PlaceAll(Placement(old(visibleLayers), [], old(cached), []),
                                  originalLayers, inView, measure, offsetOf, margin)
      ensures originalLayers == old(originalLayers) && staticLayers == old(staticLayers)
    {
      onMap := true;
      bush := Some([]);
      groups := [];
      OnMoveEnd(inView, measure, offsetOf);
    }
  }

  /** On an empty tree nothing collides, so the layer is shown. */
  lemma PlaceOnEmpty(st: Placement, layer: LayerId, m: Measure, offset: Point, margin: real)
    requires st.bush == []
    ensures Place(st, layer, m, offset, margin).visible == st.visible + [layer]
  {
    var boxes := Positioned(offset, RelativeBoxes(st.cached, layer, m), margin);
    assert !Collides(st.bush, boxes);
  }

  /** A pass over a group holding only the layer `l`. */
  function SinglePass(shown: seq<LayerId>, cached: map<LayerId, seq<Box>>, l: LayerId, inView: LayerId -> bool,
                      measure: LayerId -> Measure, offsetOf: LayerId -> Point, margin: real): Placement
  {
    PlaceAll(Placement(shown, [], cached, []), [l], inView, measure, offsetOf, margin)
  }

  /** A pass over a group holding only `l`, when `l` is in view, appends it to the shown list. */
  lemma SinglePassShows(shown: seq<LayerId>, cached: map<LayerId, seq<Box>>, l: LayerId, inView: LayerId -> bool,
                        measure: LayerId -> Measure, offsetOf: LayerId -> Point, margin: real)
    requires inView(l)
    ensures SinglePass(shown, cached, l, inView, measure, offsetOf, margin).visible == shown + [l]
  {
    var st := Placement(shown, [], cached, []);
    PlaceAllStep(st, [l], 0, inView, measure, offsetOf, margin);
    assert [l][..1] == [l] && [l][..0] == [];
    PlaceOnEmpty(st, l, measure(l), offsetOf(l), margin);
  }

  /**
   * As written, two `moveend` passes over a group holding one layer in
   * view list it twice as shown; rebuilding the shown list lists it once.
   */
  lemma MoveEndTwiceListsTwice(l: LayerId, inView: LayerId -> bool, measure: LayerId -> Measure,
                               offsetOf: LayerId -> Point, margin: real)
    requires inView(l)
    ensures var first := SinglePass([], map[], l, inView, measure, offsetOf, margin);
      var second := SinglePass(first.visible, first.cached, l, inView, measure, offsetOf, margin);
      var corrected := SinglePass([], first.cached, l, inView, measure, offsetOf, margin);
      second.visible == [l, l] && corrected.visible == [l]
  {
    var first := SinglePass([], map[], l, inView, measure, offsetOf, margin);
    SinglePassShows([], map[], l, inView, measure, offsetOf, margin);
    SinglePassShows(first.visible, first.cached, l, inView, measure, offsetOf, margin);
    SinglePassShows([], first.cached, l, inView, measure, offsetOf, margin);
  }

  /**
   * With the shown list rebuilt, it names only layers of the group that
   * are in view, one per group of boxes loaded in the tree, and no two
   * shown layers' boxes overlap.
   */
  lemma CorrectedPassShowsOnlyPlacedLayers(cached: map<LayerId, seq<Box>>, layers: seq<LayerId>,
                                           inView: LayerId -> bool, measure: LayerId -> Measure,
                                           offsetOf: LayerId -> Point, margin: real)
    ensures var st := PlaceAll(Placement([], [], cached, []), layers, inView, measure, offsetOf, margin);
      && Sound(st) && |st.visible| == |st.groups|
      && forall k :: 0 <= k < |st.visible| ==> st.visible[k] in layers && inView(st.visible[k])
  {
    PlaceAllSound(Placement([], [], cached, []), layers, inView, measure, offsetOf, margin);
  }
}
