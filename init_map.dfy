/**
 * `InitMap`, the map wrapper of the WeatherLayer plugin: the ordered list of
 * `{id, layer}` entries that `loadLayer` fills and the searches over it
 * (`_isExist`, `getLayerByid`, `hideLayer`, `showLayer`, `unloadLayer`),
 * the zoom-control style string and the base-map layers `_setBaseMap` adds.
 *
 * Ids are compared with JavaScript's loose `==`: a string meets a number
 * through `Number(string)`. An id is a string or an integer.
 */
module InitMapModel {
  import opened Wrappers
  import opened Text
  import opened JsValues
  import TileLayers

  datatype LayerId = NumId(n: int) | StrId(s: string)

  /** `a == b` on two ids. */
  predicate LooselyEqual(a: LayerId, b: LayerId)
  {
    match (a, b)
    case (NumId(x), NumId(y)) => x == y
    case (StrId(x), StrId(y)) => x == y
    case (NumId(x), StrId(y)) => ToNumber(y) == Some(x as real)
    case (StrId(x), NumId(y)) => ToNumber(x) == Some(y as real)
  }

  lemma LooselyEqualSymmetric(a: LayerId, b: LayerId)
    ensures LooselyEqual(a, b) <==> LooselyEqual(b, a)
  {
  }

  /**
   * Loose equality is not transitive: `"1" == 1` and `1 == "01"`, but
   * `"1" != "01"`, so the list may hold both string ids while a lookup of
   * the number 1 matches each of them.
   */
  lemma LooselyEqualNotTransitive()
    ensures LooselyEqual(StrId("1"), NumId(1)) && LooselyEqual(NumId(1), StrId("01"))
    ensures !LooselyEqual(StrId("1"), StrId("01"))
  {
    assert PlainChars("1") && PlainChars("01");
    ToNumberPlain("1");
    ToNumberPlain("01");
    SplitNoSeparator("1", '.');
    SplitNoSeparator("01", '.');
    assert AllDigits("1", 10);
    assert ParseDigits("1", 10) == 1 by {
      assert "1"[..0] == "";
    }
    assert AllDigits("01", 10);
    assert ParseDigits("01", 10) == 1 by {
      assert "01"[..1] == "0";
      assert "0"[..0] == "";
    }
  }

  /**
   * The number 1 also matches `" 1"`, `"+1"`, `"1.0"`, `"1e0"` and `"0x1"`,
   * so after `loadLayer(a, "1.0")` a `loadLayer(b, 1)` is a duplicate.
   */
  lemma OneMatchesOtherNumerals()
    ensures LooselyEqual(NumId(1), StrId(" 1")) && LooselyEqual(NumId(1), StrId("+1"))
    ensures LooselyEqual(NumId(1), StrId("1.0")) && LooselyEqual(NumId(1), StrId("1e0"))
    ensures LooselyEqual(NumId(1), StrId("0x1"))
    ensures FirstMatch([Entry(StrId("1.0"), 0)], NumId(1)) == Some(0)
  {
    ToNumberForms();
  }

  /** `'' + id`, the text an error message shows for the id. */
  function IdText(id: LayerId): string
  {
    match id
    case NumId(n) => IntToString(n)
    case StrId(s) => s
  }

  datatype Entry = Entry(id: LayerId, layer: nat)

  /** No two entries have loosely equal ids. */
  predicate DistinctIds(entries: seq<Entry>)
  {
    forall i, j :: 0 <= i < j < |entries| ==> !LooselyEqual(entries[i].id, entries[j].id)
  }

  /** The position of the first entry whose id is loosely equal to `id`. */
  function FirstMatch(entries: seq<Entry>, id: LayerId): (r: Option<nat>)
    ensures r.None? <==> forall k :: 0 <= k < |entries| ==> !LooselyEqual(entries[k].id, id)
    ensures r.Some? ==> r.value < |entries| && LooselyEqual(entries[r.value].id, id)
    ensures r.Some? ==> forall k :: 0 <= k < r.value ==> !LooselyEqual(entries[k].id, id)
  {
    if |entries| == 0 then None
    else if LooselyEqual(entries[0].id, id) then Some(0)
    else
      match FirstMatch(entries[1..], id)
      case None => None
      case Some(k) => Some(k + 1)
  }

  /** The layer of the first matching entry, or `null`. */
  function LayerOf(entries: seq<Entry>, id: LayerId): Option<nat>
  {
    match FirstMatch(entries, id)
    case None => None
    case Some(k) => Some(entries[k].layer)
  }

  /**
   * A string id matches at most one entry of a list with distinct ids: the
   * entries it matches would be loosely equal to each other.
   */
  lemma StringIdMatchesOnce(entries: seq<Entry>, s: string, i: nat, j: nat)
    requires DistinctIds(entries)
    requires i < |entries| && j < |entries|
    requires LooselyEqual(entries[i].id, StrId(s)) && LooselyEqual(entries[j].id, StrId(s))
    ensures i == j
  {
  }

  function DuplicateMessage(id: LayerId): string
  {
    IdText(id) + "-该id已存在！"
  }

  function HideMissingMessage(id: LayerId): string
  {
    "未找到id为 " + IdText(id) + " 的图层，请检查是否是使用loadLayer(layer,id)方法进行加载的图层"
  }

  function ShowMissingMessage(id: LayerId): string
  {
    "未找到id为 " + IdText(id) + " 的图层，请检查是否加载到map中！"
  }

  /** The map wrapper: its registered layers and the layers currently on the map. */
  class InitMap {
    var layers: seq<Entry>
    var onMap: set<nat>

    predicate Valid()
      reads this
    {
      DistinctIds(layers)
    }

    constructor()
      ensures Valid()
      ensures layers == [] && onMap == {}
    {
      layers := [];
      onMap := {};
    }

    /** `_isExist`: is some registered id loosely equal to `id`? */
    method IsExist(id: LayerId) returns (found: bool)
      ensures found <==> exists k :: 0 <= k < |layers| && LooselyEqual(layers[k].id, id)
      ensures found <==> FirstMatch(layers, id).Some?
    {
      var i := 0;
      while i < |layers|
        invariant 0 <= i <= |layers|
        invariant forall k :: 0 <= k < i ==> !LooselyEqual(layers[k].id, id)
      {
        if LooselyEqual(layers[i].id, id) {
          return true;
        }
        i := i + 1;
      }
      return false;
    }

    /** `getLayerByid`: the layer of the first entry whose id matches, or `null`. */
    method GetLayerById(id: LayerId) returns (layer: Option<nat>)
      ensures layer == LayerOf(layers, id)
      ensures layer.None? <==> forall k :: 0 <= k < |layers| ==> !LooselyEqual(layers[k].id, id)
    {
      layer := None;
      var i := 0;
      while i < |layers|
        invariant 0 <= i <= |layers|
        invariant forall k :: 0 <= k < i ==> !LooselyEqual(layers[k].id, id)
      {
        if LooselyEqual(layers[i].id, id) {
          layer := Some(layers[i].layer);
          assert FirstMatch(layers, id) == Some(i);
          return;
        }
        i := i + 1;
      }
    }

    /**
     * `loadLayer`: throws when an entry with a loosely equal id exists;
     * otherwise adds the layer to the map and appends exactly one entry.
     */
    method LoadLayer(layer: nat, id: LayerId) returns (r: Result<()>)
      requires Valid()
      modifies this
      ensures Valid()
      ensures FirstMatch(old(layers), id).Some? ==>
        r == Throw(Thrown(DuplicateMessage(id))) && layers == old(layers) && onMap == old(onMap)
      ensures FirstMatch(old(layers), id).None? ==>
        r == Ok(()) && layers == old(layers) + [Entry(id, layer)] && onMap == old(onMap) + {layer}
    {
      var exists_ := IsExist(id);
      if !exists_ {
        onMap := onMap + {layer};
        layers := layers + [Entry(id, layer)];
        r := Ok(());
        forall i, j | 0 <= i < j < |layers|
          ensures !LooselyEqual(layers[i].id, layers[j].id)
        {
          if j == |layers| - 1 {
            LooselyEqualSymmetric(layers[i].id, id);
          }
        }
      } else {
        r := Throw(Thrown(DuplicateMessage(id)));
      }
    }

    /** `hideLayer`: removes the matching layer from the map; throws when no entry matches. */
    method HideLayer(id: LayerId) returns (r: Result<()>)
      modifies this
      ensures layers == old(layers)
      ensures LayerOf(layers, id).None? ==>
        r == Throw(Thrown(HideMissingMessage(id))) && onMap == old(onMap)
      ensures LayerOf(layers, id).Some? ==>
        r == Ok(()) && onMap == old(onMap) - {LayerOf(layers, id).value}
    {
      var layer := GetLayerById(id);
      if layer.Some? {
        onMap := onMap - {layer.value};
        r := Ok(());
      } else {
        r := Throw(Thrown(HideMissingMessage(id)));
      }
    }

    /** `showLayer`: adds the matching layer to the map; throws when no entry matches. */
    method ShowLayer(id: LayerId) returns (r: Result<()>)
      modifies this
      ensures layers == old(layers)
      ensures LayerOf(layers, id).None? ==>
        r == Throw(Thrown(ShowMissingMessage(id))) && onMap == old(onMap)
      ensures LayerOf(layers, id).Some? ==>
        r == Ok(()) && onMap == old(onMap) + {LayerOf(layers, id).value}
    {
      var layer := GetLayerById(id);
      if layer.Some? {
        onMap := onMap + {layer.value};
        r := Ok(());
      } else {
        r := Throw(Thrown(ShowMissingMessage(id)));
      }
    }

    /**
     * `unloadLayer` as written: after `hideLayer` succeeds, the search loop
     * reaches the matching entry and calls `splice` on the undeclared name
     * `layers`, which raises a `ReferenceError`. The layer is off the map
     * but its entry stays registered.
     */
    method UnloadLayer(id: LayerId) returns (r: Result<()>)
      modifies this
      ensures layers == old(layers)
      ensures LayerOf(layers, id).None? ==>
        r == Throw(Thrown(HideMissingMessage(id))) && onMap == old(onMap)
      ensures LayerOf(layers, id).Some? ==>
        r == Throw(ReferenceError) && onMap == old(onMap) - {LayerOf(layers, id).value}
    {
      r := HideLayer(id);
      if r.Throw? {
        return;
      }
      var i := 0;
      while i < |layers|
        invariant 0 <= i <= |layers|
        invariant forall k :: 0 <= k < i ==> !LooselyEqual(layers[k].id, id)
      {
        if LooselyEqual(layers[i].id, id) {
          r := Throw(ReferenceError);
          return;
        }
        i := i + 1;
      }
      assert false;
    }

    /**
     * `unloadLayer` as intended: hides the layer and removes its entry,
     * the first one whose id matches, from this wrapper's list.
     */
    method UnloadLayerCorrected(id: LayerId) returns (r: Result<()>)
      requires Valid()
      modifies this
      ensures Valid()
      ensures FirstMatch(old(layers), id).None? ==>
        r == Throw(Thrown(HideMissingMessage(id))) && layers == old(layers) && onMap == old(onMap)
      ensures FirstMatch(old(layers), id).Some? ==>
        var k := FirstMatch(old(layers), id).value;
        r == Ok(()) && onMap == old(onMap) - {old(layers)[k].layer} &&
        layers == old(layers)[..k] + old(layers)[k + 1..]
    {
      r := HideLayer(id);
      if r.Throw? {
        return;
      }
      var i := 0;
      while i < |layers|
        invariant 0 <= i <= |layers|
        invariant forall k :: 0 <= k < i ==> !LooselyEqual(layers[k].id, id)
      {
        if LooselyEqual(layers[i].id, id) {
          assert FirstMatch(layers, id) == Some(i);
          RemoveKeepsDistinct(layers, i);
          layers := layers[..i] + layers[i + 1..];
          return;
        }
        i := i + 1;
      }
      assert false;
    }
  }

  lemma RemoveKeepsDistinct(entries: seq<Entry>, i: nat)
    requires DistinctIds(entries) && i < |entries|
    ensures DistinctIds(entries[..i] + entries[i + 1..])
  {
    var rest := entries[..i] + entries[i + 1..];
    forall a, b | 0 <= a < b < |rest|
      ensures !LooselyEqual(rest[a].id, rest[b].id)
    {
      var a' := if a < i then a else a + 1;
      var b' := if b < i then b else b + 1;
      assert rest[a] == entries[a'] && rest[b] == entries[b'];
    }
  }

  /** After the corrected unload of a string id, no entry matches that id any more. */
  lemma UnloadedStringIdIsGone(entries: seq<Entry>, s: string)
    requires DistinctIds(entries)
    requires FirstMatch(entries, StrId(s)).Some?
    ensures var k := FirstMatch(entries, StrId(s)).value;
      FirstMatch(entries[..k] + entries[k + 1..], StrId(s)).None?
  {
    var k := FirstMatch(entries, StrId(s)).value;
    var rest := entries[..k] + entries[k + 1..];
    forall m | 0 <= m < |rest|
      ensures !LooselyEqual(rest[m].id, StrId(s))
    {
      var m' := if m < k then m else m + 1;
      assert rest[m] == entries[m'];
      if LooselyEqual(rest[m].id, StrId(s)) {
        StringIdMatchesOnce(entries, s, k, m');
        assert false;
      }
    }
  }

  // ---------------------------------------------------------------------
  // setZoomControl

  /** The offsets a caller may pass in `opt`; the empty string stands for an absent (falsy) field. */
  datatype ZoomOffsets = ZoomOffsets(top: string, right: string, bottom: string, left: string)

  /** `(opt && opt.f) ? opt.f : d`. */
  function OffsetOr(opt: Option<ZoomOffsets>, field: ZoomOffsets -> string, d: string): (r: string)
    ensures opt.None? ==> r == d
    ensures opt.Some? && field(opt.value) != "" ==> r == field(opt.value)
    ensures opt.Some? && field(opt.value) == "" ==> r == d
  {
    if opt.Some? && field(opt.value) != "" then field(opt.value) else d
  }

  const Corners: seq<string> := ["topright", "topleft", "bottomleft", "bottomright"]

  /**
   * `setZoomControl(position, opt)`: the position handed to the zoom
   * control and the style written on it. A missing position (`undefined`,
   * `null` or `''`) places the control at the top right, but the `switch`
   * runs on the raw argument, so no style is written then.
   */
  function ZoomControl(position: Option<string>, opt: Option<ZoomOffsets>): (r: (string, Option<string>))
    ensures position == None || position == Some("") ==> r == ("topright", None)
    ensures position.Some? && position.value != "" ==> r.0 == position.value
    ensures r.1.Some? <==> position.Some? && position.value in Corners
  {
    var pos := if position == None || position == Some("") then "topright" else position.value;
    var style :=
      if position == Some("topright") then
        Some("right:" + OffsetOr(opt, (o: ZoomOffsets) => o.right, "10px") + ";top:" + OffsetOr(opt, (o: ZoomOffsets) => o.top, "45px"))
      else if position == Some("topleft") then
        Some("left:" + OffsetOr(opt, (o: ZoomOffsets) => o.left, "10px") + ";top:" + OffsetOr(opt, (o: ZoomOffsets) => o.top, "45px"))
      else if position == Some("bottomleft") then
        Some("left:" + OffsetOr(opt, (o: ZoomOffsets) => o.left, "10px") + ";bottom:" + OffsetOr(opt, (o: ZoomOffsets) => o.bottom, "10px"))
      else if position == Some("bottomright") then
        Some("right:" + OffsetOr(opt, (o: ZoomOffsets) => o.right, "10px") + ";bottom:" + OffsetOr(opt, (o: ZoomOffsets) => o.bottom, "10px"))
      else None;
    (pos, style)
  }

  /**
   * Without offsets, a top corner sits 45px from the top and a bottom
   * corner 10px from the bottom, always 10px in from its side.
   */
  lemma ZoomControlDefaults()
    ensures ZoomControl(Some("topright"), None).1 == Some("right:10px;top:45px")
    ensures ZoomControl(Some("topleft"), None).1 == Some("left:10px;top:45px")
    ensures ZoomControl(Some("bottomleft"), None).1 == Some("left:10px;bottom:10px")
    ensures ZoomControl(Some("bottomright"), None).1 == Some("right:10px;bottom:10px")
  {
    ZoomControlTopDefaults();
    ZoomControlBottomDefaults();
  }

  lemma ZoomControlTopDefaults()
    ensures ZoomControl(Some("topright"), None).1 == Some("right:10px;top:45px")
    ensures ZoomControl(Some("topleft"), None).1 == Some("left:10px;top:45px")
  {
    assert "right:" + "10px" + ";top:" + "45px" == "right:10px;top:45px";
    assert "left:" + "10px" + ";top:" + "45px" == "left:10px;top:45px";
  }

  lemma ZoomControlBottomDefaults()
    ensures ZoomControl(Some("bottomleft"), None).1 == Some("left:10px;bottom:10px")
    ensures ZoomControl(Some("bottomright"), None).1 == Some("right:10px;bottom:10px")
  {
    assert "left:" + "10px" + ";bottom:" + "10px" == "left:10px;bottom:10px";
    assert "right:" + "10px" + ";bottom:" + "10px" == "right:10px;bottom:10px";
  }

  /** Offsets the caller gives are used verbatim on the sides of the chosen corner. */
  lemma ZoomControlUsesOffsets(o: ZoomOffsets)
    requires o.top != "" && o.right != "" && o.bottom != "" && o.left != ""
    ensures ZoomControl(Some("topright"), Some(o)).1 == Some("right:" + o.right + ";top:" + o.top)
    ensures ZoomControl(Some("topleft"), Some(o)).1 == Some("left:" + o.left + ";top:" + o.top)
    ensures ZoomControl(Some("bottomleft"), Some(o)).1 == Some("left:" + o.left + ";bottom:" + o.bottom)
    ensures ZoomControl(Some("bottomright"), Some(o)).1 == Some("right:" + o.right + ";bottom:" + o.bottom)
  {
  }

  // ---------------------------------------------------------------------
  // _setBaseMap

  /** The layers `_setBaseMap` puts into the base-map group. */
  datatype BaseLayer =
    | BlankPolygon                        // the white polygon used when no base map is set
    | WebTile(kind: string, id: string)   // `new WebTileMapLayer(kind, {id})`
    | EsriTiled                           // `L.esri.tiledMapLayer(defaultMap)`
    | EsriDynamic                         // `L.esri.dynamicMapLayer(defaultMap)`
    | FileTiles                           // `new FileTileMapLayer(defaultMap.url, defaultMap)`

  /** One web tile layer per comma-separated part, with id `part + '_' + index`. */
  function WebLayers(parts: seq<string>): (r: seq<BaseLayer>)
    ensures |r| == |parts|
    ensures forall k :: 0 <= k < |r| ==> r[k] == WebTile(parts[k], parts[k] + "_" + Decimal(k))
  {
    seq(|parts|, k requires 0 <= k < |parts| => WebTile(parts[k], parts[k] + "_" + Decimal(k)))
  }

  /** The options `_setBaseMap` gives each web tile layer, `{id}`: neither `proxy` nor `proxyUrl`. */
  const BaseWebOptions := TileLayers.WebOptions(false, "")

  /** A comma part whose `WebTileMapLayer` constructor throws, for an unknown provider or map group. */
  predicate Refused(part: string)
  {
    TileLayers.WebTileSource(part, Some(BaseWebOptions)).Throw?
  }

  predicate SomeRefused(parts: seq<string>)
  {
    exists k :: 0 <= k < |parts| && Refused(parts[k])
  }

  /**
   * The loop of the `web` branch from part `i` on: one layer per part in
   * order, stopping at the first part whose constructor throws.
   */
  function WebBaseLayers(parts: seq<string>, i: nat): (r: Result<seq<BaseLayer>>)
    requires i <= |parts|
    decreases |parts| - i
    ensures r.Throw? <==> SomeRefused(parts[i..])
    ensures r.Throw? ==> r.exception == TypeError
    ensures r.Ok? ==> r.value == WebLayers(parts)[i..]
  {
    assert SomeRefused(parts[i..]) <==> exists k :: i <= k < |parts| && Refused(parts[k]) by {
      forall k | i <= k < |parts| ensures parts[i..][k - i] == parts[k] { }
    }
    if i == |parts| then Ok([])
    else if Refused(parts[i]) then Throw(TypeError)
    else
      match WebBaseLayers(parts, i + 1)
      case Ok(rest) => Ok([WebTile(parts[i], parts[i] + "_" + Decimal(i))] + rest)
      case Throw(e) => Throw(e)
  }

  /**
   * `_setBaseMap`: a falsy `defaultMap` gives the blank polygon; `'web'`
   * splits the string on commas (a non-string has no `split` and the call
   * throws) and builds a web tile layer per part, which throws for a part
   * naming an unknown provider or map group; `'server'` picks the tiled or
   * dynamic service; `'file'` the file tiles; any other type leaves the
   * group empty.
   */
  function BaseMapLayers(basemapType: string, serverType: string, defaultMap: JsValue): (r: Result<seq<BaseLayer>>)
    ensures !Truthy(defaultMap) ==> r == Ok([BlankPolygon])
    ensures r.Throw? <==>
              && Truthy(defaultMap) && basemapType == "web"
              && (!defaultMap.Str? || SomeRefused(Split(defaultMap.s, ',')))
    ensures r.Throw? ==> r.exception == TypeError
    ensures r.Ok? && Truthy(defaultMap) && basemapType == "web" ==>
              defaultMap.Str? && r.value == WebLayers(Split(defaultMap.s, ','))
  {
    if !Truthy(defaultMap) then Ok([BlankPolygon])
    else if basemapType == "web" then
      if defaultMap.Str? then
        var parts := Split(defaultMap.s, ',');
        assert WebLayers(parts)[0..] == WebLayers(parts);
        WebBaseLayers(parts, 0)
      else Throw(TypeError)
    else if basemapType == "server" then
      Ok([if serverType == "tile" then EsriTiled else EsriDynamic])
    else if basemapType == "file" then Ok([FileTiles])
    else Ok([])
  }

  /** A part naming a provider outside the table makes the whole base map throw, whatever follows it. */
  lemma UnknownProviderThrows(part: string, rest: string, serverType: string)
    requires part != "" && ',' !in part
    requires TileLayers.NameParts(part).0 !in TileLayers.Providers
    ensures BaseMapLayers("web", serverType, Str(part)) == Throw(TypeError)
    ensures BaseMapLayers("web", serverType, Str(part + [','] + rest)) == Throw(TypeError)
  {
    SplitNoSeparator(part, ',');
    assert Refused(Split(part, ',')[0]);
    SplitAppend(part, ',', rest);
    assert Refused(Split(part + [','] + rest, ',')[0]);
  }

  /**
   * `split(',')` keeps a space after the comma, so a later part such as
   * `" Google.Common.Map"` names the provider `" Google"`, which the table
   * lacks, and the whole base map throws.
   */
  lemma SpaceAfterCommaThrows(first: string, second: string, serverType: string)
    requires ',' !in first && ',' !in second
    requires |second| > 0 && second[0] == ' '
    ensures BaseMapLayers("web", serverType, Str(first + [','] + second)) == Throw(TypeError)
  {
    SplitAppend(first, ',', second);
    SplitNoSeparator(second, ',');
    var parts := Split(first + [','] + second, ',');
    assert parts[1] == second;
    var provider := TileLayers.NameParts(second).0;
    assert provider[0] == ' ';
    assert provider !in TileLayers.Providers;
    assert Refused(parts[1]);
  }

  /** The web tile layers of one base map get pairwise distinct ids. */
  lemma WebLayerIdsDistinct(parts: seq<string>, i: nat, j: nat)
    requires i < j < |parts|
    ensures WebLayers(parts)[i].id != WebLayers(parts)[j].id
  {
    var a, b := parts[i] + "_" + Decimal(i), parts[j] + "_" + Decimal(j);
    if a == b {
      NoUnderscoreInDecimal(i);
      NoUnderscoreInDecimal(j);
      SameSuffixAfterLastSeparator(parts[i], Decimal(i), parts[j], Decimal(j));
      DigitsInjective(i, j, 10);
      assert false;
    }
  }

  lemma NoUnderscoreInDecimal(n: nat)
    ensures '_' !in Decimal(n)
  {
  }

  /** Two strings `x + "_" + d` with `d` free of `_` agree on `d`. */
  lemma SameSuffixAfterLastSeparator(x: string, d: string, y: string, e: string)
    requires '_' !in d && '_' !in e
    requires x + "_" + d == y + "_" + e
    ensures d == e
  {
    var s := x + "_" + d;
    if |d| < |e| {
      SeparatorInLongerTail(x, d, y, e);
      assert false;
    } else if |e| < |d| {
      SeparatorInLongerTail(y, e, x, d);
      assert false;
    }
    assert d == s[|s| - |d|..];
    assert e == (y + "_" + e)[|s| - |e|..];
  }

  lemma SeparatorInLongerTail(x: string, d: string, y: string, e: string)
    requires x + "_" + d == y + "_" + e
    requires |d| < |e|
    ensures '_' in e
  {
    var s := x + "_" + d;
    assert s[|s| - |d| - 1] == '_';
    assert s[|s| - |d| - 1] == e[|e| - |d| - 1];
  }

  /**
   * The maps `aliveIndex.js` and `index.js` create pass `basemapType: ''`
   * and the truthy string `'null'` as `defaultMap`: no base layer at all.
   */
  lemma WrapperMapsHaveNoBaseLayer(serverType: string)
    ensures BaseMapLayers("", serverType, Str("null")) == Ok([])
  {
  }
}
