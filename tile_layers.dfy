/**
 * The two tile layers of the WeatherLayer plugin: `WebTileMapLayer`, which
 * composes a provider's tile URL template from a `'Provider.Map.Type'`
 * name, and `FileTileMapLayer`, which names the files of an ArcGIS exploded
 * tile cache (`L` + zoom, `R` + row in hex, `C` + column in hex) and fills
 * them into the template with Leaflet's `L.Util.template`.
 */
module TileLayers {
  import opened Wrappers
  import opened Text

  // ---------------------------------------------------------------------
  // WebTileMapLayer

  /** One entry of the provider table; an empty `suffix` is an absent one. */
  datatype Provider = Provider(
    maps: map<string, map<string, string>>,
    prefix: string,
    suffix: string,
    subdomains: seq<string>)

  const TianDiTu := Provider(
    map[
      "Common" := map[
        "Map" := "/DataServer?T=vec_w&X={x}&Y={y}&L={z}",
        "Annotion" := "/DataServer?T=cva_w&X={x}&Y={y}&L={z}"],
      "Satellite" := map[
        "Map" := "/DataServer?T=img_w&X={x}&Y={y}&L={z}",
        "Annotion" := "/DataServer?T=cia_w&X={x}&Y={y}&L={z}"],
      "Terrain" := map[
        "Map" := "/DataServer?T=ter_w&X={x}&Y={y}&L={z}",
        "Annotion" := "/DataServer?T=cta_w&X={x}&Y={y}&L={z}"]],
    "http://t{s}.tianditu.gov.cn",
    "&tk=0a9cfb135e61b353ba6c8b4cb3386101",
    ["0", "1", "2", "3", "4", "5", "6", "7"])

  const GaoDe := Provider(
    map[
      "Common" := map[
        "Map" := "/appmaptile?lang=zh_cn&size=1&scale=1&style=7&x={x}&y={y}&z={z}"],
      "Satellite" := map[
        "Map" := "/appmaptile?lang=zh_cn&size=1&scale=1&style=6&x={x}&y={y}&z={z}",
        "Annotion" := "/appmaptile?lang=zh_cn&size=1&scale=1&style=8&x={x}&y={y}&z={z}"]],
    "https://webst0{s}.is.autonavi.com",
    "",
    ["1", "2", "3", "4"])

  const Google := Provider(
    map[
      "Common" := map["Map" := "/vt/lyrs=m&hl=zh-CN&gl=cn&x={x}&y={y}&z={z}"],
      "Satellite" := map[
        "Map" := "/vt/lyrs=s&hl=zh-CN&gl=CN&x={x}&y={y}&z={z}&s=Gali",
        "Annotion" := "/vt/imgtp=png32&lyrs=h@207000000&hl=zh-CN&gl=cn&x={x}&y={y}&z={z}&s=Galil"],
      "Terrain" := map["Map" := "/vt/lyrs=p&hl=zh-CN&gl=cn&x={x}&y={y}&z={z}"]],
    "http://mt{s}.google.cn",
    "",
    ["1", "2", "3"])

  const Google84 := Provider(
    map["Satellite" := map["Map" := "/maps/vt?lyrs=s@198&gl=en&x={x}&y={y}&z={z}"]],
    "http://www.google.cn",
    "",
    [])

  const Osm := Provider(
    map["Common" := map["Map" := "http://{s}.tile.openstreetmap.org/{z}/{x}/{y}.png"]],
    "",
    "",
    ["a", "b", "c"])

  const Geoq := Provider(
    map["Common" := map[
      "Map" := "/ArcGIS/rest/services/ChinaOnlineCommunity/MapServer/tile/{z}/{y}/{x}",
      "MidnightBlue" := "/ArcGIS/rest/services/ChinaOnlineStreetPurplishBlue/MapServer/tile/{z}/{y}/{x}",
      "Gray" := "/ArcGIS/rest/services/ChinaOnlineStreetGray/MapServer/tile/{z}/{y}/{x}",
      "Warm" := "/ArcGIS/rest/services/ChinaOnlineStreetWarm/MapServer/tile/{z}/{y}/{x}"]],
    "http://map.geoq.cn",
    "",
    [])

  const SeaMap := Provider(
    map["Common" := map["Map" := "/tile.c?l=Na&m=o&z={z}&y={y}&x={x}"]],
    "http://m2.shipxy.com",
    "",
    [])

  const Providers: map<string, Provider> := map[
    "TianDiTu" := TianDiTu, "GaoDe" := GaoDe, "Google" := Google, "Google_84" := Google84,
    "OSM" := Osm, "Geoq" := Geoq, "SeaMap" := SeaMap]

  /** The `proxy` and `proxyUrl` options; an empty `proxyUrl` is an absent one. */
  datatype WebOptions = WebOptions(proxy: bool, proxyUrl: string)

  /** A URL that may be `undefined`, and its text once concatenated with a string. */
  function UrlText(u: Option<string>): string
  {
    if u.Some? then u.value else "undefined"
  }

  /** The URL template and subdomains a web tile layer hands to `L.TileLayer`. */
  datatype TileSource = TileSource(url: Option<string>, subdomains: seq<string>)

  /** The three parts of `kind.split('.')`; a missing part reads as the key "undefined". */
  function NameParts(kind: string): (r: (string, string, string))
  {
    var parts := Split(kind, '.');
    (parts[0],
     if |parts| > 1 then parts[1] else "undefined",
     if |parts| > 2 then parts[2] else "undefined")
  }

  /**
   * `WebTileMapLayer.initialize(kind, options)`: an unknown provider or map
   * group is a property read on `undefined` (a `TypeError`), as are absent
   * options; an unknown map type leaves the template `undefined`. Unless
   * `proxy` is set the provider's prefix, or `proxyUrl` when given, goes in
   * front; the provider's suffix, when it has one, goes at the end.
   */
  function WebTileSource(kind: string, options: Option<WebOptions>): (r: Result<TileSource>)
    ensures NameParts(kind).0 !in Providers ==> r == Throw(TypeError)
    ensures r.Ok? ==> r.value.subdomains == Providers[NameParts(kind).0].subdomains
  {
    var (providerName, mapName, mapType) := NameParts(kind);
    if providerName !in Providers then Throw(TypeError)
    else
      var p := Providers[providerName];
      if mapName !in p.maps then Throw(TypeError)
      else if options.None? then Throw(TypeError)
      else
        var template := if mapType in p.maps[mapName] then Some(p.maps[mapName][mapType]) else None;
        var hosted :=
          if !options.value.proxy then
            Some((if options.value.proxyUrl != "" then options.value.proxyUrl else p.prefix) + UrlText(template))
          else template;
        var url := if p.suffix != "" then Some(UrlText(hosted) + p.suffix) else hosted;
        Ok(TileSource(url, p.subdomains))
  }

  /** For a listed map, the URL is the host (the prefix or `proxyUrl`), the template, then the suffix. */
  lemma WebTileSourceListed(kind: string, proxyUrl: string)
    requires var (pn, mn, mt) := NameParts(kind);
      pn in Providers && mn in Providers[pn].maps && mt in Providers[pn].maps[mn]
    ensures var (pn, mn, mt) := NameParts(kind);
      var p := Providers[pn];
      WebTileSource(kind, Some(WebOptions(false, proxyUrl))) ==
        Ok(TileSource(Some((if proxyUrl != "" then proxyUrl else p.prefix) + p.maps[mn][mt] + p.suffix), p.subdomains))
  {
    var (pn, mn, mt) := NameParts(kind);
    var p := Providers[pn];
    var u := (if proxyUrl != "" then proxyUrl else p.prefix) + p.maps[mn][mt];
    assert u + "" == u;
  }

  /** Behind a proxy there is no host: the URL is the template and the suffix alone. */
  lemma WebTileSourceProxied(kind: string, proxyUrl: string)
    requires var (pn, mn, mt) := NameParts(kind);
      pn in Providers && mn in Providers[pn].maps && mt in Providers[pn].maps[mn]
    ensures var (pn, mn, mt) := NameParts(kind);
      var p := Providers[pn];
      WebTileSource(kind, Some(WebOptions(true, proxyUrl))) ==
        Ok(TileSource(Some(p.maps[mn][mt] + p.suffix), p.subdomains))
  {
    var (pn, mn, mt) := NameParts(kind);
    var p := Providers[pn];
    assert p.maps[mn][mt] + "" == p.maps[mn][mt];
  }

  /**
   * An unlisted map type of a listed group does not fail: the word
   * "undefined" ends up inside the URL.
   */
  lemma WebTileSourceUnknownType(kind: string)
    requires var (pn, mn, mt) := NameParts(kind);
      pn in Providers && mn in Providers[pn].maps && mt !in Providers[pn].maps[mn]
    ensures var (pn, mn, mt) := NameParts(kind);
      var p := Providers[pn];
      WebTileSource(kind, Some(WebOptions(false, ""))) ==
        Ok(TileSource(Some(p.prefix + "undefined" + p.suffix), p.subdomains))
  {
    var (pn, mn, mt) := NameParts(kind);
    var p := Providers[pn];
    assert p.prefix + "undefined" + "" == p.prefix + "undefined";
  }

  /** Only the first three dot-separated parts of the name matter. */
  lemma ExtraNamePartsIgnored(a: string, b: string, c: string, rest: string)
    requires '.' !in a && '.' !in b && '.' !in c
    ensures NameParts(a + "." + b + "." + c + "." + rest) == (a, b, c)
  {
    var s1 := c + "." + rest;
    var s2 := b + "." + s1;
    var s3 := a + "." + s2;
    SplitAppend(c, '.', rest);
    SplitAppend(b, '.', s1);
    SplitAppend(a, '.', s2);
    assert Split(s3, '.') == [a, b, c] + Split(rest, '.');
    assert a + "." + b + "." + c + "." + rest == s3;
  }

  /** A name of exactly three parts names them. */
  lemma ThreePartName(a: string, b: string, c: string)
    requires '.' !in a && '.' !in b && '.' !in c
    ensures NameParts(a + "." + b + "." + c) == (a, b, c)
  {
    var s2 := b + "." + c;
    var s3 := a + "." + s2;
    SplitNoSeparator(c, '.');
    SplitAppend(b, '.', c);
    SplitAppend(a, '.', s2);
    assert Split(s3, '.') == [a, b, c];
    assert a + "." + b + "." + c == s3;
  }

  // ---------------------------------------------------------------------
  // L.Util.template

  /** The characters of `[\w_ -]`. */
  predicate KeyChar(c: char)
  {
    'a' <= c <= 'z' || 'A' <= c <= 'Z' || '0' <= c <= '9' || c == '_' || c == ' ' || c == '-'
  }

  /** The length of the longest prefix of `s` made of key characters. */
  function KeyRun(s: string): (n: nat)
    ensures n <= |s|
    ensures forall k :: 0 <= k < n ==> KeyChar(s[k])
    ensures n < |s| ==> !KeyChar(s[n])
  {
    if |s| == 0 || !KeyChar(s[0]) then 0 else 1 + KeyRun(s[1..])
  }

  /** The key captured by `\{ *([\w_ -]+) *\}`: leading spaces go to ` *` while a character remains. */
  function TemplateKey(run: string): (key: string)
    requires |run| > 0
    ensures 0 < |key| <= |run|
    ensures key == run[|run| - |key|..]
  {
    if run[0] == ' ' && |run| > 1 then TemplateKey(run[1..]) else run
  }

  /**
   * The length of the key run when `s` starts with a placeholder
   * `{` key-characters `}`.
   */
  function PlaceholderAt(s: string): (n: Option<nat>)
    ensures n.Some? ==> 0 < n.value && n.value + 2 <= |s|
  {
    if |s| == 0 || s[0] != '{' then None
    else
      var n := KeyRun(s[1..]);
      if 0 < n && n + 1 < |s| && s[n + 1] == '}' then Some(n) else None
  }

  /**
   * `L.Util.template(s, data)`: every `{key}` is replaced by `data[key]`,
   * from left to right; the first key without a value throws.
   */
  function Expand(s: string, data: map<string, string>): (r: Result<string>)
    decreases |s|
  {
    if |s| == 0 then Ok("")
    else
      match PlaceholderAt(s)
      case Some(n) =>
        var key := TemplateKey(s[1..n + 1]);
        if key in data then Prepend(data[key], Expand(s[n + 2..], data))
        else Throw(Thrown(MissingValueMessage(s[..n + 2])))
      case None => Prepend([s[0]], Expand(s[1..], data))
  }

  function MissingValueMessage(placeholder: string): string
  {
    "No value provided for variable " + placeholder
  }

  /** Prepending `a` to a successful expansion. */
  function Prepend(a: string, r: Result<string>): Result<string>
  {
    match r
    case Ok(t) => Ok(a + t)
    case Throw(e) => Throw(e)
  }

  /** Text without `{` passes through unchanged. */
  lemma {:induction false} ExpandPlain(a: string, b: string, data: map<string, string>)
    requires '{' !in a
    ensures Expand(a + b, data) == Prepend(a, Expand(b, data))
    decreases |a|
  {
    if |a| > 0 {
      assert (a + b)[1..] == a[1..] + b;
      assert (a + b)[0] == a[0];
      ExpandPlain(a[1..], b, data);
      assert a == [a[0]] + a[1..];
      match Expand(b, data)
      case Ok(t) =>
        assert [a[0]] + (a[1..] + t) == a + t;
      case Throw(e) =>
    } else {
      assert a + b == b;
      PrependEmpty(Expand(b, data));
    }
  }

  lemma PrependEmpty(r: Result<string>)
    ensures Prepend("", r) == r
  {
    if r.Ok? {
      assert "" + r.value == r.value;
    }
  }

  /** A placeholder whose key has a value is replaced by it. */
  lemma ExpandPlaceholder(key: string, b: string, data: map<string, string>)
    requires |key| > 0 && key[0] != ' ' && forall k :: 0 <= k < |key| ==> KeyChar(key[k])
    requires key in data
    ensures Expand("{" + key + "}" + b, data) == Prepend(data[key], Expand(b, data))
  {
    var s := "{" + key + "}" + b;
    PlaceholderOf(key, b);
    assert s[1..|key| + 1] == key;
    assert TemplateKey(key) == key;
    assert s[|key| + 2..] == b;
    assert |s| > 0;
    assert Expand(s, data) == Prepend(data[key], Expand(s[|key| + 2..], data));
  }

  lemma PlaceholderOf(key: string, b: string)
    requires |key| > 0 && forall k :: 0 <= k < |key| ==> KeyChar(key[k])
    ensures PlaceholderAt("{" + key + "}" + b) == Some(|key|)
  {
    var s := "{" + key + "}" + b;
    KeyRunStops(key, b);
    assert s[1..] == key + "}" + b;
  }

  lemma KeyRunStops(key: string, b: string)
    requires forall k :: 0 <= k < |key| ==> KeyChar(key[k])
    ensures KeyRun(key + "}" + b) == |key|
    decreases |key|
  {
    if |key| > 0 {
      assert (key + "}" + b)[1..] == key[1..] + "}" + b;
      KeyRunStops(key[1..], b);
    }
  }

  /** A placeholder with no value throws, naming the placeholder. */
  lemma ExpandMissingKey(key: string, b: string, data: map<string, string>)
    requires |key| > 0 && key[0] != ' ' && forall k :: 0 <= k < |key| ==> KeyChar(key[k])
    requires key !in data
    ensures Expand("{" + key + "}" + b, data) == Throw(Thrown(MissingValueMessage("{" + key + "}")))
  {
    var s := "{" + key + "}" + b;
    var n := |key|;
    PlaceholderOf(key, b);
    assert s[1..n + 1] == key;
    assert s[..n + 2] == "{" + key + "}";
  }
  // ---------------------------------------------------------------------
  // FileTileMapLayer

  /** The URL template `url + '/{z}/{x}/{y}.' + options.extension`. */
  function FileTileTemplate(url: string, extension: Option<string>): string
  {
    url + "/{z}/{x}/{y}." + UrlText(extension)
  }

  /** `'L' + tileFileUrlFormat(z + '', 2)`. */
  function LevelName(z: nat): string
  {
    "L" + LeftPad(Decimal(z), 2, '0')
  }

  /** `'R' + tileFileUrlFormat(y.toString(16).toUpperCase(), 8)`: the row. */
  function RowName(y: nat): string
  {
    "R" + LeftPad(ToUpper(Hex(y)), 8, '0')
  }

  /** `'C' + tileFileUrlFormat(x.toString(16).toUpperCase(), 8)`: the column. */
  function ColumnName(x: nat): string
  {
    "C" + LeftPad(ToUpper(Hex(x)), 8, '0')
  }

  /**
   * `FileTileMapLayer.getTileUrl`: the template placeholder `{x}` receives
   * the row name (from the tile's y) and `{y}` the column name (from its
   * x); the subdomain Leaflet picks is a parameter.
   */
  function FileTileUrl(template: string, subdomain: string, x: nat, y: nat, z: nat): Result<string>
  {
    Expand(template, map["s" := subdomain, "z" := LevelName(z), "x" := RowName(y), "y" := ColumnName(x)])
  }

  /**
   * A file tile of a plain base URL and extension is found at
   * `url/L<zoom>/R<row>/C<column>.<extension>`.
   */
  lemma FileTileUrlPath(url: string, extension: string, subdomain: string, x: nat, y: nat, z: nat)
    requires '{' !in url && '{' !in extension
    ensures FileTileUrl(FileTileTemplate(url, Some(extension)), subdomain, x, y, z) ==
      Ok(url + "/" + LevelName(z) + "/" + RowName(y) + "/" + ColumnName(x) + "." + extension)
  {
    var data := map["s" := subdomain, "z" := LevelName(z), "x" := RowName(y), "y" := ColumnName(x)];
    TilePathTemplate(url, extension, data);
  }

  /** `url/{z}/{x}/{y}.ext` expands to the three values in that order. */
  lemma TilePathTemplate(url: string, extension: string, data: map<string, string>)
    requires '{' !in url && '{' !in extension
    requires "z" in data && "x" in data && "y" in data
    ensures Expand(url + "/{z}/{x}/{y}." + extension, data) ==
      Ok(url + "/" + data["z"] + "/" + data["x"] + "/" + data["y"] + "." + extension)
  {
    var t3 := "." + extension;
    ExpandPlainStep(t3, "", data, "");
    assert t3 + "" == t3;
    var t2 := "/" + ("{" + "y" + "}" + t3);
    var o2 := "/" + (data["y"] + t3);
    SlashKeyStep("y", t3, data, t3);
    var t1 := "/" + ("{" + "x" + "}" + t2);
    var o1 := "/" + (data["x"] + o2);
    SlashKeyStep("x", t2, data, o2);
    var t0 := "/" + ("{" + "z" + "}" + t1);
    var o0 := "/" + (data["z"] + o1);
    SlashKeyStep("z", t1, data, o1);
    ExpandPlainStep(url, t0, data, o0);
    TilePathLiteral(url, extension);
    TilePathOutput(url, extension, data["z"], data["x"], data["y"]);
  }

  lemma SlashKeyStep(key: string, b: string, data: map<string, string>, out: string)
    requires |key| == 1 && KeyChar(key[0]) && key[0] != ' '
    requires key in data
    requires Expand(b, data) == Ok(out)
    ensures Expand("/" + ("{" + key + "}" + b), data) == Ok("/" + (data[key] + out))
  {
    ExpandKeyStep(key, b, data, out);
    ExpandPlainStep("/", "{" + key + "}" + b, data, data[key] + out);
  }

  lemma TilePathOutput(url: string, extension: string, z: string, x: string, y: string)
    ensures url + ("/" + (z + ("/" + (x + ("/" + (y + ("." + extension))))))) ==
      url + "/" + z + "/" + x + "/" + y + "." + extension
  {
  }

  lemma TilePathLiteral(url: string, extension: string)
    ensures url + "/{z}/{x}/{y}." + extension ==
      url + ("/" + ("{" + "z" + "}" + ("/" + ("{" + "x" + "}" + ("/" + ("{" + "y" + "}" + ("." + extension)))))))
  {
  }

  lemma ExpandPlainStep(a: string, b: string, data: map<string, string>, out: string)
    requires '{' !in a
    requires Expand(b, data) == Ok(out)
    ensures Expand(a + b, data) == Ok(a + out)
  {
    ExpandPlain(a, b, data);
  }

  lemma ExpandKeyStep(key: string, b: string, data: map<string, string>, out: string)
    requires |key| == 1 && KeyChar(key[0]) && key[0] != ' '
    requires key in data
    requires Expand(b, data) == Ok(out)
    ensures Expand("{" + key + "}" + b, data) == Ok(data[key] + out)
  {
    ExpandPlaceholder(key, b, data);
  }
  lemma LowerUpperHex(h: string)
    requires AllDigits(h, 16)
    ensures ToLower(ToUpper(h)) == h
  {
  }

  /** Padding with zeros commutes with lower-casing. */
  lemma LowerLeftPad(s: string, n: nat)
    ensures ToLower(LeftPad(s, n, '0')) == LeftPad(ToLower(s), n, '0')
  {
    if |s| < n {
      var p := Repeat('0', n - |s|);
      assert ToLower(p + s) == p + ToLower(s);
    }
  }

  /** The hex digits of a row or column name read back as that number. */
  lemma HexNameRoundTrip(n: nat)
    ensures var name := "R" + LeftPad(ToUpper(Hex(n)), 8, '0');
      ParseDigits(ToLower(name[1..]), 16) == n
    ensures n < 0x1_0000_0000 ==> |LeftPad(ToUpper(Hex(n)), 8, '0')| == 8
  {
    var name := "R" + LeftPad(ToUpper(Hex(n)), 8, '0');
    assert name[1..] == LeftPad(ToUpper(Hex(n)), 8, '0');
    LowerLeftPad(ToUpper(Hex(n)), 8);
    LowerUpperHex(Hex(n));
    ParseDigitsLeftPad(Hex(n), 8, 16);
    ParseDigitsOfDigits(n, 16);
    if n < 0x1_0000_0000 {
      HexLength(n, 8);
    }
  }

  /** Distinct rows (or columns) get distinct names; so do distinct zoom levels. */
  lemma TileNamesInjective(a: nat, b: nat)
    ensures RowName(a) == RowName(b) ==> a == b
    ensures ColumnName(a) == ColumnName(b) ==> a == b
    ensures LevelName(a) == LevelName(b) ==> a == b
  {
    HexNameRoundTrip(a);
    HexNameRoundTrip(b);
    if RowName(a) == RowName(b) {
      assert RowName(a)[1..] == RowName(b)[1..];
    }
    if ColumnName(a) == ColumnName(b) {
      assert ColumnName(a)[1..] == RowName(a)[1..];
      assert ColumnName(b)[1..] == RowName(b)[1..];
    }
    if LevelName(a) == LevelName(b) {
      assert LevelName(a)[1..] == LeftPad(Decimal(a), 2, '0');
      assert LevelName(b)[1..] == LeftPad(Decimal(b), 2, '0');
      ParseDigitsLeftPad(Decimal(a), 2, 10);
      ParseDigitsLeftPad(Decimal(b), 2, 10);
      ParseDigitsOfDigits(a, 10);
      ParseDigitsOfDigits(b, 10);
    }
  }
}
