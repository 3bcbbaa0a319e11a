# Weather-layer map toolkit, modelled in Dafny

The repository is a Leaflet front end made of three pieces.

- `L.cqkj`, a weather-layers plugin (`src/leaflet/plugin/weatherlayers-src-0.1.0.js`), provides:
  - `InitMap`, a map with a registry of layers found by id;
  - web-tile and file-tile layers;
  - Windy, the wind-particle animation;
  - grid layers that label values and wind barbs on a lon/lat grid;
  - a marker-collision group;
  - colour, data, wind, scale, geometry and coordinate utilities.
- `aliveIndex.js` is an application wrapper for several named maps at once. It has a `Util` of small helpers, a `layerUtil` registry of named layer groups per map, `handleLayer` as a command dispatcher, panes and marker events.
- `index.js` is the same wrapper for one map. Its `Util` is a copy of the `aliveIndex.js` one, and its `layerUtil` differs in small ways: `get` returns `null`, `add` returns `true`, and the group table is created lazily.

Pure code is modelled as datatypes, functions and lemmas:
- the utilities;
- tile URL composition;
- grid reshaping and interpolation;
- wind levels and names;
- colour conversion;
- the scale's nice numbers.

Code that updates objects in place is modelled as classes whose methods carry `modifies` clauses:
- the `InitMap` layer list;
- the two `layerUtil` registries;
- markers;
- the collision group;
- the grid layers' state and draw loops;
- Windy's field and particle arrays.

Each method that changes state either states its whole new state or is proved to return and leave exactly what a specification function of the old state gives; lemmas state the properties of those functions (validity kept, idempotence, undoing, reading back).

Modules:

| module | file | what it covers |
|---|---|---|
| `Wrappers` | wrappers.dfy | `Option` and `Result`: a `Result` is either a value or the error a JavaScript call throws |
| `JsMath`, `JsValues`, `Text` | js_math.dfy, js_values.dfy, text.dfy | `Math.round`/`Math.ceil`, `typeof`, truthiness, `||`, property reads, loose `==`, decimal and hexadecimal digits, padding, `split`/`join` |
| `AppUtil` | app_util.dfy | the `Util` object shared by `aliveIndex.js` and `index.js` |
| `LayerGroups`, `AliveMaps`, `SingleMap` | layer_groups.dfy | panes, `layerUtil` and `handleLayer` of the two wrappers |
| `Markers` | markers.dfy | `bindMarkerEvent` |
| `InitMapModel` | init_map.dfy | `L.cqkj.InitMap` |
| `TileLayers` | tile_layers.dfy | `WebTileMapLayer` and `FileTileMapLayer` URLs |
| `WindyGrid`, `WindyField` | windy_grid.dfy, windy_field.dfy | Windy's grid, interpolation, field and particle evolution |
| `GridLayers` | grid_layers.dfy | `GridValueLayer` and `WindGridLayer` |
| `WindUtil`, `ColorUtil`, `DataUtil` | wind_util.dfy, color_util.dfy, data_util.dfy | the plugin's utility objects |
| `Collision` | collision.dfy | `L.LayerGroup.Collision` |
| `Scale`, `Geometry`, `Coordinates` | scale.dfy, geometry.dfy, coordinates.dfy | `_getRoundNum`, `Util.contain`, `CoordinateUtil` |

Numbers are exact reals or unbounded integers. Where JavaScript's `Math.round`, `Math.floor`, `>>>`, `toString(16)` or `toFixed` matter, they are written out.

## Model

| member | source | states |
|---|---|---|
| JsMath.Round | src/leaflet/aliveIndex.js:17 | `Math.round`: the nearest integer, halves rounded up (x - 1/2 < r <= x + 1/2) |
| JsMath.RoundShift | src/leaflet/aliveIndex.js:17 | rounding commutes with adding an integer |
| JsMath.RoundMonotone | src/leaflet/aliveIndex.js:17 | rounding keeps order |
| JsMath.Ceil | src/leaflet/plugin/weatherlayers-src-0.1.0.js:1133-1134 | `Math.ceil`: the least integer not below x |
| JsValues.TypeOf | src/leaflet/aliveIndex.js:44-48 | `typeof`: "object" exactly for null, arrays and objects; "number" exactly for numbers and NaN; "string" and "function" likewise |
| JsValues.Or | src/leaflet/aliveIndex.js:36 | `a \|\| b` is `a` when `a` is truthy and `b` otherwise |
| JsValues.Truthy | src/leaflet/aliveIndex.js:36 | JavaScript truthiness: false exactly for undefined, null, false, 0, NaN and the empty string (the definition that `\|\|` and the `&&` guards use) |
| JsValues.IndexKey | src/leaflet/aliveIndex.js:36 | a key read as an array index is the canonical decimal of that index |
| JsValues.GetArrayIndex | src/leaflet/aliveIndex.js:36 | reading index k (as its decimal key) of an array gives its k-th item |
| JsValues.GetArrayNamedKey | src/leaflet/aliveIndex.js:36 | a key that does not start with a digit, such as `lat`, reads undefined on an array |
| JsValues.CanonicalDigits | src/leaflet/aliveIndex.js:36 | a digit string without a leading zero is the decimal of its own value, so only canonical keys index an array |
| JsValues.ToNumber | src/leaflet/plugin/weatherlayers-src-0.1.0.js:295 | `Number(s)`, which loose `==` applies to a string: white space trimmed, the empty string 0, `0x`/`0o`/`0b` literals in their base, else an optional sign and a decimal mantissa with an optional exponent; anything else NaN |
| JsValues.TrimEndKeepsStart | src/leaflet/plugin/weatherlayers-src-0.1.0.js:295 | trimming the end keeps a string's first non-blank character |
| JsValues.DecimalLiteralPlain | src/leaflet/plugin/weatherlayers-src-0.1.0.js:295 | a decimal literal without an exponent is its mantissa |
| JsValues.ToNumberPlain | src/leaflet/plugin/weatherlayers-src-0.1.0.js:295 | on digits, '.' and '-', `Number` is an optional minus before an unsigned decimal |
| JsValues.ToNumberForms | src/leaflet/plugin/weatherlayers-src-0.1.0.js:295 | `" 1"`, `"+1"`, `"1.0"`, `"1e0"` and `"0x1"` all convert to 1; `"1e"` converts to NaN |
| JsValues.ToNumberDecimal | src/leaflet/plugin/weatherlayers-src-0.1.0.js:295 | the decimal string of a natural number, with or without a minus sign, converts to that number |
| JsValues.LooseEq | src/leaflet/plugin/weatherlayers-src-0.1.0.js:295 | loose `==`: nullish values match only each other, NaN matches nothing, a string against a number compares `Number(string)`, booleans compare as 0 and 1 |
| JsValues.LooseEqSymmetric | src/leaflet/plugin/weatherlayers-src-0.1.0.js:295 | loose `==` is symmetric |
| JsValues.UndefinedMatchesOnlyNullish | src/leaflet/plugin/weatherlayers-src-0.1.0.js:295 | `undefined == v` holds exactly for undefined and null |
| JsValues.NumberNeverUndefined | src/leaflet/plugin/weatherlayers-src-0.1.0.js:295 | a number is never loosely equal to undefined |
| JsValues.DecimalMatchesNumber | src/leaflet/plugin/weatherlayers-src-0.1.0.js:295 | a string id spelling a number loosely equals that number |
| Text.DigitChar | src/leaflet/plugin/weatherlayers-src-0.1.0.js:446 | the digit character of a value below the base reads back as that value |
| Text.Digits | src/leaflet/plugin/weatherlayers-src-0.1.0.js:446 | `toString(base)` of a natural number: non-empty, all digits of the base |
| Text.DigitsCanonical | src/leaflet/plugin/weatherlayers-src-0.1.0.js:446 | no leading zero unless the number is 0 |
| Text.ParseDigitsOfDigits | src/leaflet/plugin/weatherlayers-src-0.1.0.js:446 | the digits of n read back as n in every base |
| Text.DigitsInjective | src/leaflet/plugin/weatherlayers-src-0.1.0.js:446 | different numbers print differently |
| Text.ParseIntToString | src/leaflet/plugin/weatherlayers-src-0.1.0.js:442 | the decimal string of an integer reads back as the integer |
| Text.IntToStringInjective | src/leaflet/plugin/weatherlayers-src-0.1.0.js:442 | different integers print differently |
| Text.Repeat | src/leaflet/plugin/weatherlayers-src-0.1.0.js:3106-3113 | n copies of one character |
| Text.PadZeros | src/leaflet/plugin/weatherlayers-src-0.1.0.js:3106-3113 | the `while (len < n)` loop of `tileFileUrlFormat`: the result has length max(\|s\|, n), ends with s and is s left-padded with '0' |
| Text.ParseDigitsLeftPad | src/leaflet/plugin/weatherlayers-src-0.1.0.js:3106-3113 | leading zeros do not change the value read back |
| Text.ToUpper | src/leaflet/aliveIndex.js:347 | `toUpperCase` on ASCII: same length, lower-case letters raised, everything else kept |
| Text.ToLower | src/leaflet/plugin/weatherlayers-src-0.1.0.js:446 | `toLowerCase` on ASCII, the mirror of ToUpper |
| Text.Split | src/leaflet/plugin/weatherlayers-src-0.1.0.js:405-420 | `split(sep)`: the parts hold no separator |
| Text.JoinSplit | src/leaflet/plugin/weatherlayers-src-0.1.0.js:405-420 | joining the parts with the separator gives the string back |
| Text.SplitAppend | src/leaflet/plugin/weatherlayers-src-0.1.0.js:405-420 | splitting `a + sep + b` with no separator in `a` gives `a` followed by the parts of `b` |
| Text.HexLength | src/leaflet/plugin/weatherlayers-src-0.1.0.js:446 | a number below 16^k has at most k hexadecimal digits |
| Text.ParseHexAppend | src/leaflet/plugin/weatherlayers-src-0.1.0.js:2125-2137 | reading `a + b` in hexadecimal is a's value times 16^\|b\| plus b's |
| AppUtil.DmsOf | src/leaflet/aliveIndex.js:13-19 | degrees, minutes and seconds of \|v\|: deg is the floor of \|v\|, min the floor of the fraction times 60 (so at most 59), sec <= 60, and 3600 deg + 60 min + sec is \|v\|·3600 rounded |
| AppUtil.FormatUtil | src/leaflet/aliveIndex.js:13-19 | the text splits at '°', `'` and '"' into three numerals that read back as DmsOf's degrees, minutes and seconds, with nothing after the final '"' |
| AppUtil.SplitAtMarks | src/leaflet/aliveIndex.js:17 | numerals joined by '°', `'` and '"' split back into those numerals |
| AppUtil.FormatUtilIgnoresSign | src/leaflet/aliveIndex.js:14 | v and -v format alike |
| AppUtil.FormatUtilPrintsSixtySeconds | src/leaflet/aliveIndex.js:13-19 | as written, 0.99999 formats as `0°59'60"` (see Findings) |
| AppUtil.DmsCarried | src/leaflet/aliveIndex.js:13-19 | corrected split: seconds below 60 carried into minutes and degrees, same total |
| AppUtil.DmsCarriedAgrees | src/leaflet/aliveIndex.js:13-19 | whenever the written split's seconds are below 60, the corrected split equals it |
| AppUtil.CheckMarkerEvent | src/leaflet/aliveIndex.js:25-29 | `checkMarkerEvent`: a string whose text is one of the eight marker event names |
| AppUtil.CheckMarkerEventExactly | src/leaflet/aliveIndex.js:25-29 | true exactly for a string among the eight marker event names |
| AppUtil.CheckLatLng | src/leaflet/aliveIndex.js:44-48 | throws exactly on null; false for every value whose typeof is not "object"; true only for an object |
| AppUtil.CheckLatLngArray | src/leaflet/aliveIndex.js:44-48 | an array whose first two items are numbers passes, zeros included |
| AppUtil.CheckLatLngObject | src/leaflet/aliveIndex.js:44-48 | `{lat, lng}` and `{lat, lon}` of numbers pass exactly when both are non-zero |
| AppUtil.FormatLatLng | src/leaflet/aliveIndex.js:35-38 | throws exactly on undefined and null; a result has two non-zero numbers; null when a part is not a truthy number |
| AppUtil.FormatLatLngArray | src/leaflet/aliveIndex.js:35-38 | `[lat, lng]` of numbers is accepted exactly when both are non-zero |
| AppUtil.FormatLatLngObject | src/leaflet/aliveIndex.js:35-38 | `{lat, lng}` or `{lat, lon}` of numbers is accepted exactly when both are non-zero |
| AppUtil.FormatLatLngRejectsEquator | src/leaflet/aliveIndex.js:36 | as written, `[0, 116.4]` gives null (see Findings) |
| AppUtil.FormatLatLngByType | src/leaflet/aliveIndex.js:35-38 | corrected version: throws exactly on undefined and null, like the written one |
| AppUtil.FormatLatLngByTypeAcceptsAll | src/leaflet/aliveIndex.js:35-38 | corrected version accepts every pair of numbers, zero included |
| AppUtil.FormatLatLngByTypeExtends | src/leaflet/aliveIndex.js:35-38 | where the written version accepts, the corrected one gives the same pair |
| AppUtil.WindNameByAngle | src/leaflet/aliveIndex.js:74-103 | `GetWindDStringByAngle`: a name for exactly 0/360, 90, 180 and 270 degrees and for each open sector between the edges 22.5 + 45k, the opposite direction's name with `reverse`, "" on the edges themselves |
| AppUtil.WindNameEmptyOnlyOnEdges | src/leaflet/aliveIndex.js:74-103 | `GetWindDStringByAngle` returns "" exactly on the eight sector edges its strict comparisons leave out |
| AppUtil.WindNameReverseIsOpposite | src/leaflet/aliveIndex.js:74-103 | with `reverse`, the name for angle a is the plain name of the opposite angle |
| AppUtil.NumArray.constructor | src/leaflet/aliveIndex.js:109 | an array object holding exactly the given numbers |
| AppUtil.SortedJoin | src/leaflet/aliveIndex.js:124 | sorted left, pivot, sorted right with left < pivot <= right is sorted |
| AppUtil.PermutationKeepsBounds | src/leaflet/aliveIndex.js:124 | a permutation keeps every element's bound |
| AppUtil.QuickSort | src/leaflet/aliveIndex.js:109-125 | the result is sorted and a permutation of the input; for more than one element the argument array loses its middle element (the `splice`) |
| AppUtil.Partition | src/leaflet/aliveIndex.js:115-123 | left and right together are the rest as a multiset; left < pivot <= right |
| AppUtil.Uniq | src/leaflet/aliveIndex.js:131-139 | the result is Dedup of the input: no duplicates and the same members |
| AppUtil.DedupNoDuplicates | src/leaflet/aliveIndex.js:131-139 | no value occurs twice |
| AppUtil.DedupSameElements | src/leaflet/aliveIndex.js:131-139 | the same set of values as the input |
| AppUtil.DedupMember | src/leaflet/aliveIndex.js:134 | every value kept occurs in the input |
| AppUtil.FirstIndex | src/leaflet/aliveIndex.js:134 | `indexOf` of a present value: a position holding it with no earlier one |
| AppUtil.DedupKeepsFirstOccurrenceOrder | src/leaflet/aliveIndex.js:131-139 | values appear in the order of their first occurrences |
| AppUtil.FirstIndexPrefix | src/leaflet/aliveIndex.js:134 | the first index in a prefix is the first index in the whole |
| AppUtil.FirstIndexUnique | src/leaflet/aliveIndex.js:134 | different present values have different first indices |
| LayerGroups.PaneName | src/leaflet/aliveIndex.js:442 | the pane name starts with `customer-pane-` |
| LayerGroups.CreatePane | src/leaflet/aliveIndex.js:441-450 | returns the pane name; the panes are the old ones plus that name, which has the z-index; existing panes keep theirs; layer groups untouched |
| LayerGroups.PaneNameInjective | src/leaflet/aliveIndex.js:442 | different z-indices name different panes |
| LayerGroups.CreatePaneIdempotent | src/leaflet/aliveIndex.js:445 | creating the same pane twice is creating it once |
| LayerGroups.Toggle | src/leaflet/aliveIndex.js:177-188 | the group's presence on the map flips and nothing else changes |
| LayerGroups.ToggleTwice | src/leaflet/aliveIndex.js:177-188 | switching twice restores the map |
| LayerGroups.Command | src/leaflet/aliveIndex.js:346-347 | `type \|\| 'NEW'` upper-cased: never empty, no lower-case letter, "NEW" for an empty type, otherwise as long as the type |
| LayerGroups.CommandIdempotent | src/leaflet/aliveIndex.js:346-347 | a command passed back as the type selects the same command |
| LayerGroups.CommandIgnoresCase | src/leaflet/aliveIndex.js:346-347 | the type's letter case does not change the command |
| AliveMaps.SessionValidGrows | src/leaflet/aliveIndex.js:148-153 | registering more groups keeps every map's table valid |
| AliveMaps.RegisterKeepsValid | src/leaflet/aliveIndex.js:148-153 | adding a fresh group under a new name keeps the table valid |
| AliveMaps.AttachKeepsValid | src/leaflet/aliveIndex.js:154-160 | attaching registered groups keeps the table valid |
| AliveMaps.CreateIn | src/leaflet/aliveIndex.js:148-153 | TypeError and no change for an unknown map; a registered name returns its group and changes nothing; a new name registers the next group with no layers, every other name, map and pane unchanged |
| AliveMaps.CreateKeepsValid | src/leaflet/aliveIndex.js:148-153 | create keeps every table valid |
| AliveMaps.CreateMakesNewGroup | src/leaflet/aliveIndex.js:148-153 | a group made for a new name is registered nowhere yet |
| AliveMaps.CreateIdempotent | src/leaflet/aliveIndex.js:148-153 | creating the same name again returns the same group and changes nothing |
| AliveMaps.AddIn | src/leaflet/aliveIndex.js:154-160 | create's result; on success the group joins the map's groups and everything else is create's new state |
| AliveMaps.AddKeepsValid | src/leaflet/aliveIndex.js:154-160 | add keeps every table valid |
| AliveMaps.AddIdempotent | src/leaflet/aliveIndex.js:154-160 | adding twice is adding once |
| AliveMaps.RemoveIn | src/leaflet/aliveIndex.js:164-173 | TypeError for an unknown map; true exactly for a registered name, and then only that group leaves the map; otherwise nothing changes |
| AliveMaps.RemoveKeepsValid | src/leaflet/aliveIndex.js:164-173 | remove keeps every table valid |
| AliveMaps.RemoveUndoesAdd | src/leaflet/aliveIndex.js:154-173 | removing what was just added takes it off the map and keeps it registered |
| AliveMaps.SwitchIn | src/leaflet/aliveIndex.js:177-188 | TypeError for an unknown map; true exactly for a registered name, and then only that group is toggled on the map; otherwise nothing changes |
| AliveMaps.SwitchKeepsValid | src/leaflet/aliveIndex.js:177-188 | switch keeps every table valid |
| AliveMaps.SwitchTwice | src/leaflet/aliveIndex.js:177-188 | switching twice restores the whole state |
| AliveMaps.ClearIn | src/leaflet/aliveIndex.js:161-163 | TypeError for an unknown map; a registered group loses its layers; an unregistered name changes nothing |
| AliveMaps.ClearKeepsValid | src/leaflet/aliveIndex.js:161-163 | clear keeps every table valid |
| AliveMaps.ClearAllIn | src/leaflet/aliveIndex.js:361-369 | TypeError for an unknown map; every group registered for the map loses its layers, all other groups keep theirs |
| AliveMaps.ClearAllKeepsValid | src/leaflet/aliveIndex.js:361-369 | CLEARALL keeps every table valid |
| AliveMaps.ClearAfterClearAll | src/leaflet/aliveIndex.js:161-163 | after CLEARALL, clearing a registered name of that map changes nothing |
| AliveMaps.HandleIn | src/leaflet/aliveIndex.js:345-371 | the command picks the call: NEW, ADD, REMOVE, SWITCH, CLEAR, CLEARALL leave exactly that call's state; GET changes nothing; NEW and ADD return the group, GET the group or undefined, SWITCH whether the name is registered, the rest undefined; an unknown command does nothing; TypeError exactly for an unknown map |
| AliveMaps.HandleKeepsValid | src/leaflet/aliveIndex.js:345-371 | every command keeps the tables valid |
| AliveMaps.HandleGetAfterNew | src/leaflet/aliveIndex.js:345-371 | `'get'` after `'new'` returns the group `'new'` returned |
| AliveMaps.Registry.constructor | src/leaflet/aliveIndex.js:196-208 | no maps, no groups |
| AliveMaps.Registry.Init | src/leaflet/aliveIndex.js:196-208 | the named map gets an empty table and an empty map |
| AliveMaps.Registry.Create | src/leaflet/aliveIndex.js:148-153 | result and new state are CreateIn's of the old state; the tables stay valid |
| AliveMaps.Registry.Add | src/leaflet/aliveIndex.js:154-160 | result and new state are AddIn's of the old state; the tables stay valid |
| AliveMaps.Registry.Get | src/leaflet/aliveIndex.js:174-176 | the registered group or undefined; TypeError for an unknown map |
| AliveMaps.Registry.Remove | src/leaflet/aliveIndex.js:164-173 | result and new state are RemoveIn's of the old state; the tables stay valid |
| AliveMaps.Registry.Switch | src/leaflet/aliveIndex.js:177-188 | result and new state are SwitchIn's of the old state; the tables stay valid |
| AliveMaps.Registry.Clear | src/leaflet/aliveIndex.js:161-163 | result and new state are ClearIn's of the old state; the tables stay valid |
| AliveMaps.Registry.ClearAll | src/leaflet/aliveIndex.js:361-369 | the loop over the map's groups leaves exactly ClearAllIn's state; the tables stay valid |
| AliveMaps.Registry.CreatePaneOn | src/leaflet/aliveIndex.js:441-450 | CreatePane on the named map |
| AliveMaps.Registry.AddToGroup | src/leaflet/aliveIndex.js:473-475 | a marker added to a group becomes its member |
| AliveMaps.Registry.HandleLayer | src/leaflet/aliveIndex.js:345-371 | result and new state are HandleIn's of the old state; the tables stay valid |
| SingleMap.CreateIn | src/leaflet/index.js:195-203 | never throws; the table exists afterwards and holds the name's group; a registered name changes nothing else; a new name gets the next group, every other name and the map unchanged |
| SingleMap.CreateKeepsValid | src/leaflet/index.js:195-203 | create keeps the state valid |
| SingleMap.CreateMakesNewGroup | src/leaflet/index.js:195-203 | a group made for a new name is not registered under another |
| SingleMap.CreateIdempotent | src/leaflet/index.js:195-203 | creating the same name again returns the same group and changes nothing |
| SingleMap.AddIn | src/leaflet/index.js:204-213 | TypeError exactly when there is no map, after the group is created; otherwise true and the group joins the map |
| SingleMap.AddKeepsValid | src/leaflet/index.js:204-213 | add keeps the state valid |
| SingleMap.AddIdempotent | src/leaflet/index.js:204-213 | adding twice is adding once |
| SingleMap.RemoveIn | src/leaflet/index.js:214-221 | TypeError without a table, or for a registered name without a map; false and no change for an unknown name; otherwise true and only that group leaves the map |
| SingleMap.RemoveKeepsValid | src/leaflet/index.js:214-221 | remove keeps the state valid |
| SingleMap.RemoveUndoesAdd | src/leaflet/index.js:204-221 | after `init`, removing what was just added takes it off the map and keeps it registered |
| SingleMap.GetIn | src/leaflet/index.js:222-228 | TypeError exactly without a table; null exactly for an unknown name; otherwise the group |
| SingleMap.SwitchIn | src/leaflet/index.js:234-245 | TypeError without a table, or for a registered name without a map; false and no change for an unknown name; otherwise true and only that group is toggled |
| SingleMap.SwitchKeepsValid | src/leaflet/index.js:234-245 | switch keeps the state valid |
| SingleMap.SwitchTwice | src/leaflet/index.js:234-245 | switching twice restores the whole state |
| SingleMap.HandleIn | src/leaflet/index.js:369-386 | NEW, ADD, REMOVE and SWITCH leave exactly that call's state and GET changes nothing; GET and SWITCH return their values, NEW, ADD and REMOVE undefined; other commands, CLEAR included, do nothing |
| SingleMap.HandleKeepsValid | src/leaflet/index.js:369-386 | every command keeps the state valid |
| SingleMap.HandleGetAfterNew | src/leaflet/index.js:369-386 | `'new'` returns undefined, yet a `'get'` after it finds the group it made |
| SingleMap.Registry.constructor | src/leaflet/index.js:194-203 | no table, no map |
| SingleMap.Registry.Init | src/leaflet/index.js:253-264 | the map exists |
| SingleMap.Registry.Create | src/leaflet/index.js:195-203 | returned group and new state are CreateIn's of the old state; the state stays valid |
| SingleMap.Registry.Add | src/leaflet/index.js:204-213 | result and new state are AddIn's of the old state; the state stays valid |
| SingleMap.Registry.Remove | src/leaflet/index.js:214-221 | result and new state are RemoveIn's of the old state; the state stays valid |
| SingleMap.Registry.Get | src/leaflet/index.js:222-228 | GetIn of the current state |
| SingleMap.Registry.Switch | src/leaflet/index.js:234-245 | result and new state are SwitchIn's of the old state; the state stays valid |
| SingleMap.Registry.CreatePaneOn | src/leaflet/index.js:415-424 | CreatePane on the map |
| SingleMap.Registry.HandleLayer | src/leaflet/index.js:369-386 | result and new state are HandleIn's of the old state; the state stays valid |
| Markers.Marker.constructor | src/leaflet/aliveIndex.js:471 | a marker holding exactly the given handlers |
| Markers.Supplied | src/leaflet/aliveIndex.js:518-521 | the handlers taken: own keys that are marker event names with a function value |
| Markers.Rebound | src/leaflet/aliveIndex.js:522-523 | `off` then `on`: each supplied event has exactly the new handler; other events keep theirs |
| Markers.BindMarkerEvent | src/leaflet/aliveIndex.js:516-529 | for an object, the handlers become Rebound(old, Supplied(event)); otherwise unchanged |
| Markers.ReboundIdempotent | src/leaflet/aliveIndex.js:516-529 | binding the same options twice is binding them once |
| InitMapModel.LooselyEqual | src/leaflet/plugin/weatherlayers-src-0.1.0.js:295 | `id == layer.id`: ids of one kind compare exactly, a number and a string through `Number(string)` |
| InitMapModel.LooselyEqualSymmetric | src/leaflet/plugin/weatherlayers-src-0.1.0.js:295 | id matching with `==` is symmetric |
| InitMapModel.LooselyEqualNotTransitive | src/leaflet/plugin/weatherlayers-src-0.1.0.js:295 | "1" == 1 and 1 == "01" but not "1" == "01" |
| InitMapModel.OneMatchesOtherNumerals | src/leaflet/plugin/weatherlayers-src-0.1.0.js:291-301 | the number id 1 matches the string ids `" 1"`, `"+1"`, `"1.0"`, `"1e0"` and `"0x1"`, so a lookup of 1 finds an entry loaded as `"1.0"` |
| InitMapModel.FirstMatch | src/leaflet/plugin/weatherlayers-src-0.1.0.js:184-196 | none exactly when no entry matches; otherwise the first matching entry |
| InitMapModel.StringIdMatchesOnce | src/leaflet/plugin/weatherlayers-src-0.1.0.js:291-301 | among string ids, only the equal one matches |
| InitMapModel.InitMap.constructor | src/leaflet/plugin/weatherlayers-src-0.1.0.js:262-287 | no layers and nothing on the map |
| InitMapModel.InitMap.IsExist | src/leaflet/plugin/weatherlayers-src-0.1.0.js:291-301 | true exactly when some entry's id `==` the id |
| InitMapModel.InitMap.GetLayerById | src/leaflet/plugin/weatherlayers-src-0.1.0.js:184-196 | the layer of the first matching entry, or null |
| InitMapModel.InitMap.LoadLayer | src/leaflet/plugin/weatherlayers-src-0.1.0.js:222-229 | throws the duplicate message and changes nothing when the id matches; otherwise appends the entry and adds the layer to the map |
| InitMapModel.InitMap.HideLayer | src/leaflet/plugin/weatherlayers-src-0.1.0.js:236-245 | throws for an unknown id; otherwise that layer is off the map |
| InitMapModel.InitMap.ShowLayer | src/leaflet/plugin/weatherlayers-src-0.1.0.js:252-260 | throws for an unknown id; otherwise that layer is on the map |
| InitMapModel.InitMap.UnloadLayer | src/leaflet/plugin/weatherlayers-src-0.1.0.js:203-214 | as written: for a known id the layer leaves the map, then a ReferenceError, the list unchanged (see Findings) |
| InitMapModel.InitMap.UnloadLayerCorrected | src/leaflet/plugin/weatherlayers-src-0.1.0.js:203-214 | corrected: the first matching entry is removed and ids stay distinct |
| InitMapModel.RemoveKeepsDistinct | src/leaflet/plugin/weatherlayers-src-0.1.0.js:222-229 | removing an entry keeps ids pairwise distinct |
| InitMapModel.UnloadedStringIdIsGone | src/leaflet/plugin/weatherlayers-src-0.1.0.js:203-214 | after the corrected unload a string id no longer exists |
| InitMapModel.OffsetOr | src/leaflet/plugin/weatherlayers-src-0.1.0.js:98-134 | a missing or empty offset falls back to the default; a given one is used |
| InitMapModel.ZoomControl | src/leaflet/plugin/weatherlayers-src-0.1.0.js:98-134 | a missing or empty position gives `topright` without style; a style exactly for the four corners |
| InitMapModel.ZoomControlDefaults | src/leaflet/plugin/weatherlayers-src-0.1.0.js:98-134 | without offsets the top corners sit 45px from the top and the bottom corners 10px from the bottom, all 10px from the side |
| InitMapModel.ZoomControlTopDefaults | src/leaflet/plugin/weatherlayers-src-0.1.0.js:98-134 | without offsets the top corners sit 45px from the top and 10px from the side |
| InitMapModel.ZoomControlBottomDefaults | src/leaflet/plugin/weatherlayers-src-0.1.0.js:98-134 | without offsets the bottom corners sit 10px from the bottom and from the side |
| InitMapModel.ZoomControlUsesOffsets | src/leaflet/plugin/weatherlayers-src-0.1.0.js:98-134 | given non-empty offsets end up in the style of each corner |
| InitMapModel.WebLayers | src/leaflet/plugin/weatherlayers-src-0.1.0.js:262-287 | one web layer per map name, with id `part_k` |
| InitMapModel.WebBaseLayers | src/leaflet/plugin/weatherlayers-src-0.1.0.js:272-275 | the loop over the comma parts: a TypeError exactly when some remaining part's `WebTileMapLayer` constructor throws (TileLayers.WebTileSource with no `proxy` and no `proxyUrl`), otherwise the web layers of those parts in order |
| InitMapModel.BaseMapLayers | src/leaflet/plugin/weatherlayers-src-0.1.0.js:262-287 | a falsy map gives the blank polygon; a TypeError exactly for a truthy `web` map that is not a string or has a part naming an unknown provider or map group; a `web` map that loads gives one web layer per comma part |
| InitMapModel.UnknownProviderThrows | src/leaflet/plugin/weatherlayers-src-0.1.0.js:272-275 | a first part whose provider is not in the table makes the base map throw, whatever follows it |
| InitMapModel.SpaceAfterCommaThrows | src/leaflet/plugin/weatherlayers-src-0.1.0.js:272-275 | a part after a comma that starts with a space names an unknown provider, so the base map throws |
| InitMapModel.WebLayerIdsDistinct | src/leaflet/plugin/weatherlayers-src-0.1.0.js:262-287 | the ids of the base layers are distinct |
| InitMapModel.WrapperMapsHaveNoBaseLayer | src/leaflet/aliveIndex.js:199-205 | the wrappers' options (`basemapType: ''`, `defaultMap: 'null'`) load no base layer |
| TileLayers.WebTileSource | src/leaflet/plugin/weatherlayers-src-0.1.0.js:329-420 | TypeError for an unknown provider; the provider's subdomains otherwise |
| TileLayers.WebTileSourceListed | src/leaflet/plugin/weatherlayers-src-0.1.0.js:405-420 | a listed map: proxy url or prefix, then the map path and suffix |
| TileLayers.WebTileSourceProxied | src/leaflet/plugin/weatherlayers-src-0.1.0.js:405-420 | with the proxy flag only the map path and suffix |
| TileLayers.WebTileSourceUnknownType | src/leaflet/plugin/weatherlayers-src-0.1.0.js:405-420 | an unknown map type puts "undefined" in the URL |
| TileLayers.ExtraNamePartsIgnored | src/leaflet/plugin/weatherlayers-src-0.1.0.js:329-340 | parts of the type after the third are ignored |
| TileLayers.ThreePartName | src/leaflet/plugin/weatherlayers-src-0.1.0.js:329-340 | `a.b.c` names provider a, map b, type c |
| TileLayers.Expand | src/leaflet/plugin/weatherlayers-src-0.1.0.js:437-453 | `L.Util.template`: text copied, each `{key}` replaced by its value, an error for a key without one |
| TileLayers.KeyRun | src/leaflet/plugin/weatherlayers-src-0.1.0.js:437-453 | the longest prefix of key characters |
| TileLayers.TemplateKey | src/leaflet/plugin/weatherlayers-src-0.1.0.js:437-453 | the placeholder key is a suffix of the run |
| TileLayers.PlaceholderAt | src/leaflet/plugin/weatherlayers-src-0.1.0.js:437-453 | a placeholder found lies inside the string |
| TileLayers.ExpandPlain | src/leaflet/plugin/weatherlayers-src-0.1.0.js:437-453 | text without `{` is copied through |
| TileLayers.ExpandPlaceholder | src/leaflet/plugin/weatherlayers-src-0.1.0.js:437-453 | `{key}` is replaced by its value |
| TileLayers.ExpandMissingKey | src/leaflet/plugin/weatherlayers-src-0.1.0.js:437-453 | a key without value throws the "No value provided" error |
| TileLayers.FileTileUrl | src/leaflet/plugin/weatherlayers-src-0.1.0.js:437-453 | `getTileUrl`: the template filled with the subdomain, the level name and the row and column names |
| TileLayers.FileTileUrlPath | src/leaflet/plugin/weatherlayers-src-0.1.0.js:430-453 | the tile URL is url/L../R../C...ext |
| TileLayers.TilePathTemplate | src/leaflet/plugin/weatherlayers-src-0.1.0.js:430-436 | `{z}/{x}/{y}` are filled from the data |
| TileLayers.LowerUpperHex | src/leaflet/plugin/weatherlayers-src-0.1.0.js:446 | lower-casing the upper-cased hex gives it back |
| TileLayers.LowerLeftPad | src/leaflet/plugin/weatherlayers-src-0.1.0.js:446 | padding commutes with lower-casing |
| TileLayers.HexNameRoundTrip | src/leaflet/plugin/weatherlayers-src-0.1.0.js:446-450 | the row/column name reads back as the number; 8 characters below 2^32 |
| TileLayers.TileNamesInjective | src/leaflet/plugin/weatherlayers-src-0.1.0.js:437-453 | different tiles get different level, row and column names |
| WindUtil.WindLevelMs | src/leaflet/plugin/weatherlayers-src-0.1.0.js:1629-1657 | level 1 to 12 |
| WindUtil.WindLevelMsCountsThresholds | src/leaflet/plugin/weatherlayers-src-0.1.0.js:1629-1657 | the level is 1 plus the number of thresholds at or below the speed |
| WindUtil.WindLevelKmh | src/leaflet/plugin/weatherlayers-src-0.1.0.js:1659-1702 | level 0 to 18 |
| WindUtil.WindLevelKmhCountsThresholds | src/leaflet/plugin/weatherlayers-src-0.1.0.js:1659-1702 | 0 below 1 km/h, otherwise 1 plus the number of thresholds below the speed |
| WindUtil.WindLevelsMonotone | src/leaflet/plugin/weatherlayers-src-0.1.0.js:1629-1702 | stronger wind never gets a lower level |
| WindUtil.DirectionSector | src/leaflet/plugin/weatherlayers-src-0.1.0.js:1706-1742 | sector index below 16 |
| WindUtil.WindDirectionDetail | src/leaflet/plugin/weatherlayers-src-0.1.0.js:1706-1742 | `getWindDirectionDetail`: the 16-point compass name of the angle's sector |
| WindUtil.WindDirectionDetailBySector | src/leaflet/plugin/weatherlayers-src-0.1.0.js:1706-1742 | the name is the 16-point compass entry at ceil((a - 11.25)/22.5) mod 16 |
| WindUtil.NorthernSectors | src/leaflet/plugin/weatherlayers-src-0.1.0.js:1706-1742 | up to 191.25 degrees, the sector is the k with the angle in (22.5k - 11.25, 22.5k + 11.25] |
| WindUtil.SouthernSectors | src/leaflet/plugin/weatherlayers-src-0.1.0.js:1706-1742 | above 191.25 degrees, the sector is that k modulo 16, so angles near 360 are north again |
| WindUtil.MeterSecToKnots | src/leaflet/plugin/weatherlayers-src-0.1.0.js:864-866 | knots times 0.514 is the speed in m/s |
| WindUtil.MeterSecToKmh | src/leaflet/plugin/weatherlayers-src-0.1.0.js:868-870 | km/h divided by 3.6 is the speed in m/s |
| WindUtil.VectorToSpeed | src/leaflet/plugin/weatherlayers-src-0.1.0.js:836-846 | km/h over 3.6 and knots times 0.514 give back m/s; any other unit keeps m/s |
| WindUtil.VectorToSpeedMonotone | src/leaflet/plugin/weatherlayers-src-0.1.0.js:836-846 | a larger magnitude gives a larger speed in every unit |
| WindyGrid.LastComponent | src/leaflet/plugin/weatherlayers-src-0.1.0.js:949-968 | the last record with a category wins |
| WindyGrid.CreateBuilder | src/leaflet/plugin/weatherlayers-src-0.1.0.js:936-968 | throws TypeError exactly when the u or v record is missing; otherwise the two components |
| WindyGrid.ContinuousHasColumns | src/leaflet/plugin/weatherlayers-src-0.1.0.js:970-1008 | a grid spanning 360 degrees has at least one column to wrap |
| WindyGrid.FloorMod | src/leaflet/plugin/weatherlayers-src-0.1.0.js:1054-1056 | `a - n·floor(a/n)`: in [0, n) for n > 0, and a minus the result is a whole multiple of n |
| WindyGrid.FloorModPeriodic | src/leaflet/plugin/weatherlayers-src-0.1.0.js:1054-1056 | adding n does not change the result |
| WindyGrid.FloorModInRange | src/leaflet/plugin/weatherlayers-src-0.1.0.js:1054-1056 | values in [0, n) are their own result |
| WindyGrid.Weights | src/leaflet/plugin/weatherlayers-src-0.1.0.js:924-934 | the four weights sum to 1 and are non-negative on the unit square |
| WindyGrid.BilinearCorners | src/leaflet/plugin/weatherlayers-src-0.1.0.js:924-934 | at a corner the blend is that corner's value |
| WindyGrid.BilinearUniform | src/leaflet/plugin/weatherlayers-src-0.1.0.js:924-934 | four equal corners blend to that value |
| WindyGrid.LonIndexPeriodic | src/leaflet/plugin/weatherlayers-src-0.1.0.js:1019 | longitudes 360 apart give the same index |
| WindyGrid.InterpolatePeriodic | src/leaflet/plugin/weatherlayers-src-0.1.0.js:1016-1041 | interpolation does not change under a 360 degree shift |
| WindyGrid.InterpolateAt | src/leaflet/plugin/weatherlayers-src-0.1.0.js:1016-1041 | `interpolate`: no value for a zero grid step, otherwise the lookup at the longitude and latitude indices |
| WindyGrid.Lookup | src/leaflet/plugin/weatherlayers-src-0.1.0.js:1016-1041 | the bilinear blend of the four samples around fractional indices, none when a row or sample is missing |
| WindyGrid.ContinuousGridCoversLongitudes | src/leaflet/plugin/weatherlayers-src-0.1.0.js:998-1008 | with the wrap column, every longitude between two rows of a full grid has a value |
| WindyGrid.LookupFindsFourCorners | src/leaflet/plugin/weatherlayers-src-0.1.0.js:1016-1041 | a value exactly when all four surrounding cells exist; then their bilinear blend |
| WindyGrid.LatIndexOfRow | src/leaflet/plugin/weatherlayers-src-0.1.0.js:1020 | a row's latitude gives its index |
| WindyGrid.SouthOfLastRowIsNull | src/leaflet/plugin/weatherlayers-src-0.1.0.js:1016-1041 | south of the last row there is no value |
| WindyGrid.InterpolateByIndices | src/leaflet/plugin/weatherlayers-src-0.1.0.js:1016-1041 | interpolation is the lookup at the computed indices |
| WindyGrid.LookupBeyondLastRow | src/leaflet/plugin/weatherlayers-src-0.1.0.js:1028-1031 | an index past the last row finds nothing |
| WindyGrid.LookupAtNode | src/leaflet/plugin/weatherlayers-src-0.1.0.js:1028-1036 | at a node with its neighbours present the value is the node's |
| WindyGrid.LonIndexOfColumn | src/leaflet/plugin/weatherlayers-src-0.1.0.js:1019 | a column's longitude gives its index |
| WindyGrid.InterpolateAtGridPoint | src/leaflet/plugin/weatherlayers-src-0.1.0.js:1016-1041 | at a grid point the interpolated wind is the sample there |
| WindyGrid.Windy.constructor | src/leaflet/plugin/weatherlayers-src-0.1.0.js:970-1008 | no grid yet |
| WindyGrid.Windy.BuildGrid | src/leaflet/plugin/weatherlayers-src-0.1.0.js:970-1008 | TypeError without a u or v record; otherwise ny rows of samples, with the wrap column when continuous |
| WindyGrid.Windy.Interpolate | src/leaflet/plugin/weatherlayers-src-0.1.0.js:1016-1041 | null before a grid has been built |
| WindyField.FieldAtNearestPixel | src/leaflet/plugin/weatherlayers-src-0.1.0.js:1101-1104 | any point reads the field at its nearest pixel |
| WindyField.FieldAtPixel | src/leaflet/plugin/weatherlayers-src-0.1.0.js:1101-1104 | a pixel has a wind vector exactly when its column exists and holds a non-null vector there |
| WindyField.BuildBounds | src/leaflet/plugin/weatherlayers-src-0.1.0.js:1128-1136 | x the rounded left edge, xMax the width; y the floor of the top (0 when the top is negative); yMax the ceiling of the bottom (height-1 when the bottom is below the last row) |
| WindyField.BuildBoundsIgnoresRightEdge | src/leaflet/plugin/weatherlayers-src-0.1.0.js:1133-1135 | xMax does not depend on the lower-right corner |
| WindyField.Random.constructor | src/leaflet/plugin/weatherlayers-src-0.1.0.js:1117 | a stream of draws, none taken |
| WindyField.Random.Next | src/leaflet/plugin/weatherlayers-src-0.1.0.js:1117 | `Math.random()`: the next draw, in [0, 1), with the position advanced by one |
| WindyField.ScaledDrawInRange | src/leaflet/plugin/weatherlayers-src-0.1.0.js:1117-1118 | floor(draw × size) lies in [0, size) |
| WindyField.CandidateInBounds | src/leaflet/plugin/weatherlayers-src-0.1.0.js:1117-1118 | each candidate lies in the bounds |
| WindyField.RespawnFrom | src/leaflet/plugin/weatherlayers-src-0.1.0.js:1112-1123 | `field.randomize`'s do-while from a stream position: draw a candidate pixel, draw again while it has no wind and the safety net holds (the candidate was drawn before the last allowed position) |
| WindyField.Respawn | src/leaflet/plugin/weatherlayers-src-0.1.0.js:1112-1123 | a whole `field.randomize`: 30 retries of two draws each, so the last candidate is drawn 60 positions after the first |
| WindyField.RespawnShape | src/leaflet/plugin/weatherlayers-src-0.1.0.js:1112-1123 | at most 31 candidates, two draws each; the last one has wind, or the safety net ran out |
| WindyField.RespawnRejectsOnlyCalm | src/leaflet/plugin/weatherlayers-src-0.1.0.js:1119 | every rejected candidate had no wind |
| WindyField.RespawnInBounds | src/leaflet/plugin/weatherlayers-src-0.1.0.js:1112-1123 | the chosen position lies in the bounds |
| WindyField.Field.constructor | src/leaflet/plugin/weatherlayers-src-0.1.0.js:1096-1104 | the field holds the columns and bounds |
| WindyField.Field.Release | src/leaflet/plugin/weatherlayers-src-0.1.0.js:1108-1110 | the columns become empty |
| WindyField.Field.DrawCandidate | src/leaflet/plugin/weatherlayers-src-0.1.0.js:1117-1118 | two draws give the candidate |
| WindyField.Field.Randomize | src/leaflet/plugin/weatherlayers-src-0.1.0.js:1112-1123 | the pixel and the stream position afterwards are Respawn's from the old position, after at most 62 draws |
| WindyField.RespawnContinues | src/leaflet/plugin/weatherlayers-src-0.1.0.js:1119 | a calm candidate with safety net left leads to another |
| WindyField.RespawnStops | src/leaflet/plugin/weatherlayers-src-0.1.0.js:1119 | a windy candidate, or the one drawn at the last allowed position, is kept |
| WindyField.IndexFor | src/leaflet/plugin/weatherlayers-src-0.1.0.js:1220-1223 | the colour index is clamped to [0, colours-1] |
| WindyField.IndexForMonotone | src/leaflet/plugin/weatherlayers-src-0.1.0.js:1220-1223 | faster wind never gets a lower colour |
| WindyField.IndexForEnds | src/leaflet/plugin/weatherlayers-src-0.1.0.js:1220-1223 | min maps to the first colour and max to the last |
| WindyField.BucketIndex | src/leaflet/plugin/weatherlayers-src-0.1.0.js:1220-1223 | the bucket `buckets[indexFor(m)]` names: none (so `push` throws a TypeError) exactly for an empty colour scale, or for min == max when m == min or the scale has one colour; otherwise a colour, IndexFor's when min != max |
| WindyField.Step | src/leaflet/plugin/weatherlayers-src-0.1.0.js:1257-1287 | one particle's share of `evolve`: respawn when too old, escape when the field is null, a coloured bucket when the target is visible, else move; its properties are the Step lemmas below |
| WindyField.StepLifecycle | src/leaflet/plugin/weatherlayers-src-0.1.0.js:1257-1287 | one particle: respawn when too old; escape when the field is null; a bucket exactly when the target is visible; else move |
| WindyField.StepBucketInRange | src/leaflet/plugin/weatherlayers-src-0.1.0.js:1276 | the bucket index is a colour |
| WindyField.StepKeepsAgeBound | src/leaflet/plugin/weatherlayers-src-0.1.0.js:1257-1287 | ages stay in [1, maxAge+1] |
| WindyField.StepDraws | src/leaflet/plugin/weatherlayers-src-0.1.0.js:1258-1259 | no draws unless respawning, then 2 to 62 |
| WindyField.StepRespawnInBounds | src/leaflet/plugin/weatherlayers-src-0.1.0.js:1258-1259 | a respawned particle lies in the bounds |
| WindyField.EvolveAll | src/leaflet/plugin/weatherlayers-src-0.1.0.js:1248-1288 | one Step per particle, in order, threading the draws |
| WindyField.BucketOfMembers | src/leaflet/plugin/weatherlayers-src-0.1.0.js:1249-1276 | a bucket holds exactly the particles given that colour, in order |
| WindyField.EvolveAllKeepsAgeBound | src/leaflet/plugin/weatherlayers-src-0.1.0.js:1248-1288 | a whole pass keeps ages in bound and buckets in range |
| WindyField.Animation.constructor | src/leaflet/plugin/weatherlayers-src-0.1.0.js:1227-1246 | one empty bucket per colour; the particles and the stream position afterwards are SpawnAll's of the draws from the old position |
| WindyField.Animation.StepOne | src/leaflet/plugin/weatherlayers-src-0.1.0.js:1257-1287 | one particle updated as Step says |
| WindyField.Animation.Apply | src/leaflet/plugin/weatherlayers-src-0.1.0.js:1257-1287 | the particle is stored and pushed on its bucket |
| WindyField.Animation.Advance | src/leaflet/plugin/weatherlayers-src-0.1.0.js:1257-1287 | one more particle of the pass, in step with EvolveAll |
| WindyField.Animation.Evolve | src/leaflet/plugin/weatherlayers-src-0.1.0.js:1248-1288 | the particles become EvolveAll's, each bucket its BucketOf |
| WindyField.Spawn | src/leaflet/plugin/weatherlayers-src-0.1.0.js:1245 | the particle and the stream position afterwards are SpawnFrom's: age floor(draw × maxAge), then `field.randomize` from the next draw, no target |
| WindyField.SpawnParticles | src/leaflet/plugin/weatherlayers-src-0.1.0.js:1244-1246 | the spawning loop fills a new array; its contents and the stream position afterwards are SpawnAll's from the old position |
| WindyField.SpawnAllNext | src/leaflet/plugin/weatherlayers-src-0.1.0.js:1244-1246 | one more pass of the loop appends the spawn from where the earlier passes stopped |
| WindyField.SpawnFromSpawned | src/leaflet/plugin/weatherlayers-src-0.1.0.js:1245 | a spawn is younger than maxAge, has no target, lies in the bounds and takes 3 to 63 draws |
| WindyField.SpawnAllSpawned | src/leaflet/plugin/weatherlayers-src-0.1.0.js:1244-1246 | the spawning loop makes `count` particles, each younger than maxAge, without target and inside the bounds |
| WindyField.SpawnAllDraws | src/leaflet/plugin/weatherlayers-src-0.1.0.js:1244-1246 | the spawning loop takes from 3 to 63 draws per particle |
| WindyField.EvolveAdvance | src/leaflet/plugin/weatherlayers-src-0.1.0.js:1257-1287 | extending the pass by one particle extends EvolveAll by its Step |
| GridLayers.Reshape | src/leaflet/plugin/weatherlayers-src-0.1.0.js:1502-1513 | `_buildGrid`'s rows: latsize rows of lonsize data items, each closed by a copy of its first item (undefined for an empty row) |
| GridLayers.ReshapeShape | src/leaflet/plugin/weatherlayers-src-0.1.0.js:1502-1513 | rows of lonsize+1 items; the last repeats the first (undefined for an empty row) |
| GridLayers.FlattenUnwrapped | src/leaflet/plugin/weatherlayers-src-0.1.0.js:1502-1513 | dropping each row's wrap item gives the data back |
| GridLayers.GridHoldsTheData | src/leaflet/plugin/weatherlayers-src-0.1.0.js:1502-1513 | cell (i, j) is data item i·lonsize + j |
| GridLayers.StartIndex | src/leaflet/plugin/weatherlayers-src-0.1.0.js:1566-1569 | the first visible index: 0 or below the size |
| GridLayers.EndIndex | src/leaflet/plugin/weatherlayers-src-0.1.0.js:1566-1569 | the end of the visible window: at most the size |
| GridLayers.WindowCoversView | src/leaflet/plugin/weatherlayers-src-0.1.0.js:1566-1569 | every cell whose position lies in the view is inside the index window |
| GridLayers.Stride | src/leaflet/plugin/weatherlayers-src-0.1.0.js:1574-1576 | none exactly when the pixel distance is 0; otherwise a stride of at least 1 |
| GridLayers.StrideSpacing | src/leaflet/plugin/weatherlayers-src-0.1.0.js:1574-1576 | the stride is the fewest cells whose pixel spacing reaches the grid's span |
| GridLayers.VisitsExactly | src/leaflet/plugin/weatherlayers-src-0.1.0.js:1578-1591 | the loops visit exactly the indices in the window that are multiples of the stride |
| GridLayers.VisitsInRange | src/leaflet/plugin/weatherlayers-src-0.1.0.js:1578-1591 | every visited index lies in the window; without a stride only the start is visited |
| GridLayers.VisibleCellsInGrid | src/leaflet/plugin/weatherlayers-src-0.1.0.js:1578-1591 | visited cells exist in the grid |
| GridLayers.RowMarksExactly | src/leaflet/plugin/weatherlayers-src-0.1.0.js:1580-1590 | a row draws exactly its visited cells that are not the missing value |
| GridLayers.ValueMarks | src/leaflet/plugin/weatherlayers-src-0.1.0.js:1578-1591 | the value labels of a draw pass: each visited row's marks, in row order |
| GridLayers.ValueMarksExactly | src/leaflet/plugin/weatherlayers-src-0.1.0.js:1578-1591 | the whole draw is the rows' marks in order |
| GridLayers.LevelOf | src/leaflet/plugin/weatherlayers-src-0.1.0.js:1909 | the wind icon level from `getwindlevelms` |
| GridLayers.RowWindMarksThrows | src/leaflet/plugin/weatherlayers-src-0.1.0.js:1891-1894 | a row throws exactly when a visited cell is not a string |
| GridLayers.WindMarks | src/leaflet/plugin/weatherlayers-src-0.1.0.js:1859-1902 | the wind barbs of a draw pass: each visited row's marks in order, or the first row's TypeError |
| GridLayers.WindMarksThrows | src/leaflet/plugin/weatherlayers-src-0.1.0.js:1859-1902 | the draw throws exactly when some row does |
| GridLayers.RowWindMarksExactly | src/leaflet/plugin/weatherlayers-src-0.1.0.js:1891-1894 | a row draws its visited cells whose speed is not the missing value, at the level of that speed |
| GridLayers.WindMarksExactly | src/leaflet/plugin/weatherlayers-src-0.1.0.js:1859-1902 | the wind draw is the rows' marks in order |
| GridLayers.UndefinedMissingDrawsEveryWindCell | src/leaflet/plugin/weatherlayers-src-0.1.0.js:1802-1805 | with no missing value every visited wind cell is drawn |
| GridLayers.RowWindCount | src/leaflet/plugin/weatherlayers-src-0.1.0.js:1891-1894 | with no missing value a row draws one mark per visited cell |
| GridLayers.GridLayer.constructor | src/leaflet/plugin/weatherlayers-src-0.1.0.js:1466-1470 | `data: null` and `initialize`: no data, no grid, missing value undefined |
| GridLayers.GridLayer.SetData | src/leaflet/plugin/weatherlayers-src-0.1.0.js:1482-1496 | `setData(null)` throws a TypeError after storing null, grid and missing value kept; otherwise the data stored, the grid its reshape, missingValue taken only when truthy |
| GridLayers.GridLayer.BuildGrid | src/leaflet/plugin/weatherlayers-src-0.1.0.js:1502-1513 | without data: a TypeError after the grid was emptied; otherwise the reshaped grid; data and missing value unchanged |
| GridLayers.GridLayer.Clear | src/leaflet/plugin/weatherlayers-src-0.1.0.js:1545-1548 | the data is dropped; grid and missing value are kept |
| GridLayers.GridLayer.DrawValues | src/leaflet/plugin/weatherlayers-src-0.1.0.js:1550-1592 | no marks without data; otherwise exactly ValueMarks of the grid over the visible rows and columns |
| GridLayers.GridLayer.DrawWinds | src/leaflet/plugin/weatherlayers-src-0.1.0.js:1859-1902 | no marks without data; otherwise exactly WindMarks, which throws as WindMarksThrows says |
| GridLayers.DrawValueRow | src/leaflet/plugin/weatherlayers-src-0.1.0.js:1580-1590 | the inner loop yields exactly RowMarks of the visited columns |
| GridLayers.DrawWindRow | src/leaflet/plugin/weatherlayers-src-0.1.0.js:1889-1899 | the inner loop yields exactly RowWindMarks of the visited columns, or throws as it does |
| ColorUtil.Uint32 | src/leaflet/plugin/weatherlayers-src-0.1.0.js:2091 | `>>> 0` yields an unsigned 32-bit value (the value itself when already in range, by Uint32Small) |
| ColorUtil.ShiftLeft | src/leaflet/plugin/weatherlayers-src-0.1.0.js:2091 | `<<` yields a 32-bit value |
| ColorUtil.BitOrDisjoint | src/leaflet/plugin/weatherlayers-src-0.1.0.js:2091 | `\|` of values with disjoint bits is their sum |
| ColorUtil.PackChannels | src/leaflet/plugin/weatherlayers-src-0.1.0.js:2090-2096 | for channels in [0, 255], `(r << 16) \| (g << 8) \| b` is r·65536 + g·256 + b |
| ColorUtil.HexColor | src/leaflet/plugin/weatherlayers-src-0.1.0.js:2098-2104 | '#' and the hexadecimal digits left-padded with '0' to six |
| ColorUtil.ToHexColor | src/leaflet/plugin/weatherlayers-src-0.1.0.js:2098-2104 | '#' followed by at least 6 hex digits that read back as the number |
| ColorUtil.RgbToHex | src/leaflet/plugin/weatherlayers-src-0.1.0.js:2090-2096 | seven characters, and colorToRgb gives the channels back |
| ColorUtil.PaddedHex | src/leaflet/plugin/weatherlayers-src-0.1.0.js:2098-2104 | the padded hex reads back as n and has 6 digits when n < 2^24 |
| ColorUtil.ColorValue | src/leaflet/plugin/weatherlayers-src-0.1.0.js:2116-2140 | `colorToRgb`: the lower-cased text unless it is a colour; a colour gives its channels as `RGB(r,g,b)` or an array |
| ColorUtil.ColorToRgb | src/leaflet/plugin/weatherlayers-src-0.1.0.js:2116-2140 | the method computes ColorValue: the lower-cased text when it is not a colour, otherwise the channels as `RGB(r,g,b)` or an array |
| ColorUtil.WidenLoop | src/leaflet/plugin/weatherlayers-src-0.1.0.js:2121-2127 | the loop doubles each digit of a 3-digit colour |
| ColorUtil.ChannelLoop | src/leaflet/plugin/weatherlayers-src-0.1.0.js:2129-2134 | the loop parses the three digit pairs |
| ColorUtil.PairValue | src/leaflet/plugin/weatherlayers-src-0.1.0.js:2131 | `parseInt('0x' + pair)` of two hex digits is 16·first + second, below 256 |
| ColorUtil.SixDigits | src/leaflet/plugin/weatherlayers-src-0.1.0.js:2090-2096 | six hex digits split into three channels below 256 that recombine into the whole value |
| ColorUtil.LowerHexColor | src/leaflet/plugin/weatherlayers-src-0.1.0.js:2118 | lower-casing a lower-case hex colour changes nothing |
| ColorUtil.SixDigitColor | src/leaflet/plugin/weatherlayers-src-0.1.0.js:2116-2140 | a six-digit colour converts to the array of its three channels |
| ColorUtil.RgbHexRoundTrip | src/leaflet/plugin/weatherlayers-src-0.1.0.js:2090-2140 | colorToRgb(rgbToHex(r, g, b)) is [r, g, b] |
| ColorUtil.ChannelsUnique | src/leaflet/plugin/weatherlayers-src-0.1.0.js:2090-2096 | the packed value determines the three channels |
| ColorUtil.ShortFormWidens | src/leaflet/plugin/weatherlayers-src-0.1.0.js:2121-2127 | `#abc` parses as `#aabbcc` |
| ColorUtil.PunctuationAccepted | src/leaflet/plugin/weatherlayers-src-0.1.0.js:2118 | as written, "#[[[" parses to three NaN channels (see Findings) |
| ColorUtil.CorrectedChannelsAreNumbers | src/leaflet/plugin/weatherlayers-src-0.1.0.js:2118 | with the class `[0-9a-fA-F]`, a colour converts to three numbers; anything else comes back as a string |
| ColorUtil.CorrectedAgreesOnHex | src/leaflet/plugin/weatherlayers-src-0.1.0.js:2118 | on real hex colours the corrected pattern agrees with the written one |
| DataUtil.Cloned | src/leaflet/plugin/weatherlayers-src-0.1.0.js:2004-2011 | a non-object or nullish value as is; an object or array copied into a plain object of its own properties |
| DataUtil.Clone | src/leaflet/plugin/weatherlayers-src-0.1.0.js:2004-2011 | the copy loop builds Cloned: non-objects returned as is, objects and arrays copied into a plain object |
| DataUtil.CloneCopiesObject | src/leaflet/plugin/weatherlayers-src-0.1.0.js:2004-2011 | an object's own properties are copied; a primitive is returned unchanged |
| DataUtil.CloneOfArray | src/leaflet/plugin/weatherlayers-src-0.1.0.js:2004-2011 | an array clones to a plain object keyed by its indices |
| DataUtil.Merged | src/leaflet/plugin/weatherlayers-src-0.1.0.js:2055-2071 | `deepMerge`: missing or falsy properties of the first filled, objects merged key by key, arrays concatenated, other values of the second winning |
| DataUtil.DeepMerge | src/leaflet/plugin/weatherlayers-src-0.1.0.js:2055-2071 | the merge loop builds Merged of the two values |
| DataUtil.MergeKeys | src/leaflet/plugin/weatherlayers-src-0.1.0.js:2055-2071 | two objects merge to an object with both key sets; keys only in the first keep their value |
| DataUtil.MergeTakesLeavesFromSecond | src/leaflet/plugin/weatherlayers-src-0.1.0.js:2060-2066 | a property of the second that is neither object nor array wins |
| DataUtil.MergeFillsFalsy | src/leaflet/plugin/weatherlayers-src-0.1.0.js:2057-2058 | a missing or falsy property of the first takes the second's value |
| DataUtil.MergeWithEmpty | src/leaflet/plugin/weatherlayers-src-0.1.0.js:2055-2071 | merging `{}` changes nothing |
| DataUtil.MergeTwiceNoArrays | src/leaflet/plugin/weatherlayers-src-0.1.0.js:2055-2071 | without arrays, merging the same value twice is merging it once |
| DataUtil.MergedFalsy | src/leaflet/plugin/weatherlayers-src-0.1.0.js:2057-2058 | when the merge is falsy (no arrays in the second) it is the second value |
| DataUtil.MergeSelf | src/leaflet/plugin/weatherlayers-src-0.1.0.js:2055-2071 | merging an object without arrays into itself gives it back |
| DataUtil.MergeTakesLeaf | src/leaflet/plugin/weatherlayers-src-0.1.0.js:2060-2066 | a second value that is neither object nor array replaces the first |
| DataUtil.MergeArrays | src/leaflet/plugin/weatherlayers-src-0.1.0.js:2060-2066 | two arrays concatenate: the first's items, then the second's |
| Collision.OffsetBox | src/leaflet/plugin/weatherlayers-src-0.1.0.js:2799-2806 | the box moved by the other box's corner, same size |
| Collision.PositionBox | src/leaflet/plugin/weatherlayers-src-0.1.0.js:2817-2824 | the box moved to the layer's point and grown by the margin on every side |
| Collision.Positioned | src/leaflet/plugin/weatherlayers-src-0.1.0.js:2809-2815 | the boxes placed at the layer's point |
| Collision.PositionBoxes | src/leaflet/plugin/weatherlayers-src-0.1.0.js:2809-2815 | the positioning loop yields Positioned |
| Collision.IntersectsSymmetric | src/leaflet/plugin/weatherlayers-src-0.1.0.js:2734-2737 | box overlap is symmetric |
| Collision.IntersectsTranslate | src/leaflet/plugin/weatherlayers-src-0.1.0.js:2734-2737 | moving both boxes alike keeps overlap |
| Collision.MarginSeparates | src/leaflet/plugin/weatherlayers-src-0.1.0.js:2817-2824 | positioned boxes that do not intersect are more than twice the margin apart |
| Collision.CollisionLoop | src/leaflet/plugin/weatherlayers-src-0.1.0.js:2734-2737 | the search loop says collision exactly when a box overlaps one in the bush |
| Collision.Place | src/leaflet/plugin/weatherlayers-src-0.1.0.js:2714-2750 | `_maybeAddLayerToRBush`: the layer's relative boxes cached; when none of its positioned boxes hits the bush, it is shown and its boxes join the bush as a new group |
| Collision.PlaceAll | src/leaflet/plugin/weatherlayers-src-0.1.0.js:2826-2838 | the pass of `_onMoveEnd`: Place for each layer in view, in order |
| Collision.PlaceAllStep | src/leaflet/plugin/weatherlayers-src-0.1.0.js:2826-2838 | placing one more layer extends the pass |
| Collision.PlaceSound | src/leaflet/plugin/weatherlayers-src-0.1.0.js:2714-2750 | a layer is shown exactly when its boxes miss the bush, and then its boxes join as one more group; the shown list and the groups grow alike |
| Collision.GrowsStep | src/leaflet/plugin/weatherlayers-src-0.1.0.js:2739-2744 | each step adds to the visible list at most the in-view layer it places |
| Collision.PlaceAllSound | src/leaflet/plugin/weatherlayers-src-0.1.0.js:2826-2838 | after a pass the groups' boxes are pairwise apart, the visible list grew only by in-view layers, in order, and by as many as the groups |
| Collision.StepSound | src/leaflet/plugin/weatherlayers-src-0.1.0.js:2826-2838 | one step keeps the groups pairwise apart, adds at most the layer placed, and adds a group exactly when it adds a layer |
| Collision.IndexOf | src/leaflet/plugin/weatherlayers-src-0.1.0.js:2664-2684 | `indexOf`: -1 exactly when absent, else the first position |
| Collision.Splice | src/leaflet/plugin/weatherlayers-src-0.1.0.js:2664-2684 | the `indexOf`/`splice` pair removes the first copy |
| Collision.RemoveFirstDropsOne | src/leaflet/plugin/weatherlayers-src-0.1.0.js:2664-2684 | removing drops one copy and keeps the rest as a multiset |
| Collision.RemoveFirstLeavesSecondCopy | src/leaflet/plugin/weatherlayers-src-0.1.0.js:2664-2684 | a second copy survives a removal |
| Collision.CollisionGroup.constructor | src/leaflet/plugin/weatherlayers-src-0.1.0.js:2632-2649 | empty lists, no bush, the margin stored |
| Collision.CollisionGroup.MaybeAddLayerToRBush | src/leaflet/plugin/weatherlayers-src-0.1.0.js:2714-2750 | the layer is placed as PlaceSound says |
| Collision.CollisionGroup.AddLayer | src/leaflet/plugin/weatherlayers-src-0.1.0.js:2651-2662 | a layer without icon becomes static; one with an icon joins the original layers and is placed when the group is on a map |
| Collision.CollisionGroup.RemoveLayer | src/leaflet/plugin/weatherlayers-src-0.1.0.js:2664-2684 | TypeError before the bush exists; otherwise its cached boxes are dropped, the bush keeps its boxes, and the three lists lose one copy |
| Collision.CollisionGroup.ClearLayers | src/leaflet/plugin/weatherlayers-src-0.1.0.js:2686-2693 | lists and cache emptied, the bush empty |
| Collision.CollisionGroup.OnMoveEnd | src/leaflet/plugin/weatherlayers-src-0.1.0.js:2826-2838 | as written, a pass over all layers that starts from the old visible list (see Findings) |
| Collision.CollisionGroup.OnMoveEndCorrected | src/leaflet/plugin/weatherlayers-src-0.1.0.js:2826-2838 | corrected: the visible list restarts empty |
| Collision.CollisionGroup.Pass | src/leaflet/plugin/weatherlayers-src-0.1.0.js:2832-2837 | the loop over the original layers is PlaceAll from the current state |
| Collision.CollisionGroup.OnAdd | src/leaflet/plugin/weatherlayers-src-0.1.0.js:2695-2704 | the group is on a map and a move-end pass has run from the old visible list |
| Collision.PlaceOnEmpty | src/leaflet/plugin/weatherlayers-src-0.1.0.js:2714-2750 | on an empty bush the first layer is shown |
| Collision.SinglePassShows | src/leaflet/plugin/weatherlayers-src-0.1.0.js:2826-2838 | a layer in view, placed on an empty bush, is appended to the shown list |
| Collision.MoveEndTwiceListsTwice | src/leaflet/plugin/weatherlayers-src-0.1.0.js:2826-2838 | as written, two move-ends list one layer twice; corrected, once |
| Collision.CorrectedPassShowsOnlyPlacedLayers | src/leaflet/plugin/weatherlayers-src-0.1.0.js:2826-2838 | after a corrected pass the visible list names only in-view layers of the group, one per group of boxes in the bush, and those groups are pairwise apart |
| Scale.RoundNum | src/leaflet/plugin/weatherlayers-src-0.1.0.js:3076-3083 | `_getRoundNum`: from 2 up the nice number, below 2 the `toFixed(1)` text of t rounded to hundredths |
| Scale.Bucket | src/leaflet/plugin/weatherlayers-src-0.1.0.js:3080 | the multiplier is 1, 2, 3, 5 or 10, at most the leading part and more than half of it |
| Scale.DecimalLength | src/leaflet/plugin/weatherlayers-src-0.1.0.js:3078 | 10^(digits-1) <= n < 10^digits |
| Scale.LeadingPart | src/leaflet/plugin/weatherlayers-src-0.1.0.js:3078-3079 | the length over the leading place value lies in [1, 10) |
| Scale.RoundNumBounds | src/leaflet/plugin/weatherlayers-src-0.1.0.js:3076-3081 | from 2 up, a number in (t/2, t] that is 1, 2, 3 or 5 times a power of ten, and the largest such number not above t |
| Scale.RoundNumLargest | src/leaflet/plugin/weatherlayers-src-0.1.0.js:3076-3081 | a nice multiple of any power of ten that does not exceed t does not exceed the nice number |
| Scale.ScaledBucketLargestIf | src/leaflet/plugin/weatherlayers-src-0.1.0.js:3079-3080 | among 1, 2, 3 and 5 times the leading place value, the chosen one is the largest not above t |
| Scale.OneDecimalReads | src/leaflet/plugin/weatherlayers-src-0.1.0.js:3082 | a one-decimal string reads back as its tenths |
| Scale.TenthsClose | src/leaflet/plugin/weatherlayers-src-0.1.0.js:3082 | rounding to hundredths and then tenths moves at most 0.055 |
| Scale.RoundNumSmall | src/leaflet/plugin/weatherlayers-src-0.1.0.js:3082 | below 2, a string that reads back within 0.055 of t |
| Geometry.Inside | src/leaflet/plugin/weatherlayers-src-0.1.0.js:3114-3143 | `Util.contain`'s answer: on an edge or vertex, or an odd number of edge crossings to the right |
| Geometry.Contain | src/leaflet/plugin/weatherlayers-src-0.1.0.js:3114-3143 | the loop answers Inside: boundary points in, otherwise the even-odd rule |
| Geometry.VertexInside | src/leaflet/plugin/weatherlayers-src-0.1.0.js:3114-3143 | every vertex is inside |
| Geometry.EmptyPolygon | src/leaflet/plugin/weatherlayers-src-0.1.0.js:3114-3143 | an empty polygon contains nothing |
| Geometry.BelowCrossesNothing | src/leaflet/plugin/weatherlayers-src-0.1.0.js:3114-3143 | when every vertex is below the point no edge is crossed |
| Geometry.AboveIsOutside | src/leaflet/plugin/weatherlayers-src-0.1.0.js:3114-3143 | a point above every vertex is outside |
| Geometry.UnitSquareInterior | src/leaflet/plugin/weatherlayers-src-0.1.0.js:3114-3143 | interior points of the unit square are inside |
| Geometry.UnitSquareLeft | src/leaflet/plugin/weatherlayers-src-0.1.0.js:3114-3143 | a point left of the square at its height is outside |
| Coordinates.Encrypt | src/leaflet/plugin/weatherlayers-src-0.1.0.js:3211-3218 | outside China the point is returned unchanged |
| Coordinates.Decrypt | src/leaflet/plugin/weatherlayers-src-0.1.0.js:3220-3227 | outside China the point is returned unchanged |
| Coordinates.DecryptEncrypt | src/leaflet/plugin/weatherlayers-src-0.1.0.js:3211-3227 | decrypting undoes encrypting outside China, and inside where the offset is the same at both points |
| Coordinates.EncryptMovesInside | src/leaflet/plugin/weatherlayers-src-0.1.0.js:3211-3218 | inside China a non-zero offset moves the point |
| Coordinates.DecryptExact | src/leaflet/plugin/weatherlayers-src-0.1.0.js:3229-3257 | the result stays within 0.01 of the input; 1 to 10001 rounds; stopping early means converged |
| Coordinates.ClampCosine | src/leaflet/plugin/weatherlayers-src-0.1.0.js:3310-3311 | the cosine handed to `acos` lies in [-1, 1] and is unchanged when already there |
| Coordinates.ClampMonotone | src/leaflet/plugin/weatherlayers-src-0.1.0.js:3310-3311 | clamping keeps order |

## Left out

- DOM, canvas and the Leaflet life cycle are left out because nothing in them can be proved here. This covers:
  - drawing text and images;
  - `StationMarkerLayer`, `ImageLayer` and the base-layer classes;
  - `onRemove` and `getEvents`.
  Drawing is modelled only as the list of marks a draw pass makes.
- rbush is a plain list of boxes searched linearly. The index's balancing is not modelled.
- The DOM measurement behind `_getIconBox` and `_getRelativeBoxes` is a parameter: the box list of each layer.
- `Scale._update` and `_getScaleWidth` are left out; they only set element widths.
- Numbers are exact reals, so floating-point effects are not modelled:
  - `toFixed` rounds exact halves up;
  - `Math.round` is exact.
- Trigonometry is left out:
  - `delta`, `transformLat` and `transformLon` are a parameter of the coordinate functions;
  - the `bd_*` and `mercator_*` conversions are left out;
  - `acos` in `distance` is left out except for its clamp;
  - `vectorToDegrees` is left out;
  - the square root in the wind magnitude is a parameter.
- JsValues.ToNumber: the words `Infinity`, `+Infinity` and `-Infinity` are not modelled; they give NaN here. Trimming, the empty string, radix prefixes, signs, fractions and exponents follow `Number()`.
- JsValues.LooseEqSymmetric: objects compare structurally rather than by identity.
- AppUtil.WindNameByAngle takes the angle already as a real. The source first runs `parseFloat(angle)` (line 76 of aliveIndex.js), so a string such as `"90deg"` names east, and a value that parses to NaN gives `''`. Parsing is not modelled.
- AppUtil.Uniq compares with Dafny's `==` on a generic element type. The source's `indexOf` uses `===`, under which NaN never equals itself, so `[NaN, NaN]` stays `[NaN, NaN]` there. Objects compare by identity there, not by value.
- LayerGroups.Command takes the type as a string. In the source a falsy non-string type (`undefined`, `null`, `0`, `false`) also becomes `'NEW'`, and a truthy non-string type has no `toUpperCase`, so `handleLayer` throws a TypeError (lines 346-347 of aliveIndex.js).
- JsValues.LooseEq: an object, array or function against a primitive is unequal here. JavaScript first converts it to a primitive, so `[1] == 1` and `["a"] == "a"` are true there. The ids the core compares are primitives.
- InitMapModel.LooselyEqual: number ids are integers. Fractional, infinite and NaN number ids are not modelled, because the error message's `'' + id` (InitMapModel.IdText) is written only for integers.
- ColorUtil.RgbToHex: modelled for integer channels only. ColorUtil.ToHexColor is modelled for integers only.
- Text.ToUpper and Text.ToLower change ASCII letters only.
- DataUtil.DeepMerge and DataUtil.Clone work on values. The in-place update of `obj1` and any aliasing between the arguments are not modelled.
- `deepClone` and `isClass` are left out; they depend on constructors and prototypes.
- `getWindDirectionDetail` with a NaN angle is left out; angles are reals.
- `Math.random` is a stream of draws in [0, 1). Timers, `requestAnimationFrame` and `setTimeout` are left out.
- `segmentedColorScale` is left out because it calls functions that are not defined in the file.
- `isExistFileOnServer` is left out because it is a synchronous HTTP request.
- `addMarkers` and `addMarkersWithGroup` are left out beyond AliveMaps.Registry.AddToGroup and Markers.BindMarkerEvent; the rest is DOM icon handling.
- The keyboard handling in `_autoLoad` is left out.
- The particle count is a parameter of WindyField.Animation.constructor. The source computes it as `Math.round(width * height * PARTICLE_MULTIPLIER)` (line 1236 of the plugin file). The mobile reduction of that count, possibly to a fraction, is left out because `isMobile` reads the user agent.
- The branch for a `colorScale` that is a function (lines 1229 and 1277-1278 of the plugin file) is left out: the colour scale is always an array of styles.
- WindyField.IndexFor: WindyField.Step, WindyField.EvolveAll and WindyField.Animation.Evolve require ValidConfig (a non-empty colour scale and min != max). Outside it the source's `buckets[...].push` throws a TypeError. WindyField.BucketIndex states exactly when that happens, but the tick is not modelled past the throw.
- TileLayers.WebTileSource: a map name equal to one of a provider's own non-map keys (`prefix`, `suffix`, `Subdomains`) finds that key's string in the source, and the map type is then read off the string (lines 329-422 of the plugin file). The model throws a TypeError for such a name, as it does for any name that is not a map group.
- InitMapModel.BaseMapLayers: a part that names a provider's own non-map key throws here, as TileLayers.WebTileSource does (see that line). The layers added to the group before a part throws are not modelled, because the exception leaves the map's construction.
- GridLayers.GridLayer.DrawValues and GridLayers.GridLayer.DrawWinds require a non-negative `distanceScale`. The default is 1. A negative one makes the stride non-positive, so a window that visits a row never ends (lines 1576-1578 of the plugin file); an empty window would still end with no marks.
- WindyGrid.Windy.BuildGrid requires the data arrays of the chosen u and v records to cover the u header's nx·ny samples. Missing samples would give NaN winds, which exact arithmetic cannot express.
- WindyGrid.Windy.Interpolate: the NaN results of a grid built from missing samples are not modelled.

## Findings

| source | as written | input that shows it | evidently intended | confidence | as-written member | corrected member |
|---|---|---|---|---|---|---|
| src/leaflet/aliveIndex.js:13-19 (and src/leaflet/index.js:14-20) | seconds are rounded without carrying into minutes | 0.99999 formats as `0°59'60"` | seconds below 60, carried into minutes and degrees | high, not executed | AppUtil.FormatUtilPrintsSixtySeconds | AppUtil.DmsCarried, AppUtil.DmsCarriedAgrees |
| src/leaflet/aliveIndex.js:35-38 | `latLng.lat \|\| latLng[0]` treats 0 as missing | `[0, 116.4]` (a point on the equator) gives null | accept every pair of numbers | high, not executed | AppUtil.FormatLatLngRejectsEquator | AppUtil.FormatLatLngByType, AppUtil.FormatLatLngByTypeAcceptsAll |
| src/leaflet/plugin/weatherlayers-src-0.1.0.js:203-214 | `layers.splice(i, 1)` uses an undeclared `layers`, not `this.layers` | unloading any loaded id hides the layer, then throws a ReferenceError and keeps the entry | remove the entry from `this.layers` | high, not executed | InitMapModel.InitMap.UnloadLayer | InitMapModel.InitMap.UnloadLayerCorrected, InitMapModel.UnloadedStringIdIsGone |
| src/leaflet/plugin/weatherlayers-src-0.1.0.js:2118 | the class `[0-9a-fA-f]` spans `A` to `f`, which admits `[`, `\`, `]`, `^`, `_` and the backtick | "#[[[" parses to `[NaN, NaN, NaN]` | `[0-9a-fA-F]`, so only hex colours parse | high, not executed | ColorUtil.PunctuationAccepted | ColorUtil.CorrectedChannelsAreNumbers, ColorUtil.CorrectedAgreesOnHex |
| src/leaflet/plugin/weatherlayers-src-0.1.0.js:2826-2838 | `_onMoveEnd` clears the bush but never resets `_visibleLayers` | two move-ends with one layer list it twice | restart the visible list on every pass | medium, not executed | Collision.MoveEndTwiceListsTwice | Collision.CollisionGroup.OnMoveEndCorrected, Collision.CorrectedPassShowsOnlyPlacedLayers |
