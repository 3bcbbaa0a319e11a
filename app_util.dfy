/**
 * The `Util` object shared by the two Leaflet wrappers (`aliveIndex.js`
 * and `index.js` carry identical copies): degree formatting, marker event
 * names, coordinate normalisation, the eight-point wind names, a quick
 * sort and de-duplication.
 */
module AppUtil {
  import opened Wrappers
  import opened Text
  import opened JsValues
  import opened JsMath

  /** Degrees, minutes and seconds as `Util.formatUtil` computes them. */
  datatype Dms = Dms(deg: nat, min: nat, sec: nat)

  /**
   * The three numbers `Util.formatUtil` prints for `value`: the sign is
   * dropped, minutes are truncated, and seconds are the rounded rest.
   */
  function DmsOf(value: real): (r: Dms)
    ensures r.deg as real <= Abs(value) < r.deg as real + 1.0
    ensures r.deg == Abs(value).Floor
    ensures r.min == ((Abs(value) - r.deg as real) * 60.0).Floor
    ensures r.min <= 59
    ensures r.sec <= 60
    ensures 3600 * r.deg + 60 * r.min + r.sec == Round(Abs(value) * 3600.0)
  {
    DmsOfMagnitude(Abs(value))
  }

  function DmsOfMagnitude(v: real): (r: Dms)
    requires v >= 0.0
    ensures r.deg as real <= v < r.deg as real + 1.0
    ensures r.deg == v.Floor
    ensures r.min == ((v - r.deg as real) * 60.0).Floor
    ensures r.min <= 59
    ensures r.sec <= 60
    ensures 3600 * r.deg + 60 * r.min + r.sec == Round(v * 3600.0)
  {
    var v1 := v.Floor;
    var frac := v - v1 as real;
    var v2 := (frac * 60.0).Floor;
    var scaled := frac * 3600.0;
    // `%` on a non-negative dividend: the remainder after whole minutes
    var rem := scaled - 60.0 * (scaled / 60.0).Floor as real;
    assert (scaled / 60.0).Floor == v2;
    assert 0.0 <= rem < 60.0;
    var v3 := Round(rem);
    RoundShift(rem, 60 * v2);
    RoundShift(scaled, 3600 * v1);
    assert v * 3600.0 == scaled + (3600 * v1) as real;
    Dms(v1, v2, v3)
  }

  /**
   * `Util.formatUtil`: `D°M'S"`. Cutting the text at `°`, `'` and `"`
   * gives three numerals that read back as the degrees, minutes and
   * seconds of DmsOf, with nothing after the final `"`.
   */
  function FormatUtil(value: real): (text: string)
    ensures var p := Split(text, '°');
            |p| == 2 && ParseDigits(p[0], 10) == DmsOf(value).deg &&
            var q := Split(p[1], '\'');
            |q| == 2 && ParseDigits(q[0], 10) == DmsOf(value).min &&
            var r := Split(q[1], '"');
            |r| == 2 && ParseDigits(r[0], 10) == DmsOf(value).sec && r[1] == ""
  {
    var d := DmsOf(value);
    ParseDigitsOfDigits(d.deg, 10);
    ParseDigitsOfDigits(d.min, 10);
    ParseDigitsOfDigits(d.sec, 10);
    DecimalHasNoMarks(d.deg);
    DecimalHasNoMarks(d.min);
    DecimalHasNoMarks(d.sec);
    SplitAtMarks(Decimal(d.deg), Decimal(d.min), Decimal(d.sec));
    Decimal(d.deg) + "°" + Decimal(d.min) + "'" + Decimal(d.sec) + "\""
  }

  /** A decimal numeral holds none of the marks `°`, `'` and `"`. */
  lemma DecimalHasNoMarks(n: nat)
    ensures '°' !in Decimal(n) && '\'' !in Decimal(n) && '"' !in Decimal(n)
  {
    var s := Decimal(n);
    assert forall k :: 0 <= k < |s| ==> IsDigitOf(s[k], 10);
  }

  /** How `a°b'c"` splits at its three marks when the parts hold none of them. */
  lemma SplitAtMarks(a: string, b: string, c: string)
    requires '°' !in a && '°' !in b && '°' !in c
    requires '\'' !in b && '\'' !in c && '"' !in c
    ensures var t := a + "°" + b + "'" + c + "\"";
            Split(t, '°') == [a, b + "'" + c + "\""] &&
            Split(b + "'" + c + "\"", '\'') == [b, c + "\""] &&
            Split(c + "\"", '"') == [c, ""]
  {
    var tail := c + "\"";
    var rest := b + "'" + tail;
    assert '°' !in rest by {
      assert rest == b + ['\''] + c + ['"'];
    }
    assert b + "'" + c + "\"" == rest;
    assert a + "°" + b + "'" + c + "\"" == a + ['°'] + rest;
    SplitOnce(a, '°', rest);
    assert '\'' !in tail by {
      assert tail == c + ['"'];
    }
    assert rest == b + ['\''] + tail;
    SplitOnce(b, '\'', tail);
    assert tail == c + ['"'] + "";
    SplitOnce(c, '"', "");
  }

  /** A string with one separator splits into the text before and after it. */
  lemma SplitOnce(x: string, c: char, y: string)
    requires c !in x && c !in y
    ensures Split(x + [c] + y, c) == [x, y]
  {
    SplitAppend(x, c, y);
    SplitNoSeparator(y, c);
  }

  /** The sign of the value is not shown. */
  lemma FormatUtilIgnoresSign(value: real)
    ensures FormatUtil(-value) == FormatUtil(value)
  {
    assert Abs(-value) == Abs(value);
  }

  /** Just below a whole degree the seconds are printed as 60. */
  lemma FormatUtilPrintsSixtySeconds()
    ensures DmsOf(0.99999) == Dms(0, 59, 60)
    ensures FormatUtil(0.99999) == "0°59'60\""
  {
    var v := 0.99999;
    assert v.Floor == 0;
    assert (v * 60.0).Floor == 59;
    assert (v * 3600.0 / 60.0).Floor == 59;
    assert Round(v * 3600.0 - 60.0 * 59.0) == 60;
    assert Decimal(60) == "60" by {
      assert 60 / 10 == 6 && 60 % 10 == 0;
    }
    assert Decimal(59) == "59" by {
      assert 59 / 10 == 5 && 59 % 10 == 9;
    }
  }

  /**
   * Degrees, minutes and seconds with the rounding carried: the total is
   * split after rounding, so seconds and minutes stay below 60.
   */
  function DmsCarried(value: real): (r: Dms)
    ensures r.min < 60 && r.sec < 60
    ensures 3600 * r.deg + 60 * r.min + r.sec == Round(Abs(value) * 3600.0)
  {
    var total := Round(Abs(value) * 3600.0);
    assert total >= 0;
    Dms(total / 3600, (total % 3600) / 60, total % 60)
  }

  /** Where the printed seconds are below 60, the carried split prints the same. */
  lemma DmsCarriedAgrees(value: real)
    requires DmsOf(value).sec < 60
    ensures DmsCarried(value) == DmsOf(value)
  {
    var d := DmsOf(value);
    var c := DmsCarried(value);
    var total := 3600 * d.deg + 60 * d.min + d.sec;
    assert total == 3600 * c.deg + 60 * c.min + c.sec;
    assert total / 3600 == d.deg;
    assert total % 60 == d.sec;
  }

  /** The marker events `Util.checkMarkerEvent` accepts. */
  const MarkerEvents: seq<string> :=
    ["click", "mouseover", "mouseout", "drag", "dragend", "dragstart", "movestart", "moveend"]

  /** `Util.checkMarkerEvent`: only a string naming a supported marker event passes. */
  predicate CheckMarkerEvent(eventStr: JsValue)
  {
    TypeOf(eventStr) == "string" && eventStr.s in MarkerEvents
  }

  lemma CheckMarkerEventExactly(eventStr: JsValue)
    ensures CheckMarkerEvent(eventStr) <==>
            exists k :: 0 <= k < |MarkerEvents| && eventStr == Str(MarkerEvents[k])
  {
    if CheckMarkerEvent(eventStr) {
      var k :| 0 <= k < |MarkerEvents| && MarkerEvents[k] == eventStr.s;
    }
  }

  /** A normalised coordinate pair. */
  datatype LatLng = LatLng(lat: real, lng: real)

  /** The latitude candidate `latLng.lat || latLng[0]`. */
  function LatPart(latLng: JsValue): JsValue
    requires !latLng.Undefined? && !latLng.Null?
  {
    Or(Get(latLng, "lat"), Get(latLng, "0"))
  }

  /** The longitude candidate `latLng.lng || latLng.lon || latLng[1]`. */
  function LngPart(latLng: JsValue): JsValue
    requires !latLng.Undefined? && !latLng.Null?
  {
    Or(Or(Get(latLng, "lng"), Get(latLng, "lon")), Get(latLng, "1"))
  }

  /**
   * `Util.checkLatLng`: an object whose latitude and longitude candidates
   * are numbers. Reading a property of `null` throws.
   */
  function CheckLatLng(latLng: JsValue): (r: Result<bool>)
    ensures r.Throw? <==> latLng.Null?
    ensures r == Ok(true) ==> TypeOf(latLng) == "object"
    ensures TypeOf(latLng) != "object" ==> r == Ok(false)
  {
    if TypeOf(latLng) != "object" then Ok(false)
    else if latLng.Null? then Throw(TypeError)
    else Ok(TypeOf(LatPart(latLng)) == "number" && TypeOf(LngPart(latLng)) == "number")
  }

  /**
   * An array whose first two items are numbers passes, zeros included:
   * `latLng[0]` and `latLng[1]` are numbers whatever their truthiness.
   */
  lemma CheckLatLngArray(lat: real, lng: real, rest: seq<JsValue>)
    ensures CheckLatLng(Arr([Num(lat), Num(lng)] + rest)) == Ok(true)
  {
    var items := [Num(lat), Num(lng)] + rest;
    GetArrayIndex(items, 0);
    GetArrayIndex(items, 1);
    assert Decimal(0) == "0" && Decimal(1) == "1";
  }

  /**
   * `{lat, lng}` and `{lat, lon}` pass only with both numbers non-zero: a
   * zero falls through `||` to the absent key `0` or `1`, which is undefined.
   */
  lemma CheckLatLngObject(lat: real, lng: real, lngKey: string)
    requires lngKey == "lng" || lngKey == "lon"
    ensures CheckLatLng(Obj(map["lat" := Num(lat), lngKey := Num(lng)])) == Ok(lat != 0.0 && lng != 0.0)
  {
  }

  /**
   * `Util.formatLatLng`: builds `{lat, lng}` from the candidates and returns
   * it if `checkLatLng` accepts it, else `null`. Only truthy numbers survive
   * the `||` chains, so a zero coordinate is rejected.
   */
  function FormatLatLng(latLng: JsValue): (r: Result<Option<LatLng>>)
    ensures r.Throw? <==> latLng.Undefined? || latLng.Null?
    ensures r.Ok? && r.value.Some? ==>
              LatPart(latLng) == Num(r.value.value.lat) && r.value.value.lat != 0.0 &&
              LngPart(latLng) == Num(r.value.value.lng) && r.value.value.lng != 0.0
    ensures r.Ok? && r.value.None? ==>
              !(LatPart(latLng).Num? && Truthy(LatPart(latLng))) ||
              !(LngPart(latLng).Num? && Truthy(LngPart(latLng)))
  {
    if latLng.Undefined? || latLng.Null? then Throw(TypeError)
    else
      var lat := LatPart(latLng);
      var lng := LngPart(latLng);
      var c := Obj(map["lat" := lat, "lng" := lng]);
      match CheckLatLng(c)
      case Ok(true) => Ok(Some(LatLng(lat.n, lng.n)))
      case _ => Ok(None)
  }

  /** The array form `[lat, lng]` is accepted exactly when both numbers are non-zero. */
  lemma FormatLatLngArray(lat: real, lng: real, rest: seq<JsValue>)
    ensures FormatLatLng(Arr([Num(lat), Num(lng)] + rest)) ==
            if lat != 0.0 && lng != 0.0 then Ok(Some(LatLng(lat, lng))) else Ok(None)
  {
    var items := [Num(lat), Num(lng)] + rest;
    GetArrayIndex(items, 0);
    GetArrayIndex(items, 1);
    assert Decimal(0) == "0" && Decimal(1) == "1";
  }

  /** The object forms `{lat, lng}` and `{lat, lon}` behave the same way. */
  lemma FormatLatLngObject(lat: real, lng: real, lngKey: string)
    requires lngKey == "lng" || lngKey == "lon"
    ensures FormatLatLng(Obj(map["lat" := Num(lat), lngKey := Num(lng)])) ==
            if lat != 0.0 && lng != 0.0 then Ok(Some(LatLng(lat, lng))) else Ok(None)
  {
  }

  /** A point on the equator is rejected although it is a valid coordinate. */
  lemma FormatLatLngRejectsEquator()
    ensures FormatLatLng(Arr([Num(0.0), Num(116.4)])) == Ok(None)
  {
    FormatLatLngArray(0.0, 116.4, []);
    assert [Num(0.0), Num(116.4)] + [] == [Num(0.0), Num(116.4)];
  }

  /**
   * `formatLatLng` with the candidates chosen by type instead of by
   * truthiness: a key is used when it holds a number.
   */
  function PickNumber(first: JsValue, second: JsValue): JsValue
  {
    if first.Num? then first else second
  }

  function FormatLatLngByType(latLng: JsValue): (r: Result<Option<LatLng>>)
    ensures r.Throw? <==> latLng.Undefined? || latLng.Null?
  {
    if latLng.Undefined? || latLng.Null? then Throw(TypeError)
    else
      var lat := PickNumber(Get(latLng, "lat"), Get(latLng, "0"));
      var lng := PickNumber(Get(latLng, "lng"), PickNumber(Get(latLng, "lon"), Get(latLng, "1")));
      if lat.Num? && lng.Num? then Ok(Some(LatLng(lat.n, lng.n))) else Ok(None)
  }

  /** Every numeric pair, zero included, is accepted in the array and object forms. */
  lemma FormatLatLngByTypeAcceptsAll(lat: real, lng: real)
    ensures FormatLatLngByType(Arr([Num(lat), Num(lng)])) == Ok(Some(LatLng(lat, lng)))
    ensures FormatLatLngByType(Obj(map["lat" := Num(lat), "lng" := Num(lng)])) == Ok(Some(LatLng(lat, lng)))
  {
    GetArrayIndex([Num(lat), Num(lng)], 0);
    GetArrayIndex([Num(lat), Num(lng)], 1);
    assert Decimal(0) == "0" && Decimal(1) == "1";
  }

  /**
   * Where the original accepts an array or a `{lat, lng}` object, the
   * by-type version returns the same pair.
   */
  lemma FormatLatLngByTypeExtends(latLng: JsValue)
    requires FormatLatLng(latLng).Ok? && FormatLatLng(latLng).value.Some?
    requires latLng.Arr? || (latLng.Obj? && latLng.props.Keys <= {"lat", "lng"})
    ensures FormatLatLngByType(latLng) == FormatLatLng(latLng)
  {
  }

  /**
   * `Util.GetWindDStringByAngle` on an already parsed angle: the
   * eight-point name of the direction the wind blows from, or, with
   * `reverse`, of the opposite direction. The open sectors leave their
   * eight 22.5-degree edges unnamed.
   */
  function WindNameByAngle(angle: real, reverse: bool): string
  {
    if angle == 0.0 || angle == 360.0 then (if reverse then "南风" else "北风")
    else if 360.0 - 22.5 < angle || angle < 22.5 then (if reverse then "偏南风" else "偏北风")
    else if angle > 22.5 && angle < 90.0 - 22.5 then (if reverse then "西南风" else "东北风")
    else if angle == 90.0 then (if reverse then "西风" else "东风")
    else if 90.0 - 22.5 < angle && angle < 90.0 + 22.5 then (if reverse then "偏西风" else "偏东风")
    else if 90.0 + 22.5 < angle && angle < 180.0 - 22.5 then (if reverse then "西北风" else "东南风")
    else if angle == 180.0 then (if reverse then "北风" else "南风")
    else if 180.0 - 22.5 < angle && angle < 180.0 + 22.5 then (if reverse then "偏北风" else "偏南风")
    else if 180.0 + 22.5 < angle && angle < 270.0 - 22.5 then (if reverse then "东北风" else "西南风")
    else if angle == 270.0 then (if reverse then "东风" else "西风")
    else if 270.0 - 22.5 < angle && angle < 270.0 + 22.5 then (if reverse then "偏东风" else "偏西风")
    else if 270.0 + 22.5 < angle && angle < 360.0 - 22.5 then (if reverse then "东南风" else "西北风")
    else ""
  }

  /** The edges 22.5 + 45k (k = 0..7) between the eight sectors. */
  predicate IsSectorEdge(angle: real)
  {
    angle == 22.5 || angle == 67.5 || angle == 112.5 || angle == 157.5 ||
    angle == 202.5 || angle == 247.5 || angle == 292.5 || angle == 337.5
  }

  /** Exactly the sector edges get no name, for every angle and either flag. */
  lemma WindNameEmptyOnlyOnEdges(angle: real, reverse: bool)
    ensures WindNameByAngle(angle, reverse) == "" <==> IsSectorEdge(angle)
  {
  }

  function Opposite(angle: real): real
  {
    if angle < 180.0 then angle + 180.0 else angle - 180.0
  }

  /** For angles in [0, 360), `reverse` names the opposite direction. */
  lemma WindNameReverseIsOpposite(angle: real)
    requires 0.0 <= angle < 360.0
    ensures WindNameByAngle(angle, true) == WindNameByAngle(Opposite(angle), false)
  {
    if angle < 180.0 {
      assert Opposite(angle) == angle + 180.0;
    } else {
      assert Opposite(angle) == angle - 180.0;
    }
  }

  predicate Sorted(s: seq<real>)
  {
    forall i, j :: 0 <= i < j < |s| ==> s[i] <= s[j]
  }

  /** A JavaScript array of numbers, updated in place by `splice`. */
  class NumArray {
    var items: seq<real>

    constructor (items: seq<real>)
      ensures this.items == items
    {
      this.items := items;
    }
  }

  lemma SortedJoin(l: seq<real>, pivot: real, r: seq<real>)
    requires Sorted(l) && Sorted(r)
    requires forall x :: x in l ==> x < pivot
    requires forall x :: x in r ==> pivot <= x
    ensures Sorted(l + [pivot] + r)
  {
    var s := l + [pivot] + r;
    forall i, j | 0 <= i < j < |s| ensures s[i] <= s[j] {
      if j < |l| {
      } else if i < |l| {
        assert s[i] in l;
        if j > |l| { assert s[j] in r; }
      } else if i == |l| {
        assert s[j] in r;
      }
    }
  }

  /** A permutation keeps any bound that holds for every element. */
  lemma PermutationKeepsBounds(a: seq<real>, b: seq<real>, lo: real, strict: bool)
    requires multiset(a) == multiset(b)
    requires forall x :: x in b ==> (if strict then x < lo else lo <= x)
    ensures forall x :: x in a ==> (if strict then x < lo else lo <= x)
  {
    forall x | x in a ensures (if strict then x < lo else lo <= x) {
      assert x in multiset(a);
      assert x in b;
    }
  }

  /**
   * `Util.quickSort`: returns the numbers in ascending order. As in the
   * source, `splice` removes the middle element from the caller's array.
   */
  method QuickSort(arr: NumArray) returns (sorted: seq<real>)
    modifies arr
    ensures Sorted(sorted)
    ensures multiset(sorted) == multiset(old(arr.items))
    ensures |old(arr.items)| <= 1 ==> arr.items == old(arr.items)
    ensures |old(arr.items)| > 1 ==>
              arr.items == old(arr.items)[..|old(arr.items)| / 2] + old(arr.items)[|old(arr.items)| / 2 + 1..]
    decreases |arr.items|
  {
    if |arr.items| <= 1 {
      return arr.items;
    }
    ghost var before := arr.items;
    var pivotIndex := |arr.items| / 2;
    var pivot := arr.items[pivotIndex];
    arr.items := arr.items[..pivotIndex] + arr.items[pivotIndex + 1..];
    ghost var spliced := arr.items;
    assert before == spliced[..pivotIndex] + [pivot] + spliced[pivotIndex..];
    assert multiset(before) == multiset(spliced) + multiset{pivot} by {
      assert spliced == spliced[..pivotIndex] + spliced[pivotIndex..];
    }
    var l, r := Partition(arr.items, pivot);
    var left := new NumArray(l);
    var right := new NumArray(r);
    var sl := QuickSort(left);
    var sr := QuickSort(right);
    PermutationKeepsBounds(sl, l, pivot, true);
    PermutationKeepsBounds(sr, r, pivot, false);
    SortedJoin(sl, pivot, sr);
    sorted := sl + [pivot] + sr;
    assert multiset(sorted) == multiset(sl) + multiset{pivot} + multiset(sr);
  }

  /** The `for` loop of `Util.quickSort`: smaller numbers go left, the rest right. */
  method Partition(items: seq<real>, pivot: real) returns (left: seq<real>, right: seq<real>)
    ensures multiset(left) + multiset(right) == multiset(items)
    ensures forall x :: x in left ==> x < pivot
    ensures forall x :: x in right ==> pivot <= x
  {
    left, right := [], [];
    var i := 0;
    while i < |items|
      invariant 0 <= i <= |items|
      invariant multiset(left) + multiset(right) == multiset(items[..i])
      invariant forall x :: x in left ==> x < pivot
      invariant forall x :: x in right ==> pivot <= x
    {
      if items[i] < pivot {
        left := left + [items[i]];
      } else {
        right := right + [items[i]];
      }
      assert items[..i + 1] == items[..i] + [items[i]];
      i := i + 1;
    }
    assert items[..i] == items;
  }

  /** The first occurrences in `s`, in order: what `Util.uniq` keeps. */
  function Dedup<T(==)>(s: seq<T>): (r: seq<T>)
  {
    if |s| == 0 then []
    else
      var d := Dedup(s[..|s| - 1]);
      if s[|s| - 1] in d then d else d + [s[|s| - 1]]
  }

  predicate NoDuplicates<T(==)>(s: seq<T>)
  {
    forall i, j :: 0 <= i < j < |s| ==> s[i] != s[j]
  }

  /** `Util.uniq`: the loop pushes each element not yet in the result. */
  method Uniq<T(==)>(values: seq<T>) returns (temp: seq<T>)
    ensures temp == Dedup(values)
    ensures NoDuplicates(temp)
    ensures forall x :: x in temp <==> x in values
  {
    temp := [];
    var i := 0;
    while i < |values|
      invariant 0 <= i <= |values|
      invariant temp == Dedup(values[..i])
    {
      assert values[..i + 1][..i] == values[..i];
      if values[i] !in temp {
        temp := temp + [values[i]];
      }
      i := i + 1;
    }
    assert values[..i] == values;
    DedupNoDuplicates(values);
    DedupSameElements(values);
  }

  lemma {:induction false} DedupNoDuplicates<T>(s: seq<T>)
    ensures NoDuplicates(Dedup(s))
  {
    if |s| > 0 {
      DedupNoDuplicates(s[..|s| - 1]);
    }
  }

  lemma {:induction false} DedupSameElements<T>(s: seq<T>)
    ensures forall x :: x in Dedup(s) <==> x in s
  {
    if |s| > 0 {
      var init := s[..|s| - 1];
      DedupSameElements(init);
      assert s == init + [s[|s| - 1]];
    }
  }

  lemma DedupMember<T>(s: seq<T>, x: T)
    requires x in Dedup(s)
    ensures x in s
  {
    DedupSameElements(s);
  }

  /** The index of the first occurrence of `x` in `s`. */
  function FirstIndex<T(==)>(s: seq<T>, x: T): (k: nat)
    requires x in s
    ensures k < |s| && s[k] == x
    ensures forall j :: 0 <= j < k ==> s[j] != x
  {
    if s[0] == x then 0 else 1 + FirstIndex(s[1..], x)
  }

  /** Earlier entries of the result first occur earlier in the input. */
  lemma {:induction false} DedupKeepsFirstOccurrenceOrder<T>(s: seq<T>, i: nat, j: nat)
    requires i < j < |Dedup(s)|
    ensures Dedup(s)[i] in s && Dedup(s)[j] in s
    ensures FirstIndex(s, Dedup(s)[i]) < FirstIndex(s, Dedup(s)[j])
  {
    DedupSameElements(s);
    assert |s| > 0;
    var init := s[..|s| - 1];
    var d := Dedup(init);
    var last := s[|s| - 1];
    DedupSameElements(init);
    assert Dedup(s) == d || Dedup(s) == d + [last];
    if j < |d| {
      DedupKeepsFirstOccurrenceOrder(init, i, j);
      FirstIndexPrefix(s, init, d[i]);
      FirstIndexPrefix(s, init, d[j]);
    } else {
      // d[j] is the last element of s, and it does not occur earlier
      assert Dedup(s) == d + [last];
      assert Dedup(s)[j] == last && last !in init;
      assert d[i] in d;
      DedupMember(init, d[i]);
      FirstIndexPrefix(s, init, d[i]);
      assert FirstIndex(s, last) == |s| - 1 by {
        forall k | 0 <= k < |s| - 1 ensures s[k] != last {
          assert s[k] == init[k];
        }
      }
    }
  }

  lemma FirstIndexPrefix<T>(s: seq<T>, init: seq<T>, x: T)
    requires |init| <= |s| && init == s[..|init|] && x in init
    ensures x in s && FirstIndex(s, x) == FirstIndex(init, x)
  {
    var k := FirstIndex(init, x);
    assert s[k] == x;
    assert forall j :: 0 <= j < k ==> s[j] == init[j];
    FirstIndexUnique(s, x, k);
  }

  lemma FirstIndexUnique<T>(s: seq<T>, x: T, k: nat)
    requires k < |s| && s[k] == x
    requires forall j :: 0 <= j < k ==> s[j] != x
    ensures FirstIndex(s, x) == k
  {
  }
}
