/**
 * `DataUtil.clone`, a shallow copy of the properties `for ... in` visits,
 * and `DataUtil.deepMerge`, which merges a second value into the first:
 * two plain objects key by key (recursively wherever the first has a
 * truthy value), two arrays by concatenation, and anything else by taking
 * the second value.
 */
module DataUtil {
  import opened Text
  import opened JsValues

  /** The keys `for ... in` visits on an array: its indices, as strings. */
  function IndexKeys(n: nat): set<string>
  {
    set k | 0 <= k < n :: Decimal(k)
  }

  /** The properties `for ... in` visits on an object or an array, by key. */
  function OwnProps(v: JsValue): map<string, JsValue>
    requires v.Obj? || v.Arr?
  {
    if v.Obj? then v.props
    else map key | key in IndexKeys(|v.items|) :: Get(v, key)
  }

  /** What `clone` returns: anything whose `typeof` is not `"object"`, and `null`, as it is; otherwise a fresh plain object with the same properties. */
  function Cloned(v: JsValue): JsValue
  {
    if TypeOf(v) != "object" || Nullish(v) then v else Obj(OwnProps(v))
  }

  /** `DataUtil.clone(object)`, copying one property per iteration. */
  method Clone(value: JsValue) returns (r: JsValue)
    ensures r == Cloned(value)
  {
    if TypeOf(value) != "object" || Nullish(value) {
      return value;
    }
    ghost var props := OwnProps(value);
    var newObj: map<string, JsValue> := map[];
    var todo := OwnProps(value).Keys;
    while todo != {}
      invariant todo <= props.Keys
      invariant newObj.Keys == props.Keys - todo
      invariant forall key :: key in newObj ==> newObj[key] == props[key]
      decreases todo
    {
      var s :| s in todo;
      assert Get(value, s) == props[s];
      newObj := newObj[s := Get(value, s)];
      todo := todo - {s};
    }
    assert newObj == props;
    r := Obj(newObj);
  }

  /** Cloning an object copies every property and adds none; anything else but an array is returned as it is. */
  lemma CloneCopiesObject(v: JsValue)
    ensures v.Obj? ==> Cloned(v).Obj? && Cloned(v).props == v.props
    ensures !v.Obj? && !v.Arr? ==> Cloned(v) == v
  {
  }

  /**
   * Cloning an array gives a plain object, no longer an array, whose keys
   * are the index strings and whose values are the elements.
   */
  lemma CloneOfArray(items: seq<JsValue>)
    ensures Cloned(Arr(items)).Obj?
    ensures Cloned(Arr(items)).props.Keys == IndexKeys(|items|)
    ensures forall i :: 0 <= i < |items| ==> Cloned(Arr(items)).props[Decimal(i)] == items[i]
  {
    forall i | 0 <= i < |items|
      ensures Cloned(Arr(items)).props[Decimal(i)] == items[i]
    {
      assert Decimal(i) in IndexKeys(|items|);
      GetArrayIndex(items, i);
    }
  }

  /** What `deepMerge(obj1, obj2)` returns (and, for two plain objects, what `obj1` becomes). */
  function Merged(a: JsValue, b: JsValue): JsValue
    decreases b
  {
    if a.Obj? && b.Obj? then
      Obj(map k | k in a.props.Keys + b.props.Keys ::
            if k !in b.props then a.props[k]
            else if k !in a.props || !Truthy(a.props[k]) then b.props[k]
            else Merged(a.props[k], b.props[k]))
    else if a.Arr? && b.Arr? then Arr(a.items + b.items)
    else b
  }

  /** `DataUtil.deepMerge(obj1, obj2)`, merging one key of `obj2` per iteration. */
  method DeepMerge(obj1: JsValue, obj2: JsValue) returns (r: JsValue)
    ensures r == Merged(obj1, obj2)
    decreases obj2
  {
    if obj1.Obj? && obj2.Obj? {
      var a, b := obj1.props, obj2.props;
      var acc := a;
      var todo := b.Keys;
      while todo != {}
        invariant todo <= b.Keys
        invariant acc.Keys == a.Keys + (b.Keys - todo)
        invariant forall k :: k in acc ==> acc[k] == if k in b.Keys - todo then Merged(obj1, obj2).props[k] else a[k]
        decreases todo
      {
        var prop2 :| prop2 in todo;
        assert prop2 in acc <==> prop2 in a;
        if prop2 !in acc || !Truthy(acc[prop2]) {
          acc := acc[prop2 := b[prop2]];
        } else {
          var m := DeepMerge(acc[prop2], b[prop2]);
          acc := acc[prop2 := m];
        }
        todo := todo - {prop2};
      }
      assert acc == Merged(obj1, obj2).props;
      r := Obj(acc);
    } else if obj1.Arr? && obj2.Arr? {
      r := Arr(obj1.items + obj2.items);
    } else {
      r := obj2;
    }
  }

  /** Merging two plain objects keeps every key of either, and what only the first has is untouched. */
  lemma MergeKeys(a: JsValue, b: JsValue)
    requires a.Obj? && b.Obj?
    ensures Merged(a, b).Obj?
    ensures Merged(a, b).props.Keys == a.props.Keys + b.props.Keys
    ensures forall k :: k in a.props && k !in b.props ==> Merged(a, b).props[k] == a.props[k]
  {
  }

  /**
   * A value of the second object that is neither a plain object nor an
   * array always ends up under its key, whatever the first object holds.
   */
  lemma MergeTakesLeavesFromSecond(a: JsValue, b: JsValue, k: string)
    requires a.Obj? && b.Obj? && k in b.props
    requires !b.props[k].Obj? && !b.props[k].Arr?
    ensures Merged(a, b).props[k] == b.props[k]
  {
  }

  /** Under a key where the first object's value is falsy or missing, the second's value is taken whole. */
  lemma MergeFillsFalsy(a: JsValue, b: JsValue, k: string)
    requires a.Obj? && b.Obj? && k in b.props
    requires k !in a.props || !Truthy(a.props[k])
    ensures Merged(a, b).props[k] == b.props[k]
  {
  }

  /** Merging into an empty object gives the second object; merging an empty object changes nothing. */
  lemma MergeWithEmpty(m: map<string, JsValue>)
    ensures Merged(Obj(map[]), Obj(m)) == Obj(m)
    ensures Merged(Obj(m), Obj(map[])) == Obj(m)
  {
  }

  /**
   * Where the second object holds no arrays, merging it a second time
   * changes nothing: every key it reaches already holds its value.
   */
  lemma {:induction false} MergeTwiceNoArrays(a: JsValue, b: JsValue)
    requires NoArrays(b)
    ensures Merged(Merged(a, b), b) == Merged(a, b)
    decreases b
  {
    var m := Merged(a, b);
    if a.Obj? && b.Obj? {
      forall k | k in b.props
        ensures Merged(m, b).props[k] == m.props[k]
      {
        if k in a.props && Truthy(a.props[k]) {
          MergeTwiceNoArrays(a.props[k], b.props[k]);
          if !Truthy(m.props[k]) {
            MergedFalsy(a.props[k], b.props[k]);
          }
        } else {
          MergeSelf(b.props[k]);
        }
      }
      assert Merged(m, b) == m;
    } else if b.Obj? {
      MergeSelf(b);
    }
  }

  /** A merge result is falsy only if it is the second value itself. */
  lemma MergedFalsy(a: JsValue, b: JsValue)
    requires NoArrays(b) && !Truthy(Merged(a, b))
    ensures Merged(a, b) == b
  {
  }

  /** Merging a value without arrays into itself changes nothing. */
  lemma {:induction false} MergeSelf(v: JsValue)
    requires NoArrays(v)
    ensures Merged(v, v) == v
    decreases v
  {
    if v.Obj? {
      forall k | k in v.props && Truthy(v.props[k])
        ensures Merged(v.props[k], v.props[k]) == v.props[k]
      {
        MergeSelf(v.props[k]);
      }
      assert Merged(v, v).props == v.props;
    }
  }

  lemma MergeTakesLeaf(a: JsValue, b: JsValue)
    requires !b.Obj? && !b.Arr?
    ensures Merged(a, b) == b
  {
  }

  /** No array anywhere inside. */
  predicate NoArrays(v: JsValue)
    decreases v
  {
    match v
    case Arr(_) => false
    case Obj(m) => forall k :: k in m ==> NoArrays(m[k])
    case _ => true
  }

  /** Two arrays merge into their concatenation, the first's elements first. */
  lemma MergeArrays(x: seq<JsValue>, y: seq<JsValue>)
    ensures Merged(Arr(x), Arr(y)).items[..|x|] == x
    ensures Merged(Arr(x), Arr(y)).items[|x|..] == y
  {
  }
}
