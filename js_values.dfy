/** JavaScript values and plain objects, with the parts of their semantics the renderer helper
    and the grade queries rely on: nil tests (`_.isNil`, `_.isUndefined`), truthiness,
    `Number(...)`, property lookup, `_.omitBy`, object spread and `_.pick`.

    A plain object is the ordered list of its own enumerable properties, taken in the order
    JavaScript enumerates them, so that `for...in` and spread see that order. JavaScript lists
    integer-like keys first, in ascending order, then the others in insertion order; `Put`
    appends a new key at the end, which is that order for the keys used here (no parameter
    name is integer-like). A caller's form data is taken as already in enumeration order.
    Numbers are modelled as integers (plus NaN): no arithmetic on fractions is performed. */
module JsValues {
  import opened Outcomes

  datatype JsValue =
    | Undefined
    | Null
    | Bool(b: bool)
    | Num(n: int)
    | NaN
    | Str(s: string)
    | Arr(items: seq<JsValue>)
    | Obj(fields: seq<(string, JsValue)>)

  type Field = (string, JsValue)
  type Object = seq<Field>

  /** `_.isNil`: null or undefined. */
  predicate IsNil(v: JsValue) {
    v.Undefined? || v.Null?
  }

  /** `_.isUndefined`. */
  predicate IsUndefined(v: JsValue) {
    v.Undefined?
  }

  /** JavaScript truthiness. */
  predicate Truthy(v: JsValue) {
    match v
    case Undefined => false
    case Null => false
    case NaN => false
    case Bool(b) => b
    case Num(n) => n != 0
    case Str(s) => s != ""
    case Arr(_) => true
    case Obj(_) => true
  }

  /** The values a `boolean | number` parameter can hold. */
  predicate BooleanOrNumber(v: JsValue) {
    v.Undefined? || v.Null? || v.Bool? || v.Num? || v.NaN?
  }

  /** `Number(v)` on a `boolean | number` value (undefined gives NaN, null gives 0). */
  function ToNumber(v: JsValue): (r: JsValue)
    requires BooleanOrNumber(v)
    ensures r.Num? || r.NaN?
    ensures r.NaN? <==> v.Undefined? || v.NaN?
    ensures v.Null? ==> r == Num(0)
    ensures v.Bool? ==> r == Num(if v.b then 1 else 0)
    ensures v.Num? ==> r == v
  {
    match v
    case Undefined => NaN
    case Null => Num(0)
    case Bool(b) => Num(if b then 1 else 0)
    case Num(_) => v
    case NaN => NaN
  }

  /** The names of the object's own properties. */
  function KeysOf(o: Object): set<string> {
    if o == [] then {} else {o[0].0} + KeysOf(o[1..])
  }

  /** What a JavaScript object guarantees: no key occurs twice. */
  predicate DistinctKeys(o: Object) {
    o == [] || (o[0].0 !in KeysOf(o[1..]) && DistinctKeys(o[1..]))
  }

  /** `o[k]` on an own property: the value of the first field named k, if any. */
  function Lookup(o: Object, k: string): (r: Option<JsValue>)
    ensures r.Some? ==> (k, r.value) in o
    ensures r.None? <==> k !in KeysOf(o)
  {
    if o == [] then None
    else if o[0].0 == k then Some(o[0].1)
    else Lookup(o[1..], k)
  }

  /** No name occurs twice in the list. */
  predicate Unique(names: seq<string>) {
    forall i, j :: 0 <= i < j < |names| ==> names[i] != names[j]
  }

  /** The object literal whose i-th field is named keys[i] and holds values[i]. */
  function Zip(keys: seq<string>, values: seq<JsValue>): (o: Object)
    requires |keys| == |values|
    ensures |o| == |keys|
  {
    if keys == [] then [] else [(keys[0], values[0])] + Zip(keys[1..], values[1..])
  }

  lemma {:induction false} ZipKeys(keys: seq<string>, values: seq<JsValue>, k: string)
    requires |keys| == |values|
    ensures k in KeysOf(Zip(keys, values)) <==> k in keys
  {
    if keys != [] {
      ZipKeys(keys[1..], values[1..], k);
      assert keys == [keys[0]] + keys[1..];
    }
  }

  lemma {:induction false} ZipDistinct(keys: seq<string>, values: seq<JsValue>)
    requires |keys| == |values|
    requires Unique(keys)
    ensures DistinctKeys(Zip(keys, values))
  {
    if keys != [] {
      ZipDistinct(keys[1..], values[1..]);
      ZipKeys(keys[1..], values[1..], keys[0]);
    }
  }

  /** Each name of an object literal without repeated names looks up its own value. */
  lemma {:induction false} LookupZip(keys: seq<string>, values: seq<JsValue>, i: nat)
    requires |keys| == |values|
    requires Unique(keys)
    requires i < |keys|
    ensures Lookup(Zip(keys, values), keys[i]) == Some(values[i])
  {
    if i > 0 {
      LookupZip(keys[1..], values[1..], i - 1);
      assert keys[1..][i - 1] == keys[i];
      assert keys[0] != keys[i];
    }
  }

  /** `_(o).omitBy(drop).value()`: the fields whose value `drop` rejects are removed, the
      others keep their order. */
  function OmitBy(o: Object, drop: JsValue -> bool): (r: Object)
    ensures forall f :: f in r <==> f in o && !drop(f.1)
    ensures KeysOf(r) <= KeysOf(o)
  {
    if o == [] then []
    else if drop(o[0].1) then OmitBy(o[1..], drop)
    else [o[0]] + OmitBy(o[1..], drop)
  }

  /** `o[k] = v`: an existing field keeps its position and takes the new value; a new key is
      added at the end. */
  function Put(o: Object, k: string, v: JsValue): (r: Object)
    ensures KeysOf(r) == KeysOf(o) + {k}
  {
    if o == [] then [(k, v)]
    else if o[0].0 == k then [(k, v)] + o[1..]
    else [o[0]] + Put(o[1..], k, v)
  }

  /** `{...target, ...source}`: the fields of source are written onto target one by one. */
  function Assign(target: Object, source: Object): Object
    decreases |source|
  {
    if source == [] then target
    else Assign(Put(target, source[0].0, source[0].1), source[1..])
  }

  /** `_.pick(o, paths)`: for each path in turn, the field of that name when o has one. */
  function Pick(o: Object, paths: seq<string>): Object
  {
    if paths == [] then []
    else
      var rest := Pick(o, paths[1..]);
      match Lookup(o, paths[0])
      case Some(v) => Put([], paths[0], v) + rest
      case None => rest
  }

  lemma {:induction false} LookupOmitBy(o: Object, drop: JsValue -> bool, k: string)
    requires DistinctKeys(o)
    ensures DistinctKeys(OmitBy(o, drop))
    ensures Lookup(OmitBy(o, drop), k) ==
      match Lookup(o, k)
      case Some(v) => if drop(v) then None else Some(v)
      case None => None
  {
    if o != [] {
      LookupOmitBy(o[1..], drop, k);
    }
  }

  lemma {:induction false} LookupPut(o: Object, k: string, v: JsValue, k': string)
    ensures Lookup(Put(o, k, v), k') == if k' == k then Some(v) else Lookup(o, k')
  {
    if o != [] && o[0].0 != k {
      LookupPut(o[1..], k, v, k');
    }
  }

  lemma {:induction false} PutKeepsKeysDistinct(o: Object, k: string, v: JsValue)
    requires DistinctKeys(o)
    ensures DistinctKeys(Put(o, k, v))
  {
    if o != [] && o[0].0 != k {
      PutKeepsKeysDistinct(o[1..], k, v);
    }
  }

  /** Spread semantics: a key of source takes source's value, any other key keeps target's. */
  lemma {:induction false} LookupAssign(target: Object, source: Object, k: string)
    requires DistinctKeys(source)
    ensures Lookup(Assign(target, source), k) ==
      if Lookup(source, k).Some? then Lookup(source, k) else Lookup(target, k)
    decreases |source|
  {
    if source != [] {
      var t' := Put(target, source[0].0, source[0].1);
      assert DistinctKeys(source[1..]);
      LookupAssign(t', source[1..], k);
      LookupPut(target, source[0].0, source[0].1, k);
      if source[0].0 == k {
        assert Lookup(source[1..], k).None?;
      }
    }
  }

  lemma {:induction false} AssignKeepsKeysDistinct(target: Object, source: Object)
    requires DistinctKeys(target)
    ensures DistinctKeys(Assign(target, source))
    decreases |source|
  {
    if source != [] {
      PutKeepsKeysDistinct(target, source[0].0, source[0].1);
      AssignKeepsKeysDistinct(Put(target, source[0].0, source[0].1), source[1..]);
    }
  }

  /** `_.pick` keeps exactly the listed keys the object has, with their values. */
  lemma {:induction false} LookupPick(o: Object, paths: seq<string>, k: string)
    ensures Lookup(Pick(o, paths), k) == if k in paths then Lookup(o, k) else None
  {
    if paths != [] {
      LookupPick(o, paths[1..], k);
      var rest := Pick(o, paths[1..]);
      match Lookup(o, paths[0])
      case Some(v) =>
        assert Pick(o, paths) == [(paths[0], v)] + rest;
      case None =>
    }
  }
}
