/** The JavaScript values a where object can be built from, and the few
    operations of the language the filter compiler relies on: truthiness,
    string conversion, property reads and `for...in` enumeration. */
module JsValues {
  import opened Joins

  /** A property of a plain object. */
  datatype Prop = Prop(key: string, value: JsValue)

  /** A JavaScript value, as far as the where renderer can observe it.
      `Num` carries the number's string form (`Number::toString`, so `-0`
      is `"0"` and NaN is `"NaN"`); `Obj` is a plain object whose own
      enumerable properties are listed in the engine's enumeration order. */
  datatype JsValue =
    | Undefined
    | Null
    | Bool(b: bool)
    | Num(text: string)
    | Str(s: string)
    | Arr(items: seq<JsValue>)
    | Obj(props: seq<Prop>)

  predicate Nullish(v: JsValue)
  {
    v.Undefined? || v.Null?
  }

  /** JavaScript truthiness: `undefined`, `null`, `false`, `0`, `-0`, `NaN`
      and `""` are falsy; every array and object is truthy, even an empty one. */
  predicate Truthy(v: JsValue)
  {
    match v
    case Undefined => false
    case Null => false
    case Bool(b) => b
    case Num(text) => text != "0" && text != "NaN"
    case Str(s) => s != ""
    case Arr(_) => true
    case Obj(_) => true
  }

  /** `${v}`: the string a template literal interpolates. An array is
      converted by `join(",")`, which writes `null` and `undefined`
      elements as the empty string. */
  function Render(v: JsValue): string
    decreases v
  {
    match v
    case Undefined => "undefined"
    case Null => "null"
    case Bool(b) => if b then "true" else "false"
    case Num(text) => text
    case Str(s) => s
    case Arr(items) =>
      Join(seq(|items|, i requires 0 <= i < |items| =>
                 if Nullish(items[i]) then "" else Render(items[i])), ",")
    case Obj(_) => "[object Object]"
  }

  /** The string `Array.prototype.join` writes for one element. */
  function JoinElement(v: JsValue): string
  {
    if Nullish(v) then "" else Render(v)
  }

  /** `items.join(sep)` on an array of arbitrary values. */
  function JoinValues(items: seq<JsValue>, sep: string): string
  {
    Join(seq(|items|, i requires 0 <= i < |items| => JoinElement(items[i])), sep)
  }

  /** Index of the first property called `key`, or `|props|` when there is none. */
  function FindKey(props: seq<Prop>, key: string): (i: nat)
    ensures i <= |props|
    ensures i < |props| ==> props[i].key == key
    ensures forall k :: 0 <= k < i ==> props[k].key != key
  {
    if |props| == 0 then 0
    else if props[0].key == key then 0
    else 1 + FindKey(props[1..], key)
  }

  /** Own property lookup: the value of `key`, `undefined` when it is missing. */
  function Lookup(props: seq<Prop>, key: string): JsValue
  {
    var i := FindKey(props, key);
    if i < |props| then props[i].value else Undefined
  }

  /** `v.name` on a value that is neither `null` nor `undefined`, for the
      property names the renderer reads (`and`, `or`, `eq` ... `between`).
      No array, string, number or boolean has an own or inherited property
      of one of these names, so for them the read gives `undefined`. */
  function GetNamed(v: JsValue, name: string): JsValue
  {
    if v.Obj? then Lookup(v.props, name) else Undefined
  }

  /** Decimal digits of a natural number: the property key JavaScript uses for an index. */
  function DecimalString(n: nat): (r: string)
    ensures |r| > 0
    ensures forall i :: 0 <= i < |r| ==> '0' <= r[i] <= '9'
  {
    if n < 10 then [Digit(n)] else DecimalString(n / 10) + [Digit(n % 10)]
  }

  function Digit(d: nat): (c: char)
    requires d < 10
    ensures '0' <= c <= '9'
  {
    "0123456789"[d]
  }

  /** `v[i]` on a truthy value: an element of an array, a one-character
      string of a string, the property `"i"` of an object, otherwise `undefined`. */
  function GetIndex(v: JsValue, i: nat): JsValue
  {
    match v
    case Arr(items) => if i < |items| then items[i] else Undefined
    case Str(s) => if i < |s| then Str([s[i]]) else Undefined
    case Obj(props) => Lookup(props, DecimalString(i))
    case _ => Undefined
  }

  /** The key/value pairs `for (const key in v)` visits with `v[key]`:
      an object's properties, an array's or a string's indices, nothing for
      the other primitives. */
  function Entries(v: JsValue): (es: seq<Prop>)
    ensures v.Obj? ==> es == v.props
    ensures v.Arr? ==>
      |es| == |v.items| && forall i :: 0 <= i < |es| ==> es[i] == Prop(DecimalString(i), v.items[i])
    ensures v.Str? ==>
      |es| == |v.s| && forall i :: 0 <= i < |es| ==> es[i] == Prop(DecimalString(i), Str([v.s[i]]))
    ensures !v.Obj? && !v.Arr? && !v.Str? ==> es == []
  {
    match v
    case Obj(props) => props
    case Arr(items) => seq(|items|, i requires 0 <= i < |items| => Prop(DecimalString(i), items[i]))
    case Str(s) => seq(|s|, i requires 0 <= i < |s| => Prop(DecimalString(i), Str([s[i]])))
    case _ => []
  }

  /** `Object.keys(v)` for a truthy value: an object's own property names
      in order, the indices of an array or a string in decimal, nothing for
      the other primitives. */
  function OwnKeys(v: JsValue): (keys: seq<string>)
    ensures v.Obj? ==> |keys| == |v.props| && forall i :: 0 <= i < |keys| ==> keys[i] == v.props[i].key
    ensures v.Arr? ==> |keys| == |v.items| && forall i :: 0 <= i < |keys| ==> keys[i] == DecimalString(i)
    ensures v.Str? ==> |keys| == |v.s| && forall i :: 0 <= i < |keys| ==> keys[i] == DecimalString(i)
    ensures !v.Obj? && !v.Arr? && !v.Str? ==> keys == []
  {
    var es := Entries(v);
    seq(|es|, i requires 0 <= i < |es| => es[i].key)
  }

  /** An index key is never one of the names the renderer treats specially. */
  lemma IndexKeyIsDigits(n: nat)
    ensures DecimalString(n) != "and" && DecimalString(n) != "or"
  {
    var d := DecimalString(n);
    assert '0' <= d[0] <= '9';
  }
}
