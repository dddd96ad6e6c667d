/** JavaScript values as the three screens see them: the result of `JSON.parse` on a
    response body, plus `undefined`, the value of a property an object does not have.
    Only the operations the screens apply to such values are modelled: truthiness
    (`if (v)`, `v || d`), property reads, strict equality and string conversion. */
module JsValue {

  datatype Option<T> = None | Some(value: T)

  /** JSON numbers are modelled as integers (record ids, counts). */
  datatype Value =
    | Undefined
    | Null
    | Bool(b: bool)
    | Num(n: int)
    | Str(s: string)
    | Arr(elems: seq<Value>)
    | Obj(fields: map<string, Value>)

  /** What `if (v)` and `v || d` test. */
  predicate Truthy(v: Value) {
    match v
    case Undefined => false
    case Null => false
    case Bool(b) => b
    case Num(n) => n != 0
    case Str(s) => s != ""
    case Arr(_) => true
    case Obj(_) => true
  }

  /** `a || b` */
  function Or(a: Value, b: Value): Value {
    if Truthy(a) then a else b
  }

  /** Reading any property of `null` or `undefined` throws a TypeError. */
  predicate Readable(v: Value) {
    !v.Undefined? && !v.Null?
  }

  /** `v.key` for a readable `v`: an object's own property, `undefined` otherwise. */
  function Prop(v: Value, key: string): Value {
    if v.Obj? && key in v.fields then v.fields[key] else Undefined
  }

  /** `a === b` on values taken from JSON bodies: primitives compare by value; objects
      and arrays from separate parses are never the same reference. */
  predicate StrictEquals(a: Value, b: Value) {
    match (a, b)
    case (Undefined, Undefined) => true
    case (Null, Null) => true
    case (Bool(x), Bool(y)) => x == y
    case (Num(x), Num(y)) => x == y
    case (Str(x), Str(y)) => x == y
    case _ => false
  }

  /** Values that are not objects or arrays. */
  predicate Primitive(v: Value) {
    !v.Arr? && !v.Obj?
  }

  /** `===` is value equality restricted to primitives. */
  lemma StrictEqualsIsPrimitiveEquality(a: Value, b: Value)
    ensures StrictEquals(a, b) <==> Primitive(a) && a == b
  {
  }

  // ----- String conversion (template literals, `+` on strings, `alert`, `new Error(v)`) -----

  function DigitChar(d: nat): (c: char)
    requires d < 10
    ensures '0' <= c <= '9' && c as int - '0' as int == d
  {
    "0123456789"[d]
  }

  predicate IsDigits(s: string) {
    forall i :: 0 <= i < |s| ==> '0' <= s[i] <= '9'
  }

  /** Decimal text of a natural number, most significant digit first. */
  function NatText(n: nat): (r: string)
    ensures r != [] && IsDigits(r)
    decreases n
  {
    if n < 10 then [DigitChar(n)] else NatText(n / 10) + [DigitChar(n % 10)]
  }

  /** Reading decimal digits back into a number: the reference for NatText. */
  function ParseNat(s: string): nat
    requires IsDigits(s)
  {
    if s == [] then 0 else ParseNat(s[..|s| - 1]) * 10 + (s[|s| - 1] as int - '0' as int)
  }

  lemma {:induction false} ParseNatText(n: nat)
    ensures ParseNat(NatText(n)) == n
    decreases n
  {
    var t := NatText(n);
    if n >= 10 {
      ParseNatText(n / 10);
      assert t[..|t| - 1] == NatText(n / 10);
    }
  }

  /** `String(n)` for an integer. */
  function IntText(n: int): string {
    if n < 0 then "-" + NatText(-n) else NatText(n)
  }

  /** The parts separated by `sep`, as `Array.prototype.join` lays them out. */
  function Join(parts: seq<string>, sep: string): string {
    if parts == [] then ""
    else if |parts| == 1 then parts[0]
    else Join(parts[..|parts| - 1], sep) + sep + parts[|parts| - 1]
  }

  /** `String(v)`; an array is its elements joined by commas, `null` and `undefined`
      elements giving the empty string. */
  function ToText(v: Value): string
    decreases v
  {
    match v
    case Undefined => "undefined"
    case Null => "null"
    case Bool(b) => if b then "true" else "false"
    case Num(n) => IntText(n)
    case Str(s) => s
    case Arr(elems) =>
      Join(seq(|elems|, i requires 0 <= i < |elems| =>
        if Readable(elems[i]) then ToText(elems[i]) else ""), ",")
    case Obj(_) => "[object Object]"
  }

  /** `String(v || d)`: how every alert shows a server message or its default text. */
  function TextOr(v: Value, d: string): (r: string)
    ensures !Truthy(v) ==> r == d
    ensures Truthy(v) ==> r == ToText(v)
  {
    ToText(Or(v, Str(d)))
  }

  // ----- Object spread -----

  /** The own properties `{ ...v }` copies; a non-object draft contributes none. */
  function Spread(v: Value): map<string, Value> {
    if v.Obj? then v.fields else map[]
  }

  /** `{ ...draft, [name]: v }`: the named property now holds `v`, every other property
      reads as before, and no property but `name` is added. */
  function SetField(draft: Value, name: string, v: Value): (r: Value)
    ensures r.Obj? && r.fields.Keys == Spread(draft).Keys + {name}
    ensures Prop(r, name) == v
    ensures forall k :: k != name ==> Prop(r, k) == Prop(draft, k)
  {
    Obj(Spread(draft)[name := v])
  }
}
