/** Decoded JSON values as both the Python back end and the browser script
    see them, with the two languages' notions of truthiness and the decimal
    rendering of indices used in keys and labels. */
module Json {

  /** A decoded JSON value. `Undefined` never comes out of a decoder: it is
      what JavaScript yields when a property is absent or set to `undefined`.
      Numbers are exact reals; NaN and infinities are not modelled. */
  datatype Value =
    | Undefined
    | Null
    | Bool(b: bool)
    | Num(n: real)
    | Str(s: string)
    | Arr(items: seq<Value>)
    | Obj(props: map<string, Value>)

  /** Python's truth test: None, False, 0, "" and empty containers are false. */
  predicate PyTruthy(v: Value) {
    match v
    case Undefined => false
    case Null => false
    case Bool(b) => b
    case Num(n) => n != 0.0
    case Str(s) => s != ""
    case Arr(items) => |items| > 0
    case Obj(props) => |props| > 0
  }

  /** JavaScript's truth test: unlike Python, every array and object is
      truthy, even an empty one. */
  predicate JsTruthy(v: Value) {
    match v
    case Undefined => false
    case Null => false
    case Bool(b) => b
    case Num(n) => n != 0.0
    case Str(s) => s != ""
    case Arr(_) => true
    case Obj(_) => true
  }

  /** JavaScript's `a || b`: the first operand when it is truthy, otherwise
      the second, whatever it is. */
  function JsOr(a: Value, b: Value): Value {
    if JsTruthy(a) then a else b
  }

  function Digit(d: nat): (c: char)
    requires d < 10
    ensures c as int == '0' as int + d
  {
    "0123456789"[d]
  }

  /** The decimal text of a natural number, as a template literal prints it. */
  function NatToString(n: nat): (s: string)
    ensures |s| >= 1
    ensures n >= 10 ==> |s| >= 2
    ensures forall i :: 0 <= i < |s| ==> '0' <= s[i] <= '9'
  {
    if n < 10 then [Digit(n)] else NatToString(n / 10) + [Digit(n % 10)]
  }

  /** Different numbers print differently. */
  lemma {:induction false} NatToStringInjective(a: nat, b: nat)
    requires NatToString(a) == NatToString(b)
    ensures a == b
  {
    if a >= 10 && b >= 10 {
      var sa, sb := NatToString(a), NatToString(b);
      assert sa[|sa| - 1] == Digit(a % 10) && sb[|sb| - 1] == Digit(b % 10);
      assert sa[..|sa| - 1] == NatToString(a / 10);
      assert sb[..|sb| - 1] == NatToString(b / 10);
      NatToStringInjective(a / 10, b / 10);
    }
  }

  lemma NatToStringInjectiveAll()
    ensures forall a: nat, b: nat :: NatToString(a) == NatToString(b) ==> a == b
  {
    forall a: nat, b: nat | NatToString(a) == NatToString(b) ensures a == b {
      NatToStringInjective(a, b);
    }
  }

  /** The own enumerable properties that object spread `{...v}` copies: an
      object's properties, the index keys of an array or a string, and
      nothing for any other value. */
  function OwnProps(v: Value): map<string, Value> {
    NatToStringInjectiveAll();
    match v
    case Obj(props) => props
    case Arr(items) => map i | 0 <= i < |items| :: NatToString(i) := items[i]
    case Str(s) => map i | 0 <= i < |s| :: NatToString(i) := Str([s[i]])
    case _ => map[]
  }

  /** JavaScript's `v.key` on a value that is neither null nor undefined,
      for a key that no built-in prototype defines. */
  function Prop(v: Value, key: string): Value {
    var own := OwnProps(v);
    if key in own then own[key] else Undefined
  }

  /** A key that does not start with a digit is never an index key, so only
      an object can have it as an own property. */
  lemma NamedKeyNotIndex(v: Value, key: string)
    requires key != [] && !('0' <= key[0] <= '9')
    ensures !v.Obj? ==> key !in OwnProps(v)
  {
    if v.Arr? || v.Str? {
      forall i: nat ensures NatToString(i) != key {
        assert '0' <= NatToString(i)[0] <= '9';
      }
    }
  }
}
