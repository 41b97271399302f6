/**
  JavaScript values of the kind the browser scripts handle (parsed JSON,
  option objects, translation tables), with JavaScript's truthiness and the
  decimal rendering of integers used for array-index keys.
*/
module JsValues {
  import opened Optional

  /** A JavaScript value; `JNull` stands for both `null` and `undefined`, numbers are integers. */
  datatype Json =
    | JNull
    | JBool(b: bool)
    | JNum(n: int)
    | JStr(s: string)
    | JArr(items: seq<Json>)
    | JObj(fields: map<string, Json>)

  /** JavaScript truthiness: `null`, `undefined`, `false`, `0` and `""` are falsy. */
  predicate Truthy(v: Json) {
    match v
    case JNull => false
    case JBool(b) => b
    case JNum(n) => n != 0
    case JStr(s) => s != ""
    case JArr(_) => true
    case JObj(_) => true
  }

  /**
    The index that `key` names among the first `n` array or string indices:
    JavaScript reads `a[key]` as an element exactly when `key` is the decimal
    rendering of an index, so `"01"` or `"-1"` name none.
  */
  function IndexKey(key: string, n: nat): (r: Option<nat>)
    ensures r.Some? ==> r.value < n && NatToString(r.value) == key
    ensures r.None? ==> forall i: nat :: i < n ==> NatToString(i) != key
  {
    if n == 0 then None
    else if NatToString(n - 1) == key then Some(n - 1)
    else IndexKey(key, n - 1)
  }

  /** Whether `v[key]` reads an own property: an object's key, or an index or the length of an array or string. */
  predicate Has(v: Json, key: string) {
    match v
    case JObj(fields) => key in fields
    case JArr(items) => key == "length" || IndexKey(key, |items|).Some?
    case JStr(s) => key == "length" || IndexKey(key, |s|).Some?
    case _ => false
  }

  /**
    `v[key]`: an object's property, an array's element, a string's character
    or the length of either; `undefined` when `v` has no such own property.
    String positions count Unicode characters, not UTF-16 code units.
  */
  function Get(v: Json, key: string): (r: Json)
    ensures !Has(v, key) ==> r == JNull
    ensures v.JObj? && key in v.fields ==> r == v.fields[key]
    ensures (v.JArr? || v.JStr?) && key == "length" ==> r == JNum(if v.JArr? then |v.items| else |v.s|)
    ensures forall i: nat :: v.JArr? && i < |v.items| && key == NatToString(i) ==> r == v.items[i]
    ensures forall i: nat :: v.JStr? && i < |v.s| && key == NatToString(i) ==> r == JStr([v.s[i]])
  {
    match v
    case JObj(fields) => if key in fields then fields[key] else JNull
    case JArr(items) =>
      if key == "length" then LengthIsNoIndex(); JNum(|items|)
      else (match IndexKey(key, |items|)
        case Some(i) => NatToStringIsInjective(); items[i]
        case None => JNull)
    case JStr(s) =>
      if key == "length" then LengthIsNoIndex(); JNum(|s|)
      else (match IndexKey(key, |s|)
        case Some(i) => NatToStringIsInjective(); JStr([s[i]])
        case None => JNull)
    case _ => JNull
  }

  /** The value reached by following `path` through nested objects, arrays and strings, if every property exists. */
  function Lookup(v: Json, path: seq<string>): Option<Json>
    decreases |path|
  {
    if |path| == 0 then Some(v)
    else if Has(v, path[0]) then Lookup(Get(v, path[0]), path[1..])
    else None
  }

  function DigitChar(d: int): char
    requires 0 <= d < 10
  {
    "0123456789"[d]
  }

  /** The decimal digits of `n`, as `String(n)` writes them. */
  function NatToString(n: nat): (s: string)
    ensures |s| >= 1
    ensures (|s| == 1) == (n < 10)
    ensures forall k :: 0 <= k < |s| ==> '0' <= s[k] <= '9'
  {
    if n < 10 then [DigitChar(n)] else NatToString(n / 10) + [DigitChar(n % 10)]
  }

  /** `String(n)` for an integer. */
  function IntToString(n: int): string {
    if n < 0 then "-" + NatToString(-n) else NatToString(n)
  }

  /** Distinct numbers have distinct decimal renderings. */
  lemma {:induction false} NatToStringInjective(a: nat, b: nat)
    requires NatToString(a) == NatToString(b)
    ensures a == b
  {
    if a >= 10 && b >= 10 {
      var sa, sb := NatToString(a), NatToString(b);
      assert sa[..|sa| - 1] == NatToString(a / 10);
      assert sb[..|sb| - 1] == NatToString(b / 10);
      NatToStringInjective(a / 10, b / 10);
      assert DigitChar(a % 10) == sa[|sa| - 1] == DigitChar(b % 10);
    }
  }

  /** `"length"` is no index: an index is written in digits. */
  lemma LengthIsNoIndex()
    ensures forall i: nat :: NatToString(i) != "length"
  {
    forall i: nat ensures NatToString(i) != "length" {
      var s := NatToString(i);
      assert '0' <= s[0] <= '9';
    }
  }

  /** Distinct indices give distinct property names. */
  lemma NatToStringIsInjective()
    ensures forall a: nat, b: nat :: NatToString(a) == NatToString(b) ==> a == b
  {
    forall a: nat, b: nat | NatToString(a) == NatToString(b) ensures a == b {
      NatToStringInjective(a, b);
    }
  }
}
