/**
 * JavaScript values as the modelled code sees them: the primitive values,
 * arrays, plain objects as ordered key/value entries (Object.entries order),
 * and functions. Numbers are integers or one of the non-finite numbers;
 * object identity is not part of this model.
 */
module JsValues {
  import opened Strings
  import opened Wrappers

  datatype Value =
    | Undefined
    | Null
    | Bool(b: bool)
    | Num(n: int)
    | NaN
    | Infinity(positive: bool)
    | Str(s: string)
    | Arr(items: seq<Value>)
    | Obj(entries: seq<(string, Value)>)
    | Fn(name: string, source: string)

  /** Boolean(v): the values an `if` treats as true. */
  predicate Truthy(v: Value) {
    match v
    case Undefined => false
    case Null => false
    case Bool(b) => b
    case Num(n) => n != 0
    case NaN => false
    case Str(s) => s != []
    case _ => true
  }

  predicate IsNumber(v: Value) {
    v.Num? || v.NaN? || v.Infinity?
  }

  /** Number.isFinite */
  predicate IsFinite(v: Value) {
    v.Num?
  }

  /** The `typeof` operator. */
  function TypeOf(v: Value): string {
    match v
    case Undefined => "undefined"
    case Null => "object"
    case Bool(_) => "boolean"
    case Num(_) => "number"
    case NaN => "number"
    case Infinity(_) => "number"
    case Str(_) => "string"
    case Arr(_) => "object"
    case Obj(_) => "object"
    case Fn(_, _) => "function"
  }

  /** Strict equality on primitives; two objects are never treated as the same reference. */
  predicate StrictEquals(a: Value, b: Value) {
    match (a, b)
    case (Undefined, Undefined) => true
    case (Null, Null) => true
    case (Bool(x), Bool(y)) => x == y
    case (Num(x), Num(y)) => x == y
    case (Infinity(x), Infinity(y)) => x == y
    case (Str(x), Str(y)) => x == y
    case _ => false
  }

  /** Array.prototype.includes (SameValueZero: NaN is found). */
  predicate Includes(xs: seq<Value>, v: Value) {
    exists i :: 0 <= i < |xs| && (StrictEquals(xs[i], v) || (xs[i].NaN? && v.NaN?))
  }

  /** The first entry of an object's entry list with the given key. */
  function EntryLookup(entries: seq<(string, Value)>, key: string): (r: Option<Value>)
    ensures r.Some? <==> exists i :: 0 <= i < |entries| && entries[i].0 == key
    ensures r.Some? ==> r.value in (set e | e in entries :: e.1)
  {
    if entries == [] then None
    else if entries[0].0 == key then Some(entries[0].1)
    else EntryLookup(entries[1..], key)
  }

  /** A canonical array index key: "0", or digits without a leading zero. */
  predicate IsIndexKey(key: string) {
    |key| >= 1 && AllDigits(key) && (key[0] == '0' ==> |key| == 1)
  }

  /** Digits that do not start with '0' have a positive value. */
  lemma {:induction false} DigitsValuePositive(s: string)
    requires |s| >= 1 && AllDigits(s) && s[0] != '0'
    ensures DigitsValue(s) >= 1
    decreases |s|
  {
    if |s| > 1 {
      DigitsValuePositive(s[..|s| - 1]);
    }
  }

  /** An index key is the decimal text of its own value. */
  lemma {:induction false} NatToStringOfIndexKey(key: string)
    requires IsIndexKey(key)
    ensures NatToString(DigitsValue(key)) == key
    decreases |key|
  {
    var n := DigitsValue(key);
    if |key| == 1 {
      assert key[..|key| - 1] == [];
      assert DigitsValue(key[..|key| - 1]) == 0;
      assert n == key[0] as int - '0' as int;
      assert DigitChar(n) == key[0];
    } else {
      var p := key[..|key| - 1];
      NatToStringOfIndexKey(p);
      DigitsValuePositive(p);
      assert n / 10 == DigitsValue(p) && n % 10 == key[|key| - 1] as int - '0' as int;
      assert NatToString(n) == p + [key[|key| - 1]];
    }
  }

  /** Distinct index keys have distinct values. */
  lemma IndexKeyInjective(a: string, b: string)
    requires IsIndexKey(a) && IsIndexKey(b) && DigitsValue(a) == DigitsValue(b)
    ensures a == b
  {
    NatToStringOfIndexKey(a);
    NatToStringOfIndexKey(b);
  }

  /** The `in` operator for own properties of arrays and objects. */
  predicate HasProperty(v: Value, key: string) {
    match v
    case Obj(entries) => EntryLookup(entries, key).Some?
    case Arr(items) => key == "length" || (IsIndexKey(key) && DigitsValue(key) < |items|)
    case _ => false
  }

  /** Property access `v[key]`; missing properties read as undefined. */
  function Get(v: Value, key: string): Value
    requires !v.Undefined? && !v.Null?
  {
    match v
    case Obj(entries) => EntryLookup(entries, key).GetOr(Undefined)
    case Arr(items) =>
      if key == "length" then Num(|items|)
      else if IsIndexKey(key) && DigitsValue(key) < |items| then items[DigitsValue(key)]
      else Undefined
    case Str(s) =>
      if key == "length" then Num(Utf16Length(s))
      else if IsIndexKey(key) && DigitsValue(key) < Utf16Length(s) then Str([UnitChar(s, DigitsValue(key))])
      else Undefined
    case _ => Undefined
  }

  /**
   * Number(s) for the texts the model knows: surrounding whitespace is
   * ignored, the empty text is 0, an optionally signed run of decimal digits
   * is that integer, (+/-)Infinity is infinite, and any other text is NaN.
   */
  function StrToNumber(s: string): (r: Value)
    ensures r.Num? || r.NaN? || r.Infinity?
    ensures IsBlank(s) ==> r == Num(0)
  {
    var t := Trim(s);
    if t == [] then Num(0)
    else if AllDigits(t) then Num(DigitsValue(t))
    else if |t| > 1 && t[0] == '-' && AllDigits(t[1..]) then Num(-(DigitsValue(t[1..]) as int))
    else if |t| > 1 && t[0] == '+' && AllDigits(t[1..]) then Num(DigitsValue(t[1..]))
    else if t == "Infinity" || t == "+Infinity" then Infinity(true)
    else if t == "-Infinity" then Infinity(false)
    else NaN
  }

  /** Number(String(n)) == n for every integer n. */
  lemma StrToNumberOfIntToString(n: int)
    ensures StrToNumber(IntToString(n)) == Num(n)
  {
    var s := IntToString(n);
    var d := NatToString(if n < 0 then -n else n);
    assert s[|s| - 1] == d[|d| - 1];
    assert IsDigit(d[0]) && IsDigit(d[|d| - 1]);
    if n < 0 {
      assert s[0] == '-' && s[1..] == d && !IsDigit(s[0]);
      TrimUnchanged(s);
      DigitsValueOfNatToString(-n);
    } else {
      TrimUnchanged(s);
      DigitsValueOfNatToString(n);
    }
  }

  /** The ToNumber conversion the relational operators apply. */
  function ToNumber(v: Value): (r: Value)
    ensures r.Num? || r.NaN? || r.Infinity?
  {
    match v
    case Undefined => NaN
    case Null => Num(0)
    case Bool(b) => if b then Num(1) else Num(0)
    case Num(_) => v
    case NaN => v
    case Infinity(_) => v
    case Str(s) => StrToNumber(s)
    case Arr(items) => StrToNumber(JoinItems(items, ","))
    case Obj(_) => NaN
    case Fn(_, _) => NaN
  }

  /** v > n for a value v and an integer n: false whenever v converts to NaN. */
  predicate GreaterThan(v: Value, n: int) {
    match ToNumber(v)
    case Num(m) => m > n
    case Infinity(positive) => positive
    case _ => false
  }

  /** String(v) for the values whose text the model knows. */
  function ToStr(v: Value): string {
    match v
    case Undefined => "undefined"
    case Null => "null"
    case Bool(b) => if b then "true" else "false"
    case Num(n) => IntToString(n)
    case NaN => "NaN"
    case Infinity(pos) => if pos then "Infinity" else "-Infinity"
    case Str(s) => s
    case Arr(items) => JoinItems(items, ",")
    case Obj(_) => "[object Object]"
    case Fn(_, source) => source
  }

  /** Array.prototype.join(sep): null and undefined items become "". */
  function JoinItems(items: seq<Value>, sep: string): string
    decreases items
  {
    if items == [] then ""
    else
      var head := if items[0].Undefined? || items[0].Null? then "" else ToStr(items[0]);
      if |items| == 1 then head else head + sep + JoinItems(items[1..], sep)
  }
}
