/**
 * The slice of JavaScript's value semantics the generator relies on: parsed
 * JSON values, truthiness and `||`, property reads, strict equality, object
 * spread, and the string conversion used by template literals and by
 * property keys.
 */
module JsValues {
  import opened Wrappers

  /** A JavaScript value as produced by `JSON.parse` (numbers are integers here). */
  datatype Value =
    | Undefined
    | Null
    | Bool(b: bool)
    | Num(n: int)
    | Str(s: string)
    | Arr(items: seq<Value>)
    | Obj(fields: map<string, Value>)

  /** What the generator can throw; every such error ends the build. */
  datatype Error =
    | TypeError(what: string)
    | ReferenceError(name: string)
    | TemplateNotFound(template: string, subforum: string)

  /** JavaScript truthiness (ToBoolean) restricted to the values above. */
  predicate Truthy(v: Value) {
    match v
    case Undefined => false
    case Null => false
    case Bool(b) => b
    case Num(n) => n != 0
    case Str(s) => s != ""
    case Arr(_) => true
    case Obj(_) => true
  }

  /** `a || b`: the left operand when it is truthy, otherwise the right one. */
  function Or(a: Value, b: Value): (r: Value)
    ensures Truthy(a) ==> r == a
    ensures !Truthy(a) ==> r == b
    ensures r == a || r == b
    ensures Truthy(r) <==> Truthy(a) || Truthy(b)
  {
    if Truthy(a) then a else b
  }

  /** `(a || b) || c` and `a || (b || c)` pick the same operand. */
  lemma OrAssociative(a: Value, b: Value, c: Value)
    ensures Or(Or(a, b), c) == Or(a, Or(b, c))
  {
  }

  /** A truthy right operand, such as a default, makes `a || b` truthy whatever `a` is. */
  lemma OrTruthyDefault(a: Value, b: Value)
    requires Truthy(b)
    ensures Truthy(Or(a, b)) && (Or(a, b) == a || Or(a, b) == b)
  {
  }

  /** Reading a property off `null` or `undefined` throws a TypeError. */
  predicate Nullish(v: Value) {
    v.Undefined? || v.Null?
  }

  /**
   * `v[k]` for a value that is not nullish: an own field of an object, an
   * element of an array or a character of a string under its decimal index,
   * and `undefined` otherwise (`length` and prototype properties are not
   * modelled).
   */
  function Get(v: Value, k: string): (r: Value)
    ensures v.Obj? && k in v.fields ==> r == v.fields[k]
    ensures k in Spread(v) ==> r == Spread(v)[k]
    ensures k !in Spread(v) ==> r.Undefined?
  {
    var own := Spread(v);
    if k in own then own[k] else Undefined
  }

  /** A property read on an object given as a map; missing keys read as `undefined`. */
  function Field(o: map<string, Value>, k: string): (r: Value)
    ensures k in o ==> r == o[k]
    ensures k !in o ==> r.Undefined?
  {
    if k in o then o[k] else Undefined
  }

  /**
   * The own enumerable fields that `{...v}` copies: an object's fields, an
   * array's elements and a string's characters under their decimal indexes
   * (`SpreadIndexed`), and nothing for any other value.
   */
  function Spread(v: Value): (r: map<string, Value>)
    ensures v.Obj? ==> r == v.fields
    ensures !(v.Obj? || v.Arr? || v.Str?) ==> r == map[]
  {
    match v
    case Obj(fields) => fields
    case Arr(items) => IndexKeys(items)
    case Str(s) => IndexKeys(Chars(s))
    case _ => map[]
  }

  /** A string's characters, each as a one-character string. */
  function Chars(s: string): (r: seq<Value>)
    ensures |r| == |s| && forall i :: 0 <= i < |s| ==> r[i] == Str([s[i]])
  {
    seq(|s|, i requires 0 <= i < |s| => Str([s[i]]))
  }

  /** All characters are decimal digits. */
  predicate IsDigits(s: string) {
    forall i :: 0 <= i < |s| ==> '0' <= s[i] <= '9'
  }

  /**
   * `r` holds `items` under their decimal indexes and nothing else: every
   * index is a key, and every key is the canonical decimal form of an index.
   */
  predicate IndexedBy(r: map<string, Value>, items: seq<Value>) {
    (forall i :: 0 <= i < |items| ==> NatToString(i) in r && r[NatToString(i)] == items[i])
    && (forall k :: k in r ==>
      (IsDigits(k) && DigitsValue(k) < |items| && k == NatToString(DigitsValue(k)) && r[k] == items[DigitsValue(k)]))
  }

  /** The elements of a list keyed by their indexes, as spreading an array or a string does. */
  function IndexKeys(items: seq<Value>): map<string, Value>
    decreases |items|
  {
    if |items| == 0 then map[]
    else IndexKeys(items[..|items| - 1])[NatToString(|items| - 1) := items[|items| - 1]]
  }

  /** The key of index `i` holds the `i`-th element. */
  lemma {:induction false} IndexKeysAt(items: seq<Value>, i: nat)
    requires i < |items|
    ensures NatToString(i) in IndexKeys(items) && IndexKeys(items)[NatToString(i)] == items[i]
    decreases |items|
  {
    var n := |items| - 1;
    if i < n {
      IndexKeysAt(items[..n], i);
      if NatToString(i) == NatToString(n) {
        NatToStringInjective(i, n);
      }
    }
  }

  /** Every key of `IndexKeys` is the decimal form of an index below the length. */
  lemma {:induction false} IndexKeysKey(items: seq<Value>, k: string)
    requires k in IndexKeys(items)
    ensures exists i :: 0 <= i < |items| && k == NatToString(i)
    decreases |items|
  {
    var n := |items| - 1;
    if k != NatToString(n) {
      IndexKeysKey(items[..n], k);
      var i :| 0 <= i < n && k == NatToString(i);
      assert 0 <= i < |items| && k == NatToString(i);
    }
  }

  /** `IndexKeys` holds exactly the indexed elements. */
  lemma IndexKeysIndexed(items: seq<Value>)
    ensures IndexedBy(IndexKeys(items), items)
  {
    var r := IndexKeys(items);
    forall i | 0 <= i < |items| ensures NatToString(i) in r && r[NatToString(i)] == items[i] {
      IndexKeysAt(items, i);
    }
    forall k | k in r
      ensures IsDigits(k) && DigitsValue(k) < |items| && k == NatToString(DigitsValue(k)) && r[k] == items[DigitsValue(k)]
    {
      IndexKeysKey(items, k);
      var i :| 0 <= i < |items| && k == NatToString(i);
      NatToStringRoundTrip(i);
      IndexKeysAt(items, i);
    }
  }

  /** Spreading an array or a string copies its elements under their decimal indexes, and nothing else. */
  lemma SpreadIndexed(v: Value)
    ensures v.Arr? ==> IndexedBy(Spread(v), v.items)
    ensures v.Str? ==> IndexedBy(Spread(v), Chars(v.s))
  {
    match v
    case Arr(items) => IndexKeysIndexed(items);
    case Str(s) => IndexKeysIndexed(Chars(s));
    case _ =>
  }

  /**
   * `a === b`. Objects and arrays compare by identity; every object the
   * generator compares comes from a separate `JSON.parse`, so two of them are
   * never identical.
   */
  predicate StrictEq(a: Value, b: Value) {
    a == b && !a.Arr? && !a.Obj?
  }

  /** The decimal digit for `d`. */
  function DigitChar(d: nat): (c: char)
    requires d < 10
    ensures '0' <= c <= '9'
  {
    "0123456789"[d]
  }

  /** Decimal rendering of a natural number, most significant digit first. */
  function NatToString(n: nat): (r: string)
    ensures |r| > 0
    ensures forall i :: 0 <= i < |r| ==> '0' <= r[i] <= '9'
    decreases n
  {
    if n < 10 then [DigitChar(n)] else NatToString(n / 10) + [DigitChar(n % 10)]
  }

  /** Reads a string of decimal digits back as a number. */
  function DigitsValue(s: string): nat
    requires forall i :: 0 <= i < |s| ==> '0' <= s[i] <= '9'
  {
    if |s| == 0 then 0 else 10 * DigitsValue(s[..|s| - 1]) + (s[|s| - 1] - '0') as nat
  }

  /** Decimal rendering is the inverse of digit reading, so it is injective. */
  lemma {:induction false} NatToStringRoundTrip(n: nat)
    ensures DigitsValue(NatToString(n)) == n
    decreases n
  {
    if n >= 10 {
      var r := NatToString(n);
      NatToStringRoundTrip(n / 10);
      assert r[..|r| - 1] == NatToString(n / 10);
    } else {
      assert "0123456789"[n] - '0' == n as char - 0 as char;
    }
  }

  lemma NatToStringInjective(a: nat, b: nat)
    requires NatToString(a) == NatToString(b)
    ensures a == b
  {
    NatToStringRoundTrip(a);
    NatToStringRoundTrip(b);
  }

  /** `String(n)` for an integral number. */
  function IntToString(n: int): string {
    if n < 0 then "-" + NatToString(-n) else NatToString(n)
  }

  /** Joins strings with a separator between consecutive elements (`Array.prototype.join`). */
  function Join(parts: seq<string>, sep: string): string {
    if |parts| == 0 then ""
    else if |parts| == 1 then parts[0]
    else parts[0] + sep + Join(parts[1..], sep)
  }

  /**
   * ToString as applied by template literals (`${v}`) and by property keys
   * (`allTags[tag]`): arrays join their elements with commas, rendering
   * `null` and `undefined` elements as the empty string.
   */
  function ToStr(v: Value): string
    decreases v
  {
    match v
    case Undefined => "undefined"
    case Null => "null"
    case Bool(b) => if b then "true" else "false"
    case Num(n) => IntToString(n)
    case Str(s) => s
    case Obj(_) => "[object Object]"
    case Arr(items) =>
      Join(seq(|items|, i requires 0 <= i < |items| =>
        if Nullish(items[i]) then "" else ToStr(items[i])), ",")
  }

  /**
   * The properties every object inherits from `Object.prototype`. Reading one of
   * them as `obj[name]` on a plain object yields a function (or, for `__proto__`, the
   * prototype object itself): a truthy value without a `push` method.
   */
  const InheritedKeys: set<string> := {
    "constructor", "hasOwnProperty", "isPrototypeOf", "propertyIsEnumerable",
    "toLocaleString", "toString", "valueOf", "__proto__",
    "__defineGetter__", "__defineSetter__", "__lookupGetter__", "__lookupSetter__"}

  /** A string property or the TypeError `.replace` on a non-string would throw. */
  function AsString(v: Value, what: string): (r: Result<string, Error>)
    ensures r.Ok? <==> v.Str?
    ensures r.Ok? ==> r.value == v.s
  {
    if v.Str? then Ok(v.s) else Err(TypeError(what + ".replace is not a function"))
  }
}
