/**
 * The JavaScript values the controllers and hooks handle: request bodies,
 * store records and settings objects are all `Record`s, maps from field
 * names to values. A missing field reads as `Undefined`.
 */
module Json {
  import opened Wrappers

  datatype Value =
    | Undefined
    | Null
    | Bool(b: bool)
    | Num(n: int)
    | Str(s: string)
    | Arr(items: seq<Value>)
    | Obj(fields: map<string, Value>)

  type Record = map<string, Value>

  /** An exception raised by JavaScript code or by a collaborator. */
  datatype Thrown =
    | TypeError(what: string)
    | SyntaxError
    | ValidationError
    | ServiceError(message: string)

  type Outcome<T> = Result<T, Thrown>

  /** The `message` property of a thrown error. */
  function Message(e: Thrown): string {
    match e
    case TypeError(what) => what
    case SyntaxError => "Unexpected token in JSON"
    case ValidationError => "ValidationError"
    case ServiceError(message) => message
  }

  /** An object held by reference whose fields are updated in place. */
  class Doc {
    var fields: Record

    constructor (initial: Record)
      ensures fields == initial
    {
      fields := initial;
    }
  }

  /** `r.key` on an object: absent fields are undefined. */
  function Get(r: Record, key: string): Value {
    if key in r then r[key] else Undefined
  }

  /** JavaScript truthiness (there is no NaN among these values). */
  predicate Truthy(v: Value) {
    match v
    case Undefined => false
    case Null => false
    case Bool(b) => b
    case Num(n) => n != 0
    case Str(s) => s != ""
    case Arr(_) => true
    case Obj(_) => true
  }

  /** `a || b`. */
  function Or(a: Value, b: Value): Value {
    if Truthy(a) then a else b
  }

  /** The message of the TypeError raised by reading `key` of null or undefined. */
  function CannotRead(key: string, holder: Value): string {
    "Cannot read property '" + key + "' of " + Show(holder)
  }

  /** `v.key`: throws on null and undefined; primitives and arrays have none of the fields read here. */
  function Prop(v: Value, key: string): (r: Outcome<Value>)
    ensures r.Err? <==> v.Undefined? || v.Null?
    ensures r.Err? ==> r.error == TypeError(CannotRead(key, v))
    ensures v.Obj? ==> r == Ok(Get(v.fields, key))
  {
    match v
    case Undefined => Err(TypeError(CannotRead(key, v)))
    case Null => Err(TypeError(CannotRead(key, v)))
    case Obj(fields) => Ok(Get(fields, key))
    case _ => Ok(Undefined)
  }

  /** `a === b`: objects and arrays read separately are never identical. */
  predicate StrictEquals(a: Value, b: Value) {
    a == b && !a.Obj? && !a.Arr?
  }

  predicate IsUpper(c: char) {
    'A' <= c <= 'Z'
  }

  function LowerChar(c: char): (r: char)
    ensures !IsUpper(r)
    ensures !IsUpper(c) ==> r == c
  {
    if IsUpper(c) then (c as int + 32) as char else c
  }

  /** `String.prototype.toLowerCase` on ASCII letters. */
  function Lower(s: string): (r: string)
    ensures |r| == |s|
    ensures forall i :: 0 <= i < |s| ==> r[i] == LowerChar(s[i])
  {
    if s == [] then [] else [LowerChar(s[0])] + Lower(s[1..])
  }

  predicate IsLowercase(s: string) {
    forall i :: 0 <= i < |s| ==> !IsUpper(s[i])
  }

  lemma {:induction false} LowerMakesLowercase(s: string)
    ensures IsLowercase(Lower(s))
  {
    forall i | 0 <= i < |s|
      ensures !IsUpper(Lower(s)[i])
    {
      assert Lower(s)[i] == LowerChar(s[i]);
    }
  }

  /** A string without upper-case letters is its own lower-case form. */
  lemma {:induction false} LowerOfLowercase(s: string)
    requires IsLowercase(s)
    ensures Lower(s) == s
  {
    if s != [] {
      assert IsLowercase(s[1..]) by {
        forall i | 0 <= i < |s| - 1 ensures !IsUpper(s[1..][i]) {
          assert s[1..][i] == s[i + 1];
        }
      }
      LowerOfLowercase(s[1..]);
    }
  }

  lemma LowerIdempotent(s: string)
    ensures Lower(Lower(s)) == Lower(s)
  {
    LowerMakesLowercase(s);
    LowerOfLowercase(Lower(s));
  }

  /** `v.toLowerCase()`: only strings have the method; on null and undefined the lookup itself throws. */
  function ToLowerCase(v: Value): (r: Outcome<Value>)
    ensures r.Ok? <==> v.Str?
    ensures r.Ok? ==> r.value == Str(Lower(v.s))
    ensures v.Undefined? || v.Null? ==> r == Err(Prop(v, "toLowerCase").error)
  {
    if v.Str? then Ok(Str(Lower(v.s)))
    else if v.Undefined? || v.Null? then Err(Prop(v, "toLowerCase").error)
    else Err(TypeError("toLowerCase is not a function"))
  }

  function DigitChar(d: nat): char
    requires d < 10
  {
    ['0', '1', '2', '3', '4', '5', '6', '7', '8', '9'][d]
  }

  /** The decimal numeral of `n`. */
  function Digits(n: nat): (r: string)
    ensures |r| > 0
    ensures forall i :: 0 <= i < |r| ==> '0' <= r[i] <= '9'
    decreases n
  {
    if n < 10 then [DigitChar(n)] else Digits(n / 10) + [DigitChar(n % 10)]
  }

  /** Different numbers have different numerals. */
  lemma {:induction false} DigitsInjective(n: nat, m: nat)
    requires Digits(n) == Digits(m)
    ensures n == m
    decreases n
  {
    if n >= 10 && m >= 10 {
      var a, b := Digits(n / 10), Digits(m / 10);
      assert Digits(n) == a + [DigitChar(n % 10)] && Digits(m) == b + [DigitChar(m % 10)];
      assert a == Digits(n)[..|a|] && b == Digits(m)[..|b|];
      DigitsInjective(n / 10, m / 10);
    }
  }

  function Decimal(n: int): string {
    if n < 0 then "-" + Digits(-n) else Digits(n)
  }

  /** `String(v)`, as a template literal `${v}` converts it. */
  function Show(v: Value): string
    decreases v, 1
  {
    match v
    case Undefined => "undefined"
    case Null => "null"
    case Bool(b) => if b then "true" else "false"
    case Num(n) => Decimal(n)
    case Str(s) => s
    case Arr(items) => Join(v, items)
    case Obj(_) => "[object Object]"
  }

  /** `Array.prototype.join(",")`, where null and undefined elements read as empty. */
  function Join(ghost whole: Value, items: seq<Value>): string
    requires forall i :: 0 <= i < |items| ==> items[i] < whole
    decreases whole, 0, |items|
  {
    if items == [] then ""
    else
      var head := if items[0].Undefined? || items[0].Null? then "" else Show(items[0]);
      if |items| == 1 then head else head + "," + Join(whole, items[1..])
  }

  /** `s.includes(sub)` / lodash `_.includes` on strings. */
  predicate Contains(s: string, sub: string)
    decreases |s|
  {
    |sub| <= |s| && (s[..|sub|] == sub || Contains(s[1..], sub))
  }
}
