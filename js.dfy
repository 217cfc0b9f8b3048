/** JavaScript values as the build pipeline inspects them: `typeof`,
    truthiness, the `length` property, property reads, lodash's `get`, and
    template-literal interpolation. */
module Js {

  datatype Option<T> = None | Some(value: T)

  datatype Result<T, E> = Ok(value: T) | Err(error: E)

  /** A dynamically typed value. Numbers are integers; a function carries
      its arity (its `length`) and its source text (what `String(fn)`
      returns); an object carries its own enumerable properties. */
  datatype Value =
    | Undefined
    | Null
    | Bool(b: bool)
    | Num(n: int)
    | Str(s: string)
    | Arr(elems: seq<Value>)
    | Fn(arity: nat, text: string)
    | Obj(fields: map<string, Value>)

  /** The kinds of error Maizzle throws or lets through, with their messages. */
  datatype Error =
    | RangeError(message: string)
    | TypeError(message: string)
    | SyntaxError(message: string)
    | Thrown(message: string)

  /** JavaScript truthiness. */
  predicate Truthy(v: Value) {
    match v
    case Undefined => false
    case Null => false
    case Bool(b) => b
    case Num(n) => n != 0
    case Str(s) => s != ""
    case _ => true
  }

  /** `typeof v === 'object'`: true for null, arrays and plain objects. */
  predicate TypeofObject(v: Value) {
    v.Null? || v.Arr? || v.Obj?
  }

  /** lodash `isObject`: objects, arrays and functions, but not null. */
  predicate IsObject(v: Value) {
    v.Arr? || v.Obj? || v.Fn?
  }

  /** lodash `isEmpty`: no elements, no own enumerable keys. A function has
      none, so it is empty; so is every primitive other than a non-empty
      string. */
  predicate IsEmpty(v: Value) {
    match v
    case Str(s) => s == ""
    case Arr(es) => es == []
    case Obj(f) => f == map[]
    case _ => true
  }

  /** `v[k]` for a value that is neither undefined nor null. Only the keys
      the pipeline reads are modelled: they are never built-in properties. */
  function Prop(v: Value, k: string): Value {
    match v
    case Obj(f) => if k in f then f[k] else Undefined
    case _ => Undefined
  }

  /** `v[k]` as JavaScript evaluates it: reading a property of undefined or
      null throws. */
  function Get(v: Value, k: string): (r: Result<Value, Error>)
    ensures r.Err? <==> v.Undefined? || v.Null?
    ensures r.Ok? ==> r.value == Prop(v, k)
  {
    if v.Undefined? || v.Null? then
      Err(TypeError("Cannot read properties of " + Interp(v) + " (reading '" + k + "')"))
    else Ok(Prop(v, k))
  }

  /** lodash's path walk: a missing step yields `undefined` instead of
      throwing. */
  function Walk(v: Value, path: seq<string>): Value
    decreases |path|
  {
    if path == [] then v
    else if v.Undefined? || v.Null? then Undefined
    else Walk(Prop(v, path[0]), path[1..])
  }

  /** lodash `get(v, path, d)`: the default replaces only `undefined`. */
  function LodashGet(v: Value, path: seq<string>, d: Value): (r: Value)
    ensures Walk(v, path).Undefined? ==> r == d
    ensures !Walk(v, path).Undefined? ==> r == Walk(v, path)
  {
    var w := Walk(v, path);
    if w.Undefined? then d else w
  }

  /** The `length` property where it is a number. */
  function Length(v: Value): Option<int> {
    match v
    case Str(s) => Some(|s|)
    case Arr(es) => Some(|es|)
    case Fn(k, _) => Some(k)
    case Obj(f) => if "length" in f && f["length"].Num? then Some(f["length"].n) else None
    case _ => None
  }

  /** The number a run of decimal digits denotes, read from the left. */
  function DigitsValue(r: string): nat
  {
    if r == [] then 0
    else
      var c := r[|r| - 1];
      DigitsValue(r[..|r| - 1]) * 10 + (if '0' <= c <= '9' then c as int - '0' as int else 0)
  }

  /** The number a decimal numeral denotes, with an optional leading minus. */
  function DecimalValue(r: string): int
  {
    if r != [] && r[0] == '-' then -(DigitsValue(r[1..]) as int) else DigitsValue(r)
  }

  /** Appending one digit multiplies by ten and adds it. */
  lemma DigitsValueSnoc(r: string, c: char)
    requires '0' <= c <= '9'
    ensures DigitsValue(r + [c]) == DigitsValue(r) * 10 + (c as int - '0' as int)
  {
    assert (r + [c])[..|r|] == r;
  }

  /** The digits of `n`, most significant first. */
  function Digits(n: nat): (r: string)
    ensures |r| > 0
    ensures forall i :: 0 <= i < |r| ==> '0' <= r[i] <= '9'
  {
    if n < 10 then [(n + '0' as int) as char] else Digits(n / 10) + [(n % 10 + '0' as int) as char]
  }

  /** Reading the digits of `n` back gives `n`. */
  lemma {:induction false} DigitsRoundTrip(n: nat)
    ensures DigitsValue(Digits(n)) == n
  {
    if n < 10 {
      DigitsValueSnoc([], (n + '0' as int) as char);
    } else {
      DigitsRoundTrip(n / 10);
      DigitsValueSnoc(Digits(n / 10), (n % 10 + '0' as int) as char);
    }
  }

  /** The decimal form of an integer, as `String(n)` writes it; reading it
      back gives `n`, so distinct numbers have distinct forms. */
  function Decimal(n: int): (r: string)
    ensures DecimalValue(r) == n
  {
    if n < 0 then
      assert ("-" + Digits(-n))[1..] == Digits(-n);
      DigitsRoundTrip(-n);
      "-" + Digits(-n)
    else
      DigitsRoundTrip(n);
      Digits(n)
  }

  /** Two numbers with the same decimal form are equal. */
  lemma DecimalInjective(a: int, b: int)
    requires Decimal(a) == Decimal(b)
    ensures a == b
  {
  }

  /** The entries of indices `0` to `n - 1`, keyed by their decimal form. */
  function IndexEntries(n: nat, at: nat --> Value): (r: map<string, Value>)
    requires forall i :: 0 <= i < n ==> at.requires(i)
    ensures forall i :: 0 <= i < n ==> Decimal(i) in r && r[Decimal(i)] == at(i)
    ensures forall k :: k in r ==> exists i :: 0 <= i < n && k == Decimal(i)
  {
    map i | 0 <= i < n :: Decimal(i) := at(i)
  }

  /** The keys `Object.keys` lists and an object spread copies, with their
      values: an object's own fields, the indices of a string with its
      characters, the indices of an array with its elements; other values
      have none. */
  function OwnEntries(v: Value): (r: map<string, Value>)
    ensures v.Obj? ==> r == v.fields
    ensures !(v.Obj? || v.Str? || v.Arr?) ==> r == map[]
  {
    match v
    case Obj(f) => f
    case Str(s) => IndexEntries(|s|, i requires 0 <= i < |s| => Str([s[i]]))
    case Arr(es) => IndexEntries(|es|, i requires 0 <= i < |es| => es[i])
    case _ => map[]
  }

  /** A string's entries are its characters under their index keys, and
      nothing else. */
  lemma StringEntries(s: string)
    ensures forall i :: 0 <= i < |s| ==> Decimal(i) in OwnEntries(Str(s)) && OwnEntries(Str(s))[Decimal(i)] == Str([s[i]])
    ensures forall k :: k in OwnEntries(Str(s)) ==> exists i :: 0 <= i < |s| && k == Decimal(i)
  {
  }

  /** An array's entries are its elements under their index keys, and
      nothing else. */
  lemma ArrayEntries(es: seq<Value>)
    ensures forall i :: 0 <= i < |es| ==> Decimal(i) in OwnEntries(Arr(es)) && OwnEntries(Arr(es))[Decimal(i)] == es[i]
    ensures forall k :: k in OwnEntries(Arr(es)) ==> exists i :: 0 <= i < |es| && k == Decimal(i)
  {
  }

  /** `${v}` in a template literal. An array joins its elements with commas,
      writing undefined and null elements as nothing. */
  function Interp(v: Value): string
    decreases v, 1
  {
    match v
    case Undefined => "undefined"
    case Null => "null"
    case Bool(b) => if b then "true" else "false"
    case Num(n) => Decimal(n)
    case Str(s) => s
    case Arr(es) => JoinElems(es)
    case Fn(_, text) => text
    case Obj(_) => "[object Object]"
  }

  function JoinElems(es: seq<Value>): string
    decreases es, 0
  {
    if es == [] then ""
    else
      var first := if es[0].Undefined? || es[0].Null? then "" else Interp(es[0]);
      if |es| == 1 then first else first + "," + JoinElems(es[1..])
  }
}
