/**
 * The part of JavaScript that the data-tree core relies on: values, `typeof`,
 * the registry of symbols behind `Symbol.for` / `Symbol.keyFor`, and the
 * fields that object spread `{...v}` copies out of a value.
 */
module Js {

  datatype Option<+T> = None | Some(value: T)

  /** An exception thrown by the core or by the engine on its behalf. */
  datatype Error =
    | TypeError(message: string)   // `new TypeError(message)` thrown by the core itself
    | KeyForTypeError(arg: Value)  // the TypeError `Symbol.keyFor(arg)` throws when `arg` is not a symbol

  datatype Result<+T> = Success(value: T) | Failure(error: Error)

  datatype Outcome = Pass | Fail(error: Error)

  /**
   * A JavaScript value other than a function (the core meets functions only
   * as dependency extractors, which have a type of their own).
   */
  datatype Value =
    | Undefined
    | Null
    | Bool(b: bool)
    | Num(n: int)
    | Str(s: string)
    | RegisteredSymbol(name: string)  // `Symbol.for(name)`: equal names give the same symbol
    | UniqueSymbol(id: nat)           // `Symbol(description)`: never in the registry
    | Arr(elems: seq<Value>)
    | Obj(fields: map<string, Value>)

  /** The string that `typeof v` yields. */
  function TypeOf(v: Value): string {
    match v
    case Undefined => "undefined"
    case Bool(_) => "boolean"
    case Num(_) => "number"
    case Str(_) => "string"
    case RegisteredSymbol(_) => "symbol"
    case UniqueSymbol(_) => "symbol"
    case _ => "object"  // null, arrays and plain objects
  }

  predicate IsSymbol(v: Value) {
    v.RegisteredSymbol? || v.UniqueSymbol?
  }

  /**
   * What `typeof` tells apart: strings, symbols and the "object" kinds, and no
   * value of `Value` passes for a function.
   */
  lemma TypeOfClassifies(v: Value)
    ensures TypeOf(v) == "string" <==> v.Str?
    ensures TypeOf(v) == "symbol" <==> IsSymbol(v)
    ensures TypeOf(v) == "object" <==> v.Null? || v.Arr? || v.Obj?
    ensures TypeOf(v) != "function"
  {
  }

  /**
   * `Symbol.keyFor(v)`: the registry name of a registered symbol, no name
   * (`undefined`) for any other symbol, and a TypeError for a non-symbol.
   */
  function KeyFor(v: Value): (r: Result<Option<string>>)
    ensures r.Failure? <==> !IsSymbol(v)
    ensures r.Success? && r.value.Some? <==> v.RegisteredSymbol?
    ensures v.RegisteredSymbol? ==> r == Success(Some(v.name))
  {
    match v
    case RegisteredSymbol(name) => Success(Some(name))
    case UniqueSymbol(_) => Success(None)
    case _ => Failure(KeyForTypeError(v))
  }

  /**
   * The registry name of `Symbol.for(k)` for the result `k` of `Symbol.keyFor`:
   * `Symbol.for` converts its argument to a string, so `undefined` becomes the
   * name "undefined".
   */
  function RegistryName(k: Option<string>): string {
    match k
    case Some(name) => name
    case None => "undefined"
  }

  /** The character of a decimal digit. */
  function DigitChar(d: nat): char
    requires d < 10
  {
    (48 + d) as char
  }

  /** The decimal string of a non-negative integer, as `String(n)` gives it. */
  function NatToString(n: nat): (s: string)
    ensures |s| >= 1
    ensures |s| == 1 <==> n < 10
    ensures s[|s| - 1] == DigitChar(n % 10)
  {
    if n < 10 then [DigitChar(n)] else NatToString(n / 10) + [DigitChar(n % 10)]
  }

  /** Distinct array indices give distinct property names. */
  lemma {:induction false} NatToStringInjective(a: nat, b: nat)
    requires NatToString(a) == NatToString(b)
    ensures a == b
  {
    if a >= 10 && b >= 10 {
      var s := NatToString(a);
      assert s[..|s| - 1] == NatToString(a / 10);
      assert NatToString(b)[..|s| - 1] == NatToString(b / 10);
      NatToStringInjective(a / 10, b / 10);
    }
  }

  lemma NatToStringInjectiveAll()
    ensures forall a: nat, b: nat :: NatToString(a) == NatToString(b) ==> a == b
  {
    forall a: nat, b: nat | NatToString(a) == NatToString(b)
      ensures a == b
    {
      NatToStringInjective(a, b);
    }
  }

  /** The property names "0", "1", ..., of the first `n` indices. */
  function IndexKeys(n: nat): (ks: set<string>)
    ensures forall i: nat :: i < n ==> NatToString(i) in ks
  {
    if n == 0 then {} else IndexKeys(n - 1) + {NatToString(n - 1)}
  }

  /** Every name in `IndexKeys(n)` is the name of an index below `n`: the index `i` it names. */
  lemma {:induction false} IndexOfKey(n: nat, k: string) returns (i: nat)
    requires k in IndexKeys(n)
    ensures i < n && k == NatToString(i)
  {
    if k == NatToString(n - 1) {
      i := n - 1;
    } else {
      i := IndexOfKey(n - 1, k);
    }
  }

  /** The index-keyed fields of an array-like value, one per element. */
  function IndexFields(xs: seq<Value>): (m: map<string, Value>)
    ensures m.Keys == IndexKeys(|xs|)
    ensures forall i :: 0 <= i < |xs| ==> m[NatToString(i)] == xs[i]
  {
    if xs == [] then map[]
    else
      var n := |xs| - 1;
      NatToStringInjectiveAll();
      IndexFields(xs[..n])[NatToString(n) := xs[n]]
  }

  /**
   * The characters of a string, each as a one-character string value. A
   * `string` here is a sequence of Unicode scalar values, not of UTF-16 code units.
   */
  function Chars(s: string): seq<Value> {
    seq(|s|, i requires 0 <= i < |s| => Str([s[i]]))
  }

  /**
   * The own enumerable fields that object spread `{...v}` copies out of `v`:
   * an object's fields, an array's elements or a string's scalar values keyed by
   * their decimal index, and nothing at all for `undefined`, `null`, booleans,
   * numbers and symbols.
   */
  function Spread(v: Value): (m: map<string, Value>)
    ensures v.Obj? ==> m == v.fields
    ensures v.Arr? ==> m.Keys == IndexKeys(|v.elems|)
    ensures v.Arr? ==> forall i :: 0 <= i < |v.elems| ==> m[NatToString(i)] == v.elems[i]
    ensures v.Str? ==> m.Keys == IndexKeys(|v.s|)
    ensures v.Str? ==> forall i :: 0 <= i < |v.s| ==> m[NatToString(i)] == Str([v.s[i]])
    ensures !(v.Obj? || v.Arr? || v.Str?) ==> m == map[]
  {
    match v
    case Obj(fields) => fields
    case Arr(xs) => IndexFields(xs)
    case Str(s) => IndexFields(Chars(s))
    case _ => map[]
  }

  /** The property read `o.f` on an object with fields `o`: `undefined` when absent. */
  function Get(o: map<string, Value>, f: string): (v: Value)
    ensures f !in o ==> v == Undefined
    ensures f in o ==> v == o[f]
  {
    if f in o then o[f] else Undefined
  }
}
