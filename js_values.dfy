/**
 * The slice of JavaScript's value model that the mapper touches: values,
 * constructor identities, truthiness, `typeof`, own-property reads and
 * writes on ordered objects, and `String.prototype.split` on one character.
 */
module JsValues {
  import opened Wrappers

  /** Identity of a constructor function: what `v.constructor` yields and what the stores are keyed by. */
  datatype Ctor =
    | ObjectCtor
    | ArrayCtor
    | FunctionCtor
    | BooleanCtor
    | NumberCtor
    | StringCtor
    | DateCtor
    | Class(name: string)

  /**
   * A JavaScript value. Objects keep their own properties in insertion order,
   * as `Object.keys` and `JSON.stringify` see them, and remember the
   * constructor that made them. Functions are opaque and told apart by an id.
   */
  datatype Value =
    | Undef
    | Null
    | Bool(b: bool)
    | Num(n: int)
    | Str(s: string)
    | Fn(id: nat)
    | Arr(elems: seq<Value>)
    | Obj(ctor: Ctor, fields: seq<(string, Value)>)

  type Fields = seq<(string, Value)>

  /** Why a JavaScript evaluation ended abruptly. */
  datatype Failure =
    | TypeError      // a property read on undefined or null, or a property write on a primitive
    | DepthExceeded  // the nesting bound ran out where JavaScript would recurse further
    | OutsideModel   // a named-key write into an array or function, which Value cannot hold

  /** Completion of an evaluation: `Ok` for a normal one, `Err` for a thrown exception. */
  type Completion<T> = Result<T, Failure>

  /** A fresh `{}`. */
  const EmptyObject: Value := Obj(ObjectCtor, [])

  /** The `typeof` operator. */
  function TypeOf(v: Value): string
  {
    match v
    case Undef => "undefined"
    case Bool(_) => "boolean"
    case Num(_) => "number"
    case Str(_) => "string"
    case Fn(_) => "function"
    case _ => "object"
  }

  /** The values that `!v` turns into true (NaN and -0 are not numbers of this model). */
  predicate IsFalsy(v: Value)
  {
    v.Undef? || v.Null? || v == Bool(false) || v == Num(0) || v == Str("")
  }

  /** The `a || b` operator. */
  function Or(a: Value, b: Value): Value
  {
    if IsFalsy(a) then b else a
  }

  /** `v.constructor`, or None where that read throws (undefined and null). */
  function CtorOf(v: Value): Option<Ctor>
  {
    match v
    case Undef => None
    case Null => None
    case Bool(_) => Some(BooleanCtor)
    case Num(_) => Some(NumberCtor)
    case Str(_) => Some(StringCtor)
    case Fn(_) => Some(FunctionCtor)
    case Arr(_) => Some(ArrayCtor)
    case Obj(c, _) => Some(c)
  }

  /** Own property `k` of an object's field list, or undefined when there is none. */
  function Get(fs: Fields, k: string): Value
  {
    if |fs| == 0 then Undef
    else if fs[0].0 == k then fs[0].1
    else Get(fs[1..], k)
  }

  /** The key `k` is an own property of the field list. */
  predicate Has(fs: Fields, k: string)
  {
    |fs| > 0 && (fs[0].0 == k || Has(fs[1..], k))
  }

  /**
   * Assignment `o[k] = v`: an existing property keeps its place and takes
   * the new value; a new one is appended.
   */
  function Set(fs: Fields, k: string, v: Value): (r: Fields)
    ensures Get(r, k) == v
    ensures forall k' :: k' != k ==> Get(r, k') == Get(fs, k')
    ensures forall k' :: Has(r, k') <==> k' == k || Has(fs, k')
  {
    if |fs| == 0 then [(k, v)]
    else if fs[0].0 == k then
      assert ([(k, v)] + fs[1..])[1..] == fs[1..];
      [(k, v)] + fs[1..]
    else
      var r := [fs[0]] + Set(fs[1..], k, v);
      assert r[1..] == Set(fs[1..], k, v);
      r
  }

  /** A second assignment to the same key undoes the first: only the last value shows. */
  lemma {:induction false} SetTwice(fs: Fields, k: string, a: Value, b: Value)
    ensures Set(Set(fs, k, a), k, b) == Set(fs, k, b)
  {
    if |fs| > 0 && fs[0].0 != k {
      SetTwice(fs[1..], k, a, b);
      assert Set(fs, k, a)[1..] == Set(fs[1..], k, a);
    }
  }

  predicate IsDigit(c: char) { '0' <= c <= '9' }

  function DigitsValue(s: string): nat
    requires forall i :: 0 <= i < |s| ==> IsDigit(s[i])
  {
    if |s| == 0 then 0
    else
      assert IsDigit(s[|s| - 1]);
      DigitsValue(s[..|s| - 1]) * 10 + ((s[|s| - 1] as int) - ('0' as int))
  }

  /** The array index a property key names: canonical decimal digits, no leading zero. */
  function ParseIndex(k: string): Option<nat>
  {
    if |k| == 0 || (|k| > 1 && k[0] == '0') then None
    else if forall i :: 0 <= i < |k| ==> IsDigit(k[i]) then Some(DigitsValue(k))
    else None
  }

  /**
   * The read `v[k]` of an own property of a set value: object fields, and
   * `length` and the indices of arrays and strings. Inherited members of a
   * prototype read as undefined here, and so do a function's own `length`,
   * `name` and `prototype`: functions have no readable properties. Callers make sure `v` is set: the
   * read throws on undefined and null.
   */
  function Prop(v: Value, k: string): Value
  {
    match v
    case Obj(_, fs) => Get(fs, k)
    case Arr(es) =>
      if k == "length" then Num(|es|)
      else (match ParseIndex(k)
            case Some(i) => if i < |es| then es[i] else Undef
            case None => Undef)
    case Str(s) =>
      if k == "length" then Num(|s|)
      else (match ParseIndex(k)
            case Some(i) => if i < |s| then Str([s[i]]) else Undef
            case None => Undef)
    case _ => Undef
  }

  /** `s.split(sep)` for a one-character separator. */
  function Split(s: string, sep: char): (parts: seq<string>)
    ensures |parts| >= 1
    ensures forall i :: 0 <= i < |parts| ==> sep !in parts[i]
  {
    if |s| == 0 then [""]
    else if s[0] == sep then [""] + Split(s[1..], sep)
    else
      var rest := Split(s[1..], sep);
      [[s[0]] + rest[0]] + rest[1..]
  }

  /** `parts.join(sep)`. */
  function Join(parts: seq<string>, sep: char): string
    requires |parts| >= 1
  {
    if |parts| == 1 then parts[0] else parts[0] + [sep] + Join(parts[1..], sep)
  }

  /** Splitting loses nothing: joining the pieces gives back the key. */
  lemma {:induction false} SplitJoin(s: string, sep: char)
    ensures Join(Split(s, sep), sep) == s
  {
    if |s| > 0 {
      SplitJoin(s[1..], sep);
      var rest := Split(s[1..], sep);
      if s[0] != sep {
        var parts := [[s[0]] + rest[0]] + rest[1..];
        if |rest| > 1 { assert parts[1..] == rest[1..]; }
        assert s == [s[0]] + s[1..];
      } else {
        assert ([""] + rest)[1..] == rest;
        assert s == [sep] + s[1..];
      }
    }
  }

  /** A key without the separator splits into itself alone. */
  lemma {:induction false} SplitWithoutSeparator(s: string, sep: char)
    requires sep !in s
    ensures Split(s, sep) == [s]
  {
    if |s| > 0 {
      SplitWithoutSeparator(s[1..], sep);
      assert [s[0]] + s[1..] == s;
    }
  }

  /** Splitting undoes joining when no piece contains the separator. */
  lemma {:induction false} JoinSplit(parts: seq<string>, sep: char)
    requires |parts| >= 1
    requires forall i :: 0 <= i < |parts| ==> sep !in parts[i]
    ensures Split(Join(parts, sep), sep) == parts
  {
    if |parts| == 1 {
      SplitWithoutSeparator(parts[0], sep);
    } else {
      JoinSplit(parts[1..], sep);
      SplitPrefix(parts[0], sep, Join(parts[1..], sep));
      assert [parts[0]] + parts[1..] == parts;
    }
  }

  /** Splitting `a + sep + b`, where `a` has no separator, yields `a` followed by the pieces of `b`. */
  lemma {:induction false} SplitPrefix(a: string, sep: char, b: string)
    requires sep !in a
    ensures Split(a + [sep] + b, sep) == [a] + Split(b, sep)
  {
    if |a| == 0 {
      assert a + [sep] + b == [sep] + b;
      assert ([sep] + b)[1..] == b;
    } else {
      SplitPrefix(a[1..], sep, b);
      assert (a + [sep] + b)[1..] == a[1..] + [sep] + b;
      assert [a[0]] + a[1..] == a;
    }
  }

  /**
   * The value reached by reading `keys` one after another, starting at `v`.
   * A read past an unset value gives undefined, so this never fails.
   */
  function At(v: Value, keys: seq<string>): Value
    decreases keys
  {
    if keys == [] then v else At(Prop(v, keys[0]), keys[1..])
  }

  /** Reading on from undefined or null gives an unset value. */
  lemma {:induction false} AtFromUnset(v: Value, keys: seq<string>)
    requires v.Undef? || v.Null?
    ensures At(v, keys).Undef? || At(v, keys).Null?
    ensures keys != [] ==> At(v, keys) == Undef
    decreases keys
  {
    if keys != [] {
      AtFromUnset(Prop(v, keys[0]), keys[1..]);
    }
  }

  /** Reading along `a + b` is reading along `a`, then along `b`. */
  lemma {:induction false} AtAppend(v: Value, a: seq<string>, b: seq<string>)
    ensures At(v, a + b) == At(At(v, a), b)
    decreases a
  {
    if a == [] {
      assert a + b == b;
    } else {
      assert (a + b)[0] == a[0];
      assert (a + b)[1..] == a[1..] + b;
      AtAppend(Prop(v, a[0]), a[1..], b);
    }
  }
}
