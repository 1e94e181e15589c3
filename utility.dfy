/** The helpers of the utility module: `isset`, `getDeepOrDefault`, `isFunction`. */
module Utility {
  import opened Wrappers
  import opened JsValues

  /** `v != null` with loose equality: true of null and of undefined. */
  predicate LooselyNull(v: Value)
  {
    v == Null || v == Undef
  }

  /** `isset`: `typeof v !== 'undefined' && v != null`. */
  function IsSet(v: Value): (r: bool)
    ensures r <==> !v.Undef? && !v.Null?
  {
    TypeOf(v) != "undefined" && !LooselyNull(v)
  }

  /** `isFunction`: `isset(p) && typeof p === 'function'`. */
  function IsFunction(p: Value): (r: bool)
    ensures r <==> p.Fn?
    ensures r ==> IsSet(p)
  {
    IsSet(p) && TypeOf(p) == "function"
  }

  /**
   * The default parameter `defaultValue: TResult = null`: JavaScript puts
   * null in its place when the argument is omitted or undefined.
   */
  function DefaultOrNull(d: Value): (r: Value)
    ensures !r.Undef?
    ensures d.Undef? ==> r == Null
    ensures !d.Undef? ==> r == d
  {
    if d.Undef? then Null else d
  }

  /**
   * The walk of `getDeepOrDefault`: Some(v) when every key, read in turn,
   * gives a set value, v being the last one; None at the first unset value.
   */
  function Walk(v: Value, keys: seq<string>): Option<Value>
    decreases keys
  {
    if keys == [] then Some(v)
    else
      var c := Prop(v, keys[0]);
      if !IsSet(c) then None else Walk(c, keys[1..])
  }

  /** What `getDeepOrDefault(objectToCheck, keyNameSpace, defaultValue)` returns. */
  function DeepOrDefault(objectToCheck: Value, keyNameSpace: string, defaultValue: Value): Value
  {
    var d := DefaultOrNull(defaultValue);
    if !IsSet(objectToCheck) then d
    else match Walk(objectToCheck, Split(keyNameSpace, '.'))
      case None => d
      case Some(v) => if IsSet(v) then v else d
  }

  /**
   * `getDeepOrDefault`: splits the key on '.', follows it from the object
   * and returns the value found, or the default at the first unset step.
   */
  method GetDeepOrDefault(objectToCheck: Value, keyNameSpace: string, defaultValue: Value) returns (result: Value)
    ensures result == DeepOrDefault(objectToCheck, keyNameSpace, defaultValue)
    ensures result == DefaultOrNull(defaultValue) || IsSet(result)
  {
    var d := DefaultOrNull(defaultValue);
    if !IsSet(objectToCheck) {
      return d;
    }
    var namespaceKeys := Split(keyNameSpace, '.');
    var currentObjectPath := objectToCheck;
    for i := 0 to |namespaceKeys|
      invariant IsSet(currentObjectPath)
      invariant Walk(objectToCheck, namespaceKeys) == Walk(currentObjectPath, namespaceKeys[i..])
    {
      var currentKey := namespaceKeys[i];
      assert namespaceKeys[i..][1..] == namespaceKeys[i + 1..];
      if !IsSet(Prop(currentObjectPath, currentKey)) {
        return d;
      }
      currentObjectPath := Prop(currentObjectPath, currentKey);
    }
    assert namespaceKeys[|namespaceKeys|..] == [];
    return if !IsSet(currentObjectPath) then d else currentObjectPath;
  }

  /** The walk succeeds exactly when the plain path read gives a set value; then it gives that value. */
  lemma {:induction false} WalkReadsPath(v: Value, keys: seq<string>)
    requires IsSet(v)
    ensures Walk(v, keys) == if IsSet(At(v, keys)) then Some(At(v, keys)) else None
    decreases keys
  {
    if keys != [] {
      var c := Prop(v, keys[0]);
      if IsSet(c) {
        WalkReadsPath(c, keys[1..]);
      } else {
        AtFromUnset(c, keys[1..]);
      }
    }
  }

  /**
   * `getDeepOrDefault` never fails: it gives the value at the dotted path
   * when the object and that value are set, and the default (null when
   * undefined) otherwise, whichever step of the path was missing.
   */
  lemma DeepOrDefaultReadsPath(obj: Value, key: string, d: Value)
    ensures DeepOrDefault(obj, key, d) ==
      if IsSet(obj) && IsSet(At(obj, Split(key, '.'))) then At(obj, Split(key, '.')) else DefaultOrNull(d)
  {
    if IsSet(obj) {
      WalkReadsPath(obj, Split(key, '.'));
    }
  }

  /** A key with no '.' is a single read `obj[key]`, with the default when that is unset. */
  lemma DeepOrDefaultSingleKey(obj: Value, key: string, d: Value)
    requires '.' !in key
    ensures DeepOrDefault(obj, key, d) ==
      if IsSet(obj) && IsSet(Prop(obj, key)) then Prop(obj, key) else DefaultOrNull(d)
  {
    SplitWithoutSeparator(key, '.');
    DeepOrDefaultReadsPath(obj, key, d);
    assert At(obj, [key]) == At(Prop(obj, key), []);
  }

  /** The dotted key built from dot-free segments reads exactly those segments. */
  lemma DeepOrDefaultJoinedPath(obj: Value, keys: seq<string>, d: Value)
    requires |keys| >= 1
    requires forall i :: 0 <= i < |keys| ==> '.' !in keys[i]
    ensures DeepOrDefault(obj, Join(keys, '.'), d) ==
      if IsSet(obj) && IsSet(At(obj, keys)) then At(obj, keys) else DefaultOrNull(d)
  {
    JoinSplit(keys, '.');
    DeepOrDefaultReadsPath(obj, Join(keys, '.'), d);
  }
}
