/**
 * `toPlain(obj)`: builds plain data from an instance of a registered type,
 * writing each field at its literal key or along its dotted output path.
 * The functions give the meaning; the methods follow the source's loops
 * and are proved equal to them. `fuel` bounds the nesting of recursive
 * conversions.
 */
module ToPlainConvertor {
  import opened Wrappers
  import opened JsValues
  import opened Interfaces
  import opened Utility
  import Decorators

  /** The direction filter: `toPlainOnly === false || (!isset(toPlainOnly) && toClassOnly === true)`. */
  predicate SkippedByToPlain(o: Options)
  {
    o.toPlainOnly == Some(false) || (o.toPlainOnly.None? && o.toClassOnly == Some(true))
  }

  // ---------------------------------------------------------------------
  // Writes into the output
  // ---------------------------------------------------------------------

  /**
   * The assignment `container[k] = x`. Writing into a primitive throws in
   * strict mode; any write into an array or function, an index key
   * included, is reported as outside the model.
   */
  function Assign(container: Value, k: string, x: Value): Completion<Value>
  {
    match container
    case Obj(c, fs) => Ok(Obj(c, Set(fs, k, x)))
    case Arr(_) => Err(OutsideModel)
    case Fn(_) => Err(OutsideModel)
    case _ => Err(TypeError)
  }

  /** The assignment `root[path[0]]...[path[n-1]][k] = x` through the containers already in place. */
  function WriteAt(root: Value, path: seq<string>, k: string, x: Value): Completion<Value>
    decreases path
  {
    if path == [] then Assign(root, k, x)
    else
      match root
      case Obj(c, fs) =>
        var child :- WriteAt(Get(fs, path[0]), path[1..], k, x);
        Ok(Obj(c, Set(fs, path[0], child)))
      case Arr(_) => Err(OutsideModel)
      case Fn(_) => Err(OutsideModel)
      case _ => Err(TypeError)
  }

  /** Every container along `path`, `root` included, is an object. */
  predicate Writable(root: Value, path: seq<string>)
    decreases path
  {
    root.Obj? && (path == [] || Writable(Get(root.fields, path[0]), path[1..]))
  }

  // ---------------------------------------------------------------------
  // The conversion
  // ---------------------------------------------------------------------

  /** A nested conversion `toPlain(o)`, as the entry steps see it. */
  type PlainConversion = Value -> Completion<Value>

  /** What `toPlain(obj)` returns, or the exception it throws. */
  function ToPlainSpec(store: ConvertorStore, env: Env, fuel: nat, obj: Value): Completion<Value>
    decreases fuel, 2
  {
    match CtorOf(obj)
    case None => Err(TypeError)
    case Some(objConstructor) =>
      if obj.Arr? then
        if fuel == 0 then Err(DepthExceeded) else ArrayOf(NestedToPlain(store, env, fuel), obj.elems)
      else if objConstructor !in store then Ok(EmptyObject)
      else if fuel == 0 then Err(DepthExceeded)
      else TableToPlain(store, env, fuel, obj, store[objConstructor])
  }

  /** The table branch: every entry of the type's table writes into a fresh `{}` in turn. */
  function TableToPlain(store: ConvertorStore, env: Env, fuel: nat, obj: Value, table: FieldTable): Completion<Value>
    requires fuel > 0
    decreases fuel, 1
  {
    FoldFrom(EntryStep(store, env, NestedToPlain(store, env, fuel), obj), table, 0, EmptyObject)
  }

  /** The recursive call `toPlain(o)` on an array element or a field value, one level down. */
  function NestedToPlain(store: ConvertorStore, env: Env, fuel: nat): PlainConversion
    requires fuel > 0
    decreases fuel, 0
  {
    o => ToPlainSpec(store, env, fuel - 1, o)
  }

  /** An object value (typeof "object", not null) whose constructor has a table. */
  predicate IsRegisteredObject(store: ConvertorStore, v: Value)
  {
    TypeOf(v) == "object" && CtorOf(v).Some? && CtorOf(v).value in store
  }

  /*
   * The remaining functions take the nested conversion as a parameter
   * `conv`: what one table entry writes does not depend on how the nested
   * conversion is computed.
   */

  /** The `forEach` callback as a step of the loop over the type's table: entry `e` writes into `out`. */
  function EntryStep(store: ConvertorStore, env: Env, conv: PlainConversion, obj: Value): (Value, (string, Metadata)) -> Completion<Value>
  {
    (out: Value, e: (string, Metadata)) => Entry(store, env, conv, obj, e.1, out)
  }

  /**
   * The plain form of one value: a non-object as it is, an object of an
   * unregistered type as a JSON clone, a registered one converted; the
   * constructor read throws on null.
   */
  function PlainOf(store: ConvertorStore, env: Env, conv: PlainConversion, propVal: Value): Completion<Value>
  {
    if TypeOf(propVal) != "object" then Ok(propVal)
    else
      match CtorOf(propVal)
      case None => Err(TypeError)
      case Some(valConstructor) =>
        if valConstructor !in store then Ok(env.jsonClone(propVal))
        else conv(propVal)
  }

  /**
   * What the array loop pushes for one element `val` of `whole`: like
   * PlainOf, except that an object of an unregistered type pushes a clone
   * of the whole array.
   */
  function PushedItem(store: ConvertorStore, env: Env, conv: PlainConversion, whole: Value, val: Value): Completion<Value>
  {
    if TypeOf(val) != "object" then Ok(val)
    else
      match CtorOf(val)
      case None => Err(TypeError)
      case Some(valConstructor) =>
        if valConstructor !in store then Ok(env.jsonClone(whole))
        else conv(val)
  }

  /** PushedItem for each element of `whole`, as the array loop's element conversion. */
  function ElementOf(store: ConvertorStore, env: Env, conv: PlainConversion, whole: Value): Value -> Completion<Value>
  {
    val => PushedItem(store, env, conv, whole, val)
  }

  /**
   * The path loop from segment `i` on: an unset value writes null at the
   * current segment and stops; the last segment takes the value, or a new
   * array filled by the array loop; a missing container on the way
   * becomes `{}`.
   */
  function PathFrom(store: ConvertorStore, env: Env, conv: PlainConversion, keys: seq<string>, propVal: Value, i: nat, out: Value): Completion<Value>
    requires i <= |keys|
    decreases |keys| - i
  {
    if i == |keys| then Ok(out)
    else
      var prefix := keys[..i];
      var currentKey := keys[i];
      if !IsSet(propVal) then WriteAt(out, prefix, currentKey, Null)
      else if i == |keys| - 1 && !propVal.Arr? then
        var x :- PlainOf(store, env, conv, propVal);
        WriteAt(out, prefix, currentKey, x)
      else
        var filled :-
          if i == |keys| - 1 then ArrayLeaf(store, env, conv, propVal, prefix, currentKey, out)
          else Ok(out);
        var ensured :- EnsureContainer(filled, prefix, currentKey);
        PathFrom(store, env, conv, keys, propVal, i + 1, ensured)
  }

  /** A segment that holds nothing set yet becomes `{}`; anything set stays. */
  function EnsureContainer(out: Value, prefix: seq<string>, key: string): Completion<Value>
  {
    if !IsSet(At(out, prefix + [key])) then WriteAt(out, prefix, key, EmptyObject)
    else Ok(out)
  }

  /** The array leaf of the path loop: `[]` at the last segment, then the array loop fills it. */
  function ArrayLeaf(store: ConvertorStore, env: Env, conv: PlainConversion, whole: Value, prefix: seq<string>, key: string, out: Value): Completion<Value>
    requires whole.Arr?
  {
    var emptied :- WriteAt(out, prefix, key, Arr([]));
    ArrayLeafFrom(store, env, conv, whole, prefix, key, 0, [], emptied)
  }

  /** The array loop from element `j` on, with `pushed` already in the array at the leaf of `current`. */
  function ArrayLeafFrom(store: ConvertorStore, env: Env, conv: PlainConversion, whole: Value, prefix: seq<string>, key: string,
                         j: nat, pushed: seq<Value>, current: Value): Completion<Value>
    requires whole.Arr? && j <= |whole.elems|
  {
    var items :- MapFrom(ElementOf(store, env, conv, whole), whole.elems, j, pushed);
    WriteAt(current, prefix, key, Arr(items))
  }

  /**
   * One table entry's effect on the output: nothing when the filter skips
   * it; the converter's result at the literal key; otherwise the write of
   * the literal or of the path read mode.
   */
  function Entry(store: ConvertorStore, env: Env, conv: PlainConversion, obj: Value, md: Metadata, out: Value): Completion<Value>
  {
    var o := md.options;
    if SkippedByToPlain(o) then Ok(out)
    else if IsFunction(o.convertFunc) then
      Assign(out, MappedName(md), env.call(o.convertFunc, md.propertyName, md, o.defaultValue, obj, false))
    else if o.resolvePath == Some(false) then LiteralEntry(store, env, conv, obj, md, out)
    else PathEntry(store, env, conv, obj, md, out)
  }

  /** Literal mode: the plain form of `obj[propertyName] || defaultValue` at the literal key. */
  function LiteralEntry(store: ConvertorStore, env: Env, conv: PlainConversion, obj: Value, md: Metadata, out: Value): Completion<Value>
  {
    var x :- PlainOf(store, env, conv, Or(Prop(obj, md.propertyName), md.options.defaultValue));
    Assign(out, MappedName(md), x)
  }

  /** Path mode: the value read along the property name, written by the path loop along the dotted key. */
  function PathEntry(store: ConvertorStore, env: Env, conv: PlainConversion, obj: Value, md: Metadata, out: Value): Completion<Value>
  {
    PathFrom(store, env, conv, Split(MappedName(md), '.'), DeepOrDefault(obj, md.propertyName, md.options.defaultValue), 0, out)
  }

  // ---------------------------------------------------------------------
  // Path writes: what the loop relies on
  // ---------------------------------------------------------------------

  /** A path write succeeds exactly when every container on the path is an object. */
  lemma {:induction false} WriteAtSucceeds(root: Value, path: seq<string>, k: string, x: Value)
    ensures WriteAt(root, path, k, x).Ok? <==> Writable(root, path)
    ensures WriteAt(root, path, k, x).Ok? ==> WriteAt(root, path, k, x).value.Obj? &&
                                              WriteAt(root, path, k, x).value.ctor == root.ctor
    decreases path
  {
    if path != [] && root.Obj? {
      WriteAtSucceeds(Get(root.fields, path[0]), path[1..], k, x);
    }
  }

  /** After a path write, reading along the path gives the written value. */
  lemma {:induction false} WriteAtThenAt(root: Value, path: seq<string>, k: string, x: Value)
    requires Writable(root, path)
    ensures WriteAt(root, path, k, x).Ok?
    ensures At(WriteAt(root, path, k, x).value, path + [k]) == x
    decreases path
  {
    WriteAtSucceeds(root, path, k, x);
    if path != [] {
      WriteAtThenAt(Get(root.fields, path[0]), path[1..], k, x);
      assert (path + [k])[1..] == path[1..] + [k];
    }
  }

  /** Writing the same location twice leaves only the second write. */
  lemma {:induction false} WriteAtTwice(root: Value, path: seq<string>, k: string, a: Value, b: Value)
    requires Writable(root, path)
    ensures WriteAt(root, path, k, a).Ok? && WriteAt(root, path, k, b).Ok?
    ensures Writable(WriteAt(root, path, k, a).value, path)
    ensures WriteAt(WriteAt(root, path, k, a).value, path, k, b) == WriteAt(root, path, k, b)
    decreases path
  {
    WriteAtSucceeds(root, path, k, a);
    WriteAtSucceeds(root, path, k, b);
    if path == [] {
      SetTwice(root.fields, k, a, b);
    } else {
      var child := Get(root.fields, path[0]);
      WriteAtTwice(child, path[1..], k, a, b);
      WriteAtSucceeds(WriteAt(root, path, k, a).value, path, k, b);
      SetTwice(root.fields, path[0], WriteAt(child, path[1..], k, a).value, WriteAt(child, path[1..], k, b).value);
    }
  }

  /** A push onto the array at a path is a write of the longer array there. */
  lemma PushOnto(root: Value, path: seq<string>, k: string, pushed: seq<Value>, item: Value, current: Value)
    requires WriteAt(root, path, k, Arr(pushed)) == Ok(current)
    ensures At(current, path + [k]) == Arr(pushed)
    ensures WriteAt(current, path, k, Arr(pushed + [item])).Ok?
    ensures WriteAt(current, path, k, Arr(pushed + [item])) == WriteAt(root, path, k, Arr(pushed + [item]))
  {
    WriteAtSucceeds(root, path, k, Arr(pushed));
    WriteAtThenAt(root, path, k, Arr(pushed));
    WriteAtTwice(root, path, k, Arr(pushed), Arr(pushed + [item]));
  }

  /** Writing `[]` and then the filled array at a path is writing the filled array, which then reads back. */
  lemma ArrayLeafWrite(root: Value, path: seq<string>, k: string, items: seq<Value>)
    requires WriteAt(root, path, k, Arr([])).Ok?
    ensures WriteAt(WriteAt(root, path, k, Arr([])).value, path, k, Arr(items)) == WriteAt(root, path, k, Arr(items))
    ensures WriteAt(root, path, k, Arr(items)).Ok?
    ensures At(WriteAt(root, path, k, Arr(items)).value, path + [k]) == Arr(items)
  {
    WriteAtSucceeds(root, path, k, Arr([]));
    WriteAtTwice(root, path, k, Arr([]), Arr(items));
    WriteAtThenAt(root, path, k, Arr(items));
  }

  /** A successful array leaf is the write of the converted elements, which then read back at the leaf. */
  lemma ArrayLeafIsWrite(store: ConvertorStore, env: Env, conv: PlainConversion, whole: Value, prefix: seq<string>, key: string, out: Value)
    requires whole.Arr? && ArrayLeaf(store, env, conv, whole, prefix, key, out).Ok?
    ensures MapFrom(ElementOf(store, env, conv, whole), whole.elems, 0, []).Ok?
    ensures var items := MapFrom(ElementOf(store, env, conv, whole), whole.elems, 0, []).value;
      ArrayLeaf(store, env, conv, whole, prefix, key, out) == WriteAt(out, prefix, key, Arr(items)) &&
      At(WriteAt(out, prefix, key, Arr(items)).value, prefix + [key]) == Arr(items)
  {
    ArrayLeafWrite(out, prefix, key, MapFrom(ElementOf(store, env, conv, whole), whole.elems, 0, []).value);
  }

  /**
   * One pass of the array loop: a failed element conversion ends the
   * leaf with its error; otherwise pushing the item onto the array at the
   * leaf is the write of the longer array.
   */
  lemma ArrayLeafStep(store: ConvertorStore, env: Env, conv: PlainConversion, whole: Value, prefix: seq<string>, key: string,
                      out: Value, j: nat, pushed: seq<Value>, current: Value)
    requires whole.Arr? && j < |whole.elems|
    requires WriteAt(out, prefix, key, Arr(pushed)) == Ok(current)
    ensures var item := PushedItem(store, env, conv, whole, whole.elems[j]);
      (item.Err? ==> ArrayLeafFrom(store, env, conv, whole, prefix, key, j, pushed, current) == Err(item.error)) &&
      (item.Ok? ==>
         At(current, prefix + [key]) == Arr(pushed) &&
         WriteAt(current, prefix, key, Arr(pushed + [item.value])) == WriteAt(out, prefix, key, Arr(pushed + [item.value])) &&
         WriteAt(current, prefix, key, Arr(pushed + [item.value])).Ok? &&
         ArrayLeafFrom(store, env, conv, whole, prefix, key, j, pushed, current) ==
         ArrayLeafFrom(store, env, conv, whole, prefix, key, j + 1, pushed + [item.value],
                       WriteAt(current, prefix, key, Arr(pushed + [item.value])).value))
  {
    var item := PushedItem(store, env, conv, whole, whole.elems[j]);
    assert ElementOf(store, env, conv, whole)(whole.elems[j]) == item;
    if item.Ok? {
      PushOnto(out, prefix, key, pushed, item.value, current);
      var next := WriteAt(current, prefix, key, Arr(pushed + [item.value])).value;
      WriteAtSucceeds(out, prefix, key, Arr(pushed));
      WriteAtTwice(out, prefix, key, Arr(pushed), Arr(pushed + [item.value]));
      var rest := MapFrom(ElementOf(store, env, conv, whole), whole.elems, j + 1, pushed + [item.value]);
      if rest.Ok? {
        WriteAtTwice(out, prefix, key, Arr(pushed + [item.value]), Arr(rest.value));
        WriteAtTwice(out, prefix, key, Arr(pushed), Arr(rest.value));
      }
    }
  }

  /** When the array loop has gone through every element, the leaf holds what it pushed. */
  lemma ArrayLeafEnd(store: ConvertorStore, env: Env, conv: PlainConversion, whole: Value, prefix: seq<string>, key: string,
                     out: Value, pushed: seq<Value>, current: Value)
    requires whole.Arr?
    requires WriteAt(out, prefix, key, Arr(pushed)) == Ok(current)
    ensures ArrayLeafFrom(store, env, conv, whole, prefix, key, |whole.elems|, pushed, current) == Ok(current)
  {
    WriteAtSucceeds(out, prefix, key, Arr(pushed));
    WriteAtTwice(out, prefix, key, Arr(pushed), Arr(pushed));
  }

  // ---------------------------------------------------------------------
  // The methods
  // ---------------------------------------------------------------------

  /**
   * `toPlain`: the constructor read (throws on undefined and null), the
   * array fan-out, `{}` for an unregistered type, otherwise every table
   * entry writes into a fresh `{}` in turn.
   */
  method ToPlain(store: ConvertorStore, env: Env, fuel: nat, obj: Value) returns (result: Completion<Value>)
    ensures result == ToPlainSpec(store, env, fuel, obj)
    decreases fuel, 5
  {
    var objConstructor := CtorOf(obj);
    if objConstructor.None? {
      return Err(TypeError);
    }
    if obj.Arr? {
      if fuel == 0 {
        return Err(DepthExceeded);
      }
      var collection: seq<Value> := [];
      for j := 0 to |obj.elems|
        invariant MapFrom(NestedToPlain(store, env, fuel), obj.elems, 0, []) == MapFrom(NestedToPlain(store, env, fuel), obj.elems, j, collection)
      {
        var item :- ToPlain(store, env, fuel - 1, obj.elems[j]);
        collection := collection + [item];
      }
      return Ok(Arr(collection));
    }
    var returnVal := EmptyObject;
    if objConstructor.value !in store {
      return Ok(returnVal);
    }
    if fuel == 0 {
      return Err(DepthExceeded);
    }
    var metaDataMap := store[objConstructor.value];
    for i := 0 to |metaDataMap|
      invariant FoldFrom(EntryStep(store, env, NestedToPlain(store, env, fuel), obj), metaDataMap, 0, EmptyObject) ==
                FoldFrom(EntryStep(store, env, NestedToPlain(store, env, fuel), obj), metaDataMap, i, returnVal)
    {
      returnVal :- WriteEntry(store, env, fuel, obj, metaDataMap[i].1, returnVal);
    }
    return Ok(returnVal);
  }

  /** The `forEach` callback for one entry. */
  method WriteEntry(store: ConvertorStore, env: Env, fuel: nat, obj: Value, metadata: Metadata, returnVal: Value)
    returns (result: Completion<Value>)
    requires fuel > 0
    ensures result == Entry(store, env, NestedToPlain(store, env, fuel), obj, metadata, returnVal)
    decreases fuel, 4
  {
    var opts := metadata.options;
    if SkippedByToPlain(opts) {
      return Ok(returnVal);
    }
    var plainObjPropName := MappedName(metadata);
    if IsFunction(opts.convertFunc) {
      return Assign(returnVal, plainObjPropName, env.call(opts.convertFunc, metadata.propertyName, metadata, opts.defaultValue, obj, false));
    }
    if opts.resolvePath == Some(false) {
      result := WriteLiteral(store, env, fuel, obj, metadata, returnVal);
    } else {
      result := WriteAlongPath(store, env, fuel, obj, metadata, returnVal);
    }
  }

  /** The literal branch of the callback: `obj[name] || defaultValue`, converted, at the literal key. */
  method WriteLiteral(store: ConvertorStore, env: Env, fuel: nat, obj: Value, metadata: Metadata, returnVal: Value)
    returns (result: Completion<Value>)
    requires fuel > 0
    ensures result == LiteralEntry(store, env, NestedToPlain(store, env, fuel), obj, metadata, returnVal)
    decreases fuel, 3
  {
    var propVal := Or(Prop(obj, metadata.propertyName), metadata.options.defaultValue);
    var x :- ConvertValue(store, env, fuel, propVal);
    return Assign(returnVal, MappedName(metadata), x);
  }

  /** The path branch of the callback: read along the property name, then the path loop. */
  method WriteAlongPath(store: ConvertorStore, env: Env, fuel: nat, obj: Value, metadata: Metadata, returnVal: Value)
    returns (result: Completion<Value>)
    requires fuel > 0
    ensures result == PathEntry(store, env, NestedToPlain(store, env, fuel), obj, metadata, returnVal)
    decreases fuel, 3
  {
    var propVal := GetDeepOrDefault(obj, metadata.propertyName, metadata.options.defaultValue);
    var namespaceKeysTarget := Split(MappedName(metadata), '.');
    result := WritePath(store, env, fuel, namespaceKeysTarget, propVal, returnVal);
  }

  /** The path loop of the callback, descending into (and creating) the containers of the dotted key. */
  method WritePath(store: ConvertorStore, env: Env, fuel: nat, namespaceKeysTarget: seq<string>, propVal: Value, returnVal: Value)
    returns (result: Completion<Value>)
    requires fuel > 0
    ensures result == PathFrom(store, env, NestedToPlain(store, env, fuel), namespaceKeysTarget, propVal, 0, returnVal)
    decreases fuel, 2
  {
    var out := returnVal;
    var i := 0;
    while i < |namespaceKeysTarget|
      invariant 0 <= i <= |namespaceKeysTarget|
      invariant PathFrom(store, env, NestedToPlain(store, env, fuel), namespaceKeysTarget, propVal, 0, returnVal) ==
                PathFrom(store, env, NestedToPlain(store, env, fuel), namespaceKeysTarget, propVal, i, out)
      decreases |namespaceKeysTarget| - i
    {
      var currentKey := namespaceKeysTarget[i];
      var prefix := namespaceKeysTarget[..i];
      if !IsSet(propVal) {
        return WriteAt(out, prefix, currentKey, Null);
      }
      if i == |namespaceKeysTarget| - 1 {
        if !propVal.Arr? {
          var x :- ConvertValue(store, env, fuel, propVal);
          return WriteAt(out, prefix, currentKey, x);
        }
        out :- WriteArrayLeaf(store, env, fuel, propVal, prefix, currentKey, out);
      }
      if !IsSet(At(out, prefix + [currentKey])) {
        out :- WriteAt(out, prefix, currentKey, EmptyObject);
      }
      i := i + 1;
    }
    return Ok(out);
  }

  /** `current[key] = []`, then the array loop pushes one plain element after another onto it. */
  method WriteArrayLeaf(store: ConvertorStore, env: Env, fuel: nat, propVal: Value, prefix: seq<string>, currentKey: string, out: Value)
    returns (result: Completion<Value>)
    requires fuel > 0 && propVal.Arr?
    ensures result == ArrayLeaf(store, env, NestedToPlain(store, env, fuel), propVal, prefix, currentKey, out)
    decreases fuel, 1
  {
    var returnVal :- WriteAt(out, prefix, currentKey, Arr([]));
    ghost var pushed: seq<Value> := [];
    for j := 0 to |propVal.elems|
      invariant ArrayLeaf(store, env, NestedToPlain(store, env, fuel), propVal, prefix, currentKey, out) ==
                ArrayLeafFrom(store, env, NestedToPlain(store, env, fuel), propVal, prefix, currentKey, j, pushed, returnVal)
      invariant WriteAt(out, prefix, currentKey, Arr(pushed)) == Ok(returnVal)
    {
      ArrayLeafStep(store, env, NestedToPlain(store, env, fuel), propVal, prefix, currentKey, out, j, pushed, returnVal);
      var item :- ConvertElement(store, env, fuel, propVal, propVal.elems[j]);
      var current := At(returnVal, prefix + [currentKey]);
      returnVal := WriteAt(returnVal, prefix, currentKey, Arr(current.elems + [item])).value;
      pushed := pushed + [item];
    }
    ArrayLeafEnd(store, env, NestedToPlain(store, env, fuel), propVal, prefix, currentKey, out, pushed, returnVal);
    return Ok(returnVal);
  }

  /** One pass of the array loop: the plain form of element `val` of `whole`. */
  method ConvertElement(store: ConvertorStore, env: Env, fuel: nat, whole: Value, val: Value) returns (result: Completion<Value>)
    requires fuel > 0
    ensures result == PushedItem(store, env, NestedToPlain(store, env, fuel), whole, val)
    decreases fuel, 0
  {
    if TypeOf(val) != "object" {
      return Ok(val);
    }
    var valConstructor := CtorOf(val);
    if valConstructor.None? {
      return Err(TypeError);
    }
    if valConstructor.value !in store {
      return Ok(env.jsonClone(whole));
    }
    result := ToPlain(store, env, fuel - 1, val);
  }

  /** The plain form of one value, as both read modes compute it before the assignment. */
  method ConvertValue(store: ConvertorStore, env: Env, fuel: nat, propVal: Value) returns (result: Completion<Value>)
    requires fuel > 0
    ensures result == PlainOf(store, env, NestedToPlain(store, env, fuel), propVal)
    decreases fuel, 0
  {
    if TypeOf(propVal) != "object" {
      return Ok(propVal);
    }
    var valConstructor := CtorOf(propVal);
    if valConstructor.None? {
      return Err(TypeError);
    }
    if valConstructor.value !in store {
      return Ok(env.jsonClone(propVal));
    }
    result := ToPlain(store, env, fuel - 1, propVal);
  }

  // ---------------------------------------------------------------------
  // Properties of the conversion
  // ---------------------------------------------------------------------

  /** A field the filter skips for toPlain is exactly one the registration kept out of the plain store. */
  lemma DirectionFilterAgreesWithRegistration(o: Options)
    ensures SkippedByToPlain(o) <==> !Decorators.AddsToPlainStore(o)
  {
    match o.toPlainOnly
    case None =>
    case Some(b) => assert b || !b;
  }

  /**
   * The order of the checks: the constructor read throws on undefined and
   * null before anything else, and a value of an unregistered type that
   * is not an array gives `{}`.
   */
  lemma Dispatch(store: ConvertorStore, env: Env, fuel: nat, obj: Value)
    ensures obj.Undef? || obj.Null? ==> ToPlainSpec(store, env, fuel, obj) == Err(TypeError)
    ensures !obj.Arr? && CtorOf(obj).Some? && CtorOf(obj).value !in store ==> ToPlainSpec(store, env, fuel, obj) == Ok(EmptyObject)
  {
  }

  /**
   * An array gives an array of the same length whose element `i` is the
   * conversion of element `i`, whether or not arrays are registered.
   */
  lemma ArrayFanOut(store: ConvertorStore, env: Env, fuel: nat, objs: seq<Value>)
    requires fuel > 0
    ensures var r := ToPlainSpec(store, env, fuel, Arr(objs));
      (r.Ok? <==> forall i :: 0 <= i < |objs| ==> ToPlainSpec(store, env, fuel - 1, objs[i]).Ok?) &&
      (r.Ok? ==> (r.value.Arr? && |r.value.elems| == |objs| &&
         forall i :: 0 <= i < |objs| ==> r.value.elems[i] == ToPlainSpec(store, env, fuel - 1, objs[i]).value))
  {
    ArrayOfElements(NestedToPlain(store, env, fuel), objs);
    forall i | 0 <= i < |objs|
      ensures NestedToPlain(store, env, fuel)(objs[i]) == ToPlainSpec(store, env, fuel - 1, objs[i])
    {
    }
    assert ToPlainSpec(store, env, fuel, Arr(objs)) == ArrayOf(NestedToPlain(store, env, fuel), objs);
  }

  /**
   * The array loop of the last segment fails exactly when some element is
   * null or a registered element's conversion fails. Otherwise it yields
   * one entry per element: a non-object as it is, a registered object
   * converted, and for an object of an unregistered type a clone of the
   * whole array.
   */
  lemma ArrayLeafElements(store: ConvertorStore, env: Env, conv: PlainConversion, whole: Value)
    requires whole.Arr?
    ensures var r := MapFrom(ElementOf(store, env, conv, whole), whole.elems, 0, []);
      (r.Ok? <==> forall i :: 0 <= i < |whole.elems| ==>
         !whole.elems[i].Null? && (IsRegisteredObject(store, whole.elems[i]) ==> conv(whole.elems[i]).Ok?)) &&
      (r.Ok? ==> (|r.value| == |whole.elems| &&
        forall i :: 0 <= i < |whole.elems| ==>
          (TypeOf(whole.elems[i]) != "object" ==> r.value[i] == whole.elems[i]) &&
          (IsRegisteredObject(store, whole.elems[i]) ==> conv(whole.elems[i]) == Ok(r.value[i])) &&
          (TypeOf(whole.elems[i]) == "object" && !whole.elems[i].Null? && !IsRegisteredObject(store, whole.elems[i]) ==>
             r.value[i] == env.jsonClone(whole))))
  {
    var f := ElementOf(store, env, conv, whole);
    MapFromElementwise(f, whole.elems, 0, []);
    forall i | 0 <= i < |whole.elems|
      ensures f(whole.elems[i]) == PushedItem(store, env, conv, whole, whole.elems[i])
    {
    }
  }

  /** A write along a path leaves every location off that path as it was. */
  lemma {:induction false} WriteAtFrame(root: Value, path: seq<string>, k: string, x: Value, q: seq<string>, d: nat)
    requires Writable(root, path)
    requires d <= |path| && d < |q| && q[..d] == (path + [k])[..d] && q[d] != (path + [k])[d]
    ensures WriteAt(root, path, k, x).Ok?
    ensures At(WriteAt(root, path, k, x).value, q) == At(root, q)
    decreases path
  {
    WriteAtSucceeds(root, path, k, x);
    if d == 0 {
      if path != [] {
        assert (path + [k])[0] == path[0];
      }
    } else {
      assert q[0] == q[..d][0] == (path + [k])[..d][0] == path[0];
      assert (path + [k])[1..] == path[1..] + [k];
      assert q[1..][..d - 1] == q[..d][1..];
      assert (path[1..] + [k])[..d - 1] == (path + [k])[..d][1..];
      WriteAtFrame(Get(root.fields, path[0]), path[1..], k, x, q[1..], d - 1);
    }
  }

  /** The value the path loop puts at the last segment of a set value. */
  function LeafOf(store: ConvertorStore, env: Env, conv: PlainConversion, propVal: Value): Completion<Value>
  {
    if propVal.Arr? then
      var items :- MapFrom(ElementOf(store, env, conv, propVal), propVal.elems, 0, []);
      Ok(Arr(items))
    else PlainOf(store, env, conv, propVal)
  }

  /** At the last segment, the path loop for a set value writes its leaf form there. */
  lemma PathFromLast(store: ConvertorStore, env: Env, conv: PlainConversion, keys: seq<string>, propVal: Value, out: Value)
    requires |keys| > 0 && IsSet(propVal)
    requires PathFrom(store, env, conv, keys, propVal, |keys| - 1, out).Ok?
    ensures LeafOf(store, env, conv, propVal).Ok?
    ensures var i := |keys| - 1;
      PathFrom(store, env, conv, keys, propVal, i, out) == WriteAt(out, keys[..i], keys[i], LeafOf(store, env, conv, propVal).value)
  {
    var i := |keys| - 1;
    if propVal.Arr? {
      ArrayLeafIsWrite(store, env, conv, propVal, keys[..i], keys[i], out);
    }
  }

  /** Before the last segment, the path loop ensures the container and goes on with the next segment. */
  lemma PathFromInner(store: ConvertorStore, env: Env, conv: PlainConversion, keys: seq<string>, propVal: Value, i: nat, out: Value)
    requires i < |keys| - 1 && IsSet(propVal)
    ensures PathFrom(store, env, conv, keys, propVal, i, out) ==
      (var ensured :- EnsureContainer(out, keys[..i], keys[i]); PathFrom(store, env, conv, keys, propVal, i + 1, ensured))
  {
  }

  /** The path loop for a set value leaves its plain form at the full dotted path. */
  lemma {:induction false} PathFromLands(store: ConvertorStore, env: Env, conv: PlainConversion, keys: seq<string>, propVal: Value, i: nat, out: Value)
    requires i < |keys| && IsSet(propVal)
    requires PathFrom(store, env, conv, keys, propVal, i, out).Ok?
    ensures LeafOf(store, env, conv, propVal).Ok?
    ensures At(PathFrom(store, env, conv, keys, propVal, i, out).value, keys) == LeafOf(store, env, conv, propVal).value
    decreases |keys| - i
  {
    if i == |keys| - 1 {
      PathFromLast(store, env, conv, keys, propVal, out);
      WriteAtLands(out, keys, LeafOf(store, env, conv, propVal).value);
    } else {
      PathFromInner(store, env, conv, keys, propVal, i, out);
      PathFromLands(store, env, conv, keys, propVal, i + 1, EnsureContainer(out, keys[..i], keys[i]).value);
    }
  }

  /** A successful write at the last segment of `keys` reads back along `keys`. */
  lemma WriteAtLands(out: Value, keys: seq<string>, x: Value)
    requires |keys| > 0 && WriteAt(out, keys[..|keys| - 1], keys[|keys| - 1], x).Ok?
    ensures At(WriteAt(out, keys[..|keys| - 1], keys[|keys| - 1], x).value, keys) == x
  {
    var i := |keys| - 1;
    WriteAtSucceeds(out, keys[..i], keys[i], x);
    WriteAtThenAt(out, keys[..i], keys[i], x);
    assert keys[..i] + [keys[i]] == keys;
  }

  /** A write at segment `i` of `keys` leaves a location that branches off `keys` at `d <= i` as it was. */
  lemma WriteAtFrameAlong(out: Value, keys: seq<string>, i: nat, x: Value, q: seq<string>, d: nat)
    requires i < |keys| && d <= i && d < |q| && q[..d] == keys[..d] && q[d] != keys[d]
    requires WriteAt(out, keys[..i], keys[i], x).Ok?
    ensures At(WriteAt(out, keys[..i], keys[i], x).value, q) == At(out, q)
  {
    WriteAtSucceeds(out, keys[..i], keys[i], x);
    assert keys[..i] + [keys[i]] == keys[..i + 1];
    assert keys[..i + 1][..d] == keys[..d];
    WriteAtFrame(out, keys[..i], keys[i], x, q, d);
  }

  /**
   * Creating the missing container at segment `i` leaves a location that
   * branches off `keys` further down as it was: nothing was there before,
   * and the new `{}` holds nothing.
   */
  lemma EnsureContainerFrame(out: Value, keys: seq<string>, i: nat, q: seq<string>, d: nat)
    requires i < |keys| && d < |keys| && d < |q| && q[..d] == keys[..d] && q[d] != keys[d]
    requires EnsureContainer(out, keys[..i], keys[i]).Ok?
    ensures At(EnsureContainer(out, keys[..i], keys[i]).value, q) == At(out, q)
  {
    var prefix := keys[..i];
    if IsSet(At(out, prefix + [keys[i]])) {
      return;
    }
    if d <= i {
      WriteAtFrameAlong(out, keys, i, EmptyObject, q, d);
      return;
    }
    var p := prefix + [keys[i]];
    assert p == keys[..i + 1];
    assert q[..|p|] == p by {
      assert q[..i + 1] == q[..d][..i + 1];
    }
    WriteAtSucceeds(out, prefix, keys[i], EmptyObject);
    WriteAtThenAt(out, prefix, keys[i], EmptyObject);
    BelowNewContainer(out, WriteAt(out, prefix, keys[i], EmptyObject).value, p, q);
  }

  /** Below a location that was unset and now holds `{}`, nothing is set, before or after. */
  lemma BelowNewContainer(before: Value, after: Value, p: seq<string>, q: seq<string>)
    requires |p| < |q| && q[..|p|] == p
    requires !IsSet(At(before, p)) && At(after, p) == EmptyObject
    ensures At(after, q) == At(before, q)
  {
    var rest := q[|p|..];
    AtSplit(before, q, |p|);
    AtSplit(after, q, |p|);
    AtFromUnset(At(before, p), rest);
    AtInEmptyObject(rest);
  }

  /** Nothing is set anywhere inside `{}`. */
  lemma AtInEmptyObject(keys: seq<string>)
    requires keys != []
    ensures At(EmptyObject, keys) == Undef
  {
    assert At(EmptyObject, keys) == At(Undef, keys[1..]);
    AtFromUnset(Undef, keys[1..]);
  }

  /** Reading along `q` is reading along its first `n` keys, then along the rest. */
  lemma AtSplit(v: Value, q: seq<string>, n: nat)
    requires n <= |q|
    ensures At(v, q) == At(At(v, q[..n]), q[n..])
  {
    assert q == q[..n] + q[n..];
    AtAppend(v, q[..n], q[n..]);
  }

  /**
   * The path loop for a set value leaves every location that branches off
   * the dotted path as it was: fields sharing a prefix end up side by side
   * in the one container.
   */
  lemma {:induction false} PathFromFrame(store: ConvertorStore, env: Env, conv: PlainConversion, keys: seq<string>, propVal: Value, i: nat, out: Value,
                                         q: seq<string>, d: nat)
    requires i <= |keys| && IsSet(propVal)
    requires d < |keys| && d < |q| && q[..d] == keys[..d] && q[d] != keys[d]
    requires PathFrom(store, env, conv, keys, propVal, i, out).Ok?
    ensures At(PathFrom(store, env, conv, keys, propVal, i, out).value, q) == At(out, q)
    decreases |keys| - i
  {
    if i == |keys| - 1 {
      PathFromLast(store, env, conv, keys, propVal, out);
      WriteAtFrameAlong(out, keys, i, LeafOf(store, env, conv, propVal).value, q, d);
    } else if i < |keys| - 1 {
      PathFromInner(store, env, conv, keys, propVal, i, out);
      EnsureContainerFrame(out, keys, i, q, d);
      PathFromFrame(store, env, conv, keys, propVal, i + 1, EnsureContainer(out, keys[..i], keys[i]).value, q, d);
    }
  }

  /** An unset value in path mode writes null at the first segment, whatever was there, and nothing else. */
  lemma UnsetWritesNullAtFirstSegment(store: ConvertorStore, env: Env, conv: PlainConversion, obj: Value, md: Metadata, out: Value)
    requires out.Obj?
    requires !IsSet(DeepOrDefault(obj, md.propertyName, md.options.defaultValue))
    ensures PathEntry(store, env, conv, obj, md, out) == Ok(Obj(out.ctor, Set(out.fields, Split(MappedName(md), '.')[0], Null)))
  {
    var keys := Split(MappedName(md), '.');
    assert keys[..0] == [];
  }

  /**
   * A converter function writes at the literal key, dots included, and
   * receives the declared default rather than the field's value.
   */
  lemma ConverterWritesLiteralKey(store: ConvertorStore, env: Env, conv: PlainConversion, obj: Value, md: Metadata, out: Value)
    requires out.Obj?
    requires !SkippedByToPlain(md.options) && IsFunction(md.options.convertFunc)
    ensures var r := Entry(store, env, conv, obj, md, out);
      r.Ok? && r.value.Obj? &&
      Get(r.value.fields, MappedName(md)) ==
        env.call(md.options.convertFunc, md.propertyName, md, md.options.defaultValue, obj, false) &&
      forall k :: k != MappedName(md) ==> Get(r.value.fields, k) == Get(out.fields, k)
  {
  }

  /**
   * Literal mode writes the plain form of `obj[propertyName]` at the
   * literal key, or of the default when that property is falsy.
   */
  lemma LiteralWritesLiteralKey(store: ConvertorStore, env: Env, conv: PlainConversion, obj: Value, md: Metadata, out: Value)
    requires out.Obj?
    requires !SkippedByToPlain(md.options) && !IsFunction(md.options.convertFunc) && md.options.resolvePath == Some(false)
    ensures var v := Prop(obj, md.propertyName);
            var x := PlainOf(store, env, conv, if IsFalsy(v) then md.options.defaultValue else v);
            var r := Entry(store, env, conv, obj, md, out);
      (r.Ok? <==> x.Ok?) &&
      (r.Ok? ==> (r.value.Obj? && Get(r.value.fields, MappedName(md)) == x.value &&
         forall k :: k != MappedName(md) ==> Get(r.value.fields, k) == Get(out.fields, k)))
  {
  }

  /**
   * Later entries overwrite earlier ones: when the last entry reads a set
   * value along its path, its plain form is what the output holds at its
   * dotted key in the end.
   */
  lemma LastEntryWins(store: ConvertorStore, env: Env, conv: PlainConversion, obj: Value, table: FieldTable, e: (string, Metadata), out: Value)
    requires !SkippedByToPlain(e.1.options) && !IsFunction(e.1.options.convertFunc) && e.1.options.resolvePath != Some(false)
    requires IsSet(DeepOrDefault(obj, e.1.propertyName, e.1.options.defaultValue))
    requires FoldFrom(EntryStep(store, env, conv, obj), table + [e], 0, out).Ok?
    ensures var v := DeepOrDefault(obj, e.1.propertyName, e.1.options.defaultValue);
      LeafOf(store, env, conv, v).Ok? &&
      At(FoldFrom(EntryStep(store, env, conv, obj), table + [e], 0, out).value, Split(MappedName(e.1), '.')) == LeafOf(store, env, conv, v).value
  {
    var step := EntryStep(store, env, conv, obj);
    FoldFromSnoc(step, table, e, 0, out);
    var before := FoldFrom(step, table, 0, out).value;
    assert step(before, e) == PathEntry(store, env, conv, obj, e.1, before);
    PathFromLands(store, env, conv, Split(MappedName(e.1), '.'), DeepOrDefault(obj, e.1.propertyName, e.1.options.defaultValue), 0, before);
  }

  /** The entries the filter does not skip for toPlain. */
  predicate KeptByToPlain(e: (string, Metadata))
  {
    !SkippedByToPlain(e.1.options)
  }

  /** Entries the filter skips contribute nothing: the output is that of the table without them. */
  lemma SkippedEntriesContributeNothing(store: ConvertorStore, env: Env, conv: PlainConversion, obj: Value, table: FieldTable, out: Value)
    ensures FoldFrom(EntryStep(store, env, conv, obj), table, 0, out) ==
            FoldFrom(EntryStep(store, env, conv, obj), Filter(KeptByToPlain, table), 0, out)
  {
    var step := EntryStep(store, env, conv, obj);
    forall s: Value, j | 0 <= j < |table| && !KeptByToPlain(table[j])
      ensures step(s, table[j]) == Ok(s)
    {
    }
    FoldFromFilter(step, KeptByToPlain, table, out);
  }
}
