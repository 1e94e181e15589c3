/**
 * `toClass(targetType, plain)`: builds an instance of a registered type
 * from plain data, one table entry at a time. The functions give the
 * meaning; the methods follow the source's loops and are proved equal to
 * them. `fuel` bounds the nesting of recursive conversions.
 */
module ToClassConvertor {
  import opened Wrappers
  import opened JsValues
  import opened Interfaces
  import opened Utility
  import Decorators

  /** The direction filter: `toClassOnly === false || (!isset(toClassOnly) && toPlainOnly === true)`. */
  predicate SkippedByToClass(o: Options)
  {
    o.toClassOnly == Some(false) || (o.toClassOnly.None? && o.toPlainOnly == Some(true))
  }

  /** A nested conversion `toClass(t, v)`, as the field steps see it. */
  type ClassConversion = (Ctor, Value) -> Completion<Value>

  /** A declared type that coercion resolves: one with a table in the store, or Date. */
  predicate Coercible(store: ConvertorStore, t: Ctor)
  {
    t in store || t == DateCtor
  }

  /**
   * The value before coercion: in literal mode `plain[name] || defaultValue`
   * (which throws when `plain` is unset), otherwise
   * `getDeepOrDefault(plain, name, defaultValue)`.
   */
  function ResolvedValue(md: Metadata, plain: Value): Completion<Value>
  {
    var o := md.options;
    var name := MappedName(md);
    if o.resolvePath == Some(false) then
      if !IsSet(plain) then Err(TypeError) else Ok(Or(Prop(plain, name), o.defaultValue))
    else Ok(DeepOrDefault(plain, name, o.defaultValue))
  }

  /** What `toClass(targetType, plain)` returns, or the exception it throws. */
  function ToClassSpec(store: ConvertorStore, env: Env, fuel: nat, targetType: Ctor, plain: Value): Completion<Value>
    decreases fuel, 2
  {
    if targetType !in store then Ok(Construct(env, targetType))
    else if fuel == 0 then Err(DepthExceeded)
    else if plain.Arr? then ArrayOf(ElementToClass(store, env, fuel, targetType), plain.elems)
    else InstanceToClass(store, env, fuel, targetType, plain)
  }

  /** The instance branch: every entry of the type's table sets its field on a fresh instance in turn. */
  function InstanceToClass(store: ConvertorStore, env: Env, fuel: nat, targetType: Ctor, plain: Value): Completion<Value>
    requires fuel > 0 && targetType in store
    decreases fuel, 1
  {
    var fields :- FieldsFrom(ValueOf(store, env, NestedToClass(store, env, fuel), plain), store[targetType], 0, env.initialFields(targetType));
    Ok(Obj(targetType, fields))
  }

  /** The conversion of one array element: `toClass(targetType, p)`. */
  function ElementToClass(store: ConvertorStore, env: Env, fuel: nat, targetType: Ctor): Value -> Completion<Value>
    requires fuel > 0
    decreases fuel, 0
  {
    p => ToClassSpec(store, env, fuel - 1, targetType, p)
  }

  /** The recursive call `toClass(fieldType, v)` made while coercing a field, one level down. */
  function NestedToClass(store: ConvertorStore, env: Env, fuel: nat): ClassConversion
    requires fuel > 0
    decreases fuel, 0
  {
    (t, v) => ToClassSpec(store, env, fuel - 1, t, v)
  }

  /*
   * The remaining functions take the nested conversion as a parameter
   * `conv`: what one table entry does does not depend on how the nested
   * conversion is computed.
   */

  /** One element's coercion to a coercible declared type: a nested conversion, or `new Date(v)`. */
  function CoerceTo(store: ConvertorStore, env: Env, conv: ClassConversion, fieldType: Ctor): Value -> Completion<Value>
  {
    v => if fieldType in store then conv(fieldType, v) else Ok(env.newDate(v))
  }

  /**
   * The coercion of a set value to a declared type: each element of an
   * array, or the value itself, converted or turned into a Date. A type
   * coercion cannot resolve leaves the value as it is.
   */
  function CoercedValue(store: ConvertorStore, env: Env, conv: ClassConversion, fieldType: Ctor, val: Value): Completion<Value>
  {
    if Coercible(store, fieldType) then
      var collection := if val.Arr? then val.elems else [val];
      var converted :- MapFrom(CoerceTo(store, env, conv, fieldType), collection, 0, []);
      Ok(if val.Arr? then Arr(converted) else converted[0])
    else Ok(val)
  }

  /**
   * What one table entry assigns to its field: None when the direction
   * filter skips it, else the converter's result, the coerced value, or
   * the resolved value as it is.
   */
  function FieldValue(store: ConvertorStore, env: Env, conv: ClassConversion, plain: Value, md: Metadata): Completion<Option<Value>>
  {
    var o := md.options;
    if SkippedByToClass(o) then Ok(None)
    else
      var val :- ResolvedValue(md, plain);
      if IsFunction(o.convertFunc) then
        Ok(Some(env.call(o.convertFunc, MappedName(md), md, val, plain, true)))
      else if IsSet(val) && o.fieldType.Some? then
        var coerced :- CoercedValue(store, env, conv, o.fieldType.value, val);
        Ok(Some(coerced))
      else Ok(Some(val))
  }

  /**
   * What each entry assigns, as the loop over the table sees it: the loop
   * and its lemmas hold for any such valuation, FieldValue being the one
   * toClass uses.
   */
  type FieldValuation = Metadata -> Completion<Option<Value>>

  /** FieldValue for every entry of the table, on one plain input. */
  function ValueOf(store: ConvertorStore, env: Env, conv: ClassConversion, plain: Value): FieldValuation
  {
    md => FieldValue(store, env, conv, plain, md)
  }

  /** One entry's effect on the instance's fields. */
  function ApplyField(value: FieldValuation, key: string, md: Metadata, fields: Fields): Completion<Fields>
  {
    var v :- value(md);
    Ok(match v case None => fields case Some(x) => Set(fields, key, x))
  }

  /** The `forEach` over the type's table from entry `i` on. */
  function FieldsFrom(value: FieldValuation, table: FieldTable, i: nat, fields: Fields): Completion<Fields>
    requires i <= |table|
    decreases |table| - i
  {
    if i == |table| then Ok(fields)
    else
      var next :- ApplyField(value, table[i].0, table[i].1, fields);
      FieldsFrom(value, table, i + 1, next)
  }

  /**
   * `toClass`: an unregistered type gives a fresh instance; an array gives
   * an array of conversions; otherwise every table entry sets its field on
   * a fresh instance in turn.
   */
  method ToClass(store: ConvertorStore, env: Env, fuel: nat, targetType: Ctor, plain: Value) returns (result: Completion<Value>)
    ensures result == ToClassSpec(store, env, fuel, targetType, plain)
    decreases fuel, 3
  {
    if targetType !in store {
      return Ok(Construct(env, targetType));
    }
    if fuel == 0 {
      return Err(DepthExceeded);
    }
    if plain.Arr? {
      var collection: seq<Value> := [];
      for j := 0 to |plain.elems|
        invariant MapFrom(ElementToClass(store, env, fuel, targetType), plain.elems, 0, []) ==
                  MapFrom(ElementToClass(store, env, fuel, targetType), plain.elems, j, collection)
      {
        var item :- ToClass(store, env, fuel - 1, targetType, plain.elems[j]);
        collection := collection + [item];
      }
      return Ok(Arr(collection));
    }
    var metaDataMap := store[targetType];
    var newObj := env.initialFields(targetType);
    for i := 0 to |metaDataMap|
      invariant FieldsFrom(ValueOf(store, env, NestedToClass(store, env, fuel), plain), metaDataMap, 0, env.initialFields(targetType)) ==
                FieldsFrom(ValueOf(store, env, NestedToClass(store, env, fuel), plain), metaDataMap, i, newObj)
    {
      var (propertyNameOrPath, metadata) := metaDataMap[i];
      newObj :- AssignField(store, env, fuel, plain, propertyNameOrPath, metadata, newObj);
    }
    return Ok(Obj(targetType, newObj));
  }

  /** The `forEach` callback for one entry: resolve the value, then convert, coerce or assign it. */
  method AssignField(store: ConvertorStore, env: Env, fuel: nat, plain: Value,
                     propertyNameOrPath: string, metadata: Metadata, newObj: Fields) returns (result: Completion<Fields>)
    requires fuel > 0
    ensures result == ApplyField(ValueOf(store, env, NestedToClass(store, env, fuel), plain), propertyNameOrPath, metadata, newObj)
    decreases fuel, 2
  {
    var opts := metadata.options;
    if SkippedByToClass(opts) {
      return Ok(newObj);
    }
    var propVal := opts.defaultValue;
    var name := MappedName(metadata);
    if opts.resolvePath == Some(false) {
      if !IsSet(plain) {
        return Err(TypeError);
      }
      propVal := Or(Prop(plain, name), propVal);
    } else {
      propVal := GetDeepOrDefault(plain, name, propVal);
    }
    if IsFunction(opts.convertFunc) {
      return Ok(Set(newObj, propertyNameOrPath, env.call(opts.convertFunc, name, metadata, propVal, plain, true)));
    }
    if IsSet(propVal) && opts.fieldType.Some? {
      result := AssignCoerced(store, env, fuel, opts.fieldType.value, propVal, propertyNameOrPath, newObj);
      return;
    }
    return Ok(Set(newObj, propertyNameOrPath, propVal));
  }

  /**
   * The coercion loop of the callback: an array value first becomes `[]`
   * and each converted element is pushed onto it; a single value is
   * assigned once converted. When no element was resolved the raw value
   * is assigned.
   */
  method AssignCoerced(store: ConvertorStore, env: Env, fuel: nat, fieldType: Ctor, propVal: Value,
                       propertyNameOrPath: string, newObj: Fields) returns (result: Completion<Fields>)
    requires fuel > 0
    ensures result == (var coerced :- CoercedValue(store, env, NestedToClass(store, env, fuel), fieldType, propVal);
                       Ok(Set(newObj, propertyNameOrPath, coerced)))
    decreases fuel, 1
  {
    var fields := newObj;
    var isArray := propVal.Arr?;
    var collection := if isArray then propVal.elems else [propVal];
    var mappingWasResolved := false;
    if isArray {
      fields := Set(fields, propertyNameOrPath, Arr([]));
    }
    ghost var conv := NestedToClass(store, env, fuel);
    ghost var converted: seq<Value> := [];
    for i := 0 to |collection|
      invariant mappingWasResolved <==> converted != []
      invariant Coercible(store, fieldType) ==>
        |converted| == i &&
        MapFrom(CoerceTo(store, env, conv, fieldType), collection, 0, []) ==
        MapFrom(CoerceTo(store, env, conv, fieldType), collection, i, converted)
      invariant !Coercible(store, fieldType) ==> converted == []
      invariant fields == FieldsAfter(isArray, newObj, propertyNameOrPath, converted)
    {
      var value: Value;
      if fieldType in store {
        CoerceStep(store, env, conv, fieldType, collection, i, converted);
        mappingWasResolved := true;
        value :- ToClass(store, env, fuel - 1, fieldType, collection[i]);
      } else if fieldType == DateCtor {
        CoerceStep(store, env, conv, fieldType, collection, i, converted);
        mappingWasResolved := true;
        value := env.newDate(collection[i]);
      } else {
        continue;
      }
      PushField(isArray, newObj, propertyNameOrPath, converted, value);
      converted := converted + [value];
      var current := Get(fields, propertyNameOrPath);
      if isArray {
        fields := Set(fields, propertyNameOrPath, Arr(current.elems + [value]));
      } else {
        fields := Set(fields, propertyNameOrPath, value);
      }
    }
    if mappingWasResolved {
      CoercedResolved(store, env, conv, fieldType, propVal, propertyNameOrPath, newObj, converted);
      return Ok(fields);
    }
    CoercedUnresolved(store, env, conv, fieldType, propVal, propertyNameOrPath, newObj);
    return Ok(Set(fields, propertyNameOrPath, propVal));
  }

  /**
   * The field while the coercion loop runs: for an array the items
   * converted so far, for a single value the last converted value, if any.
   */
  function FieldsAfter(isArray: bool, newObj: Fields, key: string, converted: seq<Value>): Fields
  {
    if isArray then Set(newObj, key, Arr(converted))
    else if converted == [] then newObj
    else Set(newObj, key, converted[|converted| - 1])
  }

  /** Pushing onto the array held at `key`, or assigning a single value, moves the loop on by one item. */
  lemma PushField(isArray: bool, newObj: Fields, key: string, converted: seq<Value>, value: Value)
    ensures isArray ==> Get(FieldsAfter(isArray, newObj, key, converted), key) == Arr(converted)
    ensures var fields := FieldsAfter(isArray, newObj, key, converted);
      FieldsAfter(isArray, newObj, key, converted + [value]) ==
        if isArray then Set(fields, key, Arr(converted + [value])) else Set(fields, key, value)
  {
    if isArray {
      SetTwice(newObj, key, Arr(converted), Arr(converted + [value]));
    } else if converted != [] {
      SetTwice(newObj, key, converted[|converted| - 1], value);
    }
  }

  /** One pass of the coercion loop: a failed conversion ends it with its error, otherwise its item is next. */
  lemma CoerceStep(store: ConvertorStore, env: Env, conv: ClassConversion, fieldType: Ctor, collection: seq<Value>, i: nat, converted: seq<Value>)
    requires Coercible(store, fieldType) && i < |collection|
    ensures var item := if fieldType in store then conv(fieldType, collection[i]) else Ok(env.newDate(collection[i]));
      var f := CoerceTo(store, env, conv, fieldType);
      (item.Err? ==> MapFrom(f, collection, i, converted) == Err(item.error)) &&
      (item.Ok? ==> MapFrom(f, collection, i, converted) == MapFrom(f, collection, i + 1, converted + [item.value]))
  {
    assert CoerceTo(store, env, conv, fieldType)(collection[i]) ==
           if fieldType in store then conv(fieldType, collection[i]) else Ok(env.newDate(collection[i]));
  }

  /** A loop that converted every element assigns the coerced value. */
  lemma CoercedResolved(store: ConvertorStore, env: Env, conv: ClassConversion, fieldType: Ctor, propVal: Value,
                        key: string, newObj: Fields, converted: seq<Value>)
    requires Coercible(store, fieldType)
    requires var collection := if propVal.Arr? then propVal.elems else [propVal];
      |converted| == |collection| > 0 &&
      MapFrom(CoerceTo(store, env, conv, fieldType), collection, 0, []) ==
      MapFrom(CoerceTo(store, env, conv, fieldType), collection, |collection|, converted)
    ensures CoercedValue(store, env, conv, fieldType, propVal) == Ok(if propVal.Arr? then Arr(converted) else converted[0])
    ensures FieldsAfter(propVal.Arr?, newObj, key, converted) == Set(newObj, key, if propVal.Arr? then Arr(converted) else converted[0])
  {
  }

  /** A loop that resolved nothing (no coercible type, or no element) assigns the raw value. */
  lemma CoercedUnresolved(store: ConvertorStore, env: Env, conv: ClassConversion, fieldType: Ctor, propVal: Value,
                          key: string, newObj: Fields)
    requires !Coercible(store, fieldType) || propVal == Arr([])
    ensures CoercedValue(store, env, conv, fieldType, propVal) == Ok(propVal)
    ensures Set(FieldsAfter(propVal.Arr?, newObj, key, []), key, propVal) == Set(newObj, key, propVal)
  {
    if propVal.Arr? {
      SetTwice(newObj, key, Arr([]), propVal);
    }
  }

  // ---------------------------------------------------------------------
  // Properties of the conversion
  // ---------------------------------------------------------------------

  /** A field the filter skips for toClass is exactly one the registration kept out of the class store. */
  lemma DirectionFilterAgreesWithRegistration(o: Options)
    ensures SkippedByToClass(o) <==> !Decorators.AddsToClassStore(o)
  {
    match o.toClassOnly
    case None =>
    case Some(b) => assert b || !b;
  }

  /** An unregistered type yields a fresh instance whatever the input, arrays included. */
  lemma UnregisteredTypeIsConstructed(store: ConvertorStore, env: Env, fuel: nat, targetType: Ctor, plain: Value)
    requires targetType !in store
    ensures ToClassSpec(store, env, fuel, targetType, plain) == Ok(Construct(env, targetType))
  {
  }

  /**
   * For a registered type an array input gives an array of the same
   * length whose element `i` is the conversion of element `i`.
   */
  lemma ArrayFanOut(store: ConvertorStore, env: Env, fuel: nat, targetType: Ctor, plains: seq<Value>)
    requires targetType in store && fuel > 0
    ensures var r := ToClassSpec(store, env, fuel, targetType, Arr(plains));
      (r.Ok? <==> forall i :: 0 <= i < |plains| ==> ToClassSpec(store, env, fuel - 1, targetType, plains[i]).Ok?) &&
      (r.Ok? ==> (r.value.Arr? && |r.value.elems| == |plains| &&
         forall i :: 0 <= i < |plains| ==> r.value.elems[i] == ToClassSpec(store, env, fuel - 1, targetType, plains[i]).value))
  {
    ArrayOfElements(ElementToClass(store, env, fuel, targetType), plains);
    forall i | 0 <= i < |plains|
      ensures ElementToClass(store, env, fuel, targetType)(plains[i]) == ToClassSpec(store, env, fuel - 1, targetType, plains[i])
    {
    }
    assert ToClassSpec(store, env, fuel, targetType, Arr(plains)) == ArrayOf(ElementToClass(store, env, fuel, targetType), plains);
  }

  /**
   * Coercion keeps array-ness: an array becomes an array of the same
   * length whose elements are converted (registered type, checked first)
   * or turned into Dates; a single value becomes one converted value; a
   * type coercion cannot resolve, and the empty array, leave the value as
   * it is.
   */
  lemma CoercionShape(store: ConvertorStore, env: Env, conv: ClassConversion, fieldType: Ctor, val: Value)
    ensures !Coercible(store, fieldType) ==> CoercedValue(store, env, conv, fieldType, val) == Ok(val)
    ensures val == Arr([]) ==> CoercedValue(store, env, conv, fieldType, val) == Ok(val)
    ensures Coercible(store, fieldType) && !val.Arr? ==>
      CoercedValue(store, env, conv, fieldType, val) ==
        if fieldType in store then conv(fieldType, val) else Ok(env.newDate(val))
    ensures Coercible(store, fieldType) && val.Arr? ==>
      var r := CoercedValue(store, env, conv, fieldType, val);
      (r.Ok? <==> (fieldType in store ==> forall i :: 0 <= i < |val.elems| ==> conv(fieldType, val.elems[i]).Ok?)) &&
      (r.Ok? ==> (r.value.Arr? && |r.value.elems| == |val.elems| &&
         forall i :: 0 <= i < |val.elems| ==>
           r.value.elems[i] == if fieldType in store then conv(fieldType, val.elems[i]).value
                               else env.newDate(val.elems[i])))
  {
    if Coercible(store, fieldType) {
      if val.Arr? {
        CoerceElements(store, env, conv, fieldType, val.elems);
      } else {
        var f := CoerceTo(store, env, conv, fieldType);
        assert f(val) == if fieldType in store then conv(fieldType, val) else Ok(env.newDate(val));
        assert [val][0] == val;
        if f(val).Ok? {
          assert [] + [f(val).value] == [f(val).value];
          assert MapFrom(f, [val], 0, []) == MapFrom(f, [val], 1, [f(val).value]);
        }
      }
    }
  }

  /** The coercion loop over array elements, element by element. */
  lemma CoerceElements(store: ConvertorStore, env: Env, conv: ClassConversion, fieldType: Ctor, xs: seq<Value>)
    ensures var r := MapFrom(CoerceTo(store, env, conv, fieldType), xs, 0, []);
      (r.Ok? <==> (fieldType in store ==> forall i :: 0 <= i < |xs| ==> conv(fieldType, xs[i]).Ok?)) &&
      (r.Ok? ==> (|r.value| == |xs| &&
         forall i :: 0 <= i < |xs| ==>
           r.value[i] == if fieldType in store then conv(fieldType, xs[i]).value else env.newDate(xs[i])))
  {
    var f := CoerceTo(store, env, conv, fieldType);
    MapFromElementwise(f, xs, 0, []);
    if fieldType in store {
      forall i | 0 <= i < |xs|
        ensures f(xs[i]) == conv(fieldType, xs[i])
      {
      }
    } else {
      forall i | 0 <= i < |xs|
        ensures f(xs[i]) == Ok(env.newDate(xs[i]))
      {
      }
    }
  }

  /**
   * The two read modes: a literal read takes the whole name as one key,
   * falls back on any falsy value and throws on an unset input; a path
   * read follows the `.`-split name and falls back only on an unset value,
   * to null when the default is undefined.
   */
  lemma ReadModes(md: Metadata, plain: Value)
    ensures var literal := md.(options := md.options.(resolvePath := Some(false)));
            var v := Prop(plain, MappedName(md));
            ResolvedValue(literal, plain) ==
              if !IsSet(plain) then Err(TypeError) else if IsFalsy(v) then Ok(md.options.defaultValue) else Ok(v)
    ensures var v := At(plain, Split(MappedName(md), '.'));
            md.options.resolvePath != Some(false) ==>
              ResolvedValue(md, plain) ==
                if IsSet(plain) && IsSet(v) then Ok(v) else Ok(DefaultOrNull(md.options.defaultValue))
  {
    DeepOrDefaultReadsPath(plain, MappedName(md), md.options.defaultValue);
  }

  /**
   * A dotted name is where the modes part: `{"a.b": 1, "a": {"b": 2}}`
   * gives 1 when read literally and 2 when read along the path.
   */
  lemma DottedNameReadModes(md: Metadata)
    requires MappedName(md) == "a.b"
    ensures var plain := Obj(ObjectCtor, [("a.b", Num(1)), ("a", Obj(ObjectCtor, [("b", Num(2))]))]);
            ResolvedValue(md.(options := md.options.(resolvePath := Some(false))), plain) == Ok(Num(1)) &&
            ResolvedValue(md.(options := md.options.(resolvePath := None)), plain) == Ok(Num(2))
  {
    var plain := Obj(ObjectCtor, [("a.b", Num(1)), ("a", Obj(ObjectCtor, [("b", Num(2))]))]);
    ReadModes(md, plain);
    ReadModes(md.(options := md.options.(resolvePath := None)), plain);
    assert "a.b"[1..] == ".b" && ".b"[1..] == "b" && "b"[1..] == "";
    assert Split("", '.') == [""];
    assert Split("b", '.') == [['b'] + ""] + [""][1..];
    assert ['b'] + "" == "b" && ['a'] + "" == "a";
    assert [""][1..] == [] && ["", "b"][1..] == ["b"];
    assert Split("b", '.') == ["b"];
    assert Split(".b", '.') == ["", "b"];
    assert Split("a.b", '.') == [['a'] + ""] + ["", "b"][1..];
    assert Split("a.b", '.') == ["a", "b"];
    assert At(plain, ["a", "b"]) == Num(2) by {
      assert ["a", "b"][1..] == ["b"];
    }
  }

  /**
   * A converter function takes over the field: it receives the resolved
   * value, and neither the registered tables nor the nested conversion
   * affect the outcome, since no coercion happens.
   */
  lemma ConverterOverridesCoercion(store: ConvertorStore, store': ConvertorStore, env: Env, conv: ClassConversion, conv': ClassConversion,
                                   plain: Value, md: Metadata)
    requires !SkippedByToClass(md.options) && IsFunction(md.options.convertFunc)
    ensures FieldValue(store, env, conv, plain, md) == FieldValue(store', env, conv', plain, md)
    ensures ResolvedValue(md, plain).Ok? ==>
      FieldValue(store, env, conv, plain, md) ==
        Ok(Some(env.call(md.options.convertFunc, MappedName(md), md, ResolvedValue(md, plain).value, plain, true)))
  {
  }

  /**
   * The raw resolved value is assigned when it is unset, when no type is
   * declared, when the type is neither registered nor Date, or when it is
   * an empty array.
   */
  lemma RawAssignment(store: ConvertorStore, env: Env, conv: ClassConversion, plain: Value, md: Metadata)
    requires !SkippedByToClass(md.options) && !IsFunction(md.options.convertFunc)
    requires ResolvedValue(md, plain).Ok?
    requires var val := ResolvedValue(md, plain).value;
      !IsSet(val) || md.options.fieldType.None? || !Coercible(store, md.options.fieldType.value) || val == Arr([])
    ensures FieldValue(store, env, conv, plain, md) == Ok(Some(ResolvedValue(md, plain).value))
  {
    var val := ResolvedValue(md, plain).value;
    if IsSet(val) && md.options.fieldType.Some? {
      CoercionShape(store, env, conv, md.options.fieldType.value, val);
    }
  }

  /** The value the last writing entry for `k` from entry `i` on gives it, if any entry writes it. */
  function LastWrite(value: FieldValuation, table: FieldTable, i: nat, k: string): Option<Value>
    requires i <= |table|
    decreases |table| - i
  {
    if i == |table| then None
    else match LastWrite(value, table, i + 1, k)
      case Some(v) => Some(v)
      case None =>
        var fv := value(table[i].1);
        if table[i].0 == k && fv.Ok? && fv.value.Some? then Some(fv.value.value) else None
  }

  /** The fold over the table fails iff some entry's value fails; what the fields were does not matter. */
  lemma {:induction false} FieldsFromSucceeds(value: FieldValuation, table: FieldTable, i: nat, fields: Fields)
    requires i <= |table|
    ensures FieldsFrom(value, table, i, fields).Ok? <==> forall j :: i <= j < |table| ==> value(table[j].1).Ok?
    decreases |table| - i
  {
    if i < |table| {
      var step := ApplyField(value, table[i].0, table[i].1, fields);
      if step.Ok? {
        FieldsFromSucceeds(value, table, i + 1, step.value);
      }
    }
  }

  /**
   * When the fold succeeds each key holds its last written value, or the
   * value it had before when no entry writes it.
   */
  lemma {:induction false} FieldsFromOutcome(value: FieldValuation, table: FieldTable, i: nat, fields: Fields, k: string)
    requires i <= |table|
    requires FieldsFrom(value, table, i, fields).Ok?
    ensures Get(FieldsFrom(value, table, i, fields).value, k) ==
            match LastWrite(value, table, i, k)
            case Some(v) => v
            case None => Get(fields, k)
    decreases |table| - i
  {
    if i < |table| {
      var next := ApplyField(value, table[i].0, table[i].1, fields).value;
      FieldsFromOutcome(value, table, i + 1, next, k);
    }
  }

  /**
   * For a registered type and a non-array input the result is an instance
   * of that type; each of its properties holds the value of the last
   * entry that writes it, or its constructor value.
   */
  lemma InstanceFields(store: ConvertorStore, env: Env, fuel: nat, targetType: Ctor, plain: Value)
    requires targetType in store && fuel > 0 && !plain.Arr?
    ensures var r := ToClassSpec(store, env, fuel, targetType, plain);
      var value := ValueOf(store, env, NestedToClass(store, env, fuel), plain);
      (r.Ok? <==> forall j :: 0 <= j < |store[targetType]| ==> value(store[targetType][j].1).Ok?) &&
      (r.Ok? ==> (r.value.Obj? && r.value.ctor == targetType &&
         forall k :: Get(r.value.fields, k) == match LastWrite(value, store[targetType], 0, k)
                                              case Some(v) => v
                                              case None => Get(env.initialFields(targetType), k)))
  {
    var table := store[targetType];
    var init := env.initialFields(targetType);
    var value := ValueOf(store, env, NestedToClass(store, env, fuel), plain);
    assert ToClassSpec(store, env, fuel, targetType, plain) == InstanceToClass(store, env, fuel, targetType, plain);
    FieldsFromSucceeds(value, table, 0, init);
    if FieldsFrom(value, table, 0, init).Ok? {
      forall k: string
        ensures Get(FieldsFrom(value, table, 0, init).value, k) ==
                match LastWrite(value, table, 0, k)
                case Some(v) => v
                case None => Get(init, k)
      {
        FieldsFromOutcome(value, table, 0, init, k);
      }
    }
  }

  /** No entry for `k` that assigns nothing can be the one that writes it. */
  lemma {:induction false} SilentEntriesDoNotWrite(value: FieldValuation, table: FieldTable, i: nat, k: string)
    requires i <= |table|
    requires forall j :: i <= j < |table| && table[j].0 == k ==> value(table[j].1) == Ok(None)
    ensures LastWrite(value, table, i, k) == None
    decreases |table| - i
  {
    if i < |table| {
      SilentEntriesDoNotWrite(value, table, i + 1, k);
    }
  }

  /** A property whose every entry is skipped for toClass keeps its constructor value. */
  lemma SkippedFieldKeepsConstructorValue(store: ConvertorStore, env: Env, fuel: nat, targetType: Ctor, plain: Value, k: string)
    requires targetType in store && fuel > 0 && !plain.Arr?
    requires forall j :: 0 <= j < |store[targetType]| && store[targetType][j].0 == k ==> SkippedByToClass(store[targetType][j].1.options)
    ensures var r := ToClassSpec(store, env, fuel, targetType, plain);
      r.Ok? ==> r.value.Obj? && Get(r.value.fields, k) == Get(env.initialFields(targetType), k)
  {
    var table := store[targetType];
    var value := ValueOf(store, env, NestedToClass(store, env, fuel), plain);
    InstanceFields(store, env, fuel, targetType, plain);
    forall j | 0 <= j < |table| && table[j].0 == k
      ensures value(table[j].1) == Ok(None)
    {
    }
    SilentEntriesDoNotWrite(value, table, 0, k);
  }
}
