/**
 * The two convertors as inverses: for a type whose table holds only plain
 * one-segment mappings, `toClass(T, toPlain(obj))` gives back every mapped
 * field of `obj`, and leaves every other property at its constructor value;
 * `toPlain(toClass(T, data))` gives back plain data that holds only the
 * mapped names.
 */
module RoundTrip {
  import opened Wrappers
  import opened JsValues
  import opened Interfaces
  import opened Utility
  import opened ToClassConvertor
  import opened ToPlainConvertor

  /**
   * An entry both directions apply the same way: not skipped by either
   * filter, no converter, no declared type, and names without a dot.
   */
  predicate SimpleMetadata(md: Metadata)
  {
    var o := md.options;
    !SkippedByToClass(o) && !SkippedByToPlain(o) && !IsFunction(o.convertFunc) && o.fieldType.None? &&
    '.' !in md.propertyName && '.' !in MappedName(md)
  }

  /**
   * A field value that survives both directions unchanged: set and not an
   * object (objects are cloned or converted), and truthy in literal mode,
   * where a falsy value gives way to the default.
   */
  predicate Carried(v: Value, md: Metadata)
  {
    IsSet(v) && TypeOf(v) != "object" && (md.options.resolvePath == Some(false) ==> !IsFalsy(v))
  }

  /**
   * A table of simple entries, each filed under its property name, with
   * distinct property names and distinct mapped names, whose values in
   * `obj` are all carried.
   */
  predicate SimpleTable(table: FieldTable, obj: Value)
  {
    (forall j :: 0 <= j < |table| ==>
       table[j].0 == table[j].1.propertyName && SimpleMetadata(table[j].1) &&
       Carried(Prop(obj, table[j].1.propertyName), table[j].1)) &&
    (forall j, j' :: 0 <= j < j' < |table| ==>
       table[j].0 != table[j'].0 && MappedName(table[j].1) != MappedName(table[j'].1))
  }

  // ---------------------------------------------------------------------
  // toPlain of a simple table
  // ---------------------------------------------------------------------

  /** A simple entry writes the instance's value at its mapped name, in either read mode. */
  lemma PlainEntryWrites(store: ConvertorStore, env: Env, conv: PlainConversion, obj: Value, md: Metadata, out: Value)
    requires SimpleMetadata(md) && out.Obj? && IsSet(obj)
    requires Carried(Prop(obj, md.propertyName), md)
    ensures Entry(store, env, conv, obj, md, out) == Ok(Obj(out.ctor, Set(out.fields, MappedName(md), Prop(obj, md.propertyName))))
  {
    if md.options.resolvePath != Some(false) {
      PathEntryWrites(store, env, conv, obj, md, out);
    }
  }

  /** In path mode, a dot-free mapped name is a single write of the value read by property name. */
  lemma PathEntryWrites(store: ConvertorStore, env: Env, conv: PlainConversion, obj: Value, md: Metadata, out: Value)
    requires SimpleMetadata(md) && out.Obj? && IsSet(obj) && md.options.resolvePath != Some(false)
    requires Carried(Prop(obj, md.propertyName), md)
    ensures PathEntry(store, env, conv, obj, md, out) == Ok(Obj(out.ctor, Set(out.fields, MappedName(md), Prop(obj, md.propertyName))))
  {
    var v := Prop(obj, md.propertyName);
    var name := MappedName(md);
    DeepOrDefaultSingleKey(obj, md.propertyName, md.options.defaultValue);
    assert DeepOrDefault(obj, md.propertyName, md.options.defaultValue) == v;
    SplitWithoutSeparator(name, '.');
    var keys := Split(name, '.');
    assert keys == [name];
    assert PlainOf(store, env, conv, v) == Ok(v);
    assert WriteAt(out, keys[..0], name, v) == Ok(Obj(out.ctor, Set(out.fields, name, v))) by {
      assert keys[..0] == [];
    }
    assert PathEntry(store, env, conv, obj, md, out) == PathFrom(store, env, conv, keys, v, 0, out);
  }

  /** The fields after writing `value(md)` at `MappedName(md)` for each entry from `i` on, in order. */
  function SetAll(fs: Fields, table: FieldTable, value: Metadata -> Value, i: nat): Fields
    requires i <= |table|
    decreases |table| - i
  {
    if i == |table| then fs
    else SetAll(Set(fs, MappedName(table[i].1), value(table[i].1)), table, value, i + 1)
  }

  /** A loop whose step for each entry writes `value` of its metadata at its mapped name is SetAll. */
  lemma {:induction false} FoldOfWrites(step: (Value, (string, Metadata)) -> Completion<Value>, table: FieldTable,
                                        value: Metadata -> Value, i: nat, out: Value)
    requires i <= |table| && out.Obj?
    requires forall s: Value, j :: i <= j < |table| && s.Obj? ==>
      step(s, table[j]) == Ok(Obj(s.ctor, Set(s.fields, MappedName(table[j].1), value(table[j].1))))
    ensures FoldFrom(step, table, i, out) == Ok(Obj(out.ctor, SetAll(out.fields, table, value, i)))
    decreases |table| - i
  {
    if i < |table| {
      var next := Obj(out.ctor, Set(out.fields, MappedName(table[i].1), value(table[i].1)));
      assert step(out, table[i]) == Ok(next);
      FoldOfWrites(step, table, value, i + 1, next);
    }
  }

  /** A key none of the entries from `i` on maps to keeps its value. */
  lemma {:induction false} SetAllOther(fs: Fields, table: FieldTable, value: Metadata -> Value, i: nat, k: string)
    requires i <= |table|
    requires forall j :: i <= j < |table| ==> MappedName(table[j].1) != k
    ensures Get(SetAll(fs, table, value, i), k) == Get(fs, k)
    decreases |table| - i
  {
    if i < |table| {
      SetAllOther(Set(fs, MappedName(table[i].1), value(table[i].1)), table, value, i + 1, k);
    }
  }

  /** Over distinct mapped names, each entry's name ends with that entry's value. */
  lemma {:induction false} SetAllHit(fs: Fields, table: FieldTable, value: Metadata -> Value, i: nat, j: nat)
    requires i <= j < |table|
    requires forall j1, j2 :: i <= j1 < j2 < |table| ==> MappedName(table[j1].1) != MappedName(table[j2].1)
    ensures Get(SetAll(fs, table, value, i), MappedName(table[j].1)) == value(table[j].1)
    decreases |table| - i
  {
    var next := Set(fs, MappedName(table[i].1), value(table[i].1));
    if i < j {
      SetAllHit(next, table, value, i + 1, j);
    } else {
      SetAllOther(next, table, value, i + 1, MappedName(table[i].1));
    }
  }

  /**
   * toPlain's loop over a simple table: every mapped name holds its
   * property's value, and every other key keeps what it held.
   */
  lemma PlainTableWrites(store: ConvertorStore, env: Env, conv: PlainConversion, obj: Value, table: FieldTable, out: Value)
    requires SimpleTable(table, obj) && out.Obj? && IsSet(obj)
    ensures var r := FoldFrom(EntryStep(store, env, conv, obj), table, 0, out);
      r.Ok? && r.value.Obj? &&
      (forall j :: 0 <= j < |table| ==> Get(r.value.fields, MappedName(table[j].1)) == Prop(obj, table[j].1.propertyName)) &&
      (forall k :: (forall j :: 0 <= j < |table| ==> MappedName(table[j].1) != k) ==> Get(r.value.fields, k) == Get(out.fields, k))
  {
    var step := EntryStep(store, env, conv, obj);
    var value := (md: Metadata) => Prop(obj, md.propertyName);
    forall s: Value, j | 0 <= j < |table| && s.Obj?
      ensures step(s, table[j]) == Ok(Obj(s.ctor, Set(s.fields, MappedName(table[j].1), value(table[j].1))))
    {
      assert step(s, table[j]) == Entry(store, env, conv, obj, table[j].1, s);
      PlainEntryWrites(store, env, conv, obj, table[j].1, s);
    }
    FoldOfWrites(step, table, value, 0, out);
    forall j | 0 <= j < |table|
      ensures Get(SetAll(out.fields, table, value, 0), MappedName(table[j].1)) == Prop(obj, table[j].1.propertyName)
    {
      SetAllHit(out.fields, table, value, 0, j);
    }
    forall k | forall j :: 0 <= j < |table| ==> MappedName(table[j].1) != k
      ensures Get(SetAll(out.fields, table, value, 0), k) == Get(out.fields, k)
    {
      SetAllOther(out.fields, table, value, 0, k);
    }
  }

  // ---------------------------------------------------------------------
  // toClass of the plain form
  // ---------------------------------------------------------------------

  /** A simple entry reads back the value found at its mapped name. */
  lemma ClassEntryReads(store: ConvertorStore, env: Env, conv: ClassConversion, plain: Value, md: Metadata, v: Value)
    requires SimpleMetadata(md) && plain.Obj?
    requires Get(plain.fields, MappedName(md)) == v && Carried(v, md)
    ensures FieldValue(store, env, conv, plain, md) == Ok(Some(v))
  {
    DeepOrDefaultSingleKey(plain, MappedName(md), md.options.defaultValue);
  }

  /** Only the entry filed under `k` can write `k`; when that entry writes `x`, `x` is the last write. */
  lemma {:induction false} LastWriteOfUniqueKey(value: FieldValuation, table: FieldTable, i: nat, k: string, j: nat, x: Value)
    requires i <= j < |table| && table[j].0 == k
    requires forall j' :: i <= j' < |table| && j' != j ==> table[j'].0 != k
    requires value(table[j].1) == Ok(Some(x))
    ensures LastWrite(value, table, i, k) == Some(x)
    decreases |table| - i
  {
    if i < j {
      LastWriteOfUniqueKey(value, table, i + 1, k, j, x);
    } else {
      LastWriteOfAbsentKey(value, table, i + 1, k);
    }
  }

  /** A key no entry from `i` on is filed under is not written. */
  lemma {:induction false} LastWriteOfAbsentKey(value: FieldValuation, table: FieldTable, i: nat, k: string)
    requires i <= |table|
    requires forall j :: i <= j < |table| ==> table[j].0 != k
    ensures LastWrite(value, table, i, k) == None
    decreases |table| - i
  {
    if i < |table| {
      LastWriteOfAbsentKey(value, table, i + 1, k);
    }
  }

  // ---------------------------------------------------------------------
  // The round trip
  // ---------------------------------------------------------------------

  /**
   * For an instance of a registered type with a simple table, toPlain
   * succeeds, toClass of its result succeeds, and the new instance holds
   * the original value of every mapped property and the constructor
   * value of every other property.
   */
  lemma RoundTrip(store: ConvertorStore, env: Env, fuel: nat, t: Ctor, fs: Fields)
    requires t in store && fuel > 0 && SimpleTable(store[t], Obj(t, fs))
    ensures ToPlainSpec(store, env, fuel, Obj(t, fs)).Ok?
    ensures var back := ToClassSpec(store, env, fuel, t, ToPlainSpec(store, env, fuel, Obj(t, fs)).value);
      back.Ok? && back.value.Obj? && back.value.ctor == t &&
      (forall j :: 0 <= j < |store[t]| ==> Get(back.value.fields, store[t][j].0) == Get(fs, store[t][j].0)) &&
      (forall k :: (forall j :: 0 <= j < |store[t]| ==> store[t][j].0 != k) ==>
         Get(back.value.fields, k) == Get(env.initialFields(t), k))
  {
    var obj := Obj(t, fs);
    var table := store[t];
    var pconv := NestedToPlain(store, env, fuel);
    PlainTableWrites(store, env, pconv, obj, table, EmptyObject);
    assert ToPlainSpec(store, env, fuel, obj) == TableToPlain(store, env, fuel, obj, table);
    var plain := ToPlainSpec(store, env, fuel, obj).value;
    var cconv := NestedToClass(store, env, fuel);
    var value := ValueOf(store, env, cconv, plain);
    forall j | 0 <= j < |table|
      ensures value(table[j].1) == Ok(Some(Get(fs, table[j].0)))
    {
      ClassEntryReads(store, env, cconv, plain, table[j].1, Get(fs, table[j].0));
    }
    InstanceFields(store, env, fuel, t, plain);
    var back := ToClassSpec(store, env, fuel, t, plain).value;
    forall j | 0 <= j < |table|
      ensures Get(back.fields, table[j].0) == Get(fs, table[j].0)
    {
      LastWriteOfUniqueKey(value, table, 0, table[j].0, j, Get(fs, table[j].0));
    }
    forall k | forall j :: 0 <= j < |table| ==> table[j].0 != k
      ensures Get(back.fields, k) == Get(env.initialFields(t), k)
    {
      LastWriteOfAbsentKey(value, table, 0, k);
    }
  }

  /**
   * Plain data fit for a simple table: each mapped name holds a carried
   * value for its entry, and no other key is set.
   */
  ghost predicate SimpleData(table: FieldTable, data: Fields)
  {
    (forall j :: 0 <= j < |table| ==>
       table[j].0 == table[j].1.propertyName && SimpleMetadata(table[j].1) &&
       Carried(Get(data, MappedName(table[j].1)), table[j].1)) &&
    (forall j, j' :: 0 <= j < j' < |table| ==>
       table[j].0 != table[j'].0 && MappedName(table[j].1) != MappedName(table[j'].1)) &&
    (forall k :: (forall j :: 0 <= j < |table| ==> MappedName(table[j].1) != k) ==> Get(data, k) == Undef)
  }

  /** toClass of such data: an instance of the type whose mapped properties hold the data's values. */
  lemma ClassOfSimpleData(store: ConvertorStore, env: Env, fuel: nat, t: Ctor, c: Ctor, data: Fields) returns (fs: Fields)
    requires t in store && fuel > 0 && SimpleData(store[t], data)
    ensures ToClassSpec(store, env, fuel, t, Obj(c, data)) == Ok(Obj(t, fs))
    ensures forall j :: 0 <= j < |store[t]| ==> Get(fs, store[t][j].0) == Get(data, MappedName(store[t][j].1))
  {
    var plain := Obj(c, data);
    var table := store[t];
    var cconv := NestedToClass(store, env, fuel);
    var value := ValueOf(store, env, cconv, plain);
    forall j | 0 <= j < |table|
      ensures value(table[j].1) == Ok(Some(Get(data, MappedName(table[j].1))))
    {
      ClassEntryReads(store, env, cconv, plain, table[j].1, Get(data, MappedName(table[j].1)));
    }
    InstanceFields(store, env, fuel, t, plain);
    fs := ToClassSpec(store, env, fuel, t, plain).value.fields;
    forall j | 0 <= j < |table|
      ensures Get(fs, table[j].0) == Get(data, MappedName(table[j].1))
    {
      LastWriteOfUniqueKey(value, table, 0, table[j].0, j, Get(data, MappedName(table[j].1)));
    }
  }

  /** toPlain of an instance with a simple table: each mapped name holds its property's value, and nothing else is set. */
  lemma SimpleInstanceToPlain(store: ConvertorStore, env: Env, fuel: nat, t: Ctor, fs: Fields)
    requires t in store && fuel > 0 && SimpleTable(store[t], Obj(t, fs))
    ensures var r := ToPlainSpec(store, env, fuel, Obj(t, fs));
      r.Ok? && r.value.Obj? &&
      (forall j :: 0 <= j < |store[t]| ==> Get(r.value.fields, MappedName(store[t][j].1)) == Get(fs, store[t][j].0)) &&
      (forall k :: (forall j :: 0 <= j < |store[t]| ==> MappedName(store[t][j].1) != k) ==> Get(r.value.fields, k) == Undef)
  {
    var obj := Obj(t, fs);
    PlainTableWrites(store, env, NestedToPlain(store, env, fuel), obj, store[t], EmptyObject);
    assert ToPlainSpec(store, env, fuel, obj) == TableToPlain(store, env, fuel, obj, store[t]);
  }

  /** An instance that holds the data's values under the property names makes the table simple. */
  lemma SimpleTableOfData(table: FieldTable, data: Fields, t: Ctor, fs: Fields)
    requires SimpleData(table, data)
    requires forall j :: 0 <= j < |table| ==> Get(fs, table[j].0) == Get(data, MappedName(table[j].1))
    ensures SimpleTable(table, Obj(t, fs))
  {
  }

  /** Output that holds, at each mapped name, what the data holds there, and nothing elsewhere, reads as the data. */
  lemma ReadsAsData(table: FieldTable, data: Fields, fs: Fields, out: Fields)
    requires SimpleData(table, data)
    requires forall j :: 0 <= j < |table| ==> Get(fs, table[j].0) == Get(data, MappedName(table[j].1))
    requires forall j :: 0 <= j < |table| ==> Get(out, MappedName(table[j].1)) == Get(fs, table[j].0)
    requires forall k :: (forall j :: 0 <= j < |table| ==> MappedName(table[j].1) != k) ==> Get(out, k) == Undef
    ensures forall k :: Get(out, k) == Get(data, k)
  {
    forall k
      ensures Get(out, k) == Get(data, k)
    {
      if j :| 0 <= j < |table| && MappedName(table[j].1) == k {
        assert Get(out, MappedName(table[j].1)) == Get(fs, table[j].0);
      }
    }
  }

  /**
   * The other direction: for plain data holding only the mapped names of a
   * simple table, toClass succeeds, toPlain of the instance succeeds, and
   * every key reads the same in the result as in the data.
   */
  lemma PlainRoundTrip(store: ConvertorStore, env: Env, fuel: nat, t: Ctor, c: Ctor, data: Fields)
    requires t in store && fuel > 0 && SimpleData(store[t], data)
    ensures ToClassSpec(store, env, fuel, t, Obj(c, data)).Ok?
    ensures var inst := ToClassSpec(store, env, fuel, t, Obj(c, data)).value;
      var back := ToPlainSpec(store, env, fuel, inst);
      back.Ok? && back.value.Obj? && forall k :: Get(back.value.fields, k) == Get(data, k)
  {
    var fs := ClassOfSimpleData(store, env, fuel, t, c, data);
    SimpleTableOfData(store[t], data, t, fs);
    SimpleInstanceToPlain(store, env, fuel, t, fs);
    ReadsAsData(store[t], data, fs, ToPlainSpec(store, env, fuel, Obj(t, fs)).value.fields);
  }
}
