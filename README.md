# A verified model of the SPFxAppDev mapper core

The mapper converts between plain JSON-like data and instances of decorated
classes. The `@mapper(options)` property decorator registers one descriptor
per decorated property. It records the options, the owning class and the
property name. `toClass(Type, plain)` builds an instance from plain data,
and `toPlain(instance)` builds plain data from an instance. Both consult the
per-type table of descriptors.

This project models four pieces in Dafny and proves their contracts:

- the registration routine `mapper`;
- the path utilities `isset`, `getDeepOrDefault` and `isFunction`;
- the two convertors `toClass` and `toPlain`.

Files and modules:

| file | module | content |
|---|---|---|
| `wrappers.dfy` | `Wrappers` | `Option`, `Result`, and two generic loops with their lemmas. `MapFrom` maps and stops at the first failure. `FoldFrom` threads a state through steps. |
| `js_values.dfy` | `JsValues` | JavaScript values. Objects carry a constructor tag and insertion-ordered own properties. Also `typeof`, falsiness, `\|\|`, own-property reads and writes, `String.prototype.split` on one character, `join`, and path reads. |
| `interfaces.dfy` | `Interfaces` | The decorator options and the metadata record. The per-type field table the convertors read. The opaque runtime hooks (`Env`). |
| `utility.dfy` | `Utility` | `isset`, `isFunction`, and `getDeepOrDefault`. The last is a method with the source's loop, proved against a specification function. |
| `store.dfy` | `Store` | The default rule name, and the class holding the two rule-keyed registration stores. |
| `mapper.dfy` | `Decorators` | The store-eligibility decision, rule normalisation, and the nested-map insertion. `Mapper` updates the stores in place. |
| `to_class.dfy` | `ToClassConvertor` | `toClass`. Methods follow the source's loops and are proved equal to specification functions. Lemmas state the properties. |
| `to_plain.dfy` | `ToPlainConvertor` | `toPlain`, organised the same way, including the path loop and the array loop. |
| `round_trip.dfy` | `RoundTrip` | For tables of plain one-segment mappings, `toClass` after `toPlain` gives back every mapped field, and `toPlain` after `toClass` gives back the plain data. |

Modelling choices:

- An exception is an `Err` completion:
  - `TypeError` for a property read on `undefined`/`null`, `(null).constructor`, or a write into a primitive (module code is strict);
  - `OutsideModel` for any write whose container is an array or a function, or whose path passes through one, index keys included;
  - `DepthExceeded` for running out of fuel.
- The convertors import `mapperMetadataStore` (`src/convertor/toClass.ts:3`, `src/convertor/toPlain.ts:2`), but `src/store/index.ts` does not export it. It has the single-level shape `type -> (propertyName -> metadata)`. The model passes it to both convertors as a parameter `store: map<Ctor, seq<(string, Metadata)>>`. Each table lists the `Map`'s entries in insertion order, which is the order `Map.forEach` visits them.
- Everything the model takes as given is a field of `Env`:
  - `new T()` (the own properties a constructor leaves);
  - `new Date(x)`;
  - `JSON.parse(JSON.stringify(x))`;
  - a call of a user converter.
- `getDeepOrDefault`'s default parameter turns an `undefined` default into `null`. The convertors pass `opts.defaultValue` through it, which may be `undefined`. A path-mode miss therefore yields `null`, not `undefined`, and the model keeps that.
- `src/interfaces/MapperOptions.interface.ts` declares no `rules` field, but the decorator reads `options.rules` (`src/decorators/mapper.ts:41-45`). The model follows the code, so `Options` has a `rules` field. Its cases are absent, an array of strings, or a single string.

## Model

| member | source | states |
|---|---|---|
| Utility.IsSet | src/utility/index.ts:7-9 | true exactly when the value is neither `undefined` nor `null` |
| Utility.IsFunction | src/utility/index.ts:46-48 | true exactly for function values; a function value is always set |
| Utility.DefaultOrNull | src/utility/index.ts:19 | an omitted (undefined) default becomes `null`; any other default is kept; the result is never undefined |
| Utility.GetDeepOrDefault | src/utility/index.ts:19-38 | the loop returns what the path-read specification gives, and the result is always the (null-defaulted) default or a set value |
| Utility.WalkReadsPath | src/utility/index.ts:27-35 | from a set object, the walk stops with nothing at the first unset step, and otherwise ends at exactly the value at the path |
| Utility.DeepOrDefaultReadsPath | src/utility/index.ts:20-37 | never fails; gives the value at the `.`-split path when the object and that value are set, and the default otherwise (also when the object is unset) |
| Utility.DeepOrDefaultSingleKey | src/utility/index.ts:24-34 | a key without `.` is a single own-property read, falling back to the default when unset |
| Utility.DeepOrDefaultJoinedPath | src/utility/index.ts:24-37 | a key made by joining dot-free segments with `.` reads exactly along those segments |
| JsValues.Set | src/convertor/toClass.ts:47 | an assignment `o[k] = v`: `k` then reads `v`, every other key reads as before, and the key set grows by `k` only |
| JsValues.SetTwice | src/convertor/toClass.ts:58-70 | assigning the same key twice equals assigning only the second value |
| JsValues.TypeOf | src/convertor/toPlain.ts:47 | the `typeof` operator: `"object"` for `null`, arrays and objects, `"function"` for functions |
| JsValues.IsFalsy | src/convertor/toClass.ts:40 | the falsy values: `undefined`, `null`, `false`, `0` and `""` |
| JsValues.Or | src/convertor/toClass.ts:37 | `a \|\| b`: `b` when `a` is falsy, `a` otherwise |
| JsValues.CtorOf | src/convertor/toPlain.ts:9 | `v.constructor`: the constructor of a set value, nothing (a throw) for `undefined` and `null` |
| JsValues.Prop | src/convertor/toClass.ts:40 | `v[k]`: an object's own field, `length` and index keys of arrays and strings, `undefined` otherwise (functions included) |
| JsValues.Split | src/utility/index.ts:24 | `split('.')` gives at least one part and no part contains the separator |
| JsValues.SplitJoin | src/utility/index.ts:24 | joining the parts of a split with the separator gives back the string |
| JsValues.JoinSplit | src/convertor/toPlain.ts:63 | splitting a join of separator-free parts gives back the parts |
| JsValues.SplitWithoutSeparator | src/convertor/toPlain.ts:63 | a name without a `.` splits into itself alone |
| Interfaces.MappedName | src/convertor/toClass.ts:37 | `nameOrPath \|\| propertyName`: the given name when it is non-empty, the property name when it is absent or empty |
| Store.MetadataStores.constructor | src/store/index.ts:5-13 | both registration stores start empty |
| Decorators.AddsToClassStore | src/decorators/mapper.ts:37-38 | the class store takes the descriptor when `toClassOnly` is `true`, or is unset while `toPlainOnly` is not `true` |
| Decorators.AddsToPlainStore | src/decorators/mapper.ts:39-40 | the plain store takes the descriptor when `toPlainOnly` is `true`, or is unset while `toClassOnly` is not `true` |
| Decorators.NoOptionsDefaults | src/decorators/mapper.ts:29-45 | `@mapper()` with its default `{}` registers in both stores under the default rule only, and maps to the property's own name |
| Decorators.StoreEligibility | src/decorators/mapper.ts:37-40 | the class/plain store decision for every combination of the two flags: both unset or both true selects both stores, both false selects neither, a lone `true` selects only its own store, a lone `false` selects only the other store |
| Decorators.RuleNames | src/decorators/mapper.ts:41-45 | absent rules become `[DEFAULT_RULE_NAME]`, an array is used as given, any other value becomes a one-element list; the list is empty exactly for an empty array |
| Decorators.InsertLookup | src/decorators/mapper.ts:49-65 | one iteration's insertion makes `store[target][rule][propertyName]` the new metadata and leaves every other lookup as it was |
| Decorators.InsertBySteps | src/decorators/mapper.ts:49-65 | creating the missing outer map, then the missing inner map, then setting the entry gives the insertion |
| Decorators.InsertAllLookup | src/decorators/mapper.ts:47-66 | after the loop over the rules, a lookup yields the new metadata exactly for the target, a listed rule and the property name, and the old entry elsewhere |
| Decorators.InsertAllTargets | src/decorators/mapper.ts:49-54 | the loop adds the target as a key exactly when there is at least one rule, and no other key |
| Decorators.InsertAllOtherTargets | src/decorators/mapper.ts:47-66 | the maps of other targets are untouched |
| Decorators.InsertAllRules | src/decorators/mapper.ts:56-60 | with at least one rule, the target's rule keys are the old ones plus the listed rules |
| Decorators.InsertKeys | src/decorators/mapper.ts:56-60 | one insertion adds exactly its rule key to the target's map |
| Decorators.InsertAllOtherRules | src/decorators/mapper.ts:56-65 | a rule not in the list keeps its map for the target |
| Decorators.LastRegistrationWins | src/decorators/mapper.ts:62-65 | after two registrations of the same property, a rule of the second maps to the second metadata, and a rule only of the first maps to the first |
| Decorators.Mapper | src/decorators/mapper.ts:29-89 | the decorator stores `Metadata(target, options, propertyName)` under each normalised rule in each eligible store; an ineligible store is unchanged, and every other lookup keeps its old result |
| ToClassConvertor.ToClass | src/convertor/toClass.ts:8-99 | the method, with the source's array loop and table loop, returns what the specification `ToClassSpec` gives, or its exception |
| ToClassConvertor.AssignField | src/convertor/toClass.ts:28-95 | one `forEach` callback, including the `mappingWasResolved` loop, updates the instance's fields as `ApplyField` specifies |
| ToClassConvertor.AssignCoerced | src/convertor/toClass.ts:51-93 | the coercion loop over the value (or the one-element collection) sets the coerced value, or assigns the raw value when no branch resolved |
| ToClassConvertor.SkippedByToClass | src/convertor/toClass.ts:32 | the direction filter: an explicit `toClassOnly: false`, or an unset `toClassOnly` with `toPlainOnly: true`, skips the descriptor |
| ToClassConvertor.DirectionFilterAgreesWithRegistration | src/convertor/toClass.ts:32-34 | the convertor skips a descriptor exactly when registration would have kept it out of the class store |
| ToClassConvertor.UnregisteredTypeIsConstructed | src/convertor/toClass.ts:10-12 | an unregistered target gives a freshly constructed instance, for any input, arrays included |
| ToClassConvertor.ArrayFanOut | src/convertor/toClass.ts:15-22 | for a registered target, an array input succeeds exactly when each element's conversion does, and then gives an array of the same length whose element `i` is the conversion of element `i` |
| ToClassConvertor.ResolvedValue | src/convertor/toClass.ts:36-44 | the value before coercion: `plain[name] \|\| defaultValue` in literal mode (throwing on an unset `plain`), `getDeepOrDefault(plain, name, defaultValue)` otherwise |
| ToClassConvertor.ReadModes | src/convertor/toClass.ts:36-44 | for every name: literal mode reads the whole name as one key, throws on an unset `plain`, and falls back to the default on a falsy value; path mode (`resolvePath` absent or `true`) reads along the `.`-split name and falls back (to the null-defaulted default) on an unset value |
| ToClassConvertor.DottedNameReadModes | src/convertor/toClass.ts:39-43 | on a dotted name the modes differ: `{"a.b": 1, "a": {"b": 2}}` reads 1 literally and 2 along the path |
| ToClassConvertor.ConverterOverridesCoercion | src/convertor/toClass.ts:46-49 | with a converter function, the field is the converter's result on (name, metadata, read value, plain, true), whatever the store and the nested conversion are |
| ToClassConvertor.CoercionShape | src/convertor/toClass.ts:51-86 | a registered declared type converts a non-array value once; `Date` gives `new Date(value)`; an array gives a new array of element-wise results in order, and it fails exactly when an element's conversion fails; other types, and the empty array, keep the value |
| ToClassConvertor.CoerceElements | src/convertor/toClass.ts:61-86 | the coercion loop over a collection succeeds exactly when, for a registered type, every element converts; it then gives one item per element, in order: the nested conversion for a registered type, `new Date(element)` otherwise |
| ToClassConvertor.CoerceStep | src/convertor/toClass.ts:61-85 | one pass of the coercion loop: a failed nested conversion ends it with that error, otherwise the item is appended and the loop goes on with the next element |
| ToClassConvertor.PushField | src/convertor/toClass.ts:58-83 | for an array the field holds the array of items converted so far and a push extends it; for a single value each pass overwrites the field |
| ToClassConvertor.CoercedResolved | src/convertor/toClass.ts:61-89 | once the loop has resolved a non-empty collection, the field holds the coerced array, or the coerced single value |
| ToClassConvertor.CoercedUnresolved | src/convertor/toClass.ts:57-93 | when no branch resolves (unregistered non-`Date` type, or an empty array), the field ends with the raw value, overwriting the `[]` set for an array |
| ToClassConvertor.RawAssignment | src/convertor/toClass.ts:51-93 | when the value is unset, no type is declared, the type is neither registered nor `Date`, or the value is `[]`, the field gets the raw read value |
| ToClassConvertor.FieldsFromSucceeds | src/convertor/toClass.ts:28-95 | for any field valuation, the table loop completes exactly when every entry's valuation does |
| ToClassConvertor.FieldsFromOutcome | src/convertor/toClass.ts:28-95 | after the table loop, each key holds the last value written to it, or its value before the loop if no entry wrote it |
| ToClassConvertor.InstanceFields | src/convertor/toClass.ts:24-98 | for a registered target and a non-array input, the result is an instance of that type; each property is the last write of the table to it, or the constructor's value |
| ToClassConvertor.SilentEntriesDoNotWrite | src/convertor/toClass.ts:28-34 | for any field valuation, a key whose entries all assign nothing (as the direction filter's early return does) is never written by the table loop |
| ToClassConvertor.SkippedFieldKeepsConstructorValue | src/convertor/toClass.ts:26-34 | such a property keeps the value the constructor gave it |
| ToPlainConvertor.ToPlain | src/convertor/toPlain.ts:7-126 | the method, with the source's array loop and table loop, returns what the specification `ToPlainSpec` gives, or its exception |
| ToPlainConvertor.WriteEntry | src/convertor/toPlain.ts:27-123 | one `forEach` callback changes the output as `Entry` states |
| ToPlainConvertor.WriteLiteral | src/convertor/toPlain.ts:43-60 | the literal-mode branch writes the plain form of `obj[propertyName] \|\| defaultValue` at the literal key |
| ToPlainConvertor.WriteAlongPath | src/convertor/toPlain.ts:61-64 | the path-mode branch reads by property name and runs the path loop along the split output name |
| ToPlainConvertor.WritePath | src/convertor/toPlain.ts:64-121 | the path loop, advancing through the containers it finds or creates, gives the output `PathFrom` specifies |
| ToPlainConvertor.WriteArrayLeaf | src/convertor/toPlain.ts:95-113 | the last segment first gets `[]`, then one push per element; the method's result is the array-leaf specification `ArrayLeaf`, or the first element's exception |
| ToPlainConvertor.PlainOf | src/convertor/toPlain.ts:47-59 | the plain form of a value: a non-object as is, `null` throws at the constructor read, an unregistered object is a JSON clone, a registered one is converted |
| ToPlainConvertor.PushedItem | src/convertor/toPlain.ts:98-112 | what the array loop pushes for one element: as `PlainOf`, except that an unregistered object pushes a clone of the whole array |
| ToPlainConvertor.ConvertElement | src/convertor/toPlain.ts:98-112 | one element of the array loop: a non-object pushed as is, an object of an unregistered type pushes a clone of the whole array, a registered one is converted |
| ToPlainConvertor.ConvertValue | src/convertor/toPlain.ts:47-59 | a non-object is kept as is; an unregistered object is cloned; a registered one is converted; reading `constructor` of `null` throws |
| ToPlainConvertor.Dispatch | src/convertor/toPlain.ts:9-23 | `toPlain` of `undefined`/`null` throws; an object of an unregistered type gives `{}` |
| ToPlainConvertor.ArrayFanOut | src/convertor/toPlain.ts:11-18 | an array input, checked before the registry, succeeds exactly when each element's conversion does, and gives an array of the same length holding the conversion of each element in order |
| ToPlainConvertor.SkippedByToPlain | src/convertor/toPlain.ts:30 | the direction filter: an explicit `toPlainOnly: false`, or an unset `toPlainOnly` with `toClassOnly: true`, skips the descriptor |
| ToPlainConvertor.DirectionFilterAgreesWithRegistration | src/convertor/toPlain.ts:30-32 | the convertor skips a descriptor exactly when registration would have kept it out of the plain store |
| ToPlainConvertor.SkippedEntriesContributeNothing | src/convertor/toPlain.ts:30-32 | the output from the whole table equals the output from only the entries the direction filter keeps |
| ToPlainConvertor.ConverterWritesLiteralKey | src/convertor/toPlain.ts:34-40 | with a converter function, the literal key `nameOrPath \|\| propertyName` (without splitting) gets the converter's result on (propertyName, metadata, defaultValue, obj, false); all other keys are unchanged |
| ToPlainConvertor.LiteralWritesLiteralKey | src/convertor/toPlain.ts:43-59 | literal mode succeeds exactly when the plain form of `obj[propertyName] \|\| defaultValue` does, writes it at the literal key, and leaves every other key unchanged |
| ToPlainConvertor.UnsetWritesNullAtFirstSegment | src/convertor/toPlain.ts:70-73 | an unset path-mode value writes `null` at the first segment of the output path, replacing whatever was there, and writes nothing else |
| ToPlainConvertor.Assign | src/convertor/toPlain.ts:71-117 | `container[k] = x`: an object gets `k` set; a primitive throws (strict mode); an array or function container is outside the model |
| ToPlainConvertor.WriteAt | src/convertor/toPlain.ts:71-120 | the assignment at the end of the containers along a path, as the moving `currentReturnObjectPath` reaches it |
| ToPlainConvertor.WriteAtSucceeds | src/convertor/toPlain.ts:116-120 | a write along a path succeeds exactly when every container on the path is an object, and keeps the root's type |
| ToPlainConvertor.WriteAtThenAt | src/convertor/toPlain.ts:116-120 | after the write, the path read at that key gives the written value |
| ToPlainConvertor.WriteAtTwice | src/convertor/toPlain.ts:95-101 | a second write to the same place replaces the first |
| ToPlainConvertor.WriteAtFrame | src/convertor/toPlain.ts:116-120 | a write leaves every path that leaves its own path at some segment unchanged, so keys sharing a prefix merge in one container |
| ToPlainConvertor.PushOnto | src/convertor/toPlain.ts:101-112 | pushing onto the array at the current segment is writing the array extended by the item |
| ToPlainConvertor.ArrayLeafWrite | src/convertor/toPlain.ts:95-113 | writing `[]` and then the filled array equals writing the filled array; the path then reads it |
| ToPlainConvertor.ArrayLeafElements | src/convertor/toPlain.ts:97-113 | the array loop succeeds exactly when no element is `null` and each registered element converts; then it has one item per element: non-objects as they are, registered objects converted, other objects as a clone of the whole array |
| ToPlainConvertor.ArrayLeafIsWrite | src/convertor/toPlain.ts:95-113 | a successful array leaf is a single write of the array of element-wise items at the segment, and the path reads that array back |
| ToPlainConvertor.ArrayLeafStep | src/convertor/toPlain.ts:97-112 | one pass of the array loop: a failed element ends the leaf with its error; otherwise the segment holds the items so far and the push is the write of the extended array |
| ToPlainConvertor.ArrayLeafEnd | src/convertor/toPlain.ts:97-113 | after the last element, the array leaf is the output as the loop left it |
| ToPlainConvertor.PathFromLast | src/convertor/toPlain.ts:76-113 | at the last segment, a set value's leaf form succeeds and the loop's output is the write of that form at the full path |
| ToPlainConvertor.PathFromInner | src/convertor/toPlain.ts:114-120 | before the last segment, the loop creates `{}` where the segment is unset and goes on one level deeper |
| ToPlainConvertor.WriteAtLands | src/convertor/toPlain.ts:76-93 | a successful write at the last segment of a path reads back at the whole path |
| ToPlainConvertor.BelowNewContainer | src/convertor/toPlain.ts:116-118 | replacing an unset segment by `{}` leaves every path below it unset, as before |
| ToPlainConvertor.PathFromLands | src/convertor/toPlain.ts:66-121 | a successful path loop on a set value leaves the leaf form of the value at the full output path |
| ToPlainConvertor.EnsureContainerFrame | src/convertor/toPlain.ts:116-118 | creating a missing intermediate `{}` leaves paths that diverge earlier unchanged |
| ToPlainConvertor.PathFromFrame | src/convertor/toPlain.ts:64-121 | the path loop leaves every path that diverges from the output path unchanged |
| ToPlainConvertor.LastEntryWins | src/convertor/toPlain.ts:27-121 | when the table's last entry writes a set value in path mode, the output holds that entry's value at its path, whatever earlier entries wrote |
| RoundTrip.PlainEntryWrites | src/convertor/toPlain.ts:43-93 | an entry with a dot-free name and no converter or type writes the instance's value at its mapped name, in either read mode |
| RoundTrip.PlainTableWrites | src/convertor/toPlain.ts:27-123 | over a table of such entries with distinct names, every mapped name holds its property's value and every other key is untouched |
| RoundTrip.ClassEntryReads | src/convertor/toClass.ts:36-93 | such an entry reads back the value found at its mapped name |
| RoundTrip.LastWriteOfUniqueKey | src/convertor/toClass.ts:28-95 | a key that only one entry is filed under ends with that entry's value |
| RoundTrip.LastWriteOfAbsentKey | src/convertor/toClass.ts:28-95 | a key no entry is filed under is not written |
| RoundTrip.RoundTrip | src/convertor/toClass.ts:8-99 | for an instance of a type whose table holds only such entries, and whose values are set, non-object (and truthy in literal mode), `toPlain` succeeds; `toClass` of its result succeeds with an instance of that type; each mapped property gets its original value back, and every other property gets its constructor value |
| RoundTrip.ClassOfSimpleData | src/convertor/toClass.ts:24-98 | `toClass` of data fit for a simple table succeeds with an instance of the type whose mapped properties hold the data's values at their mapped names |
| RoundTrip.SimpleInstanceToPlain | src/convertor/toPlain.ts:20-126 | `toPlain` of an instance with a simple table succeeds; each mapped name holds its property's value, and no other key is set |
| RoundTrip.PlainRoundTrip | src/convertor/toPlain.ts:7-126 | for plain data whose mapped names hold carried values and whose other keys are unset, `toClass` then `toPlain` succeed and every key reads as in the data |

## Left out

- Integer keys: JavaScript lists integer-like keys first in an object's own-key order. The model keeps insertion order for all keys. No proved property depends on the order of keys.
- Numbers are integers: there is no NaN, `-0` or floating point. Falsiness is modelled for `0`, `""`, `false`, `null` and `undefined`.
- Prototype and inherited properties are not modelled. Reads see the own properties of objects, and `length` and the canonical index keys of arrays and strings. Function values have no readable properties in the model: their own `length`, `name` and `prototype` read as `undefined`, so `getDeepOrDefault(x, "f.length")` gives the default where JavaScript gives a number.
- JsValues.Prop: strings are sequences of Unicode code points, not of UTF-16 code units, so a string's `length` and index keys count code points. `"\U{1F600}".length` reads as 1 where JavaScript gives 2, and an index read never yields a lone surrogate. The difference shows only for characters outside the Basic Multilingual Plane, and it reaches `getDeepOrDefault` and path-mode `toClass` reads such as `"title.length"`.
- Object identity and aliasing are not modelled. The path loop's moving `currentReturnObjectPath` reference becomes a write along the path from the root, which is what it amounts to for a tree. Shared sub-objects between input and output cannot be told apart.
- `new Date(x)`, `JSON.parse(JSON.stringify(x))` and `new T()` are opaque functions of `Env`. Date parsing, JSON serialisation and constructor side effects are outside the model.
- The user converter is an opaque function of its five arguments. Its body, its `this` binding and any exception it throws are outside the model.
- Date as declared type: the source tests `new opts.type() instanceof Date`. The model treats the declared type `DateCtor` as the one that constructs a `Date`. Subclasses of `Date` are not distinguished.
- Writes into arrays and functions in `toPlain`: JavaScript allows them, whether the key is a named key or an index. The model reports `OutsideModel` for every write whose container is an array or a function, and for every path that passes through one, so `"items.0"` or `"items.0.name"` after an array was written at `"items"` is not modelled (JavaScript would give `{items: [9, 2]}` for a write of 9 at `"items.0"` over `[1, 2]`).
- Recursion depth is bounded by `fuel`, and a conversion deeper than that ends in `DepthExceeded`. For self-referential types with set defaults the source recurses without bound, so no fuel is enough there.
- Rule-based selection during conversion is not modelled. The convertors take no rule options and read a single-level table. `src/convertor/index.ts` only declares the `ConvertOptions` type. Nothing in the code connects the two rule-keyed stores to the convertors' tables.
- Decorator and reflection mechanics are not modelled: `PropertyDecorator`, `target.constructor` and the decorator's returned closure. `Mapper` takes the target type and property name directly. The demo application, which only logs to the console, is not part of this model.
- Clone in the array loop: for an unregistered object element, the array loop pushes a clone of the whole array (`propVal`), not of the element. This is modelled as written from `src/convertor/toPlain.ts:108`, and `ArrayLeafElements` states it. Whether this was intended is not recorded in the source.
- RoundTrip.RoundTrip: states the round trip only for tables of one-segment mappings without converters or declared types, whose values are set non-objects. Dotted paths, nested conversions and clones are covered by the lemmas of each convertor separately.
- RoundTrip.PlainRoundTrip: states `toPlain` after `toClass` only for the same simple tables, for data whose mapped names hold carried values and which sets no other key.
- ToPlainConvertor.LastEntryWins: stated for the last entry of a table in path mode with a set value. Overwrites by other modes follow from `ConverterWritesLiteralKey` and `LiteralWritesLiteralKey`.
