/**
 * The shapes the decorator and the convertors share: the options a `@mapper`
 * application carries, the metadata recorded for it, the per-type field
 * table the convertors walk, and the runtime hooks whose behaviour lies
 * outside this model.
 */
module Interfaces {
  import opened Wrappers
  import opened JsValues

  /** The `rules` option: absent, an array of rule names, or any other single value. */
  datatype RulesOption =
    | RulesUnset
    | RuleArray(names: seq<string>)
    | RuleValue(name: string)

  /**
   * Options of one `@mapper(...)` application. `None` and `Undef` stand for
   * an option that is absent (or explicitly undefined or null); `convertFunc`
   * is a value because only a function value makes it take effect.
   */
  datatype Options = Options(
    nameOrPath: Option<string>,
    resolvePath: Option<bool>,
    defaultValue: Value,
    fieldType: Option<Ctor>,   // the `type` option (a keyword in Dafny)
    convertFunc: Value,
    toClassOnly: Option<bool>,
    toPlainOnly: Option<bool>,
    rules: RulesOption)

  /** `@mapper()` with no options. */
  const NoOptions: Options := Options(None, None, Undef, None, Undef, None, None, RulesUnset)

  /** What registration records for one decorated property. */
  datatype Metadata = Metadata(target: Ctor, options: Options, propertyName: string)

  /** `opts.nameOrPath || metadata.propertyName`: an empty name counts as absent. */
  function MappedName(md: Metadata): (name: string)
    ensures md.options.nameOrPath.Some? && md.options.nameOrPath.value != "" ==> name == md.options.nameOrPath.value
    ensures md.options.nameOrPath.None? || md.options.nameOrPath.value == "" ==> name == md.propertyName
  {
    match md.options.nameOrPath
    case Some(n) => if n != "" then n else md.propertyName
    case None => md.propertyName
  }

  /** The entries of one type's metadata map, in its insertion order: (key, metadata). */
  type FieldTable = seq<(string, Metadata)>

  /** The single-level store the convertors read: type -> field table. */
  type ConvertorStore = map<Ctor, FieldTable>

  /**
   * Behaviour the model takes as given: the own properties a constructor
   * call `new T()` leaves on the instance, `new Date(x)`,
   * `JSON.parse(JSON.stringify(x))`, and the call
   * `convertFunc(name, metadata, value, source, convertToClass)`.
   */
  datatype Env = Env(
    initialFields: Ctor -> Fields,
    newDate: Value -> Value,
    jsonClone: Value -> Value,
    call: (Value, string, Metadata, Value, Value, bool) -> Value)

  /**
   * The array fan-out both convertors share: a new array of `f` applied to
   * each element in order, stopping at the first exception.
   */
  function ArrayOf(f: Value -> Completion<Value>, xs: seq<Value>): Completion<Value>
  {
    var items :- MapFrom(f, xs, 0, []);
    Ok(Arr(items))
  }

  /** The fan-out succeeds iff every element does, and then holds each element's result at its index. */
  lemma ArrayOfElements(f: Value -> Completion<Value>, xs: seq<Value>)
    ensures var r := ArrayOf(f, xs);
      (r.Ok? <==> forall i :: 0 <= i < |xs| ==> f(xs[i]).Ok?) &&
      (r.Ok? ==> (r.value.Arr? && |r.value.elems| == |xs| &&
         forall i :: 0 <= i < |xs| ==> r.value.elems[i] == f(xs[i]).value))
  {
    MapFromElementwise(f, xs, 0, []);
  }

  /** `new t()` as a value. */
  function Construct(env: Env, t: Ctor): Value
  {
    Obj(t, env.initialFields(t))
  }
}
