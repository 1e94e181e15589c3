/**
 * Registration: what applying `@mapper(options)` to a property does to the
 * two stores.
 */
module Decorators {
  import opened Wrappers
  import opened JsValues
  import opened Interfaces
  import opened Store

  /** `options.toClassOnly === true || (options.toPlainOnly !== true && !isset(options.toClassOnly))`. */
  predicate AddsToClassStore(o: Options)
  {
    o.toClassOnly == Some(true) || (o.toPlainOnly != Some(true) && o.toClassOnly.None?)
  }

  /** `options.toPlainOnly === true || (options.toClassOnly !== true && !isset(options.toPlainOnly))`. */
  predicate AddsToPlainStore(o: Options)
  {
    o.toPlainOnly == Some(true) || (o.toClassOnly != Some(true) && o.toPlainOnly.None?)
  }

  /** Where a descriptor lands, for each combination of the two direction flags. */
  lemma StoreEligibility(o: Options)
    ensures o.toClassOnly.None? && o.toPlainOnly.None? ==> AddsToClassStore(o) && AddsToPlainStore(o)
    ensures o.toClassOnly == Some(true) && o.toPlainOnly == Some(true) ==> AddsToClassStore(o) && AddsToPlainStore(o)
    ensures o.toClassOnly == Some(false) && o.toPlainOnly == Some(false) ==> !AddsToClassStore(o) && !AddsToPlainStore(o)
    ensures o.toClassOnly == Some(true) && o.toPlainOnly != Some(true) ==> AddsToClassStore(o) && !AddsToPlainStore(o)
    ensures o.toPlainOnly == Some(true) && o.toClassOnly != Some(true) ==> !AddsToClassStore(o) && AddsToPlainStore(o)
    ensures o.toClassOnly == Some(false) && o.toPlainOnly.None? ==> !AddsToClassStore(o) && AddsToPlainStore(o)
    ensures o.toPlainOnly == Some(false) && o.toClassOnly.None? ==> AddsToClassStore(o) && !AddsToPlainStore(o)
  {
  }

  /**
   * The rule list: the default rule when `rules` is absent, an array as it
   * is, any other value (the empty string too) as a one-element list.
   */
  function RuleNames(rules: RulesOption): (names: seq<string>)
    ensures rules.RulesUnset? ==> names == [DEFAULT_RULE_NAME]
    ensures rules.RuleArray? ==> names == rules.names
    ensures rules.RuleValue? ==> names == [rules.name]
    ensures names == [] <==> rules == RuleArray([])
  {
    match rules
    case RulesUnset => [DEFAULT_RULE_NAME]
    case RuleArray(names) => names
    case RuleValue(name) => [name]
  }

  /**
   * `@mapper()` with its default `{}`: the descriptor goes to both stores
   * under the default rule alone, and maps to the property's own name.
   */
  lemma NoOptionsDefaults(target: Ctor, propertyName: string)
    ensures AddsToClassStore(NoOptions) && AddsToPlainStore(NoOptions)
    ensures RuleNames(NoOptions.rules) == [DEFAULT_RULE_NAME]
    ensures MappedName(Metadata(target, NoOptions, propertyName)) == propertyName
  {
  }

  /**
   * One iteration of the rule loop on one store: create the type's map and
   * the rule's map when missing, then set the property's entry.
   */
  function Insert(store: MetadataStore, target: Ctor, rule: string, propertyName: string, md: Metadata): MetadataStore
  {
    var rulesOfTarget := if target in store then store[target] else map[];
    var properties := if rule in rulesOfTarget then rulesOfTarget[rule] else map[];
    store[target := rulesOfTarget[rule := properties[propertyName := md]]]
  }

  /** The rule loop on one store, over `rules` in order. */
  function InsertAll(store: MetadataStore, target: Ctor, rules: seq<string>, propertyName: string, md: Metadata): MetadataStore
  {
    if rules == [] then store
    else Insert(InsertAll(store, target, rules[..|rules| - 1], propertyName, md), target, rules[|rules| - 1], propertyName, md)
  }

  /**
   * After registration every listed rule maps the property to the new
   * metadata, replacing an older entry; every other (type, rule, property)
   * entry is what it was.
   */
  lemma {:induction false} InsertAllLookup(store: MetadataStore, target: Ctor, rules: seq<string>, propertyName: string, md: Metadata,
                                           t: Ctor, r: string, p: string)
    ensures Lookup(InsertAll(store, target, rules, propertyName, md), t, r, p) ==
      if t == target && r in rules && p == propertyName then Some(md) else Lookup(store, t, r, p)
  {
    if rules != [] {
      var init := rules[..|rules| - 1];
      var last := rules[|rules| - 1];
      InsertAllLookup(store, target, init, propertyName, md, t, r, p);
      InsertLookup(InsertAll(store, target, init, propertyName, md), target, last, propertyName, md, t, r, p);
      assert rules == init + [last];
      assert r in rules <==> r in init || r == last;
    }
  }

  /** One insertion sets exactly its own (type, rule, property) entry. */
  lemma InsertLookup(store: MetadataStore, target: Ctor, rule: string, propertyName: string, md: Metadata,
                     t: Ctor, r: string, p: string)
    ensures Lookup(Insert(store, target, rule, propertyName, md), t, r, p) ==
      if t == target && r == rule && p == propertyName then Some(md) else Lookup(store, t, r, p)
  {
  }

  /** Registration adds the decorated type to the store only when some rule is given, and no other type. */
  lemma {:induction false} InsertAllTargets(store: MetadataStore, target: Ctor, rules: seq<string>, propertyName: string, md: Metadata)
    ensures InsertAll(store, target, rules, propertyName, md).Keys == store.Keys + (if rules == [] then {} else {target})
  {
    if rules != [] {
      InsertAllTargets(store, target, rules[..|rules| - 1], propertyName, md);
    }
  }

  /** Registration leaves the rule maps of every other type exactly as they were. */
  lemma {:induction false} InsertAllOtherTargets(store: MetadataStore, target: Ctor, rules: seq<string>, propertyName: string, md: Metadata, t: Ctor)
    requires t in store && t != target
    ensures t in InsertAll(store, target, rules, propertyName, md)
    ensures InsertAll(store, target, rules, propertyName, md)[t] == store[t]
  {
    if rules != [] {
      InsertAllOtherTargets(store, target, rules[..|rules| - 1], propertyName, md, t);
    }
  }

  /** Within the decorated type, the rules afterwards are the earlier ones plus the listed ones. */
  lemma {:induction false} InsertAllRules(store: MetadataStore, target: Ctor, rules: seq<string>, propertyName: string, md: Metadata, r: string)
    requires rules != []
    ensures target in InsertAll(store, target, rules, propertyName, md)
    ensures r in InsertAll(store, target, rules, propertyName, md)[target] <==>
      (target in store && r in store[target]) || r in rules
  {
    var init := rules[..|rules| - 1];
    var last := rules[|rules| - 1];
    var before := InsertAll(store, target, init, propertyName, md);
    assert InsertAll(store, target, rules, propertyName, md) == Insert(before, target, last, propertyName, md);
    InsertKeys(before, target, last, propertyName, md, r);
    assert rules == init + [last];
    assert r in rules <==> r in init || r == last;
    if init != [] {
      InsertAllRules(store, target, init, propertyName, md, r);
    }
  }

  /** One insertion adds its rule to the type's rule map and keeps the others. */
  lemma InsertKeys(store: MetadataStore, target: Ctor, rule: string, propertyName: string, md: Metadata, r: string)
    ensures target in Insert(store, target, rule, propertyName, md)
    ensures r in Insert(store, target, rule, propertyName, md)[target] <==> (target in store && r in store[target]) || r == rule
  {
  }

  /** Within the decorated type, the property maps of rules that are not listed are untouched. */
  lemma {:induction false} InsertAllOtherRules(store: MetadataStore, target: Ctor, rules: seq<string>, propertyName: string, md: Metadata, r: string)
    requires target in store && r in store[target] && r !in rules
    ensures target in InsertAll(store, target, rules, propertyName, md)
    ensures r in InsertAll(store, target, rules, propertyName, md)[target]
    ensures InsertAll(store, target, rules, propertyName, md)[target][r] == store[target][r]
  {
    if rules != [] {
      var init := rules[..|rules| - 1];
      assert rules == init + [rules[|rules| - 1]];
      InsertAllOtherRules(store, target, init, propertyName, md, r);
    }
  }

  /** Registering the same property twice: the later registration wins on the rules they share. */
  lemma LastRegistrationWins(store: MetadataStore, target: Ctor, propertyName: string,
                             rules1: seq<string>, md1: Metadata, rules2: seq<string>, md2: Metadata, r: string)
    requires r in rules1 || r in rules2
    ensures Lookup(InsertAll(InsertAll(store, target, rules1, propertyName, md1), target, rules2, propertyName, md2), target, r, propertyName)
            == if r in rules2 then Some(md2) else Some(md1)
  {
    InsertAllLookup(InsertAll(store, target, rules1, propertyName, md1), target, rules2, propertyName, md2, target, r, propertyName);
    InsertAllLookup(store, target, rules1, propertyName, md1, target, r, propertyName);
  }

  /** The three steps of one rule iteration (create the type's map, create the rule's map, set) compose to Insert. */
  lemma InsertBySteps(store: MetadataStore, withTarget: MetadataStore, withRule: MetadataStore,
                      target: Ctor, rule: string, propertyName: string, md: Metadata)
    requires withTarget == if target in store then store else store[target := map[]]
    requires withRule == if rule in withTarget[target] then withTarget else withTarget[target := withTarget[target][rule := map[]]]
    ensures withRule[target := withRule[target][rule := withRule[target][rule][propertyName := md]]] == Insert(store, target, rule, propertyName, md)
  {
    var rulesOfTarget := if target in store then store[target] else map[];
    var properties := if rule in rulesOfTarget then rulesOfTarget[rule] else map[];
    assert withTarget[target] == rulesOfTarget;
    assert withRule[target][rule] == properties;
    assert withRule[target] == rulesOfTarget[rule := properties];
    assert withRule[target][rule := properties[propertyName := md]] == rulesOfTarget[rule := properties[propertyName := md]];
    assert withRule == store[target := rulesOfTarget[rule := properties]];
  }

  /**
   * `@mapper(options)` applied to property `propertyName` of the class
   * whose constructor is `target`: records the metadata in each store the
   * direction flags allow, under every rule name.
   */
  method Mapper(stores: MetadataStores, options: Options, target: Ctor, propertyName: string)
    modifies stores
    ensures stores.classStore ==
      if AddsToClassStore(options)
      then InsertAll(old(stores.classStore), target, RuleNames(options.rules), propertyName, Metadata(target, options, propertyName))
      else old(stores.classStore)
    ensures stores.plainStore ==
      if AddsToPlainStore(options)
      then InsertAll(old(stores.plainStore), target, RuleNames(options.rules), propertyName, Metadata(target, options, propertyName))
      else old(stores.plainStore)
    ensures forall t, r, p :: (Lookup(stores.classStore, t, r, p) ==
      if AddsToClassStore(options) && t == target && r in RuleNames(options.rules) && p == propertyName
      then Some(Metadata(target, options, propertyName))
      else Lookup(old(stores.classStore), t, r, p))
    ensures forall t, r, p :: (Lookup(stores.plainStore, t, r, p) ==
      if AddsToPlainStore(options) && t == target && r in RuleNames(options.rules) && p == propertyName
      then Some(Metadata(target, options, propertyName))
      else Lookup(old(stores.plainStore), t, r, p))
  {
    var metaData := Metadata(target, options, propertyName);
    var addToClassStore := AddsToClassStore(options);
    var addToPlainStore := AddsToPlainStore(options);
    var rules := RuleNames(options.rules);

    for i := 0 to |rules|
      invariant stores.classStore ==
        if addToClassStore then InsertAll(old(stores.classStore), target, rules[..i], propertyName, metaData) else old(stores.classStore)
      invariant stores.plainStore ==
        if addToPlainStore then InsertAll(old(stores.plainStore), target, rules[..i], propertyName, metaData) else old(stores.plainStore)
    {
      var rule := rules[i];
      assert rules[..i + 1][..i] == rules[..i];
      ghost var classBefore, plainBefore := stores.classStore, stores.plainStore;
      if addToClassStore {
        if metaData.target !in stores.classStore {
          stores.classStore := stores.classStore[metaData.target := map[]];
        }
        ghost var withTarget := stores.classStore;
        if rule !in stores.classStore[metaData.target] {
          stores.classStore := stores.classStore[metaData.target := stores.classStore[metaData.target][rule := map[]]];
        }
        ghost var withRule := stores.classStore;
        stores.classStore := stores.classStore[metaData.target :=
          stores.classStore[metaData.target][rule := stores.classStore[metaData.target][rule][metaData.propertyName := metaData]]];
        InsertBySteps(classBefore, withTarget, withRule, target, rule, propertyName, metaData);
      }
      if addToPlainStore {
        if metaData.target !in stores.plainStore {
          stores.plainStore := stores.plainStore[metaData.target := map[]];
        }
        ghost var withTarget := stores.plainStore;
        if rule !in stores.plainStore[metaData.target] {
          stores.plainStore := stores.plainStore[metaData.target := stores.plainStore[metaData.target][rule := map[]]];
        }
        ghost var withRule := stores.plainStore;
        stores.plainStore := stores.plainStore[metaData.target :=
          stores.plainStore[metaData.target][rule := stores.plainStore[metaData.target][rule][metaData.propertyName := metaData]]];
        InsertBySteps(plainBefore, withTarget, withRule, target, rule, propertyName, metaData);
      }
    }
    assert rules[..|rules|] == rules;
    forall t, r, p ensures Lookup(stores.classStore, t, r, p) ==
      if addToClassStore && t == target && r in rules && p == propertyName then Some(metaData) else Lookup(old(stores.classStore), t, r, p)
    {
      InsertAllLookup(old(stores.classStore), target, rules, propertyName, metaData, t, r, p);
    }
    forall t, r, p ensures Lookup(stores.plainStore, t, r, p) ==
      if addToPlainStore && t == target && r in rules && p == propertyName then Some(metaData) else Lookup(old(stores.plainStore), t, r, p)
    {
      InsertAllLookup(old(stores.plainStore), target, rules, propertyName, metaData, t, r, p);
    }
  }
}
