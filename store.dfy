/**
 * The two registration stores: one read when converting plain data to class
 * instances, one read when converting instances to plain data. Each maps
 * a type to its rule names, each rule name to property names, and each
 * property name to the metadata registered for it.
 */
module Store {
  import opened Wrappers
  import opened JsValues
  import opened Interfaces

  /** The rule every descriptor without explicit rules is filed under. */
  const DEFAULT_RULE_NAME: string := "SPFxAppDevMapperDefaultRule"

  type PropertyTable = map<string, Metadata>
  type RuleTable = map<string, PropertyTable>
  type MetadataStore = map<Ctor, RuleTable>

  /** `store.get(target)?.get(rule)?.get(propertyName)`. */
  function Lookup(store: MetadataStore, target: Ctor, rule: string, propertyName: string): Option<Metadata>
  {
    if target in store && rule in store[target] && propertyName in store[target][rule]
    then Some(store[target][rule][propertyName])
    else None
  }

  /** The module-level `mapperClassMetadataStore` and `mapperPlainMetadataStore`. */
  class MetadataStores {
    var classStore: MetadataStore
    var plainStore: MetadataStore

    /** Both stores start empty when the module is loaded. */
    constructor ()
      ensures classStore == map[] && plainStore == map[]
    {
      classStore := map[];
      plainStore := map[];
    }
  }
}
