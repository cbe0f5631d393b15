/** The parts of a decoded CycloneDX bill of materials (ECMA-424) that the
    tree builder reads, and the per-component record it derives from them.
    A missing list (`licenses`, `properties`, `dependsOn`, `components`,
    `dependencies`) is the empty sequence, as the source's `.get(key, [])`
    makes it. */
module CycloneDx {
  import opened Wrappers
  import opened Json

  /** One entry of a component's `licenses`: its `license` object, if any. */
  datatype LicenseChoice = LicenseChoice(license: Option<map<string, Value>>)

  /** One entry of a component's `properties`: its `value`, if any. */
  datatype Property = Property(value: Option<Value>)

  /** One entry of `components`. `kind` is the `type` field. */
  datatype Component = Component(
    bomRef: Option<string>,
    kind: Option<Value>,
    name: Option<Value>,
    version: Option<Value>,
    licenses: seq<LicenseChoice>,
    properties: seq<Property>)

  /** One entry of `dependencies`. */
  datatype Dependency = Dependency(ref: Option<string>, dependsOn: seq<string>)

  /** The decoded document. `rootRef` is `metadata.component.bom-ref`. */
  datatype Bom = Bom(
    rootRef: Option<string>,
    components: seq<Component>,
    dependencies: seq<Dependency>)

  /** What a tree node shows about its component: everything of the cleaned
      record except its `bom-ref`. `licenses` holds the license names. */
  datatype Info = Info(name: Value, version: Value, licenses: seq<Value>, kind: Value)

  /** A cleaned component record. The metadata lookup deletes `bomRef` from
      the record it returns, which leaves `None`. */
  datatype Entry = Entry(bomRef: Option<string>, info: Info)

  /** Python's truth test on an optional string field. */
  predicate Present(r: Option<string>) {
    r.Some? && r.value != ""
  }
}
