/** The first stage of the tree builder: drop application components,
    collect the refs to ignore, and reduce every other component to a
    cleaned record (backend/app.py and original-script/original-script.py,
    `clean_output_application_sbom` and `extract_licenses`). */
module Clean {
  import opened Wrappers
  import opened Json
  import opened Seqs
  import opened CycloneDx

  const Unknown: Value := Str("Unknown")

  /** A `licenses` entry contributes a name only when its `license` object
      is truthy, that is, present and non-empty. */
  predicate Licensed(c: LicenseChoice) {
    c.license.Some? && |c.license.value| > 0
  }

  /** The name recorded for a licensed entry, "Unknown" when it has none. */
  function LicenseName(c: LicenseChoice): Value {
    match c.license
    case Some(m) => if "name" in m then m["name"] else Unknown
    case None => Unknown
  }

  /** The license names of the licensed entries, one each and in order. */
  function ExtractLicenses(ls: seq<LicenseChoice>): (r: seq<Value>)
    ensures |r| <= |ls|
    ensures |r| == |Filter(ls, Licensed)|
    ensures forall i :: 0 <= i < |r| ==> r[i] == LicenseName(Filter(ls, Licensed)[i])
  {
    if |ls| == 0 then []
    else (if Licensed(ls[0]) then [LicenseName(ls[0])] else []) + ExtractLicenses(ls[1..])
  }

  predicate IsApplication(c: Component) {
    c.kind == Some(Str("application"))
  }

  predicate Kept(c: Component) {
    !IsApplication(c)
  }

  /** The component's type as the tree shows it: the second property's value
      when there are at least two properties and that value is truthy,
      otherwise "unknown". The component's own `type` is not consulted. */
  function ComponentKind(ps: seq<Property>): (k: Value)
    ensures |ps| < 2 ==> k == Str("unknown")
    ensures k != Str("unknown") ==> |ps| >= 2 && ps[1].value == Some(k) && PyTruthy(k)
    ensures |ps| >= 2 && ps[1].value.Some? && PyTruthy(ps[1].value.value) ==> k == ps[1].value.value
  {
    if |ps| > 1 && ps[1].value.Some? && PyTruthy(ps[1].value.value) then ps[1].value.value
    else Str("unknown")
  }

  /** The cleaned record of a kept component. */
  function CleanComponent(c: Component): (e: Entry)
    ensures e.bomRef == c.bomRef
    ensures c.name.Some? ==> e.info.name == c.name.value
    ensures c.name.None? ==> e.info.name == Unknown
    ensures c.version.Some? ==> e.info.version == c.version.value
    ensures c.version.None? ==> e.info.version == Unknown
    ensures |e.info.licenses| <= |c.licenses|
  {
    Entry(
      c.bomRef,
      Info(
        if c.name.Some? then c.name.value else Unknown,
        if c.version.Some? then c.version.value else Unknown,
        ExtractLicenses(c.licenses),
        ComponentKind(c.properties)))
  }

  /** An application component's truthy bom-ref goes to the ignore list. */
  predicate IgnoredBy(cs: seq<Component>, x: string) {
    exists i :: 0 <= i < |cs| && IsApplication(cs[i]) && cs[i].bomRef == Some(x) && x != ""
  }

  lemma IgnoredByCons(cs: seq<Component>)
    requires |cs| > 0
    ensures forall x :: IgnoredBy(cs, x) <==>
      (IsApplication(cs[0]) && cs[0].bomRef == Some(x) && x != "") || IgnoredBy(cs[1..], x)
  {
    forall x | IgnoredBy(cs[1..], x) ensures IgnoredBy(cs, x) {
      var i :| 0 <= i < |cs[1..]| && IsApplication(cs[1..][i]) && cs[1..][i].bomRef == Some(x) && x != "";
      assert cs[i + 1] == cs[1..][i];
    }
    forall x | IgnoredBy(cs, x)
      ensures (IsApplication(cs[0]) && cs[0].bomRef == Some(x) && x != "") || IgnoredBy(cs[1..], x)
    {
      var i :| 0 <= i < |cs| && IsApplication(cs[i]) && cs[i].bomRef == Some(x) && x != "";
      if i > 0 {
        assert cs[1..][i - 1] == cs[i];
      }
    }
  }

  lemma FilterCons(cs: seq<Component>)
    requires |cs| > 0
    ensures Filter(cs, Kept) == (if Kept(cs[0]) then [cs[0]] else []) + Filter(cs[1..], Kept)
  {
  }

  /** The cleaned records that the loop over `components` appends: one per
      kept component, in order. */
  function KeptRecords(cs: seq<Component>): (r: seq<Entry>)
    ensures |r| == |Filter(cs, Kept)|
    ensures forall i :: 0 <= i < |r| ==> r[i] == CleanComponent(Filter(cs, Kept)[i])
  {
    if |cs| == 0 then []
    else
      FilterCons(cs);
      (if Kept(cs[0]) then [CleanComponent(cs[0])] else []) + KeptRecords(cs[1..])
  }

  /** The refs that the same loop appends to the ignore list. */
  function IgnoredRefs(cs: seq<Component>): (r: seq<string>)
    ensures forall x :: x in r <==> IgnoredBy(cs, x)
  {
    if |cs| == 0 then []
    else
      IgnoredByCons(cs);
      (if IsApplication(cs[0]) && Present(cs[0].bomRef) then [cs[0].bomRef.value] else [])
      + IgnoredRefs(cs[1..])
  }

  /** The three things the cleaning step hands on. */
  datatype Cleaned = Cleaned(results: seq<Entry>, deps: seq<Dependency>, ignore: seq<string>)

  /** Application components never reach `results`; every other component
      yields exactly one record, in input order; the ignore list holds the
      document's own component ref and the application refs (truthy ones
      only); `dependencies` is passed on untouched. */
  function CleanOutput(bom: Bom): (c: Cleaned)
    ensures c.deps == bom.dependencies
    ensures |c.results| == |Filter(bom.components, Kept)|
    ensures forall i :: 0 <= i < |c.results| ==> c.results[i] == CleanComponent(Filter(bom.components, Kept)[i])
    ensures forall x :: x in c.ignore <==> (bom.rootRef == Some(x) && x != "") || IgnoredBy(bom.components, x)
  {
    var first := if Present(bom.rootRef) then [bom.rootRef.value] else [];
    Cleaned(KeptRecords(bom.components), bom.dependencies, first + IgnoredRefs(bom.components))
  }
}
