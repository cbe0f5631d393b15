/** Fanning a list of trees out into one section per tree (script.js and
    frontend/script.js, `renderMultipleTrees` and `createTreeContainer`). The
    DOM is represented by what is appended to it; the 50 ms `setTimeout`
    per tree becomes a scheduled job. */
module Orchestrate {
  import opened Wrappers
  import opened Json
  import opened Normalize

  /** The id of the drawing area of the tree at `index`. */
  function ContainerId(index: nat): string {
    "tree-container-" + NatToString(index)
  }

  /** Different trees get different drawing areas. */
  lemma ContainerIdsDistinct(i: nat, j: nat)
    requires i != j
    ensures ContainerId(i) != ContainerId(j)
  {
    var p := "tree-container-";
    if ContainerId(i) == ContainerId(j) {
      assert NatToString(i) == ContainerId(i)[|p|..];
      assert NatToString(j) == ContainerId(j)[|p|..];
      NatToStringInjective(i, j);
    }
  }

  function HeaderPrefix(page: Page): string {
    match page
    case RootScript => "Library: "
    case FrontendScript => "Dependency Tree: "
  }

  /** The positional fallback label, "Tree {index + 1}". */
  function FallbackLabel(index: nat): Value {
    Str("Tree " + NatToString(index + 1))
  }

  /** One section: a header showing `prefix` followed by `title`, and an
      empty drawing area with id `containerId`. */
  datatype Section = Section(prefix: string, title: Value, containerId: string)

  /** `createTreeContainer(tree, index)`. `None` means reading `tree.name`
      throws, which happens exactly when the element is null. The header uses
      the element's own `name`, not the resolved display name. */
  function CreateTreeContainer(tree: Value, index: nat, page: Page): (r: Option<Section>)
    ensures r.None? <==> tree.Null? || tree.Undefined?
    ensures r.Some? ==>
      && r.value.prefix == HeaderPrefix(page)
      && r.value.containerId == ContainerId(index)
      && (JsTruthy(Prop(tree, "name")) ==> r.value.title == Prop(tree, "name"))
      && (!JsTruthy(Prop(tree, "name")) ==> r.value.title == FallbackLabel(index))
  {
    if tree.Null? || tree.Undefined? then None
    else Some(Section(HeaderPrefix(page), JsOr(Prop(tree, "name"), FallbackLabel(index)), ContainerId(index)))
  }

  /** The header differs from the node's resolved name: a tree known only by
      its `ref` (or, in script.js, carrying an `error`) is headed by its
      position. */
  lemma HeaderIgnoresRef(r: string, index: nat, page: Page)
    requires r != ""
    ensures var tree := Obj(map["ref" := Str(r)]);
      && CreateTreeContainer(tree, index, page).value.title == FallbackLabel(index)
      && ResolveName(tree, page) == Str(r)
  {
    var tree := Obj(map["ref" := Str(r)]);
    assert Prop(tree, "name") == Undefined;
  }

  /** A `setTimeout` callback: normalize `tree`, then render it into the
      drawing area `containerId`. */
  datatype Job = Job(tree: Value, containerId: string)

  /** What one call leaves behind: whether the outer container was emptied,
      the sections appended to it, the jobs scheduled, the console errors, and
      whether the loop ended by throwing. */
  datatype Outcome = Outcome(cleared: bool, sections: seq<Section>, jobs: seq<Job>, log: seq<string>, threw: bool)

  predicate Nullish(v: Value) {
    v.Null? || v.Undefined?
  }

  /** The index of the first null element, or the length when there is none. */
  function FirstNullish(items: seq<Value>): (k: nat)
    ensures k <= |items|
    ensures forall i :: 0 <= i < k ==> !Nullish(items[i])
    ensures k < |items| ==> Nullish(items[k])
  {
    if |items| == 0 then 0
    else if Nullish(items[0]) then 0
    else 1 + FirstNullish(items[1..])
  }

  /** `renderMultipleTrees(treesData)`. A missing outer container is logged
      and nothing changes. Otherwise the container is emptied FIRST, then a
      value that is not an array is logged and rejected. For an array, each
      element in order gets a section whose drawing area has its index, and
      a job that renders that element there; a null element stops the loop
      with a TypeError after the sections before it. */
  method RenderMultipleTrees(found: bool, data: Value, page: Page) returns (o: Outcome)
    ensures !found ==> o == Outcome(false, [], [], ["Trees container not found"], false)
    ensures found ==> o.cleared
    ensures found && !data.Arr? ==> o == Outcome(true, [], [], ["Invalid trees data format"], false)
    ensures found && data.Arr? ==>
      && o.log == []
      && |o.sections| == |o.jobs| == FirstNullish(data.items)
      && (o.threw <==> FirstNullish(data.items) < |data.items|)
      && forall i :: 0 <= i < |o.jobs| ==>
           && Some(o.sections[i]) == CreateTreeContainer(data.items[i], i, page)
           && o.jobs[i] == Job(data.items[i], ContainerId(i))
  {
    if !found {
      return Outcome(false, [], [], ["Trees container not found"], false);
    }
    if !data.Arr? {
      return Outcome(true, [], [], ["Invalid trees data format"], false);
    }
    var sections, jobs, threw := ScheduleTrees(data.items, page);
    return Outcome(true, sections, jobs, [], threw);
  }

  /** The `forEach` over the trees: a section and a job per element, in
      order, up to the first null element, where the loop throws. */
  method ScheduleTrees(items: seq<Value>, page: Page) returns (sections: seq<Section>, jobs: seq<Job>, threw: bool)
    ensures |sections| == |jobs| == FirstNullish(items)
    ensures threw <==> FirstNullish(items) < |items|
    ensures forall i :: 0 <= i < |jobs| ==>
      && Some(sections[i]) == CreateTreeContainer(items[i], i, page)
      && jobs[i] == Job(items[i], ContainerId(i))
  {
    sections, jobs := [], [];
    var i := 0;
    while i < |items|
      invariant 0 <= i <= FirstNullish(items)
      invariant |sections| == |jobs| == i
      invariant forall j :: 0 <= j < i ==>
        Some(sections[j]) == CreateTreeContainer(items[j], j, page) && jobs[j] == Job(items[j], ContainerId(j))
    {
      var section := CreateTreeContainer(items[i], i, page);
      if section.None? {
        assert i == FirstNullish(items) by { assert Nullish(items[i]); }
        return sections, jobs, true;
      }
      assert i < FirstNullish(items) by { assert !Nullish(items[i]); }
      sections := sections + [section.value];
      jobs := jobs + [Job(items[i], ContainerId(i))];
      i := i + 1;
    }
    return sections, jobs, false;
  }
}
