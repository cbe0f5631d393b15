/** The hand-over between the two halves: the JSON the back end returns for
    a tree (backend/app.py, `recursive_hierarchy`'s dictionaries), and what
    the browser's normalizer makes of it. */
module Serialize {
  import opened Wrappers
  import opened Json
  import opened CycloneDx
  import opened Hierarchy
  import opened Normalize

  /** The message of a circular leaf, up to the path listing that follows
      "Path: " (the order of that listing is the order of a Python set). */
  function CircularMessage(ref: string): string {
    "circular dependency detected at " + ref + ". Path: "
  }

  const DepthMessage: string := "recursion depth limit reached"

  /** The `**node_metadata` part of a node: nothing for `{}`. */
  function InfoProps(info: Option<Info>): map<string, Value> {
    match info
    case None => map[]
    case Some(i) => map[
      "name" := i.name,
      "version" := i.version,
      "licenses" := Arr(seq(|i.licenses|, k requires 0 <= k < |i.licenses| => Obj(map["name" := i.licenses[k]]))),
      "type" := i.kind]
  }

  /** The JSON object of a tree node: always an object carrying the node's
      `ref` and a `deps` array with one entry per subtree, each the subtree's
      own object; it has an `error` string exactly for the two error leaves,
      which have no dependencies. */
  function ToValue(t: Tree): (v: Value)
    ensures v.Obj? && "ref" in v.props && v.props["ref"] == Str(t.ref)
    ensures "deps" in v.props && v.props["deps"].Arr?
    ensures t.Node? ==>
      && |v.props["deps"].items| == |t.deps|
      && forall i :: 0 <= i < |t.deps| ==> v.props["deps"].items[i] == ToValue(t.deps[i])
    ensures !t.Node? ==> v.props["deps"].items == []
    ensures "error" in v.props <==> !t.Node?
    ensures t.Circular? ==> v.props["error"] == Str(CircularMessage(t.ref))
    ensures t.DepthLimit? ==> v.props["error"] == Str(DepthMessage)
    decreases t
  {
    match t
    case Node(ref, info, deps) =>
      Obj(InfoProps(info)["ref" := Str(ref)]["deps" := Arr(seq(|deps|, i requires 0 <= i < |deps| => ToValue(deps[i])))])
    case Circular(ref) =>
      Obj(map["ref" := Str(ref), "error" := Str(CircularMessage(ref)), "deps" := Arr([])])
    case DepthLimit(ref) =>
      Obj(map["ref" := Str(ref), "error" := Str(DepthMessage), "deps" := Arr([])])
  }

  /** The browser can normalize every tree the back end returns, under
      either script, and the result keeps the tree's shape: one child per
      dependency. An error leaf is labelled with its error message by
      script.js and with its ref by frontend/script.js. */
  lemma {:induction false} BackendTreesNormalize(t: Tree, page: Page)
    ensures Transformable(ToValue(t))
    ensures Transform(ToValue(t), page).Some?
    ensures var out := Transform(ToValue(t), page).value;
      && out.Obj?
      && |out.props["children"].items| == (if t.Node? then |t.deps| else 0)
      && (t.Circular? ==>
            out.props["name"] == if page == RootScript then Str(CircularMessage(t.ref)) else Str(t.ref))
      && (t.DepthLimit? ==>
            out.props["name"] == if page == RootScript then Str(DepthMessage) else Str(t.ref))
    decreases t
  {
    var v := ToValue(t);
    if t.Node? {
      var kids := seq(|t.deps|, i requires 0 <= i < |t.deps| => ToValue(t.deps[i]));
      assert v.props["deps"] == Arr(kids);
      forall i | 0 <= i < |kids| ensures Transformable(kids[i]) {
        BackendTreesNormalize(t.deps[i], page);
      }
    }
    TransformSucceedsIff(v, page);
  }
}
