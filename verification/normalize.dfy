/** The browser's tree-record normalizer, `transformDataForD3` (script.js
    and frontend/script.js): `deps` becomes `children`, recursively, the
    display name is resolved, and `deps` and `ref` are dropped. */
module Normalize {
  import opened Wrappers
  import opened Json

  /** The two browser scripts: script.js at the repository root and
      frontend/script.js. They differ in how a name is resolved, in the tree
      header and in the label box. */
  datatype Page = RootScript | FrontendScript

  /** The resolved display name: the first truthy of `error`, `name`, `ref`
      in script.js, of `name`, `ref` in frontend/script.js. When none is
      truthy it is whatever `ref` holds (undefined when absent). */
  function ResolveName(v: Value, page: Page): (r: Value)
    ensures page == RootScript ==>
      && (JsTruthy(Prop(v, "error")) ==> r == Prop(v, "error"))
      && (!JsTruthy(Prop(v, "error")) && JsTruthy(Prop(v, "name")) ==> r == Prop(v, "name"))
      && (!JsTruthy(Prop(v, "error")) && !JsTruthy(Prop(v, "name")) ==> r == Prop(v, "ref"))
    ensures page == FrontendScript ==>
      && (JsTruthy(Prop(v, "name")) ==> r == Prop(v, "name"))
      && (!JsTruthy(Prop(v, "name")) ==> r == Prop(v, "ref"))
    ensures JsTruthy(r) <==>
      (page == RootScript && JsTruthy(Prop(v, "error"))) || JsTruthy(Prop(v, "name")) || JsTruthy(Prop(v, "ref"))
  {
    match page
    case RootScript => JsOr(Prop(v, "error"), JsOr(Prop(v, "name"), Prop(v, "ref")))
    case FrontendScript => JsOr(Prop(v, "name"), Prop(v, "ref"))
  }

  /** frontend/script.js never consults `error`: changing it leaves the name
      as it was, and the two scripts agree on every node whose `error` is
      falsy. */
  lemma FrontendIgnoresError(props: map<string, Value>, e: Value)
    ensures ResolveName(Obj(props["error" := e]), FrontendScript) == ResolveName(Obj(props), FrontendScript)
    ensures !JsTruthy(Prop(Obj(props), "error")) ==>
      ResolveName(Obj(props), RootScript) == ResolveName(Obj(props), FrontendScript)
  {
  }

  /** `node.deps`. */
  function Deps(v: Value): (d: Value)
    ensures d == Prop(v, "deps")
  {
    NamedKeyNotIndex(v, "deps");
    match v
    case Obj(props) => if "deps" in props then props["deps"] else Undefined
    case _ => Undefined
  }

  /** The records a node expands into children: its `deps` array, or none
      when `deps` is falsy. */
  function DepsItems(v: Value): seq<Value> {
    var d := Deps(v);
    if d.Arr? then d.items else []
  }

  /** `transformDataForD3(node)`. `None` means the call throws: `.map` is
      applied to a truthy `deps` that is not an array, here or below. */
  function Transform(v: Value, page: Page): (r: Option<Value>)
    ensures !JsTruthy(v) ==> r == Some(Null)
    ensures JsTruthy(v) && r.Some? ==>
      var out := r.value;
      && out.Obj?
      && "deps" !in out.props
      && "ref" !in out.props
      && "name" in out.props && out.props["name"] == ResolveName(v, page)
      && "children" in out.props && out.props["children"].Arr?
      && |out.props["children"].items| == |DepsItems(v)|
      && (forall i :: 0 <= i < |DepsItems(v)| ==>
            Transform(DepsItems(v)[i], page) == Some(out.props["children"].items[i]))
      && (forall k :: k !in {"deps", "ref", "name", "children"} ==>
            (k in out.props <==> k in OwnProps(v)) && (k in out.props ==> out.props[k] == OwnProps(v)[k]))
    decreases v, 1
  {
    if !JsTruthy(v) then Some(Null)
    else
      var kids :- TransformDeps(v, page);
      Some(Obj((OwnProps(v)["name" := ResolveName(v, page)]["children" := Arr(kids)]) - {"deps", "ref"}))
  }

  /** The normalized children: none when `deps` is falsy, otherwise each
      item of `deps` normalized in turn. */
  function TransformDeps(v: Value, page: Page): (r: Option<seq<Value>>)
    ensures r.Some? ==>
      && |r.value| == |DepsItems(v)|
      && forall i :: 0 <= i < |DepsItems(v)| ==> Transform(DepsItems(v)[i], page) == Some(r.value[i])
    ensures !JsTruthy(Deps(v)) ==> r == Some([])
    decreases v, 0
  {
    match v
    case Obj(props) =>
      if "deps" in props && JsTruthy(props["deps"]) then
        if props["deps"].Arr? then TransformAll(props["deps"].items, page) else None
      else Some([])
    case _ => Some([])
  }

  function TransformAll(items: seq<Value>, page: Page): (r: Option<seq<Value>>)
    ensures r.Some? ==> |r.value| == |items| && forall i :: 0 <= i < |items| ==> Transform(items[i], page) == Some(r.value[i])
    ensures r.None? ==> exists i :: 0 <= i < |items| && Transform(items[i], page).None?
    decreases items
  {
    if |items| == 0 then Some([])
    else
      var first :- Transform(items[0], page);
      var rest :- TransformAll(items[1..], page);
      assert forall i :: 1 <= i < |items| ==> items[i] == items[1..][i - 1];
      Some([first] + rest)
  }

  /** The inputs the normalizer accepts: no record, at any depth, has a
      truthy `deps` that is not an array. */
  ghost predicate Transformable(v: Value)
    decreases v
  {
    match v
    case Obj(props) =>
      "deps" in props && JsTruthy(props["deps"]) ==>
        props["deps"].Arr? && forall i :: 0 <= i < |props["deps"].items| ==> Transformable(props["deps"].items[i])
    case _ => true
  }

  /** The normalizer throws exactly on the inputs that are not
      `Transformable`, and the same for both scripts. */
  lemma {:induction false} TransformSucceedsIff(v: Value, page: Page)
    ensures Transform(v, page).Some? <==> Transformable(v)
    decreases v
  {
    if v.Obj? && "deps" in v.props && JsTruthy(v.props["deps"]) && v.props["deps"].Arr? {
      var items := v.props["deps"].items;
      forall i | 0 <= i < |items| ensures Transform(items[i], page).Some? <==> Transformable(items[i]) {
        TransformSucceedsIff(items[i], page);
      }
      if TransformAll(items, page).None? {
        var i :| 0 <= i < |items| && Transform(items[i], page).None?;
      }
    }
  }

  /** A record named by `name` or by `ref` alone, whose `deps` items
      normalize to `kids`, becomes a named record with those children. */
  lemma RecordExample(page: Page, key: string, text: string, items: seq<Value>, kids: seq<Value>)
    requires key == "name" || key == "ref"
    requires text != ""
    requires TransformAll(items, page) == Some(kids)
    ensures Transform(Obj(map[key := Str(text), "deps" := Arr(items)]), page)
         == Some(Obj(map["name" := Str(text), "children" := Arr(kids)]))
  {
    var m := map[key := Str(text), "deps" := Arr(items)];
    var v := Obj(m);
    assert Prop(v, "error") == Undefined;
    assert ResolveName(v, page) == Str(text);
    assert TransformDeps(v, page) == Some(kids);
    if key == "name" {
      assert m["name" := Str(text)] == map["name" := Str(text), "deps" := Arr(items)];
    } else {
      assert m["name" := Str(text)] == map["ref" := Str(text), "name" := Str(text), "deps" := Arr(items)];
    }
    assert (m["name" := Str(text)]["children" := Arr(kids)]) - {"deps", "ref"}
        == map["name" := Str(text), "children" := Arr(kids)];
  }

  lemma PairExample(page: Page, a: Value, b: Value, outA: Value, outB: Value)
    requires Transform(a, page) == Some(outA) && Transform(b, page) == Some(outB)
    ensures TransformAll([a, b], page) == Some([outA, outB])
  {
    var r := TransformAll([a, b], page);
    assert [a, b][0] == a && [a, b][1] == b;
    assert r.value == [outA, outB];
  }

  /** A root with a named and a ref-only dependency becomes a named root
      with two named leaves, under either script. */
  lemma TwoLeafExample(page: Page)
    ensures
      var libA := Obj(map["name" := Str("lib-a"), "deps" := Arr([])]);
      var libB := Obj(map["ref" := Str("lib-b"), "deps" := Arr([])]);
      var app := Obj(map["name" := Str("app"), "deps" := Arr([libA, libB])]);
      Transform(app, page) == Some(Obj(map[
        "name" := Str("app"),
        "children" := Arr([
          Obj(map["name" := Str("lib-a"), "children" := Arr([])]),
          Obj(map["name" := Str("lib-b"), "children" := Arr([])])])]))
  {
    var libA := Obj(map["name" := Str("lib-a"), "deps" := Arr([])]);
    var libB := Obj(map["ref" := Str("lib-b"), "deps" := Arr([])]);
    var app := Obj(map["name" := Str("app"), "deps" := Arr([libA, libB])]);
    var outA := Obj(map["name" := Str("lib-a"), "children" := Arr([])]);
    var outB := Obj(map["name" := Str("lib-b"), "children" := Arr([])]);
    assert TransformAll([], page) == Some([]);
    RecordExample(page, "name", "lib-a", [], []);
    RecordExample(page, "ref", "lib-b", [], []);
    PairExample(page, libA, libB, outA, outB);
    RecordExample(page, "name", "app", [libA, libB], [outA, outB]);
  }
}
