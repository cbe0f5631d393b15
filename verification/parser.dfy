/** The two entry points of the tree builder: the back end's `parser`
    (backend/app.py), which raises when there is no root, and the stand-alone
    script's `parser` (original-script/original-script.py), which first checks
    the input text and writes an error item instead of raising. */
module Parser {
  import opened Wrappers
  import opened Seqs
  import opened CycloneDx
  import opened Clean
  import opened DepGraph
  import opened Hierarchy

  /** Stages one to three on a decoded document. */
  function BomGraph(bom: Bom): (c: Converted)
    ensures ValidGraph(c.graph)
  {
    var cleaned := CleanOutput(bom);
    ConvertToTree(cleaned.results, cleaned.deps, cleaned.ignore)
  }

  function BomRoots(bom: Bom): seq<string> {
    RootNodes(BomGraph(bom).graph)
  }

  /** One tree per root, in root order, each expanded from an empty path at
      depth 0 with the default depth limit. */
  function Forest(c: Converted, roots: seq<string>): (ts: seq<Tree>)
    ensures |ts| == |roots|
    ensures forall i :: 0 <= i < |ts| ==>
      && ts[i].Node?
      && ts[i].ref == roots[i]
      && Expansion(ts[i], c.graph, c.meta, {}, 0, MaxDepth)
      && DepthBounded(ts[i], 0, MaxDepth + 1)
  {
    forall i | 0 <= i < |roots|
      ensures Expansion(Expand(c.graph, c.meta, roots[i], {}, 0, MaxDepth), c.graph, c.meta, {}, 0, MaxDepth)
      ensures DepthBounded(Expand(c.graph, c.meta, roots[i], {}, 0, MaxDepth), 0, MaxDepth + 1)
    {
      ExpandIsExpansion(c.graph, c.meta, roots[i], {}, 0, MaxDepth);
      ExpandDepthBounded(c.graph, c.meta, roots[i], {}, 0, MaxDepth);
    }
    seq(|roots|, i requires 0 <= i < |roots| => Expand(c.graph, c.meta, roots[i], {}, 0, MaxDepth))
  }

  /** The back end raises `ValueError` when no root is found. */
  datatype ParseError = NoRoots

  /** The last two stages of the back end's `parser` on a built graph: an
      error exactly when no key is a root; otherwise one tree per root, in
      key order, each a node rooted at a key that no key depends on. */
  function ParseGraph(c: Converted): (r: Result<seq<Tree>, ParseError>)
    requires ValidGraph(c.graph)
    ensures r.Failure? <==> forall k :: k in c.graph.keys ==> DependedOn(c.graph, k)
    ensures r.Success? ==>
      && |r.value| == |RootNodes(c.graph)|
      && forall i :: 0 <= i < |r.value| ==>
           && r.value[i].Node?
           && r.value[i].ref == RootNodes(c.graph)[i]
           && r.value[i].ref in c.graph.keys
           && !DependedOn(c.graph, r.value[i].ref)
  {
    var roots := RootNodes(c.graph);
    if |roots| == 0 then Failure(NoRoots)
    else
      assert roots[0] in roots;
      Success(Forest(c, roots))
  }

  /** The back end's `parser`: it raises exactly when the document's graph
      has no root, and otherwise returns one tree per root. */
  function Parse(bom: Bom): (r: Result<seq<Tree>, ParseError>)
    ensures r.Failure? <==> BomRoots(bom) == []
    ensures r.Success? ==> |r.value| == |BomRoots(bom)|
    ensures r.Success? ==> forall i :: 0 <= i < |r.value| ==>
      && r.value[i].Node?
      && r.value[i].ref == BomRoots(bom)[i]
      && Expansion(r.value[i], BomGraph(bom).graph, BomGraph(bom).meta, {}, 0, MaxDepth)
      && DepthBounded(r.value[i], 0, MaxDepth + 1)
  {
    ParseGraph(BomGraph(bom))
  }

  /** `convert_output` raises on empty or missing text and on text that does
      not decode. */
  datatype ConvertError = EmptyInput | DecodeError

  /** `convert_output(output_str)`, with the JSON decoder passed in: the
      emptiness check comes before any decoding. */
  function ConvertOutput(text: Option<string>, decode: string -> Option<Bom>): (r: Result<Bom, ConvertError>)
    ensures r == Failure(EmptyInput) <==> text.None? || text == Some("")
    ensures r.Success? ==> decode(text.value) == Some(r.value)
    ensures r == Failure(DecodeError) ==> decode(text.value).None?
  {
    if text.None? || text.value == "" then Failure(EmptyInput)
    else match decode(text.value)
      case Some(bom) => Success(bom)
      case None => Failure(DecodeError)
  }

  /** An element of the list the script writes out. */
  datatype Item = TreeItem(tree: Tree) | NoRootsItem

  /** What the script writes for a built graph: the single error item when
      there is no root, otherwise one item per tree of `ParseGraph`. */
  function ScriptTrees(c: Converted): (items: seq<Item>)
    requires ValidGraph(c.graph)
    ensures match ParseGraph(c)
      case Failure(_) => items == [NoRootsItem]
      case Success(trees) =>
        && |items| == |trees|
        && forall i :: 0 <= i < |trees| ==> items[i] == TreeItem(trees[i])
  {
    var roots := RootNodes(c.graph);
    if |roots| == 0 then [NoRootsItem]
    else
      var trees := Forest(c, roots);
      seq(|trees|, i requires 0 <= i < |trees| => TreeItem(trees[i]))
  }

  /** The script's `parser`: `None` when the text is rejected (it prints the
      error and returns without writing); otherwise the list it writes. On
      every decodable document it agrees with the back end: where `Parse`
      returns trees the script writes the same trees, and where `Parse`
      raises the script writes the single error item. */
  function ScriptParse(text: Option<string>, decode: string -> Option<Bom>): (written: Option<seq<Item>>)
    ensures ConvertOutput(text, decode).Failure? <==> written.None?
    ensures ConvertOutput(text, decode).Success? ==>
      match Parse(ConvertOutput(text, decode).value)
      case Failure(_) => written == Some([NoRootsItem])
      case Success(trees) =>
        && written.Some?
        && |written.value| == |trees|
        && forall i :: 0 <= i < |trees| ==> written.value[i] == TreeItem(trees[i])
  {
    match ConvertOutput(text, decode)
    case Failure(_) => None
    case Success(bom) => Some(ScriptTrees(BomGraph(bom)))
  }
}
