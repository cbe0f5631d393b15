/** The fourth stage of the tree builder: expanding a root into a nested
    tree, cutting cycles with the set of refs on the current path and cutting
    depth at a limit (backend/app.py and original-script/original-script.py,
    `recursive_hierarchy`). */
module Hierarchy {
  import opened Wrappers
  import opened CycloneDx
  import opened DepGraph

  /** The source's default `max_depth`. */
  const MaxDepth: nat := 50

  /** A node of the output: `{ref, ...metadata, deps}` or one of the two
      error leaves `{ref, error, deps: []}`. The text of the circular
      dependency message is not modelled. */
  datatype Tree =
    | Node(ref: string, info: Option<Info>, deps: seq<Tree>)
    | Circular(ref: string)
    | DepthLimit(ref: string)

  /** The listed children of `node`, none when it is not a key. */
  function Children(g: Graph, node: string): seq<string> {
    if node in g.edges then g.edges[node] else []
  }

  /** The metadata recorded for `node`; `None` stands for the empty record
      a node without metadata gets. */
  function MetaOf(meta: map<string, Option<Info>>, node: string): Option<Info> {
    if node in meta then meta[node] else None
  }

  function Fuel(depth: nat, maxDepth: nat): nat {
    if depth <= maxDepth + 1 then maxDepth + 1 - depth else 0
  }

  /** `recursive_hierarchy(graph, metadata, node, visited, depth, max_depth)`.
      The cycle check comes before the depth check; each child gets its own
      copy of `visited` extended with `node`. */
  function Expand(g: Graph, meta: map<string, Option<Info>>, node: string,
                  visited: set<string>, depth: nat, maxDepth: nat): (t: Tree)
    ensures t.ref == node
    ensures node in visited ==> t == Circular(node)
    ensures node !in visited && depth > maxDepth ==> t == DepthLimit(node)
    ensures node !in visited && depth <= maxDepth ==>
      && t.Node?
      && t.info == MetaOf(meta, node)
      && |t.deps| == |Children(g, node)|
      && forall i :: 0 <= i < |t.deps| ==> t.deps[i].ref == Children(g, node)[i]
    decreases Fuel(depth, maxDepth), 0
  {
    if node in visited then Circular(node)
    else if depth > maxDepth then DepthLimit(node)
    else Node(node, MetaOf(meta, node),
              ExpandAll(g, meta, Children(g, node), visited + {node}, depth + 1, maxDepth))
  }

  /** The list comprehension over a node's children, all at `depth`. */
  function ExpandAll(g: Graph, meta: map<string, Option<Info>>, children: seq<string>,
                     visited: set<string>, depth: nat, maxDepth: nat): (ts: seq<Tree>)
    ensures |ts| == |children|
    ensures forall i :: 0 <= i < |ts| ==> ts[i] == Expand(g, meta, children[i], visited, depth, maxDepth)
    decreases Fuel(depth, maxDepth), |children|
  {
    if |children| == 0 then []
    else [Expand(g, meta, children[0], visited, depth, maxDepth)]
         + ExpandAll(g, meta, children[1..], visited, depth, maxDepth)
  }

  /** What a correct expansion of a subtree at `depth` below the path `above`
      looks like: a circular leaf names a ref already on the path; a depth
      leaf lies below the limit; every other node is off the path, within the
      limit, carries its metadata and has one subtree per listed child, in
      order, each correct below the path extended with the node. */
  ghost predicate Expansion(t: Tree, g: Graph, meta: map<string, Option<Info>>,
                            above: set<string>, depth: nat, maxDepth: nat)
    decreases t
  {
    match t
    case Circular(r) => r in above
    case DepthLimit(r) => r !in above && depth > maxDepth
    case Node(r, info, deps) =>
      && r !in above
      && depth <= maxDepth
      && info == MetaOf(meta, r)
      && |deps| == |Children(g, r)|
      && forall i :: 0 <= i < |deps| ==>
           deps[i].ref == Children(g, r)[i] && Expansion(deps[i], g, meta, above + {r}, depth + 1, maxDepth)
  }

  /** Every tree the builder returns is a correct expansion. In particular the
      refs of the non-error nodes on any root-to-node path are pairwise
      distinct, because each is outside the path above it. */
  lemma {:induction false} ExpandIsExpansion(g: Graph, meta: map<string, Option<Info>>, node: string,
                                             visited: set<string>, depth: nat, maxDepth: nat)
    ensures Expansion(Expand(g, meta, node, visited, depth, maxDepth), g, meta, visited, depth, maxDepth)
    decreases Fuel(depth, maxDepth)
  {
    var t := Expand(g, meta, node, visited, depth, maxDepth);
    if t.Node? {
      forall i | 0 <= i < |t.deps|
        ensures Expansion(t.deps[i], g, meta, visited + {node}, depth + 1, maxDepth)
      {
        ExpandIsExpansion(g, meta, Children(g, node)[i], visited + {node}, depth + 1, maxDepth);
      }
    }
  }

  /** A correct expansion is unique: the builder's result is the only tree
      that satisfies `Expansion` for its root ref. */
  lemma {:induction false} ExpansionIsExpand(t: Tree, g: Graph, meta: map<string, Option<Info>>,
                                             above: set<string>, depth: nat, maxDepth: nat)
    requires Expansion(t, g, meta, above, depth, maxDepth)
    ensures t == Expand(g, meta, t.ref, above, depth, maxDepth)
    decreases t
  {
    if t.Node? {
      var e := Expand(g, meta, t.ref, above, depth, maxDepth);
      forall i | 0 <= i < |t.deps| ensures t.deps[i] == e.deps[i] {
        ExpansionIsExpand(t.deps[i], g, meta, above + {t.ref}, depth + 1, maxDepth);
      }
    }
  }

  /** Every node of `t`, taken to sit at `depth`, is at most `bound` deep,
      and only a leaf that is not a `Node` sits at `bound` itself. */
  ghost predicate DepthBounded(t: Tree, depth: nat, bound: nat)
    decreases t
  {
    && depth <= bound
    && (t.Node? ==> depth < bound)
    && (t.Node? ==> forall i :: 0 <= i < |t.deps| ==> DepthBounded(t.deps[i], depth + 1, bound))
  }

  /** The recursion stops: no node lies deeper than `maxDepth + 1`, and only
      error leaves lie that deep. */
  lemma {:induction false} ExpandDepthBounded(g: Graph, meta: map<string, Option<Info>>, node: string,
                                              visited: set<string>, depth: nat, maxDepth: nat)
    requires depth <= maxDepth + 1
    ensures DepthBounded(Expand(g, meta, node, visited, depth, maxDepth), depth, maxDepth + 1)
    ensures depth == maxDepth + 1 ==> !Expand(g, meta, node, visited, depth, maxDepth).Node?
    decreases Fuel(depth, maxDepth)
  {
    var t := Expand(g, meta, node, visited, depth, maxDepth);
    if t.Node? {
      forall i | 0 <= i < |t.deps| ensures DepthBounded(t.deps[i], depth + 1, maxDepth + 1) {
        ExpandDepthBounded(g, meta, Children(g, node)[i], visited + {node}, depth + 1, maxDepth);
      }
    }
  }
}
