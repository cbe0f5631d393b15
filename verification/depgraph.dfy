/** The second and third stages of the tree builder: the adjacency map built
    from `dependencies`, the metadata attached to each of its keys, and the
    roots (backend/app.py and original-script/original-script.py,
    `populate_metadata`, `convert_cyclonedx_to_tree` and `root_nodes`). */
module DepGraph {
  import opened Wrappers
  import opened Seqs
  import opened CycloneDx

  //==========================================================================
  // Metadata lookup
  //==========================================================================

  /** The record of the `j`-th cleaned record (counting from 0) whose
      bom-ref is `k`, if there are that many. */
  function NthMatch(data: seq<Entry>, k: string, j: nat): Option<Info>
    decreases |data|
  {
    if |data| == 0 then None
    else if data[0].bomRef == Some(k) then
      if j == 0 then Some(data[0].info) else NthMatch(data[1..], k, j - 1)
    else NthMatch(data[1..], k, j)
  }

  /** What a lookup returns, and the record list as the lookup leaves it. */
  datatype Lookup = Lookup(found: Option<Info>, data: seq<Entry>)

  /** `populate_metadata`: the first record whose bom-ref equals `ref`, which
      the lookup also strips of its bom-ref in place, or nothing (`{}`) when
      no record matches, in which case the list is unchanged. */
  function PopulateMetadata(data: seq<Entry>, ref: string): (r: Lookup)
    ensures |r.data| == |data|
    ensures r.found.None? ==> r.data == data && forall i :: 0 <= i < |data| ==> data[i].bomRef != Some(ref)
    ensures r.found.Some? ==>
      exists i :: 0 <= i < |data| && data[i].bomRef == Some(ref)
        && r.found == Some(data[i].info)
        && (forall i' :: 0 <= i' < i ==> data[i'].bomRef != Some(ref))
        && r.data == data[i := data[i].(bomRef := None)]
  {
    if |data| == 0 then Lookup(None, [])
    else if data[0].bomRef == Some(ref) then
      Lookup(Some(data[0].info), [data[0].(bomRef := None)] + data[1..])
    else
      var rest := PopulateMetadata(data[1..], ref);
      var r := Lookup(rest.found, [data[0]] + rest.data);
      assert rest.found.Some? ==> r.data == data[..1] + rest.data;
      r
  }

  /** After a hit, the matched record no longer answers to `ref`: a second
      lookup of the same ref finds what would have been the second match,
      and lookups of every other ref are unaffected. */
  lemma {:induction false} PopulateShifts(data: seq<Entry>, ref: string, k: string, j: nat)
    ensures PopulateMetadata(data, ref).found == NthMatch(data, ref, 0)
    ensures NthMatch(PopulateMetadata(data, ref).data, k, j)
         == NthMatch(data, k, if k == ref then j + 1 else j)
    decreases |data|
  {
    if |data| > 0 {
      var r := PopulateMetadata(data, ref);
      if data[0].bomRef == Some(ref) {
        assert r.data[1..] == data[1..];
      } else {
        assert r.data[1..] == PopulateMetadata(data[1..], ref).data;
        if data[0].bomRef == Some(k) && j > 0 {
          PopulateShifts(data[1..], ref, k, j - 1);
        } else {
          PopulateShifts(data[1..], ref, k, j);
        }
      }
    }
  }

  //==========================================================================
  // The adjacency map
  //==========================================================================

  /** A Python dict from ref to its `dependsOn` list: `keys` in insertion
      order, `edges` the lists. */
  datatype Graph = Graph(keys: seq<string>, edges: map<string, seq<string>>)

  /** The representation invariant of a dict: each key once, and the key
      sequence and the map agree. */
  predicate ValidGraph(g: Graph) {
    && Distinct(g.keys)
    && (forall k :: k in g.edges ==> k in g.keys)
    && (forall k :: k in g.keys ==> k in g.edges)
  }

  /** A `dependencies` entry contributes to the graph when its ref is truthy
      and not ignored. */
  predicate Qualifies(d: Dependency, ignore: seq<string>) {
    Present(d.ref) && d.ref.value !in ignore
  }

  predicate Listed(deps: seq<Dependency>, ignore: seq<string>, k: string) {
    exists i :: 0 <= i < |deps| && Qualifies(deps[i], ignore) && deps[i].ref == Some(k)
  }

  function RefIs(k: string): Dependency -> bool {
    (d: Dependency) => d.ref == Some(k)
  }

  function Flatten(ds: seq<Dependency>): seq<string> {
    if |ds| == 0 then [] else ds[0].dependsOn + Flatten(ds[1..])
  }

  /** The reference value of a key's list: the `dependsOn` lists of all the
      entries with that ref, concatenated in order. */
  function DependsOnOf(deps: seq<Dependency>, k: string): seq<string> {
    Flatten(Filter(deps, RefIs(k)))
  }

  /** How many lookups the build performs for `k`. */
  function Lookups(deps: seq<Dependency>, ignore: seq<string>, k: string): nat {
    if k != "" && k !in ignore then |Filter(deps, RefIs(k))| else 0
  }

  /** The index of the first entry with ref `k`, or `|deps|` if none. */
  function First(deps: seq<Dependency>, k: string): (i: nat)
    ensures i <= |deps|
  {
    if |deps| == 0 then 0
    else if deps[0].ref == Some(k) then 0
    else 1 + First(deps[1..], k)
  }

  /** The state of the loop over `dependencies`. */
  datatype Built = Built(graph: Graph, meta: map<string, Option<Info>>, data: seq<Entry>)

  /** One iteration of the loop. */
  function Step(b: Built, d: Dependency, ignore: seq<string>): Built {
    if !Qualifies(d, ignore) then b
    else
      var ref := d.ref.value;
      var lookup := PopulateMetadata(b.data, ref);
      var keys := if ref in b.graph.edges then b.graph.keys else b.graph.keys + [ref];
      var prior := if ref in b.graph.edges then b.graph.edges[ref] else [];
      Built(Graph(keys, b.graph.edges[ref := prior + d.dependsOn]), b.meta[ref := lookup.found], lookup.data)
  }

  /** The loop over `dependencies`, as the fold of `Step` from the left. */
  function BuildFrom(data: seq<Entry>, deps: seq<Dependency>, ignore: seq<string>): Built
    decreases |deps|
  {
    if |deps| == 0 then Built(Graph([], map[]), map[], data)
    else Step(BuildFrom(data, deps[..|deps| - 1], ignore), deps[|deps| - 1], ignore)
  }

  lemma {:induction false} FlattenAppend(a: seq<Dependency>, b: seq<Dependency>)
    ensures Flatten(a + b) == Flatten(a) + Flatten(b)
  {
    if |a| == 0 {
      assert a + b == b;
    } else {
      assert (a + b)[1..] == a[1..] + b;
      FlattenAppend(a[1..], b);
    }
  }

  lemma DependsOnSnoc(deps: seq<Dependency>, d: Dependency, k: string)
    ensures DependsOnOf(deps + [d], k) == DependsOnOf(deps, k) + (if d.ref == Some(k) then d.dependsOn else [])
  {
    FilterAppend(deps, [d], RefIs(k));
    FlattenAppend(Filter(deps, RefIs(k)), Filter([d], RefIs(k)));
    if d.ref == Some(k) {
      assert Filter([d], RefIs(k)) == [d];
      assert Flatten([d]) == d.dependsOn + Flatten([]);
    } else {
      assert Filter([d], RefIs(k)) == [];
    }
  }

  lemma LookupsSnoc(deps: seq<Dependency>, d: Dependency, ignore: seq<string>, k: string)
    ensures Lookups(deps + [d], ignore, k)
         == Lookups(deps, ignore, k) + (if Qualifies(d, ignore) && d.ref == Some(k) then 1 else 0)
  {
    FilterAppend(deps, [d], RefIs(k));
    if d.ref == Some(k) {
      assert Filter([d], RefIs(k)) == [d];
    } else {
      assert Filter([d], RefIs(k)) == [];
    }
  }

  lemma ListedSnoc(deps: seq<Dependency>, d: Dependency, ignore: seq<string>, k: string)
    ensures Listed(deps + [d], ignore, k) <==> Listed(deps, ignore, k) || (Qualifies(d, ignore) && d.ref == Some(k))
  {
    var s := deps + [d];
    if Listed(s, ignore, k) && !(Qualifies(d, ignore) && d.ref == Some(k)) {
      var i :| 0 <= i < |s| && Qualifies(s[i], ignore) && s[i].ref == Some(k);
      assert i < |deps| && s[i] == deps[i];
    }
    if Listed(deps, ignore, k) {
      var i :| 0 <= i < |deps| && Qualifies(deps[i], ignore) && deps[i].ref == Some(k);
      assert s[i] == deps[i];
    }
    if Qualifies(d, ignore) && d.ref == Some(k) {
      assert s[|deps|] == d;
    }
  }

  lemma {:induction false} FirstAppend(a: seq<Dependency>, b: seq<Dependency>, k: string)
    ensures First(a + b, k) == if First(a, k) < |a| then First(a, k) else |a| + First(b, k)
  {
    if |a| == 0 {
      assert a + b == b;
    } else {
      assert (a + b)[0] == a[0];
      assert (a + b)[1..] == a[1..] + b;
      FirstAppend(a[1..], b, k);
    }
  }

  lemma {:induction false} FirstFound(deps: seq<Dependency>, k: string, i: nat)
    requires i < |deps| && deps[i].ref == Some(k)
    ensures First(deps, k) <= i
  {
    if deps[0].ref != Some(k) {
      FirstFound(deps[1..], k, i - 1);
    }
  }

  lemma ListedFirst(deps: seq<Dependency>, ignore: seq<string>, k: string)
    ensures Listed(deps, ignore, k) <==> k != "" && k !in ignore && First(deps, k) < |deps|
  {
    if Listed(deps, ignore, k) {
      var i :| 0 <= i < |deps| && Qualifies(deps[i], ignore) && deps[i].ref == Some(k);
      FirstFound(deps, k, i);
    }
    if k != "" && k !in ignore && First(deps, k) < |deps| {
      FirstHit(deps, k);
    }
  }

  lemma {:induction false} FirstHit(deps: seq<Dependency>, k: string)
    requires First(deps, k) < |deps|
    ensures deps[First(deps, k)].ref == Some(k)
  {
    if deps[0].ref != Some(k) {
      FirstHit(deps[1..], k);
    }
  }

  lemma {:induction false} AbsentFilterEmpty(deps: seq<Dependency>, k: string)
    requires First(deps, k) == |deps|
    ensures Filter(deps, RefIs(k)) == []
  {
    if |deps| > 0 {
      AbsentFilterEmpty(deps[1..], k);
    }
  }

  /** The graph's key set: a valid dict whose keys are the listed refs, and
      the metadata has the same keys. */
  lemma {:induction false} BuildKeySet(data: seq<Entry>, deps: seq<Dependency>, ignore: seq<string>)
    ensures ValidGraph(BuildFrom(data, deps, ignore).graph)
    ensures forall k :: k in BuildFrom(data, deps, ignore).graph.edges <==> Listed(deps, ignore, k)
    ensures BuildFrom(data, deps, ignore).meta.Keys == BuildFrom(data, deps, ignore).graph.edges.Keys
    decreases |deps|
  {
    if |deps| > 0 {
      var p, d := deps[..|deps| - 1], deps[|deps| - 1];
      assert deps == p + [d];
      BuildKeySet(data, p, ignore);
      forall k ensures k in BuildFrom(data, deps, ignore).graph.edges <==> Listed(deps, ignore, k) {
        ListedSnoc(p, d, ignore, k);
      }
    }
  }

  /** A ref already listed in `p` keeps its first index when an entry is
      appended. */
  lemma ListedFirstSnoc(p: seq<Dependency>, d: Dependency, ignore: seq<string>, k: string)
    requires Listed(p, ignore, k)
    ensures First(p + [d], k) == First(p, k) < |p|
  {
    ListedFirst(p, ignore, k);
    FirstAppend(p, [d], k);
  }

  /** The graph's key order: by index of first appearance. */
  lemma {:induction false} BuildKeyOrder(data: seq<Entry>, deps: seq<Dependency>, ignore: seq<string>)
    ensures var keys := BuildFrom(data, deps, ignore).graph.keys;
      forall a, c :: 0 <= a < c < |keys| ==> First(deps, keys[a]) < First(deps, keys[c]) < |deps|
    decreases |deps|
  {
    if |deps| > 0 {
      var p, d := deps[..|deps| - 1], deps[|deps| - 1];
      assert deps == p + [d];
      BuildKeyOrder(data, p, ignore);
      BuildKeySet(data, p, ignore);
      var b, b' := BuildFrom(data, p, ignore), BuildFrom(data, deps, ignore);
      var keys := b'.graph.keys;
      if Qualifies(d, ignore) && d.ref.value !in b.graph.edges {
        var ref := d.ref.value;
        ListedFirst(p, ignore, ref);
        FirstAppend(p, [d], ref);
        assert First(deps, ref) == |p|;
        assert keys == b.graph.keys + [ref];
        forall a, c | 0 <= a < c < |keys| ensures First(deps, keys[a]) < First(deps, keys[c]) < |deps| {
          ListedFirstSnoc(p, d, ignore, keys[a]);
          if c < |keys| - 1 {
            ListedFirstSnoc(p, d, ignore, keys[c]);
          }
        }
      } else {
        assert keys == b.graph.keys;
        forall a | 0 <= a < |keys| ensures First(deps, keys[a]) == First(p, keys[a]) < |p| {
          ListedFirstSnoc(p, d, ignore, keys[a]);
        }
      }
    }
  }

  /** Each key's list is the in-order concatenation of its entries' lists. */
  lemma {:induction false} BuildEdges(data: seq<Entry>, deps: seq<Dependency>, ignore: seq<string>)
    ensures var g := BuildFrom(data, deps, ignore).graph;
      forall k :: k in g.edges ==> g.edges[k] == DependsOnOf(deps, k)
    decreases |deps|
  {
    if |deps| > 0 {
      var p, d := deps[..|deps| - 1], deps[|deps| - 1];
      assert deps == p + [d];
      BuildEdges(data, p, ignore);
      BuildKeySet(data, p, ignore);
      var g, g' := BuildFrom(data, p, ignore).graph, BuildFrom(data, deps, ignore).graph;
      forall k | k in g'.edges ensures g'.edges[k] == DependsOnOf(deps, k) {
        DependsOnSnoc(p, d, k);
        if k !in g.edges {
          ListedFirst(p, ignore, k);
          AbsentFilterEmpty(p, k);
        }
      }
    }
  }

  /** One iteration of the loop shifts the matches of the ref it looks up
      by one, and no others. */
  lemma DataStep(data: seq<Entry>, p: seq<Dependency>, d: Dependency, ignore: seq<string>, k: string, j: nat)
    requires forall k, j: nat ::
      NthMatch(BuildFrom(data, p, ignore).data, k, j) == NthMatch(data, k, j + Lookups(p, ignore, k))
    ensures NthMatch(BuildFrom(data, p + [d], ignore).data, k, j) == NthMatch(data, k, j + Lookups(p + [d], ignore, k))
  {
    assert (p + [d])[..|p + [d]| - 1] == p;
    LookupsSnoc(p, d, ignore, k);
    if Qualifies(d, ignore) {
      PopulateShifts(BuildFrom(data, p, ignore).data, d.ref.value, k, j);
    }
  }

  /** The record list after the loop: for every ref, the records that the
      loop's lookups for it consumed are gone. */
  lemma {:induction false} BuildData(data: seq<Entry>, deps: seq<Dependency>, ignore: seq<string>)
    ensures |BuildFrom(data, deps, ignore).data| == |data|
    ensures forall k, j: nat ::
      NthMatch(BuildFrom(data, deps, ignore).data, k, j) == NthMatch(data, k, j + Lookups(deps, ignore, k))
    decreases |deps|
  {
    if |deps| > 0 {
      var p, d := deps[..|deps| - 1], deps[|deps| - 1];
      assert deps == p + [d];
      BuildData(data, p, ignore);
      forall k, j: nat ensures NthMatch(BuildFrom(data, deps, ignore).data, k, j) == NthMatch(data, k, j + Lookups(deps, ignore, k)) {
        DataStep(data, p, d, ignore, k, j);
      }
    }
  }

  /** The metadata of a key comes from its last lookup: the record that is
      the key's n-th match, where n is the number of entries listing it. */
  lemma {:induction false} BuildMeta(data: seq<Entry>, deps: seq<Dependency>, ignore: seq<string>)
    ensures var meta := BuildFrom(data, deps, ignore).meta;
      forall k :: k in meta ==>
        Lookups(deps, ignore, k) >= 1 && meta[k] == NthMatch(data, k, Lookups(deps, ignore, k) - 1)
    decreases |deps|
  {
    if |deps| > 0 {
      var p, d := deps[..|deps| - 1], deps[|deps| - 1];
      assert deps == p + [d];
      BuildMeta(data, p, ignore);
      var b, b' := BuildFrom(data, p, ignore), BuildFrom(data, deps, ignore);
      forall k | k in b'.meta
        ensures Lookups(deps, ignore, k) >= 1 && b'.meta[k] == NthMatch(data, k, Lookups(deps, ignore, k) - 1)
      {
        LookupsSnoc(p, d, ignore, k);
        if Qualifies(d, ignore) && d.ref == Some(k) {
          BuildData(data, p, ignore);
          PopulateShifts(b.data, k, k, 0);
          assert NthMatch(b.data, k, 0) == NthMatch(data, k, Lookups(p, ignore, k));
        }
      }
    }
  }

  /** `convert_cyclonedx_to_tree`: the adjacency map and the metadata. */
  datatype Converted = Converted(graph: Graph, meta: map<string, Option<Info>>)

  /** The keys are exactly the truthy, non-ignored refs, each once and in
      order of first appearance; a key's list concatenates, in order, the
      `dependsOn` lists of every entry with that ref; each key has metadata,
      found by the key's last lookup. */
  function ConvertToTree(data: seq<Entry>, deps: seq<Dependency>, ignore: seq<string>): (c: Converted)
    ensures ValidGraph(c.graph)
    ensures forall k :: k in c.graph.edges <==> Listed(deps, ignore, k)
    ensures forall k :: k in c.graph.edges ==> c.graph.edges[k] == DependsOnOf(deps, k)
    ensures forall a, b :: 0 <= a < b < |c.graph.keys| ==> First(deps, c.graph.keys[a]) < First(deps, c.graph.keys[b])
    ensures c.meta.Keys == c.graph.edges.Keys
    ensures forall k :: k in c.meta ==>
      Lookups(deps, ignore, k) >= 1 && c.meta[k] == NthMatch(data, k, Lookups(deps, ignore, k) - 1)
  {
    BuildKeySet(data, deps, ignore);
    BuildKeyOrder(data, deps, ignore);
    BuildEdges(data, deps, ignore);
    BuildMeta(data, deps, ignore);
    var b := BuildFrom(data, deps, ignore);
    Converted(b.graph, b.meta)
  }

  /** A ref listed by exactly one entry gets the first record with that
      bom-ref. A ref listed twice gets the SECOND such record, or no
      metadata at all when there is only one: the first lookup consumed it. */
  lemma MetadataOfRepeatedRef(data: seq<Entry>, deps: seq<Dependency>, ignore: seq<string>, k: string)
    requires k in ConvertToTree(data, deps, ignore).meta
    ensures |Filter(deps, RefIs(k))| == 1 ==> ConvertToTree(data, deps, ignore).meta[k] == NthMatch(data, k, 0)
    ensures |Filter(deps, RefIs(k))| == 2 ==> ConvertToTree(data, deps, ignore).meta[k] == NthMatch(data, k, 1)
  {
  }

  //==========================================================================
  // Roots
  //==========================================================================

  /** The set the source builds from every key's list. */
  function DependencyTargets(keys: seq<string>, edges: map<string, seq<string>>): set<string> {
    if |keys| == 0 then {}
    else (if keys[0] in edges then set x | x in edges[keys[0]] else {}) + DependencyTargets(keys[1..], edges)
  }

  /** Some key lists `x` among its dependencies. */
  predicate DependedOn(g: Graph, x: string) {
    exists k :: k in g.edges && x in g.edges[k]
  }

  lemma {:induction false} TargetsAreDependedOn(keys: seq<string>, g: Graph, x: string)
    requires forall k :: k in keys ==> k in g.edges
    ensures x in DependencyTargets(keys, g.edges) <==> exists i :: 0 <= i < |keys| && x in g.edges[keys[i]]
  {
    if |keys| > 0 {
      TargetsAreDependedOn(keys[1..], g, x);
      if exists i :: 0 <= i < |keys| && x in g.edges[keys[i]] {
        var i :| 0 <= i < |keys| && x in g.edges[keys[i]];
        if i > 0 {
          assert keys[1..][i - 1] == keys[i];
        }
      }
      if exists i :: 0 <= i < |keys[1..]| && x in g.edges[keys[1..][i]] {
        var i :| 0 <= i < |keys[1..]| && x in g.edges[keys[1..][i]];
        assert keys[1..][i] == keys[i + 1];
      }
    }
  }

  /** `root_nodes`: the keys, in key order, that no key depends on. */
  function RootNodes(g: Graph): (roots: seq<string>)
    requires ValidGraph(g)
    ensures Distinct(roots)
    ensures forall x :: x in roots <==> x in g.keys && !DependedOn(g, x)
    ensures roots == Filter(g.keys, (x: string) => !DependedOn(g, x))
  {
    var targets := DependencyTargets(g.keys, g.edges);
    assert forall x :: x in targets <==> DependedOn(g, x) by {
      forall x ensures x in targets <==> DependedOn(g, x) {
        TargetsAreDependedOn(g.keys, g, x);
        if DependedOn(g, x) {
          var k :| k in g.edges && x in g.edges[k];
          var i :| 0 <= i < |g.keys| && g.keys[i] == k;
        }
      }
    }
    FilterDistinct(g.keys, (x: string) => x !in targets);
    FilterSame(g.keys, (x: string) => x !in targets, (x: string) => !DependedOn(g, x));
    Filter(g.keys, (x: string) => x !in targets)
  }

  lemma {:induction false} FilterSame(s: seq<string>, p: string -> bool, q: string -> bool)
    requires forall x :: p(x) == q(x)
    ensures Filter(s, p) == Filter(s, q)
  {
    if |s| > 0 {
      FilterSame(s[1..], p, q);
    }
  }
}
