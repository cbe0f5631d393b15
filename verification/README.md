# Dependency-tree visualizer: a Dafny model of its tree pipeline

The repository turns a CycloneDX bill of materials (ECMA-424) into a forest of
dependency trees and draws each tree in the browser. This project models its
two pure pipelines and proves properties of them.

**Back end** (`backend/app.py`; `original-script/original-script.py` repeats
the same helpers, lines 6-141 against 26-162). These modules
cover it:

- `CycloneDx` holds the decoded document.
- `Clean` drops application components, collects the ignore list and reduces
  every other component to a cleaned record.
- `DepGraph` covers `populate_metadata` and the adjacency map with its
  insertion-ordered keys, then the roots.
- `Hierarchy` expands each root into a nested tree. It cuts cycles with the
  set of refs on the current path and cuts depth at 50.
- `Parser` holds both entry points: the back end raises when there is no
  root, and the script writes a single error item instead.

The lookup in `populate_metadata` deletes `bom-ref` from the record it returns.
The model therefore threads the record list through the loop.
`DepGraph.ConvertToTree` proves the consequence: a ref's metadata comes from
its *last* lookup. A ref listed by two `dependencies` entries gets the second
component with that bom-ref, or no metadata at all
(`DepGraph.MetadataOfRepeatedRef`).

**Browser** (`script.js` at the root and `frontend/script.js`; the
`Normalize.Page` value picks one):

- `Normalize` is `transformDataForD3`, over a JSON-like `Json.Value` with
  JavaScript truthiness and object spread.
- `Orchestrate` is `renderMultipleTrees` and `createTreeContainer`.
- `Render` is the arithmetic of `renderTree`: readiness, drawing-area size
  and label box.
- `Upload` is `validateFile`.
- `Serialize` connects the two halves. It gives the JSON of a back-end tree
  and proves that the browser normalizes every such tree without throwing.

In these details the model follows the code:

- A value that is not an array is rejected only after the tree container has
  been emptied.
- The section header uses the element's own `name`, not the resolved display
  name.
- The 600 by 400 fallback applies only when the computed size is exactly 0. A
  negative size is passed on.
- Only `script.js` gives `error` priority in the display name.
  `frontend/script.js` uses `name || ref`.
- When no name is truthy, the display name is whatever `ref` holds, which may
  be `""` or `null` as well as undefined.
- A truthy `deps` that is not an array makes the normalizer throw. It is not
  treated as empty.

## Model

| member | source | states |
|---|---|---|
| `Clean.ExtractLicenses` | backend/app.py:72-78 | one name per entry whose `license` object is truthy, in order, "Unknown" when it has no name; never more names than entries |
| `Clean.ComponentKind` | backend/app.py:52-58 | the type is the second property's value when there are at least two properties and that value is truthy, otherwise "unknown" |
| `Clean.CleanComponent` | backend/app.py:47-67 | the record keeps the component's bom-ref; name and version default to "Unknown" only when absent |
| `Clean.KeptRecords` | backend/app.py:39-67 | exactly one cleaned record per non-application component, in input order; no application component contributes |
| `Clean.IgnoredRefs` | backend/app.py:40-44 | a ref is collected iff some application component has it as a truthy bom-ref |
| `Clean.CleanOutput` | backend/app.py:26-69 | the results are the cleaned non-application components in order; the ignore list holds exactly the metadata component's truthy bom-ref and the applications' truthy bom-refs; dependencies are passed through |
| `DepGraph.PopulateMetadata` | backend/app.py:90-96 | returns the first record whose bom-ref equals the ref, and that record alone loses its bom-ref; with no match it returns nothing and changes nothing |
| `DepGraph.PopulateShifts` | backend/app.py:93-95 | after a hit the matched record no longer answers to the ref: a repeated lookup yields the next match; other refs are unaffected |
| `DepGraph.BuildKeySet` | backend/app.py:104-114 | the keys are distinct, are exactly the truthy non-ignored refs, and coincide with the metadata keys |
| `DepGraph.BuildKeyOrder` | backend/app.py:104-114 | the keys are ordered by the index of the ref's first entry |
| `DepGraph.BuildEdges` | backend/app.py:112-118 | a key's list is the in-order concatenation of the `dependsOn` lists of every entry with that ref |
| `DepGraph.BuildData` | backend/app.py:104-110 | after the loop, each ref's first n matching records are consumed, where n is the number of entries that looked it up |
| `DepGraph.BuildMeta` | backend/app.py:109-110 | each key's metadata is its n-th matching record, n being the number of entries listing it |
| `DepGraph.ConvertToTree` | backend/app.py:99-120 | the graph is a valid dict whose keys, key order, lists and metadata are as the four build lemmas state |
| `DepGraph.MetadataOfRepeatedRef` | backend/app.py:90-110 | a ref listed once gets its first matching record; a ref listed twice gets the second, or none |
| `DepGraph.RootNodes` | backend/app.py:149-162 | a key is a root iff no key's list contains it; roots keep key order and are distinct |
| `Hierarchy.Expand` | backend/app.py:123-146 | a ref on the path gives a circular leaf, checked before depth; beyond the limit a depth leaf; otherwise a node with its metadata and one subtree per listed child, in order |
| `Hierarchy.ExpandAll` | backend/app.py:145 | one subtree per child, in order, each expanded with the same path and depth |
| `Hierarchy.ExpandIsExpansion` | backend/app.py:125-145 | every result is a correct expansion: circular leaves name refs on the path, non-error refs on a root-to-node path are pairwise distinct, metadata and child order are as listed |
| `Hierarchy.ExpansionIsExpand` | backend/app.py:123-146 | a correct expansion is unique: it is the builder's result |
| `Hierarchy.ExpandDepthBounded` | backend/app.py:128-130 | no node lies deeper than the limit plus one, and every node at that depth is an error leaf, never a `Node` |
| `Parser.Forest` | backend/app.py:177 | one tree per root, in root order; each is a node, a correct expansion and depth-bounded |
| `Parser.ParseGraph` | backend/app.py:171-179 | fails exactly when every key is depended on by some key; otherwise one tree per root, in key order, each a node rooted at a key that no key depends on |
| `Parser.Parse` | backend/app.py:165-179 | raises exactly when the document's graph has no root; otherwise one tree per root, in root order, each a node that is its root's expansion and depth-bounded |
| `Parser.ConvertOutput` | original-script/original-script.py:61-67 | empty or missing text is rejected before decoding; otherwise the decoded document or a decode error |
| `Parser.ScriptTrees` | original-script/original-script.py:163-175 | the single error item exactly where the back end would raise; otherwise one item per back-end tree, in order |
| `Parser.ScriptParse` | original-script/original-script.py:151-175 | rejected text writes nothing; a document with no root writes exactly one error item; otherwise it writes the back end's trees |
| `Normalize.ResolveName` | script.js:220 | the display name is the first truthy of error, name, ref (script.js) or of name, ref (frontend/script.js); it is truthy iff one of them is |
| `Normalize.FrontendIgnoresError` | frontend/script.js:171 | frontend/script.js never consults `error`, and agrees with script.js whenever `error` is falsy |
| `Normalize.Transform` | script.js:214-229 | falsy input gives null; otherwise an object without `deps` or `ref`, with the resolved name, one child per `deps` item in order, each the item's own normalization, and every other own property carried over |
| `Normalize.TransformDeps` | script.js:221 | a falsy `deps` gives no children; otherwise one child per item, in order |
| `Normalize.TransformAll` | script.js:221 | succeeds with one result per item, in order, or fails because some item fails |
| `Normalize.TransformSucceedsIff` | script.js:221 | the normalizer throws exactly when some record, at any depth, has a truthy `deps` that is not an array |
| `Normalize.TwoLeafExample` | frontend/script.js:165-180 | a named root with a named and a ref-only dependency becomes a named root with two named leaves in both scripts |
| `Orchestrate.ContainerIdsDistinct` | script.js:271 | different indices give different drawing-area ids |
| `Orchestrate.CreateTreeContainer` | script.js:260-277 | throws exactly on a null element; otherwise the header is the element's truthy `name` or "Tree {index+1}", and the area id is `tree-container-{index}` |
| `Orchestrate.HeaderIgnoresRef` | frontend/script.js:214-217 | a tree known only by its ref gets the positional header although its resolved name is the ref |
| `Orchestrate.RenderMultipleTrees` | script.js:232-257 | a missing container changes nothing; otherwise the container is cleared first; a non-array is logged; an array yields one section and one job per element, in order, up to the first null element, which throws |
| `Orchestrate.ScheduleTrees` | script.js:247-256 | one section and one job per element, in order, up to the first null element; the loop throws exactly when there is one |
| `Render.RenderStep` | script.js:280-297 | drawing happens iff the area is found and both dimensions are nonzero; the size is never 0; the SVG fills the area except at the exact-zero fallback; negative sizes pass through |
| `Render.Settle` | frontend/script.js:236-240 | the first attempt that does not reschedule, with every earlier attempt rescheduling |
| `Render.SettleAfterThreeRetries` | frontend/script.js:236-246 | three 0 by 0 reports then 800 by 600 draws on the fourth attempt at 760 by 460 |
| `Render.LabelBox` | script.js:346-353 | the box is the text box padded 10 left and right and 5 above and below, centred on the node |
| `Render.FixedLabelBox` | frontend/script.js:290-301 | the box is the text width padded 10 left and right, 30 high, centred on the node |
| `Render.BoxesAgreeIff` | frontend/script.js:296-301 | the two scripts' boxes coincide iff the text is 20 high; a text taller than 30 overflows the fixed box |
| `Upload.ValidateFile` | script.js:27-35 | accepted iff size is at most 5 MiB and the type is exactly application/json; an oversized file is reported as oversized whatever its type |
| `Upload.Boundary` | frontend/script.js:22-34 | exactly 5 MiB passes, one byte more fails, and the message reads "5MB" |
| `Serialize.ToValue` | backend/app.py:126-146 | every tree becomes an object with its `ref` and a `deps` array holding one object per subtree, in order; an `error` string is present exactly on the circular and depth-limit leaves, whose `deps` is empty |
| `Serialize.BackendTreesNormalize` | script.js:218-222 | every back-end tree normalizes without throwing, keeps one child per dependency, and an error leaf is labelled with its message in script.js and its ref in frontend/script.js |

## Left out

- The tree layout of the drawing library (`d3.hierarchy`, `d3.tree().size`, `root.links`, `linkVertical`): it is foreign code. So are the properties that depend on it: coordinates within bounds, no sibling overlap, and one edge per parent-child pair.
- Text measurement (`getBBox`, `getComputedTextLength`): the measured width and height are parameters of `Render.LabelBox` and `Render.FixedLabelBox`.
- DOM manipulation, styling and the timing of `setTimeout` and `requestAnimationFrame`. A scheduled render is an `Orchestrate.Job`, and the retry chain is a sequence of observations in `Render.Settle`. Emptying the area before drawing is implied by `Render.Step.Draw`.
- File reading, `fetch`, `JSON.parse`, `json.loads` and `validateJSON`: the model starts from decoded values, and `Parser.ConvertOutput` takes the decoder as a parameter.
- The Flask route, CORS, rate limiting, `write_tree_to_json` and the module-level file read; `showTab`, `showError`, `downloadOutput`, `uploadFile` and the event listeners.
- `Serialize.ToValue` and `Serialize.BackendTreesNormalize`: a circular leaf's `error` text is modelled only up to and including "Path: ". In the source, a listing of the path follows, written from a Python set whose order is unspecified.
- `Orchestrate.CreateTreeContainer`: the header keeps the prefix and the label value apart. Turning a non-string `name` into template-literal text is not modelled.
- `Clean.CleanComponent`: the input is typed records. Components, licenses, properties and dependencies are objects, and bom-refs and refs are strings. Shapes that make the source raise `AttributeError` or `TypeError`, such as a `license` that is a string or a list used as a ref, are not modelled.
- `Clean.CleanOutput`: the `if metadata_component:` test is subsumed. A metadata component with a truthy bom-ref is never empty.
- `Clean.KeptRecords` and `Clean.IgnoredRefs` model the source's single loop as two functions over the same components.
- `Json.Prop` reads only own properties. This is exact for `name`, `error`, `ref` and `deps`, the only keys read, because no built-in prototype defines them.
- `Json.OwnProps`: a string's index keys are counted in Unicode scalar values. Object spread counts UTF-16 code units, so a character outside the Basic Multilingual Plane gives one key in the model and two in the browser. The normalizer only reaches this case when a tree record is a truthy string.
- Numbers are exact reals. NaN, infinities and `-0` are not modelled.
- `backend/app.py`'s own `convert_output` (lines 81-87) is never called by its `parser`. The script's copy is `Parser.ConvertOutput`.
