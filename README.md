# dash-sankey, modelled in Dafny

dash-sankey is a Dash component library that draws Sankey / parallel-set diagrams. Every diagram
node carries a list of ids (the records it stands for). A link between two nodes carries the ids
they share. A click or a hover selects an element (node, link, missing-in / missing-out stub or
layer) and lights the ids it carries.

This project models the part of the library that computes graphs and selections:

- `OverlapHelper`, the mutable id set every node, link and layer holds, and `classNames`
  (`src/lib/utils.ts`).
- The current graph model (`src/lib/internal/sankey/model.ts`):
  - `extractGraph`, which builds the nodes, the links between adjacent layers, the explicit
    nodes and links, the layer records and the `type:id` lookup behind `getOverlap`;
  - `extractLayers`;
  - `isSelected`.
- The current hooks (`src/lib/internal/sankey/hooks.ts`):
  - `useSelections`, with hover state, clicks and reset;
  - the empty-graph branch and the two reductions (`maxDepth`, `maxLayerY1`) of
    `useSankeyLayout`.
- The older component's model and hooks (`src/lib/components/sankey/`): `extractGraph` with a
  single `missing` set per node, depth-based `extractLayers`, `isSelected`, `select`,
  `resetSelection`, the selection context and the layout branch.
- `extractGraph` and `select` of the first component (`src/lib/components/DashSankey.tsx`).
- The selection routing of the faceted diagram (`src/lib/components/FacettedSankey.tsx`).

Form of the model:

- Objects whose state the source changes in place are classes with `modifies` frames and loop
  invariants:
  - `OverlapHelper`, whose JS `Set` is a duplicate-free `seq` in insertion order;
  - the internal node, whose `layer` field `extractLayers` writes back;
  - the layer record, whose `y0`, `y1`, `nodes` and id set grow as nodes join it;
  - the hooks' selection state.
- The loops of `extractGraph` and `extractLayers` are methods proved against specification
  functions:
  - `LayeredLinks.Links` gives the links the layered walk must produce, in order;
  - `Layers.Aggregate` gives the layer records `extractLayers` must produce;
  - `Wires` gives the explicit links, together with the condition under which the source throws.
- Selection logic without state (`isSelected`, `select`, facet routing) is written as functions
  and lemmas.

The d3-sankey layout engine is not modelled. The hooks receive its output, the laid-out nodes
and links, as a parameter.

Shared definitions:

- `IdSeqs` holds the id type (`Str | Num`, a JS string or number) and sequence-as-set operations:
  - `Dedup`: a `Set`'s insertion order;
  - `Only`: keep the ids in a set;
  - `Without`: drop the ids in a set;
  - `Overlap`: `Only` applied to the ids of two nodes.
- `Layers` holds the layer aggregation that both `extractLayers` variants share.
- `LayeredLinks` holds the walk over adjacent levels that all three `extractGraph` variants share.

## Model

| member | source | states |
|---|---|---|
| Utils.ClassNamesLength | src/lib/utils.ts:1-3 | the class string is the truthy arguments joined by single spaces: its length is their total length plus one per gap, and it is empty exactly when no argument is truthy |
| Utils.ClassNamesIgnoresFalsy | src/lib/utils.ts:1-3 | inserting a falsy argument (`false`, `null`, `undefined`, `""`) anywhere leaves the class string unchanged |
| Utils.KeptTextsEmpty | src/lib/utils.ts:2 | `filter(Boolean)` keeps nothing exactly when every argument is falsy |
| Utils.JoinLength | src/lib/utils.ts:2 | `join(sep)` of n parts has the parts' total length plus n-1 separators |
| Utils.OverlapHelper.constructor | src/lib/utils.ts:10-13 | the new set holds each given id once, in first-occurrence order; `has(v)` holds exactly for the given ids; `size` is the number of distinct ids |
| Utils.OverlapHelper.Elems | src/lib/utils.ts:15-17 | `elems` lists every member exactly once, in the set's insertion order, and its length is `size` |
| Utils.OverlapHelper.Size | src/lib/utils.ts:27-29 | `size` is the number of members |
| Utils.OverlapHelper.Length | src/lib/utils.ts:31-33 | `length` is an alias of `size`: the number of members |
| Utils.OverlapHelper.IsEmpty | src/lib/utils.ts:19-21 | `isEmpty` holds exactly when `size` is 0 |
| Utils.OverlapHelper.IsNotEmpty | src/lib/utils.ts:23-25 | `isNotEmpty` is the negation of `isEmpty` |
| Utils.OverlapHelper.Intersect | src/lib/utils.ts:35-46 | returns a new set whose members are the intersection, in the order of the argument's set; an empty receiver gives the empty set; intersecting a set with itself keeps its order |
| Utils.OverlapHelper.IntersectIds | src/lib/utils.ts:47-54 | with a plain id list: a new set holding the listed ids that are members, each once, in list order |
| Utils.OverlapHelper.Copy | src/lib/utils.ts:57-59 | a new set with the same members in the same order |
| Utils.CopyIsIndependent | src/lib/utils.ts:57-59 | removing ids from the original after `copy()` leaves the copy holding every id |
| Utils.OverlapHelper.IntersectUpdate | src/lib/utils.ts:61-75 | in place, and returns itself: keeps, in order, the members the other set has; an empty receiver is left as it was; an empty argument clears it |
| Utils.OverlapHelper.IntersectUpdateIds | src/lib/utils.ts:76-84 | the same with a plain id list: keeps the members that occur in the list |
| Utils.OverlapHelper.WithoutUpdate | src/lib/utils.ts:87-98 | in place, and returns itself: drops the members the other set has and keeps the order; the members only shrink; if either set is empty, nothing changes |
| Utils.OverlapHelper.AddUpdate | src/lib/internal/sankey/model.ts:97 | in place, and returns itself: appends the other set's members not yet held, in that set's order; the members become the union |
| Layers.Span | src/lib/internal/sankey/model.ts:84-86 | the length of the sparse layer array: larger than every layer index used, and exactly one past the largest one |
| Layers.AggregateKeys | src/lib/internal/sankey/model.ts:84-96 | a layer record exists exactly for the indices some node is given |
| Layers.AggregateHead | src/lib/internal/sankey/model.ts:86-91 | a record's `id` is its index written in decimal; its `name`, `x0` and `x1` come from the first node with that index |
| Layers.AggregateMembers | src/lib/internal/sankey/model.ts:94-100 | a record's `nodes` are exactly the nodes with its index, in input order |
| Layers.AggregateIds | src/lib/internal/sankey/model.ts:89-97 | a record's id set is the union of its nodes' id sets |
| Layers.AggregateExtent | src/lib/internal/sankey/model.ts:92-99 | a record's `y0` is the least and `y1` the greatest of its nodes' values, attained by one of them; a single undefined position makes the result NaN (`None`) |
| Layers.Layer.constructor | src/lib/internal/sankey/model.ts:86-95 | the record a layer's first node opens: id, name, extent, the node, and a copy of its id set |
| Layers.Place | src/lib/internal/sankey/model.ts:84-101 | one loop step: opens the record or joins the existing one, exactly as the aggregation function takes the next node |
| Layers.JoinLayer | src/lib/internal/sankey/model.ts:96-101 | joining a record grows its id set, `y0`, `y1` and `nodes` as the aggregation function says and touches no other record |
| Layers.Collect | src/lib/internal/sankey/model.ts:80-103 | the loop over the nodes builds exactly the records of the aggregation function, each a new object with a new id set, and the array length `Span` |
| Layers.MaxDepthIsMax | src/lib/internal/sankey/hooks.ts:112 | `maxDepth` is at least every node's depth (a missing depth counts as 0) and is 0 or one of them |
| Layers.PeakIsMax | src/lib/internal/sankey/hooks.ts:113 | `maxLayerY1` is NaN exactly when some record's `y1` is NaN; otherwise it is at least 0 and every `y1`, and equals 0 or one of them |
| LayeredLinks.LinksIff | src/lib/internal/sankey/model.ts:163-171 | the layered walk produces a link from node s of level i to node t of level i+1 exactly when the two share an id |
| LayeredLinks.LinkOverlap | src/lib/internal/sankey/model.ts:168 | a produced link's id set lists exactly the shared ids, each once, and is not empty |
| LayeredLinks.LinksOrdered | src/lib/internal/sankey/model.ts:163-171 | links come ordered by level, then by source, then by target |
| LayeredLinks.OutUnionLinks | src/lib/components/sankey/model.ts:114-134 | the ids a node's outgoing links carry are exactly its ids that occur in the next level |
| LayeredLinks.InUnionLinks | src/lib/internal/sankey/model.ts:163-171 | the ids a node's incoming links carry are exactly its ids that occur in the previous level |
| LayeredLinks.MissingOutLayered | src/lib/components/sankey/model.ts:120 | removing every outgoing link's ids from a node leaves its ids that are absent from the next level; in the last level, all of them |
| LayeredLinks.MissingInLayered | src/lib/internal/sankey/model.ts:144 | removing every incoming link's ids leaves the node's ids that are absent from the previous level |
| LayeredLinks.DemoWalk | src/lib/internal/sankey/model.ts:163-171 | for two levels of two nodes where only A2-B1 share no id, the links are A1-B1, A1-B2 and A2-B2, in that order |
| LayeredLinks.DemoLinks | src/demo/App.tsx:6-37 | on the demo levels the links are A1-B1 {1, 2}, A1-B2 {3} and A2-B2 {4, 5} |
| DashSankey.ExtractGraph | src/lib/components/DashSankey.tsx:100-139 | one node per input node, in level order, each with a new id set of its ids; the links are exactly the pairs of adjacent-level nodes that share an id, in walk order, each with id `a-b`, name `a → b`, value = number of shared ids, and its ends |
| DashSankey.BuildLevels | src/lib/components/DashSankey.tsx:101-112 | the nodes of every level, in order, each built from its input node |
| DashSankey.BuildLevel | src/lib/components/DashSankey.tsx:103-111 | one built node per input node of a level, carrying its data and a new id set |
| DashSankey.LinkLevels | src/lib/components/DashSankey.tsx:116-134 | the nested loops emit exactly the links of the layered walk, in order |
| DashSankey.LinkSources | src/lib/components/DashSankey.tsx:117-133 | handling one pair of adjacent levels extends the links by that pair's links |
| DashSankey.LinkTargets | src/lib/components/DashSankey.tsx:120-132 | handling one left node extends the links by its links into the next level |
| DashSankey.LinkPair | src/lib/components/DashSankey.tsx:121-131 | a link is pushed exactly when the two nodes share an id, and it is that pair's link |
| DashSankey.Select | src/lib/components/DashSankey.tsx:224-231 | the emitted selection: a helper's members, each once, in its insertion order, or the id list as given |
| DashSankey.ClickLink | src/lib/components/DashSankey.tsx:224-239 | clicking a link (`select(link.overlap.elems)`, whose overlap was built at lines 121-131) emits the ids its two nodes share, each once |
| DashSankey.ClickNode | src/lib/components/DashSankey.tsx:259 | clicking a node (`select(node.ids)`) emits its input node's raw ids, in order and with any duplicates |
| InternalModel.KeyInjective | src/lib/internal/sankey/model.ts:196-198 | different (type, id) pairs have different lookup keys `type:id`, so an entry never answers for another element |
| InternalModel.LastWithId | src/lib/internal/sankey/model.ts:180 | `new Map(nodes.map(d => [d.id, d]))`: for a repeated id, the last node with that id wins; a missing id finds nothing |
| InternalModel.NodeEntriesAt | src/lib/internal/sankey/model.ts:122-126 | the `node:`, `missing_in:` and `missing_out:` entries exist exactly for node ids and hold the matching set of the last node with that id; no other type gets a node entry |
| InternalModel.LinkEntriesAt | src/lib/internal/sankey/model.ts:145 | the `link:` entries exist exactly for link ids and hold the id set of the last link with that id |
| InternalModel.IsSelected | src/lib/internal/sankey/model.ts:202-208 | no selection and an id-array selection select nothing; a typed selection selects exactly the element with its type and id |
| InternalModel.InternalNode.constructor | src/lib/internal/sankey/model.ts:127-134 | a node takes its input's fields, `fixedValue` = number of ids, and the given sets; an own `layer` property of the input overrides the level index, and a `null` or `undefined` one leaves the node without a layer |
| InternalGraph.NewNode | src/lib/internal/sankey/model.ts:120-134 | a new node with three new and distinct id sets, each holding its distinct ids, and no position yet |
| InternalGraph.AsNode | src/lib/internal/sankey/model.ts:120-137 | `asNode` appends the new node, leaves the links alone, and keeps every stored id set and lookup entry correct |
| InternalGraph.AsLink | src/lib/internal/sankey/model.ts:139-156 | an empty overlap adds nothing; otherwise it appends the link `a-b` with value = overlap size, records the edge, and keeps every node's missing sets equal to its ids not carried by its links |
| InternalGraph.Unlink | src/lib/internal/sankey/model.ts:143-144 | removing the link's ids from the source's `missingOut` and the target's `missingIn` keeps each equal to its node's ids not carried by its outgoing (incoming) links, now including the new one |
| InternalGraph.MissingRemoved | src/lib/internal/sankey/model.ts:143-144 | the same fact as set arithmetic: removing one more link's ids from the uncovered ids leaves those uncovered by all the links |
| InternalExtract.AddRow | src/lib/internal/sankey/model.ts:159-161 | the nodes of one input layer are appended in order with that layer's index |
| InternalExtract.BuildTiers | src/lib/internal/sankey/model.ts:158-161 | the nodes of all input layers, in order, placed by layer and position, and no links yet |
| InternalExtract.LinkTiers | src/lib/internal/sankey/model.ts:163-171 | the walk adds exactly the links of the layered walk, in order, and the lookup holds every node and link entry |
| InternalExtract.LinkPair | src/lib/internal/sankey/model.ts:166-169 | one source-target pair extends the added links by that pair's link, if any |
| InternalExtract.Pair | src/lib/internal/sankey/model.ts:168 | the candidate overlap is the ids both nodes share; an edge is added exactly when it is not empty |
| InternalExtract.AddNodes | src/lib/internal/sankey/model.ts:174-178 | the explicit nodes are appended in order without a layer; no explicit nodes adds nothing |
| InternalExtract.Connect | src/lib/internal/sankey/model.ts:184-185 | an explicit link carries its own ids (each once) when it has an id list, else the ids its ends share; an edge is added exactly when that is not empty |
| InternalExtract.LinkOne | src/lib/internal/sankey/model.ts:181-186 | one explicit link: it fails exactly when an end is missing and the link would touch it, else it adds its wire |
| InternalExtract.AddLinks | src/lib/internal/sankey/model.ts:179-187 | the explicit links succeed exactly when none dereferences a missing end; the added edges are then exactly the planned wires, in order |
| InternalExtract.WiresFail | src/lib/internal/sankey/model.ts:181-186 | once one explicit link fails, the whole call fails: the throw aborts the rest |
| InternalExtract.LayeredMissingOut | src/lib/internal/sankey/model.ts:143 | after the layered walk, a node's `missingOut` holds its ids absent from the next layer |
| InternalExtract.LayeredMissingIn | src/lib/internal/sankey/model.ts:144 | after the layered walk, a node's `missingIn` holds its ids absent from the previous layer |
| InternalLayers.ExtractLayers | src/lib/internal/sankey/model.ts:70-104 | every node's layer is written back as its own layer or the rank of its `x0` among the sorted distinct positions; the records and the array length are those of the aggregation function over these indices |
| InternalLayers.AssignAll | src/lib/internal/sankey/model.ts:80-82 | each node's `layer` becomes its layer index, computed from the state before the loop |
| InternalLayers.Assign | src/lib/internal/sankey/model.ts:81-82 | one node: `layer ?? xPositionToLayer.get(x0)`, stored back |
| InternalSankey.ExtractGraph | src/lib/internal/sankey/model.ts:106-200 | returns exactly when the input completes (explicit links find their ends, no layer slot is left empty); the graph then holds the built nodes and links, the layer records, and the full lookup |
| InternalSankey.NullishLayerCompletes | src/lib/internal/sankey/model.ts:127-129 | a node whose own `layer` is `null`, alone in a second input layer after an empty first one, starts without a layer, lands in layer 0 (line 81), and `extractGraph` returns |
| InternalSankey.AbsentLayerGap | src/lib/internal/sankey/model.ts:127-129 | the same node with no own `layer` takes index 1, slot 0 stays empty, and `extractGraph` throws at `layer.id` (line 190) |
| InternalSankey.BuildGraph | src/lib/internal/sankey/model.ts:158-187 | nodes from layers and explicit nodes, then layered links, then explicit links; succeeds exactly when the explicit links do |
| InternalSankey.BuildNodes | src/lib/internal/sankey/model.ts:158-178 | the layered nodes and their links, then the explicit nodes |
| InternalSankey.BuildLayered | src/lib/internal/sankey/model.ts:158-172 | the input layers' nodes and the links between adjacent layers |
| InternalSankey.LinkData | src/lib/internal/sankey/model.ts:179-187 | no `links` adds nothing; otherwise success exactly when the wires resolve, with those wires added |
| InternalSankey.LinkLaid | src/lib/internal/sankey/model.ts:179-187 | the explicit links, added without changing any node's layer |
| InternalSankey.Conclude | src/lib/internal/sankey/model.ts:188-199 | the layer records and the `layer:` entries; succeeds exactly when the layer indices leave no gap |
| InternalSankey.Lay | src/lib/internal/sankey/model.ts:188 | `extractLayers` on the built nodes: their indices are written back and the records aggregate them |
| InternalSankey.Finish | src/lib/internal/sankey/model.ts:188-191 | the records and the lookup; succeeds exactly when the indices leave no gap |
| InternalSankey.IndexHeld | src/lib/internal/sankey/model.ts:189-191 | the `layer:` loop succeeds exactly when every slot below the length is filled |
| InternalSankey.IndexLayers | src/lib/internal/sankey/model.ts:189-191 | the loop over the layer slots succeeds exactly when none is empty, and it adds `layer:<k>` for each record |
| InternalSankey.SlotsFilled | src/lib/internal/sankey/model.ts:189-191 | every slot below the length is filled exactly when the node layer indices leave no gap |
| InternalSankey.LayerIndexKeys | src/lib/internal/sankey/model.ts:189-191 | after the loop a key is present exactly when it was before or it names a layer record; other entries keep their values |
| InternalSankey.LayerIndexAt | src/lib/internal/sankey/model.ts:190 | each `layer:<k>` key holds record k's id set |
| InternalSankey.IndexLookup | src/lib/internal/sankey/model.ts:189-191 | with no gap, node and link entries are untouched and `layer:<k>` exists exactly for k below the length |
| InternalSankey.KeyedLookup | src/lib/internal/sankey/model.ts:196-198 | `getOverlap` answers a node side with the last node of that id, `link` with the last link of that id, `layer` with record k; for any other key it finds nothing |
| InternalSankey.GetOverlap | src/lib/internal/sankey/model.ts:196-198 | the stored id set for `type:id`, or a new empty set when there is none |
| InternalHooks.ActiveIds | src/lib/internal/sankey/hooks.ts:151-154 | the lit ids of the committed selection: an array is its own list, a typed selection its `ids`, no selection none |
| InternalHooks.PickedWhileHovering | src/lib/internal/sankey/hooks.ts:185-188 | while an element is hovered, exactly that element is selected, whatever the committed selection |
| InternalHooks.PickedAtRest | src/lib/internal/sankey/hooks.ts:185-188 | with nothing hovered, exactly the committed typed selection's element is selected; an array or no selection selects nothing |
| InternalHooks.PickedUnique | src/lib/internal/sankey/hooks.ts:185-188 | at most one element is selected at a time |
| InternalHooks.ClickedIds | src/lib/internal/sankey/hooks.ts:156-166 | a click emits the ids of the clicked element's set, as the lookup finds it, or none when the lookup has no entry |
| InternalHooks.ClickedNode | src/lib/internal/sankey/hooks.ts:156-166 | clicking a node emits its distinct ids; clicking its `missing_in` stub, its ids no incoming link carries; its `missing_out` stub, its ids no outgoing link carries |
| InternalHooks.ClickedSets | src/lib/internal/sankey/hooks.ts:162 | the three node-side lookups find the node's own `overlap`, `missingIn` and `missingOut` |
| InternalHooks.BuildOthers | src/lib/internal/sankey/hooks.ts:142-145 | one entry per extra selection, in order, keeping its colour and ids and adding its own new id set |
| InternalHooks.Selections.constructor | src/lib/internal/sankey/hooks.ts:130-154 | first render: nothing hovered; the lit set holds the selection's ids; one id set per extra selection |
| InternalHooks.Selections.Rerender | src/lib/internal/sankey/hooks.ts:142-154 | new props replace the graph, the selection, its id set and the extra selections' id sets, and keep the hover state |
| InternalHooks.Selections.OnMouseEnter | src/lib/internal/sankey/hooks.ts:170-178 | hovering an element selects exactly it and lights its stored set, or a new empty set when the lookup has none |
| InternalHooks.Selections.OnMouseLeave | src/lib/internal/sankey/hooks.ts:179-181 | leaving restores the committed selection's picks and its lit set |
| InternalHooks.Selections.OnClick | src/lib/internal/sankey/hooks.ts:156-166 | a click emits a typed selection of the clicked element's type and id and the ids its set holds |
| InternalHooks.Selections.ResetSelection | src/lib/internal/sankey/hooks.ts:147-149 | emits the empty array selection |
| InternalHooks.LayoutAsWritten | src/lib/internal/sankey/hooks.ts:92-113 | the layout as written: no nodes gives empty output and `maxDepth` 0; otherwise the engine's output with layer records named as though no layers were passed, plus the two maxima |
| InternalHooks.Layout | src/lib/internal/sankey/hooks.ts:92-113 | the corrected layout: the same, with the records named after the input layers |
| InternalHooks.RecordName | src/lib/internal/sankey/model.ts:88 | a layer record is named after input layer k when there is one, else `Layer k` |
| InternalHooks.AsWrittenNames | src/lib/internal/sankey/hooks.ts:108 | as written, every laid-out record is named `Layer k`, and so differs from any input layer name that is not `Layer k` |
| InternalHooks.CorrectedNames | src/lib/internal/sankey/hooks.ts:108 | passing the input layers names each record after its layer |
| LegacyModel.ExtractGraph | src/lib/components/sankey/model.ts:92-140 | nodes in level order with new id sets; links exactly those of the layered walk; each node's `missing` is its ids absent from the next level; layer records aggregate the unplaced nodes |
| LegacyModel.BuildLevels | src/lib/components/sankey/model.ts:97-110 | the nodes of every level, in order, each with `missing` a copy of its ids |
| LegacyModel.BuildLevel | src/lib/components/sankey/model.ts:99-109 | one built node per input node, with new and distinct `overlap` and `missing` sets |
| LegacyModel.NewNode | src/lib/components/sankey/model.ts:100-106 | `{...d, overlap, fixedValue: d.ids.length, missing: overlap.copy()}` with two distinct new sets |
| LegacyModel.LinkLevels | src/lib/components/sankey/model.ts:114-134 | the loops emit exactly the links of the layered walk, and every `missing` ends without the ids of its outgoing links |
| LegacyModel.LinkSources | src/lib/components/sankey/model.ts:117-133 | one pair of adjacent levels: their links are added and their left nodes depleted |
| LegacyModel.LinkTargets | src/lib/components/sankey/model.ts:118-132 | one left node: its links into the next level are added and its `missing` loses their ids |
| LegacyModel.LinkPair | src/lib/components/sankey/model.ts:119-131 | one pair: its overlap leaves the left node's `missing`, and its link is pushed when the overlap is not empty |
| LegacyModel.Meet | src/lib/components/sankey/model.ts:119 | the overlap is a new set of the ids both nodes share |
| LegacyModel.Deplete | src/lib/components/sankey/model.ts:119-120 | computes the overlap and withdraws it from the left node's `missing` |
| LegacyModel.Withdraw | src/lib/components/sankey/model.ts:120 | `withoutUpdate` on the left node's `missing` advances the depletion by one pair |
| LegacyModel.DepleteSelf | src/lib/components/sankey/model.ts:120 | removing one more overlap leaves the node's ids not carried by the pairs walked so far |
| LegacyModel.DepleteOther | src/lib/components/sankey/model.ts:120 | a pair leaves the uncovered ids of every other node unchanged |
| LegacyModel.Emit | src/lib/components/sankey/model.ts:122-131 | a link exists exactly when the overlap is not empty, and it is that pair's link |
| LegacyModel.Push | src/lib/components/sankey/model.ts:122-131 | the pushed link list advances by one pair of the walk |
| LegacyModel.ConcatInputs | src/lib/components/sankey/model.ts:98-110 | the nodes pushed while mapping the levels are the levels' input nodes in order |
| LegacyModel.ConcatAt | src/lib/components/sankey/model.ts:107 | every node pushed is the node of some level and position |
| LegacyModel.DepletedStart | src/lib/components/sankey/model.ts:105 | before the walk, each `missing` holds all of its node's ids |
| LegacyModel.Unplaced | src/lib/components/sankey/model.ts:138 | the nodes as `extractGraph` hands them to `extractLayers`: no depth and no position |
| LegacyModel.LevelName | src/lib/components/sankey/model.ts:74 | level k's name when there is such a level, else `Layer k` |
| LegacyModel.EntriesOf | src/lib/components/sankey/model.ts:68-81 | each node contributes its depth (else 0), its ids, its position and the level name |
| LegacyModel.ExtractLayers | src/lib/components/sankey/model.ts:63-90 | the records and the array length are those of the aggregation function over the nodes' depths |
| LegacyModel.AllInLayerZero | src/lib/components/sankey/model.ts:138 | before layout, no node has a depth: every node lands in one record 0, named after level 0, whose ids are the union of all nodes' ids |
| LegacyModel.IsSelected | src/lib/components/sankey/model.ts:142-148 | selected exactly when the committed selection is typed with this type and id |
| LegacyHooks.ActiveIds | src/lib/components/sankey/hooks.ts:130-133 | the ids of the committed selection: an array itself, a typed selection its `ids`, none empty |
| LegacyHooks.Select | src/lib/components/sankey/hooks.ts:139-153 | `select(type, id, ids)` emits a typed selection with that type and id, whose ids are a helper's members each once in its insertion order, or the list as given |
| LegacyHooks.SelectThenPicked | src/lib/components/sankey/hooks.ts:139-161 | once the emitted selection comes back, exactly the clicked element is selected and the lit ids are the ones emitted |
| LegacyHooks.ResetSelection | src/lib/components/sankey/hooks.ts:155-157 | the reset selection selects no element and lights no id |
| LegacyHooks.SelectionContext | src/lib/components/sankey/hooks.ts:130-167 | the context keeps the selection and holds a new set of its ids and, in order, a new set per extra selection with its colour |
| LegacyHooks.IsPicked | src/lib/components/sankey/hooks.ts:161 | decided by the committed selection alone: selected exactly when it is typed with this type and id |
| LegacyHooks.Layout | src/lib/components/sankey/hooks.ts:92-113 | no levels: empty output, `maxDepth` 0 and `maxLayerY1` 0; otherwise the engine's output with records named after the levels, plus the two maxima |
| LegacyHooks.DepthLayer | src/lib/components/sankey/hooks.ts:108 | after layout a record k exists exactly when some node has depth k; its id is `k`, it lists those nodes in order and is named after level k |
| FacettedSankey.AsChild | src/lib/components/FacettedSankey.tsx:97 | a facet's diagram reads a faceted selection as an array or a typed one with the same type, id and ids |
| FacettedSankey.Forward | src/lib/components/FacettedSankey.tsx:81-84 | a facet receives an array selection, or none, unchanged, and a typed one exactly when it names that facet; otherwise it receives none |
| FacettedSankey.FacetObjects | src/lib/components/FacettedSankey.tsx:63-87 | one object per facet, in order, each keeping its facet and receiving its forwarded selection |
| FacettedSankey.ChildEmit | src/lib/components/FacettedSankey.tsx:67-80 | nothing reaches the host without `setProps`; otherwise the facet's emission passes with the same content, and a typed one is tagged with the facet's name |
| FacettedSankey.ResetSelection | src/lib/components/FacettedSankey.tsx:51-55 | without `setProps` nothing is emitted; with it, the empty array selection |
| FacettedSankey.ClickRoundTrip | src/lib/components/FacettedSankey.tsx:67-84 | a click in a facet comes back exactly to the facets of that name, where exactly the clicked element is selected and its ids lit |
| FacettedSankey.ResetRoundTrip | src/lib/components/FacettedSankey.tsx:51-84 | after a reset every facet receives the empty array: nothing is selected and no id is lit |

## Left out

- The d3-sankey layout engine (`sankeyGen`) is not modelled. The layout methods take its laid-out
  nodes and links as a parameter, and depths and positions are whatever it gives.
- Rendering is not modelled: SVG and JSX output, the React components (`SankeyNode`,
  `SankeyLink`, `SankeyLayer`, the missing-link stubs), `renderUtils.ts` and the Python wrappers.
  `useMemo`/`useCallback` identity, `useResizeObserver`, `deriveBox` and the padding and size
  arithmetic (floating point, such as `facetHeight`) are left out as well.
- Event plumbing (`preventDefault`, `stopPropagation`, reading `dataset.id`/`dataset.type`) is
  reduced to a `Target` value. The `setProps` calls are returned values, and a missing `setProps`
  is a boolean.
- Utils.OverlapHelper.AddUpdate: `addUpdate` is called by both `extractLayers` but is not
  defined in `src/lib/utils.ts`. It is modelled as an in-place union that appends the new ids in
  the argument's order.
- Utils.OverlapHelper.OfSet: a `Set` handed to the constructor is shared, not copied, in the
  source. The model gives the helper its own copy of the elements, so aliasing between a helper
  and a caller's `Set` is not captured. `intersect` builds a fresh `Set` every time, so no caller
  in the core can observe the difference.
- `Id` is `string | number` without JS equality corner cases. Positions are integers, and NaN
  (from `Math.min`/`Math.max` on an undefined position) is `None`.
- InternalLayers.ExtractLayers: the source's single loop both writes `node.layer` back and
  aggregates. The model runs two passes, index write-back and then aggregation. The result is
  the same because aggregation never reads `layer`.
- Layer indices are natural numbers. A negative explicit `layer` becomes a property the array
  loops do not see. That case is not modelled.
- The `TypeError`s of `extractGraph` are modelled as the `None` result. The two causes are an
  explicit link whose end is missing and a layer slot below the largest index that no node fills
  (`layer.id` of `undefined`).
- The link name in `src/lib/internal/sankey/model.ts:148` holds the mis-encoded arrow `â†’`, and
  the model keeps it literally.
- JS `sort` puts `undefined` last. A node without `x0` therefore gets the rank after every
  numeric position, so the `?? 0` fallback of `src/lib/internal/sankey/model.ts:81` never fires.
- The `facet` field of a faceted selection is always present, as the prop type requires
  (`src/lib/components/FacettedSankey.tsx:112`).
- Hover state exists only in the internal hooks. The older hooks keep none.
- The `isSelected`, `others` and `overlap` entries of the older hooks' context are modelled. Its
  `select` entry is `LegacyHooks.Select`.

## Findings

| source | as written | input that shows it | evidently intended | confidence | as-written member | corrected member |
|---|---|---|---|---|---|---|
| src/lib/internal/sankey/hooks.ts:108 | `extractLayers(g.nodes, isArray(levels) ? levels : undefined)`, where `levels` is the `{layers, nodes, links}` object and never an array, so the layer names are dropped | `levels = {layers: [{name: 'A', nodes: [n]}]}` with one laid-out node in layer 0: the record is named `Layer 0` instead of `A` | pass `levels.layers`, so that laid-out records carry the input layer names as `extractGraph` does (`src/lib/internal/sankey/model.ts:88`) | high (not executed) | InternalHooks.AsWrittenNames | InternalHooks.CorrectedNames |
