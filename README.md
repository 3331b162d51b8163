# diagen core, modelled in Dafny

diagen is a Python library for drawing diagrams in code.

- Nodes are created with factories. A node may be opened as a `with` block: nodes created inside the block become its children.
- Edges join nodes or ports, which are sides of a node.
- Every node and edge carries a property record. Named styles and prefix rules (classes such as `size-5` or `col-2/3`) fill that record, and the record is then scaled.
- A layout pass mirrors the node tree into layout nodes. It sizes each node through its layout, either a box (children stacked along one axis) or a grid (children auto-placed into tracks), and places the children.
- The positioned tree is turned into a draw.io (mxGraph) element tree. Nodes and edges get `diagen-N` ids, ports become small invisible cells, and the page takes the root's size.

This project models that core and proves what the code promises about it:

- the layout engine (`Box`, `Grid`, `Arena`, `LayoutTree`);
- the axis helpers (`Utils`);
- the node, port and edge model (`Nodes`);
- the style cascade (`StyleMap`, `Styles`);
- the element builders (`Drawio`);
- the C4 label formatter (`C4`).

Python's dict, `str.split`/`partition` and `int`/`float`/`str` on numbers are modelled in `Dict` and `Text`. `Props` holds the property records and the faults the code can raise.

- Stateful parts are classes whose methods are proved against specification functions:
  - the layout tree with its size, grid-cell and real-parent caches (`LayoutTree.Tree`);
  - the style map and its rule cache (`StyleMap.StyleMap`);
  - nodes and edges (`Nodes.Node`, `Nodes.Edge`);
  - the `with`-block context (`Nodes.Context`).
- Loops are methods with invariants: grid placement, offsets, port-slot allocation, box and grid arrangement over an array of positions, and the id-assigning loops of `make_model`.
- Python exceptions are `Err` values of `Props.Result`, which say which exception would be raised.

## Model

| member | source | states |
|---|---|---|
| `Utils.Other` | diagen/layouts/box.py:28 | `[1, 0][a]` is the other axis |
| `Utils.Dtup2` | diagen/utils.py:6-10 | direction 0 keeps (v1, v2); every other direction swaps them |
| `Utils.Dtup2Places` | diagen/utils.py:6-10 | v1 lands on the main axis of the direction and v2 on the other axis |
| `Utils.Dtup2Twice` | diagen/utils.py:6-10 | applying `dtup2` twice with the same direction restores the pair |
| `Utils.Dtup2Read` | diagen/utils.py:6-10 | reading a pair as (main, cross) and building it back with `dtup2` gives the pair |
| `Utils.Mux2` | diagen/utils.py:13-17 | pos 0 replaces only the first component; any other pos replaces only the second |
| `Utils.Mux2Idempotent` | diagen/utils.py:13-17 | writing back the current component changes nothing |
| `Utils.MaxOf` | diagen/layouts/box.py:23 | `max` of a non-empty sequence is an upper bound that occurs in it |
| `Box.BoxSize` | diagen/layouts/box.py:10-23 | the size raises (empty `max`) exactly on the cross axis of a childless box; across, it is both paddings plus the largest child extent |
| `Box.Arrange` | diagen/layouts/box.py:25-37 | writes each child's position as the box formula gives it and no other array slot |
| `Box.MainStartStep` | diagen/layouts/box.py:32-37 | each next child starts one gap after the previous child ends |
| `Box.NoOverlap` | diagen/layouts/box.py:34-37 | with non-negative gaps and extents, an earlier child ends before any later child starts on the main axis |
| `Box.FillsMainAxis` | diagen/layouts/box.py:15-21 | `size` and `arrange` agree: the last child ends one trailing padding before the box's far edge |
| `Box.CrossAlignment` | diagen/layouts/box.py:36 | `align[0]` -1 is flush at the start, 0 centres and 1 is flush at the end; values in between keep a fitting child inside |
| `Arena.ChildIdsBounds` | diagen/layouts/__init__.py:34-38 | the children's indices ascend and stay inside the parent's block of the pre-order array |
| `Arena.MirrorBlock` | diagen/layouts/__init__.py:34-38 | mirroring a domain node gives one layout node per domain node, each child linked to its parent |
| `Arena.MirrorAllBlock` | diagen/layouts/__init__.py:37 | mirroring a list of children links each one to the given parent, in order |
| `Arena.BuildWellFormed` | diagen/layouts/__init__.py:34-38 | the layout tree has one node per domain node; every child names its parent, and every node except the root is one child |
| `Arena.MirrorMatches` | diagen/layouts/__init__.py:36 | each layout node mirrors one domain node: same node, same props, same number of children in the same order |
| `Arena.MirrorAllMatches` | diagen/layouts/__init__.py:37 | the mirrors of a child list match the flattened children in order |
| `Arena.BuildMatches` | diagen/layouts/__init__.py:34-38 | the tree built from the root matches the root's pre-order flattening, with the root first |
| `Arena.Walk` | diagen/layouts/__init__.py:56-59 | `walk` yields only nodes after the start node, never the node itself |
| `Arena.WalkFrom` | diagen/layouts/__init__.py:57-59 | the walk from the k-th child on yields only later nodes |
| `Arena.WalkMirror` | diagen/layouts/__init__.py:56-59 | in a built tree, `walk` yields exactly the node's subtree after it, in pre-order |
| `Arena.WalkMembers` | diagen/layouts/__init__.py:56-59 | a node is walked exactly when it is a child or lies in a child's walk |
| `Arena.WalkChild` | diagen/layouts/__init__.py:57-59 | every child and everything below it is walked |
| `Arena.WalkIsChildren` | diagen/layouts/__init__.py:56-59 | everything walked is a child of the start node or of a walked node |
| `Arena.OneParent` | diagen/layouts/__init__.py:34-38 | no layout node is listed as a child twice |
| `Arena.WalkAll` | diagen/layouts/__init__.py:56-59 | from the root, `walk` yields every other node once, in pre-order |
| `Arena.MapOfEntries` | diagen/layouts/__init__.py:63 | the comprehension's keys are the walked nodes' domain nodes; a later entry wins |
| `Arena.NodeMapEntries` | diagen/layouts/__init__.py:62-65 | `node_map` maps the root's domain node to the root and every walked domain node to a walked layout node |
| `Arena.NodeMapOfBuild` | diagen/layouts/__init__.py:62-65 | with distinct domain nodes, every domain node maps to its own layout node |
| `Arena.Ancestors` | diagen/layouts/__init__.py:24-31 | the ancestor chain lists only earlier nodes |
| `Arena.FirstReal` | diagen/layouts/__init__.py:27-30 | the index of the first non-virtual node in a chain is at most its length |
| `Arena.FirstRealIsFirst` | diagen/layouts/__init__.py:27-30 | every node before that index is virtual, and the one at it is not |
| `Arena.RealParentIsNearestReal` | diagen/layouts/__init__.py:24-31 | `real_parent` is the nearest non-virtual ancestor, and it raises when there is none |
| `Grid.NextSpan` | diagen/layouts/grid.py:18-30 | the end is always past the start |
| `Grid.NextSpanMeaning` | diagen/layouts/grid.py:18-30 | the start is offset by the cursor when relative; a relative end is a length; an absolute end <= 0 counts back from a truthy max size |
| `Grid.Place` | diagen/layouts/grid.py:64-84 | one child's cell belongs to that child and spans at least one track per axis |
| `Grid.PlaceIs` | diagen/layouts/grid.py:64-84 | the cell comes from the two `next_span` calls; a start behind the cursor takes a new row, and overflowing a declared max wraps to column 1 of the next row |
| `Grid.PlaceWraps` | diagen/layouts/grid.py:65-84 | the cursor after a placement, in cell coordinates: the wrap and no-wrap cases, and the running max end |
| `Grid.Placement` | diagen/layouts/grid.py:64-84 | one cell per child, in child order, each spanning at least one track |
| `Grid.PlacementStep` | diagen/layouts/grid.py:64-84 | placing n+1 children places n, then the next one from the cursor they leave |
| `Grid.TrackCellsMembers` | diagen/layouts/grid.py:77-80 | a track's list holds exactly the cells that cover it |
| `Grid.Register` | diagen/layouts/grid.py:77-80 | appending a cell to every track it covers keeps each track's list equal to the covering cells, in order |
| `Grid.TrackSize` | diagen/layouts/grid.py:88-95 | a track's size is the largest child extent divided by span among its cells, or 0 for an empty track |
| `Grid.TrackSizes` | diagen/layouts/grid.py:88-95 | one size per track, each the size of that track |
| `Grid.ListSizesAreTrackSizes` | diagen/layouts/grid.py:88-95 | sizing from the registered dict lists gives the track sizes of the cells |
| `Grid.Count` | diagen/layouts/grid.py:86-87 | the track count is the largest cell end |
| `Grid.Offsets` | diagen/layouts/grid.py:100-106 | count+1 offsets, starting at the leading padding |
| `Grid.CellsOf` | diagen/layouts/grid.py:48-110 | `cells` raises (empty `max`) exactly for a childless grid; otherwise one cell per child in order, with offset lists |
| `Grid.Accumulate` | diagen/layouts/grid.py:100-106 | the offset loop computes the offsets |
| `Grid.PlaceAll` | diagen/layouts/grid.py:59-84 | the placement loop yields the placement's cells and registers each in its columns and rows |
| `Grid.PlaceNext` | diagen/layouts/grid.py:65-84 | the loop body computes one placement step |
| `Grid.ComputeCells` | diagen/layouts/grid.py:54-110 | `cells` returns `CellsOf`, with the column and row lists registered |
| `Grid.PyIndex` | diagen/layouts/grid.py:120-122 | a Python list index is valid exactly when it lies in [-n, n) |
| `Grid.Arrange` | diagen/layouts/grid.py:113-127 | each child is placed at the formula's position until a cell indexes past the offsets (IndexError); nothing else is written |
| `Grid.OffsetsClosedForm` | diagen/layouts/grid.py:100-106 | offset k is the padding plus the first k tracks plus k gaps |
| `Grid.OffsetsNondecreasing` | diagen/layouts/grid.py:100-106 | with non-negative tracks and gap, offsets never decrease |
| `Grid.CellsOfSized` | diagen/layouts/grid.py:86-106 | the offset lists are built from the track sizes and counts |
| `Grid.LastOffset` | diagen/layouts/grid.py:35-45 | the last offset minus a gap is the padding plus all tracks plus the gaps between them |
| `Grid.GridSizeClosedForm` | diagen/layouts/grid.py:35-45 | a grid's size is both paddings plus all tracks plus the gaps between tracks |
| `Grid.TrackAtLeastShare` | diagen/layouts/grid.py:88-95 | every covered track is at least the cell's share of its child |
| `Grid.TrackSizesHoldShares` | diagen/layouts/grid.py:88-95 | the computed tracks hold every cell's share |
| `Grid.SpanHoldsChild` | diagen/layouts/grid.py:88-95 | the tracks a cell spans add up to at least its child's extent |
| `Grid.CellFitsItsTracks` | diagen/layouts/grid.py:113-127 | with non-negative gaps and alignment in [-1, 1], each child lies inside the window of its tracks |
| `Grid.CellsOfLaidOver` | diagen/layouts/grid.py:86-106 | the grid's offsets are laid over the computed track sizes |
| `Grid.AlignInFits` | diagen/layouts/grid.py:121-126 | a child that fits its window stays inside it for any alignment in [-1, 1] |
| `Grid.AlignInEnds` | diagen/layouts/grid.py:121-126 | alignment -1 is flush at the window's start, 1 at its end, and 0 centres |
| `LayoutTree.SizeAsWrittenFails` | diagen/layouts/__init__.py:20-22 | as written, every node's size raises |
| `LayoutTree.LayoutSizeFails` | diagen/layouts/box.py:20 | a child's size fault becomes the layout's fault |
| `LayoutTree.LayoutSizeOk` | diagen/layouts/box.py:10-23 | a node with children whose sizes exist has a size on both axes |
| `LayoutTree.LayoutSizeFault` | diagen/layouts/grid.py:86-95 | the only fault a layout's size adds is the empty `max` |
| `LayoutTree.ChildSizesFirstFault` | diagen/layouts/box.py:20 | children are sized in order, and the first failing child's fault is raised |
| `LayoutTree.ChildSizesOk` | diagen/layouts/box.py:20 | the children's sizes exist exactly when every child's does |
| `LayoutTree.ChildSizesValues` | diagen/layouts/box.py:20 | each listed child size is that child's size |
| `LayoutTree.SizeFaultIsEmptyMax` | diagen/layouts/__init__.py:20-22 | every size fault is the empty `max` |
| `LayoutTree.ExplicitSizeWins` | diagen/layouts/__init__.py:20-22 | a non-negative declared extent is the size on that axis, and a fully declared size is the size |
| `LayoutTree.SizedLeavesSizeAll` | diagen/layouts/__init__.py:20-22 | when every leaf declares both extents, every node has a size |
| `LayoutTree.BoxNodeArranges` | diagen/layouts/box.py:25-37 | with sized leaves, a box node always arranges its children |
| `LayoutTree.BoxPositions` | diagen/layouts/box.py:34-37 | one position per child, each the box formula's |
| `LayoutTree.GridPositions` | diagen/layouts/grid.py:118-127 | positions exist exactly when every cell's offsets exist; otherwise IndexError |
| `LayoutTree.ChildPositions` | diagen/layouts/__init__.py:45 | a node's layout gives one position per child |
| `LayoutTree.GridCellsShape` | diagen/layouts/grid.py:64-76 | a grid's cells, when they exist, are one per child in order, and all children are sized |
| `LayoutTree.SiblingsDisjoint` | diagen/layouts/__init__.py:56-59 | two different children's subtrees share no node |
| `LayoutTree.PlaceGrid` | diagen/layouts/grid.py:113-127 | arranging a grid succeeds exactly when its positions exist, and it writes them to the children only |
| `LayoutTree.CellsFromSizes` | diagen/layouts/grid.py:48-110 | given the children's sizes, computes the node's grid cells |
| `LayoutTree.Tree.constructor` | diagen/layouts/__init__.py:50-51 | the tree is built from the root, its caches are empty and every position starts at (0, 0) |
| `LayoutTree.Tree.Size` | diagen/layouts/__init__.py:20-22 | returns the node's size and caches it; a cached size is returned without change |
| `LayoutTree.Tree.LayoutSizeOf` | diagen/layouts/box.py:10-23 | returns the layout's size on one axis, keeping the caches valid |
| `LayoutTree.Tree.Cells` | diagen/layouts/grid.py:48-52 | returns the node's grid cells and memoizes them; a second call returns the stored value |
| `LayoutTree.Tree.ChildSizesOf` | diagen/layouts/box.py:20 | returns the children's sizes, in order |
| `LayoutTree.Tree.RealParentOf` | diagen/layouts/__init__.py:24-31 | returns the real parent and caches it |
| `LayoutTree.Tree.ArrangeNode` | diagen/layouts/__init__.py:45 | runs the node's layout; on success its children stand at their positions, and only children are written |
| `LayoutTree.Tree.ArrangeBox` | diagen/layouts/box.py:25-37 | a box node's `arrange`, as `ArrangeNode` states it |
| `LayoutTree.Tree.ArrangeGrid` | diagen/layouts/grid.py:113-127 | a grid node's `arrange`, as `ArrangeNode` states it |
| `LayoutTree.Tree.ArrangeFrom` | diagen/layouts/__init__.py:41-47 | `_arrange` succeeds exactly when no layout in the subtree raises; then every node with children has placed them, and nothing outside the subtree moves |
| `LayoutTree.Arrange` | diagen/layouts/__init__.py:50-53 | `arrange` builds the tree, arranges it from the root, and leaves the root at (0, 0) |
| `Nodes.Align` | diagen/nodes.py:49-55 | each axis takes the node's own alignment, or the parent's where that is None |
| `Nodes.AlignFallback` | diagen/nodes.py:49-55 | a fully set alignment ignores the parent; an unset one is the parent's; resolving twice changes nothing |
| `Nodes.SplitMembers` | diagen/nodes.py:35-36 | strings go to the label and nodes to the children, and nothing else does |
| `Nodes.SplitCount` | diagen/nodes.py:35-36 | every argument goes to exactly one of the two lists |
| `Nodes.LabelsAppend` | diagen/nodes.py:35 | the label keeps the arguments' order |
| `Nodes.ChildrenAppend` | diagen/nodes.py:36 | the children keep the arguments' order |
| `Nodes.Context.constructor` | diagen/nodes.py:20 | no `with` block is open at first |
| `Nodes.AdoptedMembers` | diagen/nodes.py:64-67 | a node is adopted exactly when it was created in the block and was not already an explicit child |
| `Nodes.AdoptedDistinct` | diagen/nodes.py:64-67 | no node is adopted twice |
| `Nodes.AdoptedAppend` | diagen/nodes.py:64-67 | adoption proceeds in creation order, and a node adopted earlier is not adopted again |
| `Nodes.Node.constructor` | diagen/nodes.py:30-47 | the label/children split, every child marked added, and the new node appended to the open block |
| `Nodes.Node.Enter` | diagen/nodes.py:57-59 | opens a fresh empty block and saves the previous one |
| `Nodes.Node.Exit` | diagen/nodes.py:61-67 | restores the saved block and appends the adopted nodes, in creation order, to the children |
| `Nodes.Node.EdgePositions` | diagen/nodes.py:95-125 | computes the slot table once and caches it |
| `Nodes.IsolateEnter` | diagen/nodes.py:248-251 | `isolate` opens a fresh block |
| `Nodes.IsolateExit` | diagen/nodes.py:252-254 | leaving `isolate` restores the enclosing block |
| `Nodes.AdoptedExample` | tests/test_layout.py:83-89 | of three created nodes, the one already a child is skipped |
| `Nodes.ContextManagerBlock` | tests/test_layout.py:84-86 | the block's creations join the open list and mark the explicit child |
| `Nodes.ContextManagerScenario` | tests/test_layout.py:83-89 | `s.children == [n1, n2]` and `n2.children == [n3]` |
| `Nodes.IsolateScenario` | tests/test_nodes.py:84-102 | a node created under `isolate` does not attach to the enclosing block; without it, it does |
| `Nodes.GetItemChanges` | diagen/nodes.py:140-150 | `[int]` sets only the index, `[float]` only the position, and a class list appends to a copy of the classes |
| `Nodes.GetItemCommutes` | diagen/nodes.py:140-144 | setting an index and setting a position commute |
| `Nodes.GetItemOverrides` | diagen/nodes.py:140-144 | a second index or position replaces the first |
| `Nodes.GetItemAccumulates` | diagen/nodes.py:146-150 | class lists accumulate |
| `Nodes.Edge.constructor` | diagen/nodes.py:165-170 | an edge starts without an id and with the given record, ends and label |
| `Nodes.Edge.ApplyPortStyles` | diagen/nodes.py:180-185 | a port's classes, prefixed, are resolved onto the edge's record |
| `Nodes.Prefixed` | diagen/nodes.py:184 | each class gets the prefix, in order |
| `Nodes.NewEdge` | diagen/nodes.py:157-178 | the edge joins its source's edges, then its target's (if the start-port styles did not raise); the record is port-styled and then evaluated |
| `Nodes.NodePorts` | diagen/nodes.py:190-193 | the edge's ends that are ports on the node, at most two |
| `Nodes.FirstFree` | diagen/nodes.py:118-120 | the first slot from c that is not reserved |
| `Nodes.FirstFreeSkips` | diagen/nodes.py:118-120 | every slot skipped on the way is reserved |
| `Nodes.Counter` | diagen/nodes.py:110-121 | the per-side free-slot counter never goes negative |
| `Nodes.Assigned` | diagen/nodes.py:110-124 | one table per side |
| `Nodes.CountPorts` | diagen/nodes.py:99-108 | the first loop computes per-side counts, reserved indices and the max index + 1 |
| `Nodes.ComputePositions` | diagen/nodes.py:96-125 | `edge_positions` computes the slot tables |
| `Nodes.NextFree` | diagen/nodes.py:118-120 | the `while` loop finds the first free slot |
| `Nodes.AssignedLast` | diagen/nodes.py:114-124 | an explicit position is used verbatim; otherwise (index or free slot + 1) / (max(count, maxidx1) + 1) |
| `Nodes.AssignedOnly` | diagen/nodes.py:111-124 | only the node's ports get an entry, on their side |
| `Nodes.CounterMonotone` | diagen/nodes.py:118-121 | the counter never decreases |
| `Nodes.FreeSlots` | diagen/nodes.py:117-121 | unindexed ports on one side get increasing slots that skip every reserved index |
| `Nodes.FreeSlotBound` | diagen/nodes.py:117-124 | a free slot stays below the side's port count |
| `Nodes.MaxIdx1Bound` | diagen/nodes.py:106-108 | every index is below the side's max index + 1 |
| `Nodes.SlotValueInside` | diagen/nodes.py:124 | with non-negative indices, every computed position lies strictly between 0 and 1 |
| `StyleMap.ParseItemsKeys` | diagen/stylemap.py:38-40 | the parsed style has one key per distinct non-empty item key, and no other key |
| `StyleMap.LastItemWins` | diagen/stylemap.py:38-40 | a repeated key takes its last value |
| `StyleMap.GetStyleCases` | diagen/stylemap.py:24-42 | None gives {}, a dict is returned as is, a string is parsed, and anything else raises |
| `StyleMap.StyleCache.constructor` | diagen/stylemap.py:21 | the module cache starts empty |
| `StyleMap.StyleCache.Lookup` | diagen/stylemap.py:31-42 | returns `get_style`'s value, caches a parsed string, and never changes a cached entry |
| `StyleMap.MergeDrawioStyleGet` | diagen/stylemap.py:57-65 | new keys win; listed `@pop` keys are removed and others kept; `@pop` never appears in the result; a non-list `@pop` raises |
| `StyleMap.ValuePrefixes` | diagen/stylemap.py:90 | at most one prefix per rule |
| `StyleMap.ValuePrefixesSpec` | diagen/stylemap.py:90 | exactly the value-taking rules' prefixes |
| `StyleMap.Alternatives` | diagen/stylemap.py:91 | the regular expression always has at least one alternative |
| `StyleMap.Line` | diagen/stylemap.py:91 | `(.+)` takes the value up to the first newline |
| `StyleMap.FirstMatch` | diagen/stylemap.py:100 | a reported match is a matching alternative |
| `StyleMap.FirstMatchEarliest` | diagen/stylemap.py:100 | it is the earliest registered matching prefix, and no match means none matches |
| `StyleMap.LastRuleIndex` | diagen/stylemap.py:92 | the prefix map's entry is a rule with that prefix |
| `StyleMap.LastRuleIndexLatest` | diagen/stylemap.py:92 | it is the last rule registered with that prefix |
| `StyleMap.RuleValueNone` | diagen/stylemap.py:100-102 | `_rule_value` gives None exactly when no alternative matches |
| `StyleMap.RuleValueFirstPrefix` | diagen/stylemap.py:94-106 | a match takes the earliest prefix, and the value is the non-empty rest of the line after `<prefix>-` |
| `StyleMap.NoSuchRuleOnlyWithoutValueRules` | diagen/stylemap.py:89-106 | the KeyError for prefix '' occurs only with no value-taking rule and a class of the form `-x` |
| `StyleMap.Record.constructor` | diagen/stylemap.py:144 | a record holds the given attributes |
| `StyleMap.MergeOverwrites` | diagen/stylemap.py:127-129 | `merge` overwrites the given keys and merges `drawio_style` rather than replacing it |
| `StyleMap.ApplyPropsSingle` | diagen/stylemap.py:135-139 | `resolve_props` of one record is that record's step |
| `StyleMap.ApplyClassesAppend` | diagen/stylemap.py:115-123 | classes apply left to right, and a fault stops the rest |
| `StyleMap.LastClassWins` | diagen/stylemap.py:115-123 | a later class overrides the keys it sets |
| `StyleMap.OwnKeysWin` | diagen/stylemap.py:137-139 | a record's own keys win over its nested classes |
| `StyleMap.UnknownClassRaised` | diagen/stylemap.py:116-123 | a class that is neither a style nor a rule raises, and that error names such a class |
| `StyleMap.UnknownFromClasses` | diagen/stylemap.py:108-125 | an unknown-class error from `resolve_classes` names an unknown class |
| `StyleMap.UnknownFromProps` | diagen/stylemap.py:131-141 | likewise for `resolve_props` |
| `StyleMap.StyleMap.constructor` | diagen/stylemap.py:75-80 | no styles, rules or cached lookups |
| `StyleMap.StyleMap.Update` | diagen/stylemap.py:82-83 | the styles are updated as a dict update |
| `StyleMap.StyleMap.AddRules` | diagen/stylemap.py:85-87 | the rules are extended and the rule cache is reset |
| `StyleMap.StyleMap.RuleValue` | diagen/stylemap.py:94-106 | `_rule_value` gives the match for the current rules and caches it |
| `StyleMap.StyleMap.DefaultProps` | diagen/stylemap.py:143-144 | a fresh copy of the defaults |
| `StyleMap.StyleMap.Merge` | diagen/stylemap.py:127-129 | updates the record as `merge` specifies |
| `StyleMap.StyleMap.ApplyClass` | diagen/stylemap.py:116-123 | one class step of `resolve_classes` |
| `StyleMap.StyleMap.ApplyStyle` | diagen/stylemap.py:116-117 | a named style is resolved as a record |
| `StyleMap.StyleMap.ApplyRule` | diagen/stylemap.py:119-123 | a rule's result is merged, or the class is unknown |
| `StyleMap.StyleMap.ResolveClasses` | diagen/stylemap.py:108-125 | a string is split on white space, the classes apply in order onto the given record or fresh defaults, and that record is returned |
| `StyleMap.StyleMap.ApplyRecord` | diagen/stylemap.py:135-139 | nested classes first, then the record's own keys |
| `StyleMap.StyleMap.ResolveProps` | diagen/stylemap.py:131-141 | the records apply in order onto the given record or fresh defaults |
| `StyleMap.StaleRuleCache` | diagen/stylemap.py:85-106 | as written, a class looked up before a same-prefix rule is added keeps the old rule's function |
| `Styles.PyIndex` | diagen/styles.py:32-33 | a Python list index, negative ones counting from the end |
| `Styles.ReplaceAtSpec` | diagen/styles.py:31-34 | exactly the listed positions are replaced; an invalid position raises |
| `Styles.ReplaceAtList` | diagen/styles.py:31-34 | the assignment loop replaces the listed positions |
| `Styles.SetAtSpec` | diagen/styles.py:26-38 | with positions, `setAt` returns the tuple with those positions set to `float(value)` and the rest kept |
| `Styles.GridColSpan` | diagen/styles.py:61-64 | "n/k" gives (n, n+k) |
| `Styles.GridColRange` | diagen/styles.py:66-71 | "n:m" gives (n, m) |
| `Styles.GridColOpen` | diagen/styles.py:66-73 | "n:" gives (n, 0) |
| `Styles.GridColSingle` | diagen/styles.py:74-75 | "n" gives (n, n+1) |
| `Styles.PMux2Agrees` | diagen/styles.py:94 | the record-level `mux2` is `Utils.Mux2` |
| `Styles.SetAlignSpec` | diagen/styles.py:82-96 | only the chosen axis changes, to the parsed value |
| `Styles.AlignKeywords` | diagen/styles.py:85-90 | start, center and end are -1, 0 and 1 |
| `Styles.NodeSizePair` | diagen/styles.py:99-103 | "h/t" gives (h, t) |
| `Styles.NodeSizeSquare` | diagen/styles.py:99-103 | "h" and "h/" give (h, h) |
| `Styles.NodeSizeSquareExample` | tests/test_nodes.py:70-72 | size-5 at scale 4 gives (20, 20) |
| `Styles.NodeSizePairExample` | tests/test_nodes.py:74-75 | size-5/3 at scale 4 gives (20, 12) |
| `Styles.LabelPositionRange` | diagen/styles.py:110-113 | a first value with abs > 1 is rescaled into (-1, 1]; others are kept |
| `Styles.LabelOffsetParts` | diagen/styles.py:106-118 | each non-empty part is parsed, and an empty part keeps the current component |
| `Styles.LabelOffsetNumerals` | diagen/styles.py:106-118 | "a/b" gives (position of a, b) |
| `Styles.LabelOffsetDistance` | diagen/styles.py:106-118 | "/b" keeps the first component |
| `Styles.LabelOffsetPercentExample` | tests/test_nodes.py:78-81 | label-75/10 gives (0.5, 10) |
| `Styles.LabelOffsetDistanceExample` | tests/test_nodes.py:78-81 | then label-/20 gives (0.5, 20), before scaling |
| `Styles.DashedForms` | diagen/styles.py:129-133 | "a-b" gives dashPattern "a b", and "a" gives "a a", always with dashed=1 |
| `Styles.ShadowForms` | diagen/styles.py:136-147 | shadow=1 with the blur, and an opacity only when given |
| `Styles.CstyleSwitches` | diagen/styles.py:318-320 | merging a `cstyle` removes the conflict keys and sets its own |
| `Styles.DefaultLabelLines` | diagen/styles.py:22-23 | for lines without a newline, the default label splits back into the lines |
| `Styles.ReplaceGet` | diagen/styles.py:46-56 | `replace` keeps every field except the changed ones, in order |
| `Styles.ScaleAllSpec` | diagen/styles.py:48-55 | every component is multiplied by the scale; a non-number raises |
| `Styles.ScaleTupleSpec` | diagen/styles.py:48-55 | an n-tuple scales when it is long enough and numeric |
| `Styles.NodeScalingSpec` | diagen/styles.py:42-55 | size and gap scale as pairs and padding as a quadruple |
| `Styles.EvalNodePropsOk` | diagen/styles.py:41-56 | `eval_node_props` succeeds exactly when scaling succeeds and every field exists |
| `Styles.EvalNodePropsKeeps` | diagen/styles.py:46-56 | the fields keep their order, and every field other than size, gap and padding keeps its value |
| `Styles.EvalNodePropsScales` | diagen/styles.py:41-56 | size, padding and gap are scaled componentwise |
| `Styles.ComputedGet` | diagen/styles.py:252-262 | one computed style entry is the scaled value, or absent for None |
| `Styles.EntriesGet` | diagen/styles.py:252-262 | arcSize and the three perimeter spacings are scaled, and nothing else is added |
| `Styles.EdgeComputedGet` | diagen/styles.py:251-262 | the computed style reads the record's fields |
| `Styles.EdgeStyleGet` | diagen/styles.py:264-270 | the record's own style entries win over the computed ones |
| `Styles.SpacingPopped` | diagen/styles.py:181-185 | merging `setEdgeSpacing`'s style removes only perimeterSpacing |
| `Styles.EvalEdgePropsReplaces` | diagen/styles.py:269-271 | `eval_edge_props` replaces label_offset and drawio_style |
| `Styles.EvalEdgePropsKeeps` | diagen/styles.py:269-271 | the other fields keep their values and order |
| `Styles.EvalEdgePropsValues` | diagen/styles.py:247-271 | label_offset keeps x and scales y, and the style is the merged one |
| `Text.SplitWs` | diagen/stylemap.py:113 | `split()` gives non-empty words without white space |
| `Text.SplitWsKeepsText` | diagen/stylemap.py:113 | `split()` loses exactly the white space |
| `Text.Split` | diagen/stylemap.py:39 | `split(';')` gives at least one piece, none holding the separator |
| `Text.SplitJoin` | diagen/stylemap.py:39 | joining the pieces gives the text back |
| `Text.Partition` | diagen/stylemap.py:39 | `partition` splits at the first separator, or keeps everything before it when there is none |
| `Text.PartitionAt` | diagen/styles.py:62 | the text before the first separator comes off |
| `Text.NatToString` | diagen/drawio.py:152 | `str(n)` is a non-empty run of digits |
| `Text.NatToStringValue` | diagen/drawio.py:152 | reading back `str(n)` gives n |
| `Text.NatToStringInjective` | diagen/drawio.py:152 | distinct numbers print differently |
| `Text.IntRoundTrip` | diagen/styles.py:63 | `int(str(n)) == n` |
| `Text.IntToStringChars` | diagen/styles.py:61-66 | `str(n)` holds only digits and a minus sign |
| `Text.RealRoundTrip` | diagen/styles.py:29 | `float(str(n)) == n` for a natural number |
| `Text.SplitWithout` | diagen/stylemap.py:39 | a text without the separator is one piece |
| `Text.SplitAt` | diagen/stylemap.py:39 | the first piece comes off at the separator |
| `Text.JoinSplit` | diagen/drawio.py:20 | splitting joined parts without the separator gives the parts back |
| `Dict.Get` | diagen/stylemap.py:128 | `get` is None exactly for an absent key, and is otherwise an entry |
| `Dict.Set` | diagen/stylemap.py:129 | an existing key keeps its place; a new key goes last |
| `Dict.Remove` | diagen/stylemap.py:63 | `pop(k, None)` leaves no k |
| `Dict.GetSet` | diagen/stylemap.py:129 | after setting, the key holds the value and other keys are unchanged |
| `Dict.GetRemove` | diagen/stylemap.py:63 | after popping, the key is absent and other keys are unchanged |
| `Dict.SetDistinct` | diagen/stylemap.py:129 | setting keeps the keys distinct |
| `Dict.RemoveHasKey` | diagen/stylemap.py:63 | popping removes exactly that key |
| `Dict.RemoveDistinct` | diagen/stylemap.py:63 | popping keeps the keys distinct |
| `Dict.GetUpdate` | diagen/stylemap.py:64 | after `update`, the new dict's keys win and others are kept |
| `Dict.UpdateDistinct` | diagen/stylemap.py:64 | `update` keeps the keys distinct |
| `Dict.GetRemoveAll` | diagen/stylemap.py:62-63 | popping a list removes exactly the listed keys |
| `Dict.RemoveAllDistinct` | diagen/stylemap.py:62-63 | and keeps the keys distinct |
| `Dict.GetConcat` | diagen/styles.py:265 | a lookup in the first part wins |
| `Dict.SetAbsent` | diagen/styles.py:319 | setting an absent key appends the entry |
| `C4.C4Label` | diagen/shapes/c4.py:5-16 | the label is '' exactly when there are no label lines |
| `C4.C4IgnoresExtra` | diagen/shapes/c4.py:9-11 | only the first three lines matter |
| `C4.C4TitleFirst` | diagen/shapes/c4.py:9-14 | the bold title always comes first |
| `C4.C4Lines` | diagen/shapes/c4.py:12-16 | the label splits into the title, then `[tech]` and the small description only where given |
| `C4.C4SkipsEmptyTech` | diagen/shapes/c4.py:12-16 | an empty technology line is dropped |
| `Drawio.StyleItems` | diagen/drawio.py:20 | one `k=v` item per entry, in dict order |
| `Drawio.StyleRoundTrip` | diagen/drawio.py:17-20 | parsing `style_to_str` with `get_style` gives the style back, for plain keys and values |
| `Drawio.NodeCellProps` | diagen/drawio.py:38-45 | the record's style, link and formatter are read, and a wrong kind raises |
| `Drawio.StyleOf` | diagen/drawio.py:38 | the record's drawio style |
| `Drawio.FormatterOf` | diagen/drawio.py:41 | the record's label formatter |
| `Drawio.ParentRef` | diagen/drawio.py:36 | `'__root__'` exactly when there is no parent id |
| `Drawio.NodeElementAttrs` | diagen/drawio.py:33-47 | value and link appear only when non-empty, and the geometry is the only child |
| `Drawio.PortOnSide` | diagen/drawio.py:61-73 | each side puts the 3x3 cell at the slot along its edge: left and top flush at the start, right and bottom at the end |
| `Drawio.UpdatePortStyle` | diagen/drawio.py:101 | the update sets only `<kind>PortConstraint` |
| `Drawio.PortStyleNamesSide` | diagen/drawio.py:76-80 | different sides give different constraints |
| `Drawio.EdgeStyleConstraints` | diagen/drawio.py:96-108 | port ends set their constraints, and all other keys are the record's |
| `Drawio.EdgeElementPorts` | diagen/drawio.py:98-127 | the port cells come first, then the edge cell, whose ends name the port cells |
| `Drawio.EdgeCellAttrs` | diagen/drawio.py:85-110 | source, target, value and style of the edge cell |
| `Drawio.EdgeGeomOffset` | diagen/drawio.py:112-115 | x, y and the offset point appear only when label_offset is not (0, 0) |
| `Drawio.FreshIdInjective` | diagen/drawio.py:152 | different counter values give different `diagen-N` ids |
| `Drawio.Numbered` | diagen/drawio.py:149-152 | numbering keeps one id per element |
| `Drawio.NumberedCount` | diagen/drawio.py:151-152 | the counter advances once per empty id |
| `Drawio.NumberedSpec` | diagen/drawio.py:151-152 | preset ids are kept, and the i-th empty id gets the counter's next value |
| `Drawio.Numbering` | diagen/drawio.py:151-152 | every id is non-empty, preset ones are kept, and new ones are pairwise distinct |
| `Drawio.NodeAndEdgeIds` | diagen/drawio.py:147-160 | a new node id never equals a new edge id |
| `Drawio.NumberedAppend` | diagen/drawio.py:147-160 | numbering nodes then edges from one counter numbers the concatenation |
| `Drawio.ModelIds` | diagen/drawio.py:147-160 | the node and edge ids, together, are well numbered |
| `Drawio.Reverse` | diagen/drawio.py:155 | the reversed list |
| `Drawio.CollectSpec` | diagen/drawio.py:149-153 | the node loop gives every cell, or the first fault |
| `Drawio.GatherSpec` | diagen/drawio.py:157-160 | the edge loop concatenates every edge's elements, or gives the first fault |
| `Drawio.NameNode` | diagen/drawio.py:151-152 | an empty id gets the counter's value, which advances; a preset id stays |
| `Drawio.NodeCellOf` | diagen/drawio.py:153 | `node_element` of the k-th walked node |
| `Drawio.NodeStep` | diagen/drawio.py:149-153 | one pass of the node loop |
| `Drawio.NameNodes` | diagen/drawio.py:149-153 | the node loop numbers the walked nodes and gives their cells, or stops at the first fault |
| `Drawio.NodeLoop` | diagen/drawio.py:149-153 | the loop body of `NameNodes` |
| `Drawio.ArrangeEnd` | diagen/drawio.py:68-73 | an end's port cell uses the node's slot table, without changing any table |
| `Drawio.EdgeCell` | diagen/drawio.py:83-127 | `edge_element` of one edge |
| `Drawio.NameEdge` | diagen/drawio.py:158-159 | an empty edge id gets the counter's value |
| `Drawio.EdgeCellAt` | diagen/drawio.py:160 | `edge_element` of the k-th edge |
| `Drawio.EdgeStep` | diagen/drawio.py:157-160 | one pass of the edge loop |
| `Drawio.NameEdges` | diagen/drawio.py:157-160 | the edge loop continues the counter and gives the edges' elements |
| `Drawio.EdgeLoop` | diagen/drawio.py:157-160 | the loop body of `NameEdges` |
| `Drawio.Assemble` | diagen/drawio.py:155-177 | the model exists exactly when both loops succeed; the node loop's fault comes first |
| `Drawio.EdgesModel` | diagen/drawio.py:155-177 | the edge loop, then the model around the reversed node cells |
| `Drawio.MakeModel` | diagen/drawio.py:130-178 | the model is the reversed node cells plus the edge elements, with page size from the root; nodes then edges get distinct `diagen-N` ids from one counter, and preset ids are kept |

## Left out

- Nodes.Node.constructor: takes the record already evaluated. The `stylemap.eval_props(props)` call at diagen/nodes.py:34 is not modelled, because the StyleMap class in diagen/stylemap.py has no `eval_props`; node evaluation is `Styles.EvalNodeProps`.
- Nodes.NewEdge: evaluates the record with `Styles.EvalEdgeProps`, where diagen/nodes.py:178 calls `stylemap.eval_props`. As written that call raises AttributeError, because StyleMap has no such method. The model follows the evident intent, the `eval_fn=eval_edge_props` registration at diagen/styles.py:284.
- StyleMap.StyleMap.AddRules: resets the rule cache, which diagen/stylemap.py:85-87 does not do; see "## Findings". `StyleMap.StaleRuleCache` states the behaviour as written.
- LayoutTree.Tree.Size: uses the corrected sizing `SizeOf`, in which a declared extent wins, and not the as-written `SizeAsWritten` of diagen/layouts/__init__.py:20-22; see "## Findings".
- StyleMap.Fuel: Python's recursion limit is modelled as a fuel count. Running out of fuel is the RecursionError fault. A style that includes itself therefore ends with that fault rather than looping.
- Text.ParseReal: accepts only an optional sign, digits and one decimal point. Python's `float` also accepts exponents, surrounding white space, `inf`/`nan` and underscores; the model rejects them as a ValueError.
- Text.ParseInt: accepts only an optional sign and digits. It does not accept the white space and underscores Python's `int` allows.
- Props.NodeProps: the layout reads the field names of diagen/props-gen.py (`subgrid`, `grid_size`, `grid_cell`). The style rules write the record vocabulary of diagen/styles.py (`grid_col` and the rest) as attribute maps. No function converts an evaluated attribute map into a `NodeProps`, because the source has no such step.
- Drawio.NodeCellProps: reads `drawio_style`, where diagen/drawio.py:38 and 96 read `props.style`. The property records define only `drawio_style`.
- Drawio.EdgeCellOf: takes the parent of the edge's source node from the layout, where diagen/drawio.py:88 reads `edge.source.parent`. Neither Node nor Port in diagen/nodes.py has a `parent`.
- LayoutTree.GridCellsOf: sizes the children in child order before placing the cells. diagen/layouts/grid.py:88-95 reads the sizes of the cells' children while sizing the rows, then the columns. The only size fault is the empty `max`, and `cells` itself faults only for a childless grid, so the two orders raise the same fault. Which child raises first could differ only if several children fault.
- Drawio.MakeModel: the edges are collected in a Python `set`, whose iteration order depends on hashing. The order is a parameter `order` that lists each set once.
- Drawio.MakeModel: the node positions and sizes are a parameter `layout`, computed by `LayoutTree.Arrange`. The `node.arrange()` and `base_node` calls at diagen/drawio.py:131-134 are not part of this model.
- Drawio.MakeGeom: `str(x)` of a float is a parameter `realText`, because Python's float formatting is not modelled.
- The XML serialisation, compression and rendering at diagen/drawio.py:181-210 (zlib, Base64, URL quoting and ElementTree) are not modelled.
- Nodes.Context: the `ContextVar` at diagen/nodes.py:20 is an explicit context object whose tokens hold the previous value. Nothing here is concurrent.
- LayoutTree.Arrange: `node.origin`, which the layouts read but LayoutNode does not define, is a per-node input `origins`. A child's alignment is `Nodes.Align` applied to the parent's `items_align`.
- StyleMap.MatchRule: the regular expression at diagen/stylemap.py:91 is modelled as first-prefix matching. A prefix is treated as literal text, not as a pattern.
- Styles.ScaleTuple: a record field that is not a tuple, or is too short, faults with BadType before anything is multiplied. Python would raise a TypeError or IndexError at a different point. Typed records never contain such fields.
- The factories (BaseFactory, NodeFactory, EdgeFactory, diagen/nodes.py:196-245) are not modelled. They are thin wrappers over `resolve_classes`/`resolve_props` and the Node/Edge constructors, which are modelled.
- The registration tables of diagen/styles.py:188-244 and 274-407 are not modelled. The same holds for `addArrowStyles`, the end fill, size and arrow-shape setters, and the C4 style tables in diagen/shapes/c4.py:19-103. They are configuration data, and `addArrowStyles` relies on a `kebab_case` that diagen/utils.py does not define.
- The `setEdgeEndSpacing` and `setEdgeSpacing` setters are modelled as functions. Only the style they pop is stated, in `Styles.SpacingPopped`.
- Node ports `l`, `t`, `r`, `b` (diagen/nodes.py:75-89) are ports built directly with sides 0 to 3.
- diagen/layout.py, diagen/tags.py and diagen/tagmap.py are not part of this model. They are an older layout and tag interface, and none of the modelled files import them.
- The `subgrid` flag (tests/test_layout.py:202-230) and the `inplace` argument (tests/test_styles.py:26-29) that some tests use are handled nowhere in the modelled files, so they are not modelled.

## Findings

| source | as written | input that shows it | evidently intended | confidence | as-written member | corrected member |
|---|---|---|---|---|---|---|
| diagen/layouts/__init__.py:20-22 | `LayoutNode.size` always asks the layout and ignores a declared `props.size`, so every leaf takes the `max` of no children and raises ValueError | any tree, e.g. one node with size (10, 10) | a non-negative declared extent is the size on that axis, as tests/test_layout.py:29-50 expect | not executed | `LayoutTree.SizeAsWrittenFails` | `LayoutTree.ExplicitSizeWins` |
| diagen/stylemap.py:85-87 | `add_rules` rebuilds the pattern and the prefix map but does not clear `_rule_cache` | add a rule with prefix p that sets x; look up class p-1; add a second rule with prefix p; look up p-1 again | cached lookups follow the current rules, so the cache is reset | not executed | `StyleMap.StaleRuleCache` | `StyleMap.StyleMap.AddRules` |
