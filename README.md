# Dynamic UI JSON: panel layouts, their renderer, the layout editor and the element editor

Dynamic UI JSON describes a page as a tree of resizable panels: a layout has a
direction, an optional class and a list of panels; a panel has an id, a default size,
optional minimum and maximum sizes, an admin-only flag, scroll settings, and either
content (text or markup) or a nested layout. This project models, in Dafny:

- **PanelTree** (`panel_tree.dfy`): the panel and layout records, the per-level
  role filter (`Visible`), the pre-order id list (`Ids`) and the sizes (`Sum`,
  `PositiveSizes`).
- **TreeOps** (`tree_ops.dfy`): the tree surgery of the interactive layout editor:
  depth-first lookup, parent lookup, recursive removal, the three-way insertion
  `updatePanels` (grow on the same axis, wrap across axes, split a leaf), the direction,
  scroll and admin-only toggles. The last three and the targeted branch of insertion
  share one shape, `PatchPanels` ("replace each panel carrying the id, descend into the
  others"), whose lemmas are proved once.
- **View** (`view.dfy`): what rendering yields, as data: a placeholder, a single
  panel, or a group of panes with a drag handle between each two neighbours.
- **Renderer** (`renderer.dfy`): the read-only `ResizableLayout`: role filter, the
  zero/one/many split, rescaling of sizes to rounded percentages, and recursion.
- **LayoutEditor** (`layout_editor.dfy`): the editing `ResizableLayout` as a class
  `Editor` holding `config` and `selectedPanelId`, with one method per button, and
  its own `renderPanelGroup`.
- **SyncEditor** (`sync_editor.dfy`): the admin page that keeps a layout, its JSON
  text and a code text in step: the JSON commit, the code commit, the initial state,
  and the admin wrapper that puts the preview beside the editor.
- **ElementEditor** (`element_editor.dfy`): the flat element-list editor: default
  props per element type, adding an element, the shallow props merge and the
  selection that follows it.

Sizes are `real`. `Math.round` is `Floor(x + 0.5)`. A size computed by dividing by a
total of zero (NaN or an infinity in JavaScript) is the value `NonFinite`. JSON
parsing, JSON serialisation and evaluation of code text are function parameters about
which nothing is assumed. In particular no parse/serialise round trip is assumed,
since the default layout's content is markup. `Date.now()` ids are string parameters.

Where the code and its comments disagree, the model follows the code:

- The comment "Ensure panel sizes add up to 100%" is not what the rounding does.
  Three equal panels render at 33/33/33 (`Renderer.EqualThirdsRoundDown`).
- Root insertion across the axis keeps the root's own direction.
- A target id that matches nothing makes insertion a no-op.
- Insertion and the three toggles do not descend into a panel carrying the target id.
  A second panel with that id nested inside it is left as it is, which is why the
  outline lemmas say such a panel "may" change.
- The parent lookup in `addPanel` does not change which call is made.
- Growing the root on its own axis leaves the new panel's own size as it is (50 for a
  new leaf). So from a root of two or more panels summing to 100, the root sum exceeds
  100 afterwards (`TreeOps.GrowingTheRootExceedsHundred`).

## Model

| member | source | states |
|---|---|---|
| PanelTree.Opposite | src/components/resizable-layout.tsx:554 | flipping a direction always yields the other direction |
| PanelTree.Visible | src/components/resizable/resizable-layout.tsx:34 | the kept panels are exactly those that are not admin-only (absent counts as false), or all panels for an admin, in their original order |
| PanelTree.VisibleMultiplicity | src/components/resizable/resizable-layout.tsx:34 | each visible panel is kept as many times as it occurs, each hidden one not at all |
| PanelTree.VisibleIdempotent | src/components/resizable/resizable-layout.tsx:34 | filtering an already filtered level changes nothing |
| PanelTree.IdsAreFlattenIds | src/components/resizable-layout.tsx:109-125 | the id list is the ids of the depth-first pre-order panel list, position by position |
| PanelTree.IdsAppend | src/components/resizable-layout.tsx:109-125 | the pre-order ids of two sibling runs are the ids of the first followed by the ids of the second |
| PanelTree.SumAppend | src/components/resizable/resizable-layout.tsx:62 | the size total of two sibling runs is the sum of their totals |
| PanelTree.PositiveSum | src/components/resizable/resizable-layout.tsx:62 | a non-empty level of positive sizes has a positive total, so the division never sees zero |
| TreeOps.FirstWithId | src/components/resizable-layout.tsx:111-114 | the first panel of a list with the id; none exactly when no panel in the list has it |
| TreeOps.FindPanelById | src/components/resizable-layout.tsx:109-125 | a panel found has the id and is in the tree; none is found exactly when no panel at any depth has the id |
| TreeOps.FindPanelByIdIsFirstInPreorder | src/components/resizable-layout.tsx:109-125 | the panel found is the first panel with that id in depth-first pre-order |
| TreeOps.FindParentPanel | src/components/resizable-layout.tsx:128-155 | a parent list is found exactly when the id occurs at some depth; otherwise the given direction comes back |
| TreeOps.FindParentHoldsFoundPanel | src/components/resizable-layout.tsx:128-155 | the sibling list returned contains the panel that lookup by id finds |
| TreeOps.FindParentIsSiblingList | src/components/resizable-layout.tsx:128-155 | the list returned is the root list with the root direction, or some nested layout's panel list with that layout's direction |
| TreeOps.FindParentAtTopLevel | src/components/resizable-layout.tsx:137-140 | when the first occurrence is at the top level, the root list and the root direction come back |
| TreeOps.KeepOthers | src/components/resizable-layout.tsx:268 | the level filter keeps every panel without the id, drops every panel with it, and keeps order |
| TreeOps.KeepOthersMultiplicity | src/components/resizable-layout.tsx:268 | each panel without the id is kept as many times as it occurs, each panel with it not at all |
| TreeOps.RemoveFromPanels | src/components/resizable-layout.tsx:266-282 | after removal no panel at any depth has the id; each kept top-level panel keeps its own fields |
| TreeOps.RemoveKeepsOrderAndSizes | src/components/resizable-layout.tsx:266-282 | the remaining tree is the old tree with some panels left out, the rest in order with unchanged sizes, with no renormalisation |
| TreeOps.RemoveOutline | src/components/resizable-layout.tsx:266-282 | the pre-order outline after removal is exactly the old outline with each subtree rooted at a panel with the id skipped: every other panel at every depth survives, in order, with its own fields |
| TreeOps.RemoveAbsentIsIdentity | src/components/resizable-layout.tsx:266-282 | removing an id that occurs nowhere returns the tree unchanged |
| TreeOps.RemoveKeepsPositiveSizes | src/components/resizable-layout.tsx:266-282 | removal keeps all sizes positive when they were |
| TreeOps.PatchPanels | src/components/resizable-layout.tsx:599-618 | the shared "replace the matching panel, otherwise descend" map keeps the length of the level it is given |
| TreeOps.PatchPointwise | src/components/resizable-layout.tsx:599-618 | position by position: a panel with the id becomes its replacement, another container has its own nested panels patched, another leaf is kept |
| TreeOps.PatchLeavesOthers | src/components/resizable-layout.tsx:599-618 | a panel in whose subtree the id does not occur comes back unchanged |
| TreeOps.PatchOutline | src/components/resizable-layout.tsx:599-618 | for a replacement that rewrites only a panel's own fields, the pre-order outline keeps its length and every entry stays the same except entries with the id, which may become their replacement |
| TreeOps.PatchFixedIsIdentity | src/components/resizable-layout.tsx:599-618 | when the replacement leaves every matching panel as it is, the tree is unchanged |
| TreeOps.PatchAbsentIsIdentity | src/components/resizable-layout.tsx:599-618 | with no panel carrying the id, the tree is unchanged |
| TreeOps.PatchFind | src/components/resizable-layout.tsx:599-618 | lookup afterwards finds the replacement of the panel lookup found before |
| TreeOps.PatchCompose | src/components/resizable-layout.tsx:599-618 | two patches of the same id are one patch with the composed replacement |
| TreeOps.PatchKeepsIds | src/components/resizable-layout.tsx:599-618 | when the replacement keeps a panel's ids, the whole tree keeps its id list |
| TreeOps.PatchReaches | src/components/resizable-layout.tsx:599-618 | an id the replacement introduces appears in the tree when the target exists |
| TreeOps.PatchKeepsPositiveSizes | src/components/resizable-layout.tsx:599-618 | positive sizes are kept when the replacement keeps them |
| TreeOps.Shrink | src/components/resizable-layout.tsx:305 | the factor n/(n+1) lies in [0, 1) and is positive for a non-empty level |
| TreeOps.ScaleSizes | src/components/resizable-layout.tsx:303-306 | every panel is kept with only its size multiplied by the factor |
| TreeOps.ScaleSum | src/components/resizable-layout.tsx:303-306 | the scaled total is the old total times the factor |
| TreeOps.ScaleKeepsIds | src/components/resizable-layout.tsx:303-306 | scaling keeps the id list |
| TreeOps.ScaleKeepsPositiveSizes | src/components/resizable-layout.tsx:303-306 | scaling by a positive factor keeps sizes positive |
| TreeOps.InsertInto | src/components/resizable-layout.tsx:331-402 | the target keeps id, size, min, max and admin flag and ends up nesting the requested axis. Same axis: children scaled by n/(n+1) then the new panel. Across axes: a container (old direction, old children, 50) then the new panel at 50. Leaf: `<id>-content` then the new panel at 50 in a nested layout with no class, with content, classes and scroll cleared |
| TreeOps.InsertIntoIds | src/components/resizable-layout.tsx:331-402 | the ids after insertion: the target, then the content child or container when one is made, the old ids, and the new panel's ids last |
| TreeOps.InsertIntoGrowSum | src/components/resizable-layout.tsx:333-349 | same-axis insertion below the root gives a nested total of old total times n/(n+1) plus the new size |
| TreeOps.InsertIntoPairSum | src/components/resizable-layout.tsx:350-402 | wrapping or splitting gives a nested level whose two sizes sum to 100 |
| TreeOps.InsertIntoKeepsPositiveSizes | src/components/resizable-layout.tsx:331-402 | insertion keeps sizes positive |
| TreeOps.UpdatePanels | src/components/resizable-layout.tsx:292-421 | No target, same axis: old panels scaled by n/(n+1) then the new panel, its size untouched. No target, across axes: exactly [container with the given id, size 50, no other field, nesting the old direction and old panels; new panel at 50]. A target: same length, every top-level panel whose subtree lacks the target is unchanged, and a target that matches nothing leaves the tree equal |
| TreeOps.UpdatePanelsPointwise | src/components/resizable-layout.tsx:329-420 | with a target, position by position: a match gets the insertion, another container has its nested panels updated the same way, another leaf is kept, so every panel off the path to a match is unchanged at every depth |
| TreeOps.UpdatePanelsFindsTarget | src/components/resizable-layout.tsx:329-421 | lookup afterwards finds the old target with the insertion applied |
| TreeOps.UpdatePanelsPlacesNewPanel | src/components/resizable-layout.tsx:292-421 | the new panel is in the tree afterwards when it went to the root or its target exists |
| TreeOps.UpdatePanelsAtRootIds | src/components/resizable-layout.tsx:299-326 | root insertion keeps the old ids in order, after the container id when wrapping, and puts the new panel's ids last |
| TreeOps.UpdatePanelsAtRootGrowSum | src/components/resizable-layout.tsx:301-308 | growing the root gives a total of old total times n/(n+1) plus the new panel's size |
| TreeOps.UpdatePanelsAtRootWrapSum | src/components/resizable-layout.tsx:309-326 | wrapping the root gives two sizes summing to 100 |
| TreeOps.GrowingTheRootExceedsHundred | src/components/resizable-layout.tsx:301-308 | from a root of two or more panels summing to 100, adding a 50 panel on the same axis gives a total above 100 |
| TreeOps.UpdatePanelsKeepsPositiveSizes | src/components/resizable-layout.tsx:292-421 | insertion keeps sizes positive |
| TreeOps.FlipNested | src/components/resizable-layout.tsx:520-531 | a container gets the other nested direction; a leaf is unchanged |
| TreeOps.UpdateNestedDirectionTwice | src/components/resizable-layout.tsx:516-543 | flipping the selected panel's direction twice is the identity |
| TreeOps.UpdateNestedDirectionOnLeaf | src/components/resizable-layout.tsx:516-543 | when the selected panel is a leaf, the tree is unchanged |
| TreeOps.UpdateNestedDirectionFind | src/components/resizable-layout.tsx:516-543 | lookup afterwards finds the selected panel with its nested direction flipped |
| TreeOps.UpdateNestedDirectionOutline | src/components/resizable-layout.tsx:516-543 | in the pre-order outline every panel stays as it was except those with the selected id, which may have their direction flipped |
| TreeOps.UpdateNestedDirectionKeepsIds | src/components/resizable-layout.tsx:516-543 | flipping keeps the id list |
| TreeOps.WithScroll | src/components/resizable-layout.tsx:567-575 | the panel gets scrolling enabled in the given direction and nothing else changes |
| TreeOps.UpdateScrollableIdempotent | src/components/resizable-layout.tsx:565-587 | making the same panel scrollable twice equals doing it once |
| TreeOps.UpdateScrollableOutline | src/components/resizable-layout.tsx:565-587 | in the pre-order outline every panel stays as it was except those with the selected id, which may get the scroll setting |
| TreeOps.UpdateScrollableEffect | src/components/resizable-layout.tsx:565-587 | the id list is kept and lookup afterwards finds the selected panel with the new scroll setting |
| TreeOps.ToggleAdminFlag | src/components/resizable-layout.tsx:601-606 | the flag is set to the negation of its old value, absent counting as false, and nothing else changes |
| TreeOps.SettleAdminFlag | src/components/resizable-layout.tsx:601-606 | the flag made explicit keeps its truth value |
| TreeOps.UpdateAdminOnlyTwice | src/components/resizable-layout.tsx:599-618 | toggling twice only makes the matched panel's flag explicit |
| TreeOps.UpdateAdminOnlyOutline | src/components/resizable-layout.tsx:599-618 | in the pre-order outline every panel stays as it was except those with the selected id, which may have their flag negated |
| TreeOps.UpdateAdminOnlyEffect | src/components/resizable-layout.tsx:599-618 | the id list is kept and lookup afterwards finds the selected panel with its flag negated |
| View.MinSizeOrDefault | src/components/resizable/resizable-layout.tsx:74 | an absent or zero minimum becomes 10, any other is kept |
| View.MaxSizeOrDefault | src/components/resizable/resizable-layout.tsx:75 | an absent or zero maximum becomes 90, any other is kept |
| View.ArrangeAlternates | src/components/resizable/resizable-layout.tsx:70-91 | panes sit at the even positions in input order and handles at the odd ones |
| View.ArrangeKeepsPanes | src/components/resizable/resizable-layout.tsx:70-91 | a group of k panes holds exactly those panes in order and k-1 handles |
| View.ArrangeIds | src/components/resizable/resizable-layout.tsx:70-91 | handles show no panel: the group's ids are its panes' ids |
| View.AdminSeesAllIds | src/components/resizable/resizable-layout.tsx:34 | an admin sees every panel at every depth |
| View.VisibleIdsAreSubSeq | src/components/resizable/resizable-layout.tsx:34 | a viewer sees the full id list with some ids left out and the rest in order |
| View.VisibleIdsOfVisible | src/components/resizable/resizable-layout.tsx:34 | filtering a level first changes nothing about what a viewer sees |
| Renderer.Round | src/components/resizable/resizable-layout.tsx:65 | rounding lands within half a unit, ties rounding up |
| Renderer.Normalize | src/components/resizable/resizable-layout.tsx:65 | a size is round(100 * size / total), so within 0.5 of its exact percentage share, and is not finite exactly when the total is 0 |
| Renderer.Show | src/components/resizable/resizable-layout.tsx:49-55 | text content goes inside a span carrying the text class, other content is shown as it is |
| Renderer.Render | src/components/resizable/resizable-layout.tsx:30-95 | zero visible panels give the placeholder; one gives that panel alone with its rendered body, without group or handle and without using its size; two or more give a group in the layout's direction whose items are the normalised visible panels with a handle between each two |
| Renderer.RenderBody | src/components/resizable/resizable-layout.tsx:78-88 | a container's body is the rendering of its nested layout with the same role, a leaf shows its content in its container class |
| Renderer.NormalizedPanes | src/components/resizable/resizable-layout.tsx:62-66 | one pane per visible panel, in order, each normalised against the total |
| Renderer.NormalizedPane | src/components/resizable/resizable-layout.tsx:63-79 | a pane keeps the id, gets round(100 * size / total), the min and max defaults, and its rendered body |
| Renderer.RenderShowsVisibleIds | src/components/resizable/resizable-layout.tsx:30-95 | the rendered view shows exactly the ids the role may see, in pre-order, at every depth |
| Renderer.RenderBodyIds | src/components/resizable/resizable-layout.tsx:78-79 | a nested body shows the visible ids of its layout; a leaf shows none |
| Renderer.NormalizedPanesIds | src/components/resizable/resizable-layout.tsx:62-91 | the panes of a level show the visible ids of that level |
| Renderer.NormalizedPanesOfVisible | src/components/resizable/resizable-layout.tsx:34 | hidden panels contribute no pane |
| Renderer.RenderIgnoresHiddenPanels | src/components/resizable/resizable-layout.tsx:34-66 | rendering a level without its hidden panels gives the same view |
| Renderer.SumSharesIsScaledSum | src/components/resizable/resizable-layout.tsx:62-66 | the exact shares sum to the total of the panels divided by the visible total, times 100 |
| Renderer.SharesSumToHundred | src/components/resizable/resizable-layout.tsx:62-66 | the exact shares of the visible panels sum to 100 |
| Renderer.RoundedTotalNearShares | src/components/resizable/resizable-layout.tsx:62-66 | the rounded sizes of k panes are within k/2 of the exact shares' sum |
| Renderer.GroupSizesNearHundred | src/components/resizable/resizable-layout.tsx:61-66 | a group's rounded sizes sum to 100 only up to k/2 for k panes |
| Renderer.RoundedThird | src/components/resizable/resizable-layout.tsx:65 | one third of 100 rounds to 33 |
| Renderer.EqualThirdsRoundDown | src/components/resizable/resizable-layout.tsx:61-66 | three equal panels render at 33/33/33, a total of 99 |
| Renderer.HiddenShareIsRedistributed | src/components/resizable/resizable-layout.tsx:62-66 | a hidden panel's share goes to its visible siblings: 50/25/25 with the first hidden renders 50/50 |
| LayoutEditor.DefaultLayoutShape | src/components/resizable-layout.tsx:70-98 | the fallback layout has panel-1 and panel-2, sizes summing to 100, all positive |
| LayoutEditor.BeforeDash | src/components/resizable-layout.tsx:431 | the text before the first dash: a prefix without a dash, stopped by a dash when shorter |
| LayoutEditor.NewLeafPanel | src/components/resizable-layout.tsx:425-435 | a new leaf is named `panel-<stamp>` and has positive size |
| LayoutEditor.NewNestedPanel | src/components/resizable-layout.tsx:466-496 | a new nested panel nests the perpendicular axis with children `<id>-1`, `<id>-2`, and has positive sizes |
| LayoutEditor.LeafDecor | src/components/resizable-layout.tsx:190-224 | the ring appears iff the leaf is selected; overflow classes only with scrolling enabled, both for "both"; horizontal overflow forces the wide minimums |
| LayoutEditor.RenderPanelGroup | src/components/resizable-layout.tsx:158-259 | a group in the layout's direction and class whose items are the rendered visible panels with a handle between each two |
| LayoutEditor.RenderPanes | src/components/resizable-layout.tsx:169-183 | one pane per visible panel with its own size, not normalised, and the min/max defaults |
| LayoutEditor.RenderPane | src/components/resizable-layout.tsx:179-224 | a pane keeps id and size; containers recurse; leaves show content in a span with the leaf decorations |
| LayoutEditor.RenderShowsVisibleIds | src/components/resizable-layout.tsx:158-259 | the editing view shows exactly the ids the role may see, in pre-order |
| LayoutEditor.RenderPanesIds | src/components/resizable-layout.tsx:169-183 | the panes of a level show the visible ids of that level |
| LayoutEditor.Editor.constructor | src/components/resizable-layout.tsx:70-101 | config comes from the config prop, else the initial config, else the fallback layout; no selection |
| LayoutEditor.Editor.Rendered | src/components/resizable-layout.tsx:631-810 | the editor's view shows exactly the ids its role may see |
| LayoutEditor.Editor.SelectedPanel | src/components/resizable-layout.tsx:627-629 | the selected panel is found when the selection is set and occurs in the tree, and is then in the tree with that id |
| LayoutEditor.Editor.TogglePanelSelection | src/components/resizable-layout.tsx:104-106 | selecting the selected panel clears the selection, any other panel becomes selected; config unchanged |
| LayoutEditor.Editor.ClearSelection | src/components/resizable-layout.tsx:632 | a click outside any panel clears the selection and nothing else |
| LayoutEditor.Editor.RemovePanel | src/components/resizable-layout.tsx:261-289 | the selection is cleared iff it was the removed id; the id is gone at every depth; the new outline is exactly the old one with the removed subtrees skipped, so everything else keeps order, fields and sizes |
| LayoutEditor.Editor.AddPanel | src/components/resizable-layout.tsx:424-463 | config's panels become `updatePanels` of the old panels with the current selection, root direction unchanged; the new panel is present when the selection exists or is empty; top-level panels whose subtree lacks the selection are unchanged; positivity is kept |
| LayoutEditor.Editor.AddNestedPanel | src/components/resizable-layout.tsx:466-509 | the same for a nested panel with the perpendicular sub-layout |
| LayoutEditor.Editor.ToggleDirection | src/components/resizable-layout.tsx:512-557 | with a selection only panels with that id change in the outline, by a flip of their nested direction; with none only the root direction flips; ids are kept |
| LayoutEditor.Editor.MakeSelectedPanelScrollable | src/components/resizable-layout.tsx:560-593 | with a selection only panels with that id change in the outline, by getting the scroll setting; with none nothing changes; ids are kept |
| LayoutEditor.Editor.ToggleAdminOnly | src/components/resizable-layout.tsx:596-624 | with a selection only panels with that id change in the outline, by a negation of their flag; with none nothing changes; ids are kept |
| SyncEditor.Adopted | src/components/resizable/resizable-layout-editor.tsx:261 | a code result is adopted exactly when it is a (non-null) object |
| SyncEditor.DashboardIds | src/components/resizable/resizable-layout-editor.tsx:77-177 | the dashboard shape has header-panel, content-panel, main-content, sidebar in pre-order |
| SyncEditor.DashboardSizes | src/components/resizable/resizable-layout-editor.tsx:77-177 | both levels of the dashboard sum to 100 and all sizes are positive |
| SyncEditor.DefaultConfig | src/components/resizable/resizable-layout-editor.tsx:77-177 | the initial layout has the four dashboard ids, sizes summing to 100, all positive |
| SyncEditor.TemplateConfig | src/components/resizable/resizable-layout-editor.tsx:180-225 | the code template's layout has the same ids and sums but differs from the initial layout |
| SyncEditor.AfterJsonCommit | src/components/resizable/resizable-layout-editor.tsx:245-252 | a text that parses replaces config with the parsed value; one that does not changes nothing; no text or mode changes; afterwards the state is in step iff the text parsed |
| SyncEditor.JsonCommitIdempotent | src/components/resizable/resizable-layout-editor.tsx:245-252 | committing the same JSON text again changes nothing |
| SyncEditor.AfterCodeCommit | src/components/resizable/resizable-layout-editor.tsx:255-269 | an object result becomes config and its serialisation the JSON text; a throw or a falsy or non-object result changes nothing; code and mode are never changed |
| SyncEditor.CodeCommitSettles | src/components/resizable/resizable-layout-editor.tsx:255-269 | after an adopted code result whose serialisation parses back, the JSON commit it triggers is a no-op |
| SyncEditor.MountAdoptsTemplate | src/components/resizable/resizable-layout-editor.tsx:229-269 | on mount, the template's layout replaces the initial one, and the JSON text becomes its serialisation |
| SyncEditor.EditorSurface | src/components/resizable/resizable-layout-editor.tsx:316-322 | the editor pane shows the JSON text in JSON mode and the code text in code mode |
| SyncEditor.LayoutConfig | src/components/resizable/resizable-layout-editor.tsx:272-332 | non-admin: config itself. Admin: horizontal, exactly preview-panel (67, nesting config) and editor-panel (33, showing the editor); sizes sum to 100 |
| SyncEditor.AdminPageRendersPreviewAndEditor | src/components/resizable/resizable-layout-editor.tsx:272-327 | the admin page renders as a horizontal group of two panes at 67 and 33, the preview rendering config with the same role |
| SyncEditor.SyncSession.constructor | src/components/resizable/resizable-layout-editor.tsx:229-238 | config is the initial layout, the JSON text its serialisation, the code text the template, JSON mode |
| SyncEditor.SyncSession.EditJson | src/components/resizable/resizable-layout-editor.tsx:318 | typing in the JSON editor changes only the JSON text |
| SyncEditor.SyncSession.EditCode | src/components/resizable/resizable-layout-editor.tsx:320 | typing in the code editor changes only the code text |
| SyncEditor.SyncSession.SetEditorMode | src/components/resizable/resizable-layout-editor.tsx:296-299 | switching tabs changes only the editor mode |
| SyncEditor.SyncSession.CommitJson | src/components/resizable/resizable-layout-editor.tsx:245-252 | the new state is the JSON commit of the old one |
| SyncEditor.SyncSession.CommitCode | src/components/resizable/resizable-layout-editor.tsx:255-269 | the new state is the code commit of the old one |
| SyncEditor.SyncSession.Mount | src/components/resizable/resizable-layout-editor.tsx:245-269 | on mount the JSON commit runs, then the code commit |
| SyncEditor.SyncSession.Displayed | src/components/resizable/resizable-layout-editor.tsx:272-332 | an admin's displayed layout sums to 100; a visitor's is config |
| ElementEditor.DefaultPropsForType | src/app/rekajs/page.tsx:79-114 | a known type gets a className and an unknown type gets no props; text gets exactly children and className; input gets a style and no children; button gets no style |
| ElementEditor.Merge | src/app/rekajs/page.tsx:39 | updated keys take the new value (a style is replaced whole), other keys keep the old value, no key is lost |
| ElementEditor.MergeIdempotent | src/app/rekajs/page.tsx:39 | merging the same update twice equals merging it once |
| ElementEditor.MergeTwice | src/app/rekajs/page.tsx:39 | two successive merges equal one merge of the combined update |
| ElementEditor.UpdatedElements | src/app/rekajs/page.tsx:37-41 | the list keeps length, order, ids and types; elements with another id are unchanged; those with the id get the merge |
| ElementEditor.UpdateAbsentIsIdentity | src/app/rekajs/page.tsx:37-41 | updating an id no element carries leaves the list equal |
| ElementEditor.UpdateIdempotent | src/app/rekajs/page.tsx:37-41 | repeating an update changes nothing more |
| ElementEditor.UpdatedSelection | src/app/rekajs/page.tsx:43-45 | the selection gets the same merge iff its id is the updated id, otherwise it is unchanged |
| ElementEditor.UpdateKeepsSelectionListed | src/app/rekajs/page.tsx:36-46 | a selection that is one of the elements is still one of the elements after an update |
| ElementEditor.InitialElements | src/data/initialElements.ts:3-30 | three starting elements of known types with distinct ids |
| ElementEditor.EditorPage.constructor | src/app/rekajs/page.tsx:13-16 | the page starts with the three initial elements and no selection |
| ElementEditor.EditorPage.SelectElement | src/app/rekajs/page.tsx:19-21 | selecting sets the selection and leaves the list unchanged |
| ElementEditor.EditorPage.AddElement | src/app/rekajs/page.tsx:24-33 | exactly one element, `element-<stamp>` with the type's default props, is appended at the end and becomes the selection |
| ElementEditor.EditorPage.UpdateElementProps | src/app/rekajs/page.tsx:36-46 | the list and the selection receive the update as above, and a listed selection stays listed |

## Left out

- Markup and UI: buttons, tooltips, tabs, labels, class composition, click propagation and the rest of the JSX are not modelled. Rendering yields a `View` value.
- Resize widgets: the resizable group, panel and handle components are represented only by the `View` datatype. Dragging is not modelled.
- Debouncing: the `useDebounce` hook and its timers are not part of this model. Each commit is one method call.
- React scheduling: effects and state setters are modelled as sequential method calls. Batching and re-render order are not modelled.
- JSON parsing, JSON serialisation and code evaluation are function parameters. JSON that parses to a value other than a layout is not modelled: `parse` yields a layout or nothing.
- An object returned by the code that is not a layout (an array, say) is not modelled. The code result `Object` always carries a layout.
- SyncEditor.TemplateConfig: the code template's text is a parameter of the session constructor and of `MountAdoptsTemplate`. Its layout is stated, and the evaluator's result on the text is a hypothesis.
- The JSON editor's own error indicator (src/components/resizable/json-editor.tsx and the inline editor at src/components/resizable/resizable-layout-editor.tsx:14-55) is local display state and is not modelled.
- `Date.now()` ids are string parameters. Their uniqueness is not assumed.
- Floating point: sizes are real numbers, so n/(n+1) scaling is exact. NaN and infinities from a zero total are the single value `NonFinite`.
- TreeOps.InsertInto: `newPanel.defaultSize = 50` mutates the caller's object. The model uses a copy with size 50. Both callers build a fresh panel, so no other reference can observe the difference.
- The preview canvas, element library and properties panel (src/components/editor/*) are not part of this model. Neither are the routing pages (src/app/page.tsx, src/app/editor/page.tsx). The properties panel's one-key edit is an instance of `ElementEditor.Merge`.
- The element editor page's own three-column layout (src/app/rekajs/page.tsx:48-75) is markup and is not modelled.
- Element prop values other than strings and style maps (numbers, handlers) are not modelled. An element's type is a string, so the `default` branch of the props switch can be reached.
- SyncEditor.DefaultConfig: the dashboard's markup content is the opaque value `Fragment(tag, body)`. The ids, sizes, bounds and classes are kept.
