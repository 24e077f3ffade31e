/**
 * The interactive layout editor: it holds a layout and a selected panel id, renders
 * every visible panel as a resizable pane, and offers add, nest, remove, flip,
 * scroll and admin-only operations on the selection. Each button handler is a method
 * of `Editor`; the clock readings that the source takes for fresh ids are parameters.
 */
module LayoutEditor {
  import opened Wrappers
  import opened PanelTree
  import opened TreeOps
  import opened View

  const LeafContainerClass: string := "flex h-[200px] items-center justify-center p-6"
  const NestedLeafContainerClass: string := "flex h-full items-center justify-center p-6"
  const LeafTextClass: string := "font-semibold"

  /** A fresh leaf as the add handler builds it: size 50, clamps 20..80 and the standard classes. */
  function StandardLeaf(id: string, text: string, containerClass: string): Panel {
    Panel(id, 50.0, Some(20.0), Some(80.0), Some(Text(text)), Some(containerClass), Some(LeafTextClass), None, None, None)
  }

  /** The layout the editor starts with when given none: two equal leaves side by side. */
  function DefaultLayout(): Layout {
    Layout(Horizontal, Some("max-w-full rounded-lg border"), [
      StandardLeaf("panel-1", "Panel 1", LeafContainerClass),
      StandardLeaf("panel-2", "Panel 2", LeafContainerClass)
    ])
  }

  lemma DefaultLayoutShape()
    ensures Ids(DefaultLayout().panels) == ["panel-1", "panel-2"]
    ensures Sum(DefaultLayout().panels) == 100.0
    ensures PositiveSizes(DefaultLayout().panels)
  {
    var ps := DefaultLayout().panels;
    assert ps[1..][1..] == [];
  }

  /**
   * The text before the first `-` of `s`, all of `s` when it has none: the second field
   * of `("panel-" + s).split("-")`.
   */
  function BeforeDash(s: string): (r: string)
    ensures '-' !in r
    ensures r <= s
    ensures |r| < |s| ==> s[|r|] == '-'
  {
    if s == [] || s[0] == '-' then [] else [s[0]] + BeforeDash(s[1..])
  }

  /** `addPanel`'s new leaf for the clock reading `stamp`: id `panel-<stamp>`, text `Panel <stamp up to a dash>`. */
  function NewLeafPanel(stamp: string): (p: Panel)
    ensures p.id == "panel-" + stamp && p.nested.None?
    ensures PositiveSizes([p])
  {
    StandardLeaf("panel-" + stamp, "Panel " + BeforeDash(stamp), LeafContainerClass)
  }

  /**
   * `addNestedPanel`'s new panel for the clock reading `stamp`: a container whose own
   * direction is perpendicular to `direction`, holding the leaves `<id>-1` and `<id>-2`.
   */
  function NewNestedPanel(stamp: string, direction: Direction): (p: Panel)
    ensures p.id == "panel-" + stamp && p.nested.Some?
    ensures p.nested.value.direction != direction
    ensures Ids([p]) == [p.id, p.id + "-1", p.id + "-2"]
    ensures PositiveSizes([p])
  {
    var id := "panel-" + stamp;
    var kids := [StandardLeaf(id + "-1", "Nested 1", NestedLeafContainerClass),
                 StandardLeaf(id + "-2", "Nested 2", NestedLeafContainerClass)];
    assert kids[1..][1..] == [];
    assert Ids(kids) == [id + "-1"] + Ids(kids[1..]);
    assert PositiveSizes(kids);
    var p := Panel(id, 50.0, Some(20.0), Some(80.0), None, None, None, None, None, Some(Layout(Opposite(direction), None, kids)));
    assert [p][1..] == [];
    p
  }

  /** The classes a leaf gets from the selection and from its scroll setting. */
  function LeafDecor(p: Panel, selectedPanelId: Option<string>): (d: Decor)
    ensures d.selected <==> selectedPanelId == Some(p.id)
    ensures d.overflowX ==> d.wide
    ensures d.overflowX || d.overflowY ==> p.isScrollable.Some? && p.isScrollable.value.enabled
    ensures p.isScrollable == Some(ScrollConfig(ScrollBoth, true)) ==> d.overflowX && d.overflowY && d.wide
    ensures p.isScrollable.None? ==> !d.overflowX && !d.overflowY && !d.wide
  {
    var s := p.isScrollable;
    var horizontal := s.Some? && (s.value.direction == ScrollHorizontal || s.value.direction == ScrollBoth);
    var vertical := s.Some? && (s.value.direction == ScrollVertical || s.value.direction == ScrollBoth);
    var enabled := s.Some? && s.value.enabled;
    Decor(selectedPanelId == Some(p.id), enabled && horizontal, enabled && vertical, horizontal)
  }

  /**
   * `renderPanelGroup`: always one resizable group with the layout's direction and
   * class, holding a pane per visible panel (handles between them) with the stored size
   * as given and the size clamps defaulted. A nested panel renders its nested layout,
   * a leaf its content in a span.
   */
  function RenderPanelGroup(layout: Layout, isAdmin: bool, selectedPanelId: Option<string>): (v: View)
    ensures v.Group? && v.direction == layout.direction && v.className == layout.className
    ensures v.items == Arrange(RenderPanes(layout.panels, isAdmin, selectedPanelId))
    ensures PanesOf(v.items) == RenderPanes(layout.panels, isAdmin, selectedPanelId)
    decreases layout, 1
  {
    var panes := RenderPanes(layout.panels, isAdmin, selectedPanelId);
    ArrangeKeepsPanes(panes);
    Group(layout.direction, layout.className, Arrange(panes))
  }

  function RenderPanes(ps: seq<Panel>, isAdmin: bool, selectedPanelId: Option<string>): (r: seq<Pane>)
    ensures |r| == |Visible(ps, isAdmin)|
    ensures forall i :: 0 <= i < |r| ==>
      var p := Visible(ps, isAdmin)[i];
      r[i].id == p.id && r[i].size == Finite(p.defaultSize)
      && r[i].minSize == MinSizeOrDefault(p.minSize) && r[i].maxSize == MaxSizeOrDefault(p.maxSize)
    decreases ps, 0
  {
    if ps == [] then []
    else
      var rest := RenderPanes(ps[1..], isAdmin, selectedPanelId);
      VisibleCons(ps, isAdmin);
      if IsVisible(ps[0], isAdmin) then
        ConsIndex(RenderPane(ps[0], isAdmin, selectedPanelId), rest);
        [RenderPane(ps[0], isAdmin, selectedPanelId)] + rest
      else rest
  }

  function RenderPane(p: Panel, isAdmin: bool, selectedPanelId: Option<string>): (r: Pane)
    ensures r.id == p.id && r.size == Finite(p.defaultSize)
    ensures r.minSize == MinSizeOrDefault(p.minSize) && r.maxSize == MaxSizeOrDefault(p.maxSize)
    ensures r.body.Nested? <==> p.nested.Some?
    ensures p.nested.None? ==> r.body == Leaf(p.contentContainerClass, Some(LeafDecor(p, selectedPanelId)), Span(p.textClass, p.content))
    decreases p, 0
  {
    var body :=
      if p.nested.Some? then Nested(RenderPanelGroup(p.nested.value, isAdmin, selectedPanelId))
      else Leaf(p.contentContainerClass, Some(LeafDecor(p, selectedPanelId)), Span(p.textClass, p.content));
    Pane(p.id, Finite(p.defaultSize), MinSizeOrDefault(p.minSize), MaxSizeOrDefault(p.maxSize), body)
  }

  /**
   * The rendered tree shows exactly the panels the viewer may see, in depth-first
   * pre-order: an admin-only panel is left out for a non-admin together with
   * everything nested in it.
   */
  lemma {:induction false} RenderShowsVisibleIds(layout: Layout, isAdmin: bool, selectedPanelId: Option<string>)
    ensures ViewIds(RenderPanelGroup(layout, isAdmin, selectedPanelId)) == VisibleIds(layout.panels, isAdmin)
    decreases layout, 1
  {
    var panes := RenderPanes(layout.panels, isAdmin, selectedPanelId);
    ArrangeIds(panes);
    RenderPanesIds(layout.panels, isAdmin, selectedPanelId);
  }

  lemma {:induction false} RenderPanesIds(ps: seq<Panel>, isAdmin: bool, selectedPanelId: Option<string>)
    ensures PaneIds(RenderPanes(ps, isAdmin, selectedPanelId)) == VisibleIds(ps, isAdmin)
    decreases ps, 0
  {
    if ps != [] {
      var p := ps[0];
      var rest := RenderPanes(ps[1..], isAdmin, selectedPanelId);
      RenderPanesIds(ps[1..], isAdmin, selectedPanelId);
      if IsVisible(p, isAdmin) {
        var pane := RenderPane(p, isAdmin, selectedPanelId);
        assert ([pane] + rest)[1..] == rest;
        if p.nested.Some? {
          RenderShowsVisibleIds(p.nested.value, isAdmin, selectedPanelId);
        }
      }
    }
  }

  /** The editing component: its layout state, its selection and its handlers. */
  class Editor {
    var config: Layout
    var selectedPanelId: Option<string>
    const isAdmin: bool

    /** `configProp || initialConfig || default`, with nothing selected. */
    constructor(configProp: Option<Layout>, initialConfig: Option<Layout>, isAdmin: bool)
      ensures this.isAdmin == isAdmin && selectedPanelId == None
      ensures config == if configProp.Some? then configProp.value
                        else if initialConfig.Some? then initialConfig.value
                        else DefaultLayout()
    {
      this.isAdmin := isAdmin;
      selectedPanelId := None;
      config := if configProp.Some? then configProp.value
                else if initialConfig.Some? then initialConfig.value
                else DefaultLayout();
    }

    /** What the component renders for its current state. */
    function Rendered(): (v: View)
      reads this
      ensures ViewIds(v) == VisibleIds(config.panels, isAdmin)
    {
      RenderShowsVisibleIds(config, isAdmin, selectedPanelId);
      RenderPanelGroup(config, isAdmin, selectedPanelId)
    }

    /** The selected panel's details: the first panel with the selected id, when the selection is set. */
    function SelectedPanel(): (r: Option<Panel>)
      reads this
      ensures r.Some? ==> Truthy(selectedPanelId) && r.value.id == selectedPanelId.value && r.value in Flatten(config.panels)
      ensures r.None? <==> !Truthy(selectedPanelId) || selectedPanelId.value !in Ids(config.panels)
    {
      if Truthy(selectedPanelId) then FindPanelById(selectedPanelId.value, config.panels) else None
    }

    /** Clicking a leaf selects it, or clears the selection when it was already selected. */
    method TogglePanelSelection(panelId: string)
      modifies this
      ensures selectedPanelId == if old(selectedPanelId) == Some(panelId) then None else Some(panelId)
      ensures config == old(config)
    {
      selectedPanelId := if selectedPanelId == Some(panelId) then None else Some(panelId);
    }

    /** A click anywhere else in the component clears the selection. */
    method ClearSelection()
      modifies this
      ensures selectedPanelId == None && config == old(config)
    {
      selectedPanelId := None;
    }

    /**
     * Removes every panel with the id at every depth (a removed container takes its
     * subtree with it) and drops the selection when it was that id.
     */
    method RemovePanel(panelId: string)
      modifies this
      ensures selectedPanelId == if old(selectedPanelId) == Some(panelId) then None else old(selectedPanelId)
      ensures config == old(config).(panels := RemoveFromPanels(old(config.panels), panelId))
      ensures panelId !in Ids(config.panels)
      ensures SubSeq(Outline(config.panels), Outline(old(config.panels)))
      ensures Outline(config.panels) == PrunedOutline(old(config.panels), panelId)
    {
      if selectedPanelId == Some(panelId) {
        selectedPanelId := None;
      }
      RemoveKeepsOrderAndSizes(config.panels, panelId);
      RemoveOutline(config.panels, panelId);
      config := config.(panels := RemoveFromPanels(config.panels, panelId));
    }

    /**
     * Adds a new leaf (`panel-<stamp>`) next to or into the selection as `updatePanels`
     * does; `containerStamp` is the clock reading used for a wrapping container's id.
     * The parent lookup the source makes first leads to the same update on both of
     * its outcomes.
     */
    method AddPanel(direction: Direction, stamp: string, containerStamp: string)
      modifies this
      ensures selectedPanelId == old(selectedPanelId)
      ensures config == old(config).(panels := UpdatePanels(old(config.panels), old(config.direction), old(selectedPanelId),
                                                        NewLeafPanel(stamp), direction, "container-" + containerStamp))
      ensures !Truthy(selectedPanelId) || selectedPanelId.value in Ids(old(config.panels)) ==>
        "panel-" + stamp in Ids(config.panels)
      ensures Truthy(selectedPanelId) ==> forall i :: 0 <= i < |old(config.panels)| && selectedPanelId.value !in Ids([old(config.panels)[i]]) ==>
        config.panels[i] == old(config.panels)[i]
      ensures PositiveSizes(old(config.panels)) ==> PositiveSizes(config.panels)
    {
      var newPanel := NewLeafPanel(stamp);
      var containerId := "container-" + containerStamp;
      if !Truthy(selectedPanelId) || selectedPanelId.value in Ids(config.panels) {
        UpdatePanelsPlacesNewPanel(config.panels, config.direction, selectedPanelId, newPanel, direction, containerId);
      }
      if PositiveSizes(config.panels) {
        UpdatePanelsKeepsPositiveSizes(config.panels, config.direction, selectedPanelId, newPanel, direction, containerId);
      }
      if Truthy(selectedPanelId) {
        var context := FindParentPanel(selectedPanelId.value, config.panels, config.direction);
        if context.parent.Some? {
          config := config.(panels := UpdatePanels(config.panels, config.direction, selectedPanelId, newPanel, direction, containerId));
          return;
        }
      }
      config := config.(panels := UpdatePanels(config.panels, config.direction, selectedPanelId, newPanel, direction, containerId));
    }

    /** Adds a new container (`panel-<stamp>`) of two leaves laid out across `direction`, placed as `AddPanel` places a leaf. */
    method AddNestedPanel(direction: Direction, stamp: string, containerStamp: string)
      modifies this
      ensures selectedPanelId == old(selectedPanelId)
      ensures config == old(config).(panels := UpdatePanels(old(config.panels), old(config.direction), old(selectedPanelId),
                                                        NewNestedPanel(stamp, direction), direction, "container-" + containerStamp))
      ensures !Truthy(selectedPanelId) || selectedPanelId.value in Ids(old(config.panels)) ==>
        "panel-" + stamp in Ids(config.panels)
      ensures Truthy(selectedPanelId) ==> forall i :: 0 <= i < |old(config.panels)| && selectedPanelId.value !in Ids([old(config.panels)[i]]) ==>
        config.panels[i] == old(config.panels)[i]
      ensures PositiveSizes(old(config.panels)) ==> PositiveSizes(config.panels)
    {
      var newPanel := NewNestedPanel(stamp, direction);
      var containerId := "container-" + containerStamp;
      if !Truthy(selectedPanelId) || selectedPanelId.value in Ids(config.panels) {
        UpdatePanelsPlacesNewPanel(config.panels, config.direction, selectedPanelId, newPanel, direction, containerId);
      }
      if PositiveSizes(config.panels) {
        UpdatePanelsKeepsPositiveSizes(config.panels, config.direction, selectedPanelId, newPanel, direction, containerId);
      }
      config := config.(panels := UpdatePanels(config.panels, config.direction, selectedPanelId, newPanel, direction, containerId));
    }

    /**
     * With a selection, flips the nested direction of the selected container (a
     * selected leaf is left as it is); without one, flips the root direction.
     */
    method ToggleDirection()
      modifies this
      ensures selectedPanelId == old(selectedPanelId)
      ensures Truthy(selectedPanelId) ==>
        config == old(config).(panels := UpdateNestedDirection(old(config.panels), selectedPanelId.value))
      ensures !Truthy(selectedPanelId) ==>
        config == old(config).(direction := Opposite(old(config.direction)))
      ensures Ids(config.panels) == Ids(old(config.panels))
      ensures Truthy(selectedPanelId) ==>
        OnlyTargetsChange(Outline(old(config.panels)), Outline(config.panels), selectedPanelId.value, FlipNested)
    {
      if Truthy(selectedPanelId) {
        UpdateNestedDirectionKeepsIds(config.panels, selectedPanelId.value);
        UpdateNestedDirectionOutline(config.panels, selectedPanelId.value);
        config := config.(panels := UpdateNestedDirection(config.panels, selectedPanelId.value));
      } else {
        config := config.(direction := Opposite(config.direction));
      }
    }

    /** Turns scrolling on in `direction` for every panel with the selected id; no selection, no change. */
    method MakeSelectedPanelScrollable(direction: ScrollDirection)
      modifies this
      ensures selectedPanelId == old(selectedPanelId)
      ensures Truthy(selectedPanelId) ==>
        config == old(config).(panels := UpdateScrollable(old(config.panels), selectedPanelId.value, direction))
      ensures !Truthy(selectedPanelId) ==> config == old(config)
      ensures Ids(config.panels) == Ids(old(config.panels))
      ensures Truthy(selectedPanelId) ==>
        var before, after := Outline(old(config.panels)), Outline(config.panels);
        |after| == |before|
        && forall k :: 0 <= k < |before| ==>
             after[k] == before[k] || (before[k].id == selectedPanelId.value && after[k] == WithScroll(before[k], direction))
    {
      if !Truthy(selectedPanelId) {
        return;
      }
      UpdateScrollableEffect(config.panels, selectedPanelId.value, direction);
      UpdateScrollableOutline(config.panels, selectedPanelId.value, direction);
      config := config.(panels := UpdateScrollable(config.panels, selectedPanelId.value, direction));
    }

    /** Negates the admin-only flag of every panel with the selected id; no selection, no change. */
    method ToggleAdminOnly()
      modifies this
      ensures selectedPanelId == old(selectedPanelId)
      ensures Truthy(selectedPanelId) ==>
        config == old(config).(panels := UpdateAdminOnly(old(config.panels), selectedPanelId.value))
      ensures !Truthy(selectedPanelId) ==> config == old(config)
      ensures Ids(config.panels) == Ids(old(config.panels))
      ensures Truthy(selectedPanelId) ==>
        OnlyTargetsChange(Outline(old(config.panels)), Outline(config.panels), selectedPanelId.value, ToggleAdminFlag)
    {
      if !Truthy(selectedPanelId) {
        return;
      }
      UpdateAdminOnlyEffect(config.panels, selectedPanelId.value);
      UpdateAdminOnlyOutline(config.panels, selectedPanelId.value);
      config := config.(panels := UpdateAdminOnly(config.panels, selectedPanelId.value));
    }
  }
}
