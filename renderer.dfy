/**
 * The read-only renderer: it shows a layout to a viewer, leaves out the panels the
 * viewer may not see, and rescales the stored sizes of each group into whole
 * percentages of the group's visible total.
 */
module Renderer {
  import opened Wrappers
  import opened PanelTree
  import opened View

  /** `Math.round`: the nearest integer, a half rounded up. */
  function Round(x: real): (r: int)
    ensures x - 0.5 < r as real <= x + 0.5
  {
    (x + 0.5).Floor
  }

  /** A panel's exact share of its group's total, in percent. */
  function Share(size: real, total: real): real
    requires total != 0.0
  {
    size / total * 100.0
  }

  /** The size prop of a pane: its share rounded to a whole percentage; with a zero total, not a number. */
  function Normalize(size: real, total: real): (r: Size)
    ensures r.NonFinite? <==> total == 0.0
    ensures total != 0.0 ==> r == Finite(Round(Share(size, total)) as real)
    ensures total != 0.0 ==> Share(size, total) - 0.5 < r.value <= Share(size, total) + 0.5
  {
    if total == 0.0 then NonFinite else Finite(Round(Share(size, total)) as real)
  }

  /** What a leaf shows: string content inside a span carrying the text class, any other content as it is. */
  function Show(p: Panel): (s: Shown)
    ensures s.Span? <==> p.content.Some? && p.content.value.Text?
    ensures s.content == p.content
    ensures s.Span? ==> s.textClass == p.textClass
  {
    if p.content.Some? && p.content.value.Text? then Span(p.textClass, p.content) else Raw(p.content)
  }

  /**
   * The renderer: no visible panel gives the placeholder, one visible panel is shown
   * on its own without a group (its size ignored), and two or more form a group whose
   * sizes are rescaled against the visible total.
   */
  function Render(layout: Layout, isAdmin: bool): (v: View)
    ensures var vis := Visible(layout.panels, isAdmin);
      (v.Placeholder? <==> |vis| == 0) && (v.Single? <==> |vis| == 1) && (v.Group? <==> |vis| >= 2)
    ensures v.className == layout.className
    ensures v.Single? ==>
      v.id == Visible(layout.panels, isAdmin)[0].id && v.body == RenderBody(Visible(layout.panels, isAdmin)[0], isAdmin)
    ensures v.Group? ==>
      v.direction == layout.direction
      && v.items == Arrange(NormalizedPanes(layout.panels, isAdmin, Sum(Visible(layout.panels, isAdmin))))
      && PanesOf(v.items) == NormalizedPanes(layout.panels, isAdmin, Sum(Visible(layout.panels, isAdmin)))
    decreases layout, 3
  {
    var vis := Visible(layout.panels, isAdmin);
    if |vis| == 0 then Placeholder(layout.className)
    else if |vis| == 1 then
      assert vis[0] in layout.panels;
      Single(vis[0].id, layout.className, RenderBody(vis[0], isAdmin))
    else
      var panes := NormalizedPanes(layout.panels, isAdmin, Sum(vis));
      ArrangeKeepsPanes(panes);
      Group(layout.direction, layout.className, Arrange(panes))
  }

  function RenderBody(p: Panel, isAdmin: bool): (b: Body)
    ensures b.Nested? <==> p.nested.Some?
    ensures p.nested.Some? ==> b == Nested(Render(p.nested.value, isAdmin))
    ensures p.nested.None? ==> b == Leaf(p.contentContainerClass, None, Show(p))
    decreases p, 0
  {
    if p.nested.Some? then Nested(Render(p.nested.value, isAdmin))
    else Leaf(p.contentContainerClass, None, Show(p))
  }

  /** The panes of a group: one per visible panel, in order. */
  function NormalizedPanes(ps: seq<Panel>, isAdmin: bool, total: real): (r: seq<Pane>)
    ensures |r| == |Visible(ps, isAdmin)|
    ensures forall i :: 0 <= i < |r| ==> r[i] == NormalizedPane(Visible(ps, isAdmin)[i], isAdmin, total)
    decreases ps, 2
  {
    if ps == [] then []
    else
      var rest := NormalizedPanes(ps[1..], isAdmin, total);
      VisibleCons(ps, isAdmin);
      if IsVisible(ps[0], isAdmin) then
        ConsIndex(NormalizedPane(ps[0], isAdmin, total), rest);
        [NormalizedPane(ps[0], isAdmin, total)] + rest
      else rest
  }

  /** One pane of a group: its size normalized against `total`, its clamps defaulted, its body rendered. */
  function NormalizedPane(p: Panel, isAdmin: bool, total: real): (pane: Pane)
    ensures pane.id == p.id && pane.size == Normalize(p.defaultSize, total)
    ensures pane.minSize == MinSizeOrDefault(p.minSize) && pane.maxSize == MaxSizeOrDefault(p.maxSize)
    ensures pane.body == RenderBody(p, isAdmin)
    decreases p, 1
  {
    Pane(p.id, Normalize(p.defaultSize, total), MinSizeOrDefault(p.minSize), MaxSizeOrDefault(p.maxSize), RenderBody(p, isAdmin))
  }

  /**
   * The rendered tree shows exactly the panels the viewer may see, in depth-first
   * pre-order: an admin-only panel is left out for a non-admin together with
   * everything nested in it.
   */
  lemma {:induction false} RenderShowsVisibleIds(layout: Layout, isAdmin: bool)
    ensures ViewIds(Render(layout, isAdmin)) == VisibleIds(layout.panels, isAdmin)
    decreases layout, 2
  {
    var vis := Visible(layout.panels, isAdmin);
    VisibleIdsOfVisible(layout.panels, isAdmin);
    if |vis| == 1 {
      var q := vis[0];
      assert vis == [q];
      assert vis[0] in layout.panels;
      assert vis[1..] == [];
      RenderBodyIds(q, isAdmin);
    } else if |vis| >= 2 {
      var panes := NormalizedPanes(layout.panels, isAdmin, Sum(vis));
      ArrangeIds(panes);
      NormalizedPanesIds(layout.panels, isAdmin, Sum(vis));
    }
  }

  lemma {:induction false} RenderBodyIds(p: Panel, isAdmin: bool)
    ensures BodyIds(RenderBody(p, isAdmin)) == if p.nested.Some? then VisibleIds(p.nested.value.panels, isAdmin) else []
    decreases p, 0
  {
    if p.nested.Some? {
      RenderShowsVisibleIds(p.nested.value, isAdmin);
    }
  }

  lemma {:induction false} NormalizedPanesIds(ps: seq<Panel>, isAdmin: bool, total: real)
    ensures PaneIds(NormalizedPanes(ps, isAdmin, total)) == VisibleIds(ps, isAdmin)
    decreases ps, 1
  {
    if ps != [] {
      var rest := NormalizedPanes(ps[1..], isAdmin, total);
      NormalizedPanesIds(ps[1..], isAdmin, total);
      if IsVisible(ps[0], isAdmin) {
        var r := NormalizedPanes(ps, isAdmin, total);
        assert r[1..] == rest;
        RenderBodyIds(ps[0], isAdmin);
      }
    }
  }

  /** Filtering a level before normalizing it changes nothing. */
  lemma {:induction false} NormalizedPanesOfVisible(ps: seq<Panel>, isAdmin: bool, total: real)
    ensures NormalizedPanes(Visible(ps, isAdmin), isAdmin, total) == NormalizedPanes(ps, isAdmin, total)
  {
    if ps != [] {
      NormalizedPanesOfVisible(ps[1..], isAdmin, total);
      var rest := Visible(ps[1..], isAdmin);
      if IsVisible(ps[0], isAdmin) {
        assert ([ps[0]] + rest)[1..] == rest;
      }
    }
  }

  /** Hidden panels have no effect at all: rendering the already filtered layout gives the same view. */
  lemma RenderIgnoresHiddenPanels(layout: Layout, isAdmin: bool)
    ensures Render(layout.(panels := Visible(layout.panels, isAdmin)), isAdmin) == Render(layout, isAdmin)
  {
    VisibleIdempotent(layout.panels, isAdmin);
    NormalizedPanesOfVisible(layout.panels, isAdmin, Sum(Visible(layout.panels, isAdmin)));
  }

  /** The sum of the exact shares of a level against `total`. */
  function SumShares(ps: seq<Panel>, total: real): real
    requires total != 0.0
  {
    if ps == [] then 0.0 else Share(ps[0].defaultSize, total) + SumShares(ps[1..], total)
  }

  lemma {:induction false} SumSharesIsScaledSum(ps: seq<Panel>, total: real)
    requires total != 0.0
    ensures SumShares(ps, total) == Sum(ps) / total * 100.0
  {
    if ps != [] {
      SumSharesIsScaledSum(ps[1..], total);
      var a := ps[0].defaultSize;
      var b := Sum(ps[1..]);
      assert a / total * 100.0 + b / total * 100.0 == (a + b) / total * 100.0;
    }
  }

  /** The exact shares of the visible panels add up to 100 whenever their total is not zero. */
  lemma SharesSumToHundred(vis: seq<Panel>)
    requires Sum(vis) != 0.0
    ensures SumShares(vis, Sum(vis)) == 100.0
  {
    SumSharesIsScaledSum(vis, Sum(vis));
    assert Sum(vis) / Sum(vis) == 1.0;
  }

  /** The total of the finite size props of a sequence of panes. */
  function FiniteTotal(panes: seq<Pane>): real {
    if panes == [] then 0.0
    else (if panes[0].size.Finite? then panes[0].size.value else 0.0) + FiniteTotal(panes[1..])
  }

  /** Rounding moves each size by at most a half, so the rounded total is within k/2 of the exact one. */
  lemma {:induction false} RoundedTotalNearShares(ps: seq<Panel>, isAdmin: bool, total: real)
    requires total != 0.0
    ensures var k := |Visible(ps, isAdmin)| as real;
      var d := FiniteTotal(NormalizedPanes(ps, isAdmin, total)) - SumShares(Visible(ps, isAdmin), total);
      -0.5 * k <= d <= 0.5 * k
  {
    if ps != [] {
      RoundedTotalNearShares(ps[1..], isAdmin, total);
      var r := NormalizedPanes(ps, isAdmin, total);
      var rest := NormalizedPanes(ps[1..], isAdmin, total);
      var vis := Visible(ps, isAdmin);
      var visRest := Visible(ps[1..], isAdmin);
      if IsVisible(ps[0], isAdmin) {
        assert vis == [ps[0]] + visRest;
        assert vis[1..] == visRest;
        assert r[1..] == rest;
        var x := Share(ps[0].defaultSize, total);
        assert r[0].size == Normalize(ps[0].defaultSize, total);
        assert x - 0.5 < r[0].size.value <= x + 0.5;
        assert FiniteTotal(r) == r[0].size.value + FiniteTotal(rest);
        assert SumShares(vis, total) == x + SumShares(visRest, total);
        assert |vis| as real == |visRest| as real + 1.0;
      } else {
        assert vis == visRest;
        assert r == rest;
      }
    }
  }

  /**
   * In a rendered group with a non-zero visible total, the size props add up to 100
   * give or take half a percent per visible panel.
   */
  lemma GroupSizesNearHundred(layout: Layout, isAdmin: bool)
    requires Render(layout, isAdmin).Group? && Sum(Visible(layout.panels, isAdmin)) != 0.0
    ensures var k := |Visible(layout.panels, isAdmin)| as real;
      var t := FiniteTotal(PanesOf(Render(layout, isAdmin).items));
      100.0 - 0.5 * k <= t <= 100.0 + 0.5 * k
  {
    var vis := Visible(layout.panels, isAdmin);
    RoundedTotalNearShares(layout.panels, isAdmin, Sum(vis));
    SharesSumToHundred(vis);
  }

  /** A text leaf used by the worked examples below. */
  function TextLeaf(id: string, size: real, isAdminOnly: bool): Panel {
    Panel(id, size, None, None, Some(Text(id)), None, None, None, Some(isAdminOnly), None)
  }

  lemma RoundedThird()
    ensures Round(Share(50.0, 150.0)) == 33
  {
    assert Share(50.0, 150.0) == 100.0 / 3.0;
  }

  /** Three equal panels get 33 each: the rounded sizes add up to 99, not 100. */
  lemma EqualThirdsRoundDown()
    ensures var v := Render(Layout(Horizontal, None, [TextLeaf("a", 50.0, false), TextLeaf("b", 50.0, false), TextLeaf("c", 50.0, false)]), false);
      v.Group? && |PanesOf(v.items)| == 3 && FiniteTotal(PanesOf(v.items)) == 99.0
      && forall i :: 0 <= i < 3 ==> PanesOf(v.items)[i].size == Finite(33.0)
  {
    var ps := [TextLeaf("a", 50.0, false), TextLeaf("b", 50.0, false), TextLeaf("c", 50.0, false)];
    assert ps[1..][1..][1..] == [];
    assert Visible(ps[1..][1..], false) == ps[1..][1..];
    assert Visible(ps[1..], false) == ps[1..];
    assert Visible(ps, false) == ps;
    assert Sum(ps) == 150.0;
    RoundedThird();
    var panes := NormalizedPanes(ps, false, 150.0);
    assert forall i :: 0 <= i < 3 ==> panes[i].size == Finite(33.0);
    assert panes[1..][1..][1..] == [];
    assert FiniteTotal(panes) == 99.0;
  }

  /**
   * The share of a panel hidden from a non-admin goes to the others: an admin-only
   * half beside two quarters renders, for a non-admin, as two halves.
   */
  lemma HiddenShareIsRedistributed()
    ensures var v := Render(Layout(Vertical, None, [TextLeaf("admin", 50.0, true), TextLeaf("b", 25.0, false), TextLeaf("c", 25.0, false)]), false);
      v.Group? && |PanesOf(v.items)| == 2
      && PanesOf(v.items)[0].size == Finite(50.0) && PanesOf(v.items)[1].size == Finite(50.0)
  {
    var ps := [TextLeaf("admin", 50.0, true), TextLeaf("b", 25.0, false), TextLeaf("c", 25.0, false)];
    var vis := [ps[1], ps[2]];
    assert ps[1..] == vis && vis[1..][1..] == [];
    assert Visible(ps, false) == vis;
    assert Sum(vis) == 50.0;
    assert Round(Share(25.0, 50.0)) == 50;
  }
}
