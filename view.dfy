/**
 * What rendering produces, as data: resizable groups of panes separated by drag
 * handles, and leaves that show a panel's content inside its container class.
 * Markup, event wiring and the resize widgets themselves are not represented.
 */
module View {
  import opened Wrappers
  import opened PanelTree

  /** How a leaf shows its content: inside a span carrying the text class, or as it is. */
  datatype Shown = Span(textClass: Option<string>, content: Option<Content>) | Raw(content: Option<Content>)

  /**
   * The editing component's decorations of a leaf: the selection ring, the
   * `overflow-x-auto` and `overflow-y-auto` classes, and the forced minimum widths
   * that make horizontal scrolling visible.
   */
  datatype Decor = Decor(selected: bool, overflowX: bool, overflowY: bool, wide: bool)

  datatype Body =
    | Nested(view: View)
    | Leaf(containerClass: Option<string>, decor: Option<Decor>, shown: Shown)

  /** A size prop: a number, or the NaN or infinity that a division by a zero total yields. */
  datatype Size = Finite(value: real) | NonFinite

  /** One resizable panel: the panel it shows, its size props and what it holds. */
  datatype Pane = Pane(id: string, size: Size, minSize: real, maxSize: real, body: Body)

  datatype Item = PaneItem(pane: Pane) | Handle

  datatype View =
    | Placeholder(className: Option<string>)
    | Single(id: string, className: Option<string>, body: Body)
    | Group(direction: Direction, className: Option<string>, items: seq<Item>)

  /** `panel.minSize || 10`: an absent minimum, and a minimum of 0, fall back to 10. */
  function MinSizeOrDefault(minSize: Option<real>): (r: real)
    ensures r != 0.0
    ensures minSize.Some? && minSize.value != 0.0 ==> r == minSize.value
    ensures minSize.None? || minSize.value == 0.0 ==> r == 10.0
  {
    if minSize.Some? && minSize.value != 0.0 then minSize.value else 10.0
  }

  /** `panel.maxSize || 90`: an absent maximum, and a maximum of 0, fall back to 90. */
  function MaxSizeOrDefault(maxSize: Option<real>): (r: real)
    ensures r != 0.0
    ensures maxSize.Some? && maxSize.value != 0.0 ==> r == maxSize.value
    ensures maxSize.None? || maxSize.value == 0.0 ==> r == 90.0
  {
    if maxSize.Some? && maxSize.value != 0.0 then maxSize.value else 90.0
  }

  /** The panes in order with a handle between each two neighbours and none at either end. */
  function Arrange(panes: seq<Pane>): (r: seq<Item>)
    ensures |r| == if panes == [] then 0 else 2 * |panes| - 1
  {
    if panes == [] then []
    else if |panes| == 1 then [PaneItem(panes[0])]
    else [PaneItem(panes[0]), Handle] + Arrange(panes[1..])
  }

  /** Panes sit at the even positions, in order, and handles at the odd ones. */
  lemma {:induction false} ArrangeAlternates(panes: seq<Pane>)
    ensures forall i :: 0 <= i < |panes| ==> Arrange(panes)[2 * i] == PaneItem(panes[i])
    ensures forall i :: 0 <= i < |panes| - 1 ==> Arrange(panes)[2 * i + 1] == Handle
  {
    if |panes| > 1 {
      var rest := Arrange(panes[1..]);
      ArrangeAlternates(panes[1..]);
      var r := Arrange(panes);
      assert r == [PaneItem(panes[0]), Handle] + rest;
      forall i | 0 <= i < |panes|
        ensures r[2 * i] == PaneItem(panes[i])
      {
        if i > 0 {
          assert r[2 * i] == rest[2 * (i - 1)];
          assert panes[1..][i - 1] == panes[i];
        }
      }
      forall i | 0 <= i < |panes| - 1
        ensures r[2 * i + 1] == Handle
      {
        if i > 0 {
          assert r[2 * i + 1] == rest[2 * (i - 1) + 1];
        }
      }
    }
  }

  /** The panes of a sequence of items, in order. */
  function PanesOf(items: seq<Item>): seq<Pane> {
    if items == [] then []
    else (if items[0].PaneItem? then [items[0].pane] else []) + PanesOf(items[1..])
  }

  function HandleCount(items: seq<Item>): nat {
    if items == [] then 0
    else (if items[0].Handle? then 1 else 0) + HandleCount(items[1..])
  }

  lemma PanesOfPair(p: Pane, rest: seq<Item>)
    ensures PanesOf([PaneItem(p), Handle] + rest) == [p] + PanesOf(rest)
    ensures HandleCount([PaneItem(p), Handle] + rest) == 1 + HandleCount(rest)
  {
    var r := [PaneItem(p), Handle] + rest;
    assert r[1..] == [Handle] + rest;
    assert r[1..][1..] == rest;
  }

  lemma PanesOfOne(p: Pane)
    ensures PanesOf([PaneItem(p)]) == [p] && HandleCount([PaneItem(p)]) == 0
  {
    assert [PaneItem(p)][1..] == [];
  }

  /** Arranging loses no pane and adds one handle fewer than there are panes. */
  lemma {:induction false} ArrangeKeepsPanes(panes: seq<Pane>)
    ensures PanesOf(Arrange(panes)) == panes
    ensures HandleCount(Arrange(panes)) == if panes == [] then 0 else |panes| - 1
  {
    if |panes| == 1 {
      PanesOfOne(panes[0]);
    } else if |panes| > 1 {
      ArrangeKeepsPanes(panes[1..]);
      PanesOfPair(panes[0], Arrange(panes[1..]));
      assert panes == [panes[0]] + panes[1..];
    }
  }

  /** The panel ids a view shows, in depth-first pre-order. */
  function ViewIds(v: View): seq<string>
    decreases v, 2
  {
    match v
    case Placeholder(_) => []
    case Single(id, _, body) => [id] + BodyIds(body)
    case Group(_, _, items) => ItemIds(items)
  }

  function BodyIds(b: Body): seq<string>
    decreases b, 1
  {
    match b
    case Nested(v) => ViewIds(v)
    case Leaf(_, _, _) => []
  }

  function ItemIds(items: seq<Item>): seq<string>
    decreases items, 0
  {
    if items == [] then []
    else ItemIdsOne(items[0]) + ItemIds(items[1..])
  }

  function ItemIdsOne(it: Item): seq<string>
    decreases it, 0
  {
    match it
    case Handle => []
    case PaneItem(pane) => [pane.id] + BodyIds(pane.body)
  }

  /** The ids of a sequence of panes laid out with handles. */
  function PaneIds(panes: seq<Pane>): seq<string> {
    if panes == [] then [] else [panes[0].id] + BodyIds(panes[0].body) + PaneIds(panes[1..])
  }

  lemma ItemIdsPair(p: Pane, rest: seq<Item>)
    ensures ItemIds([PaneItem(p), Handle] + rest) == [p.id] + BodyIds(p.body) + ItemIds(rest)
  {
    var r := [PaneItem(p), Handle] + rest;
    assert r[1..] == [Handle] + rest;
    assert r[1..][1..] == rest;
    assert ItemIds(r[1..]) == ItemIdsOne(Handle) + ItemIds(rest);
    assert ItemIds(r) == ItemIdsOne(PaneItem(p)) + ItemIds(r[1..]);
  }

  /** Handles show no panel: the ids of an arrangement are those of its panes. */
  lemma {:induction false} ArrangeIds(panes: seq<Pane>)
    ensures ItemIds(Arrange(panes)) == PaneIds(panes)
  {
    if |panes| == 1 {
      assert PaneIds(panes[1..]) == [];
      assert [PaneItem(panes[0])][1..] == [];
    } else if |panes| > 1 {
      ArrangeIds(panes[1..]);
      ItemIdsPair(panes[0], Arrange(panes[1..]));
    }
  }

  /**
   * The ids of the panels a viewer with role `isAdmin` gets to see, in depth-first
   * pre-order: a hidden panel is skipped together with everything nested in it.
   */
  function VisibleIds(ps: seq<Panel>, isAdmin: bool): seq<string> {
    if ps == [] then []
    else
      (if IsVisible(ps[0], isAdmin)
       then [ps[0].id] + (if ps[0].nested.Some? then VisibleIds(ps[0].nested.value.panels, isAdmin) else [])
       else [])
      + VisibleIds(ps[1..], isAdmin)
  }

  /** An admin sees every panel. */
  lemma {:induction false} AdminSeesAllIds(ps: seq<Panel>)
    ensures VisibleIds(ps, true) == Ids(ps)
  {
    if ps != [] {
      AdminSeesAllIds(ps[1..]);
      if ps[0].nested.Some? {
        AdminSeesAllIds(ps[0].nested.value.panels);
      }
    }
  }

  /** What a viewer sees is the full id list with some ids left out, the rest in order. */
  lemma {:induction false} VisibleIdsAreSubSeq(ps: seq<Panel>, isAdmin: bool)
    ensures SubSeq(VisibleIds(ps, isAdmin), Ids(ps))
  {
    if ps != [] {
      var p := ps[0];
      var inner := if p.nested.Some? then Ids(p.nested.value.panels) else [];
      var innerVisible := if p.nested.Some? then VisibleIds(p.nested.value.panels, isAdmin) else [];
      VisibleIdsAreSubSeq(ps[1..], isAdmin);
      if p.nested.Some? {
        VisibleIdsAreSubSeq(p.nested.value.panels, isAdmin);
      } else {
        SubSeqRefl(inner);
      }
      assert Ids(ps) == [p.id] + inner + Ids(ps[1..]);
      if IsVisible(p, isAdmin) {
        SubSeqRefl([p.id]);
        SubSeqConcat([p.id], [p.id], innerVisible, inner);
        SubSeqConcat([p.id] + innerVisible, [p.id] + inner, VisibleIds(ps[1..], isAdmin), Ids(ps[1..]));
      } else {
        SubSeqSkip(VisibleIds(ps[1..], isAdmin), [p.id] + inner, Ids(ps[1..]));
        assert VisibleIds(ps, isAdmin) == VisibleIds(ps[1..], isAdmin);
      }
    }
  }

  /** Filtering a level first changes nothing about what a viewer sees. */
  lemma {:induction false} VisibleIdsOfVisible(ps: seq<Panel>, isAdmin: bool)
    ensures VisibleIds(Visible(ps, isAdmin), isAdmin) == VisibleIds(ps, isAdmin)
  {
    if ps != [] {
      VisibleIdsOfVisible(ps[1..], isAdmin);
      var rest := Visible(ps[1..], isAdmin);
      if IsVisible(ps[0], isAdmin) {
        assert ([ps[0]] + rest)[1..] == rest;
      }
    }
  }
}
