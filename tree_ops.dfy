/**
 * The pure tree helpers of the editing component: depth-first lookup, removal,
 * the three-way insertion of `updatePanels`, and the descend-and-patch updates
 * behind the direction, scroll and admin-only toggles. None of them changes its
 * input; each returns a new list of panels.
 */
module TreeOps {
  import opened Wrappers
  import opened PanelTree

  /** `!targetId` is false only for a non-empty string: null and "" both count as "no target". */
  predicate Truthy(s: Option<string>) {
    s.Some? && s.value != ""
  }

  // ---------------------------------------------------------------------------
  // Lookup
  // ---------------------------------------------------------------------------

  /** Reference definition: the first panel of a flat sequence that carries the id. */
  function FirstWithId(s: seq<Panel>, panelId: string): (r: Option<Panel>)
    ensures r.Some? ==> r.value in s && r.value.id == panelId
    ensures r.None? <==> forall q :: q in s ==> q.id != panelId
  {
    if s == [] then None
    else if s[0].id == panelId then Some(s[0])
    else
      assert forall q :: q in s ==> q == s[0] || q in s[1..];
      FirstWithId(s[1..], panelId)
  }

  lemma {:induction false} FirstWithIdAppend(a: seq<Panel>, b: seq<Panel>, panelId: string)
    ensures FirstWithId(a + b, panelId)
      == if FirstWithId(a, panelId).Some? then FirstWithId(a, panelId) else FirstWithId(b, panelId)
  {
    if a == [] {
      assert a + b == b;
    } else {
      assert (a + b)[0] == a[0] && (a + b)[1..] == a[1..] + b;
      FirstWithIdAppend(a[1..], b, panelId);
    }
  }

  /**
   * `findPanelById`: scans the panels in order, answering a panel whose id matches,
   * else the first match inside its nested layout, else carrying on with the next sibling.
   */
  function FindPanelById(panelId: string, panels: seq<Panel>): (r: Option<Panel>)
    ensures r.Some? ==> r.value.id == panelId && r.value in Flatten(panels)
    ensures r.None? <==> panelId !in Ids(panels)
  {
    if panels == [] then None
    else if panels[0].id == panelId then Some(panels[0])
    else
      var inner := if panels[0].nested.Some? then FindPanelById(panelId, panels[0].nested.value.panels) else None;
      if inner.Some? then inner else FindPanelById(panelId, panels[1..])
  }

  /** The panel found is the first one in depth-first pre-order that carries the id. */
  lemma {:induction false} FindPanelByIdIsFirstInPreorder(panelId: string, panels: seq<Panel>)
    ensures FindPanelById(panelId, panels) == FirstWithId(Flatten(panels), panelId)
  {
    if panels != [] {
      var p := panels[0];
      var fn := if p.nested.Some? then Flatten(p.nested.value.panels) else [];
      var ft := Flatten(panels[1..]);
      assert Flatten(panels) == [p] + (fn + ft);
      if p.id != panelId {
        assert ([p] + (fn + ft))[1..] == fn + ft;
        FirstWithIdAppend(fn, ft, panelId);
        FindPanelByIdIsFirstInPreorder(panelId, panels[1..]);
        if p.nested.Some? {
          FindPanelByIdIsFirstInPreorder(panelId, p.nested.value.panels);
        }
      }
    }
  }

  /** What `findParentPanel` answers: the sibling list holding the id, and that list's direction. */
  datatype ParentContext = ParentContext(parent: Option<seq<Panel>>, direction: Direction)

  /** `(q, e)` is the top level `(panels, d)` or a nested layout's panels and direction at some depth. */
  ghost predicate IsSiblingList(panels: seq<Panel>, d: Direction, q: seq<Panel>, e: Direction)
    decreases panels
  {
    (q == panels && e == d)
    || exists i :: 0 <= i < |panels| && panels[i].nested.Some?
         && IsSiblingList(panels[i].nested.value.panels, panels[i].nested.value.direction, q, e)
  }

  /**
   * `findParentPanel`: a for-of loop over `panels` with early return. `parentDirection`
   * is the direction of the list being scanned (the root direction at top level).
   */
  function FindParentPanel(panelId: string, panels: seq<Panel>, parentDirection: Direction): (r: ParentContext)
    ensures r.parent.Some? <==> panelId in Ids(panels)
    ensures r.parent.None? ==> r.direction == parentDirection
    decreases panels, |panels| + 1
  {
    assert panels[0..] == panels;
    FindParentFrom(panelId, panels, parentDirection, 0)
  }

  /** The loop of `findParentPanel` from position `i` on. */
  function FindParentFrom(panelId: string, panels: seq<Panel>, parentDirection: Direction, i: nat): (r: ParentContext)
    requires i <= |panels|
    ensures r.parent.Some? <==> panelId in Ids(panels[i..])
    ensures r.parent.None? ==> r.direction == parentDirection
    decreases panels, |panels| - i
  {
    if i == |panels| then ParentContext(None, parentDirection)
    else
      assert panels[i..][0] == panels[i] && panels[i..][1..] == panels[i + 1..];
      if panels[i].id == panelId then ParentContext(Some(panels), parentDirection)
      else
        var inner :=
          if panels[i].nested.Some?
          then FindParentPanel(panelId, panels[i].nested.value.panels, panels[i].nested.value.direction)
          else ParentContext(None, parentDirection);
        if inner.parent.Some? then inner else FindParentFrom(panelId, panels, parentDirection, i + 1)
  }

  /** The list `findParentPanel` answers holds the very panel `findPanelById` answers. */
  lemma {:induction false} FindParentHoldsFoundPanel(panelId: string, panels: seq<Panel>, d: Direction)
    ensures var r := FindParentPanel(panelId, panels, d);
      r.parent.Some? ==> FindPanelById(panelId, panels).value in r.parent.value
    decreases panels, |panels| + 1
  {
    assert panels[0..] == panels;
    FindParentFromHoldsFoundPanel(panelId, panels, d, 0);
  }

  lemma {:induction false} FindParentFromHoldsFoundPanel(panelId: string, panels: seq<Panel>, d: Direction, i: nat)
    requires i <= |panels|
    ensures var r := FindParentFrom(panelId, panels, d, i);
      r.parent.Some? ==> FindPanelById(panelId, panels[i..]).value in r.parent.value
    decreases panels, |panels| - i
  {
    if i < |panels| {
      assert panels[i..][0] == panels[i] && panels[i..][1..] == panels[i + 1..];
      if panels[i].id != panelId {
        if panels[i].nested.Some? {
          var n := panels[i].nested.value;
          FindParentHoldsFoundPanel(panelId, n.panels, n.direction);
        }
        FindParentFromHoldsFoundPanel(panelId, panels, d, i + 1);
      }
    }
  }

  /** The direction answered is the direction of the answered list, wherever it sits in the tree. */
  lemma {:induction false} FindParentIsSiblingList(panelId: string, panels: seq<Panel>, d: Direction)
    ensures var r := FindParentPanel(panelId, panels, d);
      r.parent.Some? ==> IsSiblingList(panels, d, r.parent.value, r.direction)
    decreases panels, |panels| + 1
  {
    assert panels[0..] == panels;
    FindParentFromIsSiblingList(panelId, panels, d, 0);
  }

  lemma {:induction false} FindParentFromIsSiblingList(panelId: string, panels: seq<Panel>, d: Direction, i: nat)
    requires i <= |panels|
    ensures var r := FindParentFrom(panelId, panels, d, i);
      r.parent.Some? ==> IsSiblingList(panels, d, r.parent.value, r.direction)
    decreases panels, |panels| - i
  {
    if i < |panels| && panels[i].id != panelId {
      var r := FindParentFrom(panelId, panels, d, i);
      if panels[i].nested.Some? {
        var n := panels[i].nested.value;
        FindParentIsSiblingList(panelId, n.panels, n.direction);
        var inner := FindParentPanel(panelId, n.panels, n.direction);
        if inner.parent.Some? {
          assert IsSiblingList(n.panels, n.direction, r.parent.value, r.direction);
        }
      }
      FindParentFromIsSiblingList(panelId, panels, d, i + 1);
    }
  }

  /** When the first match is a top-level panel, the answer is the root list and the root direction. */
  lemma {:induction false} FindParentAtTopLevel(panelId: string, panels: seq<Panel>, d: Direction, i: nat)
    requires i < |panels| && panels[i].id == panelId && panelId !in Ids(panels[..i])
    ensures FindParentPanel(panelId, panels, d) == ParentContext(Some(panels), d)
  {
    assert panels[0..] == panels;
    FindParentFromReaches(panelId, panels, d, 0, i);
  }

  lemma {:induction false} FindParentFromReaches(panelId: string, panels: seq<Panel>, d: Direction, j: nat, i: nat)
    requires j <= i < |panels| && panels[i].id == panelId && panelId !in Ids(panels[j..i])
    ensures FindParentFrom(panelId, panels, d, j) == ParentContext(Some(panels), d)
    decreases i - j
  {
    if j < i {
      assert panels[j..i][0] == panels[j] && panels[j..i][1..] == panels[j + 1..i];
      assert panels[j..][0] == panels[j] && panels[j..][1..] == panels[j + 1..];
      FindParentFromReaches(panelId, panels, d, j + 1, i);
    }
  }

  // ---------------------------------------------------------------------------
  // Removal
  // ---------------------------------------------------------------------------

  /** The `panels.filter((p) => p.id !== panelId)` step of `removeFromPanels`. */
  function KeepOthers(panels: seq<Panel>, panelId: string): (r: seq<Panel>)
    ensures forall i :: 0 <= i < |r| ==> r[i] in panels && r[i].id != panelId
    ensures forall p :: p in panels && p.id != panelId ==> p in r
    ensures SubSeq(r, panels)
  {
    if panels == [] then []
    else
      var rest := KeepOthers(panels[1..], panelId);
      SubSeqSkip(rest, [panels[0]], panels[1..]);
      assert panels == [panels[0]] + panels[1..];
      if panels[0].id != panelId then
        assert ([panels[0]] + rest)[1..] == rest;
        [panels[0]] + rest
      else rest
  }

  /** The filter keeps every panel without the id as often as it occurs, and none with it. */
  lemma {:induction false} KeepOthersMultiplicity(panels: seq<Panel>, panelId: string)
    ensures forall p :: multiset(KeepOthers(panels, panelId))[p] == if p.id != panelId then multiset(panels)[p] else 0
  {
    if panels != [] {
      KeepOthersMultiplicity(panels[1..], panelId);
      assert panels == [panels[0]] + panels[1..];
    }
  }

  /**
   * `removeFromPanels`: drops every panel with the id from this level, then descends into
   * the survivors' nested layouts. Sizes of the survivors are left as they were.
   */
  function RemoveFromPanels(panels: seq<Panel>, panelId: string): (r: seq<Panel>)
    ensures |r| == |KeepOthers(panels, panelId)|
    ensures forall i :: 0 <= i < |r| ==> Header(r[i]) == Header(KeepOthers(panels, panelId)[i])
    ensures panelId !in Ids(r)
  {
    if panels == [] then []
    else
      var rest := RemoveFromPanels(panels[1..], panelId);
      var p := panels[0];
      if p.id == panelId then rest
      else
        var q := if p.nested.Some?
          then p.(nested := Some(p.nested.value.(panels := RemoveFromPanels(p.nested.value.panels, panelId))))
          else p;
        assert ([q] + rest)[0] == q && ([q] + rest)[1..] == rest;
        [q] + rest
  }

  /** Every panel that survives removal keeps its own fields, its size included, and its pre-order position relative to the others. */
  lemma {:induction false} RemoveKeepsOrderAndSizes(panels: seq<Panel>, panelId: string)
    ensures SubSeq(Outline(RemoveFromPanels(panels, panelId)), Outline(panels))
  {
    if panels != [] {
      var p := panels[0];
      var sub := if p.nested.Some? then Outline(p.nested.value.panels) else [];
      RemoveKeepsOrderAndSizes(panels[1..], panelId);
      var restOut := Outline(RemoveFromPanels(panels[1..], panelId));
      assert Outline(panels) == ([Header(p)] + sub) + Outline(panels[1..]);
      if p.id == panelId {
        SubSeqSkip(restOut, [Header(p)] + sub, Outline(panels[1..]));
      } else {
        var r := RemoveFromPanels(panels, panelId);
        var q := r[0];
        assert r[1..] == RemoveFromPanels(panels[1..], panelId);
        assert Header(q) == Header(p);
        var subQ := if q.nested.Some? then Outline(q.nested.value.panels) else [];
        if p.nested.Some? {
          RemoveKeepsOrderAndSizes(p.nested.value.panels, panelId);
        } else {
          SubSeqRefl(sub);
        }
        assert Outline(r) == ([Header(p)] + subQ) + restOut;
        SubSeqRefl([Header(p)]);
        SubSeqConcat([Header(p)], [Header(p)], subQ, sub);
        SubSeqConcat([Header(p)] + subQ, [Header(p)] + sub, restOut, Outline(panels[1..]));
      }
    }
  }

  /**
   * The headers removal of `panelId` leaves, in pre-order: the outline with every subtree
   * whose root carries the id skipped, and nothing else skipped.
   */
  function PrunedOutline(panels: seq<Panel>, panelId: string): seq<Panel> {
    if panels == [] then []
    else
      (if panels[0].id == panelId then []
       else [Header(panels[0])] + (if panels[0].nested.Some? then PrunedOutline(panels[0].nested.value.panels, panelId) else []))
      + PrunedOutline(panels[1..], panelId)
  }

  /** Exactly the panels neither carrying the id nor lying below one that does survive, in order, with their own fields. */
  lemma {:induction false} RemoveOutline(panels: seq<Panel>, panelId: string)
    ensures Outline(RemoveFromPanels(panels, panelId)) == PrunedOutline(panels, panelId)
  {
    if panels != [] {
      var p := panels[0];
      RemoveOutline(panels[1..], panelId);
      var restOut := Outline(RemoveFromPanels(panels[1..], panelId));
      if p.id != panelId {
        var r := RemoveFromPanels(panels, panelId);
        var q := r[0];
        assert r[1..] == RemoveFromPanels(panels[1..], panelId);
        assert Header(q) == Header(p);
        var subP := if p.nested.Some? then PrunedOutline(p.nested.value.panels, panelId) else [];
        var subQ := if q.nested.Some? then Outline(q.nested.value.panels) else [];
        if p.nested.Some? {
          RemoveOutline(p.nested.value.panels, panelId);
        }
        assert subQ == subP;
        assert Outline(r) == ([Header(p)] + subQ) + restOut;
        assert PrunedOutline(panels, panelId) == ([Header(p)] + subP) + PrunedOutline(panels[1..], panelId);
      }
    }
  }

  /** Removing an id that occurs nowhere gives back the same panels. */
  lemma {:induction false} RemoveAbsentIsIdentity(panels: seq<Panel>, panelId: string)
    requires panelId !in Ids(panels)
    ensures RemoveFromPanels(panels, panelId) == panels
  {
    if panels != [] {
      RemoveAbsentIsIdentity(panels[1..], panelId);
      if panels[0].nested.Some? {
        RemoveAbsentIsIdentity(panels[0].nested.value.panels, panelId);
      }
      assert panels == [panels[0]] + panels[1..];
    }
  }

  /** Removal never introduces a size: a tree of positive sizes stays one. */
  lemma {:induction false} RemoveKeepsPositiveSizes(panels: seq<Panel>, panelId: string)
    requires PositiveSizes(panels)
    ensures PositiveSizes(RemoveFromPanels(panels, panelId))
  {
    if panels != [] {
      RemoveKeepsPositiveSizes(panels[1..], panelId);
      if panels[0].nested.Some? {
        RemoveKeepsPositiveSizes(panels[0].nested.value.panels, panelId);
      }
    }
  }

  // ---------------------------------------------------------------------------
  // Descend and patch
  // ---------------------------------------------------------------------------

  /**
   * The shape shared by `updateNestedDirection`, `updateScrollable`, `updateAdminOnly` and the
   * targeted branch of `updatePanels`: a map over the panels in which a panel carrying the
   * target id becomes `f(panel)` and is not descended into, any other panel with a nested
   * layout has its nested panels patched in turn, and every other panel is kept as it is.
   */
  function PatchPanels(panels: seq<Panel>, targetId: string, f: Panel -> Panel): (r: seq<Panel>)
    ensures |r| == |panels|
  {
    if panels == [] then []
    else
      var p := panels[0];
      var q :=
        if p.id == targetId then f(p)
        else if p.nested.Some? then p.(nested := Some(p.nested.value.(panels := PatchPanels(p.nested.value.panels, targetId, f))))
        else p;
      [q] + PatchPanels(panels[1..], targetId, f)
  }

  /** If `f` leaves every matching panel of the tree as it is, patching changes nothing. */
  lemma {:induction false} PatchFixedIsIdentity(panels: seq<Panel>, targetId: string, f: Panel -> Panel)
    requires forall p :: p in Flatten(panels) && p.id == targetId ==> f(p) == p
    ensures PatchPanels(panels, targetId, f) == panels
  {
    if panels != [] {
      var p := panels[0];
      var fn := if p.nested.Some? then Flatten(p.nested.value.panels) else [];
      assert Flatten(panels) == [p] + fn + Flatten(panels[1..]);
      PatchFixedIsIdentity(panels[1..], targetId, f);
      if p.id != targetId && p.nested.Some? {
        PatchFixedIsIdentity(p.nested.value.panels, targetId, f);
      }
      assert panels == [p] + panels[1..];
    }
  }

  /** A target id that occurs nowhere leaves the panels as they are. */
  lemma {:induction false} PatchAbsentIsIdentity(panels: seq<Panel>, targetId: string, f: Panel -> Panel)
    requires targetId !in Ids(panels)
    ensures PatchPanels(panels, targetId, f) == panels
  {
    if panels != [] {
      PatchAbsentIsIdentity(panels[1..], targetId, f);
      if panels[0].nested.Some? {
        PatchAbsentIsIdentity(panels[0].nested.value.panels, targetId, f);
      }
      assert panels == [panels[0]] + panels[1..];
    }
  }

  /** After patching, lookup of the target finds `f` applied to the panel it found before. */
  lemma {:induction false} PatchFind(panels: seq<Panel>, targetId: string, f: Panel -> Panel)
    requires forall p: Panel :: p.id == targetId ==> f(p).id == targetId
    requires targetId in Ids(panels)
    ensures FindPanelById(targetId, PatchPanels(panels, targetId, f)) == Some(f(FindPanelById(targetId, panels).value))
  {
    var p := panels[0];
    var r := PatchPanels(panels, targetId, f);
    assert r[1..] == PatchPanels(panels[1..], targetId, f);
    if p.id != targetId {
      if p.nested.Some? && targetId in Ids(p.nested.value.panels) {
        PatchFind(p.nested.value.panels, targetId, f);
      } else {
        if p.nested.Some? {
          PatchAbsentIsIdentity(p.nested.value.panels, targetId, f);
        }
        PatchFind(panels[1..], targetId, f);
      }
    }
  }

  /** Two patches of the same target compose into one. */
  lemma {:induction false} PatchCompose(panels: seq<Panel>, targetId: string, f: Panel -> Panel, g: Panel -> Panel, h: Panel -> Panel)
    requires forall p: Panel :: p.id == targetId ==> f(p).id == targetId && g(f(p)) == h(p)
    ensures PatchPanels(PatchPanels(panels, targetId, f), targetId, g) == PatchPanels(panels, targetId, h)
  {
    if panels != [] {
      var p := panels[0];
      var once := PatchPanels(panels, targetId, f);
      assert once[1..] == PatchPanels(panels[1..], targetId, f);
      PatchCompose(panels[1..], targetId, f, g, h);
      if p.id != targetId && p.nested.Some? {
        PatchCompose(p.nested.value.panels, targetId, f, g, h);
      }
    }
  }

  /** If `f` keeps the ids below a matching panel, patching keeps the ids of the whole tree. */
  lemma {:induction false} PatchKeepsIds(panels: seq<Panel>, targetId: string, f: Panel -> Panel)
    requires forall p: Panel :: p.id == targetId ==> Ids([f(p)]) == Ids([p])
    ensures Ids(PatchPanels(panels, targetId, f)) == Ids(panels)
  {
    if panels != [] {
      var p := panels[0];
      var r := PatchPanels(panels, targetId, f);
      assert r == [r[0]] + PatchPanels(panels[1..], targetId, f);
      assert panels == [p] + panels[1..];
      IdsAppend([r[0]], PatchPanels(panels[1..], targetId, f));
      IdsAppend([p], panels[1..]);
      PatchKeepsIds(panels[1..], targetId, f);
      if p.id != targetId && p.nested.Some? {
        PatchKeepsIds(p.nested.value.panels, targetId, f);
      }
    }
  }

  /** An id that `f` places under every matching panel is in the tree after patching a present target. */
  lemma {:induction false} PatchReaches(panels: seq<Panel>, targetId: string, f: Panel -> Panel, x: string)
    requires targetId in Ids(panels)
    requires forall p: Panel :: p.id == targetId ==> x in Ids([f(p)])
    ensures x in Ids(PatchPanels(panels, targetId, f))
  {
    var p := panels[0];
    var r := PatchPanels(panels, targetId, f);
    assert r == [r[0]] + PatchPanels(panels[1..], targetId, f);
    IdsAppend([r[0]], PatchPanels(panels[1..], targetId, f));
    if p.id != targetId {
      if p.nested.Some? && targetId in Ids(p.nested.value.panels) {
        PatchReaches(p.nested.value.panels, targetId, f, x);
      } else {
        PatchReaches(panels[1..], targetId, f, x);
      }
    }
  }

  /** If `f` keeps a positively sized panel positively sized, patching keeps the tree so. */
  lemma {:induction false} PatchKeepsPositiveSizes(panels: seq<Panel>, targetId: string, f: Panel -> Panel)
    requires forall p: Panel :: p.id == targetId && PositiveSizes([p]) ==> PositiveSizes([f(p)])
    requires PositiveSizes(panels)
    ensures PositiveSizes(PatchPanels(panels, targetId, f))
  {
    if panels != [] {
      var p := panels[0];
      var r := PatchPanels(panels, targetId, f);
      assert r == [r[0]] + PatchPanels(panels[1..], targetId, f);
      PatchKeepsPositiveSizes(panels[1..], targetId, f);
      if p.id == targetId {
        assert [p][1..] == [];
        assert PositiveSizes([p]);
        assert [r[0]][1..] == [];
      } else if p.nested.Some? {
        PatchKeepsPositiveSizes(p.nested.value.panels, targetId, f);
      }
      PositiveSizesAppend([r[0]], PatchPanels(panels[1..], targetId, f));
    }
  }

  /**
   * Patching is a map over the level: a panel carrying the target becomes its `f`-image,
   * any other container has its nested panels patched, and any other leaf is kept.
   */
  lemma {:induction false} PatchPointwise(panels: seq<Panel>, targetId: string, f: Panel -> Panel)
    ensures var r := PatchPanels(panels, targetId, f);
      forall i :: 0 <= i < |panels| ==>
        (panels[i].id == targetId ==> r[i] == f(panels[i]))
        && (panels[i].id != targetId && panels[i].nested.Some? ==>
              r[i] == panels[i].(nested := Some(panels[i].nested.value.(panels := PatchPanels(panels[i].nested.value.panels, targetId, f)))))
        && (panels[i].id != targetId && panels[i].nested.None? ==> r[i] == panels[i])
  {
    if panels != [] {
      var p := panels[0];
      var r := PatchPanels(panels, targetId, f);
      var rest := PatchPanels(panels[1..], targetId, f);
      PatchPointwise(panels[1..], targetId, f);
      assert r == [r[0]] + rest;
      ConsIndex(r[0], rest);
      ConsIndex(p, panels[1..]);
    }
  }

  /** A panel in whose subtree the target does not occur comes back from patching as it was. */
  lemma PatchLeavesOthers(panels: seq<Panel>, targetId: string, f: Panel -> Panel)
    ensures var r := PatchPanels(panels, targetId, f);
      forall i :: 0 <= i < |panels| && targetId !in Ids([panels[i]]) ==> r[i] == panels[i]
  {
    PatchPointwise(panels, targetId, f);
    forall i | 0 <= i < |panels| && targetId !in Ids([panels[i]])
      ensures PatchPanels(panels, targetId, f)[i] == panels[i]
    {
      IdsSingle(panels[i]);
      if panels[i].nested.Some? {
        PatchAbsentIsIdentity(panels[i].nested.value.panels, targetId, f);
      }
    }
  }

  /** The children of a panel: the panels of its nested layout, none for a leaf. */
  function Children(p: Panel): seq<Panel> {
    if p.nested.Some? then p.nested.value.panels else []
  }

  /**
   * `b` is `a` with some entries that carry `targetId` replaced by their `f`-image and
   * every other entry equal.
   */
  predicate OnlyTargetsChange(a: seq<Panel>, b: seq<Panel>, targetId: string, f: Panel -> Panel) {
    |a| == |b| && forall k :: 0 <= k < |a| ==> b[k] == a[k] || (a[k].id == targetId && b[k] == f(a[k]))
  }

  /** `f` rewrites only a matched panel's own fields: its children stay, and it commutes with `Header`. */
  ghost predicate OwnFieldsOnly(targetId: string, f: Panel -> Panel) {
    forall p: Panel :: p.id == targetId ==> Children(f(p)) == Children(p) && Header(f(p)) == f(Header(p))
  }

  lemma OnlyTargetsChangeRefl(a: seq<Panel>, targetId: string, f: Panel -> Panel)
    ensures OnlyTargetsChange(a, a, targetId, f)
  {
  }

  lemma OnlyTargetsChangeConcat(a1: seq<Panel>, b1: seq<Panel>, a2: seq<Panel>, b2: seq<Panel>, targetId: string, f: Panel -> Panel)
    requires OnlyTargetsChange(a1, b1, targetId, f) && OnlyTargetsChange(a2, b2, targetId, f)
    ensures OnlyTargetsChange(a1 + a2, b1 + b2, targetId, f)
  {
    forall k | 0 <= k < |a1 + a2|
      ensures (b1 + b2)[k] == (a1 + a2)[k] || ((a1 + a2)[k].id == targetId && (b1 + b2)[k] == f((a1 + a2)[k]))
    {
      if k < |a1| {
        assert (a1 + a2)[k] == a1[k] && (b1 + b2)[k] == b1[k];
      } else {
        assert (a1 + a2)[k] == a2[k - |a1|] && (b1 + b2)[k] == b2[k - |a1|];
      }
    }
  }

  /**
   * When `f` rewrites only a panel's own fields, patching changes nothing else: in the
   * pre-order outline every panel, its nested direction and class included, stays as it
   * was, except panels carrying the target, which may become their `f`-image.
   */
  lemma {:induction false} PatchOutline(panels: seq<Panel>, targetId: string, f: Panel -> Panel)
    requires OwnFieldsOnly(targetId, f)
    ensures OnlyTargetsChange(Outline(panels), Outline(PatchPanels(panels, targetId, f)), targetId, f)
  {
    if panels != [] {
      var p := panels[0];
      var r := PatchPanels(panels, targetId, f);
      var q := r[0];
      assert r[1..] == PatchPanels(panels[1..], targetId, f);
      PatchOutline(panels[1..], targetId, f);
      assert Outline(panels) == [Header(p)] + Outline(Children(p)) + Outline(panels[1..]);
      assert Outline(r) == [Header(q)] + Outline(Children(q)) + Outline(r[1..]);
      if p.id == targetId {
        OnlyTargetsChangeRefl(Outline(Children(p)), targetId, f);
        assert OnlyTargetsChange([Header(p)], [Header(q)], targetId, f);
      } else {
        if p.nested.Some? {
          PatchOutline(p.nested.value.panels, targetId, f);
        } else {
          OnlyTargetsChangeRefl(Outline(Children(p)), targetId, f);
        }
        OnlyTargetsChangeRefl([Header(p)], targetId, f);
      }
      OnlyTargetsChangeConcat([Header(p)], [Header(q)], Outline(Children(p)), Outline(Children(q)), targetId, f);
      OnlyTargetsChangeConcat([Header(p)] + Outline(Children(p)), [Header(q)] + Outline(Children(q)),
                              Outline(panels[1..]), Outline(r[1..]), targetId, f);
    }
  }

  // ---------------------------------------------------------------------------
  // Insertion (`updatePanels`)
  // ---------------------------------------------------------------------------

  /** `panels.length / (panels.length + 1)`: the factor that makes room for one more panel. */
  function Shrink(n: nat): (c: real)
    ensures 0.0 <= c < 1.0
    ensures n > 0 ==> c > 0.0
  {
    (n as real) / ((n + 1) as real)
  }

  /** The `{ ...panel, defaultSize: panel.defaultSize * factor }` map over one level. */
  function ScaleSizes(panels: seq<Panel>, factor: real): (r: seq<Panel>)
    ensures |r| == |panels|
    ensures forall i :: 0 <= i < |r| ==> r[i] == panels[i].(defaultSize := panels[i].defaultSize * factor)
  {
    if panels == [] then []
    else [panels[0].(defaultSize := panels[0].defaultSize * factor)] + ScaleSizes(panels[1..], factor)
  }

  lemma {:induction false} ScaleSum(panels: seq<Panel>, factor: real)
    ensures Sum(ScaleSizes(panels, factor)) == Sum(panels) * factor
  {
    if panels != [] {
      var r := ScaleSizes(panels, factor);
      assert r[1..] == ScaleSizes(panels[1..], factor);
      ScaleSum(panels[1..], factor);
      assert Sum(r) == panels[0].defaultSize * factor + Sum(panels[1..]) * factor;
    }
  }

  lemma {:induction false} ScaleKeepsIds(panels: seq<Panel>, factor: real)
    ensures Ids(ScaleSizes(panels, factor)) == Ids(panels)
  {
    if panels != [] {
      var r := ScaleSizes(panels, factor);
      assert r[1..] == ScaleSizes(panels[1..], factor);
      ScaleKeepsIds(panels[1..], factor);
    }
  }

  lemma {:induction false} ScaleKeepsPositiveSizes(panels: seq<Panel>, factor: real)
    requires PositiveSizes(panels) && factor > 0.0
    ensures PositiveSizes(ScaleSizes(panels, factor))
  {
    if panels != [] {
      var r := ScaleSizes(panels, factor);
      assert r[1..] == ScaleSizes(panels[1..], factor);
      ScaleKeepsPositiveSizes(panels[1..], factor);
    }
  }

  /** The synthetic `container-<time>` panel: size 50, wrapping `panels` under `direction`, nothing else set. */
  function Container(id: string, direction: Direction, panels: seq<Panel>): Panel {
    Panel(id, 50.0, None, None, None, None, None, None, None, Some(Layout(direction, None, panels)))
  }

  /** The `<id>-content` leaf that takes over a split panel's content, classes, scroll setting and size clamps. */
  function ContentChild(p: Panel): Panel {
    Panel(p.id + "-content", 50.0, p.minSize, p.maxSize, p.content, p.contentContainerClass, p.textClass, p.isScrollable, None, None)
  }

  /**
   * What the targeted branch of `updatePanels` does to the panel it matched:
   * grow its nested layout on the same axis, wrap its nested layout across axes,
   * or split a leaf into its content and the new panel.
   */
  function InsertInto(p: Panel, newPanel: Panel, direction: Direction, containerId: string): (r: Panel)
    ensures r.id == p.id && r.defaultSize == p.defaultSize && r.minSize == p.minSize
      && r.maxSize == p.maxSize && r.isAdminOnly == p.isAdminOnly
    ensures r.nested.Some? && r.nested.value.direction == direction
    ensures p.nested.None? ==>
      r.content == None && r.contentContainerClass == None && r.textClass == None && r.isScrollable == None
      && r.nested.value.className == None
      && r.nested.value.panels == [ContentChild(p), newPanel.(defaultSize := 50.0)]
    ensures p.nested.Some? ==>
      r.content == p.content && r.contentContainerClass == p.contentContainerClass
      && r.textClass == p.textClass && r.isScrollable == p.isScrollable
    ensures p.nested.Some? && p.nested.value.direction == direction ==>
      var n := p.nested.value; var kids := r.nested.value.panels;
      r.nested.value.className == n.className
      && |kids| == |n.panels| + 1 && kids[|n.panels|] == newPanel
      && kids[..|n.panels|] == ScaleSizes(n.panels, Shrink(|n.panels|))
    ensures p.nested.Some? && p.nested.value.direction != direction ==>
      r.nested.value.className == None
      && r.nested.value.panels == [Container(containerId, p.nested.value.direction, p.nested.value.panels), newPanel.(defaultSize := 50.0)]
  {
    if p.nested.Some? then
      var n := p.nested.value;
      if direction == n.direction then
        var kids := ScaleSizes(n.panels, Shrink(|n.panels|)) + [newPanel];
        assert kids[..|n.panels|] == ScaleSizes(n.panels, Shrink(|n.panels|));
        p.(nested := Some(n.(panels := kids)))
      else
        p.(nested := Some(Layout(direction, None, [Container(containerId, n.direction, n.panels), newPanel.(defaultSize := 50.0)])))
    else
      p.(nested := Some(Layout(direction, None, [ContentChild(p), newPanel.(defaultSize := 50.0)])),
         content := None, contentContainerClass := None, textClass := None, isScrollable := None)
  }

  /**
   * The ids under the matched panel after insertion: its old subtree (behind a fresh
   * container when wrapped, replaced by `<id>-content` when split), then the new panel's.
   */
  lemma InsertIntoIds(p: Panel, newPanel: Panel, direction: Direction, containerId: string)
    ensures p.nested.None? ==>
      Ids([InsertInto(p, newPanel, direction, containerId)]) == [p.id, p.id + "-content"] + Ids([newPanel])
    ensures p.nested.Some? && p.nested.value.direction == direction ==>
      Ids([InsertInto(p, newPanel, direction, containerId)]) == [p.id] + Ids(p.nested.value.panels) + Ids([newPanel])
    ensures p.nested.Some? && p.nested.value.direction != direction ==>
      Ids([InsertInto(p, newPanel, direction, containerId)]) == [p.id, containerId] + Ids(p.nested.value.panels) + Ids([newPanel])
  {
    var r := InsertInto(p, newPanel, direction, containerId);
    var kids := r.nested.value.panels;
    IdsSingle(r);
    IdsSingle(newPanel);
    if p.nested.Some? && p.nested.value.direction == direction {
      var n := p.nested.value;
      GrownIds(kids, n.panels, Shrink(|n.panels|), newPanel);
      PrependIds(Ids([r]), p.id, Ids(kids), Ids(n.panels), Ids([newPanel]));
    } else {
      var half := newPanel.(defaultSize := 50.0);
      var c := if p.nested.Some? then Container(containerId, p.nested.value.direction, p.nested.value.panels) else ContentChild(p);
      PairedIds(kids, c, half, newPanel);
      PrependIds(Ids([r]), p.id, Ids(kids), [c.id] + NestedIds(c), Ids([newPanel]));
    }
  }

  /** `a` is `x` before `b`, and `b` is `c` before `d`. */
  lemma PrependIds(a: seq<string>, x: string, b: seq<string>, c: seq<string>, d: seq<string>)
    requires a == [x] + b && b == c + d
    ensures a == [x] + c + d
  {
  }

  /** A pair whose second panel is the new panel resized: its ids are the first panel's, then the new panel's. */
  lemma PairedIds(kids: seq<Panel>, c: Panel, half: Panel, newPanel: Panel)
    requires kids == [c, half] && half == newPanel.(defaultSize := 50.0)
    ensures Ids(kids) == [c.id] + NestedIds(c) + Ids([newPanel])
  {
    IdsPair(c, half);
    IdsSingle(newPanel);
  }

  /** A scaled level with one panel appended holds the level's ids, then the new panel's. */
  lemma GrownIds(kids: seq<Panel>, panels: seq<Panel>, factor: real, newPanel: Panel)
    requires |kids| == |panels| + 1 && kids[|panels|] == newPanel && kids[..|panels|] == ScaleSizes(panels, factor)
    ensures Ids(kids) == Ids(panels) + Ids([newPanel])
  {
    SplitLast(kids);
    IdsAppend(ScaleSizes(panels, factor), [newPanel]);
    ScaleKeepsIds(panels, factor);
  }

  /** Scaling a level and appending one panel: the total is the old total scaled plus the new size. */
  lemma ScaleAppendSum(grown: seq<Panel>, panels: seq<Panel>, factor: real, newPanel: Panel)
    requires grown == ScaleSizes(panels, factor) + [newPanel]
    ensures Sum(grown) == Sum(panels) * factor + newPanel.defaultSize
  {
    SumAppend(ScaleSizes(panels, factor), [newPanel]);
    ScaleSum(panels, factor);
  }

  /** Growing a nested layout: its total becomes the old total scaled by `factor` = n/(n+1) plus the new panel's size. */
  lemma InsertIntoGrowSum(p: Panel, newPanel: Panel, containerId: string, factor: real)
    requires p.nested.Some? && factor == Shrink(|p.nested.value.panels|)
    ensures var n := p.nested.value;
      Sum(InsertInto(p, newPanel, n.direction, containerId).nested.value.panels)
        == Sum(n.panels) * factor + newPanel.defaultSize
  {
    var n := p.nested.value;
    var kids := InsertInto(p, newPanel, n.direction, containerId).nested.value.panels;
    assert kids == ScaleSizes(n.panels, factor) + [newPanel];
    ScaleAppendSum(kids, n.panels, factor, newPanel);
  }

  /** Wrapping or splitting: the matched panel's two children have size 50 each. */
  lemma InsertIntoPairSum(p: Panel, newPanel: Panel, direction: Direction, containerId: string)
    requires p.nested.None? || p.nested.value.direction != direction
    ensures Sum(InsertInto(p, newPanel, direction, containerId).nested.value.panels) == 100.0
  {
    var kids := InsertInto(p, newPanel, direction, containerId).nested.value.panels;
    assert |kids| == 2 && kids[0].defaultSize == 50.0 && kids[1].defaultSize == 50.0;
    assert kids[1..][1..] == [];
    assert Sum(kids[1..]) == 50.0;
  }

  /** Insertion keeps every size positive when the new panel's are. */
  lemma InsertIntoKeepsPositiveSizes(p: Panel, newPanel: Panel, direction: Direction, containerId: string)
    requires PositiveSizes([p]) && PositiveSizes([newPanel])
    ensures PositiveSizes([InsertInto(p, newPanel, direction, containerId)])
  {
    assert [p][1..] == [] && [newPanel][1..] == [];
    var r := InsertInto(p, newPanel, direction, containerId);
    var kids := r.nested.value.panels;
    var half := newPanel.(defaultSize := 50.0);
    assert PositiveSizes([half]);
    if p.nested.Some? && p.nested.value.direction == direction {
      var n := p.nested.value;
      var scaled := ScaleSizes(n.panels, Shrink(|n.panels|));
      assert kids == scaled + [newPanel];
      if n.panels != [] {
        ScaleKeepsPositiveSizes(n.panels, Shrink(|n.panels|));
      }
      PositiveSizesAppend(scaled, [newPanel]);
    } else if p.nested.Some? {
      var c := Container(containerId, p.nested.value.direction, p.nested.value.panels);
      assert kids == [c] + [half];
      assert PositiveSizes([c]);
      PositiveSizesAppend([c], [half]);
    } else {
      var c := ContentChild(p);
      assert kids == [c] + [half];
      assert PositiveSizes([c]);
      PositiveSizesAppend([c], [half]);
    }
    assert [r][1..] == [];
  }

  /**
   * `updatePanels`. With no target (null or ""), insert at the root: on the root's own axis
   * scale the root sizes by n/(n+1) and append the new panel as it is; across it, wrap the
   * old root panels in a container of size 50 (keeping the old direction) beside the new
   * panel at size 50. With a target, patch the panels carrying that id with `InsertInto`.
   * `rootDirection` is the layout direction the component read when it ran.
   */
  function UpdatePanels(panels: seq<Panel>, rootDirection: Direction, targetId: Option<string>,
                        newPanel: Panel, direction: Direction, containerId: string): (r: seq<Panel>)
    ensures !Truthy(targetId) && direction == rootDirection ==>
      |r| == |panels| + 1 && r[|panels|] == newPanel
      && r[..|panels|] == ScaleSizes(panels, Shrink(|panels|))
    ensures !Truthy(targetId) && direction != rootDirection ==>
      r == [Container(containerId, rootDirection, panels), newPanel.(defaultSize := 50.0)]
    ensures Truthy(targetId) ==> |r| == |panels|
    ensures Truthy(targetId) ==> forall i :: 0 <= i < |panels| && targetId.value !in Ids([panels[i]]) ==> r[i] == panels[i]
    ensures Truthy(targetId) && targetId.value !in Ids(panels) ==> r == panels
  {
    if !Truthy(targetId) then
      if direction == rootDirection then
        var grown := ScaleSizes(panels, Shrink(|panels|)) + [newPanel];
        assert grown[..|panels|] == ScaleSizes(panels, Shrink(|panels|));
        grown
      else [Container(containerId, rootDirection, panels), newPanel.(defaultSize := 50.0)]
    else
      var f := (p: Panel) => InsertInto(p, newPanel, direction, containerId);
      PatchLeavesOthers(panels, targetId.value, f);
      if targetId.value !in Ids(panels) then
        PatchAbsentIsIdentity(panels, targetId.value, f);
        PatchPanels(panels, targetId.value, f)
      else PatchPanels(panels, targetId.value, f)
  }

  /**
   * With a target, each panel of the level is handled on its own: one carrying the target
   * gets the insertion, another container has its nested panels updated the same way, and a
   * leaf without the target is kept. Applied level by level, every panel off the path to a
   * match comes back unchanged.
   */
  lemma UpdatePanelsPointwise(panels: seq<Panel>, rootDirection: Direction, targetId: Option<string>,
                              newPanel: Panel, direction: Direction, containerId: string)
    requires Truthy(targetId)
    ensures var r := UpdatePanels(panels, rootDirection, targetId, newPanel, direction, containerId);
      forall i :: 0 <= i < |panels| ==>
        (panels[i].id == targetId.value ==> r[i] == InsertInto(panels[i], newPanel, direction, containerId))
        && (panels[i].id != targetId.value && panels[i].nested.Some? ==>
              r[i] == panels[i].(nested := Some(panels[i].nested.value.(panels :=
                        UpdatePanels(panels[i].nested.value.panels, rootDirection, targetId, newPanel, direction, containerId)))))
        && (panels[i].id != targetId.value && panels[i].nested.None? ==> r[i] == panels[i])
  {
    var f := (p: Panel) => InsertInto(p, newPanel, direction, containerId);
    PatchPointwise(panels, targetId.value, f);
  }

  /** With a present target, lookup of the target afterwards finds the old match with the insertion applied. */
  lemma UpdatePanelsFindsTarget(panels: seq<Panel>, rootDirection: Direction, targetId: Option<string>,
                                newPanel: Panel, direction: Direction, containerId: string)
    requires Truthy(targetId) && targetId.value in Ids(panels)
    ensures var r := UpdatePanels(panels, rootDirection, targetId, newPanel, direction, containerId);
      FindPanelById(targetId.value, r)
        == Some(InsertInto(FindPanelById(targetId.value, panels).value, newPanel, direction, containerId))
  {
    var f := (p: Panel) => InsertInto(p, newPanel, direction, containerId);
    PatchFind(panels, targetId.value, f);
  }

  /** The new panel is in the tree afterwards whenever it went to the root or the target exists. */
  lemma UpdatePanelsPlacesNewPanel(panels: seq<Panel>, rootDirection: Direction, targetId: Option<string>,
                                   newPanel: Panel, direction: Direction, containerId: string)
    requires !Truthy(targetId) || targetId.value in Ids(panels)
    ensures newPanel.id in Ids(UpdatePanels(panels, rootDirection, targetId, newPanel, direction, containerId))
  {
    var r := UpdatePanels(panels, rootDirection, targetId, newPanel, direction, containerId);
    if !Truthy(targetId) {
      UpdatePanelsAtRootIds(panels, rootDirection, newPanel, direction, containerId);
    } else {
      var f := (p: Panel) => InsertInto(p, newPanel, direction, containerId);
      forall p: Panel | p.id == targetId.value ensures newPanel.id in Ids([f(p)]) {
        InsertIntoIds(p, newPanel, direction, containerId);
      }
      PatchReaches(panels, targetId.value, f, newPanel.id);
    }
  }

  /** Root insertion: the old ids keep their pre-order, after a fresh container id when wrapped, and the new panel's ids come last. */
  lemma UpdatePanelsAtRootIds(panels: seq<Panel>, rootDirection: Direction, newPanel: Panel,
                              direction: Direction, containerId: string)
    ensures Ids(UpdatePanels(panels, rootDirection, None, newPanel, direction, containerId))
      == (if direction == rootDirection then [] else [containerId]) + Ids(panels) + Ids([newPanel])
  {
    var r := UpdatePanels(panels, rootDirection, None, newPanel, direction, containerId);
    if direction == rootDirection {
      var scaled := ScaleSizes(panels, Shrink(|panels|));
      assert r == scaled + [newPanel];
      IdsAppend(scaled, [newPanel]);
      ScaleKeepsIds(panels, Shrink(|panels|));
    } else {
      var c := Container(containerId, rootDirection, panels);
      var half := newPanel.(defaultSize := 50.0);
      assert r == [c] + [half];
      IdsAppend([c], [half]);
      assert Ids([c]) == [containerId] + Ids(panels);
      assert Ids([half]) == Ids([newPanel]);
    }
  }

  /** Root insertion on the root's axis: the root total becomes the old total scaled by `factor` = n/(n+1) plus the new size. */
  lemma UpdatePanelsAtRootGrowSum(panels: seq<Panel>, rootDirection: Direction, newPanel: Panel, containerId: string, factor: real)
    requires factor == Shrink(|panels|)
    ensures Sum(UpdatePanels(panels, rootDirection, None, newPanel, rootDirection, containerId))
      == Sum(panels) * factor + newPanel.defaultSize
  {
    var r := UpdatePanels(panels, rootDirection, None, newPanel, rootDirection, containerId);
    assert r == ScaleSizes(panels, factor) + [newPanel];
    ScaleAppendSum(r, panels, factor, newPanel);
  }

  /** Root insertion across the root's axis: the new root holds two panels of size 50. */
  lemma UpdatePanelsAtRootWrapSum(panels: seq<Panel>, rootDirection: Direction, newPanel: Panel,
                                  direction: Direction, containerId: string)
    requires direction != rootDirection
    ensures Sum(UpdatePanels(panels, rootDirection, None, newPanel, direction, containerId)) == 100.0
  {
    var r := UpdatePanels(panels, rootDirection, None, newPanel, direction, containerId);
    assert |r| == 2 && r[0].defaultSize == 50.0 && r[1].defaultSize == 50.0;
    assert r[1..][1..] == [];
    assert Sum(r[1..]) == 50.0;
  }

  lemma MulMonotone(a: real, b: real, k: real)
    requires a <= b && k > 0.0
    ensures a * k <= b * k
  {
  }

  /** From two panels on, making room for one more keeps more than half of each old size. */
  lemma ShrinkAboveHalf(n: nat)
    requires n >= 2
    ensures Shrink(n) > 0.5
  {
    var x := n as real;
    var factor := Shrink(n);
    assert factor * (x + 1.0) == x by {
      assert factor == x / (x + 1.0);
    }
    if factor <= 0.5 {
      MulMonotone(factor, 0.5, x + 1.0);
      assert false;
    }
  }

  /**
   * Growing a root of n >= 2 panels that sums to 100 with a size-50 panel leaves a total
   * above 100: the stored sizes are only proportions, and rendering rescales them.
   */
  lemma GrowingTheRootExceedsHundred(panels: seq<Panel>, rootDirection: Direction, newPanel: Panel, containerId: string)
    requires Sum(panels) == 100.0 && |panels| >= 2 && newPanel.defaultSize == 50.0
    ensures Sum(UpdatePanels(panels, rootDirection, None, newPanel, rootDirection, containerId)) > 100.0
  {
    var factor := Shrink(|panels|);
    UpdatePanelsAtRootGrowSum(panels, rootDirection, newPanel, containerId, factor);
    ShrinkAboveHalf(|panels|);
    var total := Sum(UpdatePanels(panels, rootDirection, None, newPanel, rootDirection, containerId));
    assert total == 100.0 * factor + 50.0;
  }

  /** Insertion keeps every size in the tree positive when the new panel's are. */
  lemma UpdatePanelsKeepsPositiveSizes(panels: seq<Panel>, rootDirection: Direction, targetId: Option<string>,
                                       newPanel: Panel, direction: Direction, containerId: string)
    requires PositiveSizes(panels) && PositiveSizes([newPanel])
    ensures PositiveSizes(UpdatePanels(panels, rootDirection, targetId, newPanel, direction, containerId))
  {
    var r := UpdatePanels(panels, rootDirection, targetId, newPanel, direction, containerId);
    assert [newPanel][1..] == [];
    if !Truthy(targetId) {
      if direction == rootDirection {
        var scaled := ScaleSizes(panels, Shrink(|panels|));
        if panels != [] {
          ScaleKeepsPositiveSizes(panels, Shrink(|panels|));
        }
        assert r == scaled + [newPanel];
        PositiveSizesAppend(scaled, [newPanel]);
      } else {
        var c := Container(containerId, rootDirection, panels);
        var half := newPanel.(defaultSize := 50.0);
        assert PositiveSizes([c]) && PositiveSizes([half]);
        assert r == [c] + [half];
        PositiveSizesAppend([c], [half]);
      }
    } else {
      var f := (p: Panel) => InsertInto(p, newPanel, direction, containerId);
      forall p: Panel | p.id == targetId.value && PositiveSizes([p]) ensures PositiveSizes([f(p)]) {
        InsertIntoKeepsPositiveSizes(p, newPanel, direction, containerId);
      }
      PatchKeepsPositiveSizes(panels, targetId.value, f);
    }
  }

  // ---------------------------------------------------------------------------
  // Direction, scroll and admin-only updates
  // ---------------------------------------------------------------------------

  /** The matched panel of `updateNestedDirection`: its nested direction flips; a leaf stays as it is. */
  function FlipNested(p: Panel): (r: Panel)
    ensures r.id == p.id && r.nested.Some? == p.nested.Some?
    ensures p.nested.Some? ==> r.nested.value.direction != p.nested.value.direction
    ensures p.nested.None? ==> r == p
  {
    if p.nested.Some? then p.(nested := Some(p.nested.value.(direction := Opposite(p.nested.value.direction)))) else p
  }

  function UpdateNestedDirection(panels: seq<Panel>, selectedPanelId: string): seq<Panel> {
    PatchPanels(panels, selectedPanelId, FlipNested)
  }

  lemma FlipNestedOwnFields(targetId: string)
    ensures OwnFieldsOnly(targetId, FlipNested)
  {
    forall p: Panel | p.id == targetId
      ensures Children(FlipNested(p)) == Children(p) && Header(FlipNested(p)) == FlipNested(Header(p))
    {
    }
  }

  /** Toggling the direction of the same target twice restores the tree. */
  lemma UpdateNestedDirectionTwice(panels: seq<Panel>, selectedPanelId: string)
    ensures UpdateNestedDirection(UpdateNestedDirection(panels, selectedPanelId), selectedPanelId) == panels
  {
    var id := (p: Panel) => p;
    PatchCompose(panels, selectedPanelId, FlipNested, FlipNested, id);
    PatchFixedIsIdentity(panels, selectedPanelId, id);
  }

  /** A target that is a leaf wherever it occurs leaves the tree as it is. */
  lemma UpdateNestedDirectionOnLeaf(panels: seq<Panel>, selectedPanelId: string)
    requires forall p :: p in Flatten(panels) && p.id == selectedPanelId ==> p.nested.None?
    ensures UpdateNestedDirection(panels, selectedPanelId) == panels
  {
    PatchFixedIsIdentity(panels, selectedPanelId, FlipNested);
  }

  /** The target found afterwards is the one found before with its nested direction flipped. */
  lemma UpdateNestedDirectionFind(panels: seq<Panel>, selectedPanelId: string)
    requires selectedPanelId in Ids(panels)
    ensures FindPanelById(selectedPanelId, UpdateNestedDirection(panels, selectedPanelId))
      == Some(FlipNested(FindPanelById(selectedPanelId, panels).value))
  {
    PatchFind(panels, selectedPanelId, FlipNested);
  }

  /**
   * Only the target's direction changes: in the pre-order outline every panel stays as it
   * was except panels carrying the target, which get the flip.
   */
  lemma UpdateNestedDirectionOutline(panels: seq<Panel>, selectedPanelId: string)
    ensures OnlyTargetsChange(Outline(panels), Outline(UpdateNestedDirection(panels, selectedPanelId)), selectedPanelId, FlipNested)
  {
    FlipNestedOwnFields(selectedPanelId);
    PatchOutline(panels, selectedPanelId, FlipNested);
  }

  /** Flipping a direction keeps every id where it was. */
  lemma UpdateNestedDirectionKeepsIds(panels: seq<Panel>, selectedPanelId: string)
    ensures Ids(UpdateNestedDirection(panels, selectedPanelId)) == Ids(panels)
  {
    forall p: Panel | p.id == selectedPanelId ensures Ids([FlipNested(p)]) == Ids([p]) {
      assert Ids([FlipNested(p)]) == [p.id] + (if p.nested.Some? then Ids(p.nested.value.panels) else []) + Ids([]);
    }
    PatchKeepsIds(panels, selectedPanelId, FlipNested);
  }

  /** The matched panel of `updateScrollable`: `isScrollable` becomes `{enabled: true, direction}`. */
  function WithScroll(p: Panel, direction: ScrollDirection): (r: Panel)
    ensures r.isScrollable == Some(ScrollConfig(direction, true))
    ensures r.(isScrollable := p.isScrollable) == p
  {
    p.(isScrollable := Some(ScrollConfig(direction, true)))
  }

  function UpdateScrollable(panels: seq<Panel>, selectedPanelId: string, direction: ScrollDirection): seq<Panel> {
    PatchPanels(panels, selectedPanelId, (p: Panel) => WithScroll(p, direction))
  }

  /** Making the same target scrollable twice is the same as once. */
  lemma UpdateScrollableIdempotent(panels: seq<Panel>, selectedPanelId: string, direction: ScrollDirection)
    ensures UpdateScrollable(UpdateScrollable(panels, selectedPanelId, direction), selectedPanelId, direction)
      == UpdateScrollable(panels, selectedPanelId, direction)
  {
    var f := (p: Panel) => WithScroll(p, direction);
    PatchCompose(panels, selectedPanelId, f, f, f);
  }

  /**
   * Only the target's scroll setting changes: in the pre-order outline every panel stays as
   * it was except panels carrying the target, which become scrollable.
   */
  lemma UpdateScrollableOutline(panels: seq<Panel>, selectedPanelId: string, direction: ScrollDirection)
    ensures var before, after := Outline(panels), Outline(UpdateScrollable(panels, selectedPanelId, direction));
      |after| == |before|
      && forall k :: 0 <= k < |before| ==>
           after[k] == before[k] || (before[k].id == selectedPanelId && after[k] == WithScroll(before[k], direction))
  {
    var f := (p: Panel) => WithScroll(p, direction);
    forall p: Panel | p.id == selectedPanelId ensures Children(f(p)) == Children(p) && Header(f(p)) == f(Header(p)) {
    }
    PatchOutline(panels, selectedPanelId, f);
  }

  /** The ids stay, and the target found carries the new setting. */
  lemma UpdateScrollableEffect(panels: seq<Panel>, selectedPanelId: string, direction: ScrollDirection)
    ensures Ids(UpdateScrollable(panels, selectedPanelId, direction)) == Ids(panels)
    ensures selectedPanelId in Ids(panels) ==>
      FindPanelById(selectedPanelId, UpdateScrollable(panels, selectedPanelId, direction))
        == Some(WithScroll(FindPanelById(selectedPanelId, panels).value, direction))
  {
    var f := (p: Panel) => WithScroll(p, direction);
    forall p: Panel | p.id == selectedPanelId ensures Ids([f(p)]) == Ids([p]) {
      assert Ids([f(p)]) == [p.id] + (if p.nested.Some? then Ids(p.nested.value.panels) else []) + Ids([]);
    }
    PatchKeepsIds(panels, selectedPanelId, f);
    if selectedPanelId in Ids(panels) {
      PatchFind(panels, selectedPanelId, f);
    }
  }

  /** The matched panel of `updateAdminOnly`: `isAdminOnly: !panel.isAdminOnly`, so an absent flag becomes true. */
  function ToggleAdminFlag(p: Panel): (r: Panel)
    ensures r.isAdminOnly.Some? && IsAdminOnly(r) == !IsAdminOnly(p)
    ensures r.(isAdminOnly := p.isAdminOnly) == p
  {
    p.(isAdminOnly := Some(!IsAdminOnly(p)))
  }

  function UpdateAdminOnly(panels: seq<Panel>, selectedPanelId: string): seq<Panel> {
    PatchPanels(panels, selectedPanelId, ToggleAdminFlag)
  }

  lemma ToggleAdminFlagOwnFields(targetId: string)
    ensures OwnFieldsOnly(targetId, ToggleAdminFlag)
  {
    forall p: Panel | p.id == targetId
      ensures Children(ToggleAdminFlag(p)) == Children(p) && Header(ToggleAdminFlag(p)) == ToggleAdminFlag(Header(p))
    {
      assert IsAdminOnly(Header(p)) == IsAdminOnly(p);
      assert ToggleAdminFlag(Header(p)) == Header(p).(isAdminOnly := Some(!IsAdminOnly(p)));
    }
  }

  /** An admin-only flag made explicit: absent becomes `false`, a present flag stays. */
  function SettleAdminFlag(p: Panel): (r: Panel)
    ensures IsAdminOnly(r) == IsAdminOnly(p) && r.isAdminOnly.Some?
  {
    p.(isAdminOnly := Some(IsAdminOnly(p)))
  }

  /** Toggling admin-only twice restores every flag's meaning; only an absent flag becomes an explicit `false`. */
  lemma UpdateAdminOnlyTwice(panels: seq<Panel>, selectedPanelId: string)
    ensures UpdateAdminOnly(UpdateAdminOnly(panels, selectedPanelId), selectedPanelId)
      == PatchPanels(panels, selectedPanelId, SettleAdminFlag)
  {
    forall p: Panel | p.id == selectedPanelId
      ensures ToggleAdminFlag(p).id == selectedPanelId && ToggleAdminFlag(ToggleAdminFlag(p)) == SettleAdminFlag(p)
    {
      assert IsAdminOnly(ToggleAdminFlag(p)) == !IsAdminOnly(p);
    }
    PatchCompose(panels, selectedPanelId, ToggleAdminFlag, ToggleAdminFlag, SettleAdminFlag);
  }

  /**
   * Only the target's flag changes: in the pre-order outline every panel stays as it was
   * except panels carrying the target, which have their flag negated.
   */
  lemma UpdateAdminOnlyOutline(panels: seq<Panel>, selectedPanelId: string)
    ensures OnlyTargetsChange(Outline(panels), Outline(UpdateAdminOnly(panels, selectedPanelId)), selectedPanelId, ToggleAdminFlag)
  {
    ToggleAdminFlagOwnFields(selectedPanelId);
    PatchOutline(panels, selectedPanelId, ToggleAdminFlag);
  }

  /** The ids stay, and the target found has its flag negated. */
  lemma UpdateAdminOnlyEffect(panels: seq<Panel>, selectedPanelId: string)
    ensures Ids(UpdateAdminOnly(panels, selectedPanelId)) == Ids(panels)
    ensures selectedPanelId in Ids(panels) ==>
      FindPanelById(selectedPanelId, UpdateAdminOnly(panels, selectedPanelId))
        == Some(ToggleAdminFlag(FindPanelById(selectedPanelId, panels).value))
  {
    forall p: Panel | p.id == selectedPanelId ensures Ids([ToggleAdminFlag(p)]) == Ids([p]) {
      assert Ids([ToggleAdminFlag(p)]) == [p.id] + (if p.nested.Some? then Ids(p.nested.value.panels) else []) + Ids([]);
    }
    PatchKeepsIds(panels, selectedPanelId, ToggleAdminFlag);
    if selectedPanelId in Ids(panels) {
      PatchFind(panels, selectedPanelId, ToggleAdminFlag);
    }
  }
}
