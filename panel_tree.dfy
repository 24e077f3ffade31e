/**
 * The panel tree: a layout is a direction plus an ordered list of panels, and a
 * panel is either a leaf carrying display content or a container whose `nested`
 * layout holds further panels. Both `PanelConfig` declarations of the source
 * (the editing component's and the renderer's) are covered by this one type.
 */
module PanelTree {
  import opened Wrappers

  datatype Direction = Horizontal | Vertical

  datatype ScrollDirection = ScrollHorizontal | ScrollVertical | ScrollBoth

  datatype ScrollConfig = ScrollConfig(direction: ScrollDirection, enabled: bool)

  /** Leaf content: a plain string, or a rendered fragment (named by `tag`) that is kept opaque. */
  datatype Content = Text(text: string) | Fragment(tag: string, body: string)

  /** Every optional field of the source is an `Option`: `None` is an absent or undefined key. */
  datatype Panel = Panel(
    id: string,
    defaultSize: real,
    minSize: Option<real>,
    maxSize: Option<real>,
    content: Option<Content>,
    contentContainerClass: Option<string>,
    textClass: Option<string>,
    isScrollable: Option<ScrollConfig>,
    isAdminOnly: Option<bool>,
    nested: Option<Layout>)

  datatype Layout = Layout(direction: Direction, className: Option<string>, panels: seq<Panel>)

  /** The `d === "horizontal" ? "vertical" : "horizontal"` flip. */
  function Opposite(d: Direction): (r: Direction)
    ensures r != d
  {
    if d == Horizontal then Vertical else Horizontal
  }

  /** `isAdminOnly` is read through `!panel.isAdminOnly`, so an absent flag counts as false. */
  predicate IsAdminOnly(p: Panel) {
    p.isAdminOnly == Some(true)
  }

  /** The per-level filter `!panel.isAdminOnly || isAdmin`. */
  predicate IsVisible(p: Panel, isAdmin: bool) {
    !IsAdminOnly(p) || isAdmin
  }

  /** `a` is `b` with some elements left out, the rest in their original order. */
  predicate SubSeq<T(==)>(a: seq<T>, b: seq<T>)
    decreases |b|
  {
    if a == [] then true
    else if b == [] then false
    else (a[0] == b[0] && SubSeq(a[1..], b[1..])) || SubSeq(a, b[1..])
  }

  lemma {:induction false} SubSeqRefl<T>(a: seq<T>)
    ensures SubSeq(a, a)
    decreases |a|
  {
    if a != [] {
      SubSeqRefl(a[1..]);
    }
  }

  lemma {:induction false} SubSeqSkip<T>(a: seq<T>, c: seq<T>, b: seq<T>)
    requires SubSeq(a, b)
    ensures SubSeq(a, c + b)
    decreases |c|
  {
    if c == [] {
      assert c + b == b;
    } else if a != [] {
      SubSeqSkip(a, c[1..], b);
      assert (c + b)[1..] == c[1..] + b;
    }
  }

  lemma {:induction false} SubSeqConcat<T>(a: seq<T>, b: seq<T>, c: seq<T>, d: seq<T>)
    requires SubSeq(a, b) && SubSeq(c, d)
    ensures SubSeq(a + c, b + d)
    decreases |b|
  {
    if a == [] {
      assert a + c == c;
      SubSeqSkip(c, b, d);
    } else {
      assert b != [];
      assert (b + d)[1..] == b[1..] + d;
      if a[0] == b[0] && SubSeq(a[1..], b[1..]) {
        SubSeqConcat(a[1..], b[1..], c, d);
        assert (a + c)[1..] == a[1..] + c;
      } else {
        SubSeqConcat(a, b[1..], c, d);
      }
    }
  }

  /** Indexing past the head of `[x] + s` indexes `s`. */
  lemma ConsIndex<T>(x: T, s: seq<T>)
    ensures forall i :: 1 <= i < |[x] + s| ==> ([x] + s)[i] == s[i - 1]
  {
  }

  /** A non-empty sequence is its front followed by its last element. */
  lemma SplitLast<T>(s: seq<T>)
    requires s != []
    ensures s == s[..|s| - 1] + [s[|s| - 1]]
  {
  }

  /** The panels of one level that a viewer with role `isAdmin` sees, in their original order. */
  function Visible(ps: seq<Panel>, isAdmin: bool): (r: seq<Panel>)
    ensures forall i :: 0 <= i < |r| ==> r[i] in ps && IsVisible(r[i], isAdmin)
    ensures forall p :: p in ps && IsVisible(p, isAdmin) ==> p in r
    ensures SubSeq(r, ps)
    ensures isAdmin ==> r == ps
  {
    if ps == [] then []
    else
      var rest := Visible(ps[1..], isAdmin);
      SubSeqSkip(rest, [ps[0]], ps[1..]);
      assert ps == [ps[0]] + ps[1..];
      if IsVisible(ps[0], isAdmin) then
        assert ([ps[0]] + rest)[1..] == rest;
        [ps[0]] + rest
      else rest
  }

  /** The filter keeps every visible panel as often as it occurs, and no hidden one. */
  lemma {:induction false} VisibleMultiplicity(ps: seq<Panel>, isAdmin: bool)
    ensures forall p :: multiset(Visible(ps, isAdmin))[p] == if IsVisible(p, isAdmin) then multiset(ps)[p] else 0
  {
    if ps != [] {
      VisibleMultiplicity(ps[1..], isAdmin);
      assert ps == [ps[0]] + ps[1..];
    }
  }

  /** One step of the per-level filter: the first panel if visible, then the filtered rest. */
  lemma VisibleCons(ps: seq<Panel>, isAdmin: bool)
    requires ps != []
    ensures IsVisible(ps[0], isAdmin) ==>
      |Visible(ps, isAdmin)| == |Visible(ps[1..], isAdmin)| + 1 && Visible(ps, isAdmin)[0] == ps[0]
      && forall i :: 1 <= i < |Visible(ps, isAdmin)| ==> Visible(ps, isAdmin)[i] == Visible(ps[1..], isAdmin)[i - 1]
    ensures !IsVisible(ps[0], isAdmin) ==> Visible(ps, isAdmin) == Visible(ps[1..], isAdmin)
  {
  }

  /** Filtering an already filtered level changes nothing. */
  lemma {:induction false} VisibleIdempotent(ps: seq<Panel>, isAdmin: bool)
    ensures Visible(Visible(ps, isAdmin), isAdmin) == Visible(ps, isAdmin)
  {
    if ps != [] {
      VisibleIdempotent(ps[1..], isAdmin);
      var rest := Visible(ps[1..], isAdmin);
      if IsVisible(ps[0], isAdmin) {
        assert ([ps[0]] + rest)[1..] == rest;
      }
    }
  }

  /** Every panel of the tree in depth-first pre-order: a panel, then its nested panels, then its later siblings. */
  function Flatten(ps: seq<Panel>): seq<Panel>
  {
    if ps == [] then []
    else
      [ps[0]]
      + (if ps[0].nested.Some? then Flatten(ps[0].nested.value.panels) else [])
      + Flatten(ps[1..])
  }

  /** The ids of the tree in depth-first pre-order. */
  function Ids(ps: seq<Panel>): seq<string>
  {
    if ps == [] then []
    else
      [ps[0].id]
      + (if ps[0].nested.Some? then Ids(ps[0].nested.value.panels) else [])
      + Ids(ps[1..])
  }

  lemma {:induction false} IdsAreFlattenIds(ps: seq<Panel>)
    ensures |Ids(ps)| == |Flatten(ps)|
    ensures forall k :: 0 <= k < |Ids(ps)| ==> Ids(ps)[k] == Flatten(ps)[k].id
  {
    if ps != [] {
      var below := if ps[0].nested.Some? then ps[0].nested.value.panels else [];
      if ps[0].nested.Some? {
        IdsAreFlattenIds(ps[0].nested.value.panels);
      }
      IdsAreFlattenIds(ps[1..]);
      var head := [ps[0].id] + Ids(below);
      var flatHead := [ps[0]] + Flatten(below);
      assert Ids(ps) == head + Ids(ps[1..]);
      assert Flatten(ps) == flatHead + Flatten(ps[1..]);
      forall k | 0 <= k < |Ids(ps)|
        ensures Ids(ps)[k] == Flatten(ps)[k].id
      {
        if k == 0 {
        } else if k < |head| {
          assert head[k] == Ids(below)[k - 1];
          assert flatHead[k] == Flatten(below)[k - 1];
        } else {
          assert Ids(ps)[k] == Ids(ps[1..])[k - |head|];
          assert Flatten(ps)[k] == Flatten(ps[1..])[k - |head|];
        }
      }
    }
  }

  lemma {:induction false} IdsAppend(a: seq<Panel>, b: seq<Panel>)
    ensures Ids(a + b) == Ids(a) + Ids(b)
  {
    if a == [] {
      assert a + b == b;
    } else {
      assert (a + b)[0] == a[0];
      assert (a + b)[1..] == a[1..] + b;
      IdsAppend(a[1..], b);
    }
  }

  /** The ids below a panel. */
  function NestedIds(p: Panel): seq<string> {
    if p.nested.Some? then Ids(p.nested.value.panels) else []
  }

  lemma IdsSingle(p: Panel)
    ensures Ids([p]) == [p.id] + NestedIds(p)
  {
    assert [p][1..] == [];
  }

  lemma IdsPair(a: Panel, b: Panel)
    ensures Ids([a, b]) == [a.id] + NestedIds(a) + [b.id] + NestedIds(b)
  {
    var ps := [a, b];
    assert ps[1..] == [b];
    assert ps[1..][1..] == [];
    assert Ids(ps[1..]) == [b.id] + NestedIds(b) + Ids(ps[1..][1..]);
  }

  /** A panel without its nested panels (its nested direction and class are kept). */
  function Header(p: Panel): Panel {
    p.(nested := if p.nested.Some? then Some(p.nested.value.(panels := [])) else None)
  }

  /** The headers of the tree in depth-first pre-order: what each panel says about itself. */
  function Outline(ps: seq<Panel>): seq<Panel>
  {
    if ps == [] then []
    else
      [Header(ps[0])]
      + (if ps[0].nested.Some? then Outline(ps[0].nested.value.panels) else [])
      + Outline(ps[1..])
  }

  /** The sum of the `defaultSize`s of one level. */
  function Sum(ps: seq<Panel>): real
  {
    if ps == [] then 0.0 else ps[0].defaultSize + Sum(ps[1..])
  }

  lemma {:induction false} SumAppend(a: seq<Panel>, b: seq<Panel>)
    ensures Sum(a + b) == Sum(a) + Sum(b)
  {
    if a != [] {
      assert (a + b)[1..] == a[1..] + b;
      SumAppend(a[1..], b);
    } else {
      assert a + b == b;
    }
  }

  /** Every panel at every depth has a positive `defaultSize`. */
  predicate PositiveSizes(ps: seq<Panel>)
  {
    ps == [] ||
    (ps[0].defaultSize > 0.0
     && (ps[0].nested.Some? ==> PositiveSizes(ps[0].nested.value.panels))
     && PositiveSizes(ps[1..]))
  }

  lemma {:induction false} PositiveSizesAppend(a: seq<Panel>, b: seq<Panel>)
    requires PositiveSizes(a) && PositiveSizes(b)
    ensures PositiveSizes(a + b)
  {
    if a != [] {
      assert (a + b)[0] == a[0];
      assert (a + b)[1..] == a[1..] + b;
      PositiveSizesAppend(a[1..], b);
    } else {
      assert a + b == b;
    }
  }

  /** A level of positive sizes has a positive total. */
  lemma {:induction false} PositiveSum(ps: seq<Panel>)
    requires PositiveSizes(ps) && ps != []
    ensures Sum(ps) > 0.0
  {
    if ps[1..] != [] {
      PositiveSum(ps[1..]);
    }
  }
}
