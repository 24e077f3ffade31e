/**
 * The flat element-list editor: a list of elements, each with an id, a type and
 * a map of props, and a selection that is a separate copy of one element.
 * Elements are added with type-specific default props and edited by a shallow
 * merge of a props map into the element with a given id.
 */
module ElementEditor {
  import opened Wrappers

  /** A prop value: a string, or the `style` object with its own string entries. */
  datatype PropValue = Str(s: string) | Style(entries: map<string, string>)

  type Props = map<string, PropValue>

  datatype Element = Element(id: string, elementType: string, props: Props)

  const ChildrenKey := "children"
  const ClassNameKey := "className"
  const StyleKey := "style"

  /** The five element types the library offers. */
  predicate IsElementType(t: string) {
    t == "div" || t == "button" || t == "input" || t == "image" || t == "text"
  }

  /**
   * The props a new element of type `t` starts with; a type outside the five
   * gets no props at all.
   */
  function DefaultPropsForType(t: string): (r: Props)
    ensures IsElementType(t) <==> ClassNameKey in r
    ensures !IsElementType(t) ==> r == map[]
    ensures t == "text" ==> r.Keys == {ChildrenKey, ClassNameKey}
    ensures t == "input" ==> ChildrenKey !in r && StyleKey in r
    ensures t == "button" ==> StyleKey !in r
  {
    if t == "div" then
      map[ClassNameKey := Str("bg-gray-100 p-4 rounded"),
          StyleKey := Style(map["width" := "200px", "height" := "100px"]),
          ChildrenKey := Str("Div Element")]
    else if t == "button" then
      map[ClassNameKey := Str("bg-blue-500 text-white px-4 py-2 rounded"),
          "onClick" := Str("alert('Button clicked')"),
          ChildrenKey := Str("Button")]
    else if t == "input" then
      map["type" := Str("text"),
          ClassNameKey := Str("border p-2 rounded"),
          "placeholder" := Str("Enter text..."),
          StyleKey := Style(map["width" := "200px"])]
    else if t == "image" then
      map["src" := Str("/placeholder.svg?height=100&width=200"),
          "alt" := Str("Placeholder image"),
          ClassNameKey := Str("rounded"),
          StyleKey := Style(map["width" := "200px", "height" := "100px"])]
    else if t == "text" then
      map[ChildrenKey := Str("Text Element"),
          ClassNameKey := Str("text-lg font-medium")]
    else
      map[]
  }

  /**
   * `{ ...props, ...upd }`: keys of `upd` take its value (a `style` is replaced
   * as a whole, not merged entry by entry), every other key keeps its old value,
   * and no key is lost.
   */
  function Merge(props: Props, upd: Props): (r: Props)
    ensures r.Keys == props.Keys + upd.Keys
    ensures forall k :: k in upd ==> r[k] == upd[k]
    ensures forall k :: k in props && k !in upd ==> r[k] == props[k]
  {
    props + upd
  }

  /** Merging the same update again changes nothing. */
  lemma MergeIdempotent(props: Props, upd: Props)
    ensures Merge(Merge(props, upd), upd) == Merge(props, upd)
  {
  }

  /** Two successive merges are one merge of the second update over the first. */
  lemma MergeTwice(props: Props, u1: Props, u2: Props)
    ensures Merge(Merge(props, u1), u2) == Merge(props, Merge(u1, u2))
  {
  }

  /** One element after an edit of the props of element `id`. */
  function UpdatedElement(e: Element, id: string, upd: Props): Element {
    if e.id == id then e.(props := Merge(e.props, upd)) else e
  }

  /**
   * The list after an edit of the props of element `id`: same length and order,
   * every element keeps its id and type, elements with another id are unchanged
   * and each element with that id gets the merge.
   */
  function UpdatedElements(elements: seq<Element>, id: string, upd: Props): (r: seq<Element>)
    ensures |r| == |elements|
    ensures forall i :: 0 <= i < |r| ==> r[i].id == elements[i].id && r[i].elementType == elements[i].elementType
    ensures forall i :: 0 <= i < |r| && elements[i].id != id ==> r[i] == elements[i]
    ensures forall i :: 0 <= i < |r| && elements[i].id == id ==> r[i].props == Merge(elements[i].props, upd)
  {
    seq(|elements|, i requires 0 <= i < |elements| => UpdatedElement(elements[i], id, upd))
  }

  /** An edit of an id no element carries leaves the list as it was. */
  lemma UpdateAbsentIsIdentity(elements: seq<Element>, id: string, upd: Props)
    requires forall e :: e in elements ==> e.id != id
    ensures UpdatedElements(elements, id, upd) == elements
  {
  }

  /** Repeating an edit changes nothing more. */
  lemma UpdateIdempotent(elements: seq<Element>, id: string, upd: Props)
    ensures UpdatedElements(UpdatedElements(elements, id, upd), id, upd) == UpdatedElements(elements, id, upd)
  {
    var once := UpdatedElements(elements, id, upd);
    var twice := UpdatedElements(once, id, upd);
    forall i | 0 <= i < |once|
      ensures twice[i] == once[i]
    {
      if elements[i].id == id {
        MergeIdempotent(elements[i].props, upd);
      }
    }
  }

  /** The selection after an edit: merged iff it carries the edited id. */
  function UpdatedSelection(selected: Option<Element>, id: string, upd: Props): (r: Option<Element>)
    ensures r.Some? <==> selected.Some?
    ensures selected.Some? && selected.value.id == id ==>
      r.value == selected.value.(props := Merge(selected.value.props, upd))
    ensures selected.Some? && selected.value.id != id ==> r == selected
  {
    if selected.Some? then Some(UpdatedElement(selected.value, id, upd)) else None
  }

  /** The selection is one of the listed elements, or there is none. */
  predicate SelectionListed(elements: seq<Element>, selected: Option<Element>) {
    selected.Some? ==> selected.value in elements
  }

  /**
   * An edit keeps a listed selection listed: the list and the selection receive
   * the same merge, so the selection never goes stale.
   */
  lemma UpdateKeepsSelectionListed(elements: seq<Element>, selected: Option<Element>, id: string, upd: Props)
    requires SelectionListed(elements, selected)
    ensures SelectionListed(UpdatedElements(elements, id, upd), UpdatedSelection(selected, id, upd))
  {
  }

  /** The three elements the page starts with; their ids are distinct. */
  function InitialElements(): (r: seq<Element>)
    ensures |r| == 3
    ensures forall i, j :: 0 <= i < j < |r| ==> r[i].id != r[j].id
    ensures forall e :: e in r ==> IsElementType(e.elementType)
  {
    [ Element("element-1", "div",
        map[ClassNameKey := Str("bg-gray-100 p-4 rounded mb-4"),
            StyleKey := Style(map["width" := "300px", "height" := "100px"]),
            ChildrenKey := Str("This is a container element")]),
      Element("element-2", "button",
        map[ClassNameKey := Str("bg-blue-500 text-white px-4 py-2 rounded"),
            "onClick" := Str("alert('Button clicked!')"),
            ChildrenKey := Str("Click Me")]),
      Element("element-3", "text",
        map[ClassNameKey := Str("text-lg font-medium mt-4"),
            ChildrenKey := Str("This is a text element")]) ]
  }

  /** The page's state: the element list and the selected element, if any. */
  class EditorPage {
    var elements: seq<Element>
    var selected: Option<Element>

    predicate SelectionInSync()
      reads this
    {
      SelectionListed(elements, selected)
    }

    constructor()
      ensures elements == InitialElements() && selected == None
      ensures SelectionInSync()
    {
      elements := InitialElements();
      selected := None;
    }

    /** Selecting changes the selection and nothing else. */
    method SelectElement(e: Element)
      modifies this
      ensures selected == Some(e)
      ensures elements == old(elements)
    {
      selected := Some(e);
    }

    /** Appends one element of the given type, with its default props, and selects it. */
    method AddElement(elementType: string, stamp: string) returns (e: Element)
      modifies this
      ensures e.id == "element-" + stamp && e.elementType == elementType
      ensures e.props == DefaultPropsForType(elementType)
      ensures elements == old(elements) + [e]
      ensures selected == Some(e)
      ensures SelectionInSync()
    {
      e := Element("element-" + stamp, elementType, DefaultPropsForType(elementType));
      elements := elements + [e];
      selected := Some(e);
    }

    /** Merges `upd` into the props of element `id`, in the list and in the selection. */
    method UpdateElementProps(id: string, upd: Props)
      modifies this
      ensures elements == UpdatedElements(old(elements), id, upd)
      ensures selected == UpdatedSelection(old(selected), id, upd)
      ensures old(SelectionInSync()) ==> SelectionInSync()
    {
      if SelectionInSync() {
        UpdateKeepsSelectionListed(elements, selected, id, upd);
      }
      elements := UpdatedElements(elements, id, upd);
      if selected.Some? && selected.value.id == id {
        selected := Some(selected.value.(props := Merge(selected.value.props, upd)));
      }
    }
  }
}
