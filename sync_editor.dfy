/**
 * The layout editor page: one layout configuration kept in step with two text
 * surfaces, a JSON text and a script whose return value is the configuration.
 * A settled edit of either text is a commit; the JSON text is read with a parser
 * and the script with an evaluator, both of which are opaque here and passed in
 * as functions. In admin mode the page shows the configuration beside the editor
 * surface; otherwise it shows the configuration alone.
 */
module SyncEditor {
  import opened Wrappers
  import opened PanelTree
  import opened View
  import opened Renderer

  /** Which of the two text surfaces the editor panel shows. */
  datatype EditorMode = JsonMode | CodeMode

  /**
   * What running the script can return, reduced to what the code commit tells apart:
   * an object is taken to be a layout configuration.
   */
  datatype JsValue = Undefined | Null | Bool(b: bool) | Number(n: real) | Str(s: string) | Func | Object(layout: Layout)

  /** Running the script either throws or returns a value. */
  datatype EvalOutcome = Threw | Returned(value: JsValue)

  /** JavaScript truthiness: `undefined`, `null`, `false`, `0` and `""` are falsy. */
  predicate JsTruthy(v: JsValue) {
    match v
    case Undefined => false
    case Null => false
    case Bool(b) => b
    case Number(n) => n != 0.0
    case Str(s) => s != ""
    case Func => true
    case Object(_) => true
  }

  /** `typeof v === "object"`, which holds for `null` as well as for objects. */
  predicate TypeofObject(v: JsValue) {
    v.Null? || v.Object?
  }

  /**
   * The guard `result && typeof result === "object"`: truthiness rules out `null`,
   * the type test rules out every other primitive and functions, so only an object
   * is adopted.
   */
  function Adopted(v: JsValue): (r: bool)
    ensures r <==> v.Object?
  {
    JsTruthy(v) && TypeofObject(v)
  }

  /** A leaf of the sample layouts: clamps, a container class and content. */
  function SampleLeaf(id: string, size: real, minSize: real, maxSize: real, containerClass: string, content: Content): Panel {
    Panel(id, size, Some(minSize), Some(maxSize), Some(content), Some(containerClass), None, None, None, None)
  }

  /**
   * The dashboard shape shared by the initial configuration and the script template:
   * a vertical header/content split whose content panel splits horizontally into a
   * main area and a sidebar.
   */
  function Dashboard(header: Content, main: Content, mainClass: string, sidebar: Content): Layout {
    Layout(Vertical, Some("max-w-full rounded-lg h-full"), [
      SampleLeaf("header-panel", 15.0, 10.0, 20.0, "flex items-center justify-between p-4 bg-muted/20", header),
      Panel("content-panel", 85.0, Some(50.0), Some(90.0), None, None, None, None, None,
        Some(Layout(Horizontal, Some("h-full"), [
          SampleLeaf("main-content", 70.0, 50.0, 80.0, mainClass, main),
          SampleLeaf("sidebar", 30.0, 20.0, 40.0, "p-4 border-l h-full bg-muted/10", sidebar)])))])
  }

  lemma PairSum(a: Panel, b: Panel)
    ensures Sum([a, b]) == a.defaultSize + b.defaultSize
  {
    var ps := [a, b];
    assert ps[1..] == [b];
    assert ps[1..][1..] == [];
    assert Sum(ps[1..]) == b.defaultSize + Sum(ps[1..][1..]);
  }

  lemma PairPositive(a: Panel, b: Panel)
    requires a.defaultSize > 0.0 && (a.nested.Some? ==> PositiveSizes(a.nested.value.panels))
    requires b.defaultSize > 0.0 && (b.nested.Some? ==> PositiveSizes(b.nested.value.panels))
    ensures PositiveSizes([a, b])
  {
    assert [a, b][1..] == [b];
    assert [b][1..] == [];
  }

  /** The ids of the dashboard, whatever its contents. */
  lemma DashboardIds(header: Content, main: Content, mainClass: string, sidebar: Content)
    ensures Ids(Dashboard(header, main, mainClass, sidebar).panels) == ["header-panel", "content-panel", "main-content", "sidebar"]
  {
    var l := Dashboard(header, main, mainClass, sidebar);
    var inner := l.panels[1].nested.value.panels;
    IdsPair(inner[0], inner[1]);
    IdsPair(l.panels[0], l.panels[1]);
  }

  /** Both levels of the dashboard split a total of 100, and every size is positive. */
  lemma DashboardSizes(header: Content, main: Content, mainClass: string, sidebar: Content)
    ensures var l := Dashboard(header, main, mainClass, sidebar);
      Sum(l.panels) == 100.0 && Sum(l.panels[1].nested.value.panels) == 100.0 && PositiveSizes(l.panels)
  {
    var l := Dashboard(header, main, mainClass, sidebar);
    var inner := l.panels[1].nested.value.panels;
    PairSum(inner[0], inner[1]);
    PairSum(l.panels[0], l.panels[1]);
    PairPositive(inner[0], inner[1]);
    PairPositive(l.panels[0], l.panels[1]);
  }

  /** The initial configuration: the dashboard with rendered fragments as its contents. */
  function DefaultConfig(): (l: Layout)
    ensures Ids(l.panels) == ["header-panel", "content-panel", "main-content", "sidebar"]
    ensures Sum(l.panels) == 100.0 && PositiveSizes(l.panels)
  {
    var header := Fragment("dashboard-header", "Dashboard title with Settings and New Item buttons");
    var main := Fragment("recent-activity", "Recent Activity list of three sample items");
    var sidebar := Fragment("quick-actions", "Quick Actions search box and navigation buttons");
    DashboardIds(header, main, "p-4 h-full overflow-auto", sidebar);
    DashboardSizes(header, main, "p-4 h-full overflow-auto", sidebar);
    Dashboard(header, main, "p-4 h-full overflow-auto", sidebar)
  }

  /** The layout the script template returns: the same dashboard with plain text contents. */
  function TemplateConfig(): (l: Layout)
    ensures Ids(l.panels) == Ids(DefaultConfig().panels)
    ensures Sum(l.panels) == 100.0 && PositiveSizes(l.panels)
    ensures l != DefaultConfig()
  {
    DashboardIds(Text("Header Content"), Text("Main Content Area"), "p-4 h-full", Text("Sidebar Content"));
    DashboardSizes(Text("Header Content"), Text("Main Content Area"), "p-4 h-full", Text("Sidebar Content"));
    var l := Dashboard(Text("Header Content"), Text("Main Content Area"), "p-4 h-full", Text("Sidebar Content"));
    assert l.panels[0].content != DefaultConfig().panels[0].content;
    l
  }

  /** The page's state: the configuration, the two texts and the surface on show. */
  datatype SyncState = SyncState(config: Layout, jsonValue: string, codeValue: string, editorMode: EditorMode)

  /** The JSON text describes the configuration exactly. */
  predicate InSync(s: SyncState, parse: string -> Option<Layout>) {
    parse(s.jsonValue) == Some(s.config)
  }

  /**
   * A settled JSON text is committed: if it parses, its value becomes the
   * configuration; if not, nothing changes. The texts and the mode are never touched.
   */
  function AfterJsonCommit(s: SyncState, parse: string -> Option<Layout>): (r: SyncState)
    ensures r.jsonValue == s.jsonValue && r.codeValue == s.codeValue && r.editorMode == s.editorMode
    ensures parse(s.jsonValue).Some? ==> r.config == parse(s.jsonValue).value
    ensures parse(s.jsonValue).None? ==> r == s
    ensures InSync(r, parse) <==> parse(s.jsonValue).Some?
    ensures InSync(s, parse) ==> r == s
  {
    var parsed := parse(s.jsonValue);
    if parsed.Some? then s.(config := parsed.value) else s
  }

  /** Committing the same JSON text twice is committing it once. */
  lemma JsonCommitIdempotent(s: SyncState, parse: string -> Option<Layout>)
    ensures AfterJsonCommit(AfterJsonCommit(s, parse), parse) == AfterJsonCommit(s, parse)
  {
    var r := AfterJsonCommit(s, parse);
    if parse(s.jsonValue).Some? {
      assert InSync(r, parse);
    }
  }

  /**
   * A settled script is committed: if running it returns an object, that object
   * becomes the configuration and its serialisation the JSON text; if it throws or
   * returns anything else, nothing changes. The script and the mode are never touched.
   */
  function AfterCodeCommit(s: SyncState, evaluate: string -> EvalOutcome, stringify: Layout -> string): (r: SyncState)
    ensures r.codeValue == s.codeValue && r.editorMode == s.editorMode
    ensures evaluate(s.codeValue).Returned? && evaluate(s.codeValue).value.Object? ==>
      r.config == evaluate(s.codeValue).value.layout && r.jsonValue == stringify(r.config)
    ensures evaluate(s.codeValue).Threw? || !evaluate(s.codeValue).value.Object? ==> r == s
  {
    var outcome := evaluate(s.codeValue);
    if outcome.Returned? && Adopted(outcome.value) then
      s.(config := outcome.value.layout, jsonValue := stringify(outcome.value.layout))
    else s
  }

  /**
   * The JSON text a code commit writes is committed in its turn. When the parser
   * reads back what the serialiser wrote for the adopted layout, that second commit
   * changes nothing: the two texts and the configuration agree.
   */
  lemma CodeCommitSettles(s: SyncState, parse: string -> Option<Layout>, evaluate: string -> EvalOutcome, stringify: Layout -> string)
    requires evaluate(s.codeValue).Returned? && evaluate(s.codeValue).value.Object?
    requires parse(stringify(evaluate(s.codeValue).value.layout)) == Some(evaluate(s.codeValue).value.layout)
    ensures InSync(AfterCodeCommit(s, evaluate, stringify), parse)
    ensures AfterJsonCommit(AfterCodeCommit(s, evaluate, stringify), parse) == AfterCodeCommit(s, evaluate, stringify)
  {
    var r := AfterCodeCommit(s, evaluate, stringify);
    assert r.config == evaluate(s.codeValue).value.layout;
  }

  /**
   * On mount both commits run, the JSON one first. When the template script (the
   * text the code surface starts with) returns
   * the template configuration, that is the configuration the page starts from,
   * whatever the parser makes of the initial JSON text.
   */
  lemma MountAdoptsTemplate(template: string, parse: string -> Option<Layout>, evaluate: string -> EvalOutcome, stringify: Layout -> string)
    requires evaluate(template) == Returned(Object(TemplateConfig()))
    ensures var s := AfterCodeCommit(AfterJsonCommit(SyncState(DefaultConfig(), stringify(DefaultConfig()), template, JsonMode), parse), evaluate, stringify);
      s == SyncState(TemplateConfig(), stringify(TemplateConfig()), template, JsonMode)
  {
    var s0 := SyncState(DefaultConfig(), stringify(DefaultConfig()), template, JsonMode);
    var s1 := AfterJsonCommit(s0, parse);
    assert s1.codeValue == template;
  }

  /** What the editor panel holds: the surface of the current mode showing its text. */
  function EditorSurface(s: SyncState): (c: Content)
    ensures c.Fragment?
    ensures s.editorMode == JsonMode ==> c.body == s.jsonValue
    ensures s.editorMode == CodeMode ==> c.body == s.codeValue
  {
    match s.editorMode
    case JsonMode => Fragment("json-editor", s.jsonValue)
    case CodeMode => Fragment("code-editor", s.codeValue)
  }

  const PreviewPanelId := "preview-panel"
  const EditorPanelId := "editor-panel"

  /**
   * The layout the page shows. An admin gets a horizontal split: two thirds preview
   * nesting the configuration, one third the editor surface. Anyone else gets the
   * configuration itself.
   */
  function LayoutConfig(isAdmin: bool, s: SyncState): (l: Layout)
    ensures !isAdmin ==> l == s.config
    ensures isAdmin ==>
      l.direction == Horizontal && |l.panels| == 2
      && l.panels[0].id == PreviewPanelId && l.panels[0].defaultSize == 67.0 && l.panels[0].nested == Some(s.config)
      && l.panels[1].id == EditorPanelId && l.panels[1].defaultSize == 33.0 && l.panels[1].nested.None?
      && l.panels[1].content == Some(EditorSurface(s))
      && Sum(l.panels) == 100.0
      && Ids(l.panels) == [PreviewPanelId] + Ids(s.config.panels) + [EditorPanelId]
  {
    if isAdmin then
      var preview := Panel(PreviewPanelId, 67.0, Some(50.0), Some(80.0), None, Some("h-full"), None, None, None, Some(s.config));
      var editor := Panel(EditorPanelId, 33.0, Some(20.0), Some(50.0), Some(EditorSurface(s)), Some("h-full p-0 bg-muted"), None, None, None, None);
      var ps := [preview, editor];
      PairSum(preview, editor);
      IdsPair(preview, editor);
      Layout(Horizontal, Some("max-w-full rounded-lg border border-border h-[700px]"), ps)
    else s.config
  }

  /**
   * Rendered for an admin, the page is a group of two panes sized 67 and 33: the
   * preview rendering the whole configuration, and the editor surface of the
   * current mode; every panel of the configuration is shown.
   */
  lemma AdminPageRendersPreviewAndEditor(s: SyncState)
    ensures var v := Render(LayoutConfig(true, s), true);
      v.Group? && v.direction == Horizontal && |PanesOf(v.items)| == 2
      && PanesOf(v.items)[0].id == PreviewPanelId && PanesOf(v.items)[0].size == Finite(67.0)
      && PanesOf(v.items)[0].body == Nested(Render(s.config, true))
      && PanesOf(v.items)[1].id == EditorPanelId && PanesOf(v.items)[1].size == Finite(33.0)
      && PanesOf(v.items)[1].body == Leaf(Some("h-full p-0 bg-muted"), None, Raw(Some(EditorSurface(s))))
      && ViewIds(v) == [PreviewPanelId] + Ids(s.config.panels) + [EditorPanelId]
  {
    var l := LayoutConfig(true, s);
    assert Visible(l.panels, true) == l.panels;
    assert Round(Share(67.0, 100.0)) == 67;
    assert Round(Share(33.0, 100.0)) == 33;
    RenderShowsVisibleIds(l, true);
    AdminSeesAllIds(l.panels);
  }

  /**
   * The page's state as a mutable object. Text edits and mode switches are plain
   * assignments; the two commits stand for the debounced effects and run once the
   * text has settled.
   */
  class SyncSession {
    const isAdmin: bool
    const parse: string -> Option<Layout>
    const stringify: Layout -> string
    const evaluate: string -> EvalOutcome
    var config: Layout
    var jsonValue: string
    var codeValue: string
    var editorMode: EditorMode

    function State(): SyncState
      reads this
    {
      SyncState(config, jsonValue, codeValue, editorMode)
    }

    /**
     * The first render: the initial configuration, its serialisation, the template
     * script, the JSON surface.
     */
    constructor(isAdmin: bool, template: string, parse: string -> Option<Layout>, stringify: Layout -> string, evaluate: string -> EvalOutcome)
      ensures this.isAdmin == isAdmin && this.parse == parse && this.stringify == stringify && this.evaluate == evaluate
      ensures config == DefaultConfig() && jsonValue == stringify(DefaultConfig())
      ensures codeValue == template && editorMode == JsonMode
    {
      this.isAdmin := isAdmin;
      this.parse := parse;
      this.stringify := stringify;
      this.evaluate := evaluate;
      config := DefaultConfig();
      jsonValue := stringify(DefaultConfig());
      codeValue := template;
      editorMode := JsonMode;
    }

    /** Typing in the JSON surface replaces its text and nothing else. */
    method EditJson(text: string)
      modifies this
      ensures State() == old(State()).(jsonValue := text)
    {
      jsonValue := text;
    }

    /** Typing in the code surface replaces its text and nothing else. */
    method EditCode(text: string)
      modifies this
      ensures State() == old(State()).(codeValue := text)
    {
      codeValue := text;
    }

    /** Switching tabs changes the surface on show and nothing else. */
    method SetEditorMode(mode: EditorMode)
      modifies this
      ensures State() == old(State()).(editorMode := mode)
    {
      editorMode := mode;
    }

    /** The settled JSON text is parsed; a failure leaves the configuration as it was. */
    method CommitJson()
      modifies this
      ensures State() == AfterJsonCommit(old(State()), parse)
    {
      var parsed := parse(jsonValue);
      if parsed.Some? {
        config := parsed.value;
      }
    }

    /** The settled script is run; only an object result is adopted, with its serialisation. */
    method CommitCode()
      modifies this
      ensures State() == AfterCodeCommit(old(State()), evaluate, stringify)
    {
      var outcome := evaluate(codeValue);
      if outcome.Returned? && Adopted(outcome.value) {
        config := outcome.value.layout;
        jsonValue := stringify(config);
      }
    }

    /** On mount both effects run in the order they are declared: JSON, then code. */
    method Mount()
      modifies this
      ensures State() == AfterCodeCommit(AfterJsonCommit(old(State()), parse), evaluate, stringify)
    {
      CommitJson();
      CommitCode();
    }

    /** The layout on show for this session's role. */
    function Displayed(): (l: Layout)
      reads this
      ensures isAdmin ==> Sum(l.panels) == 100.0
      ensures !isAdmin ==> l == config
    {
      LayoutConfig(isAdmin, State())
    }
  }
}
