/** The common shape of a dashboard widget: its identity strings, its
    configuration (the given dict, or an empty one), the defaults it inherits,
    and the names derived from its type for rendering. The four built-in
    widgets are the kinds. */
module Widgets {
  import opened Common
  import SystemStatus
  import ConnectionMonitor
  import ServiceStatus
  import LogsViewer

  datatype WidgetKind = SystemStatusKind | ConnectionMonitorKind | ServiceStatusKind | LogsViewerKind

  /** The `widget_type` property of each built-in widget. */
  function WidgetType(k: WidgetKind): string
  {
    match k
    case SystemStatusKind => SystemStatus.WidgetType
    case ConnectionMonitorKind => ConnectionMonitor.WidgetType
    case ServiceStatusKind => ServiceStatus.WidgetType
    case LogsViewerKind => LogsViewer.WidgetType
  }

  function DisplayName(k: WidgetKind): string
  {
    match k
    case SystemStatusKind => SystemStatus.DisplayName
    case ConnectionMonitorKind => ConnectionMonitor.DisplayName
    case ServiceStatusKind => ServiceStatus.DisplayName
    case LogsViewerKind => LogsViewer.DisplayName
  }

  function Description(k: WidgetKind): string
  {
    match k
    case SystemStatusKind => SystemStatus.Description
    case ConnectionMonitorKind => ConnectionMonitor.Description
    case ServiceStatusKind => ServiceStatus.Description
    case LogsViewerKind => LogsViewer.Description
  }

  /** The kind that announces a given type, if any. */
  function KindOf(widgetType: string): (r: Option<WidgetKind>)
    ensures r.Some? ==> WidgetType(r.value) == widgetType
    ensures r.None? ==> forall k: WidgetKind :: WidgetType(k) != widgetType
  {
    if widgetType == SystemStatus.WidgetType then Some(SystemStatusKind)
    else if widgetType == ConnectionMonitor.WidgetType then Some(ConnectionMonitorKind)
    else if widgetType == ServiceStatus.WidgetType then Some(ServiceStatusKind)
    else if widgetType == LogsViewer.WidgetType then Some(LogsViewerKind)
    else None
  }

  /** No two built-in widgets share a type, so a type names one widget. */
  lemma WidgetTypeInjective(a: WidgetKind, b: WidgetKind)
    ensures WidgetType(a) == WidgetType(b) ==> a == b
  {
  }

  lemma KindOfType(k: WidgetKind)
    ensures KindOf(WidgetType(k)) == Some(k)
  {
  }

  /** `default_config`: each built-in overrides the empty default; the
      service widget's depends on the platform. */
  function DefaultConfig(k: WidgetKind, linux: bool): Dict
  {
    match k
    case SystemStatusKind => SystemStatus.DefaultConfig()
    case ConnectionMonitorKind => ConnectionMonitor.DefaultConfig()
    case ServiceStatusKind => ServiceStatus.DefaultConfig(linux)
    case LogsViewerKind => LogsViewer.DefaultConfig()
  }

  /** Every built-in default config sets a refresh interval first. */
  lemma DefaultConfigRefreshFirst(k: WidgetKind, linux: bool)
    ensures DefaultConfig(k, linux) != [] && DefaultConfig(k, linux)[0].0 == "refresh_interval"
  {
    var d := DefaultConfig(k, linux);
    assert Keys(d)[0] == "refresh_interval";
  }

  /** `config_schema`: no built-in overrides the empty schema. */
  function ConfigSchema(k: WidgetKind): (d: Dict)
    ensures d == []
  {
    []
  }

  /** A widget instance: its class and the configuration it was built with. */
  datatype Widget = Widget(kind: WidgetKind, config: Dict)

  /** `__init__`: `self.config = config or {}`, so both a missing and an empty
      dict leave an empty configuration. */
  function NewWidget(kind: WidgetKind, config: Option<Dict>): (w: Widget)
    ensures w.kind == kind
    ensures config.Some? ==> w.config == config.value
    ensures config.None? ==> w.config == []
  {
    Widget(kind, match config case Some(d) => d case None => [])
  }

  /** `validate_config`: every configuration is accepted, and no built-in
      narrows that. */
  function ValidateConfig(w: Widget, config: Dict): (ok: bool)
    ensures ok
  {
    true
  }

  /** `get_template_name`: `widgets/<type>.html`. */
  function TemplateName(w: Widget): (r: string)
    ensures StartsWith(r, "widgets/") && EndsWith(r, ".html")
  {
    var r := "widgets/" + WidgetType(w.kind) + ".html";
    assert r[..8] == "widgets/";
    assert r[|r| - 5..] == ".html";
    r
  }

  /** The widget type named by a template file, if it is one. */
  function TypeOfTemplate(name: string): Option<string>
  {
    if |name| >= 13 && StartsWith(name, "widgets/") && EndsWith(name, ".html")
    then Some(name[8..|name| - 5])
    else None
  }

  /** A template name gives back its widget's type, so different kinds
      render with different templates. */
  lemma TemplateNameRoundTrip(w: Widget)
    ensures TypeOfTemplate(TemplateName(w)) == Some(WidgetType(w.kind))
  {
    var t := WidgetType(w.kind);
    var r := TemplateName(w);
    assert r == "widgets/" + t + ".html";
    assert |t| >= 11;
    assert r[8..|r| - 5] == t;
  }

  /** `get_css_classes`: `widget widget-<type>`. */
  function CssClasses(w: Widget): (r: string)
  {
    "widget widget-" + WidgetType(w.kind)
  }

  /** Built-in types hold no spaces, so the class attribute is exactly two
      classes: the generic one and the type-specific one. */
  lemma CssClassesAreTwo(w: Widget)
    ensures Split(CssClasses(w), ' ') == ["widget", "widget-" + WidgetType(w.kind)]
  {
    var t := WidgetType(w.kind);
    var rest := "widget-" + t;
    assert ' ' !in rest;
    NoSeparatorSplit(rest, ' ');
    assert CssClasses(w) == "widget" + [' '] + rest;
    SplitAtSeparator("widget", rest, ' ');
  }

  /** A string without the separator splits into itself. */
  lemma {:induction false} NoSeparatorSplit(s: string, c: char)
    requires c !in s
    ensures Split(s, c) == [s]
    decreases |s|
  {
    if s != [] {
      NoSeparatorSplit(s[1..], c);
      assert [s[0]] + s[1..] == s;
    }
  }

  /** Splitting `a + c + b` where `a` lacks `c`: the pieces of `a`'s end
      followed by those of `b`. */
  lemma {:induction false} SplitAtSeparator(a: string, b: string, c: char)
    requires c !in a
    ensures Split(a + [c] + b, c) == [a] + Split(b, c)
    decreases |a|
  {
    if a == [] {
      assert a + [c] + b == [c] + b;
      assert ([c] + b)[1..] == b;
    } else {
      SplitAtSeparator(a[1..], b, c);
      assert (a + [c] + b)[1..] == a[1..] + [c] + b;
      assert [a[0]] + a[1..] == a;
    }
  }

  /** `to_dict`. */
  function ToDict(w: Widget, linux: bool): (d: Dict)
    ensures |d| == 6
    ensures Keys(d) == ["type", "display_name", "description", "config", "default_config", "config_schema"]
    ensures d[0].1 == VStr(WidgetType(w.kind)) && d[3].1 == VDict(w.config)
  {
    [("type", VStr(WidgetType(w.kind))),
     ("display_name", VStr(DisplayName(w.kind))),
     ("description", VStr(Description(w.kind))),
     ("config", VDict(w.config)),
     ("default_config", VDict(DefaultConfig(w.kind, linux))),
     ("config_schema", VDict(ConfigSchema(w.kind)))]
  }
}
