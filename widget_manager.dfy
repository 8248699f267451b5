/** The widget registry: a map from widget type to widget class, filled
    lazily with the four built-in widgets the first time it is consulted, and
    used to build widgets, list them and validate their configurations. */
module WidgetRegistry {
  import opened Common
  import opened Widgets

  /** A class handed to `register_widget`: a `BaseWidget` subclass, or some
      other class, known by its printed form. */
  datatype WidgetClass = WidgetSubclass(kind: WidgetKind) | OtherClass(repr: string)

  /** `_load_builtin_widgets`, in its order. */
  const Builtins: seq<WidgetKind> :=
    [SystemStatusKind, ConnectionMonitorKind, ServiceStatusKind, LogsViewerKind]

  /** The registry contents: the type-to-class map and the order in which
      types were first registered (a Python dict's iteration order). */
  datatype Registry = Registry(widgets: map<string, WidgetKind>, order: seq<string>)

  /** Each registered type listed once, every listed type registered, and each
      class filed under its own type. */
  ghost predicate WellFormed(r: Registry)
  {
    && (forall i, j :: 0 <= i < j < |r.order| ==> r.order[i] != r.order[j])
    && (forall t :: t in r.widgets <==> t in r.order)
    && (forall t :: t in r.widgets ==> WidgetType(r.widgets[t]) == t)
  }

  const Empty: Registry := Registry(map[], [])

  /** Filing one subclass under its type; a type seen before keeps its place
      in the order and gets the new class. */
  function Add(r: Registry, k: WidgetKind): (s: Registry)
    ensures s.widgets == r.widgets[WidgetType(k) := k]
  {
    var t := WidgetType(k);
    Registry(r.widgets[t := k], if t in r.widgets then r.order else r.order + [t])
  }

  /** Filing a subclass keeps the registry well formed. */
  lemma AddWellFormed(r: Registry, k: WidgetKind)
    requires WellFormed(r)
    ensures WellFormed(Add(r, k))
  {
  }

  /** `register_widget`: anything but a `BaseWidget` subclass raises
      ValueError; a subclass is filed under its type. */
  function Register(r: Registry, cls: WidgetClass): (s: Result<Registry>)
    ensures cls.OtherClass? ==> s == Err(cls.repr + " must inherit from BaseWidget")
    ensures cls.WidgetSubclass? ==> s == Ok(Add(r, cls.kind))
  {
    match cls
    case OtherClass(repr) => Err(repr + " must inherit from BaseWidget")
    case WidgetSubclass(k) => Ok(Add(r, k))
  }

  /** Registering overwrites the class of that type only, and never reorders
      or forgets a type. */
  lemma AddOverwritesOnly(r: Registry, k: WidgetKind, t: string)
    requires t != WidgetType(k)
    ensures t in Add(r, k).widgets <==> t in r.widgets
    ensures t in r.widgets ==> Add(r, k).widgets[t] == r.widgets[t]
    ensures WidgetType(k) in Add(r, k).widgets && Add(r, k).widgets[WidgetType(k)] == k
    ensures |r.order| <= |Add(r, k).order| && Add(r, k).order[..|r.order|] == r.order
  {
  }

  /** Filing several subclasses in turn. */
  function AddAll(r: Registry, kinds: seq<WidgetKind>): (s: Registry)
    decreases |kinds|
  {
    if kinds == [] then r else Add(AddAll(r, kinds[..|kinds| - 1]), kinds[|kinds| - 1])
  }

  /** `initialize`: the built-ins are filed the first time only. */
  function Initialized(r: Registry, initialized: bool): Registry
  {
    if initialized then r else AddAll(r, Builtins)
  }

  /** Initializing an empty registry files exactly the four built-in types,
      in `_load_builtin_widgets` order. */
  lemma InitializeFromEmpty()
    ensures Initialized(Empty, false).order
         == ["system_status", "connection_monitor", "service_status", "logs_viewer"]
    ensures Initialized(Empty, false).widgets.Keys
         == {"system_status", "connection_monitor", "service_status", "logs_viewer"}
  {
    var r1 := Add(Empty, SystemStatusKind);
    var r2 := Add(r1, ConnectionMonitorKind);
    var r3 := Add(r2, ServiceStatusKind);
    var r4 := Add(r3, LogsViewerKind);
    assert r1.order == ["system_status"] && r1.widgets.Keys == {"system_status"};
    assert r2.order == ["system_status", "connection_monitor"];
    assert r3.order == ["system_status", "connection_monitor", "service_status"];
    AddAllSnoc(Empty, Builtins, 0);
    AddAllSnoc(Empty, Builtins, 1);
    AddAllSnoc(Empty, Builtins, 2);
    AddAllSnoc(Empty, Builtins, 3);
    assert Builtins[..0] == [];
    assert Builtins[..4] == Builtins;
    assert AddAll(Empty, Builtins) == r4;
  }

  lemma AddAllSnoc(r: Registry, kinds: seq<WidgetKind>, i: nat)
    requires i < |kinds|
    ensures AddAll(r, kinds[..i + 1]) == Add(AddAll(r, kinds[..i]), kinds[i])
  {
    assert kinds[..i + 1][..i] == kinds[..i];
  }

  /** Whatever was registered before, after initialization every built-in
      type is present. */
  lemma {:induction false} AddAllContains(r: Registry, kinds: seq<WidgetKind>, i: nat)
    requires i < |kinds|
    ensures WidgetType(kinds[i]) in AddAll(r, kinds).widgets
    decreases |kinds|
  {
    if i < |kinds| - 1 {
      AddAllContains(r, kinds[..|kinds| - 1], i);
    }
  }

  /** The `to_dict` of a fresh instance of the class filed under `t`. */
  function Describe(r: Registry, t: string, linux: bool): (d: Dict)
    ensures t in r.widgets ==> |d| == 6 && d[0].1 == VStr(WidgetType(r.widgets[t])) && d[3].1 == VDict([])
  {
    if t in r.widgets then ToDict(NewWidget(r.widgets[t], None), linux) else []
  }

  /** The loop of `get_available_widgets` over the registration order. */
  method DescribeAll(r: Registry, linux: bool) returns (list: seq<Dict>)
    ensures |list| == |r.order|
    ensures forall k :: 0 <= k < |r.order| ==> list[k] == Describe(r, r.order[k], linux)
  {
    list := [];
    for i := 0 to |r.order|
      invariant |list| == i
      invariant forall k :: 0 <= k < i ==> list[k] == Describe(r, r.order[k], linux)
    {
      list := list + [Describe(r, r.order[i], linux)];
    }
  }

  class WidgetManager {
    var widgets: map<string, WidgetKind>
    var order: seq<string>
    var initialized: bool

    function State(): Registry
      reads this
    {
      Registry(widgets, order)
    }

    ghost predicate Valid()
      reads this
    {
      WellFormed(State())
    }

    /** The class attributes before anything runs: no widgets, not initialized. */
    constructor ()
      ensures Valid() && State() == Empty && !initialized
    {
      widgets, order, initialized := map[], [], false;
    }

    /** `register_widget`: returns the ValueError message for a class that is
        not a widget, leaving the registry alone; otherwise files it. */
    method RegisterWidget(cls: WidgetClass) returns (error: Option<string>)
      requires Valid()
      modifies this
      ensures Valid() && initialized == old(initialized)
      ensures Register(old(State()), cls).Err? ==>
                error == Some(Register(old(State()), cls).error) && State() == old(State())
      ensures Register(old(State()), cls).Ok? ==>
                error == None && State() == Register(old(State()), cls).value
    {
      match cls {
        case OtherClass(repr) =>
          error := Some(repr + " must inherit from BaseWidget");
        case WidgetSubclass(k) =>
          var t := WidgetType(k);
          if t !in widgets {
            order := order + [t];
          }
          AddWellFormed(old(State()), k);
          widgets := widgets[t := k];
          error := None;
      }
    }

    /** `initialize`: a no-op once initialized; otherwise registers the
        built-ins in order and sets the flag. */
    method Initialize()
      requires Valid()
      modifies this
      ensures Valid() && initialized
      ensures State() == Initialized(old(State()), old(initialized))
    {
      if initialized {
        return;
      }
      ghost var start := State();
      for i := 0 to |Builtins|
        invariant Valid() && !initialized
        invariant State() == AddAll(start, Builtins[..i])
      {
        AddAllSnoc(start, Builtins, i);
        var error := RegisterWidget(WidgetSubclass(Builtins[i]));
      }
      assert Builtins[..|Builtins|] == Builtins;
      initialized := true;
    }

    /** `get_widget`: after initializing, an unregistered type raises
        ValueError; a registered one gives a new instance of its class with
        the given configuration. */
    method GetWidget(widgetType: string, config: Option<Dict>) returns (r: Result<Widget>)
      requires Valid()
      modifies this
      ensures Valid() && initialized
      ensures State() == Initialized(old(State()), old(initialized))
      ensures widgetType !in widgets ==> r == Err("Unknown widget type: " + widgetType)
      ensures widgetType in widgets ==> r == Ok(NewWidget(widgets[widgetType], config))
    {
      Initialize();
      if widgetType !in widgets {
        return Err("Unknown widget type: " + widgetType);
      }
      return Ok(NewWidget(widgets[widgetType], config));
    }

    /** `get_available_widgets`: after initializing, the `to_dict` of a fresh
        instance of every registered class, in registration order. */
    method GetAvailableWidgets(linux: bool) returns (list: seq<Dict>)
      requires Valid()
      modifies this
      ensures Valid() && initialized
      ensures State() == Initialized(old(State()), old(initialized))
      ensures |list| == |order|
      ensures forall k :: 0 <= k < |order| ==> order[k] in widgets && list[k] == Describe(State(), order[k], linux)
    {
      Initialize();
      list := DescribeAll(State(), linux);
    }

    /** `validate_widget_config`: false for an unregistered type, otherwise
        the widget's own verdict, which accepts everything. */
    method ValidateWidgetConfig(widgetType: string, config: Dict) returns (ok: bool)
      requires Valid()
      modifies this
      ensures Valid() && initialized
      ensures State() == Initialized(old(State()), old(initialized))
      ensures ok <==> widgetType in widgets
    {
      Initialize();
      if widgetType !in widgets {
        return false;
      }
      ok := ValidateConfig(NewWidget(widgets[widgetType], None), config);
    }
  }

  /** A second initialization changes nothing. */
  lemma InitializeIdempotent(r: Registry)
    ensures Initialized(Initialized(r, false), true) == Initialized(r, false)
  {
  }
}
