/** The dashboard page's widget bookkeeping: a user's enabled widget
    configurations in position order, and the four default configurations
    created for a user who has none. The widget configuration table is a
    sequence of rows that creation appends to. */
module Dashboard {
  import opened Common

  /** `DEFAULT_WIDGETS` of the application settings. */
  const DefaultWidgets: seq<string> :=
    ["system_status", "connection_monitor", "service_status", "logs_viewer"]

  /** A row of the widget configuration table (the JSON `config` column and
      the timestamps play no part here). */
  datatype WidgetConfig = WidgetConfig(
    userId: int, widgetType: string, widgetTitle: string, position: int, size: string, isEnabled: bool)

  /** The constructor with `position` and `widget_title` given; `size` and
      `is_enabled` take their column defaults. */
  function NewConfig(userId: int, widgetType: string, position: int, title: string): (c: WidgetConfig)
    ensures c.userId == userId && c.widgetType == widgetType
    ensures c.position == position && c.widgetTitle == title
    ensures c.size == "medium" && c.isEnabled
  {
    WidgetConfig(userId, widgetType, title, position, "medium", true)
  }

  // ------------------------------------------------------------- titles

  /** `s.replace(old, new)` for single characters. */
  function ReplaceChar(s: string, from: char, to: char): (r: string)
    ensures |r| == |s|
    ensures forall i :: 0 <= i < |s| ==> r[i] == (if s[i] == from then to else s[i])
  {
    seq(|s|, i requires 0 <= i < |s| => if s[i] == from then to else s[i])
  }

  predicate IsUpper(c: char)
  {
    'A' <= c <= 'Z'
  }

  /** Whether position `i` of `s` starts a run of letters, which is where
      `str.title()` puts a capital. */
  predicate WordStart(s: string, i: nat)
    requires i < |s|
  {
    i == 0 || !IsLetter(s[i - 1])
  }

  /** `str.title()`: a letter is upper-cased when it starts a run of letters
      and lower-cased otherwise; other characters are kept. */
  function Title(s: string): (r: string)
    ensures |r| == |s|
    ensures forall i :: 0 <= i < |s| && !IsLetter(s[i]) ==> r[i] == s[i]
  {
    seq(|s|, i requires 0 <= i < |s| =>
      if !IsLetter(s[i]) then s[i]
      else if WordStart(s, i) then UpperChar(s[i]) else LowerChar(s[i]))
  }

  /** Title-casing changes only the case of letters, and leaves every word
      capitalised and the rest of it in lower case. */
  lemma TitleMeaning(s: string)
    ensures Lower(Title(s)) == Lower(s)
    ensures forall i :: 0 <= i < |s| && IsLetter(s[i]) ==>
              IsLetter(Title(s)[i]) && (IsUpper(Title(s)[i]) <==> WordStart(s, i))
  {
  }

  /** Title-casing a title changes nothing. */
  lemma TitleIdempotent(s: string)
    ensures Title(Title(s)) == Title(s)
  {
    var t := Title(s);
    forall i | 0 <= i < |s|
      ensures Title(t)[i] == t[i]
    {
      assert IsLetter(t[i]) <==> IsLetter(s[i]);
      if i > 0 {
        assert IsLetter(t[i - 1]) <==> IsLetter(s[i - 1]);
      }
    }
  }

  /** `_get_default_widget_title`: the four built-in types have fixed titles;
      any other type has its underscores turned into spaces and is then
      title-cased. */
  function DefaultTitle(widgetType: string): (r: string)
    ensures widgetType == "system_status" ==> r == "System Status"
    ensures widgetType == "connection_monitor" ==> r == "Connection Monitor"
    ensures widgetType == "service_status" ==> r == "Service Status"
    ensures widgetType == "logs_viewer" ==> r == "Logs Viewer"
    ensures widgetType !in DefaultWidgets ==> r == Title(ReplaceChar(widgetType, '_', ' '))
  {
    if widgetType == "system_status" then "System Status"
    else if widgetType == "connection_monitor" then "Connection Monitor"
    else if widgetType == "service_status" then "Service Status"
    else if widgetType == "logs_viewer" then "Logs Viewer"
    else Title(ReplaceChar(widgetType, '_', ' '))
  }

  /** A fallback title holds no underscore and spells the type's letters in
      the same order, changing only their case. */
  lemma FallbackTitle(widgetType: string)
    requires widgetType !in DefaultWidgets
    ensures '_' !in DefaultTitle(widgetType)
    ensures |DefaultTitle(widgetType)| == |widgetType|
    ensures Lower(DefaultTitle(widgetType)) == Lower(ReplaceChar(widgetType, '_', ' '))
  {
    var spaced := ReplaceChar(widgetType, '_', ' ');
    TitleMeaning(spaced);
    forall i | 0 <= i < |widgetType|
      ensures DefaultTitle(widgetType)[i] != '_'
    {
      assert spaced[i] != '_';
    }
  }

  // ------------------------------------------------------------ defaults

  /** The configuration `_create_default_widgets` builds at index `i`. */
  function DefaultConfigAt(userId: int, i: nat): (c: WidgetConfig)
    requires i < |DefaultWidgets|
    ensures c.userId == userId && c.widgetType == DefaultWidgets[i] && c.position == i
    ensures c.widgetTitle == DefaultTitle(DefaultWidgets[i]) && c.isEnabled && c.size == "medium"
  {
    NewConfig(userId, DefaultWidgets[i], i, DefaultTitle(DefaultWidgets[i]))
  }

  /** The configurations created for a new user, in `DEFAULT_WIDGETS` order. */
  function DefaultConfigs(userId: int): (r: seq<WidgetConfig>)
    ensures |r| == |DefaultWidgets|
    ensures forall i :: 0 <= i < |r| ==> r[i] == DefaultConfigAt(userId, i)
  {
    seq(|DefaultWidgets|, i requires 0 <= i < |DefaultWidgets| => DefaultConfigAt(userId, i))
  }

  /** The defaults are the user's, enabled, in list order with position equal
      to their index, and their types are the default types in order. */
  lemma DefaultConfigsShape(userId: int)
    ensures |DefaultConfigs(userId)| == 4
    ensures forall i :: 0 <= i < 4 ==>
              && DefaultConfigs(userId)[i].userId == userId
              && DefaultConfigs(userId)[i].widgetType == DefaultWidgets[i]
              && DefaultConfigs(userId)[i].position == i
              && DefaultConfigs(userId)[i].isEnabled
    ensures DefaultConfigs(userId)[0].widgetTitle == "System Status"
    ensures DefaultConfigs(userId)[3].widgetTitle == "Logs Viewer"
  {
  }

  // ------------------------------------------------------------ the query

  /** `filter_by(user_id=..., is_enabled=True)`, in table order. */
  function EnabledFor(rows: seq<WidgetConfig>, userId: int): (r: seq<WidgetConfig>)
    ensures |r| <= |rows|
    ensures forall k :: 0 <= k < |r| ==> r[k].userId == userId && r[k].isEnabled
    decreases |rows|
  {
    if rows == [] then []
    else (if rows[0].userId == userId && rows[0].isEnabled then [rows[0]] else []) + EnabledFor(rows[1..], userId)
  }

  /** The query keeps exactly the user's enabled rows. */
  lemma {:induction false} EnabledForMembers(rows: seq<WidgetConfig>, userId: int)
    ensures forall c :: c in EnabledFor(rows, userId) <==> c in rows && c.userId == userId && c.isEnabled
    decreases |rows|
  {
    if rows != [] {
      EnabledForMembers(rows[1..], userId);
    }
  }

  /** Querying a table extended by some rows queries both parts. */
  lemma {:induction false} EnabledForAppend(a: seq<WidgetConfig>, b: seq<WidgetConfig>, userId: int)
    ensures EnabledFor(a + b, userId) == EnabledFor(a, userId) + EnabledFor(b, userId)
    decreases |a|
  {
    if a == [] {
      assert a + b == b;
    } else {
      var ab := a + b;
      var head := if a[0].userId == userId && a[0].isEnabled then [a[0]] else [];
      assert ab[0] == a[0] && ab[1..] == a[1..] + b;
      EnabledForAppend(a[1..], b, userId);
      assert EnabledFor(ab, userId) == head + EnabledFor(a[1..] + b, userId);
      assert EnabledFor(a, userId) == head + EnabledFor(a[1..], userId);
    }
  }

  predicate SortedByPosition(s: seq<WidgetConfig>)
  {
    forall i, j :: 0 <= i < j < |s| ==> s[i].position <= s[j].position
  }

  /** Placing one row before the first row whose position is not smaller. */
  function InsertByPosition(c: WidgetConfig, s: seq<WidgetConfig>): (r: seq<WidgetConfig>)
    ensures multiset(r) == multiset(s) + multiset{c}
    ensures |r| == |s| + 1
    ensures r[0] == c || (s != [] && r[0] == s[0])
    decreases |s|
  {
    if s == [] || c.position <= s[0].position then [c] + s
    else
      assert s == [s[0]] + s[1..];
      [s[0]] + InsertByPosition(c, s[1..])
  }

  lemma {:induction false} InsertByPositionSorted(c: WidgetConfig, s: seq<WidgetConfig>)
    requires SortedByPosition(s)
    ensures SortedByPosition(InsertByPosition(c, s))
    decreases |s|
  {
    if s == [] || c.position <= s[0].position {
      var r := [c] + s;
      forall i, j | 0 <= i < j < |r|
        ensures r[i].position <= r[j].position
      {
        if i > 0 {
          assert r[i] == s[i - 1] && r[j] == s[j - 1];
        } else {
          assert r[j] == s[j - 1] && s[0].position <= s[j - 1].position;
        }
      }
    } else {
      var t := InsertByPosition(c, s[1..]);
      InsertByPositionSorted(c, s[1..]);
      assert s[0].position <= t[0].position;
      var r := [s[0]] + t;
      forall i, j | 0 <= i < j < |r|
        ensures r[i].position <= r[j].position
      {
        if i > 0 {
          assert r[i] == t[i - 1] && r[j] == t[j - 1];
        } else {
          assert r[j] == t[j - 1] && t[0].position <= t[j - 1].position;
        }
      }
    }
  }

  /** `order_by(WidgetConfig.position)`; rows of equal position are taken in
      table order. */
  function ByPosition(s: seq<WidgetConfig>): (r: seq<WidgetConfig>)
    ensures multiset(r) == multiset(s)
    ensures |r| == |s|
    decreases |s|
  {
    if s == [] then []
    else
      assert s == [s[0]] + s[1..];
      InsertByPosition(s[0], ByPosition(s[1..]))
  }

  /** The ordered query is sorted by position and holds the same rows. */
  lemma {:induction false} ByPositionSorted(s: seq<WidgetConfig>)
    ensures SortedByPosition(ByPosition(s))
    ensures multiset(ByPosition(s)) == multiset(s)
    decreases |s|
  {
    if s != [] {
      ByPositionSorted(s[1..]);
      InsertByPositionSorted(s[0], ByPosition(s[1..]));
    }
  }

  /** Rows already in position order keep their order. */
  lemma {:induction false} ByPositionOfSorted(s: seq<WidgetConfig>)
    requires SortedByPosition(s)
    ensures ByPosition(s) == s
    decreases |s|
  {
    if s != [] {
      ByPositionOfSorted(s[1..]);
      assert s == [s[0]] + s[1..];
    }
  }

  /** The widget configuration table. */
  class WidgetConfigTable {
    var rows: seq<WidgetConfig>

    constructor (rows: seq<WidgetConfig>)
      ensures this.rows == rows
    {
      this.rows := rows;
    }

    /** `_create_default_widgets`: one row per default type, in order, each
        added to the table and to the returned list. */
    method CreateDefaultWidgets(userId: int) returns (created: seq<WidgetConfig>)
      modifies this
      ensures created == DefaultConfigs(userId)
      ensures rows == old(rows) + created
    {
      created := [];
      for i := 0 to |DefaultWidgets|
        invariant |created| == i
        invariant forall k :: 0 <= k < i ==> created[k] == DefaultConfigAt(userId, k)
        invariant rows == old(rows) + created
      {
        var widgetType := DefaultWidgets[i];
        var c := NewConfig(userId, widgetType, i, DefaultTitle(widgetType));
        rows := rows + [c];
        created := created + [c];
      }
    }

    /** The widget part of `index`: the user's enabled configurations in
        position order, and the defaults, created on the spot, when there are
        none. */
    method Index(userId: int) returns (shown: seq<WidgetConfig>)
      modifies this
      ensures EnabledFor(old(rows), userId) != [] ==>
                rows == old(rows) && shown == ByPosition(EnabledFor(old(rows), userId))
      ensures EnabledFor(old(rows), userId) == [] ==>
                shown == DefaultConfigs(userId) && rows == old(rows) + shown
    {
      var configs := ByPosition(EnabledFor(rows, userId));
      if configs == [] {
        configs := CreateDefaultWidgets(userId);
      }
      shown := configs;
    }
  }

  /** Once the defaults exist the user has enabled configurations, so a later
      visit creates nothing more, and it shows the defaults in the order they
      were created. */
  lemma DefaultsCreatedOnce(rows: seq<WidgetConfig>, userId: int)
    requires EnabledFor(rows, userId) == []
    ensures EnabledFor(rows + DefaultConfigs(userId), userId) != []
    ensures ByPosition(EnabledFor(rows + DefaultConfigs(userId), userId)) == DefaultConfigs(userId)
  {
    var d := DefaultConfigs(userId);
    EnabledForAppend(rows, d, userId);
    DefaultsQueried(userId);
    assert EnabledFor(rows + d, userId) == [] + d;
    assert [] + d == d;
    assert |d| == 4;
    ByPositionOfSorted(d);
  }

  /** The defaults are the user's enabled rows, already in position order. */
  lemma DefaultsQueried(userId: int)
    ensures EnabledFor(DefaultConfigs(userId), userId) == DefaultConfigs(userId)
    ensures SortedByPosition(DefaultConfigs(userId))
  {
    var d := DefaultConfigs(userId);
    assert forall k :: 0 <= k < |d| ==> d[k].userId == userId && d[k].isEnabled && d[k].position == k;
    AllEnabledKept(d, userId);
  }

  /** Rows that are all the user's and enabled pass the query unchanged. */
  lemma {:induction false} AllEnabledKept(s: seq<WidgetConfig>, userId: int)
    requires forall k :: 0 <= k < |s| ==> s[k].userId == userId && s[k].isEnabled
    ensures EnabledFor(s, userId) == s
    decreases |s|
  {
    if s != [] {
      AllEnabledKept(s[1..], userId);
      assert s == [s[0]] + s[1..];
    }
  }
}
