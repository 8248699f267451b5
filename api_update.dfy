/** `update_connection`: the whitelist of updatable fields, the conversion
    each given value goes through, and the assignments made one field at a
    time on the loaded connection before the session commits. */
module ApiUpdate {
  import opened Common
  import opened Connections
  import opened Api

  /** The whitelist, in the order the fields are written. */
  const Updatable: seq<string> :=
    ["connection_type", "name", "description", "target", "port", "timeout", "check_interval", "is_active"]

  /** The fields converted with `int()` when their value is truthy. */
  const IntFields: set<string> := {"port", "timeout", "check_interval"}

  /** The list `is_active` is looked up in. */
  const ActiveWords: seq<Value> := [VStr("true"), VStr("True"), VBool(true), VStr("1"), VInt(1)]

  /** A string value is stripped before anything else. */
  function StripIfString(v: Value): Value
  {
    if v.VStr? then VStr(Strip(v.s)) else v
  }

  /** Which branch of the conversion a whitelisted field takes. */
  datatype FieldKind = ActiveField | IntField | DescriptionField | TextField

  function KindOfField(field: string): (k: FieldKind)
    ensures k.IntField? <==> field in IntFields
    ensures k.ActiveField? <==> field == "is_active"
    ensures k.DescriptionField? <==> field == "description"
  {
    if field == "is_active" then ActiveField
    else if field == "port" || field == "timeout" || field == "check_interval" then IntField
    else if field == "description" then DescriptionField
    else TextField
  }

  /** The value written to `field` for the entry `raw`: `is_active` becomes
      its membership in the list, a truthy port, timeout or interval goes
      through `int()`, a falsy description becomes `None`, anything else is
      written as it is (stripped when a string). */
  function Coerce(field: string, raw: Value): Py<Value>
  {
    var v := StripIfString(raw);
    match KindOfField(field)
    case ActiveField => Ret(VBool(PyIn(v, ActiveWords)))
    case IntField =>
      if !Truthy(v) then Ret(v)
      else
        (match PyInt(v)
         case Ret(i) => Ret(VInt(i))
         case Raise(e) => Raise(e))
    case DescriptionField => if Truthy(v) then Ret(v) else Ret(VNone)
    case TextField => Ret(v)
  }

  /** `is_active` never raises and is true exactly for the strings "true",
      "True" and "1" (after stripping) and the values equal to 1, which Python
      compares numerically: `True`, `1` and `1.0`. */
  lemma ActiveCoercion(raw: Value)
    ensures Coerce("is_active", raw).Ret? && Coerce("is_active", raw).value.VBool?
    ensures Coerce("is_active", raw).value.b <==>
      (raw.VStr? && Strip(raw.s) in {"true", "True", "1"}) || Numeric(raw) == Some(1.0)
  {
    var v := StripIfString(raw);
    ActiveWordsMembers(v);
    assert raw.VStr? ==> v == VStr(Strip(raw.s));
    assert !raw.VStr? ==> v == raw;
  }

  /** Membership in the `is_active` list: one of its three strings, or a
      number equal to 1. */
  lemma ActiveWordsMembers(v: Value)
    ensures PyIn(v, ActiveWords) <==>
      (v.VStr? && (v.s == "true" || v.s == "True" || v.s == "1")) || Numeric(v) == Some(1.0)
  {
    var w := ActiveWords;
    if v.VStr? && (v.s == "true" || v.s == "True" || v.s == "1") {
      assert PyEq(v, w[0]) || PyEq(v, w[1]) || PyEq(v, w[3]);
    } else if Numeric(v) == Some(1.0) {
      assert PyEq(v, w[4]);
    } else {
      forall k | 0 <= k < |w|
        ensures !PyEq(v, w[k])
      {
        assert k == 0 || k == 1 || k == 2 || k == 3 || k == 4;
      }
    }
  }

  /** A port, timeout or interval: a falsy entry is written unconverted, a
      decimal string (after stripping) gives its value, any other non-blank
      string is the ValueError of `int()`, an integer stays itself. */
  lemma IntCoercion(field: string, raw: Value)
    requires field in IntFields
    ensures !Truthy(StripIfString(raw)) ==> Coerce(field, raw) == Ret(StripIfString(raw))
    ensures raw.VStr? && Strip(raw.s) != "" && ParseInt(Strip(raw.s)).Some? ==>
              Coerce(field, raw) == Ret(VInt(ParseInt(Strip(raw.s)).value))
    ensures raw.VStr? && Strip(raw.s) != "" && ParseInt(Strip(raw.s)).None? ==>
              Coerce(field, raw) == Raise(ValueError("invalid literal for int() with base 10: " + Repr(Strip(raw.s))))
    ensures raw.VInt? ==> Coerce(field, raw) == Ret(raw)
  {
    assert KindOfField(field) == IntField;
    var v := StripIfString(raw);
    if raw.VStr? {
      var t := Strip(raw.s);
      assert v == VStr(t);
      if t != "" {
        assert Truthy(v);
        match ParseInt(t) {
          case Some(n) =>
            assert PyInt(v) == Ret(n);
          case None =>
            assert PyInt(v) == Raise(ValueError("invalid literal for int() with base 10: " + Repr(t)));
        }
      }
    } else {
      assert v == raw;
    }
  }

  /** The text fields are written stripped. */
  lemma TextCoercion(field: string, raw: Value)
    requires field == "name" || field == "connection_type" || field == "target"
    ensures raw.VStr? ==> Coerce(field, raw) == Ret(VStr(Strip(raw.s)))
    ensures Coerce(field, raw) == Ret(StripIfString(raw))
  {
    assert KindOfField(field) == TextField;
  }

  /** A description is written stripped, and as `None` when it is blank or
      otherwise falsy. */
  lemma DescriptionCoercion(raw: Value)
    ensures raw.VStr? ==> Coerce("description", raw) == Ret(if Strip(raw.s) == "" then VNone else VStr(Strip(raw.s)))
    ensures !raw.VStr? ==> Coerce("description", raw) == Ret(if Truthy(raw) then raw else VNone)
  {
  }

  /** Only the three integer fields can raise. */
  lemma OnlyIntFieldsRaise(field: string, raw: Value)
    ensures Coerce(field, raw).Raise? ==> field in IntFields && Truthy(StripIfString(raw))
    ensures Coerce(field, raw).Raise? ==> Coerce(field, raw).exc == PyInt(StripIfString(raw)).exc
  {
  }

  // ------------------------------------------------------------- the loop

  /** A whitelisted field with its converted entry, or `None` when the body
      does not give it (`field in data` is false). */
  type Entry = (string, Option<Py<Value>>)

  /** What the body gives for `field`, converted. */
  function EntryOf(d: Dict, field: string): Entry
  {
    (field, if HasKey(d, field) then Some(Coerce(field, GetOr(d, field, VNone))) else None)
  }

  /** What the body gives for each field of `fields`. */
  function Entries(d: Dict, fields: seq<string>): (es: seq<Entry>)
    ensures |es| == |fields|
    decreases |fields|
  {
    if fields == [] then [] else [EntryOf(d, fields[0])] + Entries(d, fields[1..])
  }

  lemma {:induction false} EntriesAt(d: Dict, fields: seq<string>, k: nat)
    requires k < |fields|
    ensures Entries(d, fields)[k] == EntryOf(d, fields[k])
    decreases k
  {
    if k > 0 {
      EntriesAt(d, fields[1..], k - 1);
    }
  }

  /** Each entry is named after its field. */
  lemma EntriesNames(d: Dict, fields: seq<string>)
    ensures forall k :: 0 <= k < |fields| ==> Entries(d, fields)[k].0 == fields[k]
  {
    forall k | 0 <= k < |fields| ensures Entries(d, fields)[k].0 == fields[k] {
      EntriesAt(d, fields, k);
    }
  }

  /** A field the body does not give is skipped. */
  lemma EntryAbsent(d: Dict, fields: seq<string>, k: nat)
    requires k < |fields| && !HasKey(d, fields[k])
    ensures Entries(d, fields)[k].1 == None
  {
    EntriesAt(d, fields, k);
  }

  /** A field the body gives is converted. */
  lemma EntryGiven(d: Dict, fields: seq<string>, k: nat)
    requires k < |fields| && HasKey(d, fields[k])
    ensures Entries(d, fields)[k] == (fields[k], Some(Coerce(fields[k], GetOr(d, fields[k], VNone))))
  {
    EntriesAt(d, fields, k);
  }

  /** The assignments the loop makes, in order, up to the first given entry
      whose conversion raises, and that exception. */
  datatype Plan = Plan(assignments: seq<(string, Value)>, failure: Option<Exc>)

  function Fold(es: seq<Entry>): Plan
    decreases |es|
  {
    if es == [] then Plan([], None)
    else match es[0].1
      case None => Fold(es[1..])
      case Some(Raise(e)) => Plan([], Some(e))
      case Some(Ret(v)) =>
        var rest := Fold(es[1..]);
        Plan([(es[0].0, v)] + rest.assignments, rest.failure)
  }

  /** The loop's plan for a body. */
  function Coerced(d: Dict, fields: seq<string>): Plan
  {
    Fold(Entries(d, fields))
  }

  /** One more entry handled at the end, as the loop does it: nothing once a
      conversion has raised, nothing for an absent field, and otherwise its
      assignment or its exception. */
  lemma {:induction false} FoldSnoc(es: seq<Entry>, x: Entry)
    ensures Fold(es + [x]) ==
      var p := Fold(es);
      if p.failure.Some? then p
      else match x.1
        case None => p
        case Some(Raise(e)) => Plan(p.assignments, Some(e))
        case Some(Ret(v)) => Plan(p.assignments + [(x.0, v)], None)
    decreases |es|
  {
    if es == [] {
      assert [x][1..] == [];
    } else {
      assert (es + [x])[0] == es[0];
      assert (es + [x])[1..] == es[1..] + [x];
      FoldSnoc(es[1..], x);
      var q := Fold(es[1..]);
      match es[0].1 {
        case None =>
        case Some(Raise(e)) =>
        case Some(Ret(v)) =>
          if q.failure.None? {
            match x.1 {
              case None =>
              case Some(Raise(e)) =>
              case Some(Ret(w)) =>
                assert [(es[0].0, v)] + (q.assignments + [(x.0, w)]) == ([(es[0].0, v)] + q.assignments) + [(x.0, w)];
            }
          }
      }
    }
  }

  /** Once a conversion has raised, the remaining entries change nothing. */
  lemma {:induction false} FoldFailureSticks(es: seq<Entry>, j: nat)
    requires j <= |es| && Fold(es[..j]).failure.Some?
    ensures Fold(es) == Fold(es[..j])
    decreases |es| - j
  {
    if j < |es| {
      assert es[..j + 1] == es[..j] + [es[j]];
      FoldSnoc(es[..j], es[j]);
      FoldFailureSticks(es, j + 1);
    } else {
      assert es[..j] == es;
    }
  }

  /** The entry for name `n` converted to `v`. */
  predicate Converted(es: seq<Entry>, kv: (string, Value))
  {
    exists k :: 0 <= k < |es| && es[k] == (kv.0, Some(Ret(kv.1)))
  }

  /** No name occurs twice. */
  predicate DistinctNames<T>(a: seq<(string, T)>)
  {
    forall i, j :: 0 <= i < j < |a| ==> a[i].0 != a[j].0
  }

  /** Every assignment comes from an entry that converted to its value. */
  lemma {:induction false} FoldAssignments(es: seq<Entry>)
    ensures forall k :: 0 <= k < |Fold(es).assignments| ==> Converted(es, Fold(es).assignments[k])
    decreases |es|
  {
    if es != [] {
      var tail := es[1..];
      FoldAssignments(tail);
      var rest := Fold(tail).assignments;
      var a := Fold(es).assignments;
      forall kv | Converted(tail, kv) ensures Converted(es, kv) {
        var m :| 0 <= m < |tail| && tail[m] == (kv.0, Some(Ret(kv.1)));
        assert es[m + 1] == tail[m];
      }
      match es[0].1 {
        case None =>
        case Some(Raise(e)) =>
        case Some(Ret(v)) =>
          assert a == [(es[0].0, v)] + rest;
          forall k | 0 <= k < |a| ensures Converted(es, a[k]) {
            if k > 0 {
              assert a[k] == rest[k - 1];
            } else {
              assert es[0] == (a[0].0, Some(Ret(a[0].1)));
            }
          }
      }
    }
  }

  /** The loop assigns nothing outside the fields it is given. */
  lemma PlanAvoids(d: Dict, fields: seq<string>, name: string)
    requires name !in fields
    ensures forall k :: 0 <= k < |Coerced(d, fields).assignments| ==> Coerced(d, fields).assignments[k].0 != name
  {
    var es := Entries(d, fields);
    var a := Fold(es).assignments;
    FoldAssignments(es);
    EntriesNames(d, fields);
    forall k | 0 <= k < |a| ensures a[k].0 != name {
      assert Converted(es, a[k]);
    }
  }

  /** Entries with distinct names give assignments with distinct names. */
  lemma {:induction false} FoldNamesDistinct(es: seq<Entry>)
    requires DistinctNames(es)
    ensures DistinctNames(Fold(es).assignments)
    decreases |es|
  {
    if es != [] {
      var tail := es[1..];
      assert DistinctNames(tail) by {
        forall i, j | 0 <= i < j < |tail| ensures tail[i].0 != tail[j].0 {
          assert tail[i] == es[i + 1] && tail[j] == es[j + 1];
        }
      }
      FoldNamesDistinct(tail);
      FoldAssignments(tail);
      var rest := Fold(tail).assignments;
      var a := Fold(es).assignments;
      match es[0].1 {
        case None =>
        case Some(Raise(e)) =>
        case Some(Ret(v)) =>
          assert a == [(es[0].0, v)] + rest;
          forall i, j | 0 <= i < j < |a| ensures a[i].0 != a[j].0 {
            assert a[j] == rest[j - 1];
            assert Converted(tail, rest[j - 1]);
            if i > 0 {
              assert a[i] == rest[i - 1];
            } else {
              var m :| 0 <= m < |tail| && tail[m] == (rest[j - 1].0, Some(Ret(rest[j - 1].1)));
              assert es[m + 1] == tail[m];
            }
          }
      }
    }
  }

  /** The entry is absent or converts. */
  predicate Converts(x: Entry)
  {
    x.1.None? || x.1.value.Ret?
  }

  /** A conversion raised exactly when some entry's conversion raises, and
      the exception is that of the first such entry. */
  lemma {:induction false} FoldFailure(es: seq<Entry>)
    ensures Fold(es).failure.Some? ==>
      exists k :: 0 <= k < |es| && es[k].1 == Some(Raise(Fold(es).failure.value))
        && forall j :: 0 <= j < k ==> Converts(es[j])
    ensures Fold(es).failure.None? ==> forall k :: 0 <= k < |es| ==> Converts(es[k])
    decreases |es|
  {
    if es != [] {
      var tail := es[1..];
      FoldFailure(tail);
      var p := Fold(es);
      var q := Fold(tail);
      if !Converts(es[0]) {
        assert es[0].1 == Some(Raise(p.failure.value));
      } else {
        assert p.failure == q.failure;
        if p.failure.Some? {
          var k :| 0 <= k < |tail| && tail[k].1 == Some(Raise(q.failure.value))
            && forall j :: 0 <= j < k ==> Converts(tail[j]);
          assert es[k + 1] == tail[k];
          forall j | 0 <= j < k + 1 ensures Converts(es[j]) {
            if j > 0 {
              assert es[j] == tail[j - 1];
            }
          }
        } else {
          forall k | 0 <= k < |es| ensures Converts(es[k]) {
            if k > 0 {
              assert es[k] == tail[k - 1];
            }
          }
        }
      }
    }
  }

  /** Absent entries before one whose conversion raises: no assignment is
      made, and that exception is the failure. */
  lemma {:induction false} FoldFirstRaise(es: seq<Entry>, k: nat, e: Exc)
    requires k < |es| && es[k].1 == Some(Raise(e))
    requires forall j :: 0 <= j < k ==> es[j].1.None?
    ensures Fold(es) == Plan([], Some(e))
    decreases k
  {
    if k > 0 {
      var tail := es[1..];
      assert es[0].1.None?;
      assert tail[k - 1] == es[k];
      forall j | 0 <= j < k - 1 ensures tail[j].1.None? {
        assert tail[j] == es[j + 1];
      }
      FoldFirstRaise(tail, k - 1, e);
    }
  }

  /** Without a failure every entry that converts is stored its value. */
  lemma {:induction false} FoldComplete(es: seq<Entry>, k: nat, v: Value)
    requires k < |es| && es[k].1 == Some(Ret(v)) && Fold(es).failure.None?
    ensures (es[k].0, v) in Fold(es).assignments
    decreases |es|
  {
    var p := Fold(es);
    var tail := es[1..];
    var rest := Fold(tail);
    match es[0].1 {
      case None =>
        assert p == rest;
        assert tail[k - 1] == es[k];
        FoldComplete(tail, k - 1, v);
      case Some(Raise(e)) =>
      case Some(Ret(w)) =>
        assert p == Plan([(es[0].0, w)] + rest.assignments, rest.failure);
        if k > 0 {
          assert tail[k - 1] == es[k];
          FoldComplete(tail, k - 1, v);
        }
    }
  }

  // ----------------------------------------------------------- the view

  /** What the view leaves behind: its response, the loaded connection as the
      assignments left it, and whether the session committed it (a failure
      commits nothing: a 500 rolls back, a 400 never reaches the commit). */
  datatype Outcome = Outcome(response: Response, connection: ConnectionRecord, committed: bool)

  /** The obtained logo, if any, written before the fields. */
  function WithLogo(c: ConnectionRecord, logo: Option<string>): (r: ConnectionRecord)
    ensures SameExcept(c, r, LogoFilenameCol)
    ensures r.logoFilename == if HasLogo(logo) then logo else c.logoFilename
  {
    if HasLogo(logo) then
      WithAttrOnlyThatColumn(c, "logo_filename", VStr(logo.value));
      WithAttr(c, "logo_filename", VStr(logo.value))
    else c
  }

  /** The commit: the flush writes a changed object, and the column's
      `onupdate` default stamps `updated_at` then. */
  function Committed(loaded: ConnectionRecord, current: ConnectionRecord, now: int): (r: ConnectionRecord)
    ensures SameExcept(current, r, UpdatedAtCol)
    ensures r.updatedAt == if current == loaded then current.updatedAt else Some(now)
  {
    WithAttrOnlyThatColumn(current, "updated_at", VInt(now));
    if current == loaded then current else WithAttr(current, "updated_at", VInt(now))
  }

  /** Lines 296-338 on the loaded connection `c`. */
  function UpdateOutcome(c: ConnectionRecord, data: Value, logoFile: Option<Upload>, env: Env): Outcome
  {
    if !Truthy(data) then Outcome(Response(400, ErrorBody(NoData)), c, false)
    else if !data.VDict? then Outcome(Raised(OtherError(NoAttribute(data, "get"))), c, false)
    else match HandleLogoSelection(LogoChoice(data.entries), logoFile, env)
      case Raise(e) => Outcome(Raised(e), c, false)
      case Ret(logo) => Proceed(c, data.entries, logo, env)
  }

  /** Lines 301-338 once the logo is obtained: the logo and the converted
      fields are written, and the commit follows unless a conversion raised;
      a commit whose flush the database refuses (a list or a dict outside
      the JSON column, `None` in a NOT NULL column) raises, is rolled back
      and answers 500. */
  function Proceed(c: ConnectionRecord, d: Dict, logo: Option<string>, env: Env): Outcome
  {
    var p := Coerced(d, Updatable);
    var written := ApplyKwargs(WithLogo(c, logo), p.assignments);
    match p.failure
    case Some(e) => Outcome(Raised(e), written, false)
    case None =>
      if !KwargsStorable(p.assignments) then
        Outcome(Raised(OtherError(env.dbError(p.assignments))), written, false)
      else
        var stored := Committed(c, written, env.now);
        Outcome(Response(200, ConnectionBody(stored)), stored, true)
  }

  /** Lines 296-338: the logo first, then each whitelisted field present in
      the body, converted and written in turn, then the commit. */
  method UpdateConnection(conn: Connection, data: Value, logoFile: Option<Upload>, env: Env)
    returns (resp: Response, committed: bool)
    modifies conn
    ensures UpdateOutcome(old(conn.Record()), data, logoFile, env) == Outcome(resp, conn.Record(), committed)
  {
    var loaded := conn.Record();
    if !Truthy(data) {
      return Response(400, ErrorBody(NoData)), false;
    }
    if !data.VDict? {
      return Raised(OtherError(NoAttribute(data, "get"))), false;
    }
    var d := data.entries;
    var selection := HandleLogoSelection(LogoChoice(d), logoFile, env);
    if selection.Raise? {
      return Raised(selection.exc), false;
    }
    if HasLogo(selection.value) {
      conn.SetAttr("logo_filename", VStr(selection.value.value));
    }
    assert conn.Record() == WithLogo(loaded, selection.value);
    var failure, stored := WriteFields(conn, d);
    if failure.Some? {
      return Raised(failure.value), false;
    }
    if !KwargsStorable(stored) {
      return Raised(OtherError(env.dbError(stored))), false;
    }
    if conn.Record() != loaded {
      conn.SetAttr("updated_at", VInt(env.now));
    }
    return Response(200, ConnectionBody(conn.Record())), true;
  }

  /** Lines 311-329: each whitelisted field the body gives, converted and
      written in turn; a conversion that raises ends the loop. */
  method WriteFields(conn: Connection, d: Dict) returns (failure: Option<Exc>, stored: seq<(string, Value)>)
    modifies conn
    ensures failure == Coerced(d, Updatable).failure
    ensures failure.None? ==> stored == Coerced(d, Updatable).assignments
    ensures conn.Record() == ApplyKwargs(old(conn.Record()), Coerced(d, Updatable).assignments)
  {
    ghost var start := conn.Record();
    ghost var es := Entries(d, Updatable);
    stored := [];
    for i := 0 to |Updatable|
      invariant Fold(es[..i]).failure == None
      invariant stored == Fold(es[..i]).assignments
      invariant conn.Record() == ApplyKwargs(start, stored)
    {
      var field := Updatable[i];
      assert es[..i + 1] == es[..i] + [es[i]];
      FoldSnoc(es[..i], es[i]);
      if HasKey(d, field) {
        var converted := Coerce(field, GetOr(d, field, VNone));
        EntriesAt(d, Updatable, i);
        match converted {
          case Raise(e) =>
            FoldFailureSticks(es, i + 1);
            return Some(e), stored;
          case Ret(v) =>
            ApplyKwargsSnoc(start, stored, (field, v));
            conn.SetAttr(field, v);
            stored := stored + [(field, v)];
        }
      } else {
        EntriesAt(d, Updatable, i);
      }
    }
    assert es[..|Updatable|] == es;
    return None, stored;
  }

  // ------------------------------------------------------------ properties

  /** The whitelist names each field once. */
  lemma UpdatableDistinct(d: Dict)
    ensures DistinctNames(Entries(d, Updatable))
  {
    EntriesNames(d, Updatable);
  }

  /** Only a successful update is committed, with a 200 and the stored
      connection; an empty body is a 400; everything else is a 400 or a 500. */
  lemma UpdateResponses(c: ConnectionRecord, data: Value, logoFile: Option<Upload>, env: Env)
    ensures var o := UpdateOutcome(c, data, logoFile, env);
      && (o.committed <==> o.response.code == 200)
      && (o.committed ==> o.response.body == ConnectionBody(o.connection))
      && (!Truthy(data) ==> o == Outcome(Response(400, ErrorBody(NoData)), c, false))
      && o.response.code in {200, 400, 500}
  {
    if Truthy(data) && data.VDict? {
      var s := HandleLogoSelection(LogoChoice(data.entries), logoFile, env);
      if s.Raise? {
        assert Raised(s.exc).code in {400, 500};
      } else {
        ProceedResponses(c, data.entries, s.value, env);
      }
    } else if Truthy(data) {
      assert Raised(OtherError(NoAttribute(data, "get"))).code == 500;
    }
  }

  /** The commit after the logo: committed exactly when it answers 200. */
  lemma ProceedResponses(c: ConnectionRecord, d: Dict, logo: Option<string>, env: Env)
    ensures var o := Proceed(c, d, logo, env);
      && (o.committed <==> o.response.code == 200)
      && (o.committed ==> o.response.body == ConnectionBody(o.connection))
      && o.response.code in {200, 400, 500}
  {
    var p := Coerced(d, Updatable);
    var written := ApplyKwargs(WithLogo(c, logo), p.assignments);
    if p.failure.Some? {
      assert Proceed(c, d, logo, env) == Outcome(Raised(p.failure.value), written, false);
      assert Raised(p.failure.value).code in {400, 500};
    } else if !KwargsStorable(p.assignments) {
      assert Proceed(c, d, logo, env) == Outcome(Raised(OtherError(env.dbError(p.assignments))), written, false);
    } else {
      var stored := Committed(c, written, env.now);
      assert Proceed(c, d, logo, env) == Outcome(Response(200, ConnectionBody(stored)), stored, true);
    }
  }

  /** Every whitelisted field is a column, neither the logo nor the stamp. */
  lemma UpdatableColumn(k: nat)
    requires k < |Updatable|
    ensures ColumnOf(Updatable[k]).Some?
    ensures ColumnOf(Updatable[k]).value != LogoFilenameCol && ColumnOf(Updatable[k]).value != UpdatedAtCol
  {
    assert Updatable[k] in Columns;
    assert "logo_filename" !in Updatable && "updated_at" !in Updatable;
  }

  /** The logo and the loop leave alone every column outside the whitelist
      other than the logo. */
  lemma WrittenKeepsOtherColumns(c: ConnectionRecord, logo: Option<string>, d: Dict, col: Column)
    requires ColumnName(col) !in Updatable && col != LogoFilenameCol
    ensures Agree(ApplyKwargs(WithLogo(c, logo), Coerced(d, Updatable).assignments), c, col)
  {
    var p := Coerced(d, Updatable);
    var c1 := WithLogo(c, logo);
    PlanAvoids(d, Updatable, ColumnName(col));
    KwargsKeepUnnamed(c1, p.assignments, col);
    SameExceptAgree(c, c1, LogoFilenameCol, col);
    AgreeTransitive(ApplyKwargs(c1, p.assignments), c1, c, col);
  }

  /** A successful or failed update leaves alone every column outside the
      whitelist, other than the logo and the `updated_at` stamp. */
  lemma UpdateKeepsOtherColumns(c: ConnectionRecord, data: Value, logoFile: Option<Upload>, env: Env, col: Column)
    requires ColumnName(col) !in Updatable && col != LogoFilenameCol && col != UpdatedAtCol
    ensures Agree(UpdateOutcome(c, data, logoFile, env).connection, c, col)
  {
    if Truthy(data) && data.VDict? {
      var s := HandleLogoSelection(LogoChoice(data.entries), logoFile, env);
      if s.Ret? {
        assert UpdateOutcome(c, data, logoFile, env) == Proceed(c, data.entries, s.value, env);
        ProceedKeepsOtherColumns(c, data.entries, s.value, env, col);
      }
    }
  }

  /** The same once the logo is obtained. */
  lemma ProceedKeepsOtherColumns(c: ConnectionRecord, d: Dict, logo: Option<string>, env: Env, col: Column)
    requires ColumnName(col) !in Updatable && col != LogoFilenameCol && col != UpdatedAtCol
    ensures Agree(Proceed(c, d, logo, env).connection, c, col)
  {
    var p := Coerced(d, Updatable);
    var written := ApplyKwargs(WithLogo(c, logo), p.assignments);
    WrittenKeepsOtherColumns(c, logo, d, col);
    if p.failure.None? && KwargsStorable(p.assignments) {
      var stored := Committed(c, written, env.now);
      assert Proceed(c, d, logo, env).connection == stored;
      SameExceptAgree(written, stored, UpdatedAtCol, col);
      AgreeTransitive(stored, written, c, col);
    } else {
      assert Proceed(c, d, logo, env).connection == written;
    }
  }

  /** Without a failure, the logo and the loop store in each whitelisted
      field the body gives what assigning its converted value to `c` would. */
  lemma WrittenStoresField(c: ConnectionRecord, logo: Option<string>, d: Dict, k: nat)
    requires Coerced(d, Updatable).failure.None?
    requires k < |Updatable| && HasKey(d, Updatable[k])
    ensures Coerce(Updatable[k], GetOr(d, Updatable[k], VNone)).Ret?
    ensures ColumnOf(Updatable[k]).Some?
    ensures var f := Updatable[k];
      Agree(ApplyKwargs(WithLogo(c, logo), Coerced(d, Updatable).assignments),
            WithAttr(c, f, Coerce(f, GetOr(d, f, VNone)).value), ColumnOf(f).value)
  {
    var f := Updatable[k];
    var es := Entries(d, Updatable);
    var p := Fold(es);
    var c1 := WithLogo(c, logo);
    var written := ApplyKwargs(c1, p.assignments);
    FoldFailure(es);
    assert Converts(es[k]);
    EntryGiven(d, Updatable, k);
    var v := Coerce(f, GetOr(d, f, VNone)).value;
    FoldComplete(es, k, v);
    var j :| 0 <= j < |p.assignments| && p.assignments[j] == (f, v);
    UpdatableColumn(k);
    var col := ColumnOf(f).value;
    UpdatableDistinct(d);
    FoldNamesDistinct(es);
    KwargsSingleWrite(c1, p.assignments, j, col);
    SameExceptAgree(c, c1, LogoFilenameCol, col);
    SetColumnAgree(c1, c, col, v);
    AgreeTransitive(written, WithAttr(c1, f, v), WithAttr(c, f, v), col);
  }

  /** A successful update converted every whitelisted field the body gives,
      and stores in it exactly what assigning the converted value to the
      loaded connection would store. */
  lemma UpdateStoresField(c: ConnectionRecord, data: Value, logoFile: Option<Upload>, env: Env, k: nat)
    requires UpdateOutcome(c, data, logoFile, env).committed
    requires k < |Updatable| && HasKey(data.entries, Updatable[k])
    ensures Coerce(Updatable[k], GetOr(data.entries, Updatable[k], VNone)).Ret?
    ensures ColumnOf(Updatable[k]).Some?
    ensures var f := Updatable[k];
      Agree(UpdateOutcome(c, data, logoFile, env).connection,
            WithAttr(c, f, Coerce(f, GetOr(data.entries, f, VNone)).value), ColumnOf(f).value)
  {
    var s := HandleLogoSelection(LogoChoice(data.entries), logoFile, env);
    assert UpdateOutcome(c, data, logoFile, env) == Proceed(c, data.entries, s.value, env);
    ProceedStoresField(c, data.entries, s.value, env, k);
  }

  /** The same once the logo is obtained. */
  lemma ProceedStoresField(c: ConnectionRecord, d: Dict, logo: Option<string>, env: Env, k: nat)
    requires Proceed(c, d, logo, env).committed
    requires k < |Updatable| && HasKey(d, Updatable[k])
    ensures Coerce(Updatable[k], GetOr(d, Updatable[k], VNone)).Ret?
    ensures ColumnOf(Updatable[k]).Some?
    ensures var f := Updatable[k];
      Agree(Proceed(c, d, logo, env).connection,
            WithAttr(c, f, Coerce(f, GetOr(d, f, VNone)).value), ColumnOf(f).value)
  {
    var f := Updatable[k];
    var p := Coerced(d, Updatable);
    var written := ApplyKwargs(WithLogo(c, logo), p.assignments);
    assert p.failure.None? && KwargsStorable(p.assignments);
    WrittenStoresField(c, logo, d, k);
    UpdatableColumn(k);
    var col := ColumnOf(f).value;
    CommitAgrees(c, written, env.now, col);
    AgreeTransitive(Committed(c, written, env.now), written, WithAttr(c, f, Coerce(f, GetOr(d, f, VNone)).value), col);
    assert Proceed(c, d, logo, env).connection == Committed(c, written, env.now);
  }

  /** The commit changes no column but the stamp. */
  lemma CommitAgrees(loaded: ConnectionRecord, current: ConnectionRecord, now: int, col: Column)
    requires col != UpdatedAtCol
    ensures Agree(Committed(loaded, current, now), current, col)
  {
    SameExceptAgree(current, Committed(loaded, current, now), UpdatedAtCol, col);
  }

  /** A committed update holds the selected logo when one was obtained, and
      the loaded connection's logo otherwise: no whitelisted field is the
      logo column and the commit only stamps `updated_at`. */
  lemma UpdateStoresLogo(c: ConnectionRecord, data: Value, logoFile: Option<Upload>, env: Env)
    requires UpdateOutcome(c, data, logoFile, env).committed
    ensures data.VDict? && HandleLogoSelection(LogoChoice(data.entries), logoFile, env).Ret?
    ensures var logo := HandleLogoSelection(LogoChoice(data.entries), logoFile, env).value;
      UpdateOutcome(c, data, logoFile, env).connection.logoFilename
        == if HasLogo(logo) then logo else c.logoFilename
  {
    var s := HandleLogoSelection(LogoChoice(data.entries), logoFile, env);
    assert UpdateOutcome(c, data, logoFile, env) == Proceed(c, data.entries, s.value, env);
    ProceedStoresLogo(c, data.entries, s.value, env);
  }

  /** The logo column is not among the whitelisted fields. */
  lemma LogoNotUpdatable()
    ensures ColumnName(LogoFilenameCol) !in Updatable
  {
    assert ColumnName(LogoFilenameCol) == "logo_filename";
  }

  /** The same once the logo is obtained. */
  lemma ProceedStoresLogo(c: ConnectionRecord, d: Dict, logo: Option<string>, env: Env)
    requires Proceed(c, d, logo, env).committed
    ensures Proceed(c, d, logo, env).connection.logoFilename == if HasLogo(logo) then logo else c.logoFilename
  {
    var p := Coerced(d, Updatable);
    var c1 := WithLogo(c, logo);
    var written := ApplyKwargs(c1, p.assignments);
    assert p.failure.None? && KwargsStorable(p.assignments);
    LogoNotUpdatable();
    PlanAvoids(d, Updatable, ColumnName(LogoFilenameCol));
    KwargsKeepUnnamed(c1, p.assignments, LogoFilenameCol);
    CommitAgrees(c, written, env.now, LogoFilenameCol);
    assert Proceed(c, d, logo, env).connection == Committed(c, written, env.now);
  }

  /** A failed conversion names an integer field the body gives, and answers
      with its exception: a 400 for a ValueError, a 500 otherwise. */
  lemma UpdateFailure(c: ConnectionRecord, data: Value, logoFile: Option<Upload>, env: Env)
    requires Truthy(data) && data.VDict?
    requires HandleLogoSelection(LogoChoice(data.entries), logoFile, env).Ret?
    requires Coerced(data.entries, Updatable).failure.Some?
    ensures UpdateOutcome(c, data, logoFile, env).response == Raised(Coerced(data.entries, Updatable).failure.value)
    ensures !UpdateOutcome(c, data, logoFile, env).committed
    ensures exists k :: (0 <= k < |Updatable| && Updatable[k] in IntFields && HasKey(data.entries, Updatable[k])
      && Coerce(Updatable[k], GetOr(data.entries, Updatable[k], VNone)) == Raise(Coerced(data.entries, Updatable).failure.value))
  {
    var k := FailureField(data.entries);
    var logo := HandleLogoSelection(LogoChoice(data.entries), logoFile, env).value;
    assert UpdateOutcome(c, data, logoFile, env) == Proceed(c, data.entries, logo, env);
  }

  /** The field whose conversion is the loop's failure. */
  lemma FailureField(d: Dict) returns (k: nat)
    requires Coerced(d, Updatable).failure.Some?
    ensures k < |Updatable| && Updatable[k] in IntFields && HasKey(d, Updatable[k])
    ensures Coerce(Updatable[k], GetOr(d, Updatable[k], VNone)) == Raise(Coerced(d, Updatable).failure.value)
  {
    var es := Entries(d, Updatable);
    FoldFailure(es);
    k :| 0 <= k < |es| && es[k].1 == Some(Raise(Fold(es).failure.value))
      && forall j :: 0 <= j < k ==> Converts(es[j]);
    EntriesAt(d, Updatable, k);
    OnlyIntFieldsRaise(Updatable[k], GetOr(d, Updatable[k], VNone));
  }

  /** A body giving a whitelisted field a value the database refuses in that
      column (a list or a dict, or `None` for the name, type or target) is
      never committed: once every conversion succeeds, the commit raises and
      the answer is the database error as a 500. */
  lemma UpdateRefused(c: ConnectionRecord, data: Value, logoFile: Option<Upload>, env: Env, k: nat)
    requires Truthy(data) && data.VDict?
    requires HandleLogoSelection(LogoChoice(data.entries), logoFile, env).Ret?
    requires k < |Updatable| && HasKey(data.entries, Updatable[k]) && ColumnOf(Updatable[k]).Some?
    requires Coerce(Updatable[k], GetOr(data.entries, Updatable[k], VNone)).Ret?
    requires !Storable(ColumnOf(Updatable[k]).value, Coerce(Updatable[k], GetOr(data.entries, Updatable[k], VNone)).value)
    ensures !UpdateOutcome(c, data, logoFile, env).committed
    ensures Coerced(data.entries, Updatable).failure.None? ==>
              UpdateOutcome(c, data, logoFile, env).response
              == Response(500, ErrorBody(env.dbError(Coerced(data.entries, Updatable).assignments)))
  {
    var d := data.entries;
    var logo := HandleLogoSelection(LogoChoice(d), logoFile, env).value;
    assert UpdateOutcome(c, data, logoFile, env) == Proceed(c, d, logo, env);
    var p := Coerced(d, Updatable);
    if p.failure.None? {
      PlanNotStorable(d, k);
    }
  }

  /** A complete plan that holds the refused value cannot be flushed. */
  lemma PlanNotStorable(d: Dict, k: nat)
    requires k < |Updatable| && HasKey(d, Updatable[k]) && ColumnOf(Updatable[k]).Some?
    requires Coerce(Updatable[k], GetOr(d, Updatable[k], VNone)).Ret?
    requires !Storable(ColumnOf(Updatable[k]).value, Coerce(Updatable[k], GetOr(d, Updatable[k], VNone)).value)
    requires Coerced(d, Updatable).failure.None?
    ensures !KwargsStorable(Coerced(d, Updatable).assignments)
  {
    var es := Entries(d, Updatable);
    var p := Fold(es);
    var v := Coerce(Updatable[k], GetOr(d, Updatable[k], VNone)).value;
    EntryGiven(d, Updatable, k);
    FoldComplete(es, k, v);
    var j :| 0 <= j < |p.assignments| && p.assignments[j] == (Updatable[k], v);
    assert p.assignments[j].0 == Updatable[k];
  }

  /** A committed update stores a blank or `None` port as no port, and a
      blank or `None` timeout or interval as blank or NULL: these falsy
      values skip `int()` and are written as they are. */
  lemma UpdateFalsyIntegerFields(c: ConnectionRecord, data: Value, logoFile: Option<Upload>, env: Env)
    requires UpdateOutcome(c, data, logoFile, env).committed
    ensures var d := data.entries;
      var r := UpdateOutcome(c, data, logoFile, env).connection;
      && (HasKey(d, "port") && (Blank(GetOr(d, "port", VNone)) || GetOr(d, "port", VNone) == VNone) ==> r.port == None)
      && (HasKey(d, "timeout") && Blank(GetOr(d, "timeout", VNone)) ==> r.timeout == BlankValue)
      && (HasKey(d, "timeout") && GetOr(d, "timeout", VNone) == VNone ==> r.timeout == NullValue)
      && (HasKey(d, "check_interval") && Blank(GetOr(d, "check_interval", VNone)) ==> r.checkInterval == BlankValue)
      && (HasKey(d, "check_interval") && GetOr(d, "check_interval", VNone) == VNone ==> r.checkInterval == NullValue)
  {
    var d := data.entries;
    if HasKey(d, "port") && (Blank(GetOr(d, "port", VNone)) || GetOr(d, "port", VNone) == VNone) {
      FalsyPortStored(c, data, logoFile, env);
    }
    if HasKey(d, "timeout") {
      FalsyTimeoutStored(c, data, logoFile, env);
    }
    if HasKey(d, "check_interval") {
      FalsyIntervalStored(c, data, logoFile, env);
    }
  }

  /** The port part of `UpdateFalsyIntegerFields`. */
  lemma FalsyPortStored(c: ConnectionRecord, data: Value, logoFile: Option<Upload>, env: Env)
    requires UpdateOutcome(c, data, logoFile, env).committed
    requires var d := data.entries;
      HasKey(d, "port") && (Blank(GetOr(d, "port", VNone)) || GetOr(d, "port", VNone) == VNone)
    ensures UpdateOutcome(c, data, logoFile, env).connection.port == None
  {
    assert Updatable[4] == "port";
    UpdateStoresField(c, data, logoFile, env, 4);
    FalsyPortCell(UpdateOutcome(c, data, logoFile, env).connection, c, GetOr(data.entries, "port", VNone));
  }

  /** A row that agrees on the port with a blank or `None` port written over
      `c` has no port. */
  lemma FalsyPortCell(r: ConnectionRecord, c: ConnectionRecord, raw: Value)
    requires Blank(raw) || raw == VNone
    requires Coerce("port", raw).Ret? && ColumnOf("port").Some?
    requires Agree(r, WithAttr(c, "port", Coerce("port", raw).value), ColumnOf("port").value)
    ensures r.port == None
  {
    FalsyCoerced("port", raw);
    assert ColumnOf("port") == Some(PortCol);
  }

  /** The timeout part of `UpdateFalsyIntegerFields`. */
  lemma FalsyTimeoutStored(c: ConnectionRecord, data: Value, logoFile: Option<Upload>, env: Env)
    requires UpdateOutcome(c, data, logoFile, env).committed && HasKey(data.entries, "timeout")
    ensures var v := GetOr(data.entries, "timeout", VNone);
      var r := UpdateOutcome(c, data, logoFile, env).connection;
      && (Blank(v) ==> r.timeout == BlankValue)
      && (v == VNone ==> r.timeout == NullValue)
  {
    assert Updatable[5] == "timeout";
    UpdateStoresField(c, data, logoFile, env, 5);
    FalsyCoerced("timeout", GetOr(data.entries, "timeout", VNone));
  }

  /** The check_interval part of `UpdateFalsyIntegerFields`. */
  lemma FalsyIntervalStored(c: ConnectionRecord, data: Value, logoFile: Option<Upload>, env: Env)
    requires UpdateOutcome(c, data, logoFile, env).committed && HasKey(data.entries, "check_interval")
    ensures var v := GetOr(data.entries, "check_interval", VNone);
      var r := UpdateOutcome(c, data, logoFile, env).connection;
      && (Blank(v) ==> r.checkInterval == BlankValue)
      && (v == VNone ==> r.checkInterval == NullValue)
  {
    assert Updatable[6] == "check_interval";
    UpdateStoresField(c, data, logoFile, env, 6);
    FalsyCoerced("check_interval", GetOr(data.entries, "check_interval", VNone));
  }

  /** A blank or `None` integer field is passed on unconverted, the blank
      string stripped to nothing. */
  lemma FalsyCoerced(f: string, raw: Value)
    requires f in IntFields
    ensures Blank(raw) ==> Coerce(f, raw) == Ret(VStr(""))
    ensures raw == VNone ==> Coerce(f, raw) == Ret(VNone)
  {
    assert KindOfField(f).IntField?;
    if Blank(raw) {
      BlankIntPassed(f, raw);
    } else if raw == VNone {
      FalsyIntPassed(f, raw);
    }
  }

  /** A blank integer field is written as the empty string. */
  lemma BlankIntPassed(f: string, raw: Value)
    requires KindOfField(f).IntField? && Blank(raw)
    ensures Coerce(f, raw) == Ret(VStr(""))
  {
    assert StripIfString(raw) == VStr("");
    FalsyIntPassed(f, raw);
  }

  /** An integer field whose stripped value is falsy skips `int()`. */
  lemma FalsyIntPassed(f: string, raw: Value)
    requires KindOfField(f).IntField? && !Truthy(StripIfString(raw))
    ensures Coerce(f, raw) == Ret(StripIfString(raw))
  {
  }

  /** A string that strips to nothing. */
  predicate Blank(v: Value)
  {
    v.VStr? && Strip(v.s) == ""
  }

  /** A body without a logo choice, and no upload: no logo. */
  lemma NoLogoSelected(d: Dict, env: Env)
    requires !HasKey(d, "logo_choice")
    ensures HandleLogoSelection(LogoChoice(d), None, env) == Ret(None)
  {
  }

  /** The loop over a body whose first given field is the port, when the
      port's conversion raises: nothing is written, and that is the failure. */
  lemma PortFirstFailure(d: Dict, e: Exc)
    requires HasKey(d, "port") && Coerce("port", GetOr(d, "port", VNone)) == Raise(e)
    requires !HasKey(d, "connection_type") && !HasKey(d, "name") && !HasKey(d, "description") && !HasKey(d, "target")
    ensures Coerced(d, Updatable) == Plan([], Some(e))
  {
    var es := Entries(d, Updatable);
    assert Updatable[4] == "port";
    EntryGiven(d, Updatable, 4);
    assert Updatable[0] == "connection_type" && Updatable[1] == "name";
    assert Updatable[2] == "description" && Updatable[3] == "target";
    EntryAbsent(d, Updatable, 0);
    EntryAbsent(d, Updatable, 1);
    EntryAbsent(d, Updatable, 2);
    EntryAbsent(d, Updatable, 3);
    forall j | 0 <= j < 4 ensures es[j].1.None? {
      assert j == 0 || j == 1 || j == 2 || j == 3;
    }
    FoldFirstRaise(es, 4, e);
  }

  /** The same with a port string that is no integer: the failure is the
      ValueError of `int()`. */
  lemma BadPortPlan(d: Dict, s: string)
    requires Get(d, "port") == Some(VStr(s)) && Strip(s) != "" && ParseInt(Strip(s)).None?
    requires !HasKey(d, "connection_type") && !HasKey(d, "name") && !HasKey(d, "description") && !HasKey(d, "target")
    ensures Coerced(d, Updatable) == Plan([], Some(ValueError("invalid literal for int() with base 10: " + Repr(Strip(s)))))
  {
    var e := ValueError("invalid literal for int() with base 10: " + Repr(Strip(s)));
    IntCoercion("port", VStr(s));
    assert Coerce("port", GetOr(d, "port", VNone)) == Raise(e);
    PortFirstFailure(d, e);
  }

  /** A port that is not an integer, with none of the fields before it in
      the whitelist and no logo: nothing is written or committed, and the
      answer is the ValueError of `int()` as a 400. */
  lemma UpdateBadPort(c: ConnectionRecord, env: Env, d: Dict, s: string)
    requires Get(d, "port") == Some(VStr(s)) && Strip(s) != "" && ParseInt(Strip(s)).None?
    requires !HasKey(d, "connection_type") && !HasKey(d, "name") && !HasKey(d, "description")
    requires !HasKey(d, "target") && !HasKey(d, "logo_choice")
    ensures UpdateOutcome(c, VDict(d), None, env)
         == Outcome(Response(400, ErrorBody("invalid literal for int() with base 10: " + Repr(Strip(s)))), c, false)
  {
    BadPortPlan(d, s);
    NoLogoSelected(d, env);
    assert WithLogo(c, None) == c;
    assert Truthy(VDict(d));
  }

  /** "x" is no integer, so `{"port": "x"}` is such a body. */
  lemma LetterIsNoInteger()
    ensures Strip("x") == "x" && ParseInt("x").None?
  {
    StripNoop("x");
    UnsignedNonDigitNoInteger("x");
  }

  /** A string with no surrounding whitespace whose first character is
      neither a sign nor a digit is no integer. */
  lemma UnsignedNonDigitNoInteger(s: string)
    requires s != [] && !IsSpace(s[0]) && !IsSpace(s[|s| - 1])
    requires s[0] != '-' && s[0] != '+' && !IsDigit(s[0])
    ensures ParseInt(s).None?
  {
    StripNoop(s);
  }
}
