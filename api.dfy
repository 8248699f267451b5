/** The JSON API's input handling: the upload whitelist and size limit, the
    choice between an uploaded logo and a bundled icon, the validation and
    argument conversion of `add_connection`, and the whitelist-driven field
    coercion of `update_connection`. Request bodies are `Value`s, the
    uploaded file is its name and length, and the filesystem, the clock and
    `secure_filename` are supplied in an `Env`. */
module Api {
  import opened Common
  import opened Connections
  import opened ImageSuggester

  // ------------------------------------------------------- Python exceptions

  /** An exception escaping into the view's handlers: a ValueError (turned
      into a 400) or any other exception (a 500), each with `str(e)`. */
  datatype Exc = ValueError(msg: string) | OtherError(msg: string)

  /** The outcome of a Python expression that may raise. */
  datatype Py<T> = Ret(value: T) | Raise(exc: Exc)

  /** The AttributeError text for `v.attr` on a value without that method. */
  function NoAttribute(v: Value, attr: string): string
  {
    "'" + TypeName(v) + "' object has no attribute '" + attr + "'"
  }

  /** `repr(s)` for a string without quotes, backslashes or control characters. */
  function Repr(s: string): string
  {
    "'" + s + "'"
  }

  /** `int(x)` on a float: truncation toward zero. */
  function Truncate(x: real): (i: int)
    ensures 0.0 <= x ==> i as real <= x < i as real + 1.0
    ensures x < 0.0 ==> i as real - 1.0 < x <= i as real
  {
    if x >= 0.0 then x.Floor else -((-x).Floor)
  }

  /** `int(v)`: integers as they are, booleans as 0 or 1, floats truncated,
      strings parsed as decimal literals (ValueError otherwise); `None`,
      lists and dicts raise TypeError. */
  function PyInt(v: Value): (r: Py<int>)
    ensures v.VInt? ==> r == Ret(v.i)
    ensures v.VStr? ==> (r.Ret? <==> ParseInt(v.s).Some?) && (r.Ret? ==> Some(r.value) == ParseInt(v.s))
    ensures (r.Raise? && r.exc.ValueError?) <==> v.VStr? && ParseInt(v.s).None?
    ensures (r.Raise? && r.exc.OtherError?) <==> v.VNone? || v.VList? || v.VDict?
  {
    match v
    case VInt(i) => Ret(i)
    case VBool(b) => Ret(if b then 1 else 0)
    case VReal(x) => Ret(Truncate(x))
    case VStr(s) =>
      (match ParseInt(s)
       case Some(i) => Ret(i)
       case None => Raise(ValueError("invalid literal for int() with base 10: " + Repr(s))))
    case _ => Raise(OtherError("int() argument must be a string, a bytes-like object or a real number, not '"
                               + TypeName(v) + "'"))
  }

  /** Converting the decimal text of an integer gives the integer back. */
  lemma PyIntOfDecimal(n: int)
    ensures PyInt(VStr(IntToString(n))) == Ret(n)
  {
    IntStringRoundTrip(n);
  }

  /** `v.strip()` where `v` should be a string. */
  function Stripped(v: Value): (r: Py<string>)
    ensures v.VStr? ==> r == Ret(Strip(v.s))
    ensures !v.VStr? ==> r == Raise(OtherError(NoAttribute(v, "strip")))
  {
    if v.VStr? then Ret(Strip(v.s)) else Raise(OtherError(NoAttribute(v, "strip")))
  }

  /** `a == b` between a value and one of the scalars the views compare
      against: booleans, integers and floats compare as numbers. */
  function Numeric(v: Value): Option<real>
  {
    match v
    case VBool(b) => Some(if b then 1.0 else 0.0)
    case VInt(i) => Some(i as real)
    case VReal(x) => Some(x)
    case _ => None
  }

  predicate PyEq(a: Value, b: Value)
  {
    if Numeric(a).Some? && Numeric(b).Some? then Numeric(a) == Numeric(b) else a == b
  }

  /** `v in xs` for a list. */
  predicate PyIn(v: Value, xs: seq<Value>)
  {
    exists k :: 0 <= k < |xs| && PyEq(v, xs[k])
  }

  // ------------------------------------------------------------- uploads

  const AllowedExtensions: set<string> := {"png", "jpg", "jpeg", "gif"}

  /** 2 MiB. */
  const MaxFileSize: nat := 2 * 1024 * 1024

  const InvalidFileType: string := "Invalid file type. Only PNG, JPG, JPEG, GIF allowed."
  const FileTooLarge: string := "File too large. Maximum size is 2MB."

  /** `allowed_file`: the text after the last dot, lowercased, is whitelisted. */
  function AllowedFile(filename: string): bool
  {
    match LastIndexOf(filename, '.')
    case None => false
    case Some(i) => Lower(filename[i + 1..]) in AllowedExtensions
  }

  /** Lines 21-23: a name is allowed exactly when it has a dot and the part
      after its last dot is, lowercased, one of the four extensions. */
  lemma AllowedFileMeaning(filename: string)
    ensures AllowedFile(filename) <==>
      exists i :: 0 <= i < |filename| && filename[i] == '.' && '.' !in filename[i + 1..]
                  && Lower(filename[i + 1..]) in AllowedExtensions
  {
    match LastIndexOf(filename, '.') {
      case None =>
      case Some(j) =>
        assert filename[j] == '.' && '.' !in filename[j + 1..];
        assert AllowedFile(filename) == (Lower(filename[j + 1..]) in AllowedExtensions);
        forall i | 0 <= i < |filename| && filename[i] == '.' && '.' !in filename[i + 1..]
          ensures i == j
        {
          forall k | i < k < |filename| ensures filename[k] != '.' {
            assert filename[k] == filename[i + 1..][k - i - 1];
          }
          forall k | j < k < |filename| ensures filename[k] != '.' {
            assert filename[k] == filename[j + 1..][k - j - 1];
          }
        }
    }
  }

  /** A base name with a dot-free extension is allowed exactly for the four
      extensions, in any letter case. */
  lemma AllowedFileOfExtension(base: string, ext: string)
    requires '.' !in ext
    ensures AllowedFile(base + "." + ext) <==> Lower(ext) in AllowedExtensions
  {
    var f := base + "." + ext;
    assert f[|base|] == '.' && f[|base| + 1..] == ext;
    AllowedFileMeaning(f);
  }

  /** An uploaded file: the name the browser sent and its length in bytes. */
  datatype Upload = Upload(filename: string, size: nat)

  /** `secure_filename`. */
  type Sanitizer = string -> string

  /** `handle_logo_upload`: nothing without a named file; a ValueError for a
      name outside the whitelist, then for a file over 2 MiB; otherwise the
      sanitized name with its timestamp prefix. */
  function HandleLogoUpload(file: Option<Upload>, secure: Sanitizer, now: nat): (r: Py<Option<string>>)
    ensures r.Raise? ==> r.exc.ValueError?
  {
    if file.None? || file.value.filename == "" then Ret(None)
    else if !AllowedFile(file.value.filename) then Raise(ValueError(InvalidFileType))
    else if file.value.size > MaxFileSize then Raise(ValueError(FileTooLarge))
    else Ret(Some(Stamped(now, secure(file.value.filename))))
  }

  /** Lines 40-59: a named file is accepted exactly when its name is allowed
      and it is at most 2 MiB, and the saved name splits back into the
      timestamp and the sanitized name. */
  lemma UploadAccepted(file: Upload, secure: Sanitizer, now: nat)
    requires file.filename != ""
    ensures HandleLogoUpload(Some(file), secure, now).Ret?
        <==> AllowedFile(file.filename) && file.size <= MaxFileSize
    ensures !AllowedFile(file.filename) ==>
              HandleLogoUpload(Some(file), secure, now) == Raise(ValueError(InvalidFileType))
    ensures AllowedFile(file.filename) && file.size > MaxFileSize ==>
              HandleLogoUpload(Some(file), secure, now) == Raise(ValueError(FileTooLarge))
    ensures HandleLogoUpload(Some(file), secure, now).Ret? ==>
      var n := HandleLogoUpload(Some(file), secure, now).value;
      && n.Some?
      && n.value[IndexOf(n.value, '_').value + 1..] == secure(file.filename)
      && DigitsValue(n.value[..IndexOf(n.value, '_').value]) == now
  {
    StampedRoundTrip(now, secure(file.filename));
  }

  /** The limit is inclusive: exactly 2 MiB passes, one byte more fails. */
  lemma UploadSizeBoundary(secure: Sanitizer, now: nat)
    ensures HandleLogoUpload(Some(Upload("logo.png", 2097152)), secure, now).Ret?
    ensures HandleLogoUpload(Some(Upload("logo.png", 2097153)), secure, now) == Raise(ValueError(FileTooLarge))
  {
    assert "logo.png" == "logo" + "." + "png";
    assert Lower("png") == "png";
    AllowedFileOfExtension("logo", "png");
  }

  // --------------------------------------------------------- logo choice

  /** What the request handlers see of the outside world: the loaded icons,
      whether each icon file exists and whether copying succeeds, the name
      similarity, `secure_filename`, the clock in whole seconds, and the
      message of the database error raised when a commit's flush refuses the
      values assigned. */
  datatype Env = Env(icons: seq<Icon>, iconPresent: string -> bool, copySucceeds: bool,
                     ratio: Ratio, secure: Sanitizer, now: nat, dbError: seq<(string, Value)> -> string)

  /** `copy_icon_to_connections(choice)`: a choice that is not a string is
      in no list of file names. */
  function CopyIcon(env: Env, choice: Value): Option<string>
  {
    match choice
    case VStr(s) => CopyName(env.icons, s, env.iconPresent(s), env.now, env.copySucceeds)
    case _ => None
  }

  /** `handle_logo_selection`: a named upload first, then a truthy icon
      choice, else nothing. */
  function HandleLogoSelection(choice: Value, file: Option<Upload>, env: Env): Py<Option<string>>
  {
    if file.Some? && file.value.filename != "" then HandleLogoUpload(file, env.secure, env.now)
    else if Truthy(choice) then Ret(CopyIcon(env, choice))
    else Ret(None)
  }

  /** Lines 25-38: a logo is either the stamped upload, when a named file
      came with the request, or the stamped copy of a loaded icon the
      choice names, when none did; only the upload can raise. */
  lemma LogoSources(choice: Value, file: Option<Upload>, env: Env)
    ensures var r := HandleLogoSelection(choice, file, env);
      && (r.Raise? ==> file.Some? && file.value.filename != "" && r.exc.ValueError?)
      && (r.Ret? && r.value.Some? ==>
            || (file.Some? && file.value.filename != ""
                && r.value.value == Stamped(env.now, env.secure(file.value.filename)))
            || ((file.None? || file.value.filename == "") && choice.VStr?
                && choice.s in IconFilenames(env.icons)
                && r.value.value == Stamped(env.now, choice.s)))
  {
  }

  /** A named upload wins whatever icon was chosen. */
  lemma UploadWins(choice: Value, other: Value, file: Upload, env: Env)
    requires file.filename != ""
    ensures HandleLogoSelection(choice, Some(file), env) == HandleLogoSelection(other, Some(file), env)
  {
  }

  /** `data.get("logo_choice") or request.form.get("logo_choice")`. The form
      is consulted only when the first is falsy, and then holds the same
      first value (a form post, whose data is the form) or nothing (a JSON
      post), so only the truthiness of the data's entry matters. */
  function LogoChoice(d: Dict): Value
  {
    GetOr(d, "logo_choice", VNone)
  }

  /** `if logo_filename:`. */
  predicate HasLogo(logo: Option<string>)
  {
    logo.Some? && logo.value != ""
  }

  // ------------------------------------------------------------ responses

  datatype Body = ErrorBody(error: string) | ConnectionBody(connection: ConnectionRecord)

  /** A JSON response and its status code. */
  datatype Response = Response(code: int, body: Body)

  /** The `except ValueError` (400) and `except Exception` (500) handlers. */
  function Raised(e: Exc): Response
  {
    match e
    case ValueError(m) => Response(400, ErrorBody(m))
    case OtherError(m) => Response(500, ErrorBody(m))
  }

  const NoData: string := "No data provided"

  /** The blueprint's 500 handler, for exceptions outside the `try`. */
  const InternalError: string := "Internal server error"

  // ------------------------------------------------------- add_connection

  const RequiredFields: seq<string> := ["name", "connection_type", "target"]
  const ValidTypes: seq<string> := ["http", "ping", "tcp", "database"]

  function InvalidTypeMessage(): string
  {
    "Invalid connection type. Must be one of: " + JoinWith(", ", ValidTypes)
  }

  /** `data.get(field)` is truthy. */
  predicate Provided(d: Dict, field: string)
  {
    Truthy(GetOr(d, field, VNone))
  }

  /** The first of `fields` that is missing or falsy. */
  function FirstMissing(d: Dict, fields: seq<string>): (r: Option<string>)
    ensures r.None? <==> forall k :: 0 <= k < |fields| ==> Provided(d, fields[k])
    ensures r.Some? ==> exists k :: 0 <= k < |fields| && fields[k] == r.value && !Provided(d, fields[k])
                                    && forall j :: 0 <= j < k ==> Provided(d, fields[j])
    decreases |fields|
  {
    if fields == [] then None
    else if !Provided(d, fields[0]) then Some(fields[0])
    else
      var r := FirstMissing(d, fields[1..]);
      assert r.Some? ==> exists k :: 0 <= k < |fields| && fields[k] == r.value && !Provided(d, fields[k])
                                     && forall j :: 0 <= j < k ==> Provided(d, fields[j]) by {
        if r.Some? {
          var k :| 0 <= k < |fields| - 1 && fields[1..][k] == r.value && !Provided(d, fields[1..][k])
                   && forall j :: 0 <= j < k ==> Provided(d, fields[1..][j]);
          assert forall j :: 1 <= j < k + 1 ==> fields[j] == fields[1..][j - 1];
        }
      }
      assert r.None? <==> forall k :: 0 <= k < |fields| ==> Provided(d, fields[k]) by {
        assert forall k :: 1 <= k < |fields| ==> fields[k] == fields[1..][k - 1];
      }
      r
  }

  /** Lines 227-230: the loop over the required fields, returning at the
      first one missing. */
  method CheckRequired(d: Dict) returns (missing: Option<string>)
    ensures missing == FirstMissing(d, RequiredFields)
  {
    for i := 0 to |RequiredFields|
      invariant FirstMissing(d, RequiredFields) == FirstMissing(d, RequiredFields[i..])
    {
      var field := RequiredFields[i];
      if !Provided(d, field) {
        assert RequiredFields[i..][0] == field;
        return Some(field);
      }
      assert RequiredFields[i..][1..] == RequiredFields[i + 1..];
    }
    assert RequiredFields[|RequiredFields|..] == [];
    return None;
  }

  /** `data["connection_type"] in valid_types`: a string equal to one of them. */
  predicate ValidType(v: Value)
  {
    v.VStr? && v.s in ValidTypes
  }

  /** The valid types carry no surrounding whitespace, so stripping the
      accepted type at line 262 keeps it. */
  lemma ValidTypeStripped(t: string)
    requires t in ValidTypes
    ensures Strip(t) == t
  {
    assert t == "http" || t == "ping" || t == "tcp" || t == "database";
    StripNoop(t);
  }

  /** What the checks before the `try` decide. */
  datatype Checked = Rejected(response: Response) | Accepted(data: Dict)

  /** Lines 224-235: no data, then (outside the `try`, so through the 500
      handler) a body that is not an object, then the first missing field,
      then the type. */
  function Validate(data: Value): Checked
  {
    if !Truthy(data) then Rejected(Response(400, ErrorBody(NoData)))
    else if !data.VDict? then Rejected(Response(500, ErrorBody(InternalError)))
    else match FirstMissing(data.entries, RequiredFields)
      case Some(f) => Rejected(Response(400, ErrorBody("Missing required field: " + f)))
      case None =>
        if !ValidType(GetOr(data.entries, "connection_type", VNone))
        then Rejected(Response(400, ErrorBody(InvalidTypeMessage())))
        else Accepted(data.entries)
  }

  /** Lines 224-235: a body is accepted exactly when it is a non-empty object
      providing the three required fields with one of the four types, as
      given (unstripped); every rejection but a non-object one is a 400. */
  lemma ValidateMeaning(data: Value)
    ensures Validate(data).Accepted? <==>
      && data.VDict? && data.entries != []
      && (forall k :: 0 <= k < |RequiredFields| ==> Provided(data.entries, RequiredFields[k]))
      && ValidType(GetOr(data.entries, "connection_type", VNone))
    ensures Validate(data).Accepted? ==> Validate(data).data == data.entries
    ensures Validate(data).Rejected? ==> Validate(data).response.code == (if Truthy(data) && !data.VDict? then 500 else 400)
    ensures !Truthy(data) ==> Validate(data) == Rejected(Response(400, ErrorBody(NoData)))
  {
  }

  /** `int(data["port"]) if data.get("port") and str(data["port"]).strip() else None`,
      `v` being the entry or `None`: only a string can print as blank. */
  function PortArgument(v: Value): Py<Option<int>>
  {
    if Truthy(v) && !(v.VStr? && Strip(v.s) == "") then
      match PyInt(v)
      case Ret(i) => Ret(Some(i))
      case Raise(e) => Raise(e)
    else Ret(None)
  }

  /** Line 264: no port for a missing, falsy or blank entry; a decimal string
      (spaces allowed) gives its value; any other non-blank string is a
      ValueError. */
  lemma PortArgumentMeaning(v: Value)
    ensures PortArgument(v) == Ret(None) <==> !Truthy(v) || (v.VStr? && Strip(v.s) == "")
    ensures v.VStr? && Strip(v.s) != "" && ParseInt(v.s).Some? ==> PortArgument(v) == Ret(Some(ParseInt(v.s).value))
    ensures v.VStr? && Strip(v.s) != "" && ParseInt(v.s).None? ==> PortArgument(v).Raise? && PortArgument(v).exc.ValueError?
    ensures v.VInt? && v.i != 0 ==> PortArgument(v) == Ret(Some(v.i))
  {
  }

  /** `data.get("description", "").strip() or None`. */
  function DescriptionArgument(v: Value): (r: Py<Option<string>>)
    ensures r.Ret? ==> r.value != Some("")
    ensures v == VStr("") ==> r == Ret(None)
  {
    match Stripped(v)
    case Ret(s) => Ret(if s == "" then None else Some(s))
    case Raise(e) => Raise(e)
  }

  /** The new connection: the given columns over the constructor's defaults. */
  function NewRecord(name: string, description: Option<string>, connectionType: string, target: string,
                     port: Option<int>, timeout: int, checkInterval: int, logo: Option<string>, now: int)
    : ConnectionRecord
  {
    Initial(name, connectionType, target, now).(description := description, port := port,
                                                timeout := IntValue(timeout),
                                                checkInterval := IntValue(checkInterval), logoFilename := logo)
  }

  function OptStrValue(o: Option<string>): Value
  {
    match o
    case Some(s) => VStr(s)
    case None => VNone
  }

  function OptIntValue(o: Option<int>): Value
  {
    match o
    case Some(i) => VInt(i)
    case None => VNone
  }

  /** The keyword arguments of the constructor call at lines 259-268. */
  function CreateKwargs(description: Option<string>, port: Option<int>, timeout: int, checkInterval: int,
                        logo: Option<string>): seq<(string, Value)>
  {
    [("description", OptStrValue(description)), ("port", OptIntValue(port)), ("timeout", VInt(timeout)),
     ("check_interval", VInt(checkInterval)), ("logo_filename", OptStrValue(logo))]
  }

  /** The constructor applied to those keyword arguments builds `NewRecord`:
      every keyword names a column and carries a value of its type. */
  lemma CreateKwargsRecord(name: string, description: Option<string>, connectionType: string, target: string,
                           port: Option<int>, timeout: int, checkInterval: int, logo: Option<string>, now: int)
    ensures ApplyKwargs(Initial(name, connectionType, target, now), CreateKwargs(description, port, timeout, checkInterval, logo))
         == NewRecord(name, description, connectionType, target, port, timeout, checkInterval, logo, now)
  {
    var kw := CreateKwargs(description, port, timeout, checkInterval, logo);
    var c0 := Initial(name, connectionType, target, now);
    var c1 := c0.(description := description);
    var c2 := c1.(port := port);
    var c3 := c2.(timeout := IntValue(timeout));
    var c4 := c3.(checkInterval := IntValue(checkInterval));
    var c5 := c4.(logoFilename := logo);
    assert WithAttr(c0, "description", OptStrValue(description)) == c1;
    assert WithAttr(c1, "port", OptIntValue(port)) == c2;
    assert WithAttr(c2, "timeout", VInt(timeout)) == c3;
    assert WithAttr(c3, "check_interval", VInt(checkInterval)) == c4;
    assert WithAttr(c4, "logo_filename", OptStrValue(logo)) == c5;
    assert ApplyKwargs(c5, kw[5..]) == c5;
    assert ApplyKwargs(c4, kw[4..]) == c5;
    assert ApplyKwargs(c3, kw[3..]) == c5;
    assert ApplyKwargs(c2, kw[2..]) == c5;
    assert ApplyKwargs(c1, kw[1..]) == c5;
  }

  /** The suggestion step of lines 247-257, for string arguments: the
      suggested icon's copy, or the logo unchanged when nothing is suggested. */
  function SuggestedLogo(name: string, description: string, target: string, logo: Option<string>, env: Env)
    : Option<string>
  {
    match Suggestion(env.icons, name, description, target, env.ratio)
    case Some(icon) => if icon != "" then CopyName(env.icons, icon, env.iconPresent(icon), env.now, env.copySucceeds) else logo
    case None => logo
  }

  /** The entries lines 260-266 read, with the defaults of `data.get`. */
  datatype Fields = Fields(name: Value, description: Value, connectionType: Value, target: Value,
                           port: Value, timeout: Value, checkInterval: Value)

  function FieldsOf(d: Dict): Fields
  {
    Fields(GetOr(d, "name", VNone), GetOr(d, "description", VStr("")), GetOr(d, "connection_type", VNone),
           GetOr(d, "target", VNone), GetOr(d, "port", VNone), GetOr(d, "timeout", VInt(DefaultTimeout)),
           GetOr(d, "check_interval", VInt(DefaultCheckInterval)))
  }

  /** An entry the body leaves out reads as its default. */
  lemma FieldsOfAbsent(d: Dict)
    ensures !HasKey(d, "description") ==> FieldsOf(d).description == VStr("")
    ensures !HasKey(d, "port") ==> FieldsOf(d).port == VNone
    ensures !HasKey(d, "timeout") ==> FieldsOf(d).timeout == VInt(DefaultTimeout)
    ensures !HasKey(d, "check_interval") ==> FieldsOf(d).checkInterval == VInt(DefaultCheckInterval)
  {
  }

  /** The converted constructor arguments. */
  datatype Args = Args(name: string, description: Option<string>, connectionType: string, target: string,
                       port: Option<int>, timeout: int, checkInterval: int)

  /** Lines 260-266, evaluated in order: the first argument that raises
      decides the exception. */
  function Arguments(f: Fields): Py<Args>
  {
    match Stripped(f.name)
    case Raise(e) => Raise(e)
    case Ret(name) =>
    match DescriptionArgument(f.description)
    case Raise(e) => Raise(e)
    case Ret(description) =>
    match Stripped(f.connectionType)
    case Raise(e) => Raise(e)
    case Ret(connectionType) =>
    match Stripped(f.target)
    case Raise(e) => Raise(e)
    case Ret(target) =>
    match PortArgument(f.port)
    case Raise(e) => Raise(e)
    case Ret(port) =>
    match PyInt(f.timeout)
    case Raise(e) => Raise(e)
    case Ret(timeout) =>
    match PyInt(f.checkInterval)
    case Raise(e) => Raise(e)
    case Ret(interval) => Ret(Args(name, description, connectionType, target, port, timeout, interval))
  }

  /** Converted arguments are the stripped strings with a blank description
      dropped, and an entry left at its default converts to the column's
      default. */
  lemma ArgumentsMeaning(f: Fields)
    ensures Arguments(f).Ret? ==>
      var a := Arguments(f).value;
      && f.name.VStr? && a.name == Strip(f.name.s)
      && f.target.VStr? && a.target == Strip(f.target.s)
      && f.connectionType.VStr? && a.connectionType == Strip(f.connectionType.s)
      && f.description.VStr? && a.description != Some("")
      && (f.description == VStr("") ==> a.description == None)
      && (f.port == VNone ==> a.port == None)
      && (f.timeout == VInt(DefaultTimeout) ==> a.timeout == DefaultTimeout)
      && (f.checkInterval == VInt(DefaultCheckInterval) ==> a.checkInterval == DefaultCheckInterval)
  {
    if Arguments(f).Ret? {
      var n, desc, t := Stripped(f.name), DescriptionArgument(f.description), Stripped(f.connectionType);
      var tg, p := Stripped(f.target), PortArgument(f.port);
      var to, ci := PyInt(f.timeout), PyInt(f.checkInterval);
      assert n.Ret? && desc.Ret? && t.Ret? && tg.Ret? && p.Ret? && to.Ret? && ci.Ret?;
      assert Arguments(f).value == Args(n.value, desc.value, t.value, tg.value, p.value, to.value, ci.value);
    }
  }

  /** Lines 246-257 with no logo and some icons: the suggester lowercases
      the name and then the target, which raises for a non-string. */
  function SuggesterFailure(d: Dict, logo: Option<string>, env: Env): Option<Exc>
  {
    var name := GetOr(d, "name", VNone);
    var target := GetOr(d, "target", VNone);
    if HasLogo(logo) || env.icons == [] then None
    else if !name.VStr? then Some(OtherError(NoAttribute(name, "lower")))
    else if !target.VStr? then Some(OtherError(NoAttribute(target, "lower")))
    else None
  }

  /** Lines 246-273 once the logo is known. The suggestion itself cannot
      raise once the name and target are strings, and the arguments after it
      cannot be changed by it, so it is taken only once they are known to
      convert; the outcome is the same as in the source's order. */
  function Create(d: Dict, logo: Option<string>, env: Env): (r: Response)
    ensures r.code == 201 ==> r.body.ConnectionBody? && Arguments(FieldsOf(d)).Ret?
    ensures r.code == 201 && HasLogo(logo) ==> r.body.connection.logoFilename == logo
    ensures r.code == 201 && !HasLogo(logo) ==>
      var f := FieldsOf(d);
      && f.name.VStr? && f.description.VStr? && f.target.VStr?
      && r.body.connection.logoFilename == SuggestedLogo(f.name.s, f.description.s, f.target.s, logo, env)
    ensures r.code == 201 ==>
      var a := Arguments(FieldsOf(d)).value;
      var c := r.body.connection;
      && c.name == a.name && c.description == a.description && c.connectionType == a.connectionType
      && c.target == a.target && c.port == a.port && c.timeout == IntValue(a.timeout)
      && c.checkInterval == IntValue(a.checkInterval)
      && c.isActive && c.lastCheck == None && c.lastStatus == None && c.createdAt == env.now
  {
    match SuggesterFailure(d, logo, env)
    case Some(e) => Raised(e)
    case None =>
      match Arguments(FieldsOf(d))
      case Raise(e) => Raised(e)
      case Ret(a) =>
        var l := if HasLogo(logo) then logo
                 else SuggestedLogo(GetOr(d, "name", VNone).s, GetOr(d, "description", VStr("")).s,
                                    GetOr(d, "target", VNone).s, logo, env);
        Response(201, ConnectionBody(NewRecord(a.name, a.description, a.connectionType, a.target, a.port,
                                               a.timeout, a.checkInterval, l, env.now)))
  }

  /** The suggestion step keeps the logo when no icon scores 5. Otherwise
      the suggestion is a loaded icon scoring at least 5 and no lower than
      any other, and the step gives its copy: the stamped file name when the
      icon's file exists and the copy succeeds, and no logo when it does not. */
  lemma SuggestedLogoMeaning(name: string, description: string, target: string, logo: Option<string>, env: Env)
    ensures var r := SuggestedLogo(name, description, target, logo, env);
      var sc := Scores(env.icons, name, SearchKeywords(name, description, target), target, env.ratio);
      match Suggestion(env.icons, name, description, target, env.ratio)
      case None => r == logo && forall j :: 0 <= j < |env.icons| ==> sc[j] < 5.0
      case Some(icon) =>
        && (exists i :: 0 <= i < |env.icons| && env.icons[i].filename == icon && sc[i] >= 5.0
              && forall j :: 0 <= j < |env.icons| ==> sc[j] <= sc[i])
        && (icon == "" ==> r == logo)
        && (icon != "" ==>
              && (r.Some? <==> env.iconPresent(icon) && env.copySucceeds)
              && (r.Some? ==> r.value == Stamped(env.now, icon)))
  {
    SuggestionMeaning(env.icons, name, description, target, env.ratio);
    var sug := Suggestion(env.icons, name, description, target, env.ratio);
    if sug.Some? && sug.value != "" {
      var icon := sug.value;
      var i :| 0 <= i < |env.icons| && env.icons[i].filename == icon;
      assert IconFilenames(env.icons)[i] == icon;
    }
  }

  /** Without an obtained logo, a created connection holds the stamped copy
      of the suggested icon when its file exists and the copy succeeds, no
      logo when the copy fails, and the logo as it was when nothing is
      suggested. */
  lemma CreateSuggestsLogo(d: Dict, logo: Option<string>, env: Env)
    requires Create(d, logo, env).code == 201 && !HasLogo(logo)
    ensures var f := FieldsOf(d);
      && f.name.VStr? && f.description.VStr? && f.target.VStr?
      && var c := Create(d, logo, env).body.connection;
         var sug := Suggestion(env.icons, f.name.s, f.description.s, f.target.s, env.ratio);
         && (sug.None? ==> c.logoFilename == logo)
         && ((sug.Some? && sug.value != "" && env.iconPresent(sug.value) && env.copySucceeds)
               ==> c.logoFilename == Some(Stamped(env.now, sug.value)))
         && ((sug.Some? && sug.value != "" && !(env.iconPresent(sug.value) && env.copySucceeds))
               ==> c.logoFilename == None)
  {
    var f := FieldsOf(d);
    SuggestedLogoMeaning(f.name.s, f.description.s, f.target.s, logo, env);
  }

  /** `add_connection` with the logo applied through the constructor only
      (lines 243-244 removed), as the code evidently intends. */
  function AddConnectionResponse(data: Value, logoFile: Option<Upload>, env: Env): Response
  {
    match Validate(data)
    case Rejected(r) => r
    case Accepted(d) =>
      match HandleLogoSelection(LogoChoice(d), logoFile, env)
      case Raise(e) => Raised(e)
      case Ret(logo) => Create(d, logo, env)
  }

  /** The message of the UnboundLocalError raised by line 244, which reads
      the local `connection` before line 259 assigns it. */
  const UnboundConnection: string :=
    "cannot access local variable 'connection' where it is not associated with a value"

  /** `add_connection` as written: a logo obtained from the upload or the
      icon choice makes line 244 raise, and the generic handler answers 500. */
  function AddConnectionResponseAsWritten(data: Value, logoFile: Option<Upload>, env: Env): Response
  {
    match Validate(data)
    case Rejected(r) => r
    case Accepted(d) =>
      match HandleLogoSelection(LogoChoice(d), logoFile, env)
      case Raise(e) => Raised(e)
      case Ret(logo) =>
        if HasLogo(logo) then Response(500, ErrorBody(UnboundConnection)) else Create(d, logo, env)
  }

  /** As written, no connection is ever created once a logo was obtained:
      the request always ends in the 500 handler. */
  lemma AsWrittenRejectsEveryLogo(data: Value, logoFile: Option<Upload>, env: Env)
    requires Validate(data).Accepted?
    requires HandleLogoSelection(LogoChoice(data.entries), logoFile, env).Ret?
    requires HasLogo(HandleLogoSelection(LogoChoice(data.entries), logoFile, env).value)
    ensures AddConnectionResponseAsWritten(data, logoFile, env) == Response(500, ErrorBody(UnboundConnection))
  {
  }

  /** A minimal valid request body. */
  const SampleBody: Dict := [("name", VStr("web")), ("connection_type", VStr("http")), ("target", VStr("example.org"))]

  lemma SampleBodyAccepted()
    ensures Validate(VDict(SampleBody)) == Accepted(SampleBody)
  {
    SampleBodyProvided();
    assert ValidTypes[0] == "http";
    assert ValidType(GetOr(SampleBody, "connection_type", VNone));
    assert Truthy(VDict(SampleBody));
  }

  /** The three required fields of the sample body are given, with type http. */
  lemma SampleBodyProvided()
    ensures FirstMissing(SampleBody, RequiredFields) == None
    ensures GetOr(SampleBody, "connection_type", VNone) == VStr("http")
  {
    SampleBodyGets();
    var d := SampleBody;
    assert Provided(d, "name") && Provided(d, "connection_type") && Provided(d, "target");
    assert RequiredFields[1..] == ["connection_type", "target"];
    assert RequiredFields[1..][1..] == ["target"];
  }

  lemma SampleBodyGets()
    ensures Get(SampleBody, "name") == Some(VStr("web"))
    ensures Get(SampleBody, "connection_type") == Some(VStr("http"))
    ensures Get(SampleBody, "target") == Some(VStr("example.org"))
  {
    var d := SampleBody;
    var d1 := [("connection_type", VStr("http")), ("target", VStr("example.org"))];
    var d2 := [("target", VStr("example.org"))];
    assert d[1..] == d1 && d1[1..] == d2;
    assert Get(d2, "target") == Some(VStr("example.org"));
    assert Get(d1, "target") == Get(d2, "target");
    assert Get(d1, "connection_type") == Some(VStr("http"));
  }

  /** An allowed upload with no icon choice gives a stored logo. */
  lemma SampleUploadSelected(env: Env)
    ensures HandleLogoSelection(LogoChoice(SampleBody), Some(Upload("logo.png", 100)), env)
         == Ret(Some(Stamped(env.now, env.secure("logo.png"))))
  {
    var file := Upload("logo.png", 100);
    assert "logo.png" == "logo" + "." + "png";
    assert Lower("png") == "png";
    AllowedFileOfExtension("logo", "png");
    assert HandleLogoUpload(Some(file), env.secure, env.now) == Ret(Some(Stamped(env.now, env.secure("logo.png"))));
    SampleBodyNoLogoChoice();
  }

  lemma SampleBodyNoLogoChoice()
    ensures GetOr(SampleBody, "logo_choice", VNone) == VNone
  {
    forall i | 0 <= i < |SampleBody| ensures SampleBody[i].0 != "logo_choice" {
      assert |SampleBody[i].0| != |"logo_choice"|;
    }
    assert !HasKey(SampleBody, "logo_choice");
  }

  /** A concrete request showing it: a valid body with an allowed upload. */
  lemma AsWrittenUploadFails(env: Env)
    ensures AddConnectionResponseAsWritten(VDict(SampleBody), Some(Upload("logo.png", 100)), env)
         == Response(500, ErrorBody(UnboundConnection))
  {
    SampleBodyAccepted();
    SampleUploadSelected(env);
    AsWrittenRejectsEveryLogo(VDict(SampleBody), Some(Upload("logo.png", 100)), env);
  }

  /** Without a logo the two versions agree. */
  lemma AsWrittenAgreesWithoutLogo(data: Value, logoFile: Option<Upload>, env: Env)
    requires Validate(data).Accepted? ==>
      var s := HandleLogoSelection(LogoChoice(data.entries), logoFile, env);
      s.Raise? || !HasLogo(s.value)
    ensures AddConnectionResponseAsWritten(data, logoFile, env) == AddConnectionResponse(data, logoFile, env)
  {
  }

  /** Corrected: a created connection carries the logo that was obtained. */
  lemma CreatedKeepsLogo(data: Value, logoFile: Option<Upload>, env: Env)
    requires Validate(data).Accepted?
    requires HandleLogoSelection(LogoChoice(data.entries), logoFile, env).Ret?
    requires HasLogo(HandleLogoSelection(LogoChoice(data.entries), logoFile, env).value)
    requires AddConnectionResponse(data, logoFile, env).code == 201
    ensures AddConnectionResponse(data, logoFile, env).body.ConnectionBody?
    ensures AddConnectionResponse(data, logoFile, env).body.connection.logoFilename
         == HandleLogoSelection(LogoChoice(data.entries), logoFile, env).value
  {
    var s := HandleLogoSelection(LogoChoice(data.entries), logoFile, env);
    assert AddConnectionResponse(data, logoFile, env) == Create(data.entries, s.value, env);
  }

  /** Lines 259-268 for the body `d` and the connection `c` created from
      it: the stripped name, type and target, the default timeout and
      interval when none is given, no port or description for a missing
      entry, never a blank description, and active and unchecked from `now`. */
  predicate CreatedFrom(d: Dict, c: ConnectionRecord, now: int)
  {
    && GetOr(d, "name", VNone).VStr? && c.name == Strip(GetOr(d, "name", VNone).s)
    && GetOr(d, "target", VNone).VStr? && c.target == Strip(GetOr(d, "target", VNone).s)
    && GetOr(d, "connection_type", VNone).VStr?
    && c.connectionType == Strip(GetOr(d, "connection_type", VNone).s)
    && (!HasKey(d, "timeout") ==> c.timeout == IntValue(DefaultTimeout))
    && (!HasKey(d, "check_interval") ==> c.checkInterval == IntValue(DefaultCheckInterval))
    && (!HasKey(d, "port") ==> c.port == None)
    && (!HasKey(d, "description") ==> c.description == None)
    && c.description != Some("")
    && c.isActive && c.lastCheck == None && c.lastStatus == None && c.createdAt == now
  }

  /** A connection `Create` makes is built from the body as `CreatedFrom`
      describes. */
  lemma CreateMeaning(d: Dict, logo: Option<string>, env: Env)
    requires Create(d, logo, env).code == 201
    ensures Create(d, logo, env).body.ConnectionBody?
    ensures CreatedFrom(d, Create(d, logo, env).body.connection, env.now)
  {
    var f := FieldsOf(d);
    ArgumentsMeaning(f);
    FieldsOfAbsent(d);
  }

  /** Lines 224-268: a created connection passed validation, is built from
      the body as `CreatedFrom` describes, and has one of the four types as
      given. */
  lemma CreatedRecord(data: Value, logoFile: Option<Upload>, env: Env)
    requires AddConnectionResponse(data, logoFile, env).code == 201
    ensures data.VDict? && Validate(data) == Accepted(data.entries)
    ensures AddConnectionResponse(data, logoFile, env).body.ConnectionBody?
    ensures CreatedFrom(data.entries, AddConnectionResponse(data, logoFile, env).body.connection, env.now)
    ensures var c := AddConnectionResponse(data, logoFile, env).body.connection;
      c.connectionType == GetOr(data.entries, "connection_type", VNone).s && c.connectionType in ValidTypes
  {
    var logo := AcceptedCreate(data, logoFile, env);
    CreateMeaning(data.entries, logo, env);
    var t := GetOr(data.entries, "connection_type", VNone);
    ValidTypeStripped(t.s);
  }

  /** A response other than a rejection or a logo failure is `Create`'s, on
      an accepted body with a valid type. */
  lemma AcceptedCreate(data: Value, logoFile: Option<Upload>, env: Env) returns (logo: Option<string>)
    requires AddConnectionResponse(data, logoFile, env).code == 201
    ensures data.VDict? && Validate(data) == Accepted(data.entries)
    ensures ValidType(GetOr(data.entries, "connection_type", VNone))
    ensures HandleLogoSelection(LogoChoice(data.entries), logoFile, env) == Ret(logo)
    ensures AddConnectionResponse(data, logoFile, env) == Create(data.entries, logo, env)
  {
    var s := HandleLogoSelection(LogoChoice(data.entries), logoFile, env);
    if s.Ret? {
      logo := s.value;
    }
  }

  /** Lines 210-279: validation, then the logo, then the connection. */
  method AddConnection(data: Value, logoFile: Option<Upload>, env: Env) returns (resp: Response)
    ensures resp == AddConnectionResponse(data, logoFile, env)
  {
    if !Truthy(data) {
      return Response(400, ErrorBody(NoData));
    }
    if !data.VDict? {
      return Response(500, ErrorBody(InternalError));
    }
    var d := data.entries;
    var missing := CheckRequired(d);
    if missing.Some? {
      return Response(400, ErrorBody("Missing required field: " + missing.value));
    }
    if !ValidType(GetOr(d, "connection_type", VNone)) {
      return Response(400, ErrorBody(InvalidTypeMessage()));
    }
    var selection := HandleLogoSelection(LogoChoice(d), logoFile, env);
    if selection.Raise? {
      return Raised(selection.exc);
    }
    resp := CreateConnection(d, selection.value, env);
  }

  /** Lines 246-273: the suggestion and the constructor call. */
  method CreateConnection(d: Dict, logo: Option<string>, env: Env) returns (resp: Response)
    ensures resp == Create(d, logo, env)
  {
    var failure := SuggesterFailure(d, logo, env);
    if failure.Some? {
      return Raised(failure.value);
    }
    var args := Arguments(FieldsOf(d));
    if args.Raise? {
      return Raised(args.exc);
    }
    var a := args.value;
    ArgumentsMeaning(FieldsOf(d));
    var name, description, target := GetOr(d, "name", VNone).s, GetOr(d, "description", VStr("")).s,
                                      GetOr(d, "target", VNone).s;
    var logoFilename := logo;
    if !HasLogo(logo) {
      var suggested := SuggestImage(env.icons, name, description, target, a.connectionType, env.ratio);
      if suggested.Some? && suggested.value != "" {
        logoFilename := CopyName(env.icons, suggested.value, env.iconPresent(suggested.value), env.now,
                                 env.copySucceeds);
      }
      assert logoFilename == SuggestedLogo(name, description, target, logo, env);
    }
    var kwargs := CreateKwargs(a.description, a.port, a.timeout, a.checkInterval, logoFilename);
    CreateKwargsRecord(a.name, a.description, a.connectionType, a.target, a.port, a.timeout,
                       a.checkInterval, logoFilename, env.now);
    var connection := new Connection(a.name, a.connectionType, a.target, kwargs, env.now);
    resp := Response(201, ConnectionBody(connection.Record()));
  }
}
