/** Shared vocabulary: optional values, results, JSON-like Python values and the
    string operations (lowercasing, stripping, splitting, decimal conversion) that
    the monitoring code relies on. Characters are treated as ASCII for case and
    whitespace. */
module Common {

  datatype Option<T> = None | Some(value: T)

  /** Outcome of an operation that may raise: `Err` carries the exception text. */
  datatype Result<T> = Ok(value: T) | Err(error: string)

  /** A JSON-like Python value, as found in request bodies and widget configs.
      Dictionaries keep their insertion order, as Python dicts do. */
  datatype Value =
    | VNone
    | VBool(b: bool)
    | VInt(i: int)
    | VReal(r: real)
    | VStr(s: string)
    | VList(items: seq<Value>)
    | VDict(entries: seq<(string, Value)>)

  type Dict = seq<(string, Value)>

  /** A list of Python strings. */
  function StringValues(names: seq<string>): (r: seq<Value>)
    ensures |r| == |names|
    ensures forall k :: 0 <= k < |names| ==> r[k] == VStr(names[k])
  {
    seq(|names|, k requires 0 <= k < |names| => VStr(names[k]))
  }

  /** The status strings the checker and the monitor write. */
  const UP: string := "up"
  const DOWN: string := "down"
  const UNKNOWN: string := "unknown"

  /** Python truthiness. */
  predicate Truthy(v: Value)
  {
    match v
    case VNone => false
    case VBool(b) => b
    case VInt(i) => i != 0
    case VReal(r) => r != 0.0
    case VStr(s) => s != ""
    case VList(xs) => xs != []
    case VDict(d) => d != []
  }

  /** `key in d` for an insertion-ordered dictionary. */
  predicate HasKey(d: Dict, key: string)
  {
    exists i :: 0 <= i < |d| && d[i].0 == key
  }

  /** `d.get(key)`: the first entry with that key. */
  function Get(d: Dict, key: string): (r: Option<Value>)
    ensures r.Some? <==> HasKey(d, key)
    ensures r.Some? ==> exists i :: 0 <= i < |d| && d[i] == (key, r.value)
  {
    if d == [] then None
    else if d[0].0 == key then Some(d[0].1)
    else
      var r := Get(d[1..], key);
      assert r.Some? ==> exists i :: 0 <= i < |d| - 1 && d[1..][i] == (key, r.value);
      assert HasKey(d[1..], key) ==> HasKey(d, key) by {
        if HasKey(d[1..], key) {
          var i :| 0 <= i < |d| - 1 && d[1..][i].0 == key;
          assert d[i + 1].0 == key;
        }
      }
      assert HasKey(d, key) ==> HasKey(d[1..], key) by {
        if HasKey(d, key) {
          var i :| 0 <= i < |d| && d[i].0 == key;
          assert i != 0;
          assert d[1..][i - 1].0 == key;
        }
      }
      r
  }

  /** `d.get(key, default)`. */
  function GetOr(d: Dict, key: string, default: Value): Value
  {
    match Get(d, key)
    case Some(v) => v
    case None => default
  }

  /** A finished `subprocess.run` with captured text output: its exit code and stdout. */
  datatype Completed = Completed(returnCode: int, stdout: string)

  /** Runs an argument vector; `None` when `subprocess.run` raises (missing
      binary, timeout, an argument it refuses). */
  type Runner = seq<string> -> Option<Completed>

  /** `list(d.keys())`: the keys in insertion order. */
  function Keys(d: Dict): (r: seq<string>)
    ensures |r| == |d|
    ensures forall i :: 0 <= i < |d| ==> r[i] == d[i].0
  {
    seq(|d|, i requires 0 <= i < |d| => d[i].0)
  }

  /** `type(v).__name__`, as quoted in Python's TypeError messages. */
  function TypeName(v: Value): string
  {
    match v
    case VNone => "NoneType"
    case VBool(_) => "bool"
    case VInt(_) => "int"
    case VReal(_) => "float"
    case VStr(_) => "str"
    case VList(_) => "list"
    case VDict(_) => "dict"
  }

  /** What `for x in v` iterates over: list items, the characters of a string,
      the keys of a dict; `None` when Python raises TypeError. */
  function Iterate(v: Value): Option<seq<Value>>
  {
    match v
    case VList(xs) => Some(xs)
    case VStr(s) => Some(seq(|s|, i requires 0 <= i < |s| => VStr([s[i]])))
    case VDict(d) => Some(seq(|d|, i requires 0 <= i < |d| => VStr(d[i].0)))
    case _ => None
  }

  // ---------------------------------------------------------------- characters

  function LowerChar(c: char): (r: char)
    ensures 'A' <= c <= 'Z' ==> r == c - 'A' + 'a'
    ensures !('A' <= c <= 'Z') ==> r == c
  {
    if 'A' <= c <= 'Z' then (c as int - 'A' as int + 'a' as int) as char else c
  }

  function UpperChar(c: char): char
  {
    if 'a' <= c <= 'z' then (c as int - 'a' as int + 'A' as int) as char else c
  }

  predicate IsLetter(c: char)
  {
    'a' <= c <= 'z' || 'A' <= c <= 'Z'
  }

  /** `str.lower()` restricted to ASCII letters. */
  function Lower(s: string): (r: string)
    ensures |r| == |s|
    ensures forall i :: 0 <= i < |s| ==> r[i] == LowerChar(s[i])
  {
    seq(|s|, i requires 0 <= i < |s| => LowerChar(s[i]))
  }

  /** The ASCII characters Python's `str.strip()` and `\s` treat as
      whitespace: space, tab, newline, vertical tab, form feed, carriage
      return and the four separators U+001C..U+001F. */
  predicate IsSpace(c: char)
  {
    c == ' ' || c == '\t' || c == '\n' || c == '\r' || c == '\U{0B}' || c == '\U{0C}'
    || ('\U{1C}' <= c <= '\U{1F}')
  }

  predicate IsDigit(c: char)
  {
    '0' <= c <= '9'
  }

  // ------------------------------------------------------------ substrings

  predicate StartsWith(s: string, p: string)
  {
    |p| <= |s| && s[..|p|] == p
  }

  predicate EndsWith(s: string, p: string)
  {
    |p| <= |s| && s[|s| - |p|..] == p
  }

  /** `sub in s` for strings. */
  predicate Contains(s: string, sub: string)
    decreases |s|
  {
    StartsWith(s, sub) || (s != [] && Contains(s[1..], sub))
  }

  /** `sub` occurs in `s` starting at index `i`. */
  predicate OccursAt(s: string, sub: string, i: int)
  {
    0 <= i && i + |sub| <= |s| && s[i..i + |sub|] == sub
  }

  /** `Contains` agrees with the positional definition of a substring. */
  lemma {:induction false} ContainsAt(s: string, sub: string)
    ensures Contains(s, sub) <==> exists i :: OccursAt(s, sub, i)
    decreases |s|
  {
    if s != [] {
      ContainsAt(s[1..], sub);
      if exists i :: OccursAt(s, sub, i) {
        var i :| OccursAt(s, sub, i);
        if i > 0 {
          assert s[1..][i - 1..i - 1 + |sub|] == sub;
          assert OccursAt(s[1..], sub, i - 1);
        }
      }
      if StartsWith(s, sub) {
        assert OccursAt(s, sub, 0);
      }
      if Contains(s[1..], sub) {
        var i :| OccursAt(s[1..], sub, i);
        assert s[i + 1..i + 1 + |sub|] == sub;
        assert OccursAt(s, sub, i + 1);
      }
    } else {
      if exists i :: OccursAt(s, sub, i) {
        var i :| OccursAt(s, sub, i);
        assert sub == [];
        assert StartsWith(s, sub);
      }
      if Contains(s, sub) {
        assert OccursAt(s, sub, 0);
      }
    }
  }

  lemma ContainsSelf(s: string)
    ensures Contains(s, s)
  {
    assert StartsWith(s, s);
  }

  /** A substring of a substring is a substring. */
  lemma ContainsTransitive(s: string, t: string, u: string)
    requires Contains(s, t) && Contains(t, u)
    ensures Contains(s, u)
  {
    ContainsAt(s, t);
    ContainsAt(t, u);
    ContainsAt(s, u);
    var i :| OccursAt(s, t, i);
    var j :| OccursAt(t, u, j);
    assert t == s[i..i + |t|];
    forall k | 0 <= k < |u|
      ensures s[i + j..i + j + |u|][k] == u[k]
    {
      assert u[k] == t[j + k] == s[i + j + k];
    }
    assert s[i + j..i + j + |u|] == u;
    assert OccursAt(s, u, i + j);
  }

  /** `s.find(sub)`: the first index at which `sub` occurs, if any. */
  function Find(s: string, sub: string): (r: Option<nat>)
    ensures r.Some? ==> OccursAt(s, sub, r.value)
    ensures r.Some? ==> forall i :: 0 <= i < r.value ==> !OccursAt(s, sub, i)
    ensures r.None? <==> !Contains(s, sub)
    decreases |s|
  {
    if StartsWith(s, sub) then
      assert OccursAt(s, sub, 0);
      Some(0)
    else if s == [] then None
    else
      var rest := Find(s[1..], sub);
      FindStep(s, sub, rest);
      if rest.None? then None else Some(rest.value + 1)
  }

  /** One character dropped from the front: the tail's first occurrence, one
      further on, is the first occurrence in `s` when `s` does not start with
      `sub`. */
  lemma FindStep(s: string, sub: string, rest: Option<nat>)
    requires s != [] && !StartsWith(s, sub)
    requires rest.Some? ==> OccursAt(s[1..], sub, rest.value)
    requires rest.Some? ==> forall i :: 0 <= i < rest.value ==> !OccursAt(s[1..], sub, i)
    requires rest.None? <==> !Contains(s[1..], sub)
    ensures rest.None? ==> !Contains(s, sub)
    ensures rest.Some? ==> Contains(s, sub) && OccursAt(s, sub, rest.value + 1)
    ensures rest.Some? ==> forall i :: 0 <= i < rest.value + 1 ==> !OccursAt(s, sub, i)
  {
    if rest.Some? {
      var j := rest.value;
      assert s[j + 1..j + 1 + |sub|] == s[1..][j..j + |sub|];
      forall i | 0 <= i < j + 1
        ensures !OccursAt(s, sub, i)
      {
        if i == 0 {
          assert s[..|sub|] == s[0..|sub|];
        } else {
          assert s[1..][i - 1..i - 1 + |sub|] == s[i..i + |sub|];
          assert OccursAt(s, sub, i) == OccursAt(s[1..], sub, i - 1);
        }
      }
    }
  }

  /** First index of character `c` in `s`, if any. */
  function IndexOf(s: string, c: char): (r: Option<nat>)
    ensures r.Some? ==> r.value < |s| && s[r.value] == c && c !in s[..r.value]
    ensures r.None? ==> c !in s
  {
    if s == [] then None
    else if s[0] == c then Some(0)
    else match IndexOf(s[1..], c)
      case None => None
      case Some(k) => assert s[..k + 1] == [s[0]] + s[1..][..k]; Some(k + 1)
  }

  /** Last index of character `c` in `s`, if any. */
  function LastIndexOf(s: string, c: char): (r: Option<nat>)
    ensures r.Some? ==> r.value < |s| && s[r.value] == c && c !in s[r.value + 1..]
    ensures r.None? ==> c !in s
  {
    if s == [] then None
    else if s[|s| - 1] == c then Some(|s| - 1)
    else
      var r := LastIndexOf(s[..|s| - 1], c);
      assert r.Some? ==> s[r.value + 1..] == s[..|s| - 1][r.value + 1..] + [s[|s| - 1]];
      assert r.None? ==> s == s[..|s| - 1] + [s[|s| - 1]];
      r
  }

  // ------------------------------------------------------------ stripping

  function LStrip(s: string): (r: string)
    ensures |r| <= |s| && r == s[|s| - |r|..]
    ensures forall k :: 0 <= k < |s| - |r| ==> IsSpace(s[k])
    ensures r == [] || !IsSpace(r[0])
  {
    if s != [] && IsSpace(s[0]) then LStrip(s[1..]) else s
  }

  function RStrip(s: string): (r: string)
    ensures |r| <= |s| && r == s[..|r|]
    ensures forall k :: |r| <= k < |s| ==> IsSpace(s[k])
    ensures r == [] || !IsSpace(r[|r| - 1])
  {
    if s != [] && IsSpace(s[|s| - 1]) then RStrip(s[..|s| - 1]) else s
  }

  /** `s` is `r`, found at index `i`, with only whitespace around it. */
  predicate PaddedAt(s: string, r: string, i: int)
  {
    && OccursAt(s, r, i)
    && (forall k :: 0 <= k < i ==> IsSpace(s[k]))
    && (forall k :: i + |r| <= k < |s| ==> IsSpace(s[k]))
  }

  /** `str.strip()`: `s` is `r` surrounded by whitespace only, and `r` neither
      starts nor ends with whitespace. */
  function Strip(s: string): (r: string)
    ensures exists i :: PaddedAt(s, r, i)
    ensures r == [] || (!IsSpace(r[0]) && !IsSpace(r[|r| - 1]))
  {
    var l := LStrip(s);
    var r := RStrip(l);
    StripPadded(s, l, r);
    r
  }

  /** Whitespace cut from the left and then from the right leaves the rest
      in place, with only whitespace around it. */
  lemma StripPadded(s: string, l: string, r: string)
    requires |l| <= |s| && l == s[|s| - |l|..] && forall k :: 0 <= k < |s| - |l| ==> IsSpace(s[k])
    requires l == [] || !IsSpace(l[0])
    requires |r| <= |l| && r == l[..|r|] && forall k :: |r| <= k < |l| ==> IsSpace(l[k])
    requires r == [] || !IsSpace(r[|r| - 1])
    ensures PaddedAt(s, r, |s| - |l|)
    ensures r == [] || (!IsSpace(r[0]) && !IsSpace(r[|r| - 1]))
  {
    assert r == [] || r[0] == l[0];
    var i := |s| - |l|;
    assert s[i..i + |r|] == r;
    forall k | i + |r| <= k < |s| ensures IsSpace(s[k]) {
      assert s[k] == l[k - i];
    }
  }

  /** A string without surrounding whitespace is its own strip. */
  lemma StripNoop(s: string)
    requires s == [] || (!IsSpace(s[0]) && !IsSpace(s[|s| - 1]))
    ensures Strip(s) == s
  {
  }

  // ------------------------------------------------------- split and join

  /** `s.split(c)` for a one-character separator: never empty, and no piece
      contains the separator. */
  function Split(s: string, c: char): (r: seq<string>)
    ensures |r| >= 1
    ensures forall k :: 0 <= k < |r| ==> c !in r[k]
    decreases |s|
  {
    if s == [] then [""]
    else
      var rest := Split(s[1..], c);
      if s[0] == c then [""] + rest
      else [[s[0]] + rest[0]] + rest[1..]
  }

  /** `c.join(pieces)` for a one-character separator. */
  function Join(pieces: seq<string>, c: char): string
    requires |pieces| >= 1
    decreases |pieces|
  {
    if |pieces| == 1 then pieces[0] else pieces[0] + [c] + Join(pieces[1..], c)
  }

  /** Splitting and joining on the same separator gives back the string. */
  lemma {:induction false} JoinSplit(s: string, c: char)
    ensures Join(Split(s, c), c) == s
    decreases |s|
  {
    if s != [] {
      JoinSplit(s[1..], c);
      var rest := Split(s[1..], c);
      if s[0] != c {
        var r := Split(s, c);
        if |rest| > 1 {
          assert r[1..] == rest[1..];
          assert Join(r, c) == [s[0]] + rest[0] + [c] + Join(rest[1..], c);
        }
      }
    }
  }

  /** `sep.join(parts)` for a string separator (empty for no parts). */
  function JoinWith(sep: string, parts: seq<string>): string
    decreases |parts|
  {
    if parts == [] then ""
    else if |parts| == 1 then parts[0]
    else parts[0] + sep + JoinWith(sep, parts[1..])
  }

  /** Every part appears inside the joined string. */
  lemma {:induction false} JoinWithContainsPart(sep: string, parts: seq<string>, k: nat)
    requires k < |parts|
    ensures exists i :: OccursAt(JoinWith(sep, parts), parts[k], i)
    decreases |parts|
  {
    var j := JoinWith(sep, parts);
    if |parts| == 1 {
      assert j[0..|parts[0]|] == parts[0];
      assert OccursAt(j, parts[k], 0);
    } else if k == 0 {
      assert j[0..|parts[0]|] == parts[0];
      assert OccursAt(j, parts[k], 0);
    } else {
      JoinWithContainsPart(sep, parts[1..], k - 1);
      var t := JoinWith(sep, parts[1..]);
      var i :| OccursAt(t, parts[k], i);
      var off := |parts[0]| + |sep|;
      assert j == parts[0] + sep + t;
      assert j[off + i..off + i + |parts[k]|] == t[i..i + |parts[k]|];
      assert OccursAt(j, parts[k], off + i);
    }
  }

  /** `s.replace(p, "")`: every non-overlapping occurrence of `p`, scanning left
      to right, is removed. */
  function RemoveAll(s: string, p: string): (r: string)
    requires p != []
    ensures |r| <= |s|
    decreases |s|
  {
    if s == [] then []
    else if StartsWith(s, p) then RemoveAll(s[|p|..], p)
    else [s[0]] + RemoveAll(s[1..], p)
  }

  // ------------------------------------------------------ decimal numbers

  function DigitChar(d: nat): (c: char)
    requires d < 10
    ensures IsDigit(c) && c as int - '0' as int == d
  {
    ('0' as int + d) as char
  }

  /** `str(n)` for a natural number: decimal digits, no leading zero. */
  function NatToString(n: nat): (r: string)
    ensures |r| >= 1 && forall k :: 0 <= k < |r| ==> IsDigit(r[k])
    decreases n
  {
    if n < 10 then [DigitChar(n)] else NatToString(n / 10) + [DigitChar(n % 10)]
  }

  /** `str(n)` for an integer. */
  function IntToString(n: int): string
  {
    if n < 0 then "-" + NatToString(-n) else NatToString(n)
  }

  /** The value of a string of decimal digits. */
  function DigitsValue(s: string): nat
    requires forall k :: 0 <= k < |s| ==> IsDigit(s[k])
    decreases |s|
  {
    if s == [] then 0
    else
      assert IsDigit(s[|s| - 1]);
      var d: nat := s[|s| - 1] as int - '0' as int;
      DigitsValue(s[..|s| - 1]) * 10 + d
  }

  predicate AllDigits(s: string)
  {
    forall k :: 0 <= k < |s| ==> IsDigit(s[k])
  }

  /** `int(s)` for a string: surrounding whitespace, an optional sign, then one
      or more ASCII digits; anything else is a ValueError (`None`). */
  function ParseInt(s: string): Option<int>
  {
    var t := Strip(s);
    var neg := t != [] && t[0] == '-';
    var body := if t != [] && (t[0] == '-' || t[0] == '+') then t[1..] else t;
    if body != [] && AllDigits(body) then
      var v: int := DigitsValue(body);
      Some(if neg then -v else v)
    else None
  }

  lemma {:induction false} DigitsValueOfNat(n: nat)
    ensures DigitsValue(NatToString(n)) == n
    decreases n
  {
    if n >= 10 {
      DigitsValueOfNat(n / 10);
      var s := NatToString(n);
      assert s[..|s| - 1] == NatToString(n / 10);
    }
  }

  /** Decimal conversion round-trips: `int(str(n)) == n`. */
  lemma IntStringRoundTrip(n: int)
    ensures ParseInt(IntToString(n)) == Some(n)
  {
    var m: nat := if n < 0 then -n else n;
    DigitsValueOfNat(m);
    if n < 0 {
      var s := IntToString(n);
      assert s[0] == '-' && s[1..] == NatToString(m) && IsDigit(s[|s| - 1]);
      NegativeParse(s);
    } else {
      DigitsParse(NatToString(m));
    }
  }

  /** A string of digits parses to its value. */
  lemma DigitsParse(digits: string)
    requires digits != [] && AllDigits(digits)
    ensures ParseInt(digits) == Some(DigitsValue(digits))
  {
    assert IsDigit(digits[0]) && IsDigit(digits[|digits| - 1]);
    StripNoop(digits);
  }

  /** A minus sign followed by digits parses to the negated value. */
  lemma NegativeParse(s: string)
    requires |s| >= 2 && s[0] == '-' && AllDigits(s[1..]) && IsDigit(s[|s| - 1])
    ensures var v: int := DigitsValue(s[1..]); ParseInt(s) == Some(-v)
  {
    StripNoop(s);
  }

  /** `f"{int(time.time())}_{name}"`: a name prefixed with a timestamp to
      avoid collisions. */
  function Stamped(now: nat, name: string): (r: string)
    ensures |r| > |name|
  {
    NatToString(now) + "_" + name
  }

  /** A stamped name gives back the timestamp and the original name: the
      timestamp has no underscore, so the first one separates them. */
  lemma StampedRoundTrip(now: nat, name: string)
    ensures var n := Stamped(now, name);
      && IndexOf(n, '_').Some?
      && n[IndexOf(n, '_').value + 1..] == name
      && n[..IndexOf(n, '_').value] == NatToString(now)
      && DigitsValue(n[..IndexOf(n, '_').value]) == now
  {
    var stamp := NatToString(now);
    var n := stamp + "_" + name;
    NatToStringNoChar(now, '_');
    assert n[|stamp|] == '_';
    assert n[..|stamp|] == stamp;
    assert IndexOf(n, '_') == Some(|stamp|);
    assert n[|stamp| + 1..] == name;
    DigitsValueOfNat(now);
  }

  /** The decimal text of a number never contains a given non-digit character. */
  lemma NatToStringNoChar(n: nat, c: char)
    requires !IsDigit(c)
    ensures c !in NatToString(n)
  {
  }
}
