/** The connection history table: one row per completed check, pruned to the
    newest entries of each connection, with the queries the dashboard runs over
    it (median latency, status counts in a time window, chart window).
    "Ordered by timestamp, newest first" is modelled by `NewestFirst`; rows with
    equal timestamps are ordered newest-inserted first. */
module History {
  import opened Common

  /** Rows kept per connection after each insert. */
  const MaxEntriesPerConnection: nat := 50
  /** Default number of recent UP samples the median looks at. */
  const DefaultMedianPeriods: nat := 10
  /** Default window of the status counts, in hours. */
  const DefaultCountHours: int := 24

  datatype HistoryEntry = HistoryEntry(
    id: nat,
    connectionId: int,
    timestamp: int,
    status: string,
    responseTime: Option<real>,
    errorMessage: Option<string>)

  // ------------------------------------------------- newest-first ordering

  /** `a` may come before `b` when rows are listed newest first. */
  predicate NewerOrSame(a: HistoryEntry, b: HistoryEntry)
  {
    a.timestamp > b.timestamp || (a.timestamp == b.timestamp && a.id >= b.id)
  }

  predicate NewestFirstSorted(s: seq<HistoryEntry>)
  {
    forall i, j :: 0 <= i < j < |s| ==> NewerOrSame(s[i], s[j])
  }

  /** One row inserted into a newest-first list in front of the first row it
      is at least as new as. */
  function InsertNewest(e: HistoryEntry, s: seq<HistoryEntry>): (r: seq<HistoryEntry>)
    ensures multiset(r) == multiset(s) + multiset{e}
    ensures |r| == |s| + 1
  {
    if s == [] || NewerOrSame(e, s[0]) then [e] + s
    else
      assert s == [s[0]] + s[1..];
      [s[0]] + InsertNewest(e, s[1..])
  }

  lemma {:induction false} InsertNewestSorted(e: HistoryEntry, s: seq<HistoryEntry>)
    requires NewestFirstSorted(s)
    ensures NewestFirstSorted(InsertNewest(e, s))
  {
    var r := InsertNewest(e, s);
    if s == [] || NewerOrSame(e, s[0]) {
      forall i, j | 0 <= i < j < |r| ensures NewerOrSame(r[i], r[j]) {
        if i == 0 {
          assert r[j] == s[j - 1];
          if j - 1 > 0 { assert NewerOrSame(s[0], s[j - 1]); }
        } else {
          assert r[i] == s[i - 1] && r[j] == s[j - 1];
        }
      }
    } else {
      var tail := InsertNewest(e, s[1..]);
      InsertNewestSorted(e, s[1..]);
      assert r == [s[0]] + tail;
      forall i, j | 0 <= i < j < |r| ensures NewerOrSame(r[i], r[j]) {
        if i == 0 {
          assert r[j] == tail[j - 1];
          assert tail[j - 1] in multiset(tail);
          assert tail[j - 1] == e || tail[j - 1] in multiset(s[1..]);
          if tail[j - 1] != e {
            var k :| 0 <= k < |s[1..]| && s[1..][k] == tail[j - 1];
            assert s[1 + k] == tail[j - 1];
          }
        } else {
          assert r[i] == tail[i - 1] && r[j] == tail[j - 1];
        }
      }
    }
  }

  /** The rows of `s` listed newest first: a sorted permutation of `s`. */
  function NewestFirst(s: seq<HistoryEntry>): (r: seq<HistoryEntry>)
    ensures forall x :: x in r <==> x in s
    ensures NewestFirstSorted(r)
    ensures multiset(r) == multiset(s)
    ensures |r| == |s|
  {
    if s == [] then []
    else
      assert s == [s[0]] + s[1..];
      var t := NewestFirst(s[1..]);
      InsertNewestSorted(s[0], t);
      var r := InsertNewest(s[0], t);
      assert forall x :: x in r <==> x in multiset(r);
      r
  }

  /** `.order_by(timestamp.desc()).limit(k)`. */
  function Newest(s: seq<HistoryEntry>, k: nat): seq<HistoryEntry>
  {
    var r := NewestFirst(s);
    r[..if k < |r| then k else |r|]
  }

  /** `.order_by(timestamp.desc()).offset(k)`. */
  function BeyondNewest(s: seq<HistoryEntry>, k: nat): seq<HistoryEntry>
  {
    var r := NewestFirst(s);
    r[if k < |r| then k else |r|..]
  }

  /** Splitting the ordered rows at `k`: the first part has `min(k, |s|)` rows,
      both parts together are the rows of `s`, and every row of the first part
      is at least as new as every row of the second. */
  lemma NewestSplit(s: seq<HistoryEntry>, k: nat)
    ensures |Newest(s, k)| == if k < |s| then k else |s|
    ensures multiset(Newest(s, k)) + multiset(BeyondNewest(s, k)) == multiset(s)
    ensures NewestFirstSorted(Newest(s, k))
    ensures forall x :: x in Newest(s, k) ==> x in s
    ensures forall x :: x in BeyondNewest(s, k) ==> x in s
    ensures forall x, y :: x in Newest(s, k) && y in BeyondNewest(s, k) ==> NewerOrSame(x, y)
  {
    var r := NewestFirst(s);
    var m := if k < |r| then k else |r|;
    assert r == r[..m] + r[m..];
    forall x, y | x in Newest(s, k) && y in BeyondNewest(s, k) ensures NewerOrSame(x, y) {
      var i :| 0 <= i < m && r[i] == x;
      var j :| 0 <= j < |r| - m && r[m..][j] == y;
      assert r[m + j] == y;
    }
  }

  // --------------------------------------------------------- table helpers

  /** `.filter_by(connection_id=cid)`, keeping table order. */
  function ForConnection(t: seq<HistoryEntry>, cid: int): (r: seq<HistoryEntry>)
    ensures forall x :: x in r <==> x in t && x.connectionId == cid
    ensures |r| <= |t|
  {
    if t == [] then []
    else (if t[0].connectionId == cid then [t[0]] else []) + ForConnection(t[1..], cid)
  }

  /** The table after deleting every row listed in `del`. */
  function Without(t: seq<HistoryEntry>, del: seq<HistoryEntry>): (r: seq<HistoryEntry>)
    ensures forall x :: x in r <==> x in t && x !in del
  {
    if t == [] then []
    else (if t[0] in del then [] else [t[0]]) + Without(t[1..], del)
  }

  lemma {:induction false} WithoutMore(t: seq<HistoryEntry>, a: seq<HistoryEntry>, x: HistoryEntry)
    ensures Without(Without(t, a), [x]) == Without(t, a + [x])
  {
    if t != [] {
      WithoutMore(t[1..], a, x);
      var w := Without(t, a);
      if t[0] in a {
        assert w == Without(t[1..], a);
      } else {
        assert w == [t[0]] + Without(t[1..], a);
        assert w[1..] == Without(t[1..], a);
      }
    }
  }

  lemma WithoutPrefixStep(t: seq<HistoryEntry>, del: seq<HistoryEntry>, i: nat)
    requires i < |del|
    ensures Without(Without(t, del[..i]), [del[i]]) == Without(t, del[..i + 1])
  {
    WithoutMore(t, del[..i], del[i]);
    assert del[..i + 1] == del[..i] + [del[i]];
  }

  lemma WithoutPrefixStart(t: seq<HistoryEntry>, del: seq<HistoryEntry>)
    ensures Without(t, del[..0]) == t
  {
    WithoutNothing(t, del[..0]);
  }

  lemma {:induction false} WithoutNothing(t: seq<HistoryEntry>, del: seq<HistoryEntry>)
    requires forall x :: x in t ==> x !in del
    ensures Without(t, del) == t
  {
    if t != [] {
      WithoutNothing(t[1..], del);
    }
  }

  lemma {:induction false} ForConnectionWithout(t: seq<HistoryEntry>, del: seq<HistoryEntry>, c: int)
    ensures ForConnection(Without(t, del), c) == Without(ForConnection(t, c), del)
  {
    if t != [] {
      ForConnectionWithout(t[1..], del, c);
      var w := Without(t, del);
      if t[0] in del {
        assert w == Without(t[1..], del);
      } else {
        assert w == [t[0]] + Without(t[1..], del);
        assert w[1..] == Without(t[1..], del);
      }
      var f := ForConnection(t, c);
      if t[0].connectionId == c {
        assert f == [t[0]] + ForConnection(t[1..], c);
        assert f[1..] == ForConnection(t[1..], c);
      } else {
        assert f == ForConnection(t[1..], c);
      }
    }
  }

  /** Each row of `s` once: ids are unique. */
  predicate UniqueIds(s: seq<HistoryEntry>)
  {
    forall i, j :: 0 <= i < j < |s| ==> s[i].id != s[j].id
  }

  lemma {:induction false} UniqueIdsTail(s: seq<HistoryEntry>)
    requires s != [] && UniqueIds(s)
    ensures UniqueIds(s[1..]) && s[0] !in s[1..]
  {
    forall j | 0 <= j < |s| - 1 ensures s[1..][j] != s[0] {
      assert s[1..][j] == s[j + 1];
    }
  }

  lemma {:induction false} UniqueIdsWithout(t: seq<HistoryEntry>, del: seq<HistoryEntry>)
    requires UniqueIds(t)
    ensures UniqueIds(Without(t, del))
  {
    if t != [] {
      UniqueIdsTail(t);
      UniqueIdsWithout(t[1..], del);
      var w := Without(t[1..], del);
      forall x | x in w ensures x.id != t[0].id {
        var j :| 0 <= j < |t| - 1 && t[1..][j] == x;
        assert t[j + 1] == x;
      }
    }
  }

  lemma {:induction false} UniqueIdsForConnection(t: seq<HistoryEntry>, c: int)
    requires UniqueIds(t)
    ensures UniqueIds(ForConnection(t, c))
  {
    if t != [] {
      UniqueIdsTail(t);
      UniqueIdsForConnection(t[1..], c);
      var f := ForConnection(t[1..], c);
      forall x | x in f ensures x.id != t[0].id {
        var j :| 0 <= j < |t| - 1 && t[1..][j] == x;
        assert t[j + 1] == x;
      }
    }
  }

  /** A table with unique ids holds each row at most once. */
  lemma {:induction false} UniqueIdsMultiplicity(s: seq<HistoryEntry>, x: HistoryEntry)
    requires UniqueIds(s)
    ensures multiset(s)[x] <= 1
  {
    if s != [] {
      UniqueIdsTail(s);
      UniqueIdsMultiplicity(s[1..], x);
      assert s == [s[0]] + s[1..];
      if x == s[0] {
        assert multiset(s[1..])[x] == 0;
      }
    }
  }

  lemma {:induction false} WithoutMultiplicity(t: seq<HistoryEntry>, del: seq<HistoryEntry>, x: HistoryEntry)
    ensures multiset(Without(t, del))[x] == if x in del then 0 else multiset(t)[x]
  {
    if t != [] {
      WithoutMultiplicity(t[1..], del, x);
      assert t == [t[0]] + t[1..];
    }
  }

  /** Deleting `b` from a duplicate-free table that splits into `a` and `b`
      leaves exactly `a`. */
  lemma WithoutSplit(u: seq<HistoryEntry>, a: seq<HistoryEntry>, b: seq<HistoryEntry>)
    requires UniqueIds(u)
    requires multiset(u) == multiset(a) + multiset(b)
    ensures multiset(Without(u, b)) == multiset(a)
  {
    forall x ensures multiset(Without(u, b))[x] == multiset(a)[x] {
      WithoutMultiplicity(u, b, x);
      UniqueIdsMultiplicity(u, x);
      if x in b {
        assert multiset(b)[x] >= 1;
      }
    }
  }

  // ------------------------------------------------------------- pruning

  /** The rows `add_check_result` deletes: those of `cid` past the newest 50. */
  function Surplus(t: seq<HistoryEntry>, cid: int): seq<HistoryEntry>
  {
    BeyondNewest(ForConnection(t, cid), MaxEntriesPerConnection)
  }

  /** The table after pruning connection `cid`. */
  function Pruned(t: seq<HistoryEntry>, cid: int): seq<HistoryEntry>
  {
    Without(t, Surplus(t, cid))
  }

  /** Pruning never touches another connection's history. */
  lemma PruneKeepsOthers(t: seq<HistoryEntry>, cid: int, other: int)
    requires other != cid
    ensures ForConnection(Pruned(t, cid), other) == ForConnection(t, other)
  {
    var u := ForConnection(t, cid);
    var s := Surplus(t, cid);
    NewestSplit(u, MaxEntriesPerConnection);
    forall x | x in s ensures x.connectionId == cid {
      assert x in multiset(s);
      assert x in multiset(u);
    }
    ForConnectionWithout(t, s, other);
    WithoutNothing(ForConnection(t, other), s);
  }

  /** After pruning, connection `cid` holds exactly its 50 newest rows (as a
      multiset; all of them when it had fewer), so never more than 50. */
  lemma PruneKeepsNewest(t: seq<HistoryEntry>, cid: int)
    requires UniqueIds(t)
    ensures multiset(ForConnection(Pruned(t, cid), cid))
         == multiset(Newest(ForConnection(t, cid), MaxEntriesPerConnection))
    ensures |ForConnection(Pruned(t, cid), cid)|
         == if |ForConnection(t, cid)| < MaxEntriesPerConnection then |ForConnection(t, cid)|
            else MaxEntriesPerConnection
  {
    var u := ForConnection(t, cid);
    var s := Surplus(t, cid);
    NewestSplit(u, MaxEntriesPerConnection);
    UniqueIdsForConnection(t, cid);
    ForConnectionWithout(t, s, cid);
    WithoutSplit(u, Newest(u, MaxEntriesPerConnection), s);
    assert |multiset(ForConnection(Pruned(t, cid), cid))| == |ForConnection(Pruned(t, cid), cid)|;
  }

  /** Each kept row of `cid` is at least as new as each deleted one. */
  lemma PruneDropsOldest(t: seq<HistoryEntry>, cid: int, kept: HistoryEntry, dropped: HistoryEntry)
    requires kept in ForConnection(Pruned(t, cid), cid)
    requires dropped in Surplus(t, cid)
    ensures dropped !in Pruned(t, cid)
    ensures NewerOrSame(kept, dropped)
  {
    var u := ForConnection(t, cid);
    NewestSplit(u, MaxEntriesPerConnection);
    assert kept in multiset(u);
    assert kept !in multiset(Surplus(t, cid));
  }

  /** A row strictly newer than every other row of `u` comes first once ordered. */
  lemma NewestRowFirst(u: seq<HistoryEntry>, e: HistoryEntry)
    requires e in u
    requires forall x :: x in u && x != e ==> x.timestamp <= e.timestamp && x.id < e.id
    ensures |NewestFirst(u)| > 0 && NewestFirst(u)[0] == e
  {
    var r := NewestFirst(u);
    var i :| 0 <= i < |r| && r[i] == e;
    if i > 0 {
      assert NewerOrSame(r[0], r[i]);
      assert r[0] in u;
    }
  }

  /** With unique ids, the first ordered row is never beyond the first `k > 0`. */
  lemma FirstNotBeyond(u: seq<HistoryEntry>, k: nat)
    requires UniqueIds(u) && |u| > 0 && k > 0
    ensures NewestFirst(u)[0] !in BeyondNewest(u, k)
  {
    var r := NewestFirst(u);
    var m := if k < |r| then k else |r|;
    var b := BeyondNewest(u, k);
    assert b == r[m..];
    UniqueIdsMultiplicity(u, r[0]);
    assert r == r[..m] + b;
    assert r[0] in r[..m];
  }

  /** With a clock that never runs backwards, the row just inserted is never
      among the deleted ones. */
  lemma FreshEntrySurvives(t: seq<HistoryEntry>, e: HistoryEntry)
    requires UniqueIds(t + [e])
    requires forall x :: x in t ==> x.id < e.id
    requires forall x :: x in t && x.connectionId == e.connectionId ==> x.timestamp <= e.timestamp
    ensures e in Pruned(t + [e], e.connectionId)
  {
    var t' := t + [e];
    var u := ForConnection(t', e.connectionId);
    assert e in u;
    forall x | x in u && x != e
      ensures x.timestamp <= e.timestamp && x.id < e.id
    {
      assert x in t;
    }
    NewestRowFirst(u, e);
    UniqueIdsForConnection(t', e.connectionId);
    FirstNotBeyond(u, MaxEntriesPerConnection);
  }

  // ------------------------------------------------------------- queries

  /** Rows that take part in the median: UP with a recorded latency. */
  predicate QualifiesForMedian(e: HistoryEntry)
  {
    e.status == UP && e.responseTime.Some?
  }

  function FilterQualifying(s: seq<HistoryEntry>): (r: seq<HistoryEntry>)
    ensures forall x :: x in r <==> x in s && QualifiesForMedian(x)
  {
    if s == [] then []
    else (if QualifiesForMedian(s[0]) then [s[0]] else []) + FilterQualifying(s[1..])
  }

  function Latencies(s: seq<HistoryEntry>): (r: seq<real>)
    requires forall x :: x in s ==> x.responseTime.Some?
    ensures |r| == |s|
    ensures forall k :: 0 <= k < |s| ==> r[k] == s[k].responseTime.value
  {
    seq(|s|, k requires 0 <= k < |s| => s[k].responseTime.value)
  }

  /** The rows `get_median_response_time` reads: the `periods` newest qualifying
      rows of `cid`, newest first; every qualifying row left out is no newer
      than any row taken. */
  function MedianSample(t: seq<HistoryEntry>, cid: int, periods: nat): (r: seq<HistoryEntry>)
    ensures forall x :: x in r ==> x in t && x.connectionId == cid && QualifiesForMedian(x)
    ensures var q := FilterQualifying(ForConnection(t, cid));
      && |r| == (if periods < |q| then periods else |q|)
      && NewestFirstSorted(r)
      && multiset(r) <= multiset(q)
      && forall x, y :: x in r && y in multiset(q) - multiset(r) ==> NewerOrSame(x, y)
  {
    var q := FilterQualifying(ForConnection(t, cid));
    var r := Newest(q, periods);
    NewestSplit(q, periods);
    assert forall x :: x in r ==> x in multiset(q);
    assert multiset(q) - multiset(r) == multiset(BeyondNewest(q, periods));
    r
  }

  lemma MedianSampleSize(t: seq<HistoryEntry>, cid: int, periods: nat)
    ensures |MedianSample(t, cid, periods)| <= periods
    ensures |MedianSample(t, cid, periods)| == 0 <==> periods == 0 || FilterQualifying(ForConnection(t, cid)) == []
  {
    NewestSplit(FilterQualifying(ForConnection(t, cid)), periods);
  }

  /** `get_median_response_time`: `None` when nothing qualifies, otherwise the
      median of the sampled latencies. */
  function MedianResponseTime(t: seq<HistoryEntry>, cid: int, periods: nat): (r: Option<real>)
    ensures r.None? <==> MedianSample(t, cid, periods) == []
    ensures r.Some? ==> r.value == Median(Latencies(MedianSample(t, cid, periods)))
  {
    var sample := MedianSample(t, cid, periods);
    if sample == [] then None else Some(Median(Latencies(sample)))
  }

  // -------------------------------------------------------------- median

  predicate SortedReals(s: seq<real>)
  {
    forall i, j :: 0 <= i < j < |s| ==> s[i] <= s[j]
  }

  /** One value inserted into an ascending list in front of the first value
      it does not exceed. */
  function InsertReal(x: real, s: seq<real>): (r: seq<real>)
    ensures multiset(r) == multiset(s) + multiset{x} && |r| == |s| + 1
  {
    if s == [] || x <= s[0] then [x] + s
    else
      assert s == [s[0]] + s[1..];
      [s[0]] + InsertReal(x, s[1..])
  }

  lemma {:induction false} InsertRealSorted(x: real, s: seq<real>)
    requires SortedReals(s)
    ensures SortedReals(InsertReal(x, s))
  {
    var r := InsertReal(x, s);
    if s == [] || x <= s[0] {
      forall i, j | 0 <= i < j < |r| ensures r[i] <= r[j] {
        assert r[j] == s[j - 1];
        if i > 0 {
          assert r[i] == s[i - 1];
        } else {
          assert s[0] <= s[j - 1];
        }
      }
    } else {
      var tail := InsertReal(x, s[1..]);
      InsertRealSorted(x, s[1..]);
      assert r == [s[0]] + tail;
      forall i, j | 0 <= i < j < |r| ensures r[i] <= r[j] {
        assert r[j] == tail[j - 1];
        if i > 0 {
          assert r[i] == tail[i - 1];
        } else {
          assert r[j] in multiset(tail);
          if r[j] != x {
            assert r[j] in multiset(s[1..]);
            var k :| 0 <= k < |s| - 1 && s[1..][k] == r[j];
            assert s[0] <= s[k + 1];
          }
        }
      }
    }
  }

  /** The values in ascending order: a sorted permutation of `s`. */
  function SortReals(s: seq<real>): (r: seq<real>)
    ensures SortedReals(r) && multiset(r) == multiset(s) && |r| == |s|
  {
    if s == [] then []
    else
      assert s == [s[0]] + s[1..];
      var t := SortReals(s[1..]);
      InsertRealSorted(s[0], t);
      InsertReal(s[0], t)
  }

  /** `statistics.median`: the middle value of the sorted data, or the mean of
      the two middle values for an even count. */
  function Median(v: seq<real>): real
    requires v != []
  {
    Middle(SortReals(v))
  }

  function Middle(s: seq<real>): real
    requires s != []
  {
    var n := |s|;
    if n % 2 == 1 then s[n / 2] else (s[n / 2 - 1] + s[n / 2]) / 2.0
  }

  function CountAtMost(s: seq<real>, m: real): nat
  {
    if s == [] then 0 else (if s[0] <= m then 1 else 0) + CountAtMost(s[1..], m)
  }

  function CountAtLeast(s: seq<real>, m: real): nat
  {
    if s == [] then 0 else (if s[0] >= m then 1 else 0) + CountAtLeast(s[1..], m)
  }

  lemma {:induction false} CountConcat(a: seq<real>, b: seq<real>, m: real)
    ensures CountAtMost(a + b, m) == CountAtMost(a, m) + CountAtMost(b, m)
    ensures CountAtLeast(a + b, m) == CountAtLeast(a, m) + CountAtLeast(b, m)
  {
    if a == [] {
      assert a + b == b;
    } else {
      CountConcat(a[1..], b, m);
      assert (a + b)[0] == a[0];
      assert (a + b)[1..] == a[1..] + b;
    }
  }

  lemma CountRemove(b: seq<real>, k: nat, m: real)
    requires k < |b|
    ensures CountAtMost(b, m) == (if b[k] <= m then 1 else 0) + CountAtMost(b[..k] + b[k + 1..], m)
    ensures CountAtLeast(b, m) == (if b[k] >= m then 1 else 0) + CountAtLeast(b[..k] + b[k + 1..], m)
  {
    var tail := [b[k]] + b[k + 1..];
    assert b == b[..k] + tail;
    CountConcat(b[..k], tail, m);
    CountConcat(b[..k], b[k + 1..], m);
    assert tail[0] == b[k];
    assert tail[1..] == b[k + 1..];
  }

  lemma MultisetRemove(a: seq<real>, b: seq<real>, k: nat)
    requires a != [] && k < |b| && b[k] == a[0] && multiset(a) == multiset(b)
    ensures multiset(b[..k] + b[k + 1..]) == multiset(a[1..])
  {
    assert a == [a[0]] + a[1..];
    assert b == b[..k] + [b[k]] + b[k + 1..];
    assert multiset(b) == multiset(b[..k]) + multiset{b[k]} + multiset(b[k + 1..]);
    assert multiset(b[..k] + b[k + 1..]) == multiset(b[..k]) + multiset(b[k + 1..]);
    assert multiset(a) == multiset{a[0]} + multiset(a[1..]);
    forall x ensures multiset(b[..k] + b[k + 1..])[x] == multiset(a[1..])[x] {
      assert multiset(a)[x] == multiset(b)[x];
    }
  }

  lemma {:induction false} CountPermutation(a: seq<real>, b: seq<real>, m: real)
    requires multiset(a) == multiset(b)
    ensures CountAtMost(a, m) == CountAtMost(b, m)
    ensures CountAtLeast(a, m) == CountAtLeast(b, m)
    decreases |a|
  {
    if a == [] {
      assert |b| == |multiset(b)| == 0;
    } else {
      assert a[0] in multiset(b);
      var k :| 0 <= k < |b| && b[k] == a[0];
      MultisetRemove(a, b, k);
      CountPermutation(a[1..], b[..k] + b[k + 1..], m);
      CountRemove(b, k, m);
    }
  }

  lemma {:induction false} CountAllAtMost(s: seq<real>, m: real)
    requires forall k :: 0 <= k < |s| ==> s[k] <= m
    ensures CountAtMost(s, m) == |s|
  {
    if s != [] {
      CountAllAtMost(s[1..], m);
    }
  }

  lemma {:induction false} CountAllAtLeast(s: seq<real>, m: real)
    requires forall k :: 0 <= k < |s| ==> s[k] >= m
    ensures CountAtLeast(s, m) == |s|
  {
    if s != [] {
      CountAllAtLeast(s[1..], m);
    }
  }

  /** In sorted data, everything before index `lo` at or below `m` gives at
      least `lo` values at or below `m`. */
  lemma SortedPrefixAtMost(s: seq<real>, lo: nat, m: real)
    requires lo <= |s| && forall k :: 0 <= k < lo ==> s[k] <= m
    ensures CountAtMost(s, m) >= lo
  {
    assert s == s[..lo] + s[lo..];
    CountAllAtMost(s[..lo], m);
    CountConcat(s[..lo], s[lo..], m);
  }

  lemma SortedSuffixAtLeast(s: seq<real>, hi: nat, m: real)
    requires hi <= |s| && forall k :: hi <= k < |s| ==> s[k] >= m
    ensures CountAtLeast(s, m) >= |s| - hi
  {
    assert s == s[..hi] + s[hi..];
    CountAllAtLeast(s[hi..], m);
    CountConcat(s[..hi], s[hi..], m);
  }

  lemma {:induction false} MiddleOfSorted(s: seq<real>)
    requires s != [] && SortedReals(s)
    ensures 2 * CountAtMost(s, Middle(s)) >= |s|
    ensures 2 * CountAtLeast(s, Middle(s)) >= |s|
    ensures s[0] <= Middle(s) <= s[|s| - 1]
  {
    var n := |s|;
    var m := Middle(s);
    var lo := if n % 2 == 1 then n / 2 + 1 else n / 2;
    var hi := n / 2;
    assert s[hi] >= m && s[lo - 1] <= m by {
      if n % 2 == 0 {
        assert s[n / 2 - 1] <= s[n / 2];
      }
    }
    assert forall k :: 0 <= k < lo ==> s[k] <= m by {
      forall k | 0 <= k < lo ensures s[k] <= m {
        if k < lo - 1 {
          assert s[k] <= s[lo - 1];
        }
      }
    }
    assert forall k :: hi <= k < n ==> s[k] >= m by {
      forall k | hi <= k < n ensures s[k] >= m {
        if k > hi {
          assert s[hi] <= s[k];
        }
      }
    }
    SortedPrefixAtMost(s, lo, m);
    SortedSuffixAtLeast(s, hi, m);
  }

  /** The median is a median in the textbook sense: at least half of the values
      lie at or below it and at least half at or above it; in particular it lies
      between the smallest and the largest value. */
  lemma MedianIsMiddle(v: seq<real>)
    requires v != []
    ensures 2 * CountAtMost(v, Median(v)) >= |v|
    ensures 2 * CountAtLeast(v, Median(v)) >= |v|
    ensures exists i :: 0 <= i < |v| && v[i] <= Median(v)
    ensures exists j :: 0 <= j < |v| && Median(v) <= v[j]
  {
    var s := SortReals(v);
    MiddleOfSorted(s);
    CountPermutation(v, s, Median(v));
    assert s[0] in multiset(v);
    assert s[|s| - 1] in multiset(v);
  }

  /** The median of a single sample is that sample. */
  lemma MedianOfOne(x: real)
    ensures Median([x]) == x
  {
    assert SortReals([x]) == InsertReal(x, []);
  }

  // ------------------------------------------------------- status window

  /** Rows of `cid` with `timestamp >= cutoff`, in table order. */
  function InWindow(t: seq<HistoryEntry>, cid: int, cutoff: int): (r: seq<HistoryEntry>)
    ensures forall x :: x in r <==> x in t && x.connectionId == cid && x.timestamp >= cutoff
  {
    if t == [] then []
    else
      (if t[0].connectionId == cid && t[0].timestamp >= cutoff then [t[0]] else [])
      + InWindow(t[1..], cid, cutoff)
  }

  function CountStatus(s: seq<HistoryEntry>, status: string): nat
  {
    if s == [] then 0
    else CountStatus(s[..|s| - 1], status) + (if s[|s| - 1].status == status then 1 else 0)
  }

  lemma {:induction false} CountStatusAbsent(s: seq<HistoryEntry>, status: string)
    requires forall k :: 0 <= k < |s| ==> s[k].status != status
    ensures CountStatus(s, status) == 0
  {
    if s != [] {
      CountStatusAbsent(s[..|s| - 1], status);
    }
  }

  function Statuses(s: seq<HistoryEntry>): set<string>
  {
    set k | 0 <= k < |s| :: s[k].status
  }

  /** Sum of the values of a map. */
  ghost function SumValues(m: map<string, nat>): nat
    decreases |m.Keys|
  {
    if m == map[] then 0
    else
      var k :| k in m;
      m[k] + SumValues(m - {k})
  }

  lemma {:induction false} SumValuesRemove(m: map<string, nat>, k: string)
    requires k in m
    ensures SumValues(m) == m[k] + SumValues(m - {k})
    decreases |m.Keys|
  {
    var j :| j in m && SumValues(m) == m[j] + SumValues(m - {j});
    if j != k {
      SumValuesRemove(m - {j}, k);
      SumValuesRemove(m - {k}, j);
      assert m - {j} - {k} == m - {k} - {j};
    }
  }

  lemma SumValuesIncrement(m: map<string, nat>, k: string)
    ensures SumValues(m[k := (if k in m then m[k] else 0) + 1]) == SumValues(m) + 1
  {
    var m' := m[k := (if k in m then m[k] else 0) + 1];
    SumValuesRemove(m', k);
    assert m' - {k} == m - {k};
    if k in m {
      SumValuesRemove(m, k);
    } else {
      assert m - {k} == m;
    }
  }

  /** `counts` tallies the statuses of `s` on top of the three fixed keys. */
  predicate CountsOf(counts: map<string, nat>, s: seq<HistoryEntry>)
  {
    && counts.Keys == {UP, DOWN, UNKNOWN} + Statuses(s)
    && forall k :: k in counts ==> counts[k] == CountStatus(s, k)
  }

  /** `counts[status] = counts.get(status, 0) + 1`. */
  function Bump(counts: map<string, nat>, status: string): (r: map<string, nat>)
    ensures r.Keys == counts.Keys + {status}
    ensures r[status] == (if status in counts then counts[status] else 0) + 1
    ensures forall k :: k in counts && k != status ==> r[k] == counts[k]
  {
    counts[status := (if status in counts then counts[status] else 0) + 1]
  }

  lemma SumValuesZero(m: map<string, nat>)
    requires forall k :: k in m ==> m[k] == 0
    ensures SumValues(m) == 0
    decreases |m.Keys|
  {
    if m != map[] {
      var k :| k in m;
      SumValuesRemove(m, k);
      SumValuesZero(m - {k});
    }
  }

  lemma CountStep(counts: map<string, nat>, w: seq<HistoryEntry>, i: nat)
    requires i < |w| && CountsOf(counts, w[..i])
    ensures CountsOf(Bump(counts, w[i].status), w[..i + 1])
  {
    var s := w[i].status;
    var p := w[..i];
    var q := w[..i + 1];
    assert q[..i] == p && q[i] == w[i];
    assert Statuses(q) == Statuses(p) + {s} by {
      forall x | x in Statuses(q) ensures x in Statuses(p) + {s} {
        var k :| 0 <= k < |q| && q[k].status == x;
        if k < i {
          assert p[k] == q[k];
        }
      }
      forall x | x in Statuses(p) ensures x in Statuses(q) {
        var k :| 0 <= k < |p| && p[k].status == x;
        assert q[k] == p[k];
      }
    }
    if s !in counts {
      forall k | 0 <= k < i ensures p[k].status != s {
        assert p[k].status in Statuses(p);
      }
      CountStatusAbsent(p, s);
    }
  }

  /** Before any row is counted, the three known statuses stand at zero. */
  lemma CountsStart(w: seq<HistoryEntry>)
    ensures CountsOf(map[UP := 0, DOWN := 0, UNKNOWN := 0], w[..0])
    ensures SumValues(map[UP := 0, DOWN := 0, UNKNOWN := 0]) == 0
  {
    SumValuesZero(map[UP := 0, DOWN := 0, UNKNOWN := 0]);
    assert Statuses(w[..0]) == {};
  }

  /** Each row once; also: every listed row is still in the table. */
  predicate ValidTable(t: seq<HistoryEntry>, nextId: nat)
  {
    UniqueIds(t) && forall k :: 0 <= k < |t| ==> t[k].id < nextId
  }

  /** The chart window: at most `limit` newest rows of `cid`, oldest first. */
  function ChartWindow(t: seq<HistoryEntry>, cid: int, limit: nat): seq<HistoryEntry>
  {
    Reversed(Newest(ForConnection(t, cid), limit))
  }

  /** `reversed(s)`: the element at `k` is the one `k` places from the end. */
  function Reversed<T>(s: seq<T>): (r: seq<T>)
    ensures |r| == |s|
    ensures forall k :: 0 <= k < |s| ==> r[k] == s[|s| - 1 - k]
  {
    if s == [] then [] else Reversed(s[1..]) + [s[0]]
  }

  /** Reversing keeps exactly the same rows. */
  lemma ReversedMembers(s: seq<HistoryEntry>)
    ensures forall x :: x in Reversed(s) <==> x in s
  {
    var r := Reversed(s);
    forall x | x in s ensures x in r {
      var k :| 0 <= k < |s| && s[k] == x;
      assert r[|s| - 1 - k] == x;
    }
  }

  /** The chart window holds `min(limit, n)` rows, all of them rows of `cid`. */
  lemma ChartWindowContents(t: seq<HistoryEntry>, cid: int, limit: nat)
    ensures |ChartWindow(t, cid, limit)|
         == if limit < |ForConnection(t, cid)| then limit else |ForConnection(t, cid)|
    ensures forall x :: x in ChartWindow(t, cid, limit) ==> x in t && x.connectionId == cid
  {
    var u := ForConnection(t, cid);
    var w := Newest(u, limit);
    NewestSplit(u, limit);
    ReversedMembers(w);
  }

  /** The chart window is in chronological order, oldest first. */
  lemma ChartWindowOrder(t: seq<HistoryEntry>, cid: int, limit: nat)
    ensures forall i, j :: 0 <= i < j < |ChartWindow(t, cid, limit)| ==>
              NewerOrSame(ChartWindow(t, cid, limit)[j], ChartWindow(t, cid, limit)[i])
  {
    NewestSplit(ForConnection(t, cid), limit);
    ReversedOldestFirst(Newest(ForConnection(t, cid), limit));
  }

  lemma ReversedOldestFirst(w: seq<HistoryEntry>)
    requires NewestFirstSorted(w)
    ensures forall i, j :: 0 <= i < j < |Reversed(w)| ==> NewerOrSame(Reversed(w)[j], Reversed(w)[i])
  {
    var c := Reversed(w);
    forall i, j | 0 <= i < j < |c| ensures NewerOrSame(c[j], c[i]) {
      assert c[j] == w[|w| - 1 - j] && c[i] == w[|w| - 1 - i];
    }
  }

  /** None of the rows of `cid` left out of the chart window is newer than a
      shown one. */
  lemma ChartWindowNewest(t: seq<HistoryEntry>, cid: int, limit: nat)
    ensures forall x, y :: x in ChartWindow(t, cid, limit) && y in BeyondNewest(ForConnection(t, cid), limit)
              ==> NewerOrSame(x, y)
  {
    NewestSplit(ForConnection(t, cid), limit);
    ReversedMembers(Newest(ForConnection(t, cid), limit));
  }

  /** Appending a row with the next id keeps the table valid. */
  lemma AppendValid(t: seq<HistoryEntry>, n: nat, e: HistoryEntry)
    requires ValidTable(t, n) && e.id == n
    ensures ValidTable(t + [e], n + 1)
  {
  }

  /** Deleting rows keeps the table valid. */
  lemma WithoutValid(t: seq<HistoryEntry>, n: nat, del: seq<HistoryEntry>)
    requires ValidTable(t, n)
    ensures ValidTable(Without(t, del), n)
  {
    UniqueIdsWithout(t, del);
    var w := Without(t, del);
    forall k | 0 <= k < |w| ensures w[k].id < n {
      assert w[k] in t;
    }
  }

  /** The history table of all connections. */
  class HistoryStore {
    var entries: seq<HistoryEntry>
    var nextId: nat

    ghost predicate Valid()
      reads this
    {
      ValidTable(entries, nextId)
    }

    constructor ()
      ensures Valid() && entries == [] && nextId == 0
    {
      entries := [];
      nextId := 0;
    }

    /** `add_check_result`: inserts one row with exactly the given fields, then
        deletes the rows of that connection past its 50 newest. */
    method AddCheckResult(connectionId: int, status: string, responseTime: Option<real>,
                          errorMessage: Option<string>, now: int)
      returns (entry: HistoryEntry)
      requires Valid()
      modifies this
      ensures Valid()
      ensures entry == HistoryEntry(old(nextId), connectionId, now, status, responseTime, errorMessage)
      ensures nextId == old(nextId) + 1
      ensures entries == Pruned(old(entries) + [entry], connectionId)
    {
      entry := HistoryEntry(nextId, connectionId, now, status, responseTime, errorMessage);
      AppendValid(entries, nextId, entry);
      entries := entries + [entry];
      nextId := nextId + 1;
      ghost var added := entries;
      var oldEntries := Surplus(entries, connectionId);
      WithoutPrefixStart(added, oldEntries);
      for i := 0 to |oldEntries|
        invariant entries == Without(added, oldEntries[..i])
        invariant nextId == old(nextId) + 1
      {
        WithoutPrefixStep(added, oldEntries, i);
        entries := Without(entries, [oldEntries[i]]);
      }
      assert oldEntries[..|oldEntries|] == oldEntries;
      assert added == old(entries) + [entry];
      WithoutValid(added, nextId, oldEntries);
    }

    /** `get_recent_status_counts`: counts per status of the rows of `cid`
        stamped at or after `now - hours`; "up", "down" and "unknown" are always
        present, and the counts add up to the number of rows in the window. */
    method RecentStatusCounts(cid: int, hours: int, now: int) returns (counts: map<string, nat>)
      ensures counts.Keys == {UP, DOWN, UNKNOWN} + Statuses(InWindow(entries, cid, now - hours * 3600))
      ensures forall k :: k in counts ==> counts[k] == CountStatus(InWindow(entries, cid, now - hours * 3600), k)
      ensures SumValues(counts) == |InWindow(entries, cid, now - hours * 3600)|
    {
      var window := InWindow(entries, cid, now - hours * 3600);
      counts := map[UP := 0, DOWN := 0, UNKNOWN := 0];
      CountsStart(window);
      for i := 0 to |window|
        invariant CountsOf(counts, window[..i])
        invariant SumValues(counts) == i
      {
        CountStep(counts, window, i);
        SumValuesIncrement(counts, window[i].status);
        counts := Bump(counts, window[i].status);
      }
      assert window[..|window|] == window;
    }
  }
}
