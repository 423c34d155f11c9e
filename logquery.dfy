/** The in-memory part of the filtered log query (`getUserFromToLimit`):
    filter the stored log by the inclusive `from`/`to` bounds, sort it by
    date, keep the first `limit` entries and project them.

    Dates are compared as instants. Turning a date text into an instant
    (`new Date(text).getTime()`) is locale- and time-zone-dependent library
    behaviour, so every member takes it as a parameter `key`. */
module LogQuery {
  import opened Records

  /** The instant, in milliseconds, that a date text denotes. */
  type DateKey = string -> int

  /** JavaScript truthiness of a query-string parameter: it is present and
      not the empty string. */
  predicate Given(p: Option<string>)
  {
    p.Some? && p.value != ""
  }

  function Min(a: int, b: int): (m: int)
  {
    if a <= b then a else b
  }

  // ---------------------------------------------------------------------
  // Filter
  // ---------------------------------------------------------------------

  /** The filter callback: reject an exercise dated before `from` or after
      `to`, each test applying only when its bound is given. Its early
      returns keep exactly the exercises of the inclusive range. */
  function Keep(key: DateKey, from: Option<string>, to: Option<string>, e: Exercise): (kept: bool)
    ensures kept <==> InRange(key, from, to, e)
  {
    if Given(from) && key(e.date) < key(from.value) then false
    else if Given(to) && key(e.date) > key(to.value) then false
    else true
  }

  /** The date range the query selects: both bounds inclusive, and a bound
      that is not given does not restrict. */
  predicate InRange(key: DateKey, from: Option<string>, to: Option<string>, e: Exercise)
  {
    && (Given(from) ==> key(from.value) <= key(e.date))
    && (Given(to) ==> key(e.date) <= key(to.value))
  }

  /** `log.filter(...)`: the stored exercises the callback keeps, in stored order. */
  function Filter(key: DateKey, from: Option<string>, to: Option<string>, log: seq<Exercise>): (r: seq<Exercise>)
    ensures |r| <= |log|
    ensures forall i :: 0 <= i < |r| ==> r[i] in log && InRange(key, from, to, r[i])
  {
    if log == [] then []
    else (if Keep(key, from, to, log[0]) then [log[0]] else []) + Filter(key, from, to, log[1..])
  }

  /** `a` can be obtained from `b` by deleting elements. */
  ghost predicate IsSubsequence<T>(a: seq<T>, b: seq<T>)
    decreases |b|
  {
    if a == [] then true
    else if b == [] then false
    else (a[0] == b[0] && IsSubsequence(a[1..], b[1..])) || IsSubsequence(a, b[1..])
  }

  /** Filtering keeps the stored order: the result is a subsequence of the log. */
  lemma {:induction false} FilterIsSubsequence(key: DateKey, from: Option<string>, to: Option<string>, log: seq<Exercise>)
    ensures IsSubsequence(Filter(key, from, to, log), log)
  {
    if log != [] {
      var rest := Filter(key, from, to, log[1..]);
      FilterIsSubsequence(key, from, to, log[1..]);
      if Keep(key, from, to, log[0]) {
        assert Filter(key, from, to, log) == [log[0]] + rest;
        assert ([log[0]] + rest)[1..] == rest;
      } else {
        assert Filter(key, from, to, log) == rest;
      }
    }
  }

  /** Filtering keeps exactly the stored exercises inside the range, each as
      often as it is stored, and nothing else. */
  lemma {:induction false} FilterCounts(key: DateKey, from: Option<string>, to: Option<string>, log: seq<Exercise>, e: Exercise)
    ensures multiset(Filter(key, from, to, log))[e] == if InRange(key, from, to, e) then multiset(log)[e] else 0
  {
    if log != [] {
      var x, rest := log[0], log[1..];
      FilterCounts(key, from, to, rest, e);
      assert log == [x] + rest;
      if Keep(key, from, to, x) {
        assert Filter(key, from, to, log) == [x] + Filter(key, from, to, rest);
      } else {
        assert Filter(key, from, to, log) == Filter(key, from, to, rest);
        assert x == e ==> !InRange(key, from, to, e);
      }
    }
  }

  // ---------------------------------------------------------------------
  // Sort
  // ---------------------------------------------------------------------

  /** Non-decreasing date order. */
  ghost predicate SortedBy(key: DateKey, s: seq<Exercise>)
  {
    forall i, j :: 0 <= i < j < |s| ==> key(s[i].date) <= key(s[j].date)
  }

  /** Places `x` after every element of the sorted `s` whose date is not
      later than its own. */
  function Insert(key: DateKey, s: seq<Exercise>, x: Exercise): (r: seq<Exercise>)
    ensures |r| == |s| + 1
    ensures multiset(r) == multiset(s) + multiset{x}
    decreases |s|
  {
    if s == [] then [x]
    else if key(s[|s| - 1].date) <= key(x.date) then s + [x]
    else
      assert s == s[..|s| - 1] + [s[|s| - 1]];
      Insert(key, s[..|s| - 1], x) + [s[|s| - 1]]
  }

  /** `log.sort(...)` with the three-way date comparator. `Array.prototype.sort`
      is required to be stable from ECMAScript 2019 on (V8 7.0, Node 11), so
      exercises with the same date keep their relative order; insertion sort
      has the same result. An older engine may order equal dates otherwise. */
  function Sort(key: DateKey, s: seq<Exercise>): (r: seq<Exercise>)
    ensures |r| == |s|
    decreases |s|
  {
    if s == [] then [] else Insert(key, Sort(key, s[..|s| - 1]), s[|s| - 1])
  }

  /** Inserting keeps every date at or below a bound that `s` and `x` respect. */
  lemma {:induction false} InsertBounded(key: DateKey, s: seq<Exercise>, x: Exercise, b: int)
    requires forall i :: 0 <= i < |s| ==> key(s[i].date) <= b
    requires key(x.date) <= b
    ensures forall i :: 0 <= i < |Insert(key, s, x)| ==> key(Insert(key, s, x)[i].date) <= b
  {
    if s != [] && key(x.date) < key(s[|s| - 1].date) {
      InsertBounded(key, s[..|s| - 1], x, b);
    }
  }

  lemma {:induction false} InsertSorted(key: DateKey, s: seq<Exercise>, x: Exercise)
    requires SortedBy(key, s)
    ensures SortedBy(key, Insert(key, s, x))
  {
    if s != [] && key(x.date) < key(s[|s| - 1].date) {
      var init, last := s[..|s| - 1], s[|s| - 1];
      assert SortedBy(key, init);
      InsertSorted(key, init, x);
      InsertBounded(key, init, x, key(last.date));
      assert Insert(key, s, x) == Insert(key, init, x) + [last];
    }
  }

  /** The sorted log is in non-decreasing date order and is a permutation of
      its input. */
  lemma {:induction false} SortSortsAndPermutes(key: DateKey, s: seq<Exercise>)
    ensures SortedBy(key, Sort(key, s))
    ensures multiset(Sort(key, s)) == multiset(s)
  {
    if s == [] {
    } else {
      var init, last := s[..|s| - 1], s[|s| - 1];
      assert s == init + [last];
      SortSortsAndPermutes(key, init);
      InsertSorted(key, Sort(key, init), last);
    }
  }

  /** The exercises of `s` dated at instant `k`, in their order in `s`. */
  function WithKey(key: DateKey, s: seq<Exercise>, k: int): (r: seq<Exercise>)
  {
    if s == [] then [] else (if key(s[0].date) == k then [s[0]] else []) + WithKey(key, s[1..], k)
  }

  lemma {:induction false} WithKeyAppend(key: DateKey, a: seq<Exercise>, b: seq<Exercise>, k: int)
    ensures WithKey(key, a + b, k) == WithKey(key, a, k) + WithKey(key, b, k)
  {
    if a == [] {
      assert a + b == b;
    } else {
      assert (a + b)[1..] == a[1..] + b;
      WithKeyAppend(key, a[1..], b, k);
    }
  }

  lemma {:induction false} InsertStable(key: DateKey, s: seq<Exercise>, x: Exercise, k: int)
    ensures WithKey(key, Insert(key, s, x), k) == WithKey(key, s, k) + WithKey(key, [x], k)
  {
    assert [x][1..] == [];
    if s == [] {
    } else if key(s[|s| - 1].date) <= key(x.date) {
      WithKeyAppend(key, s, [x], k);
    } else {
      var init, last := s[..|s| - 1], s[|s| - 1];
      assert s == init + [last];
      assert [last][1..] == [];
      InsertStable(key, init, x, k);
      WithKeyAppend(key, Insert(key, init, x), [last], k);
      WithKeyAppend(key, init, [last], k);
    }
  }

  /** Sorting is stable: the exercises sharing any one date keep their
      stored relative order. */
  lemma {:induction false} SortStable(key: DateKey, s: seq<Exercise>, k: int)
    ensures WithKey(key, Sort(key, s), k) == WithKey(key, s, k)
  {
    if s != [] {
      var init, last := s[..|s| - 1], s[|s| - 1];
      assert s == init + [last];
      SortStable(key, init, k);
      InsertStable(key, Sort(key, init), last, k);
      WithKeyAppend(key, init, [last], k);
    }
  }

  // ---------------------------------------------------------------------
  // Limit
  // ---------------------------------------------------------------------

  /** `if (limit) log = log.slice(0, limit)`. `None` stands for a limit that
      is absent or the empty string, both falsy; `Some(n)` for a non-empty
      numeric string, which is truthy even when it reads "0". */
  function Truncate(s: seq<Exercise>, limit: Option<nat>): (r: seq<Exercise>)
    ensures limit.None? ==> r == s
    ensures limit.Some? ==> |r| == Min(limit.value, |s|) && r == s[..|r|]
  {
    if limit.Some? && limit.value < |s| then s[..limit.value] else s
  }

  // ---------------------------------------------------------------------
  // The whole pipeline
  // ---------------------------------------------------------------------

  /** The `log` of the filtered response: filter, then sort, then limit,
      then project. */
  function SelectLog(key: DateKey, from: Option<string>, to: Option<string>, limit: Option<nat>, log: seq<Exercise>): (r: seq<LogEntry>)
    ensures |r| <= |log|
    ensures limit.Some? ==> |r| <= limit.value
  {
    Project(Truncate(Sort(key, Filter(key, from, to, log)), limit))
  }

  /** What the filtered log promises: its length is that of the filtered log
      cut to `limit`; every entry lies within the given bounds; the entries
      are in date order; and the result is a prefix of the whole sorted,
      filtered log. */
  lemma SelectLogSpec(key: DateKey, from: Option<string>, to: Option<string>, limit: Option<nat>, log: seq<Exercise>)
    ensures var r := SelectLog(key, from, to, limit, log);
            |r| == if limit.Some? then Min(limit.value, |Filter(key, from, to, log)|) else |Filter(key, from, to, log)|
    ensures var r := SelectLog(key, from, to, limit, log);
            forall i :: 0 <= i < |r| ==>
              && (Given(from) ==> key(from.value) <= key(r[i].date))
              && (Given(to) ==> key(r[i].date) <= key(to.value))
    ensures var r := SelectLog(key, from, to, limit, log);
            forall i, j :: 0 <= i < j < |r| ==> key(r[i].date) <= key(r[j].date)
    ensures var r := SelectLog(key, from, to, limit, log);
            r == Project(Sort(key, Filter(key, from, to, log)))[..|r|]
  {
    var f := Filter(key, from, to, log);
    SortSortsAndPermutes(key, f);
    SortedInRange(key, from, to, log);
    LimitThenProject(key, from, to, Sort(key, f), limit);
  }

  /** Limiting and projecting a sorted log within the bounds keeps it sorted
      and within the bounds, and gives a prefix of its projection. */
  lemma LimitThenProject(key: DateKey, from: Option<string>, to: Option<string>, sorted: seq<Exercise>, limit: Option<nat>)
    requires SortedBy(key, sorted)
    requires forall i :: 0 <= i < |sorted| ==> InRange(key, from, to, sorted[i])
    ensures var r := Project(Truncate(sorted, limit));
            |r| == if limit.Some? then Min(limit.value, |sorted|) else |sorted|
    ensures var r := Project(Truncate(sorted, limit));
            forall i :: 0 <= i < |r| ==>
              && (Given(from) ==> key(from.value) <= key(r[i].date))
              && (Given(to) ==> key(r[i].date) <= key(to.value))
    ensures var r := Project(Truncate(sorted, limit));
            forall i, j :: 0 <= i < j < |r| ==> key(r[i].date) <= key(r[j].date)
    ensures var r := Project(Truncate(sorted, limit));
            r == Project(sorted)[..|r|]
  {
  }

  /** Sorting the filtered log keeps every entry within the bounds. */
  lemma SortedInRange(key: DateKey, from: Option<string>, to: Option<string>, log: seq<Exercise>)
    ensures forall i :: 0 <= i < |Sort(key, Filter(key, from, to, log))| ==>
              InRange(key, from, to, Sort(key, Filter(key, from, to, log))[i])
  {
    var f := Filter(key, from, to, log);
    var sorted := Sort(key, f);
    SortSortsAndPermutes(key, f);
    forall i | 0 <= i < |sorted|
      ensures InRange(key, from, to, sorted[i])
    {
      assert sorted[i] in multiset(sorted);
      assert sorted[i] in multiset(f);
      var j :| 0 <= j < |f| && f[j] == sorted[i];
    }
  }

  /** A date reading for the example below. */
  function ExampleKey(t: string): (instant: int)
  {
    if t == "Thu Jan 05 2023" then 20230105
    else if t == "Wed Mar 01 2023" then 20230301
    else if t == "Wed Feb 15 2023" then 20230215
    else if t == "2023-02-01" then 20230201
    else 0
  }

  /** Three exercises stored in the order 5 January, 1 March, 15 February
      2023, queried from 1 February, give 15 February then 1 March; with a
      limit of one, only 15 February. */
  lemma FromFebruaryExample(jan: Exercise, mar: Exercise, feb: Exercise)
    requires jan == Exercise("alice", "run", "30", "Thu Jan 05 2023")
    requires mar == Exercise("alice", "swim", "20", "Wed Mar 01 2023")
    requires feb == Exercise("alice", "lift", "45", "Wed Feb 15 2023")
    ensures SelectLog(ExampleKey, Some("2023-02-01"), None, None, [jan, mar, feb])
            == [LogEntry("lift", "45", "Wed Feb 15 2023"), LogEntry("swim", "20", "Wed Mar 01 2023")]
    ensures SelectLog(ExampleKey, Some("2023-02-01"), None, Some(1), [jan, mar, feb])
            == [LogEntry("lift", "45", "Wed Feb 15 2023")]
  {
    ExampleFilter(jan, mar, feb);
    ExampleSort(mar, feb);
    ExampleTail(feb, mar);
  }

  /** Limiting and projecting the sorted example log. */
  lemma ExampleTail(feb: Exercise, mar: Exercise)
    requires feb == Exercise("alice", "lift", "45", "Wed Feb 15 2023")
    requires mar == Exercise("alice", "swim", "20", "Wed Mar 01 2023")
    ensures Project(Truncate([feb, mar], None))
            == [LogEntry("lift", "45", "Wed Feb 15 2023"), LogEntry("swim", "20", "Wed Mar 01 2023")]
    ensures Project(Truncate([feb, mar], Some(1))) == [LogEntry("lift", "45", "Wed Feb 15 2023")]
  {
    assert Truncate([feb, mar], Some(1)) == [feb];
  }

  lemma ExampleFilter(jan: Exercise, mar: Exercise, feb: Exercise)
    requires jan.date == "Thu Jan 05 2023" && mar.date == "Wed Mar 01 2023" && feb.date == "Wed Feb 15 2023"
    ensures Filter(ExampleKey, Some("2023-02-01"), None, [jan, mar, feb]) == [mar, feb]
  {
    var key, from := ExampleKey, Some("2023-02-01");
    var log := [jan, mar, feb];
    assert !Keep(key, from, None, jan) && Keep(key, from, None, mar) && Keep(key, from, None, feb);
    assert log[1..] == [mar, feb] && log[1..][1..] == [feb] && log[1..][1..][1..] == [];
    assert Filter(key, from, None, [feb]) == [feb];
    assert Filter(key, from, None, [mar, feb]) == [mar, feb];
  }

  lemma ExampleSort(mar: Exercise, feb: Exercise)
    requires mar.date == "Wed Mar 01 2023" && feb.date == "Wed Feb 15 2023"
    ensures Sort(ExampleKey, [mar, feb]) == [feb, mar]
  {
    assert [mar, feb][..1] == [mar] && [mar][..0] == [];
    assert Sort(ExampleKey, [mar]) == [mar];
    assert Insert(ExampleKey, [mar], feb) == [feb, mar];
  }
}
