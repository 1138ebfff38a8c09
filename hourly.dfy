/**
 * The hourly half of the data synthesis: the shards of one day (one per
 * traffic type, access type and domain) map hour names to point lists; the
 * callback concatenates them hour by hour, in shard order, and then sorts
 * each hour's points by descending view count.
 */
module HourlyMerge {
  import opened Points
  import opened JsText

  /** One day's shard payload: hour name ("0".."23") to its points. */
  type HourlyShard = map<string, seq<Point>>

  // ----- what the merge computes -----

  /** Every hour some shard mentions. */
  function HourKeys(rs: seq<HourlyShard>): set<string>
  {
    if rs == [] then {} else HourKeys(rs[..|rs| - 1]) + rs[|rs| - 1].Keys
  }

  /** An hour is merged exactly when some shard mentions it. */
  lemma {:induction false} HourKeysMembers(rs: seq<HourlyShard>, h: string)
    ensures h in HourKeys(rs) <==> exists n :: 0 <= n < |rs| && h in rs[n]
  {
    if rs != [] {
      var init := rs[..|rs| - 1];
      HourKeysMembers(init, h);
      if h in HourKeys(init) {
        var n :| 0 <= n < |init| && h in init[n];
        assert rs[n] == init[n];
      }
      if exists n :: 0 <= n < |rs| && h in rs[n] {
        var n :| 0 <= n < |rs| && h in rs[n];
        if n < |init| {
          assert init[n] == rs[n];
        }
      }
    }
  }

  /** The points of hour `h`, shard after shard, each shard's list in its own order. */
  function Collected(rs: seq<HourlyShard>, h: string): seq<Point>
  {
    if rs == [] then []
    else if h in rs[|rs| - 1] then Collected(rs[..|rs| - 1], h) + rs[|rs| - 1][h]
    else Collected(rs[..|rs| - 1], h)
  }

  /** The merged day: each mentioned hour with its collected points. */
  function Merged(rs: seq<HourlyShard>): map<string, seq<Point>>
  {
    map h | h in HourKeys(rs) :: Collected(rs, h)
  }

  lemma {:induction false} CollectedAbsent(rs: seq<HourlyShard>, h: string)
    requires h !in HourKeys(rs)
    ensures Collected(rs, h) == []
  {
    if rs != [] {
      CollectedAbsent(rs[..|rs| - 1], h);
    }
  }

  lemma {:induction false} MergedStep(rs: seq<HourlyShard>, n: nat)
    requires n < |rs|
    ensures HourKeys(rs[..n + 1]) == HourKeys(rs[..n]) + rs[n].Keys
    ensures forall h :: Collected(rs[..n + 1], h)
                     == if h in rs[n] then Collected(rs[..n], h) + rs[n][h] else Collected(rs[..n], h)
  {
    assert rs[..n + 1][..n] == rs[..n];
  }

  /**
   * The merge loop of the hourly callback: for each shard, first give every
   * hour it mentions an empty list if the result has none, then append the
   * shard's points for each of its hours.
   */
  method MergeHourly(responses: seq<HourlyShard>) returns (result: map<string, seq<Point>>)
    ensures result == Merged(responses)
    ensures result.Keys == HourKeys(responses)
  {
    result := map[];
    for n := 0 to |responses|
      invariant result.Keys == HourKeys(responses[..n])
      invariant forall h :: h in result ==> result[h] == Collected(responses[..n], h)
    {
      ghost var before := result;
      result := AddEmptyHours(result, responses[n]);
      forall h | h in result
        ensures result[h] == Collected(responses[..n], h)
      {
        if h !in before {
          CollectedAbsent(responses[..n], h);
        }
      }
      result := AppendHours(result, responses[n]);
      MergedStep(responses, n);
    }
    assert responses[..|responses|] == responses;
  }

  /** The first inner loop: every hour of the shard gets a list, empty when new. */
  method AddEmptyHours(result: map<string, seq<Point>>, response: HourlyShard)
    returns (r: map<string, seq<Point>>)
    ensures r.Keys == result.Keys + response.Keys
    ensures forall h :: h in r ==> r[h] == if h in result then result[h] else []
  {
    r := result;
    var pending := response.Keys;
    while pending != {}
      invariant pending <= response.Keys
      invariant r.Keys == result.Keys + (response.Keys - pending)
      invariant forall h :: h in r ==> r[h] == if h in result then result[h] else []
      decreases pending
    {
      var hour :| hour in pending;
      if hour !in r {
        r := r[hour := []];
      }
      pending := pending - {hour};
    }
  }

  /** The second inner loop: append the shard's points to each of its hours. */
  method AppendHours(result: map<string, seq<Point>>, response: HourlyShard)
    returns (r: map<string, seq<Point>>)
    requires response.Keys <= result.Keys
    ensures r.Keys == result.Keys
    ensures forall h :: h in r ==> r[h] == if h in response then result[h] + response[h] else result[h]
  {
    r := result;
    var pending := response.Keys;
    while pending != {}
      invariant pending <= response.Keys
      invariant r.Keys == result.Keys
      invariant forall h :: h in r ==>
        r[h] == if h in response && h !in pending then result[h] + response[h] else result[h]
      decreases pending
    {
      var hour :| hour in pending;
      r := r[hour := r[hour] + response[hour]];
      pending := pending - {hour};
    }
  }

  // ----- the stable sort by descending view count -----

  predicate Descending(s: seq<Point>)
  {
    forall i, j :: 0 <= i < j < |s| ==> s[i].y >= s[j].y
  }

  /** Insert `p` before the first point whose count does not exceed its own. */
  function Insert(p: Point, s: seq<Point>): seq<Point>
  {
    if s == [] || s[0].y <= p.y then [p] + s else [s[0]] + Insert(p, s[1..])
  }

  /**
   * `points.sort(byViewsDesc)`: the comparator returns 1 when the first count
   * is smaller, -1 when larger and 0 on a tie, and the sort is stable, so
   * this is the stable descending sort, written as insertion sort.
   */
  function SortDesc(s: seq<Point>): seq<Point>
  {
    if s == [] then [] else Insert(s[0], SortDesc(s[1..]))
  }

  /** The sort only reorders: same points, same number of times each. */
  lemma {:induction false} SortDescPermutes(s: seq<Point>)
    ensures multiset(SortDesc(s)) == multiset(s)
  {
    if s != [] {
      SortDescPermutes(s[1..]);
      InsertMultiset(s[0], SortDesc(s[1..]));
      assert s == [s[0]] + s[1..];
    }
  }

  /** Higher view counts come first. */
  lemma {:induction false} SortDescOrders(s: seq<Point>)
    ensures Descending(SortDesc(s))
  {
    if s != [] {
      SortDescOrders(s[1..]);
      InsertDescending(s[0], SortDesc(s[1..]));
    }
  }

  lemma {:induction false} InsertMultiset(p: Point, s: seq<Point>)
    ensures multiset(Insert(p, s)) == multiset(s) + multiset{p}
  {
    if s != [] && s[0].y > p.y {
      InsertMultiset(p, s[1..]);
      assert s == [s[0]] + s[1..];
    }
  }

  lemma {:induction false} InsertDescending(p: Point, s: seq<Point>)
    requires Descending(s)
    ensures Descending(Insert(p, s))
  {
    if s == [] || s[0].y <= p.y {
      DescendingCons(p, s);
    } else {
      InsertDescending(p, s[1..]);
      InsertBounded(p, s[1..], s[0].y);
      DescendingCons(s[0], Insert(p, s[1..]));
    }
  }

  /** Inserting a point no larger than a bound into points no larger than it. */
  lemma {:induction false} InsertBounded(p: Point, s: seq<Point>, b: int)
    requires p.y <= b && forall i :: 0 <= i < |s| ==> s[i].y <= b
    ensures forall i :: 0 <= i < |Insert(p, s)| ==> Insert(p, s)[i].y <= b
  {
    if s != [] && s[0].y > p.y {
      InsertBounded(p, s[1..], b);
      var t := Insert(p, s[1..]);
      assert forall i :: 1 <= i < |[s[0]] + t| ==> ([s[0]] + t)[i] == t[i - 1];
    }
  }

  lemma DescendingCons(x: Point, t: seq<Point>)
    requires Descending(t)
    requires forall i :: 0 <= i < |t| ==> t[i].y <= x.y
    ensures Descending([x] + t)
  {
    var r := [x] + t;
    forall i, j | 0 <= i < j < |r|
      ensures r[i].y >= r[j].y
    {
      assert r[j] == t[j - 1];
      if i > 0 {
        assert r[i] == t[i - 1];
      }
    }
  }

  /** The points with view count `v`, in order. */
  function WithViews(s: seq<Point>, v: int): seq<Point>
  {
    if s == [] then []
    else if s[0].y == v then [s[0]] + WithViews(s[1..], v)
    else WithViews(s[1..], v)
  }

  lemma {:induction false} InsertWithViews(p: Point, s: seq<Point>, v: int)
    ensures WithViews(Insert(p, s), v) == if p.y == v then [p] + WithViews(s, v) else WithViews(s, v)
  {
    if s == [] || s[0].y <= p.y {
      assert ([p] + s)[1..] == s;
    } else {
      var t := Insert(p, s[1..]);
      InsertWithViews(p, s[1..], v);
      assert ([s[0]] + t)[1..] == t;
    }
  }

  /** Stability: points with equal view counts keep their relative order. */
  lemma {:induction false} SortStable(s: seq<Point>, v: int)
    ensures WithViews(SortDesc(s), v) == WithViews(s, v)
  {
    if s != [] {
      SortStable(s[1..], v);
      InsertWithViews(s[0], SortDesc(s[1..]), v);
    }
  }

  lemma {:induction false} WithViewsWitness(s: seq<Point>, v: int) returns (j: nat)
    requires WithViews(s, v) != []
    ensures j < |s| && s[j].y == v
  {
    if s[0].y == v {
      j := 0;
    } else {
      var k := WithViewsWitness(s[1..], v);
      j := k + 1;
    }
  }

  lemma WithViewsOfHead(s: seq<Point>)
    requires s != []
    ensures WithViews(s, s[0].y) != []
  {
  }

  /**
   * A descending order that keeps every tie group in order is unique, so
   * SortDesc is the only result a correct stable sort can give.
   */
  lemma {:induction false} SortedUnique(a: seq<Point>, b: seq<Point>)
    requires Descending(a) && Descending(b)
    requires forall v :: WithViews(a, v) == WithViews(b, v)
    ensures a == b
  {
    if a == [] && b != [] {
      WithViewsOfHead(b);
      assert false;
    } else if a != [] && b == [] {
      WithViewsOfHead(a);
      assert false;
    } else if a != [] && b != [] {
      var v, w := a[0].y, b[0].y;
      assert WithViews(a, w) == WithViews(b, w) == [b[0]] + WithViews(b[1..], w);
      assert WithViews(b, v) == WithViews(a, v) == [a[0]] + WithViews(a[1..], v);
      var ja := WithViewsWitness(a, w);
      var jb := WithViewsWitness(b, v);
      assert v == w;
      assert a[0] == b[0] by {
        assert WithViews(a, v)[0] == a[0] && WithViews(b, v)[0] == b[0];
      }
      forall u
        ensures WithViews(a[1..], u) == WithViews(b[1..], u)
      {
        var x, y := WithViews(a, u), WithViews(b, u);
        assert x == y;
        if u == v {
          assert WithViews(a[1..], u) == x[1..] && WithViews(b[1..], u) == y[1..];
        }
      }
      SortedUnique(a[1..], b[1..]);
      assert a == [a[0]] + a[1..] && b == [b[0]] + b[1..];
    }
  }

  /** Any descending, order-preserving rearrangement of `s` is SortDesc(s). */
  lemma {:induction false} SortDescCharacterised(s: seq<Point>, r: seq<Point>)
    requires Descending(r)
    requires forall v :: WithViews(r, v) == WithViews(s, v)
    ensures r == SortDesc(s)
  {
    forall v
      ensures WithViews(r, v) == WithViews(SortDesc(s), v)
    {
      SortStable(s, v);
    }
    SortDescOrders(s);
    SortedUnique(r, SortDesc(s));
  }

  /** Hour "5" of a day with points b = 9, c = 9 and a = 2, in the order a, b, c. */
  lemma {:induction false} SortExample()
    ensures SortDesc([Point("a", 2), Point("b", 9), Point("c", 9)])
         == [Point("b", 9), Point("c", 9), Point("a", 2)]
  {
    var s := [Point("a", 2), Point("b", 9), Point("c", 9)];
    assert s[1..] == [Point("b", 9), Point("c", 9)];
    assert s[1..][1..] == [Point("c", 9)];
    assert SortDesc([Point("c", 9)]) == [Point("c", 9)];
    assert SortDesc(s[1..]) == Insert(Point("b", 9), [Point("c", 9)]) == [Point("b", 9), Point("c", 9)];
    assert [Point("b", 9), Point("c", 9)][1..] == [Point("c", 9)];
  }

  /** Every hour sorted. */
  function SortAll(m: map<string, seq<Point>>): map<string, seq<Point>>
  {
    map h | h in m :: SortDesc(m[h])
  }

  /** The hours in `done` sorted, the others as merged. */
  function PartlySorted(m: map<string, seq<Point>>, done: set<string>): map<string, seq<Point>>
  {
    map h | h in m :: if h in done then SortDesc(m[h]) else m[h]
  }

  lemma PartlySortedStep(m: map<string, seq<Point>>, done: set<string>, hour: string)
    requires hour in m && hour !in done
    ensures PartlySorted(m, done)[hour] == m[hour]
    ensures PartlySorted(m, done)[hour := SortDesc(m[hour])] == PartlySorted(m, done + {hour})
  {
  }

  lemma PartlySortedAll(m: map<string, seq<Point>>, done: set<string>)
    requires m.Keys <= done
    ensures PartlySorted(m, done) == SortAll(m)
  {
  }

  // ----- the sort loop as written -----

  /** `String(i)`. */
  function HourName(i: nat): string
  {
    NumberToString(Num(i))
  }

  /** The names of the first `n` array indices: "0", "1", …, String(n - 1). */
  function IndexKeys(n: nat): set<string>
  {
    if n == 0 then {} else IndexKeys(n - 1) + {HourName(n - 1)}
  }

  lemma {:induction false} IndexKeysHas(n: nat, i: nat)
    requires i < n
    ensures HourName(i) in IndexKeys(n)
  {
    if i < n - 1 {
      IndexKeysHas(n - 1, i);
    }
  }

  lemma {:induction false} IndexKeysIndex(n: nat, h: string) returns (i: nat)
    requires h in IndexKeys(n)
    ensures i < n && h == HourName(i)
  {
    if h == HourName(n - 1) {
      i := n - 1;
    } else {
      i := IndexKeysIndex(n - 1, h);
    }
  }

  /** The next index name is new, since distinct integers print differently. */
  lemma {:induction false} IndexKeysStep(n: nat)
    ensures IndexKeys(n + 1) == IndexKeys(n) + {HourName(n)}
    ensures HourName(n) !in IndexKeys(n)
  {
    if HourName(n) in IndexKeys(n) {
      var i := IndexKeysIndex(n, HourName(n));
      NumberToStringInjective(n, i);
    }
  }

  /** n index names for n indices. */
  lemma {:induction false} IndexKeysSize(n: nat)
    ensures |IndexKeys(n)| == n
  {
    if n > 0 {
      IndexKeysSize(n - 1);
      IndexKeysStep(n - 1);
    }
  }

  /**
   * Whether the loop runs to completion: it visits the indices of the key
   * array, so it reads hours "0" … String(n - 1) of an n-hour result.
   */
  predicate HoursIndexed(m: map<string, seq<Point>>)
  {
    forall i :: 0 <= i < |m| ==> HourName(i) in m
  }

  /** A result the loop completes on has exactly the hours "0" … String(n - 1). */
  lemma IndexedKeys(m: map<string, seq<Point>>)
    requires HoursIndexed(m)
    ensures m.Keys == IndexKeys(|m|)
  {
    var idx := IndexKeys(|m|);
    IndexKeysSize(|m|);
    forall h | h in idx
      ensures h in m.Keys
    {
      var i := IndexKeysIndex(|m|, h);
    }
    if m.Keys != idx {
      var h :| h in m.Keys && h !in idx;
      assert idx <= m.Keys - {h};
      assert |m.Keys - {h}| == |m.Keys| - 1;
      SubsetSize(idx, m.Keys - {h});
    }
  }

  lemma {:induction false} SubsetSize<T>(a: set<T>, b: set<T>)
    requires a <= b
    ensures |a| <= |b|
  {
    if a != {} {
      var x :| x in a;
      SubsetSize(a - {x}, b - {x});
    }
  }

  datatype SortOutcome = Sorted(hours: map<string, seq<Point>>) | Thrown

  /**
   * The hourly sort loop as written: it walks the INDICES of the key array,
   * sorting hour String(i) for i below the number of hours, and reading an
   * hour that is not there makes `.sort` throw a TypeError.
   */
  method SortHours(merged: map<string, seq<Point>>) returns (outcome: SortOutcome)
    ensures outcome.Sorted? <==> HoursIndexed(merged)
    ensures outcome.Sorted? ==> outcome.hours == SortAll(merged)
  {
    var result := merged;
    var count := |merged|;
    ghost var done: set<string> := {};
    assert result == PartlySorted(merged, done);
    for i := 0 to count
      invariant done == IndexKeys(i)
      invariant done <= merged.Keys
      invariant result == PartlySorted(merged, done)
    {
      var hour := HourName(i);
      if hour !in result {
        return Thrown;
      }
      IndexKeysStep(i);
      PartlySortedStep(merged, done, hour);
      result := result[hour := SortDesc(result[hour])];
      done := done + {hour};
    }
    forall k | 0 <= k < count
      ensures HourName(k) in merged
    {
      IndexKeysHas(count, k);
    }
    IndexedKeys(merged);
    PartlySortedAll(merged, done);
    return Sorted(result);
  }

  /** The hourly callback as written: merge, then the sort loop. */
  method HourlyCallback(responses: seq<HourlyShard>) returns (outcome: SortOutcome)
    ensures outcome.Sorted? <==> HoursIndexed(Merged(responses))
    ensures outcome.Sorted? ==> outcome.hours == SortAll(Merged(responses))
  {
    var result := MergeHourly(responses);
    outcome := SortHours(result);
  }

  /** The loop the callback evidently intends: sort every hour the result has. */
  method SortEveryHour(merged: map<string, seq<Point>>) returns (hours: map<string, seq<Point>>)
    ensures hours == SortAll(merged)
  {
    hours := merged;
    var pending := merged.Keys;
    assert hours == PartlySorted(merged, {});
    while pending != {}
      invariant pending <= merged.Keys
      invariant hours == PartlySorted(merged, merged.Keys - pending)
      decreases pending
    {
      var hour :| hour in pending;
      PartlySortedStep(merged, merged.Keys - pending, hour);
      hours := hours[hour := SortDesc(hours[hour])];
      assert merged.Keys - pending + {hour} == merged.Keys - (pending - {hour});
      pending := pending - {hour};
    }
    PartlySortedAll(merged, merged.Keys - pending);
  }

  /** The corrected hourly callback: merge, then sort every hour. */
  method HourlySeries(responses: seq<HourlyShard>) returns (hours: map<string, seq<Point>>)
    ensures hours == SortAll(Merged(responses))
  {
    var result := MergeHourly(responses);
    hours := SortEveryHour(result);
  }

  // ----- properties of the callback -----

  /** The hours of the series are the hours the shards mention, each sorted and stable. */
  lemma SeriesContents(rs: seq<HourlyShard>, h: string, v: int)
    ensures h in SortAll(Merged(rs)) <==> exists n :: 0 <= n < |rs| && h in rs[n]
    ensures h in SortAll(Merged(rs)) ==>
              Descending(SortAll(Merged(rs))[h])
              && multiset(SortAll(Merged(rs))[h]) == multiset(Collected(rs, h))
              && WithViews(SortAll(Merged(rs))[h], v) == WithViews(Collected(rs, h), v)
  {
    HourKeysMembers(rs, h);
    if h in SortAll(Merged(rs)) {
      SortStable(Collected(rs, h), v);
      SortDescOrders(Collected(rs, h));
      SortDescPermutes(Collected(rs, h));
    }
  }

  /** No shards, empty series: not an error, under either loop. */
  lemma EmptyDay()
    ensures Merged([]) == map[] && HoursIndexed(Merged([])) && SortAll(Merged([])) == map[]
  {
  }

  lemma {:induction false} HourKeysUniform(rs: seq<HourlyShard>, keys: set<string>)
    requires |rs| > 0
    requires forall n :: 0 <= n < |rs| ==> rs[n].Keys == keys
    ensures HourKeys(rs) == keys
  {
    if |rs| > 1 {
      HourKeysUniform(rs[..|rs| - 1], keys);
    } else {
      assert rs[..0] == [];
    }
  }

  /**
   * When every shard covers the same hours "0" … String(h - 1) (all 24 of a
   * full day, say) the loop as written sorts them all.
   */
  lemma {:induction false} FullDaySorted(rs: seq<HourlyShard>, hours: nat)
    requires |rs| > 0
    requires forall n :: 0 <= n < |rs| ==> rs[n].Keys == IndexKeys(hours)
    ensures HoursIndexed(Merged(rs))
  {
    var m := Merged(rs);
    HourKeysUniform(rs, IndexKeys(hours));
    assert m.Keys == IndexKeys(hours);
    assert |m| == hours by {
      IndexKeysSize(hours);
      assert |m| == |m.Keys|;
    }
    forall i | 0 <= i < |m|
      ensures HourName(i) in m
    {
      IndexKeysHas(hours, i);
    }
  }

  /** A merged day without an hour "0" makes the loop as written throw. */
  lemma MissingFirstHourThrows(m: map<string, seq<Point>>)
    requires m != map[] && "0" !in m
    ensures !HoursIndexed(m)
  {
    assert HourName(0) == "0";
    assert |m| > 0 by {
      var h :| h in m;
    }
  }

  /** A day whose shards only hold hour "5": the as-written callback throws on it. */
  lemma {:induction false} SingleHourThrows(p: Point)
    ensures !HoursIndexed(Merged([map["5" := [p]]]))
  {
    var rs: seq<HourlyShard> := [map["5" := [p]]];
    assert HourKeys(rs) == {"5"} by {
      assert rs[..0] == [];
    }
    var m := Merged(rs);
    assert m.Keys == {"5"};
    assert "5" in m && "0" !in m;
    MissingFirstHourThrows(m);
  }
}
