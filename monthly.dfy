/**
 * The monthly half of the data synthesis: every shard of one month is a
 * list of points (one per day); the callback adds up the views of each day
 * over all shards, then emits one point per day, sorted by its label.
 */
module MonthlyMerge {
  import opened Points
  import opened JsText
  import opened Selection

  /** One month's shard payload: its points, in file order. */
  type MonthlyShard = seq<Point>

  // ----- what the summation computes -----

  /** The shards' points, shard after shard. */
  function Flatten(rs: seq<MonthlyShard>): seq<Point>
  {
    if rs == [] then [] else Flatten(rs[..|rs| - 1]) + rs[|rs| - 1]
  }

  /** The labels of a list of points. */
  function Xs(ps: seq<Point>): set<string>
  {
    if ps == [] then {} else Xs(ps[..|ps| - 1]) + {ps[|ps| - 1].x}
  }

  /** The views of label `x` added up over a list of points. */
  function Total(ps: seq<Point>, x: string): int
  {
    if ps == [] then 0
    else Total(ps[..|ps| - 1], x) + (if ps[|ps| - 1].x == x then ps[|ps| - 1].y else 0)
  }

  /** Each label of the points with its total. */
  function Totals(ps: seq<Point>): map<string, int>
  {
    map x | x in Xs(ps) :: Total(ps, x)
  }

  lemma {:induction false} FlattenStep(rs: seq<MonthlyShard>, i: nat)
    requires i < |rs|
    ensures Flatten(rs[..i + 1]) == Flatten(rs[..i]) + rs[i]
  {
    assert rs[..i + 1][..i] == rs[..i];
  }

  lemma {:induction false} TotalAbsent(ps: seq<Point>, x: string)
    requires x !in Xs(ps)
    ensures Total(ps, x) == 0
  {
    if ps != [] {
      TotalAbsent(ps[..|ps| - 1], x);
    }
  }

  /** One more point: a new label starts at its views, a known one adds them. */
  lemma {:induction false} TotalsStep(ps: seq<Point>, p: Point)
    ensures Totals(ps + [p]) == if p.x in Totals(ps) then Totals(ps)[p.x := Totals(ps)[p.x] + p.y]
                                else Totals(ps)[p.x := p.y]
  {
    var qs := ps + [p];
    assert qs[..|qs| - 1] == ps;
    if p.x !in Xs(ps) {
      TotalAbsent(ps, p.x);
    }
  }

  /**
   * The summation loop of the monthly callback: for each shard and each of
   * its points, a label not yet in the result starts at the point's views,
   * and a label already there adds them. The object's keys keep their
   * insertion order, returned as `order`.
   */
  method MergeMonthly(responses: seq<MonthlyShard>) returns (totals: map<string, int>, order: seq<string>)
    ensures totals == Totals(Flatten(responses))
    ensures Distinct(order)
    ensures forall x :: x in order <==> x in totals
  {
    totals := map[];
    order := [];
    for i := 0 to |responses|
      invariant totals == Totals(Flatten(responses[..i]))
      invariant Distinct(order)
      invariant forall x :: x in order <==> x in totals
    {
      totals, order := AddShard(totals, order, Flatten(responses[..i]), responses[i]);
      FlattenStep(responses, i);
    }
    assert responses[..|responses|] == responses;
  }

  /**
   * The inner loop, for one shard: each point starts its label at its views
   * or adds them to the label's total; new labels join the key order.
   */
  method AddShard(totals0: map<string, int>, order0: seq<string>, ghost before: seq<Point>, response: MonthlyShard)
    returns (totals: map<string, int>, order: seq<string>)
    requires totals0 == Totals(before)
    requires Distinct(order0) && forall x :: x in order0 <==> x in totals0
    ensures totals == Totals(before + response)
    ensures Distinct(order) && forall x :: x in order <==> x in totals
  {
    totals, order := totals0, order0;
    assert before + response[..0] == before;
    for j := 0 to |response|
      invariant totals == Totals(before + response[..j])
      invariant Distinct(order)
      invariant forall x :: x in order <==> x in totals
    {
      var p := response[j];
      TotalsStep(before + response[..j], p);
      assert before + response[..j + 1] == (before + response[..j]) + [p];
      if p.x !in totals {
        totals := totals[p.x := p.y];
        order := order + [p.x];
      } else {
        totals := totals[p.x := totals[p.x] + p.y];
      }
    }
    assert response[..|response|] == response;
  }

  // ----- the totals do not depend on how the points are split or ordered -----

  lemma {:induction false} XsAppend(a: seq<Point>, b: seq<Point>)
    ensures Xs(a + b) == Xs(a) + Xs(b)
  {
    if b != [] {
      var ab := a + b;
      assert ab[..|ab| - 1] == a + b[..|b| - 1];
      XsAppend(a, b[..|b| - 1]);
    } else {
      assert a + b == a;
    }
  }

  lemma {:induction false} TotalAppend(a: seq<Point>, b: seq<Point>, x: string)
    ensures Total(a + b, x) == Total(a, x) + Total(b, x)
  {
    if b != [] {
      var ab := a + b;
      assert ab[..|ab| - 1] == a + b[..|b| - 1];
      TotalAppend(a, b[..|b| - 1], x);
    } else {
      assert a + b == a;
    }
  }

  /** Swapping two runs of points (two shards, say) leaves every total as it was. */
  lemma ShardOrderIrrelevant(a: seq<Point>, b: seq<Point>)
    ensures Totals(a + b) == Totals(b + a)
  {
    XsAppend(a, b);
    XsAppend(b, a);
    forall x | x in Xs(a + b)
      ensures Total(a + b, x) == Total(b + a, x)
    {
      TotalAppend(a, b, x);
      TotalAppend(b, a, x);
    }
  }

  /** A label's total depends only on the multiset of points, not on their order. */
  lemma {:induction false} TotalPermutation(a: seq<Point>, b: seq<Point>, x: string)
    requires multiset(a) == multiset(b)
    ensures Total(a, x) == Total(b, x)
    decreases |a|
  {
    if a != [] {
      var k := MatchLast(a, b);
      var p, left, right := a[|a| - 1], b[..k], b[k + 1..];
      TotalPermutation(a[..|a| - 1], left + right, x);
      TotalAppend(left, right, x);
      TotalAppend(left + [p], right, x);
      TotalAppend(left, [p], x);
      assert Total([p], x) == Total([p][..0], x) + (if p.x == x then p.y else 0);
    } else {
      assert b == [];
    }
  }

  /** Where the last element of `a` sits in a rearrangement `b`, and what is left on both sides. */
  lemma MatchLast<T>(a: seq<T>, b: seq<T>) returns (k: nat)
    requires a != [] && multiset(a) == multiset(b)
    ensures k < |b| && b[k] == a[|a| - 1]
    ensures b == b[..k] + [b[k]] + b[k + 1..]
    ensures multiset(a[..|a| - 1]) == multiset(b[..k] + b[k + 1..])
  {
    var p := a[|a| - 1];
    RemoveAt(a, |a| - 1);
    assert p in multiset(b);
    k :| 0 <= k < |b| && b[k] == p;
    RemoveAt(b, k);
    MultisetCancel(multiset(a[..|a| - 1]), multiset(b[..k] + b[k + 1..]), p);
  }

  /** Taking out the element at `k` takes one copy of it out of the multiset. */
  lemma RemoveAt<T>(b: seq<T>, k: nat)
    requires k < |b|
    ensures b == b[..k] + [b[k]] + b[k + 1..]
    ensures multiset(b) == multiset(b[..k] + b[k + 1..]) + multiset{b[k]}
  {
    var left, right := b[..k], b[k + 1..];
    assert b == left + [b[k]] + right;
    assert multiset(left + right) == multiset(left) + multiset(right);
  }

  lemma MultisetCancel<T>(x: multiset<T>, y: multiset<T>, p: T)
    requires x + multiset{p} == y + multiset{p}
    ensures x == y
  {
    forall z
      ensures x[z] == y[z]
    {
      assert (x + multiset{p})[z] == (y + multiset{p})[z];
    }
  }

  /** A point list and any rearrangement of it have the same labels. */
  lemma XsPermutation(a: seq<Point>, b: seq<Point>, x: string)
    requires multiset(a) == multiset(b) && x in Xs(a)
    ensures x in Xs(b)
  {
    var k := XsWitness(a, x);
    assert a[k] in multiset(b);
    var m :| 0 <= m < |b| && b[m] == a[k];
    XsHas(b, m);
  }

  /** The totals depend only on the multiset of points. */
  lemma TotalsPermutation(a: seq<Point>, b: seq<Point>)
    requires multiset(a) == multiset(b)
    ensures Totals(a) == Totals(b)
  {
    forall x | x in Xs(a)
      ensures x in Xs(b) && Total(a, x) == Total(b, x)
    {
      XsPermutation(a, b, x);
      TotalPermutation(a, b, x);
    }
    forall x | x in Xs(b)
      ensures x in Xs(a)
    {
      XsPermutation(b, a, x);
    }
  }

  lemma {:induction false} FlattenAppend(a: seq<MonthlyShard>, b: seq<MonthlyShard>)
    ensures Flatten(a + b) == Flatten(a) + Flatten(b)
  {
    if b != [] {
      var ab := a + b;
      assert ab[..|ab| - 1] == a + b[..|b| - 1];
      FlattenAppend(a, b[..|b| - 1]);
    } else {
      assert a + b == a;
    }
  }

  /** Rearranging the shards rearranges their points. */
  lemma {:induction false} FlattenPermutation(rs: seq<MonthlyShard>, qs: seq<MonthlyShard>)
    requires multiset(rs) == multiset(qs)
    ensures multiset(Flatten(rs)) == multiset(Flatten(qs))
    decreases |rs|
  {
    if rs != [] {
      var k := MatchLast(rs, qs);
      var r, left, right := rs[|rs| - 1], qs[..k], qs[k + 1..];
      FlattenPermutation(rs[..|rs| - 1], left + right);
      FlattenAppend(left, right);
      FlattenAppend(left + [r], right);
      FlattenAppend(left, [r]);
      assert Flatten([r]) == Flatten([r][..0]) + r;
    } else {
      assert qs == [];
    }
  }

  /** The totals do not depend on the order in which the shards arrive. */
  lemma ShardPermutation(rs: seq<MonthlyShard>, qs: seq<MonthlyShard>)
    requires multiset(rs) == multiset(qs)
    ensures Totals(Flatten(rs)) == Totals(Flatten(qs))
  {
    FlattenPermutation(rs, qs);
    TotalsPermutation(Flatten(rs), Flatten(qs));
  }

  /** A label's total is the sum of its totals in the separate shards. */
  lemma {:induction false} TotalOverShards(rs: seq<MonthlyShard>, x: string)
    ensures rs != [] ==> Total(Flatten(rs), x) == Total(Flatten(rs[..|rs| - 1]), x) + Total(rs[|rs| - 1], x)
  {
    if rs != [] {
      TotalAppend(Flatten(rs[..|rs| - 1]), rs[|rs| - 1], x);
    }
  }

  lemma {:induction false} XsHas(ps: seq<Point>, k: nat)
    requires k < |ps|
    ensures ps[k].x in Xs(ps)
  {
    if k < |ps| - 1 {
      XsHas(ps[..|ps| - 1], k);
    }
  }

  lemma {:induction false} XsWitness(ps: seq<Point>, x: string) returns (k: nat)
    requires x in Xs(ps)
    ensures k < |ps| && ps[k].x == x
  {
    if ps[|ps| - 1].x == x {
      k := |ps| - 1;
    } else {
      k := XsWitness(ps[..|ps| - 1], x);
    }
  }

  /** A point of a shard sits somewhere in the flattened list. */
  lemma {:induction false} FlattenHas(rs: seq<MonthlyShard>, i: nat, j: nat) returns (k: nat)
    requires i < |rs| && j < |rs[i]|
    ensures k < |Flatten(rs)| && Flatten(rs)[k] == rs[i][j]
  {
    var init := rs[..|rs| - 1];
    if i == |rs| - 1 {
      k := |Flatten(init)| + j;
    } else {
      assert init[i] == rs[i];
      k := FlattenHas(init, i, j);
    }
  }

  /** Every point of the flattened list comes from some shard. */
  lemma {:induction false} FlattenWitness(rs: seq<MonthlyShard>, k: nat) returns (i: nat, j: nat)
    requires k < |Flatten(rs)|
    ensures i < |rs| && j < |rs[i]| && rs[i][j] == Flatten(rs)[k]
  {
    var init := rs[..|rs| - 1];
    if k >= |Flatten(init)| {
      i, j := |rs| - 1, k - |Flatten(init)|;
    } else {
      i, j := FlattenWitness(init, k);
      assert init[i] == rs[i];
    }
  }

  /** Every label some shard mentions gets a total. */
  lemma MonthKeys(rs: seq<MonthlyShard>, i: nat, j: nat)
    requires i < |rs| && j < |rs[i]|
    ensures rs[i][j].x in Totals(Flatten(rs))
  {
    var k := FlattenHas(rs, i, j);
    XsHas(Flatten(rs), k);
  }

  /** Only labels some shard mentions get a total. */
  lemma MonthKeysWitness(rs: seq<MonthlyShard>, x: string) returns (i: nat, j: nat)
    requires x in Totals(Flatten(rs))
    ensures i < |rs| && j < |rs[i]| && rs[i][j].x == x
  {
    var k := XsWitness(Flatten(rs), x);
    i, j := FlattenWitness(rs, k);
  }

  lemma TotalsKeys(ps: seq<Point>)
    ensures Totals(ps).Keys == Xs(ps)
  {
  }

  /** No shards, no totals. */
  lemma EmptyMonth()
    ensures Totals(Flatten([])) == map[]
  {
  }

  // ----- the emitted series -----

  /** `Object.entries(result).map(kv => ({x: kv[0], y: kv[1]}))` for keys in `order`. */
  function Entries(order: seq<string>, totals: map<string, int>): (r: seq<Point>)
    requires forall k :: 0 <= k < |order| ==> order[k] in totals
    ensures |r| == |order|
    ensures forall k :: 0 <= k < |order| ==> r[k] == Point(order[k], totals[order[k]])
  {
    seq(|order|, k requires 0 <= k < |order| => Point(order[k], totals[order[k]]))
  }

  /** Strictly increasing labels, compared as JavaScript strings. */
  predicate Ascending(s: seq<Point>)
  {
    forall i, j :: 0 <= i < j < |s| ==> StringLess(s[i].x, s[j].x)
  }

  /** Every point carries its label's total. */
  predicate Tallied(s: seq<Point>, totals: map<string, int>)
  {
    forall q :: q in s ==> q.x in totals && q.y == totals[q.x]
  }

  predicate DistinctXs(s: seq<Point>)
  {
    forall i, j :: 0 <= i < j < |s| ==> s[i].x != s[j].x
  }

  /** Insert `p` before the first point whose label is not below its own. */
  function InsertByX(p: Point, s: seq<Point>): seq<Point>
  {
    if s == [] || !StringLess(s[0].x, p.x) then [p] + s else [s[0]] + InsertByX(p, s[1..])
  }

  /**
   * `.sort(byLabel)`: the comparator returns -1 when the first label is
   * below the second, 1 when above and 0 on equal labels, and the sort is
   * stable, so this is the stable ascending sort by label, as insertion sort.
   */
  function SortByX(s: seq<Point>): seq<Point>
  {
    if s == [] then [] else InsertByX(s[0], SortByX(s[1..]))
  }

  lemma {:induction false} InsertByXMultiset(p: Point, s: seq<Point>)
    ensures multiset(InsertByX(p, s)) == multiset(s) + multiset{p}
  {
    if s != [] && StringLess(s[0].x, p.x) {
      InsertByXMultiset(p, s[1..]);
      assert s == [s[0]] + s[1..];
    }
  }

  /** Equal labels keep their order, as the stable sort with a 0-on-tie comparator does. */
  lemma SortByXTies()
    ensures SortByX([Point("a", 1), Point("a", 2)]) == [Point("a", 1), Point("a", 2)]
  {
    assert !StringLess("a", "a");
  }

  /** The sort only reorders the entries. */
  lemma {:induction false} SortByXPermutes(s: seq<Point>)
    ensures multiset(SortByX(s)) == multiset(s)
  {
    if s != [] {
      SortByXPermutes(s[1..]);
      InsertByXMultiset(s[0], SortByX(s[1..]));
      assert s == [s[0]] + s[1..];
    }
  }

  predicate Above(b: string, s: seq<Point>)
  {
    forall i :: 0 <= i < |s| ==> StringLess(b, s[i].x)
  }

  lemma {:induction false} InsertByXAbove(b: string, p: Point, s: seq<Point>)
    requires Above(b, s) && StringLess(b, p.x)
    ensures Above(b, InsertByX(p, s))
  {
    if s != [] && StringLess(s[0].x, p.x) {
      InsertByXAbove(b, p, s[1..]);
    }
  }

  lemma {:induction false} AscendingCons(q: Point, s: seq<Point>)
    requires Above(q.x, s) && Ascending(s)
    ensures Ascending([q] + s)
  {
    var r := [q] + s;
    forall i, j | 0 <= i < j < |r|
      ensures StringLess(r[i].x, r[j].x)
    {
      assert r[j] == s[j - 1];
      if i > 0 {
        assert r[i] == s[i - 1];
      }
    }
  }

  lemma {:induction false} InsertByXAscending(p: Point, s: seq<Point>)
    requires Ascending(s)
    requires forall q :: q in s ==> q.x != p.x
    ensures Ascending(InsertByX(p, s))
  {
    if s == [] || !StringLess(s[0].x, p.x) {
      if s != [] {
        assert s[0] in s;
        StringLessTotal(p.x, s[0].x);
      }
      forall i | 0 <= i < |s|
        ensures StringLess(p.x, s[i].x)
      {
        if i > 0 {
          StringLessTransitive(p.x, s[0].x, s[i].x);
        }
      }
      AscendingCons(p, s);
    } else {
      var rest := s[1..];
      forall q | q in rest
        ensures q.x != p.x
      {
        assert q in s;
      }
      InsertByXAscending(p, rest);
      assert Above(s[0].x, rest) by {
        forall i | 0 <= i < |rest|
          ensures StringLess(s[0].x, rest[i].x)
        {
          assert rest[i] == s[i + 1];
        }
      }
      InsertByXAbove(s[0].x, p, rest);
      AscendingCons(s[0], InsertByX(p, rest));
    }
  }

  /** Entries with distinct labels come out in strictly increasing label order. */
  lemma {:induction false} SortByXAscending(s: seq<Point>)
    requires DistinctXs(s)
    ensures Ascending(SortByX(s))
  {
    if s != [] {
      var rest := s[1..];
      assert DistinctXs(rest) by {
        forall i, j | 0 <= i < j < |rest|
          ensures rest[i].x != rest[j].x
        {
          assert rest[i] == s[i + 1] && rest[j] == s[j + 1];
        }
      }
      SortByXAscending(rest);
      SortByXPermutes(rest);
      forall q | q in SortByX(rest)
        ensures q.x != s[0].x
      {
        assert q in multiset(rest);
        var k :| 0 <= k < |rest| && rest[k] == q;
        assert s[k + 1] == q;
      }
      InsertByXAscending(s[0], SortByX(rest));
    }
  }

  /** The sorted series holds the entries' labels and their totals, nothing else. */
  lemma {:induction false} SortByXContents(s: seq<Point>, totals: map<string, int>)
    requires Tallied(s, totals)
    ensures Tallied(SortByX(s), totals)
    ensures Xs(SortByX(s)) == Xs(s)
  {
    SortByXPermutes(s);
    forall q | q in SortByX(s)
      ensures q.x in totals && q.y == totals[q.x]
    {
      assert q in multiset(s);
    }
    forall x | x in Xs(SortByX(s))
      ensures x in Xs(s)
    {
      var k := XsWitness(SortByX(s), x);
      assert SortByX(s)[k] in multiset(s);
      var m :| 0 <= m < |s| && s[m] == SortByX(s)[k];
      XsHas(s, m);
    }
    forall x | x in Xs(s)
      ensures x in Xs(SortByX(s))
    {
      var k := XsWitness(s, x);
      assert s[k] in multiset(SortByX(s));
      var m :| 0 <= m < |SortByX(s)| && SortByX(s)[m] == s[k];
      XsHas(SortByX(s), m);
    }
  }

  /** The entries of the result object list each label once, with its total. */
  lemma {:induction false} EntriesContents(order: seq<string>, totals: map<string, int>)
    requires Distinct(order)
    requires forall x :: x in order <==> x in totals
    ensures DistinctXs(Entries(order, totals))
    ensures Tallied(Entries(order, totals), totals)
    ensures Xs(Entries(order, totals)) == totals.Keys
  {
    var e := Entries(order, totals);
    forall x | x in totals
      ensures x in Xs(e)
    {
      var k :| 0 <= k < |order| && order[k] == x;
      XsHas(e, k);
    }
    forall x | x in Xs(e)
      ensures x in totals
    {
      var k := XsWitness(e, x);
    }
  }

  /**
   * The monthly callback: the summation loop, then the entries of the
   * result object sorted by label.
   */
  method MonthlyCallback(responses: seq<MonthlyShard>) returns (series: seq<Point>)
    ensures Ascending(series)
    ensures Xs(series) == Xs(Flatten(responses))
    ensures Tallied(series, Totals(Flatten(responses)))
    ensures responses == [] ==> series == []
  {
    var totals, order := MergeMonthly(responses);
    EntriesContents(order, totals);
    var entries := Entries(order, totals);
    series := SortByX(entries);
    SortByXAscending(entries);
    SortByXContents(entries, totals);
    XsEmpty(series);
  }

  /** A list of points has no labels exactly when it is empty. */
  lemma {:induction false} XsEmpty(s: seq<Point>)
    ensures s == [] <==> Xs(s) == {}
  {
    if s != [] {
      XsHas(s, |s| - 1);
    }
  }

  // ----- the series does not depend on the order of the entries -----

  lemma {:induction false} XsCons(q: Point, s: seq<Point>)
    ensures Xs([q] + s) == {q.x} + Xs(s)
  {
    XsAppend([q], s);
    assert [q][..0] == [];
  }

  lemma {:induction false} AscendingTail(s: seq<Point>)
    requires s != [] && Ascending(s)
    ensures Ascending(s[1..])
    ensures Xs(s[1..]) == Xs(s) - {s[0].x}
  {
    assert s == [s[0]] + s[1..];
    XsCons(s[0], s[1..]);
    if s[0].x in Xs(s[1..]) {
      var k := XsWitness(s[1..], s[0].x);
      assert s[k + 1].x == s[0].x;
      StringLessIrreflexive(s[0].x);
      assert false;
    }
  }

  lemma {:induction false} TalliedTail(s: seq<Point>, totals: map<string, int>)
    requires s != [] && Tallied(s, totals)
    ensures Tallied(s[1..], totals)
  {
    forall q | q in s[1..]
      ensures q.x in totals && q.y == totals[q.x]
    {
      assert q in s;
    }
  }

  /** Two ascending series with the same labels start with the same label. */
  lemma {:induction false} SameFirstLabel(s: seq<Point>, t: seq<Point>)
    requires s != [] && t != [] && Ascending(s) && Ascending(t) && Xs(s) == Xs(t)
    ensures s[0].x == t[0].x
  {
    XsHas(s, 0);
    XsHas(t, 0);
    var kt := XsWitness(t, s[0].x);
    var ks := XsWitness(s, t[0].x);
    if kt > 0 && ks > 0 {
      StringLessAsymmetric(s[0].x, t[0].x);
      assert false;
    }
  }

  /**
   * Two ascending series with the same labels and the same totals are the
   * same series: whatever order `Object.entries` lists the keys in, the
   * sorted series is one and the same.
   */
  lemma {:induction false} AscendingUnique(s: seq<Point>, t: seq<Point>, totals: map<string, int>)
    requires Ascending(s) && Ascending(t)
    requires Tallied(s, totals) && Tallied(t, totals)
    requires Xs(s) == Xs(t)
    ensures s == t
  {
    if s != [] && t != [] {
      SameFirstLabel(s, t);
      assert s[0] in s && t[0] in t;
      AscendingTail(s);
      AscendingTail(t);
      TalliedTail(s, totals);
      TalliedTail(t, totals);
      AscendingUnique(s[1..], t[1..], totals);
      assert s == [s[0]] + s[1..] && t == [t[0]] + t[1..];
    }
  }

  /**
   * Months whose points add up to the same totals give the same series: the
   * order of the shards, and how the points are spread over them, do not matter.
   */
  lemma SeriesOfEqualTotals(s: seq<Point>, t: seq<Point>, a: seq<Point>, b: seq<Point>)
    requires Totals(a) == Totals(b)
    requires Ascending(s) && Xs(s) == Xs(a) && Tallied(s, Totals(a))
    requires Ascending(t) && Xs(t) == Xs(b) && Tallied(t, Totals(b))
    ensures s == t
  {
    TotalsKeys(a);
    TotalsKeys(b);
    AscendingUnique(s, t, Totals(a));
  }

  /**
   * Two callbacks over the same shards, received in any two orders, emit
   * the same series.
   */
  lemma SeriesOrderFree(rs: seq<MonthlyShard>, qs: seq<MonthlyShard>, s: seq<Point>, t: seq<Point>)
    requires multiset(rs) == multiset(qs)
    requires Ascending(s) && Xs(s) == Xs(Flatten(rs)) && Tallied(s, Totals(Flatten(rs)))
    requires Ascending(t) && Xs(t) == Xs(Flatten(qs)) && Tallied(t, Totals(Flatten(qs)))
    ensures s == t
  {
    ShardPermutation(rs, qs);
    SeriesOfEqualTotals(s, t, Flatten(rs), Flatten(qs));
  }
}
