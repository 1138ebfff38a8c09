/**
 * Shard addressing: the hourly and monthly fetches build one URL per
 * combination of selected traffic type, access type and domain, in
 * nested-loop order, of the form
 * `<prefix>/data/<hourly|monthly>/<traffic>/<access>/<domain>/<date>.json`.
 * In the monthly fetch a selected "All" domain stands for the whole list of
 * domain options.
 */
module Addressing {
  import opened JsText
  import opened Selection

  /** One (traffic type, access type, domain) combination. */
  datatype ShardKey = ShardKey(trafficType: string, accessType: string, domain: string)

  /** `prefix + "/data/<granularity>/" + [traffic, access, domain, dateKey + ".json"].join("/")`. */
  function ShardUrl(prefix: string, granularity: string, dateKey: string, k: ShardKey): string
  {
    prefix + "/data/" + granularity + "/" + Join([k.trafficType, k.accessType, k.domain, dateKey + ".json"], "/")
  }

  /** The URLs of a sequence of combinations, one each, in the same order. */
  function Urls(prefix: string, granularity: string, dateKey: string, keys: seq<ShardKey>): (r: seq<string>)
    ensures |r| == |keys|
    ensures forall n :: 0 <= n < |keys| ==> r[n] == ShardUrl(prefix, granularity, dateKey, keys[n])
  {
    seq(|keys|, n requires 0 <= n < |keys| => ShardUrl(prefix, granularity, dateKey, keys[n]))
  }

  /** The innermost loop: one combination per domain. */
  function Triples(t: string, a: string, ds: seq<string>): seq<ShardKey>
  {
    seq(|ds|, k requires 0 <= k < |ds| => ShardKey(t, a, ds[k]))
  }

  /** The middle loop: for each access type, the combinations of the innermost loop. */
  function Pairs(t: string, accessTypes: seq<string>, ds: seq<string>): seq<ShardKey>
  {
    if accessTypes == [] then []
    else Pairs(t, accessTypes[..|accessTypes| - 1], ds) + Triples(t, accessTypes[|accessTypes| - 1], ds)
  }

  /** The outer loop: for each traffic type, the combinations of the middle loop. */
  function Product(trafficTypes: seq<string>, accessTypes: seq<string>, ds: seq<string>): seq<ShardKey>
  {
    if trafficTypes == [] then []
    else Product(trafficTypes[..|trafficTypes| - 1], accessTypes, ds)
         + Pairs(trafficTypes[|trafficTypes| - 1], accessTypes, ds)
  }

  /** `selectedDomain.includes("All") ? domainOptions : selectedDomain`. */
  function CheckedDomains(selectedDomain: seq<string>, domainOptions: seq<string>): seq<string>
  {
    if "All" in selectedDomain then domainOptions else selectedDomain
  }

  // ----- the fetch loops -----

  /** The URLs fetchHourly requests for one day, in the order it pushes them. */
  method HourlyUrls(prefix: string, encodedYearMonthDay: string,
                    trafficFlags: Flags, accessFlags: Flags, domainFlags: Flags)
    returns (urls: seq<string>)
    ensures urls == Urls(prefix, "hourly", encodedYearMonthDay,
                         Product(SelectedTypes(trafficFlags), SelectedTypes(accessFlags), SelectedTypes(domainFlags)))
    ensures |urls| == |SelectedTypes(trafficFlags)| * |SelectedTypes(accessFlags)| * |SelectedTypes(domainFlags)|
  {
    var selectedTrafficTypes := SelectedTypes(trafficFlags);
    var selectedAccessTypes := SelectedTypes(accessFlags);
    var selectedDomain := SelectedTypes(domainFlags);
    urls := NestedUrls(prefix, "hourly", encodedYearMonthDay, selectedTrafficTypes, selectedAccessTypes,
                       selectedDomain, selectedDomain, selectedDomain);
    ProductLength(selectedTrafficTypes, selectedAccessTypes, selectedDomain);
  }

  /**
   * The URLs fetchMonthly requests for one month, in the order it pushes
   * them; the domains are the checked ones, with "All" standing for every option.
   */
  method MonthlyUrls(prefix: string, encodedYearMonth: string,
                     trafficFlags: Flags, accessFlags: Flags, domainFlags: Flags, domainOptions: seq<string>)
    returns (urls: seq<string>)
    ensures urls == Urls(prefix, "monthly", encodedYearMonth,
                         Product(SelectedTypes(trafficFlags), SelectedTypes(accessFlags),
                                 CheckedDomains(SelectedTypes(domainFlags), domainOptions)))
    ensures |urls| == |SelectedTypes(trafficFlags)| * |SelectedTypes(accessFlags)|
                      * |CheckedDomains(SelectedTypes(domainFlags), domainOptions)|
  {
    var selectedTrafficTypes := SelectedTypes(trafficFlags);
    var selectedAccessTypes := SelectedTypes(accessFlags);
    var selectedDomain := SelectedTypes(domainFlags);
    urls := NestedUrls(prefix, "monthly", encodedYearMonth, selectedTrafficTypes, selectedAccessTypes,
                       selectedDomain, domainOptions, CheckedDomains(selectedDomain, domainOptions));
    ProductLength(selectedTrafficTypes, selectedAccessTypes, CheckedDomains(selectedDomain, domainOptions));
  }

  /**
   * The triple loop both fetches share: for each traffic type, each access
   * type, and each domain of the checked list, one URL. The checked list is
   * recomputed inside the middle loop, as fetchMonthly does; fetchHourly
   * passes its selected domains for both lists. This is the outer loop.
   */
  method NestedUrls(prefix: string, granularity: string, dateKey: string,
                    trafficTypes: seq<string>, accessTypes: seq<string>,
                    selectedDomain: seq<string>, domainOptions: seq<string>, ghost ds: seq<string>)
    returns (urls: seq<string>)
    requires ds == CheckedDomains(selectedDomain, domainOptions)
    ensures urls == Urls(prefix, granularity, dateKey, Product(trafficTypes, accessTypes, ds))
  {
    urls := [];
    for i := 0 to |trafficTypes|
      invariant urls == Urls(prefix, granularity, dateKey, Product(trafficTypes[..i], accessTypes, ds))
    {
      var block := AccessTypeUrls(prefix, granularity, dateKey, trafficTypes[i], accessTypes,
                                  selectedDomain, domainOptions, ds);
      ProductStep(trafficTypes, accessTypes, ds, i);
      UrlsAppend(prefix, granularity, dateKey, Product(trafficTypes[..i], accessTypes, ds),
                 Pairs(trafficTypes[i], accessTypes, ds));
      urls := urls + block;
    }
    assert trafficTypes[..|trafficTypes|] == trafficTypes;
  }

  /** The middle loop, for one traffic type: the checked domains, then the inner loop. */
  method AccessTypeUrls(prefix: string, granularity: string, dateKey: string,
                        trafficType: string, accessTypes: seq<string>,
                        selectedDomain: seq<string>, domainOptions: seq<string>, ghost ds: seq<string>)
    returns (urls: seq<string>)
    requires ds == CheckedDomains(selectedDomain, domainOptions)
    ensures urls == Urls(prefix, granularity, dateKey, Pairs(trafficType, accessTypes, ds))
  {
    urls := [];
    for j := 0 to |accessTypes|
      invariant urls == Urls(prefix, granularity, dateKey, Pairs(trafficType, accessTypes[..j], ds))
    {
      var checkedDomains := if "All" in selectedDomain then domainOptions else selectedDomain;
      var block := DomainUrls(prefix, granularity, dateKey, trafficType, accessTypes[j], checkedDomains);
      PairsStep(trafficType, accessTypes, ds, j);
      UrlsAppend(prefix, granularity, dateKey, Pairs(trafficType, accessTypes[..j], ds),
                 Triples(trafficType, accessTypes[j], ds));
      urls := urls + block;
    }
    assert accessTypes[..|accessTypes|] == accessTypes;
  }

  /** The inner loop, for one traffic type and access type: one URL per checked domain. */
  method DomainUrls(prefix: string, granularity: string, dateKey: string,
                    trafficType: string, accessType: string, checkedDomains: seq<string>)
    returns (urls: seq<string>)
    ensures urls == Urls(prefix, granularity, dateKey, Triples(trafficType, accessType, checkedDomains))
  {
    urls := [];
    for k := 0 to |checkedDomains|
      invariant urls == Urls(prefix, granularity, dateKey, Triples(trafficType, accessType, checkedDomains[..k]))
    {
      var key := ShardKey(trafficType, accessType, checkedDomains[k]);
      TriplesStep(trafficType, accessType, checkedDomains, k);
      UrlsAppend(prefix, granularity, dateKey, Triples(trafficType, accessType, checkedDomains[..k]), [key]);
      urls := urls + [ShardUrl(prefix, granularity, dateKey, key)];
    }
    assert checkedDomains[..|checkedDomains|] == checkedDomains;
  }

  // ----- loop bookkeeping -----

  lemma {:induction false} TriplesStep(t: string, a: string, ds: seq<string>, k: nat)
    requires k < |ds|
    ensures Triples(t, a, ds[..k + 1]) == Triples(t, a, ds[..k]) + [ShardKey(t, a, ds[k])]
  {
  }

  lemma {:induction false} PairsStep(t: string, accessTypes: seq<string>, ds: seq<string>, j: nat)
    requires j < |accessTypes|
    ensures Pairs(t, accessTypes[..j + 1], ds) == Pairs(t, accessTypes[..j], ds) + Triples(t, accessTypes[j], ds)
    ensures ds[..|ds|] == ds
  {
    assert accessTypes[..j + 1][..j] == accessTypes[..j];
  }

  lemma {:induction false} ProductStep(trafficTypes: seq<string>, accessTypes: seq<string>, ds: seq<string>, i: nat)
    requires i < |trafficTypes|
    ensures Product(trafficTypes[..i + 1], accessTypes, ds)
         == Product(trafficTypes[..i], accessTypes, ds) + Pairs(trafficTypes[i], accessTypes, ds)
    ensures accessTypes[..|accessTypes|] == accessTypes
  {
    assert trafficTypes[..i + 1][..i] == trafficTypes[..i];
  }

  lemma {:induction false} UrlsAppend(prefix: string, granularity: string, dateKey: string,
                                      a: seq<ShardKey>, b: seq<ShardKey>)
    ensures Urls(prefix, granularity, dateKey, a + b)
         == Urls(prefix, granularity, dateKey, a) + Urls(prefix, granularity, dateKey, b)
  {
  }

  // ----- what the loops produce -----

  lemma {:induction false} PairsLength(t: string, accessTypes: seq<string>, ds: seq<string>)
    ensures |Pairs(t, accessTypes, ds)| == |accessTypes| * |ds|
  {
    if accessTypes != [] {
      PairsLength(t, accessTypes[..|accessTypes| - 1], ds);
      MulStep(|accessTypes|, |ds|);
    }
  }

  /** One URL per combination: |traffic| × |access| × |domain|, so an empty dimension gives none. */
  lemma {:induction false} ProductLength(trafficTypes: seq<string>, accessTypes: seq<string>, ds: seq<string>)
    ensures |Product(trafficTypes, accessTypes, ds)| == |trafficTypes| * |accessTypes| * |ds|
  {
    BlockLength(trafficTypes, accessTypes, ds);
    MulAssoc(|trafficTypes|, |accessTypes|, |ds|);
  }

  lemma {:induction false} BlockLength(trafficTypes: seq<string>, accessTypes: seq<string>, ds: seq<string>)
    ensures |Product(trafficTypes, accessTypes, ds)| == |trafficTypes| * (|accessTypes| * |ds|)
  {
    if trafficTypes != [] {
      BlockLength(trafficTypes[..|trafficTypes| - 1], accessTypes, ds);
      PairsLength(trafficTypes[|trafficTypes| - 1], accessTypes, ds);
      MulStep(|trafficTypes|, |accessTypes| * |ds|);
    }
  }

  lemma MulStep(n: nat, m: nat)
    requires n > 0
    ensures n * m == (n - 1) * m + m
  {
  }

  lemma MulAssoc(a: nat, b: nat, c: nat)
    ensures a * b * c == a * (b * c)
  {
  }

  lemma BlockBound(j: nat, k: nat, n: nat, d: nat)
    requires j < n && k < d
    ensures j * d + k < n * d
  {
    assert j * d + k < j * d + d == (j + 1) * d;
    assert (j + 1) * d <= n * d;
  }

  lemma BlockIndex(i: nat, j: nat, k: nat, a: nat, d: nat)
    ensures (i * a + j) * d + k == i * (a * d) + (j * d + k)
  {
  }

  lemma {:induction false} PairsAt(t: string, accessTypes: seq<string>, ds: seq<string>, j: nat, k: nat)
    requires j < |accessTypes| && k < |ds|
    ensures j * |ds| + k < |Pairs(t, accessTypes, ds)|
    ensures Pairs(t, accessTypes, ds)[j * |ds| + k] == ShardKey(t, accessTypes[j], ds[k])
  {
    var init := accessTypes[..|accessTypes| - 1];
    PairsLength(t, accessTypes, ds);
    PairsLength(t, init, ds);
    BlockBound(j, k, |accessTypes|, |ds|);
    if j < |init| {
      PairsAt(t, init, ds, j, k);
    } else {
      assert j * |ds| + k == |Pairs(t, init, ds)| + k;
    }
  }

  /**
   * Nested-loop order: the combination (i, j, k) of the i-th traffic type,
   * j-th access type and k-th domain is URL number (i·|access| + j)·|domain| + k.
   */
  lemma {:induction false} ProductAt(trafficTypes: seq<string>, accessTypes: seq<string>, ds: seq<string>,
                                     i: nat, j: nat, k: nat)
    requires i < |trafficTypes| && j < |accessTypes| && k < |ds|
    ensures (i * |accessTypes| + j) * |ds| + k < |Product(trafficTypes, accessTypes, ds)|
    ensures Product(trafficTypes, accessTypes, ds)[(i * |accessTypes| + j) * |ds| + k]
         == ShardKey(trafficTypes[i], accessTypes[j], ds[k])
  {
    var inner := j * |ds| + k;
    var at := i * (|accessTypes| * |ds|) + inner;
    assert (i * |accessTypes| + j) * |ds| + k == at by {
      BlockIndex(i, j, k, |accessTypes|, |ds|);
    }
    assert inner < |accessTypes| * |ds| && Pairs(trafficTypes[i], accessTypes, ds)[inner]
        == ShardKey(trafficTypes[i], accessTypes[j], ds[k]) by {
      PairsAt(trafficTypes[i], accessTypes, ds, j, k);
      PairsLength(trafficTypes[i], accessTypes, ds);
    }
    BlockAt(trafficTypes, accessTypes, ds, i, inner);
  }

  /** Entry `inner` of the block of the i-th traffic type sits at i·block + inner. */
  lemma {:induction false} BlockAt(trafficTypes: seq<string>, accessTypes: seq<string>, ds: seq<string>,
                                   i: nat, inner: nat)
    requires i < |trafficTypes| && inner < |accessTypes| * |ds|
    ensures i * (|accessTypes| * |ds|) + inner < |Product(trafficTypes, accessTypes, ds)|
    ensures inner < |Pairs(trafficTypes[i], accessTypes, ds)|
    ensures Product(trafficTypes, accessTypes, ds)[i * (|accessTypes| * |ds|) + inner]
         == Pairs(trafficTypes[i], accessTypes, ds)[inner]
  {
    var init := trafficTypes[..|trafficTypes| - 1];
    var block := |accessTypes| * |ds|;
    BlockLength(trafficTypes, accessTypes, ds);
    BlockLength(init, accessTypes, ds);
    PairsLength(trafficTypes[i], accessTypes, ds);
    BlockBound(i, inner, |trafficTypes|, block);
    if i < |init| {
      BlockAt(init, accessTypes, ds, i, inner);
      BlockBound(i, inner, |init|, block);
    }
  }

  /** A combination is fetched exactly when each of its three parts is in its list. */
  lemma {:induction false} ProductMembership(trafficTypes: seq<string>, accessTypes: seq<string>, ds: seq<string>,
                                             key: ShardKey)
    ensures key in Product(trafficTypes, accessTypes, ds)
        <==> key.trafficType in trafficTypes && key.accessType in accessTypes && key.domain in ds
  {
    if trafficTypes != [] {
      var init := trafficTypes[..|trafficTypes| - 1];
      var last := trafficTypes[|trafficTypes| - 1];
      ProductMembership(init, accessTypes, ds, key);
      PairsMembership(last, accessTypes, ds, key);
      assert trafficTypes == init + [last];
    }
  }

  lemma {:induction false} PairsMembership(t: string, accessTypes: seq<string>, ds: seq<string>, key: ShardKey)
    ensures key in Pairs(t, accessTypes, ds)
        <==> key.trafficType == t && key.accessType in accessTypes && key.domain in ds
  {
    if accessTypes != [] {
      var init := accessTypes[..|accessTypes| - 1];
      var last := accessTypes[|accessTypes| - 1];
      PairsMembership(t, init, ds, key);
      assert accessTypes == init + [last];
      if key in Triples(t, last, ds) {
        var k :| 0 <= k < |ds| && Triples(t, last, ds)[k] == key;
        assert ds[k] == key.domain;
      }
      if key.trafficType == t && key.accessType == last && key.domain in ds {
        var k :| 0 <= k < |ds| && ds[k] == key.domain;
        assert Triples(t, last, ds)[k] == key;
      }
    }
  }

  /** Distinct selections give distinct combinations: no shard is fetched twice. */
  lemma {:induction false} ProductDistinct(trafficTypes: seq<string>, accessTypes: seq<string>, ds: seq<string>)
    requires Distinct(trafficTypes) && Distinct(accessTypes) && Distinct(ds)
    ensures Distinct(Product(trafficTypes, accessTypes, ds))
  {
    if trafficTypes != [] {
      var init := trafficTypes[..|trafficTypes| - 1];
      var last := trafficTypes[|trafficTypes| - 1];
      ProductDistinct(init, accessTypes, ds);
      PairsDistinct(last, accessTypes, ds);
      var p, q := Product(init, accessTypes, ds), Pairs(last, accessTypes, ds);
      forall a, b | 0 <= a < |p| && 0 <= b < |q|
        ensures p[a] != q[b]
      {
        ProductMembership(init, accessTypes, ds, p[a]);
        PairsMembership(last, accessTypes, ds, q[b]);
        assert last !in init;
      }
      DistinctConcat(p, q);
    }
  }

  lemma {:induction false} PairsDistinct(t: string, accessTypes: seq<string>, ds: seq<string>)
    requires Distinct(accessTypes) && Distinct(ds)
    ensures Distinct(Pairs(t, accessTypes, ds))
  {
    if accessTypes != [] {
      var init := accessTypes[..|accessTypes| - 1];
      var last := accessTypes[|accessTypes| - 1];
      PairsDistinct(t, init, ds);
      var p, q := Pairs(t, init, ds), Triples(t, last, ds);
      forall a, b | 0 <= a < |p| && 0 <= b < |q|
        ensures p[a] != q[b]
      {
        PairsMembership(t, init, ds, p[a]);
        assert last !in init;
      }
      DistinctConcat(p, q);
    }
  }

  lemma DistinctConcat<T>(p: seq<T>, q: seq<T>)
    requires Distinct(p) && Distinct(q)
    requires forall a, b :: 0 <= a < |p| && 0 <= b < |q| ==> p[a] != q[b]
    ensures Distinct(p + q)
  {
    forall a, b | 0 <= a < b < |p + q|
      ensures (p + q)[a] != (p + q)[b]
    {
      if b < |p| {
      } else if a < |p| {
        assert (p + q)[b] == q[b - |p|];
      } else {
        assert (p + q)[a] == q[a - |p|] && (p + q)[b] == q[b - |p|];
      }
    }
  }

  // ----- the URL text -----

  /** The path scheme written out: the fixed head, then the three names and the file name, each after a "/". */
  lemma {:induction false} ShardUrlForm(prefix: string, granularity: string, dateKey: string, k: ShardKey)
    ensures ShardUrl(prefix, granularity, dateKey, k)
         == (prefix + "/data/" + granularity + "/")
            + (k.trafficType + "/" + (k.accessType + "/" + (k.domain + "/" + (dateKey + ".json"))))
  {
    var file := dateKey + ".json";
    var parts := [k.trafficType, k.accessType, k.domain, file];
    assert parts[1..] == [k.accessType, k.domain, file];
    assert parts[1..][1..] == [k.domain, file];
    assert parts[1..][1..][1..] == [file];
    assert Join([file], "/") == file;
    assert Join([k.domain, file], "/") == k.domain + "/" + file;
    assert Join([k.accessType, k.domain, file], "/") == k.accessType + "/" + (k.domain + "/" + file);
    assert Join(parts, "/") == k.trafficType + "/" + (k.accessType + "/" + (k.domain + "/" + file));
  }

  lemma PrefixCancel(p: string, x: string, y: string)
    requires p + x == p + y
    ensures x == y
  {
    assert x == (p + x)[|p|..];
    assert y == (p + y)[|p|..];
  }

  predicate SlashFree(s: string)
  {
    '/' !in s
  }

  /** Two strings that start with slash-free parts ended by "/" agree on those parts. */
  lemma {:induction false} SplitAtSlash(a: string, x: string, b: string, y: string)
    requires SlashFree(a) && SlashFree(b)
    requires a + "/" + x == b + "/" + y
    ensures a == b && x == y
  {
    var s := a + "/" + x;
    assert s[|a|] == '/';
    assert s[|b|] == '/';
    assert a == s[..|a|] && b == s[..|b|];
    assert x == s[|a| + 1..] && y == s[|b| + 1..];
  }

  /** URLs with slash-free part names tell their combinations apart. */
  lemma {:induction false} ShardUrlInjective(prefix: string, granularity: string, dateKey: string,
                                             k1: ShardKey, k2: ShardKey)
    requires SlashFree(k1.trafficType) && SlashFree(k1.accessType) && SlashFree(k1.domain)
    requires SlashFree(k2.trafficType) && SlashFree(k2.accessType) && SlashFree(k2.domain)
    requires ShardUrl(prefix, granularity, dateKey, k1) == ShardUrl(prefix, granularity, dateKey, k2)
    ensures k1 == k2
  {
    var head := prefix + "/data/" + granularity + "/";
    var file := dateKey + ".json";
    ShardUrlForm(prefix, granularity, dateKey, k1);
    ShardUrlForm(prefix, granularity, dateKey, k2);
    var d1, d2 := k1.domain + "/" + file, k2.domain + "/" + file;
    var a1, a2 := k1.accessType + "/" + d1, k2.accessType + "/" + d2;
    PrefixCancel(head, k1.trafficType + "/" + a1, k2.trafficType + "/" + a2);
    SplitAtSlash(k1.trafficType, a1, k2.trafficType, a2);
    SplitAtSlash(k1.accessType, d1, k2.accessType, d2);
    SplitAtSlash(k1.domain, file, k2.domain, file);
  }

  /** With distinct, slash-free option labels the fetch list holds no URL twice. */
  lemma {:induction false} UrlsDistinct(prefix: string, granularity: string, dateKey: string,
                                        trafficTypes: seq<string>, accessTypes: seq<string>, ds: seq<string>)
    requires Distinct(trafficTypes) && Distinct(accessTypes) && Distinct(ds)
    requires forall s :: s in trafficTypes || s in accessTypes || s in ds ==> SlashFree(s)
    ensures Distinct(Urls(prefix, granularity, dateKey, Product(trafficTypes, accessTypes, ds)))
  {
    var keys := Product(trafficTypes, accessTypes, ds);
    var urls := Urls(prefix, granularity, dateKey, keys);
    ProductDistinct(trafficTypes, accessTypes, ds);
    forall a, b | 0 <= a < b < |urls|
      ensures urls[a] != urls[b]
    {
      ProductMembership(trafficTypes, accessTypes, ds, keys[a]);
      ProductMembership(trafficTypes, accessTypes, ds, keys[b]);
      if urls[a] == urls[b] {
        ShardUrlInjective(prefix, granularity, dateKey, keys[a], keys[b]);
      }
    }
  }

  /**
   * A selected "All" domain fans the monthly fetch out to every domain
   * option; without it the selected domains are used as they are.
   */
  lemma AllDomainsExpansion(selectedDomain: seq<string>, domainOptions: seq<string>,
                            trafficTypes: seq<string>, accessTypes: seq<string>, key: ShardKey)
    ensures "All" in selectedDomain ==>
      (key in Product(trafficTypes, accessTypes, CheckedDomains(selectedDomain, domainOptions))
       <==> key.trafficType in trafficTypes && key.accessType in accessTypes && key.domain in domainOptions)
    ensures "All" !in selectedDomain ==>
      (key in Product(trafficTypes, accessTypes, CheckedDomains(selectedDomain, domainOptions))
       <==> key.trafficType in trafficTypes && key.accessType in accessTypes && key.domain in selectedDomain)
    ensures "All" !in domainOptions && "All" in selectedDomain ==>
      key in Product(trafficTypes, accessTypes, CheckedDomains(selectedDomain, domainOptions)) ==> key.domain != "All"
  {
    ProductMembership(trafficTypes, accessTypes, CheckedDomains(selectedDomain, domainOptions), key);
  }

  /**
   * When "All" is itself one of the domain options (the only way a checkbox
   * for it can be drawn), ticking it also requests an "All" shard for every
   * selected traffic and access type.
   */
  lemma AllShardRequested(selectedDomain: seq<string>, domainOptions: seq<string>,
                          trafficTypes: seq<string>, accessTypes: seq<string>, t: string, a: string)
    requires "All" in selectedDomain && "All" in domainOptions
    requires t in trafficTypes && a in accessTypes
    ensures ShardKey(t, a, "All") in Product(trafficTypes, accessTypes, CheckedDomains(selectedDomain, domainOptions))
  {
    AllDomainsExpansion(selectedDomain, domainOptions, trafficTypes, accessTypes, ShardKey(t, a, "All"));
  }
}
