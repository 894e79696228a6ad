/** The paired comparison of two retrieval runs: per-case deltas pooled over clusters, a clustered
    bootstrap on exact fractions, nearest-rank quantiles, and the acceptance gate. */
module PairedComparison {
  import opened Prelude

  function Sum(xs: seq<real>): real {
    if xs == [] then 0.0 else Sum(xs[..|xs| - 1]) + xs[|xs| - 1]
  }

  function Mean(xs: seq<real>): real {
    if xs == [] then 0.0 else Sum(xs) / |xs| as real
  }

  // ---------------------------------------------------------------- clusters

  datatype Cluster = Cluster(name: string, values: seq<real>)

  /** Append a value to the cluster of that name, opening the cluster if need be. */
  function Add(clusters: seq<Cluster>, name: string, x: real): seq<Cluster> {
    if clusters == [] then [Cluster(name, [x])]
    else if clusters[0].name == name then [Cluster(name, clusters[0].values + [x])] + clusters[1..]
    else [clusters[0]] + Add(clusters[1..], name, x)
  }

  /** Case i belongs to the cluster `names[i]`. */
  function Group(names: seq<string>, xs: seq<real>): seq<Cluster>
    requires |names| == |xs|
  {
    if xs == [] then []
    else Add(Group(names[..|names| - 1], xs[..|xs| - 1]), names[|names| - 1], xs[|xs| - 1])
  }

  function Total(clusters: seq<Cluster>): real {
    if clusters == [] then 0.0 else Sum(clusters[0].values) + Total(clusters[1..])
  }

  function Count(clusters: seq<Cluster>): nat {
    if clusters == [] then 0 else |clusters[0].values| + Count(clusters[1..])
  }

  /** Ratio of sums over all clusters. */
  function Pooled(clusters: seq<Cluster>): real {
    if Count(clusters) == 0 then 0.0 else Total(clusters) / Count(clusters) as real
  }

  method GroupByCluster(names: seq<string>, xs: seq<real>) returns (clusters: seq<Cluster>)
    requires |names| == |xs|
    ensures clusters == Group(names, xs) && ByName(clusters, names, xs)
  {
    GroupIsByName(names, xs);
    clusters := [];
    for i := 0 to |xs|
      invariant clusters == Group(names[..i], xs[..i])
    {
      assert names[..i + 1][..i] == names[..i] && xs[..i + 1][..i] == xs[..i];
      clusters := Add(clusters, names[i], xs[i]);
    }
    assert names[..|xs|] == names && xs[..|xs|] == xs;
  }

  lemma {:induction false} AddTotals(clusters: seq<Cluster>, name: string, x: real)
    ensures Total(Add(clusters, name, x)) == Total(clusters) + x
    ensures Count(Add(clusters, name, x)) == Count(clusters) + 1
  {
    if clusters == [] {
      assert Sum([x]) == x;
    } else if clusters[0].name == name {
      var values := clusters[0].values + [x];
      assert values[..|values| - 1] == clusters[0].values;
    } else {
      AddTotals(clusters[1..], name, x);
      assert ([clusters[0]] + Add(clusters[1..], name, x))[1..] == Add(clusters[1..], name, x);
    }
  }

  lemma {:induction false} GroupTotals(names: seq<string>, xs: seq<real>)
    requires |names| == |xs|
    ensures Total(Group(names, xs)) == Sum(xs) && Count(Group(names, xs)) == |xs|
  {
    if xs != [] {
      GroupTotals(names[..|names| - 1], xs[..|xs| - 1]);
      AddTotals(Group(names[..|names| - 1], xs[..|xs| - 1]), names[|names| - 1], xs[|xs| - 1]);
    }
  }

  lemma {:induction false} GroupHasNoEmptyCluster(names: seq<string>, xs: seq<real>)
    requires |names| == |xs|
    ensures forall c :: c in Group(names, xs) ==> c.values != []
  {
    if xs != [] {
      GroupHasNoEmptyCluster(names[..|names| - 1], xs[..|xs| - 1]);
      AddHasNoEmptyCluster(Group(names[..|names| - 1], xs[..|xs| - 1]), names[|names| - 1], xs[|xs| - 1]);
    }
  }

  lemma {:induction false} AddHasNoEmptyCluster(clusters: seq<Cluster>, name: string, x: real)
    requires forall c :: c in clusters ==> c.values != []
    ensures forall c :: c in Add(clusters, name, x) ==> c.values != []
  {
    if clusters != [] && clusters[0].name != name {
      assert forall c :: c in clusters[1..] ==> c in clusters;
      AddHasNoEmptyCluster(clusters[1..], name, x);
    }
  }

  /** The first case of this name. */
  function FirstAt(names: seq<string>, name: string): nat
    requires name in names
  {
    if names[0] == name then 0 else 1 + FirstAt(names[1..], name)
  }

  /** The values of the cases of this name, in the cases' order. */
  function ValuesOf(names: seq<string>, xs: seq<real>, name: string): seq<real>
    requires |names| == |xs|
  {
    if xs == [] then []
    else
      var n := |xs| - 1;
      ValuesOf(names[..n], xs[..n], name) + if names[n] == name then [xs[n]] else []
  }

  lemma {:induction false} FirstAtAppend(names: seq<string>, last: string, name: string)
    requires name in names + [last]
    ensures FirstAt(names + [last], name) == if name in names then FirstAt(names, name) else |names|
  {
    if names != [] {
      assert (names + [last])[1..] == names[1..] + [last];
      if names[0] != name { FirstAtAppend(names[1..], last, name); }
    }
  }

  lemma {:induction false} FirstAtInside(names: seq<string>, name: string)
    requires name in names
    ensures FirstAt(names, name) < |names|
  {
    if names[0] != name { FirstAtInside(names[1..], name); }
  }

  /** Where a value goes: to cluster k, or behind all of them. */
  lemma {:induction false} AddAt(clusters: seq<Cluster>, name: string, x: real, k: nat)
    requires k <= |clusters| && (forall j :: 0 <= j < k ==> clusters[j].name != name)
    requires k < |clusters| ==> clusters[k].name == name
    ensures Add(clusters, name, x) ==
            if k < |clusters| then clusters[k := Cluster(name, clusters[k].values + [x])]
            else clusters + [Cluster(name, [x])]
  {
    if k > 0 {
      AddAt(clusters[1..], name, x, k - 1);
    }
  }

  /** Each cluster has the values of its name's cases, in order. */
  ghost predicate Filled(clusters: seq<Cluster>, names: seq<string>, xs: seq<real>)
    requires |names| == |xs|
  {
    forall k :: 0 <= k < |clusters| ==>
      clusters[k].name in names && clusters[k].values == ValuesOf(names, xs, clusters[k].name)
  }

  /** Clusters in the order in which their names first appear, one for each name. */
  ghost predicate Ordered(clusters: seq<Cluster>, names: seq<string>) {
    && (forall k :: 0 <= k < |clusters| ==> clusters[k].name in names)
    && (forall j, k :: 0 <= j < k < |clusters| ==>
          FirstAt(names, clusters[j].name) < FirstAt(names, clusters[k].name))
    && (forall name :: name in names ==> exists k :: 0 <= k < |clusters| && clusters[k].name == name)
  }

  ghost predicate ByName(clusters: seq<Cluster>, names: seq<string>, xs: seq<real>)
    requires |names| == |xs|
  {
    Filled(clusters, names, xs) && Ordered(clusters, names)
  }

  lemma AddKeepsFilled(clusters: seq<Cluster>, names: seq<string>, xs: seq<real>, name: string, x: real)
    requires |names| == |xs| && ByName(clusters, names, xs)
    ensures Filled(Add(clusters, name, x), names + [name], xs + [x])
  {
    hide Add, FirstAt, ValuesOf;
    var k := FindCluster(clusters, name);
    AddAt(clusters, name, x, k);
    ValuesAppend(names, xs, name, x);
    if k == |clusters| {
      assert name !in names;
      NoValues(names, xs, name);
    } else {
      forall j | 0 <= j < |clusters| && j != k ensures clusters[j].name != name {
        assert FirstAt(names, clusters[j].name) != FirstAt(names, clusters[k].name);
      }
    }
  }

  lemma AddKeepsOrdered(clusters: seq<Cluster>, names: seq<string>, name: string, x: real)
    requires Ordered(clusters, names)
    ensures Ordered(Add(clusters, name, x), names + [name])
  {
    hide Add, FirstAt;
    var more, all := Add(clusters, name, x), names + [name];
    var k := FindCluster(clusters, name);
    AddAt(clusters, name, x, k);
    assert forall j :: 0 <= j < |clusters| ==> more[j].name == clusters[j].name;
    forall j | 0 <= j < |more|
      ensures FirstAt(all, more[j].name) == if more[j].name in names then FirstAt(names, more[j].name) else |names|
    {
      FirstAtAppend(names, name, more[j].name);
    }
    forall i, j | 0 <= i < j < |more| ensures FirstAt(all, more[i].name) < FirstAt(all, more[j].name) {
      FirstAtInside(names, clusters[i].name);
    }
    forall other | other in all ensures exists j :: 0 <= j < |more| && more[j].name == other {
      if other == name {
        assert more[k].name == name;
      } else {
        var j :| 0 <= j < |clusters| && clusters[j].name == other;
        assert more[j].name == other;
      }
    }
  }

  lemma FindCluster(clusters: seq<Cluster>, name: string) returns (k: nat)
    ensures k <= |clusters| && (forall j :: 0 <= j < k ==> clusters[j].name != name)
    ensures k < |clusters| ==> clusters[k].name == name
  {
    k := 0;
    while k < |clusters| && clusters[k].name != name
      invariant k <= |clusters| && forall j :: 0 <= j < k ==> clusters[j].name != name
    {
      k := k + 1;
    }
  }

  lemma ValuesAppend(names: seq<string>, xs: seq<real>, last: string, x: real)
    requires |names| == |xs|
    ensures forall name :: ValuesOf(names + [last], xs + [x], name) ==
                           ValuesOf(names, xs, name) + if last == name then [x] else []
  {
    assert (names + [last])[..|xs|] == names && (xs + [x])[..|xs|] == xs;
  }

  lemma {:induction false} NoValues(names: seq<string>, xs: seq<real>, name: string)
    requires |names| == |xs| && name !in names
    ensures ValuesOf(names, xs, name) == []
  {
    if xs != [] {
      var n := |xs| - 1;
      assert names[n] in names && forall other :: other in names[..n] ==> other in names;
      NoValues(names[..n], xs[..n], name);
    }
  }

  lemma {:induction false} GroupIsByName(names: seq<string>, xs: seq<real>)
    requires |names| == |xs|
    ensures ByName(Group(names, xs), names, xs)
  {
    if xs != [] {
      var n := |xs| - 1;
      GroupIsByName(names[..n], xs[..n]);
      AddKeepsFilled(Group(names[..n], xs[..n]), names[..n], xs[..n], names[n], xs[n]);
      AddKeepsOrdered(Group(names[..n], xs[..n]), names[..n], names[n], xs[n]);
      assert names[..n] + [names[n]] == names && xs[..n] + [xs[n]] == xs;
    }
  }

  /** The point estimate does not depend on how cases are clustered: it is the plain mean. */
  lemma PooledIsThePlainMean(names: seq<string>, xs: seq<real>)
    requires |names| == |xs|
    ensures Pooled(Group(names, xs)) == Mean(xs)
  {
    GroupTotals(names, xs);
  }

  function Deltas(base: seq<real>, cand: seq<real>): (ds: seq<real>)
    requires |base| == |cand|
    ensures |ds| == |base| && forall i :: 0 <= i < |ds| ==> ds[i] == cand[i] - base[i]
  {
    seq(|base|, i requires 0 <= i < |base| => cand[i] - base[i])
  }

  lemma {:induction false} SumOfDeltas(base: seq<real>, cand: seq<real>)
    requires |base| == |cand|
    ensures Sum(Deltas(base, cand)) == Sum(cand) - Sum(base)
  {
    if base != [] {
      var n := |base| - 1;
      SumOfDeltas(base[..n], cand[..n]);
      assert Deltas(base, cand)[..n] == Deltas(base[..n], cand[..n]);
    }
  }

  lemma MeanOfDeltas(base: seq<real>, cand: seq<real>)
    requires |base| == |cand|
    ensures Mean(Deltas(base, cand)) == Mean(cand) - Mean(base)
  {
    SumOfDeltas(base, cand);
    if base != [] {
      var n := |base| as real;
      assert (Sum(cand) - Sum(base)) / n == Sum(cand) / n - Sum(base) / n;
    }
  }

  // ---------------------------------------------------------------- the bootstrap

  /** An exact fraction, in any representation with a positive denominator. */
  datatype Frac = Frac(num: int, den: int)

  function Value(f: Frac): real
    requires f.den > 0
  {
    f.num as real / f.den as real
  }

  predicate IsDraw(clusters: seq<Cluster>, draw: seq<nat>) {
    forall k :: 0 <= k < |draw| ==> draw[k] < |clusters|
  }

  /** The clusters drawn, repeats included. */
  function Drawn(clusters: seq<Cluster>, draw: seq<nat>): seq<Cluster>
    requires IsDraw(clusters, draw)
  {
    if draw == [] then [] else [clusters[draw[0]]] + Drawn(clusters, draw[1..])
  }

  /** The statistic of one draw: the pooled ratio of the clusters drawn. */
  function DrawStatistic(clusters: seq<Cluster>, draw: seq<nat>): real
    requires IsDraw(clusters, draw)
  {
    Pooled(Drawn(clusters, draw))
  }

  /** The clusters' sums as fractions, and a positive common multiple of their denominators. */
  ghost predicate Scales(clusters: seq<Cluster>, totals: seq<Frac>, denominator: int) {
    && |totals| == |clusters| && denominator > 0
    && forall i :: 0 <= i < |totals| ==>
         && totals[i].den > 0
         && Value(totals[i]) == Sum(clusters[i].values)
         && totals[i].den * (denominator / totals[i].den) == denominator
  }

  lemma TimesTimes(a: real, b: real, c: real)
    ensures (a * b) * c == a * (b * c)
  {
  }

  lemma ScaledSum(f: Frac, denominator: int)
    requires f.den > 0 && denominator > 0 && f.den * (denominator / f.den) == denominator
    ensures (f.num * (denominator / f.den)) as real == Value(f) * denominator as real
  {
    var k := denominator / f.den;
    assert (f.num * k) as real == f.num as real * k as real;
    assert (f.den * k) as real == f.den as real * k as real;
    assert Value(f) * f.den as real == f.num as real;
    TimesTimes(Value(f), f.den as real, k as real);
  }

  lemma Distribute(a: real, b: real, c: real)
    ensures (a + b) * c == a * c + b * c
  {
  }

  lemma CancelFactor(s: real, d: real, n: real)
    requires d > 0.0 && n > 0.0
    ensures (s * d) / (d * n) == s / n
  {
    var q := s / n;
    assert q * n == s;
    assert d * n > 0.0;
    assert s * d == q * (d * n) by {
      TimesTimes(q, n, d);
      assert n * d == d * n;
    }
    DivideBack(q, d * n, s * d);
  }

  lemma DivideBack(q: real, m: real, p: real)
    requires m > 0.0 && p == q * m
    ensures p / m == q
  {
  }

  /** One draw, computed on integers: the scaled sums and the sizes of the clusters drawn. */
  method ScaledDraw(clusters: seq<Cluster>, totals: seq<Frac>, denominator: int, draw: seq<nat>)
    returns (statistic: real)
    requires Scales(clusters, totals, denominator) && IsDraw(clusters, draw)
    ensures statistic == DrawStatistic(clusters, draw)
  {
    hide Value, DrawStatistic, Total, Count, Drawn;
    var sums := ScaledSums(clusters, totals, denominator);
    var sizes := seq(|clusters|, i requires 0 <= i < |clusters| => |clusters[i].values|);
    var total: int, count: nat := 0, 0;
    NothingDrawn(clusters);
    assert draw[..0] == [];
    for k := 0 to |draw|
      invariant total as real == Total(Drawn(clusters, draw[..k])) * denominator as real
      invariant count == Count(Drawn(clusters, draw[..k]))
    {
      var j := draw[k];
      DrawOneMore(clusters, draw, k);
      Distribute(Total(Drawn(clusters, draw[..k])), Sum(clusters[j].values), denominator as real);
      total := total + sums[j];
      count := count + sizes[j];
    }
    assert draw[..|draw|] == draw;
    statistic := Ratio(clusters, draw, total, denominator, count);
  }

  lemma NothingDrawn(clusters: seq<Cluster>)
    ensures Total(Drawn(clusters, [])) == 0.0 && Count(Drawn(clusters, [])) == 0
  {
  }

  method ScaledSums(clusters: seq<Cluster>, totals: seq<Frac>, denominator: int) returns (sums: seq<int>)
    requires Scales(clusters, totals, denominator)
    ensures |sums| == |clusters|
    ensures forall i :: 0 <= i < |sums| ==> sums[i] as real == Sum(clusters[i].values) * denominator as real
  {
    sums := seq(|totals|, i requires 0 <= i < |totals| => totals[i].num * (denominator / totals[i].den));
    forall i | 0 <= i < |sums| ensures sums[i] as real == Sum(clusters[i].values) * denominator as real {
      ScaledSum(totals[i], denominator);
    }
  }

  lemma TimesAsReal(a: int, b: int)
    ensures (a * b) as real == a as real * b as real
    ensures a > 0 && b > 0 ==> a * b > 0
  {
  }

  method Ratio(clusters: seq<Cluster>, draw: seq<nat>, total: int, denominator: int, count: nat) returns (statistic: real)
    requires IsDraw(clusters, draw) && denominator > 0
    requires total as real == Total(Drawn(clusters, draw)) * denominator as real
    requires count == Count(Drawn(clusters, draw))
    ensures statistic == DrawStatistic(clusters, draw)
  {
    hide Total, Count, Drawn;
    if count == 0 {
      return 0.0;
    }
    CancelFactor(Total(Drawn(clusters, draw)), denominator as real, count as real);
    TimesAsReal(denominator, count);
    statistic := total as real / (denominator * count) as real;
  }

  lemma {:induction false} TotalsConcat(a: seq<Cluster>, b: seq<Cluster>)
    ensures Total(a + b) == Total(a) + Total(b) && Count(a + b) == Count(a) + Count(b)
  {
    if a == [] {
      assert a + b == b;
    } else {
      assert (a + b)[1..] == a[1..] + b;
      TotalsConcat(a[1..], b);
    }
  }

  lemma {:induction false} DrawnConcat(clusters: seq<Cluster>, a: seq<nat>, b: seq<nat>)
    requires IsDraw(clusters, a) && IsDraw(clusters, b)
    ensures Drawn(clusters, a + b) == Drawn(clusters, a) + Drawn(clusters, b)
  {
    if a == [] {
      assert a + b == b;
    } else {
      assert (a + b)[1..] == a[1..] + b;
      DrawnConcat(clusters, a[1..], b);
    }
  }

  lemma DrawOneMore(clusters: seq<Cluster>, draw: seq<nat>, k: nat)
    requires IsDraw(clusters, draw) && k < |draw|
    ensures IsDraw(clusters, draw[..k]) && IsDraw(clusters, draw[..k + 1]) && draw[k] < |clusters|
    ensures Total(Drawn(clusters, draw[..k + 1])) == Total(Drawn(clusters, draw[..k])) + Sum(clusters[draw[k]].values)
    ensures Count(Drawn(clusters, draw[..k + 1])) == Count(Drawn(clusters, draw[..k])) + |clusters[draw[k]].values|
  {
    assert draw[..k + 1] == draw[..k] + [draw[k]];
    DrawnConcat(clusters, draw[..k], [draw[k]]);
    assert Drawn(clusters, [draw[k]]) == [clusters[draw[k]]];
    TotalsConcat(Drawn(clusters, draw[..k]), [clusters[draw[k]]]);
  }

  /** A sum of n values that all lie between the bounds. */
  predicate InBand(lo: real, hi: real, n: nat, sum: real) {
    lo * n as real <= sum <= hi * n as real
  }

  /** A nonempty draw's statistic lies between any bounds on the drawn clusters' means. */
  lemma DrawLiesBetweenClusterMeans(clusters: seq<Cluster>, draw: seq<nat>, lo: real, hi: real)
    requires IsDraw(clusters, draw) && draw != []
    requires forall c :: c in clusters ==> c.values != [] && lo <= Mean(c.values) <= hi
    ensures lo <= DrawStatistic(clusters, draw) <= hi
  {
    hide InBand, Mean, Drawn, Total, Count;
    var drawn := Drawn(clusters, draw);
    DrawnMembers(clusters, draw);
    forall c | c in drawn ensures InBand(lo, hi, |c.values|, Sum(c.values)) {
      ClusterInBand(c.values, lo, hi);
    }
    BandOfTotals(drawn, lo, hi);
    RatioInBand(Total(drawn), Count(drawn), lo, hi);
  }

  /** The clusters a comparison builds are never empty, so every draw of it is that well behaved. */
  lemma ComparisonDrawLiesBetweenClusterMeans(
      names: seq<string>, xs: seq<real>, draw: seq<nat>, lo: real, hi: real)
    requires |names| == |xs| && IsDraw(Group(names, xs), draw) && draw != []
    requires forall c :: c in Group(names, xs) ==> lo <= Mean(c.values) <= hi
    ensures lo <= DrawStatistic(Group(names, xs), draw) <= hi
  {
    hide Group, Mean, DrawStatistic;
    GroupHasNoEmptyCluster(names, xs);
    DrawLiesBetweenClusterMeans(Group(names, xs), draw, lo, hi);
  }

  lemma {:induction false} DrawnMembers(clusters: seq<Cluster>, draw: seq<nat>)
    requires IsDraw(clusters, draw)
    ensures |Drawn(clusters, draw)| == |draw| && forall c :: c in Drawn(clusters, draw) ==> c in clusters
  {
    if draw != [] {
      DrawnMembers(clusters, draw[1..]);
      assert clusters[draw[0]] in clusters;
    }
  }

  lemma RatioInBand(total: real, n: nat, lo: real, hi: real)
    requires n > 0 && InBand(lo, hi, n, total)
    ensures lo <= total / n as real <= hi
  {
    var q := total / n as real;
    assert q * n as real == total;
  }

  lemma BandsAdd(lo: real, hi: real, n: nat, m: nat, s: real, t: real)
    requires InBand(lo, hi, n, s) && InBand(lo, hi, m, t)
    ensures InBand(lo, hi, n + m, s + t)
  {
    assert (n + m) as real == n as real + m as real;
    Distribute(n as real, m as real, lo);
    Distribute(n as real, m as real, hi);
  }

  lemma EmptyBand(lo: real, hi: real)
    ensures InBand(lo, hi, 0, 0.0)
  {
  }

  lemma {:induction false} BandOfTotals(drawn: seq<Cluster>, lo: real, hi: real)
    requires forall c :: c in drawn ==> c.values != [] && InBand(lo, hi, |c.values|, Sum(c.values))
    ensures InBand(lo, hi, Count(drawn), Total(drawn)) && (drawn != [] ==> Count(drawn) > 0)
  {
    hide InBand, Sum;
    if drawn == [] {
      EmptyBand(lo, hi);
    } else {
      assert forall c :: c in drawn[1..] ==> c in drawn;
      BandOfTotals(drawn[1..], lo, hi);
      BandsAdd(lo, hi, |drawn[0].values|, Count(drawn[1..]), Sum(drawn[0].values), Total(drawn[1..]));
    }
  }

  lemma ClusterInBand(values: seq<real>, lo: real, hi: real)
    requires values != [] && lo <= Mean(values) <= hi
    ensures InBand(lo, hi, |values|, Sum(values))
  {
    var n := |values| as real;
    assert Mean(values) * n == Sum(values);
    Scale(lo, Mean(values), n);
    Scale(Mean(values), hi, n);
  }

  lemma Scale(a: real, b: real, n: real)
    requires a <= b && n >= 0.0
    ensures a * n <= b * n
  {
  }

  // ---------------------------------------------------------------- quantiles

  predicate Ascending(xs: seq<real>) {
    forall i, j :: 0 <= i < j < |xs| ==> xs[i] <= xs[j]
  }

  /** A quantile q written as per-mille, so that q * n is exact. */
  function Rank(q: nat, n: nat): (k: int)
    ensures q * n <= 1000 * k < q * n + 1000
  {
    (q * n + 999) / 1000
  }

  /** Nearest rank: the ceil(q * n)-th smallest value. */
  function Percentile(xs: seq<real>, q: nat): real {
    var n := |xs|;
    if n == 0 then 0.0
    else
      var index := if Rank(q, n) >= 1 then Rank(q, n) - 1 else 0;
      xs[if index < n - 1 then index else n - 1]
  }

  function AtMost(xs: seq<real>, x: real): nat {
    if xs == [] then 0 else AtMost(xs[..|xs| - 1], x) + if xs[|xs| - 1] <= x then 1 else 0
  }

  lemma {:induction false} AtMostReaches(xs: seq<real>, x: real, k: nat)
    requires k <= |xs| && forall i :: 0 <= i < k ==> xs[i] <= x
    ensures AtMost(xs, x) >= k
  {
    if xs != [] {
      AtMostReaches(xs[..|xs| - 1], x, if k == |xs| then k - 1 else k);
    }
  }

  lemma {:induction false} AtMostStops(xs: seq<real>, x: real, k: nat)
    requires k <= |xs| && forall i :: k <= i < |xs| ==> x < xs[i]
    ensures AtMost(xs, x) <= k
  {
    if xs != [] {
      AtMostStops(xs[..|xs| - 1], x, if k == |xs| then k - 1 else k);
    }
  }

  /** The percentile is an attained value, at least a share q of the values are at most it, and it is
      the least value of which that is true. */
  lemma PercentileIsTheLeastWithEnoughBelow(xs: seq<real>, q: nat, x: real)
    requires Ascending(xs) && xs != [] && 0 < q <= 1000
    ensures Percentile(xs, q) in xs
    ensures 1000 * AtMost(xs, Percentile(xs, q)) >= q * |xs|
    ensures x < Percentile(xs, q) ==> 1000 * AtMost(xs, x) < q * |xs|
  {
    var n := |xs|;
    var k := Rank(q, n);
    assert 0 < q * n <= 1000 * n;
    assert 1 <= k <= n;
    var r := xs[k - 1];
    assert Percentile(xs, q) == r;
    AtMostReaches(xs, r, k);
    if x < r {
      AtMostStops(xs, x, k - 1);
    }
  }

  lemma PercentilesGrow(xs: seq<real>, p: nat, q: nat)
    requires Ascending(xs) && p <= q
    ensures Percentile(xs, p) <= Percentile(xs, q)
  {
    RanksGrow(p, q, |xs|);
  }

  lemma RanksGrow(p: nat, q: nat, n: nat)
    requires p <= q
    ensures Rank(p, n) <= Rank(q, n)
  {
    assert (q - p) * n >= 0;
    assert p * n + (q - p) * n == q * n;
  }

  function Insert(xs: seq<real>, x: real): seq<real> {
    if xs == [] then [x] else if x <= xs[0] then [x] + xs else [xs[0]] + Insert(xs[1..], x)
  }

  /** The values in ascending order. */
  function Sorted(xs: seq<real>): seq<real> {
    if xs == [] then [] else Insert(Sorted(xs[..|xs| - 1]), xs[|xs| - 1])
  }

  lemma {:induction false} InsertSorts(xs: seq<real>, x: real)
    requires Ascending(xs)
    ensures Ascending(Insert(xs, x))
    ensures forall y :: y in Insert(xs, x) ==> y in xs || y == x
  {
    if xs != [] && xs[0] < x {
      InsertSorts(xs[1..], x);
      var rest := Insert(xs[1..], x);
      forall i | 0 <= i < |rest| ensures xs[0] <= rest[i] {
        assert rest[i] in rest;
      }
    }
  }

  lemma {:induction false} InsertKeeps(xs: seq<real>, x: real)
    ensures multiset(Insert(xs, x)) == multiset(xs) + multiset{x}
  {
    if xs != [] {
      assert xs == [xs[0]] + xs[1..];
      InsertKeeps(xs[1..], x);
    }
  }

  lemma {:induction false} SortedSorts(xs: seq<real>)
    ensures Ascending(Sorted(xs)) && multiset(Sorted(xs)) == multiset(xs)
  {
    if xs != [] {
      SortedSorts(xs[..|xs| - 1]);
      InsertSorts(Sorted(xs[..|xs| - 1]), xs[|xs| - 1]);
      InsertKeeps(Sorted(xs[..|xs| - 1]), xs[|xs| - 1]);
      assert xs == xs[..|xs| - 1] + [xs[|xs| - 1]];
    }
  }

  // ---------------------------------------------------------------- the gate

  const MIN_R10_DELTA: real := 0.02
  const MIN_MRR_DELTA: real := -0.005
  const MAX_MISS_DELTA: real := 0.005
  const MIN_CLUSTER_R10_DELTA: real := -0.02
  const MIN_CLUSTERS_FOR_INTERVAL: nat := 5
  const MIN_CLUSTER_SIZE_FOR_VETO: nat := 5

  datatype Clause = MeanRecall | LowerBound | MeanMrr | MissRate | ClusterRegressed

  predicate Regressed(c: Cluster) {
    |c.values| >= MIN_CLUSTER_SIZE_FOR_VETO && Mean(c.values) < MIN_CLUSTER_R10_DELTA
  }

  /** The failing clauses, in the order they are reported; the candidate is accepted when there is none. */
  method Judge(r10: real, lowerBound: real, mrr: real, miss: real, clusters: seq<Cluster>)
    returns (accept: bool, failing: seq<Clause>)
    ensures accept == Accepts(r10, lowerBound, mrr, miss, clusters)
    ensures accept <==> failing == []
    ensures MeanRecall in failing <==> r10 < MIN_R10_DELTA
    ensures LowerBound in failing <==> lowerBound <= 0.0
    ensures MeanMrr in failing <==> mrr < MIN_MRR_DELTA
    ensures MissRate in failing <==> miss > MAX_MISS_DELTA
    ensures ClusterRegressed in failing <==> exists c :: c in clusters && Regressed(c)
  {
    failing := [];
    if !(r10 >= MIN_R10_DELTA) {
      failing := failing + [MeanRecall];
    }
    if !(lowerBound > 0.0) {
      failing := failing + [LowerBound];
    }
    if !(mrr >= MIN_MRR_DELTA) {
      failing := failing + [MeanMrr];
    }
    if !(miss <= MAX_MISS_DELTA) {
      failing := failing + [MissRate];
    }
    if exists c :: c in clusters && Regressed(c) {
      failing := failing + [ClusterRegressed];
    }
    accept := failing == [];
  }

  predicate Accepts(r10: real, lowerBound: real, mrr: real, miss: real, clusters: seq<Cluster>) {
    && r10 >= MIN_R10_DELTA && lowerBound > 0.0 && mrr >= MIN_MRR_DELTA && miss <= MAX_MISS_DELTA
    && forall c :: c in clusters ==> !Regressed(c)
  }

  /** One run's scores, case by case, in the order of the paired case ids. */
  datatype Arm = Arm(recall: seq<real>, mrr: seq<real>, miss: seq<real>)

  predicate OfSize(arm: Arm, n: nat) {
    |arm.recall| == n && |arm.mrr| == n && |arm.miss| == n
  }

  /** The bootstrap statistics of the given draws. */
  function Statistics(clusters: seq<Cluster>, draws: seq<seq<nat>>): (stats: seq<real>)
    requires forall d :: d in draws ==> IsDraw(clusters, d)
    ensures |stats| == |draws|
    ensures forall i :: 0 <= i < |draws| ==> stats[i] == DrawStatistic(clusters, draws[i])
  {
    seq(|draws|, i requires 0 <= i < |draws| => assert draws[i] in draws; DrawStatistic(clusters, draws[i]))
  }

  const LOWER: nat := 25
  const UPPER: nat := 975

  /** The bootstrap interval, each draw computed on integers. */
  method Bootstrap(clusters: seq<Cluster>, totals: seq<Frac>, denominator: int, draws: seq<seq<nat>>)
    returns (lower: real, upper: real)
    requires Scales(clusters, totals, denominator) && forall d :: d in draws ==> IsDraw(clusters, d)
    ensures lower == Quantile(clusters, draws, LOWER) && upper == Quantile(clusters, draws, UPPER)
  {
    var stats := [];
    for i := 0 to |draws|
      invariant |stats| == i && forall k :: 0 <= k < i ==> stats[k] == DrawStatistic(clusters, draws[k])
    {
      assert draws[i] in draws;
      var statistic := ScaledDraw(clusters, totals, denominator, draws[i]);
      stats := stats + [statistic];
    }
    assert stats == Statistics(clusters, draws);
    lower := Percentile(Sorted(stats), LOWER);
    upper := Percentile(Sorted(stats), UPPER);
  }

  function Quantile(clusters: seq<Cluster>, draws: seq<seq<nat>>, q: nat): real
    requires forall d :: d in draws ==> IsDraw(clusters, d)
  {
    Percentile(Sorted(Statistics(clusters, draws)), q)
  }

  /** The whole comparison: None when it refuses to give a verdict, otherwise whether it accepts. */
  function Compare(base: Arm, cand: Arm, names: seq<string>, minN: nat, draws: seq<seq<nat>>): Option<bool>
    requires OfSize(base, |names|) && OfSize(cand, |names|)
    requires forall d :: d in draws ==> IsDraw(Group(names, Deltas(base.recall, cand.recall)), d)
  {
    var recall := Group(names, Deltas(base.recall, cand.recall));
    var mrr := Group(names, Deltas(base.mrr, cand.mrr));
    if |names| < minN || |recall| < MIN_CLUSTERS_FOR_INTERVAL then None
    else
      Some(Accepts(Pooled(recall), Quantile(recall, draws, LOWER), Pooled(mrr), Mean(cand.miss) - Mean(base.miss), recall))
  }

  /** The comparison as it is carried out: both deltas grouped, the interval drawn, the clauses judged. */
  method CompareArms(base: Arm, cand: Arm, names: seq<string>, minN: nat, totals: seq<Frac>, denominator: int,
                     draws: seq<seq<nat>>)
    returns (verdict: Option<bool>, failing: seq<Clause>)
    requires OfSize(base, |names|) && OfSize(cand, |names|)
    requires Scales(Group(names, Deltas(base.recall, cand.recall)), totals, denominator)
    requires forall d :: d in draws ==> IsDraw(Group(names, Deltas(base.recall, cand.recall)), d)
    ensures verdict == Compare(base, cand, names, minN, draws)
    ensures verdict == Some(true) ==> failing == []
    ensures verdict == Some(false) ==> failing != []
  {
    if |names| < minN {
      return None, [];
    }
    var recall := GroupByCluster(names, Deltas(base.recall, cand.recall));
    var mrr := GroupByCluster(names, Deltas(base.mrr, cand.mrr));
    if |recall| < MIN_CLUSTERS_FOR_INTERVAL {
      return None, [];
    }
    var lower, upper := Bootstrap(recall, totals, denominator, draws);
    var accept;
    accept, failing := Judge(Pooled(recall), lower, Pooled(mrr), Mean(cand.miss) - Mean(base.miss), recall);
    verdict := Some(accept);
  }

  // ---------------------------------------------------------------- exactly when a comparison accepts

  lemma {:induction false} OneClusterForEachName(clusters: seq<Cluster>, names: set<string>)
    requires forall j, k :: 0 <= j < k < |clusters| ==> clusters[j].name != clusters[k].name
    requires forall name :: name in names <==> exists k :: 0 <= k < |clusters| && clusters[k].name == name
    ensures |clusters| == |names|
  {
    if clusters == [] {
      assert names == {};
    } else {
      var n := |clusters| - 1;
      var last := clusters[n].name;
      forall name ensures name in names - {last} <==> exists k :: 0 <= k < n && clusters[..n][k].name == name {
        if name in names - {last} {
          var k :| 0 <= k < |clusters| && clusters[k].name == name;
          assert clusters[..n][k].name == name;
        }
      }
      OneClusterForEachName(clusters[..n], names - {last});
      assert clusters[n].name in names;
    }
  }

  /** There are as many clusters as distinct names, and none has regressed exactly when no name's cases have. */
  lemma ClustersAreTheNames(names: seq<string>, xs: seq<real>)
    requires |names| == |xs|
    ensures |Group(names, xs)| == |set name | name in names|
    ensures (forall c :: c in Group(names, xs) ==> !Regressed(c)) <==>
            forall name :: name in names ==> !Regressed(Cluster(name, ValuesOf(names, xs, name)))
  {
    hide Group, FirstAt, ValuesOf, Regressed;
    var clusters := Group(names, xs);
    GroupIsByName(names, xs);
    OneClusterForEachName(clusters, set name | name in names);
    forall k | 0 <= k < |clusters|
      ensures clusters[k] == Cluster(clusters[k].name, ValuesOf(names, xs, clusters[k].name)) && clusters[k].name in names
    {
    }
    forall name | name in names ensures Cluster(name, ValuesOf(names, xs, name)) in clusters {
      var k :| 0 <= k < |clusters| && clusters[k].name == name;
      assert clusters[k] == Cluster(name, ValuesOf(names, xs, name));
    }
    forall c | c in clusters ensures c.name in names && c == Cluster(c.name, ValuesOf(names, xs, c.name)) {
      var k :| 0 <= k < |clusters| && clusters[k] == c;
    }
  }

  lemma {:induction false} AtMostGrows(xs: seq<real>, x: real, y: real)
    requires x <= y
    ensures AtMost(xs, x) <= AtMost(xs, y)
  {
    if xs != [] { AtMostGrows(xs[..|xs| - 1], x, y); }
  }

  /** A quantile is above x exactly when less than its share of the draws is at most x. */
  lemma QuantileIsAboveExactly(clusters: seq<Cluster>, draws: seq<seq<nat>>, q: nat, x: real)
    requires draws != [] && 0 < q <= 1000 && forall d :: d in draws ==> IsDraw(clusters, d)
    ensures x < Quantile(clusters, draws, q) <==> 1000 * AtMost(Statistics(clusters, draws), x) < q * |draws|
  {
    hide AtMost, DrawStatistic, Percentile, Sorted;
    var stats := Statistics(clusters, draws);
    var sorted := Sorted(stats);
    SortedSorts(stats);
    assert |multiset(sorted)| == |sorted| && |multiset(stats)| == |stats|;
    SameCounts(sorted, stats, x);
    PercentileIsTheLeastWithEnoughBelow(sorted, q, x);
    if Percentile(sorted, q) <= x {
      AtMostGrows(sorted, Percentile(sorted, q), x);
    }
  }

  /** All cases of one name, if there are enough of them, did not get worse by more than the veto allows. */
  predicate KeepsRecall(names: seq<string>, xs: seq<real>, name: string)
    requires |names| == |xs|
  {
    var values := ValuesOf(names, xs, name);
    |values| >= MIN_CLUSTER_SIZE_FOR_VETO ==> Mean(values) >= MIN_CLUSTER_R10_DELTA
  }

  /** A comparison refuses exactly with too few cases or too few distinct names.  Otherwise it accepts
      exactly when the plain means meet their margins, less than the lower level's share of draws fails
      to improve, and no name with enough cases has lost recall by more than the veto allows. */
  lemma AcceptsExactly(base: Arm, cand: Arm, names: seq<string>, minN: nat, draws: seq<seq<nat>>)
    requires OfSize(base, |names|) && OfSize(cand, |names|)
    requires forall d :: d in draws ==> IsDraw(Group(names, Deltas(base.recall, cand.recall)), d)
    ensures var result, ds := Compare(base, cand, names, minN, draws), Deltas(base.recall, cand.recall);
            && (result.None? <==> |names| < minN || |set name | name in names| < MIN_CLUSTERS_FOR_INTERVAL)
            && (result.Some? ==>
                  (result.value <==>
                    && Mean(cand.recall) - Mean(base.recall) >= MIN_R10_DELTA
                    && Mean(cand.mrr) - Mean(base.mrr) >= MIN_MRR_DELTA
                    && Mean(cand.miss) - Mean(base.miss) <= MAX_MISS_DELTA
                    && 1000 * AtMost(Statistics(Group(names, ds), draws), 0.0) < LOWER * |draws|
                    && forall name :: name in names ==> KeepsRecall(names, ds, name)))
  {
    hide Group, Mean, ValuesOf, Quantile, AtMost, Pooled, FirstAt;
    var recall, mrr := Deltas(base.recall, cand.recall), Deltas(base.mrr, cand.mrr);
    ClustersAreTheNames(names, recall);
    PooledIsThePlainMean(names, recall);
    PooledIsThePlainMean(names, mrr);
    MeanOfDeltas(base.recall, cand.recall);
    MeanOfDeltas(base.mrr, cand.mrr);
    forall name ensures Regressed(Cluster(name, ValuesOf(names, recall, name))) <==> !KeepsRecall(names, recall, name) {}
    if draws == [] {
      NoDraws(Group(names, recall));
    } else {
      QuantileIsAboveExactly(Group(names, recall), draws, LOWER, 0.0);
    }
  }

  lemma NoDraws(clusters: seq<Cluster>)
    ensures Quantile(clusters, [], LOWER) == 0.0
  {
  }

  /** An accepted candidate is better by the stated margins in plain means, whatever the clustering. */
  lemma AcceptedMeansBetter(base: Arm, cand: Arm, names: seq<string>, minN: nat, draws: seq<seq<nat>>)
    requires OfSize(base, |names|) && OfSize(cand, |names|)
    requires forall d :: d in draws ==> IsDraw(Group(names, Deltas(base.recall, cand.recall)), d)
    requires Compare(base, cand, names, minN, draws) == Some(true)
    ensures Mean(cand.recall) >= Mean(base.recall) + MIN_R10_DELTA
    ensures Mean(cand.mrr) >= Mean(base.mrr) + MIN_MRR_DELTA
    ensures Mean(cand.miss) <= Mean(base.miss) + MAX_MISS_DELTA
  {
    AcceptsExactly(base, cand, names, minN, draws);
  }

  /** Two runs are never each accepted over the other, even under different cluster keys and draws. */
  lemma NeverBothAccepted(
      a: Arm, b: Arm, names: seq<string>, names': seq<string>, minN: nat, minN': nat,
      draws: seq<seq<nat>>, draws': seq<seq<nat>>)
    requires |names| == |names'| && OfSize(a, |names|) && OfSize(b, |names|)
    requires forall d :: d in draws ==> IsDraw(Group(names, Deltas(a.recall, b.recall)), d)
    requires forall d :: d in draws' ==> IsDraw(Group(names', Deltas(b.recall, a.recall)), d)
    ensures !(Compare(a, b, names, minN, draws) == Some(true) && Compare(b, a, names', minN', draws') == Some(true))
  {
    if Compare(a, b, names, minN, draws) == Some(true) {
      AcceptedMeansBetter(a, b, names, minN, draws);
      if Compare(b, a, names', minN', draws') == Some(true) {
        AcceptedMeansBetter(b, a, names', minN', draws');
      }
    }
  }

  /** In an accepted comparison fewer than one draw in forty fails to improve on the baseline. */
  lemma AcceptedMeansMostDrawsImprove(base: Arm, cand: Arm, names: seq<string>, minN: nat, draws: seq<seq<nat>>)
    requires OfSize(base, |names|) && OfSize(cand, |names|) && draws != []
    requires forall d :: d in draws ==> IsDraw(Group(names, Deltas(base.recall, cand.recall)), d)
    requires Compare(base, cand, names, minN, draws) == Some(true)
    ensures var stats := Statistics(Group(names, Deltas(base.recall, cand.recall)), draws);
            1000 * AtMost(stats, 0.0) < LOWER * |draws|
  {
    AcceptsExactly(base, cand, names, minN, draws);
  }

  lemma {:induction false} RemoveOne(xs: seq<real>, k: nat, x: real)
    requires k < |xs|
    ensures AtMost(xs, x) == AtMost(xs[..k] + xs[k + 1..], x) + if xs[k] <= x then 1 else 0
  {
    var n := |xs| - 1;
    if k < n {
      RemoveOne(xs[..n], k, x);
      assert (xs[..k] + xs[k + 1..])[..n - 1] == xs[..n][..k] + xs[..n][k + 1..];
    } else {
      assert xs[..k] + xs[k + 1..] == xs[..n];
    }
  }

  lemma {:induction false} SameCounts(xs: seq<real>, ys: seq<real>, x: real)
    requires multiset(xs) == multiset(ys)
    ensures AtMost(xs, x) == AtMost(ys, x)
    decreases |xs|
  {
    if xs == [] {
      assert |multiset(ys)| == |ys|;
    } else {
      var n := |xs| - 1;
      assert xs == xs[..n] + [xs[n]];
      assert xs[n] in multiset(ys);
      var k :| 0 <= k < |ys| && ys[k] == xs[n];
      assert ys == ys[..k] + [ys[k]] + ys[k + 1..];
      assert multiset(xs) == multiset{xs[n]} + multiset(xs[..n]);
      assert multiset(ys) == multiset{xs[n]} + multiset(ys[..k] + ys[k + 1..]);
      CancelOne(xs[n], multiset(xs[..n]), multiset(ys[..k] + ys[k + 1..]));
      SameCounts(xs[..n], ys[..k] + ys[k + 1..], x);
      RemoveOne(ys, k, x);
    }
  }

  /** The reported interval is one, and both ends are statistics of actual draws. */
  lemma IntervalIsAttained(clusters: seq<Cluster>, draws: seq<seq<nat>>)
    requires draws != [] && forall d :: d in draws ==> IsDraw(clusters, d)
    ensures Quantile(clusters, draws, LOWER) <= Quantile(clusters, draws, UPPER)
    ensures exists d :: d in draws && Quantile(clusters, draws, LOWER) == DrawStatistic(clusters, d)
    ensures exists d :: d in draws && Quantile(clusters, draws, UPPER) == DrawStatistic(clusters, d)
  {
    var stats := Statistics(clusters, draws);
    SortedSorts(stats);
    assert |multiset(Sorted(stats))| == |Sorted(stats)| && |multiset(stats)| == |stats|;
    PercentilesGrow(Sorted(stats), LOWER, UPPER);
    QuantileIsDrawn(clusters, draws, LOWER);
    QuantileIsDrawn(clusters, draws, UPPER);
  }

  lemma QuantileIsDrawn(clusters: seq<Cluster>, draws: seq<seq<nat>>, q: nat)
    requires draws != [] && forall d :: d in draws ==> IsDraw(clusters, d)
    requires 0 < q <= 1000
    ensures exists d :: d in draws && Quantile(clusters, draws, q) == DrawStatistic(clusters, d)
  {
    var stats := Statistics(clusters, draws);
    SortedSorts(stats);
    assert |multiset(Sorted(stats))| == |Sorted(stats)| && |multiset(stats)| == |stats|;
    var r := Quantile(clusters, draws, q);
    PercentileIsTheLeastWithEnoughBelow(Sorted(stats), q, r);
    assert r in multiset(Sorted(stats));
    var i :| 0 <= i < |stats| && stats[i] == r;
    assert draws[i] in draws;
  }
}
