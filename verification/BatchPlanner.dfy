/** Splitting one indexing batch into daemon calls: consecutive texts share a call while the call
    stays within a count cap and a byte cap, and texts over the per-text cap are set aside. */
module BatchPlanner {

  datatype Caps = Caps(maxText: nat, maxTotal: nat, maxCount: nat)

  /** The indices, in order, of the texts that may go to the daemon (or, negated, that may not). */
  function Within(lens: seq<nat>, maxText: nat, inCap: bool): seq<nat> {
    if lens == [] then []
    else
      var rest := Within(lens[..|lens| - 1], maxText, inCap);
      if (lens[|lens| - 1] <= maxText) == inCap then rest + [|lens| - 1] else rest
  }

  lemma {:induction false} WithinMembers(lens: seq<nat>, maxText: nat, inCap: bool)
    ensures var xs := Within(lens, maxText, inCap);
            && (forall i: nat :: i in xs <==> i < |lens| && (lens[i] <= maxText) == inCap)
            && (forall a, b :: 0 <= a < b < |xs| ==> xs[a] < xs[b])
  {
    if lens != [] {
      var rest := Within(lens[..|lens| - 1], maxText, inCap);
      WithinMembers(lens[..|lens| - 1], maxText, inCap);
      forall a | 0 <= a < |rest| ensures rest[a] < |lens| - 1 { assert rest[a] in rest; }
    }
  }

  function Flatten(batches: seq<seq<nat>>): seq<nat> {
    if batches == [] then [] else Flatten(batches[..|batches| - 1]) + batches[|batches| - 1]
  }

  function Length(lens: seq<nat>, i: nat): nat {
    if i < |lens| then lens[i] else 0
  }

  function Bytes(lens: seq<nat>, batch: seq<nat>): nat {
    if batch == [] then 0 else Bytes(lens, batch[..|batch| - 1]) + Length(lens, batch[|batch| - 1])
  }

  predicate Fits(lens: seq<nat>, caps: Caps, batch: seq<nat>) {
    |batch| <= caps.maxCount && Bytes(lens, batch) <= caps.maxTotal
  }

  /** An order-preserving split of the in-cap texts into groups. */
  predicate Splits(lens: seq<nat>, caps: Caps, groups: seq<seq<nat>>) {
    Flatten(groups) == Within(lens, caps.maxText, true)
  }

  lemma {:induction false} FlattenMember(groups: seq<seq<nat>>, k: nat)
    requires k < |groups|
    ensures forall i :: i in groups[k] ==> i in Flatten(groups)
  {
    if k < |groups| - 1 { FlattenMember(groups[..|groups| - 1], k); }
  }

  /** The first text of `next` would not have fitted in `closed`. */
  predicate Overflows(lens: seq<nat>, caps: Caps, closed: seq<nat>, next: seq<nat>) {
    next != [] && !Fits(lens, caps, closed + [next[0]])
  }

  /** No empty batch, every batch of several texts within the caps, and each batch closed only
      because the next text would have broken a cap. */
  ghost predicate Packed(lens: seq<nat>, caps: Caps, batches: seq<seq<nat>>) {
    && (forall b :: b in batches ==> b != [] && (|b| == 1 || Fits(lens, caps, b)))
    && (forall k :: 0 < k < |batches| ==> Overflows(lens, caps, batches[k - 1], batches[k]))
  }

  /** What the planner produces. */
  ghost predicate Greedy(lens: seq<nat>, caps: Caps, batches: seq<seq<nat>>) {
    Splits(lens, caps, batches) && Packed(lens, caps, batches)
  }

  // ---------------------------------------------------------------- optimality

  lemma {:induction false} BytesConcat(lens: seq<nat>, a: seq<nat>, b: seq<nat>)
    ensures Bytes(lens, a + b) == Bytes(lens, a) + Bytes(lens, b)
  {
    if b == [] {
      assert a + b == a;
    } else {
      assert (a + b)[..|a + b| - 1] == a + b[..|b| - 1];
      BytesConcat(lens, a, b[..|b| - 1]);
    }
  }

  lemma PartFits(lens: seq<nat>, caps: Caps, whole: seq<nat>, lo: nat, hi: nat)
    requires Fits(lens, caps, whole) && lo <= hi <= |whole|
    ensures Fits(lens, caps, whole[lo..hi])
  {
    assert whole == whole[..lo] + (whole[lo..hi] + whole[hi..]);
    BytesConcat(lens, whole[..lo], whole[lo..hi] + whole[hi..]);
    BytesConcat(lens, whole[lo..hi], whole[hi..]);
  }

  lemma {:induction false} FlattenConcat(a: seq<seq<nat>>, b: seq<seq<nat>>)
    ensures Flatten(a + b) == Flatten(a) + Flatten(b)
  {
    if b == [] {
      assert a + b == a;
    } else {
      assert (a + b)[..|a + b| - 1] == a + b[..|b| - 1];
      FlattenConcat(a, b[..|b| - 1]);
    }
  }

  /** How many texts the first k groups hold. */
  function Start(groups: seq<seq<nat>>, k: nat): nat
    requires k <= |groups|
  {
    if k == 0 then 0 else Start(groups, k - 1) + |groups[k - 1]|
  }

  lemma {:induction false} StartOfPrefix(groups: seq<seq<nat>>, n: nat, k: nat)
    requires k <= n <= |groups|
    ensures Start(groups[..n], k) == Start(groups, k)
  {
    if k > 0 { StartOfPrefix(groups, n, k - 1); }
  }

  lemma {:induction false} StartCounts(groups: seq<seq<nat>>)
    ensures Start(groups, |groups|) == |Flatten(groups)|
  {
    if groups != [] {
      StartCounts(groups[..|groups| - 1]);
      StartOfPrefix(groups, |groups| - 1, |groups| - 1);
    }
  }

  lemma {:induction false} GroupIsSlice(groups: seq<seq<nat>>, k: nat)
    requires k < |groups|
    ensures Start(groups, k) + |groups[k]| <= |Flatten(groups)|
    ensures Flatten(groups)[Start(groups, k)..Start(groups, k) + |groups[k]|] == groups[k]
  {
    var init := groups[..|groups| - 1];
    StartOfPrefix(groups, |groups| - 1, k);
    if k < |init| {
      GroupIsSlice(init, k);
    } else {
      StartCounts(init);
    }
  }

  /** After k groups any split within the caps has used up no more texts than the greedy one. */
  lemma {:induction false} GreedyStaysAhead(
      lens: seq<nat>, caps: Caps, batches: seq<seq<nat>>, other: seq<seq<nat>>, k: nat)
    requires Packed(lens, caps, batches) && Flatten(other) == Flatten(batches) && k <= |batches| && k <= |other|
    requires forall g :: g in other ==> Fits(lens, caps, g)
    ensures Start(other, k) <= Start(batches, k)
  {
    hide Fits, Flatten, Overflows;
    if k > 0 {
      GreedyStaysAhead(lens, caps, batches, other, k - 1);
      GroupIsSlice(other, k - 1);
      if k == |batches| {
        StartCounts(batches);
      } else if Start(batches, k) < Start(other, k) {
        BatchesReachFurther(lens, caps, batches, other, k - 1);
      }
    }
  }

  lemma BatchesReachFurther(lens: seq<nat>, caps: Caps, batches: seq<seq<nat>>, other: seq<seq<nat>>, k: nat)
    requires Packed(lens, caps, batches) && Flatten(other) == Flatten(batches)
    requires k + 1 < |batches| && k < |other| && Fits(lens, caps, other[k])
    requires Start(other, k) <= Start(batches, k)
    ensures Start(other, k + 1) <= Start(batches, k + 1)
  {
    hide Fits, Flatten, Overflows;
    GroupIsSlice(batches, k);
    GroupIsSlice(batches, k + 1);
    GroupIsSlice(other, k);
    assert Overflows(lens, caps, batches[k], batches[k + 1]);
    ClosedAsLateAsPossible(lens, caps, Flatten(batches), batches[k], batches[k + 1], other[k],
                           Start(batches, k), Start(other, k));
  }

  lemma ClosedAsLateAsPossible(lens: seq<nat>, caps: Caps, xs: seq<nat>,
                               closed: seq<nat>, next: seq<nat>, group: seq<nat>, p: nat, q: nat)
    requires q <= p && p + |closed| + |next| <= |xs| && q + |group| <= |xs|
    requires closed == xs[p..p + |closed|] && next == xs[p + |closed|..p + |closed| + |next|]
    requires group == xs[q..q + |group|]
    requires Overflows(lens, caps, closed, next) && Fits(lens, caps, group)
    ensures q + |group| <= p + |closed|
  {
    if p + |closed| < q + |group| {
      assert next[0] == xs[p + |closed|] == group[p - q + |closed|];
      var part := group[p - q..p - q + |closed| + 1];
      forall j | 0 <= j < |closed| ensures part[j] == closed[j] {
        assert part[j] == group[p - q + j] == xs[p + j];
      }
      assert closed + [next[0]] == part;
      PartFits(lens, caps, group, p - q, p - q + |closed| + 1);
    }
  }

  /** No order-preserving split of the in-cap texts that respects the caps uses fewer calls. */
  lemma GreedyIsOptimal(lens: seq<nat>, caps: Caps, batches: seq<seq<nat>>, other: seq<seq<nat>>)
    requires Greedy(lens, caps, batches) && Splits(lens, caps, other)
    requires forall g :: g in other ==> Fits(lens, caps, g)
    ensures |batches| <= |other|
  {
    if |other| < |batches| {
      GreedyStaysAhead(lens, caps, batches, other, |other|);
      StartCounts(other);
      GroupIsSlice(batches, |other|);
    }
  }

  /** The plan respects the caps exactly when every text it sends would fit a call on its own. */
  lemma GreedyRespectsCaps(lens: seq<nat>, caps: Caps, batches: seq<seq<nat>>)
    requires Greedy(lens, caps, batches)
    ensures (forall b :: b in batches ==> Fits(lens, caps, b)) <==>
            (forall i :: 0 <= i < |lens| && lens[i] <= caps.maxText ==> lens[i] <= caps.maxTotal && caps.maxCount >= 1)
  {
    WithinMembers(lens, caps.maxText, true);
    if forall i :: 0 <= i < |lens| && lens[i] <= caps.maxText ==> lens[i] <= caps.maxTotal && caps.maxCount >= 1 {
      forall b | b in batches ensures Fits(lens, caps, b) {
        if |b| == 1 {
          var k :| 0 <= k < |batches| && batches[k] == b;
          FlattenMember(batches, k);
          assert b[0] in b;
          assert Bytes(lens, b) == Length(lens, b[0]);
        }
      }
    }
    if forall b :: b in batches ==> Fits(lens, caps, b) {
      forall i | 0 <= i < |lens| && lens[i] <= caps.maxText
        ensures lens[i] <= caps.maxTotal && caps.maxCount >= 1
      {
        var k := GroupHolding(batches, i);
        var j :| 0 <= j < |batches[k]| && batches[k][j] == i;
        assert batches[k] in batches;
        PartFits(lens, caps, batches[k], j, j + 1);
        assert batches[k][j..j + 1] == [i];
        assert Bytes(lens, [i]) == lens[i];
      }
    }
  }

  lemma {:induction false} GroupHolding(groups: seq<seq<nat>>, i: nat) returns (k: nat)
    requires i in Flatten(groups)
    ensures k < |groups| && i in groups[k]
  {
    k := |groups| - 1;
    if i !in groups[k] { k := GroupHolding(groups[..k], i); }
  }

  /** Batches and set-aside texts together hold every index exactly once. */
  lemma PlanPartitions(lens: seq<nat>, caps: Caps, batches: seq<seq<nat>>, i: nat)
    requires Splits(lens, caps, batches) && i < |lens|
    ensures multiset(Flatten(batches) + Within(lens, caps.maxText, false))[i] == 1
  {
    WithinMembers(lens, caps.maxText, true);
    WithinMembers(lens, caps.maxText, false);
    IncreasingCounts(Within(lens, caps.maxText, true), i);
    IncreasingCounts(Within(lens, caps.maxText, false), i);
  }

  lemma {:induction false} IncreasingCounts(xs: seq<nat>, i: nat)
    requires forall a, b :: 0 <= a < b < |xs| ==> xs[a] < xs[b]
    ensures multiset(xs)[i] == if i in xs then 1 else 0
  {
    if xs != [] {
      assert xs == xs[..|xs| - 1] + [xs[|xs| - 1]];
      IncreasingCounts(xs[..|xs| - 1], i);
    }
  }

  // ---------------------------------------------------------------- the planner

  lemma ExtendLast(lens: seq<nat>, caps: Caps, batches: seq<seq<nat>>, current: seq<nat>, i: nat)
    requires current != [] && Packed(lens, caps, batches + [current]) && Fits(lens, caps, current + [i])
    ensures Packed(lens, caps, batches + [current + [i]])
  {
    var was, now := batches + [current], batches + [current + [i]];
    forall b | b in now ensures b != [] && (|b| == 1 || Fits(lens, caps, b)) {
      if b in batches { assert b in was; }
    }
    forall k | 0 < k < |now| ensures Overflows(lens, caps, now[k - 1], now[k]) {
      assert Overflows(lens, caps, was[k - 1], was[k]);
    }
  }

  lemma StartNext(lens: seq<nat>, caps: Caps, batches: seq<seq<nat>>, current: seq<nat>, i: nat)
    requires current != [] && Packed(lens, caps, batches + [current]) && !Fits(lens, caps, current + [i])
    ensures Packed(lens, caps, batches + [current] + [[i]])
  {
    var was, now := batches + [current], batches + [current] + [[i]];
    forall k | 0 < k < |now| ensures Overflows(lens, caps, now[k - 1], now[k]) {
      if k < |was| { assert Overflows(lens, caps, was[k - 1], was[k]); }
    }
  }

  lemma WithinStep(lens: seq<nat>, i: nat, maxText: nat, inCap: bool)
    requires i < |lens|
    ensures Within(lens[..i + 1], maxText, inCap) ==
            Within(lens[..i], maxText, inCap) + if (lens[i] <= maxText) == inCap then [i] else []
    ensures Bytes(lens, [i]) == lens[i]
  {
    assert lens[..i + 1][..i] == lens[..i];
  }

  lemma FlattenLast(batches: seq<seq<nat>>, last: seq<nat>)
    ensures Flatten(batches + [last]) == Flatten(batches) + last
  {
    assert (batches + [last])[..|batches|] == batches;
  }

  /** What the loop keeps before looking at text i: closed batches, and the one being filled. */
  ghost predicate Underway(
      lens: seq<nat>, caps: Caps, batches: seq<seq<nat>>, current: seq<nat>, currentBytes: nat, i: nat)
    requires i <= |lens|
  {
    && Flatten(batches) + current == Within(lens[..i], caps.maxText, true)
    && currentBytes == Bytes(lens, current)
    && if current == [] then batches == [] else Packed(lens, caps, batches + [current])
  }

  /** The texts set aside before looking at text i. */
  predicate SetAside(lens: seq<nat>, caps: Caps, oversize: seq<nat>, i: nat)
    requires i <= |lens|
  {
    oversize == Within(lens[..i], caps.maxText, false)
  }

  predicate Full(lens: seq<nat>, caps: Caps, current: seq<nat>, currentBytes: nat, i: nat)
    requires i < |lens|
  {
    current != [] && (|current| >= caps.maxCount || currentBytes + lens[i] > caps.maxTotal)
  }

  lemma SkipText(lens: seq<nat>, caps: Caps, batches: seq<seq<nat>>, current: seq<nat>, currentBytes: nat,
                 oversize: seq<nat>, i: nat)
    requires i < |lens| && Underway(lens, caps, batches, current, currentBytes, i) && SetAside(lens, caps, oversize, i)
    ensures if lens[i] > caps.maxText
            then Underway(lens, caps, batches, current, currentBytes, i + 1) && SetAside(lens, caps, oversize + [i], i + 1)
            else SetAside(lens, caps, oversize, i + 1)
  {
    WithinStep(lens, i, caps.maxText, true);
    WithinStep(lens, i, caps.maxText, false);
  }

  lemma PlaceText(lens: seq<nat>, caps: Caps, batches: seq<seq<nat>>, current: seq<nat>, currentBytes: nat, i: nat)
    requires i < |lens| && lens[i] <= caps.maxText && Underway(lens, caps, batches, current, currentBytes, i)
    ensures if Full(lens, caps, current, currentBytes, i)
            then Underway(lens, caps, batches + [current], [i], lens[i], i + 1)
            else Underway(lens, caps, batches, current + [i], currentBytes + lens[i], i + 1)
  {
    hide Packed, Overflows, Flatten;
    WithinStep(lens, i, caps.maxText, true);
    BytesConcat(lens, current, [i]);
    if current == [] {
      StartFirst(lens, caps, i);
      assert current + [i] == [i] && batches + [[i]] == [[i]];
    } else if Full(lens, caps, current, currentBytes, i) {
      StartNext(lens, caps, batches, current, i);
      FlattenLast(batches, current);
    } else {
      ExtendLast(lens, caps, batches, current, i);
      assert Flatten(batches) + (current + [i]) == (Flatten(batches) + current) + [i];
    }
  }

  lemma StartFirst(lens: seq<nat>, caps: Caps, i: nat)
    ensures Packed(lens, caps, [[i]])
  {
  }

  lemma FinishPlan(lens: seq<nat>, caps: Caps, batches: seq<seq<nat>>, current: seq<nat>, currentBytes: nat,
                   oversize: seq<nat>)
    requires Underway(lens, caps, batches, current, currentBytes, |lens|) && SetAside(lens, caps, oversize, |lens|)
    ensures oversize == Within(lens, caps.maxText, false)
    ensures Greedy(lens, caps, if current == [] then batches else batches + [current])
  {
    assert lens[..|lens|] == lens;
    FlattenLast(batches, current);
  }

  lemma PlanStarts(lens: seq<nat>, caps: Caps)
    ensures Underway(lens, caps, [], [], 0, 0) && SetAside(lens, caps, [], 0)
  {
  }

  method Plan(lens: seq<nat>, caps: Caps) returns (batches: seq<seq<nat>>, oversize: seq<nat>)
    ensures Greedy(lens, caps, batches)
    ensures oversize == Within(lens, caps.maxText, false)
  {
    hide Underway, SetAside, Within, Greedy;
    batches, oversize := [], [];
    var current: seq<nat> := [];
    var currentBytes: nat := 0;
    PlanStarts(lens, caps);
    for i := 0 to |lens|
      invariant Underway(lens, caps, batches, current, currentBytes, i) && SetAside(lens, caps, oversize, i)
    {
      var len := lens[i];
      SkipText(lens, caps, batches, current, currentBytes, oversize, i);
      if len > caps.maxText {
        oversize := oversize + [i];
        continue;
      }
      PlaceText(lens, caps, batches, current, currentBytes, i);
      if current != [] && (|current| >= caps.maxCount || currentBytes + len > caps.maxTotal) {
        batches := batches + [current];
        current, currentBytes := [], 0;
        assert [] + [i] == [i];
      }
      current := current + [i];
      currentBytes := currentBytes + len;
    }
    FinishPlan(lens, caps, batches, current, currentBytes, oversize);
    if current != [] {
      batches := batches + [current];
    }
  }
}
