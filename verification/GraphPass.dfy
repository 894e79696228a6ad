/** The ONNX rewriting script's last pass over a graph: drop the nodes nothing uses,
    to a fixpoint, then put the survivors in an order in which every input is computed
    before it is read.  Nodes are compared by value, as protobuf messages are. */
module GraphPass {
  import opened Prelude

  type Name = string

  datatype Node = Node(op: string, inputs: seq<Name>, outputs: seq<Name>)

  // ---------------------------------------------------------------- dead nodes

  function NamesOf(xs: seq<Name>): set<Name> {
    set x | x in xs
  }

  function Consumed(nodes: seq<Node>): set<Name> {
    set n, i | n in nodes && i in n.inputs :: i
  }

  function Used(nodes: seq<Node>, outs: seq<Name>): set<Name> {
    NamesOf(outs) + Consumed(nodes)
  }

  predicate Alive(n: Node, used: set<Name>) {
    exists o :: o in n.outputs && o in used
  }

  function Keep(nodes: seq<Node>, used: set<Name>): seq<Node> {
    if nodes == [] then []
    else if Alive(nodes[0], used) then [nodes[0]] + Keep(nodes[1..], used)
    else Keep(nodes[1..], used)
  }

  function Dead(nodes: seq<Node>, used: set<Name>): seq<Node> {
    if nodes == [] then []
    else if Alive(nodes[0], used) then Dead(nodes[1..], used)
    else [nodes[0]] + Dead(nodes[1..], used)
  }

  function RemoveFirst(nodes: seq<Node>, n: Node): seq<Node> {
    if nodes == [] then []
    else if nodes[0] == n then nodes[1..]
    else [nodes[0]] + RemoveFirst(nodes[1..], n)
  }

  lemma {:induction false} RemoveFirstAt(nodes: seq<Node>, n: Node, k: nat)
    requires k <= |nodes| && (forall j :: 0 <= j < k ==> nodes[j] != n) && (k < |nodes| ==> nodes[k] == n)
    ensures RemoveFirst(nodes, n) == if k < |nodes| then nodes[..k] + nodes[k + 1..] else nodes
  {
    if k > 0 {
      RemoveFirstAt(nodes[1..], n, k - 1);
    }
  }

  lemma {:induction false} KeepDeadSizes(nodes: seq<Node>, used: set<Name>)
    ensures |Keep(nodes, used)| + |Dead(nodes, used)| == |nodes|
  {
    if nodes != [] { KeepDeadSizes(nodes[1..], used); }
  }

  /** What the elimination loop converges to. */
  function Prune(nodes: seq<Node>, outs: seq<Name>): seq<Node>
    decreases |nodes|
  {
    var used := Used(nodes, outs);
    KeepDeadSizes(nodes, used);
    if Dead(nodes, used) == [] then nodes else Prune(Keep(nodes, used), outs)
  }

  lemma {:induction false} KeepCounts(nodes: seq<Node>, used: set<Name>, n: Node)
    ensures multiset(Keep(nodes, used))[n] == if Alive(n, used) then multiset(nodes)[n] else 0
  {
    if nodes != [] {
      KeepCounts(nodes[1..], used, n);
      assert nodes == [nodes[0]] + nodes[1..];
    }
  }

  lemma {:induction false} DeadMembers(nodes: seq<Node>, used: set<Name>, n: Node)
    ensures n in Dead(nodes, used) <==> n in nodes && !Alive(n, used)
  {
    if nodes != [] {
      DeadMembers(nodes[1..], used, n);
      assert nodes == [nodes[0]] + nodes[1..];
    }
  }

  lemma {:induction false} KeepAllAlive(nodes: seq<Node>, used: set<Name>)
    requires Dead(nodes, used) == []
    ensures Keep(nodes, used) == nodes
  {
    if nodes != [] { KeepAllAlive(nodes[1..], used); }
  }

  /** Removing by value takes out the first dead node, since equal nodes die together. */
  lemma {:induction false} RemoveFirstDead(nodes: seq<Node>, used: set<Name>)
    requires Dead(nodes, used) != []
    ensures var rest := RemoveFirst(nodes, Dead(nodes, used)[0]);
            Keep(rest, used) == Keep(nodes, used) && Dead(rest, used) == Dead(nodes, used)[1..]
  {
    var d := Dead(nodes, used)[0];
    DeadMembers(nodes, used, d);
    if Alive(nodes[0], used) {
      RemoveFirstDead(nodes[1..], used);
      var tail := RemoveFirst(nodes[1..], d);
      assert RemoveFirst(nodes, d) == [nodes[0]] + tail;
      assert ([nodes[0]] + tail)[1..] == tail;
    }
  }

  // ------------------------------------------------- which nodes survive

  /** A set of nodes that keeps itself alive: each one feeds a graph output or another member. */
  ghost predicate SelfSupporting(s: set<Node>, outs: seq<Name>) {
    forall n :: n in s ==> exists o :: o in n.outputs && (o in outs || exists m :: m in s && o in m.inputs)
  }

  lemma AliveWithin(nodes: seq<Node>, outs: seq<Name>, s: set<Node>, n: Node)
    requires SelfSupporting(s, outs) && n in s && forall m :: m in s ==> m in nodes
    ensures Alive(n, Used(nodes, outs))
  {
    var o :| o in n.outputs && (o in outs || exists m :: m in s && o in m.inputs);
    assert o in Used(nodes, outs);
  }

  lemma {:induction false} SupportedSurvives(nodes: seq<Node>, outs: seq<Name>, s: set<Node>)
    requires SelfSupporting(s, outs) && forall m :: m in s ==> m in nodes
    ensures forall m :: m in s ==> m in Prune(nodes, outs)
    decreases |nodes|
  {
    var used := Used(nodes, outs);
    KeepDeadSizes(nodes, used);
    if Dead(nodes, used) != [] {
      forall m | m in s ensures m in Keep(nodes, used) {
        AliveWithin(nodes, outs, s, m);
        KeepCounts(nodes, used, m);
      }
      SupportedSurvives(Keep(nodes, used), outs, s);
    }
  }

  lemma {:induction false} SurvivorsSupportThemselves(nodes: seq<Node>, outs: seq<Name>)
    ensures SelfSupporting((set n | n in Prune(nodes, outs)), outs)
    decreases |nodes|
  {
    var used := Used(nodes, outs);
    KeepDeadSizes(nodes, used);
    if Dead(nodes, used) != [] {
      SurvivorsSupportThemselves(Keep(nodes, used), outs);
    } else {
      forall n | n in nodes
        ensures exists o :: o in n.outputs && (o in outs || exists m :: m in (set n | n in nodes) && o in m.inputs)
      {
        DeadMembers(nodes, used, n);
      }
    }
  }

  lemma {:induction false} SurvivorCounts(nodes: seq<Node>, outs: seq<Name>, n: Node)
    ensures multiset(Prune(nodes, outs))[n] == if n in Prune(nodes, outs) then multiset(nodes)[n] else 0
    decreases |nodes|
  {
    var used := Used(nodes, outs);
    KeepDeadSizes(nodes, used);
    if Dead(nodes, used) != [] {
      KeepCounts(nodes, used, n);
      SurvivorCounts(Keep(nodes, used), outs, n);
    }
  }

  /** The survivors are the largest self-supporting part of the graph, with every copy kept. */
  lemma SurvivorsAreTheLargestSelfSupportingSet(nodes: seq<Node>, outs: seq<Name>, n: Node)
    ensures n in Prune(nodes, outs) <==>
            exists s: set<Node> :: SelfSupporting(s, outs) && n in s && forall m :: m in s ==> m in nodes
    ensures multiset(Prune(nodes, outs))[n] == if n in Prune(nodes, outs) then multiset(nodes)[n] else 0
  {
    forall m ensures multiset(Prune(nodes, outs))[m] == if m in Prune(nodes, outs) then multiset(nodes)[m] else 0 {
      SurvivorCounts(nodes, outs, m);
    }
    if n in Prune(nodes, outs) {
      SurvivorsSupportThemselves(nodes, outs);
      var s := set m | m in Prune(nodes, outs);
      assert SelfSupporting(s, outs) && n in s;
    }
    if s: set<Node> :| SelfSupporting(s, outs) && n in s && forall m :: m in s ==> m in nodes {
      SupportedSurvives(nodes, outs, s);
    }
  }

  /** Some graph output is computed from `n` through at most `hops` further nodes. */
  ghost predicate Reaches(nodes: seq<Node>, outs: seq<Name>, n: Node, hops: nat)
    decreases hops
  {
    exists o :: o in n.outputs &&
      (o in outs || (hops > 0 && exists m :: m in nodes && o in m.inputs && Reaches(nodes, outs, m, hops - 1)))
  }

  lemma {:induction false} SurvivorReaches(nodes: seq<Node>, outs: seq<Name>, rank: Node -> nat, n: Node)
    requires FeedsDownhill(nodes, rank)
    requires n in Prune(nodes, outs)
    ensures Reaches(nodes, outs, n, rank(n))
    decreases rank(n)
  {
    SurvivorsSupportThemselves(nodes, outs);
    var s := set m | m in Prune(nodes, outs);
    assert n in s;
    var o :| o in n.outputs && (o in outs || exists m :: m in s && o in m.inputs);
    if o !in outs {
      var m :| m in s && o in m.inputs;
      SurvivorCounts(nodes, outs, m);
      SurvivorCounts(nodes, outs, n);
      SurvivorReaches(nodes, outs, rank, m);
      ReachesLonger(nodes, outs, m, rank(m), rank(n) - 1);
    }
  }

  lemma {:induction false} ReachesLonger(nodes: seq<Node>, outs: seq<Name>, n: Node, hops: nat, more: nat)
    requires Reaches(nodes, outs, n, hops) && hops <= more
    ensures Reaches(nodes, outs, n, more)
    decreases hops
  {
    var o :| o in n.outputs &&
      (o in outs || (hops > 0 && exists m :: m in nodes && o in m.inputs && Reaches(nodes, outs, m, hops - 1)));
    if o !in outs {
      var m :| m in nodes && o in m.inputs && Reaches(nodes, outs, m, hops - 1);
      ReachesLonger(nodes, outs, m, hops - 1, more - 1);
    }
  }

  lemma {:induction false} ReachingSurvives(nodes: seq<Node>, outs: seq<Name>, n: Node, hops: nat)
    requires n in nodes && Reaches(nodes, outs, n, hops)
    ensures n in Prune(nodes, outs)
    decreases hops
  {
    var o :| o in n.outputs &&
      (o in outs || (hops > 0 && exists m :: m in nodes && o in m.inputs && Reaches(nodes, outs, m, hops - 1)));
    SurvivorsSupportThemselves(nodes, outs);
    var s := set m | m in Prune(nodes, outs);
    forall m | m in s ensures m in nodes { SurvivorCounts(nodes, outs, m); }
    if o !in outs {
      var m :| m in nodes && o in m.inputs && Reaches(nodes, outs, m, hops - 1);
      ReachingSurvives(nodes, outs, m, hops - 1);
      assert m in s + {n};
    }
    assert SelfSupporting(s + {n}, outs) by {
      forall k | k in s + {n}
        ensures exists o :: o in k.outputs && (o in outs || exists m :: m in s + {n} && o in m.inputs)
      {
        if k in s {
          var p :| p in k.outputs && (p in outs || exists m :: m in s && p in m.inputs);
          if p !in outs {
            var m :| m in s && p in m.inputs;
            assert m in s + {n};
          }
        }
      }
    }
    SupportedSurvives(nodes, outs, s + {n});
  }

  /** The graph is acyclic: some ranking falls along every edge. */
  ghost predicate FeedsDownhill(nodes: seq<Node>, rank: Node -> nat) {
    forall n, m, o :: n in nodes && m in nodes && o in n.outputs && o in m.inputs ==> rank(m) < rank(n)
  }

  /** On an acyclic graph a node survives exactly when some graph output is computed from it. */
  lemma AcyclicSurvivorsAreTheReachingNodes(nodes: seq<Node>, outs: seq<Name>, rank: Node -> nat, n: Node)
    requires FeedsDownhill(nodes, rank)
    ensures n in Prune(nodes, outs) <==> n in nodes && exists hops: nat :: Reaches(nodes, outs, n, hops)
  {
    if n in Prune(nodes, outs) {
      SurvivorCounts(nodes, outs, n);
      assert n in multiset(Prune(nodes, outs));
      SurvivorReaches(nodes, outs, rank, n);
      assert exists hops: nat :: Reaches(nodes, outs, n, hops);
    }
    if n in nodes && exists hops: nat :: Reaches(nodes, outs, n, hops) {
      var hops: nat :| Reaches(nodes, outs, n, hops);
      ReachingSurvives(nodes, outs, n, hops);
    }
  }

  // ---------------------------------------------------------------- sorting

  predicate IsReady(n: Node, ready: set<Name>) {
    forall i :: i in n.inputs ==> i in ready
  }

  datatype Swept = Swept(taken: seq<Node>, rest: seq<Node>, ready: set<Name>)

  /** One pass over the pending nodes. */
  function Sweep(pending: seq<Node>, ready: set<Name>): Swept {
    if pending == [] then Swept([], [], ready)
    else if IsReady(pending[0], ready) then
      var s := Sweep(pending[1..], ready + NamesOf(pending[0].outputs));
      s.(taken := [pending[0]] + s.taken)
    else
      var s := Sweep(pending[1..], ready);
      s.(rest := [pending[0]] + s.rest)
  }

  lemma {:induction false} SweepSplits(pending: seq<Node>, ready: set<Name>)
    ensures var s := Sweep(pending, ready);
            && multiset(s.taken) + multiset(s.rest) == multiset(pending)
            && |s.taken| + |s.rest| == |pending|
            && ready <= s.ready
            && forall n :: n in s.taken ==> NamesOf(n.outputs) <= s.ready
  {
    if pending != [] {
      assert pending == [pending[0]] + pending[1..];
      if IsReady(pending[0], ready) {
        SweepSplits(pending[1..], ready + NamesOf(pending[0].outputs));
      } else {
        SweepSplits(pending[1..], ready);
      }
    }
  }

  /** The passes, repeated until nothing is pending; None when a pass places nothing. */
  function Sort(pending: seq<Node>, ready: set<Name>): Option<seq<Node>>
    decreases |pending|
  {
    if pending == [] then Some([])
    else
      var s := Sweep(pending, ready);
      SweepSplits(pending, ready);
      if s.taken == [] then None
      else
        match Sort(s.rest, s.ready)
        case None => None
        case Some(order) => Some(s.taken + order)
  }

  /** Every node's inputs are available from the start or from an earlier node. */
  predicate Topological(order: seq<Node>, ready: set<Name>) {
    order == [] || (IsReady(order[0], ready) && Topological(order[1..], ready + NamesOf(order[0].outputs)))
  }

  lemma {:induction false} TopologicalGrows(order: seq<Node>, ready: set<Name>, more: set<Name>)
    requires Topological(order, ready) && ready <= more
    ensures Topological(order, more)
  {
    if order != [] {
      TopologicalGrows(order[1..], ready + NamesOf(order[0].outputs), more + NamesOf(order[0].outputs));
    }
  }

  lemma {:induction false} TopologicalConcat(a: seq<Node>, b: seq<Node>, ready: set<Name>, mid: set<Name>)
    requires Topological(a, ready) && Topological(b, mid)
    requires mid <= ready + Produced(a)
    ensures Topological(a + b, ready)
  {
    if a == [] {
      assert a + b == b;
      TopologicalGrows(b, mid, ready);
    } else {
      assert (a + b)[1..] == a[1..] + b;
      assert a == [a[0]] + a[1..];
      TopologicalConcat(a[1..], b, ready + NamesOf(a[0].outputs), mid);
    }
  }

  function Produced(nodes: seq<Node>): set<Name> {
    set n, o | n in nodes && o in n.outputs :: o
  }

  lemma {:induction false} SweepIsTopological(pending: seq<Node>, ready: set<Name>)
    ensures var s := Sweep(pending, ready);
            Topological(s.taken, ready) && s.ready == ready + Produced(s.taken)
  {
    if pending != [] {
      if IsReady(pending[0], ready) {
        SweepIsTopological(pending[1..], ready + NamesOf(pending[0].outputs));
        var t := Sweep(pending[1..], ready + NamesOf(pending[0].outputs)).taken;
        assert ([pending[0]] + t)[1..] == t;
        assert Produced([pending[0]] + t) == NamesOf(pending[0].outputs) + Produced(t);
      } else {
        SweepIsTopological(pending[1..], ready);
      }
    }
  }

  lemma {:induction false} SortSound(pending: seq<Node>, ready: set<Name>)
    requires Sort(pending, ready).Some?
    ensures var order := Sort(pending, ready).value;
            Topological(order, ready) && multiset(order) == multiset(pending)
    decreases |pending|
  {
    if pending != [] {
      var s := Sweep(pending, ready);
      SweepSplits(pending, ready);
      SweepIsTopological(pending, ready);
      SortSound(s.rest, s.ready);
      TopologicalConcat(s.taken, Sort(s.rest, s.ready).value, ready, s.ready);
    }
  }

  lemma {:induction false} RemoveReadyNode(order: seq<Node>, ready: set<Name>, n: Node) returns (shorter: seq<Node>)
    requires Topological(order, ready) && NamesOf(n.outputs) <= ready && n in order
    ensures Topological(shorter, ready) && multiset(order) == multiset{n} + multiset(shorter)
  {
    var m := order[0];
    assert order == [m] + order[1..];
    if m == n {
      assert ready + NamesOf(n.outputs) == ready;
      shorter := order[1..];
    } else {
      var rest := RemoveReadyNode(order[1..], ready + NamesOf(m.outputs), n);
      shorter := [m] + rest;
      assert shorter[1..] == rest;
    }
  }

  lemma {:induction false} RemoveTaken(order: seq<Node>, ready: set<Name>, taken: seq<Node>, rest: multiset<Node>)
    returns (left: seq<Node>)
    requires Topological(order, ready) && multiset(order) == multiset(taken) + rest
    requires forall n :: n in taken ==> NamesOf(n.outputs) <= ready
    ensures Topological(left, ready) && multiset(left) == rest
    decreases |taken|
  {
    if taken == [] {
      left := order;
    } else {
      var n := taken[0];
      assert multiset(taken) == multiset{n} + multiset(taken[1..]) by {
        assert taken == [n] + taken[1..];
      }
      assert n in multiset(order);
      var shorter := RemoveReadyNode(order, ready, n);
      CancelOne(n, multiset(shorter), multiset(taken[1..]) + rest);
      left := RemoveTaken(shorter, ready, taken[1..], rest);
    }
  }

  lemma {:induction false} SweepTakesReady(pending: seq<Node>, ready: set<Name>, n: Node)
    requires n in pending && IsReady(n, ready)
    ensures Sweep(pending, ready).taken != []
  {
    if pending[0] != n && !IsReady(pending[0], ready) {
      SweepTakesReady(pending[1..], ready, n);
    }
  }

  lemma {:induction false} SortComplete(pending: seq<Node>, ready: set<Name>, order: seq<Node>)
    requires Topological(order, ready) && multiset(order) == multiset(pending)
    ensures Sort(pending, ready).Some?
    decreases |pending|
  {
    if pending != [] {
      assert |multiset(order)| == |order| && |multiset(pending)| == |pending|;
      assert order[0] in multiset(order);
      SweepTakesReady(pending, ready, order[0]);
      SweepSplits(pending, ready);
      var s := Sweep(pending, ready);
      TopologicalGrows(order, ready, s.ready);
      var left := RemoveTaken(order, s.ready, s.taken, multiset(s.rest));
      SortComplete(s.rest, s.ready, left);
    }
  }

  /** `order` is a workable arrangement of exactly the pending nodes. */
  ghost predicate Arranges(order: seq<Node>, pending: seq<Node>, ready: set<Name>) {
    Topological(order, ready) && multiset(order) == multiset(pending)
  }

  /** The greedy passes fail exactly when no order of these nodes works. */
  lemma SortFailsOnlyWithoutAnOrder(pending: seq<Node>, ready: set<Name>)
    ensures Sort(pending, ready).None? <==>
            !exists order :: Arranges(order, pending, ready)
    ensures Sort(pending, ready).Some? ==> Arranges(Sort(pending, ready).value, pending, ready)
  {
    if Sort(pending, ready).Some? {
      SortSound(pending, ready);
      assert Arranges(Sort(pending, ready).value, pending, ready);
    } else {
      forall order | Arranges(order, pending, ready) ensures false {
        SortComplete(pending, ready, order);
      }
    }
  }

  // ---------------------------------------------------------------- meaning

  /** `f(op, args, k)` is the k-th output of operator `op`.  The empty name stands for an
      omitted optional input or output, so it is never bound by a node. */
  type Operators<!V> = (string, seq<V>, nat) -> V

  function Args<V>(env: map<Name, V>, inputs: seq<Name>): seq<V>
    requires forall i :: i in inputs ==> i in env
  {
    seq(|inputs|, k requires 0 <= k < |inputs| => env[inputs[k]])
  }

  /** The assignment satisfies the node's equation. */
  ghost predicate Solves<V>(n: Node, a: map<Name, V>, f: Operators<V>) {
    && (forall i :: i in n.inputs ==> i in a)
    && forall k :: 0 <= k < |n.outputs| && n.outputs[k] != "" ==>
         n.outputs[k] in a && a[n.outputs[k]] == f(n.op, Args(a, n.inputs), k)
  }

  function Bind<V>(env: map<Name, V>, n: Node, args: seq<V>, f: Operators<V>, k: nat): map<Name, V>
    requires k <= |n.outputs|
    decreases |n.outputs| - k
  {
    if k == |n.outputs| then env
    else if n.outputs[k] == "" then Bind(env, n, args, f, k + 1)
    else Bind(env[n.outputs[k] := f(n.op, args, k)], n, args, f, k + 1)
  }

  lemma {:induction false} BindKeys<V>(env: map<Name, V>, n: Node, args: seq<V>, f: Operators<V>, k: nat)
    requires k <= |n.outputs| && "" in env
    ensures Bind(env, n, args, f, k).Keys == env.Keys + NamesOf(n.outputs[k..])
    decreases |n.outputs| - k
  {
    if k < |n.outputs| {
      assert n.outputs[k..] == [n.outputs[k]] + n.outputs[k + 1..];
      BindKeys(if n.outputs[k] == "" then env else env[n.outputs[k] := f(n.op, args, k)], n, args, f, k + 1);
    }
  }

  /** Evaluate the nodes one after another.  The environment binds the empty name to the absent value. */
  function Run<V>(order: seq<Node>, env: map<Name, V>, f: Operators<V>): (final: map<Name, V>)
    requires "" in env && Topological(order, env.Keys)
    ensures final.Keys == env.Keys + Produced(order)
    decreases |order|
  {
    if order == [] then env
    else
      var args := Args(env, order[0].inputs);
      BindKeys(env, order[0], args, f, 0);
      assert order[0].outputs[0..] == order[0].outputs;
      assert order == [order[0]] + order[1..];
      Run(order[1..], Bind(env, order[0], args, f, 0), f)
  }

  /** Every binding of `env` is what `a` assigns. */
  ghost predicate Within<V>(env: map<Name, V>, a: map<Name, V>) {
    forall x :: x in env ==> x in a && env[x] == a[x]
  }

  lemma {:induction false} BindWithin<V>(env: map<Name, V>, a: map<Name, V>, n: Node, f: Operators<V>, k: nat)
    requires Within(env, a) && Solves(n, a, f) && k <= |n.outputs|
    ensures Within(Bind(env, n, Args(a, n.inputs), f, k), a)
    decreases |n.outputs| - k
  {
    if k < |n.outputs| {
      var v := f(n.op, Args(a, n.inputs), k);
      BindWithin(if n.outputs[k] == "" then env else env[n.outputs[k] := v], a, n, f, k + 1);
    }
  }

  lemma {:induction false} RunWithin<V>(order: seq<Node>, env: map<Name, V>, a: map<Name, V>, f: Operators<V>)
    requires "" in env && Topological(order, env.Keys) && Within(env, a)
    requires forall n :: n in order ==> Solves(n, a, f)
    ensures Within(Run(order, env, f), a)
    decreases |order|
  {
    if order != [] {
      var n := order[0];
      assert Args(env, n.inputs) == Args(a, n.inputs);
      BindWithin(env, a, n, f, 0);
      BindKeys(env, n, Args(env, n.inputs), f, 0);
      assert n.outputs[0..] == n.outputs;
      RunWithin(order[1..], Bind(env, n, Args(env, n.inputs), f, 0), a, f);
    }
  }

  lemma OutputSurvives(nodes: seq<Node>, outs: seq<Name>, o: Name)
    requires o in outs && o in Produced(nodes)
    ensures o in Produced(Prune(nodes, outs))
  {
    var n :| n in nodes && o in n.outputs;
    assert Reaches(nodes, outs, n, 0);
    ReachingSurvives(nodes, outs, n, 0);
  }

  /** Evaluating the pass's result yields, on every graph output, the value that any assignment
      satisfying all the original equations gives it. */
  lemma PruningAndSortingKeepsTheMeaning<V>(
      nodes: seq<Node>, outs: seq<Name>, env: map<Name, V>, a: map<Name, V>, f: Operators<V>, o: Name)
    requires "" in env && Within(env, a) && forall n :: n in nodes ==> Solves(n, a, f)
    requires Sort(Prune(nodes, outs), env.Keys).Some?
    requires o in outs && o in env.Keys + Produced(nodes)
    ensures var order := Sort(Prune(nodes, outs), env.Keys).value;
            && Topological(order, env.Keys)
            && o in a && o in Run(order, env, f) && Run(order, env, f)[o] == a[o]
  {
    var kept := Prune(nodes, outs);
    SortSound(kept, env.Keys);
    var order := Sort(kept, env.Keys).value;
    forall n | n in order ensures n in nodes && n in kept {
      assert n in multiset(order);
      SurvivorCounts(nodes, outs, n);
    }
    RunWithin(order, env, a, f);
    if o !in env {
      OutputSurvives(nodes, outs, o);
      var n :| n in kept && o in n.outputs;
      assert n in multiset(kept);
      assert n in order;
    }
  }

  /** Each nonempty name is bound once: by the caller or by one output of one node. */
  predicate SingleAssignment(order: seq<Node>, bound: set<Name>) {
    order == [] ||
    (&& (forall i :: 0 <= i < |order[0].outputs| && order[0].outputs[i] != "" ==> order[0].outputs[i] !in bound)
     && (forall i, j :: 0 <= i < j < |order[0].outputs| && order[0].outputs[i] != "" ==>
           order[0].outputs[i] != order[0].outputs[j])
     && SingleAssignment(order[1..], bound + NamesOf(order[0].outputs)))
  }

  lemma {:induction false} BindDefines<V>(env: map<Name, V>, n: Node, args: seq<V>, f: Operators<V>, k: nat)
    requires k <= |n.outputs|
    requires forall i, j :: k <= i < j < |n.outputs| && n.outputs[i] != "" ==> n.outputs[i] != n.outputs[j]
    ensures var b := Bind(env, n, args, f, k);
            && (forall x :: x in env && (x == "" || x !in n.outputs[k..]) ==> x in b && b[x] == env[x])
            && (forall j :: k <= j < |n.outputs| && n.outputs[j] != "" ==>
                 n.outputs[j] in b && b[n.outputs[j]] == f(n.op, args, j))
    decreases |n.outputs| - k
  {
    if k < |n.outputs| {
      assert n.outputs[k..] == [n.outputs[k]] + n.outputs[k + 1..];
      var x := n.outputs[k];
      var env' := if x == "" then env else env[x := f(n.op, args, k)];
      BindDefines(env', n, args, f, k + 1);
      if x != "" {
        assert x !in n.outputs[k + 1..];
      }
    }
  }

  lemma StepSolves<V>(n: Node, env: map<Name, V>, final: map<Name, V>, f: Operators<V>)
    requires IsReady(n, env.Keys) && Within(Bind(env, n, Args(env, n.inputs), f, 0), final)
    requires forall i :: 0 <= i < |n.outputs| && n.outputs[i] != "" ==> n.outputs[i] !in env
    requires forall i, j :: 0 <= i < j < |n.outputs| && n.outputs[i] != "" ==> n.outputs[i] != n.outputs[j]
    ensures Within(env, final) && Solves(n, final, f)
  {
    var args := Args(env, n.inputs);
    BindDefines(env, n, args, f, 0);
    assert n.outputs[0..] == n.outputs;
    assert args == Args(final, n.inputs);
  }

  lemma {:induction false} RunSolves<V>(order: seq<Node>, env: map<Name, V>, f: Operators<V>)
    requires "" in env && Topological(order, env.Keys) && SingleAssignment(order, env.Keys)
    ensures Within(env, Run(order, env, f))
    ensures forall n :: n in order ==> Solves(n, Run(order, env, f), f)
    decreases |order|
  {
    hide Solves, Bind, Args, NamesOf, Produced;
    if order != [] {
      var n := order[0];
      BindKeys(env, n, Args(env, n.inputs), f, 0);
      assert n.outputs[0..] == n.outputs;
      var next := Bind(env, n, Args(env, n.inputs), f, 0);
      RunSolves(order[1..], next, f);
      StepSolves(n, env, Run(order[1..], next, f), f);
      assert order == [n] + order[1..];
    }
  }

  lemma {:induction false} KeepIsTopological(order: seq<Node>, used: set<Name>, ready: set<Name>)
    requires Topological(order, ready) && forall n :: n in order ==> NamesOf(n.inputs) <= used || !Alive(n, used)
    ensures forall less: set<Name> :: ready * used <= less ==> Topological(Keep(order, used), less)
  {
    if order != [] {
      var n := order[0];
      assert order == [n] + order[1..];
      KeepIsTopological(order[1..], used, ready + NamesOf(n.outputs));
      forall less: set<Name> | ready * used <= less ensures Topological(Keep(order, used), less) {
        if Alive(n, used) {
          assert ([n] + Keep(order[1..], used))[1..] == Keep(order[1..], used);
          assert (ready + NamesOf(n.outputs)) * used <= less + NamesOf(n.outputs);
        } else {
          assert (ready + NamesOf(n.outputs)) * used <= less;
        }
      }
    }
  }

  lemma {:induction false} PruneIsTopological(order: seq<Node>, outs: seq<Name>, ready: set<Name>)
    requires Topological(order, ready)
    ensures Topological(Prune(order, outs), ready)
    decreases |order|
  {
    var used := Used(order, outs);
    KeepDeadSizes(order, used);
    if Dead(order, used) != [] {
      KeepIsTopological(order, used, ready);
      PruneIsTopological(Keep(order, used), outs, ready);
    }
  }

  /** The survivors do not depend on how the node list is arranged. */
  lemma PruneIgnoresTheArrangement(a: seq<Node>, b: seq<Node>, outs: seq<Name>)
    requires multiset(a) == multiset(b)
    ensures multiset(Prune(a, outs)) == multiset(Prune(b, outs))
  {
    assert forall m :: m in a <==> m in multiset(a);
    assert forall m :: m in b <==> m in multiset(b);
    forall n ensures multiset(Prune(a, outs))[n] == multiset(Prune(b, outs))[n] {
      SurvivorsAreTheLargestSelfSupportingSet(a, outs, n);
      SurvivorsAreTheLargestSelfSupportingSet(b, outs, n);
    }
  }

  /** A graph whose nodes can be arranged at all is never refused, and the pass's result computes on
      every graph output what the original nodes compute in that arrangement. */
  lemma WellFormedGraphsKeepTheirOutputs<V>(
      nodes: seq<Node>, arranged: seq<Node>, outs: seq<Name>, env: map<Name, V>, f: Operators<V>)
    requires "" in env && multiset(arranged) == multiset(nodes)
    requires Topological(arranged, env.Keys) && SingleAssignment(arranged, env.Keys)
    ensures var sorted := Sort(Prune(nodes, outs), env.Keys);
            && sorted.Some? && Topological(sorted.value, env.Keys)
            && forall o :: o in outs && o in Run(arranged, env, f) ==>
                 o in Run(sorted.value, env, f) && Run(sorted.value, env, f)[o] == Run(arranged, env, f)[o]
  {
    PruneIsTopological(arranged, outs, env.Keys);
    PruneIgnoresTheArrangement(arranged, nodes, outs);
    SortComplete(Prune(nodes, outs), env.Keys, Prune(arranged, outs));
    SortSound(Prune(nodes, outs), env.Keys);
    var a := Run(arranged, env, f);
    RunSolves(arranged, env, f);
    assert forall n :: n in nodes <==> n in multiset(nodes);
    assert forall n :: n in arranged <==> n in multiset(arranged);
    var order := Sort(Prune(nodes, outs), env.Keys).value;
    forall o | o in outs && o in a
      ensures o in Run(order, env, f) && Run(order, env, f)[o] == a[o]
    {
      PruningAndSortingKeepsTheMeaning(nodes, outs, env, a, f, o);
    }
  }

  lemma {:induction false} ProducersAreFresh(order: seq<Node>, bound: set<Name>, i: nat, o: Name)
    requires SingleAssignment(order, bound) && i < |order| && o in order[i].outputs && o != ""
    ensures o !in bound
  {
    if i > 0 { ProducersAreFresh(order[1..], bound + NamesOf(order[0].outputs), i - 1, o); }
  }

  lemma {:induction false} ProducersComeFirst(order: seq<Node>, ready: set<Name>, i: nat, j: nat, o: Name)
    requires Topological(order, ready) && SingleAssignment(order, ready)
    requires i < |order| && j < |order| && o != "" && o in order[i].outputs && o in order[j].inputs
    ensures i < j
  {
    ProducersAreFresh(order, ready, i, o);
    if i > 0 && j > 0 {
      ProducersComeFirst(order[1..], ready + NamesOf(order[0].outputs), i - 1, j - 1, o);
    }
  }

  function FirstIndex(order: seq<Node>, n: Node): (k: nat)
    ensures n in order ==> k < |order| && order[k] == n
  {
    if order == [] || order[0] == n then 0 else 1 + FirstIndex(order[1..], n)
  }

  /** When the nodes can be arranged, name each value once and omit no output, the survivors are
      exactly the nodes some graph output is computed from. */
  lemma ArrangedSurvivorsAreTheReachingNodes(
      nodes: seq<Node>, arranged: seq<Node>, outs: seq<Name>, ready: set<Name>, n: Node)
    requires Arranges(arranged, nodes, ready) && SingleAssignment(arranged, ready)
    requires forall m :: m in nodes ==> "" !in m.outputs
    ensures n in Prune(nodes, outs) <==> n in nodes && exists hops: nat :: Reaches(nodes, outs, n, hops)
  {
    assert forall m :: m in nodes <==> m in multiset(nodes);
    assert forall m :: m in arranged <==> m in multiset(arranged);
    var rank: Node -> nat := m => if m in arranged then |arranged| - FirstIndex(arranged, m) else 0;
    forall p, q, o | p in nodes && q in nodes && o in p.outputs && o in q.inputs ensures rank(q) < rank(p) {
      ProducersComeFirst(arranged, ready, FirstIndex(arranged, p), FirstIndex(arranged, q), o);
    }
    AcyclicSurvivorsAreTheReachingNodes(nodes, outs, rank, n);
  }

  // ---------------------------------------------------------------- the pass itself

  /** A graph whose node list the pass rewrites in place. */
  class Graph {
    const inputs: seq<Name>
    const initializers: seq<Name>
    const outputs: seq<Name>
    var nodes: seq<Node>

    constructor (inputs: seq<Name>, initializers: seq<Name>, outputs: seq<Name>, nodes: seq<Node>)
      ensures this.inputs == inputs && this.initializers == initializers
      ensures this.outputs == outputs && this.nodes == nodes
    {
      this.inputs, this.initializers, this.outputs, this.nodes := inputs, initializers, outputs, nodes;
    }

    /** Names available before any node runs. */
    function Base(): set<Name> {
      NamesOf(inputs) + NamesOf(initializers) + {""}
    }

    method Remove(n: Node)
      modifies this`nodes
      ensures nodes == RemoveFirst(old(nodes), n)
    {
      var k := 0;
      while k < |nodes| && nodes[k] != n
        invariant k <= |nodes| && forall j :: 0 <= j < k ==> nodes[j] != n
      {
        k := k + 1;
      }
      RemoveFirstAt(nodes, n, k);
      if k < |nodes| {
        nodes := nodes[..k] + nodes[k + 1..];
      }
    }

    method DropDead()
      modifies this`nodes
      ensures nodes == Prune(old(nodes), outputs)
    {
      while true
        invariant Prune(nodes, outputs) == Prune(old(nodes), outputs)
        decreases |nodes|
      {
        var used := NamesOf(outputs);
        for k := 0 to |nodes|
          invariant used == NamesOf(outputs) + Consumed(nodes[..k])
        {
          assert nodes[..k + 1] == nodes[..k] + [nodes[k]];
          used := used + NamesOf(nodes[k].inputs);
        }
        assert nodes[..|nodes|] == nodes;
        var dead := Dead(nodes, used);
        KeepDeadSizes(nodes, used);
        if dead == [] {
          break;
        }
        ghost var before := nodes;
        for k := 0 to |dead|
          invariant Dead(nodes, used) == dead[k..] && Keep(nodes, used) == Keep(before, used)
        {
          RemoveFirstDead(nodes, used);
          Remove(dead[k]);
        }
        KeepAllAlive(nodes, used);
      }
    }

    /** True when the surviving nodes could be ordered; the script exits otherwise. */
    method PruneAndSort() returns (ok: bool)
      modifies this`nodes
      ensures ok == Sort(Prune(old(nodes), outputs), Base()).Some?
      ensures nodes == if ok then Sort(Prune(old(nodes), outputs), Base()).value else Prune(old(nodes), outputs)
    {
      DropDead();
      var order := SortInPasses(nodes, Base());
      ok := order.Some?;
      if ok {
        nodes := order.value;
      }
    }
  }

  /** One pass over the pending nodes: place each node whose inputs are there by now. */
  method PlaceReady(pending: seq<Node>, base: set<Name>, done: seq<Node>)
    returns (ordered: seq<Node>, rest: seq<Node>, ready: set<Name>)
    ensures var s := Sweep(pending, base); ordered == done + s.taken && rest == s.rest && ready == s.ready
  {
    hide NamesOf, IsReady;
    ready, ordered, rest := base, done, [];
    ghost var sweep := Sweep(pending, base);
    for k := 0 to |pending|
      invariant var s := Sweep(pending[k..], ready);
                done + sweep.taken == ordered + s.taken && sweep.rest == rest + s.rest && sweep.ready == s.ready
    {
      assert pending[k..][1..] == pending[k + 1..];
      if IsReady(pending[k], ready) {
        ordered := ordered + [pending[k]];
        ready := ready + NamesOf(pending[k].outputs);
      } else {
        rest := rest + [pending[k]];
      }
    }
  }

  method SortInPasses(nodes: seq<Node>, base: set<Name>) returns (order: Option<seq<Node>>)
    ensures order == Sort(nodes, base)
  {
    hide NamesOf, IsReady, Sweep;
    var ready := base;
    var pending, ordered: seq<Node> := nodes, [];
    assert forall tail: seq<Node> :: [] + tail == tail;
    while pending != []
      invariant Sort(nodes, base) ==
                match Sort(pending, ready)
                case None => None
                case Some(rest) => Some(ordered + rest)
      decreases |pending|
    {
      ghost var done, sweep := ordered, Sweep(pending, ready);
      SweepSplits(pending, ready);
      var rest;
      ordered, rest, ready := PlaceReady(pending, ready, ordered);
      if |rest| == |pending| {
        return None;
      }
      assert forall tail: seq<Node> :: (done + sweep.taken) + tail == done + (sweep.taken + tail);
      pending := rest;
    }
    assert ordered + [] == ordered;
    order := Some(ordered);
  }
}
