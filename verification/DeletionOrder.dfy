// The order in which the demo reset empties tables: children before the parents they reference.
module DeletionOrder {
  import Strings

  // ----- alphabetical order -----

  /** Python's `<` on strings. */
  predicate Before(a: string, b: string) {
    b != "" && (a == "" || a[0] < b[0] || (a[0] == b[0] && Before(a[1..], b[1..])))
  }

  lemma {:induction false} BeforeTotal(a: string, b: string)
    ensures a == b || Before(a, b) || Before(b, a)
  {
    if a != "" && b != "" && a[0] == b[0] {
      BeforeTotal(a[1..], b[1..]);
      assert a == [a[0]] + a[1..] && b == [b[0]] + b[1..];
    }
  }

  lemma {:induction false} BeforeTransitive(a: string, b: string, c: string)
    requires Before(a, b) && Before(b, c)
    ensures Before(a, c)
  {
    if a != "" && a[0] == b[0] && b[0] == c[0] {
      BeforeTransitive(a[1..], b[1..], c[1..]);
    }
  }

  lemma {:induction false} BeforeIrreflexive(a: string)
    ensures !Before(a, a)
  {
    if a != "" {
      BeforeIrreflexive(a[1..]);
    }
  }

  ghost predicate Least(m: string, names: set<string>) {
    m in names && forall x :: x in names ==> x == m || Before(m, x)
  }

  lemma {:induction false} HasLeast(names: set<string>) returns (m: string)
    requires names != {}
    ensures Least(m, names)
    decreases |names|
  {
    m :| m in names;
    var rest := names - {m};
    if rest != {} {
      var n := HasLeast(rest);
      BeforeTotal(m, n);
      if Before(n, m) {
        m := n;
      } else {
        forall x | x in rest ensures Before(m, x) {
          if x != n {
            BeforeTransitive(m, n, x);
          }
        }
      }
    }
  }

  lemma LeastExists(names: set<string>)
    requires names != {}
    ensures exists m :: Least(m, names)
  {
    var m := HasLeast(names);
  }

  lemma LeastIsUnique(m: string, n: string, names: set<string>)
    requires Least(m, names) && Least(n, names)
    ensures m == n
  {
    if m != n {
      BeforeTransitive(m, n, m);
      BeforeIrreflexive(m);
    }
  }

  /** `sorted(names)` */
  ghost function Alphabetical(names: set<string>): (s: seq<string>)
    decreases |names|
  {
    if names == {} then []
    else
      LeastExists(names);
      var m :| Least(m, names);
      [m] + Alphabetical(names - {m})
  }

  lemma {:induction false} AlphabeticalMembers(names: set<string>)
    ensures multiset(Alphabetical(names)) == multiset(names)
    decreases |names|
  {
    if names != {} {
      var m := Alphabetical(names)[0];
      AlphabeticalMembers(names - {m});
      assert Alphabetical(names)[1..] == Alphabetical(names - {m});
      assert names == names - {m} + {m};
    }
  }

  /** What `sorted` promises: each name comes before every later one. */
  lemma {:induction false} AlphabeticalSorted(names: set<string>, i: nat, j: nat)
    requires i < j < |Alphabetical(names)|
    ensures Before(Alphabetical(names)[i], Alphabetical(names)[j])
    decreases |names|
  {
    var m := Alphabetical(names)[0];
    var rest := Alphabetical(names - {m});
    assert Alphabetical(names)[1..] == rest;
    if i == 0 {
      AlphabeticalMembers(names - {m});
      assert Alphabetical(names)[j] == rest[j - 1];
      assert rest[j - 1] in multiset(rest);
    } else {
      AlphabeticalSorted(names - {m}, i - 1, j - 1);
    }
  }

  // ----- the foreign-key graph -----

  type Graph = map<string, set<string>>

  function ChildrenAmong(nodes: set<string>, edges: seq<(string, string)>, t: string): set<string> {
    set c | c in nodes && c != t && (c, t) in edges
  }

  /** The tables that reference each table; self references and foreign tables are ignored. */
  function ChildrenOf(nodes: set<string>, edges: seq<(string, string)>): Graph {
    map t | t in nodes :: ChildrenAmong(nodes, edges, t)
  }

  /** Every child is itself a table. */
  ghost predicate Closed(g: Graph) {
    forall t, c :: t in g && c in g[t] ==> c in g
  }

  /** Each table is referenced by the next one. */
  ghost predicate IsPath(g: Graph, path: seq<string>) {
    && path != []
    && forall i :: 0 <= i < |path| - 1 ==> path[i] in g && path[i + 1] in g[path[i]]
  }

  ghost predicate IsCycle(g: Graph, path: seq<string>) {
    IsPath(g, path) && |path| > 1 && path[0] == path[|path| - 1]
  }

  ghost predicate Acyclic(g: Graph) { forall path :: !IsCycle(g, path) }

  /** The remaining tables that no remaining table references. */
  function Ready(g: Graph, remaining: set<string>): set<string>
    requires remaining <= g.Keys
  {
    set t | t in remaining && g[t] !! remaining
  }

  /** A cycle makes the rest ready at once. */
  function Round(g: Graph, remaining: set<string>): (r: set<string>)
    requires remaining <= g.Keys
    ensures r <= remaining && (remaining != {} ==> r != {})
  {
    if Ready(g, remaining) == {} then remaining else Ready(g, remaining)
  }

  ghost function Order(g: Graph, remaining: set<string>): seq<string>
    requires remaining <= g.Keys
    decreases |remaining|
  {
    if remaining == {} then []
    else
      var round := Round(g, remaining);
      assert |remaining - round| < |remaining| by {
        assert remaining == (remaining - round) + round;
      }
      Alphabetical(round) + Order(g, remaining - round)
  }

  /** `sorted(...)`, as an insertion of each name into a sorted list. */
  method SortNames(names: set<string>) returns (s: seq<string>)
    ensures s == Alphabetical(names)
  {
    s := [];
    var rest := names;
    while rest != {}
      invariant rest <= names && s + Alphabetical(rest) == Alphabetical(names)
      decreases |rest|
    {
      ghost var least := HasLeast(rest);
      var m :| m in rest && forall x :: x in rest ==> x == m || Before(m, x);
      assert Least(m, rest);
      LeastIsUnique(m, Alphabetical(rest)[0], rest);
      assert Alphabetical(rest) == [m] + Alphabetical(rest - {m});
      s, rest := s + [m], rest - {m};
    }
  }

  lemma OneMoreEdge(nodes: set<string>, edges: seq<(string, string)>, i: nat)
    requires i < |edges|
    ensures var g := ChildrenOf(nodes, edges[..i]); var (child, parent) := edges[i];
      ChildrenOf(nodes, edges[..i + 1])
      == if child in nodes && parent in nodes && child != parent then g[parent := g[parent] + {child}] else g
  {
    var g, next := ChildrenOf(nodes, edges[..i]), ChildrenOf(nodes, edges[..i + 1]);
    var (child, parent) := edges[i];
    var want := if child in nodes && parent in nodes && child != parent then g[parent := g[parent] + {child}] else g;
    assert edges[..i + 1] == edges[..i] + [edges[i]];
    assert next.Keys == nodes && want.Keys == nodes;
    forall t | t in nodes ensures next[t] == want[t] {
      forall c | c in nodes && c != t ensures c in next[t] <==> c in want[t] {
        assert (c, t) in edges[..i + 1] <==> (c, t) in edges[..i] || (c, t) == edges[i];
      }
    }
  }

  lemma NoEdges(nodes: set<string>, edges: seq<(string, string)>)
    ensures ChildrenOf(nodes, edges[..0]) == map t | t in nodes :: {}
  {
    forall t | t in nodes ensures ChildrenOf(nodes, edges[..0])[t] == {} {
    }
  }

  method ReadGraph(nodes: set<string>, edges: seq<(string, string)>) returns (childrenOf: Graph)
    ensures childrenOf == ChildrenOf(nodes, edges)
  {
    childrenOf := map t | t in nodes :: {};
    NoEdges(nodes, edges);
    for i := 0 to |edges|
      invariant childrenOf == ChildrenOf(nodes, edges[..i])
    {
      OneMoreEdge(nodes, edges, i);
      var (child, parent) := edges[i];
      if child in nodes && parent in nodes && child != parent {
        childrenOf := childrenOf[parent := childrenOf[parent] + {child}];
      }
    }
    assert edges[..|edges|] == edges;
  }

  /** The tables one round deletes, in order. */
  method NextRound(g: Graph, remaining: set<string>) returns (ready: seq<string>)
    requires remaining <= g.Keys && remaining != {}
    ensures ready == Alphabetical(Round(g, remaining)) && multiset(ready) == multiset(Round(g, remaining))
  {
    ready := SortNames(Ready(g, remaining));
    AlphabeticalMembers(Ready(g, remaining));
    if ready == [] {
      ready := SortNames(remaining);
      AlphabeticalMembers(remaining);
    }
  }

  /** The inner loop: append each table of the round and discard it. */
  method DeleteRound(order: seq<string>, remaining: set<string>, ready: seq<string>)
    returns (order': seq<string>, remaining': set<string>)
    ensures order' == order + ready
    ensures forall x :: x in remaining' <==> x in remaining && x !in ready
  {
    order', remaining' := order, remaining;
    for k := 0 to |ready|
      invariant order' == order + ready[..k]
      invariant forall x :: x in remaining' <==> x in remaining && x !in ready[..k]
    {
      assert ready[..k + 1] == ready[..k] + [ready[k]];
      order', remaining' := order' + [ready[k]], remaining' - {ready[k]};
    }
    assert ready[..|ready|] == ready;
  }

  /** `_deletion_order` */
  method DeletionOrder(tables: seq<string>, edges: seq<(string, string)>) returns (order: seq<string>)
    ensures var nodes := set t | t in tables; order == Order(ChildrenOf(nodes, edges), nodes)
  {
    var nodes := set t | t in tables;
    var childrenOf := ReadGraph(nodes, edges);
    order := [];
    var remaining := nodes;
    while remaining != {}
      invariant remaining <= nodes && order + Order(childrenOf, remaining) == Order(childrenOf, nodes)
      decreases |remaining|
    {
      var ready := NextRound(childrenOf, remaining);
      ghost var before, was := order, remaining;
      order, remaining := DeleteRound(order, remaining, ready);
      RoundDone(childrenOf, was, remaining, before, ready);
    }
  }

  lemma RoundDone(g: Graph, was: set<string>, remaining: set<string>, before: seq<string>, ready: seq<string>)
    requires was <= g.Keys && was != {}
    requires ready == Alphabetical(Round(g, was)) && multiset(ready) == multiset(Round(g, was))
    requires forall x :: x in remaining <==> x in was && x !in ready
    ensures remaining <= was && |remaining| < |was|
    ensures before + ready + Order(g, remaining) == before + Order(g, was)
  {
    Emptied(ready, was, remaining, Round(g, was));
    OneRound(g, was, before, ready);
    assert was == remaining + Round(g, was);
  }

  lemma OrderStep(g: Graph, was: set<string>)
    requires was <= g.Keys && was != {}
    ensures Order(g, was) == Alphabetical(Round(g, was)) + Order(g, was - Round(g, was))
  {
  }

  lemma OneRound(g: Graph, was: set<string>, before: seq<string>, ready: seq<string>)
    requires was <= g.Keys && was != {} && ready == Alphabetical(Round(g, was))
    ensures before + ready + Order(g, was - Round(g, was)) == before + Order(g, was)
  {
    OrderStep(g, was);
    Strings.Regroup(before, ready, Order(g, was - Round(g, was)));
  }

  lemma Emptied(ready: seq<string>, was: set<string>, remaining: set<string>, round: set<string>)
    requires multiset(ready) == multiset(round)
    requires forall x :: x in remaining <==> x in was && x !in ready
    ensures remaining == was - round
  {
    forall x ensures x in ready <==> x in round {
      assert x in ready <==> x in multiset(ready);
    }
  }

  // ----- every table exactly once -----

  /** Each remaining table is listed exactly once, and nothing else is. */
  lemma {:induction false} EachTableOnce(g: Graph, remaining: set<string>)
    requires remaining <= g.Keys
    ensures multiset(Order(g, remaining)) == multiset(remaining)
    decreases |remaining|
  {
    if remaining != {} {
      var round := Round(g, remaining);
      assert remaining == (remaining - round) + round;
      AlphabeticalMembers(round);
      EachTableOnce(g, remaining - round);
      assert multiset(remaining) == multiset(round) + multiset(remaining - round);
    }
  }

  // ----- a finite graph without sinks has a cycle -----

  lemma {:induction false} Pigeonhole(path: seq<string>, nodes: set<string>)
    requires forall i, j :: 0 <= i < j < |path| ==> path[i] != path[j]
    requires forall i :: 0 <= i < |path| ==> path[i] in nodes
    ensures |path| <= |nodes|
  {
    if path != [] {
      var front, last := path[..|path| - 1], path[|path| - 1];
      Pigeonhole(front, nodes - {last});
    }
  }

  /** Every table of `nodes` is referenced from within `nodes`. */
  ghost predicate NoSink(g: Graph, nodes: set<string>) {
    forall t :: t in nodes ==> t in g && !(g[t] !! nodes)
  }

  lemma {:induction false} LongPath(g: Graph, nodes: set<string>, n: nat) returns (path: seq<string>)
    requires nodes != {} && NoSink(g, nodes)
    ensures IsPath(g, path) && |path| == n + 1 && forall i :: 0 <= i < |path| ==> path[i] in nodes
  {
    if n == 0 {
      var t :| t in nodes;
      path := [t];
    } else {
      var front := LongPath(g, nodes, n - 1);
      var last := front[|front| - 1];
      assert last in nodes && !(g[last] !! nodes);
      var c :| c in g[last] && c in nodes;
      path := front + [c];
    }
  }

  lemma Repeats(path: seq<string>, nodes: set<string>)
    requires |path| > |nodes| && forall i :: 0 <= i < |path| ==> path[i] in nodes
    ensures exists i, j :: 0 <= i < j < |path| && path[i] == path[j]
  {
    if forall i, j :: 0 <= i < j < |path| ==> path[i] != path[j] {
      Pigeonhole(path, nodes);
    }
  }

  /** Where every table is referenced from within, there is a cycle. */
  lemma CycleWithin(g: Graph, nodes: set<string>) returns (loop: seq<string>)
    requires nodes != {} && NoSink(g, nodes)
    ensures IsCycle(g, loop)
  {
    var path := LongPath(g, nodes, |nodes|);
    Repeats(path, nodes);
    var i, j :| 0 <= i < j < |path| && path[i] == path[j];
    loop := path[i..j + 1];
    forall k | 0 <= k < |loop| - 1 ensures loop[k] in g && loop[k + 1] in g[loop[k]] {
      assert loop[k] == path[i + k] && loop[k + 1] == path[i + k + 1];
    }
  }

  lemma NothingReady(g: Graph, nodes: set<string>)
    requires nodes <= g.Keys && Ready(g, nodes) == {}
    ensures NoSink(g, nodes)
  {
    forall t | t in nodes ensures !(g[t] !! nodes) {
      assert t !in Ready(g, nodes);
    }
  }

  /** A finite, non-empty, acyclic set of tables has one that none of the others references. */
  lemma AcyclicHasSink(g: Graph, nodes: set<string>)
    requires nodes != {} && nodes <= g.Keys && Acyclic(g)
    ensures Ready(g, nodes) != {}
  {
    if Ready(g, nodes) == {} {
      NothingReady(g, nodes);
      var loop := CycleWithin(g, nodes);
    }
  }

  // ----- children first -----

  /** Wherever a table and one of its children stand in the order, the child stands first. */
  ghost predicate ChildrenFirst(g: Graph, order: seq<string>) {
    forall i, j :: 0 <= i < |order| && 0 <= j < |order| && order[i] in g && order[j] in g[order[i]] ==> j < i
  }

  lemma {:induction false} AcyclicChildrenFirst(g: Graph, remaining: set<string>)
    requires remaining <= g.Keys && Acyclic(g)
    ensures ChildrenFirst(g, Order(g, remaining))
    decreases |remaining|
  {
    if remaining != {} {
      AcyclicHasSink(g, remaining);
      var round := Round(g, remaining);
      assert remaining == (remaining - round) + round;
      AcyclicChildrenFirst(g, remaining - round);
      AlphabeticalMembers(round);
      EachTableOnce(g, remaining - round);
      OrderStep(g, remaining);
      RoundFirst(g, remaining, Alphabetical(round), Order(g, remaining - round));
    }
  }

  lemma RoundFirst(g: Graph, remaining: set<string>, first: seq<string>, rest: seq<string>)
    requires remaining <= g.Keys && multiset(first) == multiset(Ready(g, remaining))
    requires multiset(rest) == multiset(remaining - Ready(g, remaining)) && ChildrenFirst(g, rest)
    ensures ChildrenFirst(g, first + rest)
  {
    var order := first + rest;
    forall i, j | 0 <= i < |order| && 0 <= j < |order| && order[i] in g && order[j] in g[order[i]]
      ensures j < i
    {
      ReadyHasNoChild(g, remaining, first, rest, i, j);
      if |first| <= j {
        assert rest[i - |first|] == order[i] && rest[j - |first|] == order[j];
      }
    }
  }

  lemma ReadyHasNoChild(g: Graph, remaining: set<string>, first: seq<string>, rest: seq<string>, i: nat, j: nat)
    requires remaining <= g.Keys && multiset(first) == multiset(Ready(g, remaining))
    requires multiset(rest) == multiset(remaining - Ready(g, remaining))
    requires i < |first + rest| && j < |first + rest|
    requires (first + rest)[i] in g && (first + rest)[j] in g[(first + rest)[i]]
    ensures |first| <= i
  {
    assert forall k :: 0 <= k < |first| ==> first[k] in multiset(first);
    assert forall k :: 0 <= k < |rest| ==> rest[k] in multiset(rest);
  }

  lemma {:induction false} PathDescends(g: Graph, order: seq<string>, path: seq<string>, i: nat, j: nat)
    requires ChildrenFirst(g, order) && Closed(g) && (forall t :: t in g ==> t in order)
    requires IsPath(g, path) && |path| > 1
    requires i < |order| && order[i] == path[0] && j < |order| && order[j] == path[|path| - 1]
    ensures j < i
  {
    if |path| > 2 {
      var tail := path[1..];
      assert path[0] in g && path[1] in g[path[0]];
      var k :| 0 <= k < |order| && order[k] == path[1];
      forall m | 0 <= m < |tail| - 1 ensures tail[m] in g && tail[m + 1] in g[tail[m]] {
        assert tail[m] == path[m + 1] && tail[m + 1] == path[m + 2];
      }
      PathDescends(g, order, tail, k, j);
    }
  }

  /** The order deletes every child before its parents exactly when the foreign keys are acyclic. */
  lemma ChildrenFirstIffAcyclic(g: Graph)
    requires Closed(g)
    ensures ChildrenFirst(g, Order(g, g.Keys)) <==> Acyclic(g)
  {
    if Acyclic(g) {
      AcyclicChildrenFirst(g, g.Keys);
    } else {
      var path :| IsCycle(g, path);
      var order := Order(g, g.Keys);
      EachTableOnce(g, g.Keys);
      forall t | t in g ensures t in order {
        assert t in multiset(order);
      }
      assert path[0] in g;
      var i :| 0 <= i < |order| && order[i] == path[0];
      if ChildrenFirst(g, order) {
        PathDescends(g, order, path, i, i);
      }
    }
  }

  /** No table is emptied while rows of another listed table still reference it. */
  ghost predicate ForeignKeySafe(order: seq<string>, edges: seq<(string, string)>) {
    forall i, j :: 0 <= i < |order| && 0 <= j < |order| && order[i] != order[j] && (order[j], order[i]) in edges ==> j < i
  }

  /** The order is safe for the given foreign keys exactly when they form no cycle of tables. */
  lemma SafeIffAcyclic(nodes: set<string>, edges: seq<(string, string)>)
    ensures var g := ChildrenOf(nodes, edges);
      ForeignKeySafe(Order(g, nodes), edges) <==> Acyclic(g)
  {
    var g := ChildrenOf(nodes, edges);
    var order := Order(g, nodes);
    EachTableOnce(g, nodes);
    assert g.Keys == nodes;
    forall i | 0 <= i < |order| ensures order[i] in nodes {
      assert order[i] in multiset(order);
    }
    forall i, j | 0 <= i < |order| && 0 <= j < |order|
      ensures order[j] in g[order[i]] <==> order[i] != order[j] && (order[j], order[i]) in edges
    {
    }
    ChildrenFirstIffAcyclic(g);
  }

  /** Two tables that reference each other: an order exists, and it is not safe. */
  lemma TwoTableCycle()
    ensures var nodes, edges := {"a", "b"}, [("a", "b"), ("b", "a")];
      !ForeignKeySafe(Order(ChildrenOf(nodes, edges), nodes), edges)
  {
    var nodes, edges := {"a", "b"}, [("a", "b"), ("b", "a")];
    var g := ChildrenOf(nodes, edges);
    assert edges[0] == ("a", "b") && edges[1] == ("b", "a") && "a" != "b";
    assert "b" in g["a"] && "a" in g["b"];
    assert IsCycle(g, ["a", "b", "a"]);
    SafeIffAcyclic(nodes, edges);
  }

  // ----- what each round deletes -----

  /** Some chain of `k` references ends at `t`: a child, a child of that child, and so on. */
  ghost predicate HasChain(g: Graph, t: string, k: nat)
    decreases k
  {
    t in g && (k == 0 || exists c :: c in g[t] && HasChain(g, c, k - 1))
  }

  ghost function Deep(g: Graph, k: nat): set<string> { set t | t in g && HasChain(g, t, k) }

  /** The tables whose longest chain has exactly `k` references. */
  ghost function Layer(g: Graph, k: nat): set<string> { Deep(g, k) - Deep(g, k + 1) }

  lemma {:induction false} ShorterChain(g: Graph, t: string, k: nat)
    requires HasChain(g, t, k + 1)
    ensures HasChain(g, t, k)
    decreases k
  {
    if k > 0 {
      var c :| c in g[t] && HasChain(g, c, k);
      ShorterChain(g, c, k - 1);
    }
  }

  lemma LayerIsReady(g: Graph, k: nat)
    ensures Ready(g, Deep(g, k)) == Layer(g, k)
    ensures Deep(g, k) - Layer(g, k) == Deep(g, k + 1)
  {
    forall t | t in Deep(g, k + 1) ensures t in Deep(g, k) {
      ShorterChain(g, t, k);
    }
    forall t | t in Deep(g, k) ensures t in Ready(g, Deep(g, k)) <==> t in Layer(g, k) {
      if HasChain(g, t, k + 1) {
        var c :| c in g[t] && HasChain(g, c, k);
        assert c in Deep(g, k);
      }
    }
  }

  /** Layer after layer, each alphabetical; a cycle and what it reaches up to come last, together. */
  ghost function Layers(g: Graph, k: nat): seq<string>
    decreases |Deep(g, k)|
  {
    if Deep(g, k) == {} then []
    else if Layer(g, k) == {} then Alphabetical(Deep(g, k))
    else
      LayerIsReady(g, k);
      assert |Deep(g, k + 1)| < |Deep(g, k)| by {
        assert Deep(g, k) == Deep(g, k + 1) + Layer(g, k);
      }
      Alphabetical(Layer(g, k)) + Layers(g, k + 1)
  }

  lemma OrderAtOnce(g: Graph, was: set<string>)
    requires was <= g.Keys && was != {} && Ready(g, was) == {}
    ensures Order(g, was) == Alphabetical(was)
  {
    OrderStep(g, was);
    assert was - was == {};
    assert Order(g, {}) == [];
    assert Alphabetical(was) + [] == Alphabetical(was);
  }

  lemma OrderByRound(g: Graph, was: set<string>, ready: set<string>, rest: set<string>)
    requires was <= g.Keys && ready == Ready(g, was) != {} && rest == was - ready
    ensures rest <= g.Keys && Order(g, was) == Alphabetical(ready) + Order(g, rest)
  {
    OrderStep(g, was);
  }

  lemma LayerShrinks(g: Graph, k: nat)
    requires Layer(g, k) != {}
    ensures |Deep(g, k + 1)| < |Deep(g, k)|
  {
    LayerIsReady(g, k);
    assert Deep(g, k) == Deep(g, k + 1) + Layer(g, k);
  }

  lemma LayersStep(g: Graph, k: nat)
    requires Layer(g, k) != {} && Order(g, Deep(g, k + 1)) == Layers(g, k + 1)
    ensures Order(g, Deep(g, k)) == Layers(g, k)
  {
    LayerIsReady(g, k);
    OrderByRound(g, Deep(g, k), Layer(g, k), Deep(g, k + 1));
  }

  lemma {:induction false} OrderFromLayer(g: Graph, k: nat)
    ensures Order(g, Deep(g, k)) == Layers(g, k)
    decreases |Deep(g, k)|
  {
    if Layer(g, k) != {} {
      LayerShrinks(g, k);
      OrderFromLayer(g, k + 1);
      LayersStep(g, k);
    } else if Deep(g, k) != {} {
      LayerIsReady(g, k);
      OrderAtOnce(g, Deep(g, k));
    }
  }

  /** Round `k` deletes exactly the tables whose longest child chain has length `k`, in
      alphabetical order. */
  lemma RoundsAreLayers(g: Graph)
    ensures Order(g, g.Keys) == Layers(g, 0)
  {
    assert Deep(g, 0) == g.Keys;
    OrderFromLayer(g, 0);
  }
}
