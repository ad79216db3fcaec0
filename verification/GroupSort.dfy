/** proxyGroupsDagSort: Kahn's algorithm over a mutable graph, then locating the loops. */
module GroupSort {
  import opened GroupGraph

  datatype Decl = Absent | Declared(g: Group)

  datatype Node = Node(indegree: int, decl: Decl, outdegree: int, from: seq<Name>)

  type Graph = map<Name, Node>

  datatype Outcome = Sorted | DuplicateName | Loop(names: seq<Name>)

  // ---- step 1.1: build the graph ----

  /** The graph holds exactly gs: a node for every name used, counting how often it is a member. */
  ghost predicate Represents(graph: Graph, gs: seq<Group>) {
    DistinctNames(gs) && Declares(graph, gs) && forall v: Name :: CountsFor(graph, gs, v)
  }

  ghost predicate Declares(graph: Graph, gs: seq<Group>) {
    && (forall g | g in gs :: g.name in graph && graph[g.name].decl == Declared(g))
    && (forall v | v in graph && graph[v].decl.Declared? :: graph[v].decl.g in gs && graph[v].decl.g.name == v)
  }

  ghost predicate CountsFor(graph: Graph, gs: seq<Group>, v: Name) {
    if v in graph then graph[v].indegree == Members(gs)[v] && graph[v].outdegree == 0 && graph[v].from == []
    else Members(gs)[v] == 0
  }

  /** The node v of `graph` once `proxies` have been counted on top of `start`. */
  ghost predicate Counted(start: Graph, graph: Graph, proxies: seq<Name>, v: Name) {
    && (v in graph <==> v in start || v in proxies)
    && (v in graph && v in start ==> graph[v] == start[v].(indegree := start[v].indegree + multiset(proxies)[v]))
    && (v in graph && v !in start ==> graph[v] == Node(multiset(proxies)[v], Absent, 0, []))
  }

  method AddMembers(start: Graph, proxies: seq<Name>) returns (graph: Graph)
    ensures forall v :: Counted(start, graph, proxies, v)
  {
    graph := start;
    for i := 0 to |proxies|
      invariant forall v: Name :: Counted(start, graph, proxies[..i], v)
    {
      var proxy, before := proxies[i], graph;
      if proxy in graph {
        graph := graph[proxy := graph[proxy].(indegree := graph[proxy].indegree + 1)];
      } else {
        graph := graph[proxy := Node(1, Absent, 0, [])];
      }
      ghost var counted := proxies[..i] + [proxy];
      assert proxies[..i + 1] == counted;
      forall v: Name ensures Counted(start, graph, counted, v) {
        assert Counted(start, before, proxies[..i], v);
        assert v !in proxies[..i] ==> multiset(proxies[..i])[v] == 0;
      }
    }
    assert proxies[..|proxies|] == proxies;
  }

  method BuildGraph(gs: seq<Group>) returns (distinct: bool, graph: Graph)
    ensures distinct <==> DistinctNames(gs)
    ensures distinct ==> Represents(graph, gs)
  {
    graph := map[];
    for i := 0 to |gs|
      invariant Represents(graph, gs[..i])
    {
      var g := gs[i];
      if g.name in graph && graph[g.name].decl.Declared? {
        assert graph[g.name].decl.g in gs[..i];
        var k :| 0 <= k < i && gs[k].name == g.name;
        return false, graph;
      }
      var declared := if g.name in graph then graph[g.name := graph[g.name].(decl := Declared(g))]
                      else graph[g.name := Node(0, Declared(g), 0, [])];
      var extended := AddMembers(declared, g.proxies);
      AddedGroup(graph, declared, extended, gs[..i], g);
      graph := extended;
      assert gs[..i + 1] == gs[..i] + [g];
    }
    assert gs[..|gs|] == gs;
    distinct := true;
  }

  lemma AddedGroup(graph: Graph, declared: Graph, extended: Graph, gs: seq<Group>, g: Group)
    requires Represents(graph, gs) && (g.name in graph ==> graph[g.name].decl.Absent?)
    requires declared == if g.name in graph then graph[g.name := graph[g.name].(decl := Declared(g))]
                         else graph[g.name := Node(0, Declared(g), 0, [])]
    requires forall v: Name :: Counted(declared, extended, g.proxies, v)
    ensures Represents(extended, gs + [g])
  {
    var all := gs + [g];
    assert all[..|all| - 1] == gs;
    forall v: Name ensures CountsFor(extended, all, v) {
      assert CountsFor(graph, gs, v) && Counted(declared, extended, g.proxies, v);
      assert Members(all)[v] == Members(gs)[v] + multiset(g.proxies)[v];
    }
    forall i, j | 0 <= i < j < |all| ensures all[i].name != all[j].name {
      assert all[i] in gs;
    }
    AddedDeclaration(graph, declared, extended, gs, g);
  }

  lemma AddedDeclaration(graph: Graph, declared: Graph, extended: Graph, gs: seq<Group>, g: Group)
    requires Declares(graph, gs) && (g.name in graph ==> graph[g.name].decl.Absent?)
    requires declared == if g.name in graph then graph[g.name := graph[g.name].(decl := Declared(g))]
                         else graph[g.name := Node(0, Declared(g), 0, [])]
    requires forall v: Name :: Counted(declared, extended, g.proxies, v)
    ensures Declares(extended, gs + [g])
  {
    forall h | h in gs + [g] ensures h.name in extended && extended[h.name].decl == Declared(h) {
      assert Counted(declared, extended, g.proxies, h.name);
    }
    forall v | v in extended && extended[v].decl.Declared?
      ensures extended[v].decl.g in gs + [g] && extended[v].decl.g.name == v
    {
      assert Counted(declared, extended, g.proxies, v);
    }
  }

  // ---- step 1.2: remove groups nobody contains, last place first ----

  ghost predicate Distinct(q: seq<Name>) {
    forall i, j | 0 <= i < j < |q| :: q[i] != q[j]
  }

  /** The queue holds exactly the nodes with no incoming edge left. */
  ghost predicate QueueOk(graph: Graph, queue: seq<Name>) {
    Distinct(queue) && forall v: Name :: v in queue <==> v in graph && graph[v].indegree == 0
  }

  method ZeroIndegrees(graph: Graph) returns (queue: seq<Name>)
    ensures QueueOk(graph, queue)
  {
    queue := [];
    var left := graph.Keys;
    while left != {}
      invariant left <= graph.Keys && Distinct(queue)
      invariant forall v: Name :: v in queue <==> v in graph && v !in left && graph[v].indegree == 0
      decreases left
    {
      var name :| name in left;
      left := left - {name};
      if graph[name].indegree == 0 {
        queue := queue + [name];
      }
    }
  }

  ghost predicate Released(start: Graph, graph: Graph, proxies: seq<Name>, v: Name) {
    && (v in graph <==> v in start)
    && (v in graph ==> graph[v] == start[v].(indegree := start[v].indegree - multiset(proxies)[v]))
  }

  method ReleaseMembers(start: Graph, waiting: seq<Name>, proxies: seq<Name>) returns (graph: Graph, queue: seq<Name>)
    requires QueueOk(start, waiting)
    requires forall v | v in proxies :: v in start && start[v].indegree >= multiset(proxies)[v]
    ensures forall v: Name :: Released(start, graph, proxies, v)
    ensures QueueOk(graph, queue) && waiting <= queue
  {
    graph, queue := start, waiting;
    for i := 0 to |proxies|
      invariant forall v: Name :: Released(start, graph, proxies[..i], v)
      invariant QueueOk(graph, queue) && waiting <= queue
    {
      var proxy, before := proxies[i], graph;
      assert proxies[..i] + [proxy] + proxies[i + 1..] == proxies;
      assert Released(start, graph, proxies[..i], proxy);
      graph := graph[proxy := graph[proxy].(indegree := graph[proxy].indegree - 1)];
      if graph[proxy].indegree == 0 {
        queue := queue + [proxy];
      }
      ghost var released := proxies[..i] + [proxy];
      assert proxies[..i + 1] == released;
      forall v: Name ensures Released(start, graph, released, v) {
        assert Released(start, before, proxies[..i], v);
      }
    }
    assert proxies[..|proxies|] == proxies;
  }

  lemma PoppedGroup(graph: Graph, released: Graph, rest: seq<Group>, k: nat)
    requires Represents(graph, rest) && k < |rest| && graph[rest[k].name].indegree == 0
    requires forall v: Name :: Released(graph, released, rest[k].proxies, v)
    ensures Represents(released - {rest[k].name}, Removed(rest, k))
  {
    var g, less, t := rest[k], Removed(rest, k), released - {rest[k].name};
    MembersRemoved(rest, k);
    RemovedFacts(rest, k);
    assert CountsFor(graph, rest, g.name);
    forall v: Name ensures CountsFor(t, less, v) {
      assert CountsFor(graph, rest, v) && Released(graph, released, g.proxies, v);
    }
    forall h | h in less ensures h.name in t && t[h.name].decl == Declared(h) {
      assert Released(graph, released, g.proxies, h.name);
    }
    forall v | v in t && t[v].decl.Declared? ensures t[v].decl.g in less && t[v].decl.g.name == v {
      assert Released(graph, released, g.proxies, v);
    }
  }

  lemma PoppedLeaf(graph: Graph, rest: seq<Group>, name: Name)
    requires Represents(graph, rest) && name in graph && graph[name].indegree == 0 && graph[name].decl.Absent?
    ensures Represents(graph - {name}, rest)
  {
    forall v: Name ensures CountsFor(graph - {name}, rest, v) {
      assert CountsFor(graph, rest, v);
    }
  }

  /** Everything of gs still to be placed is in rest; done was placed, each group before its members. */
  ghost predicate Progress(gs: seq<Group>, graph: Graph, rest: seq<Group>, done: seq<Group>) {
    && multiset(rest) + multiset(done) == multiset(gs)
    && (forall g | g in gs && g.name in graph :: g in rest)
    && (forall v | AfterCycle(gs, v) :: v in graph)
    && (forall i, j | 0 <= i <= j < |done| :: done[i].name !in done[j].proxies)
    && (forall i, g | 0 <= i < |done| && g in rest :: done[i].name !in g.proxies)
  }

  lemma NotAfterCycle(gs: seq<Group>, graph: Graph, rest: seq<Group>, done: seq<Group>, name: Name)
    requires Progress(gs, graph, rest, done) && Represents(graph, rest)
    requires name in graph && graph[name].indegree == 0
    ensures !AfterCycle(gs, name)
    ensures forall g | g in rest :: name !in g.proxies
  {
    assert CountsFor(graph, rest, name);
    MemberOf(rest, name);
    if AfterCycle(gs, name) {
      var u := AfterCycleParent(gs, name);
    }
  }

  lemma PlacedGroup(gs: seq<Group>, graph: Graph, rest: seq<Group>, done: seq<Group>, k: nat, smaller: Graph)
    requires DistinctNames(gs) && Progress(gs, graph, rest, done) && Represents(graph, rest)
    requires k < |rest| && rest[k].name in graph && graph[rest[k].name].indegree == 0
    requires smaller.Keys == graph.Keys - {rest[k].name}
    ensures Progress(gs, smaller, Removed(rest, k), done + [rest[k]])
  {
    var g, less, more := rest[k], Removed(rest, k), done + [rest[k]];
    NotAfterCycle(gs, graph, rest, done, g.name);
    RemovedFacts(rest, k);
    assert rest == rest[..k] + [g] + rest[k + 1..];
    forall i, j | 0 <= i <= j < |more| ensures more[i].name !in more[j].proxies {
      assert j == |done| ==> more[j] == g && g in rest;
    }
  }

  lemma QueuePopped(graph: Graph, queue: seq<Name>)
    requires QueueOk(graph, queue) && queue != []
    ensures queue[0] in graph && graph[queue[0]].indegree == 0
    ensures QueueOk(graph - {queue[0]}, queue[1..])
  {
  }

  /** The groups placed so far, from the end of the array backwards. */
  ghost predicate PlacedIn(s: seq<Group>, done: seq<Group>) {
    |done| <= |s| && forall k | 0 <= k < |done| :: s[|s| - 1 - k] == done[k]
  }

  lemma GroupStep(gs: seq<Group>, graph: Graph, released: Graph, queue: seq<Name>, longer: seq<Name>,
                  rest: seq<Group>, done: seq<Group>, k: nat)
    requires Progress(gs, graph, rest, done) && Represents(graph, rest) && DistinctNames(gs)
    requires QueueOk(graph, queue) && queue != [] && k < |rest| && rest[k].name == queue[0]
    requires forall v: Name :: Released(graph, released, rest[k].proxies, v)
    requires QueueOk(released, longer) && queue <= longer
    ensures Represents(released - {queue[0]}, Removed(rest, k))
    ensures Progress(gs, released - {queue[0]}, Removed(rest, k), done + [rest[k]])
    ensures QueueOk(released - {queue[0]}, longer[1..])
    ensures (released - {queue[0]}).Keys == graph.Keys - {queue[0]}
  {
    QueuePopped(graph, queue);
    QueuePopped(released, longer);
    PoppedGroup(graph, released, rest, k);
    var smaller := released - {queue[0]};
    forall v: Name ensures v in smaller.Keys <==> v in graph.Keys - {queue[0]} {
      assert Released(graph, released, rest[k].proxies, v);
    }
    PlacedGroup(gs, graph, rest, done, k, smaller);
  }

  method PeelParents(a: array<Group>, start: Graph) returns (graph: Graph, ghost rest: seq<Group>, ghost done: seq<Group>)
    requires Represents(start, a[..])
    modifies a
    ensures Represents(graph, rest) && Progress(old(a[..]), graph, rest, done) && PlacedIn(a[..], done)
    ensures forall v | v in graph :: graph[v].indegree > 0
  {
    ghost var gs := a[..];
    graph, rest, done := start, gs, [];
    Untouched(gs, graph);
    var index := 0;
    var queue := ZeroIndegrees(graph);
    while |queue| > 0
      invariant QueueOk(graph, queue) && Represents(graph, rest)
      invariant index == |done| && Progress(gs, graph, rest, done) && PlacedIn(a[..], done)
      decreases graph.Keys
    {
      var name := queue[0];
      var node := graph[name];
      QueuePopped(graph, queue);
      if node.decl.Declared? {
        ghost var k :| 0 <= k < |rest| && rest[k] == node.decl.g;
        ghost var placed := done + [rest[k]];
        PlacesLeft(gs, graph, rest, done, k);
        index := index + 1;
        a[a.Length - index] := node.decl.g;
        assert PlacedIn(a[..], placed);
        MembersInGraph(graph, rest, k);
        var released, longer := ReleaseMembers(graph, queue, node.decl.g.proxies);
        GroupStep(gs, graph, released, queue, longer, rest, done, k);
        graph, queue := released, longer;
        rest, done := Removed(rest, k), placed;
      } else {
        NotAfterCycle(gs, graph, rest, done, name);
        PoppedLeaf(graph, rest, name);
      }
      graph := graph - {name};
      queue := queue[1..];
    }
    forall v | v in graph ensures graph[v].indegree > 0 {
      assert CountsFor(graph, rest, v);
      assert v !in queue;
    }
  }

  lemma Untouched(gs: seq<Group>, graph: Graph)
    requires Represents(graph, gs)
    ensures Progress(gs, graph, gs, [])
  {
    forall v | AfterCycle(gs, v) ensures v in graph {
      var u := AfterCycleParent(gs, v);
      MemberOf(gs, v);
      assert CountsFor(graph, gs, v);
    }
  }

  lemma MembersInGraph(graph: Graph, rest: seq<Group>, k: nat)
    requires Represents(graph, rest) && k < |rest|
    ensures forall v | v in rest[k].proxies :: v in graph && graph[v].indegree >= multiset(rest[k].proxies)[v]
  {
    MembersRemoved(rest, k);
    forall v | v in rest[k].proxies ensures v in graph && graph[v].indegree >= multiset(rest[k].proxies)[v] {
      assert CountsFor(graph, rest, v);
      assert v in multiset(rest[k].proxies);
    }
  }

  lemma PlacesLeft(gs: seq<Group>, graph: Graph, rest: seq<Group>, done: seq<Group>, k: nat)
    requires Progress(gs, graph, rest, done) && k < |rest|
    ensures |done| < |gs|
  {
    assert |multiset(rest)| + |multiset(done)| == |multiset(gs)|;
  }

  // ---- no loop: what the array holds ----

  /** Every group comes after all groups among its members. */
  ghost predicate MembersFirst(s: seq<Group>) {
    forall i, j | 0 <= i < |s| && 0 <= j < |s| && s[j].name in s[i].proxies :: j < i
  }

  lemma {:induction false} ReversedMultiset(s: seq<Group>, done: seq<Group>)
    requires |s| == |done| && PlacedIn(s, done)
    ensures multiset(s) == multiset(done)
    decreases |s|
  {
    if s != [] {
      var n := |s| - 1;
      assert s == [s[0]] + s[1..] && done == done[..n] + [done[n]];
      ReversedMultiset(s[1..], done[..n]);
    }
  }

  lemma RestInGraph(graph: Graph, rest: seq<Group>)
    requires Represents(graph, rest)
    ensures rest != [] ==> graph != map[]
  {
    if rest != [] {
      assert rest[0] in rest && rest[0].name in graph;
    }
  }

  lemma AllPlaced(gs: seq<Group>, graph: Graph, rest: seq<Group>, done: seq<Group>, s: seq<Group>)
    requires Progress(gs, graph, rest, done) && Represents(graph, rest) && PlacedIn(s, done) && |s| == |gs|
    requires graph == map[]
    ensures multiset(s) == multiset(gs) && MembersFirst(s) && Acyclic(gs)
  {
    RestInGraph(graph, rest);
    assert rest == [];
    assert multiset(done) == multiset(gs);
    assert |done| == |multiset(done)| == |multiset(gs)| == |gs|;
    ReversedMultiset(s, done);
    forall i, j | 0 <= i < |s| && 0 <= j < |s| && s[j].name in s[i].proxies ensures j < i {
      assert s[i] == done[|s| - 1 - i] && s[j] == done[|s| - 1 - j];
    }
    forall v ensures !OnCycle(gs, v) {
      if OnCycle(gs, v) {
        CycleIsBetween(gs, v);
      }
    }
  }

  // ---- step 2: keep only the loops ----

  /** How many of ps are in s. */
  function Within(ps: seq<Name>, s: set<Name>): nat {
    if ps == [] then 0 else Within(ps[..|ps| - 1], s) + if ps[|ps| - 1] in s then 1 else 0
  }

  lemma {:induction false} WithinShrinks(ps: seq<Name>, s: set<Name>, x: Name)
    requires x in s
    ensures Within(ps, s - {x}) == Within(ps, s) - multiset(ps)[x]
    decreases |ps|
  {
    if ps != [] {
      var n := |ps| - 1;
      WithinShrinks(ps[..n], s, x);
      assert ps == ps[..n] + [ps[n]];
    }
  }

  lemma {:induction false} WithinAll(ps: seq<Name>, s: set<Name>)
    requires forall v | v in ps :: v in s
    ensures Within(ps, s) == |ps|
    decreases |ps|
  {
    if ps != [] {
      assert ps[|ps| - 1] in ps;
      WithinAll(ps[..|ps| - 1], s);
    }
  }

  lemma {:induction false} WithinPositive(ps: seq<Name>, s: set<Name>)
    ensures Within(ps, s) > 0 <==> exists v | v in ps :: v in s
    decreases |ps|
  {
    if ps != [] {
      var n := |ps| - 1;
      WithinPositive(ps[..n], s);
      assert ps == ps[..n] + [ps[n]];
    }
  }

  function MembersOf(node: Node): seq<Name> {
    if node.decl.Declared? then node.decl.g.proxies else []
  }

  // step 2.1

  /** The node v after the edges of `name` to ps have been added to `start`. */
  ghost predicate Appended(start: Graph, graph: Graph, name: Name, ps: seq<Name>, v: Name) {
    && (v in graph <==> v in start)
    && (v in graph ==>
        && graph[v].decl == start[v].decl
        && graph[v].outdegree == start[v].outdegree + (if v == name then |ps| else 0)
        && (forall u :: multiset(graph[v].from)[u] == multiset(start[v].from)[u] + if u == name then multiset(ps)[v] else 0))
  }

  method AddEdges(start: Graph, name: Name, ps: seq<Name>) returns (graph: Graph)
    requires name in start && forall v | v in ps :: v in start
    ensures forall v: Name :: Appended(start, graph, name, ps, v)
  {
    graph := start;
    for i := 0 to |ps|
      invariant forall v: Name :: Appended(start, graph, name, ps[..i], v)
    {
      var proxy, before := ps[i], graph;
      assert Appended(start, before, name, ps[..i], name) && Appended(start, before, name, ps[..i], proxy);
      var counted := graph[name := graph[name].(outdegree := graph[name].outdegree + 1)];
      graph := counted[proxy := counted[proxy].(from := counted[proxy].from + [name])];
      EdgeAppended(start, before, counted, graph, name, ps[..i], proxy);
      assert ps[..i + 1] == ps[..i] + [proxy];
    }
    assert ps[..|ps|] == ps;
  }

  lemma EdgeAppended(start: Graph, before: Graph, counted: Graph, graph: Graph, name: Name, ps: seq<Name>, proxy: Name)
    requires (forall v: Name :: Appended(start, before, name, ps, v)) && name in before && proxy in before
    requires counted == before[name := before[name].(outdegree := before[name].outdegree + 1)]
    requires graph == counted[proxy := counted[proxy].(from := counted[proxy].from + [name])]
    ensures forall v: Name :: Appended(start, graph, name, ps + [proxy], v)
  {
    forall v: Name ensures Appended(start, graph, name, ps + [proxy], v) {
      assert Appended(start, before, name, ps, v);
      assert counted[proxy].from == before[proxy].from;
    }
  }

  /** The node v once the edges of every node in `seen` have been added to `start`. */
  ghost predicate EdgesOf(start: Graph, graph: Graph, seen: set<Name>, v: Name) {
    && (v in graph <==> v in start)
    && (v in graph ==>
        && graph[v].decl == start[v].decl
        && graph[v].outdegree == (if v in seen then |MembersOf(start[v])| else 0)
        && (forall u :: multiset(graph[v].from)[u] == if u in seen && u in start then multiset(MembersOf(start[u]))[v] else 0))
  }

  ghost predicate MembersPresent(graph: Graph) {
    forall u, m | u in graph && m in MembersOf(graph[u]) :: m in graph
  }

  method RebuildEdges(start: Graph) returns (graph: Graph)
    requires MembersPresent(start)
    requires forall v | v in start :: start[v].outdegree == 0 && start[v].from == []
    ensures forall v: Name :: EdgesOf(start, graph, start.Keys, v)
  {
    graph := start;
    var left := start.Keys;
    while left != {}
      invariant left <= start.Keys
      invariant forall v: Name :: EdgesOf(start, graph, start.Keys - left, v)
      decreases left
    {
      var name :| name in left;
      ghost var before, seen := graph, start.Keys - left;
      assert EdgesOf(start, graph, seen, name);
      var node := graph[name];
      left := left - {name};
      if node.decl.Declared? {
        forall v | v in node.decl.g.proxies ensures v in graph {
          assert v in MembersOf(start[name]) && EdgesOf(start, graph, seen, v);
        }
        graph := AddEdges(graph, name, node.decl.g.proxies);
      }
      EdgesExtended(start, before, graph, seen, name);
      assert start.Keys - left == seen + {name};
    }
    assert start.Keys - left == start.Keys;
  }

  lemma EdgesExtended(start: Graph, before: Graph, graph: Graph, seen: set<Name>, name: Name)
    requires forall v: Name :: EdgesOf(start, before, seen, v)
    requires name in start && name !in seen
    requires if start[name].decl.Declared? then forall v: Name :: Appended(before, graph, name, start[name].decl.g.proxies, v)
             else graph == before
    ensures forall v: Name :: EdgesOf(start, graph, seen + {name}, v)
  {
    forall v: Name ensures EdgesOf(start, graph, seen + {name}, v) {
      assert EdgesOf(start, before, seen, v);
      if start[name].decl.Declared? {
        assert Appended(before, graph, name, start[name].decl.g.proxies, v);
      }
    }
  }

  // step 2.2

  ghost predicate LeavesQueued(graph: Graph, queue: seq<Name>) {
    Distinct(queue) && forall v: Name :: v in queue <==> v in graph && graph[v].outdegree == 0
  }

  method ZeroOutdegrees(graph: Graph) returns (queue: seq<Name>)
    ensures LeavesQueued(graph, queue)
  {
    queue := [];
    var left := graph.Keys;
    while left != {}
      invariant left <= graph.Keys && Distinct(queue)
      invariant forall v: Name :: v in queue <==> v in graph && v !in left && graph[v].outdegree == 0
      decreases left
    {
      var name :| name in left;
      left := left - {name};
      if graph[name].outdegree == 0 {
        queue := queue + [name];
      }
    }
  }

  ghost predicate Freed(start: Graph, graph: Graph, parents: seq<Name>, v: Name) {
    && (v in graph <==> v in start)
    && (v in graph ==> graph[v] == start[v].(outdegree := start[v].outdegree - multiset(parents)[v]))
  }

  method ReleaseParents(start: Graph, waiting: seq<Name>, parents: seq<Name>) returns (graph: Graph, queue: seq<Name>)
    requires LeavesQueued(start, waiting)
    requires forall v | v in parents :: v in start && start[v].outdegree >= multiset(parents)[v]
    ensures forall v: Name :: Freed(start, graph, parents, v)
    ensures LeavesQueued(graph, queue) && waiting <= queue
  {
    graph, queue := start, waiting;
    for i := 0 to |parents|
      invariant forall v: Name :: Freed(start, graph, parents[..i], v)
      invariant LeavesQueued(graph, queue) && waiting <= queue
    {
      var f, before := parents[i], graph;
      assert parents[..i] + [f] + parents[i + 1..] == parents;
      assert Freed(start, graph, parents[..i], f);
      graph := graph[f := graph[f].(outdegree := graph[f].outdegree - 1)];
      if graph[f].outdegree == 0 {
        queue := queue + [f];
      }
      ghost var freed := parents[..i] + [f];
      assert parents[..i + 1] == freed;
      forall v: Name ensures Freed(start, graph, freed, v) {
        assert Freed(start, before, parents[..i], v);
      }
    }
    assert parents[..|parents|] == parents;
  }

  /** The node v of what is left of `base`: its edges into the rest are counted, its parents are present. */
  ghost predicate Trimmed(base: Graph, graph: Graph, v: Name) {
    v in graph ==>
      && v in base
      && graph[v].decl == base[v].decl && graph[v].from == base[v].from
      && graph[v].outdegree == Within(MembersOf(graph[v]), graph.Keys)
      && (forall u | u in graph[v].from :: u in graph)
      && (forall u | u in graph :: multiset(graph[v].from)[u] == multiset(MembersOf(graph[u]))[v])
  }

  lemma ParentsCounted(base: Graph, graph: Graph, x: Name)
    requires (forall v: Name :: Trimmed(base, graph, v)) && x in graph
    ensures forall f | f in graph[x].from :: f in graph && graph[f].outdegree >= multiset(graph[x].from)[f]
  {
    assert Trimmed(base, graph, x);
    forall f | f in graph[x].from ensures f in graph && graph[f].outdegree >= multiset(graph[x].from)[f] {
      assert Trimmed(base, graph, f);
      WithinShrinks(MembersOf(graph[f]), graph.Keys, x);
    }
  }

  lemma LeafDropped(base: Graph, graph: Graph, freed: Graph, x: Name)
    requires (forall v: Name :: Trimmed(base, graph, v)) && x in graph && graph[x].outdegree == 0
    requires forall v: Name :: Freed(graph, freed, graph[x].from, v)
    ensures forall v: Name :: Trimmed(base, freed - {x}, v)
  {
    var t := freed - {x};
    forall v: Name ensures v in t.Keys <==> v in graph.Keys - {x} { assert Freed(graph, freed, graph[x].from, v); }
    assert t.Keys == graph.Keys - {x};
    forall v: Name ensures Trimmed(base, t, v) {
      assert Trimmed(base, graph, v) && Trimmed(base, graph, x) && Freed(graph, freed, graph[x].from, v);
      if v in t {
        WithinShrinks(MembersOf(graph[v]), graph.Keys, x);
        WithinPositive(MembersOf(graph[x]), graph.Keys);
        assert v in multiset(MembersOf(graph[x])) <==> v in MembersOf(graph[x]);
        assert x in multiset(graph[v].from) <==> x in graph[v].from;
        forall u | u in t ensures MembersOf(t[u]) == MembersOf(graph[u]) { assert Freed(graph, freed, graph[x].from, u); }
      }
    }
  }

  /** What the leftover nodes of a cyclic configuration have in common. */
  ghost predicate Knotted(gs: seq<Group>, graph: Graph) {
    && graph != map[]
    && ParentClosed(gs, graph.Keys)
    && (forall v | Between(gs, v) :: v in graph)
    && (forall g | g in gs && g.name in graph :: graph[g.name].decl == Declared(g))
    && (forall v | v in graph && graph[v].decl.Declared? :: graph[v].decl.g in gs && graph[v].decl.g.name == v)
  }

  lemma LeafIsOutside(gs: seq<Group>, base: Graph, graph: Graph, x: Name)
    requires Knotted(gs, graph) && Trimmed(base, graph, x) && x in graph && graph[x].outdegree == 0
    ensures !Between(gs, x)
    ensures forall v | v in graph :: !Edge(gs, x, v)
  {
    WithinPositive(MembersOf(graph[x]), graph.Keys);
    if Between(gs, x) {
      var w := BetweenMember(gs, x);
    }
  }

  lemma ParentsSurvive(gs: seq<Group>, s: set<Name>, x: Name)
    requires ParentClosed(gs, s) && x in s && forall v | v in s :: !Edge(gs, x, v)
    ensures ParentClosed(gs, s - {x}) && s - {x} != {}
  {
    forall v | v in s ensures HasParent(gs, s - {x}, v) {
      assert HasParent(gs, s, v);
      var u :| u in s && Edge(gs, u, v);
      assert u in s - {x};
    }
    assert HasParent(gs, s - {x}, x);
  }

  lemma KnotSurvives(gs: seq<Group>, base: Graph, graph: Graph, freed: Graph, x: Name)
    requires Knotted(gs, graph) && Trimmed(base, graph, x) && x in graph && graph[x].outdegree == 0
    requires forall v: Name :: Freed(graph, freed, graph[x].from, v)
    ensures Knotted(gs, freed - {x})
  {
    var t := freed - {x};
    LeafIsOutside(gs, base, graph, x);
    forall v: Name ensures v in t <==> v in graph && v != x { assert Freed(graph, freed, graph[x].from, v); }
    assert t.Keys == graph.Keys - {x};
    forall v | v in t ensures t[v].decl == graph[v].decl { assert Freed(graph, freed, graph[x].from, v); }
    ParentsSurvive(gs, graph.Keys, x);
  }

  /** Step 2.2: drop nodes that lead nowhere until only the loops and what joins them remain. */
  method PeelLeaves(start: Graph, ghost gs: seq<Group>) returns (graph: Graph)
    requires Knotted(gs, start) && forall v: Name :: Trimmed(start, start, v)
    ensures Knotted(gs, graph) && MemberClosed(gs, graph.Keys)
  {
    graph := start;
    var queue := ZeroOutdegrees(graph);
    while |queue| > 0
      invariant LeavesQueued(graph, queue) && Knotted(gs, graph)
      invariant forall v: Name :: Trimmed(start, graph, v)
      decreases graph.Keys
    {
      var name := queue[0];
      assert name in queue;
      ParentsCounted(start, graph, name);
      var freed, longer := ReleaseParents(graph, queue, graph[name].from);
      LeafDropped(start, graph, freed, name);
      KnotSurvives(gs, start, graph, freed, name);
      LeafPopped(graph, freed, queue, longer);
      graph := freed - {name};
      queue := longer[1..];
    }
    forall v | v in graph.Keys ensures HasMember(gs, graph.Keys, v) {
      assert v !in queue && Trimmed(start, graph, v);
      WithinPositive(MembersOf(graph[v]), graph.Keys);
      var m :| m in MembersOf(graph[v]) && m in graph.Keys;
      assert Edge(gs, v, m);
    }
  }

  lemma LeafPopped(graph: Graph, freed: Graph, queue: seq<Name>, longer: seq<Name>)
    requires LeavesQueued(graph, queue) && queue != [] && LeavesQueued(freed, longer) && queue <= longer
    requires forall v: Name :: Freed(graph, freed, graph[queue[0]].from, v)
    ensures LeavesQueued(freed - {queue[0]}, longer[1..])
    ensures (freed - {queue[0]}).Keys == graph.Keys - {queue[0]}
  {
    forall v: Name ensures v in longer[1..] <==> v in freed && v != queue[0] && freed[v].outdegree == 0 {
      assert v in longer <==> v == longer[0] || v in longer[1..];
    }
    forall v: Name ensures v in freed <==> v in graph { assert Freed(graph, freed, graph[queue[0]].from, v); }
  }

  lemma RestFromInput(gs: seq<Group>, left: Graph, rest: seq<Group>, done: seq<Group>)
    requires Progress(gs, left, rest, done)
    ensures forall g | g in rest :: g in gs
  {
    forall g | g in rest ensures g in gs {
      assert g in multiset(rest) + multiset(done);
      assert g in multiset(gs);
    }
  }

  lemma LeftoverParents(gs: seq<Group>, left: Graph, rest: seq<Group>)
    requires Represents(left, rest) && (forall g | g in rest :: g in gs)
    requires forall v | v in left :: left[v].indegree > 0
    ensures ParentClosed(gs, left.Keys)
  {
    forall v | v in left.Keys ensures HasParent(gs, left.Keys, v) {
      assert CountsFor(left, rest, v);
      MemberOf(rest, v);
      var g :| g in rest && v in g.proxies;
      assert g.name in left.Keys && Edge(gs, g.name, v);
    }
  }

  lemma LeftoverKnotted(gs: seq<Group>, left: Graph, rest: seq<Group>, done: seq<Group>, graph: Graph)
    requires Represents(left, rest) && Progress(gs, left, rest, done) && left != map[]
    requires forall v | v in left :: left[v].indegree > 0
    requires forall v: Name :: EdgesOf(left, graph, left.Keys, v)
    ensures Knotted(gs, graph)
  {
    forall v: Name ensures v in graph <==> v in left { assert EdgesOf(left, graph, left.Keys, v); }
    assert graph.Keys == left.Keys;
    forall v | v in graph ensures graph[v].decl == left[v].decl { assert EdgesOf(left, graph, left.Keys, v); }
    RestFromInput(gs, left, rest, done);
    LeftoverParents(gs, left, rest);
  }

  lemma LeftoverMembers(left: Graph, rest: seq<Group>)
    requires Represents(left, rest)
    ensures MembersPresent(left)
    ensures forall v | v in left :: left[v].outdegree == 0 && left[v].from == []
  {
    forall u, m | u in left && m in MembersOf(left[u]) ensures m in left {
      assert CountsFor(left, rest, m);
      MemberOf(rest, m);
    }
    forall v | v in left ensures left[v].outdegree == 0 && left[v].from == [] {
      assert CountsFor(left, rest, v);
    }
  }

  lemma RebuiltTrimmed(left: Graph, graph: Graph)
    requires MembersPresent(left) && forall v: Name :: EdgesOf(left, graph, left.Keys, v)
    ensures forall v: Name :: Trimmed(graph, graph, v)
  {
    forall v: Name ensures v in graph <==> v in left { assert EdgesOf(left, graph, left.Keys, v); }
    assert graph.Keys == left.Keys;
    forall v | v in graph ensures MembersOf(graph[v]) == MembersOf(left[v]) { assert EdgesOf(left, graph, left.Keys, v); }
    forall v: Name ensures Trimmed(graph, graph, v) {
      assert EdgesOf(left, graph, left.Keys, v);
      if v in graph {
        WithinAll(MembersOf(graph[v]), graph.Keys);
        forall u | u in graph[v].from ensures u in graph { assert u in multiset(graph[v].from); }
      }
    }
  }

  /**
   What the caller is told when there is a loop: exactly the nodes that a loop leads to
   and that lead to a loop, each once; so every group on a loop, and only nodes with a
   reported parent and a reported member.
   */
  ghost predicate LocatesLoops(gs: seq<Group>, names: seq<Name>) {
    && names != []
    && Distinct(names)
    && (forall v :: v in names <==> Between(gs, v))
    && Closed(gs, set v | v in names)
  }

  ghost predicate Closed(gs: seq<Group>, s: set<Name>) {
    ParentClosed(gs, s) && MemberClosed(gs, s)
  }

  lemma LoopsAreReported(gs: seq<Group>, names: seq<Name>, v: Name)
    requires LocatesLoops(gs, names) && OnCycle(gs, v)
    ensures v in names
  {
    CycleIsBetween(gs, v);
  }

  method ReportLoop(graph: Graph, ghost gs: seq<Group>) returns (names: seq<Name>)
    requires Knotted(gs, graph) && MemberClosed(gs, graph.Keys)
    ensures LocatesLoops(gs, names)
  {
    names := [];
    var left := graph.Keys;
    while left != {}
      invariant left <= graph.Keys && Distinct(names)
      invariant forall v: Name :: v in names <==> v in graph && v !in left
      decreases left
    {
      var name :| name in left;
      names := names + [name];
      left := left - {name};
    }
    Reported(gs, graph, names);
  }

  lemma Reported(gs: seq<Group>, graph: Graph, names: seq<Name>)
    requires Knotted(gs, graph) && MemberClosed(gs, graph.Keys) && Distinct(names)
    requires forall v: Name :: v in names <==> v in graph
    ensures LocatesLoops(gs, names)
  {
    assert (set v | v in names) == graph.Keys;
    forall v ensures v in names <==> Between(gs, v) {
      if v in graph {
        ClosedIsBetween(gs, graph.Keys, v);
      }
    }
    var v :| v in graph.Keys;
    assert v in names;
  }

  /**
   Whatever order the map is walked in: groups are sorted exactly when their names
   differ and no group contains itself through others, and then every group comes
   after its members; otherwise the report covers every loop and nothing that a
   loop does not lead to and from.
   */
  method DagSort(a: array<Group>) returns (r: Outcome)
    modifies a
    ensures r.DuplicateName? <==> !DistinctNames(old(a[..]))
    ensures r.Sorted? <==> DistinctNames(old(a[..])) && Acyclic(old(a[..]))
    ensures r.Sorted? ==> multiset(a[..]) == multiset(old(a[..])) && MembersFirst(a[..])
    ensures r.DuplicateName? ==> a[..] == old(a[..])
    ensures r.Loop? ==> LocatesLoops(old(a[..]), r.names)
  {
    ghost var gs := a[..];
    var distinct, start := BuildGraph(a[..]);
    if !distinct {
      return DuplicateName;
    }
    var left, rest, done := PeelParents(a, start);
    if left == map[] {
      AllPlaced(gs, left, rest, done, a[..]);
      return Sorted;
    }
    LeftoverMembers(left, rest);
    var graph := RebuildEdges(left);
    LeftoverKnotted(gs, left, rest, done, graph);
    RebuiltTrimmed(left, graph);
    ParentClosedHasCycle(gs, graph.Keys);
    graph := PeelLeaves(graph, gs);
    var names := ReportLoop(graph, gs);
    r := Loop(names);
  }
}
