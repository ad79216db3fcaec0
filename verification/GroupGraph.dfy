/** The proxy-group graph as the configuration states it: walks, cycles, members. */
module GroupGraph {
  datatype Name = Name(text: string)

  /** A decoded group: its name, its members in order, and the rest of its configuration. */
  datatype Group = Group(name: Name, proxies: seq<Name>, rest: nat)

  predicate Edge(gs: seq<Group>, u: Name, v: Name) {
    exists g | g in gs :: g.name == u && v in g.proxies
  }

  ghost predicate EdgeAt(gs: seq<Group>, p: seq<Name>, i: nat)
    requires i < |p| - 1
  {
    Edge(gs, p[i], p[i + 1])
  }

  ghost predicate Walk(gs: seq<Group>, p: seq<Name>) {
    forall i: nat | i < |p| - 1 :: EdgeAt(gs, p, i)
  }

  ghost predicate Cycle(gs: seq<Group>, p: seq<Name>) {
    |p| >= 2 && Walk(gs, p) && p[0] == p[|p| - 1]
  }

  ghost predicate OnCycle(gs: seq<Group>, v: Name) {
    exists p :: Cycle(gs, p) && v in p
  }

  ghost predicate Acyclic(gs: seq<Group>) {
    forall v :: !OnCycle(gs, v)
  }

  predicate DistinctNames(gs: seq<Group>) {
    forall i, j | 0 <= i < j < |gs| :: gs[i].name != gs[j].name
  }

  lemma CyclePredecessor(gs: seq<Group>, v: Name) returns (u: Name)
    requires OnCycle(gs, v)
    ensures OnCycle(gs, u) && Edge(gs, u, v)
  {
    var p :| Cycle(gs, p) && v in p;
    var i :| 0 <= i < |p| && p[i] == v;
    var k := if i > 0 then i - 1 else |p| - 2;
    u := p[k];
    assert EdgeAt(gs, p, k) && u in p;
  }

  lemma CycleSuccessor(gs: seq<Group>, v: Name) returns (w: Name)
    requires OnCycle(gs, v)
    ensures OnCycle(gs, w) && Edge(gs, v, w)
  {
    var p :| Cycle(gs, p) && v in p;
    var i :| 0 <= i < |p| && p[i] == v;
    var k := if i < |p| - 1 then i else 0;
    w := p[k + 1];
    assert EdgeAt(gs, p, k) && w in p;
  }

  // ---- a set in which every node has a parent holds a cycle ----

  ghost predicate HasParent(gs: seq<Group>, s: set<Name>, v: Name) {
    exists u | u in s :: Edge(gs, u, v)
  }

  ghost predicate HasMember(gs: seq<Group>, s: set<Name>, v: Name) {
    exists m | m in s :: Edge(gs, v, m)
  }

  ghost predicate MemberClosed(gs: seq<Group>, s: set<Name>) {
    forall v {:trigger HasMember(gs, s, v)} | v in s :: HasMember(gs, s, v)
  }

  ghost predicate ParentClosed(gs: seq<Group>, s: set<Name>) {
    forall v {:trigger HasParent(gs, s, v)} | v in s :: HasParent(gs, s, v)
  }

  lemma {:induction false} WalkBack(gs: seq<Group>, s: set<Name>, v: Name, n: nat) returns (p: seq<Name>)
    requires v in s && ParentClosed(gs, s)
    ensures |p| == n + 1 && Walk(gs, p) && p[n] == v && forall u | u in p :: u in s
  {
    if n == 0 {
      p := [v];
    } else {
      var q := WalkBack(gs, s, v, n - 1);
      assert q[0] in q && HasParent(gs, s, q[0]);
      var u :| u in s && Edge(gs, u, q[0]);
      p := [u] + q;
      forall i: nat | i < |p| - 1 ensures EdgeAt(gs, p, i) {
        if i > 0 {
          assert EdgeAt(gs, q, i - 1);
        }
      }
    }
  }

  lemma {:induction false} WalkOn(gs: seq<Group>, s: set<Name>, v: Name, n: nat) returns (p: seq<Name>)
    requires v in s && MemberClosed(gs, s)
    ensures |p| == n + 1 && Walk(gs, p) && p[0] == v && forall u | u in p :: u in s
  {
    if n == 0 {
      p := [v];
    } else {
      var q := WalkOn(gs, s, v, n - 1);
      assert q[n - 1] in q && HasMember(gs, s, q[n - 1]);
      var u :| u in s && Edge(gs, q[n - 1], u);
      p := q + [u];
      forall i: nat | i < |p| - 1 ensures EdgeAt(gs, p, i) {
        if i < n - 1 {
          assert EdgeAt(gs, q, i);
        }
      }
    }
  }

  lemma {:induction false} Pigeonhole(p: seq<Name>, s: set<Name>) returns (i: nat, j: nat)
    requires (forall v | v in p :: v in s) && |p| > |s|
    ensures i < j < |p| && p[i] == p[j]
    decreases |p|
  {
    var v, rest := p[0], p[1..];
    assert v in p;
    if v in rest {
      var k :| 0 <= k < |rest| && rest[k] == v;
      i, j := 0, k + 1;
    } else {
      forall w | w in rest ensures w in s - {v} {
        assert w in p;
      }
      i, j := Pigeonhole(rest, s - {v});
      i, j := i + 1, j + 1;
    }
  }

  lemma Subwalk(gs: seq<Group>, p: seq<Name>, i: nat, j: nat)
    requires Walk(gs, p) && i <= j < |p|
    ensures Walk(gs, p[i..j + 1])
  {
    var c := p[i..j + 1];
    forall k: nat | k < |c| - 1 ensures EdgeAt(gs, c, k) {
      assert EdgeAt(gs, p, i + k);
    }
  }

  /** A walk longer than the set it stays in runs through a cycle. */
  lemma LongWalkCycles(gs: seq<Group>, p: seq<Name>, s: set<Name>) returns (i: nat)
    requires Walk(gs, p) && (forall v | v in p :: v in s) && |p| > |s|
    ensures i < |p| && OnCycle(gs, p[i])
  {
    var j;
    i, j := Pigeonhole(p, s);
    var c := p[i..j + 1];
    Subwalk(gs, p, i, j);
    assert Cycle(gs, c) && c[0] in c;
  }

  lemma ParentClosedHasCycle(gs: seq<Group>, s: set<Name>)
    requires s != {} && ParentClosed(gs, s)
    ensures !Acyclic(gs)
  {
    var v :| v in s;
    var p := WalkBack(gs, s, v, |s|);
    var i := LongWalkCycles(gs, p, s);
  }

  // ---- between cycles ----

  ghost predicate WalkTo(gs: seq<Group>, p: seq<Name>, u: Name, v: Name) {
    p != [] && Walk(gs, p) && p[0] == u && p[|p| - 1] == v
  }

  /** Some cycle leads to v. */
  ghost predicate AfterCycle(gs: seq<Group>, v: Name) {
    exists p, u :: OnCycle(gs, u) && WalkTo(gs, p, u, v)
  }

  /** v leads to some cycle. */
  ghost predicate BeforeCycle(gs: seq<Group>, v: Name) {
    exists p, w :: OnCycle(gs, w) && WalkTo(gs, p, v, w)
  }

  /** Some cycle leads to v and v leads to some cycle. */
  ghost predicate Between(gs: seq<Group>, v: Name) {
    AfterCycle(gs, v) && BeforeCycle(gs, v)
  }

  lemma CycleIsBetween(gs: seq<Group>, v: Name)
    requires OnCycle(gs, v)
    ensures AfterCycle(gs, v) && Between(gs, v)
  {
    assert WalkTo(gs, [v], v, v);
  }

  lemma AfterCycleParent(gs: seq<Group>, v: Name) returns (u: Name)
    requires AfterCycle(gs, v)
    ensures AfterCycle(gs, u) && Edge(gs, u, v)
  {
    var p, c :| OnCycle(gs, c) && WalkTo(gs, p, c, v);
    if |p| == 1 {
      u := CyclePredecessor(gs, v);
      CycleIsBetween(gs, u);
    } else {
      var n := |p| - 2;
      u := p[n];
      assert EdgeAt(gs, p, n);
      Subwalk(gs, p, 0, n);
      assert WalkTo(gs, p[0..n + 1], c, u);
    }
  }

  /** A node between cycles has a member between cycles. */
  lemma BetweenMember(gs: seq<Group>, v: Name) returns (w: Name)
    requires Between(gs, v)
    ensures Between(gs, w) && Edge(gs, v, w)
  {
    var p, c :| OnCycle(gs, c) && WalkTo(gs, p, v, c);
    if |p| == 1 {
      w := CycleSuccessor(gs, v);
      CycleIsBetween(gs, w);
    } else {
      w := p[1];
      assert EdgeAt(gs, p, 0);
      Subwalk(gs, p, 1, |p| - 1);
      assert WalkTo(gs, p[1..|p| - 1 + 1], w, c);
      var q, u :| OnCycle(gs, u) && WalkTo(gs, q, u, v);
      var r := q + [w];
      forall i: nat | i < |r| - 1 ensures EdgeAt(gs, r, i) {
        if i < |q| - 1 {
          assert EdgeAt(gs, q, i);
        }
      }
      assert WalkTo(gs, r, u, w);
    }
  }

  /** In a finite set where every node has a parent and a member, every node is between cycles. */
  lemma ClosedIsBetween(gs: seq<Group>, s: set<Name>, v: Name)
    requires ParentClosed(gs, s) && MemberClosed(gs, s) && v in s
    ensures Between(gs, v)
  {
    var n := |s|;
    var p := WalkBack(gs, s, v, n);
    var i := LongWalkCycles(gs, p, s);
    Subwalk(gs, p, i, n);
    assert WalkTo(gs, p[i..n + 1], p[i], v);
    var q := WalkOn(gs, s, v, n);
    var j := LongWalkCycles(gs, q, s);
    Subwalk(gs, q, 0, j);
    assert WalkTo(gs, q[0..j + 1], v, q[j]);
  }

  // ---- member occurrences ----

  /** Every member occurrence of the groups, with multiplicity. */
  function Members(gs: seq<Group>): multiset<Name> {
    if gs == [] then multiset{} else Members(gs[..|gs| - 1]) + multiset(gs[|gs| - 1].proxies)
  }

  function Removed(gs: seq<Group>, k: nat): seq<Group>
    requires k < |gs|
  {
    gs[..k] + gs[k + 1..]
  }

  lemma RemovedFacts(gs: seq<Group>, k: nat)
    requires k < |gs| && DistinctNames(gs)
    ensures DistinctNames(Removed(gs, k))
    ensures forall g :: g in Removed(gs, k) <==> g in gs && g.name != gs[k].name
  {
  }

  lemma {:induction false} MembersAppend(a: seq<Group>, b: seq<Group>)
    ensures Members(a + b) == Members(a) + Members(b)
    decreases |b|
  {
    if b == [] {
      assert a + b == a;
    } else {
      var n := |b| - 1;
      MembersAppend(a, b[..n]);
      MembersSnoc(a + b[..n], b[n]);
      SplitLast(a, b);
    }
  }

  lemma MembersSnoc(gs: seq<Group>, g: Group)
    ensures Members(gs + [g]) == Members(gs) + multiset(g.proxies)
  {
  }

  lemma SplitLast(a: seq<Group>, b: seq<Group>)
    requires b != []
    ensures a + b == (a + b[..|b| - 1]) + [b[|b| - 1]]
  {
  }

  lemma MembersOne(g: Group)
    ensures Members([g]) == multiset(g.proxies)
  {
  }

  lemma MembersMiddle(a: seq<Group>, g: Group, b: seq<Group>)
    ensures Members(a + [g] + b) == Members(a + b) + multiset(g.proxies)
  {
    MembersAppend(a + [g], b);
    MembersAppend(a, [g]);
    MembersAppend(a, b);
    MembersOne(g);
  }

  lemma SplitAt(gs: seq<Group>, k: nat)
    requires k < |gs|
    ensures gs == gs[..k] + [gs[k]] + gs[k + 1..]
  {
  }

  lemma MembersRemoved(gs: seq<Group>, k: nat)
    requires k < |gs|
    ensures Members(gs) == Members(Removed(gs, k)) + multiset(gs[k].proxies)
  {
    SplitAt(gs, k);
    MembersMiddle(gs[..k], gs[k], gs[k + 1..]);
  }

  lemma {:induction false} MemberOf(gs: seq<Group>, v: Name)
    ensures Members(gs)[v] > 0 <==> exists g | g in gs :: v in g.proxies
    decreases |gs|
  {
    if gs != [] {
      var n := |gs| - 1;
      MemberOf(gs[..n], v);
      assert gs == gs[..n] + [gs[n]];
      assert v in multiset(gs[n].proxies) <==> v in gs[n].proxies;
    }
  }
}
