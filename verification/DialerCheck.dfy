/** validateDialerProxies: dangling and circular dialer-proxy chains. */
module DialerCheck {
  import opened GroupGraph

  /** A proxy's dialer-proxy setting; the empty string is NoDialer. */
  datatype Dialer = NoDialer | Via(proxy: Name)

  datatype Verdict = Accepted | NotFound(proxy: Name, dialer: Name) | Circular(proxy: Name)

  type Chains = map<Name, Name>

  ghost predicate Dials(proxies: map<Name, Dialer>, p: seq<Name>, i: nat)
    requires i < |p| - 1
  {
    p[i] in proxies && proxies[p[i]] == Via(p[i + 1])
  }

  /** A chain of proxies, each dialing through the next, that comes back to its start. */
  ghost predicate DialCycle(proxies: map<Name, Dialer>, p: seq<Name>) {
    |p| >= 2 && p[0] == p[|p| - 1] && forall i: nat | i < |p| - 1 :: Dials(proxies, p, i)
  }

  ghost predicate Dangling(proxies: map<Name, Dialer>) {
    exists n | n in proxies :: proxies[n].Via? && proxies[n].proxy !in proxies
  }

  /** Dialing from n reaches a proxy without a dialer within k hops. */
  predicate DialEnds(proxies: map<Name, Dialer>, n: Name, k: nat)
    decreases k
  {
    n !in proxies || proxies[n].NoDialer? || (k > 0 && DialEnds(proxies, proxies[n].proxy, k - 1))
  }

  /** The chain from n stops within k hops. */
  predicate Ends(graph: Chains, n: Name, k: nat)
    decreases k
  {
    n !in graph || (k > 0 && Ends(graph, graph[n], k - 1))
  }

  ghost predicate Chained(graph: Chains, p: seq<Name>, i: nat)
    requires i < |p| - 1
  {
    p[i] in graph && graph[p[i]] == p[i + 1]
  }

  ghost predicate Chain(graph: Chains, p: seq<Name>) {
    forall i: nat | i < |p| - 1 :: Chained(graph, p, i)
  }

  ghost predicate Loop(graph: Chains, p: seq<Name>) {
    |p| >= 2 && p[0] == p[|p| - 1] && Chain(graph, p)
  }

  lemma {:induction false} LoopNeverEnds(graph: Chains, p: seq<Name>, i: nat, k: nat)
    requires Loop(graph, p) && i < |p| - 1
    ensures !Ends(graph, p[i], k)
    decreases k
  {
    assert Chained(graph, p, i);
    if k > 0 {
      LoopNeverEnds(graph, p, if i + 1 < |p| - 1 then i + 1 else 0, k - 1);
    }
  }

  /** validateDialerProxiesHasCycle; `visited` is the map the recursion shares. */
  method HasCycle(current: Name, graph: Chains, visited: set<Name>, path: seq<Name>)
    returns (found: bool, seen: set<Name>)
    requires Chain(graph, path + [current])
    requires forall n :: n in visited <==> n in path
    ensures found ==> (exists p :: Loop(graph, p)) && forall k: nat :: !Ends(graph, current, k)
    ensures !found ==> exists k: nat :: Ends(graph, current, k)
    decreases graph.Keys - visited
  {
    seen := visited;
    for i := 0 to |path|
      invariant current !in path[..i]
    {
      if path[i] == current {
        ghost var loop := path[i..] + [current];
        forall k: nat | k < |loop| - 1 ensures Chained(graph, loop, k) {
          assert Chained(graph, path + [current], i + k);
        }
        assert Loop(graph, loop);
        forall k: nat ensures !Ends(graph, current, k) {
          LoopNeverEnds(graph, loop, 0, k);
        }
        return true, seen;
      }
      assert path[..i + 1] == path[..i] + [path[i]];
    }
    assert path[..|path|] == path;
    if current in seen {
      assert false;
      return false, seen;
    }
    seen := seen + {current};
    var longer := path + [current];
    if current in graph {
      var dialer := graph[current];
      forall k: nat | k < |longer + [dialer]| - 1 ensures Chained(graph, longer + [dialer], k) {
        if k < |path| {
          assert Chained(graph, path + [current], k);
        }
      }
      found, seen := HasCycle(dialer, graph, seen, longer);
      if found {
        forall k: nat ensures !Ends(graph, current, k) {
          assert k > 0 ==> !Ends(graph, dialer, k - 1);
        }
        return true, seen;
      }
      ghost var k: nat :| Ends(graph, dialer, k);
      assert Ends(graph, current, k + 1);
    } else {
      assert Ends(graph, current, 0);
    }
    found := false;
  }

  /**
   Accepted exactly when every dialer exists and no chain of dialers is circular; a
   rejected map is told a dialer that is missing, or a proxy whose own chain never ends.
   */
  method ValidateDialerProxies(proxies: map<Name, Dialer>) returns (v: Verdict)
    ensures v.Accepted? <==> !Dangling(proxies) && !exists p :: DialCycle(proxies, p)
    ensures v.NotFound? ==> v.proxy in proxies && proxies[v.proxy] == Via(v.dialer) && v.dialer !in proxies
    ensures v.Circular? ==> !Dangling(proxies) && v.proxy in proxies && forall k: nat :: !DialEnds(proxies, v.proxy, k)
  {
    var graph: Chains := map[];
    var left := proxies.Keys;
    while left != {}
      invariant left <= proxies.Keys && graph.Keys <= proxies.Keys
      invariant forall n | n in proxies && n !in left ::
                  if proxies[n].Via? then n in graph && graph[n] == proxies[n].proxy && graph[n] in proxies else n !in graph
      invariant forall n | n in left :: n !in graph
      decreases left
    {
      var name :| name in left;
      left := left - {name};
      if proxies[name].Via? {
        var dialer := proxies[name].proxy;
        if dialer !in proxies {
          return NotFound(name, dialer);
        }
        graph := graph[name := dialer];
      }
    }
    left := graph.Keys;
    while left != {}
      invariant left <= graph.Keys
      invariant forall n | n in graph && n !in left :: exists k: nat :: Ends(graph, n, k)
      decreases left
    {
      var name :| name in left;
      left := left - {name};
      var circular, _ := HasCycle(name, graph, {}, []);
      if circular {
        ghost var p :| Loop(graph, p);
        SameCycles(proxies, graph, p);
        forall k: nat ensures !DialEnds(proxies, name, k) {
          SameEnds(proxies, graph, name, k);
        }
        return Circular(name);
      }
    }
    forall p ensures !DialCycle(proxies, p) {
      SameCycles(proxies, graph, p);
      if Loop(graph, p) {
        assert Chained(graph, p, 0);
        var k: nat :| Ends(graph, p[0], k);
        LoopNeverEnds(graph, p, 0, k);
      }
    }
    v := Accepted;
  }

  lemma SameCycles(proxies: map<Name, Dialer>, graph: Chains, p: seq<Name>)
    requires forall n :: n in graph <==> n in proxies && proxies[n].Via?
    requires forall n | n in graph :: proxies[n] == Via(graph[n])
    ensures DialCycle(proxies, p) <==> Loop(graph, p)
  {
    forall i: nat | i < |p| - 1 ensures Dials(proxies, p, i) <==> Chained(graph, p, i) {
    }
  }

  lemma {:induction false} SameEnds(proxies: map<Name, Dialer>, graph: Chains, n: Name, k: nat)
    requires forall n :: n in graph <==> n in proxies && proxies[n].Via?
    requires forall n | n in graph :: proxies[n] == Via(graph[n])
    ensures DialEnds(proxies, n, k) <==> Ends(graph, n, k)
    decreases k
  {
    if n in graph && k > 0 {
      SameEnds(proxies, graph, graph[n], k - 1);
    }
  }
}
