/** How a proxy group builds its member list: filter, reorder, exclude. */
module GroupFilter {
  import opened GroupGraph

  datatype Proxy = Proxy(name: Name, kind: nat, id: nat)

  /** A regular expression is any predicate on names. */
  type Pattern = Name -> bool

  datatype Settings = Settings(
    filters: seq<Pattern>,
    excludes: seq<Pattern>,
    excludeKinds: seq<nat -> bool>,
    compatible: seq<bool>,          // per provider: built from the group's own proxy list
    fallback: Proxy)

  /** One provider's contents, read once, or once per filter when the group filters it. */
  type Reading = seq<seq<Proxy>>

  function Reads(s: Settings, i: nat): nat
    requires i < |s.compatible|
  {
    if s.filters == [] || s.compatible[i] then 1 else |s.filters|
  }

  predicate WellRead(s: Settings, rs: seq<Reading>) {
    |rs| == |s.compatible| && forall i | 0 <= i < |rs| :: |rs[i]| == Reads(s, i)
  }

  // ---- the list as a function of what was read ----

  function Select(ps: seq<Proxy>, f: Proxy -> bool): seq<Proxy> {
    if ps == [] then []
    else Select(ps[..|ps| - 1], f) + if f(ps[|ps| - 1]) then [ps[|ps| - 1]] else []
  }

  function ByName(f: Pattern): Proxy -> bool {
    (p: Proxy) => f(p.name)
  }

  function Names(ps: seq<Proxy>): set<Name> {
    if ps == [] then {} else Names(ps[..|ps| - 1]) + {ps[|ps| - 1].name}
  }

  /** The first proxy of every name not seen before. */
  function FirstByName(ps: seq<Proxy>, seen: set<Name>): seq<Proxy> {
    if ps == [] then []
    else
      var n := |ps| - 1;
      FirstByName(ps[..n], seen) + if ps[n].name in seen + Names(ps[..n]) then [] else [ps[n]]
  }

  /** The k-th reading through the k-th filter, one after the other. */
  function Matched(filters: seq<Pattern>, reading: Reading): seq<Proxy>
    requires |filters| == |reading|
  {
    if filters == [] then []
    else
      var n := |filters| - 1;
      Matched(filters[..n], reading[..n]) + Select(reading[n], ByName(filters[n]))
  }

  function Contribution(s: Settings, i: nat, reading: Reading): seq<Proxy>
    requires i < |s.compatible| && |reading| == Reads(s, i)
  {
    if s.filters == [] || s.compatible[i] then reading[0] else FirstByName(Matched(s.filters, reading), {})
  }

  function Gather(s: Settings, rs: seq<Reading>, n: nat): seq<Proxy>
    requires WellRead(s, rs) && n <= |rs|
  {
    if n == 0 then [] else Gather(s, rs, n - 1) + Contribution(s, n - 1, rs[n - 1])
  }

  function Same(ps: seq<Proxy>, n: nat): Reading {
    seq(n, _ => ps)
  }

  /** Matched proxies in filter order, then the others. */
  function Reorder(filters: seq<Pattern>, ps: seq<Proxy>): seq<Proxy> {
    FirstByName(Matched(filters, Same(ps, |filters|)) + ps, {})
  }

  function Kept(s: Settings): Proxy -> bool {
    (p: Proxy) => forall i | 0 <= i < |s.excludes| :: !s.excludes[i](p.name)
  }

  function KindKept(s: Settings): Proxy -> bool {
    (p: Proxy) => forall i | 0 <= i < |s.excludeKinds| :: !s.excludeKinds[i](p.kind)
  }

  function BuildList(s: Settings, rs: seq<Reading>): seq<Proxy>
    requires WellRead(s, rs)
  {
    var gathered := Gather(s, rs, |rs|);
    var ordered := if |rs| > 1 && |s.filters| > 1 then Reorder(s.filters, gathered) else gathered;
    Select(Select(ordered, Kept(s)), KindKept(s))
  }

  // ---- the loops ----

  lemma SelectSnoc(ps: seq<Proxy>, p: Proxy, f: Proxy -> bool)
    ensures Select(ps + [p], f) == Select(ps, f) + if f(p) then [p] else []
  {
  }

  /** The inner loop of a filter: append what matches and has a new name. */
  method AppendNew(f: Pattern, ps: seq<Proxy>, ghost before: seq<Proxy>, start: seq<Proxy>, seen: set<Name>)
    returns (list: seq<Proxy>, names: set<Name>)
    requires start == FirstByName(before, {}) && seen == Names(before)
    ensures list == FirstByName(before + Select(ps, ByName(f)), {})
    ensures names == Names(before + Select(ps, ByName(f)))
  {
    list, names := start, seen;
    ghost var all := before;
    assert before + Select(ps[..0], ByName(f)) == before;
    for i := 0 to |ps|
      invariant all == before + Select(ps[..i], ByName(f))
      invariant list == FirstByName(all, {}) && names == Names(all)
    {
      var p := ps[i];
      SelectNext(before, ps, i, ByName(f));
      FirstSnoc(all, p, {});
      if f(p.name) {
        all := all + [p];
        if p.name !in names {
          names := names + {p.name};
          list := list + [p];
        }
      }
    }
    assert ps[..|ps|] == ps;
  }

  lemma SelectNext(before: seq<Proxy>, ps: seq<Proxy>, i: nat, f: Proxy -> bool)
    requires i < |ps|
    ensures before + Select(ps[..i + 1], f) ==
            if f(ps[i]) then before + Select(ps[..i], f) + [ps[i]] else before + Select(ps[..i], f)
  {
    assert ps[..i + 1] == ps[..i] + [ps[i]];
    SelectSnoc(ps[..i], ps[i], f);
  }

  lemma FirstSnoc(ps: seq<Proxy>, p: Proxy, seen: set<Name>)
    ensures FirstByName(ps + [p], seen) == FirstByName(ps, seen) + if p.name in seen + Names(ps) then [] else [p]
    ensures Names(ps + [p]) == Names(ps) + {p.name}
  {
  }

  method FilterReading(filters: seq<Pattern>, reading: Reading) returns (list: seq<Proxy>, names: set<Name>)
    requires |filters| == |reading|
    ensures list == FirstByName(Matched(filters, reading), {}) && names == Names(Matched(filters, reading))
  {
    list, names := [], {};
    for k := 0 to |filters|
      invariant list == FirstByName(Matched(filters[..k], reading[..k]), {})
      invariant names == Names(Matched(filters[..k], reading[..k]))
    {
      MatchedSnoc(filters, reading, k);
      list, names := AppendNew(filters[k], reading[k], Matched(filters[..k], reading[..k]), list, names);
    }
    assert filters[..|filters|] == filters && reading[..|reading|] == reading;
  }

  lemma MatchedSnoc(filters: seq<Pattern>, reading: Reading, k: nat)
    requires |filters| == |reading| && k < |filters|
    ensures Matched(filters[..k + 1], reading[..k + 1]) ==
            Matched(filters[..k], reading[..k]) + Select(reading[k], ByName(filters[k]))
  {
    assert filters[..k + 1][..k] == filters[..k] && reading[..k + 1][..k] == reading[..k];
  }

  method ReorderList(filters: seq<Pattern>, ps: seq<Proxy>) returns (list: seq<Proxy>)
    ensures list == Reorder(filters, ps)
  {
    var matched, names := FilterReading(filters, Same(ps, |filters|));
    list := AppendRest(ps, Matched(filters, Same(ps, |filters|)), matched, names);
  }

  /** The loop that adds the proxies no filter matched. */
  method AppendRest(ps: seq<Proxy>, ghost before: seq<Proxy>, start: seq<Proxy>, seen: set<Name>) returns (list: seq<Proxy>)
    requires start == FirstByName(before, {}) && seen == Names(before)
    ensures list == FirstByName(before + ps, {})
  {
    list := start;
    var names := seen;
    ghost var all := before;
    assert before + ps[..0] == before;
    for i := 0 to |ps|
      invariant all == before + ps[..i]
      invariant list == FirstByName(all, {}) && names == Names(all)
    {
      var p := ps[i];
      PrefixNext(before, ps, i);
      FirstSnoc(all, p, {});
      all := all + [p];
      if p.name !in names {
        names := names + {p.name};
        list := list + [p];
      }
    }
    assert ps[..|ps|] == ps;
  }

  lemma PrefixNext(before: seq<Proxy>, ps: seq<Proxy>, i: nat)
    requires i < |ps|
    ensures before + ps[..i + 1] == before + ps[..i] + [ps[i]]
  {
  }

  method Exclude(s: Settings, ps: seq<Proxy>) returns (list: seq<Proxy>)
    ensures list == Select(Select(ps, Kept(s)), KindKept(s))
  {
    var kept: seq<Proxy> := [];
    for i := 0 to |ps|
      invariant kept == Select(ps[..i], Kept(s))
    {
      assert ps[..i + 1] == ps[..i] + [ps[i]];
      SelectSnoc(ps[..i], ps[i], Kept(s));
      if Kept(s)(ps[i]) {
        kept := kept + [ps[i]];
      }
    }
    assert ps[..|ps|] == ps;
    list := [];
    for i := 0 to |kept|
      invariant list == Select(kept[..i], KindKept(s))
    {
      assert kept[..i + 1] == kept[..i] + [kept[i]];
      SelectSnoc(kept[..i], kept[i], KindKept(s));
      if KindKept(s)(kept[i]) {
        list := list + [kept[i]];
      }
    }
    assert kept[..|kept|] == kept;
  }

  method Build(s: Settings, rs: seq<Reading>) returns (list: seq<Proxy>)
    requires WellRead(s, rs)
    ensures list == BuildList(s, rs)
  {
    var proxies: seq<Proxy> := [];
    for i := 0 to |rs|
      invariant proxies == Gather(s, rs, i)
    {
      if s.filters == [] || s.compatible[i] {
        proxies := proxies + rs[i][0];
      } else {
        var matched, _ := FilterReading(s.filters, rs[i]);
        proxies := proxies + matched;
      }
    }
    if |rs| > 1 && |s.filters| > 1 {
      proxies := ReorderList(s.filters, proxies);
    }
    list := Exclude(s, proxies);
  }

  // ---- what the order means ----

  /** The first filter that matches n; the number of filters if none does. */
  function Rank(filters: seq<Pattern>, n: Name): nat {
    if filters == [] then 0 else if filters[0](n) then 0 else 1 + Rank(filters[1..], n)
  }

  lemma {:induction false} RankMeans(filters: seq<Pattern>, n: Name)
    ensures Rank(filters, n) <= |filters|
    ensures forall k | 0 <= k < Rank(filters, n) :: !filters[k](n)
    ensures Rank(filters, n) < |filters| ==> filters[Rank(filters, n)](n)
    decreases |filters|
  {
    if filters != [] && !filters[0](n) {
      RankMeans(filters[1..], n);
      forall k | 0 <= k < Rank(filters, n) ensures !filters[k](n) {
        if k > 0 {
          assert filters[k] == filters[1..][k - 1];
        }
      }
    }
  }

  lemma {:induction false} SelectMembers(ps: seq<Proxy>, f: Proxy -> bool)
    ensures forall p :: p in Select(ps, f) <==> p in ps && f(p)
    decreases |ps|
  {
    if ps != [] {
      var n := |ps| - 1;
      SelectMembers(ps[..n], f);
      assert ps == ps[..n] + [ps[n]];
    }
  }

  lemma {:induction false} NamesAppend(a: seq<Proxy>, b: seq<Proxy>)
    ensures Names(a + b) == Names(a) + Names(b)
    decreases |b|
  {
    if b == [] {
      assert a + b == a;
    } else {
      var n := |b| - 1;
      assert (a + b)[..|a| + n] == a + b[..n];
      NamesAppend(a, b[..n]);
    }
  }

  lemma {:induction false} NamesMembers(ps: seq<Proxy>)
    ensures forall p | p in ps :: p.name in Names(ps)
    decreases |ps|
  {
    if ps != [] {
      var n := |ps| - 1;
      NamesMembers(ps[..n]);
      assert ps == ps[..n] + [ps[n]];
    }
  }

  lemma {:induction false} NameSource(ps: seq<Proxy>, name: Name) returns (p: Proxy)
    requires name in Names(ps)
    ensures p in ps && p.name == name
    decreases |ps|
  {
    var n := |ps| - 1;
    p := ps[n];
    if p.name != name {
      p := NameSource(ps[..n], name);
    }
  }

  lemma {:induction false} FirstAppend(a: seq<Proxy>, b: seq<Proxy>, seen: set<Name>)
    ensures FirstByName(a + b, seen) == FirstByName(a, seen) + FirstByName(b, seen + Names(a))
    decreases |b|
  {
    if b == [] {
      assert a + b == a;
    } else {
      var rest, p := b[..|b| - 1], b[|b| - 1];
      FirstAppend(a, rest, seen);
      NamesAppend(a, rest);
      var before, after := seen + Names(a + rest), seen + Names(a);
      assert p.name in before <==> p.name in after + Names(rest);
      FirstSnoc(a + rest, p, seen);
      FirstSnoc(rest, p, after);
      SnocAppend(a, b);
      Associative(FirstByName(a, seen), FirstByName(rest, after), [p]);
    }
  }

  lemma SnocAppend(a: seq<Proxy>, b: seq<Proxy>)
    requires b != []
    ensures a + b == (a + b[..|b| - 1]) + [b[|b| - 1]]
    ensures b == b[..|b| - 1] + [b[|b| - 1]]
  {
  }

  lemma Associative(x: seq<Proxy>, y: seq<Proxy>, z: seq<Proxy>)
    ensures (x + y) + z == x + (y + z)
    ensures y + [] == y && (x + y) + [] == x + y
  {
  }

  lemma {:induction false} FirstMembers(ps: seq<Proxy>, seen: set<Name>)
    ensures forall p | p in FirstByName(ps, seen) :: p in ps && p.name !in seen
    ensures DistinctlyNamed(FirstByName(ps, seen))
    decreases |ps|
  {
    if ps != [] {
      var n, p := |ps| - 1, ps[|ps| - 1];
      var rest, first := ps[..n], FirstByName(ps[..n], seen);
      FirstMembers(rest, seen);
      NamesMembers(rest);
      if p.name !in seen + Names(rest) {
        DistinctSnoc(first, p);
      }
    }
  }

  lemma {:induction false} FirstNames(ps: seq<Proxy>, seen: set<Name>)
    ensures Names(FirstByName(ps, seen)) == Names(ps) - seen
    decreases |ps|
  {
    if ps != [] {
      var n, p := |ps| - 1, ps[|ps| - 1];
      FirstNames(ps[..n], seen);
      var first := FirstByName(ps[..n], seen);
      FirstSnoc(first, p, {});
      assert first + [] == first;
    }
  }

  ghost predicate DistinctlyNamed(ps: seq<Proxy>) {
    forall i, j | 0 <= i < j < |ps| :: ps[i].name != ps[j].name
  }

  lemma DistinctSnoc(ps: seq<Proxy>, p: Proxy)
    requires DistinctlyNamed(ps) && forall q | q in ps :: q.name != p.name
    ensures DistinctlyNamed(ps + [p])
  {
  }

  ghost predicate RankedUpTo(filters: seq<Pattern>, ps: seq<Proxy>, k: nat, seen: set<Name>) {
    forall n :: n in seen <==> n in Names(ps) && Rank(filters, n) < k
  }

  ghost predicate NonDecreasing(filters: seq<Pattern>, ps: seq<Proxy>) {
    forall i, j | 0 <= i < j < |ps| :: Rank(filters, ps[i].name) <= Rank(filters, ps[j].name)
  }

  lemma RankedSelect(filters: seq<Pattern>, ps: seq<Proxy>, k: nat, seen: set<Name>)
    requires k < |filters| && RankedUpTo(filters, ps, k, seen)
    ensures var next := seen + Names(Select(ps, ByName(filters[k])));
            RankedUpTo(filters, ps, k + 1, next)
    ensures forall p | p in FirstByName(Select(ps, ByName(filters[k])), seen) :: Rank(filters, p.name) == k && p in ps
  {
    var chosen := Select(ps, ByName(filters[k]));
    SelectMembers(ps, ByName(filters[k]));
    FirstMembers(chosen, seen);
    forall n ensures n in seen + Names(chosen) <==> n in Names(ps) && Rank(filters, n) < k + 1 {
      RankMeans(filters, n);
      NamesMembers(ps);
      NamesMembers(chosen);
      if n in Names(ps) && Rank(filters, n) == k {
        var p := NameSource(ps, n);
        assert p in chosen;
      }
      if n in Names(chosen) {
        var p := NameSource(chosen, n);
      }
    }
    forall p | p in FirstByName(chosen, seen) ensures Rank(filters, p.name) == k && p in ps {
      NamesMembers(ps);
      NamesMembers(chosen);
      assert p in chosen && p.name in seen + Names(chosen);
    }
  }

  lemma JoinRanked(filters: seq<Pattern>, a: seq<Proxy>, b: seq<Proxy>, k: nat)
    requires NonDecreasing(filters, a) && NonDecreasing(filters, b)
    requires forall p | p in a :: Rank(filters, p.name) <= k
    requires forall p | p in b :: Rank(filters, p.name) >= k
    ensures NonDecreasing(filters, a + b)
  {
  }

  lemma {:induction false} MatchedRanked(filters: seq<Pattern>, ps: seq<Proxy>, k: nat)
    requires k <= |filters|
    ensures var m := Matched(filters[..k], Same(ps, k));
            && NonDecreasing(filters, FirstByName(m, {}))
            && RankedUpTo(filters, ps, k, Names(m))
            && (forall p | p in FirstByName(m, {}) :: Rank(filters, p.name) < k)
    decreases k
  {
    if k > 0 {
      var before := Matched(filters[..k - 1], Same(ps, k - 1));
      var chosen := Select(ps, ByName(filters[k - 1]));
      MatchedRanked(filters, ps, k - 1);
      assert filters[..k][..k - 1] == filters[..k - 1] && Same(ps, k)[..k - 1] == Same(ps, k - 1);
      assert Matched(filters[..k], Same(ps, k)) == before + chosen;
      FirstAppend(before, chosen, {});
      assert {} + Names(before) == Names(before);
      RankedSelect(filters, ps, k - 1, Names(before));
      NamesAppend(before, chosen);
      JoinRanked(filters, FirstByName(before, {}), FirstByName(chosen, Names(before)), k - 1);
    }
  }

  lemma ReorderRanked(filters: seq<Pattern>, ps: seq<Proxy>)
    ensures NonDecreasing(filters, Reorder(filters, ps))
  {
    var n := |filters|;
    var m := Matched(filters, Same(ps, n));
    assert filters[..n] == filters;
    MatchedRanked(filters, ps, n);
    FirstAppend(m, ps, {});
    assert {} + Names(m) == Names(m);
    FirstMembers(ps, Names(m));
    var last := FirstByName(ps, Names(m));
    forall p | p in last ensures Rank(filters, p.name) == n {
      RankMeans(filters, p.name);
      NamesMembers(ps);
    }
    JoinRanked(filters, FirstByName(m, {}), last, n);
  }

  lemma ReorderNames(filters: seq<Pattern>, ps: seq<Proxy>)
    ensures Names(Reorder(filters, ps)) == Names(ps)
    ensures forall p | p in Reorder(filters, ps) :: p in ps
  {
    var n := |filters|;
    var m := Matched(filters, Same(ps, n));
    assert filters[..n] == filters;
    FirstMembers(m + ps, {});
    FirstNames(m + ps, {});
    NamesAppend(m, ps);
    MatchedSubset(filters, ps, n);
    NamesMembers(ps);
    forall x | x in Names(m) ensures x in Names(ps) {
      var p := NameSource(m, x);
    }
  }

  /**
   Reordering keeps one proxy of every name and sorts them by the first filter
   that matches, with the unmatched ones last.
   */
  lemma ReorderSortsByFilter(filters: seq<Pattern>, ps: seq<Proxy>)
    ensures var r := Reorder(filters, ps);
            && NonDecreasing(filters, r)
            && Names(r) == Names(ps)
            && (forall p | p in r :: p in ps)
            && DistinctlyNamed(r)
  {
    ReorderRanked(filters, ps);
    ReorderNames(filters, ps);
    FirstMembers(Matched(filters, Same(ps, |filters|)) + ps, {});
  }

  lemma {:induction false} MatchedSubset(filters: seq<Pattern>, ps: seq<Proxy>, k: nat)
    requires k <= |filters|
    ensures forall p | p in Matched(filters[..k], Same(ps, k)) :: p in ps
    decreases k
  {
    if k > 0 {
      MatchedSubset(filters, ps, k - 1);
      assert filters[..k][..k - 1] == filters[..k - 1] && Same(ps, k)[..k - 1] == Same(ps, k - 1);
      SelectMembers(ps, ByName(filters[k - 1]));
    }
  }

  /** What the filters keep of one provider: one proxy of every name that some filter matches, in filter order. */
  lemma FilterKeepsMatching(filters: seq<Pattern>, ps: seq<Proxy>)
    ensures var r := FirstByName(Matched(filters, Same(ps, |filters|)), {});
            && NonDecreasing(filters, r) && DistinctlyNamed(r) && (forall p | p in r :: p in ps)
            && forall n :: n in Names(r) <==> n in Names(ps) && exists k | 0 <= k < |filters| :: filters[k](n)
  {
    var m := Matched(filters, Same(ps, |filters|));
    assert filters[..|filters|] == filters;
    MatchedRanked(filters, ps, |filters|);
    MatchedSubset(filters, ps, |filters|);
    FirstMembers(m, {});
    FirstNames(m, {});
    forall n ensures Rank(filters, n) < |filters| <==> exists k | 0 <= k < |filters| :: filters[k](n) {
      RankMeans(filters, n);
    }
  }

  lemma {:induction false} SelectKeepsOrder(filters: seq<Pattern>, ps: seq<Proxy>, f: Proxy -> bool)
    requires NonDecreasing(filters, ps) && DistinctlyNamed(ps)
    ensures NonDecreasing(filters, Select(ps, f)) && DistinctlyNamed(Select(ps, f))
    decreases |ps|
  {
    if ps != [] {
      var n := |ps| - 1;
      SelectKeepsOrder(filters, ps[..n], f);
      SelectMembers(ps[..n], f);
      if f(ps[n]) {
        var front := Select(ps[..n], f);
        forall p | p in front ensures p.name != ps[n].name && Rank(filters, p.name) <= Rank(filters, ps[n].name) {
          assert p in ps[..n];
        }
        DistinctSnoc(front, ps[n]);
        SnocRanked(filters, front, ps[n]);
      }
    }
  }

  lemma SnocRanked(filters: seq<Pattern>, ps: seq<Proxy>, p: Proxy)
    requires NonDecreasing(filters, ps) && forall q | q in ps :: Rank(filters, q.name) <= Rank(filters, p.name)
    ensures NonDecreasing(filters, ps + [p])
  {
  }

  /**
   A built list is what the providers gave and no exclusion hits; with several filters and
   providers it has one proxy of every name, in filter order.
   */
  lemma BuiltListIsClean(s: Settings, rs: seq<Reading>)
    requires WellRead(s, rs)
    ensures var gathered := Gather(s, rs, |rs|);
            var ordered := if |rs| > 1 && |s.filters| > 1 then Reorder(s.filters, gathered) else gathered;
            && Names(ordered) == Names(gathered) && (forall p | p in ordered :: p in gathered)
            && forall p :: p in BuildList(s, rs) <==> p in ordered && Kept(s)(p) && KindKept(s)(p)
    ensures |rs| > 1 && |s.filters| > 1 ==> NonDecreasing(s.filters, BuildList(s, rs)) && DistinctlyNamed(BuildList(s, rs))
  {
    var gathered := Gather(s, rs, |rs|);
    ReorderSortsByFilter(s.filters, gathered);
    var ordered := if |rs| > 1 && |s.filters| > 1 then Reorder(s.filters, gathered) else gathered;
    SelectMembers(ordered, Kept(s));
    SelectMembers(Select(ordered, Kept(s)), KindKept(s));
    if |rs| > 1 && |s.filters| > 1 {
      SelectKeepsOrder(s.filters, ordered, Kept(s));
      SelectKeepsOrder(s.filters, Select(ordered, Kept(s)), KindKept(s));
    }
  }
}
