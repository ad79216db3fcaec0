/**
 What a group's list holds and in which order, said of the providers' contents alone:
 every entry of the list is traced to the place it was read from.
 */
module GroupListing {
  import opened GroupGraph
  import opened GroupFilter

  /** Proxy t of the k-th reading of provider i. */
  datatype Place = Place(i: nat, k: nat, t: nat)

  predicate InRange(rs: seq<Reading>, p: Place) {
    p.i < |rs| && p.k < |rs[p.i]| && p.t < |rs[p.i][p.k]|
  }

  function At(rs: seq<Reading>, p: Place): Proxy
    requires InRange(rs, p)
  {
    rs[p.i][p.k][p.t]
  }

  /** Earlier provider first, then earlier filter, then earlier proxy. */
  predicate ReadBefore(p: Place, q: Place) {
    p.i < q.i || (p.i == q.i && (p.k < q.k || (p.k == q.k && p.t < q.t)))
  }

  // ---- the meaning ----

  /** The group takes provider i as it is. */
  predicate Unfiltered(s: Settings, i: nat)
    requires i < |s.compatible|
  {
    s.filters == [] || s.compatible[i]
  }

  /** The proxy at p is read, and passes the filter it is read for. */
  predicate Offers(s: Settings, rs: seq<Reading>, p: Place)
    requires WellRead(s, rs)
  {
    InRange(rs, p) && (!Unfiltered(s, p.i) ==> s.filters[p.k](At(rs, p).name))
  }

  /** The provider supplies the proxy at p: a filtered one supplies each name once, where it first passes. */
  ghost predicate Supplies(s: Settings, rs: seq<Reading>, p: Place)
    requires WellRead(s, rs)
  {
    Offers(s, rs, p) &&
    (!Unfiltered(s, p.i) ==>
       forall q | Offers(s, rs, q) && q.i == p.i && ReadBefore(q, p) :: At(rs, q).name != At(rs, p).name)
  }

  predicate Reorders(s: Settings, rs: seq<Reading>) {
    |rs| > 1 && |s.filters| > 1
  }

  predicate Excluded(s: Settings, p: Proxy) {
    || (exists e | 0 <= e < |s.excludes| :: s.excludes[e](p.name))
    || (exists e | 0 <= e < |s.excludeKinds| :: s.excludeKinds[e](p.kind))
  }

  /** The list shows the proxy at p; when it is reordered it shows each name once, where it was first supplied. */
  ghost predicate Shown(s: Settings, rs: seq<Reading>, p: Place)
    requires WellRead(s, rs)
  {
    && Supplies(s, rs, p) && !Excluded(s, At(rs, p))
    && (Reorders(s, rs) ==> forall q | Supplies(s, rs, q) && ReadBefore(q, p) :: At(rs, q).name != At(rs, p).name)
  }

  /** Places by the first of fs that matches their proxy, then in reading order. */
  predicate Ahead(rs: seq<Reading>, fs: seq<Pattern>, p: Place, q: Place)
    requires InRange(rs, p) && InRange(rs, q)
  {
    var m, n := Rank(fs, At(rs, p).name), Rank(fs, At(rs, q).name);
    m < n || (m == n && ReadBefore(p, q))
  }

  /** list is what is at the places at, which are in order. */
  ghost predicate Listed(rs: seq<Reading>, fs: seq<Pattern>, list: seq<Proxy>, at: seq<Place>) {
    && |at| == |list|
    && (forall a | 0 <= a < |at| :: InRange(rs, at[a]) && At(rs, at[a]) == list[a])
    && (forall a, b | 0 <= a < b < |at| :: Ahead(rs, fs, at[a], at[b]))
  }

  // ---- what the list operations do to the places ----

  lemma ListedSnoc(rs: seq<Reading>, fs: seq<Pattern>, list: seq<Proxy>, at: seq<Place>, p: Place)
    requires Listed(rs, fs, list, at) && InRange(rs, p) && forall q | q in at :: InRange(rs, q) && Ahead(rs, fs, q, p)
    ensures Listed(rs, fs, list + [At(rs, p)], at + [p])
  {
  }

  lemma ListedFront(rs: seq<Reading>, fs: seq<Pattern>, list: seq<Proxy>, at: seq<Place>)
    requires Listed(rs, fs, list, at) && list != []
    ensures var n := |list| - 1;
            && Listed(rs, fs, list[..n], at[..n]) && InRange(rs, at[n])
            && (forall q | q in at[..n] :: InRange(rs, q) && Ahead(rs, fs, q, at[n]))
            && (forall q :: q in at <==> q in at[..n] || q == at[n])
  {
    var n := |list| - 1;
    assert at == at[..n] + [at[n]];
  }

  lemma {:induction false} SelectListed(rs: seq<Reading>, fs: seq<Pattern>, list: seq<Proxy>, at: seq<Place>, f: Proxy -> bool)
    returns (kept: seq<Place>)
    requires Listed(rs, fs, list, at)
    ensures Listed(rs, fs, Select(list, f), kept)
    ensures forall p :: p in kept <==> p in at && f(At(rs, p))
    decreases |list|
  {
    kept := [];
    if list != [] {
      var n := |list| - 1;
      ListedFront(rs, fs, list, at);
      kept := SelectListed(rs, fs, list[..n], at[..n], f);
      if f(list[n]) {
        ListedSnoc(rs, fs, Select(list[..n], f), kept, at[n]);
        kept := kept + [at[n]];
      }
    }
  }

  lemma {:induction false} NamesListed(rs: seq<Reading>, fs: seq<Pattern>, list: seq<Proxy>, at: seq<Place>)
    requires Listed(rs, fs, list, at)
    ensures forall n :: n in Names(list) <==> exists p | p in at :: At(rs, p).name == n
    decreases |list|
  {
    if list != [] {
      ListedFront(rs, fs, list, at);
      NamesListed(rs, fs, list[..|list| - 1], at[..|list| - 1]);
    }
  }

  /** The first place of its name in at. */
  ghost predicate FirstAmong(rs: seq<Reading>, fs: seq<Pattern>, at: seq<Place>, p: Place)
    requires (forall q | q in at :: InRange(rs, q)) && InRange(rs, p)
  {
    forall q | q in at && Ahead(rs, fs, q, p) :: At(rs, q).name != At(rs, p).name
  }

  lemma {:induction false} FirstListed(rs: seq<Reading>, fs: seq<Pattern>, list: seq<Proxy>, at: seq<Place>, seen: set<Name>)
    returns (kept: seq<Place>)
    requires Listed(rs, fs, list, at)
    ensures Listed(rs, fs, FirstByName(list, seen), kept)
    ensures forall p :: p in kept <==> p in at && At(rs, p).name !in seen && FirstAmong(rs, fs, at, p)
    decreases |list|
  {
    kept := [];
    if list != [] {
      var n := |list| - 1;
      var front, last := at[..n], at[n];
      ListedFront(rs, fs, list, at);
      kept := FirstListed(rs, fs, list[..n], front, seen);
      NamesListed(rs, fs, list[..n], front);
      if At(rs, last).name !in seen + Names(list[..n]) {
        ListedSnoc(rs, fs, FirstByName(list[..n], seen), kept, last);
        kept := kept + [last];
      }
      forall p ensures p in kept <==> p in at && At(rs, p).name !in seen && FirstAmong(rs, fs, at, p) {
        if p in at {
          FirstOfFront(rs, fs, list, at, p);
        }
      }
    }
  }

  /** Being the first of its name is decided by the places before. */
  lemma FirstOfFront(rs: seq<Reading>, fs: seq<Pattern>, list: seq<Proxy>, at: seq<Place>, p: Place)
    requires Listed(rs, fs, list, at) && list != [] && p in at
    ensures var front, last := at[..|list| - 1], at[|list| - 1];
            && (forall q | q in at :: InRange(rs, q)) && (forall q | q in front :: InRange(rs, q))
            && (p != last ==> p in front && (FirstAmong(rs, fs, at, p) <==> FirstAmong(rs, fs, front, p)))
    ensures var front, last := at[..|list| - 1], at[|list| - 1];
            p == last ==> p !in front && (FirstAmong(rs, fs, at, p) <==> forall q | q in front :: At(rs, q).name != At(rs, p).name)
  {
    ListedFront(rs, fs, list, at);
  }

  lemma ListedAppend(rs: seq<Reading>, fs: seq<Pattern>, a: seq<Proxy>, b: seq<Proxy>, at: seq<Place>, bt: seq<Place>)
    requires Listed(rs, fs, a, at) && Listed(rs, fs, b, bt)
    requires forall p, q | p in at && q in bt :: InRange(rs, p) && InRange(rs, q) && Ahead(rs, fs, p, q)
    ensures Listed(rs, fs, a + b, at + bt)
  {
  }

  /** Places of one rank are in the same order by rank as by reading. */
  lemma ListedByRank(rs: seq<Reading>, fs: seq<Pattern>, list: seq<Proxy>, at: seq<Place>, k: nat)
    requires Listed(rs, [], list, at) && forall p | p in at :: InRange(rs, p) && Rank(fs, At(rs, p).name) == k
    ensures Listed(rs, fs, list, at)
  {
  }

  // ---- one provider ----

  lemma ReadingListed(rs: seq<Reading>, i: nat, k: nat) returns (at: seq<Place>)
    requires i < |rs| && k < |rs[i]|
    ensures Listed(rs, [], rs[i][k], at)
    ensures forall p :: p in at <==> p.i == i && p.k == k && InRange(rs, p)
  {
    at := seq(|rs[i][k]|, t requires 0 <= t => Place(i, k, t));
    forall p: Place | p.i == i && p.k == k && InRange(rs, p) ensures p in at {
      assert at[p.t] == p;
    }
  }

  lemma {:induction false} MatchedListed(s: Settings, rs: seq<Reading>, i: nat, n: nat) returns (at: seq<Place>)
    requires WellRead(s, rs) && i < |rs| && !Unfiltered(s, i) && n <= |s.filters|
    ensures Listed(rs, [], Matched(s.filters[..n], rs[i][..n]), at)
    ensures forall p :: p in at <==> p.i == i && p.k < n && Offers(s, rs, p)
    decreases n
  {
    at := [];
    if n > 0 {
      var k := n - 1;
      var f := ByName(s.filters[k]);
      at := MatchedListed(s, rs, i, k);
      MatchedSnoc(s.filters, rs[i], k);
      var all := ReadingListed(rs, i, k);
      var more := SelectListed(rs, [], rs[i][k], all, f);
      ListedAppend(rs, [], Matched(s.filters[..k], rs[i][..k]), Select(rs[i][k], f), at, more);
      at := at + more;
    }
  }

  lemma ContributionListed(s: Settings, rs: seq<Reading>, i: nat) returns (at: seq<Place>)
    requires WellRead(s, rs) && i < |rs|
    ensures Listed(rs, [], Contribution(s, i, rs[i]), at)
    ensures forall p :: p in at <==> p.i == i && Supplies(s, rs, p)
  {
    if Unfiltered(s, i) {
      at := ReadingListed(rs, i, 0);
    } else {
      var n := |s.filters|;
      var all := MatchedListed(s, rs, i, n);
      assert s.filters[..n] == s.filters && rs[i][..n] == rs[i];
      at := FirstListed(rs, [], Matched(s.filters, rs[i]), all, {});
      forall p ensures p in at <==> p.i == i && Supplies(s, rs, p) {
        if p in all {
          FirstIsSupplied(s, rs, i, all, p);
        }
      }
    }
  }

  lemma FirstIsSupplied(s: Settings, rs: seq<Reading>, i: nat, all: seq<Place>, p: Place)
    requires WellRead(s, rs) && i < |rs| && !Unfiltered(s, i)
    requires (forall q | q in all :: InRange(rs, q)) && p in all
    requires forall q :: q in all <==> q.i == i && q.k < |s.filters| && Offers(s, rs, q)
    ensures FirstAmong(rs, [], all, p) <==> Supplies(s, rs, p)
  {
    assert Offers(s, rs, p);
    forall q | Offers(s, rs, q) && q.i == i ensures q in all && (Ahead(rs, [], q, p) <==> ReadBefore(q, p)) {
    }
  }

  // ---- all providers ----

  lemma LaterProvider(rs: seq<Reading>, a: seq<Proxy>, b: seq<Proxy>, at: seq<Place>, bt: seq<Place>, i: nat)
    requires Listed(rs, [], a, at) && Listed(rs, [], b, bt) && (forall p | p in at :: p.i < i) && (forall q | q in bt :: q.i == i)
    ensures Listed(rs, [], a + b, at + bt)
  {
    forall p, q | p in at && q in bt ensures InRange(rs, p) && InRange(rs, q) && Ahead(rs, [], p, q) {
    }
    ListedAppend(rs, [], a, b, at, bt);
  }

  /** at are the places of c in provider i, in order, and list is what is there. */
  ghost predicate ListsProvider(rs: seq<Reading>, c: iset<Place>, i: nat, list: seq<Proxy>, at: seq<Place>) {
    Listed(rs, [], list, at) && forall p :: p in at <==> p in c && p.i == i
  }

  ghost predicate Contributed(s: Settings, rs: seq<Reading>, c: iset<Place>, i: nat)
    requires WellRead(s, rs) && i < |rs|
  {
    exists at :: ListsProvider(rs, c, i, Contribution(s, i, rs[i]), at)
  }

  lemma {:induction false} GatherListed(s: Settings, rs: seq<Reading>, c: iset<Place>, n: nat) returns (at: seq<Place>)
    requires WellRead(s, rs) && n <= |rs| && forall i: nat | i < |rs| :: Contributed(s, rs, c, i)
    ensures Listed(rs, [], Gather(s, rs, n), at)
    ensures forall p :: p in at <==> p in c && p.i < n
    decreases n
  {
    at := [];
    if n > 0 {
      var i := n - 1;
      at := GatherListed(s, rs, c, i);
      assert Contributed(s, rs, c, i);
      var more :| ListsProvider(rs, c, i, Contribution(s, i, rs[i]), more);
      LaterProvider(rs, Gather(s, rs, i), Contribution(s, i, rs[i]), at, more, i);
      at := at + more;
    }
  }

  ghost function SuppliedPlaces(s: Settings, rs: seq<Reading>): iset<Place>
    requires WellRead(s, rs)
  {
    iset p | Supplies(s, rs, p)
  }

  lemma SuppliedContributed(s: Settings, rs: seq<Reading>, i: nat)
    requires WellRead(s, rs) && i < |rs|
    ensures Contributed(s, rs, SuppliedPlaces(s, rs), i)
  {
    var at := ContributionListed(s, rs, i);
    assert ListsProvider(rs, SuppliedPlaces(s, rs), i, Contribution(s, i, rs[i]), at);
  }

  /** What filter k adds to the reordered list: the first place of every name of rank k. */
  lemma RankListed(rs: seq<Reading>, fs: seq<Pattern>, list: seq<Proxy>, at: seq<Place>, k: nat, seen: set<Name>)
    returns (more: seq<Place>)
    requires Listed(rs, [], list, at) && k <= |fs| && RankedUpTo(fs, list, k, seen)
    ensures var f := if k < |fs| then ByName(fs[k]) else (p: Proxy) => true;
            Listed(rs, fs, FirstByName(Select(list, f), seen), more)
    ensures forall p :: p in more <==> p in at && FirstAmong(rs, [], at, p) && Rank(fs, At(rs, p).name) == k
  {
    var f := if k < |fs| then ByName(fs[k]) else (p: Proxy) => true;
    var chosen := SelectListed(rs, [], list, at, f);
    more := FirstListed(rs, [], Select(list, f), chosen, seen);
    NamesListed(rs, [], list, at);
    forall p ensures p in more <==> p in at && FirstAmong(rs, [], at, p) && Rank(fs, At(rs, p).name) == k {
      if p in at {
        RankMeans(fs, At(rs, p).name);
        assert At(rs, p).name in Names(list);
        assert At(rs, p).name in seen <==> Rank(fs, At(rs, p).name) < k;
        if f(At(rs, p)) {
          assert FirstAmong(rs, [], chosen, p) <==> FirstAmong(rs, [], at, p);
        }
      }
    }
    ListedByRank(rs, fs, FirstByName(Select(list, f), seen), more, k);
  }

  lemma {:induction false} ReorderedListed(rs: seq<Reading>, fs: seq<Pattern>, list: seq<Proxy>, at: seq<Place>, k: nat)
    returns (done: seq<Place>)
    requires Listed(rs, [], list, at) && k <= |fs|
    ensures Listed(rs, fs, FirstByName(Matched(fs[..k], Same(list, k)), {}), done)
    ensures forall p :: p in done <==> p in at && FirstAmong(rs, [], at, p) && Rank(fs, At(rs, p).name) < k
    decreases k
  {
    done := [];
    if k > 0 {
      var j := k - 1;
      var before, f := Matched(fs[..j], Same(list, j)), ByName(fs[j]);
      done := ReorderedListed(rs, fs, list, at, j);
      MatchedRanked(fs, list, j);
      var more := RankListed(rs, fs, list, at, j, Names(before));
      MatchedSame(fs, list, j);
      FirstAppend(before, Select(list, f), {});
      assert {} + Names(before) == Names(before);
      ListedAppend(rs, fs, FirstByName(before, {}), FirstByName(Select(list, f), Names(before)), done, more);
      done := done + more;
    }
  }

  lemma MatchedSame(fs: seq<Pattern>, list: seq<Proxy>, j: nat)
    requires j < |fs|
    ensures Matched(fs[..j + 1], Same(list, j + 1)) == Matched(fs[..j], Same(list, j)) + Select(list, ByName(fs[j]))
  {
    var fs1, same := fs[..j + 1], Same(list, j + 1);
    MatchedSnoc(fs1, same, j);
    assert fs1[..j + 1] == fs1 && same[..j + 1] == same && fs1[..j] == fs[..j] && same[..j] == Same(list, j);
  }

  lemma {:induction false} SelectAll(list: seq<Proxy>, f: Proxy -> bool)
    requires forall p :: f(p)
    ensures Select(list, f) == list
    decreases |list|
  {
    if list != [] {
      SelectAll(list[..|list| - 1], f);
    }
  }

  lemma ReorderListed(rs: seq<Reading>, fs: seq<Pattern>, list: seq<Proxy>, at: seq<Place>) returns (done: seq<Place>)
    requires Listed(rs, [], list, at)
    ensures Listed(rs, fs, Reorder(fs, list), done)
    ensures forall p :: p in done <==> p in at && FirstAmong(rs, [], at, p)
  {
    var n := |fs|;
    var before := Matched(fs, Same(list, n));
    assert fs[..n] == fs;
    done := ReorderedListed(rs, fs, list, at, n);
    MatchedRanked(fs, list, n);
    var more := RankListed(rs, fs, list, at, n, Names(before));
    SelectAll(list, (p: Proxy) => true);
    FirstAppend(before, list, {});
    assert {} + Names(before) == Names(before);
    ListedAppend(rs, fs, FirstByName(before, {}), FirstByName(list, Names(before)), done, more);
    done := done + more;
    forall p | p in at ensures Rank(fs, At(rs, p).name) <= n {
      RankMeans(fs, At(rs, p).name);
    }
  }

  // ---- the list ----

  lemma FirstSuppliedAmong(s: Settings, rs: seq<Reading>, at: seq<Place>, p: Place)
    requires WellRead(s, rs) && (forall q | q in at :: InRange(rs, q)) && p in at
    requires forall q :: q in at <==> q in SuppliedPlaces(s, rs) && q.i < |rs|
    ensures Shown(s, rs, p) <==> !Excluded(s, At(rs, p)) && (Reorders(s, rs) ==> FirstAmong(rs, [], at, p))
  {
    forall q | Supplies(s, rs, q) ensures q in at && (Ahead(rs, [], q, p) <==> ReadBefore(q, p)) {
    }
  }

  lemma KeptMeans(s: Settings, p: Proxy)
    ensures Kept(s)(p) && KindKept(s)(p) <==> !Excluded(s, p)
  {
  }

  lemma SupplierExists(s: Settings, rs: seq<Reading>, p: Place)
    requires WellRead(s, rs) && Shown(s, rs, p)
    ensures p in SuppliedPlaces(s, rs) && p.i < |rs|
  {
  }

  lemma OrderedListed(s: Settings, rs: seq<Reading>) returns (all: seq<Place>, places: seq<Place>, ordered: seq<Proxy>)
    requires WellRead(s, rs)
    ensures ordered == if Reorders(s, rs) then Reorder(s.filters, Gather(s, rs, |rs|)) else Gather(s, rs, |rs|)
    ensures Listed(rs, if Reorders(s, rs) then s.filters else [], ordered, places)
    ensures forall q | q in all :: InRange(rs, q)
    ensures forall q :: q in all <==> q in SuppliedPlaces(s, rs) && q.i < |rs|
    ensures forall q :: q in places <==> q in all && (Reorders(s, rs) ==> FirstAmong(rs, [], all, q))
  {
    forall i: nat | i < |rs| ensures Contributed(s, rs, SuppliedPlaces(s, rs), i) {
      SuppliedContributed(s, rs, i);
    }
    var gathered := Gather(s, rs, |rs|);
    all := GatherListed(s, rs, SuppliedPlaces(s, rs), |rs|);
    ordered, places := gathered, all;
    if Reorders(s, rs) {
      ordered := Reorder(s.filters, gathered);
      places := ReorderListed(rs, s.filters, gathered, all);
    }
  }

  /**
   The list shows exactly the proxies at the places that Shown says, each from its own
   place, in reading order; or, when it is reordered, by first matching filter and then in
   reading order.  Nothing but the settings and the providers' contents decides it.
   */
  lemma BuiltExactly(s: Settings, rs: seq<Reading>) returns (at: seq<Place>)
    requires WellRead(s, rs)
    ensures Listed(rs, if Reorders(s, rs) then s.filters else [], BuildList(s, rs), at)
    ensures forall p :: p in at <==> Shown(s, rs, p)
  {
    var fs := if Reorders(s, rs) then s.filters else [];
    var all, places, ordered := OrderedListed(s, rs);
    var kept := SelectListed(rs, fs, ordered, places, Kept(s));
    at := SelectListed(rs, fs, Select(ordered, Kept(s)), kept, KindKept(s));
    forall p ensures p in at <==> Shown(s, rs, p) {
      if p in all {
        KeptMeans(s, At(rs, p));
        FirstSuppliedAmong(s, rs, all, p);
      } else if Shown(s, rs, p) {
        SupplierExists(s, rs, p);
      }
    }
  }
}
