/** `del(p1, ..., pn)`: which nodes go, and what happens to all the others. */
module OverrideDelete {
  import opened OverrideDoc

  // ---- meaning ----

  /** Pattern segment s selects child c of d; indices are those of d itself. */
  predicate Hits(d: Doc, s: Segment, c: Segment) {
    match d
    case Obj(m) => c.Field? && c.key in m && (s == c || s.Wildcard?)
    case Arr(a) => c.Index? && 0 <= c.index < |a| && (s.Wildcard? || (s.Index? && Resolved(s.index, |a|) == c.index))
    case _ => false
  }

  /** The node of d at concrete path c matches pattern p. */
  predicate Matches(d: Doc, p: Path, c: Path)
    decreases |c|
  {
    if c == [] then p == []
    else p != [] && Hits(d, p[0], c[0]) && Matches(Child(d, c[0]), p[1..], c[1..])
  }

  ghost predicate Doomed(d: Doc, pats: seq<Path>, c: Path) {
    exists p | p in pats :: Matches(d, p, c)
  }

  /** d without the nodes whose path is in gone; what stays keeps its value and its order. */
  ghost function Erase(d: Doc, gone: Path -> bool): Doc
    decreases d, 0
  {
    match d
    case Obj(m) => Obj(map k | k in m && !gone([Field(k)]) :: Erase(m[k], c => gone([Field(k)] + c)))
    case Arr(a) => Arr(EraseItems(d, gone, |a|))
    case _ => d
  }

  /** The survivors among the first n items. */
  ghost function EraseItems(d: Doc, gone: Path -> bool, n: nat): seq<Doc>
    requires d.Arr? && n <= |d.items|
    decreases d, 0, n
  {
    if n == 0 then []
    else
      var before := EraseItems(d, gone, n - 1);
      if gone([Index(n - 1)]) then before
      else before + [Erase(d.items[n - 1], c => gone([Index(n - 1)] + c))]
  }

  /** Only the set of doomed paths matters. */
  lemma {:induction false} EraseExtensional(d: Doc, f: Path -> bool, g: Path -> bool)
    requires forall c :: f(c) == g(c)
    ensures Erase(d, f) == Erase(d, g)
    decreases d, 1
  {
    match d
    case Obj(m) =>
      forall k | k in m ensures Erase(m[k], c => f([Field(k)] + c)) == Erase(m[k], c => g([Field(k)] + c)) {
        EraseExtensional(m[k], c => f([Field(k)] + c), c => g([Field(k)] + c));
      }
    case Arr(a) => EraseItemsExtensional(d, f, g, |a|);
    case _ =>
  }

  lemma {:induction false} EraseItemsExtensional(d: Doc, f: Path -> bool, g: Path -> bool, n: nat)
    requires d.Arr? && n <= |d.items| && forall c :: f(c) == g(c)
    ensures EraseItems(d, f, n) == EraseItems(d, g, n)
    decreases d, 0, n
  {
    if n > 0 {
      EraseExtensional(d.items[n - 1], c => f([Index(n - 1)] + c), c => g([Index(n - 1)] + c));
      EraseItemsExtensional(d, f, g, n - 1);
    }
  }

  lemma {:induction false} EraseNothing(d: Doc, f: Path -> bool)
    requires forall c | c != [] :: !f(c)
    ensures Erase(d, f) == d
    decreases d, 1
  {
    match d
    case Obj(m) =>
      forall k | k in m ensures Erase(m[k], c => f([Field(k)] + c)) == m[k] {
        EraseNothing(m[k], c => f([Field(k)] + c));
      }
      assert Erase(d, f).fields == m;
    case Arr(a) => EraseNoItems(d, f, |a|);
    case _ =>
  }

  lemma {:induction false} EraseNoItems(d: Doc, f: Path -> bool, n: nat)
    requires d.Arr? && n <= |d.items| && forall c | c != [] :: !f(c)
    ensures EraseItems(d, f, n) == d.items[..n]
    decreases d, 0, n
  {
    if n > 0 {
      EraseNothing(d.items[n - 1], c => f([Index(n - 1)] + c));
      EraseNoItems(d, f, n - 1);
    }
  }

  // ---- the program ----

  ghost function DoomedIn(d: Doc, pats: seq<Path>): Path -> bool {
    c => Doomed(d, pats, c)
  }

  /** The patterns left for child c once their first segment has selected it. */
  ghost predicate TailsOf(d: Doc, pats: seq<Path>, c: Segment, tails: seq<Path>) {
    forall t :: t in tails <==> exists p | p in pats :: p != [] && Hits(d, p[0], c) && |p| > 1 && t == p[1..]
  }

  /** A child is removed when a pattern ends there; otherwise its own patterns decide. */
  lemma DoomedChild(d: Doc, pats: seq<Path>, c: Segment, tails: seq<Path>)
    requires TailsOf(d, pats, c, tails)
    ensures Doomed(d, pats, [c]) <==> exists p | p in pats :: |p| == 1 && Hits(d, p[0], c)
    ensures forall rest | rest != [] :: Doomed(d, pats, [c] + rest) == Doomed(Child(d, c), tails, rest)
  {
    forall p ensures Matches(d, p, [c]) == (|p| == 1 && Hits(d, p[0], c)) {
      if p != [] {
        assert [c][1..] == [];
        assert Matches(Child(d, c), p[1..], []) == (p[1..] == []);
      }
    }
    forall rest | rest != []
      ensures Doomed(d, pats, [c] + rest) == Doomed(Child(d, c), tails, rest)
    {
      assert ([c] + rest)[1..] == rest;
      if Doomed(d, pats, [c] + rest) {
        var p :| p in pats && Matches(d, p, [c] + rest);
        assert Matches(Child(d, c), p[1..], rest) && |p| > 1;
        assert p[1..] in tails;
      }
      if Doomed(Child(d, c), tails, rest) {
        var t :| t in tails && Matches(Child(d, c), t, rest);
        var p :| p in pats && p != [] && Hits(d, p[0], c) && |p| > 1 && t == p[1..];
        assert Matches(d, p, [c] + rest);
      }
    }
  }

  /** A surviving child is pruned by exactly the tails of the patterns. */
  lemma SurvivorPruned(d: Doc, pats: seq<Path>, c: Segment, tails: seq<Path>)
    requires TailsOf(d, pats, c, tails) && !Doomed(d, pats, [c])
    ensures Erase(Child(d, c), rest => Doomed(d, pats, [c] + rest)) == Erase(Child(d, c), DoomedIn(Child(d, c), tails))
    ensures tails == [] ==> Erase(Child(d, c), rest => Doomed(d, pats, [c] + rest)) == Child(d, c)
  {
    DoomedChild(d, pats, c, tails);
    var f := rest => Doomed(d, pats, [c] + rest);
    var g := DoomedIn(Child(d, c), tails);
    forall rest ensures f(rest) == g(rest) {
      if rest == [] {
        assert [c] + rest == [c];
        forall t | t in tails ensures !Matches(Child(d, c), t, []) {
        }
      }
    }
    EraseExtensional(Child(d, c), f, g);
    if tails == [] {
      EraseNothing(Child(d, c), g);
    }
  }

  /** The patterns that go on below child c, unless one of them ends at it. */
  method SplitPatterns(d: Doc, pats: seq<Path>, c: Segment) returns (remove: bool, tails: seq<Path>)
    ensures remove <==> Doomed(d, pats, [c])
    ensures !remove ==> TailsOf(d, pats, c, tails)
  {
    remove, tails := false, [];
    for i := 0 to |pats|
      invariant TailsOf(d, pats[..i], c, tails)
      invariant forall p | p in pats[..i] :: !(|p| == 1 && Hits(d, p[0], c))
    {
      var path := pats[i];
      assert pats[..i + 1] == pats[..i] + [path];
      if path != [] && Hits(d, path[0], c) {
        if |path| == 1 {
          assert Matches(d, path, [c]) by {
            assert [c][1..] == [] && path[1..] == [];
          }
          assert path in pats;
          return true, [];
        }
        tails := tails + [path[1..]];
      }
    }
    assert pats[..|pats|] == pats;
    DoomedChild(d, pats, c, tails);
  }

  /** What the first n patterns say about item j of an array. */
  ghost predicate ItemSplit(d: Doc, pats: seq<Path>, j: nat, remove: bool, tails: seq<Path>) {
    && (remove <==> exists p | p in pats :: |p| == 1 && Hits(d, p[0], Index(j)))
    && TailsOf(d, pats, Index(j), tails)
  }

  lemma ItemSplitSnoc(d: Doc, pats: seq<Path>, path: Path, j: nat, remove: bool, tails: seq<Path>)
    requires ItemSplit(d, pats, j, remove, tails)
    ensures path == [] || !Hits(d, path[0], Index(j)) ==> ItemSplit(d, pats + [path], j, remove, tails)
    ensures |path| == 1 && Hits(d, path[0], Index(j)) ==> ItemSplit(d, pats + [path], j, true, tails)
    ensures |path| > 1 && Hits(d, path[0], Index(j)) ==> ItemSplit(d, pats + [path], j, remove, tails + [path[1..]])
  {
  }

  /** The array half of deleteOverridePaths: every pattern marks the items it selects. */
  method SplitItems(d: Doc, pats: seq<Path>) returns (remove: seq<bool>, tails: seq<seq<Path>>)
    requires d.Arr?
    ensures |remove| == |tails| == |d.items|
    ensures forall j | 0 <= j < |d.items| :: ItemSplit(d, pats, j, remove[j], tails[j])
  {
    remove := seq(|d.items|, _ => false);
    tails := seq(|d.items|, _ => []);
    for i := 0 to |pats|
      invariant |remove| == |tails| == |d.items|
      invariant forall j | 0 <= j < |d.items| :: ItemSplit(d, pats[..i], j, remove[j], tails[j])
    {
      remove, tails := MarkItems(d, pats[..i], pats[i], remove, tails);
      assert pats[..i + 1] == pats[..i] + [pats[i]];
    }
    assert pats[..|pats|] == pats;
  }

  method MarkItems(d: Doc, ghost before: seq<Path>, path: Path, remove: seq<bool>, tails: seq<seq<Path>>)
    returns (marked: seq<bool>, longer: seq<seq<Path>>)
    requires d.Arr? && |remove| == |tails| == |d.items|
    requires forall j | 0 <= j < |d.items| :: ItemSplit(d, before, j, remove[j], tails[j])
    ensures |marked| == |longer| == |d.items|
    ensures forall j | 0 <= j < |d.items| :: ItemSplit(d, before + [path], j, marked[j], longer[j])
  {
    marked, longer := remove, tails;
    for j := 0 to |d.items|
      invariant |marked| == |longer| == |d.items|
      invariant forall k | j <= k < |d.items| :: marked[k] == remove[k] && longer[k] == tails[k]
      invariant forall k | 0 <= k < j :: ItemSplit(d, before + [path], k, marked[k], longer[k])
    {
      ItemSplitSnoc(d, before, path, j, remove[j], tails[j]);
      if path != [] && Hits(d, path[0], Index(j)) {
        if |path| == 1 {
          marked := marked[j := true];
        } else {
          longer := longer[j := longer[j] + [path[1..]]];
        }
      }
    }
  }

  /** deleteOverridePaths: mapping keys in any order, array items by index. */
  method DeletePaths(d: Doc, pats: seq<Path>) returns (r: Doc)
    ensures r == Erase(d, DoomedIn(d, pats))
    decreases d, 1
  {
    match d {
      case Obj(_) => r := DeleteFields(d, pats);
      case Arr(_) => r := DeleteItems(d, pats);
      case _ => r := d;
    }
  }

  method DeleteFields(d: Doc, pats: seq<Path>) returns (r: Doc)
    requires d.Obj?
    ensures r == Erase(d, DoomedIn(d, pats))
    decreases d, 0
  {
    var fields := d.fields;
    var kept := fields;
    var left := fields.Keys;
    while left != {}
      invariant left <= fields.Keys && kept.Keys <= fields.Keys
      invariant forall k | k in left :: k in kept && kept[k] == fields[k]
      invariant forall k | k in fields && k !in left :: k in kept <==> !Doomed(d, pats, [Field(k)])
      invariant forall k | k in kept && k !in left ::
                  kept[k] == Erase(fields[k], rest => Doomed(d, pats, [Field(k)] + rest))
      decreases left
    {
      var k :| k in left;
      left := left - {k};
      var remove, tails := SplitPatterns(d, pats, Field(k));
      if remove {
        kept := kept - {k};
      } else {
        SurvivorPruned(d, pats, Field(k), tails);
        if tails != [] {
          var updated := DeletePaths(fields[k], tails);
          kept := kept[k := updated];
        }
      }
    }
    r := Obj(kept);
    DeletedFields(d, pats, kept);
  }

  lemma DeletedFields(d: Doc, pats: seq<Path>, kept: map<string, Doc>)
    requires d.Obj? && kept.Keys <= d.fields.Keys
    requires forall k | k in d.fields :: k in kept <==> !Doomed(d, pats, [Field(k)])
    requires forall k | k in kept :: kept[k] == Erase(d.fields[k], rest => Doomed(d, pats, [Field(k)] + rest))
    ensures Obj(kept) == Erase(d, DoomedIn(d, pats))
  {
    var gone := DoomedIn(d, pats);
    forall k | k in kept ensures kept[k] == Erase(d.fields[k], c => gone([Field(k)] + c)) {
      EraseExtensional(d.fields[k], rest => Doomed(d, pats, [Field(k)] + rest), c => gone([Field(k)] + c));
    }
    assert kept == Erase(d, gone).fields;
  }

  method DeleteItems(d: Doc, pats: seq<Path>) returns (r: Doc)
    requires d.Arr?
    ensures r == Erase(d, DoomedIn(d, pats))
    decreases d, 0
  {
    var items := d.items;
    var remove, tails := SplitItems(d, pats);
    var result: seq<Doc> := [];
    for i := 0 to |items|
      invariant result == EraseItems(d, DoomedIn(d, pats), i)
    {
      DoomedChild(d, pats, Index(i), tails[i]);
      if !remove[i] {
        ItemPruned(d, pats, i, tails[i]);
        var child := items[i];
        if |tails[i]| > 0 {
          child := DeletePaths(child, tails[i]);
        }
        result := result + [child];
      }
    }
    r := Arr(result);
  }

  lemma ItemPruned(d: Doc, pats: seq<Path>, i: nat, tails: seq<Path>)
    requires d.Arr? && i < |d.items| && TailsOf(d, pats, Index(i), tails) && !Doomed(d, pats, [Index(i)])
    ensures var gone := DoomedIn(d, pats);
            EraseItems(d, gone, i + 1) == EraseItems(d, gone, i) + [Erase(d.items[i], DoomedIn(d.items[i], tails))]
    ensures tails == [] ==> Erase(d.items[i], DoomedIn(d.items[i], tails)) == d.items[i]
  {
    SurvivorPruned(d, pats, Index(i), tails);
    var gone := DoomedIn(d, pats);
    EraseExtensional(d.items[i], rest => Doomed(d, pats, [Index(i)] + rest), c => gone([Index(i)] + c));
  }

  // ---- consequences ----

  /** The order and repetition of the patterns are irrelevant. */
  lemma PatternOrderIrrelevant(d: Doc, pats: seq<Path>, others: seq<Path>)
    requires forall p :: p in pats <==> p in others
    ensures Erase(d, DoomedIn(d, pats)) == Erase(d, DoomedIn(d, others))
  {
    EraseExtensional(d, DoomedIn(d, pats), DoomedIn(d, others));
  }

  // ---- which nodes are left, and where ----

  /** c exists in d and no node on the way to it, nor it itself, is gone. */
  ghost predicate Survives(d: Doc, gone: Path -> bool, c: Path)
    decreases |c|
  {
    c == [] || (Exists(d, [c[0]]) && !gone([c[0]]) && Survives(Child(d, c[0]), x => gone([c[0]] + x), c[1..]))
  }

  /** Where the node at c ends up: a mapping key stays, an index drops by the removed items before it. */
  ghost function Moved(d: Doc, gone: Path -> bool, c: Path): Path
    requires Survives(d, gone, c)
    decreases |c|
  {
    if c == [] then []
    else
      var tail := Moved(Child(d, c[0]), x => gone([c[0]] + x), c[1..]);
      if d.Arr? then [Index(|EraseItems(d, gone, c[0].index)|)] + tail else [c[0]] + tail
  }

  lemma {:induction false} ErasedItemAt(d: Doc, gone: Path -> bool, i: nat, n: nat)
    requires d.Arr? && i < n <= |d.items| && !gone([Index(i)])
    ensures |EraseItems(d, gone, i)| < |EraseItems(d, gone, n)|
    ensures EraseItems(d, gone, n)[|EraseItems(d, gone, i)|] == Erase(d.items[i], c => gone([Index(i)] + c))
    decreases n
  {
    if i < n - 1 {
      ErasedItemAt(d, gone, i, n - 1);
    }
  }

  lemma ChildErased(d: Doc, gone: Path -> bool, c: Segment)
    requires Exists(d, [c]) && !gone([c])
    ensures var e := if d.Arr? then Index(|EraseItems(d, gone, c.index)|) else c;
            Exists(Erase(d, gone), [e]) && Child(Erase(d, gone), e) == Erase(Child(d, c), x => gone([c] + x))
  {
    assert [c][0] == c;
    if d.Arr? {
      ErasedItemAt(d, gone, c.index, |d.items|);
    }
  }

  /** A surviving node is found at its new place, with only its own doomed descendants missing. */
  lemma {:induction false} SurvivorsKept(d: Doc, gone: Path -> bool, c: Path)
    requires Survives(d, gone, c)
    ensures Exists(d, c) && Exists(Erase(d, gone), Moved(d, gone, c))
    ensures NodeAt(Erase(d, gone), Moved(d, gone, c)) == Erase(NodeAt(d, c), x => gone(c + x))
    decreases |c|
  {
    if c == [] {
      forall x ensures gone(x) == gone(c + x) {
        assert c + x == x;
      }
      EraseExtensional(d, gone, x => gone(c + x));
    } else {
      var below := x => gone([c[0]] + x);
      ChildErased(d, gone, c[0]);
      SurvivorsKept(Child(d, c[0]), below, c[1..]);
      PrefixShifts(NodeAt(d, c), gone, c);
      var tail := Moved(Child(d, c[0]), below, c[1..]);
      assert Moved(d, gone, c)[1..] == tail;
    }
  }

  lemma PrefixShifts(d: Doc, gone: Path -> bool, c: Path)
    requires c != []
    ensures var below := x => gone([c[0]] + x);
            Erase(d, x => below(c[1..] + x)) == Erase(d, x => gone(c + x))
  {
    var below := x => gone([c[0]] + x);
    forall x ensures below(c[1..] + x) == gone(c + x) {
      assert [c[0]] + (c[1..] + x) == c + x;
    }
    EraseExtensional(d, x => below(c[1..] + x), x => gone(c + x));
  }

  lemma {:induction false} ErasedItemSource(d: Doc, gone: Path -> bool, e: nat, n: nat) returns (i: nat)
    requires d.Arr? && n <= |d.items| && e < |EraseItems(d, gone, n)|
    ensures i < n && !gone([Index(i)]) && |EraseItems(d, gone, i)| == e
    decreases n
  {
    if e < |EraseItems(d, gone, n - 1)| {
      i := ErasedItemSource(d, gone, e, n - 1);
    } else {
      i := n - 1;
    }
  }

  /** Every node of the result is a surviving node of the original. */
  lemma {:induction false} NothingElseAppears(d: Doc, gone: Path -> bool, e: Path) returns (c: Path)
    requires Exists(Erase(d, gone), e)
    ensures Survives(d, gone, c) && Moved(d, gone, c) == e
    decreases |e|
  {
    if e == [] {
      return [];
    }
    var s := e[0];
    if d.Arr? {
      var i := ErasedItemSource(d, gone, s.index, |d.items|);
      s := Index(i);
    }
    assert [s][0] == s;
    ChildErased(d, gone, s);
    var tail := NothingElseAppears(Child(d, s), x => gone([s] + x), e[1..]);
    c := [s] + tail;
    assert c[1..] == tail;
  }

  // ---- what a pattern matches ----

  lemma MatchesHead(d: Doc, s: Segment, p: Path, e: Segment, c: Path)
    ensures Matches(d, [s] + p, [e] + c) <==> Hits(d, s, e) && Matches(Child(d, e), p, c)
  {
    assert ([s] + p)[0] == s && ([s] + p)[1..] == p && ([e] + c)[0] == e && ([e] + c)[1..] == c;
  }

  /** In an array of n items `[-k]` matches item n - k and nothing else, `[k]` item k, and a wildcard every item. */
  lemma IndexMatches(d: Doc, k: int, p: Path, j: int, c: Path)
    requires d.Arr?
    ensures k >= 0 ==> (Matches(d, [Index(k)] + p, [Index(j)] + c) <==> j == k < |d.items| && Matches(d.items[j], p, c))
    ensures k >= 1 ==>
              (Matches(d, [Index(-k)] + p, [Index(j)] + c) <==> 0 <= j == |d.items| - k && Matches(d.items[j], p, c))
    ensures Matches(d, [Wildcard] + p, [Index(j)] + c) <==> 0 <= j < |d.items| && Matches(d.items[j], p, c)
  {
    MatchesHead(d, Index(k), p, Index(j), c);
    MatchesHead(d, Index(-k), p, Index(j), c);
    MatchesHead(d, Wildcard, p, Index(j), c);
  }

  /** In a mapping a field matches the value of its key and a wildcard every value. */
  lemma FieldMatches(d: Doc, k: string, p: Path, e: string, c: Path)
    requires d.Obj?
    ensures Matches(d, [Field(k)] + p, [Field(e)] + c) <==> e == k && k in d.fields && Matches(d.fields[k], p, c)
    ensures Matches(d, [Wildcard] + p, [Field(e)] + c) <==> e in d.fields && Matches(d.fields[e], p, c)
  {
    MatchesHead(d, Field(k), p, Field(e), c);
    MatchesHead(d, Wildcard, p, Field(e), c);
  }

  /** A pattern and a path match only in step: both end, an index or wildcard at an index, a field or wildcard at a field. */
  lemma OnlyKindred(d: Doc, p: Path, c: Path)
    requires Matches(d, p, c)
    ensures |p| == |c|
    ensures c != [] ==> (c[0].Field? && d.Obj? && (p[0] == c[0] || p[0].Wildcard?)) ||
                        (c[0].Index? && d.Arr? && (p[0].Index? || p[0].Wildcard?))
    decreases |c|
  {
    if c != [] {
      OnlyKindred(Child(d, c[0]), p[1..], c[1..]);
    }
  }
}
