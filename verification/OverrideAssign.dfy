/** Assigning through a conditional target: one update after another is one simultaneous update. */
module OverrideAssign {
  import opened Wrappers
  import opened OverrideDoc
  import opened OverrideUpdate
  import opened OverrideTarget

  /** The updates of the selected paths, first to last. */
  function Apply(d: Doc, sels: seq<Selection>, u: Updater): Result<Doc>
    decreases |sels|
  {
    if sels == [] then Ok(d)
    else match Update(d, sels[0].path, u)
      case Err => Err
      case Ok(v) => Apply(v, sels[1..], u)
  }

  /** An assignment must leave a mapping at the root. */
  function Mapped(r: Result<Doc>): Result<Doc> {
    if r.Ok? && !r.value.Obj? then Err else r
  }

  /** The target branch of overrideAssignStatement.apply. */
  method AssignTarget(root: Doc, stages: seq<Stage>, u: Updater) returns (r: Result<Doc>)
    requires root.Obj?
    ensures r == match Resolve([Selection(root, [])], stages)
                 case Err => Err
                 case Ok(sels) => Mapped(Apply(root, sels, u))
    ensures r.Ok? ==> r.value.Obj? && Apply(root, Resolve([Selection(root, [])], stages).value, u) == r
  {
    var resolved := ResolveTarget(root, stages);
    if resolved.Err? {
      return Err;
    }
    var sels := resolved.value;
    var document := root;
    for i := 0 to |sels|
      invariant document.Obj? && Mapped(Apply(root, sels, u)) == Mapped(Apply(document, sels[i..], u))
    {
      assert sels[i..][0] == sels[i] && sels[i..][1..] == sels[i + 1..];
      var updated := UpdatePath(document, sels[i].path, u);
      if updated.Err? {
        return Err;
      }
      if !updated.value.Obj? {
        OnlyRootSelected(root, document, stages, i, u);
        return Err;
      }
      document := updated.value;
    }
    r := Ok(document);
  }

  /** Only an update of the root itself can lose the mapping, and then it is the only one. */
  lemma OnlyRootSelected(root: Doc, document: Doc, stages: seq<Stage>, i: nat, u: Updater)
    requires Resolve([Selection(root, [])], stages).Ok? && i < |Resolve([Selection(root, [])], stages).value|
    requires var p := Resolve([Selection(root, [])], stages).value[i].path;
             document.Obj? && Update(document, p, u).Ok? && !Update(document, p, u).value.Obj?
    ensures |Resolve([Selection(root, [])], stages).value| == 1
  {
    var sels := Resolve([Selection(root, [])], stages).value;
    if sels[i].path != [] {
      RootStaysMapping(document, sels[i].path, u);
    }
    ResolvedPathsDistinct(root, stages);
    assert sels[i].path <= sels[if i == 0 then |sels| - 1 else 0].path;
  }

  /** The check that the root is still a mapping can only fail for the path `.`. */
  lemma RootStaysMapping(d: Doc, p: Path, u: Updater)
    requires d.Obj? && p != [] && Update(d, p, u).Ok?
    ensures Update(d, p, u).value.Obj?
  {
  }

  // ---- one update ----

  /** The write at p goes through exactly when its indices are non-negative and the updater accepts. */
  lemma {:induction false} UpdateAt(d: Doc, p: Path, u: Updater)
    requires Reach(d, p)
    ensures Update(d, p, u).Ok? <==> Concrete(p) && u(NodeAt(d, p)).Ok?
    ensures Update(d, p, u).Ok? ==> Reach(Update(d, p, u).value, p)
    ensures Update(d, p, u).Ok? ==> Ok(NodeAt(Update(d, p, u).value, p)) == u(NodeAt(d, p))
    decreases |p|
  {
    if p != [] {
      var s := p[0];
      assert p == [s] + p[1..];
      assert Concrete(p) <==> (s.Field? || (s.Index? && s.index >= 0)) && Concrete(p[1..]);
      if s.Index? && s.index < 0 {
      } else {
        UpdateAt(Child(d, s), p[1..], u);
        if Update(d, p, u).Ok? {
          assert Child(Update(d, p, u).value, s) == Update(Child(d, s), p[1..], u).value;
        }
      }
    }
  }

  /** Update in terms of the one child it rewrites. */
  function Put(d: Doc, s: Segment, v: Doc): Doc
    requires s.Field? || (s.Index? && s.index >= 0)
  {
    var node := Opened(d, s);
    if s.Field? && node.Obj? then Obj(node.fields[s.key := v])
    else if s.Index? && node.Arr? then Arr(Padded(node.items, s.index)[s.index := v])
    else d
  }

  lemma UpdateIsPut(d: Doc, p: Path, u: Updater)
    requires p != [] && Reach(d, p) && !(p[0].Index? && p[0].index < 0)
    ensures Update(d, p, u) ==
            match Update(Child(d, p[0]), p[1..], u)
            case Err => Err
            case Ok(v) => Ok(Put(d, p[0], v))
  {
  }

  lemma PutFacts(d: Doc, s: Segment, v: Doc, w: Doc)
    requires Reach(d, [s]) && (s.Field? || s.index >= 0)
    ensures Child(Put(d, s, v), s) == v
    ensures Reach(Put(d, s, v), [s]) && Exists(Put(d, s, v), [s])
    ensures Put(Put(d, s, v), s, w) == Put(d, s, w)
    ensures forall t | t != s && Exists(d, [t]) :: Exists(Put(d, s, v), [t]) && Child(Put(d, s, v), t) == Child(d, t)
  {
    if s.Field? {
      var m := Opened(d, s).fields;
      assert m[s.key := v][s.key := w] == m[s.key := w];
    } else {
      var a := Padded(Opened(d, s).items, s.index);
      assert Padded(a[s.index := v], s.index)[s.index := w] == a[s.index := w];
    }
  }

  lemma PutCommutes(d: Doc, s: Segment, t: Segment, v: Doc, w: Doc)
    requires s != t && Exists(d, [s]) && Exists(d, [t])
    ensures Put(Put(d, s, v), t, w) == Put(Put(d, t, w), s, v)
  {
  }

  lemma ReachHead(d: Doc, p: Path)
    requires p != [] && Reach(d, p)
    ensures Reach(d, [p[0]]) && Reach(Child(d, p[0]), p[1..])
    ensures !p[0].Wildcard?
  {
  }

  // ---- two updates ----

  /** An update leaves a path apart from it reachable, with the same value. */
  lemma {:induction false} UpdateKeepsOther(d: Doc, r: Path, p: Path, u: Updater)
    requires Reach(d, r) && Reach(d, p) && Apart(d, r, p) && Update(d, r, u).Ok?
    ensures Reach(Update(d, r, u).value, p)
    ensures NodeAt(Update(d, r, u).value, p) == NodeAt(d, p)
    decreases |r|
  {
    UpdateAt(d, r, u);
    assert r[0] in r;
    ReachHead(d, r);
    ReachHead(d, p);
    UpdateIsPut(d, r, u);
    var v := Update(Child(d, r[0]), r[1..], u).value;
    PutFacts(d, r[0], v, v);
    if r[0] == p[0] {
      UpdateKeepsOther(Child(d, r[0]), r[1..], p[1..], u);
    }
  }

  lemma {:induction false} UpdateKeepsApart(d: Doc, r: Path, p: Path, q: Path, u: Updater)
    requires Reach(d, r) && Apart(d, r, p) && Apart(d, r, q) && Apart(d, p, q) && Update(d, r, u).Ok?
    ensures Apart(Update(d, r, u).value, p, q)
    decreases |r|
  {
    UpdateAt(d, r, u);
    assert r[0] in r;
    ReachHead(d, r);
    UpdateIsPut(d, r, u);
    var v := Update(Child(d, r[0]), r[1..], u).value;
    PutFacts(d, r[0], v, v);
    if r[0] == p[0] == q[0] {
      UpdateKeepsApart(Child(d, r[0]), r[1..], p[1..], q[1..], u);
    }
  }

  function Then(r: Result<Doc>, p: Path, u: Updater): Result<Doc> {
    match r
    case Err => Err
    case Ok(d) => Update(d, p, u)
  }

  /** Two updates apart from each other commute, failures included. */
  lemma {:induction false} UpdatesCommute(d: Doc, p: Path, q: Path, u: Updater)
    requires Reach(d, p) && Reach(d, q) && Apart(d, p, q)
    ensures Then(Update(d, p, u), q, u) == Then(Update(d, q, u), p, u)
    decreases |p|
  {
    UpdateAt(d, p, u);
    UpdateAt(d, q, u);
    ApartDistinct(d, p, q);
    if Update(d, p, u).Ok? { UpdateKeepsOther(d, p, q, u); UpdateAt(Update(d, p, u).value, q, u); }
    if Update(d, q, u).Ok? { UpdateKeepsOther(d, q, p, u); UpdateAt(Update(d, q, u).value, p, u); }
    if Update(d, p, u).Ok? && Update(d, q, u).Ok? {
      BothUpdatesCommute(d, p, q, u);
    }
  }

  lemma {:induction false} BothUpdatesCommute(d: Doc, p: Path, q: Path, u: Updater)
    requires Reach(d, p) && Reach(d, q) && Apart(d, p, q)
    requires Update(d, p, u).Ok? && Update(d, q, u).Ok?
    ensures Update(Update(d, p, u).value, q, u) == Update(Update(d, q, u).value, p, u)
    decreases |p|, 0
  {
    UpdateAt(d, p, u);
    UpdateAt(d, q, u);
    ApartDistinct(d, p, q);
    assert p[0] in p && q[0] in q;
    ReachHead(d, p);
    ReachHead(d, q);
    UpdateIsPut(d, p, u);
    UpdateIsPut(d, q, u);
    UpdateKeepsOther(d, p, q, u);
    UpdateKeepsOther(d, q, p, u);
    var v, w := Update(Child(d, p[0]), p[1..], u).value, Update(Child(d, q[0]), q[1..], u).value;
    UpdateIsPut(Put(d, p[0], v), q, u);
    UpdateIsPut(Put(d, q[0], w), p, u);
    PutFacts(d, p[0], v, v);
    PutFacts(d, q[0], w, w);
    if p[0] == q[0] {
      SameChildCommutes(d, p, q, u, v, w);
    } else {
      PutCommutes(d, p[0], q[0], v, w);
    }
  }

  lemma {:induction false} SameChildCommutes(d: Doc, p: Path, q: Path, u: Updater, v: Doc, w: Doc)
    requires Reach(d, p) && Reach(d, q) && Apart(d, p, q) && p[0] == q[0] && (p[0].Index? ==> p[0].index >= 0)
    requires Update(Child(d, p[0]), p[1..], u) == Ok(v) && Update(Child(d, p[0]), q[1..], u) == Ok(w)
    ensures !p[0].Wildcard?
    ensures Reach(Put(d, p[0], v), q) && Reach(Put(d, p[0], w), p)
    ensures Update(Put(d, p[0], v), q, u) == Update(Put(d, p[0], w), p, u)
    decreases |p[1..]|, 1
  {
    var s, c := p[0], Child(d, p[0]);
    ReachHead(d, p);
    ReachHead(d, q);
    PutFacts(d, s, v, v);
    PutFacts(d, s, w, w);
    ApartDistinct(c, p[1..], q[1..]);
    UpdateKeepsOther(c, p[1..], q[1..], u);
    UpdateKeepsOther(c, q[1..], p[1..], u);
    BothUpdatesCommute(c, p[1..], q[1..], u);
    UpdateIsPut(Put(d, s, v), q, u);
    UpdateIsPut(Put(d, s, w), p, u);
    match Update(v, q[1..], u)
    case Err =>
    case Ok(x) =>
      PutFacts(d, s, v, x);
      PutFacts(d, s, w, x);
  }

  // ---- all updates ----

  lemma RestStaysSelected(d: Doc, sels: seq<Selection>, length: nat, u: Updater)
    requires AllSelected(d, sels, length) && AllApart(d, sels) && sels != []
    requires Update(d, sels[0].path, u).Ok?
    ensures AllSelected(Update(d, sels[0].path, u).value, sels[1..], length)
    ensures AllApart(Update(d, sels[0].path, u).value, sels[1..])
  {
    var e, rest := Update(d, sels[0].path, u).value, sels[1..];
    assert sels[0] in sels;
    forall i | 0 <= i < |rest| ensures Selected(e, rest[i]) {
      assert rest[i] == sels[i + 1] && sels[i + 1] in sels;
      UpdateKeepsOther(d, sels[0].path, rest[i].path, u);
    }
    forall i, j | 0 <= i < j < |rest| ensures Apart(e, rest[i].path, rest[j].path) {
      UpdateKeepsApart(d, sels[0].path, sels[i + 1].path, sels[j + 1].path, u);
    }
  }

  lemma {:induction false} UpdateIsAssign(d: Doc, p: Path, u: Updater)
    requires Reach(d, p) && u(NodeAt(d, p)).Ok?
    ensures Update(d, p, u) == Update(d, p, Assign(u(NodeAt(d, p)).value))
    decreases |p|
  {
    if p != [] {
      UpdateIsAssign(Child(d, p[0]), p[1..], u);
    }
  }

  /**
   The sequence of updates succeeds exactly when every selected path is writable
   and the updater accepts every selected value; each path then holds the update
   of the value it was selected with, and no read that parts from all of them
   has changed.
   */
  lemma {:induction false} SequentialIsSimultaneous(d: Doc, sels: seq<Selection>, length: nat, u: Updater)
    requires AllSelected(d, sels, length) && AllApart(d, sels)
    ensures Apply(d, sels, u).Ok? <==> forall s | s in sels :: Concrete(s.path) && u(s.value).Ok?
    ensures Apply(d, sels, u).Ok? ==>
              forall s | s in sels :: Reach(Apply(d, sels, u).value, s.path) &&
                                      Ok(NodeAt(Apply(d, sels, u).value, s.path)) == u(s.value)
    ensures Apply(d, sels, u).Ok? ==>
              forall q: Path | WildcardFree(q) && (forall s | s in sels :: Diverge(s.path, q)) ::
                Lookup(Apply(d, sels, u).value, q) == Lookup(d, q)
    decreases |sels|
  {
    if sels != [] {
      var p := sels[0].path;
      assert sels[0] in sels && sels == [sels[0]] + sels[1..];
      UpdateAt(d, p, u);
      if Update(d, p, u).Ok? {
        var e := Update(d, p, u).value;
        RestStaysSelected(d, sels, length, u);
        SequentialIsSimultaneous(e, sels[1..], length, u);
        forall i | 0 <= i < |sels[1..]| ensures Apart(e, sels[1..][i].path, p) {
          UpdateKeepsOwnApart(d, p, sels[i + 1].path, u);
        }
        KeptThrough(e, p, sels[1..], length, u);
        UpdateIsAssign(d, p, u);
        forall q: Path | WildcardFree(q) && Diverge(p, q) ensures Lookup(e, q) == Lookup(d, q) {
          AssignLeavesOthers(d, p, q, u(NodeAt(d, p)).value);
        }
      }
    }
  }

  /** The same for the selections of any target, which are apart without further conditions. */
  lemma TargetIsSimultaneous(root: Doc, stages: seq<Stage>, u: Updater)
    requires Resolve([Selection(root, [])], stages).Ok?
    ensures var sels := Resolve([Selection(root, [])], stages).value;
            var r := Apply(root, sels, u);
            && (r.Ok? <==> forall s | s in sels :: Concrete(s.path) && u(NodeAt(root, s.path)).Ok?)
            && (r.Ok? ==> forall s | s in sels :: Ok(NodeAt(r.value, s.path)) == u(NodeAt(root, s.path)))
            && (r.Ok? ==> forall q: Path | WildcardFree(q) && (forall s | s in sels :: Diverge(s.path, q)) ::
                  Lookup(r.value, q) == Lookup(root, q))
    ensures forall other | multiset(other) == multiset(Resolve([Selection(root, [])], stages).value) ::
              Apply(root, other, u) == Apply(root, Resolve([Selection(root, [])], stages).value, u)
  {
    var sels := Resolve([Selection(root, [])], stages).value;
    ResolvedPathsDistinct(root, stages);
    SequentialIsSimultaneous(root, sels, PathLength(stages), u);
    forall s | s in sels ensures s.value == NodeAt(root, s.path) {
      var i :| 0 <= i < |sels| && sels[i] == s;
    }
    forall other | multiset(other) == multiset(sels) ensures Apply(root, other, u) == Apply(root, sels, u) {
      AnyOrder(root, sels, other, PathLength(stages), u);
    }
  }

  /** Updates apart from p leave it as it is. */
  lemma {:induction false} KeptThrough(d: Doc, p: Path, sels: seq<Selection>, length: nat, u: Updater)
    requires AllSelected(d, sels, length) && AllApart(d, sels) && Reach(d, p)
    requires forall i | 0 <= i < |sels| :: Apart(d, sels[i].path, p)
    ensures Apply(d, sels, u).Ok? ==>
              Reach(Apply(d, sels, u).value, p) && NodeAt(Apply(d, sels, u).value, p) == NodeAt(d, p)
    decreases |sels|
  {
    if sels != [] && Update(d, sels[0].path, u).Ok? {
      var e, rest := Update(d, sels[0].path, u).value, sels[1..];
      assert sels[0] in sels;
      RestStaysSelected(d, sels, length, u);
      UpdateKeepsOther(d, sels[0].path, p, u);
      forall i | 0 <= i < |rest| ensures Apart(e, rest[i].path, p) {
        assert rest[i] == sels[i + 1];
        UpdateKeepsApart(d, sels[0].path, rest[i].path, p, u);
      }
      KeptThrough(e, p, rest, length, u);
    }
  }

  lemma {:induction false} UpdateKeepsOwnApart(d: Doc, p: Path, q: Path, u: Updater)
    requires Reach(d, p) && Apart(d, p, q) && Update(d, p, u).Ok?
    ensures Apart(Update(d, p, u).value, q, p)
    decreases |p|
  {
    UpdateAt(d, p, u);
    assert p[0] in p;
    ReachHead(d, p);
    UpdateIsPut(d, p, u);
    var v := Update(Child(d, p[0]), p[1..], u).value;
    PutFacts(d, p[0], v, v);
    if p[0] == q[0] {
      UpdateKeepsOwnApart(Child(d, p[0]), p[1..], q[1..], u);
    }
  }

  // ---- any order ----

  lemma SwapFront(d: Doc, a: Selection, b: Selection, rest: seq<Selection>, u: Updater)
    requires Then(Update(d, a.path, u), b.path, u) == Then(Update(d, b.path, u), a.path, u)
    ensures Apply(d, [a] + ([b] + rest), u) == Apply(d, [b] + ([a] + rest), u)
  {
  }

  lemma SameTail(d: Doc, a: Selection, xs: seq<Selection>, ys: seq<Selection>, u: Updater)
    requires Update(d, a.path, u).Ok? ==> Apply(Update(d, a.path, u).value, xs, u) == Apply(Update(d, a.path, u).value, ys, u)
    ensures Apply(d, [a] + xs, u) == Apply(d, [a] + ys, u)
  {
  }

  /** sels with its k-th selection moved to the front. */
  function Front(sels: seq<Selection>, k: nat): seq<Selection>
    requires k < |sels|
  {
    [sels[k]] + (sels[..k] + sels[k + 1..])
  }

  lemma FrontOfRest(sels: seq<Selection>, k: nat)
    requires 0 < k < |sels|
    ensures var middle := sels[1..k] + sels[k + 1..];
            && Front(sels[1..], k - 1) == [sels[k]] + middle
            && Front(sels, k) == [sels[k]] + ([sels[0]] + middle)
  {
  }

  lemma {:induction false} MoveToFront(d: Doc, sels: seq<Selection>, k: nat, length: nat, u: Updater)
    requires AllSelected(d, sels, length) && AllApart(d, sels) && k < |sels|
    ensures Apply(d, sels, u) == Apply(d, Front(sels, k), u)
    decreases |sels|
  {
    var first, rest := sels[0], sels[1..];
    assert sels == [first] + rest;
    if k == 0 {
      assert Front(sels, 0) == sels;
    } else {
      var middle := sels[1..k] + sels[k + 1..];
      FrontOfRest(sels, k);
      if Update(d, first.path, u).Ok? {
        RestStaysSelected(d, sels, length, u);
        MoveToFront(Update(d, first.path, u).value, rest, k - 1, length, u);
      }
      SameTail(d, first, rest, [sels[k]] + middle, u);
      assert first in sels && sels[k] in sels;
      UpdatesCommute(d, first.path, sels[k].path, u);
      SwapFront(d, first, sels[k], middle, u);
    }
  }

  lemma MovedStaysApart(d: Doc, sels: seq<Selection>, k: nat, length: nat)
    requires AllSelected(d, sels, length) && AllApart(d, sels) && k < |sels|
    ensures AllSelected(d, Front(sels, k), length) && AllApart(d, Front(sels, k))
  {
    var moved := Front(sels, k);
    forall i, j | 0 <= i < j < |moved| ensures Apart(d, moved[i].path, moved[j].path) {
      assert i > 0 ==> moved[i] == sels[if i <= k then i - 1 else i];
      assert moved[j] == sels[if j <= k then j - 1 else j];
      if i == 0 && j <= k {
        ApartDistinct(d, sels[j - 1].path, sels[k].path);
      }
    }
  }

  lemma SameRest(sels: seq<Selection>, other: seq<Selection>, k: nat)
    requires multiset(sels) == multiset(other) && k < |sels| && other != [] && sels[k] == other[0]
    ensures multiset(sels[..k] + sels[k + 1..]) == multiset(other[1..])
  {
    assert sels == sels[..k] + [sels[k]] + sels[k + 1..];
    assert other == [other[0]] + other[1..];
    assert multiset(other) == multiset{other[0]} + multiset(other[1..]);
    assert multiset(sels) == multiset{sels[k]} + multiset(sels[..k] + sels[k + 1..]);
    assert multiset(sels[..k] + sels[k + 1..]) == multiset(sels) - multiset{sels[k]};
    assert multiset(other[1..]) == multiset(other) - multiset{other[0]};
  }

  /** Any order of the selections gives the same document, or fails likewise. */
  lemma {:induction false} AnyOrder(d: Doc, sels: seq<Selection>, other: seq<Selection>, length: nat, u: Updater)
    requires AllSelected(d, sels, length) && AllApart(d, sels)
    requires multiset(sels) == multiset(other)
    ensures Apply(d, sels, u) == Apply(d, other, u)
    decreases |sels|
  {
    if other == [] {
      assert |sels| == |multiset(sels)| == |multiset(other)| == 0;
      assert sels == other;
    } else {
      assert other[0] in multiset(other);
      var k :| 0 <= k < |sels| && sels[k] == other[0];
      var rest := sels[..k] + sels[k + 1..];
      MoveToFront(d, sels, k, length, u);
      MovedStaysApart(d, sels, k, length);
      SameRest(sels, other, k);
      assert Front(sels, k)[1..] == rest && [other[0]] + other[1..] == other;
      if Update(d, other[0].path, u).Ok? {
        RestStaysSelected(d, Front(sels, k), length, u);
        AnyOrder(Update(d, other[0].path, u).value, rest, other[1..], length, u);
      }
      SameTail(d, other[0], rest, other[1..], u);
    }
  }
}
