/** Conditional assignment targets: which paths they select, and updating all of them. */
module OverrideTarget {
  import opened Wrappers
  import opened OverrideDoc
  import opened OverrideUpdate

  datatype Selection = Selection(value: Doc, path: Path)

  type Condition = Doc -> Result<seq<Doc>>

  datatype Stage = Follow(path: Path) | Select(condition: Condition)

  predicate Truthy(d: Doc) {
    d != Null && d != Scalar(Bool(false))
  }

  predicate Accepts(results: seq<Doc>) {
    exists v | v in results :: Truthy(v)
  }

  // ---- resolving ----

  /** The concrete segments of a container's children, in stream order. */
  function ChildSegments(d: Doc): seq<Segment> {
    match d
    case Arr(a) => seq(|a|, i => Index(i))
    case Obj(m) => FieldSegments(SortedKeys(m.Keys))
    case _ => []
  }

  function FieldSegments(keys: seq<string>): (r: seq<Segment>)
    ensures |r| == |keys| && forall i | 0 <= i < |keys| :: r[i] == Field(keys[i])
  {
    if keys == [] then [] else [Field(keys[0])] + FieldSegments(keys[1..])
  }

  function Into(sel: Selection, s: Segment): Selection {
    Selection(Child(sel.value, s), sel.path + [s])
  }

  function Expand(sel: Selection, path: Path): seq<Selection>
    decreases |path|, 0
  {
    if path == [] then [sel]
    else match path[0]
      case Field(_) =>
        if sel.value.Null? || sel.value.Obj? then Expand(Into(sel, path[0]), path[1..]) else []
      case Index(i) =>
        if sel.value.Null? then Expand(Into(sel, path[0]), path[1..])
        else if !sel.value.Arr? || Resolved(i, |sel.value.items|) < 0 then []
        else Expand(Into(sel, Index(Resolved(i, |sel.value.items|))), path[1..])
      case Wildcard => ExpandEach(sel, ChildSegments(sel.value), path[1..])
  }

  function ExpandEach(sel: Selection, segments: seq<Segment>, path: Path): seq<Selection>
    decreases |path|, 1, |segments|
  {
    if segments == [] then []
    else
      var n := |segments| - 1;
      ExpandEach(sel, segments[..n], path) + Expand(Into(sel, segments[n]), path)
  }

  /** expandOverrideTargetPath with its loop over a container's children. */
  method ExpandTarget(sel: Selection, path: Path) returns (result: seq<Selection>)
    ensures result == Expand(sel, path)
    decreases |path|
  {
    if path == [] {
      return [sel];
    }
    match path[0] {
      case Field(k) =>
        if sel.value.Null? {
          result := ExpandTarget(Selection(Null, sel.path + [path[0]]), path[1..]);
        } else if !sel.value.Obj? {
          return [];
        } else {
          result := ExpandTarget(Selection(Get(sel.value.fields, k), sel.path + [path[0]]), path[1..]);
        }
      case Index(i) =>
        if sel.value.Null? {
          result := ExpandTarget(Selection(Null, sel.path + [path[0]]), path[1..]);
        } else if !sel.value.Arr? {
          return [];
        } else {
          var index := i;
          if index < 0 {
            index := index + |sel.value.items|;
          }
          if index < 0 {
            return [];
          }
          var value := Null;
          if index < |sel.value.items| {
            value := sel.value.items[index];
          }
          result := ExpandTarget(Selection(value, sel.path + [Index(index)]), path[1..]);
        }
      case Wildcard =>
        result := [];
        var segments := ChildSegments(sel.value);
        for i := 0 to |segments|
          invariant result == ExpandEach(sel, segments[..i], path[1..])
        {
          var expanded := ExpandTarget(Into(sel, segments[i]), path[1..]);
          assert segments[..i + 1][..i] == segments[..i];
          result := result + expanded;
        }
        assert segments[..|segments|] == segments;
    }
  }

  function ExpandAll(sels: seq<Selection>, path: Path): seq<Selection> {
    if sels == [] then []
    else ExpandAll(sels[..|sels| - 1], path) + Expand(sels[|sels| - 1], path)
  }

  function Filter(sels: seq<Selection>, condition: Condition): Result<seq<Selection>> {
    if sels == [] then Ok([])
    else
      var n := |sels| - 1;
      match Filter(sels[..n], condition)
      case Err => Err
      case Ok(kept) => (
        match condition(sels[n].value)
        case Err => Err
        case Ok(results) => Ok(if Accepts(results) then kept + [sels[n]] else kept))
  }

  function Resolve(sels: seq<Selection>, stages: seq<Stage>): Result<seq<Selection>>
    decreases |stages|
  {
    if stages == [] then Ok(sels)
    else match stages[0]
      case Follow(path) => Resolve(ExpandAll(sels, path), stages[1..])
      case Select(condition) => (
        match Filter(sels, condition)
        case Err => Err
        case Ok(kept) => Resolve(kept, stages[1..]))
  }

  lemma {:induction false} FilterFails(sels: seq<Selection>, condition: Condition, n: nat)
    requires n <= |sels| && Filter(sels[..n], condition).Err?
    ensures Filter(sels, condition).Err?
    decreases |sels|
  {
    if n < |sels| {
      var m := |sels| - 1;
      assert sels[..m][..n] == sels[..n];
      FilterFails(sels[..m], condition, n);
    } else {
      assert sels[..n] == sels;
    }
  }

  /** overrideAssignmentTarget.resolve. */
  method ResolveTarget(root: Doc, stages: seq<Stage>) returns (r: Result<seq<Selection>>)
    ensures r == Resolve([Selection(root, [])], stages)
  {
    var selections := [Selection(root, [])];
    for n := 0 to |stages|
      invariant Resolve([Selection(root, [])], stages) == Resolve(selections, stages[n..])
    {
      assert stages[n..][0] == stages[n] && stages[n..][1..] == stages[n + 1..];
      var next: seq<Selection> := [];
      match stages[n] {
        case Follow(path) =>
          for i := 0 to |selections|
            invariant next == ExpandAll(selections[..i], path)
          {
            var expanded := ExpandTarget(selections[i], path);
            assert selections[..i + 1][..i] == selections[..i];
            next := next + expanded;
          }
        case Select(condition) =>
          for i := 0 to |selections|
            invariant Filter(selections[..i], condition) == Ok(next)
          {
            assert selections[..i + 1][..i] == selections[..i];
            var matches := condition(selections[i].value);
            if matches.Err? {
              FilterFails(selections, condition, i + 1);
              return Err;
            }
            if Accepts(matches.value) {
              next := next + [selections[i]];
            }
          }
      }
      assert selections[..|selections|] == selections;
      selections := next;
    }
    r := Ok(selections);
  }

  // ---- what is selected ----

  /** No existing node on the way keeps p from being written, wildcards aside. */
  predicate Reach(d: Doc, p: Path)
    decreases |p|
  {
    p == [] ||
    (&& (match p[0]
         case Field(_) => d.Null? || d.Obj?
         case Index(i) => d.Null? || (d.Arr? && i >= 0)
         case Wildcard => false)
     && Reach(Child(d, p[0]), p[1..]))
  }

  predicate Selected(root: Doc, sel: Selection) {
    Reach(root, sel.path) && sel.value == NodeAt(root, sel.path)
  }

  /** p and q part between two existing children of one node of d. */
  predicate Apart(d: Doc, p: Path, q: Path)
    decreases |p|
  {
    && p != [] && q != []
    && if p[0] == q[0] then Apart(Child(d, p[0]), p[1..], q[1..]) else Exists(d, [p[0]]) && Exists(d, [q[0]])
  }

  ghost predicate AllApart(root: Doc, sels: seq<Selection>) {
    forall i, j | 0 <= i < j < |sels| :: Apart(root, sels[i].path, sels[j].path)
  }

  ghost predicate AllSelected(root: Doc, sels: seq<Selection>, length: nat) {
    forall s | s in sels :: Selected(root, s) && |s.path| == length
  }

  ghost predicate AllBelow(sels: seq<Selection>, p: Path) {
    forall s | s in sels :: p <= s.path
  }

  lemma {:induction false} ReachStep(d: Doc, p: Path, s: Segment)
    requires Reach(d, p)
    ensures NodeAt(d, p + [s]) == Child(NodeAt(d, p), s)
    ensures Reach(NodeAt(d, p), [s]) ==> Reach(d, p + [s])
    decreases |p|
  {
    if p == [] {
      assert p + [s] == [s];
      assert NodeAt(Child(d, s), [s][1..]) == Child(d, s);
    } else {
      assert (p + [s])[1..] == p[1..] + [s];
      ReachStep(Child(d, p[0]), p[1..], s);
    }
  }

  lemma {:induction false} ApartSiblings(d: Doc, p: Path, s: Segment, t: Segment)
    requires s != t && Exists(NodeAt(d, p), [s]) && Exists(NodeAt(d, p), [t])
    ensures Apart(d, p + [s], p + [t])
    decreases |p|
  {
    if p == [] {
      assert p + [s] == [s] && p + [t] == [t];
    } else {
      assert (p + [s])[1..] == p[1..] + [s] && (p + [t])[1..] == p[1..] + [t];
      ApartSiblings(Child(d, p[0]), p[1..], s, t);
    }
  }

  lemma {:induction false} ApartExtends(d: Doc, p: Path, q: Path, p': Path, q': Path)
    requires Apart(d, p, q) && p <= p' && q <= q'
    ensures Apart(d, p', q')
    decreases |p|
  {
    if p[0] == q[0] {
      ApartExtends(Child(d, p[0]), p[1..], q[1..], p'[1..], q'[1..]);
    }
  }

  lemma {:induction false} ApartDistinct(d: Doc, p: Path, q: Path)
    requires Apart(d, p, q)
    ensures p != q && !(p <= q) && !(q <= p) && Apart(d, q, p)
    decreases |p|
  {
    if p[0] == q[0] {
      var p', q' := p[1..], q[1..];
      ApartDistinct(Child(d, p[0]), p', q');
      assert p == [p[0]] + p' && q == [p[0]] + q';
    }
  }

  lemma JoinApart(root: Doc, a: seq<Selection>, b: seq<Selection>)
    requires AllApart(root, a) && AllApart(root, b)
    requires forall x, y | x in a && y in b :: Apart(root, x.path, y.path)
    ensures AllApart(root, a + b)
  {
  }

  lemma ChildSegmentsExist(d: Doc)
    ensures var segs := ChildSegments(d);
            && (forall i | 0 <= i < |segs| :: Exists(d, [segs[i]]) && Reach(d, [segs[i]]))
            && (forall i, j | 0 <= i < j < |segs| :: segs[i] != segs[j])
  {
    var segs := ChildSegments(d);
    if d.Obj? {
      SortedKeysDistinct(d.fields.Keys);
      forall i | 0 <= i < |segs| ensures Exists(d, [segs[i]]) && Reach(d, [segs[i]]) {
        assert segs[i] == Field(SortedKeys(d.fields.Keys)[i]);
        assert SortedKeys(d.fields.Keys)[i] in SortedKeys(d.fields.Keys);
      }
    }
  }

  /** Following a path keeps every selection apart from every other. */
  lemma {:induction false} ExpandSound(root: Doc, sel: Selection, path: Path)
    requires Selected(root, sel)
    ensures AllSelected(root, Expand(sel, path), |sel.path| + |path|)
    ensures AllBelow(Expand(sel, path), sel.path)
    ensures AllApart(root, Expand(sel, path))
    decreases |path|, 0
  {
    if path != [] {
      match path[0]
      case Field(_) =>
        if sel.value.Null? || sel.value.Obj? {
          ExpandInto(root, sel, path[0], path[1..]);
        }
      case Index(i) =>
        if sel.value.Null? {
          ExpandInto(root, sel, path[0], path[1..]);
        } else if sel.value.Arr? && Resolved(i, |sel.value.items|) >= 0 {
          ExpandInto(root, sel, Index(Resolved(i, |sel.value.items|)), path[1..]);
        }
      case Wildcard =>
        ChildSegmentsExist(sel.value);
        ExpandEachSound(root, sel, ChildSegments(sel.value), path[1..]);
    }
  }

  lemma {:induction false} ExpandInto(root: Doc, sel: Selection, s: Segment, path: Path)
    requires Selected(root, sel) && Reach(sel.value, [s])
    ensures AllSelected(root, Expand(Into(sel, s), path), |sel.path| + 1 + |path|)
    ensures AllBelow(Expand(Into(sel, s), path), sel.path + [s])
    ensures AllBelow(Expand(Into(sel, s), path), sel.path)
    ensures AllApart(root, Expand(Into(sel, s), path))
    decreases |path|, 1
  {
    ReachStep(root, sel.path, s);
    ExpandSound(root, Into(sel, s), path);
  }

  lemma {:induction false} ExpandEachSound(root: Doc, sel: Selection, segs: seq<Segment>, path: Path)
    requires Selected(root, sel)
    requires forall i | 0 <= i < |segs| :: Exists(sel.value, [segs[i]]) && Reach(sel.value, [segs[i]])
    requires forall i, j | 0 <= i < j < |segs| :: segs[i] != segs[j]
    ensures AllSelected(root, ExpandEach(sel, segs, path), |sel.path| + 1 + |path|)
    ensures AllBelow(ExpandEach(sel, segs, path), sel.path)
    ensures AllApart(root, ExpandEach(sel, segs, path))
    ensures forall x | x in ExpandEach(sel, segs, path) :: exists i | 0 <= i < |segs| :: sel.path + [segs[i]] <= x.path
    decreases |path|, 2, |segs|
  {
    if segs != [] {
      var n := |segs| - 1;
      var before, last := ExpandEach(sel, segs[..n], path), Expand(Into(sel, segs[n]), path);
      ExpandEachSound(root, sel, segs[..n], path);
      ExpandInto(root, sel, segs[n], path);
      forall x, y | x in before && y in last ensures Apart(root, x.path, y.path) {
        var i :| 0 <= i < |segs[..n]| && sel.path + [segs[..n][i]] <= x.path;
        ApartSiblings(root, sel.path, segs[i], segs[n]);
        ApartExtends(root, sel.path + [segs[i]], sel.path + [segs[n]], x.path, y.path);
      }
      JoinApart(root, before, last);
      forall x | x in before + last ensures exists i | 0 <= i < |segs| :: sel.path + [segs[i]] <= x.path {
        if x in before {
          var i :| 0 <= i < |segs[..n]| && sel.path + [segs[..n][i]] <= x.path;
          assert sel.path + [segs[i]] <= x.path;
        } else {
          assert sel.path + [segs[n]] <= x.path;
        }
      }
    }
  }

  lemma {:induction false} ExpandAllSound(root: Doc, sels: seq<Selection>, path: Path, length: nat)
    requires AllSelected(root, sels, length) && AllApart(root, sels)
    ensures AllSelected(root, ExpandAll(sels, path), length + |path|)
    ensures AllApart(root, ExpandAll(sels, path))
    ensures forall x | x in ExpandAll(sels, path) :: exists s | s in sels :: s.path <= x.path
    decreases |sels|
  {
    if sels != [] {
      var n := |sels| - 1;
      var before, last := ExpandAll(sels[..n], path), Expand(sels[n], path);
      assert sels[n] in sels;
      ExpandAllSound(root, sels[..n], path, length);
      ExpandSound(root, sels[n], path);
      forall x, y | x in before && y in last ensures Apart(root, x.path, y.path) {
        var s :| s in sels[..n] && s.path <= x.path;
        var i :| 0 <= i < n && sels[i] == s;
        ApartExtends(root, sels[i].path, sels[n].path, x.path, y.path);
      }
      JoinApart(root, before, last);
    }
  }

  lemma {:induction false} FilterSound(root: Doc, sels: seq<Selection>, condition: Condition, length: nat)
    requires AllSelected(root, sels, length) && AllApart(root, sels) && Filter(sels, condition).Ok?
    ensures AllSelected(root, Filter(sels, condition).value, length)
    ensures AllApart(root, Filter(sels, condition).value)
    ensures forall x | x in Filter(sels, condition).value :: x in sels
    decreases |sels|
  {
    if sels != [] {
      var n := |sels| - 1;
      assert sels[n] in sels;
      FilterSound(root, sels[..n], condition, length);
      var kept := Filter(sels[..n], condition).value;
      forall x | x in kept ensures Apart(root, x.path, sels[n].path) {
        var i :| 0 <= i < n && sels[i] == x;
      }
      JoinApart(root, kept, [sels[n]]);
    }
  }

  function PathLength(stages: seq<Stage>): nat {
    if stages == [] then 0
    else (if stages[0].Follow? then |stages[0].path| else 0) + PathLength(stages[1..])
  }

  lemma {:induction false} ResolveSound(root: Doc, sels: seq<Selection>, stages: seq<Stage>, length: nat)
    requires AllSelected(root, sels, length) && AllApart(root, sels) && Resolve(sels, stages).Ok?
    ensures AllSelected(root, Resolve(sels, stages).value, length + PathLength(stages))
    ensures AllApart(root, Resolve(sels, stages).value)
    decreases |stages|
  {
    if stages != [] {
      match stages[0]
      case Follow(path) =>
        ExpandAllSound(root, sels, path, length);
        ResolveSound(root, ExpandAll(sels, path), stages[1..], length + |path|);
      case Select(condition) =>
        FilterSound(root, sels, condition, length);
        ResolveSound(root, Filter(sels, condition).value, stages[1..], length);
    }
  }

  /**
   All paths resolved from one target have the target's length, hold the value
   they were resolved with, and no two are equal or a prefix of one another.
   */
  lemma ResolvedPathsDistinct(root: Doc, stages: seq<Stage>)
    requires Resolve([Selection(root, [])], stages).Ok?
    ensures var sels := Resolve([Selection(root, [])], stages).value;
            && (forall i | 0 <= i < |sels| :: |sels[i].path| == PathLength(stages) && sels[i].value == NodeAt(root, sels[i].path))
            && (forall i, j | 0 <= i < |sels| && 0 <= j < |sels| && i != j :: !(sels[i].path <= sels[j].path))
            && AllSelected(root, sels, PathLength(stages)) && AllApart(root, sels)
  {
    ResolveSound(root, [Selection(root, [])], stages, 0);
    var sels := Resolve([Selection(root, [])], stages).value;
    forall i | 0 <= i < |sels| ensures |sels[i].path| == PathLength(stages) && sels[i].value == NodeAt(root, sels[i].path) {
      assert sels[i] in sels;
    }
    forall i, j | 0 <= i < |sels| && 0 <= j < |sels| && i != j ensures !(sels[i].path <= sels[j].path) {
      if i < j {
        ApartDistinct(root, sels[i].path, sels[j].path);
      } else {
        ApartDistinct(root, sels[j].path, sels[i].path);
      }
    }
  }

  /** Selecting `[-k]` of an array of n items selects item n - k; past the front it selects nothing. */
  lemma NegativeIndexSelects(sel: Selection, k: int, p: Path)
    requires sel.value.Arr? && k >= 1
    ensures var n := |sel.value.items|;
            && (k <= n ==> Expand(sel, [Index(-k)] + p) == Expand(sel, [Index(n - k)] + p)
                           == Expand(Selection(sel.value.items[n - k], sel.path + [Index(n - k)]), p))
            && (k > n ==> Expand(sel, [Index(-k)] + p) == [])
  {
    var negative, positive := [Index(-k)] + p, [Index(|sel.value.items| - k)] + p;
    assert negative[0] == Index(-k) && negative[1..] == p;
    assert positive[0] == Index(|sel.value.items| - k) && positive[1..] == p;
  }
}
