/**
 Which nodes a conditional target selects, and in which order, said of the document and
 the target's stages alone.
 */
module OverrideSelect {
  import opened Wrappers
  import opened OverrideDoc
  import opened OverrideTarget

  // ---- the meaning ----

  /** At node d, segment s of a target leads to the child that c names; a missing child may be named. */
  predicate Leads(d: Doc, s: Segment, c: Segment) {
    match s
    case Field(_) => c == s && (d.Null? || d.Obj?)
    case Index(i) =>
      || (d.Null? && c == s)
      || (d.Arr? && c.Index? && c.index >= 0 && c.index == if i < 0 then i + |d.items| else i)
    case Wildcard =>
      || (d.Arr? && c.Index? && 0 <= c.index < |d.items|)
      || (d.Obj? && c.Field? && c.key in d.fields)
  }

  /** The concrete path c follows the segments of p from d. */
  predicate Traces(d: Doc, p: Path, c: Path)
    decreases |p|
  {
    |c| == |p| && (p == [] || (Leads(d, p[0], c[0]) && Traces(Child(d, c[0]), p[1..], c[1..])))
  }

  /** The condition gives d something other than null and false. */
  predicate Holds(condition: Condition, d: Doc) {
    condition(d).Ok? && exists v | v in condition(d).value :: v != Null && v != Scalar(Bool(false))
  }

  /** From d, the stages select the node at c. */
  predicate Chosen(d: Doc, stages: seq<Stage>, c: Path)
    decreases |stages|
  {
    if stages == [] then c == []
    else match stages[0]
      case Follow(p) =>
        |p| <= |c| && Traces(d, p, c[..|p|]) && Chosen(NodeAt(d, c[..|p|]), stages[1..], c[|p|..])
      case Select(condition) => Holds(condition, d) && Chosen(d, stages[1..], c)
  }

  /** From d, some condition fails on a node the stages before it select. */
  ghost predicate Breaks(d: Doc, stages: seq<Stage>)
    decreases |stages|
  {
    stages != [] &&
    match stages[0]
    case Follow(p) => exists c :: Traces(d, p, c) && Breaks(NodeAt(d, c), stages[1..])
    case Select(condition) => condition(d).Err? || (Holds(condition, d) && Breaks(d, stages[1..]))
  }

  /** p comes before q: at the first difference, a lower index or a lesser key. */
  predicate Earlier(p: Path, q: Path)
    decreases |p|
  {
    p != [] && q != [] &&
    if p[0] == q[0] then Earlier(p[1..], q[1..])
    else
      || (p[0].Index? && q[0].Index? && p[0].index < q[0].index)
      || (p[0].Field? && q[0].Field? && LessEq(p[0].key, q[0].key))
  }

  ghost predicate InOrder(sels: seq<Selection>) {
    forall i, j | 0 <= i < j < |sels| :: Earlier(sels[i].path, sels[j].path)
  }

  // ---- one path ----

  /** x lies where c leads from sel. */
  predicate Lies(sel: Selection, c: Path, x: Selection) {
    x == Selection(NodeAt(sel.value, c), sel.path + c)
  }

  ghost predicate Traced(sel: Selection, p: Path, x: Selection) {
    exists c :: Traces(sel.value, p, c) && Lies(sel, c, x)
  }

  lemma LiesInto(sel: Selection, s: Segment, c: Path, x: Selection)
    ensures Lies(Into(sel, s), c, x) <==> Lies(sel, [s] + c, x)
  {
    assert ([s] + c)[0] == s && ([s] + c)[1..] == c;
    assert sel.path + [s] + c == sel.path + ([s] + c);
  }

  /** Following p is taking one step that its first segment leads to, and following the rest. */
  lemma TracedStep(sel: Selection, p: Path, x: Selection)
    requires p != []
    ensures Traced(sel, p, x) <==> exists s :: Leads(sel.value, p[0], s) && Traced(Into(sel, s), p[1..], x)
  {
    if Traced(sel, p, x) {
      var c :| Traces(sel.value, p, c) && Lies(sel, c, x);
      assert c == [c[0]] + c[1..];
      LiesInto(sel, c[0], c[1..], x);
      assert Traced(Into(sel, c[0]), p[1..], x);
    }
    if s :| Leads(sel.value, p[0], s) && Traced(Into(sel, s), p[1..], x) {
      var c :| Traces(Child(sel.value, s), p[1..], c) && Lies(Into(sel, s), c, x);
      LiesInto(sel, s, c, x);
      assert ([s] + c)[0] == s && ([s] + c)[1..] == c;
      assert Traces(sel.value, p, [s] + c);
    }
  }

  lemma {:induction false} ExpandSelects(sel: Selection, p: Path)
    ensures forall x :: x in Expand(sel, p) <==> Traced(sel, p, x)
    decreases |p|, 0
  {
    if p == [] {
      forall x ensures x in Expand(sel, p) <==> Traced(sel, p, x) {
        assert sel.path + [] == sel.path;
        assert Traces(sel.value, p, []) && (Lies(sel, [], x) <==> x == sel);
      }
    } else if p[0].Wildcard? {
      ExpandEachSelects(sel, ChildSegments(sel.value), p[1..]);
      ChildrenLead(sel.value);
      forall x ensures x in Expand(sel, p) <==> Traced(sel, p, x) {
        TracedStep(sel, p, x);
      }
    } else {
      OneLeads(sel, p);
      forall x ensures x in Expand(sel, p) <==> Traced(sel, p, x) {
        TracedStep(sel, p, x);
        forall s | Leads(sel.value, p[0], s) ensures x in Expand(Into(sel, s), p[1..]) <==> Traced(Into(sel, s), p[1..], x) {
          ExpandSelects(Into(sel, s), p[1..]);
        }
      }
    }
  }

  lemma {:induction false} ExpandEachSelects(sel: Selection, segs: seq<Segment>, p: Path)
    ensures forall x :: x in ExpandEach(sel, segs, p) <==> exists s | s in segs :: Traced(Into(sel, s), p, x)
    decreases |p|, 1, |segs|
  {
    if segs != [] {
      var n := |segs| - 1;
      ExpandEachSelects(sel, segs[..n], p);
      ExpandSelects(Into(sel, segs[n]), p);
      assert segs == segs[..n] + [segs[n]];
    }
  }

  lemma ChildrenLead(d: Doc)
    ensures forall s :: s in ChildSegments(d) <==> Leads(d, Wildcard, s)
  {
    var segs := ChildSegments(d);
    forall s ensures s in segs <==> Leads(d, Wildcard, s) {
      if d.Arr? && Leads(d, Wildcard, s) {
        assert segs[s.index] == s;
      } else if d.Obj? && Leads(d, Wildcard, s) {
        var keys := SortedKeys(d.fields.Keys);
        var i :| 0 <= i < |keys| && keys[i] == s.key;
        assert segs[i] == s;
      }
    }
  }

  /** A field or an index leads to one child at most, and Expand goes there. */
  lemma OneLeads(sel: Selection, p: Path)
    requires p != [] && !p[0].Wildcard?
    ensures (exists s :: Leads(sel.value, p[0], s) && Expand(sel, p) == Expand(Into(sel, s), p[1..])) || Expand(sel, p) == []
    ensures Expand(sel, p) == [] || exists s :: Leads(sel.value, p[0], s)
    ensures forall s, t | Leads(sel.value, p[0], s) && Leads(sel.value, p[0], t) :: s == t
    ensures forall s | Leads(sel.value, p[0], s) :: Expand(sel, p) == Expand(Into(sel, s), p[1..])
  {
    if p[0].Index? && sel.value.Arr? {
      var index := Resolved(p[0].index, |sel.value.items|);
      assert index >= 0 ==> Leads(sel.value, p[0], Index(index));
    } else if sel.value.Null? || sel.value.Obj? {
      assert Leads(sel.value, p[0], p[0]) || Expand(sel, p) == [];
    }
  }

  // ---- all stages ----

  ghost predicate Picked(sel: Selection, stages: seq<Stage>, x: Selection) {
    exists c :: Chosen(sel.value, stages, c) && Lies(sel, c, x)
  }

  lemma {:induction false} NodeAtAppend(d: Doc, a: Path, b: Path)
    ensures NodeAt(d, a + b) == NodeAt(NodeAt(d, a), b)
    decreases |a|
  {
    if a == [] {
      assert a + b == b;
    } else {
      assert (a + b)[0] == a[0] && (a + b)[1..] == a[1..] + b;
      NodeAtAppend(Child(d, a[0]), a[1..], b);
    }
  }

  lemma LiesTwice(sel: Selection, a: Path, b: Path, y: Selection, x: Selection)
    requires Lies(sel, a, y)
    ensures Lies(y, b, x) <==> Lies(sel, a + b, x)
  {
    NodeAtAppend(sel.value, a, b);
    assert sel.path + a + b == sel.path + (a + b);
  }

  lemma PickedFollow(sel: Selection, stages: seq<Stage>, x: Selection)
    requires stages != [] && stages[0].Follow?
    ensures Picked(sel, stages, x) <==> exists y :: Traced(sel, stages[0].path, y) && Picked(y, stages[1..], x)
  {
    var p := stages[0].path;
    if Picked(sel, stages, x) {
      var c :| Chosen(sel.value, stages, c) && Lies(sel, c, x);
      var a, b := c[..|p|], c[|p|..];
      var y := Selection(NodeAt(sel.value, a), sel.path + a);
      assert c == a + b && Lies(sel, a, y);
      LiesTwice(sel, a, b, y, x);
      assert Traced(sel, p, y) && Picked(y, stages[1..], x);
    }
    if y :| Traced(sel, p, y) && Picked(y, stages[1..], x) {
      var a :| Traces(sel.value, p, a) && Lies(sel, a, y);
      var b :| Chosen(y.value, stages[1..], b) && Lies(y, b, x);
      LiesTwice(sel, a, b, y, x);
      assert (a + b)[..|p|] == a && (a + b)[|p|..] == b;
      assert Chosen(sel.value, stages, a + b);
    }
  }

  lemma PickedSelect(sel: Selection, stages: seq<Stage>, x: Selection)
    requires stages != [] && stages[0].Select?
    ensures Picked(sel, stages, x) <==> Holds(stages[0].condition, sel.value) && Picked(sel, stages[1..], x)
  {
    forall c ensures Chosen(sel.value, stages, c) <==> Holds(stages[0].condition, sel.value) && Chosen(sel.value, stages[1..], c) {
    }
  }

  lemma {:induction false} ExpandAllSelects(sels: seq<Selection>, p: Path)
    ensures forall x :: x in ExpandAll(sels, p) <==> exists s | s in sels :: Traced(s, p, x)
    decreases |sels|
  {
    if sels != [] {
      var n := |sels| - 1;
      ExpandAllSelects(sels[..n], p);
      ExpandSelects(sels[n], p);
      assert sels == sels[..n] + [sels[n]];
    }
  }

  lemma {:induction false} FilterSelects(sels: seq<Selection>, condition: Condition)
    ensures Filter(sels, condition).Err? <==> exists s | s in sels :: condition(s.value).Err?
    ensures Filter(sels, condition).Ok? ==>
              forall x :: x in Filter(sels, condition).value <==> x in sels && Holds(condition, x.value)
    decreases |sels|
  {
    if sels != [] {
      var n := |sels| - 1;
      FilterSelects(sels[..n], condition);
      assert sels == sels[..n] + [sels[n]];
    }
  }

  lemma {:induction false} ResolveSelects(sels: seq<Selection>, stages: seq<Stage>)
    requires Resolve(sels, stages).Ok?
    ensures forall x :: x in Resolve(sels, stages).value <==> exists s | s in sels :: Picked(s, stages, x)
    decreases |stages|
  {
    if stages == [] {
      forall s: Selection, x ensures Picked(s, stages, x) <==> x == s {
        assert s.path + [] == s.path;
        assert Chosen(s.value, stages, []) && (Lies(s, [], x) <==> x == s);
      }
    } else {
      match stages[0]
      case Follow(p) =>
        var next := ExpandAll(sels, p);
        ExpandAllSelects(sels, p);
        ResolveSelects(next, stages[1..]);
        forall x ensures x in Resolve(sels, stages).value <==> exists s | s in sels :: Picked(s, stages, x) {
          forall s | s in sels ensures Picked(s, stages, x) <==> exists y :: Traced(s, p, y) && Picked(y, stages[1..], x) {
            PickedFollow(s, stages, x);
          }
        }
      case Select(condition) =>
        FilterSelects(sels, condition);
        ResolveSelects(Filter(sels, condition).value, stages[1..]);
        forall x ensures x in Resolve(sels, stages).value <==> exists s | s in sels :: Picked(s, stages, x) {
          forall s | s in sels ensures Picked(s, stages, x) <==> Holds(condition, s.value) && Picked(s, stages[1..], x) {
            PickedSelect(s, stages, x);
          }
        }
    }
  }

  lemma {:induction false} ResolveFails(sels: seq<Selection>, stages: seq<Stage>)
    ensures Resolve(sels, stages).Err? <==> exists s | s in sels :: Breaks(s.value, stages)
    decreases |stages|
  {
    if stages != [] {
      match stages[0]
      case Follow(p) =>
        ExpandAllSelects(sels, p);
        ResolveFails(ExpandAll(sels, p), stages[1..]);
        forall s | s in sels ensures Breaks(s.value, stages) <==> exists y :: Traced(s, p, y) && Breaks(y.value, stages[1..]) {
          BreaksFollow(s, stages);
        }
      case Select(condition) =>
        FilterSelects(sels, condition);
        if Filter(sels, condition).Ok? {
          ResolveFails(Filter(sels, condition).value, stages[1..]);
        }
    }
  }

  lemma BreaksFollow(sel: Selection, stages: seq<Stage>)
    requires stages != [] && stages[0].Follow?
    ensures Breaks(sel.value, stages) <==> exists y :: Traced(sel, stages[0].path, y) && Breaks(y.value, stages[1..])
  {
    var p := stages[0].path;
    if Breaks(sel.value, stages) {
      var c :| Traces(sel.value, p, c) && Breaks(NodeAt(sel.value, c), stages[1..]);
      var y := Selection(NodeAt(sel.value, c), sel.path + c);
      assert Lies(sel, c, y) && Traced(sel, p, y);
    }
  }

  // ---- order ----

  lemma {:induction false} EarlierExtends(p: Path, q: Path, a: Path, b: Path)
    requires Earlier(p, q)
    ensures Earlier(p + a, q + b)
    decreases |p|
  {
    assert (p + a)[0] == p[0] && (q + b)[0] == q[0];
    if p[0] == q[0] {
      EarlierExtends(p[1..], q[1..], a, b);
      assert (p + a)[1..] == p[1..] + a && (q + b)[1..] == q[1..] + b;
    }
  }

  lemma {:induction false} EarlierBelow(p: Path, a: Path, b: Path)
    requires Earlier(a, b)
    ensures Earlier(p + a, p + b)
    decreases |p|
  {
    if p == [] {
      assert p + a == a && p + b == b;
    } else {
      EarlierBelow(p[1..], a, b);
      assert (p + a)[1..] == p[1..] + a && (p + b)[1..] == p[1..] + b;
    }
  }

  ghost predicate AllUnder(sels: seq<Selection>, p: Path) {
    forall x | x in sels :: p <= x.path
  }

  lemma OrderedAppend(a: seq<Selection>, b: seq<Selection>)
    requires InOrder(a) && InOrder(b) && forall x, y | x in a && y in b :: Earlier(x.path, y.path)
    ensures InOrder(a + b)
  {
  }

  lemma UnderEarlier(x: Selection, y: Selection, p: Path, q: Path)
    requires p <= x.path && q <= y.path && Earlier(p, q)
    ensures Earlier(x.path, y.path)
  {
    EarlierExtends(p, q, x.path[|p|..], y.path[|q|..]);
    assert x.path == p + x.path[|p|..] && y.path == q + y.path[|q|..];
  }

  lemma TracedUnder(sel: Selection, p: Path)
    ensures AllUnder(Expand(sel, p), sel.path)
  {
    ExpandSelects(sel, p);
  }

  lemma SegmentsInOrder(d: Doc)
    ensures var segs := ChildSegments(d); forall i, j | 0 <= i < j < |segs| :: Earlier([segs[i]], [segs[j]])
  {
    if d.Obj? {
      SortedKeysDistinct(d.fields.Keys);
    }
  }

  lemma {:induction false} ExpandInOrder(sel: Selection, p: Path)
    ensures InOrder(Expand(sel, p))
    decreases |p|, 0
  {
    if p != [] {
      if p[0].Wildcard? {
        SegmentsInOrder(sel.value);
        ExpandEachInOrder(sel, ChildSegments(sel.value), p[1..]);
      } else {
        OneLeads(sel, p);
        if s :| Leads(sel.value, p[0], s) && Expand(sel, p) == Expand(Into(sel, s), p[1..]) {
          ExpandInOrder(Into(sel, s), p[1..]);
        }
      }
    }
  }

  lemma {:induction false} ExpandEachInOrder(sel: Selection, segs: seq<Segment>, p: Path)
    requires forall i, j | 0 <= i < j < |segs| :: Earlier([segs[i]], [segs[j]])
    ensures InOrder(ExpandEach(sel, segs, p))
    decreases |p|, 1, |segs|
  {
    if segs != [] {
      var n := |segs| - 1;
      var a, b := ExpandEach(sel, segs[..n], p), Expand(Into(sel, segs[n]), p);
      ExpandEachInOrder(sel, segs[..n], p);
      ExpandInOrder(Into(sel, segs[n]), p);
      ExpandEachSelects(sel, segs[..n], p);
      TracedUnder(Into(sel, segs[n]), p);
      forall x, y | x in a && y in b ensures Earlier(x.path, y.path) {
        var s :| s in segs[..n] && Traced(Into(sel, s), p, x);
        var i :| 0 <= i < n && segs[i] == s;
        EarlierBelow(sel.path, [segs[i]], [segs[n]]);
        UnderEarlier(x, y, sel.path + [s], sel.path + [segs[n]]);
      }
      OrderedAppend(a, b);
    }
  }

  lemma {:induction false} ExpandAllInOrder(sels: seq<Selection>, p: Path)
    requires InOrder(sels)
    ensures InOrder(ExpandAll(sels, p))
    decreases |sels|
  {
    if sels != [] {
      var n := |sels| - 1;
      var a, b := ExpandAll(sels[..n], p), Expand(sels[n], p);
      ExpandAllInOrder(sels[..n], p);
      ExpandInOrder(sels[n], p);
      ExpandAllSelects(sels[..n], p);
      TracedUnder(sels[n], p);
      forall x, y | x in a && y in b ensures Earlier(x.path, y.path) {
        var s :| s in sels[..n] && Traced(s, p, x);
        var i :| 0 <= i < n && sels[i] == s;
        UnderEarlier(x, y, s.path, sels[n].path);
      }
      OrderedAppend(a, b);
    }
  }

  lemma {:induction false} FilterInOrder(sels: seq<Selection>, condition: Condition)
    requires InOrder(sels) && Filter(sels, condition).Ok?
    ensures InOrder(Filter(sels, condition).value)
    decreases |sels|
  {
    if sels != [] {
      var n := |sels| - 1;
      FilterInOrder(sels[..n], condition);
      FilterSelects(sels[..n], condition);
      var kept := Filter(sels[..n], condition).value;
      forall x | x in kept ensures Earlier(x.path, sels[n].path) {
        var i :| 0 <= i < n && sels[i] == x;
      }
      OrderedAppend(kept, [sels[n]]);
    }
  }

  lemma {:induction false} ResolveInOrder(sels: seq<Selection>, stages: seq<Stage>)
    requires InOrder(sels) && Resolve(sels, stages).Ok?
    ensures InOrder(Resolve(sels, stages).value)
    decreases |stages|
  {
    if stages != [] {
      match stages[0]
      case Follow(p) =>
        ExpandAllInOrder(sels, p);
        ResolveInOrder(ExpandAll(sels, p), stages[1..]);
      case Select(condition) =>
        FilterInOrder(sels, condition);
        ResolveInOrder(Filter(sels, condition).value, stages[1..]);
    }
  }

  /**
   A target fails exactly when one of its conditions fails on a node the stages before it
   select.  Otherwise it selects exactly the paths that take one concrete piece per path stage
   and meet every condition where it stands, each with the node it names, in document order.
   */
  lemma TargetSelectsExactly(root: Doc, stages: seq<Stage>)
    ensures Resolve([Selection(root, [])], stages).Err? <==> Breaks(root, stages)
    ensures Resolve([Selection(root, [])], stages).Ok? ==>
              var sels := Resolve([Selection(root, [])], stages).value;
              && (forall x :: x in sels <==> Chosen(root, stages, x.path) && x.value == NodeAt(root, x.path))
              && InOrder(sels)
  {
    var start := [Selection(root, [])];
    ResolveFails(start, stages);
    assert start[0] in start;
    if Resolve(start, stages).Ok? {
      ResolveSelects(start, stages);
      ResolveInOrder(start, stages);
      forall x ensures Picked(start[0], stages, x) <==> Chosen(root, stages, x.path) && x.value == NodeAt(root, x.path) {
        forall c ensures Lies(start[0], c, x) <==> c == x.path && x.value == NodeAt(root, c) {
          assert [] + c == c;
        }
      }
    }
  }
}
