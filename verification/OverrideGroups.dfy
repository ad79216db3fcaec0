/**
 Groups in a pipeline: a group is a pipeline in parentheses used as one stage of another
 pipeline.  When opening one keeps the order of the results, and one that does not.
 */
module OverrideGroups {
  import opened Wrappers
  import opened OverrideDoc
  import opened OverrideStream

  // ---- groups that keep the order ----

  /** A group at the head of a pipeline may be opened, whatever it holds. */
  lemma LeadingGroupOpens(a: seq<Expr>, b: seq<Expr>, x: Doc)
    ensures EvalAll(Pipeline([Pipeline(a)] + b), x) == EvalAll(Pipeline(a + b), x)
  {
    var g := Pipeline(a);
    assert ([g] + b)[0] == g && ([g] + b)[1..] == b;
    InputsOne(g, x);
    RunSequence(a, b, [x]);
  }

  predicate NoUnionStage(stages: seq<Expr>) {
    forall i | 0 <= i < |stages| :: !stages[i].Union?
  }

  lemma {:induction false} RunSplits(g: seq<Expr>, xs: seq<Doc>, ys: seq<Doc>)
    requires NoUnionStage(g)
    ensures Run(g, xs + ys) == Join(Run(g, xs), Run(g, ys))
    decreases |g|
  {
    if g != [] {
      EachAppend(g[0], xs, ys);
      var a, b := EvalInputs(g[0], xs), EvalInputs(g[0], ys);
      if a.Ok? && b.Ok? {
        RunSplits(g[1..], a.value, b.value);
      }
    }
  }

  lemma {:induction false} GroupOpens(g: seq<Expr>, xs: seq<Doc>)
    requires NoUnionStage(g)
    ensures Each(Pipeline(g), xs) == Run(g, xs)
    decreases |xs|
  {
    if xs == [] {
      RunNothing(g);
    } else {
      var n := |xs| - 1;
      assert xs == xs[..n] + [xs[n]];
      GroupOpens(g, xs[..n]);
      RunSplits(g, xs[..n], [xs[n]]);
    }
  }

  /** Opening a group keeps the sequence if the group comes first or none of its stages is a union. */
  lemma OpeningKeepsOrder(pre: seq<Expr>, g: seq<Expr>, rest: seq<Expr>, x: Doc)
    requires pre == [] || NoUnionStage(g)
    ensures EvalAll(Pipeline(pre + [Pipeline(g)] + rest), x) == EvalAll(Pipeline(pre + g + rest), x)
  {
    GroupedRun(pre, g, rest, x);
    if pre == [] {
      InputsOne(Pipeline(g), x);
    } else if Run(pre, [x]).Ok? {
      GroupOpens(g, Run(pre, [x]).value);
    }
  }

  function After(s: Stream, stages: seq<Expr>): Stream {
    match s
    case Err => Err
    case Ok(ys) => Run(stages, ys)
  }

  /** Both groupings in terms of what the prefix gives. */
  lemma GroupedRun(pre: seq<Expr>, g: seq<Expr>, rest: seq<Expr>, x: Doc)
    ensures EvalAll(Pipeline(pre + [Pipeline(g)] + rest), x) ==
            match Run(pre, [x])
            case Err => Err
            case Ok(ys) => After(Each(Pipeline(g), ys), rest)
    ensures EvalAll(Pipeline(pre + g + rest), x) ==
            match Run(pre, [x])
            case Err => Err
            case Ok(ys) => After(Run(g, ys), rest)
  {
    var e := [Pipeline(g)];
    RunSequence(pre + e, rest, [x]);
    RunSequence(pre, e, [x]);
    RunSequence(pre + g, rest, [x]);
    RunSequence(pre, g, [x]);
    if Run(pre, [x]).Ok? {
      assert e[1..] == [];
      assert Run(e, Run(pre, [x]).value) == Each(Pipeline(g), Run(pre, [x]).value);
    }
  }

  /** What the parser builds: a pipeline has at least two stages, a union at least two branches. */
  predicate Parsed(e: Expr)
    decreases e, 0
  {
    match e
    case Leaf(_) => true
    case Pipeline(stages) => |stages| >= 2 && AllParsed(stages)
    case Union(values) => |values| >= 2 && AllParsed(values)
  }

  predicate AllParsed(es: seq<Expr>)
    decreases es, 0
  {
    es == [] || (Parsed(es[0]) && AllParsed(es[1..]))
  }

  // ---- nested groups ----

  /** No stage, and no stage of a group however deep, is a union. */
  predicate UnionFree(stages: seq<Expr>)
    decreases stages
  {
    stages == [] || (!stages[0].Union? && (stages[0].Pipeline? ==> UnionFree(stages[0].stages)) && UnionFree(stages[1..]))
  }

  /** Every group holds no union. */
  predicate PlainGroups(stages: seq<Expr>)
    decreases stages
  {
    stages == [] || ((stages[0].Pipeline? ==> UnionFree(stages[0].stages)) && PlainGroups(stages[1..]))
  }

  /** Every group that does not come first, at its own level, holds no union. */
  predicate OnlyHeadGroups(stages: seq<Expr>)
    decreases stages
  {
    stages == [] || ((stages[0].Pipeline? ==> OnlyHeadGroups(stages[0].stages)) && PlainGroups(stages[1..]))
  }

  lemma {:induction false} UnionFreeFlat(stages: seq<Expr>)
    ensures UnionFree(stages) <==> NoUnionStage(Flat(stages))
    ensures UnionFree(stages) ==> NoUnionStage(stages) && PlainGroups(stages)
    decreases stages
  {
    if stages != [] {
      var head := if stages[0].Pipeline? then Flat(stages[0].stages) else [stages[0]];
      if stages[0].Pipeline? {
        UnionFreeFlat(stages[0].stages);
      }
      UnionFreeFlat(stages[1..]);
      NoUnionAppend(head, Flat(stages[1..]));
      NoUnionAppend([stages[0]], stages[1..]);
      assert stages == [stages[0]] + stages[1..];
    }
  }

  lemma NoUnionAppend(a: seq<Expr>, b: seq<Expr>)
    ensures NoUnionStage(a + b) <==> NoUnionStage(a) && NoUnionStage(b)
  {
    assert forall i | 0 <= i < |a| :: (a + b)[i] == a[i];
    assert forall i | 0 <= i < |b| :: (a + b)[|a| + i] == b[i];
  }

  lemma {:induction false} PlainGroupsOpen(stages: seq<Expr>, xs: seq<Doc>)
    requires PlainGroups(stages)
    ensures Run(stages, xs) == Run(Flat(stages), xs)
    decreases stages
  {
    if stages != [] {
      var s, rest := stages[0], stages[1..];
      if s.Pipeline? {
        UnionFreeFlat(s.stages);
        GroupOpens(s.stages, xs);
        PlainGroupsOpen(s.stages, xs);
        RunSequence(Flat(s.stages), Flat(rest), xs);
      } else {
        RunSequence([s], Flat(rest), xs);
        assert [s][1..] == [];
      }
      if EvalInputs(s, xs).Ok? {
        PlainGroupsOpen(rest, EvalInputs(s, xs).value);
      }
    }
  }

  lemma {:induction false} HeadGroupsOpen(stages: seq<Expr>, x: Doc)
    requires OnlyHeadGroups(stages)
    ensures Run(stages, [x]) == Run(Flat(stages), [x])
    decreases stages
  {
    if stages != [] {
      var s, rest := stages[0], stages[1..];
      if s.Pipeline? {
        HeadGroupsOpen(s.stages, x);
        RunSequence(Flat(s.stages), Flat(rest), [x]);
        InputsOne(s, x);
      } else {
        RunSequence([s], Flat(rest), [x]);
        assert [s][1..] == [];
      }
      if EvalInputs(s, [x]).Ok? {
        PlainGroupsOpen(rest, EvalInputs(s, [x]).value);
      }
    }
  }

  /**
   Two groupings of the same stages fail together and give the same results, order
   aside; they give the same sequence if in both of them only head groups hold unions.
   */
  lemma RegroupingIrrelevant(stages: seq<Expr>, other: seq<Expr>, x: Doc)
    requires Flat(stages) == Flat(other)
    ensures Same(EvalAll(Pipeline(stages), x), EvalAll(Pipeline(other), x))
    ensures OnlyHeadGroups(stages) && OnlyHeadGroups(other) ==>
              EvalAll(Pipeline(stages), x) == EvalAll(Pipeline(other), x)
  {
    FlatSame(stages, [x]);
    FlatSame(other, [x]);
    if OnlyHeadGroups(stages) && OnlyHeadGroups(other) {
      HeadGroupsOpen(stages, x);
      HeadGroupsOpen(other, x);
    }
  }

  // ---- one batch, two branches ----

  lemma BranchPair(v: Expr, w: Expr, xs: seq<Doc>)
    ensures EvalInputs(Union([v, w]), xs) == Join(EvalInputs(v, xs), EvalInputs(w, xs))
  {
    assert [v, w][1..] == [w] && [w][1..] == [];
    JoinUnit(EvalInputs(w, xs));
    assert EvalBranches([w], xs) == Join(EvalInputs(w, xs), EvalBranches([], xs));
    assert EvalBranches([v, w], xs) == Join(EvalInputs(v, xs), EvalBranches([w], xs));
  }

  /**
   For given leaves and inputs: a union over two batches at once gives what it gives
   batch by batch exactly when the second batch's results of the first branch commute with
   the first batch's results of the second.
   */
  lemma UnionSplitsExactly(v: Expr, w: Expr, xs: seq<Doc>, ys: seq<Doc>)
    requires !v.Union? && !w.Union? && EvalInputs(Union([v, w]), xs + ys).Ok?
    ensures Each(v, ys).Ok? && Each(w, xs).Ok?
    ensures EvalInputs(Union([v, w]), xs + ys) == Join(EvalInputs(Union([v, w]), xs), EvalInputs(Union([v, w]), ys)) <==>
              Each(v, ys).value + Each(w, xs).value == Each(w, xs).value + Each(v, ys).value
  {
    BranchPair(v, w, xs + ys);
    BranchPair(v, w, xs);
    BranchPair(v, w, ys);
    EachAppend(v, xs, ys);
    EachAppend(w, xs, ys);
    MiddleCommutes(Each(v, xs).value, Each(v, ys).value, Each(w, xs).value, Each(w, ys).value);
  }

  lemma MiddleCommutes(a: seq<Doc>, b: seq<Doc>, c: seq<Doc>, d: seq<Doc>)
    ensures (a + b) + (c + d) == (a + c) + (b + d) <==> b + c == c + b
  {
    assert ((a + b) + (c + d))[|a|..|a| + |b| + |c|] == b + c;
    assert ((a + c) + (b + d))[|a|..|a| + |b| + |c|] == c + b;
    assert (a + b) + (c + d) == a + (b + c) + d && (a + c) + (b + d) == a + (c + b) + d;
  }

  // ---- a pipeline that shows it ----

  const ZERO := Scalar(Number(0))
  const ONE := Scalar(Number(1))

  function Zero(d: Doc): Stream { Ok([ZERO]) }
  function One(d: Doc): Stream { Ok([ONE]) }
  function Self(d: Doc): Stream { Ok([d]) }
  function Items(d: Doc): Stream { Ok(Lookup(d, [Wildcard])) }

  lemma EachTwo(e: Expr, a: Doc, b: Doc)
    ensures Each(e, [a, b]) == Join(EvalAll(e, a), EvalAll(e, b))
  {
    assert [a, b] == [a] + [b];
    EachAppend(e, [a], [b]);
    assert [a][..0] == [] && [b][..0] == [];
    JoinUnit(EvalAll(e, a));
    JoinUnit(EvalAll(e, b));
  }

  lemma EachSnoc(e: Expr, xs: seq<Doc>, x: Doc)
    ensures Each(e, xs + [x]) == Join(Each(e, xs), EvalAll(e, x))
  {
    assert (xs + [x])[..|xs|] == xs;
  }

  lemma SelfIs(x: Doc)
    ensures EvalAll(Leaf(Self), x) == Ok([x])
  {
  }

  ghost predicate GivesItself(e: Expr) {
    forall x :: EvalAll(e, x) == Ok([x])
  }

  lemma {:induction false} EachKeeps(e: Expr, xs: seq<Doc>)
    requires GivesItself(e)
    ensures Each(e, xs) == Ok(xs)
    decreases |xs|
  {
    if xs != [] {
      var front, last := xs[..|xs| - 1], xs[|xs| - 1];
      EachKeeps(e, front);
      EachSnoc(e, front, last);
      assert front + [last] == xs;
    }
  }

  lemma TwoItems(a: Doc, b: Doc)
    ensures Items(Arr([a, b])) == Ok([a, b])
  {
    assert [a, b][1..] == [b] && [b][1..] == [] && [Wildcard][1..] == [];
    assert LookupEach([b], []) == Lookup(b, []) + LookupEach([], []) == [b];
    assert LookupEach([a, b], []) == Lookup(a, []) + LookupEach([b], []) == [a, b];
    assert Children(Arr([a, b])) == [a, b];
  }

  /** `(0, 1) | .` over a whole batch. */
  lemma BothThenSelf(xs: seq<Doc>, zeros: seq<Doc>, ones: seq<Doc>)
    requires Each(Leaf(Zero), xs) == Ok(zeros) && Each(Leaf(One), xs) == Ok(ones)
    ensures Run([Union([Leaf(Zero), Leaf(One)]), Leaf(Self)], xs) == Ok(zeros + ones)
  {
    var both, self := Union([Leaf(Zero), Leaf(One)]), Leaf(Self);
    assert [both, self][1..] == [self] && [self][1..] == [];
    BranchPair(Leaf(Zero), Leaf(One), xs);
    forall x ensures EvalAll(self, x) == Ok([x]) {
      SelfIs(x);
    }
    EachKeeps(self, zeros + ones);
    assert Run([self], zeros + ones) == Ok(zeros + ones);
  }

  /** `.[] | (0, 1) | .` against `.[] | ((0, 1) | .)` on an array of two items. */
  lemma GroupingOrdersUnions(a: Doc, b: Doc)
    ensures var g := [Union([Leaf(Zero), Leaf(One)]), Leaf(Self)];
            && Parsed(Pipeline([Leaf(Items)] + g + [])) && Parsed(Pipeline([Leaf(Items)] + [Pipeline(g)] + []))
            && EvalAll(Pipeline([Leaf(Items)] + g + []), Arr([a, b])) == Ok([ZERO, ZERO, ONE, ONE])
            && EvalAll(Pipeline([Leaf(Items)] + [Pipeline(g)] + []), Arr([a, b])) == Ok([ZERO, ONE, ZERO, ONE])
  {
    var items, both, self := Leaf(Items), Union([Leaf(Zero), Leaf(One)]), Leaf(Self);
    var g := [both, self];
    WitnessParsed(items, both, self);
    GroupedRun([items], g, [], Arr([a, b]));
    TwoItems(a, b);
    InputsOne(items, Arr([a, b]));
    assert [items][1..] == [];
    assert Run([items], [Arr([a, b])]) == Ok([a, b]);
    EachTwo(Leaf(Zero), a, b);
    EachTwo(Leaf(One), a, b);
    assert [ZERO] + [ZERO] == [ZERO, ZERO] && [ONE] + [ONE] == [ONE, ONE];
    BothThenSelf([a, b], [ZERO, ZERO], [ONE, ONE]);
    assert [ZERO, ZERO] + [ONE, ONE] == [ZERO, ZERO, ONE, ONE] && [ZERO, ONE] + [ZERO, ONE] == [ZERO, ONE, ZERO, ONE];
    EachTwo(Pipeline(g), a, b);
    OneOfEach(a);
    OneOfEach(b);
  }

  lemma OneOfEach(a: Doc)
    ensures EvalAll(Pipeline([Union([Leaf(Zero), Leaf(One)]), Leaf(Self)]), a) == Ok([ZERO, ONE])
  {
    InputsOne(Leaf(Zero), a);
    InputsOne(Leaf(One), a);
    BothThenSelf([a], [ZERO], [ONE]);
    assert [ZERO] + [ONE] == [ZERO, ONE];
  }

  lemma WitnessParsed(items: Expr, both: Expr, self: Expr)
    requires items.Leaf? && self.Leaf? && both.Union? && |both.values| == 2 && both.values[0].Leaf? && both.values[1].Leaf?
    ensures var g := [both, self];
            Parsed(Pipeline([items] + g + [])) && Parsed(Pipeline([items] + [Pipeline(g)] + []))
  {
    var g := [both, self];
    ParsedTwo(both.values[0], both.values[1]);
    assert both.values == [both.values[0], both.values[1]];
    ParsedTwo(both, self);
    ParsedTwo(items, Pipeline(g));
    assert [items] + g + [] == [items] + g && ([items] + g)[1..] == g;
    assert [items] + [Pipeline(g)] + [] == [items, Pipeline(g)];
    assert AllParsed([items] + g);
  }

  lemma ParsedTwo(v: Expr, w: Expr)
    requires Parsed(v) && Parsed(w)
    ensures AllParsed([v, w]) && Parsed(Pipeline([v, w])) && Parsed(Union([v, w]))
  {
    assert [v, w][1..] == [w] && [w][1..] == [];
    assert AllParsed([]) && AllParsed([w]) && AllParsed([v, w]);
  }
}
