/**
 Stream evaluation of pipelines and unions.  A pipeline stage sees the whole
 batch of results of the stage before it; a union runs each branch over the
 whole batch, every other expression runs once per input.  Expressions that are
 neither are arbitrary functions from one input to a stream.
 */
module OverrideStream {
  import opened Wrappers
  import opened OverrideDoc

  type Stream = Result<seq<Doc>>

  datatype Expr = Leaf(f: Doc -> Stream) | Pipeline(stages: seq<Expr>) | Union(values: seq<Expr>)

  function Join(a: Stream, b: Stream): Stream {
    if a.Err? || b.Err? then Err else Ok(a.value + b.value)
  }

  function EvalAll(e: Expr, x: Doc): Stream
    decreases e, 0
  {
    match e
    case Leaf(f) => f(x)
    case Pipeline(stages) => Run(stages, [x])
    case Union(values) => EvalBranches(values, [x])
  }

  function EvalInputs(e: Expr, xs: seq<Doc>): Stream
    decreases e, 2
  {
    if e.Union? then EvalBranches(e.values, xs) else Each(e, xs)
  }

  /** The per-input results one after the other. */
  function Each(e: Expr, xs: seq<Doc>): Stream
    decreases e, 1, |xs|
  {
    if xs == [] then Ok([]) else Join(Each(e, xs[..|xs| - 1]), EvalAll(e, xs[|xs| - 1]))
  }

  function Run(stages: seq<Expr>, xs: seq<Doc>): Stream
    decreases stages, 0
  {
    if stages == [] then Ok(xs)
    else match EvalInputs(stages[0], xs)
      case Err => Err
      case Ok(ys) => Run(stages[1..], ys)
  }

  function EvalBranches(values: seq<Expr>, xs: seq<Doc>): Stream
    decreases values, 0
  {
    if values == [] then Ok([]) else Join(EvalInputs(values[0], xs), EvalBranches(values[1..], xs))
  }

  lemma JoinUnit(a: Stream)
    ensures Join(a, Ok([])) == a && Join(Ok([]), a) == a
  {
    if a.Ok? {
      assert a.value + [] == a.value && [] + a.value == a.value;
    }
  }

  // ---- the program ----

  lemma {:induction false} EachFails(e: Expr, xs: seq<Doc>, n: nat)
    requires n <= |xs| && Each(e, xs[..n]).Err?
    ensures Each(e, xs).Err?
    decreases |xs|
  {
    if n == |xs| {
      assert xs[..n] == xs;
    } else {
      assert xs[..|xs| - 1][..n] == xs[..n];
      EachFails(e, xs[..|xs| - 1], n);
    }
  }

  /** evalOverrideStream. */
  method EvalStream(e: Expr, input: Doc) returns (r: Stream)
    ensures r == EvalAll(e, input)
    decreases e, 1
  {
    match e {
      case Leaf(f) =>
        r := f(input);
      case Pipeline(stages) =>
        var values := [input];
        for i := 0 to |stages|
          invariant EvalAll(e, input) == Run(stages[i..], values)
        {
          assert stages[i..][0] == stages[i] && stages[i..][1..] == stages[i + 1..];
          var next := EvalStreamInputs(stages[i], values);
          if next.Err? {
            return Err;
          }
          values := next.value;
        }
        r := Ok(values);
      case Union(values) =>
        r := EvalUnion(e, [input]);
    }
  }

  /** evalOverrideStreamInputs. */
  method EvalStreamInputs(e: Expr, inputs: seq<Doc>) returns (r: Stream)
    ensures r == EvalInputs(e, inputs)
    decreases e, 2
  {
    if e.Union? {
      r := EvalUnion(e, inputs);
      return;
    }
    var results := [];
    for i := 0 to |inputs|
      invariant Each(e, inputs[..i]) == Ok(results)
    {
      assert inputs[..i + 1][..i] == inputs[..i];
      var values := EvalStream(e, inputs[i]);
      if values.Err? {
        EachFails(e, inputs, i + 1);
        return Err;
      }
      results := results + values.value;
    }
    assert inputs[..|inputs|] == inputs;
    r := Ok(results);
  }

  /** overrideUnionExpr.evalAllInputs. */
  method EvalUnion(e: Expr, inputs: seq<Doc>) returns (r: Stream)
    requires e.Union?
    ensures r == EvalBranches(e.values, inputs)
    decreases e, 0
  {
    var results := [];
    JoinUnit(EvalBranches(e.values, inputs));
    for i := 0 to |e.values|
      invariant EvalBranches(e.values, inputs) == Join(Ok(results), EvalBranches(e.values[i..], inputs))
    {
      assert e.values[i..][0] == e.values[i] && e.values[i..][1..] == e.values[i + 1..];
      var items := EvalStreamInputs(e.values[i], inputs);
      if items.Err? {
        return Err;
      }
      JoinAssociative(Ok(results), items, EvalBranches(e.values[i + 1..], inputs));
      results := results + items.value;
    }
    r := Ok(results);
    JoinUnit(r);
  }

  lemma JoinAssociative(a: Stream, b: Stream, c: Stream)
    ensures Join(Join(a, b), c) == Join(a, Join(b, c))
  {
    if a.Ok? && b.Ok? && c.Ok? {
      assert a.value + b.value + c.value == a.value + (b.value + c.value);
    }
  }

  // ---- equal up to order ----

  /** Both fail, or both give the same results, order aside. */
  ghost predicate Same(a: Stream, b: Stream) {
    a.Ok? == b.Ok? && (a.Ok? ==> multiset(a.value) == multiset(b.value))
  }

  lemma JoinSame(a: Stream, b: Stream, c: Stream, d: Stream)
    requires Same(a, c) && Same(b, d)
    ensures Same(Join(a, b), Join(c, d)) && Same(Join(a, b), Join(d, c))
  {
  }

  lemma JoinExchange(a: Stream, b: Stream, c: Stream, d: Stream)
    ensures Same(Join(Join(a, b), Join(c, d)), Join(Join(a, c), Join(b, d)))
  {
  }

  lemma {:induction false} EachAppend(e: Expr, xs: seq<Doc>, ys: seq<Doc>)
    ensures Each(e, xs + ys) == Join(Each(e, xs), Each(e, ys))
    decreases |ys|
  {
    if ys == [] {
      assert xs + ys == xs;
      JoinUnit(Each(e, xs));
    } else {
      var n := |ys| - 1;
      assert (xs + ys)[..|xs + ys| - 1] == xs + ys[..n];
      EachAppend(e, xs, ys[..n]);
      JoinAssociative(Each(e, xs), Each(e, ys[..n]), EvalAll(e, ys[n]));
    }
  }

  // ---- batches are sums ----

  lemma {:induction false} InputsAppend(e: Expr, xs: seq<Doc>, ys: seq<Doc>)
    ensures Same(EvalInputs(e, xs + ys), Join(EvalInputs(e, xs), EvalInputs(e, ys)))
    decreases e, 0
  {
    if e.Union? {
      BranchesAppend(e.values, xs, ys);
    } else {
      EachAppend(e, xs, ys);
    }
  }

  lemma {:induction false} BranchesAppend(values: seq<Expr>, xs: seq<Doc>, ys: seq<Doc>)
    ensures Same(EvalBranches(values, xs + ys), Join(EvalBranches(values, xs), EvalBranches(values, ys)))
    decreases values, 0
  {
    if values != [] {
      var v, rest := values[0], values[1..];
      InputsAppend(v, xs, ys);
      BranchesAppend(rest, xs, ys);
      JoinSame(EvalInputs(v, xs + ys), EvalBranches(rest, xs + ys),
               Join(EvalInputs(v, xs), EvalInputs(v, ys)), Join(EvalBranches(rest, xs), EvalBranches(rest, ys)));
      JoinExchange(EvalInputs(v, xs), EvalInputs(v, ys), EvalBranches(rest, xs), EvalBranches(rest, ys));
    }
  }

  lemma InputsOne(e: Expr, x: Doc)
    ensures EvalInputs(e, [x]) == EvalAll(e, x)
  {
    if !e.Union? {
      assert Each(e, [x][..0]) == Ok([]);
      JoinUnit(EvalAll(e, x));
    }
  }

  /**
   Evaluating a batch fails exactly when some input alone fails, and otherwise
   gives, order aside, what the inputs give one by one.
   */
  lemma {:induction false} BatchIsSum(e: Expr, xs: seq<Doc>)
    ensures Same(EvalInputs(e, xs), Each(e, xs))
    ensures EvalInputs(e, xs).Ok? <==> forall i | 0 <= i < |xs| :: EvalAll(e, xs[i]).Ok?
    ensures !e.Union? ==> EvalInputs(e, xs) == Each(e, xs)
    decreases |xs|
  {
    if xs == [] {
      NoInputs(e);
      assert Each(e, xs) == Ok([]);
    } else {
      var n := |xs| - 1;
      assert xs == xs[..n] + [xs[n]];
      BatchIsSum(e, xs[..n]);
      InputsAppend(e, xs[..n], [xs[n]]);
      InputsOne(e, xs[n]);
      JoinSame(EvalInputs(e, xs[..n]), EvalAll(e, xs[n]), Each(e, xs[..n]), EvalAll(e, xs[n]));
    }
  }

  lemma {:induction false} NoInputs(e: Expr)
    ensures EvalInputs(e, []) == Ok([])
    decreases e
  {
    if e.Union? {
      NoBranchInputs(e.values);
    } else {
      assert Each(e, []) == Ok([]);
    }
  }

  lemma {:induction false} NoBranchInputs(values: seq<Expr>)
    ensures EvalBranches(values, []) == Ok([])
    decreases values
  {
    if values != [] {
      NoInputs(values[0]);
      NoBranchInputs(values[1..]);
      JoinUnit(Ok([]));
    }
  }

  // ---- order of the inputs ----

  function Without(xs: seq<Doc>, k: nat): (r: seq<Doc>)
    requires k < |xs|
    ensures multiset(r) == multiset(xs) - multiset{xs[k]}
  {
    assert xs == xs[..k] + [xs[k]] + xs[k + 1..];
    xs[..k] + xs[k + 1..]
  }

  lemma EachWithout(e: Expr, xs: seq<Doc>, k: nat)
    requires k < |xs|
    ensures Same(Each(e, xs), Join(Each(e, Without(xs, k)), EvalAll(e, xs[k])))
  {
    assert xs == xs[..k] + ([xs[k]] + xs[k + 1..]);
    EachAppend(e, xs[..k], [xs[k]] + xs[k + 1..]);
    EachAppend(e, [xs[k]], xs[k + 1..]);
    EachAppend(e, xs[..k], xs[k + 1..]);
    assert Each(e, [xs[k]][..0]) == Ok([]);
    JoinUnit(EvalAll(e, xs[k]));
  }

  lemma {:induction false} EachPermuted(e: Expr, xs: seq<Doc>, ys: seq<Doc>)
    requires multiset(xs) == multiset(ys)
    ensures Same(Each(e, xs), Each(e, ys))
    decreases |xs|
  {
    if xs == [] {
      assert |ys| == |multiset(ys)| == 0;
    } else {
      var n := |xs| - 1;
      assert xs[n] in multiset(xs);
      var k :| 0 <= k < |ys| && ys[k] == xs[n];
      EachPermuted(e, Without(xs, n), Without(ys, k));
      EachWithout(e, xs, n);
      EachWithout(e, ys, k);
      JoinSame(Each(e, Without(xs, n)), EvalAll(e, xs[n]), Each(e, Without(ys, k)), EvalAll(e, xs[n]));
    }
  }

  lemma {:induction false} RunPermuted(stages: seq<Expr>, xs: seq<Doc>, ys: seq<Doc>)
    requires multiset(xs) == multiset(ys)
    ensures Same(Run(stages, xs), Run(stages, ys))
    decreases |stages|
  {
    if stages != [] {
      BatchIsSum(stages[0], xs);
      BatchIsSum(stages[0], ys);
      EachPermuted(stages[0], xs, ys);
      if EvalInputs(stages[0], xs).Ok? {
        RunPermuted(stages[1..], EvalInputs(stages[0], xs).value, EvalInputs(stages[0], ys).value);
      }
    }
  }

  lemma {:induction false} RunAppend(stages: seq<Expr>, xs: seq<Doc>, ys: seq<Doc>)
    ensures Same(Run(stages, xs + ys), Join(Run(stages, xs), Run(stages, ys)))
    decreases |stages|
  {
    if stages != [] {
      var s, rest := stages[0], stages[1..];
      InputsAppend(s, xs, ys);
      var a, b := EvalInputs(s, xs), EvalInputs(s, ys);
      if a.Ok? && b.Ok? {
        RunPermuted(rest, EvalInputs(s, xs + ys).value, a.value + b.value);
        RunAppend(rest, a.value, b.value);
      }
    }
  }

  // ---- regrouping ----

  lemma {:induction false} RunSequence(first: seq<Expr>, second: seq<Expr>, xs: seq<Doc>)
    ensures Run(first + second, xs) ==
            match Run(first, xs)
            case Err => Err
            case Ok(ys) => Run(second, ys)
    decreases |first|
  {
    if first == [] {
      assert first + second == second;
    } else {
      assert (first + second)[0] == first[0] && (first + second)[1..] == first[1..] + second;
      if EvalInputs(first[0], xs).Ok? {
        RunSequence(first[1..], second, EvalInputs(first[0], xs).value);
      }
    }
  }

  lemma {:induction false} NestedPipeline(stages: seq<Expr>, xs: seq<Doc>)
    ensures Same(Each(Pipeline(stages), xs), Run(stages, xs))
    decreases |xs|
  {
    if xs == [] {
      RunNothing(stages);
    } else {
      var n := |xs| - 1;
      assert xs == xs[..n] + [xs[n]];
      NestedPipeline(stages, xs[..n]);
      RunAppend(stages, xs[..n], [xs[n]]);
    }
  }

  lemma {:induction false} RunNothing(stages: seq<Expr>)
    ensures Run(stages, []) == Ok([])
    decreases |stages|
  {
    if stages != [] {
      NoInputs(stages[0]);
      RunNothing(stages[1..]);
    }
  }

  /** The stages with every nested pipeline spelled out. */
  function Flat(stages: seq<Expr>): seq<Expr>
    decreases stages
  {
    if stages == [] then []
    else (if stages[0].Pipeline? then Flat(stages[0].stages) else [stages[0]]) + Flat(stages[1..])
  }

  lemma {:induction false} FlatSame(stages: seq<Expr>, xs: seq<Doc>)
    ensures Same(Run(stages, xs), Run(Flat(stages), xs))
    decreases stages
  {
    if stages != [] {
      var s, rest := stages[0], stages[1..];
      if s.Pipeline? {
        NestedPipeline(s.stages, xs);
        FlatSame(s.stages, xs);
        RunSequence(Flat(s.stages), Flat(rest), xs);
      } else {
        RunSequence([s], Flat(rest), xs);
        assert [s][1..] == [];
      }
      var a := EvalInputs(s, xs);
      if a.Ok? {
        FlatSame(rest, a.value);
        if s.Pipeline? {
          RunPermuted(Flat(rest), a.value, Run(Flat(s.stages), xs).value);
        }
      }
    }
  }
}
