/**
 Exactly when grouping the stages of a pipeline changes the order of its results.  The
 condition speaks of the shape of the pipeline alone; that it is necessary is shown with one
 leaf for all places, counting how many equal results lead the stream.
 */
module OverrideOrder {
  import opened Wrappers
  import opened OverrideDoc
  import opened OverrideStream
  import opened OverrideGroups
  import OverrideTarget

  // ---- shapes ----

  /** The same expression but for its leaves. */
  predicate SameShape(a: Expr, b: Expr)
    decreases a, 0
  {
    || (a.Leaf? && b.Leaf?)
    || (a.Pipeline? && b.Pipeline? && SameShapes(a.stages, b.stages))
    || (a.Union? && b.Union? && SameShapes(a.values, b.values))
  }

  predicate SameShapes(a: seq<Expr>, b: seq<Expr>)
    decreases a, 0
  {
    |a| == |b| && (a == [] || (SameShape(a[0], b[0]) && SameShapes(a[1..], b[1..])))
  }

  lemma {:induction false} ShapeKeepsUnions(a: seq<Expr>, b: seq<Expr>)
    requires SameShapes(a, b)
    ensures NoUnionStage(a) <==> NoUnionStage(b)
    decreases |a|
  {
    if a != [] {
      ShapeKeepsUnions(a[1..], b[1..]);
      assert a == [a[0]] + a[1..] && b == [b[0]] + b[1..];
      assert forall i | 1 <= i < |a| :: a[i] == a[1..][i - 1] && b[i] == b[1..][i - 1];
    }
  }

  // ---- one leaf that tells the orders apart ----

  /** The alternative of `.[]` and `.`: the children of a container, and anything else itself. */
  function Spread(d: Doc): Stream {
    var kids := Lookup(d, [Wildcard]);
    Ok(if kids == [] then [d] else seq(|kids|, i requires 0 <= i < |kids| => if OverrideTarget.Truthy(kids[i]) then kids[i] else d))
  }

  const BITS := Arr([ZERO, ONE])

  lemma SpreadBits()
    ensures Spread(BITS) == Ok([ZERO, ONE]) && Spread(ZERO) == Ok([ZERO]) && Spread(ONE) == Ok([ONE])
  {
    var kids := [ZERO, ONE];
    assert kids[1..] == [ONE] && [ONE][1..] == [] && [Wildcard][1..] == [];
    assert LookupEach([ONE], []) == Lookup(ONE, []) + LookupEach([], []) == [ONE];
    assert LookupEach(kids, []) == Lookup(ZERO, []) + LookupEach([ONE], []) == kids;
    assert Children(BITS) == kids && Children(ZERO) == [] == Children(ONE);
    assert Lookup(BITS, [Wildcard]) == kids;
    assert Spread(BITS).value == kids;
  }

  /** e with every leaf replaced by Spread. */
  function Respell(e: Expr): Expr
    decreases e, 0
  {
    match e
    case Leaf(_) => Leaf(Spread)
    case Pipeline(stages) => Pipeline(RespellAll(stages))
    case Union(values) => Union(RespellAll(values))
  }

  function RespellAll(es: seq<Expr>): seq<Expr>
    decreases es, 0
  {
    if es == [] then [] else [Respell(es[0])] + RespellAll(es[1..])
  }

  /** Parsed, and every leaf is Spread. */
  ghost predicate Spelled(e: Expr)
    decreases e, 0
  {
    Parsed(e) &&
    match e
    case Leaf(f) => f == Spread
    case Pipeline(stages) => AllSpelled(stages)
    case Union(values) => AllSpelled(values)
  }

  ghost predicate AllSpelled(es: seq<Expr>)
    decreases es, 0
  {
    AllParsed(es) && (es == [] || (Spelled(es[0]) && AllSpelled(es[1..])))
  }

  lemma {:induction false} RespellSpells(e: Expr)
    requires Parsed(e)
    ensures Spelled(Respell(e)) && SameShape(e, Respell(e))
    decreases e, 0
  {
    match e
    case Leaf(_) =>
    case Pipeline(stages) => RespellAllSpells(stages);
    case Union(values) => RespellAllSpells(values);
  }

  lemma {:induction false} RespellAllSpells(es: seq<Expr>)
    requires AllParsed(es)
    ensures AllSpelled(RespellAll(es)) && SameShapes(es, RespellAll(es))
    decreases es, 0
  {
    if es != [] {
      RespellSpells(es[0]);
      RespellAllSpells(es[1..]);
      assert RespellAll(es)[1..] == RespellAll(es[1..]);
    }
  }

  // ---- counting copies ----

  /** How many results e gives for one input, when its leaves give one each. */
  function Count(e: Expr): nat
    requires Parsed(e)
    decreases e, 0
  {
    match e
    case Leaf(_) => 1
    case Pipeline(stages) => Product(stages)
    case Union(values) =>
      assert AllParsed(values);
      Count(values[0]) + Sum(values[1..])
  }

  function Product(es: seq<Expr>): nat
    requires AllParsed(es)
    decreases es, 0
  {
    if es == [] then 1 else Times(Count(es[0]), Product(es[1..]))
  }

  function Sum(es: seq<Expr>): nat
    requires AllParsed(es)
    decreases es, 0
  {
    if es == [] then 0 else Count(es[0]) + Sum(es[1..])
  }

  /** Multiplication by repeated addition. */
  function Times(a: nat, b: nat): nat {
    if a == 0 then 0 else b + Times(a - 1, b)
  }

  lemma {:induction false} TimesAdds(a: nat, b: nat, c: nat)
    ensures Times(a, b + c) == Times(a, b) + Times(a, c) && Times(a + b, c) == Times(a, c) + Times(b, c)
    decreases a
  {
    if a > 0 {
      TimesAdds(a - 1, b, c);
    }
  }

  lemma {:induction false} TimesUnits(a: nat)
    ensures Times(a, 1) == a == Times(1, a) && Times(0, a) == 0 == Times(a, 0)
  {
    assert Times(1, a) == a + Times(0, a);
    if a > 0 {
      TimesUnits(a - 1);
    }
  }

  lemma {:induction false} TimesAssociates(a: nat, b: nat, c: nat)
    ensures Times(a, Times(b, c)) == Times(Times(a, b), c)
    decreases a
  {
    if a > 0 {
      TimesAssociates(a - 1, b, c);
      TimesAdds(b, Times(a - 1, b), c);
    }
  }

  lemma TimesFacts(a: nat, b: nat, c: nat)
    ensures Times(a, Times(b, c)) == Times(Times(a, b), c)
    ensures Times(a, b + c) == Times(a, b) + Times(a, c) && Times(a + b, c) == Times(a, c) + Times(b, c)
    ensures Times(a, 1) == a == Times(1, a) && Times(0, a) == 0 == Times(a, 0)
  {
    TimesAssociates(a, b, c);
    TimesAdds(a, b, c);
    TimesUnits(a);
  }

  lemma TimesPositive(a: nat, b: nat)
    requires a >= 1 && b >= 1
    ensures Times(a, b) >= 1
  {
  }

  lemma {:induction false} CountPositive(e: Expr)
    requires Parsed(e)
    ensures Count(e) >= 1 && (e.Union? ==> Count(e) >= 2 && Count(e) == Sum(e.values))
    decreases e, 0
  {
    match e
    case Leaf(_) =>
    case Pipeline(stages) => ProductPositive(stages);
    case Union(values) =>
      assert AllParsed(values) && AllParsed(values[1..]);
      CountPositive(values[0]);
      CountPositive(values[1..][0]);
  }

  lemma {:induction false} ProductPositive(es: seq<Expr>)
    requires AllParsed(es)
    ensures Product(es) >= 1
    decreases es, 0
  {
    if es != [] {
      CountPositive(es[0]);
      ProductPositive(es[1..]);
      TimesPositive(Count(es[0]), Product(es[1..]));
    }
  }

  function Copies(d: Doc, n: nat): seq<Doc> {
    seq(n, _ => d)
  }

  lemma CopiesJoin(d: Doc, m: nat, n: nat)
    ensures Copies(d, m) + Copies(d, n) == Copies(d, m + n)
    ensures Copies(d, 1) == [d] && Copies(d, 0) == []
  {
  }

  lemma {:induction false} NeverFails(e: Expr, xs: seq<Doc>)
    requires Spelled(e)
    ensures EvalInputs(e, xs).Ok?
    decreases e, 1
  {
    forall i | 0 <= i < |xs| ensures EvalAll(e, xs[i]).Ok? {
      match e
      case Leaf(_) =>
      case Pipeline(stages) => RunNeverFails(stages, [xs[i]]);
      case Union(values) => BranchesNeverFail(values, [xs[i]]);
    }
    BatchIsSum(e, xs);
  }

  lemma {:induction false} RunNeverFails(stages: seq<Expr>, xs: seq<Doc>)
    requires AllSpelled(stages)
    ensures Run(stages, xs).Ok?
    decreases stages, 0
  {
    if stages != [] {
      NeverFails(stages[0], xs);
      RunNeverFails(stages[1..], EvalInputs(stages[0], xs).value);
    }
  }

  lemma {:induction false} BranchesNeverFail(values: seq<Expr>, xs: seq<Doc>)
    requires AllSpelled(values)
    ensures EvalBranches(values, xs).Ok?
    decreases values, 0
  {
    if values != [] {
      NeverFails(values[0], xs);
      BranchesNeverFail(values[1..], xs);
    }
  }

  predicate Bit(b: Doc) {
    b == ZERO || b == ONE
  }

  /** A batch of equal bits gives equal bits, Count(e) for each. */
  lemma {:induction false} CopiesCounted(e: Expr, b: Doc, n: nat)
    requires Spelled(e) && Bit(b)
    ensures EvalInputs(e, Copies(b, n)) == Ok(Copies(b, Times(n, Count(e))))
    decreases e, 2
  {
    if e.Union? {
      BranchesCounted(e.values, b, n);
      assert Count(e) == Sum(e.values);
    } else {
      EachCounted(e, b, n);
    }
  }

  lemma CopiesSplit(b: Doc, n: nat)
    requires n > 0
    ensures Copies(b, n) == Copies(b, n - 1) + [b]
  {
  }

  lemma JoinCopies(b: Doc, m: nat, n: nat)
    ensures Join(Ok(Copies(b, m)), Ok(Copies(b, n))) == Ok(Copies(b, m + n))
  {
    CopiesJoin(b, m, n);
  }

  lemma EachCopyMore(e: Expr, b: Doc, n: nat)
    requires n > 0
    ensures Each(e, Copies(b, n)) == Join(Each(e, Copies(b, n - 1)), EvalAll(e, b))
  {
    CopiesSplit(b, n);
    EachSnoc(e, Copies(b, n - 1), b);
  }

  lemma {:induction false} EachCopies(e: Expr, b: Doc, c: nat, n: nat)
    requires EvalAll(e, b) == Ok(Copies(b, c))
    ensures Each(e, Copies(b, n)) == Ok(Copies(b, Times(n, c)))
    decreases n
  {
    if n == 0 {
      CopiesJoin(b, 0, 0);
    } else {
      EachCopies(e, b, c, n - 1);
      EachCopyMore(e, b, n);
      JoinCopies(b, Times(n - 1, c), c);
    }
  }

  lemma {:induction false} EachCounted(e: Expr, b: Doc, n: nat)
    requires Spelled(e) && Bit(b)
    ensures Each(e, Copies(b, n)) == Ok(Copies(b, Times(n, Count(e))))
    decreases e, 1
  {
    SingleCounted(e, b);
    EachCopies(e, b, Count(e), n);
  }

  lemma {:induction false} SingleCounted(e: Expr, b: Doc)
    requires Spelled(e) && Bit(b)
    ensures EvalAll(e, b) == Ok(Copies(b, Count(e)))
    decreases e, 0
  {
    CopiesJoin(b, 0, 1);
    match e
    case Leaf(_) => SpreadBits();
    case Pipeline(stages) =>
      RunCounted(stages, b, 1);
      TimesUnits(Product(stages));
    case Union(values) =>
      BranchesCounted(values, b, 1);
      TimesUnits(Sum(values));
      assert Count(e) == Sum(values);
  }

  lemma {:induction false} RunCounted(stages: seq<Expr>, b: Doc, n: nat)
    requires AllSpelled(stages) && Bit(b)
    ensures Run(stages, Copies(b, n)) == Ok(Copies(b, Times(n, Product(stages))))
    decreases stages, 0
  {
    TimesFacts(n, 1, 1);
    if stages != [] {
      CopiesCounted(stages[0], b, n);
      RunCounted(stages[1..], b, Times(n, Count(stages[0])));
      TimesFacts(n, Count(stages[0]), Product(stages[1..]));
    }
  }

  lemma {:induction false} BranchesCounted(values: seq<Expr>, b: Doc, n: nat)
    requires AllSpelled(values) && Bit(b)
    ensures EvalBranches(values, Copies(b, n)) == Ok(Copies(b, Times(n, Sum(values))))
    decreases values, 0
  {
    if values == [] {
      TimesUnits(n);
      CopiesJoin(b, 0, 0);
      assert EvalBranches(values, Copies(b, n)) == Ok([]) && Sum(values) == 0;
    } else {
      CopiesCounted(values[0], b, n);
      BranchesCounted(values[1..], b, n);
      TimesFacts(n, Count(values[0]), Sum(values[1..]));
      CopiesJoin(b, Times(n, Count(values[0])), Times(n, Sum(values[1..])));
    }
  }

  // ---- the leading zeros of a result ----

  /** zs starts with exactly n zeros and then a one. */
  predicate Leads(zs: seq<Doc>, n: nat) {
    n < |zs| && (forall i | 0 <= i < n :: zs[i] == ZERO) && zs[n] == ONE
  }

  lemma LeadUnique(zs: seq<Doc>, m: nat, n: nat)
    requires Leads(zs, m) && Leads(zs, n)
    ensures m == n
  {
  }

  /** By how much a batch's leading zeros grow: a union's first branch goes over the whole batch first. */
  function Lead(e: Expr): nat
    requires Parsed(e)
    decreases e, 0
  {
    if e.Union? then
      assert AllParsed(e.values);
      Lead(e.values[0])
    else Count(e)
  }

  function LeadRun(es: seq<Expr>): nat
    requires AllParsed(es)
    decreases es, 0
  {
    if es == [] then 1 else Times(Lead(es[0]), LeadRun(es[1..]))
  }

  lemma {:induction false} LeadBounds(e: Expr)
    requires Parsed(e)
    ensures 1 <= Lead(e) <= Count(e) && (Lead(e) == Count(e) <==> !e.Union?)
    decreases e
  {
    CountPositive(e);
    if e.Union? {
      assert AllParsed(e.values) && AllParsed(e.values[1..]);
      LeadBounds(e.values[0]);
      CountPositive(e.values[1..][0]);
      assert Sum(e.values[1..]) >= 1;
    }
  }

  lemma {:induction false} LeadRunPositive(es: seq<Expr>)
    requires AllParsed(es)
    ensures LeadRun(es) >= 1
    decreases |es|
  {
    if es != [] {
      LeadBounds(es[0]);
      LeadRunPositive(es[1..]);
      TimesPositive(Lead(es[0]), LeadRun(es[1..]));
    }
  }

  lemma SumOfTimes(a: nat, x: nat, c: nat, y: nat)
    ensures Times(a + x, c + y) == Times(a, c) + Times(a, y) + Times(x, c) + Times(x, y)
  {
    TimesAdds(a, x, c + y);
    TimesAdds(a, c, y);
    TimesAdds(x, c, y);
  }

  lemma TimesMonotone(a: nat, b: nat, c: nat, d: nat)
    requires a <= b && c <= d
    ensures Times(a, c) <= Times(b, d)
    ensures a < b && d >= 1 ==> Times(a, c) < Times(b, d)
    ensures c < d && b >= 1 ==> Times(a, c) < Times(b, d)
  {
    SumOfTimes(a, b - a, c, d - c);
  }

  /** The first branch alone leads, so a union stage makes the leading zeros grow less than the results. */
  lemma {:induction false} LeadBelowProduct(es: seq<Expr>)
    requires AllParsed(es)
    ensures LeadRun(es) <= Product(es)
    ensures LeadRun(es) == Product(es) <==> NoUnionStage(es)
    decreases |es|
  {
    if es != [] {
      LeadBelowProduct(es[1..]);
      LeadBounds(es[0]);
      LeadRunPositive(es[1..]);
      TimesMonotone(Lead(es[0]), Count(es[0]), LeadRun(es[1..]), Product(es[1..]));
      assert NoUnionStage(es) <==> !es[0].Union? && NoUnionStage(es[1..]) by {
        assert forall i | 1 <= i < |es| :: es[i] == es[1..][i - 1];
      }
    }
  }

  lemma LeadsAppend(n: nat, zs: seq<Doc>, more: seq<Doc>)
    requires Leads(zs, n)
    ensures Leads(zs + more, n)
  {
  }

  lemma LeadsBuild(n: nat, k: nat, more: seq<Doc>)
    requires k >= 1
    ensures Leads(Copies(ZERO, n) + (Copies(ONE, k) + more), n)
  {
  }

  lemma LeadsSplit(zs: seq<Doc>, n: nat)
    requires Leads(zs, n)
    ensures zs == Copies(ZERO, n) + ([ONE] + zs[n + 1..])
  {
  }

  lemma EachThree(e: Expr, a: seq<Doc>, b: seq<Doc>, c: seq<Doc>)
    ensures Each(e, a + (b + c)) == Join(Each(e, a), Join(Each(e, b), Each(e, c)))
  {
    EachAppend(e, a, b + c);
    EachAppend(e, b, c);
  }

  lemma JoinLeads(n: nat, k: nat, c: Stream)
    requires k >= 1 && c.Ok?
    ensures var r := Join(Ok(Copies(ZERO, n)), Join(Ok(Copies(ONE, k)), c)); r.Ok? && Leads(r.value, n)
  {
    LeadsBuild(n, k, c.value);
  }

  lemma OneCounted(e: Expr)
    requires Spelled(e)
    ensures Each(e, [ONE]) == Ok(Copies(ONE, Count(e)))
  {
    EachCounted(e, ONE, 1);
    CopiesJoin(ONE, 0, 1);
    TimesUnits(Count(e));
  }

  lemma EachLeads(e: Expr, zs: seq<Doc>, n: nat)
    requires Spelled(e) && !e.Union? && Leads(zs, n)
    ensures EvalInputs(e, zs).Ok? && Leads(EvalInputs(e, zs).value, Times(n, Count(e)))
  {
    var tail := zs[n + 1..];
    LeadsSplit(zs, n);
    EachThree(e, Copies(ZERO, n), [ONE], tail);
    EachCounted(e, ZERO, n);
    OneCounted(e);
    NeverFails(e, tail);
    CountPositive(e);
    JoinLeads(Times(n, Count(e)), Count(e), Each(e, tail));
  }

  lemma {:induction false} InputsLead(e: Expr, zs: seq<Doc>, n: nat)
    requires Spelled(e) && Leads(zs, n)
    ensures EvalInputs(e, zs).Ok? && Leads(EvalInputs(e, zs).value, Times(n, Lead(e)))
    decreases e
  {
    if e.Union? {
      assert AllSpelled(e.values);
      InputsLead(e.values[0], zs, n);
      BranchesNeverFail(e.values[1..], zs);
      LeadsAppend(Times(n, Lead(e)), EvalInputs(e.values[0], zs).value, EvalBranches(e.values[1..], zs).value);
    } else {
      EachLeads(e, zs, n);
    }
  }

  lemma {:induction false} RunLeads(stages: seq<Expr>, zs: seq<Doc>, n: nat)
    requires AllSpelled(stages) && Leads(zs, n)
    ensures Run(stages, zs).Ok? && Leads(Run(stages, zs).value, Times(n, LeadRun(stages)))
    decreases |stages|
  {
    TimesFacts(n, 1, 1);
    if stages != [] {
      InputsLead(stages[0], zs, n);
      RunLeads(stages[1..], EvalInputs(stages[0], zs).value, Times(n, Lead(stages[0])));
      TimesFacts(n, Lead(stages[0]), LeadRun(stages[1..]));
    }
  }

  /** How many zeros lead what e makes of the two bits. */
  function Start(e: Expr): nat
    requires Parsed(e)
    decreases e, 1
  {
    match e
    case Leaf(_) => 1
    case Pipeline(stages) => StartRun(stages)
    case Union(values) =>
      assert AllParsed(values);
      Start(values[0])
  }

  function StartRun(stages: seq<Expr>): nat
    requires AllParsed(stages) && stages != []
    decreases stages, 0
  {
    Times(Start(stages[0]), LeadRun(stages[1..]))
  }

  lemma {:induction false} StartPositive(e: Expr)
    requires Parsed(e)
    ensures Start(e) >= 1
    decreases e, 1
  {
    match e
    case Leaf(_) =>
    case Pipeline(stages) => StartRunPositive(stages);
    case Union(values) =>
      assert AllParsed(values);
      StartPositive(values[0]);
  }

  lemma {:induction false} StartRunPositive(stages: seq<Expr>)
    requires AllParsed(stages) && stages != []
    ensures StartRun(stages) >= 1
    decreases stages, 0
  {
    StartPositive(stages[0]);
    LeadRunPositive(stages[1..]);
    TimesPositive(Start(stages[0]), LeadRun(stages[1..]));
  }

  lemma {:induction false} BitsLead(e: Expr)
    requires Spelled(e)
    ensures EvalInputs(e, [BITS]).Ok? && Leads(EvalInputs(e, [BITS]).value, Start(e))
    decreases e, 1
  {
    InputsOne(e, BITS);
    match e
    case Leaf(_) => SpreadBits();
    case Pipeline(stages) => RunBitsLead(stages);
    case Union(values) =>
      assert AllSpelled(values);
      BitsLead(values[0]);
      BranchesNeverFail(values[1..], [BITS]);
      LeadsAppend(Start(e), EvalInputs(values[0], [BITS]).value, EvalBranches(values[1..], [BITS]).value);
  }

  lemma {:induction false} RunBitsLead(stages: seq<Expr>)
    requires AllSpelled(stages) && stages != []
    ensures Run(stages, [BITS]).Ok? && Leads(Run(stages, [BITS]).value, StartRun(stages))
    decreases stages, 0
  {
    BitsLead(stages[0]);
    RunLeads(stages[1..], EvalInputs(stages[0], [BITS]).value, Start(stages[0]));
  }

  // ---- the exact condition ----

  /** With Spread for every leaf, a group that is not first and has a union stage changes the order. */
  lemma OpeningChangesOrder(pre: seq<Expr>, g: seq<Expr>, rest: seq<Expr>)
    requires AllSpelled(pre) && Spelled(Pipeline(g)) && AllSpelled(rest)
    requires pre != [] && !NoUnionStage(g)
    ensures EvalAll(Pipeline(pre + [Pipeline(g)] + rest), BITS) != EvalAll(Pipeline(pre + g + rest), BITS)
  {
    RunBitsLead(pre);
    var n := StartRun(pre);
    StartRunPositive(pre);
    LeadRunPositive(rest);
    var ys := Run(pre, [BITS]).value;
    GroupedRun(pre, g, rest, BITS);
    EachLeads(Pipeline(g), ys, n);
    RunLeads(g, ys, n);
    LeadBelowProduct(g);
    var nested, flat := Times(n, Count(Pipeline(g))), Times(n, LeadRun(g));
    TimesMonotone(n, n, LeadRun(g), Product(g));
    RunLeads(rest, Each(Pipeline(g), ys).value, nested);
    RunLeads(rest, Run(g, ys).value, flat);
    TimesMonotone(flat, nested, LeadRun(rest), LeadRun(rest));
    if Run(rest, Each(Pipeline(g), ys).value) == Run(rest, Run(g, ys).value) {
      LeadUnique(Run(rest, Run(g, ys).value).value, Times(nested, LeadRun(rest)), Times(flat, LeadRun(rest)));
    }
  }

  /** Opening the group gives the same sequence for all leaves of these shapes and all inputs. */
  ghost predicate OpensFreely(pre: seq<Expr>, g: seq<Expr>, rest: seq<Expr>) {
    forall front, group, back, x | SameShapes(pre, front) && SameShapes(g, group) && SameShapes(rest, back) ::
      EvalAll(Pipeline(front + [Pipeline(group)] + back), x) == EvalAll(Pipeline(front + group + back), x)
  }

  /**
   Opening a group of a pipeline keeps the sequence of results, whatever the leaves
   compute and on every input, if and only if the group comes first or none of its own
   stages is a union.
   */
  lemma GroupingKeepsOrderExactly(pre: seq<Expr>, g: seq<Expr>, rest: seq<Expr>)
    requires AllParsed(pre) && Parsed(Pipeline(g)) && AllParsed(rest)
    ensures OpensFreely(pre, g, rest) <==> pre == [] || NoUnionStage(g)
  {
    if pre == [] || NoUnionStage(g) {
      forall front, group, back, x | SameShapes(pre, front) && SameShapes(g, group) && SameShapes(rest, back)
        ensures EvalAll(Pipeline(front + [Pipeline(group)] + back), x) == EvalAll(Pipeline(front + group + back), x)
      {
        ShapeKeepsUnions(g, group);
        OpeningKeepsOrder(front, group, back, x);
      }
    } else {
      RespellAllSpells(pre);
      RespellSpells(Pipeline(g));
      RespellAllSpells(g);
      RespellAllSpells(rest);
      ShapeKeepsUnions(g, RespellAll(g));
      OpeningChangesOrder(RespellAll(pre), RespellAll(g), RespellAll(rest));
    }
  }

  // ---- any grouping against the flat one ----

  lemma {:induction false} AppendCounts(a: seq<Expr>, b: seq<Expr>)
    requires AllParsed(a) && AllParsed(b)
    ensures AllParsed(a + b)
    ensures Product(a + b) == Times(Product(a), Product(b)) && LeadRun(a + b) == Times(LeadRun(a), LeadRun(b))
    ensures a != [] ==> StartRun(a + b) == Times(StartRun(a), LeadRun(b))
    decreases |a|
  {
    TimesUnits(Product(b));
    TimesUnits(LeadRun(b));
    if a == [] {
      assert a + b == b;
    } else {
      assert (a + b)[0] == a[0] && (a + b)[1..] == a[1..] + b;
      AppendCounts(a[1..], b);
      TimesFacts(Count(a[0]), Product(a[1..]), Product(b));
      TimesFacts(Lead(a[0]), LeadRun(a[1..]), LeadRun(b));
      TimesFacts(Start(a[0]), LeadRun(a[1..]), LeadRun(b));
    }
  }

  lemma {:induction false} FlatParsed(stages: seq<Expr>)
    requires AllParsed(stages)
    ensures AllParsed(Flat(stages)) && Product(Flat(stages)) == Product(stages)
    ensures stages != [] ==> Flat(stages) != []
    decreases stages
  {
    if stages != [] {
      var s, rest := stages[0], stages[1..];
      var head := if s.Pipeline? then Flat(s.stages) else [s];
      if s.Pipeline? {
        FlatParsed(s.stages);
      } else {
        OneStage(s);
      }
      FlatParsed(rest);
      AppendCounts(head, Flat(rest));
    }
  }

  lemma OneStage(s: Expr)
    requires Parsed(s)
    ensures AllParsed([s]) && Product([s]) == Count(s) && LeadRun([s]) == Lead(s) && StartRun([s]) == Start(s)
  {
    assert [s][1..] == [];
    TimesFacts(Count(s), 1, 1);
    TimesFacts(Lead(s), 1, 1);
    TimesFacts(Start(s), 1, 1);
  }

  lemma TimesEqual(a: nat, b: nat, c: nat, d: nat)
    requires 1 <= a <= b && 1 <= c <= d
    ensures Times(a, c) <= Times(b, d) && (Times(a, c) == Times(b, d) <==> a == b && c == d)
  {
    TimesMonotone(a, b, c, d);
  }

  lemma {:induction false} FlatLeadsLess(stages: seq<Expr>)
    requires AllParsed(stages)
    ensures AllParsed(Flat(stages)) && LeadRun(Flat(stages)) <= LeadRun(stages)
    ensures LeadRun(Flat(stages)) == LeadRun(stages) <==> PlainGroups(stages)
    decreases stages
  {
    FlatParsed(stages);
    if stages != [] {
      var s, rest := stages[0], stages[1..];
      var head := if s.Pipeline? then Flat(s.stages) else [s];
      if s.Pipeline? {
        FlatParsed(s.stages);
        LeadBelowProduct(head);
        UnionFreeFlat(s.stages);
      } else {
        OneStage(s);
      }
      FlatLeadsLess(rest);
      FlatParsed(rest);
      AppendCounts(head, Flat(rest));
      LeadRunPositive(head);
      LeadRunPositive(Flat(rest));
      TimesEqual(LeadRun(head), Lead(s), LeadRun(Flat(rest)), LeadRun(rest));
    }
  }

  lemma {:induction false} FlatStartsLess(stages: seq<Expr>)
    requires AllParsed(stages) && stages != []
    ensures AllParsed(Flat(stages)) && Flat(stages) != [] && StartRun(Flat(stages)) <= StartRun(stages)
    ensures StartRun(Flat(stages)) == StartRun(stages) <==> OnlyHeadGroups(stages)
    decreases stages
  {
    FlatParsed(stages);
    var s, rest := stages[0], stages[1..];
    var head := if s.Pipeline? then Flat(s.stages) else [s];
    if s.Pipeline? {
      FlatParsed(s.stages);
      FlatStartsLess(s.stages);
    } else {
      OneStage(s);
    }
    FlatLeadsLess(rest);
    FlatParsed(rest);
    AppendCounts(head, Flat(rest));
    StartRunPositive(head);
    LeadRunPositive(Flat(rest));
    TimesEqual(StartRun(head), Start(s), LeadRun(Flat(rest)), LeadRun(rest));
  }

  lemma {:induction false} FlatSpelled(stages: seq<Expr>)
    requires AllSpelled(stages)
    ensures AllSpelled(Flat(stages))
    decreases stages
  {
    if stages != [] {
      if stages[0].Pipeline? {
        FlatSpelled(stages[0].stages);
        SpelledAppend(Flat(stages[0].stages), Flat(stages[1..]));
      } else {
        assert [stages[0]][1..] == [];
        SpelledAppend([stages[0]], Flat(stages[1..]));
      }
      FlatSpelled(stages[1..]);
    }
  }

  lemma {:induction false} SpelledAppend(a: seq<Expr>, b: seq<Expr>)
    ensures AllSpelled(a) && AllSpelled(b) ==> AllSpelled(a + b)
    decreases |a|
  {
    if a == [] {
      assert a + b == b;
    } else {
      assert (a + b)[0] == a[0] && (a + b)[1..] == a[1..] + b;
      SpelledAppend(a[1..], b);
    }
  }

  lemma {:induction false} ShapeKeepsGroups(a: seq<Expr>, b: seq<Expr>)
    requires SameShapes(a, b)
    ensures UnionFree(a) <==> UnionFree(b)
    ensures PlainGroups(a) <==> PlainGroups(b)
    ensures OnlyHeadGroups(a) <==> OnlyHeadGroups(b)
    decreases a
  {
    if a != [] {
      if a[0].Pipeline? {
        ShapeKeepsGroups(a[0].stages, b[0].stages);
      }
      ShapeKeepsGroups(a[1..], b[1..]);
    }
  }

  /** Opening all groups gives the same sequence for all leaves of this shape and all inputs. */
  ghost predicate FlattensFreely(stages: seq<Expr>) {
    forall other, x | SameShapes(stages, other) ::
      EvalAll(Pipeline(other), x) == EvalAll(Pipeline(Flat(other)), x)
  }

  /**
   A grouping gives the sequence of its flat form, whatever the leaves compute and on
   every input, if and only if every group that holds a union comes first in its pipeline.
   */
  lemma FlatOrderExactly(stages: seq<Expr>)
    requires Parsed(Pipeline(stages))
    ensures FlattensFreely(stages) <==> OnlyHeadGroups(stages)
  {
    if OnlyHeadGroups(stages) {
      forall other, x | SameShapes(stages, other)
        ensures EvalAll(Pipeline(other), x) == EvalAll(Pipeline(Flat(other)), x)
      {
        ShapeKeepsGroups(stages, other);
        HeadGroupsOpen(other, x);
      }
    } else {
      var w := RespellAll(stages);
      RespellAllSpells(stages);
      ShapeKeepsGroups(stages, w);
      FlatStartsLess(w);
      FlatSpelled(w);
      RunBitsLead(w);
      RunBitsLead(Flat(w));
      if Run(w, [BITS]) == Run(Flat(w), [BITS]) {
        LeadUnique(Run(w, [BITS]).value, StartRun(w), StartRun(Flat(w)));
      }
      assert EvalAll(Pipeline(w), BITS) != EvalAll(Pipeline(Flat(w)), BITS);
    }
  }
}
