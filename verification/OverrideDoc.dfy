/**
 Documents of the override expression language, its paths, and reading through a
 path.  A document is an immutable tree: two places of one document never share
 an object.
 */
module OverrideDoc {
  datatype Atom = Bool(b: bool) | Number(n: int) | Text(s: string)

  datatype Doc = Null | Scalar(atom: Atom) | Arr(items: seq<Doc>) | Obj(fields: map<string, Doc>)

  datatype Segment = Field(key: string) | Index(index: int) | Wildcard

  type Path = seq<Segment>

  // ---- sorted mapping keys ----

  predicate LessEq(a: string, b: string) {
    a == [] || (b != [] && (a[0] < b[0] || (a[0] == b[0] && LessEq(a[1..], b[1..]))))
  }

  lemma {:induction false} LessEqTotal(a: string, b: string)
    ensures LessEq(a, b) || LessEq(b, a)
    ensures LessEq(a, b) && LessEq(b, a) ==> a == b
  {
    if a != [] && b != [] && a[0] == b[0] {
      LessEqTotal(a[1..], b[1..]);
      assert a == [a[0]] + a[1..] && b == [b[0]] + b[1..];
    }
  }

  lemma {:induction false} LessEqTransitive(a: string, b: string, c: string)
    requires LessEq(a, b) && LessEq(b, c)
    ensures LessEq(a, c)
  {
    if a != [] && a[0] == b[0] && b[0] == c[0] {
      LessEqTransitive(a[1..], b[1..], c[1..]);
    }
  }

  lemma {:induction false} LeastExists(s: set<string>) returns (k: string)
    requires s != {}
    ensures k in s && forall j | j in s :: LessEq(k, j)
  {
    var x :| x in s;
    LessEqTotal(x, x);
    k := x;
    if s != {x} {
      var rest := s - {x};
      assert s == rest + {x};
      var y := LeastExists(rest);
      LessEqTotal(x, y);
      k := if LessEq(x, y) then x else y;
      forall j | j in s ensures LessEq(k, j) {
        if j != x && k == x {
          LessEqTransitive(x, y, j);
        }
      }
    }
  }

  function Least(s: set<string>): (k: string)
    requires s != {}
    ensures k in s && forall j | j in s :: LessEq(k, j)
  {
    assert exists k :: k in s && forall j | j in s :: LessEq(k, j) by {
      var k := LeastExists(s);
    }
    assert forall a, b | a in s && b in s && LessEq(a, b) && LessEq(b, a) :: a == b by {
      forall a, b | a in s && b in s { LessEqTotal(a, b); }
    }
    var k :| k in s && forall j | j in s :: LessEq(k, j);
    k
  }

  /** The keys in the order sort.Strings leaves them. */
  function SortedKeys(s: set<string>): (keys: seq<string>)
    ensures forall k :: k in keys <==> k in s
    ensures |keys| == |s|
    decreases |s|
  {
    if s == {} then [] else var k := Least(s); [k] + SortedKeys(s - {k})
  }

  lemma {:induction false} SortedKeysDistinct(s: set<string>)
    ensures forall i, j | 0 <= i < j < |s| :: SortedKeys(s)[i] != SortedKeys(s)[j]
    ensures forall i, j | 0 <= i < j < |s| :: LessEq(SortedKeys(s)[i], SortedKeys(s)[j])
    decreases |s|
  {
    if s != {} {
      var k := Least(s);
      var keys, rest := SortedKeys(s), SortedKeys(s - {k});
      SortedKeysDistinct(s - {k});
      assert keys == [k] + rest;
      forall i, j | 0 <= i < j < |s| ensures keys[i] != keys[j] && LessEq(keys[i], keys[j]) {
        assert keys[j] == rest[j - 1] && rest[j - 1] in rest;
        if i > 0 {
          assert keys[i] == rest[i - 1];
        }
      }
    }
  }

  // ---- reading ----

  /** Go's read of a map: a missing key gives nil. */
  function Get(m: map<string, Doc>, k: string): Doc {
    if k in m then m[k] else Null
  }

  /** A negative index counts from the end of an array of length n. */
  function Resolved(index: int, n: nat): int {
    if index < 0 then index + n else index
  }

  function Children(d: Doc): seq<Doc> {
    match d
    case Arr(a) => a
    case Obj(m) => FieldValues(m, SortedKeys(m.Keys))
    case _ => []
  }

  function FieldValues(m: map<string, Doc>, keys: seq<string>): (r: seq<Doc>)
    requires forall k | k in keys :: k in m
    ensures |r| == |keys| && forall i | 0 <= i < |r| :: r[i] == m[keys[i]]
  {
    if keys == [] then [] else [m[keys[0]]] + FieldValues(m, keys[1..])
  }

  /** All results of reading `path` from d, in stream order. */
  function Lookup(d: Doc, path: Path): seq<Doc>
    decreases |path|, 0
  {
    if path == [] then [d]
    else match path[0]
      case Field(k) => if d.Obj? then Lookup(Get(d.fields, k), path[1..]) else [Null]
      case Index(i) =>
        if d.Arr? && 0 <= Resolved(i, |d.items|) < |d.items|
        then Lookup(d.items[Resolved(i, |d.items|)], path[1..])
        else [Null]
      case Wildcard => LookupEach(Children(d), path[1..])
  }

  function LookupEach(ds: seq<Doc>, path: Path): seq<Doc>
    decreases |path|, 1, |ds|
  {
    if ds == [] then [] else Lookup(ds[0], path) + LookupEach(ds[1..], path)
  }

  lemma {:induction false} LookupEachSnoc(ds: seq<Doc>, d: Doc, path: Path)
    ensures LookupEach(ds + [d], path) == LookupEach(ds, path) + Lookup(d, path)
    decreases |ds|
  {
    if ds == [] {
      assert ds + [d] == [d];
      assert LookupEach([d], path) == Lookup(d, path) + LookupEach([], path);
    } else {
      LookupEachSnoc(ds[1..], d, path);
      assert (ds + [d])[0] == ds[0] && (ds + [d])[1..] == ds[1..] + [d];
    }
  }

  /** lookupOverridePathStream with its loops. */
  method LookupStream(d: Doc, path: Path) returns (results: seq<Doc>)
    ensures results == Lookup(d, path)
    decreases |path|, 0
  {
    if path == [] {
      return [d];
    }
    match path[0] {
      case Field(k) =>
        if !d.Obj? {
          return [Null];
        }
        results := LookupStream(Get(d.fields, k), path[1..]);
      case Index(i) =>
        if !d.Arr? {
          return [Null];
        }
        var index := i;
        if index < 0 {
          index := index + |d.items|;
        }
        if index < 0 || index >= |d.items| {
          return [Null];
        }
        results := LookupStream(d.items[index], path[1..]);
      case Wildcard =>
        results := LookupMembers(Children(d), path[1..]);
    }
  }

  method LookupMembers(members: seq<Doc>, path: Path) returns (results: seq<Doc>)
    ensures results == LookupEach(members, path)
    decreases |path|, 1
  {
    results := [];
    for i := 0 to |members|
      invariant results == LookupEach(members[..i], path)
    {
      var selected := LookupStream(members[i], path);
      assert members[..i + 1] == members[..i] + [members[i]];
      LookupEachSnoc(members[..i], members[i], path);
      results := results + selected;
    }
    assert members[..|members|] == members;
  }

  // ---- wildcard-free paths ----

  predicate WildcardFree(p: Path) {
    forall s | s in p :: !s.Wildcard?
  }

  /** Fields and non-negative indices only. */
  predicate Concrete(p: Path) {
    forall s | s in p :: s.Field? || (s.Index? && s.index >= 0)
  }

  lemma {:induction false} LookupNull(p: Path)
    requires WildcardFree(p)
    ensures Lookup(Null, p) == [Null]
  {
  }

  lemma {:induction false} LookupSingle(d: Doc, p: Path)
    requires WildcardFree(p)
    ensures |Lookup(d, p)| == 1
    decreases |p|
  {
    if p != [] {
      assert p[0] in p;
      match p[0]
      case Field(k) => if d.Obj? { LookupSingle(Get(d.fields, k), p[1..]); }
      case Index(i) =>
        if d.Arr? && 0 <= Resolved(i, |d.items|) < |d.items| {
          LookupSingle(d.items[Resolved(i, |d.items|)], p[1..]);
        }
    }
  }

  // ---- nodes ----

  /** The child of d that c names, if there is one. */
  function Child(d: Doc, c: Segment): Doc {
    match d
    case Obj(m) => if c.Field? then Get(m, c.key) else Null
    case Arr(a) => if c.Index? && 0 <= c.index < |a| then a[c.index] else Null
    case _ => Null
  }

  /** The whole path exists in d. */
  predicate Exists(d: Doc, p: Path)
    decreases |p|
  {
    p == [] ||
    match p[0]
    case Field(k) => d.Obj? && k in d.fields && Exists(d.fields[k], p[1..])
    case Index(i) => d.Arr? && 0 <= i < |d.items| && Exists(d.items[i], p[1..])
    case Wildcard => false
  }

  /** The node at p, nil when there is none. */
  function NodeAt(d: Doc, p: Path): Doc
    decreases |p|
  {
    if p == [] then d else NodeAt(Child(d, p[0]), p[1..])
  }

  // ---- negative indices and wildcards ----

  /** `[-k]` of an array of n items is item n - k, and past the front there is nothing. */
  lemma NegativeIndexReads(d: Doc, k: int, p: Path)
    requires d.Arr? && k >= 1
    ensures k <= |d.items| ==>
              Lookup(d, [Index(-k)] + p) == Lookup(d, [Index(|d.items| - k)] + p) == Lookup(d.items[|d.items| - k], p)
    ensures k > |d.items| ==> Lookup(d, [Index(-k)] + p) == [Null]
  {
    var negative, positive := [Index(-k)] + p, [Index(|d.items| - k)] + p;
    assert negative[0] == Index(-k) && negative[1..] == p;
    assert positive[0] == Index(|d.items| - k) && positive[1..] == p;
  }

  /** The results of reading p from every one of ds, one after the other. */
  function ReadEach(ds: seq<Doc>, p: Path): seq<Doc> {
    if ds == [] then [] else ReadEach(ds[..|ds| - 1], p) + Lookup(ds[|ds| - 1], p)
  }

  lemma {:induction false} ReadEachIsLookupEach(ds: seq<Doc>, p: Path)
    ensures ReadEach(ds, p) == LookupEach(ds, p)
    decreases |ds|
  {
    if ds != [] {
      var n := |ds| - 1;
      ReadEachIsLookupEach(ds[..n], p);
      LookupEachSnoc(ds[..n], ds[n], p);
      assert ds == ds[..n] + [ds[n]];
    }
  }

  /** A wildcard reads an array's items in order, a mapping's values by ascending key, and nothing from anything else. */
  lemma WildcardReads(d: Doc, p: Path) returns (keys: seq<string>)
    ensures d.Arr? ==> Lookup(d, [Wildcard] + p) == ReadEach(d.items, p)
    ensures d.Obj? ==>
              && (forall k :: k in keys <==> k in d.fields)
              && (forall i, j | 0 <= i < j < |keys| :: keys[i] != keys[j] && LessEq(keys[i], keys[j]))
              && exists values :: |values| == |keys| && Lookup(d, [Wildcard] + p) == ReadEach(values, p) &&
                                  forall i | 0 <= i < |keys| :: values[i] == d.fields[keys[i]]
    ensures d.Null? || d.Scalar? ==> Lookup(d, [Wildcard] + p) == []
  {
    var path := [Wildcard] + p;
    assert path[0] == Wildcard && path[1..] == p;
    ReadEachIsLookupEach(Children(d), p);
    keys := [];
    if d.Obj? {
      keys := SortedKeys(d.fields.Keys);
      SortedKeysDistinct(d.fields.Keys);
      assert |Children(d)| == |keys| && forall i | 0 <= i < |keys| :: Children(d)[i] == d.fields[keys[i]];
    }
  }
}
