/** Updating a document through a path, and what the update does to later reads. */
module OverrideUpdate {
  import opened Wrappers
  import opened OverrideDoc

  type Updater = Doc -> Result<Doc>

  /** a grown with nils until index i exists. */
  function Padded(a: seq<Doc>, i: nat): (r: seq<Doc>)
    ensures |r| == if i < |a| then |a| else i + 1
    ensures forall j | 0 <= j < |r| :: r[j] == if j < |a| then a[j] else Null
  {
    if i < |a| then a else a + seq(i + 1 - |a|, _ => Null)
  }

  /** A nil that the next segment is about to fill becomes an empty container. */
  function Opened(d: Doc, s: Segment): Doc {
    if d.Null? && s.Field? then Obj(map[])
    else if d.Null? && s.Index? then Arr([])
    else d
  }

  function Update(d: Doc, path: Path, u: Updater): Result<Doc>
    decreases |path|, 0
  {
    if path == [] then u(d)
    else
      var node := Opened(d, path[0]);
      match path[0]
      case Field(k) =>
        if !node.Obj? then Ok(d)
        else (
          match Update(Get(node.fields, k), path[1..], u)
          case Err => Err
          case Ok(v) => Ok(Obj(node.fields[k := v])))
      case Index(i) =>
        if !node.Arr? then Ok(d)
        else
          var index := Resolved(i, |node.items|);
          if index < 0 then Err
          else (
            match Update(Padded(node.items, index)[index], path[1..], u)
            case Err => Err
            case Ok(v) => Ok(Arr(Padded(node.items, index)[index := v])))
      case Wildcard =>
        if node.Arr? then (
          match UpdateItems(node.items, path[1..], u)
          case Err => Err
          case Ok(items) => Ok(Arr(items)))
        else if node.Obj? then (
          match UpdateFields(node.fields, path[1..], u)
          case Err => Err
          case Ok(fields) => Ok(Obj(fields)))
        else Ok(d)
  }

  function UpdateFields(m: map<string, Doc>, path: Path, u: Updater): Result<map<string, Doc>>
    decreases |path|, 1
  {
    if exists k | k in m :: Update(m[k], path, u).Err? then Err
    else Ok(map k | k in m :: Update(m[k], path, u).value)
  }

  function UpdateItems(ds: seq<Doc>, path: Path, u: Updater): (r: Result<seq<Doc>>)
    ensures r.Ok? <==> forall i | 0 <= i < |ds| :: Update(ds[i], path, u).Ok?
    ensures r.Ok? ==> |r.value| == |ds| && forall i | 0 <= i < |ds| :: Ok(r.value[i]) == Update(ds[i], path, u)
    decreases |path|, 1, |ds|
  {
    if ds == [] then Ok([])
    else match Update(ds[0], path, u)
      case Err => Err
      case Ok(v) => (
        match UpdateItems(ds[1..], path, u)
        case Err => Err
        case Ok(vs) => Ok([v] + vs))
  }

  /** updateOverridePath with its loops; mapping keys are visited in any order. */
  method UpdatePath(d: Doc, path: Path, u: Updater) returns (r: Result<Doc>)
    ensures r == Update(d, path, u)
    decreases |path|, 0
  {
    if path == [] {
      return u(d);
    }
    var node := d;
    match path[0] {
      case Field(k) =>
        if node.Null? {
          node := Obj(map[]);
        }
        if !node.Obj? {
          return Ok(node);
        }
        var child := UpdatePath(Get(node.fields, k), path[1..], u);
        if child.Err? {
          return Err;
        }
        return Ok(Obj(node.fields[k := child.value]));
      case Index(i) =>
        if node.Null? {
          node := Arr([]);
        }
        if !node.Arr? {
          return Ok(node);
        }
        var index := i;
        if index < 0 {
          index := index + |node.items|;
        }
        if index < 0 {
          return Err;
        }
        var grown := node.items;
        while |grown| <= index
          invariant |node.items| <= |grown|
          invariant |grown| <= index + 1 || grown == node.items
          invariant forall j | 0 <= j < |grown| :: grown[j] == if j < |node.items| then node.items[j] else Null
        {
          grown := grown + [Null];
        }
        assert grown == Padded(node.items, index);
        var child := UpdatePath(grown[index], path[1..], u);
        if child.Err? {
          return Err;
        }
        return Ok(Arr(grown[index := child.value]));
      case Wildcard =>
        match d {
          case Arr(items) =>
            var updated := UpdateArray(items, path[1..], u);
            return if updated.Err? then Err else Ok(Arr(updated.value));
          case Obj(fields) =>
            var updated := UpdateMapping(fields, path[1..], u);
            return if updated.Err? then Err else Ok(Obj(updated.value));
          case _ =>
            r := Ok(d);
        }
    }
  }

  method UpdateArray(items: seq<Doc>, path: Path, u: Updater) returns (r: Result<seq<Doc>>)
    ensures r == UpdateItems(items, path, u)
    decreases |path|, 1
  {
    var value := items;
    for i := 0 to |items|
      invariant |value| == |items| && value[i..] == items[i..]
      invariant forall j | 0 <= j < i :: Update(items[j], path, u) == Ok(value[j])
    {
      assert value[i] == value[i..][0] == items[i..][0] == items[i];
      var updated := UpdatePath(value[i], path, u);
      if updated.Err? {
        return Err;
      }
      value := value[i := updated.value];
    }
    r := Ok(value);
    assert value == UpdateItems(items, path, u).value;
  }

  method UpdateMapping(fields: map<string, Doc>, path: Path, u: Updater) returns (r: Result<map<string, Doc>>)
    ensures r == UpdateFields(fields, path, u)
    decreases |path|, 1
  {
    var value := fields;
    var left := fields.Keys;
    while left != {}
      invariant left <= fields.Keys == value.Keys
      invariant forall k | k in fields :: k in left ==> value[k] == fields[k]
      invariant forall k | k in fields :: k !in left ==> Update(fields[k], path, u) == Ok(value[k])
      decreases left
    {
      var k :| k in left;
      var updated := UpdatePath(value[k], path, u);
      if updated.Err? {
        return Err;
      }
      value := value[k := updated.value];
      left := left - {k};
    }
    assert forall k | k in fields :: Update(fields[k], path, u) == Ok(value[k]);
    assert value == map k | k in fields :: Update(fields[k], path, u).value;
    r := Ok(value);
  }

  // ---- lens laws ----

  /** `path = v`: the value does not depend on what was there. */
  function Assign(v: Doc): Updater {
    _ => Ok(v)
  }

  /** Every existing node on the way is nil or the container the next segment needs. */
  predicate Fits(d: Doc, p: Path)
    decreases |p|
  {
    if p == [] then true
    else match p[0]
      case Field(k) => (d.Null? || d.Obj?) && (d.Obj? ==> Fits(Get(d.fields, k), p[1..]))
      case Index(i) => (d.Null? || d.Arr?) && (d.Arr? && 0 <= i < |d.items| ==> Fits(d.items[i], p[1..]))
      case Wildcard => false
  }

  lemma {:induction false} FitsNull(p: Path)
    requires Concrete(p)
    ensures Fits(Null, p)
  {
  }

  lemma ConcreteTail(p: Path)
    requires p != []
    ensures Concrete(p) ==> (p[0].Field? || (p[0].Index? && p[0].index >= 0)) && Concrete(p[1..])
    ensures WildcardFree(p) ==> !p[0].Wildcard? && WildcardFree(p[1..])
  {
  }

  /**
   Assigning v and reading it back gives exactly v if and only if no existing node
   on the path is in the way (or v is what such a read gives anyway); when a node
   is in the way, the document is left alone.
   */
  lemma {:induction false} AssignThenRead(d: Doc, p: Path, v: Doc)
    requires Concrete(p)
    ensures Update(d, p, Assign(v)).Ok?
    ensures Lookup(Update(d, p, Assign(v)).value, p) == [v] <==> Fits(d, p) || v == Null
    ensures !Fits(d, p) ==> Update(d, p, Assign(v)) == Ok(d) && Lookup(d, p) == [Null]
    decreases |p|
  {
    if p != [] {
      ConcreteTail(p);
      var node := Opened(d, p[0]);
      FitsNull(p[1..]);
      if p[0].Field? && node.Obj? {
        AssignThenRead(Get(node.fields, p[0].key), p[1..], v);
        assert !Fits(d, p) ==> Update(d, p, Assign(v)).value.fields == d.fields;
      } else if p[0].Index? && node.Arr? {
        var padded := Padded(node.items, p[0].index);
        AssignThenRead(padded[p[0].index], p[1..], v);
        assert !Fits(d, p) ==> Update(d, p, Assign(v)).value.items == d.items;
      }
    }
  }

  /** p and q part at a segment that both spell out, after a common concrete prefix. */
  predicate Diverge(p: Path, q: Path)
    decreases |p|
  {
    && p != [] && q != []
    && (q[0].Field? || (q[0].Index? && q[0].index >= 0))
    && (p[0] == q[0] ==> Diverge(p[1..], q[1..]))
  }

  /** An assignment changes no read along a path that parts from the assigned one. */
  lemma {:induction false} AssignLeavesOthers(d: Doc, p: Path, q: Path, v: Doc)
    requires Concrete(p) && WildcardFree(q) && Diverge(p, q)
    ensures Update(d, p, Assign(v)).Ok?
    ensures Lookup(Update(d, p, Assign(v)).value, q) == Lookup(d, q)
    decreases |p|
  {
    ConcreteTail(p);
    ConcreteTail(q);
    AssignThenRead(d, p, v);
    LookupNull(q[1..]);
    var node := Opened(d, p[0]);
    if p[0].Field? && node.Obj? {
      AssignThenRead(Get(node.fields, p[0].key), p[1..], v);
      if p[0] == q[0] {
        AssignLeavesOthers(Get(node.fields, p[0].key), p[1..], q[1..], v);
      }
    } else if p[0].Index? && node.Arr? {
      var child := Padded(node.items, p[0].index)[p[0].index];
      AssignThenRead(child, p[1..], v);
      if p[0] == q[0] {
        AssignLeavesOthers(child, p[1..], q[1..], v);
      }
    }
  }

  /** A second assignment to the same path hides the first. */
  lemma {:induction false} LastAssignWins(d: Doc, p: Path, v: Doc, w: Doc)
    requires Concrete(p)
    ensures Update(d, p, Assign(v)).Ok?
    ensures Update(Update(d, p, Assign(v)).value, p, Assign(w)) == Update(d, p, Assign(w))
    decreases |p|
  {
    AssignThenRead(d, p, v);
    if p != [] {
      ConcreteTail(p);
      var node := Opened(d, p[0]);
      if p[0].Field? && node.Obj? {
        var child := Get(node.fields, p[0].key);
        LastAssignWins(child, p[1..], v, w);
        AssignThenRead(child, p[1..], v);
        AssignThenRead(child, p[1..], w);
        var a := Update(child, p[1..], Assign(v)).value;
        var b := Update(child, p[1..], Assign(w)).value;
        assert node.fields[p[0].key := a][p[0].key := b] == node.fields[p[0].key := b];
      } else if p[0].Index? && node.Arr? {
        var i := p[0].index;
        var padded := Padded(node.items, i);
        LastAssignWins(padded[i], p[1..], v, w);
        AssignThenRead(padded[i], p[1..], v);
        AssignThenRead(padded[i], p[1..], w);
        var a := Update(padded[i], p[1..], Assign(v)).value;
        var b := Update(padded[i], p[1..], Assign(w)).value;
        assert Padded(padded[i := a], i)[i := b] == padded[i := b];
      }
    }
  }

  /** Writing back what a path reads changes nothing, exactly when the path exists or is blocked. */
  lemma {:induction false} WriteBackIsIdentity(d: Doc, p: Path)
    requires Concrete(p)
    ensures |Lookup(d, p)| == 1
    ensures Update(d, p, Assign(Lookup(d, p)[0])) == Ok(d) <==> Exists(d, p) || !Fits(d, p)
    decreases |p|
  {
    LookupSingle(d, p);
    AssignThenRead(d, p, Lookup(d, p)[0]);
    if p != [] {
      ConcreteTail(p);
      if p[0].Field? && d.Obj? {
        var k := p[0].key;
        WriteBackIsIdentity(Get(d.fields, k), p[1..]);
        AssignThenRead(Get(d.fields, k), p[1..], Lookup(d, p)[0]);
        if k in d.fields {
          var v := Update(d.fields[k], p[1..], Assign(Lookup(d, p)[0])).value;
          assert d.fields[k := v] == d.fields <==> v == d.fields[k];
        } else {
          FitsNull(p[1..]);
        }
      } else if p[0].Index? && d.Arr? {
        var i := p[0].index;
        if i < |d.items| {
          WriteBackIsIdentity(d.items[i], p[1..]);
          AssignThenRead(d.items[i], p[1..], Lookup(d, p)[0]);
          var v := Update(d.items[i], p[1..], Assign(Lookup(d, p)[0])).value;
          assert d.items[i := v] == d.items <==> v == d.items[i];
        } else {
          AssignThenRead(Null, p[1..], Lookup(d, p)[0]);
        }
      } else if d.Null? {
        AssignThenRead(Null, p[1..], Null);
      }
    }
  }

  // ---- negative indices and wildcards ----

  /** Writing to `[-k]` of an array of n items writes item n - k; past the front it fails. */
  lemma NegativeIndexUpdates(d: Doc, k: int, p: Path, u: Updater)
    requires d.Arr? && k >= 1
    ensures k <= |d.items| ==> Update(d, [Index(-k)] + p, u) == Update(d, [Index(|d.items| - k)] + p, u)
    ensures k <= |d.items| && Update(d.items[|d.items| - k], p, u).Ok? ==>
              Update(d, [Index(-k)] + p, u) == Ok(Arr(d.items[|d.items| - k := Update(d.items[|d.items| - k], p, u).value]))
    ensures k > |d.items| ==> Update(d, [Index(-k)] + p, u) == Err
  {
    var negative, positive := [Index(-k)] + p, [Index(|d.items| - k)] + p;
    assert negative[0] == Index(-k) && negative[1..] == p;
    assert positive[0] == Index(|d.items| - k) && positive[1..] == p;
  }

  /** A wildcard updates every child where it stands; it fails exactly when a child fails, and leaves anything else alone. */
  lemma WildcardUpdates(d: Doc, p: Path, u: Updater)
    ensures d.Arr? ==>
              var r := Update(d, [Wildcard] + p, u);
              && (r.Ok? <==> forall i | 0 <= i < |d.items| :: Update(d.items[i], p, u).Ok?)
              && (r.Ok? ==> r.value.Arr? && |r.value.items| == |d.items| &&
                            forall i | 0 <= i < |d.items| :: Ok(r.value.items[i]) == Update(d.items[i], p, u))
    ensures d.Obj? ==>
              var r := Update(d, [Wildcard] + p, u);
              && (r.Ok? <==> forall k | k in d.fields :: Update(d.fields[k], p, u).Ok?)
              && (r.Ok? ==> r.value.Obj? && r.value.fields.Keys == d.fields.Keys &&
                            forall k | k in d.fields :: Ok(r.value.fields[k]) == Update(d.fields[k], p, u))
    ensures d.Null? || d.Scalar? ==> Update(d, [Wildcard] + p, u) == Ok(d)
  {
    var path := [Wildcard] + p;
    assert path[0] == Wildcard && path[1..] == p;
  }
}
