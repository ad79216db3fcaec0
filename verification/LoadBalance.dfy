/** The load-balance strategies: jump consistent hash, consistent hashing, round robin. */
module LoadBalance {
  // ---- jump hash ----

  newtype uint64 = x: int | 0 <= x < 0x1_0000_0000_0000_0000

  /** key*2862933555777941757 + 1 in wrapping 64-bit arithmetic. */
  function NextKey(key: uint64): uint64 {
    ((key as int * 2862933555777941757 + 1) % 0x1_0000_0000_0000_0000) as uint64
  }

  /** key + 1 in wrapping 64-bit arithmetic. */
  function Increment(key: uint64): uint64 {
    ((key as int + 1) % 0x1_0000_0000_0000_0000) as uint64
  }

  /** Where to jump from bucket b with a fresh key. */
  type JumpStep = (nat, uint64) -> nat

  /** A jump always goes forward; floating-point rounding cannot break that. */
  ghost predicate Forward(step: JumpStep) {
    forall b: nat, key :: step(b, key) >= b + 1
  }

  /** The jump in exact arithmetic: floor((b + 1) * 2^31 / ((key >> 33) + 1)). */
  function ExactStep(b: nat, key: uint64): nat {
    Quotient((b + 1) * 0x8000_0000, key as int / 0x2_0000_0000 + 1)
  }

  function Quotient(x: nat, d: nat): (q: nat)
    requires d > 0
    ensures q * d <= x < (q + 1) * d
  {
    x / d
  }

  lemma QuotientBounds(x: nat, d: nat)
    requires 0 < d <= 0x8000_0000
    ensures x <= Quotient(x * 0x8000_0000, d) <= x * 0x8000_0000
  {
    var q := Quotient(x * 0x8000_0000, d);
    if q < x {
      assert (q + 1) * d <= x * 0x8000_0000 by {
        ProductMonotone(q + 1, x, d, 0x8000_0000);
      }
    }
    ProductMonotone(q, q, 1, d);
  }

  lemma ProductMonotone(a: nat, b: nat, c: nat, d: nat)
    requires a <= b && c <= d
    ensures a * c <= b * d
  {
  }

  /** The exact jump goes forward, and from an int32 bucket it fits an int64. */
  lemma ExactStepForward()
    ensures Forward(ExactStep)
    ensures forall b: nat, key | b < 0x7fff_ffff :: ExactStep(b, key) < 0x8000_0000_0000_0000
  {
    forall b: nat, key ensures b + 1 <= ExactStep(b, key) <= (b + 1) * 0x8000_0000 {
      QuotientBounds(b + 1, key as int / 0x2_0000_0000 + 1);
    }
  }

  /** The bucket reached from b when the next jump goes to j. */
  function Jump(step: JumpStep, b: nat, j: nat, key: uint64, buckets: int): nat
    requires Forward(step)
    decreases buckets - j
  {
    if j >= buckets then b
    else
      assert step(j, NextKey(key)) >= j + 1;
      Jump(step, j, step(j, NextKey(key)), NextKey(key), buckets)
  }

  function JumpHash(step: JumpStep, key: uint64, buckets: int): nat
    requires Forward(step)
  {
    Jump(step, 0, 0, key, buckets)
  }

  /** jumpHash; a step below 2^63 is what int64 needs, see ExactStepForward. */
  method ComputeJumpHash(step: JumpStep, start: uint64, buckets: int) returns (bucket: nat)
    requires Forward(step)
    ensures bucket == JumpHash(step, start, buckets)
  {
    var b: nat, j: nat, key := 0, 0, start;
    while j < buckets
      invariant Jump(step, 0, 0, start, buckets) == Jump(step, b, j, key, buckets)
      decreases buckets - j
    {
      b := j;
      key := NextKey(key);
      assert step(b, key) >= b + 1;
      j := step(b, key);
    }
    bucket := b;
  }

  lemma {:induction false} JumpInRange(step: JumpStep, b: nat, j: nat, key: uint64, buckets: int)
    requires Forward(step) && (b < buckets || j < buckets)
    ensures Jump(step, b, j, key, buckets) < buckets
    decreases buckets - j
  {
    if j < buckets {
      assert step(j, NextKey(key)) >= j + 1;
      JumpInRange(step, j, step(j, NextKey(key)), NextKey(key), buckets);
    }
  }

  lemma {:induction false} JumpGrows(step: JumpStep, b: nat, j: nat, key: uint64, m: nat, n: nat)
    requires Forward(step) && m <= n
    ensures Jump(step, b, j, key, n) == Jump(step, b, j, key, m) || m <= Jump(step, b, j, key, n)
    decreases n - j
  {
    if j < n {
      assert step(j, NextKey(key)) >= j + 1;
      if j < m {
        JumpGrows(step, j, step(j, NextKey(key)), NextKey(key), m, n);
      } else {
        JumpStays(step, j, step(j, NextKey(key)), NextKey(key), n);
      }
    }
  }

  lemma {:induction false} JumpStays(step: JumpStep, b: nat, j: nat, key: uint64, n: nat)
    requires Forward(step) && b < j
    ensures Jump(step, b, j, key, n) >= b
    decreases n - j
  {
    if j < n {
      assert step(j, NextKey(key)) >= j + 1;
      JumpStays(step, j, step(j, NextKey(key)), NextKey(key), n);
    }
  }

  /**
   The hash is a valid bucket, and when buckets are added a key either keeps its
   bucket or moves to an added one.
   */
  lemma HashIsConsistent(step: JumpStep, key: uint64, m: nat, n: nat)
    requires Forward(step) && 1 <= m <= n
    ensures JumpHash(step, key, n) < n
    ensures JumpHash(step, key, n) == JumpHash(step, key, m) || m <= JumpHash(step, key, n)
    ensures JumpHash(step, key, m + 1) == JumpHash(step, key, m) || JumpHash(step, key, m + 1) == m
  {
    JumpInRange(step, 0, 0, key, n);
    JumpInRange(step, 0, 0, key, m + 1);
    JumpGrows(step, 0, 0, key, m, n);
    JumpGrows(step, 0, 0, key, m, m + 1);
  }

  /** The keys are those of the 64-bit generator: nothing but whole multiples of 2^64 is lost, and the increment wraps once. */
  lemma KeyArithmetic(key: uint64) returns (q: nat)
    ensures key as int * 2862933555777941757 + 1 == q * 0x1_0000_0000_0000_0000 + NextKey(key) as int
    ensures Increment(key) as int == if key == 0xffff_ffff_ffff_ffff then 0 else key as int + 1
  {
    q := (key as int * 2862933555777941757 + 1) / 0x1_0000_0000_0000_0000;
  }

  /** The exact jump is the floor of the quotient that the program computes in floating point. */
  lemma ExactStepMeans(b: nat, key: uint64)
    ensures var d := key as int / 0x2_0000_0000 + 1;
            ExactStep(b, key) * d <= (b + 1) * 0x8000_0000 < (ExactStep(b, key) + 1) * d
  {
  }

  /** Successive jumps js from bucket js[0], each with the next key. */
  ghost predicate Jumps(step: JumpStep, key: uint64, js: seq<nat>)
    decreases |js|
  {
    |js| >= 1 && (|js| == 1 || (js[1] == step(js[0], NextKey(key)) && Jumps(step, NextKey(key), js[1..])))
  }

  lemma {:induction false} JumpIsLastBelow(step: JumpStep, b: nat, j: nat, key: uint64, buckets: int) returns (js: seq<nat>)
    requires Forward(step) && j < buckets
    ensures |js| >= 2 && js[0] == j && Jumps(step, key, js)
    ensures Jump(step, b, j, key, buckets) == js[|js| - 2] < buckets <= js[|js| - 1]
    decreases buckets - j
  {
    var next := step(j, NextKey(key));
    assert next >= j + 1;
    if next >= buckets {
      js := [j, next];
      assert Jumps(step, NextKey(key), js[1..]);
    } else {
      var rest := JumpIsLastBelow(step, j, next, NextKey(key), buckets);
      js := [j] + rest;
      assert js[1..] == rest;
    }
  }

  /** The hash is the last bucket below n that the jumps from bucket 0 reach. */
  lemma HashIsLastJump(step: JumpStep, key: uint64, n: nat) returns (js: seq<nat>)
    requires Forward(step) && n >= 1
    ensures |js| >= 2 && js[0] == 0 && Jumps(step, key, js) && JumpHash(step, key, n) == js[|js| - 2] < n <= js[|js| - 1]
  {
    js := JumpIsLastBelow(step, 0, 0, key, n);
  }

  // ---- consistent hashing over live proxies ----

  const MAX_RETRY := 5

  ghost predicate AnyAlive(alive: seq<bool>) {
    exists i | 0 <= i < |alive| :: alive[i]
  }

  /** The key after i failed tries. */
  function Bumped(key: uint64, i: nat): uint64 {
    if i == 0 then key else Increment(Bumped(key, i - 1))
  }

  /** The proxy that try i hashes to. */
  ghost function Try(step: JumpStep, start: uint64, n: nat, i: nat): (r: nat)
    requires Forward(step) && n > 0
    ensures r < n && r == JumpHash(step, Bumped(start, i), n)
  {
    JumpInRange(step, 0, 0, Bumped(start, i), n);
    JumpHash(step, Bumped(start, i), n)
  }

  ghost predicate FirstLiveTry(step: JumpStep, start: uint64, alive: seq<bool>, i: nat)
    requires Forward(step) && alive != []
  {
    alive[Try(step, start, |alive|, i)] && forall j: nat | j < i :: !alive[Try(step, start, |alive|, j)]
  }

  /** The first live proxy among five hashed tries, else the first live one, else the first. */
  method ConsistentHashing(step: JumpStep, start: uint64, alive: seq<bool>) returns (choice: nat)
    requires Forward(step) && alive != []
    ensures choice < |alive|
    ensures forall i: nat | i < 5 && FirstLiveTry(step, start, alive, i) :: choice == Try(step, start, |alive|, i)
    ensures (forall i: nat | i < 5 :: !alive[Try(step, start, |alive|, i)]) && AnyAlive(alive) ==>
              alive[choice] && forall j | 0 <= j < choice :: !alive[j]
    ensures AnyAlive(alive) ==> alive[choice]
    ensures !AnyAlive(alive) ==> choice == 0
  {
    var key := start;
    for i := 0 to MAX_RETRY
      invariant key == Bumped(start, i)
      invariant forall j: nat | j < i :: !alive[Try(step, start, |alive|, j)]
    {
      var idx := ComputeJumpHash(step, key, |alive|);
      assert idx == Try(step, start, |alive|, i);
      if alive[idx] {
        return idx;
      }
      key := Increment(key);
    }
    for i := 0 to |alive|
      invariant forall j | 0 <= j < i :: !alive[j]
    {
      if alive[i] {
        return i;
      }
    }
    choice := 0;
  }

  // ---- round robin ----

  /** Position u of a list of n proxies walked round once. */
  function Turn(u: nat, n: nat): nat
    requires u < 2 * n
  {
    if u < n then u else u - n
  }

  predicate LiveFrom(alive: seq<bool>, start: nat, i: nat)
    requires start < |alive| && i < |alive|
  {
    alive[Turn(start + i, |alive|)]
  }

  /** The distance from start to the first live proxy, trying from distance i; the length if there is none. */
  function Offset(alive: seq<bool>, start: nat, i: nat): (r: nat)
    requires start < |alive| && i <= |alive|
    ensures i <= r <= |alive|
    ensures r < |alive| ==> LiveFrom(alive, start, r)
    ensures forall k: nat | i <= k < r :: !LiveFrom(alive, start, k)
    decreases |alive| - i
  {
    if i == |alive| || LiveFrom(alive, start, i) then i else Offset(alive, start, i + 1)
  }

  datatype Choice = Choice(proxy: nat, idx: nat)

  /** What a touching call returns from index start, and the index it leaves. */
  function Pick(alive: seq<bool>, start: nat): Choice
    requires start < |alive|
  {
    var n, i := |alive|, Offset(alive, start, 0);
    if i < n then Choice(Turn(start + i, n), Turn(start + i + 1, n)) else Choice(0, start)
  }

  lemma RemainderUnique(x: int, q: int, r: int, n: nat)
    requires 0 <= r < n && x == q * n + r
    ensures x % n == r
  {
    var k := x / n - q;
    assert k * n == r - x % n by {
      assert x == (x / n) * n + x % n;
      assert k * n == (x / n) * n - q * n;
    }
    if k > 0 {
      ProductMonotone(1, k, n, n);
    } else {
      assert (-k) * n == -(k * n);
      if k < 0 { ProductMonotone(1, -k, n, n); }
    }
  }

  /** The index arithmetic of the program, `(idx + i) % length`, walks round from idx % length. */
  lemma TurnIsRemainder(idx: nat, i: nat, n: nat)
    requires 0 < n && i <= n
    ensures 0 <= idx % n < n
    ensures (idx + i) % n == Turn(idx % n + i, n)
  {
    var q, s := idx / n, idx % n;
    assert idx == q * n + s;
    if s + i < n {
      RemainderUnique(idx + i, q, s + i, n);
    } else {
      assert (q + 1) * n == q * n + n;
      RemainderUnique(idx + i, q + 1, s + i - n, n);
    }
  }

  class RoundRobin {
    var idx: nat

    constructor ()
      ensures idx == 0
    {
      idx := 0;
    }

    /** The list may have shrunk since idx was written, so idx can be past its end. */
    method Next(alive: seq<bool>, touch: bool) returns (proxy: nat)
      requires alive != []
      modifies this
      ensures 0 <= old(idx) % |alive| < |alive|
      ensures proxy == Pick(alive, old(idx) % |alive|).proxy
      ensures idx == if touch then Pick(alive, old(idx) % |alive|).idx else old(idx)
    {
      var length := |alive|;
      var i: nat := 0;
      TurnIsRemainder(idx, 0, length);
      ghost var start := idx % length;
      while i < length
        invariant i <= length && idx == old(idx) && Offset(alive, start, 0) == Offset(alive, start, i)
      {
        TurnIsRemainder(idx, i, length);
        TurnIsRemainder(idx, i + 1, length);
        var id := (idx + i) % length;
        if alive[id] {
          i := i + 1;
          if touch {
            idx := (idx + i) % length;
          }
          return id;
        }
        i := i + 1;
      }
      TurnIsRemainder(idx, length, length);
      if touch {
        idx := (idx + i) % length;
      }
      proxy := 0;
    }
  }

  /** The proxies that c touching calls in a row return. */
  function Picks(alive: seq<bool>, start: nat, c: nat): seq<nat>
    requires start < |alive|
    decreases c
  {
    if c == 0 then [] else [Pick(alive, start).proxy] + Picks(alive, Pick(alive, start).idx, c - 1)
  }

  function Live(alive: seq<bool>): set<nat> {
    set i: nat | i < |alive| && alive[i]
  }

  /** Among the positions of the turn that begins at base, exactly the live ones before p have been picked. */
  ghost predicate PickedBefore(alive: seq<bool>, base: nat, p: nat, picked: set<nat>)
    requires base <= p <= base + |alive| && base < |alive|
  {
    forall r: nat :: r in picked <==> r in Live(alive) && Position(r, base, |alive|) < p
  }

  /** Where proxy r comes in the turn that begins at base. */
  function Position(r: nat, base: nat, n: nat): nat {
    if r >= base then r else r + n
  }

  lemma NextPick(alive: seq<bool>, base: nat, p: nat, start: nat, picked: set<nat>) returns (u: nat)
    requires base < |alive| && start < |alive| && base <= p < base + |alive| && start == Turn(p, |alive|)
    requires PickedBefore(alive, base, p, picked) && Live(alive) - picked != {}
    ensures p <= u < base + |alive| && Turn(u, |alive|) in Live(alive) - picked
    ensures Pick(alive, start) == Choice(Turn(u, |alive|), Turn(u + 1, |alive|))
    ensures PickedBefore(alive, base, u + 1, picked + {Turn(u, |alive|)})
  {
    var n := |alive|;
    var r :| r in Live(alive) - picked;
    var w := Position(r, base, n);
    assert p <= w < base + n;
    assert LiveFrom(alive, start, w - p);
    var i := Offset(alive, start, 0);
    assert i <= w - p;
    u := p + i;
    NothingBetween(alive, base, p, start, u);
  }

  lemma LiveAhead(alive: seq<bool>, base: nat, p: nat, start: nat, s: nat)
    requires base < |alive| && start < |alive| && base <= p < base + |alive| && start == Turn(p, |alive|)
    requires s in Live(alive) && p <= Position(s, base, |alive|)
    ensures Position(s, base, |alive|) - p < |alive| && LiveFrom(alive, start, Position(s, base, |alive|) - p)
  {
  }

  lemma NothingBetween(alive: seq<bool>, base: nat, p: nat, start: nat, u: nat)
    requires base < |alive| && start < |alive| && base <= p <= u < base + |alive| && start == Turn(p, |alive|)
    requires u - p == Offset(alive, start, 0)
    ensures forall s: nat | s in Live(alive) :: !(p <= Position(s, base, |alive|) < u)
    ensures Turn(u, |alive|) in Live(alive) && Position(Turn(u, |alive|), base, |alive|) == u
  {
    forall s: nat | s in Live(alive) ensures !(p <= Position(s, base, |alive|) < u) {
      if p <= Position(s, base, |alive|) {
        LiveAhead(alive, base, p, start, s);
      }
    }
    assert LiveFrom(alive, start, u - p);
  }

  lemma {:induction false} PicksCover(alive: seq<bool>, base: nat, p: nat, start: nat, c: nat, picked: set<nat>)
    requires base < |alive| && start < |alive| && base <= p <= base + |alive| && start == Turn(p, |alive|)
    requires PickedBefore(alive, base, p, picked) && |picked| + c == |Live(alive)|
    ensures var ps := Picks(alive, start, c);
            && |ps| == c
            && (forall r | r in ps :: r !in picked)
            && (forall i, j | 0 <= i < j < c :: ps[i] != ps[j])
            && (forall r :: r in Live(alive) <==> r in picked || r in ps)
    decreases c
  {
    assert picked <= Live(alive);
    SubsetSame(picked, Live(alive));
    if c > 0 {
      var n := |alive|;
      var r :| r in Live(alive) - picked;
      assert p <= Position(r, base, n) < base + n;
      var u := NextPick(alive, base, p, start, picked);
      PicksCover(alive, base, u + 1, Turn(u + 1, n), c - 1, picked + {Turn(u, n)});
      var rest := Picks(alive, Turn(u + 1, n), c - 1);
      assert Picks(alive, start, c) == [Turn(u, n)] + rest;
      forall j | 0 <= j < |rest| ensures rest[j] != Turn(u, n) {
        assert rest[j] in rest;
      }
    }
  }

  lemma SubsetSame(a: set<nat>, b: set<nat>)
    requires a <= b
    ensures |a| == |b| ==> a == b
    ensures |a| < |b| ==> b - a != {}
  {
    assert b == a + (b - a);
    assert |b| == |a| + |b - a|;
  }

  /** With k live proxies, any k touching calls in a row return each live proxy exactly once. */
  lemma RoundRobinIsFair(alive: seq<bool>, start: nat)
    requires start < |alive|
    ensures var ps := Picks(alive, start, |Live(alive)|);
            && |ps| == |Live(alive)|
            && (forall i, j | 0 <= i < j < |ps| :: ps[i] != ps[j])
            && (forall r :: r in ps <==> r in Live(alive))
  {
    PicksCover(alive, start, start, start, |Live(alive)|, {});
  }

  /** Place k after start in a list of n, going round. */
  function Around(start: nat, k: nat, n: nat): (r: nat)
    requires 0 < n
    ensures r < n && exists q: nat :: start + k == q * n + r
  {
    var q: nat, r := (start + k) / n, (start + k) % n;
    assert start + k == q * n + r;
    r
  }

  lemma AroundIsTurn(start: nat, k: nat, n: nat)
    requires start < n && k <= n
    ensures Around(start, k, n) == Turn(start + k, n)
  {
    RemainderUnique(start, 0, start, n);
    TurnIsRemainder(start, k, n);
  }

  /** A pick is the first live proxy from start on, going round once, and leaves the place after it; with none alive it is the first. */
  lemma PickMeans(alive: seq<bool>, start: nat) returns (i: nat)
    requires start < |alive|
    ensures var n, c := |alive|, Pick(alive, start);
            && (i < n ==> c == Choice(Around(start, i, n), Around(start, i + 1, n)) && alive[c.proxy])
            && (i >= n ==> c == Choice(0, start))
            && forall k: nat | k < i && k < n :: !alive[Around(start, k, n)]
  {
    var n := |alive|;
    i := Offset(alive, start, 0);
    if i < n {
      AroundIsTurn(start, i, n);
      AroundIsTurn(start, i + 1, n);
    }
    forall k: nat | k < i && k < n ensures !alive[Around(start, k, n)] {
      AroundIsTurn(start, k, n);
      assert !LiveFrom(alive, start, k);
    }
  }
}
