/** Caching a DNS message and rewriting its TTLs when it is served again. */
module DnsTtl {
  import opened Wrappers

  const WORD := 0x1_0000_0000
  type uint32 = x: int | 0 <= x < 0x1_0000_0000

  const SECOND := 1_000_000_000

  datatype Record = Record(rrtype: nat, ttl: uint32, data: nat)

  const TYPE_TXT := 16
  const TYPE_OPT := 41
  const SERVER_FAILURE := 2
  const SERVER_FAILURE_CACHE_TTL: uint32 := 5

  datatype Message = Message(rcode: nat, answer: seq<Record>, ns: seq<Record>, extra: seq<Record>)

  // ---- 32-bit arithmetic ----

  function Sub(a: uint32, b: uint32): uint32 {
    if a >= b then a - b else a - b + WORD
  }

  function Clamp(v: uint32, lo: uint32, hi: uint32): uint32 {
    if v < lo then lo else if v > hi then hi else v
  }

  // ---- one section ----

  /** The least TTL of a section, and 0 for an empty one. */
  function MinTtl(s: seq<Record>): (m: uint32)
    ensures forall i | 0 <= i < |s| :: m <= s[i].ttl
    ensures s != [] ==> exists i :: 0 <= i < |s| && m == s[i].ttl
    ensures s == [] ==> m == 0
  {
    if s == [] then 0
    else if |s| == 1 then s[0].ttl
    else
      var m := MinTtl(s[..|s| - 1]);
      if s[|s| - 1].ttl < m then s[|s| - 1].ttl else m
  }

  function Rewritten(x: Record, delta: uint32): Record {
    x.(ttl := Clamp(Sub(x.ttl, delta), 1, x.ttl))
  }

  function Updated(s: seq<Record>, r: uint32): (u: seq<Record>)
    ensures |u| == |s|
  {
    seq(|s|, i requires 0 <= i < |s| => Rewritten(s[i], Sub(MinTtl(s), r)))
  }

  method MinimalTTL(records: seq<Record>) returns (m: uint32)
    ensures m == MinTtl(records)
  {
    if records == [] {
      return 0;
    }
    m := records[0].ttl;
    for i := 1 to |records|
      invariant m == MinTtl(records[..i])
    {
      assert records[..i + 1][..i] == records[..i];
      if records[i].ttl < m {
        m := records[i].ttl;
      }
    }
    assert records[..|records|] == records;
  }

  method UpdateTTL(records: array<Record>, r: uint32)
    modifies records
    ensures records[..] == Updated(old(records[..]), r)
  {
    if records.Length == 0 {
      return;
    }
    var m := MinimalTTL(records[..]);
    var delta := Sub(m, r);
    for i := 0 to records.Length
      invariant forall k | 0 <= k < i :: records[k] == Rewritten(old(records[k]), delta)
      invariant forall k | i <= k < records.Length :: records[k] == old(records[k])
    {
      records[i] := records[i].(ttl := Clamp(Sub(records[i].ttl, delta), 1, records[i].ttl));
    }
  }

  method UpdateMsgTTL(answer: array<Record>, ns: array<Record>, extra: array<Record>, r: uint32)
    requires answer != ns && answer != extra && ns != extra
    modifies answer, ns, extra
    ensures answer[..] == Updated(old(answer[..]), r)
    ensures ns[..] == Updated(old(ns[..]), r)
    ensures extra[..] == Updated(old(extra[..]), r)
  {
    UpdateTTL(answer, r);
    UpdateTTL(ns, r);
    UpdateTTL(extra, r);
  }

  /**
   What the wrapping subtraction and the clamp do to one record, for every r. Below
   the section's minimum the common difference goes off; above it a record stays as
   it is unless adding the difference passes 2^32.
   */
  lemma RewriteExactly(s: seq<Record>, r: uint32, i: nat)
    requires i < |s|
    ensures var o, m, x := s[i].ttl, MinTtl(s), Updated(s, r)[i];
            && x == s[i].(ttl := x.ttl)
            && x.ttl == (
              if r <= m then (if o - (m - r) >= 1 then o - (m - r) else 1)
              else if o + (r - m) < WORD then o
              else if o + (r - m) - WORD >= 1 then o + (r - m) - WORD
              else 1)
  {
  }

  /** With 1 <= r <= minimum nothing wraps: every TTL loses the same amount and the order by TTL is kept. */
  lemma SectionShifts(s: seq<Record>, r: uint32, i: nat, j: nat)
    requires 1 <= r <= MinTtl(s) && i < |s| && j < |s|
    ensures Updated(s, r)[i].ttl == s[i].ttl - (MinTtl(s) - r)
    ensures r <= Updated(s, r)[i].ttl <= s[i].ttl
    ensures Updated(s, r)[i].ttl < Updated(s, r)[j].ttl <==> s[i].ttl < s[j].ttl
  {
  }

  /** A non-empty section's minimum becomes the r seconds left exactly when r is neither 0 nor above the old minimum. */
  lemma MinimumBecomesRemaining(s: seq<Record>, r: uint32)
    requires s != []
    ensures MinTtl(Updated(s, r)) == r <==> 1 <= r <= MinTtl(s)
  {
    var u := Updated(s, r);
    var i :| 0 <= i < |s| && MinTtl(s) == s[i].ttl;
    var j :| 0 <= j < |u| && MinTtl(u) == u[j].ttl;
    RewriteExactly(s, r, i);
    RewriteExactly(s, r, j);
    assert MinTtl(u) <= u[i].ttl;
    assert MinTtl(s) <= s[j].ttl;
  }

  /** A cached failure's records may wrap: here one TTL is 0 and the other is the largest there is. */
  lemma FailureCanWrap(r: uint32)
    requires 1 <= r <= SERVER_FAILURE_CACHE_TTL
    ensures var s := [Record(1, 0, 0), Record(1, 0xffff_ffff, 1)];
            Put(false, Message(SERVER_FAILURE, s, [], [])) == Some(Stored(Message(SERVER_FAILURE, s, [], []), 5))
            && Updated(s, r)[0].ttl == 0 && Updated(s, r)[1].ttl == (if r == 1 then 1 else r - 1)
  {
  }

  // ---- the cache ----

  function WithoutOpt(s: seq<Record>): (r: seq<Record>)
    ensures forall x :: x in r <==> x in s && x.rrtype != TYPE_OPT
  {
    if s == [] then [] else
      var rest := WithoutOpt(s[..|s| - 1]);
      assert s == s[..|s| - 1] + [s[|s| - 1]];
      if s[|s| - 1].rrtype != TYPE_OPT then rest + [s[|s| - 1]] else rest
  }

  datatype Stored = Stored(msg: Message, ttl: uint32)

  function Records(m: Message): seq<Record> {
    m.answer + m.ns + m.extra
  }

  /** What putMsgToCache stores, and for how many seconds. */
  function Put(acmeChallenge: bool, msg: Message): Option<Stored> {
    var kept := msg.(extra := WithoutOpt(msg.extra));
    var ttl := if msg.rcode == SERVER_FAILURE then SERVER_FAILURE_CACHE_TTL else MinTtl(Records(kept));
    if acmeChallenge || ttl == 0 then None else Some(Stored(kept, ttl))
  }

  method PutMsgToCache(qtype: nat, acmePrefix: bool, msg: Message) returns (r: Option<Stored>)
    ensures r == Put(qtype == TYPE_TXT && acmePrefix, msg)
  {
    if qtype == TYPE_TXT && acmePrefix {
      return None;
    }
    var extra: seq<Record> := [];
    for i := 0 to |msg.extra|
      invariant extra == WithoutOpt(msg.extra[..i])
    {
      assert msg.extra[..i + 1][..i] == msg.extra[..i];
      if msg.extra[i].rrtype != TYPE_OPT {
        extra := extra + [msg.extra[i]];
      }
    }
    assert msg.extra[..|msg.extra|] == msg.extra;
    var kept := msg.(extra := extra);
    var ttl: uint32 := SERVER_FAILURE_CACHE_TTL;
    if msg.rcode != SERVER_FAILURE {
      ttl := MinimalTTL(Records(kept));
    }
    if ttl == 0 {
      return None;
    }
    r := Some(Stored(kept, ttl));
  }

  /** Exactly which messages are cached; what is cached has no OPT record and lives no longer than any of its records. */
  lemma PutStores(acmeChallenge: bool, msg: Message)
    ensures Put(acmeChallenge, msg).Some? <==>
              && !acmeChallenge
              && (msg.rcode == SERVER_FAILURE
                  || ((exists x :: x in msg.answer + msg.ns + WithoutOpt(msg.extra))
                      && forall x | x in msg.answer + msg.ns + WithoutOpt(msg.extra) :: x.ttl > 0))
    ensures Put(acmeChallenge, msg).Some? ==>
              var st := Put(acmeChallenge, msg).value;
              && (forall x | x in st.msg.extra :: x.rrtype != TYPE_OPT)
              && (msg.rcode != SERVER_FAILURE ==> forall x | x in Records(st.msg) :: st.ttl <= x.ttl)
  {
    var all := msg.answer + msg.ns + WithoutOpt(msg.extra);
    var m := MinTtl(all);
    assert Records(msg.(extra := WithoutOpt(msg.extra))) == all;
    assert all == [] ==> m == 0;
    if all != [] {
      var i :| 0 <= i < |all| && m == all[i].ttl;
      assert all[i] in all;
    }
  }

  lemma SectionMinAtLeast(s: seq<Record>, ttl: uint32)
    requires s != [] && forall x | x in s :: ttl <= x.ttl
    ensures ttl <= MinTtl(s)
  {
  }

  /** Whole seconds left at time now, in nanoseconds, of an entry stored at time put. */
  function Remaining(st: Stored, put: nat, now: nat): uint32
    requires put <= now <= put + st.ttl * SECOND
  {
    (put + st.ttl * SECOND - now) / SECOND
  }

  /** A section of a stored message. */
  ghost predicate SectionOf(m: Message, s: seq<Record>) {
    s == m.answer || s == m.ns || s == m.extra
  }

  /**
   Serving a cached non-failure with at least a second left: in every section each TTL
   loses the same amount without wrapping, is at least the time left and at most its old
   value minus the time passed, and the section's minimum is exactly the time left.
   */
  lemma ServedTtls(acmeChallenge: bool, msg: Message, put: nat, now: nat, s: seq<Record>, i: nat)
    requires Put(acmeChallenge, msg).Some? && msg.rcode != SERVER_FAILURE
    requires put <= now <= put + Put(acmeChallenge, msg).value.ttl * SECOND
    requires SectionOf(Put(acmeChallenge, msg).value.msg, s) && i < |s|
    requires Remaining(Put(acmeChallenge, msg).value, put, now) >= 1
    ensures var r := Remaining(Put(acmeChallenge, msg).value, put, now);
            var u := Updated(s, r);
            && u[i] == s[i].(ttl := u[i].ttl) && u[i].ttl == s[i].ttl - (MinTtl(s) - r)
            && r <= u[i].ttl && u[i].ttl * SECOND <= s[i].ttl * SECOND - (now - put)
            && MinTtl(u) == r
  {
    var st := Put(acmeChallenge, msg).value;
    var r := Remaining(st, put, now);
    PutStores(acmeChallenge, msg);
    forall x | x in s ensures st.ttl <= x.ttl {
      assert x in Records(st.msg);
    }
    SectionMinAtLeast(s, st.ttl);
    assert r <= st.ttl;
    SectionShifts(s, r, i, i);
    RewriteExactly(s, r, i);
    MinimumBecomesRemaining(s, r);
  }

  // ---- what the cache keeps ----

  function UnlessOpt(x: Record): seq<Record> {
    if x.rrtype == TYPE_OPT then [] else [x]
  }

  lemma WithoutOptSnoc(s: seq<Record>, x: Record)
    ensures WithoutOpt(s + [x]) == WithoutOpt(s) + UnlessOpt(x)
    ensures WithoutOpt([x]) == UnlessOpt(x)
  {
    assert (s + [x])[..|s|] == s && [x][..0] == [];
  }

  lemma SplitLast(a: seq<Record>, b: seq<Record>)
    requires b != []
    ensures a + b == (a + b[..|b| - 1]) + [b[|b| - 1]] && b == b[..|b| - 1] + [b[|b| - 1]]
  {
  }

  lemma Associative(a: seq<Record>, b: seq<Record>, c: seq<Record>)
    ensures (a + b) + c == a + (b + c)
  {
  }

  /** Stripping goes record by record and keeps the order of what it keeps. */
  lemma {:induction false} WithoutOptKeepsOrder(a: seq<Record>, b: seq<Record>)
    ensures WithoutOpt(a + b) == WithoutOpt(a) + WithoutOpt(b)
    decreases |b|
  {
    if b == [] {
      assert a + b == a;
    } else {
      var front, last := b[..|b| - 1], b[|b| - 1];
      WithoutOptKeepsOrder(a, front);
      SplitLast(a, b);
      WithoutOptSnoc(a + front, last);
      WithoutOptSnoc(front, last);
      Associative(WithoutOpt(a), WithoutOpt(front), UnlessOpt(last));
    }
  }

  /** A stored message is the message itself but for its OPT records; a non-failure lives as long as its shortest record. */
  lemma PutKeepsMessage(acmeChallenge: bool, msg: Message)
    requires Put(acmeChallenge, msg).Some?
    ensures var st := Put(acmeChallenge, msg).value;
            && st.msg.rcode == msg.rcode && st.msg.answer == msg.answer && st.msg.ns == msg.ns
            && st.msg.extra == WithoutOpt(msg.extra)
            && (msg.rcode == SERVER_FAILURE ==> st.ttl == 5)
            && (msg.rcode != SERVER_FAILURE ==> exists x | x in msg.answer + msg.ns + WithoutOpt(msg.extra) :: x.ttl == st.ttl)
  {
    var all := Records(msg.(extra := WithoutOpt(msg.extra)));
    if msg.rcode != SERVER_FAILURE {
      var i :| 0 <= i < |all| && MinTtl(all) == all[i].ttl;
      assert all[i] in msg.answer + msg.ns + WithoutOpt(msg.extra);
    }
  }

  /** The seconds left are the greatest whole number that fits into the time left. */
  lemma RemainingMeans(st: Stored, put: nat, now: nat)
    requires put <= now <= put + st.ttl * SECOND
    ensures var r := Remaining(st, put, now); now + r * SECOND <= put + st.ttl * SECOND < now + (r + 1) * SECOND
  {
  }
}
