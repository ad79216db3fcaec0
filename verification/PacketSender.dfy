/** The UDP packet sender: who owns a packet, and the destination NAT of a session. */
module PacketSender {
  type Packet = nat

  // ---- ownership of packets ----

  /** The goroutine running Close: not started, about to take, holding a packet, finished. */
  datatype Closer = Idle | Draining | Dropping(packet: Packet) | Finished

  /** The goroutine running Process: waiting on its channel, busy with a packet, or returned. */
  datatype Worker = Waiting | Busy(packet: Packet) | Returned

  datatype Sender = Sender(
    capacity: nat,
    ctxDone: bool,
    ch: seq<Packet>,
    sending: set<Packet>,         // Send has passed its first check
    given: set<Packet>,           // every packet ever given to Send
    drops: multiset<Packet>,
    closer: Closer,
    worker: Worker)

  datatype Step =
    | SendBegin(packet: Packet)
    | SendPut(packet: Packet)
    | SendDrop(packet: Packet)
    | Take
    | Processed
    | Leave
    | Cancel
    | DrainTake
    | DrainDrop
    | DrainEnd

  predicate Enabled(s: Sender, st: Step) {
    match st
    case SendBegin(p) => p !in s.given
    case SendPut(p) => p in s.sending && |s.ch| < s.capacity
    // the drop cases of the second select: closed, or nothing else is ready
    case SendDrop(p) => p in s.sending && (s.ctxDone || |s.ch| == s.capacity)
    case Take => s.worker.Waiting? && s.ch != []
    case Processed => s.worker.Busy?
    case Leave => s.worker.Waiting? && s.ctxDone
    case Cancel => s.closer.Idle?
    case DrainTake => s.closer.Draining? && s.ch != []
    case DrainDrop => s.closer.Dropping?
    case DrainEnd => s.closer.Draining? && s.ch == []
  }

  function Next(s: Sender, st: Step): Sender
    requires Enabled(s, st)
  {
    match st
    case SendBegin(p) =>
      if s.ctxDone then s.(given := s.given + {p}, drops := s.drops + multiset{p})
      else s.(given := s.given + {p}, sending := s.sending + {p})
    case SendPut(p) =>
      s.(sending := s.sending - {p}, ch := s.ch + [p])
    case SendDrop(p) => s.(sending := s.sending - {p}, drops := s.drops + multiset{p})
    case Take => s.(worker := Busy(s.ch[0]), ch := s.ch[1..])
    case Processed => s.(worker := Waiting, drops := s.drops + multiset{s.worker.packet})
    case Leave => s.(worker := Returned)
    case Cancel => s.(ctxDone := true, closer := Draining)
    case DrainTake => s.(closer := Dropping(s.ch[0]), ch := s.ch[1..])
    case DrainDrop => s.(closer := Draining, drops := s.drops + multiset{s.closer.packet})
    case DrainEnd => s.(closer := Finished)
  }

  function Start(capacity: nat): Sender {
    Sender(capacity, false, [], {}, {}, multiset{}, Idle, Waiting)
  }

  /** In how many places p is accounted for: inside Send, queued, in a goroutine's hands, dropped. */
  function Places(s: Sender, p: Packet): nat {
    (if p in s.sending then 1 else 0) + multiset(s.ch)[p]
    + (if s.closer == Dropping(p) then 1 else 0) + (if s.worker == Busy(p) then 1 else 0) + s.drops[p]
  }

  ghost predicate Accounted(s: Sender) {
    forall p: Packet :: Places(s, p) == if p in s.given then 1 else 0
  }

  ghost predicate Inv(s: Sender) {
    Accounted(s) && (!s.closer.Idle? ==> s.ctxDone) && |s.ch| <= s.capacity
  }

  lemma HeadTail(ch: seq<Packet>)
    requires ch != []
    ensures multiset(ch) == multiset{ch[0]} + multiset(ch[1..])
  {
    assert ch == [ch[0]] + ch[1..];
  }

  // ---- one lemma per step ----

  lemma SendBeginKeeps(s: Sender, p: Packet)
    requires Inv(s) && Enabled(s, SendBegin(p))
    ensures Inv(Next(s, SendBegin(p)))
  {
    forall q: Packet ensures Places(Next(s, SendBegin(p)), q) == Places(s, q) + if q == p then 1 else 0 {
      assert Places(s, p) == 0;
    }
  }

  lemma SendPutKeeps(s: Sender, p: Packet)
    requires Inv(s) && Enabled(s, SendPut(p))
    ensures Inv(Next(s, SendPut(p)))
  {
    forall q: Packet ensures Places(Next(s, SendPut(p)), q) == Places(s, q) {
      assert multiset(s.ch + [p]) == multiset(s.ch) + multiset{p};
    }
  }

  lemma SendDropKeeps(s: Sender, p: Packet)
    requires Inv(s) && Enabled(s, SendDrop(p))
    ensures Inv(Next(s, SendDrop(p)))
  {
    forall q: Packet ensures Places(Next(s, SendDrop(p)), q) == Places(s, q) {
    }
  }

  lemma TakeKeeps(s: Sender)
    requires Inv(s) && Enabled(s, Take)
    ensures Inv(Next(s, Take))
  {
    HeadTail(s.ch);
    forall q: Packet ensures Places(Next(s, Take), q) == Places(s, q) {
    }
  }

  lemma ProcessedKeeps(s: Sender)
    requires Inv(s) && Enabled(s, Processed)
    ensures Inv(Next(s, Processed))
  {
    forall q: Packet ensures Places(Next(s, Processed), q) == Places(s, q) {
    }
  }

  lemma DrainTakeKeeps(s: Sender)
    requires Inv(s) && Enabled(s, DrainTake)
    ensures Inv(Next(s, DrainTake))
  {
    HeadTail(s.ch);
    forall q: Packet ensures Places(Next(s, DrainTake), q) == Places(s, q) {
    }
  }

  lemma DrainDropKeeps(s: Sender)
    requires Inv(s) && Enabled(s, DrainDrop)
    ensures Inv(Next(s, DrainDrop))
  {
    forall q: Packet ensures Places(Next(s, DrainDrop), q) == Places(s, q) {
    }
  }

  lemma OtherKeeps(s: Sender, st: Step)
    requires Inv(s) && Enabled(s, st) && (st.Leave? || st.Cancel? || st.DrainEnd?)
    ensures Inv(Next(s, st))
  {
    forall q: Packet ensures Places(Next(s, st), q) == Places(s, q) {
    }
  }

  lemma StepKeepsInv(s: Sender, st: Step)
    requires Inv(s) && Enabled(s, st)
    ensures Inv(Next(s, st))
  {
    match st
    case SendBegin(p) => SendBeginKeeps(s, p);
    case SendPut(p) => SendPutKeeps(s, p);
    case SendDrop(p) => SendDropKeeps(s, p);
    case Take => TakeKeeps(s);
    case Processed => ProcessedKeeps(s);
    case DrainTake => DrainTakeKeeps(s);
    case DrainDrop => DrainDropKeeps(s);
    case _ => OtherKeeps(s, st);
  }

  // ---- whole runs ----

  ghost predicate StepsTo(s: Sender, st: Step, t: Sender) {
    Enabled(s, st) && t == Next(s, st)
  }

  ghost predicate Run(capacity: nat, ss: seq<Sender>, steps: seq<Step>) {
    && |ss| == |steps| + 1 && ss[0] == Start(capacity)
    && forall i {:trigger steps[i]} | 0 <= i < |steps| :: StepsTo(ss[i], steps[i], ss[i + 1])
  }

  lemma {:induction false} RunKeepsInv(capacity: nat, ss: seq<Sender>, steps: seq<Step>, i: nat)
    requires Run(capacity, ss, steps) && i < |ss|
    ensures Inv(ss[i]) && ss[i].capacity == capacity
    decreases i
  {
    if i > 0 {
      RunKeepsInv(capacity, ss, steps, i - 1);
      StepsToKeeps(ss[i - 1], steps[i - 1], ss[i]);
    }
  }

  lemma StepsToKeeps(s: Sender, st: Step, t: Sender)
    requires Inv(s) && StepsTo(s, st, t)
    ensures Inv(t) && t.capacity == s.capacity
  {
    StepKeepsInv(s, st);
  }

  /** No packet is dropped twice, and one that is not dropped is in exactly one known place. */
  lemma PacketHasOneOwner(capacity: nat, ss: seq<Sender>, steps: seq<Step>, i: nat, p: Packet)
    requires Run(capacity, ss, steps) && i < |ss| && p in ss[i].given
    ensures ss[i].drops[p] <= 1
    ensures ss[i].drops[p] == 0 ==>
              || p in ss[i].sending || p in ss[i].ch || ss[i].worker == Busy(p) || ss[i].closer == Dropping(p)
    ensures p in ss[i].ch ==> ss[i].drops[p] == 0 && ss[i].worker != Busy(p) && ss[i].closer != Dropping(p)
  {
    RunKeepsInv(capacity, ss, steps, i);
    assert Places(ss[i], p) == 1;
  }

  /** Send drops a packet only when the sender is closed or the channel is full. */
  lemma DropsForAReason(capacity: nat, ss: seq<Sender>, steps: seq<Step>, k: nat, p: Packet)
    requires Run(capacity, ss, steps) && k < |steps| && (steps[k] == SendBegin(p) || steps[k] == SendDrop(p))
    requires ss[k + 1].drops[p] > ss[k].drops[p]
    ensures ss[k].ctxDone || (steps[k] == SendDrop(p) && |ss[k].ch| == capacity)
  {
    RunKeepsInv(capacity, ss, steps, k);
    assert StepsTo(ss[k], steps[k], ss[k + 1]);
  }

  // ---- first in, first out ----

  /** p stands before q in the channel. */
  predicate Before(ch: seq<Packet>, p: Packet, q: Packet) {
    exists x, y | 0 <= x < y < |ch| :: ch[x] == p && ch[y] == q
  }

  lemma QueueStep(s: Sender, st: Step, p: Packet, q: Packet)
    requires Inv(s) && Enabled(s, st) && Before(s.ch, p, q) && p in Next(s, st).ch
    ensures Before(Next(s, st).ch, p, q)
  {
    var x, y :| 0 <= x < y < |s.ch| && s.ch[x] == p && s.ch[y] == q;
    var t := Next(s, st);
    if st.Take? || st.DrainTake? {
      HeadTail(s.ch);
      assert Places(s, p) <= 1;
      assert t.ch == s.ch[1..];
      if x > 0 {
        assert t.ch[x - 1] == p && t.ch[y - 1] == q;
      }
    } else {
      assert t.ch[x] == p && t.ch[y] == q;
    }
  }

  /** As long as the earlier of two packets is in the channel, it stands before the later one. */
  lemma {:induction false} QueueKeepsOrder(capacity: nat, ss: seq<Sender>, steps: seq<Step>, a: nat, b: nat, i: nat, p: Packet, q: Packet)
    requires Run(capacity, ss, steps) && a < b < i < |ss| && steps[a] == SendPut(p) && steps[b] == SendPut(q) && p in ss[i].ch
    ensures Before(ss[i].ch, p, q)
    decreases i
  {
    RunKeepsInv(capacity, ss, steps, i - 1);
    StaysOnceTaken(capacity, ss, steps, a, i - 1, p);
    assert StepsTo(ss[i - 1], steps[i - 1], ss[i]);
    if i == b + 1 {
      var ch := ss[b].ch;
      var x :| 0 <= x < |ch| && ch[x] == p;
      assert ss[i].ch[x] == p && ss[i].ch[|ch|] == q;
    } else {
      QueueKeepsOrder(capacity, ss, steps, a, b, i - 1, p, q);
      QueueStep(ss[i - 1], steps[i - 1], p, q);
    }
  }

  /** A packet in the channel has been there ever since it was put. */
  lemma StaysOnceTaken(capacity: nat, ss: seq<Sender>, steps: seq<Step>, a: nat, i: nat, p: Packet)
    requires Run(capacity, ss, steps) && a < i < |steps| && steps[a] == SendPut(p) && p in ss[i + 1].ch
    ensures p in ss[i].ch
  {
    RunKeepsInv(capacity, ss, steps, a);
    assert Places(ss[a], p) == if p in ss[a].given then 1 else 0;
    assert StepsTo(ss[a], steps[a], ss[a + 1]) && StepsTo(ss[i], steps[i], ss[i + 1]);
    SendIsLeftForGood(capacity, ss, steps, a + 1, i, p);
  }

  /** Packets leave the channel in the order they were put: when the later one is taken, the earlier one is gone. */
  lemma FirstInFirstOut(capacity: nat, ss: seq<Sender>, steps: seq<Step>, a: nat, b: nat, j: nat, p: Packet, q: Packet)
    requires Run(capacity, ss, steps) && a < b < j < |steps| && steps[a] == SendPut(p) && steps[b] == SendPut(q)
    requires ss[j].worker != Busy(q) && ss[j].closer != Dropping(q)
    requires ss[j + 1].worker == Busy(q) || ss[j + 1].closer == Dropping(q)
    ensures p !in ss[j].ch
  {
    assert StepsTo(ss[j], steps[j], ss[j + 1]);
    RunKeepsInv(capacity, ss, steps, j);
    if p in ss[j].ch {
      QueueKeepsOrder(capacity, ss, steps, a, b, j, p, q);
      NotBothFirst(ss[j], p, q);
    }
  }

  /** A packet behind another is not the first in the channel. */
  lemma NotBothFirst(s: Sender, p: Packet, q: Packet)
    requires Inv(s) && Before(s.ch, p, q)
    ensures s.ch[0] != q
  {
    var x, y :| 0 <= x < y < |s.ch| && s.ch[x] == p && s.ch[y] == q;
    HeadTail(s.ch);
    assert s.ch[1..][y - 1] == q;
    assert multiset(s.ch)[q] <= Places(s, q) <= 1;
  }

  // ---- what Close leaves behind ----

  /** Once Close has returned and no packet is being processed, a packet out of Send is dropped unless it is in the channel. */
  lemma ClosedDropsRest(capacity: nat, ss: seq<Sender>, steps: seq<Step>, i: nat, p: Packet)
    requires Run(capacity, ss, steps) && i < |ss| && ss[i].closer.Finished? && !ss[i].worker.Busy?
    requires p in ss[i].given && p !in ss[i].sending
    ensures ss[i].drops[p] == 1 <==> p !in ss[i].ch
  {
    RunKeepsInv(capacity, ss, steps, i);
    assert Places(ss[i], p) == 1;
  }

  /** Only a packet that was put after the drain had ended is in the channel of a closed sender. */
  lemma {:induction false} LingeringWasPutLate(capacity: nat, ss: seq<Sender>, steps: seq<Step>, i: nat, p: Packet) returns (k: nat)
    requires Run(capacity, ss, steps) && i < |ss| && ss[i].closer.Finished? && p in ss[i].ch
    ensures k < i && steps[k] == SendPut(p) && ss[k].closer.Finished?
    decreases i
  {
    assert i > 0;
    assert StepsTo(ss[i - 1], steps[i - 1], ss[i]);
    if steps[i - 1] == SendPut(p) {
      k := i - 1;
    } else {
      k := LingeringWasPutLate(capacity, ss, steps, i - 1, p);
    }
  }

  /** A packet that has left Send does not come back to it, and a finished drain stays finished. */
  lemma {:induction false} SendIsLeftForGood(capacity: nat, ss: seq<Sender>, steps: seq<Step>, i: nat, j: nat, p: Packet)
    requires Run(capacity, ss, steps) && i <= j < |ss|
    ensures p in ss[i].given && p !in ss[i].sending ==> p in ss[j].given && p !in ss[j].sending
    ensures ss[i].closer.Finished? ==> ss[j].closer.Finished?
    decreases j
  {
    if i < j {
      SendIsLeftForGood(capacity, ss, steps, i, j - 1, p);
      assert StepsTo(ss[j - 1], steps[j - 1], ss[j]);
    }
  }

  /**
   Everything put into the channel before the drain ended, even after Close began, has been
   dropped exactly once when Close has returned and no packet is being processed.
   */
  lemma CloseDropsQueued(capacity: nat, ss: seq<Sender>, steps: seq<Step>, k: nat, i: nat, p: Packet)
    requires Run(capacity, ss, steps) && k < i < |ss| && steps[k] == SendPut(p) && !ss[k].closer.Finished?
    requires ss[i].closer.Finished? && !ss[i].worker.Busy?
    ensures ss[i].drops[p] == 1
  {
    RunKeepsInv(capacity, ss, steps, k);
    assert Places(ss[k], p) == 1;
    assert StepsTo(ss[k], steps[k], ss[k + 1]);
    SendIsLeftForGood(capacity, ss, steps, k + 1, i, p);
    ClosedDropsRest(capacity, ss, steps, i, p);
    if p in ss[i].ch {
      var late := LingeringWasPutLate(capacity, ss, steps, i, p);
      PutIsOnce(capacity, ss, steps, k, late, p);
    }
  }

  /** A packet put before the drain ended is not put again after it. */
  lemma PutIsOnce(capacity: nat, ss: seq<Sender>, steps: seq<Step>, k: nat, late: nat, p: Packet)
    requires Run(capacity, ss, steps) && k < |steps| && late < |steps| && steps[k] == SendPut(p)
    requires !ss[k].closer.Finished? && ss[late].closer.Finished?
    ensures steps[late] != SendPut(p)
  {
    RunKeepsInv(capacity, ss, steps, k);
    assert Places(ss[k], p) == 1;
    assert StepsTo(ss[k], steps[k], ss[k + 1]) && StepsTo(ss[late], steps[late], ss[late + 1]);
    if late < k {
      SendIsLeftForGood(capacity, ss, steps, late, k, p);
    } else {
      SendIsLeftForGood(capacity, ss, steps, k + 1, late, p);
    }
  }

  /** With both goroutines gone, what is in the channel stays there, undropped. */
  lemma {:induction false} LingersForever(capacity: nat, ss: seq<Sender>, steps: seq<Step>, i: nat, j: nat, p: Packet)
    requires Run(capacity, ss, steps) && i <= j < |ss| && Abandoned(ss[i]) && p in ss[i].ch
    ensures Abandoned(ss[j]) && p in ss[j].ch && ss[j].drops[p] == 0
    decreases j
  {
    if i < j {
      LingersForever(capacity, ss, steps, i, j - 1, p);
      assert StepsTo(ss[j - 1], steps[j - 1], ss[j]);
    }
    RunKeepsInv(capacity, ss, steps, j);
    assert Places(ss[j], p) == if p in ss[j].given then 1 else 0;
  }

  /** Close and Process have both returned. */
  predicate Abandoned(s: Sender) {
    s.closer.Finished? && s.worker.Returned?
  }

  // ---- when a packet can be left behind ----

  ghost predicate RunTo(capacity: nat, ss: seq<Sender>, steps: seq<Step>, s: Sender) {
    Run(capacity, ss, steps) && ss[|steps|] == s
  }

  lemma Extend(capacity: nat, ss: seq<Sender>, steps: seq<Step>, s: Sender, st: Step) returns (more: seq<Sender>, longer: seq<Step>)
    requires RunTo(capacity, ss, steps, s) && Enabled(s, st)
    ensures RunTo(capacity, more, longer, Next(s, st)) && ss <= more && steps <= longer
  {
    more, longer := ss + [Next(s, st)], steps + [st];
    forall i | 0 <= i < |longer| ensures StepsTo(more[i], longer[i], more[i + 1]) {
      if i < |steps| {
        assert StepsTo(ss[i], steps[i], ss[i + 1]);
      }
    }
  }

  /** Some run that goes on from this one leaves p in the channel of an abandoned sender. */
  ghost predicate CanLinger(capacity: nat, ss: seq<Sender>, steps: seq<Step>, p: Packet) {
    exists more, longer :: LeavesBehind(capacity, ss, steps, p, more, longer)
  }

  ghost predicate LeavesBehind(capacity: nat, ss: seq<Sender>, steps: seq<Step>, p: Packet, more: seq<Sender>, longer: seq<Step>) {
    && Run(capacity, more, longer) && ss <= more && steps <= longer
    && Abandoned(more[|longer|]) && p in more[|longer|].ch
  }

  /** Finishes the packet in hand and begins the drain, if need be. */
  lemma Settle(capacity: nat, ss: seq<Sender>, steps: seq<Step>, s: Sender) returns (more: seq<Sender>, longer: seq<Step>, t: Sender)
    requires RunTo(capacity, ss, steps, s)
    ensures RunTo(capacity, more, longer, t) && ss <= more && steps <= longer
    ensures t.sending == s.sending && t.ch == s.ch && t.capacity == s.capacity && !t.worker.Busy?
    ensures (t.worker.Returned? <==> s.worker.Returned?) && (t.closer.Draining? || t.closer.Finished?)
    ensures t.closer.Finished? <==> s.closer.Finished?
  {
    more, longer, t := ss, steps, s;
    if t.worker.Busy? {
      more, longer := Extend(capacity, more, longer, t, Processed);
      t := Next(t, Processed);
    }
    if t.closer.Idle? {
      more, longer := Extend(capacity, more, longer, t, Cancel);
      t := Next(t, Cancel);
    } else if t.closer.Dropping? {
      more, longer := Extend(capacity, more, longer, t, DrainDrop);
      t := Next(t, DrainDrop);
    }
  }

  lemma {:induction false} DrainAll(capacity: nat, ss: seq<Sender>, steps: seq<Step>, s: Sender) returns (more: seq<Sender>, longer: seq<Step>, t: Sender)
    requires RunTo(capacity, ss, steps, s) && s.closer.Draining?
    ensures RunTo(capacity, more, longer, t) && ss <= more && steps <= longer
    ensures t.sending == s.sending && t.ch == [] && t.capacity == s.capacity && t.worker == s.worker && t.closer.Finished?
    decreases |s.ch|
  {
    if s.ch == [] {
      more, longer := Extend(capacity, ss, steps, s, DrainEnd);
      t := Next(s, DrainEnd);
    } else {
      more, longer := Extend(capacity, ss, steps, s, DrainTake);
      t := Next(s, DrainTake);
      more, longer := Extend(capacity, more, longer, t, DrainDrop);
      t := Next(t, DrainDrop);
      more, longer, t := DrainAll(capacity, more, longer, t);
    }
  }

  /** The worker makes room if it has to, and returns. */
  lemma LeaveRoom(capacity: nat, ss: seq<Sender>, steps: seq<Step>, s: Sender) returns (more: seq<Sender>, longer: seq<Step>, t: Sender)
    requires RunTo(capacity, ss, steps, s) && s.closer.Finished? && !s.worker.Busy? && s.capacity > 0
    requires s.worker.Returned? ==> |s.ch| < s.capacity
    ensures RunTo(capacity, more, longer, t) && ss <= more && steps <= longer
    ensures t.sending == s.sending && t.capacity == s.capacity && |t.ch| < t.capacity && Abandoned(t)
  {
    RunKeepsInv(capacity, ss, steps, |steps|);
    more, longer, t := ss, steps, s;
    if |s.ch| == s.capacity {
      more, longer := Extend(capacity, more, longer, t, Take);
      t := Next(t, Take);
      more, longer := Extend(capacity, more, longer, t, Processed);
      t := Next(t, Processed);
    }
    if t.worker.Waiting? {
      more, longer := Extend(capacity, more, longer, t, Leave);
      t := Next(t, Leave);
    }
  }

  lemma LeaveBehind(capacity: nat, ss: seq<Sender>, steps: seq<Step>, s: Sender, p: Packet)
    requires RunTo(capacity, ss, steps, s) && p in s.sending && capacity > 0
    requires !(Abandoned(s) && |s.ch| == s.capacity)
    ensures CanLinger(capacity, ss, steps, p)
  {
    RunKeepsInv(capacity, ss, steps, |steps|);
    var more, longer, t := Settle(capacity, ss, steps, s);
    if t.closer.Draining? {
      more, longer, t := DrainAll(capacity, more, longer, t);
    }
    more, longer, t := LeaveRoom(capacity, more, longer, t);
    more, longer := Extend(capacity, more, longer, t, SendPut(p));
    assert LeavesBehind(capacity, ss, steps, p, more, longer);
  }

  lemma {:induction false} FullStaysShut(capacity: nat, ss: seq<Sender>, steps: seq<Step>, i: nat, j: nat, p: Packet)
    requires Run(capacity, ss, steps) && i <= j < |ss|
    requires Abandoned(ss[i]) && |ss[i].ch| == ss[i].capacity && p !in ss[i].ch
    ensures Abandoned(ss[j]) && |ss[j].ch| == ss[j].capacity && p !in ss[j].ch
    decreases j
  {
    if i < j {
      FullStaysShut(capacity, ss, steps, i, j - 1, p);
      assert StepsTo(ss[j - 1], steps[j - 1], ss[j]);
    }
  }

  /**
   In any run, a packet between the two checks of Send can still be left in the channel for
   good if and only if there is a channel to hold it and the sender is not already closed
   and abandoned with a full one.
   */
  lemma LingersExactly(capacity: nat, ss: seq<Sender>, steps: seq<Step>, s: Sender, p: Packet)
    requires RunTo(capacity, ss, steps, s) && p in s.sending
    ensures CanLinger(capacity, ss, steps, p) <==> capacity > 0 && !(Abandoned(s) && |s.ch| == s.capacity)
  {
    if capacity > 0 && !(Abandoned(s) && |s.ch| == s.capacity) {
      LeaveBehind(capacity, ss, steps, s, p);
    } else {
      forall more, longer ensures !LeavesBehind(capacity, ss, steps, p, more, longer) {
        if LeavesBehind(capacity, ss, steps, p, more, longer) {
          NothingLeftBehind(capacity, ss, steps, s, p, more, longer);
        }
      }
    }
  }

  lemma NothingLeftBehind(capacity: nat, ss: seq<Sender>, steps: seq<Step>, s: Sender, p: Packet, more: seq<Sender>, longer: seq<Step>)
    requires RunTo(capacity, ss, steps, s) && p in s.sending && Run(capacity, more, longer) && ss <= more && steps <= longer
    requires capacity == 0 || (Abandoned(s) && |s.ch| == s.capacity)
    ensures p !in more[|longer|].ch
  {
    RunKeepsInv(capacity, more, longer, |longer|);
    RunKeepsInv(capacity, ss, steps, |steps|);
    if capacity > 0 {
      assert Places(s, p) == if p in s.given then 1 else 0;
      assert more[|steps|] == s;
      FullStaysShut(capacity, more, longer, |steps|, |longer|, p);
    }
  }

  // ---- destination NAT ----

  /** An address: invalid, IPv4, IPv6, or an IPv4 address mapped into IPv6. */
  datatype Addr = Invalid | V4(n: nat) | V6(n: nat) | Mapped(n: nat)

  function Unmap(a: Addr): Addr {
    if a.Mapped? then V4(a.n) else a
  }

  datatype Nat = Nat(originToTarget: map<string, Addr>, targetToOrigin: map<Addr, Addr>)

  function Target(t: Nat, key: string): Addr {
    if key in t.originToTarget then t.originToTarget[key] else Invalid
  }

  function Origin(t: Nat, target: Addr): Addr {
    if target in t.targetToOrigin then t.targetToOrigin[target] else Invalid
  }

  function Restore(t: Nat, from: Addr): Addr {
    if Origin(t, from) != Invalid then Origin(t, from) else from
  }

  datatype Mapping = Mapping(key: string, origin: Addr, target: Addr)

  function Add(t: Nat, m: Mapping): Nat {
    Nat(if Target(t, m.key) == Invalid then t.originToTarget[m.key := m.target] else t.originToTarget,
        if Origin(t, m.target) == Invalid then t.targetToOrigin[m.target := m.origin] else t.targetToOrigin)
  }

  /** The first of xs that is a valid address. */
  function FirstValid(xs: seq<Addr>): Addr {
    if xs == [] then Invalid else if xs[0] != Invalid then xs[0] else FirstValid(xs[1..])
  }

  function TargetsOf(ms: seq<Mapping>, key: string): seq<Addr> {
    if ms == [] then [] else TargetsOf(ms[..|ms| - 1], key) + if ms[|ms| - 1].key == key then [ms[|ms| - 1].target] else []
  }

  function OriginsOf(ms: seq<Mapping>, target: Addr): seq<Addr> {
    if ms == [] then [] else OriginsOf(ms[..|ms| - 1], target) + if ms[|ms| - 1].target == target then [ms[|ms| - 1].origin] else []
  }

  function AddAll(ms: seq<Mapping>): Nat {
    if ms == [] then Nat(map[], map[]) else Add(AddAll(ms[..|ms| - 1]), ms[|ms| - 1])
  }

  lemma {:induction false} FirstValidSnoc(xs: seq<Addr>, a: Addr)
    ensures FirstValid(xs + [a]) == if FirstValid(xs) != Invalid then FirstValid(xs) else a
    decreases |xs|
  {
    if xs == [] {
      assert xs + [a] == [a] && [a][1..] == [];
    } else {
      assert (xs + [a])[0] == xs[0] && (xs + [a])[1..] == xs[1..] + [a];
      FirstValidSnoc(xs[1..], a);
    }
  }

  /** After any records, a key maps to its first valid target and a target to its first valid origin. */
  lemma {:induction false} FirstRecordWins(ms: seq<Mapping>, key: string, target: Addr)
    ensures Target(AddAll(ms), key) == FirstValid(TargetsOf(ms, key))
    ensures Origin(AddAll(ms), target) == FirstValid(OriginsOf(ms, target))
    ensures Restore(AddAll(ms), target) ==
            if FirstValid(OriginsOf(ms, target)) != Invalid then FirstValid(OriginsOf(ms, target)) else target
    decreases |ms|
  {
    if ms != [] {
      var n := |ms| - 1;
      FirstRecordWins(ms[..n], key, target);
      FirstRecordWins(ms[..n], ms[n].key, ms[n].target);
      FirstValidSnoc(TargetsOf(ms[..n], key), ms[n].target);
      FirstValidSnoc(OriginsOf(ms[..n], target), ms[n].origin);
      assert TargetsOf(ms[..n], key) + [] == TargetsOf(ms[..n], key);
      assert OriginsOf(ms[..n], target) + [] == OriginsOf(ms[..n], target);
    }
  }

  // ---- a session ----

  /** A record made when the session is dialed, or a packet with what resolving its destination gives. */
  datatype Event = Record(m: Mapping) | Arrive(key: string, origin: Addr, resolved: Addr)

  datatype Sent = Sent(key: string, addr: Addr)

  datatype Session = Session(table: Nat, sent: seq<Sent>)

  function Handle(s: Session, e: Event): Session {
    match e
    case Record(m) => s.(table := Add(s.table, m))
    case Arrive(key, origin, resolved) =>
      var known := Target(s.table, key);
      if known != Invalid then s.(sent := s.sent + [Sent(key, known)])
      else if resolved == Invalid then s
      else Session(Add(s.table, Mapping(key, origin, resolved)), s.sent + [Sent(key, Unmap(resolved))])
  }

  function HandleAll(es: seq<Event>): Session {
    if es == [] then Session(Nat(map[], map[]), []) else Handle(HandleAll(es[..|es| - 1]), es[|es| - 1])
  }

  /** A packet with a known target is sent there; one that resolves is sent there and recorded; another is not sent. */
  lemma PacketIsSent(s: Session, key: string, origin: Addr, resolved: Addr)
    ensures var after := Handle(s, Arrive(key, origin, resolved));
            if key in s.table.originToTarget && s.table.originToTarget[key] != Invalid
            then after == s.(sent := s.sent + [Sent(key, s.table.originToTarget[key])])
            else if resolved == Invalid then after == s
            else after.sent == s.sent + [Sent(key, if resolved.Mapped? then V4(resolved.n) else resolved)]
                 && key in after.table.originToTarget && after.table.originToTarget[key] == resolved
  {
  }

  /** x went to the address its key maps to. */
  ghost predicate WentToTarget(t: Nat, x: Sent) {
    Target(t, x.key) != Invalid && Unmap(x.addr) == Unmap(Target(t, x.key))
  }

  lemma HandleKeepsTarget(s: Session, e: Event, x: Sent)
    requires WentToTarget(s.table, x)
    ensures WentToTarget(Handle(s, e).table, x)
  {
  }

  /** Every packet of a session went to the address its key still maps to at the end. */
  lemma {:induction false} SentMatchesRecord(es: seq<Event>, i: nat)
    requires i < |HandleAll(es).sent|
    ensures WentToTarget(HandleAll(es).table, HandleAll(es).sent[i])
    decreases |es|
  {
    var before, e := HandleAll(es[..|es| - 1]), es[|es| - 1];
    assert HandleAll(es) == Handle(before, e);
    if i < |before.sent| {
      assert HandleAll(es).sent[i] == before.sent[i];
      SentMatchesRecord(es[..|es| - 1], i);
      HandleKeepsTarget(before, e, before.sent[i]);
    }
  }

  /** Over a whole session, one destination key is always sent to one address. */
  lemma OneTargetPerKey(es: seq<Event>, i: nat, j: nat)
    requires i < |HandleAll(es).sent| && j < |HandleAll(es).sent| && HandleAll(es).sent[i].key == HandleAll(es).sent[j].key
    ensures Unmap(HandleAll(es).sent[i].addr) == Unmap(HandleAll(es).sent[j].addr)
  {
    SentMatchesRecord(es, i);
    SentMatchesRecord(es, j);
  }

  /** The records a session makes, in order: those of the dial, and one per packet it had to resolve. */
  function RecordsOf(es: seq<Event>): seq<Mapping> {
    if es == [] then []
    else
      var earlier, e := es[..|es| - 1], es[|es| - 1];
      RecordsOf(earlier)
      + if e.Record? then [e.m]
        else if Target(HandleAll(earlier).table, e.key) == Invalid && e.resolved != Invalid
        then [Mapping(e.key, e.origin, e.resolved)] else []
  }

  lemma {:induction false} TableIsItsRecords(es: seq<Event>)
    ensures HandleAll(es).table == AddAll(RecordsOf(es))
    decreases |es|
  {
    if es != [] {
      var earlier, ms := es[..|es| - 1], RecordsOf(es);
      TableIsItsRecords(earlier);
      if ms != RecordsOf(earlier) {
        assert ms[..|ms| - 1] == RecordsOf(earlier);
      }
    }
  }

  /** A reply is restored to the first valid origin ever recorded for its source, and to itself when there is none. */
  lemma ReplyGoesToFirstOrigin(es: seq<Event>, from: Addr)
    ensures var first := FirstValid(OriginsOf(RecordsOf(es), from));
            Restore(HandleAll(es).table, from) == if first != Invalid then first else from
  {
    TableIsItsRecords(es);
    FirstRecordWins(RecordsOf(es), "", from);
  }

  class Mappings {
    var originToTarget: map<string, Addr>
    var targetToOrigin: map<Addr, Addr>

    function Table(): Nat
      reads this
    {
      Nat(originToTarget, targetToOrigin)
    }

    constructor ()
      ensures Table() == AddAll([])
    {
      originToTarget, targetToOrigin := map[], map[];
    }

    method AddMapping(originKey: string, originAddr: Addr, targetAddr: Addr)
      modifies this
      ensures Table() == Add(old(Table()), Mapping(originKey, originAddr, targetAddr))
    {
      if originKey !in originToTarget || originToTarget[originKey] == Invalid {
        originToTarget := originToTarget[originKey := targetAddr];
      }
      if targetAddr !in targetToOrigin || targetToOrigin[targetAddr] == Invalid {
        targetToOrigin := targetToOrigin[targetAddr := originAddr];
      }
    }

    method RestoreReadFrom(addr: Addr) returns (r: Addr)
      ensures r == Restore(Table(), addr)
    {
      if addr in targetToOrigin && targetToOrigin[addr] != Invalid {
        return targetToOrigin[addr];
      }
      r := addr;
    }

    /** processPacket up to the write: the address written to, or Invalid when nothing is sent. */
    method ProcessPacket(key: string, originAddr: Addr, resolved: Addr) returns (addr: Addr)
      modifies this
      ensures var before := Session(old(Table()), []);
              var after := Handle(before, Arrive(key, originAddr, resolved));
              Table() == after.table && after.sent == if addr == Invalid then [] else [Sent(key, addr)]
    {
      if key in originToTarget && originToTarget[key] != Invalid {
        return originToTarget[key];
      }
      if resolved == Invalid {
        return Invalid;
      }
      AddMapping(key, originAddr, resolved);
      addr := Unmap(resolved);
    }
  }
}
