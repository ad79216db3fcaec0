/**
 Schedules of the ZeroTier protocol: which interleavings do happen, and exactly when
 invalidating a device stops an attempt to publish.
 */
module ZeroTierSchedules {
  import opened ZeroTierState
  import opened ZeroTierProtocol
  import opened ZeroTierSafety
  import opened ZeroTierTheorems

  // ---- an attempt within a run ----

  /** applyNetworkConfig past its snapshot. */
  predicate InAttempt(op: Op) {
    op.Building? || op.Applying?
  }

  function CaptureOf(op: Op): Capture
    requires InAttempt(op)
  {
    if op.Building? then op.capture else op.attempt.capture
  }

  function OldDeviceOf(op: Op): Ref
    requires InAttempt(op)
  {
    if op.Building? then op.oldDevice else op.attempt.oldDevice
  }

  /** applyNetworkConfig for capture c, before or after its snapshot. */
  predicate OfAttempt(op: Op, c: Capture) {
    op == Snapshotting(c) || (InAttempt(op) && CaptureOf(op) == c)
  }

  /** An invalidateDevice that takes effect. */
  predicate Detaches(s: Session, st: Step) {
    st.InvalidateDev? && InvalidateDeviceApplies(s.f, s.ctxDone, st.device)
  }

  /** One attempt, with the device its snapshot found. */
  predicate SameAttempt(op: Op, later: Op) {
    InAttempt(op) && InAttempt(later) && CaptureOf(op) == CaptureOf(later) && OldDeviceOf(op) == OldDeviceOf(later)
  }

  predicate TakesSnapshot(s: Session, st: Step, later: Op) {
    st == ApplySnapshot && InAttempt(later) && s.op == Snapshotting(CaptureOf(later)) && s.f.tunDevice == OldDeviceOf(later)
  }

  lemma UnlockedKeepsOp(o: Options, s: Session, st: Step)
    requires Enabled(o, s, st) && UnlockedStep(st)
    ensures Next(o, s, st).op == s.op
  {
  }

  lemma StartIsNoAttempt(o: Options, s: Session, st: Step)
    requires Enabled(o, s, st) && (st.StartEnter? || st.StartFail? || st.StartPublish? || st.StartFinish? || st.StartCleanup?)
    ensures !InAttempt(Next(o, s, st).op) && !Next(o, s, st).op.Snapshotting?
  {
  }

  lemma RecoverEnterOp(o: Options, s: Session, source: RuntimeId)
    requires Enabled(o, s, RecoverEnter(source))
    ensures Next(o, s, RecoverEnter(source)).op == Free || Next(o, s, RecoverEnter(source)).op.Recovering?
  {
  }

  lemma RecoverDetachOp(s: Session, source: RuntimeId, sameAddress: bool)
    ensures DoRecoverDetach(s, source, sameAddress).op == Free || DoRecoverDetach(s, source, sameAddress).op.Retiring?
  {
  }

  lemma EndingIsNoAttempt(o: Options, s: Session, st: Step)
    requires Enabled(o, s, st) && (st.RestartReport? || st.RecoverRetire? || st.CloseOutbound?)
    ensures Next(o, s, st).op == Free || Next(o, s, st).op.Starting?
  {
  }

  lemma SnapshotOp(s: Session, c: Capture)
    ensures var op := DoApplySnapshot(s, c).op;
            op == Free || (s.f.runtime.At? && op == Building(c, s.f.runtime.id, s.f.tunDevice, s.f.config))
  {
  }

  lemma DeviceContinues(o: Options, s: Session, st: Step)
    requires Enabled(o, s, st) && (st.ApplyKeep? || st.ApplyBuild?)
    ensures InAttempt(Next(o, s, st).op) ==> SameAttempt(s.op, Next(o, s, st).op)
  {
  }

  lemma RecheckOp(o: Options, s: Session)
    requires AtStage(s, Built)
    ensures var op := Next(o, s, ApplyRecheck).op; op == Applying(Checked, s.op.attempt) || op.Draining?
  {
  }

  lemma LinkOp(o: Options, s: Session, a: Attempt, accepted: bool)
    ensures var op := DoApplyLink(o, s, a, accepted).op; op == Applying(Linked, a) || op.Draining?
    ensures DoApplyRollback(o, s, a, accepted).op.Draining?
  {
  }

  lemma CommitOp(s: Session, a: Attempt)
    ensures var op := DoApplyCommit(s, a).op; op == Applying(Stale, a) || op.Draining?
  {
  }

  lemma OthersAreNoAttempt(o: Options, s: Session, st: Step)
    requires Enabled(o, s, st) && (st.ApplyEnter? || st.ApplyReject? || st.Drain?)
    ensures !InAttempt(Next(o, s, st).op)
    ensures Next(o, s, st).op.Snapshotting? ==> s.op == Free
  {
  }

  /** An attempt goes on with the device it found, or its snapshot was just taken; none is entered within another. */
  predicate AttemptLink(s: Session, st: Step, t: Session) {
    && (InAttempt(t.op) ==> SameAttempt(s.op, t.op) || TakesSnapshot(s, st, t.op))
    && (t.op.Snapshotting? ==> s.op == Free || s.op == t.op)
  }

  lemma AttemptStep(o: Options, s: Session, st: Step, t: Session)
    requires StepsTo(o, s, st, t)
    ensures AttemptLink(s, st, t)
  {
    if UnlockedStep(st) {
      UnlockedKeepsOp(o, s, st);
    } else if ApplyStep(st) {
      ApplyAttempt(o, s, st);
    } else {
      LifecycleIsNoAttempt(o, s, st);
    }
  }

  lemma LifecycleIsNoAttempt(o: Options, s: Session, st: Step)
    requires Enabled(o, s, st) && !UnlockedStep(st) && !ApplyStep(st)
    ensures !InAttempt(Next(o, s, st).op) && !Next(o, s, st).op.Snapshotting?
  {
    match st
    case RecoverEnter(source) => RecoverEnterOp(o, s, source);
    case RecoverDetach(sameAddress) => RecoverDetachOp(s, s.op.source, sameAddress);
    case RestartReport(_) => EndingIsNoAttempt(o, s, st);
    case RecoverRetire => EndingIsNoAttempt(o, s, st);
    case CloseOutbound => EndingIsNoAttempt(o, s, st);
    case _ => StartIsNoAttempt(o, s, st);
  }

  lemma ApplyAttempt(o: Options, s: Session, st: Step)
    requires Enabled(o, s, st) && ApplyStep(st)
    ensures AttemptLink(s, st, Next(o, s, st))
  {
    match st
    case ApplySnapshot => SnapshotOp(s, s.op.capture);
    case ApplyKeep => DeviceContinues(o, s, st);
    case ApplyBuild(_, _) => DeviceContinues(o, s, st);
    case ApplyEnter(_) => OthersAreNoAttempt(o, s, st);
    case ApplyReject => OthersAreNoAttempt(o, s, st);
    case Drain => OthersAreNoAttempt(o, s, st);
    case _ => LinkContinues(o, s, st);
  }

  lemma LinkContinues(o: Options, s: Session, st: Step)
    requires Enabled(o, s, st) && (st.ApplyRecheck? || st.ApplyLink? || st.ApplyCommit? || st.ApplyRollback?)
    ensures var op := Next(o, s, st).op; (op.Applying? && op.attempt == s.op.attempt) || op.Draining?
  {
    match st
    case ApplyRecheck => RecheckOp(o, s);
    case ApplyLink(accepted) => LinkOp(o, s, s.op.attempt, accepted);
    case ApplyRollback(accepted) => LinkOp(o, s, s.op.attempt, accepted);
    case ApplyCommit => CommitOp(s, s.op.attempt);
  }

  ghost predicate AttemptLinks(ss: seq<Session>, steps: seq<Step>) {
    && |ss| == |steps| + 1 && !InAttempt(ss[0].op)
    && forall i {:trigger steps[i]} | 0 <= i < |steps| :: AttemptLink(ss[i], steps[i], ss[i + 1])
  }

  lemma RunLinks(o: Options, ss: seq<Session>, steps: seq<Step>)
    requires Run(o, ss, steps)
    ensures AttemptLinks(ss, steps)
  {
    forall i | 0 <= i < |steps| ensures AttemptLink(ss[i], steps[i], ss[i + 1]) {
      AttemptStep(o, ss[i], steps[i], ss[i + 1]);
    }
  }

  lemma {:induction false} AttemptBegan(ss: seq<Session>, steps: seq<Step>, j: nat) returns (n: nat)
    requires AttemptLinks(ss, steps) && j < |ss| && InAttempt(ss[j].op)
    ensures n < j && TakesSnapshot(ss[n], steps[n], ss[j].op)
    ensures forall k | n < k <= j :: SameAttempt(ss[k].op, ss[j].op)
    decreases j
  {
    assert AttemptLink(ss[j - 1], steps[j - 1], ss[j]);
    if SameAttempt(ss[j - 1].op, ss[j].op) {
      n := AttemptBegan(ss, steps, j - 1);
    } else {
      n := j - 1;
    }
  }

  lemma DetachingHandsOver(o: Options, ss: seq<Session>, steps: seq<Step>, k: nat)
    requires Run(o, ss, steps) && k < |steps| && InAttempt(ss[k].op) && Detaches(ss[k], steps[k])
    ensures OldDeviceOf(ss[k].op) == At(steps[k].device)
    ensures ss[k + 1].pending[steps[k].device] > 0
  {
    RunKeepsInv(o, ss, steps, k);
    assert StepsTo(o, ss[k], steps[k], ss[k + 1]);
  }

  lemma PublisherKeptDevice(o: Options, ss: seq<Session>, steps: seq<Step>, k: nat, j: nat)
    requires Run(o, ss, steps) && k < j < |steps| && Publishes(ss[j], steps[j]) && SameAttempt(ss[k].op, ss[j].op)
    ensures !Detaches(ss[k], steps[k])
  {
    if Detaches(ss[k], steps[k]) {
      DetachingHandsOver(o, ss, steps, k);
      HandedNeverPublished(o, ss, steps, k + 1, j, steps[k].device);
    }
  }

  /**
   Every publish has a snapshot behind it from which on no device was invalidated: an
   effective invalidateDevice after an attempt's snapshot stops that attempt for good.
   */
  lemma SnapshotFixesDevice(o: Options, ss: seq<Session>, steps: seq<Step>, j: nat) returns (n: nat)
    requires Run(o, ss, steps) && j < |steps| && Publishes(ss[j], steps[j])
    ensures n < j && steps[n] == ApplySnapshot && ss[n].op == Snapshotting(ss[j].op.attempt.capture)
    ensures forall k | n < k < j :: InAttempt(ss[k].op) && !Detaches(ss[k], steps[k])
  {
    RunLinks(o, ss, steps);
    n := AttemptBegan(ss, steps, j);
    forall k | n < k < j ensures InAttempt(ss[k].op) && !Detaches(ss[k], steps[k]) {
      PublisherKeptDevice(o, ss, steps, k, j);
    }
  }

  // ---- extending a run ----

  ghost predicate RunTo(o: Options, ss: seq<Session>, steps: seq<Step>, s: Session) {
    Run(o, ss, steps) && ss[|steps|] == s
  }

  lemma Extend(o: Options, ss: seq<Session>, steps: seq<Step>, s: Session, st: Step) returns (more: seq<Session>, longer: seq<Step>)
    requires RunTo(o, ss, steps, s) && Enabled(o, s, st)
    ensures RunTo(o, more, longer, Next(o, s, st)) && more == ss + [Next(o, s, st)] && longer == steps + [st]
  {
    more, longer := ss + [Next(o, s, st)], steps + [st];
    forall i | 0 <= i < |longer| ensures StepsTo(o, more[i], longer[i], more[i + 1]) {
      if i < |steps| {
        assert StepsTo(o, ss[i], steps[i], ss[i + 1]);
      }
    }
  }

  /** The attempt up to its link: the captured configuration is on the link and device e is private. */
  function LinkedState(o: Options, s: Session, c: Capture, r: RuntimeId, e: DeviceId): Session {
    s.(built := s.built[e := StackFor(o, c.config)], links := s.links[r := LinkFor(o, c.config)],
       op := Applying(Linked, Attempt(c, r, s.f.tunDevice, s.f.config, e, true)))
  }

  /** Nothing stands in the way of an attempt whose snapshot is next, and it has to build a device. */
  predicate MayBuild(o: Options, s: Session, c: Capture, r: RuntimeId, e: DeviceId) {
    && s.op == Snapshotting(c) && s.f.runtime == At(r) && Current(s.f, r, c) && c.config.addresses != []
    && NeedsReplacing(o, s.f.tunDevice, s.f.config, c.config) && e !in s.built
  }

  function BuiltState(o: Options, s: Session, c: Capture, r: RuntimeId, e: DeviceId, stage: Stage): Session {
    s.(built := s.built[e := StackFor(o, c.config)], op := Applying(stage, Attempt(c, r, s.f.tunDevice, s.f.config, e, true)))
  }

  lemma SnapshotStep(o: Options, s: Session, c: Capture, r: RuntimeId, e: DeviceId)
    requires MayBuild(o, s, c, r, e)
    ensures Enabled(o, s, ApplySnapshot)
    ensures Next(o, s, ApplySnapshot) == s.(op := Building(c, r, s.f.tunDevice, s.f.config))
  {
  }

  lemma BuildStep(o: Options, s: Session, c: Capture, r: RuntimeId, e: DeviceId)
    requires MayBuild(o, s, c, r, e)
    ensures var t := s.(op := Building(c, r, s.f.tunDevice, s.f.config));
            Enabled(o, t, ApplyBuild(e, true)) && Next(o, t, ApplyBuild(e, true)) == BuiltState(o, s, c, r, e, Built)
  {
  }

  lemma RecheckStep(o: Options, s: Session, c: Capture, r: RuntimeId, e: DeviceId)
    requires MayBuild(o, s, c, r, e)
    ensures var t := BuiltState(o, s, c, r, e, Built);
            Enabled(o, t, ApplyRecheck) && Next(o, t, ApplyRecheck) == BuiltState(o, s, c, r, e, Checked)
  {
  }

  lemma LinkStep(o: Options, s: Session, c: Capture, r: RuntimeId, e: DeviceId)
    requires MayBuild(o, s, c, r, e)
    ensures var t := BuiltState(o, s, c, r, e, Checked);
            Enabled(o, t, ApplyLink(true)) && Next(o, t, ApplyLink(true)) == LinkedState(o, s, c, r, e)
  {
  }

  /** The states of an attempt after its snapshot, up to its link. */
  function LinkStates(o: Options, s: Session, c: Capture, r: RuntimeId, e: DeviceId): seq<Session> {
    [s.(op := Building(c, r, s.f.tunDevice, s.f.config)), BuiltState(o, s, c, r, e, Built),
     BuiltState(o, s, c, r, e, Checked), LinkedState(o, s, c, r, e)]
  }

  function LinkSteps(e: DeviceId): seq<Step> {
    [ApplySnapshot, ApplyBuild(e, true), ApplyRecheck, ApplyLink(true)]
  }

  lemma LinkSchedule(o: Options, ss: seq<Session>, steps: seq<Step>, s: Session, c: Capture, r: RuntimeId, e: DeviceId)
    requires RunTo(o, ss, steps, s) && MayBuild(o, s, c, r, e)
    ensures RunTo(o, ss + LinkStates(o, s, c, r, e), steps + LinkSteps(e), LinkedState(o, s, c, r, e))
  {
    var all := LinkStates(o, s, c, r, e);
    SnapshotStep(o, s, c, r, e);
    var ss1, steps1 := Extend(o, ss, steps, s, ApplySnapshot);
    BuildStep(o, s, c, r, e);
    var ss2, steps2 := Extend(o, ss1, steps1, all[0], ApplyBuild(e, true));
    RecheckStep(o, s, c, r, e);
    var ss3, steps3 := Extend(o, ss2, steps2, all[1], ApplyRecheck);
    LinkStep(o, s, c, r, e);
    var ss4, steps4 := Extend(o, ss3, steps3, all[2], ApplyLink(true));
    assert ss4 == ss + all && steps4 == steps + LinkSteps(e);
  }

  function PublishedState(o: Options, s: Session, c: Capture, r: RuntimeId, e: DeviceId): Session {
    LinkedState(o, s, c, r, e).(f := PublishConfig(s.f, c.config, e), desynced := false, op := Draining(s.f.tunDevice))
  }

  lemma CommitStep(o: Options, s: Session, c: Capture, r: RuntimeId, e: DeviceId)
    requires MayBuild(o, s, c, r, e)
    ensures var t := LinkedState(o, s, c, r, e);
            Publishes(t, ApplyCommit) && t.op.attempt.capture == c && Next(o, t, ApplyCommit) == PublishedState(o, s, c, r, e)
  {
  }

  /** An attempt that nothing disturbs publishes. */
  lemma PublishSchedule(o: Options, ss: seq<Session>, steps: seq<Step>, s: Session, c: Capture, r: RuntimeId, e: DeviceId)
    returns (more: seq<Session>, longer: seq<Step>)
    requires RunTo(o, ss, steps, s) && MayBuild(o, s, c, r, e)
    ensures RunTo(o, more, longer, PublishedState(o, s, c, r, e))
    ensures more == ss + LinkStates(o, s, c, r, e) + [PublishedState(o, s, c, r, e)]
    ensures longer == steps + LinkSteps(e) + [ApplyCommit]
  {
    LinkSchedule(o, ss, steps, s, c, r, e);
    CommitStep(o, s, c, r, e);
    more, longer := Extend(o, ss + LinkStates(o, s, c, r, e), steps + LinkSteps(e), LinkedState(o, s, c, r, e), ApplyCommit);
  }

  // ---- when invalidating a device stops an attempt ----

  /** Some run that goes on from this one sees the attempt for c publish. */
  ghost predicate MayPublish(o: Options, ss: seq<Session>, steps: seq<Step>, c: Capture) {
    exists more, longer, j :: PublishesAt(o, ss, steps, c, more, longer, j)
  }

  ghost predicate PublishesAt(o: Options, ss: seq<Session>, steps: seq<Step>, c: Capture, more: seq<Session>, longer: seq<Step>, j: nat) {
    && Run(o, more, longer) && ss <= more && steps <= longer && |steps| <= j < |longer| && Publishes(more[j], longer[j])
    && forall k | |steps| <= k <= j :: OfAttempt(more[k].op, c)
  }

  /** An attempt past its snapshot is never back before it. */
  lemma {:induction false} StaysPastSnapshot(ss: seq<Session>, steps: seq<Step>, c: Capture, i: nat, j: nat)
    requires AttemptLinks(ss, steps) && i <= j < |ss| && InAttempt(ss[i].op)
    requires forall k | i <= k <= j :: OfAttempt(ss[k].op, c)
    ensures InAttempt(ss[j].op)
    decreases j
  {
    if i < j {
      StaysPastSnapshot(ss, steps, c, i, j - 1);
      assert AttemptLink(ss[j - 1], steps[j - 1], ss[j]);
    }
  }

  /** After an effective invalidateDevice past its snapshot, an attempt does not publish. */
  lemma DetachedNeverPublishes(o: Options, ss: seq<Session>, steps: seq<Step>, c: Capture, i: nat, j: nat)
    requires Run(o, ss, steps) && i < j < |steps| && InAttempt(ss[i].op) && Detaches(ss[i], steps[i])
    requires forall k | i <= k <= j :: OfAttempt(ss[k].op, c)
    ensures !Publishes(ss[j], steps[j])
  {
    if Publishes(ss[j], steps[j]) {
      var n := SnapshotFixesDevice(o, ss, steps, j);
      RunLinks(o, ss, steps);
      if n > i {
        StaysPastSnapshot(ss, steps, c, i, n);
      }
    }
  }

  lemma PastSnapshotBlocked(o: Options, ss: seq<Session>, steps: seq<Step>, c: Capture, st: Step, more: seq<Session>, longer: seq<Step>, j: nat)
    requires Run(o, ss, steps) && InAttempt(ss[|steps|].op) && CaptureOf(ss[|steps|].op) == c
    requires Enabled(o, ss[|steps|], st) && Detaches(ss[|steps|], st)
    ensures !PublishesAt(o, ss + [Next(o, ss[|steps|], st)], steps + [st], c, more, longer, j)
  {
    var i := |steps|;
    var ss1, steps1 := ss + [Next(o, ss[i], st)], steps + [st];
    if PublishesAt(o, ss1, steps1, c, more, longer, j) {
      assert more[i] == ss1[i] == ss[i] && longer[i] == steps1[i] == st;
      DetachedNeverPublishes(o, more, longer, c, i, j);
    }
  }

  /** d's invalidation leaves the capture current and the published device gone. */
  lemma DetachStep(o: Options, s: Session, c: Capture, r: RuntimeId, d: DeviceId, err: NetErr, e: DeviceId)
    requires s.op == Snapshotting(c) && s.f.runtime == At(r) && Current(s.f, r, c) && c.config.addresses != []
    requires err.Failure? && Detaches(s, InvalidateDev(d, err)) && e !in s.built
    ensures Enabled(o, s, InvalidateDev(d, err)) && MayBuild(o, Next(o, s, InvalidateDev(d, err)), c, r, e)
  {
  }

  lemma BeforeSnapshotPublishes(o: Options, ss: seq<Session>, steps: seq<Step>, s: Session, c: Capture, r: RuntimeId, st: Step)
    requires RunTo(o, ss, steps, s) && s.op == Snapshotting(c) && s.f.runtime == At(r) && Current(s.f, r, c)
    requires c.config.addresses != [] && Enabled(o, s, st) && Detaches(s, st)
    ensures MayPublish(o, ss + [Next(o, s, st)], steps + [st], c)
  {
    var e := FreshDevice(s.built.Keys);
    var t := Next(o, s, st);
    DetachStep(o, s, c, r, st.device, st.err, e);
    var ss1, steps1 := Extend(o, ss, steps, s, st);
    var more, longer := PublishSchedule(o, ss1, steps1, t, c, r, e);
    CommitStep(o, t, c, r, e);
    var j := |steps1| + 4;
    AttemptStates(o, ss1, t, c, r, e, PublishedState(o, t, c, r, e));
    assert longer[j] == ApplyCommit && more[j] == LinkedState(o, t, c, r, e);
    assert PublishesAt(o, ss1, steps1, c, more, longer, j);
  }

  lemma AttemptStates(o: Options, ss: seq<Session>, s: Session, c: Capture, r: RuntimeId, e: DeviceId, last: Session)
    requires ss != [] && ss[|ss| - 1] == s && s.op == Snapshotting(c)
    ensures var all := ss + LinkStates(o, s, c, r, e) + [last];
            forall k | |ss| - 1 <= k < |ss| + 4 :: OfAttempt(all[k].op, c)
  {
    var all := ss + LinkStates(o, s, c, r, e) + [last];
    var n := |ss|;
    assert all[n - 1] == s && all[n] == LinkStates(o, s, c, r, e)[0] && all[n + 1] == LinkStates(o, s, c, r, e)[1]
           && all[n + 2] == LinkStates(o, s, c, r, e)[2] && all[n + 3] == LinkStates(o, s, c, r, e)[3];
  }

  lemma FreshDevice(used: set<DeviceId>) returns (e: DeviceId)
    ensures e !in used
  {
    e := FreshBelow(used, 0);
  }

  lemma {:induction false} FreshBelow(used: set<DeviceId>, from: DeviceId) returns (e: DeviceId)
    ensures e !in used && e >= from
    decreases |set d | d in used && d >= from|
  {
    var above := set d | d in used && d >= from;
    if from !in used {
      e := from;
    } else {
      assert (set d | d in used && d >= from + 1) == above - {from};
      e := FreshBelow(used, from + 1);
    }
  }

  /**
   In any run that has come to an attempt whose capture is current, an effective
   invalidateDevice leaves the attempt able to publish if and only if it comes before the
   attempt's snapshot.
   */
  lemma InvalidationBlocksExactly(o: Options, ss: seq<Session>, steps: seq<Step>, c: Capture, r: RuntimeId, st: Step)
    requires Run(o, ss, steps) && OfAttempt(ss[|steps|].op, c)
    requires ss[|steps|].f.runtime == At(r) && Current(ss[|steps|].f, r, c) && c.config.addresses != []
    requires Enabled(o, ss[|steps|], st) && Detaches(ss[|steps|], st)
    ensures MayPublish(o, ss + [Next(o, ss[|steps|], st)], steps + [st], c) <==> ss[|steps|].op == Snapshotting(c)
  {
    var s := ss[|steps|];
    var ss1, steps1 := ss + [Next(o, s, st)], steps + [st];
    if s.op == Snapshotting(c) {
      BeforeSnapshotPublishes(o, ss, steps, s, c, r, st);
    } else {
      forall more, longer, j ensures !PublishesAt(o, ss1, steps1, c, more, longer, j) {
        PastSnapshotBlocked(o, ss, steps, c, st, more, longer, j);
      }
    }
  }

  // ---- runs that do happen ----

  /** The outbound started and nothing has been heard yet. */
  const BOOTED := START.(f := PublishRuntime(INITIAL, 0), nextRuntime := 1)

  lemma Boot(o: Options) returns (ss: seq<Session>, steps: seq<Step>)
    ensures RunTo(o, ss, steps, BOOTED)
  {
    var s1, s2 := START.(op := Starting(false)), BOOTED.(op := Started(0, false));
    assert RunTo(o, [START], [], START);
    ss, steps := Extend(o, [START], [], START, StartEnter);
    ss, steps := Extend(o, ss, steps, s1, StartPublish);
    ss, steps := Extend(o, ss, steps, s2, StartFinish);
  }

  /** A configuration has come in, has been copied out, and an attempt for the copy has the lock. */
  function AskedState(s: Session, c: Config): Session {
    var f := Enqueue(s.f, c);
    s.(f := f, captures := s.captures + {Captured(f)}, op := Snapshotting(Captured(f)))
  }

  predicate Idle(o: Options, s: Session, r: RuntimeId) {
    LockFree(s) && !s.ctxDone && !s.closed && s.f.runtime == At(r)
  }

  lemma EnqueueStep(o: Options, s: Session, r: RuntimeId, c: Config)
    requires !s.ctxDone && s.f.runtime == At(r) && c.networkID == o.networkID
    ensures Enabled(o, s, EnqueueConfig(r, c)) && Next(o, s, EnqueueConfig(r, c)) == s.(f := Enqueue(s.f, c))
  {
  }

  /** States and steps that lead from an idle outbound to an attempt for c; the copy is made in the first of them. */
  function AskStates(s: Session, c: Config): seq<Session> {
    var f := Enqueue(s.f, c);
    [s.(f := f), s.(f := f, captures := s.captures + {Captured(f)}), AskedState(s, c)]
  }

  function AskSteps(s: Session, r: RuntimeId, c: Config): seq<Step> {
    [EnqueueConfig(r, c), TakeConfig, ApplyEnter(Captured(Enqueue(s.f, c)))]
  }

  lemma AskSchedule(o: Options, ss: seq<Session>, steps: seq<Step>, s: Session, r: RuntimeId, c: Config)
    requires RunTo(o, ss, steps, s) && Idle(o, s, r) && c.networkID == o.networkID
    ensures RunTo(o, ss + AskStates(s, c), steps + AskSteps(s, r, c), AskedState(s, c))
  {
    var all := AskStates(s, c);
    EnqueueStep(o, s, r, c);
    var ss1, steps1 := Extend(o, ss, steps, s, EnqueueConfig(r, c));
    assert Next(o, all[0], TakeConfig) == all[1];
    var ss2, steps2 := Extend(o, ss1, steps1, all[0], TakeConfig);
    assert Next(o, all[1], ApplyEnter(Captured(all[0].f))) == all[2];
    var ss3, steps3 := Extend(o, ss2, steps2, all[1], ApplyEnter(Captured(all[0].f)));
    assert ss3 == ss + all && steps3 == steps + AskSteps(s, r, c);
  }

  lemma AskedMayBuild(o: Options, s: Session, r: RuntimeId, c: Config, e: DeviceId)
    requires Idle(o, s, r) && c.addresses != [] && NeedsReplacing(o, s.f.tunDevice, s.f.config, c) && e !in s.built
    ensures MayBuild(o, AskedState(s, c), Captured(Enqueue(s.f, c)), r, e)
  {
  }

  /** The first configuration c, published with device 0 by runtime 0. */
  predicate FirstPublished(o: Options, s: Session, c: Config) {
    && Idle(o, s, 0) && s.f.tunDevice == At(0) && s.f.config == c && s.built.Keys == {0} && !s.desynced
    && s.links == map[0 := LinkFor(o, c)] && s.pending == multiset{}
  }

  lemma FirstPublish(o: Options, c: Config) returns (ss: seq<Session>, steps: seq<Step>, s: Session)
    requires c.networkID == o.networkID && c.addresses != []
    ensures RunTo(o, ss, steps, s) && FirstPublished(o, s, c)
  {
    ss, steps := Boot(o);
    AskSchedule(o, ss, steps, BOOTED, 0, c);
    ss, steps := ss + AskStates(BOOTED, c), steps + AskSteps(BOOTED, 0, c);
    var asked, capture := AskedState(BOOTED, c), Captured(Enqueue(BOOTED.f, c));
    AskedMayBuild(o, BOOTED, 0, c, 0);
    ss, steps := PublishSchedule(o, ss, steps, asked, capture, 0, 0);
    var t := PublishedState(o, asked, capture, 0, 0);
    ss, steps := Extend(o, ss, steps, t, Drain);
    s := Next(o, t, Drain);
  }

  /**
   A configuration can be published although its copy was made before a device was
   invalidated: invalidateDevice leaves the generation alone.
   */
  lemma PublishedAfterInvalidation(o: Options, c1: Config, c2: Config, err: NetErr)
    returns (ss: seq<Session>, steps: seq<Step>, i: nat, k: nat, j: nat)
    requires c1.networkID == o.networkID == c2.networkID && c1.addresses != [] && c2.addresses != [] && err.Failure?
    ensures Run(o, ss, steps) && i < k < j < |steps|
    ensures Detaches(ss[k], steps[k]) && ss[k + 1].f.configGeneration == ss[k].f.configGeneration
    ensures Publishes(ss[j], steps[j]) && ss[j].op.attempt.capture == Captured(ss[i].f)
    ensures ss[j + 1].f.tunDevice == At(1) && ss[j + 1].f.config == c2
  {
    var s;
    ss, steps, s := FirstPublish(o, c1);
    i := |steps| + 1;
    AskSchedule(o, ss, steps, s, 0, c2);
    ss, steps := ss + AskStates(s, c2), steps + AskSteps(s, 0, c2);
    var asked, capture := AskedState(s, c2), Captured(Enqueue(s.f, c2));
    assert ss[i] == AskStates(s, c2)[0];
    k := |steps|;
    var st := InvalidateDev(0, err);
    DetachStep(o, asked, capture, 0, 0, err, 1);
    var t := Next(o, asked, st);
    ss, steps := Extend(o, ss, steps, asked, st);
    j := |steps| + 4;
    CommitStep(o, t, capture, 0, 1);
    ss, steps := PublishSchedule(o, ss, steps, t, capture, 0, 1);
    assert ss[j] == LinkedState(o, t, capture, 0, 1) && ss[j + 1] == PublishedState(o, t, capture, 0, 1);
  }

  lemma StaleStep(o: Options, s: Session, c: Capture, r: RuntimeId, e: DeviceId, newest: Config)
    requires MayBuild(o, s, c, r, e) && newest != c.config && !s.ctxDone
    ensures var t := LinkedState(o, s, c, r, e).(f := Enqueue(s.f, newest));
            Next(o, t, ApplyCommit) == t.(op := Applying(Stale, t.op.attempt))
  {
  }

  lemma FailStep(o: Options, s: Session, a: Attempt)
    requires s.op == Applying(Stale, a) && a.oldConfig.networkID == o.networkID && a.oldConfig.addresses != []
    ensures Next(o, s, ApplyRollback(false)) == s.(desynced := true, op := Draining(OwnDevice(a)))
  {
  }

  /** A failed rollback does happen, and leaves a published device on a link that holds another configuration. */
  lemma RollbackCanFail(o: Options, c1: Config, c2: Config, c3: Config)
    returns (ss: seq<Session>, steps: seq<Step>, s: Session)
    requires c1.networkID == o.networkID == c2.networkID == c3.networkID
    requires c1.addresses != [] && c2.addresses != [] && c1.addresses != c2.addresses && c3 != c2
    ensures RunTo(o, ss, steps, s) && LockFree(s) && s.pending == multiset{}
    ensures s.f.tunDevice == At(0) && s.f.runtime == At(0) && s.f.config == c1
    ensures 0 in s.links && s.links[0] == LinkFor(o, c2) && !InSync(o, s, 0)
  {
    ss, steps, s := FirstPublish(o, c1);
    AskSchedule(o, ss, steps, s, 0, c2);
    ss, steps := ss + AskStates(s, c2), steps + AskSteps(s, 0, c2);
    var asked, capture := AskedState(s, c2), Captured(Enqueue(s.f, c2));
    AskedMayBuild(o, s, 0, c2, 1);
    LinkSchedule(o, ss, steps, asked, capture, 0, 1);
    ss, steps := ss + LinkStates(o, asked, capture, 0, 1), steps + LinkSteps(1);
    ss, steps, s := FailSchedule(o, ss, steps, asked, capture, 0, 1, c3);
  }

  lemma FailSchedule(o: Options, ss: seq<Session>, steps: seq<Step>, s: Session, c: Capture, r: RuntimeId, e: DeviceId, newest: Config)
    returns (more: seq<Session>, longer: seq<Step>, t: Session)
    requires RunTo(o, ss, steps, LinkedState(o, s, c, r, e)) && MayBuild(o, s, c, r, e) && newest != c.config
    requires newest.networkID == o.networkID == s.f.config.networkID && s.f.config.addresses != [] && !s.ctxDone
    ensures RunTo(o, more, longer, t) && t.op == Free && t.readers == s.readers && t.pending == s.pending
    ensures t.f == Enqueue(s.f, newest) && t.links == s.links[r := LinkFor(o, c.config)]
  {
    var newer := LinkedState(o, s, c, r, e).(f := Enqueue(s.f, newest));
    more, longer := StaleSchedule(o, ss, steps, s, c, r, e, newest);
    var stale := newer.(op := Applying(Stale, newer.op.attempt));
    FailStep(o, stale, newer.op.attempt);
    more, longer := Extend(o, more, longer, stale, ApplyRollback(false));
    var failed := stale.(desynced := true, op := Draining(At(e)));
    more, longer := Extend(o, more, longer, failed, Drain);
    t := Next(o, failed, Drain);
  }

  lemma StaleSchedule(o: Options, ss: seq<Session>, steps: seq<Step>, s: Session, c: Capture, r: RuntimeId, e: DeviceId, newest: Config)
    returns (more: seq<Session>, longer: seq<Step>)
    requires RunTo(o, ss, steps, LinkedState(o, s, c, r, e)) && MayBuild(o, s, c, r, e) && newest != c.config
    requires newest.networkID == o.networkID && !s.ctxDone
    ensures var newer := LinkedState(o, s, c, r, e).(f := Enqueue(s.f, newest));
            RunTo(o, more, longer, newer.(op := Applying(Stale, newer.op.attempt)))
  {
    var linked := LinkedState(o, s, c, r, e);
    EnqueueStep(o, linked, r, newest);
    more, longer := Extend(o, ss, steps, linked, EnqueueConfig(r, newest));
    StaleStep(o, s, c, r, e, newest);
    more, longer := Extend(o, more, longer, linked.(f := Enqueue(s.f, newest)), ApplyCommit);
  }
}
