/** What holds of every run of the ZeroTier protocol. */
module ZeroTierSafety {
  import opened ZeroTierState
  import opened ZeroTierProtocol

  lemma StartHolds(o: Options)
    ensures Inv(o, START)
  {
  }

  // ---- one lemma per step ----

  lemma CancelKeeps(o: Options, s: Session)
    requires Inv(o, s)
    ensures Inv(o, s.(ctxDone := true))
    ensures Evolves(s, s.(ctxDone := true)) && Handed(s, s.(ctxDone := true))
  {
  }

  lemma EnqueueKeeps(o: Options, s: Session, source: RuntimeId, c: Config)
    requires Inv(o, s) && c.networkID == o.networkID
    ensures Inv(o, DoEnqueue(s, source, c))
  {
  }

  lemma EnqueueEvolves(s: Session, source: RuntimeId, c: Config)
    requires s.closed ==> s.ctxDone
    ensures Evolves(s, DoEnqueue(s, source, c)) && Handed(s, DoEnqueue(s, source, c))
  {
  }

  lemma InvalidateNetEvolves(s: Session, source: Ref, err: NetErr, url: string, retry: bool)
    requires s.closed ==> s.ctxDone
    ensures Evolves(s, DoInvalidateNet(s, source, err, url, retry))
    ensures Handed(s, DoInvalidateNet(s, source, err, url, retry))
  {
  }

  lemma InvalidateNetKeeps(o: Options, s: Session, source: Ref, err: NetErr, url: string, retry: bool)
    requires Inv(o, s) && err != Closed
    ensures Inv(o, DoInvalidateNet(s, source, err, url, retry))
  {
  }

  lemma InvalidateDevKeeps(o: Options, s: Session, d: DeviceId, err: NetErr)
    requires Inv(o, s) && err.Failure?
    ensures Inv(o, DoInvalidateDev(s, d, err))
    ensures Evolves(s, DoInvalidateDev(s, d, err)) && Handed(s, DoInvalidateDev(s, d, err))
  {
  }

  lemma TakeConfigKeeps(o: Options, s: Session)
    requires Inv(o, s) && s.f.haveLatestConfig
    ensures Inv(o, DoTakeConfig(s))
    ensures Evolves(s, DoTakeConfig(s)) && Handed(s, DoTakeConfig(s))
  {
  }

  lemma EndRetryKeeps(o: Options, s: Session)
    requires Inv(o, s)
    ensures Inv(o, s.(f := RetryEnd(s.f)))
    ensures Evolves(s, s.(f := RetryEnd(s.f))) && Handed(s, s.(f := RetryEnd(s.f)))
  {
  }

  lemma RecordFailureEvolves(s: Session, c: Capture, have: bool, err: NetErr, retry: bool)
    requires (s.closed ==> s.ctxDone) && err.Failure?
    ensures Evolves(s, DoRecordFailure(s, c, have, err, retry))
    ensures Handed(s, DoRecordFailure(s, c, have, err, retry))
  {
  }

  lemma RecordFailureKeeps(o: Options, s: Session, c: Capture, have: bool, err: NetErr, retry: bool)
    requires Inv(o, s) && err.Failure?
    ensures Inv(o, DoRecordFailure(s, c, have, err, retry))
  {
  }

  lemma RunCloseKeeps(o: Options, s: Session, d: DeviceId)
    requires Inv(o, s) && d in s.pending
    ensures Inv(o, DoRunClose(s, d))
    ensures Evolves(s, DoRunClose(s, d)) && Handed(s, DoRunClose(s, d))
  {
  }

  lemma ReaderEnterKeeps(o: Options, s: Session, r: nat)
    requires Inv(o, s) && s.op == Free && r !in s.readers
    ensures Inv(o, s.(readers := s.readers[r := Entered]))
    ensures Evolves(s, s.(readers := s.readers[r := Entered])) && Handed(s, s.(readers := s.readers[r := Entered]))
  {
  }

  lemma ReaderCheckKeeps(o: Options, s: Session, r: nat)
    requires Inv(o, s) && r in s.readers
    ensures Inv(o, DoReaderCheck(s, r))
    ensures Evolves(s, DoReaderCheck(s, r)) && Handed(s, DoReaderCheck(s, r))
  {
  }

  lemma ReaderLeaveKeeps(o: Options, s: Session, r: nat)
    requires Inv(o, s) && r in s.readers
    ensures Inv(o, s.(readers := s.readers - {r}))
    ensures Evolves(s, s.(readers := s.readers - {r})) && Handed(s, s.(readers := s.readers - {r}))
  {
  }

  lemma OpFreedKeeps(o: Options, s: Session)
    requires Inv(o, s) && Private(s.op).Nil? && LinkSettled(s)
    ensures Inv(o, s.(op := Free))
    ensures Evolves(s, s.(op := Free)) && Handed(s, s.(op := Free))
  {
  }

  lemma StartEnterKeeps(o: Options, s: Session)
    requires Inv(o, s) && LockFree(s) && !s.closed && s.f.runtime.Nil?
    ensures Inv(o, s.(op := Starting(false)))
    ensures Evolves(s, s.(op := Starting(false))) && Handed(s, s.(op := Starting(false)))
  {
  }

  lemma StartFailKeeps(o: Options, s: Session, recovering: bool)
    requires Inv(o, s) && s.op == Starting(recovering)
    ensures Inv(o, s.(op := AfterFailedStart(recovering)))
    ensures Evolves(s, s.(op := AfterFailedStart(recovering))) && Handed(s, s.(op := AfterFailedStart(recovering)))
  {
  }

  lemma StartPublishKeeps(o: Options, s: Session, recovering: bool)
    requires Inv(o, s) && s.op == Starting(recovering)
    ensures Inv(o, DoStartPublish(s, recovering))
    ensures Evolves(s, DoStartPublish(s, recovering)) && Handed(s, DoStartPublish(s, recovering))
  {
  }

  lemma StartCleanupKeeps(o: Options, s: Session, runtime: RuntimeId, recovering: bool)
    requires Inv(o, s) && s.op == Started(runtime, recovering)
    ensures Inv(o, DoStartCleanup(s, runtime, recovering))
    ensures Evolves(s, DoStartCleanup(s, runtime, recovering)) && Handed(s, DoStartCleanup(s, runtime, recovering))
  {
  }

  lemma RestartReportKeeps(o: Options, s: Session, err: NetErr)
    requires Inv(o, s) && s.op.RestartFailed? && err.Failure?
    ensures Inv(o, DoRestartReport(s, err))
    ensures Evolves(s, DoRestartReport(s, err)) && Handed(s, DoRestartReport(s, err))
  {
  }

  lemma ApplyEnterKeeps(o: Options, s: Session, c: Capture)
    requires Inv(o, s) && LockFree(s) && !s.ctxDone && c in s.captures
    ensures Inv(o, s.(op := Snapshotting(c)))
    ensures Evolves(s, s.(op := Snapshotting(c))) && Handed(s, s.(op := Snapshotting(c)))
  {
  }

  lemma ApplyKeepKeeps(o: Options, s: Session)
    requires Inv(o, s) && Enabled(o, s, ApplyKeep)
    ensures Inv(o, Next(o, s, ApplyKeep))
    ensures Evolves(s, Next(o, s, ApplyKeep)) && Handed(s, Next(o, s, ApplyKeep))
  {
  }

  lemma ApplyBuildKeeps(o: Options, s: Session, d: DeviceId, usable: bool)
    requires Inv(o, s) && Enabled(o, s, ApplyBuild(d, usable))
    ensures Inv(o, DoApplyBuild(o, s, d, usable))
    ensures Evolves(s, DoApplyBuild(o, s, d, usable)) && Handed(s, DoApplyBuild(o, s, d, usable))
  {
  }

  lemma ApplyRecheckKeeps(o: Options, s: Session)
    requires Inv(o, s) && AtStage(s, Built)
    ensures Inv(o, Next(o, s, ApplyRecheck))
    ensures Evolves(s, Next(o, s, ApplyRecheck)) && Handed(s, Next(o, s, ApplyRecheck))
  {
  }

  lemma ApplyLinkKeeps(o: Options, s: Session, a: Attempt, accepted: bool)
    requires Inv(o, s) && s.op == Applying(Checked, a)
    ensures Inv(o, DoApplyLink(o, s, a, accepted))
    ensures Evolves(s, DoApplyLink(o, s, a, accepted)) && Handed(s, DoApplyLink(o, s, a, accepted))
  {
  }

  lemma ApplyRollbackKeeps(o: Options, s: Session, a: Attempt, accepted: bool)
    requires Inv(o, s) && s.op == Applying(Stale, a)
    ensures Inv(o, DoApplyRollback(o, s, a, accepted))
  {
  }

  lemma ApplyRollbackEvolves(o: Options, s: Session, a: Attempt, accepted: bool)
    requires !s.closed
    ensures Evolves(s, DoApplyRollback(o, s, a, accepted)) && Handed(s, DoApplyRollback(o, s, a, accepted))
  {
  }

  lemma DrainKeeps(o: Options, s: Session, d: Ref)
    requires Inv(o, s) && s.op == Draining(d)
    ensures Inv(o, DoDrain(s, d))
    ensures Evolves(s, DoDrain(s, d)) && Handed(s, DoDrain(s, d))
  {
  }

  lemma RecoverEnterKeeps(o: Options, s: Session, source: RuntimeId)
    requires Inv(o, s) && LockFree(s) && !s.closed
    ensures Inv(o, s.(op := Recovering(source)))
    ensures Evolves(s, s.(op := Recovering(source))) && Handed(s, s.(op := Recovering(source)))
  {
  }

  lemma RecoverDetachKeeps(o: Options, s: Session, source: RuntimeId, sameAddress: bool)
    requires Inv(o, s) && s.op == Recovering(source)
    ensures Inv(o, DoRecoverDetach(s, source, sameAddress))
    ensures Evolves(s, DoRecoverDetach(s, source, sameAddress)) && Handed(s, DoRecoverDetach(s, source, sameAddress))
  {
  }

  lemma RecoverRetireKeeps(o: Options, s: Session, runtime: RuntimeId, d: Ref)
    requires Inv(o, s) && s.op == Retiring(runtime, d)
    ensures Inv(o, DoDrain(s, d).(op := if s.ctxDone then Free else Starting(true)))
    ensures Evolves(s, DoDrain(s, d).(op := if s.ctxDone then Free else Starting(true))) && Handed(s, DoDrain(s, d).(op := if s.ctxDone then Free else Starting(true)))
  {
  }

  lemma CloseKeeps(o: Options, s: Session)
    requires Inv(o, s) && s.ctxDone && LockFree(s)
    ensures Inv(o, DoClose(s))
    ensures Evolves(s, DoClose(s)) && Handed(s, DoClose(s))
  {
  }

  lemma RetryFieldsKeep(o: Options, s: Session)
    requires Inv(o, s) && !s.closed
    ensures Inv(o, s.(f := RetryBegin(s.f)))
    ensures Evolves(s, s.(f := RetryBegin(s.f))) && Handed(s, s.(f := RetryBegin(s.f)))
  {
  }

  lemma BeginRetryKeeps(o: Options, s: Session)
    requires Inv(o, s)
    ensures Inv(o, DoBeginRetry(s))
    ensures Evolves(s, DoBeginRetry(s)) && Handed(s, DoBeginRetry(s))
  {
    if RetryApplies(s.f, s.ctxDone) {
      assert !s.closed;
      if s.f.retryLatestConfig && s.f.haveLatestConfig {
        TakeConfigKeeps(o, s);
        RetryFieldsKeep(o, DoTakeConfig(s));
      } else {
        RetryFieldsKeep(o, s);
      }
    }
  }

  lemma SnapshotTakenKeeps(o: Options, s: Session, c: Capture, runtime: RuntimeId)
    requires Inv(o, s) && s.op == Snapshotting(c) && s.f.runtime == At(runtime)
    ensures Inv(o, s.(op := Building(c, runtime, s.f.tunDevice, s.f.config)))
    ensures Evolves(s, s.(op := Building(c, runtime, s.f.tunDevice, s.f.config))) && Handed(s, s.(op := Building(c, runtime, s.f.tunDevice, s.f.config)))
  {
  }

  lemma ApplySnapshotKeeps(o: Options, s: Session, c: Capture)
    requires Inv(o, s) && s.op == Snapshotting(c)
    ensures Inv(o, DoApplySnapshot(s, c))
    ensures Evolves(s, DoApplySnapshot(s, c)) && Handed(s, DoApplySnapshot(s, c))
  {
    if s.f.runtime.At? {
      SnapshotTakenKeeps(o, s, c, s.f.runtime.id);
    }
    OpFreedKeeps(o, s);
  }

  lemma StaleFoundKeeps(o: Options, s: Session, a: Attempt)
    requires Inv(o, s) && s.op == Applying(Linked, a)
    ensures Inv(o, s.(op := Applying(Stale, a)))
    ensures Evolves(s, s.(op := Applying(Stale, a))) && Handed(s, s.(op := Applying(Stale, a)))
  {
  }

  lemma ConfigPublishedKeeps(o: Options, s: Session, a: Attempt)
    requires Inv(o, s) && s.op == Applying(Linked, a) && StillCurrent(s, a)
    ensures Owned(DoApplyCommit(s, a))
    ensures Coherent(o, DoApplyCommit(s, a))
    ensures Evolves(s, DoApplyCommit(s, a)) && Handed(s, DoApplyCommit(s, a))
  {
  }

  lemma ApplyCommitKeeps(o: Options, s: Session, a: Attempt)
    requires Inv(o, s) && s.op == Applying(Linked, a)
    ensures Inv(o, DoApplyCommit(s, a))
    ensures Evolves(s, DoApplyCommit(s, a)) && Handed(s, DoApplyCommit(s, a))
  {
    if StillCurrent(s, a) {
      ConfigPublishedKeeps(o, s, a);
    } else {
      StaleFoundKeeps(o, s, a);
    }
  }

  /** Steps that do not need operationMu for writing. */
  predicate UnlockedStep(st: Step) {
    st.Cancel? || st.EnqueueConfig? || st.InvalidateNet? || st.InvalidateDev? || st.TakeConfig? || st.BeginRetry? ||
    st.EndRetry? || st.RecordFailure? || st.RunClose? || st.ReaderEnter? || st.ReaderCheck? || st.ReaderLeave?
  }

  /** Steps of applyNetworkConfig. */
  predicate ApplyStep(st: Step) {
    st.ApplyEnter? || st.ApplySnapshot? || st.ApplyReject? || st.ApplyKeep? || st.ApplyBuild? || st.ApplyRecheck? ||
    st.ApplyLink? || st.ApplyCommit? || st.ApplyRollback? || st.Drain?
  }

  lemma UnlockedStepKeeps(o: Options, s: Session, st: Step)
    requires Inv(o, s) && Enabled(o, s, st) && UnlockedStep(st)
    ensures Inv(o, Next(o, s, st))
    ensures Evolves(s, Next(o, s, st)) && Handed(s, Next(o, s, st))
  {
    match st
    case Cancel => CancelKeeps(o, s);
    case EnqueueConfig(source, c) =>
      EnqueueKeeps(o, s, source, c);
      EnqueueEvolves(s, source, c);
    case InvalidateNet(source, err, url, retry) =>
      InvalidateNetKeeps(o, s, source, err, url, retry);
      InvalidateNetEvolves(s, source, err, url, retry);
    case InvalidateDev(d, err) => InvalidateDevKeeps(o, s, d, err);
    case TakeConfig => TakeConfigKeeps(o, s);
    case BeginRetry => BeginRetryKeeps(o, s);
    case EndRetry => EndRetryKeeps(o, s);
    case RecordFailure(c, have, err, retry) =>
      RecordFailureKeeps(o, s, c, have, err, retry);
      RecordFailureEvolves(s, c, have, err, retry);
    case RunClose(d) => RunCloseKeeps(o, s, d);
    case ReaderEnter(r) => ReaderEnterKeeps(o, s, r);
    case ReaderCheck(r) => ReaderCheckKeeps(o, s, r);
    case ReaderLeave(r) => ReaderLeaveKeeps(o, s, r);
    case _ =>
  }

  lemma ApplyStepKeeps(o: Options, s: Session, st: Step)
    requires Inv(o, s) && Enabled(o, s, st) && ApplyStep(st)
    ensures Inv(o, Next(o, s, st))
    ensures Evolves(s, Next(o, s, st)) && Handed(s, Next(o, s, st))
  {
    match st
    case ApplyEnter(c) => if !s.ctxDone { ApplyEnterKeeps(o, s, c); }
    case ApplySnapshot => ApplySnapshotKeeps(o, s, s.op.capture);
    case ApplyReject => OpFreedKeeps(o, s);
    case ApplyKeep => ApplyKeepKeeps(o, s);
    case ApplyBuild(d, usable) => ApplyBuildKeeps(o, s, d, usable);
    case ApplyRecheck => ApplyRecheckKeeps(o, s);
    case ApplyLink(accepted) => ApplyLinkKeeps(o, s, s.op.attempt, accepted);
    case ApplyCommit => ApplyCommitKeeps(o, s, s.op.attempt);
    case ApplyRollback(accepted) =>
      ApplyRollbackKeeps(o, s, s.op.attempt, accepted);
      ApplyRollbackEvolves(o, s, s.op.attempt, accepted);
    case Drain => DrainKeeps(o, s, s.op.doomed);
    case _ =>
  }

  lemma LifecycleStepKeeps(o: Options, s: Session, st: Step)
    requires Inv(o, s) && Enabled(o, s, st) && !UnlockedStep(st) && !ApplyStep(st)
    ensures Inv(o, Next(o, s, st))
    ensures Evolves(s, Next(o, s, st)) && Handed(s, Next(o, s, st))
  {
    match st
    case StartEnter => if !s.closed && s.f.runtime.Nil? { StartEnterKeeps(o, s); }
    case StartFail => StartFailKeeps(o, s, s.op.recovering);
    case StartPublish => StartPublishKeeps(o, s, s.op.recovering);
    case StartFinish => OpFreedKeeps(o, s);
    case StartCleanup => StartCleanupKeeps(o, s, s.op.runtime, s.op.recovering);
    case RestartReport(err) => RestartReportKeeps(o, s, err);
    case RecoverEnter(source) => if !s.closed { RecoverEnterKeeps(o, s, source); }
    case RecoverDetach(sameAddress) => RecoverDetachKeeps(o, s, s.op.source, sameAddress);
    case RecoverRetire => RecoverRetireKeeps(o, s, s.op.retired, s.op.stack);
    case CloseOutbound => CloseKeeps(o, s);
    case _ =>
  }

  lemma StepKeepsInv(o: Options, s: Session, st: Step)
    requires Inv(o, s) && Enabled(o, s, st)
    ensures Inv(o, Next(o, s, st))
    ensures Evolves(s, Next(o, s, st)) && Handed(s, Next(o, s, st))
  {
    if UnlockedStep(st) {
      UnlockedStepKeeps(o, s, st);
    } else if ApplyStep(st) {
      ApplyStepKeeps(o, s, st);
    } else {
      LifecycleStepKeeps(o, s, st);
    }
  }
}
