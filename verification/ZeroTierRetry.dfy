/** Over whole runs: exactly when a retry applies the newest configuration again. */
module ZeroTierRetry {
  import opened ZeroTierState
  import opened ZeroTierProtocol
  import opened ZeroTierSafety
  import opened ZeroTierTheorems
  import opened ZeroTierSchedules

  /** The failure applies to the fields as they stand. */
  predicate Fails(s: Session, st: Step) {
    !s.ctxDone &&
    match st
    case RecordFailure(c, have, _, _) =>
      && s.f.configGeneration == c.generation && s.f.runtime == c.runtime && s.f.haveLatestConfig == have
      && (have ==> s.f.latestConfig == c.config)
    case InvalidateNet(source, _, _, _) => source.Nil? || s.f.runtime == source
    case InvalidateDev(device, _) => s.f.tunDevice == At(device)
    case RestartReport(_) => true
    case _ => false
  }

  /** The network state starts afresh: a runtime is published or detached, a configuration published, or the outbound shut down. */
  predicate Renews(s: Session, st: Step) {
    match st
    case StartPublish => true
    case RecoverDetach(same) => s.op.Recovering? && s.f.runtime == At(s.op.source) && same
    case ApplyCommit => Publishes(s, st)
    case CloseOutbound => !s.closed
    case _ => false
  }

  /** A retry may begin: the outbound is open, the network is not settled well, and no retry is under way. */
  predicate MayRetry(s: Session) {
    !s.ctxDone && !s.f.networkRetrying && (s.f.tunDevice.Nil? || s.f.networkErr != NoErr)
  }

  /** The step has the last word on retrying, until the next such step. */
  predicate Decides(s: Session, st: Step) {
    Fails(s, st) || Renews(s, st)
  }

  /** It is a failure that asks for a retry, while there is a configuration to retry. */
  predicate AsksRetry(s: Session, st: Step) {
    Fails(s, st) && s.f.haveLatestConfig &&
    match st
    case RecordFailure(_, _, _, retry) => retry
    case InvalidateNet(_, _, _, retry) => retry
    case InvalidateDev(_, _) => true
    case _ => false
  }

  /** The last step before i to decide was a failure that asked for a retry. */
  ghost predicate RetryAsked(ss: seq<Session>, steps: seq<Step>, i: nat)
    requires |ss| == |steps| + 1 && i <= |steps|
  {
    exists k: nat :: k < i && Decides(ss[k], steps[k]) && AsksRetry(ss[k], steps[k]) &&
                     forall j: nat | k < j < i :: !Decides(ss[j], steps[j])
  }

  // ---- one step ----

  /** The retry flag is what the deciding steps make of it, and only stands while there is a configuration. */
  predicate FlagFollows(s: Session, st: Step, t: Session) {
    && t.f.retryLatestConfig == (if Decides(s, st) then AsksRetry(s, st) else s.f.retryLatestConfig)
    && ((s.f.retryLatestConfig ==> s.f.haveLatestConfig) ==> (t.f.retryLatestConfig ==> t.f.haveLatestConfig))
  }

  lemma RecordFlags(o: Options, s: Session, st: Step)
    requires Enabled(o, s, st) && st.RecordFailure?
    ensures FlagFollows(s, st, Next(o, s, st))
  {
  }

  lemma NetworkFlags(o: Options, s: Session, st: Step)
    requires Enabled(o, s, st) && st.InvalidateNet?
    ensures FlagFollows(s, st, Next(o, s, st))
  {
  }

  lemma DeviceFlags(o: Options, s: Session, st: Step)
    requires Enabled(o, s, st) && st.InvalidateDev?
    ensures FlagFollows(s, st, Next(o, s, st))
  {
  }

  lemma QuietFlags(o: Options, s: Session, st: Step)
    requires Enabled(o, s, st) && UnlockedStep(st) && !(st.RecordFailure? || st.InvalidateNet? || st.InvalidateDev?)
    ensures FlagFollows(s, st, Next(o, s, st))
  {
  }

  lemma CommitFlags(s: Session, a: Attempt)
    ensures var t := DoApplyCommit(s, a);
            t.f.retryLatestConfig == (s.f.retryLatestConfig && !StillCurrent(s, a)) && t.f.haveLatestConfig == s.f.haveLatestConfig
  {
  }

  lemma ApplyFlags(o: Options, s: Session, st: Step)
    requires Enabled(o, s, st) && ApplyStep(st)
    ensures FlagFollows(s, st, Next(o, s, st))
  {
    match st
    case ApplySnapshot => BuildingKeepsFields(o, s, s.op.capture, 0, true, Nil);
    case ApplyBuild(d, usable) => BuildingKeepsFields(o, s, s.op.capture, d, usable, Nil);
    case ApplyLink(accepted) => LinkingKeepsFields(o, s, s.op.attempt, accepted);
    case ApplyRollback(accepted) => LinkingKeepsFields(o, s, s.op.attempt, accepted);
    case ApplyCommit => CommitFlags(s, s.op.attempt);
    case Drain => BuildingKeepsFields(o, s, Captured(s.f), 0, true, s.op.doomed);
    case _ =>
  }

  lemma LifecycleFlags(o: Options, s: Session, st: Step)
    requires Enabled(o, s, st) && !UnlockedStep(st) && !ApplyStep(st)
    ensures FlagFollows(s, st, Next(o, s, st))
  {
  }

  lemma StepFlags(o: Options, s: Session, st: Step, t: Session)
    requires StepsTo(o, s, st, t)
    ensures FlagFollows(s, st, t)
  {
    if st.RecordFailure? {
      RecordFlags(o, s, st);
    } else if st.InvalidateNet? {
      NetworkFlags(o, s, st);
    } else if st.InvalidateDev? {
      DeviceFlags(o, s, st);
    } else if UnlockedStep(st) {
      QuietFlags(o, s, st);
    } else if ApplyStep(st) {
      ApplyFlags(o, s, st);
    } else {
      LifecycleFlags(o, s, st);
    }
  }

  // ---- whole runs ----

  ghost predicate FlagsFollow(ss: seq<Session>, steps: seq<Step>) {
    && |ss| == |steps| + 1 && !ss[0].f.retryLatestConfig
    && forall i {:trigger steps[i]} | 0 <= i < |steps| :: FlagFollows(ss[i], steps[i], ss[i + 1])
  }

  lemma RunFlags(o: Options, ss: seq<Session>, steps: seq<Step>)
    requires Run(o, ss, steps)
    ensures FlagsFollow(ss, steps)
  {
    forall i | 0 <= i < |steps| ensures FlagFollows(ss[i], steps[i], ss[i + 1]) {
      StepFlags(o, ss[i], steps[i], ss[i + 1]);
    }
  }

  lemma {:induction false} FlagMeans(ss: seq<Session>, steps: seq<Step>, i: nat)
    requires FlagsFollow(ss, steps) && i <= |steps|
    ensures ss[i].f.retryLatestConfig <==> RetryAsked(ss, steps, i)
    ensures ss[i].f.retryLatestConfig ==> ss[i].f.haveLatestConfig
    decreases i
  {
    if i > 0 {
      var n := i - 1;
      FlagMeans(ss, steps, n);
      assert FlagFollows(ss[n], steps[n], ss[i]);
      if Decides(ss[n], steps[n]) {
        LastDecides(ss, steps, n);
      } else {
        LastIsEarlier(ss, steps, n);
      }
    }
  }

  lemma LastDecides(ss: seq<Session>, steps: seq<Step>, n: nat)
    requires |ss| == |steps| + 1 && n < |steps| && Decides(ss[n], steps[n])
    ensures RetryAsked(ss, steps, n + 1) <==> AsksRetry(ss[n], steps[n])
  {
  }

  lemma LastIsEarlier(ss: seq<Session>, steps: seq<Step>, n: nat)
    requires |ss| == |steps| + 1 && n < |steps| && !Decides(ss[n], steps[n])
    ensures RetryAsked(ss, steps, n + 1) <==> RetryAsked(ss, steps, n)
  {
    if RetryAsked(ss, steps, n) {
      var k: nat :| k < n && Decides(ss[k], steps[k]) && AsksRetry(ss[k], steps[k]) &&
                    forall j: nat | k < j < n :: !Decides(ss[j], steps[j]);
      assert forall j: nat | k < j < n + 1 :: !Decides(ss[j], steps[j]);
    }
  }

  /**
   In every run, a retry copies out the newest configuration to apply it again if and only
   if the last deciding step was a failure that asked for a retry while a configuration was
   held; it then still is.  It copies nothing otherwise.
   */
  lemma RetriesExactly(o: Options, ss: seq<Session>, steps: seq<Step>, i: nat)
    requires Run(o, ss, steps) && i < |steps| && steps[i] == BeginRetry && MayRetry(ss[i])
    ensures RetryAsked(ss, steps, i) ==>
              && ss[i].f.haveLatestConfig
              && ss[i + 1].captures ==
                 ss[i].captures + {Capture(ss[i].f.latestConfig, ss[i].f.configGeneration, ss[i].f.runtime)}
    ensures !RetryAsked(ss, steps, i) ==> ss[i + 1].captures == ss[i].captures
  {
    RunFlags(o, ss, steps);
    FlagMeans(ss, steps, i);
    assert StepsTo(o, ss[i], steps[i], ss[i + 1]);
  }

  /** Holding a configuration now is not enough: one that came in after the failure is not applied by the retry. */
  lemma LateConfigIsNotRetried(o: Options, c: Config, err: NetErr) returns (ss: seq<Session>, steps: seq<Step>, s: Session)
    requires c.networkID == o.networkID && err.Failure?
    ensures RunTo(o, ss, steps, s) && MayRetry(s) && s.f.haveLatestConfig && s.f.latestConfig == c
    ensures |steps| >= 2 && steps[|steps| - 2] == InvalidateNet(Nil, err, "", true) && Next(o, s, BeginRetry).captures == {}
  {
    ss, steps := Boot(o);
    var failed := BOOTED.(f := InvalidateNetwork(BOOTED.f, err, "", true));
    ss, steps := Extend(o, ss, steps, BOOTED, InvalidateNet(Nil, err, "", true));
    EnqueueStep(o, failed, 0, c);
    ss, steps := Extend(o, ss, steps, failed, EnqueueConfig(0, c));
    s := failed.(f := Enqueue(failed.f, c));
  }
}
