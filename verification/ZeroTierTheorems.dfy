/** Safety over whole runs of the ZeroTier protocol. */
module ZeroTierTheorems {
  import opened ZeroTierState
  import opened ZeroTierProtocol
  import opened ZeroTierSafety

  /** States ss, reached from the initial one by the steps in order. */
  ghost predicate Run(o: Options, ss: seq<Session>, steps: seq<Step>) {
    && |ss| == |steps| + 1
    && ss[0] == START
    && forall i {:trigger steps[i]} | 0 <= i < |steps| :: StepsTo(o, ss[i], steps[i], ss[i + 1])
  }

  ghost predicate StepsTo(o: Options, s: Session, st: Step, t: Session) {
    Enabled(o, s, st) && t == Next(o, s, st)
  }

  lemma StepEvolves(o: Options, ss: seq<Session>, steps: seq<Step>, i: nat)
    requires Run(o, ss, steps) && i < |steps|
    ensures Evolves(ss[i], ss[i + 1]) && Handed(ss[i], ss[i + 1])
  {
    RunKeepsInv(o, ss, steps, i);
    StepKeepsInv(o, ss[i], steps[i]);
  }

  lemma {:induction false} RunKeepsInv(o: Options, ss: seq<Session>, steps: seq<Step>, i: nat)
    requires Run(o, ss, steps) && i < |ss|
    ensures Inv(o, ss[i])
    decreases i
  {
    if i == 0 {
      StartHolds(o);
    } else {
      RunKeepsInv(o, ss, steps, i - 1);
      assert StepsTo(o, ss[i - 1], steps[i - 1], ss[i]);
      StepKeepsInv(o, ss[i - 1], steps[i - 1]);
    }
  }

  // ---- device ownership ----

  /**
   In every reachable state, a device that was ever created is in exactly one
   place: private to the holder of operationMu, published, owed one Close call,
   or closed once.  Nothing else is anywhere.
   */
  lemma DevicesHaveOneOwner(o: Options, ss: seq<Session>, steps: seq<Step>, i: nat, d: DeviceId)
    requires Run(o, ss, steps) && i < |ss|
    ensures d in ss[i].built ==>
              || (Private(ss[i].op) == At(d) && ss[i].f.tunDevice != At(d) && ss[i].pending[d] == 0 && ss[i].closes[d] == 0)
              || (Private(ss[i].op) != At(d) && ss[i].f.tunDevice == At(d) && ss[i].pending[d] == 0 && ss[i].closes[d] == 0)
              || (Private(ss[i].op) != At(d) && ss[i].f.tunDevice != At(d) && ss[i].pending[d] == 1 && ss[i].closes[d] == 0)
              || (Private(ss[i].op) != At(d) && ss[i].f.tunDevice != At(d) && ss[i].pending[d] == 0 && ss[i].closes[d] == 1)
    ensures d !in ss[i].built ==>
              Private(ss[i].op) != At(d) && ss[i].f.tunDevice != At(d) && ss[i].pending[d] == 0 && ss[i].closes[d] == 0
  {
    RunKeepsInv(o, ss, steps, i);
    assert Owners(ss[i], d) == if d in ss[i].built then 1 else 0;
  }

  /** A device handed to Close is never published again, and is closed at most once. */
  lemma {:induction false} HandedNeverPublished(o: Options, ss: seq<Session>, steps: seq<Step>, i: nat, j: nat, d: DeviceId)
    requires Run(o, ss, steps) && i <= j < |ss|
    requires ss[i].pending[d] + ss[i].closes[d] > 0
    ensures ss[j].pending[d] + ss[j].closes[d] == 1
    ensures ss[j].f.tunDevice != At(d) && Private(ss[j].op) != At(d)
    ensures ss[i].closes[d] <= ss[j].closes[d]
    decreases j
  {
    RunKeepsInv(o, ss, steps, j);
    assert Owners(ss[j], d) == if d in ss[j].built then 1 else 0;
    if i < j {
      HandedNeverPublished(o, ss, steps, i, j - 1, d);
      StepEvolves(o, ss, steps, j - 1);
    }
  }

  /** When nobody holds the lock and no Close is owed, only the published device is open. */
  lemma NoDeviceLeaks(o: Options, ss: seq<Session>, steps: seq<Step>, i: nat, d: DeviceId)
    requires Run(o, ss, steps) && i < |ss|
    requires ss[i].op == Free && ss[i].pending == multiset{}
    ensures d in ss[i].built ==> (ss[i].closes[d] == 1 <==> ss[i].f.tunDevice != At(d))
  {
    DevicesHaveOneOwner(o, ss, steps, i, d);
  }

  /**
   Publishing keeps the device exactly when there is one, its addresses are those of the new
   configuration, and the effective MTU is the same; else a device made for it takes its place.
   */
  lemma DeviceKeptExactly(o: Options, ss: seq<Session>, steps: seq<Step>, j: nat)
    requires Run(o, ss, steps) && j < |steps| && Publishes(ss[j], steps[j])
    ensures var before, after := ss[j].f, ss[j + 1].f;
            && after.tunDevice.At? && after.config == ss[j].op.attempt.capture.config
            && (after.tunDevice == before.tunDevice <==>
                && before.tunDevice.At? && before.config.addresses == after.config.addresses
                && EffectiveMTU(o, before.config) == EffectiveMTU(o, after.config))
  {
    RunKeepsInv(o, ss, steps, j);
    assert StepsTo(o, ss[j], steps[j], ss[j + 1]);
    var a := ss[j].op.attempt;
    PublishedDevice(o, ss[j], a);
  }

  lemma PublishedDevice(o: Options, s: Session, a: Attempt)
    requires Inv(o, s) && s.op == Applying(Linked, a) && StillCurrent(s, a)
    ensures s.f.config == a.oldConfig && DoApplyCommit(s, a).f.tunDevice == At(a.device)
    ensures s.f.tunDevice == At(a.device) <==> !NeedsReplacing(o, a.oldDevice, a.oldConfig, a.capture.config)
    ensures DoApplyCommit(s, a).f.config == a.capture.config
  {
    assert Owners(s, a.device) == if a.device in s.built then 1 else 0;
  }

  /** The effective MTU obeys the option and the library's limits, and is the controller's own where both allow it. */
  lemma EffectiveMTUBounds(o: Options, c: Config)
    requires o.minMTU <= o.defaultMTU <= o.maxMTU
    ensures EffectiveMTU(o, c) <= o.maxMTU && (o.mtu != 0 ==> EffectiveMTU(o, c) <= o.mtu)
    ensures EffectiveMTU(o, c) >= o.minMTU || EffectiveMTU(o, c) == o.mtu
    ensures o.minMTU <= c.mtu <= o.maxMTU && c.mtu != 0 && (o.mtu == 0 || c.mtu <= o.mtu) ==> EffectiveMTU(o, c) == c.mtu
    ensures c.mtu == 0 && o.mtu == 0 ==> EffectiveMTU(o, c) == o.defaultMTU
  {
  }

  // ---- the link and the device agree with the published configuration ----

  /** While operationMu is not held for writing, the published device, its link and the configuration agree. */
  lemma PublishedDeviceMatchesLink(o: Options, ss: seq<Session>, steps: seq<Step>, i: nat)
    requires Run(o, ss, steps) && i < |ss|
    requires ss[i].op == Free && ss[i].f.tunDevice.At? && !ss[i].desynced
    ensures ss[i].f.runtime.At? && ss[i].f.runtime.id in ss[i].links
    ensures ss[i].links[ss[i].f.runtime.id] == ss[i].f.config.(mtu := EffectiveMTU(o, ss[i].f.config))
    ensures ss[i].f.tunDevice.id in ss[i].built
    ensures ss[i].built[ss[i].f.tunDevice.id] == Stack(ss[i].f.config.addresses, EffectiveMTU(o, ss[i].f.config))
  {
    RunKeepsInv(o, ss, steps, i);
  }

  /** A packet loop's check takes the published device and its runtime whenever there are both. */
  lemma ReaderTakesPublished(o: Options, ss: seq<Session>, steps: seq<Step>, i: nat, r: nat)
    requires Run(o, ss, steps) && i < |steps| && steps[i] == ReaderCheck(r) && ss[i].f.runtime.At? && ss[i].f.tunDevice.At?
    ensures r in ss[i + 1].readers && ss[i + 1].readers[r] == Using(ss[i].f.runtime.id, ss[i].f.tunDevice.id)
  {
    assert StepsTo(o, ss[i], steps[i], ss[i + 1]);
  }

  /**
   A packet loop that holds the read lock and has checked its runtime and device
   keeps a link configured for that device until it lets go, even if another
   goroutine detaches the device meanwhile.
   */
  lemma ReaderLinkIsStable(o: Options, ss: seq<Session>, steps: seq<Step>, i: nat, r: nat)
    requires Run(o, ss, steps) && i < |ss|
    requires r in ss[i].readers && ss[i].readers[r].Using? && !ss[i].desynced
    ensures ss[i].op == Free
    ensures var u := ss[i].readers[r];
            && u.runtime in ss[i].links && u.device in ss[i].built
            && ss[i].links[u.runtime].addresses == ss[i].built[u.device].addresses
            && ss[i].links[u.runtime].mtu == ss[i].built[u.device].mtu
  {
    RunKeepsInv(o, ss, steps, i);
    assert ReaderValid(o, ss[i], ss[i].readers[r]);
  }

  /**
   The only way to leave the published device on the wrong link: a stale attempt
   whose rollback call fails, unless the stale and the published configurations
   put the same thing on the link.
   */
  lemma RollbackRestoresExactly(o: Options, ss: seq<Session>, steps: seq<Step>, i: nat, accepted: bool)
    requires Run(o, ss, steps) && i < |steps| && steps[i] == ApplyRollback(accepted) && ss[i].f.tunDevice.At?
    ensures ss[i].op.Applying? && ss[i].op.stage == Stale
    ensures var a := ss[i].op.attempt;
            InSync(o, ss[i + 1], a.runtime) <==> accepted || LinkFor(o, a.capture.config) == LinkFor(o, ss[i].f.config)
  {
    RunKeepsInv(o, ss, steps, i);
    assert StepsTo(o, ss[i], steps[i], ss[i + 1]);
    RollbackStep(o, ss[i], ss[i].op.attempt, accepted);
  }

  lemma RollbackStep(o: Options, s: Session, a: Attempt, accepted: bool)
    requires Inv(o, s) && s.op == Applying(Stale, a) && s.f.tunDevice.At?
    ensures var t := Next(o, s, ApplyRollback(accepted));
            InSync(o, t, a.runtime) <==> accepted || LinkFor(o, a.capture.config) == LinkFor(o, s.f.config)
  {
    assert s.f.config == a.oldConfig;
  }

  // ---- stale configurations ----

  /**
   A step that makes every earlier capture of the configuration worthless.  Invalidating one
   device is not among them: it leaves the generation alone.
   */
  predicate Supersedes(s: Session, st: Step) {
    match st
    case InvalidateNet(source, _, _, _) => InvalidateNetworkApplies(s.f, s.ctxDone, source)
    case StartPublish => true
    case RestartReport(_) => !s.ctxDone
    case RecoverDetach(same) => s.op.Recovering? && s.f.runtime == At(s.op.source) && same
    case ApplyCommit => Publishes(s, st)
    case CloseOutbound => !s.closed
    case _ => false
  }

  predicate Publishes(s: Session, st: Step) {
    st.ApplyCommit? && AtStage(s, Linked) && StillCurrent(s, s.op.attempt)
  }

  /** The generation moves exactly with the superseding steps, by one. */
  predicate MovesOn(s: Session, st: Step, t: Session) {
    t.f.configGeneration == if Supersedes(s, st) then s.f.configGeneration + 1 else s.f.configGeneration
  }

  lemma UnlockedMovesOn(o: Options, s: Session, st: Step)
    requires Enabled(o, s, st) && UnlockedStep(st)
    ensures MovesOn(s, st, Next(o, s, st))
  {
  }

  lemma CommitMovesOn(s: Session, a: Attempt)
    ensures DoApplyCommit(s, a).f.configGeneration == s.f.configGeneration + if StillCurrent(s, a) then 1 else 0
  {
  }

  lemma LinkingKeepsFields(o: Options, s: Session, a: Attempt, accepted: bool)
    ensures DoApplyLink(o, s, a, accepted).f == s.f && DoApplyRollback(o, s, a, accepted).f == s.f
  {
  }

  lemma BuildingKeepsFields(o: Options, s: Session, c: Capture, d: DeviceId, usable: bool, doomed: Ref)
    ensures DoApplySnapshot(s, c).f == s.f && DoDrain(s, doomed).f == s.f
    ensures s.op.Building? ==> DoApplyBuild(o, s, d, usable).f == s.f
  {
  }

  lemma ApplyMovesOn(o: Options, s: Session, st: Step)
    requires Enabled(o, s, st) && ApplyStep(st)
    ensures MovesOn(s, st, Next(o, s, st))
  {
    match st
    case ApplySnapshot => BuildingKeepsFields(o, s, s.op.capture, 0, true, Nil);
    case ApplyBuild(d, usable) => BuildingKeepsFields(o, s, s.op.capture, d, usable, Nil);
    case ApplyLink(accepted) => LinkingKeepsFields(o, s, s.op.attempt, accepted);
    case ApplyRollback(accepted) => LinkingKeepsFields(o, s, s.op.attempt, accepted);
    case ApplyCommit => CommitMovesOn(s, s.op.attempt);
    case Drain => BuildingKeepsFields(o, s, Captured(s.f), 0, true, s.op.doomed);
    case _ =>
  }

  lemma LifecycleMovesOn(o: Options, s: Session, st: Step)
    requires Enabled(o, s, st) && !UnlockedStep(st) && !ApplyStep(st)
    ensures MovesOn(s, st, Next(o, s, st))
  {
  }

  lemma SupersedingMovesOn(o: Options, s: Session, st: Step)
    requires Enabled(o, s, st)
    ensures s.f.configGeneration < Next(o, s, st).f.configGeneration <==> Supersedes(s, st)
    ensures MovesOn(s, st, Next(o, s, st))
  {
    if UnlockedStep(st) {
      UnlockedMovesOn(o, s, st);
    } else if ApplyStep(st) {
      ApplyMovesOn(o, s, st);
    } else {
      LifecycleMovesOn(o, s, st);
    }
  }

  lemma {:induction false} GenerationMonotone(o: Options, ss: seq<Session>, steps: seq<Step>, i: nat, j: nat)
    requires Run(o, ss, steps) && i <= j < |ss|
    ensures ss[i].f.configGeneration <= ss[j].f.configGeneration
    decreases j
  {
    if i < j {
      GenerationMonotone(o, ss, steps, i, j - 1);
      StepEvolves(o, ss, steps, j - 1);
    }
  }

  /**
   If the configuration copied out of the fields at state i is the one published
   by step j, nothing in between invalidated the network, swapped the runtime,
   shut down or published, and it is still the newest configuration.
   */
  lemma StaleConfigNeverPublished(o: Options, ss: seq<Session>, steps: seq<Step>, i: nat, j: nat, k: nat)
    requires Run(o, ss, steps) && i <= j < |steps|
    requires Publishes(ss[j], steps[j]) && ss[j].op.attempt.capture == Captured(ss[i].f)
    requires i <= k < j
    ensures !Supersedes(ss[k], steps[k])
    ensures ss[j + 1].f.config == ss[i].f.latestConfig == ss[j].f.latestConfig
    ensures ss[j].f.haveLatestConfig && ss[j].f.tunDevice == ss[j].op.attempt.oldDevice
  {
    GenerationMonotone(o, ss, steps, i, k);
    GenerationMonotone(o, ss, steps, k + 1, j);
    assert StepsTo(o, ss[k], steps[k], ss[k + 1]);
    if Supersedes(ss[k], steps[k]) {
      SupersedingMovesOn(o, ss[k], steps[k]);
    }
    assert StepsTo(o, ss[j], steps[j], ss[j + 1]);
    assert ss[j].f.configGeneration == ss[i].f.configGeneration;
  }

  lemma DeviceImpliesRuntime(o: Options, ss: seq<Session>, steps: seq<Step>, i: nat)
    requires Run(o, ss, steps) && i < |ss|
    ensures ss[i].f.tunDevice.At? ==> ss[i].f.runtime.At?
  {
    RunKeepsInv(o, ss, steps, i);
  }

  // ---- shutdown ----

  /** After Close's critical section, no field but the retry marker ever changes again. */
  lemma {:induction false} CloseIsFinal(o: Options, ss: seq<Session>, steps: seq<Step>, i: nat, j: nat)
    requires Run(o, ss, steps) && i <= j < |ss| && ss[i].closed
    ensures ss[j].closed
    ensures ss[j].f == ss[i].f.(networkRetrying := ss[j].f.networkRetrying)
    ensures ss[j].f.runtime == Nil && ss[j].f.tunDevice == Nil && ss[j].f.networkErr == Closed
    decreases j
  {
    RunKeepsInv(o, ss, steps, j);
    if i < j {
      CloseIsFinal(o, ss, steps, i, j - 1);
      StepEvolves(o, ss, steps, j - 1);
    }
  }

  // ---- waiters ----

  /** ensureStarted never sleeps through a result: the channel it waits on is closed by then. */
  lemma {:induction false} NoLostWakeup(o: Options, ss: seq<Session>, steps: seq<Step>, i: nat, j: nat)
    requires Run(o, ss, steps) && i <= j < |ss|
    ensures ss[i].f.stateCh <= ss[j].f.stateCh
    ensures (ss[i].f.tunDevice.Nil? && ss[i].f.networkErr == NoErr) && (ss[j].f.tunDevice.At? || ss[j].f.networkErr != NoErr) ==>
              ss[i].f.stateCh < ss[j].f.stateCh
    decreases j
  {
    if i < j {
      NoLostWakeup(o, ss, steps, i, j - 1);
      StepEvolves(o, ss, steps, j - 1);
    }
  }
}
