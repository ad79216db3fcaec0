/**
 The interleaving of every goroutine of one ZeroTier outbound.

 A step is one `stateMu` section, one call into the node, IP link or IP stack,
 or one acquire or release of `operationMu`.  The holder of that lock is a value
 of type Op that says how far the holder has come, so every interleaving the
 locks allow is a sequence of steps.
 */
module ZeroTierProtocol {
  import opened ZeroTierState

  /** The configured network and MTU, and the MTU bounds of the ZeroTier library. */
  datatype Options = Options(networkID: nat, mtu: nat, defaultMTU: nat, minMTU: nat, maxMTU: nat)

  function EffectiveMTU(o: Options, c: Config): nat {
    var mtu := if c.mtu == 0 then o.defaultMTU
               else if c.mtu < o.minMTU then o.minMTU
               else if c.mtu > o.maxMTU then o.maxMTU
               else c.mtu;
    if o.mtu != 0 && o.mtu < mtu then o.mtu else mtu
  }

  /** What ApplyNetworkConfig is given for c. */
  function LinkFor(o: Options, c: Config): Config {
    c.(mtu := EffectiveMTU(o, c))
  }

  /** What an IP-stack device was created with. */
  datatype Stack = Stack(addresses: seq<string>, mtu: nat)

  function StackFor(o: Options, c: Config): Stack {
    Stack(c.addresses, EffectiveMTU(o, c))
  }

  /** The locals of applyNetworkConfig. */
  datatype Attempt = Attempt(
    capture: Capture, runtime: RuntimeId, oldDevice: Ref, oldConfig: Config,
    device: DeviceId, replace: bool)

  datatype Stage = Built | Checked | Linked | Stale

  datatype Op =
    | Free
    | Starting(recovering: bool)                      // startLocked, runtime not yet published
    | Started(runtime: RuntimeId, recovering: bool)   // startLocked, runtime published
    | RestartFailed                                   // recovery about to report a failed start
    | Snapshotting(capture: Capture)                  // applyNetworkConfig entered
    | Building(capture: Capture, owner: RuntimeId, oldDevice: Ref, oldConfig: Config)
    | Applying(stage: Stage, attempt: Attempt)
    | Draining(doomed: Ref)              // only a Close call is left before the unlock
    | Recovering(source: RuntimeId)                   // recoverIdentityCollision entered
    | Retiring(retired: RuntimeId, stack: Ref)

  /** A data-plane user of the read lock: just in, or past its runtime and device check. */
  datatype Reader = Entered | Using(runtime: RuntimeId, device: DeviceId)

  datatype Session = Session(
    ctxDone: bool,
    closed: bool,
    f: Fields,
    op: Op,
    readers: map<nat, Reader>,
    links: map<RuntimeId, Config>,      // what each runtime's IP link last accepted
    built: map<DeviceId, Stack>,        // every device ever created
    pending: multiset<DeviceId>,        // Close calls owed by goroutines outside the lock
    closes: multiset<DeviceId>,         // Close calls made
    captures: set<Capture>,
    nextRuntime: RuntimeId,
    desynced: bool)                     // a rollback failed and nothing was published since

  const START := Session(false, false, INITIAL, Free, map[], map[], map[], multiset{}, multiset{}, {}, 0, false)

  datatype Step =
    | Cancel
    | EnqueueConfig(source: RuntimeId, config: Config)
    | InvalidateNet(scope: Ref, err: NetErr, url: string, retry: bool)
    | InvalidateDev(device: DeviceId, err: NetErr)
    | TakeConfig
    | BeginRetry
    | EndRetry
    | RecordFailure(capture: Capture, have: bool, err: NetErr, retry: bool)
    | RunClose(device: DeviceId)
    | ReaderEnter(reader: nat)
    | ReaderCheck(reader: nat)
    | ReaderLeave(reader: nat)
    | StartEnter
    | StartFail
    | StartPublish
    | StartFinish
    | StartCleanup
    | RestartReport(err: NetErr)
    | ApplyEnter(capture: Capture)
    | ApplySnapshot
    | ApplyReject
    | ApplyKeep
    | ApplyBuild(device: DeviceId, usable: bool)
    | ApplyRecheck
    | ApplyLink(accepted: bool)
    | ApplyCommit
    | ApplyRollback(accepted: bool)
    | Drain
    | RecoverEnter(source: RuntimeId)
    | RecoverDetach(sameAddress: bool)
    | RecoverRetire
    | CloseOutbound

  function Optional(d: Ref): multiset<DeviceId> {
    if d.At? then multiset{d.id} else multiset{}
  }

  predicate LockFree(s: Session) {
    s.op == Free && s.readers == map[]
  }

  predicate Current(f: Fields, runtime: RuntimeId, c: Capture) {
    ConfigSnapshotCurrent(f, At(runtime), c.config, true, c.generation)
  }

  predicate NeedsReplacing(o: Options, oldDevice: Ref, oldConfig: Config, c: Config) {
    oldDevice.Nil? || oldConfig.addresses != c.addresses || EffectiveMTU(o, oldConfig) != EffectiveMTU(o, c)
  }

  /** The device an attempt made for itself, if it made one. */
  function OwnDevice(a: Attempt): Ref {
    if a.replace then At(a.device) else Nil
  }

  predicate AtStage(s: Session, stage: Stage) {
    s.op.Applying? && s.op.stage == stage
  }

  /** Which steps the program, the locks and the environment allow. */
  predicate Enabled(o: Options, s: Session, st: Step) {
    match st
    case Cancel => true
    // the node reports configurations of the joined network only
    case EnqueueConfig(_, c) => c.networkID == o.networkID
    case InvalidateNet(_, err, _, _) => err != Closed
    case InvalidateDev(_, err) => err.Failure?
    case TakeConfig => s.f.haveLatestConfig
    case BeginRetry => true
    case EndRetry => true
    case RecordFailure(_, _, err, _) => err.Failure?
    case RunClose(d) => d in s.pending
    case ReaderEnter(r) => s.op == Free && r !in s.readers
    case ReaderCheck(r) => r in s.readers
    case ReaderLeave(r) => r in s.readers
    case StartEnter => LockFree(s)
    case StartFail => s.op.Starting?
    case StartPublish => s.op.Starting?
    case StartFinish => s.op.Started?
    case StartCleanup => s.op.Started?
    case RestartReport(err) => s.op.RestartFailed? && err.Failure?
    case ApplyEnter(c) => LockFree(s) && c in s.captures
    case ApplySnapshot => s.op.Snapshotting?
    case ApplyReject => s.op.Building?
    case ApplyKeep =>
      && s.op.Building? && s.op.capture.config.addresses != []
      && !NeedsReplacing(o, s.op.oldDevice, s.op.oldConfig, s.op.capture.config)
    case ApplyBuild(d, _) =>
      && s.op.Building? && s.op.capture.config.addresses != [] && d !in s.built
      && NeedsReplacing(o, s.op.oldDevice, s.op.oldConfig, s.op.capture.config)
    case ApplyRecheck => AtStage(s, Built)
    case ApplyLink(_) => AtStage(s, Checked)
    case ApplyCommit => AtStage(s, Linked)
    case ApplyRollback(_) => AtStage(s, Stale)
    case Drain => s.op.Draining?
    case RecoverEnter(_) => LockFree(s)
    case RecoverDetach(_) => s.op.Recovering?
    case RecoverRetire => s.op.Retiring?
    case CloseOutbound => s.ctxDone && LockFree(s)
  }

  // ---- the steps ----

  function DoInvalidateNet(s: Session, source: Ref, err: NetErr, url: string, retry: bool): Session {
    if InvalidateNetworkApplies(s.f, s.ctxDone, source)
    then s.(f := InvalidateNetwork(s.f, err, url, retry), pending := s.pending + Optional(s.f.tunDevice))
    else s
  }

  function DoInvalidateDev(s: Session, d: DeviceId, err: NetErr): Session {
    if InvalidateDeviceApplies(s.f, s.ctxDone, d)
    then s.(f := InvalidateDevice(s.f, err), pending := s.pending + multiset{d})
    else s
  }

  function DoEnqueue(s: Session, source: RuntimeId, c: Config): Session {
    if s.ctxDone || s.f.runtime != At(source) then s else s.(f := Enqueue(s.f, c))
  }

  function DoTakeConfig(s: Session): Session {
    s.(captures := s.captures + {Captured(s.f)})
  }

  function DoBeginRetry(s: Session): Session {
    if !RetryApplies(s.f, s.ctxDone) then s
    else
      var t := if s.f.retryLatestConfig && s.f.haveLatestConfig then DoTakeConfig(s) else s;
      t.(f := RetryBegin(s.f))
  }

  function DoRecordFailure(s: Session, c: Capture, have: bool, err: NetErr, retry: bool): Session {
    if !s.ctxDone && ConfigSnapshotCurrent(s.f, c.runtime, c.config, have, c.generation)
    then s.(f := SetNetworkFailure(s.f, err, s.f.authURL, retry))
    else s
  }

  function DoRunClose(s: Session, d: DeviceId): Session {
    s.(pending := s.pending - multiset{d}, closes := s.closes + multiset{d})
  }

  function DoReaderCheck(s: Session, r: nat): Session {
    if s.f.runtime.At? && s.f.tunDevice.At?
    then s.(readers := s.readers[r := Using(s.f.runtime.id, s.f.tunDevice.id)])
    else s
  }

  function AfterFailedStart(recovering: bool): Op {
    if recovering then RestartFailed else Free
  }

  function DoStartPublish(s: Session, recovering: bool): Session {
    s.(f := PublishRuntime(s.f, s.nextRuntime), nextRuntime := s.nextRuntime + 1,
       op := Started(s.nextRuntime, recovering))
  }

  function DoStartCleanup(s: Session, runtime: RuntimeId, recovering: bool): Session {
    s.(f := if s.f.runtime == At(runtime) then s.f.(runtime := Nil) else s.f,
       op := AfterFailedStart(recovering))
  }

  function DoRestartReport(s: Session, err: NetErr): Session {
    DoInvalidateNet(s, Nil, err, "", false).(op := Free)
  }

  function DoApplySnapshot(s: Session, c: Capture): Session {
    if s.f.runtime.At? && Current(s.f, s.f.runtime.id, c)
    then s.(op := Building(c, s.f.runtime.id, s.f.tunDevice, s.f.config))
    else s.(op := Free)
  }

  function DoApplyBuild(o: Options, s: Session, d: DeviceId, usable: bool): Session
    requires s.op.Building?
  {
    s.(built := s.built[d := StackFor(o, s.op.capture.config)],
       op := if usable
             then Applying(Built, Attempt(s.op.capture, s.op.owner, s.op.oldDevice, s.op.oldConfig, d, true))
             else Draining(At(d)))
  }

  predicate StillCurrent(s: Session, a: Attempt) {
    s.f.tunDevice == a.oldDevice && Current(s.f, a.runtime, a.capture)
  }

  function DoApplyLink(o: Options, s: Session, a: Attempt, accepted: bool): Session {
    if accepted
    then s.(links := s.links[a.runtime := LinkFor(o, a.capture.config)], op := Applying(Linked, a))
    else s.(op := Draining(OwnDevice(a)))
  }

  function DoApplyCommit(s: Session, a: Attempt): Session {
    if StillCurrent(s, a)
    then s.(f := PublishConfig(s.f, a.capture.config, a.device), desynced := false,
            op := Draining(if a.replace then s.f.tunDevice else Nil))
    else s.(op := Applying(Stale, a))
  }

  function DoApplyRollback(o: Options, s: Session, a: Attempt, accepted: bool): Session {
    var t := s.(op := Draining(OwnDevice(a)));
    if a.oldConfig.networkID != o.networkID || a.oldConfig.addresses == [] then t
    else if accepted then t.(links := s.links[a.runtime := LinkFor(o, a.oldConfig)])
    else t.(desynced := true)
  }

  function DoDrain(s: Session, doomed: Ref): Session {
    s.(closes := s.closes + Optional(doomed), op := Free)
  }

  function DoRecoverDetach(s: Session, source: RuntimeId, sameAddress: bool): Session {
    if s.f.runtime == At(source) && sameAddress
    then s.(f := ResetNetworkState(DetachRuntime(s.f), NoErr), op := Retiring(source, s.f.tunDevice))
    else s.(op := Free)
  }

  function DoClose(s: Session): Session {
    if s.closed then s
    else s.(closed := true, f := Shutdown(s.f), pending := s.pending + Optional(s.f.tunDevice))
  }

  /** The state after an enabled step. */
  function Next(o: Options, s: Session, st: Step): Session
    requires Enabled(o, s, st)
  {
    match st
    case Cancel => s.(ctxDone := true)
    case EnqueueConfig(source, c) => DoEnqueue(s, source, c)
    case InvalidateNet(source, err, url, retry) => DoInvalidateNet(s, source, err, url, retry)
    case InvalidateDev(d, err) => DoInvalidateDev(s, d, err)
    case TakeConfig => DoTakeConfig(s)
    case BeginRetry => DoBeginRetry(s)
    case EndRetry => s.(f := RetryEnd(s.f))
    case RecordFailure(c, have, err, retry) => DoRecordFailure(s, c, have, err, retry)
    case RunClose(d) => DoRunClose(s, d)
    case ReaderEnter(r) => s.(readers := s.readers[r := Entered])
    case ReaderCheck(r) => DoReaderCheck(s, r)
    case ReaderLeave(r) => s.(readers := s.readers - {r})
    case StartEnter => if s.closed || s.ctxDone || s.f.runtime.At? then s else s.(op := Starting(false))
    case StartFail => s.(op := AfterFailedStart(s.op.recovering))
    case StartPublish => DoStartPublish(s, s.op.recovering)
    case StartFinish => s.(op := Free)
    case StartCleanup => DoStartCleanup(s, s.op.runtime, s.op.recovering)
    case RestartReport(err) => DoRestartReport(s, err)
    case ApplyEnter(c) => if s.ctxDone then s else s.(op := Snapshotting(c))
    case ApplySnapshot => DoApplySnapshot(s, s.op.capture)
    case ApplyReject => s.(op := Free)
    case ApplyKeep =>
      s.(op := Applying(Built, Attempt(s.op.capture, s.op.owner, s.op.oldDevice, s.op.oldConfig, s.op.oldDevice.id, false)))
    case ApplyBuild(d, usable) => DoApplyBuild(o, s, d, usable)
    case ApplyRecheck =>
      s.(op := if StillCurrent(s, s.op.attempt) then Applying(Checked, s.op.attempt) else Draining(OwnDevice(s.op.attempt)))
    case ApplyLink(accepted) => DoApplyLink(o, s, s.op.attempt, accepted)
    case ApplyCommit => DoApplyCommit(s, s.op.attempt)
    case ApplyRollback(accepted) => DoApplyRollback(o, s, s.op.attempt, accepted)
    case Drain => DoDrain(s, s.op.doomed)
    case RecoverEnter(source) => if s.closed || s.ctxDone then s else s.(op := Recovering(source))
    case RecoverDetach(sameAddress) => DoRecoverDetach(s, s.op.source, sameAddress)
    case RecoverRetire => DoDrain(s, s.op.stack).(op := if s.ctxDone then Free else Starting(true))
    case CloseOutbound => DoClose(s)
  }

  // ---- what every step keeps ----

  /** The device only the lock holder can reach. */
  function Private(op: Op): Ref {
    match op
    case Applying(_, a) => OwnDevice(a)
    case Draining(d) => d
    case Retiring(_, d) => d
    case _ => Nil
  }

  /** In how many places device d is accounted for. */
  function Owners(s: Session, d: DeviceId): nat {
    (if Private(s.op) == At(d) then 1 else 0) + (if s.f.tunDevice == At(d) then 1 else 0) + s.pending[d] + s.closes[d]
  }

  /** Every device ever created has exactly one owner, and no other device has any. */
  ghost predicate Owned(s: Session) {
    forall d: DeviceId :: Owners(s, d) == if d in s.built then 1 else 0
  }

  /** A published device belongs to a runtime and was built for the published configuration. */
  ghost predicate Published(o: Options, s: Session) {
    s.f.tunDevice.At? ==>
      && s.f.runtime.At?
      && s.f.tunDevice.id in s.built
      && s.built[s.f.tunDevice.id] == StackFor(o, s.f.config)
      && s.f.config.networkID == o.networkID
      && s.f.config.addresses != []
  }

  /** The runtime's link holds the published configuration. */
  ghost predicate InSync(o: Options, s: Session, runtime: RuntimeId) {
    runtime in s.links && s.links[runtime] == LinkFor(o, s.f.config)
  }

  ghost predicate AttemptValid(o: Options, s: Session, c: Capture, owner: RuntimeId, oldDevice: Ref, oldConfig: Config) {
    && c.config.networkID == o.networkID
    && s.f.runtime == At(owner)
    && s.f.config == oldConfig
    && (s.f.tunDevice.At? ==> s.f.tunDevice == oldDevice)
    && (oldDevice.At? ==>
        && oldDevice.id in s.built
        && s.built[oldDevice.id] == StackFor(o, oldConfig))
  }

  ghost predicate OpValid(o: Options, s: Session) {
    match s.op
    case Free => true
    case Starting(_) => s.f.runtime.Nil?
    case Started(r, _) => s.f.runtime == At(r) && s.f.tunDevice.Nil?
    case RestartFailed => s.f.runtime.Nil?
    case Snapshotting(c) => c.config.networkID == o.networkID
    case Building(c, r, d, previous) => AttemptValid(o, s, c, r, d, previous)
    case Applying(stage, a) =>
      && AttemptValid(o, s, a.capture, a.runtime, a.oldDevice, a.oldConfig)
      && a.capture.config.addresses != []
      && a.device in s.built
      && s.built[a.device] == StackFor(o, a.capture.config)
      && (!a.replace ==> a.oldDevice == At(a.device))
      && (a.replace <==> NeedsReplacing(o, a.oldDevice, a.oldConfig, a.capture.config))
      && (stage == Linked || stage == Stale ==>
          a.runtime in s.links && s.links[a.runtime] == LinkFor(o, a.capture.config))
    case Draining(_) => true
    case Recovering(_) => true
    case Retiring(_, _) => s.f.runtime.Nil?
  }

  predicate LinkSettled(s: Session) {
    !AtStage(s, Linked) && !AtStage(s, Stale)
  }

  ghost predicate ReaderValid(o: Options, s: Session, r: Reader) {
    r.Using? ==>
      && s.f.runtime == At(r.runtime)
      && r.device in s.built
      && s.built[r.device] == StackFor(o, s.f.config)
      && (!s.desynced ==> InSync(o, s, r.runtime))
  }

  /** How the fields, the lock holder, the readers and the links fit together. */
  ghost predicate Coherent(o: Options, s: Session) {
    && Published(o, s)
    && OpValid(o, s)
    && (s.f.tunDevice.At? && LinkSettled(s) && !s.desynced ==> InSync(o, s, s.f.runtime.id))
    && (s.readers != map[] ==> s.op == Free)
    && (forall r <- s.readers :: ReaderValid(o, s, s.readers[r]))
    && (s.f.haveLatestConfig ==> s.f.latestConfig.networkID == o.networkID)
    && (forall c <- s.captures :: c.config.networkID == o.networkID && c.generation <= s.f.configGeneration)
    && (s.closed ==> s.ctxDone && s.op == Free && s.f.runtime.Nil? && s.f.networkErr == Closed)
  }

  ghost predicate Inv(o: Options, s: Session) {
    Owned(s) && Coherent(o, s)
  }

  // ---- what no step undoes ----

  /** Close obligations are never withdrawn. */
  ghost predicate Handed(s: Session, t: Session) {
    forall d: DeviceId :: s.closes[d] <= t.closes[d] && s.pending[d] + s.closes[d] <= t.pending[d] + t.closes[d]
  }

  /** Generations only grow, settling wakes the waiters, and a closed outbound is frozen. */
  ghost predicate Evolves(s: Session, t: Session) {
    && s.f.configGeneration <= t.f.configGeneration
    && s.f.stateCh <= t.f.stateCh
    && (!Settled(s.f) && Settled(t.f) ==> s.f.stateCh < t.f.stateCh)
    && (s.closed ==> t.closed && t.f == s.f.(networkRetrying := t.f.networkRetrying))
  }
}
