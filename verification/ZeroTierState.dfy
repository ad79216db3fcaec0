/**
 The fields of a ZeroTier outbound that `stateMu` protects, and one pure
 function per critical section that writes them.  Runtimes and IP-stack devices
 are named by numbers, so two names are equal exactly when the pointers are.
 */
module ZeroTierState {
  type RuntimeId = nat
  type DeviceId = nat

  /** A Go pointer to a runtime or a device. */
  datatype Ref = Nil | At(id: nat)

  /** A controller configuration; `other` stands for every field only `Equal` reads. */
  datatype Config = Config(networkID: nat, addresses: seq<string>, mtu: nat, other: nat)

  const NO_CONFIG := Config(0, [], 0, 0)

  datatype NetErr = NoErr | Closed | Failure(text: string)

  datatype Fields = Fields(
    runtime: Ref,
    config: Config,
    tunDevice: Ref,
    networkErr: NetErr,
    authURL: string,
    stateCh: nat,              // how many wake-up channels have been closed so far
    latestConfig: Config,
    haveLatestConfig: bool,
    retryLatestConfig: bool,
    networkRetrying: bool,
    configGeneration: nat)

  const INITIAL := Fields(Nil, NO_CONFIG, Nil, NoErr, "", 0, NO_CONFIG, false, false, false, 0)

  /** What a caller copied out of the fields before asking for the lock. */
  datatype Capture = Capture(config: Config, generation: nat, runtime: Ref)

  function Captured(f: Fields): Capture {
    Capture(f.latestConfig, f.configGeneration, f.runtime)
  }

  // ---- helpers run with stateMu held ----

  function NotifyState(f: Fields): Fields {
    f.(stateCh := f.stateCh + 1)
  }

  function DetachStack(f: Fields): Fields {
    f.(tunDevice := Nil)
  }

  function DetachRuntime(f: Fields): Fields {
    DetachStack(f).(runtime := Nil)
  }

  function ResetNetworkState(f: Fields, err: NetErr): Fields {
    NotifyState(f.(config := NO_CONFIG, latestConfig := NO_CONFIG, haveLatestConfig := false,
                   retryLatestConfig := false, networkErr := err, authURL := "",
                   configGeneration := f.configGeneration + 1))
  }

  function SetNetworkFailure(f: Fields, err: NetErr, authURL: string, retryConfig: bool): Fields {
    NotifyState(f.(networkErr := err, authURL := authURL,
                   retryLatestConfig := retryConfig && f.haveLatestConfig))
  }

  predicate ConfigSnapshotCurrent(f: Fields, runtime: Ref, config: Config, have: bool, generation: nat) {
    && f.configGeneration == generation
    && f.runtime == runtime
    && f.haveLatestConfig == have
    && (have ==> f.latestConfig == config)
  }

  // ---- whole critical sections; ctxDone is the outbound's cancelled context ----

  predicate InvalidateNetworkApplies(f: Fields, ctxDone: bool, source: Ref) {
    !ctxDone && (source.At? ==> f.runtime == source)
  }

  function InvalidateNetwork(f: Fields, err: NetErr, authURL: string, retryConfig: bool): Fields {
    var g := DetachStack(f);
    var h := if retryConfig then g else g.(latestConfig := NO_CONFIG, haveLatestConfig := false);
    SetNetworkFailure(h.(configGeneration := f.configGeneration + 1), err, authURL, retryConfig)
  }

  predicate InvalidateDeviceApplies(f: Fields, ctxDone: bool, device: DeviceId) {
    !ctxDone && f.tunDevice == At(device)
  }

  function InvalidateDevice(f: Fields, err: NetErr): Fields {
    SetNetworkFailure(DetachStack(f), err, f.authURL, true)
  }

  function Enqueue(f: Fields, config: Config): Fields {
    f.(latestConfig := config, haveLatestConfig := true)
  }

  predicate RetryApplies(f: Fields, ctxDone: bool) {
    && !ctxDone
    && !(f.tunDevice.At? && f.networkErr == NoErr)
    && !f.networkRetrying
  }

  function RetryBegin(f: Fields): Fields {
    f.(networkRetrying := true, networkErr := NoErr)
  }

  function RetryEnd(f: Fields): Fields {
    f.(networkRetrying := false)
  }

  function PublishRuntime(f: Fields, runtime: RuntimeId): Fields {
    ResetNetworkState(f.(runtime := At(runtime)), NoErr)
  }

  function PublishConfig(f: Fields, config: Config, device: DeviceId): Fields {
    NotifyState(f.(config := config, tunDevice := At(device), networkErr := NoErr, authURL := "",
                   retryLatestConfig := false, configGeneration := f.configGeneration + 1))
  }

  function Shutdown(f: Fields): Fields {
    ResetNetworkState(DetachRuntime(f), Closed)
  }

  /** ensureStarted stops waiting in exactly these states. */
  predicate Settled(f: Fields) {
    f.tunDevice.At? || f.networkErr != NoErr
  }
}
