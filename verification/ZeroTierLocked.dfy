/**
 The critical sections in their own form: an object whose fields are written in
 place.  Every public method is one `stateMu` section of the outbound.  A ghost
 session says where the rest of the program stands; each section is proved to take
 exactly one step of the protocol and to keep its invariant, device ownership included.
 */
module ZeroTierLocked {
  import opened ZeroTierState
  import opened ZeroTierProtocol
  import opened ZeroTierSafety

  class ZeroTier {
    ghost const o: Options
    ghost var session: Session
    var ctxDone: bool
    var runtime: Ref
    var config: Config
    var tunDevice: Ref
    var networkErr: NetErr
    var authURL: string
    var stateCh: nat
    var latestConfig: Config
    var haveLatestConfig: bool
    var retryLatestConfig: bool
    var networkRetrying: bool
    var configGeneration: nat

    function State(): Fields
      reads this
    {
      Fields(runtime, config, tunDevice, networkErr, authURL, stateCh, latestConfig,
             haveLatestConfig, retryLatestConfig, networkRetrying, configGeneration)
    }

    /** The fields are those of the session, and the session is a state the protocol may be in. */
    ghost predicate Valid()
      reads this
    {
      session.f == State() && session.ctxDone == ctxDone && Inv(o, session)
    }

    constructor (ghost options: Options)
      ensures Valid() && o == options && session == START
    {
      o := options;
      session := START;
      ctxDone := false;
      runtime, config, tunDevice, networkErr := Nil, NO_CONFIG, Nil, NoErr;
      authURL, stateCh, latestConfig := "", 0, NO_CONFIG;
      haveLatestConfig, retryLatestConfig, networkRetrying, configGeneration := false, false, false, 0;
      new;
      StartHolds(o);
    }

    // ---- helpers run with stateMu held ----

    method NotifyStateLocked()
      modifies this`stateCh
      ensures State() == NotifyState(old(State()))
    {
      stateCh := stateCh + 1;
    }

    method DetachStackLocked() returns (device: Ref)
      modifies this`tunDevice
      ensures State() == DetachStack(old(State())) && device == old(tunDevice)
    {
      device := tunDevice;
      tunDevice := Nil;
    }

    method DetachRuntimeLocked() returns (detached: Ref, device: Ref)
      modifies this`tunDevice, this`runtime
      ensures State() == DetachRuntime(old(State()))
      ensures detached == old(runtime) && device == old(tunDevice)
    {
      detached := runtime;
      device := DetachStackLocked();
      runtime := Nil;
    }

    method ResetNetworkStateLocked(err: NetErr)
      modifies this`config, this`latestConfig, this`haveLatestConfig, this`retryLatestConfig, this`networkErr,
               this`authURL, this`configGeneration, this`stateCh
      ensures State() == ResetNetworkState(old(State()), err)
    {
      config := NO_CONFIG;
      latestConfig := NO_CONFIG;
      haveLatestConfig := false;
      retryLatestConfig := false;
      networkErr := err;
      authURL := "";
      configGeneration := configGeneration + 1;
      NotifyStateLocked();
    }

    method SetNetworkFailureLocked(err: NetErr, url: string, retryConfig: bool)
      modifies this`networkErr, this`authURL, this`retryLatestConfig, this`stateCh
      ensures State() == SetNetworkFailure(old(State()), err, url, retryConfig)
    {
      networkErr := err;
      authURL := url;
      retryLatestConfig := retryConfig && haveLatestConfig;
      NotifyStateLocked();
    }

    method InvalidateLocked(err: NetErr, url: string, retryConfig: bool) returns (device: Ref)
      modifies this`tunDevice, this`latestConfig, this`haveLatestConfig, this`configGeneration, this`networkErr,
               this`authURL, this`retryLatestConfig, this`stateCh
      ensures State() == ZeroTierState.InvalidateNetwork(old(State()), err, url, retryConfig) && device == old(tunDevice)
    {
      device := DetachStackLocked();
      if !retryConfig {
        latestConfig := NO_CONFIG;
        haveLatestConfig := false;
      }
      configGeneration := configGeneration + 1;
      SetNetworkFailureLocked(err, url, retryConfig);
    }

    method PublishLocked(published: Config, device: DeviceId) returns (replaced: Ref)
      modifies this`config, this`tunDevice, this`networkErr, this`authURL, this`retryLatestConfig, this`configGeneration,
               this`stateCh
      ensures State() == PublishConfig(old(State()), published, device) && replaced == old(tunDevice)
    {
      replaced := tunDevice;
      config := published;
      tunDevice := At(device);
      networkErr := NoErr;
      authURL := "";
      retryLatestConfig := false;
      configGeneration := configGeneration + 1;
      NotifyStateLocked();
    }

    method SetRuntimeLocked(started: RuntimeId)
      modifies this`runtime, this`config, this`latestConfig, this`haveLatestConfig, this`retryLatestConfig, this`networkErr,
               this`authURL, this`configGeneration, this`stateCh
      ensures State() == PublishRuntime(old(State()), started)
    {
      runtime := At(started);
      ResetNetworkStateLocked(NoErr);
    }

    // ---- sections any goroutine may enter ----

    /** Hands back the device whose Close the caller now owes. */
    method InvalidateNetwork(source: Ref, err: NetErr, url: string, retryConfig: bool) returns (device: Ref)
      requires Valid() && err != Closed
      modifies this
      ensures Valid() && session == DoInvalidateNet(old(session), source, err, url, retryConfig)
      ensures session.pending == old(session).pending + Optional(device)
      ensures if !ctxDone && (source.At? ==> runtime == source)
              then networkErr == err && authURL == url && tunDevice == Nil && device == old(tunDevice)
                   && haveLatestConfig == (retryConfig && old(haveLatestConfig)) && retryLatestConfig == haveLatestConfig
                   && (haveLatestConfig ==> latestConfig == old(latestConfig)) && configGeneration == old(configGeneration) + 1
              else session == old(session) && device == Nil
    {
      InvalidateNetKeeps(o, session, source, err, url, retryConfig);
      if ctxDone || (source.At? && runtime != source) {
        return Nil;
      }
      device := InvalidateLocked(err, url, retryConfig);
      session := DoInvalidateNet(session, source, err, url, retryConfig);
    }

    /** When it detaches the device, the caller owes its Close. */
    method InvalidateDevice(device: DeviceId, err: NetErr) returns (detached: bool)
      requires Valid() && err.Failure?
      modifies this
      ensures Valid() && session == DoInvalidateDev(old(session), device, err)
      ensures session.pending == old(session).pending + if detached then multiset{device} else multiset{}
      ensures detached <==> !ctxDone && old(tunDevice) == At(device)
      ensures detached ==> tunDevice == Nil && configGeneration == old(configGeneration)
      ensures detached ==> networkErr == err && authURL == old(authURL) && retryLatestConfig == old(haveLatestConfig)
    {
      InvalidateDevKeeps(o, session, device, err);
      if ctxDone || tunDevice != At(device) {
        return false;
      }
      var _ := DetachStackLocked();
      SetNetworkFailureLocked(err, authURL, true);
      detached := true;
      session := DoInvalidateDev(session, device, err);
    }

    method EnqueueNetworkConfig(source: RuntimeId, newest: Config) returns (accepted: bool)
      requires Valid() && newest.networkID == o.networkID
      modifies this`latestConfig, this`haveLatestConfig, this`session
      ensures Valid() && session == DoEnqueue(old(session), source, newest)
      ensures accepted <==> !ctxDone && runtime == At(source)
      ensures accepted ==> haveLatestConfig && latestConfig == newest
    {
      EnqueueKeeps(o, session, source, newest);
      if ctxDone || runtime != At(source) {
        return false;
      }
      latestConfig := newest;
      haveLatestConfig := true;
      accepted := true;
      session := DoEnqueue(session, source, newest);
    }

    method RecordConfigFailure(capture: Capture, have: bool, err: NetErr, retryConfig: bool) returns (recorded: bool)
      requires Valid() && err.Failure?
      modifies this
      ensures Valid() && session == DoRecordFailure(old(session), capture, have, err, retryConfig)
      ensures recorded <==>
                && !ctxDone && old(configGeneration) == capture.generation && old(runtime) == capture.runtime
                && old(haveLatestConfig) == have && (have ==> old(latestConfig) == capture.config)
      ensures recorded ==> networkErr == err && authURL == old(authURL) && retryLatestConfig == (retryConfig && have)
    {
      RecordFailureKeeps(o, session, capture, have, err, retryConfig);
      if ctxDone || !ConfigSnapshotCurrent(State(), capture.runtime, capture.config, have, capture.generation) {
        return false;
      }
      SetNetworkFailureLocked(err, authURL, retryConfig);
      recorded := true;
      session := DoRecordFailure(session, capture, have, err, retryConfig);
    }

    method RetryNetworkBegin() returns (started: bool, retryConfig: bool, capture: Capture)
      requires Valid()
      modifies this`networkRetrying, this`networkErr, this`session
      ensures Valid() && session == DoBeginRetry(old(session))
      ensures started <==> !ctxDone && !old(networkRetrying) && (tunDevice.Nil? || old(networkErr) != NoErr)
      ensures started ==> networkRetrying && networkErr == NoErr && capture == Capture(latestConfig, configGeneration, runtime)
      ensures retryConfig <==> started && retryLatestConfig && haveLatestConfig
      ensures retryConfig ==> capture in session.captures
    {
      BeginRetryKeeps(o, session);
      capture := Captured(State());
      if ctxDone || (tunDevice.At? && networkErr == NoErr) || networkRetrying {
        return false, false, capture;
      }
      networkRetrying := true;
      networkErr := NoErr;
      started, retryConfig := true, retryLatestConfig && haveLatestConfig;
      session := DoBeginRetry(session);
    }

    method RetryNetworkEnd()
      requires Valid()
      modifies this`networkRetrying, this`session
      ensures Valid() && !networkRetrying && session == Next(o, old(session), EndRetry)
    {
      EndRetryKeeps(o, session);
      networkRetrying := false;
      session := Next(o, session, EndRetry);
    }

    // ---- sections of the holder of operationMu ----

    /** The last section of applyNetworkConfig: publish, or find the capture stale. */
    method CommitConfig(attempt: Attempt) returns (published: bool, replaced: Ref)
      requires Valid() && session.op == Applying(Linked, attempt)
      modifies this
      ensures Valid() && session == DoApplyCommit(old(session), attempt)
      ensures published <==>
                && old(tunDevice) == attempt.oldDevice && old(configGeneration) == attempt.capture.generation
                && runtime == At(attempt.runtime) && haveLatestConfig && latestConfig == attempt.capture.config
      ensures published ==> tunDevice == At(attempt.device) && config == attempt.capture.config && replaced == old(tunDevice)
      ensures published ==> networkErr == NoErr && authURL == "" && !retryLatestConfig && configGeneration == old(configGeneration) + 1
      ensures !published ==> session.op == Applying(Stale, attempt) && State() == old(State())
    {
      ApplyCommitKeeps(o, session, attempt);
      var c := attempt.capture;
      published := tunDevice == attempt.oldDevice
        && ConfigSnapshotCurrent(State(), At(attempt.runtime), c.config, true, c.generation);
      replaced := Nil;
      if published {
        replaced := PublishLocked(c.config, attempt.device);
      }
      session := DoApplyCommit(session, attempt);
    }

    method PublishRuntimeLocked(started: RuntimeId)
      requires Valid() && session.op.Starting? && started == session.nextRuntime
      modifies this
      ensures Valid() && session == DoStartPublish(old(session), old(session).op.recovering)
      ensures runtime == At(started) && tunDevice == Nil && !haveLatestConfig && !retryLatestConfig && config == NO_CONFIG
      ensures networkErr == NoErr && authURL == "" && configGeneration == old(configGeneration) + 1
    {
      StartPublishKeeps(o, session, session.op.recovering);
      SetRuntimeLocked(started);
      session := DoStartPublish(session, session.op.recovering);
    }

    /** The section of Close: both pointers go to the caller, for good. */
    method ShutdownLocked() returns (detached: Ref, device: Ref)
      requires Valid() && ctxDone && LockFree(session) && !session.closed
      modifies this
      ensures Valid() && session == DoClose(old(session)) && session.closed
      ensures detached == old(runtime) && session.pending == old(session).pending + Optional(device)
      ensures runtime == Nil && tunDevice == Nil && networkErr == Closed && device == old(tunDevice)
      ensures !haveLatestConfig && !retryLatestConfig && config == NO_CONFIG && authURL == ""
    {
      CloseKeeps(o, session);
      detached, device := DetachRuntimeLocked();
      ResetNetworkStateLocked(Closed);
      session := DoClose(session);
    }
  }
}
