/** The controller as the object it is: methods that update its fields step by step. An exception is the
    `fault` a method returns; a caller that does not handle it returns it in turn. */
module AccessControl {
  import opened ReaderRecord
  import opened Options
  import opened Outcomes
  import opened Escalation
  import opened Controller

  datatype ReleaseStatus = NotRequested | Asserted | AlreadyReleased | ActuationFailed

  class AccessController {
    const env: Env
    const tracker: EscalationTracker
    var state: ControllerState
    var releaseDeadline: Option<real>
    var lastRelayCommandHigh: Option<bool>
    var relay: Relay
    var trace: seq<Attempt>

    ghost predicate Valid() {
      tracker.policy == env.policy
    }

    ghost function View(): Sys
      reads this, tracker
    {
      Sys(state, releaseDeadline, lastRelayCommandHigh, relay, tracker.View(), trace)
    }

    constructor (env: Env)
      requires env.Valid()
      ensures Valid() && this.env == env && View() == Initial(env) && fresh(tracker)
    {
      this.env := env;
      tracker := new EscalationTracker(env.policy);
      state := Initializing;
      releaseDeadline := None;
      lastRelayCommandHigh := None;
      relay := Relay(env.adapter, false, false, false);
      trace := [];
    }

    /** Any call out of the controller; the oracle decides how it ends. */
    method Perform(effect: Effect, now: real) returns (fault: Fault)
      modifies this`trace
      ensures Out(View(), fault) == Try(env, old(View()), effect, now)
    {
      fault := env.faults(|trace|);
      trace := trace + [Attempt(effect, now, fault)];
    }

    method SetUp(now: real) returns (fault: Fault)
      modifies this`trace, this`relay
      ensures Out(View(), fault) == SetUpRelay(env, old(View()), now)
    {
      if relay.adapter == RaspberryPi && relay.channel {
        return Fine;
      }
      fault := Perform(Effect.SetUp, now);
      if fault == Fine {
        relay := relay.(channel := true);
      }
    }

    method CommandRelay(high: bool, now: real) returns (fault: Fault)
      modifies this`trace, this`relay
      ensures Out(View(), fault) == Command(env, old(View()), high, now)
    {
      if !relay.channel || relay.closed {
        return Ordinary;
      }
      fault := Perform(Pin(high), now);
      if fault == Fine {
        relay := relay.(high := high);
      }
    }

    method CleanUp(now: real) returns (fault: Fault)
      modifies this`trace, this`relay
      ensures Out(View(), fault) == CleanUpRelay(env, old(View()), now)
    {
      if relay.adapter == Simulated {
        fault := Perform(Effect.CleanUp, now);
        return;
      }
      if !relay.channel || relay.closed {
        return Fine;
      }
      var low := CommandRelay(false, now);
      fault := Perform(Effect.CleanUp, now);
      if fault == Fine {
        relay := relay.(closed := true);
        fault := low;
      }
    }

    method AppendAudit(kind: EventType, severity: Severity, detail: Detail, now: real) returns (fault: Fault)
      modifies this`trace
      ensures Out(View(), fault) == Audit(env, old(View()), kind, severity, detail, now)
    {
      fault := Perform(Append(AuditEvent(kind, severity, detail, state, now)), now);
    }

    method TrySafeState(now: real) returns (fault: Fault, safe: bool)
      modifies this`trace, this`relay, this`lastRelayCommandHigh
      ensures (Out(View(), fault), safe) == AttemptSafeState(env, old(View()), now)
    {
      fault := CommandRelay(false, now);
      safe := fault == Fine;
      if fault == Fine {
        lastRelayCommandHigh := Some(false);
      } else if fault == Ordinary {
        fault := AppendAudit(RelayControlError, CriticalLevel, Because("low_failed"), now);
      }
    }

    method NoteSuspicious(now: real) returns (fault: Fault)
      requires Valid()
      modifies this`trace, tracker
      ensures Out(View(), fault) == RecordSuspicious(env, old(View()), now)
    {
      var level := tracker.RecordEvent(now);
      if level == Warning {
        fault := AppendAudit(EscalationWarning, WarningLevel, NoDetail, now);
      } else if level == Critical {
        var event := AuditEvent(EscalationCritical, CriticalLevel, NoDetail, state, now);
        fault := Perform(Append(event), now);
        if fault == Fine {
          fault := Perform(Enqueue(event), now);
          if fault == Ordinary {
            fault := AppendAudit(NotificationDeliveryFailed, ErrorLevel, Because("queue_unavailable"), now);
          }
        }
      } else {
        fault := Fine;
      }
    }

    method Start(now: real) returns (fault: Fault)
      modifies this
      ensures Out(View(), fault) == StartOp(env, old(View()), now)
    {
      if state == Ready || state == Released {
        return Fine;
      }
      if state != Initializing {
        return Ordinary;
      }
      fault := SetUp(now);
      if fault == Ordinary {
        state := Faulted;
        fault := AppendAudit(RelayControlError, CriticalLevel, Because("setup_failed"), now);
        return if fault == Fine then Ordinary else fault;
      } else if fault == Fatal {
        return;
      }
      fault := CommandRelay(false, now);
      if fault == Ordinary {
        state := Faulted;
        fault := AppendAudit(RelayControlError, CriticalLevel, Because("low_failed"), now);
        return if fault == Fine then Ordinary else fault;
      } else if fault == Fatal {
        return;
      }
      lastRelayCommandHigh := Some(false);
      state := Ready;
      fault := AppendAudit(ServiceStarted, InfoLevel, NoDetail, now);
    }

    /** The status says what happened to the door: asserted exactly when this call released it, already
        released exactly when an authorized credential found it released. */
    method Process(record: RecordResult, now: real)
      returns (fault: Fault, authorization: Option<Outcome>, status: ReleaseStatus)
      requires Valid()
      modifies this, tracker
      ensures Out(View(), fault) == ProcessOp(env, old(View()), record, now)
      ensures fault == Fine ==>
        authorization == if record.Parsed? then Some(env.classify(record.credential)) else None
      ensures fault == Fine ==> (status == Asserted <==> old(state) == Ready && state == Released)
      ensures fault == Fine ==> (status == AlreadyReleased <==>
        old(state) == Released && record.Parsed? && env.classify(record.credential) == Authorized)
      ensures fault == Fine ==> (status == ActuationFailed <==> state == Faulted)
    {
      status, authorization := NotRequested, None;
      if state != Ready && state != Released {
        return Ordinary, authorization, status;
      }
      match record
      case Malformed(reason) =>
        fault := AppendAudit(MalformedRecord, WarningLevel, Because(Sanitise(reason)), now);
        if fault == Fine {
          fault := NoteSuspicious(now);
        }
      case Parsed(credential) =>
        var outcome := env.classify(credential);
        authorization := Some(outcome);
        if outcome == Denied {
          fault := AppendAudit(CredentialDenied, WarningLevel, NoDetail, now);
          if fault == Fine {
            fault := NoteSuspicious(now);
          }
        } else if outcome == Unknown {
          fault := AppendAudit(CredentialUnknown, WarningLevel, NoDetail, now);
          if fault == Fine {
            fault := NoteSuspicious(now);
          }
        } else {
          fault := AppendAudit(CredentialAuthorized, InfoLevel, NoDetail, now);
          if fault == Fine && state == Released {
            status := AlreadyReleased;
          } else if fault == Fine {
            fault, status := ReleaseDoor(now);
          }
        }
    }

    method ReleaseDoor(now: real) returns (fault: Fault, status: ReleaseStatus)
      requires state == Ready
      modifies this
      ensures Out(View(), fault) == Release(env, old(View()), now)
      ensures fault == Fine ==> status == if state == Released then Asserted else ActuationFailed
      ensures fault == Fine ==> state == Released || state == Faulted
    {
      status := NotRequested;
      fault := CommandRelay(true, now);
      if fault == Ordinary {
        fault := AppendAudit(RelayControlError, CriticalLevel, Because("high_failed"), now);
        if fault == Fine {
          var safe;
          fault, safe := TrySafeState(now);
          if fault == Fine {
            state := Faulted;
            status := ActuationFailed;
          }
        }
      } else if fault == Fine {
        lastRelayCommandHigh := Some(true);
        releaseDeadline := Some(now + env.releaseSeconds);
        state := Released;
        fault := AppendAudit(RelayAsserted, InfoLevel, Lasting(env.releaseSeconds), now);
        status := Asserted;
      }
    }

    method Tick(now: real) returns (fault: Fault)
      modifies this
      ensures Out(View(), fault) == TickOp(env, old(View()), now)
    {
      if state != Released || releaseDeadline.None? || now < releaseDeadline.value {
        return Fine;
      }
      fault := CommandRelay(false, now);
      if fault == Ordinary {
        state := Faulted;
        fault := AppendAudit(RelayControlError, CriticalLevel, Because("low_failed"), now);
      } else if fault == Fine {
        lastRelayCommandHigh := Some(false);
        releaseDeadline := None;
        state := Ready;
        fault := AppendAudit(RelayRestored, InfoLevel, NoDetail, now);
      }
    }

    method RecoverableFailure(now: real) returns (fault: Fault)
      modifies this
      ensures Out(View(), fault) == RecoverableFailureOp(env, old(View()), now)
    {
      var safe;
      fault, safe := TrySafeState(now);
      if fault == Fine {
        releaseDeadline := None;
        state := Faulted;
        fault := AppendAudit(RelayControlError, ErrorLevel, NoDetail, now);
      }
    }

    method Shutdown(now: real) returns (fault: Fault)
      modifies this
      ensures Out(View(), fault) == ShutdownOp(env, old(View()), now)
    {
      if state == Stopped {
        return Fine;
      }
      state := ShuttingDown;
      var safe;
      fault, safe := TrySafeState(now);
      if fault != Fine {
        return;
      }
      releaseDeadline := None;
      fault := CleanUp(now);
      if fault == Fatal {
        return;
      }
      if fault == Ordinary {
        fault := AppendAudit(RelayControlError, CriticalLevel, Because("cleanup_failed"), now);
        if fault == Fine {
          state := Faulted;
        }
      } else if safe {
        state := Stopped;
        fault := AppendAudit(ServiceShutdown, InfoLevel, NoDetail, now);
      } else {
        state := Faulted;
      }
    }
  }
}
