/** The per-modem state machine: prior state and snapshot to next state. */
module Transitions {
  import opened Wire

  predicate IsSignalBelowGate(snap: ModemSnapshot, cfg: Settings) {
    var sig := snap.signal;
    if sig.rsrp.Some? && sig.rsrp.value < cfg.rsrpFloor then true
    else if sig.rsrq.Some? && sig.rsrq.value < cfg.rsrqFloor then true
    else sig.snr.Some? && sig.snr.value < cfg.snrFloor
  }

  function ToHealthy(prior: ModemState, present: bool, rfBlocked: bool): ModemState {
    prior.(state := Healthy, recoveringLevel := None, present := present, rfBlocked := rfBlocked)
  }

  function ToDegraded(prior: ModemState, present: bool, rfBlocked: bool): ModemState {
    prior.(state := Degraded, recoveringLevel := None, present := present, rfBlocked := rfBlocked)
  }

  function StayOrUpdate(prior: ModemState, target: StateName, present: bool, rfBlocked: bool): ModemState {
    prior.(state := target, present := present, rfBlocked := rfBlocked)
  }

  function Transition(prior: ModemState, snap: ModemSnapshot, cfg: Settings): ModemState {
    var rfBlocked := IsSignalBelowGate(snap, cfg);
    var present := true;
    if snap.issues == [] && !rfBlocked then ToHealthy(prior, present, rfBlocked)
    else
      match prior.state
      case Unknown =>
        if snap.issues != [] then ToDegraded(prior, present, rfBlocked) else ToHealthy(prior, present, rfBlocked)
      case Healthy =>
        if snap.issues != [] then ToDegraded(prior, present, rfBlocked) else ToHealthy(prior, present, rfBlocked)
      case Degraded => StayOrUpdate(prior, Degraded, present, rfBlocked)
      case Recovering =>
        if snap.issues != [] then
          var level := if prior.recoveringLevel.Some? then prior.recoveringLevel.value else 1;
          prior.(state := Recovering, recoveringLevel := Some(level), present := present, rfBlocked := rfBlocked)
        else ToHealthy(prior, present, rfBlocked)
      case Exhausted =>
        if snap.issues == [] && !rfBlocked then ToHealthy(prior, present, rfBlocked)
        else StayOrUpdate(prior, Exhausted, present, rfBlocked)
  }

  /** A modem ends healthy exactly when it shows no issue and either its signal clears the
      floors or it was not already degraded or exhausted. Otherwise an unknown or healthy modem
      becomes degraded and any other stays where it was. Signal alone sets the RF flag. The depth of
      recovery is kept, or starts at one, while recovering, and is dropped by every move. Nothing else
      in the record moves, and validity is kept. */
  lemma TransitionLaw(prior: ModemState, snap: ModemSnapshot, cfg: Settings)
    ensures var next := Transition(prior, snap, cfg);
            && (next.state == Healthy <==>
                  snap.issues == [] && (prior.state in {Degraded, Exhausted} ==> !next.rfBlocked))
            && (next.state != Healthy ==>
                  next.state == if prior.state in {Unknown, Healthy} then Degraded else prior.state)
            && (next.rfBlocked <==>
                  || (snap.signal.rsrp.Some? && snap.signal.rsrp.value < cfg.rsrpFloor)
                  || (snap.signal.rsrq.Some? && snap.signal.rsrq.value < cfg.rsrqFloor)
                  || (snap.signal.snr.Some? && snap.signal.snr.value < cfg.snrFloor))
            && next.present
            && next.healthyStreak == prior.healthyStreak && next.counters == prior.counters
            && next.lastAction == prior.lastAction && next.lastByKind == prior.lastByKind
            && (prior.Valid() ==> next.Valid())
            && next.recoveringLevel ==
               (if next.state == Recovering then if prior.recoveringLevel.Some? then prior.recoveringLevel else Some(1)
                else if next.state == prior.state && next.state in {Degraded, Exhausted} then prior.recoveringLevel
                else None)
  {
    hide IsSignalBelowGate;
    RfFlagIsSignal(snap, cfg);
  }

  lemma RfFlagIsSignal(snap: ModemSnapshot, cfg: Settings)
    ensures IsSignalBelowGate(snap, cfg) <==>
              || (snap.signal.rsrp.Some? && snap.signal.rsrp.value < cfg.rsrpFloor)
              || (snap.signal.rsrq.Some? && snap.signal.rsrq.value < cfg.rsrqFloor)
              || (snap.signal.snr.Some? && snap.signal.snr.value < cfg.snrFloor)
  {
  }

  /** `recovering` and `exhausted` can only be kept, never entered. */
  lemma NoTransitionEntersRecoveringOrExhausted(prior: ModemState, snap: ModemSnapshot, cfg: Settings)
    ensures Transition(prior, snap, cfg).state in {Recovering, Exhausted} ==>
              Transition(prior, snap, cfg).state == prior.state
    ensures Transition(prior, snap, cfg).state != Unknown
  {
  }
}
