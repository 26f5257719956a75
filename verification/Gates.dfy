/** The gates a chosen action must pass before it may execute. */
module Gates {
  import opened Wire

  predicate Destructive(k: ActionKind) {
    k in {ModemReset, UsbReset, DriverReset}
  }

  predicate CheapDuringExhausted(k: ActionKind) {
    k in {SetApn, FixRawIp}
  }

  predicate GateDisconnected(state: ModemState) {
    !state.present
  }

  predicate GateMaintenance(maintenanceActive: bool, action: ActionKind) {
    maintenanceActive && Destructive(action)
  }

  predicate GateSignal(state: ModemState, action: ActionKind) {
    Destructive(action) && state.rfBlocked
  }

  predicate GateSameActionBackoff(state: ModemState, action: ActionKind, now: real, cfg: Settings) {
    if action !in state.lastByKind then false
    else now - state.lastByKind[action] < cfg.backoffSeconds as real
  }

  function Later(a: Option<real>, b: Option<real>): Option<real> {
    if a.None? then b
    else if b.None? then a
    else if a.value < b.value then b else a
  }

  function Stamp(state: ModemState, k: ActionKind): Option<real> {
    if k in state.lastByKind then Some(state.lastByKind[k]) else None
  }

  /** The latest timestamp over the destructive kinds, if any has run. */
  function LatestDestructive(state: ModemState): Option<real> {
    Later(Stamp(state, ModemReset), Later(Stamp(state, UsbReset), Stamp(state, DriverReset)))
  }

  predicate GateLadderBackoff(state: ModemState, action: ActionKind, now: real, cfg: Settings) {
    if !Destructive(action) then false
    else
      match LatestDestructive(state)
      case None => false
      case Some(latest) => now - latest < cfg.ladderMinIntervalSeconds as real
  }

  predicate GateExhausted(state: ModemState, action: ActionKind) {
    state.state == Exhausted && !CheapDuringExhausted(action)
  }

  /** The ladder gate fires exactly when some destructive kind, not only the latest, ran less
      than the minimum interval ago. */
  lemma LadderGateSeesEveryDestructiveKind(state: ModemState, action: ActionKind, now: real, cfg: Settings)
    ensures GateLadderBackoff(state, action, now, cfg) <==>
            && Destructive(action)
            && exists k <- state.lastByKind ::
                 Destructive(k) && now - state.lastByKind[k] < cfg.ladderMinIntervalSeconds as real
  {
    if Destructive(action) && LatestDestructive(state).Some? {
      var k := if Stamp(state, ModemReset) == LatestDestructive(state) then ModemReset
               else if Stamp(state, UsbReset) == LatestDestructive(state) then UsbReset else DriverReset;
      assert k in state.lastByKind && state.lastByKind[k] == LatestDestructive(state).value;
    }
  }
}
