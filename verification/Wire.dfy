/** The values that cross the daemon's boundaries: issues, snapshots, per-modem state,
    globals and settings. */
module Wire {

  datatype Option<+T> = None | Some(value: T)

  datatype IssueCategory = Config | Sim | Datapath | Registration | Qmi

  datatype IssueDetail =
    | ApnMismatch | ApnEmpty
    | NoSim | SimLocked | SimAppDetected | SimCardAbsent | SimCardError | SimCardUnreadable
    | SimPowerDown | SimAppPinRequired | SimAppPukRequired | SimAppUnreadable
    | RawIpOff | NoDataSession | NoIpv4 | SessionDisconnected
    | NotRegisteredSearching | NotRegisteredIdle | NotRegisteredDenied | Denied
    | QmiTimeout | QmiHung | QmiChannelHung | QmiProxyDied
    | OperatingModeOffline | OperatingModeLowPower
    | EnumerationMissing | EnumerationAddressFail | EnumerationOvercurrent | AutosuspendOn
    | SierraBootloader
    | ThermalWarn | ThermalCritical | ZaoUnitInactive | ZaoLogStale
    | UsbOvercurrent | UsbEnumFailure | ThermalThrottle | QmiWwanProbeFail | TegraHubPsuDroop
    | UnknownDetail

  datatype ActionKind =
    | SetApn | FixRawIp | SimPowerOn | SoftReset | SetOperatingMode | FixAutosuspend
    | ModemReset | UsbReset | DriverReset

  datatype StateName = Unknown | Healthy | Degraded | Recovering | Exhausted

  datatype Signal = Signal(rsrp: Option<int>, rsrq: Option<real>, snr: Option<real>)

  datatype Issue = Issue(category: IssueCategory, detail: IssueDetail)

  datatype ModemSnapshot = ModemSnapshot(
    usbPath: string,
    cdcWdm: string,
    iccid: Option<string>,
    imsi: Option<string>,
    signal: Signal,
    issues: seq<Issue>)

  datatype ModemState = ModemState(
    state: StateName,
    present: bool,
    rfBlocked: bool,
    recoveringLevel: Option<int>,
    healthyStreak: int,
    counters: map<ActionKind, int>,
    lastAction: Option<real>,
    lastByKind: map<ActionKind, real>)
  {
    /** The record's field bounds and its two cross-field validators. */
    predicate Valid() {
      && (state == Recovering <==> recoveringLevel.Some?)
      && (recoveringLevel.Some? ==> recoveringLevel.value >= 1)
      && healthyStreak >= 0
      && (forall k <- counters :: counters[k] >= 0)
    }
  }

  datatype GlobalsState = GlobalsState(driverResetCount: nat, lastDriverReset: Option<real>)

  datatype Settings = Settings(
    backoffSeconds: int,
    ladderMinIntervalSeconds: int,
    decayK: int,
    thresholdFraction: real,
    driverResetBackoffSeconds: int,
    rsrpFloor: int,
    rsrqFloor: real,
    snrFloor: real,
    maxSoft: int,
    maxModem: int,
    maxUsb: int,
    dryRun: bool)
  {
    /** The bounds the settings loader enforces. */
    predicate Valid() {
      && backoffSeconds >= 1 && ladderMinIntervalSeconds >= 1 && decayK >= 1
      && driverResetBackoffSeconds >= 1 && 0.0 <= thresholdFraction <= 1.0
      && maxSoft >= 1 && maxModem >= 1 && maxUsb >= 1
    }
  }

  /** `counters.get(k, 0)`. */
  function Count(counters: map<ActionKind, int>, k: ActionKind): int {
    if k in counters then counters[k] else 0
  }

  /** The state of a modem that has no state file yet. */
  function FreshState(): ModemState {
    ModemState(Unknown, true, false, None, 0, map[], None, map[])
  }
}
