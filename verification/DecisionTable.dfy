/** Which issue a cycle acts on, and which action that issue calls for. */
module DecisionTable {
  import opened Wire

  datatype SkipRow = RequiresHuman | NoCard | Hardware | CarrierDenied

  datatype Lookup = Act(kind: ActionKind) | Skip(row: SkipRow) | NoRow

  const PRIORITY_ORDER: seq<IssueCategory> := [Config, Sim, Datapath, Registration, Qmi]

  function LookupAction(category: IssueCategory, detail: IssueDetail): Lookup {
    match (category, detail)
    case (Config, ApnEmpty) => Act(SetApn)
    case (Config, ApnMismatch) => Act(SetApn)
    case (Sim, SimPowerDown) => Act(SimPowerOn)
    case (Sim, SimAppUnreadable) => Act(SoftReset)
    case (Sim, SimAppPinRequired) => Skip(RequiresHuman)
    case (Sim, SimAppPukRequired) => Skip(RequiresHuman)
    case (Sim, SimAppDetected) => Act(SoftReset)
    case (Sim, SimCardAbsent) => Skip(NoCard)
    case (Sim, SimCardError) => Skip(Hardware)
    case (Sim, SimCardUnreadable) => Act(SoftReset)
    case (Datapath, RawIpOff) => Act(FixRawIp)
    case (Datapath, SessionDisconnected) => Act(ModemReset)
    case (Registration, NotRegisteredSearching) => Act(SoftReset)
    case (Registration, NotRegisteredIdle) => Act(SoftReset)
    case (Registration, Denied) => Skip(CarrierDenied)
    case (Qmi, QmiChannelHung) => Act(UsbReset)
    case (Qmi, OperatingModeOffline) => Act(ModemReset)
    case (Qmi, OperatingModeLowPower) => Act(ModemReset)
    case (Qmi, QmiProxyDied) => Act(DriverReset)
    case (Qmi, QmiTimeout) => Act(SoftReset)
    case (Qmi, SierraBootloader) => Act(UsbReset)
    case _ => NoRow
  }

  function FirstInCategory(issues: seq<Issue>, category: IssueCategory): Option<Issue> {
    if issues == [] then None
    else if issues[0].category == category then Some(issues[0])
    else FirstInCategory(issues[1..], category)
  }

  function SearchFrom(issues: seq<Issue>, order: seq<IssueCategory>): Option<Issue> {
    if order == [] then None
    else
      match FirstInCategory(issues, order[0])
      case Some(issue) => Some(issue)
      case None => SearchFrom(issues, order[1..])
  }

  function SelectTopPriorityIssue(issues: seq<Issue>): Option<Issue> {
    SearchFrom(issues, PRIORITY_ORDER)
  }

  /** Smaller is more urgent. */
  function Urgency(c: IssueCategory): nat {
    match c
    case Config => 1 case Sim => 2 case Datapath => 3 case Registration => 4 case Qmi => 5
  }

  lemma {:induction false} FirstInCategoryIsFirst(issues: seq<Issue>, category: IssueCategory)
    ensures FirstInCategory(issues, category).None? <==> forall i <- issues :: i.category != category
    ensures FirstInCategory(issues, category).Some? ==>
              exists j | 0 <= j < |issues| :: FirstInCategory(issues, category).value == issues[j]
                                              && issues[j].category == category
                                              && forall h | 0 <= h < j :: issues[h].category != category
  {
    if issues != [] {
      FirstInCategoryIsFirst(issues[1..], category);
      assert forall i <- issues :: i == issues[0] || i in issues[1..];
      if issues[0].category == category {
        assert issues[0] == FirstInCategory(issues, category).value;
      } else if FirstInCategory(issues[1..], category).Some? {
        var j :| 0 <= j < |issues| - 1 && FirstInCategory(issues[1..], category).value == issues[1..][j]
                 && issues[1..][j].category == category
                 && forall h | 0 <= h < j :: issues[1..][h].category != category;
        forall h | 0 <= h < j + 1 ensures issues[h].category != category {
          if h > 0 { assert issues[1..][h - 1] == issues[h]; }
        }
        assert issues[j + 1] == FirstInCategory(issues, category).value;
      }
    }
  }

  /** The issue acted on belongs to the most urgent category present and is the first of that
      category; there is one whenever there is any issue at all. */
  lemma TopPriorityIssueIsMostUrgent(issues: seq<Issue>)
    ensures SelectTopPriorityIssue(issues).None? <==> issues == []
    ensures SelectTopPriorityIssue(issues).Some? ==>
              exists j | 0 <= j < |issues| ::
                && SelectTopPriorityIssue(issues).value == issues[j]
                && (forall h | 0 <= h < |issues| :: Urgency(issues[j].category) <= Urgency(issues[h].category))
                && (forall h | 0 <= h < j :: issues[h].category != issues[j].category)
  {
    forall c: IssueCategory {
      FirstInCategoryIsFirst(issues, c);
    }
    var o := PRIORITY_ORDER;
    assert o[1..] == [Sim, Datapath, Registration, Qmi];
    assert o[1..][1..] == [Datapath, Registration, Qmi];
    assert o[1..][1..][1..] == [Registration, Qmi];
    assert o[1..][1..][1..][1..] == [Qmi];
    assert SelectTopPriorityIssue(issues) ==
           if FirstInCategory(issues, Config).Some? then FirstInCategory(issues, Config)
           else if FirstInCategory(issues, Sim).Some? then FirstInCategory(issues, Sim)
           else if FirstInCategory(issues, Datapath).Some? then FirstInCategory(issues, Datapath)
           else if FirstInCategory(issues, Registration).Some? then FirstInCategory(issues, Registration)
           else FirstInCategory(issues, Qmi) by { SearchUnrolled(issues); }
    if issues != [] {
      assert issues[0] in issues;
    }
  }

  lemma SearchUnrolled(issues: seq<Issue>)
    ensures SearchFrom(issues, [Config, Sim, Datapath, Registration, Qmi]) ==
           if FirstInCategory(issues, Config).Some? then FirstInCategory(issues, Config)
           else if FirstInCategory(issues, Sim).Some? then FirstInCategory(issues, Sim)
           else if FirstInCategory(issues, Datapath).Some? then FirstInCategory(issues, Datapath)
           else if FirstInCategory(issues, Registration).Some? then FirstInCategory(issues, Registration)
           else FirstInCategory(issues, Qmi)
  {
    var o := [Config, Sim, Datapath, Registration, Qmi];
    assert o[1..] == [Sim, Datapath, Registration, Qmi];
    assert [Sim, Datapath, Registration, Qmi][1..] == [Datapath, Registration, Qmi];
    assert [Datapath, Registration, Qmi][1..] == [Registration, Qmi];
    assert [Registration, Qmi][1..] == [Qmi];
    assert [Qmi][1..] == [];
    assert SearchFrom(issues, [Qmi]) == FirstInCategory(issues, Qmi);
    assert SearchFrom(issues, [Registration, Qmi]) ==
           if FirstInCategory(issues, Registration).Some? then FirstInCategory(issues, Registration)
           else SearchFrom(issues, [Qmi]);
    assert SearchFrom(issues, [Datapath, Registration, Qmi]) ==
           if FirstInCategory(issues, Datapath).Some? then FirstInCategory(issues, Datapath)
           else SearchFrom(issues, [Registration, Qmi]);
  }
}
