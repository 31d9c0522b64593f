/** components/alerts/alert-monitor.tsx: marking an alert as resolved in the
    local list once the database has accepted the update, the severity
    captions, and when the resolve button is offered. The update call is an
    input: whether it returned an error. The time stamp written into the list
    is the page's `new Date().toISOString()`, also an input. */
module AlertMonitor {
  import opened Wrappers
  import opened Records

  /** A toast: its title and description. */
  datatype Toast = Toast(title: string, description: string, destructive: bool)

  /** What `markAsResolved` leaves behind: the list and the toast shown. */
  datatype Resolution = Resolution(alerts: seq<Alert>, toast: Toast)

  /** The state update `prev.map(...)`: the alert with the id is resolved at
      `resolvedAt`, every other alert stays as it was. */
  function Resolve(alerts: seq<Alert>, alertId: string, resolvedAt: string): (r: seq<Alert>)
    ensures |r| == |alerts|
    ensures forall i :: 0 <= i < |alerts| && alerts[i].id == alertId ==>
      r[i] == alerts[i].(isResolved := true, resolvedAt := Some(resolvedAt))
    ensures forall i :: 0 <= i < |alerts| && alerts[i].id != alertId ==> r[i] == alerts[i]
  {
    UpdateWhere(alerts, (a: Alert) => a.id == alertId,
                (a: Alert) => a.(isResolved := true, resolvedAt := Some(resolvedAt)))
  }

  /** `markAsResolved`: an update error is thrown and caught, so the list is
      kept and the failure toast shown; otherwise the list is updated. */
  function MarkAsResolved(alerts: seq<Alert>, alertId: string, updateFailed: bool, resolvedAt: string): (r: Resolution)
    ensures updateFailed ==> r == Resolution(alerts, Toast("操作失败", "无法更新预警状态", true))
    ensures !updateFailed ==> r.alerts == Resolve(alerts, alertId, resolvedAt)
                              && r.toast == Toast("预警已处理", "预警状态已更新为已解决", false)
  {
    if updateFailed then Resolution(alerts, Toast("操作失败", "无法更新预警状态", true))
    else Resolution(Resolve(alerts, alertId, resolvedAt), Toast("预警已处理", "预警状态已更新为已解决", false))
  }

  /** Only the resolution fields move: every alert keeps its place, id,
      severity, message, type, values and creation time; the flag becomes
      true for the matching alert and stays what it was for the others. */
  lemma ResolveKeepsContent(alerts: seq<Alert>, alertId: string, resolvedAt: string, i: nat)
    requires i < |alerts|
    ensures var a, b := alerts[i], Resolve(alerts, alertId, resolvedAt)[i];
      b.id == a.id && b.severity == a.severity && b.message == a.message
      && b.alertType == a.alertType && b.experimentId == a.experimentId
      && b.thresholdValue == a.thresholdValue && b.actualValue == a.actualValue
      && b.createdAt == a.createdAt
      && b.isResolved == (a.isResolved || a.id == alertId)
  {
  }

  /** Resolving twice is resolving once, at the later time: the flag does not
      flip back, and nothing else changes. */
  lemma {:induction false} ResolveIdempotent(alerts: seq<Alert>, alertId: string, t1: string, t2: string)
    ensures Resolve(Resolve(alerts, alertId, t1), alertId, t2) == Resolve(alerts, alertId, t2)
  {
    var once, twice, direct := Resolve(alerts, alertId, t1), Resolve(Resolve(alerts, alertId, t1), alertId, t2),
      Resolve(alerts, alertId, t2);
    forall i | 0 <= i < |alerts|
      ensures twice[i] == direct[i]
    {
      assert once[i].id == alerts[i].id;
    }
  }

  /** An alert id that is not in the list leaves the list as it is. */
  lemma {:induction false} ResolveAbsent(alerts: seq<Alert>, alertId: string, resolvedAt: string)
    requires forall i :: 0 <= i < |alerts| ==> alerts[i].id != alertId
    ensures Resolve(alerts, alertId, resolvedAt) == alerts
  {
    var r := Resolve(alerts, alertId, resolvedAt);
    assert forall i :: 0 <= i < |alerts| ==> r[i] == alerts[i];
  }

  /** `getSeverityText`. */
  function SeverityText(severity: string): (t: string)
    ensures severity == "critical" ==> t == "严重"
    ensures severity == "high" ==> t == "高"
    ensures severity == "medium" ==> t == "中"
    ensures severity == "low" ==> t == "低"
    ensures severity !in {"critical", "high", "medium", "low"} ==> t == severity
  {
    if severity == "critical" then "严重"
    else if severity == "high" then "高"
    else if severity == "medium" then "中"
    else if severity == "low" then "低"
    else severity
  }

  /** The four captions are distinct, so each names one severity. */
  lemma SeverityTextInjective(a: string, b: string)
    requires a in {"critical", "high", "medium", "low"} && b in {"critical", "high", "medium", "low"}
    ensures SeverityText(a) == SeverityText(b) <==> a == b
  {
    assert "严重" != "高" && "严重" != "中" && "严重" != "低";
  }

  /** `!alert.is_resolved && !compact`: the resolve button of an alert. */
  predicate ShowsResolveButton(alert: Alert, compact: bool) {
    !alert.isResolved && !compact
  }

  /** After a successful resolve no alert with that id offers the button any
      more, and whichever other alert offered it still does. */
  lemma ResolvedHidesButton(alerts: seq<Alert>, alertId: string, resolvedAt: string, compact: bool, i: nat)
    requires i < |alerts|
    ensures var r := MarkAsResolved(alerts, alertId, false, resolvedAt).alerts;
      (alerts[i].id == alertId ==> !ShowsResolveButton(r[i], compact))
      && (alerts[i].id != alertId ==> ShowsResolveButton(r[i], compact) == ShowsResolveButton(alerts[i], compact))
  {
  }
}
