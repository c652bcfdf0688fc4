/** The alert screen of the mobile app (CommunityPulse/src/components/Alerts.js):
    confirming an action on an alert, the priority filter and the counts on
    the filter buttons. Rendering, the confirmation dialog and the fetch are
    left out; an alert keeps only the fields these use. */
module AlertsView {

  datatype UiAlert = UiAlert(id: int, priority: string, status: string)

  const Resolve: string := "resolve"
  const Investigate: string := "investigate"
  const Resolved: string := "resolved"
  const Investigating: string := "investigating"

  /** The status a confirmed action sets. */
  function NewStatus(action: string): (s: string)
    ensures s == Resolved <==> action == Resolve
    ensures s == Investigating <==> action != Resolve
  {
    if action == Resolve then Resolved else Investigating
  }

  /** The confirmed `handleAlertAction`: every alert with the id gets the new
      status, the others are left as they were. */
  function ApplyAction(alerts: seq<UiAlert>, alertId: int, action: string): (r: seq<UiAlert>)
    ensures |r| == |alerts|
    ensures forall i :: 0 <= i < |r| ==> r[i].id == alerts[i].id && r[i].priority == alerts[i].priority
    ensures forall i :: 0 <= i < |r| && alerts[i].id != alertId ==> r[i] == alerts[i]
    ensures forall i :: 0 <= i < |r| && alerts[i].id == alertId ==> r[i].status == NewStatus(action)
  {
    seq(|alerts|, i requires 0 <= i < |alerts| =>
      var a := alerts[i];
      if a.id == alertId then a.(status := NewStatus(action)) else a)
  }

  /** Repeating a confirmed action changes nothing more. */
  lemma ApplyActionIdempotent(alerts: seq<UiAlert>, alertId: int, action: string)
    ensures ApplyAction(ApplyAction(alerts, alertId, action), alertId, action) == ApplyAction(alerts, alertId, action)
  {
  }

  /** Actions on two different alerts can be confirmed in either order. */
  lemma ApplyActionCommutes(alerts: seq<UiAlert>, id1: int, action1: string, id2: int, action2: string)
    requires id1 != id2
    ensures ApplyAction(ApplyAction(alerts, id1, action1), id2, action2)
         == ApplyAction(ApplyAction(alerts, id2, action2), id1, action1)
  {
  }

  /** The buttons a card shows: both actions unless the alert is resolved. */
  function ActionsOffered(a: UiAlert): (actions: seq<string>)
    ensures a.status == Resolved <==> |actions| == 0
    ensures forall x :: x in actions ==> x == Investigate || x == Resolve
  {
    if a.status != Resolved then [Investigate, Resolve] else []
  }

  predicate UniqueIds(alerts: seq<UiAlert>) {
    forall i, j :: 0 <= i < j < |alerts| ==> alerts[i].id != alerts[j].id
  }

  /** A step the screen lets a user take: a button of a shown card. */
  predicate Offered(alerts: seq<UiAlert>, k: int, action: string) {
    0 <= k < |alerts| && action in ActionsOffered(alerts[k])
  }

  /** One confirmed button press on the card at position `k`. */
  function Press(alerts: seq<UiAlert>, k: nat, action: string): (r: seq<UiAlert>)
    requires k < |alerts|
    ensures |r| == |alerts|
  {
    ApplyAction(alerts, alerts[k].id, action)
  }

  /** With distinct ids, a resolved alert offers no button and no other
      card's button reaches it, so it stays resolved. */
  lemma ResolvedStaysResolved(alerts: seq<UiAlert>, k: nat, action: string, j: nat)
    requires UniqueIds(alerts) && Offered(alerts, k, action)
    requires j < |alerts| && alerts[j].status == Resolved
    ensures Press(alerts, k, action)[j] == alerts[j]
  {
  }

  /** A run of presses; a press on a button that is not shown at the time
      does nothing. */
  function Run(alerts: seq<UiAlert>, presses: seq<(int, string)>): (r: seq<UiAlert>)
    ensures |r| == |alerts|
    ensures forall i :: 0 <= i < |r| ==> r[i].id == alerts[i].id && r[i].priority == alerts[i].priority
    decreases |presses|
  {
    if |presses| == 0 then alerts
    else if Offered(alerts, presses[0].0, presses[0].1) then Run(Press(alerts, presses[0].0, presses[0].1), presses[1..])
    else Run(alerts, presses[1..])
  }

  /** However many buttons are pressed, a resolved alert stays resolved. */
  lemma {:induction false} RunKeepsResolved(alerts: seq<UiAlert>, presses: seq<(int, string)>, j: nat)
    requires UniqueIds(alerts)
    requires j < |alerts| && alerts[j].status == Resolved
    ensures Run(alerts, presses)[j] == alerts[j]
    decreases |presses|
  {
    if |presses| > 0 {
      var k, action := presses[0].0, presses[0].1;
      if Offered(alerts, k, action) {
        var next := Press(alerts, k, action);
        ResolvedStaysResolved(alerts, k, action, j);
        assert UniqueIds(next);
        RunKeepsResolved(next, presses[1..], j);
      } else {
        RunKeepsResolved(alerts, presses[1..], j);
      }
    }
  }

  // ---- Filter and counts --------------------------------------------------

  /** `filteredAlerts`: everything under `all`, otherwise the alerts of that
      priority in their order. */
  function FilteredAlerts(alerts: seq<UiAlert>, filter: string): (r: seq<UiAlert>)
    ensures filter == "all" ==> r == alerts
    ensures filter != "all" ==> forall a :: a in r <==> a in alerts && a.priority == filter
    ensures |r| <= |alerts|
  {
    if filter == "all" then alerts
    else if |alerts| == 0 then []
    else
      var rest := FilteredAlerts(alerts[1..], filter);
      assert alerts == [alerts[0]] + alerts[1..];
      if alerts[0].priority == filter then [alerts[0]] + rest else rest
  }

  /** Filtering keeps the order: filtering a concatenation concatenates the
      filtered parts. */
  lemma {:induction false} FilterDistributes(a: seq<UiAlert>, b: seq<UiAlert>, filter: string)
    ensures FilteredAlerts(a + b, filter) == FilteredAlerts(a, filter) + FilteredAlerts(b, filter)
  {
    if |a| == 0 {
      assert a + b == b;
    } else if filter != "all" {
      assert (a + b)[0] == a[0];
      assert (a + b)[1..] == a[1..] + b;
      FilterDistributes(a[1..], b, filter);
    }
  }

  /** The number of alerts of one priority. */
  function CountPriority(alerts: seq<UiAlert>, p: string): (n: nat)
    ensures n <= |alerts|
  {
    if |alerts| == 0 then 0 else (if alerts[0].priority == p then 1 else 0) + CountPriority(alerts[1..], p)
  }

  /** The filter under a priority shows as many alerts as that priority's
      count. */
  lemma {:induction false} FilteredCount(alerts: seq<UiAlert>, p: string)
    requires p != "all"
    ensures |FilteredAlerts(alerts, p)| == CountPriority(alerts, p)
  {
    if |alerts| > 0 {
      FilteredCount(alerts[1..], p);
    }
  }

  datatype AlertCounts = AlertCounts(all: nat, high: nat, medium: nat, low: nat)

  predicate KnownPriority(a: UiAlert) {
    a.priority == "high" || a.priority == "medium" || a.priority == "low"
  }

  /** `alertCounts`. */
  function Counts(alerts: seq<UiAlert>): (c: AlertCounts)
    ensures c.all == |alerts|
    ensures c.high + c.medium + c.low <= c.all
    ensures c.high + c.medium + c.low == c.all <==> forall i :: 0 <= i < |alerts| ==> KnownPriority(alerts[i])
  {
    CountsAddUp(alerts);
    AlertCounts(|alerts|, CountPriority(alerts, "high"), CountPriority(alerts, "medium"), CountPriority(alerts, "low"))
  }

  /** The three priority counts cover every alert whose priority is one of
      them, so they fall short of the total exactly by the others. */
  lemma {:induction false} CountsAddUp(alerts: seq<UiAlert>)
    ensures CountPriority(alerts, "high") + CountPriority(alerts, "medium") + CountPriority(alerts, "low") <= |alerts|
    ensures CountPriority(alerts, "high") + CountPriority(alerts, "medium") + CountPriority(alerts, "low") == |alerts|
      <==> forall i :: 0 <= i < |alerts| ==> KnownPriority(alerts[i])
  {
    if |alerts| > 0 {
      CountsAddUp(alerts[1..]);
      assert forall i :: 1 <= i < |alerts| ==> alerts[i] == alerts[1..][i - 1];
    }
  }
}
