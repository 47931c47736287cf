/**
 * The background tasks that decide which registrations get alerted: grouping
 * the unsent registrations of a semester by section, and alerting one
 * section's registrations when fresh course data shows it opened.
 */
module Tasks {
  import opened Wrappers
  import opened Choices
  import opened Models

  /** The tag `reg.alert()` records when called without one: the field's default ''. */
  const DefaultAlertTag: SentBy := Unsent

  /** One `send_alerts_for` task put on the queue. */
  datatype Submission = Submission(sectionCode: string, registrations: seq<nat>, semester: string)

  /** The section codes of the queued tasks, in queue order. */
  function Codes(queue: seq<Submission>): seq<string> {
    seq(|queue|, j requires 0 <= j < |queue| => queue[j].sectionCode)
  }

  /**
   * Groups the unsent registrations of the semester into buckets keyed by
   * their section's canonical code. `order` lists the keys in the order they
   * were first met, which is the order the buckets are later iterated in.
   */
  method CollectRegistrations(ledger: Ledger, semester: string) returns (alerts: map<string, seq<nat>>, order: seq<string>)
    requires ledger.Valid()
    ensures forall i :: 0 <= i < |ledger.regs| && Selected(ledger.sections, ledger.regs[i], semester) ==>
      var code := ledger.sections[ledger.regs[i].section].normalized;
      code in alerts && i in alerts[code]
    ensures forall code :: code in alerts ==>
      alerts[code] == ActiveRegistrations(ledger.sections, ledger.regs, code, semester) && alerts[code] != []
    ensures forall code :: code in order <==> code in alerts
    ensures forall m, n :: 0 <= m < n < |order| ==> order[m] != order[n]
  {
    var sections, regs := ledger.sections, ledger.regs;
    alerts, order := map[], [];
    for i := 0 to |regs|
      invariant forall code :: code in alerts <==> ActiveRegistrations(sections, regs[..i], code, semester) != []
      invariant forall code :: code in alerts ==> alerts[code] == ActiveRegistrations(sections, regs[..i], code, semester)
      invariant forall code :: code in order <==> code in alerts
      invariant forall m, n :: 0 <= m < n < |order| ==> order[m] != order[n]
    {
      forall code ensures ActiveRegistrations(sections, regs[..i + 1], code, semester) ==
        ActiveRegistrations(sections, regs[..i], code, semester) + if ActiveFor(sections, regs[i], code, semester) then [i] else []
      {
        ActiveRegistrationsStep(sections, regs, i, code, semester);
      }
      var reg := regs[i];
      if Selected(sections, reg, semester) {
        var sect := sections[reg.section].normalized;
        assert forall code :: ActiveFor(sections, reg, code, semester) <==> code == sect;
        if sect in alerts {
          alerts := alerts[sect := alerts[sect] + [i]];
        } else {
          alerts := alerts[sect := [i]];
          order := order + [sect];
        }
      } else {
        assert forall code :: !ActiveFor(sections, reg, code, semester);
      }
    }
    assert regs[..|regs|] == regs;
    forall i | 0 <= i < |regs| && Selected(sections, regs[i], semester)
      ensures sections[regs[i].section].normalized in alerts && i in alerts[sections[regs[i].section].normalized]
    {
      var code := sections[regs[i].section].normalized;
      assert i in ActiveRegistrations(sections, regs, code, semester);
    }
  }

  /**
   * Queues one `send_alerts_for` task per bucket of the semester (the
   * configured semester when none is given), carrying the bucket's
   * registrations and the semester.
   */
  method PrepareAlerts(ledger: Ledger, semester: Option<string>, configuredSemester: string) returns (queue: seq<Submission>)
    requires ledger.Valid()
    ensures var sem := semester.GetOr(configuredSemester);
      forall j :: 0 <= j < |queue| ==>
        && queue[j].semester == sem
        && queue[j].registrations == ActiveRegistrations(ledger.sections, ledger.regs, queue[j].sectionCode, sem)
        && queue[j].registrations != []
    ensures var sem := semester.GetOr(configuredSemester);
      forall i :: 0 <= i < |ledger.regs| && Selected(ledger.sections, ledger.regs[i], sem) ==>
        ledger.sections[ledger.regs[i].section].normalized in Codes(queue)
    ensures forall m, n :: 0 <= m < n < |queue| ==> queue[m].sectionCode != queue[n].sectionCode
  {
    var sem := if semester.Some? then semester.value else configuredSemester;
    var alerts, order := CollectRegistrations(ledger, sem);
    queue := [];
    for j := 0 to |order|
      invariant |queue| == j
      invariant forall m :: 0 <= m < j ==> queue[m] == Submission(order[m], alerts[order[m]], sem)
    {
      queue := queue + [Submission(order[j], alerts[order[j]], sem)];
    }
    assert forall m :: 0 <= m < |queue| ==> Codes(queue)[m] == order[m];
    assert Codes(queue) == order;
  }

  /** The alert condition at tasks.py:31: the section is open now and was not before. */
  predicate SendGate(wasOpen: bool, nowOpen: bool) {
    nowOpen && !wasOpen
  }

  /** The condition the tests expect of `should_send_alert`: the section is open now. */
  predicate ShouldSendAlert(wasOpen: bool, nowOpen: bool) {
    nowOpen
  }

  /** The two conditions agree on every transition except open to open, where only the tests' one alerts. */
  lemma GatesDifferExactlyOnOpenToOpen(wasOpen: bool, nowOpen: bool)
    ensures SendGate(wasOpen, nowOpen) != ShouldSendAlert(wasOpen, nowOpen) <==> wasOpen && nowOpen
    ensures wasOpen && nowOpen ==> ShouldSendAlert(wasOpen, nowOpen) && !SendGate(wasOpen, nowOpen)
  {
  }

  /**
   * `send_alerts_for` as tasks.py:23-33 is written: `sec` is the section as
   * loaded before the upsert, a value the upsert does not refresh, and the
   * gate reads `sec.isOpen` after the upsert. The section still takes the
   * fetched state, but the registrations and deliveries never change.
   */
  method SendAlertsForAsWritten(ledger: Ledger, section: nat, registrations: seq<nat>, fetched: Option<bool>)
    returns (alerted: bool)
    requires ledger.Valid() && section < |ledger.sections|
    requires forall m :: 0 <= m < |registrations| ==> registrations[m] < |ledger.regs|
    modifies ledger
    ensures ledger.Valid()
    ensures !alerted
    ensures ledger.sections ==
      if fetched.Some? then old(ledger.sections)[section := old(ledger.sections[section]).(isOpen := fetched.value)]
      else old(ledger.sections)
    ensures ledger.regs == old(ledger.regs) && ledger.deliveries == old(ledger.deliveries)
  {
    var sec := ledger.sections[section];
    var wasOpen := sec.isOpen;
    alerted := false;
    if fetched.Some? {
      ledger.UpsertSection(section, fetched.value);
      var nowOpen := sec.isOpen;
      alerted := SendGate(wasOpen, nowOpen);
      // the loop of line 32 runs over the registrations only when the gate passes
      AlertAll(ledger, if alerted then registrations else []);
    }
  }

  /**
   * The input that shows the stale read: a closed section whose fresh data
   * reports it open. The gate on the refreshed state passes, the gate on the
   * value read before the upsert does not.
   */
  lemma StaleReadMissesOpening(sec: Section)
    requires !sec.isOpen
    ensures var refreshed := sec.(isOpen := true);
      SendGate(sec.isOpen, refreshed.isOpen) && !SendGate(sec.isOpen, sec.isOpen)
  {
  }

  /** Alerts each listed registration in turn, without forcing. */
  method AlertAll(ledger: Ledger, registrations: seq<nat>)
    requires ledger.Valid()
    requires forall m :: 0 <= m < |registrations| ==> registrations[m] < |ledger.regs|
    modifies ledger
    ensures ledger.Valid() && ledger.sections == old(ledger.sections)
    ensures Store(ledger.regs, ledger.deliveries) == FanOut(Store(old(ledger.regs), old(ledger.deliveries)), registrations, DefaultAlertTag)
  {
    ghost var start := Store(ledger.regs, ledger.deliveries);
    for k := 0 to |registrations|
      invariant ledger.Valid() && ledger.sections == old(ledger.sections)
      invariant Store(ledger.regs, ledger.deliveries) == FanOut(start, registrations[..k], DefaultAlertTag)
    {
      assert registrations[..k + 1][..k] == registrations[..k];
      var _ := ledger.Alert(registrations[k], false, DefaultAlertTag);
    }
    assert registrations[..|registrations|] == registrations;
  }

  /**
   * Alerts a section's registrations after refreshing the section. `fetched`
   * is what the course API and the upsert yield: None when the API returns no
   * data, otherwise the section's open state after the upsert. Nothing changes
   * when there is no data; otherwise the section takes the new state, and every
   * listed registration is alerted exactly when the section was closed and is
   * now open.
   */
  method SendAlertsFor(ledger: Ledger, section: nat, registrations: seq<nat>, fetched: Option<bool>) returns (alerted: bool)
    requires ledger.Valid() && section < |ledger.sections|
    requires forall m :: 0 <= m < |registrations| ==> registrations[m] < |ledger.regs|
    modifies ledger
    ensures ledger.Valid()
    ensures alerted <==> fetched.Some? && SendGate(old(ledger.sections[section].isOpen), fetched.value)
    ensures ledger.sections ==
      if fetched.Some? then old(ledger.sections)[section := old(ledger.sections[section]).(isOpen := fetched.value)]
      else old(ledger.sections)
    ensures Store(ledger.regs, ledger.deliveries) ==
      var before := Store(old(ledger.regs), old(ledger.deliveries));
      if alerted then FanOut(before, registrations, DefaultAlertTag) else before
  {
    var wasOpen := ledger.sections[section].isOpen;
    alerted := false;
    if fetched.Some? {
      ledger.UpsertSection(section, fetched.value);
      var nowOpen := ledger.sections[section].isOpen;
      if SendGate(wasOpen, nowOpen) {
        alerted := true;
        AlertAll(ledger, registrations);
      }
    }
  }
}
