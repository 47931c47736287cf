/**
 * The registration ledger: sections, the registrations that subscribe to them,
 * and the alerts delivered so far. A registration's id is its index in the
 * ledger; a resubscription points back to the registration it was made from,
 * so `resubscribedFrom` links always name a smaller id.
 */
module Models {
  import opened Wrappers
  import opened Choices

  /** One section of a course: its canonical code ("DEPT-NNN-NNN"), the semester of its course, and its state. */
  datatype Section = Section(normalized: string, semester: string, isOpen: bool, status: Status)

  /** One subscriber's interest in one section. */
  datatype Registration = Registration(
    email: Option<string>,
    phone: Option<string>,
    section: nat,
    notificationSent: bool,
    sentBy: SentBy,
    resubscribedFrom: Option<nat>)

  /** The two senders an alert goes through. */
  datatype Channel = Email | Text

  /** One call of a sender for one registration. */
  datatype Delivery = Delivery(channel: Channel, registration: nat)

  /** The answers of a registration request. */
  datatype RegStatus = Success | OpenRegExists | NoContactInfo

  /** The registrations together with the deliveries made so far. */
  datatype Store = Store(regs: seq<Registration>, deliveries: seq<Delivery>)

  /** A contact field counts when it is given and not empty (Python truthiness). */
  predicate HasContact(field: Option<string>) {
    field.Some? && field.value != ""
  }

  /** Two registrations belong to the same subscriber and section. */
  predicate SameSubscription(a: Registration, b: Registration) {
    a.email == b.email && a.phone == b.phone && a.section == b.section
  }

  /** A registration as a successful request creates it. */
  function NewRegistration(email: Option<string>, phone: Option<string>, section: nat): Registration {
    Registration(email, phone, section, false, Unsent, None)
  }

  /** The registration appended after `tail` when a resubscription finds its chain used up. */
  function Resubscription(from: Registration, tail: nat): Registration {
    Registration(from.email, from.phone, from.section, false, Unsent, Some(tail))
  }

  /** A registration once its alert went out through the given tag. */
  function Alerted(r: Registration, tag: SentBy): Registration {
    r.(notificationSent := true, sentBy := tag)
  }

  /** The sender calls one alert makes: email and text. */
  function Notices(id: nat): seq<Delivery> {
    [Delivery(Email, id), Delivery(Text, id)]
  }

  /** Every resubscription link names an earlier registration. */
  predicate LinksBackward(regs: seq<Registration>) {
    forall j :: 0 <= j < |regs| && regs[j].resubscribedFrom.Some? ==> regs[j].resubscribedFrom.value < j
  }

  /**
   * A registration is resubscribed from only once its alert is sent, so on a
   * resubscription chain every registration but the last is sent.
   */
  predicate PredecessorsSent(regs: seq<Registration>)
    requires LinksBackward(regs)
  {
    forall j :: 0 <= j < |regs| && regs[j].resubscribedFrom.Some? ==> regs[regs[j].resubscribedFrom.value].notificationSent
  }

  /** The ledger's invariant over sections and registrations. */
  ghost predicate WellFormed(sections: seq<Section>, regs: seq<Registration>) {
    && (forall j :: 0 <= j < |regs| ==> regs[j].section < |sections|)
    && LinksBackward(regs)
    // a registration is resubscribed from at most once
    && (forall j, k :: 0 <= j < k < |regs| && regs[k].resubscribedFrom.Some? ==>
          regs[j].resubscribedFrom != regs[k].resubscribedFrom)
    // a resubscription chain stays with one subscriber and one section
    && (forall j :: 0 <= j < |regs| && regs[j].resubscribedFrom.Some? ==>
          SameSubscription(regs[regs[j].resubscribedFrom.value], regs[j]))
    && PredecessorsSent(regs)
    // the sent-by tag is recorded only once the alert is sent
    && (forall j :: 0 <= j < |regs| && !regs[j].notificationSent ==> regs[j].sentBy == Unsent)
  }

  /** Every delivery names a registration that is marked sent. */
  ghost predicate DeliveredAreSent(regs: seq<Registration>, deliveries: seq<Delivery>) {
    forall d :: d in deliveries ==> d.registration < |regs| && regs[d.registration].notificationSent
  }

  // ---------------------------------------------------------------------------
  // Registration requests

  /** An unsent registration with exactly this email and phone exists for the section. */
  predicate HasOpenRegistration(regs: seq<Registration>, section: nat, email: Option<string>, phone: Option<string>) {
    exists j | 0 <= j < |regs| :: SameSubscription(regs[j], NewRegistration(email, phone, section)) && !regs[j].notificationSent
  }

  /** The answer of a registration request against the current registrations. */
  function RegistrationOutcome(regs: seq<Registration>, section: nat, email: Option<string>, phone: Option<string>): RegStatus {
    if !HasContact(email) && !HasContact(phone) then NoContactInfo
    else if HasOpenRegistration(regs, section, email, phone) then OpenRegExists
    else Success
  }

  /** Once a request succeeds, the identical request is refused while the new registration is unsent. */
  lemma RepeatedRegistrationRefused(regs: seq<Registration>, section: nat, email: Option<string>, phone: Option<string>)
    requires RegistrationOutcome(regs, section, email, phone) == Success
    ensures RegistrationOutcome(regs + [NewRegistration(email, phone, section)], section, email, phone) == OpenRegExists
  {
    var regs' := regs + [NewRegistration(email, phone, section)];
    assert SameSubscription(regs'[|regs|], NewRegistration(email, phone, section));
  }

  /**
   * A request is refused as a duplicate only by an unsent registration with the
   * same email, phone and section: once every such registration is sent, or for
   * another section or other contact details, a request with contact info succeeds.
   */
  lemma RegistrationSucceedsWithoutOpenDuplicate(regs: seq<Registration>, section: nat, email: Option<string>, phone: Option<string>)
    requires HasContact(email) || HasContact(phone)
    requires forall j :: 0 <= j < |regs| && SameSubscription(regs[j], NewRegistration(email, phone, section)) ==> regs[j].notificationSent
    ensures RegistrationOutcome(regs, section, email, phone) == Success
  {
  }

  // ---------------------------------------------------------------------------
  // Collecting active registrations

  /** The registration is unsent and its section's course is in the semester. */
  predicate Selected(sections: seq<Section>, r: Registration, semester: string) {
    r.section < |sections| && sections[r.section].semester == semester && !r.notificationSent
  }

  /** The registration is selected and its section's canonical code is `code`. */
  predicate ActiveFor(sections: seq<Section>, r: Registration, code: string, semester: string) {
    Selected(sections, r, semester) && sections[r.section].normalized == code
  }

  /**
   * The ids of the unsent registrations of section `code` in the semester, in
   * ledger order.
   */
  function ActiveRegistrations(sections: seq<Section>, regs: seq<Registration>, code: string, semester: string): (ids: seq<nat>)
    ensures forall i :: i in ids <==> 0 <= i < |regs| && ActiveFor(sections, regs[i], code, semester)
    ensures forall m, n :: 0 <= m < n < |ids| ==> ids[m] < ids[n]
    decreases |regs|
  {
    if |regs| == 0 then []
    else
      var last := |regs| - 1;
      var earlier := ActiveRegistrations(sections, regs[..last], code, semester);
      assert forall i :: 0 <= i < last ==> regs[..last][i] == regs[i];
      assert forall m :: 0 <= m < |earlier| ==> earlier[m] < last by {
        forall m | 0 <= m < |earlier| ensures earlier[m] < last {
          assert earlier[m] in earlier;
        }
      }
      earlier + if ActiveFor(sections, regs[last], code, semester) then [last] else []
  }

  /** Looking one registration further extends a section's active list by that registration or by nothing. */
  lemma ActiveRegistrationsStep(sections: seq<Section>, regs: seq<Registration>, i: nat, code: string, semester: string)
    requires i < |regs|
    ensures ActiveRegistrations(sections, regs[..i + 1], code, semester) ==
      ActiveRegistrations(sections, regs[..i], code, semester) + if ActiveFor(sections, regs[i], code, semester) then [i] else []
  {
    assert regs[..i + 1][..i] == regs[..i];
  }

  // ---------------------------------------------------------------------------
  // Alerting

  /**
   * One alert on the store: unless forced, an already sent registration gets
   * nothing; otherwise both senders are called and the registration is marked
   * sent with the tag.
   */
  function AlertStep(s: Store, id: nat, forced: bool, tag: SentBy): (t: Store)
    requires id < |s.regs|
    ensures |t.regs| == |s.regs|
  {
    if forced || !s.regs[id].notificationSent then
      Store(s.regs[id := Alerted(s.regs[id], tag)], s.deliveries + Notices(id))
    else s
  }

  /**
   * What one alert does: when forced, or when the registration is unsent, it
   * is marked sent with the tag and both senders are called once for it, and
   * nothing else changes; an unforced alert of a sent registration changes
   * nothing and calls no sender.
   */
  lemma AlertStepEffect(s: Store, id: nat, forced: bool, tag: SentBy)
    requires id < |s.regs|
    ensures var t := AlertStep(s, id, forced, tag);
      if forced || !s.regs[id].notificationSent then
        && t.regs[id] == Alerted(s.regs[id], tag)
        && (forall i :: 0 <= i < |s.regs| && i != id ==> t.regs[i] == s.regs[i])
        && multiset(t.deliveries) == multiset(s.deliveries) + multiset{Delivery(Email, id), Delivery(Text, id)}
      else t == s
  {
  }

  /** Alerting each listed registration in turn, never forcing. */
  function FanOut(s: Store, ids: seq<nat>, tag: SentBy): (t: Store)
    requires forall m :: 0 <= m < |ids| ==> ids[m] < |s.regs|
    ensures |t.regs| == |s.regs|
    decreases |ids|
  {
    if |ids| == 0 then s
    else AlertStep(FanOut(s, ids[..|ids| - 1], tag), ids[|ids| - 1], false, tag)
  }

  /**
   * What a fan-out does: each listed registration that was unsent is marked
   * sent with the tag and gets exactly one email and one text; every other
   * registration, in particular every one already sent, is left as it was and
   * gets nothing.
   */
  lemma {:induction false} FanOutEffect(s: Store, ids: seq<nat>, tag: SentBy)
    requires forall m :: 0 <= m < |ids| ==> ids[m] < |s.regs|
    ensures var t := FanOut(s, ids, tag);
      && (forall i :: 0 <= i < |s.regs| ==>
            t.regs[i] == if i in ids && !s.regs[i].notificationSent then Alerted(s.regs[i], tag) else s.regs[i])
      && (forall d :: multiset(t.deliveries)[d] == multiset(s.deliveries)[d] +
            if d.registration in ids && !s.regs[d.registration].notificationSent then 1 else 0)
    decreases |ids|
  {
    if |ids| > 0 {
      var n := |ids| - 1;
      var front, id := ids[..n], ids[n];
      assert ids == front + [id];
      FanOutEffect(s, front, tag);
      var mid := FanOut(s, front, tag);
      var t := FanOut(s, ids, tag);
      assert t == AlertStep(mid, id, false, tag);
      forall i | 0 <= i < |s.regs|
        ensures t.regs[i] == if i in ids && !s.regs[i].notificationSent then Alerted(s.regs[i], tag) else s.regs[i]
      {
        assert i in ids <==> i in front || i == id;
      }
      forall d
        ensures multiset(t.deliveries)[d] == multiset(s.deliveries)[d] +
          if d.registration in ids && !s.regs[d.registration].notificationSent then 1 else 0
      {
        assert d.registration in ids <==> d.registration in front || d.registration == id;
        if !mid.regs[id].notificationSent {
          assert t.deliveries == mid.deliveries + Notices(id);
          assert multiset(t.deliveries)[d] == multiset(mid.deliveries)[d] + multiset(Notices(id))[d];
          if d.registration == id {
            assert id !in front;
            if d.channel == Email {
              assert d == Delivery(Email, id);
            } else {
              assert d == Delivery(Text, id);
            }
            assert multiset(Notices(id))[d] == 1;
          } else {
            assert multiset(Notices(id))[d] == 0;
          }
        } else {
          assert t == mid;
          if d.registration == id && !s.regs[id].notificationSent {
            assert id in front;
          }
        }
      }
    }
  }

  /** A fan-out over registrations that are all sent changes nothing. */
  lemma {:induction false} FanOutOverSentIsQuiet(s: Store, ids: seq<nat>, tag: SentBy)
    requires forall m :: 0 <= m < |ids| ==> ids[m] < |s.regs| && s.regs[ids[m]].notificationSent
    ensures FanOut(s, ids, tag) == s
    decreases |ids|
  {
    if |ids| > 0 {
      FanOutOverSentIsQuiet(s, ids[..|ids| - 1], tag);
    }
  }

  /** Repeating a fan-out (a duplicate dispatch for the same list) has no further effect. */
  lemma FanOutTwiceIsOnce(s: Store, ids: seq<nat>, tag: SentBy)
    requires forall m :: 0 <= m < |ids| ==> ids[m] < |s.regs|
    ensures FanOut(FanOut(s, ids, tag), ids, tag) == FanOut(s, ids, tag)
  {
    var t := FanOut(s, ids, tag);
    FanOutEffect(s, ids, tag);
    forall m | 0 <= m < |ids| ensures t.regs[ids[m]].notificationSent {
      assert ids[m] in ids;
    }
    FanOutOverSentIsQuiet(t, ids, tag);
  }

  // ---------------------------------------------------------------------------
  // Resubscription chains

  /** The registration resubscribed from `id`, if there is one. */
  function SuccessorOf(regs: seq<Registration>, id: nat): (next: Option<nat>)
    ensures next.Some? ==> next.value < |regs| && regs[next.value].resubscribedFrom == Some(id)
    ensures next.None? ==> forall j :: 0 <= j < |regs| ==> regs[j].resubscribedFrom != Some(id)
    decreases |regs|
  {
    if |regs| == 0 then None
    else if regs[|regs| - 1].resubscribedFrom == Some(id) then Some(|regs| - 1)
    else
      var rest := SuccessorOf(regs[..|regs| - 1], id);
      assert forall j :: 0 <= j < |regs| - 1 ==> regs[..|regs| - 1][j] == regs[j];
      rest
  }

  /** Where a resubscription from a registration lands. */
  datatype Resolution =
    | Active(id: nat)       // an unsent registration on the chain, returned as it is
    | Exhausted(tail: nat)  // every registration on the chain is sent; a new one goes after the tail

  /**
   * The forward walk of a resubscription: the registration itself if unsent,
   * otherwise the walk continues at the registration resubscribed from it.
   */
  function Resolve(regs: seq<Registration>, id: nat): (res: Resolution)
    requires LinksBackward(regs) && id < |regs|
    ensures res.Active? ==> id <= res.id < |regs| && !regs[res.id].notificationSent
    ensures res.Exhausted? ==> id <= res.tail < |regs| && regs[res.tail].notificationSent && SuccessorOf(regs, res.tail).None?
    decreases |regs| - id
  {
    if !regs[id].notificationSent then Active(id)
    else match SuccessorOf(regs, id)
      case None => Exhausted(id)
      case Some(next) => Resolve(regs, next)
  }

  /** The forward chain from `id`: each element is resubscribed from the previous one, up to the last. */
  ghost function Chain(regs: seq<Registration>, id: nat): (c: seq<nat>)
    requires LinksBackward(regs) && id < |regs|
    ensures |c| >= 1 && c[0] == id
    ensures forall m :: 0 <= m < |c| ==> c[m] < |regs|
    ensures forall m :: 0 <= m < |c| - 1 ==> regs[c[m + 1]].resubscribedFrom == Some(c[m])
    ensures SuccessorOf(regs, c[|c| - 1]).None?
    decreases |regs| - id
  {
    match SuccessorOf(regs, id)
    case None => [id]
    case Some(next) => [id] + Chain(regs, next)
  }

  /** The first `m` registrations of the chain `c` are all sent. */
  ghost predicate SentUpTo(regs: seq<Registration>, c: seq<nat>, m: nat) {
    forall p :: 0 <= p < m ==> p < |c| && c[p] < |regs| && regs[c[p]].notificationSent
  }

  /**
   * The walk finds the first unsent registration of the forward chain; it
   * reports the chain exhausted exactly when every registration on it is sent,
   * and then names the chain's last registration.
   */
  lemma {:induction false} ResolveIsFirstUnsentOnChain(regs: seq<Registration>, id: nat)
    requires LinksBackward(regs) && id < |regs|
    ensures var c, res := Chain(regs, id), Resolve(regs, id);
      res.Active? ==> exists m :: 0 <= m < |c| && c[m] == res.id && SentUpTo(regs, c, m)
    ensures var c, res := Chain(regs, id), Resolve(regs, id);
      res.Exhausted? ==> res.tail == c[|c| - 1] && SentUpTo(regs, c, |c|)
    decreases |regs| - id
  {
    var c := Chain(regs, id);
    if !regs[id].notificationSent {
      assert Resolve(regs, id) == Active(id);
      assert c[0] == id && SentUpTo(regs, c, 0);
      assert exists m :: 0 <= m < |Chain(regs, id)| && Chain(regs, id)[m] == Resolve(regs, id).id && SentUpTo(regs, Chain(regs, id), m);
    } else if SuccessorOf(regs, id).None? {
      assert c == [id];
    } else {
      var next := SuccessorOf(regs, id).value;
      ResolveIsFirstUnsentOnChain(regs, next);
      var c' := Chain(regs, next);
      assert c == [id] + c';
      assert Resolve(regs, id) == Resolve(regs, next);
      if Resolve(regs, next).Active? {
        var m :| 0 <= m < |c'| && c'[m] == Resolve(regs, next).id && SentUpTo(regs, c', m);
        ChainStep(regs, c, c', id, m);
        assert c[m + 1] == Resolve(regs, id).id;
      } else {
        ChainStep(regs, c, c', id, |c'|);
      }
    }
  }

  /**
   * On a well-formed ledger a chain has at most one active registration, its
   * last: every other registration on it is sent. So the walk of a
   * resubscription from any registration of the chain lands on that last one.
   */
  lemma OnlyLastOfChainActive(regs: seq<Registration>, id: nat)
    requires LinksBackward(regs) && PredecessorsSent(regs) && id < |regs|
    ensures var c := Chain(regs, id); forall m :: 0 <= m < |c| - 1 ==> regs[c[m]].notificationSent
    ensures var c := Chain(regs, id);
      match Resolve(regs, id)
      case Active(k) => k == c[|c| - 1]
      case Exhausted(tail) => tail == c[|c| - 1]
  {
    var c := Chain(regs, id);
    forall m | 0 <= m < |c| - 1 ensures regs[c[m]].notificationSent {
      assert regs[c[m + 1]].resubscribedFrom == Some(c[m]);
    }
    ResolveIsFirstUnsentOnChain(regs, id);
    if Resolve(regs, id).Active? {
      var m :| 0 <= m < |c| && c[m] == Resolve(regs, id).id && SentUpTo(regs, c, m);
      assert m == |c| - 1;
    }
  }

  /** Putting a sent registration in front of a chain extends its sent prefix by one. */
  lemma ChainStep(regs: seq<Registration>, c: seq<nat>, c': seq<nat>, id: nat, m: nat)
    requires id < |regs| && regs[id].notificationSent && c == [id] + c'
    requires m <= |c'| && SentUpTo(regs, c', m)
    ensures SentUpTo(regs, c, m + 1)
    ensures m < |c'| ==> c[m + 1] == c'[m]
  {
    assert forall p :: 1 <= p < |c| ==> c[p] == c'[p - 1];
  }

  /**
   * After a resubscription appended a node to an exhausted chain, resubscribing
   * again from the same registration returns that new node and adds nothing.
   */
  lemma {:induction false} ResolveAfterExtension(regs: seq<Registration>, id: nat, x: Registration)
    requires LinksBackward(regs) && id < |regs| && Resolve(regs, id).Exhausted?
    requires x.resubscribedFrom == Some(Resolve(regs, id).tail) && !x.notificationSent
    ensures LinksBackward(regs + [x])
    ensures Resolve(regs + [x], id) == Active(|regs|)
    decreases |regs| - id
  {
    var regs' := regs + [x];
    var tail := Resolve(regs, id).tail;
    assert regs'[..|regs|] == regs;
    assert forall j :: 0 <= j < |regs| ==> regs'[j] == regs[j];
    if SuccessorOf(regs, id).None? {
      assert tail == id;
      assert SuccessorOf(regs', id) == Some(|regs|);
    } else {
      var next := SuccessorOf(regs, id).value;
      assert SuccessorOf(regs', id) == SuccessorOf(regs, id) by {
        assert x.resubscribedFrom != Some(id);
      }
      ResolveAfterExtension(regs, next, x);
    }
  }

  // ---------------------------------------------------------------------------
  // The ledger

  /** The database tables the alert core reads and writes. */
  class Ledger {
    var sections: seq<Section>
    var regs: seq<Registration>
    var deliveries: seq<Delivery>

    ghost predicate Valid()
      reads this
    {
      WellFormed(sections, regs) && DeliveredAreSent(regs, deliveries)
    }

    /** A ledger with the given sections and no registrations yet. */
    constructor (sections: seq<Section>)
      ensures Valid()
      ensures this.sections == sections && regs == [] && deliveries == []
    {
      this.sections := sections;
      regs := [];
      deliveries := [];
    }

    /**
     * A registration request for a section: refused without contact info,
     * refused while an identical unsent registration exists, otherwise one new
     * unsent registration is created.
     */
    method Register(section: nat, email: Option<string>, phone: Option<string>) returns (status: RegStatus)
      requires Valid() && section < |sections|
      modifies this
      ensures Valid()
      ensures sections == old(sections) && deliveries == old(deliveries)
      ensures status == RegistrationOutcome(old(regs), section, email, phone)
      ensures regs == if status == Success then old(regs) + [NewRegistration(email, phone, section)] else old(regs)
    {
      if !HasContact(email) && !HasContact(phone) {
        return NoContactInfo;
      }
      if HasOpenRegistration(regs, section, email, phone) {
        return OpenRegExists;
      }
      regs := regs + [NewRegistration(email, phone, section)];
      status := Success;
    }

    /**
     * Alerts one registration: unless forced, a registration already sent is
     * not alerted again; otherwise both senders are called and the
     * registration is marked sent by `tag`.
     */
    method Alert(id: nat, forced: bool, tag: SentBy) returns (sent: bool)
      requires Valid() && id < |regs|
      modifies this
      ensures Valid()
      ensures sections == old(sections)
      ensures sent == (forced || !old(regs[id].notificationSent))
      ensures Store(regs, deliveries) == AlertStep(Store(old(regs), old(deliveries)), id, forced, tag)
    {
      sent := forced || !regs[id].notificationSent;
      if sent {
        regs := regs[id := Alerted(regs[id], tag)];
        deliveries := deliveries + Notices(id);
      }
    }

    /** Records the open state that fresh course data reports for a section. */
    method UpsertSection(section: nat, isOpen: bool)
      requires Valid() && section < |sections|
      modifies this
      ensures Valid()
      ensures sections == old(sections)[section := old(sections[section]).(isOpen := isOpen)]
      ensures regs == old(regs) && deliveries == old(deliveries)
    {
      sections := sections[section := sections[section].(isOpen := isOpen)];
    }

    /**
     * Resubscribes from registration `id`: returns it if unsent; otherwise
     * walks forward along the registrations resubscribed from it and returns
     * the first unsent one; if there is none, appends one new registration,
     * resubscribed from the chain's last one, and returns it.
     */
    method Resubscribe(id: nat) returns (current: nat)
      requires Valid() && id < |regs|
      modifies this
      ensures Valid()
      ensures sections == old(sections) && deliveries == old(deliveries)
      ensures current < |regs| && !regs[current].notificationSent && SameSubscription(regs[current], old(regs[id]))
      ensures match Resolve(old(regs), id)
        case Active(k) => current == k && regs == old(regs)
        case Exhausted(tail) =>
          current == |old(regs)| && regs == old(regs) + [Resubscription(old(regs[id]), tail)]
    {
      if !regs[id].notificationSent {
        return id;
      }
      var cur := id;
      var next := SuccessorOf(regs, cur);
      while next.Some?
        invariant cur < |regs| && regs[cur].notificationSent
        invariant Resolve(regs, cur) == Resolve(regs, id)
        invariant SameSubscription(regs[cur], regs[id])
        invariant next == SuccessorOf(regs, cur)
        decreases |regs| - cur
      {
        cur := next.value;
        if !regs[cur].notificationSent {
          return cur;
        }
        next := SuccessorOf(regs, cur);
      }
      var node := Resubscription(regs[id], cur);
      ghost var before := regs;
      current := |regs|;
      regs := regs + [node];
      assert forall j :: 0 <= j < |before| ==> regs[j] == before[j];
      assert forall j :: 0 <= j < |before| ==> before[j].resubscribedFrom != Some(cur);
    }
  }
}
