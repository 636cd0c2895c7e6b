/** Alerts and their per-computer delivery records as values, and what each
    operation of the server does to them (server/store.go, server/api_client.go). */
module Deliveries {
  import opened Text
  import opened Targets
  import opened Validation

  const RESEND_AFTER: Time := 60 * SECOND
  const RECALL_WINDOW: Time := 12 * HOUR
  const MAX_EVENTS: nat := 200
  const MAX_ALERTS_KEPT: nat := 300
  const MAX_ALERTS_DETAILED: nat := 60

  /** What a client may report about an alert. */
  datatype EventKind = Displayed | Acknowledged | Dismissed | TimedOut | Recalled | Unknown(name: string)

  datatype Event = Event(alertID: string, kind: EventKind)

  /** One computer's experience of one alert. `closeReason` is None where the
      server stores the empty string. */
  datatype Delivery = Delivery(
    hostname: string, user: string, sid: string, sentAt: Time,
    displayedAt: Option<Time>, ackedAt: Option<Time>, closedAt: Option<Time>,
    closeReason: Option<EventKind>, recallSent: bool)

  datatype Totals = Totals(sent: nat, displayed: nat, acked: nat)

  datatype Alert = Alert(
    id: string, spec: AlertSpec, rules: seq<Rule>, sender: string, senderName: string,
    createdAt: Time, expiresAt: Time, recalledAt: Option<Time>, recalledBy: string,
    deliveries: Option<map<string, Delivery>>, archived: Option<Totals>)

  function NewAlert(id: string, spec: AlertSpec, rules: seq<Rule>, sender: string, senderName: string, at: Time): Alert {
    Alert(id, spec, rules, sender, senderName, at, at + spec.expiresMinutes * MINUTE, None, "", Some(map[]), None)
  }

  predicate HasRecord(a: Alert, cid: string) {
    a.deliveries.Some? && cid in a.deliveries.value
  }

  function Record(a: Alert, cid: string): Delivery
    requires HasRecord(a, cid)
  {
    a.deliveries.value[cid]
  }

  function WithRecord(a: Alert, cid: string, d: Delivery): Alert
    requires a.deliveries.Some?
  {
    a.(deliveries := Some(a.deliveries.value[cid := d]))
  }

  // ---- receipts ----

  function ApplyEvent(d: Delivery, kind: EventKind, t: Time): Delivery {
    match kind
    case Displayed =>
      if d.displayedAt.None? then d.(displayedAt := Some(t)) else d
    case Acknowledged =>
      var d1 := if d.displayedAt.None? then d.(displayedAt := Some(t)) else d;
      if d1.ackedAt.None? then d1.(ackedAt := Some(t), closedAt := Some(t), closeReason := Some(kind)) else d1
    case Unknown(_) => d
    case _ =>
      if d.closedAt.None? then d.(closedAt := Some(t), closeReason := Some(kind)) else d
  }

  /** The cases in which the server flags the record as changed. */
  predicate Flags(d: Delivery, kind: EventKind) {
    match kind
    case Displayed => d.displayedAt.None?
    case Acknowledged => d.ackedAt.None?
    case Unknown(_) => false
    case _ => d.closedAt.None?
  }

  /** The position of the newest alert called `id`, or -1. */
  function IndexOf(alerts: seq<Alert>, id: string): (i: int)
    ensures -1 <= i < |alerts|
    ensures i >= 0 ==> alerts[i].id == id
    ensures forall j :: i < j < |alerts| ==> alerts[j].id != id
  {
    if alerts == [] then -1
    else if alerts[|alerts| - 1].id == id then |alerts| - 1
    else IndexOf(alerts[..|alerts| - 1], id)
  }

  function ApplyToAlert(a: Alert, cid: string, kind: EventKind, t: Time): Alert {
    if HasRecord(a, cid) then WithRecord(a, cid, ApplyEvent(Record(a, cid), kind, t)) else a
  }

  function ApplyOne(alerts: seq<Alert>, cid: string, ev: Event, t: Time): (r: seq<Alert>)
    ensures |r| == |alerts|
  {
    var i := IndexOf(alerts, ev.alertID);
    if i < 0 then alerts else alerts[i := ApplyToAlert(alerts[i], cid, ev.kind, t)]
  }

  predicate FlagsOne(alerts: seq<Alert>, cid: string, ev: Event) {
    var i := IndexOf(alerts, ev.alertID);
    i >= 0 && HasRecord(alerts[i], cid) && Flags(Record(alerts[i], cid), ev.kind)
  }

  function ApplyBatch(alerts: seq<Alert>, cid: string, events: seq<Event>, t: Time): (r: seq<Alert>)
    ensures |r| == |alerts|
  {
    if events == [] then alerts
    else
      var n := |events| - 1;
      ApplyOne(ApplyBatch(alerts, cid, events[..n], t), cid, events[n], t)
  }

  predicate FlagsBatch(alerts: seq<Alert>, cid: string, events: seq<Event>, t: Time) {
    events != [] &&
    var n := |events| - 1;
    FlagsBatch(alerts, cid, events[..n], t)
    || FlagsOne(ApplyBatch(alerts, cid, events[..n], t), cid, events[n])
  }

  /** The server looks at no more than the first 200 events of a request. */
  function Truncated(events: seq<Event>): seq<Event> {
    if |events| > MAX_EVENTS then events[..MAX_EVENTS] else events
  }

  // ---- what a client is told ----

  datatype Verdict = Silent | SendAlert | TellRecall

  predicate Live(a: Alert, now: Time) {
    a.recalledAt.None? && now <= a.expiresAt
  }

  predicate Matching(lib: Library, a: Alert, c: ClientInfo) {
    AlertMatches(lib, a.spec.target, a.rules, c)
  }

  function Decide(lib: Library, a: Alert, c: ClientInfo, now: Time): Verdict {
    if a.deliveries.None? then Silent
    else
      var known := HasRecord(a, c.id);
      if a.recalledAt.Some? then
        if known && Record(a, c.id).closedAt.None? && !Record(a, c.id).recallSent
           && now - a.recalledAt.value < RECALL_WINDOW
        then TellRecall else Silent
      else if now > a.expiresAt || !Matching(lib, a, c) then Silent
      else if !known then SendAlert
      else
        var d := Record(a, c.id);
        if d.sid == c.sid then
          if d.displayedAt.None? && now - d.sentAt > RESEND_AFTER then SendAlert else Silent
        else
          if d.displayedAt.None? || (a.spec.requireAck && d.ackedAt.None?) then SendAlert else Silent
  }

  function AfterPoll(lib: Library, a: Alert, c: ClientInfo, now: Time): Alert {
    match Decide(lib, a, c, now)
    case Silent => a
    case TellRecall => WithRecord(a, c.id, Record(a, c.id).(recallSent := true))
    case SendAlert =>
      var d := if HasRecord(a, c.id) then Record(a, c.id)
               else Delivery(c.hostname, c.user, c.sid, now, None, None, None, None, false);
      WithRecord(a, c.id, d.(sid := c.sid, sentAt := now))
  }

  function AfterPollAll(lib: Library, alerts: seq<Alert>, c: ClientInfo, now: Time): (r: seq<Alert>)
    ensures |r| == |alerts|
    ensures forall i :: 0 <= i < |alerts| ==> r[i] == AfterPoll(lib, alerts[i], c, now)
  {
    seq(|alerts|, i requires 0 <= i < |alerts| => AfterPoll(lib, alerts[i], c, now))
  }

  /** The alerts a poll is answered with: to send, or to take down. */
  function Chosen(lib: Library, alerts: seq<Alert>, c: ClientInfo, now: Time, verdict: Verdict): seq<string> {
    if alerts == [] then []
    else
      var n := |alerts| - 1;
      Chosen(lib, alerts[..n], c, now, verdict)
      + if Decide(lib, alerts[n], c, now) == verdict then [alerts[n].id] else []
  }

  // ---- recall, history ----

  /** `cid` may still be showing `a` and has not been told that it was recalled. */
  ghost predicate OwesRecall(a: Alert, cid: string, t: Time) {
    && a.recalledAt.Some? && t - a.recalledAt.value < RECALL_WINDOW
    && HasRecord(a, cid) && Record(a, cid).closedAt.None? && !Record(a, cid).recallSent
  }

  function RecallAlert(a: Alert, who: string, at: Time): Alert {
    if a.recalledAt.None? then a.(recalledAt := Some(at), recalledBy := who) else a
  }

  function DisplayedTo(ds: map<string, Delivery>): set<string> {
    set k | k in ds && ds[k].displayedAt.Some?
  }

  function AckedBy(ds: map<string, Delivery>): set<string> {
    set k | k in ds && ds[k].ackedAt.Some?
  }

  function TotalsOf(a: Alert): Totals {
    if a.archived.Some? then a.archived.value
    else if a.deliveries.None? then Totals(0, 0, 0)
    else
      var ds := a.deliveries.value;
      Totals(|ds|, |DisplayedTo(ds)|, |AckedBy(ds)|)
  }

  function Archive(a: Alert, now: Time): Alert {
    if a.archived.None? && !Live(a, now) then a.(archived := Some(TotalsOf(a)), deliveries := None) else a
  }

  function Newest(alerts: seq<Alert>): seq<Alert> {
    if |alerts| > MAX_ALERTS_KEPT then alerts[|alerts| - MAX_ALERTS_KEPT..] else alerts
  }

  function ArchiveOld(alerts: seq<Alert>, now: Time): (r: seq<Alert>)
    ensures |r| == |alerts|
    ensures forall i :: 0 <= i < |alerts| ==>
              r[i] == if i < |alerts| - MAX_ALERTS_DETAILED then Archive(alerts[i], now) else alerts[i]
  {
    seq(|alerts|, i requires 0 <= i < |alerts| =>
      if i < |alerts| - MAX_ALERTS_DETAILED then Archive(alerts[i], now) else alerts[i])
  }

  function Compact(alerts: seq<Alert>, now: Time): seq<Alert> {
    ArchiveOld(Newest(alerts), now)
  }

  // ---- a batch seen from one alert ----

  ghost predicate DistinctIDs(alerts: seq<Alert>) {
    forall i, j :: 0 <= i < j < |alerts| ==> alerts[i].id != alerts[j].id
  }

  /** The events of a batch that concern alert `id`, applied to one record. */
  function ApplyKinds(d: Delivery, id: string, events: seq<Event>, t: Time): Delivery {
    if events == [] then d
    else
      var n := |events| - 1;
      var before := ApplyKinds(d, id, events[..n], t);
      if events[n].alertID == id then ApplyEvent(before, events[n].kind, t) else before
  }

  lemma {:induction false} KindsMeaning(d: Delivery, id: string, events: seq<Event>, t: Time)
    ensures var e := ApplyKinds(d, id, events, t);
            && (e.displayedAt.Some? <==>
                  d.displayedAt.Some? || Event(id, Displayed) in events || Event(id, Acknowledged) in events)
            && (e.ackedAt.Some? <==> d.ackedAt.Some? || Event(id, Acknowledged) in events)
  {
    if events != [] {
      var n := |events| - 1;
      KindsMeaning(d, id, events[..n], t);
      assert forall e :: e in events <==> e in events[..n] || e == events[n];
    }
  }

  function ApplyBatchToAlert(a: Alert, cid: string, events: seq<Event>, t: Time): Alert {
    if HasRecord(a, cid) then WithRecord(a, cid, ApplyKinds(Record(a, cid), a.id, events, t)) else a
  }

  lemma IndexOfDistinct(alerts: seq<Alert>, i: nat)
    requires DistinctIDs(alerts) && i < |alerts|
    ensures IndexOf(alerts, alerts[i].id) == i
  {
  }

  /** With distinct ids a batch touches each alert on its own. */
  lemma {:induction false} ApplyBatchPointwise(alerts: seq<Alert>, cid: string, events: seq<Event>, t: Time)
    requires DistinctIDs(alerts)
    ensures forall i :: 0 <= i < |alerts| ==>
              ApplyBatch(alerts, cid, events, t)[i] == ApplyBatchToAlert(alerts[i], cid, events, t)
    decreases |events|
  {
    if events == [] {
      forall i | 0 <= i < |alerts|
        ensures alerts[i] == ApplyBatchToAlert(alerts[i], cid, events, t)
      {
        if HasRecord(alerts[i], cid) {
          var ds := alerts[i].deliveries.value;
          assert ds[cid := ds[cid]] == ds;
        }
      }
    } else {
      var n := |events| - 1;
      var mid := ApplyBatch(alerts, cid, events[..n], t);
      ApplyBatchPointwise(alerts, cid, events[..n], t);
      assert forall i :: 0 <= i < |alerts| ==> mid[i].id == alerts[i].id;
      forall i | 0 <= i < |alerts|
        ensures ApplyBatch(alerts, cid, events, t)[i] == ApplyBatchToAlert(alerts[i], cid, events, t)
      {
        ApplyOneAt(mid, cid, events[n], t, i);
        if HasRecord(alerts[i], cid) {
          var ds, d1, d2 := alerts[i].deliveries.value, Record(mid[i], cid), ApplyKinds(Record(alerts[i], cid), alerts[i].id, events, t);
          assert ds[cid := d1][cid := d2] == ds[cid := d2];
        }
      }
    }
  }

  lemma ApplyOneAt(alerts: seq<Alert>, cid: string, ev: Event, t: Time, i: nat)
    requires DistinctIDs(alerts) && i < |alerts|
    ensures ApplyOne(alerts, cid, ev, t)[i]
         == if alerts[i].id == ev.alertID then ApplyToAlert(alerts[i], cid, ev.kind, t) else alerts[i]
  {
    if alerts[i].id == ev.alertID {
      IndexOfDistinct(alerts, i);
    }
  }

  // ---- what every record keeps ----

  /** Acknowledged implies displayed and closed for that reason, and a reason is
      recorded exactly when the alert was closed. */
  ghost predicate RecordOK(d: Delivery) {
    && (d.ackedAt.Some? ==> d.displayedAt.Some? && d.closeReason == Some(Acknowledged))
    && (d.closeReason == Some(Acknowledged) ==> d.ackedAt.Some?)
    && (d.closedAt.Some? <==> d.closeReason.Some?)
  }

  /** Time stamps once set stay set, and only an acknowledgement may replace a
      closing reason. */
  ghost predicate RecordAdvances(d: Delivery, e: Delivery) {
    && (d.displayedAt.Some? ==> e.displayedAt == d.displayedAt)
    && (d.ackedAt.Some? ==> e.ackedAt == d.ackedAt && e.closedAt == d.closedAt)
    && (d.closedAt.Some? ==> e.closedAt.Some?)
    && (d.closeReason.Some? ==> e.closeReason == d.closeReason || e.closeReason == Some(Acknowledged))
    && (d.recallSent ==> e.recallSent)
  }

  lemma {:induction false} ApplyKindsKeeps(d: Delivery, id: string, events: seq<Event>, t: Time)
    requires RecordOK(d)
    ensures var e := ApplyKinds(d, id, events, t); RecordOK(e) && RecordAdvances(d, e)
    ensures var e := ApplyKinds(d, id, events, t);
            e.hostname == d.hostname && e.user == d.user && e.sid == d.sid && e.sentAt == d.sentAt
            && e.recallSent == d.recallSent
  {
    if events != [] {
      ApplyKindsKeeps(d, id, events[..|events| - 1], t);
    }
  }

  /** An event that raises no flag changes nothing. The acknowledged branch sets
      the display time without a flag; `RecordOK` is what makes that harmless. */
  lemma UnflaggedIsUnchanged(d: Delivery, kind: EventKind, t: Time)
    requires RecordOK(d)
    ensures Flags(d, kind) <==> ApplyEvent(d, kind, t) != d
  {
  }

  /** Without that invariant a change would go unflagged. */
  lemma UnflaggedChangeExists()
    ensures exists d: Delivery, t :: !Flags(d, Acknowledged) && ApplyEvent(d, Acknowledged, t) != d
  {
    var d := Delivery("", "", "", 0, None, Some(0), Some(0), Some(Acknowledged), false);
    assert !Flags(d, Acknowledged) && ApplyEvent(d, Acknowledged, 1) != d;
  }

  ghost predicate AlertOK(a: Alert) {
    && (a.deliveries.Some? <==> a.archived.None?)
    && (forall cid :: HasRecord(a, cid) ==> RecordOK(Record(a, cid)))
    && TotalsOf(a).acked <= TotalsOf(a).displayed <= TotalsOf(a).sent
    && a.spec.expiresMinutes >= 1
    && a.expiresAt == a.createdAt + a.spec.expiresMinutes * MINUTE
  }

  lemma SubsetSize<T>(a: set<T>, b: set<T>)
    requires a <= b
    ensures |a| <= |b|
  {
    assert b == a + (b - a);
  }

  lemma TotalsOrdered(a: Alert)
    requires a.deliveries.Some? && a.archived.None?
    requires forall cid :: HasRecord(a, cid) ==> RecordOK(Record(a, cid))
    ensures TotalsOf(a).acked <= TotalsOf(a).displayed <= TotalsOf(a).sent
  {
    var ds := a.deliveries.value;
    assert forall k :: k in ds ==> HasRecord(a, k) && Record(a, k) == ds[k];
    SubsetSize(AckedBy(ds), DisplayedTo(ds));
    SubsetSize(DisplayedTo(ds), ds.Keys);
  }

  /** `b` is a later state of the alert `a`. */
  ghost predicate SameOrigin(a: Alert, b: Alert) {
    && a.id == b.id && a.spec == b.spec && a.rules == b.rules && a.sender == b.sender
    && a.senderName == b.senderName && a.createdAt == b.createdAt && a.expiresAt == b.expiresAt
  }

  ghost predicate Advances(a: Alert, b: Alert) {
    && SameOrigin(a, b)
    && (a.recalledAt.Some? ==> b.recalledAt == a.recalledAt && b.recalledBy == a.recalledBy)
    && (a.archived.Some? ==> b.archived == a.archived)
    && (b.deliveries.Some? ==> a.deliveries.Some?)
    && (forall cid :: HasRecord(a, cid) && b.deliveries.Some? ==>
          HasRecord(b, cid) && RecordAdvances(Record(a, cid), Record(b, cid)))
    && TotalsOf(a).sent <= TotalsOf(b).sent
    && TotalsOf(a).displayed <= TotalsOf(b).displayed
    && TotalsOf(a).acked <= TotalsOf(b).acked
  }

  lemma TotalsGrow(a: Alert, b: Alert)
    requires a.deliveries.Some? && b.deliveries.Some? && a.archived.None? && b.archived.None?
    requires forall cid :: HasRecord(a, cid) ==> HasRecord(b, cid) && RecordAdvances(Record(a, cid), Record(b, cid))
    ensures TotalsOf(a).sent <= TotalsOf(b).sent
    ensures TotalsOf(a).displayed <= TotalsOf(b).displayed
    ensures TotalsOf(a).acked <= TotalsOf(b).acked
  {
    var ds, es := a.deliveries.value, b.deliveries.value;
    assert forall k :: k in ds ==> HasRecord(a, k) && Record(a, k) == ds[k];
    assert forall k :: k in ds ==> k in es && RecordAdvances(ds[k], es[k]);
    SubsetSize(ds.Keys, es.Keys);
    SubsetSize(DisplayedTo(ds), DisplayedTo(es));
    SubsetSize(AckedBy(ds), AckedBy(es));
  }

  /** Changing one record to a later state of itself, or adding one, is progress. */
  lemma RecordStep(a: Alert, cid: string, d: Delivery)
    requires AlertOK(a) && a.deliveries.Some? && RecordOK(d)
    requires HasRecord(a, cid) ==> RecordAdvances(Record(a, cid), d)
    ensures AlertOK(WithRecord(a, cid, d)) && Advances(a, WithRecord(a, cid, d))
  {
    var b := WithRecord(a, cid, d);
    forall k | HasRecord(b, k) ensures RecordOK(Record(b, k)) {
      assert k != cid ==> HasRecord(a, k) && Record(a, k) == Record(b, k);
    }
    TotalsOrdered(b);
    TotalsGrow(a, b);
  }

  /** What a poll writes: a send stamps the computer's record with its session and the
      time, and opens the record, under its host and user, if there was none; a told
      recall sets the mark; and no other record changes. */
  lemma PollWrites(lib: Library, a: Alert, c: ClientInfo, now: Time)
    ensures var b, v := AfterPoll(lib, a, c, now), Decide(lib, a, c, now);
            && (v == Silent ==> b == a)
            && b == a.(deliveries := b.deliveries)
            && (forall id :: id != c.id ==> (HasRecord(b, id) <==> HasRecord(a, id)))
            && (forall id :: id != c.id && HasRecord(a, id) ==> Record(b, id) == Record(a, id))
            && (v != Silent ==> HasRecord(b, c.id))
            && (v == TellRecall ==> HasRecord(a, c.id) && Record(b, c.id) == Record(a, c.id).(recallSent := true))
            && (v == SendAlert ==>
                  var d := Record(b, c.id);
                  && d.sid == c.sid && d.sentAt == now
                  && (HasRecord(a, c.id) ==> d == Record(a, c.id).(sid := d.sid, sentAt := d.sentAt))
                  && (!HasRecord(a, c.id) ==>
                        && d.hostname == c.hostname && d.user == c.user && !d.recallSent
                        && d.displayedAt.None? && d.ackedAt.None? && d.closedAt.None? && d.closeReason.None?))
  {
    hide Matching;
  }

  lemma AfterPollKeeps(lib: Library, a: Alert, c: ClientInfo, now: Time)
    requires AlertOK(a)
    ensures AlertOK(AfterPoll(lib, a, c, now)) && Advances(a, AfterPoll(lib, a, c, now))
  {
    hide RuleMatches;
    if Decide(lib, a, c, now) != Silent {
      RecordStep(a, c.id, Record(AfterPoll(lib, a, c, now), c.id));
    }
  }

  lemma ApplyBatchToAlertKeeps(a: Alert, cid: string, events: seq<Event>, t: Time)
    requires AlertOK(a)
    ensures AlertOK(ApplyBatchToAlert(a, cid, events, t)) && Advances(a, ApplyBatchToAlert(a, cid, events, t))
  {
    if HasRecord(a, cid) {
      ApplyKindsKeeps(Record(a, cid), a.id, events, t);
      RecordStep(a, cid, ApplyKinds(Record(a, cid), a.id, events, t));
    }
  }

  /** Archiving loses no total. */
  lemma ArchiveKeeps(a: Alert, now: Time)
    requires AlertOK(a)
    ensures AlertOK(Archive(a, now)) && Advances(a, Archive(a, now))
    ensures TotalsOf(Archive(a, now)) == TotalsOf(a)
  {
  }

  lemma NewAlertOK(id: string, spec: AlertSpec, rules: seq<Rule>, sender: string, senderName: string, at: Time)
    requires spec.expiresMinutes >= 1
    ensures AlertOK(NewAlert(id, spec, rules, sender, senderName, at))
  {
    var a := NewAlert(id, spec, rules, sender, senderName, at);
    TotalsOrdered(a);
  }
}
