/** The store as objects: the methods of server/store.go and server/api_client.go
    that change it, each proved to be the matching step of `Runs`. */
module Store {
  import opened Text
  import opened Targets
  import opened Validation
  import opened Deliveries
  import opened Runs
  import Sending

  const CLIENT_FORGET_AFTER: Time := 45 * 24 * HOUR

  class AlertObject {
    const id: string
    const spec: AlertSpec
    const rules: seq<Rule>
    const sender: string
    const senderName: string
    const createdAt: Time
    const expiresAt: Time
    var recalledAt: Option<Time>
    var recalledBy: string
    var deliveries: Option<map<string, Delivery>>
    var archived: Option<Totals>

    ghost function Value(): Alert
      reads this
    {
      Alert(id, spec, rules, sender, senderName, createdAt, expiresAt, recalledAt, recalledBy, deliveries, archived)
    }

    constructor (id: string, spec: AlertSpec, rules: seq<Rule>, sender: string, senderName: string, at: Time)
      ensures Value() == NewAlert(id, spec, rules, sender, senderName, at)
    {
      this.id, this.spec, this.rules, this.sender, this.senderName := id, spec, rules, sender, senderName;
      createdAt, expiresAt := at, at + spec.expiresMinutes * MINUTE;
      recalledAt, recalledBy, deliveries, archived := None, "", Some(map[]), None;
    }

    /** `Alert.totals`, counting over the records. */
    method CountTotals() returns (t: Totals)
      ensures t == TotalsOf(Value())
    {
      if archived.Some? {
        return archived.value;
      }
      if deliveries.None? {
        return Totals(0, 0, 0);
      }
      t := CountRecords(deliveries.value);
    }

    static method CountRecords(ds: map<string, Delivery>) returns (t: Totals)
      ensures t == Totals(|ds|, |DisplayedTo(ds)|, |AckedBy(ds)|)
    {
      hide DisplayedTo, AckedBy, Counted;
      CountedNone(ds);
      var shown, acked := 0, 0;
      var left := ds.Keys;
      ghost var done: set<string> := {};
      while left != {}
        invariant done == ds.Keys - left && left <= ds.Keys
        invariant Counted(ds, done, shown, acked)
        decreases left
      {
        var k :| k in left;
        CountedNext(ds, done, k, shown, acked);
        shown := shown + if ds[k].displayedAt.Some? then 1 else 0;
        acked := acked + if ds[k].ackedAt.Some? then 1 else 0;
        left, done := left - {k}, done + {k};
      }
      CountedAll(ds, done, shown, acked);
      t := Totals(|ds|, shown, acked);
    }

    /** `Alert.status` is "active". */
    predicate Active(now: Time)
      reads this
      ensures Active(now) == Live(Value(), now)
    {
      recalledAt.None? && now <= expiresAt
    }
  }

  /** The counts so far, over the records `done`. */
  ghost predicate Counted(ds: map<string, Delivery>, done: set<string>, shown: nat, acked: nat) {
    shown == |DisplayedTo(ds) * done| && acked == |AckedBy(ds) * done|
  }

  lemma CountedNone(ds: map<string, Delivery>)
    ensures Counted(ds, {}, 0, 0)
  {
    assert DisplayedTo(ds) * {} == {} && AckedBy(ds) * {} == {};
  }

  lemma CountedNext(ds: map<string, Delivery>, done: set<string>, k: string, shown: nat, acked: nat)
    requires Counted(ds, done, shown, acked) && k !in done && k in ds
    ensures Counted(ds, done + {k}, shown + if ds[k].displayedAt.Some? then 1 else 0,
                    acked + if ds[k].ackedAt.Some? then 1 else 0)
  {
    CountOne(DisplayedTo(ds), done, k);
    CountOne(AckedBy(ds), done, k);
  }

  lemma CountedAll(ds: map<string, Delivery>, done: set<string>, shown: nat, acked: nat)
    requires Counted(ds, done, shown, acked) && done == ds.Keys
    ensures shown == |DisplayedTo(ds)| && acked == |AckedBy(ds)|
  {
    assert DisplayedTo(ds) * done == DisplayedTo(ds) && AckedBy(ds) * done == AckedBy(ds);
  }

  lemma ChosenNext(lib: Library, alerts: seq<Alert>, c: ClientInfo, now: Time, i: nat, v: Verdict)
    requires i < |alerts|
    ensures Chosen(lib, alerts[..i + 1], c, now, v)
         == Chosen(lib, alerts[..i], c, now, v) + if Decide(lib, alerts[i], c, now) == v then [alerts[i].id] else []
  {
    hide Decide;
    assert alerts[..i + 1][..i] == alerts[..i];
  }

  lemma ChosenFromNothing(lib: Library, alerts: seq<Alert>, c: ClientInfo, now: Time)
    ensures forall v :: Chosen(lib, alerts[..0], c, now, v) == []
  {
  }

  lemma Polled(lib: Library, w: World, c: ClientInfo)
    ensures var w' := Step(lib, true, w, Poll(c));
            && w'.alerts == AfterPollAll(lib, w.alerts, c, w.now) && w'.saved == w.saved
            && w'.dirty == (w.dirty || Chosen(lib, w.alerts, c, w.now, SendAlert) != []
                            || Chosen(lib, w.alerts, c, w.now, TellRecall) != [])
  {
    hide Decide, AfterPoll, Chosen;
  }

  lemma IndexIff(alerts: seq<Alert>, id: string)
    ensures IndexOf(alerts, id) < 0 <==> forall a :: a in alerts ==> a.id != id
  {
    var i := IndexOf(alerts, id);
    if i >= 0 {
      assert alerts[i] in alerts;
    }
  }

  /** How a recall is answered. */
  datatype RecallAnswer = NoSuchAlert | NotYours | TakenBack

  class Store {
    const lib: Library
    var alerts: seq<AlertObject>
    var clients: map<string, ClientInfo>
    var dirtyAlerts: bool
    var dirtyClients: bool
    /** What the last flush marshalled. */
    ghost var saved: seq<Alert>

    ghost predicate Valid()
      reads this
    {
      forall i, j :: 0 <= i < j < |alerts| ==> alerts[i] != alerts[j]
    }

    ghost function Values(): (r: seq<Alert>)
      reads this, alerts
      ensures |r| == |alerts|
      ensures forall i :: 0 <= i < |alerts| ==> r[i] == alerts[i].Value()
    {
      seq(|alerts|, i requires 0 <= i < |alerts| reads this, alerts => alerts[i].Value())
    }

    /** The store holds the alerts of `w`. */
    ghost predicate Shows(w: World)
      reads this, alerts
    {
      Valid() && Values() == w.alerts && dirtyAlerts == w.dirty && saved == w.saved
    }

    constructor (lib: Library)
      ensures this.lib == lib && clients == map[] && alerts == []
      ensures forall now :: Shows(Start(now))
    {
      this.lib := lib;
      alerts, clients, dirtyAlerts, dirtyClients, saved := [], map[], false, false, [];
    }

    /** `alertByID`, searching from the newest. */
    method AlertByID(id: string) returns (i: int)
      ensures i == IndexOf(Values(), id)
    {
      i := |alerts| - 1;
      assert Values()[..|alerts|] == Values();
      while i >= 0 && alerts[i].id != id
        invariant -1 <= i < |alerts|
        invariant IndexOf(Values(), id) == IndexOf(Values()[..i + 1], id)
      {
        assert Values()[..i + 1][..i] == Values()[..i];
        i := i - 1;
      }
    }

    method AddAlert(id: string, spec: AlertSpec, rules: seq<Rule>, sender: string, senderName: string, created: Time, ghost w: World)
      requires Shows(w)
      modifies this
      ensures Shows(Step(lib, true, w, Send(id, spec, rules, sender, senderName, created)))
      ensures |alerts| == |old(alerts)| + 1 && alerts[..|old(alerts)|] == old(alerts) && fresh(alerts[|old(alerts)|])
    {
      var a := new AlertObject(id, spec, rules, sender, senderName, created);
      alerts := alerts + [a];
      dirtyAlerts := true;
      assert Values() == w.alerts + [NewAlert(id, spec, rules, sender, senderName, created)];
    }

    /** `handleRecallAlert`, for a caller who may be an administrator. */
    method RecallAlert(id: string, who: string, admin: bool, at: Time, ghost w: World) returns (answer: RecallAnswer)
      requires Shows(w)
      modifies this`dirtyAlerts, alerts
      ensures Shows(Step(lib, true, w, Recall(id, who, admin, at)))
      ensures answer == NoSuchAlert <==> forall a :: a in w.alerts ==> a.id != id
      ensures answer == TakenBack ==> exists a :: a in w.alerts && a.id == id && (admin || a.sender == who)
      ensures answer == NotYours ==> !admin && exists a :: a in w.alerts && a.id == id && a.sender != who
    {
      hide RecallIn, Chosen, ApplyBatch, FlagsBatch, AfterFlush, AfterPollAll;
      IndexIff(w.alerts, id);
      hide IndexOf;
      answer := MarkRecalled(id, who, admin, at);
    }

    method MarkRecalled(id: string, who: string, admin: bool, at: Time) returns (answer: RecallAnswer)
      requires Valid()
      modifies this`dirtyAlerts, alerts
      ensures var i := IndexOf(old(Values()), id);
              answer == if i < 0 then NoSuchAlert
                        else if admin || old(Values())[i].sender == who then TakenBack else NotYours
      ensures Values() == RecallIn(old(Values()), id, who, admin, at)
      ensures dirtyAlerts == (old(dirtyAlerts) || Values() != old(Values()))
    {
      hide IndexOf;
      var i := AlertByID(id);
      ghost var before := Values();
      if i < 0 {
        return NoSuchAlert;
      }
      if !admin && alerts[i].sender != who {
        return NotYours;
      }
      var a := alerts[i];
      assert before[i := before[i]] == before;
      if a.recalledAt.None? {
        a.recalledAt := Some(at);
        a.recalledBy := who;
        dirtyAlerts := true;
        assert Values() == before[i := Deliveries.RecallAlert(before[i], who, at)];
        assert Values()[i].recalledAt != before[i].recalledAt;
      }
      return TakenBack;
    }

    /** `applyEvents`. */
    method ApplyEvents(cid: string, reported: seq<Event>, at: Time, ghost w: World) returns (changed: bool)
      requires Shows(w)
      modifies this`dirtyAlerts, alerts
      ensures Shows(Step(lib, true, w, Report(cid, reported, at)))
      ensures changed == FlagsBatch(w.alerts, cid, Truncated(reported), at)
    {
      hide ApplyBatch, FlagsBatch, AfterFlush, RecallIn, Chosen, AfterPollAll;
      var events := reported;
      if |events| > MAX_EVENTS {
        events := events[..MAX_EVENTS];
      }
      changed := ApplyInTurn(cid, events, at);
      if changed {
        dirtyAlerts := true;
      }
    }

    /** The loop of `applyEvents`. */
    method ApplyInTurn(cid: string, events: seq<Event>, at: Time) returns (changed: bool)
      requires Valid()
      modifies alerts
      ensures Values() == ApplyBatch(old(Values()), cid, events, at)
      ensures changed == FlagsBatch(old(Values()), cid, events, at)
    {
      hide ApplyOne, FlagsOne;
      changed := false;
      for n := 0 to |events|
        invariant Values() == ApplyBatch(old(Values()), cid, events[..n], at)
        invariant changed == FlagsBatch(old(Values()), cid, events[..n], at)
      {
        assert events[..n + 1][..n] == events[..n];
        var flagged := ApplyEvent(cid, events[n], at);
        changed := changed || flagged;
      }
      assert events[..|events|] == events;
    }

    /** The body of the loop of `applyEvents`. */
    method ApplyEvent(cid: string, ev: Event, at: Time) returns (flagged: bool)
      requires Valid()
      modifies alerts
      ensures Values() == ApplyOne(old(Values()), cid, ev, at)
      ensures flagged == FlagsOne(old(Values()), cid, ev)
    {
      var i := AlertByID(ev.alertID);
      if i < 0 || alerts[i].deliveries.None? || cid !in alerts[i].deliveries.value {
        assert i >= 0 ==> Values()[i := Values()[i]] == Values();
        return false;
      }
      var a := alerts[i];
      ghost var before := Values();
      var d := a.deliveries.value[cid];
      flagged := Flags(d, ev.kind);
      a.deliveries := Some(a.deliveries.value[cid := Deliveries.ApplyEvent(d, ev.kind, at)]);
      assert Values() == before[i := ApplyToAlert(before[i], cid, ev.kind, at)];
    }

    /** `pendingFor`. */
    method PendingFor(c: ClientInfo, now: Time, ghost w: World) returns (send: seq<string>, recalled: seq<string>)
      requires Shows(w) && now == w.now
      modifies this`dirtyAlerts, alerts
      ensures send == Chosen(lib, w.alerts, c, w.now, SendAlert)
      ensures recalled == Chosen(lib, w.alerts, c, w.now, TellRecall)
      ensures Shows(Step(lib, true, w, Poll(c)))
    {
      hide Decide, AfterPoll, Step, Chosen;
      send, recalled := PollAll(c, now);
      Polled(lib, w, c);
    }

    /** The loop of `pendingFor`. */
    method PollAll(c: ClientInfo, now: Time) returns (send: seq<string>, recalled: seq<string>)
      requires Valid()
      modifies this`dirtyAlerts, alerts
      ensures Values() == AfterPollAll(lib, old(Values()), c, now)
      ensures send == Chosen(lib, old(Values()), c, now, SendAlert)
      ensures recalled == Chosen(lib, old(Values()), c, now, TellRecall)
      ensures dirtyAlerts == (old(dirtyAlerts) || send != [] || recalled != [])
    {
      hide Decide, AfterPoll, AfterPollAll, Chosen;
      ghost var was := Values();
      ChosenFromNothing(lib, was, c, now);
      send, recalled := [], [];
      for i := 0 to |alerts|
        invariant forall k :: 0 <= k < i ==> alerts[k].Value() == AfterPoll(lib, was[k], c, now)
        invariant forall k :: i <= k < |alerts| ==> alerts[k].Value() == was[k]
        invariant send == Chosen(lib, was[..i], c, now, SendAlert)
        invariant recalled == Chosen(lib, was[..i], c, now, TellRecall)
        invariant dirtyAlerts == (old(dirtyAlerts) || send != [] || recalled != [])
      {
        ChosenNext(lib, was, c, now, i, SendAlert);
        ChosenNext(lib, was, c, now, i, TellRecall);
        var verdict := PendingAlert(alerts[i], c, now);
        if verdict == SendAlert {
          send := send + [alerts[i].id];
          dirtyAlerts := true;
        } else if verdict == TellRecall {
          recalled := recalled + [alerts[i].id];
          dirtyAlerts := true;
        }
      }
      assert was[..|alerts|] == was;
      assert Values() == AfterPollAll(lib, was, c, now);
    }

    /** The body of the loop of `pendingFor`. */
    method PendingAlert(a: AlertObject, c: ClientInfo, now: Time) returns (verdict: Verdict)
      modifies a`deliveries
      ensures verdict == Decide(lib, old(a.Value()), c, now)
      ensures a.Value() == AfterPoll(lib, old(a.Value()), c, now)
    {
      hide AlertMatches;
      if a.deliveries.None? {
        return Silent;
      }
      var ds := a.deliveries.value;
      var known := c.id in ds;
      if a.recalledAt.Some? {
        if known && ds[c.id].closedAt.None? && !ds[c.id].recallSent && now - a.recalledAt.value < RECALL_WINDOW {
          a.deliveries := Some(ds[c.id := ds[c.id].(recallSent := true)]);
          return TellRecall;
        }
        return Silent;
      }
      var matched := Sending.Hit(lib, c, a.spec.target, a.rules);
      if now > a.expiresAt || !matched {
        return Silent;
      }
      var send := false;
      if !known {
        send := true;
      } else if ds[c.id].sid == c.sid {
        // the same client process: only if it never confirmed that it displayed the alert
        send := ds[c.id].displayedAt.None? && now - ds[c.id].sentAt > RESEND_AFTER;
      } else {
        // the client restarted: if never seen, or still to be acknowledged
        send := ds[c.id].displayedAt.None? || (a.spec.requireAck && ds[c.id].ackedAt.None?);
      }
      if !send {
        return Silent;
      }
      var d := if known then ds[c.id] else Delivery(c.hostname, c.user, "", now, None, None, None, None, false);
      a.deliveries := Some(ds[c.id := d.(sid := c.sid, sentAt := now)]);
      return SendAlert;
    }

    /** `compactLocked`, the alerts half. */
    method CompactAlerts(now: Time)
      requires Valid()
      modifies this`alerts, alerts
      ensures Valid() && Values() == Compact(old(Values()), now)
      ensures forall a :: a in alerts ==> a in old(alerts)
    {
      hide ArchiveOld;
      var n := |alerts|;
      if n > MAX_ALERTS_KEPT {
        alerts := alerts[n - MAX_ALERTS_KEPT..];
      }
      assert Values() == Newest(old(Values()));
      ArchiveAll(now);
    }

    /** The loop of `compactLocked`: the newest 60 keep their records. */
    method ArchiveAll(now: Time)
      requires Valid()
      modifies alerts
      ensures Values() == ArchiveOld(old(Values()), now)
    {
      hide Archive;
      ghost var kept := Values();
      var cut := |alerts| - MAX_ALERTS_DETAILED;
      for i := 0 to |alerts|
        invariant forall k :: 0 <= k < i ==>
          alerts[k].Value() == if k < cut then Archive(kept[k], now) else kept[k]
        invariant forall k :: i <= k < |alerts| ==> alerts[k].Value() == kept[k]
      {
        if i >= cut {
          break;
        }
        ArchiveOne(alerts[i], now);
      }
      assert Values() == ArchiveOld(kept, now);
    }

    method ArchiveOne(a: AlertObject, now: Time)
      modifies a
      ensures a.Value() == Archive(old(a.Value()), now)
    {
      var active := a.Active(now);
      if a.archived.None? && !active {
        var t := a.CountTotals();
        a.archived := Some(t);
        a.deliveries := None;
      }
    }

    /** The alerts half of `flush`: compact, snapshot, clear the flag. */
    method Flush(ghost w: World, now: Time)
      requires Shows(w) && now == w.now
      modifies this, alerts
      ensures Shows(Step(lib, true, w, Runs.Flush))
      ensures forall a :: a in alerts ==> a in old(alerts)
    {
      hide Compact;
      if dirtyAlerts {
        CompactAlerts(now);
        ForgetClients(now);
        saved := Values();
        dirtyAlerts := false;
      }
    }

    /** `compactLocked`, the clients half: a client is forgotten exactly when no
        poll of it is held open and it was last seen more than 45 days ago. */
    method ForgetClients(now: Time)
      modifies this`clients, this`dirtyClients
      ensures forall id :: id in clients <==>
                id in old(clients)
                && (old(clients)[id].polling > 0 || now - old(clients)[id].lastSeen <= CLIENT_FORGET_AFTER)
      ensures forall id :: id in clients ==> clients[id] == old(clients)[id]
      ensures dirtyClients == (old(dirtyClients) || clients != old(clients))
    {
      var left := clients.Keys;
      ghost var was := clients;
      while left != {}
        invariant left <= clients.Keys <= was.Keys
        invariant forall id :: id in clients ==> clients[id] == was[id]
        invariant forall id :: id in was && id !in left ==>
          (id in clients <==> was[id].polling > 0 || now - was[id].lastSeen <= CLIENT_FORGET_AFTER)
        invariant dirtyClients == (old(dirtyClients) || clients != was)
        decreases |left|
      {
        var id :| id in left;
        var c := clients[id];
        if c.polling == 0 && now - c.lastSeen > CLIENT_FORGET_AFTER {
          clients := clients - {id};
          dirtyClients := true;
          assert id in was && id !in clients;
        }
        left := left - {id};
      }
    }
  }
}
