/** What a computer is and is not told over a whole run of the server. The runs
    are looked at one alert and one computer at a time. */
module Promises {
  import opened Text
  import opened Targets
  import opened Deliveries
  import opened Runs

  /** The alert called `id`, as `alertByID` finds it. */
  function Find(alerts: seq<Alert>, id: string): (r: Option<Alert>)
    ensures r.Some? ==> r.value.id == id && r.value in alerts
  {
    var i := IndexOf(alerts, id);
    if i < 0 then None else Some(alerts[i])
  }

  /** When alert `id` was sent to computer `cid`. */
  function SentTimes(sends: seq<SendEntry>, id: string, cid: string): seq<Time> {
    if sends == [] then []
    else
      var e := sends[|sends| - 1];
      SentTimes(sends[..|sends| - 1], id, cid) + if e.alertID == id && e.cid == cid then [e.time] else []
  }

  /** When computer `cid` was told that alert `id` was recalled. */
  function ToldTimes(told: seq<ToldEntry>, id: string, cid: string): seq<Time> {
    if told == [] then []
    else
      var e := told[|told| - 1];
      ToldTimes(told[..|told| - 1], id, cid) + if e.alertID == id && e.cid == cid then [e.time] else []
  }

  lemma {:induction false} SentTimesAppend(s: seq<SendEntry>, ids: seq<string>, client: string, now: Time, id: string, cid: string)
    requires forall p, q :: 0 <= p < q < |ids| ==> ids[p] != ids[q]
    ensures SentTimes(s + SendEntries(ids, client, now), id, cid)
         == SentTimes(s, id, cid) + if client == cid && id in ids then [now] else []
    decreases |ids|
  {
    var es := SendEntries(ids, client, now);
    if ids == [] {
      assert s + es == s;
    } else {
      var n := |ids| - 1;
      assert (s + es)[..|s + es| - 1] == s + SendEntries(ids[..n], client, now);
      assert ids == ids[..n] + [ids[n]];
      SentTimesAppend(s, ids[..n], client, now, id, cid);
    }
  }

  lemma {:induction false} ToldTimesAppend(s: seq<ToldEntry>, ids: seq<string>, client: string, now: Time, id: string, cid: string)
    requires forall p, q :: 0 <= p < q < |ids| ==> ids[p] != ids[q]
    ensures ToldTimes(s + ToldEntries(ids, client, now), id, cid)
         == ToldTimes(s, id, cid) + if client == cid && id in ids then [now] else []
    decreases |ids|
  {
    var es := ToldEntries(ids, client, now);
    if ids == [] {
      assert s + es == s;
    } else {
      var n := |ids| - 1;
      assert (s + es)[..|s + es| - 1] == s + ToldEntries(ids[..n], client, now);
      assert ids == ids[..n] + [ids[n]];
      ToldTimesAppend(s, ids[..n], client, now, id, cid);
    }
  }

  // ---- the answers of one poll ----

  lemma {:induction false} ChosenMember(lib: Library, alerts: seq<Alert>, c: ClientInfo, now: Time, v: Verdict, id: string)
    requires DistinctIDs(alerts)
    ensures id in Chosen(lib, alerts, c, now, v)
       <==> Find(alerts, id).Some? && Decide(lib, Find(alerts, id).value, c, now) == v
  {
    hide Decide;
    if alerts != [] {
      ChosenMember(lib, alerts[..|alerts| - 1], c, now, v, id);
    }
  }

  /** A poll is answered in the order of the history. */
  lemma {:induction false} ChosenConcat(lib: Library, a: seq<Alert>, b: seq<Alert>, c: ClientInfo, now: Time, v: Verdict)
    ensures Chosen(lib, a + b, c, now, v) == Chosen(lib, a, c, now, v) + Chosen(lib, b, c, now, v)
    decreases |b|
  {
    hide Decide;
    if b == [] {
      assert a + b == a;
    } else {
      assert (a + b)[..|a + b| - 1] == a + b[..|b| - 1];
      ChosenConcat(lib, a, b[..|b| - 1], c, now, v);
    }
  }

  lemma {:induction false} ChosenDistinct(lib: Library, alerts: seq<Alert>, c: ClientInfo, now: Time, v: Verdict)
    requires DistinctIDs(alerts)
    ensures var ids := Chosen(lib, alerts, c, now, v);
            forall p, q :: 0 <= p < q < |ids| ==> ids[p] != ids[q]
  {
    hide Decide;
    if alerts != [] {
      var n := |alerts| - 1;
      ChosenDistinct(lib, alerts[..n], c, now, v);
      ChosenMember(lib, alerts[..n], c, now, v, alerts[n].id);
      assert Find(alerts[..n], alerts[n].id).None?;
    }
  }

  // ---- one operation, seen from one alert and one computer ----

  /** The operation is a poll of `cid` at which alert `x` draws verdict `v`. */
  ghost predicate Draws(lib: Library, w: World, op: Op, x: Option<Alert>, cid: string, v: Verdict) {
    op.Poll? && op.client.id == cid && x.Some? && Decide(lib, x.value, op.client, w.now) == v
  }

  lemma FindAt(alerts: seq<Alert>, i: nat)
    requires DistinctIDs(alerts) && i < |alerts|
    ensures Find(alerts, alerts[i].id) == Some(alerts[i])
  {
    IndexOfDistinct(alerts, i);
  }

  lemma FindInHistory(w: World, id: string)
    requires WorldOK(w)
    ensures var x := Find(w.alerts, id); var h := Find(w.history, id);
            x.Some? ==> h.Some? && SameOrigin(h.value, x.value) && AlertOK(x.value)
  {
    hide AlertOK;
    var i := IndexOf(w.alerts, id);
    if i >= 0 {
      var j := |w.history| - |w.alerts| + i;
      assert SameOrigin(w.history[j], w.alerts[i]);
      FindAt(w.history, j);
    }
  }

  lemma FoundOK(w: World, id: string)
    requires WorldOK(w) && Find(w.alerts, id).Some?
    ensures AlertOK(Find(w.alerts, id).value)
  {
  }

  lemma FindStep(lib: Library, archiving: bool, w: World, op: Op, id: string)
    requires WorldOK(w) && Legal(w, op)
    ensures var w' := Step(lib, archiving, w, op);
            var x, y := Find(w.alerts, id), Find(w'.alerts, id);
            && (x.Some? && y.Some? ==> Evolves(lib, op, w.now, x.value, y.value))
            && (x.None? && y.Some? ==>
                 (op.Send? && op.id == id && Find(w.history, id).None?
                  && y.value == NewAlert(id, op.spec, op.rules, op.sender, op.senderName, op.created)))
  {
    hide AlertOK, Evolves, NewAlert, WorldOK, Step;
    var w' := Step(lib, archiving, w, op);
    DistinctAlerts(w);
    StepKeepsOK(lib, archiving, w, op);
    DistinctAlerts(w');
    StepAlerts(lib, archiving, w, op);
    var i, k := IndexOf(w'.alerts, id), Dropped(w, op);
    hide Dropped;
    if i >= 0 && i < |w.alerts| - k {
      EvolvesSameID(lib, op, w.now, w.alerts[i + k], w'.alerts[i]);
      FindAt(w.alerts, i + k);
    } else if i >= 0 {
      FindInHistory(w, id);
      NewAlertID(op);
    }
  }

  lemma EvolvesSameID(lib: Library, op: Op, now: Time, a: Alert, b: Alert)
    requires Evolves(lib, op, now, a, b)
    ensures a.id == b.id
  {
    hide Decide;
  }

  lemma ReportFinds(lib: Library, archiving: bool, w: World, op: Op, i: nat)
    requires WorldOK(w) && i < |w.alerts| && op.Report?
    ensures Find(Step(lib, archiving, w, op).alerts, w.alerts[i].id).Some?
  {
    hide Step, Evolves, AlertOK;
    DistinctAlerts(w);
    StepAlerts(lib, archiving, w, op);
    EvolvesSameID(lib, op, w.now, w.alerts[i], Step(lib, archiving, w, op).alerts[i]);
  }

  lemma LogStep(lib: Library, archiving: bool, w: World, op: Op, id: string, cid: string)
    requires WorldOK(w)
    ensures var w' := Step(lib, archiving, w, op); var x := Find(w.alerts, id);
            && SentTimes(w'.sends, id, cid)
               == SentTimes(w.sends, id, cid) + (if Draws(lib, w, op, x, cid, SendAlert) then [w.now] else [])
            && ToldTimes(w'.told, id, cid)
               == ToldTimes(w.told, id, cid) + (if Draws(lib, w, op, x, cid, TellRecall) then [w.now] else [])
  {
    hide Decide, Compact, AfterPollAll, ApplyBatch, FlagsBatch;
    DistinctAlerts(w);
    if op.Poll? {
      var c := op.client;
      var sent, told := Chosen(lib, w.alerts, c, w.now, SendAlert), Chosen(lib, w.alerts, c, w.now, TellRecall);
      ChosenDistinct(lib, w.alerts, c, w.now, SendAlert);
      ChosenDistinct(lib, w.alerts, c, w.now, TellRecall);
      ChosenMember(lib, w.alerts, c, w.now, SendAlert, id);
      ChosenMember(lib, w.alerts, c, w.now, TellRecall, id);
      SentTimesAppend(w.sends, sent, c.id, w.now, id, cid);
      ToldTimesAppend(w.told, told, c.id, w.now, id, cid);
    }
  }

  // ---- alerts that are settled are never sent again ----

  /** Nothing more is to be sent: the alert was recalled, its records are
      archived, this computer acknowledged it, or displayed it and no
      acknowledgement is asked for. */
  ghost predicate Settled(a: Alert, cid: string) {
    || a.recalledAt.Some?
    || a.deliveries.None?
    || (HasRecord(a, cid)
        && (Record(a, cid).ackedAt.Some? || (Record(a, cid).displayedAt.Some? && !a.spec.requireAck)))
  }

  lemma SettledStays(a: Alert, b: Alert, cid: string)
    requires Advances(a, b) && Settled(a, cid)
    ensures Settled(b, cid)
  {
  }

  /** A computer that comes back under a new session is sent an alert exactly when
      the alert has not expired, is meant for it, and is not settled. */
  lemma NewSessionSentIff(lib: Library, a: Alert, c: ClientInfo, now: Time)
    requires AlertOK(a) && (HasRecord(a, c.id) ==> Record(a, c.id).sid != c.sid)
    ensures Decide(lib, a, c, now) == SendAlert
       <==> now <= a.expiresAt && Matching(lib, a, c) && !Settled(a, c.id)
  {
    hide Matching;
  }

  /** To the session that was sent it last, an alert goes again exactly when it was
      not displayed within a minute. */
  lemma SameSessionSentIff(lib: Library, a: Alert, c: ClientInfo, now: Time)
    requires HasRecord(a, c.id) && Record(a, c.id).sid == c.sid
    ensures Decide(lib, a, c, now) == SendAlert
       <==> a.recalledAt.None? && now <= a.expiresAt && Matching(lib, a, c) && Record(a, c.id).displayedAt.None?
            && now - Record(a, c.id).sentAt > RESEND_AFTER
  {
    hide Matching;
  }

  lemma SettledSilent(lib: Library, a: Alert, c: ClientInfo, now: Time)
    requires AlertOK(a) && Settled(a, c.id)
    ensures Decide(lib, a, c, now) != SendAlert
  {
    hide Matching;
  }

  /** `id` was sent once, and is settled for `cid` or no longer kept. */
  ghost predicate Closed(w: World, id: string, cid: string) {
    && Find(w.history, id).Some?
    && (Find(w.alerts, id).Some? ==> Settled(Find(w.alerts, id).value, cid))
  }

  lemma HistoryStep(lib: Library, archiving: bool, w: World, op: Op, id: string)
    requires WorldOK(w) && Legal(w, op)
    ensures var w' := Step(lib, archiving, w, op);
            var h, h' := Find(w.history, id), Find(w'.history, id);
            (h.Some? ==> h' == h) && (h.None? && h'.Some? ==> h' == Find(w'.alerts, id))
  {
    hide AlertOK, NewAlert;
    var w' := Step(lib, archiving, w, op);
    DistinctAlerts(w);
    StepKeepsOK(lib, archiving, w, op);
    DistinctAlerts(w');
    StepAlerts(lib, archiving, w, op);
    NothingLost(lib, archiving, w, op);
    hide Step;
    var h := IndexOf(w.history, id);
    if h >= 0 {
      FindAt(w'.history, h);
    } else if op.Send? {
      FindAt(w'.alerts, |w.alerts|);
    }
  }

  lemma NothingLost(lib: Library, archiving: bool, w: World, op: Op)
    ensures !op.Send? ==> Step(lib, archiving, w, op).history == w.history
    ensures op.Send? ==> |Step(lib, archiving, w, op).alerts| == |w.alerts| + 1
  {
  }

  /** Once settled for a computer, an alert is never sent to it again, in any
      run and under any session: it was recalled, or acknowledged, or displayed
      with no acknowledgement asked for. */
  lemma {:induction false} NeverSentAgain(lib: Library, archiving: bool, w: World, ops: seq<Op>, id: string, cid: string)
    requires WorldOK(w) && LegalRun(lib, archiving, w, ops) && Closed(w, id, cid)
    ensures SentTimes(Exec(lib, archiving, w, ops).sends, id, cid) == SentTimes(w.sends, id, cid)
    decreases |ops|
  {
    hide Settled, Decide, AlertOK, Advances, Step, WorldOK, Legal, Find;
    if ops != [] {
      var w' := Step(lib, archiving, w, ops[0]);
      StepKeepsOK(lib, archiving, w, ops[0]);
      FindStep(lib, archiving, w, ops[0], id);
      HistoryStep(lib, archiving, w, ops[0], id);
      LogStep(lib, archiving, w, ops[0], id, cid);
      FindInHistory(w, id);
      var x, y := Find(w.alerts, id), Find(w'.alerts, id);
      if x.Some? {
        if ops[0].Poll? && ops[0].client.id == cid { SettledSilent(lib, x.value, ops[0].client, w.now); }
        if y.Some? {
          EvolvesAdvances(lib, ops[0], w.now, x.value, y.value);
          SettledStays(x.value, y.value, cid);
        }
      }
      NeverSentAgain(lib, archiving, w', ops[1..], id, cid);
    }
  }

  // ---- recalls are told at most once, and only of alerts that were sent ----

  /** For one alert and one computer: a record means the alert was sent, and a
      send leaves a record for as long as records are kept; the
      recall was told at most once, after a send, and is marked as told. */
  ghost predicate ToldOK(w: World, id: string, cid: string) {
    var sent, told, x := SentTimes(w.sends, id, cid), ToldTimes(w.told, id, cid), Find(w.alerts, id);
    && |told| <= 1
    && (told != [] ==> sent != [])
    && (sent != [] ==> Find(w.history, id).Some?)
    && (x.Some? && x.value.deliveries.Some? ==> (HasRecord(x.value, cid) <==> sent != []))
    && (told != [] && x.Some? && x.value.deliveries.Some? ==>
          HasRecord(x.value, cid) && Record(x.value, cid).recallSent)
  }

  /** What an operation can do to one record. */
  lemma RecordEvolves(lib: Library, w: World, op: Op, a: Alert, b: Alert, cid: string)
    requires AlertOK(a) && Evolves(lib, op, w.now, a, b)
    ensures HasRecord(b, cid) && !HasRecord(a, cid) ==> Draws(lib, w, op, Some(a), cid, SendAlert)
    ensures Draws(lib, w, op, Some(a), cid, TellRecall) ==>
              HasRecord(a, cid) && !Record(a, cid).recallSent && HasRecord(b, cid) && Record(b, cid).recallSent
    ensures Draws(lib, w, op, Some(a), cid, SendAlert) ==>
              HasRecord(b, cid) && Record(b, cid).sentAt == w.now && Record(b, cid).sid == op.client.sid
    ensures HasRecord(a, cid) && HasRecord(b, cid) && !Draws(lib, w, op, Some(a), cid, SendAlert) ==>
              Record(b, cid).sentAt == Record(a, cid).sentAt && Record(b, cid).sid == Record(a, cid).sid
  {
    hide Matching;
    if op.Report? && HasRecord(a, cid) && RecordOK(Record(a, cid)) {
      ApplyKindsKeeps(Record(a, cid), a.id, Truncated(op.events), op.at);
    }
  }

  lemma ToldStep(lib: Library, archiving: bool, w: World, op: Op, id: string, cid: string)
    requires WorldOK(w) && Legal(w, op) && ToldOK(w, id, cid)
    ensures ToldOK(Step(lib, archiving, w, op), id, cid)
  {
    hide Decide, AlertOK, Step, WorldOK, Legal, Find, Evolves;
    var w' := Step(lib, archiving, w, op);
    FindStep(lib, archiving, w, op, id);
    HistoryStep(lib, archiving, w, op, id);
    LogStep(lib, archiving, w, op, id, cid);
    FindInHistory(w, id);
    var x, y := Find(w.alerts, id), Find(w'.alerts, id);
    if x.Some? && y.Some? {
      EvolvesAdvances(lib, op, w.now, x.value, y.value);
      RecordEvolves(lib, w, op, x.value, y.value, cid);
    } else if x.Some? && op.Poll? {
      PollDropsNothing(lib, archiving, w, op, id);
    }
  }

  lemma FollowsAt(lib: Library, w: World, op: Op, w': World, i: nat)
    requires Follows(lib, w, op, w') && op.Poll? && i < |w.alerts|
    ensures i < |w'.alerts| && Evolves(lib, op, w.now, w.alerts[i], w'.alerts[i])
  {
    hide Evolves;
    assert w.alerts[i + Dropped(w, op)] == w.alerts[i];
  }

  lemma PollDropsNothing(lib: Library, archiving: bool, w: World, op: Op, id: string)
    requires WorldOK(w) && op.Poll? && Find(w.alerts, id).Some?
    ensures Find(Step(lib, archiving, w, op).alerts, id).Some?
  {
    hide AlertOK, Evolves, Follows, Step, WorldOK, DistinctIDs;
    DistinctAlerts(w);
    StepAlerts(lib, archiving, w, op);
    var w' := Step(lib, archiving, w, op);
    var i := IndexOf(w.alerts, id);
    FollowsAt(lib, w, op, w', i);
    EvolvesSameID(lib, op, w.now, w.alerts[i], w'.alerts[i]);
  }

  /** Over a whole run each computer is told of a recall at most once, and only of
      alerts it had been sent before. */
  lemma {:induction false} RecallToldAtMostOnce(lib: Library, archiving: bool, w: World, ops: seq<Op>, id: string, cid: string)
    requires WorldOK(w) && ToldOK(w, id, cid) && LegalRun(lib, archiving, w, ops)
    ensures ToldOK(Exec(lib, archiving, w, ops), id, cid)
    decreases |ops|
  {
    hide ToldOK, Step, WorldOK, Legal;
    if ops != [] {
      StepKeepsOK(lib, archiving, w, ops[0]);
      ToldStep(lib, archiving, w, ops[0], id, cid);
      RecallToldAtMostOnce(lib, archiving, Step(lib, archiving, w, ops[0]), ops[1..], id, cid);
    }
  }

  // ---- how often an alert is sent to one client process ----

  /** Every poll of `cid` in the run comes from the same client process. */
  /** The session under which a computer last polled, and how often that changed
      from one poll of that computer to its next. */
  datatype Session = Session(current: Option<string>, changes: nat)

  function NextSession(e: Session, op: Op, cid: string): Session {
    if op.Poll? && op.client.id == cid then
      Session(Some(op.client.sid), e.changes + if e.current.Some? && e.current != Some(op.client.sid) then 1 else 0)
    else e
  }

  function SessionAfter(e: Session, ops: seq<Op>, cid: string): Session
    decreases |ops|
  {
    if ops == [] then e else SessionAfter(NextSession(e, ops[0], cid), ops[1..], cid)
  }

  function SessionChanges(ops: seq<Op>, cid: string): nat {
    SessionAfter(Session(None, 0), ops, cid).changes
  }

  /** All but `free` of the sends waited for more than a minute since the one before. */
  ghost predicate Crowded(ts: seq<Time>, free: int) {
    ts != [] ==> (|ts| - 1 - free) * (RESEND_AFTER + 1) <= ts[|ts| - 1] - ts[0]
  }

  ghost predicate Spaced(ts: seq<Time>) {
    forall p, q :: 0 <= p < q < |ts| ==> ts[q] - ts[p] > RESEND_AFTER
  }

  ghost predicate WindowOK(h: Alert, now: Time) {
    h.createdAt <= now && h.spec.expiresMinutes >= 1
    && h.expiresAt == h.createdAt + h.spec.expiresMinutes * MINUTE
  }

  /** `h` was sent to `cid` at the times `ts`; `x` is `h` as it is kept now. */
  ghost predicate Spacing(now: Time, ts: seq<Time>, h: Option<Alert>, x: Option<Alert>, cid: string, e: Session) {
    && (e.changes == 0 ==> Spaced(ts))
    && Crowded(ts, e.changes)
    && (h.Some? ==> WindowOK(h.value, now))
    && (ts != [] ==> h.Some?)
    && (forall p :: 0 <= p < |ts| ==> h.Some? && h.value.createdAt <= ts[p] <= h.value.expiresAt && ts[p] <= now)
    && (x.Some? ==> LastSend(ts, x.value, cid, e))
  }

  /** The record holds the last send; if its session is no longer the current one,
      one change of session has gone unused. */
  ghost predicate LastSend(ts: seq<Time>, a: Alert, cid: string, e: Session) {
    && (HasRecord(a, cid) ==> ts != [])
    && (ts != [] && a.deliveries.Some? ==>
          && HasRecord(a, cid) && Record(a, cid).sentAt == ts[|ts| - 1] && e.current.Some?
          && (e.current != Some(Record(a, cid).sid) ==> e.changes > 0 && Crowded(ts, e.changes - 1)))
  }

  ghost predicate SpacingOK(w: World, id: string, cid: string, e: Session) {
    Spacing(w.now, SentTimes(w.sends, id, cid), Find(w.history, id), Find(w.alerts, id), cid, e)
  }

  lemma SendIsDue(lib: Library, w: World, op: Op, a: Alert, cid: string)
    requires AlertOK(a) && Draws(lib, w, op, Some(a), cid, SendAlert)
    ensures w.now <= a.expiresAt && a.deliveries.Some?
    ensures HasRecord(a, cid) && Record(a, cid).sid == op.client.sid ==> w.now - Record(a, cid).sentAt > RESEND_AFTER
  {
    hide Matching;
  }

  lemma StepClock(lib: Library, archiving: bool, w: World, op: Op)
    requires Legal(w, op)
    ensures w.now <= Step(lib, archiving, w, op).now
  {
  }

  /** A further send keeps to the spacing. */
  lemma SpacingExtends(lib: Library, w: World, op: Op, a: Alert, b: Alert, ts: seq<Time>, h: Alert, cid: string, e: Session)
    requires AlertOK(a) && SameOrigin(h, a) && Evolves(lib, op, w.now, a, b)
    requires Spacing(w.now, ts, Some(h), Some(a), cid, e)
    requires Draws(lib, w, op, Some(a), cid, SendAlert)
    ensures Spacing(w.now, ts + [w.now], Some(h), Some(b), cid, NextSession(e, op, cid))
  {
    SendIsDue(lib, w, op, a, cid);
    RecordEvolves(lib, w, op, a, b, cid);
    EvolvesKeepsRecords(lib, op, w.now, a, b, cid);
    hide AlertOK, Decide, Evolves, Advances;
    assert op.Poll? && HasRecord(b, cid);
    CrowdedExtends(ts, w.now, e, NextSession(e, op, cid), if HasRecord(a, cid) then Record(a, cid).sid else "");
    hide Crowded;
  }

  lemma CrowdedExtends(ts: seq<Time>, now: Time, e: Session, f: Session, was: string)
    requires f.current.Some? && Crowded(ts, e.changes) && (ts != [] ==> ts[|ts| - 1] <= now && e.current.Some?)
    requires f.changes == e.changes + if e.current.Some? && e.current != f.current then 1 else 0
    requires ts != [] && e.current != Some(was) ==> e.changes > 0 && Crowded(ts, e.changes - 1)
    requires ts != [] && f.current == Some(was) ==> now - ts[|ts| - 1] > RESEND_AFTER
    ensures Crowded(ts + [now], f.changes)
  {
    assert ts != [] ==> (ts + [now])[0] == ts[0];
  }

  lemma LastSendKept(lib: Library, w: World, op: Op, a: Alert, b: Alert, ts: seq<Time>, cid: string, e: Session)
    requires AlertOK(a) && Evolves(lib, op, w.now, a, b) && !Draws(lib, w, op, Some(a), cid, SendAlert)
    requires LastSend(ts, a, cid, e) && Crowded(ts, e.changes)
    ensures LastSend(ts, b, cid, NextSession(e, op, cid))
  {
    RecordEvolves(lib, w, op, a, b, cid);
    EvolvesKeepsRecords(lib, op, w.now, a, b, cid);
    hide AlertOK, Decide, Evolves;
  }

  /** Nothing was sent: the spacing stays, for an alert that is new as well. */
  lemma SpacingStays(now: Time, later: Time, ts: seq<Time>, h: Option<Alert>, h': Option<Alert>,
                     x: Option<Alert>, y: Option<Alert>, cid: string, e: Session, f: Session)
    requires Spacing(now, ts, h, x, cid, e) && now <= later && e.changes <= f.changes
    requires h.Some? ==> h' == h
    requires h.None? && h'.Some? ==> WindowOK(h'.value, later)
    requires y.Some? ==> LastSend(ts, y.value, cid, f)
    ensures Spacing(later, ts, h', y, cid, f)
  {
    hide Spaced, LastSend;
  }

  lemma NewWindowOK(op: Op, w: World)
    requires op.Send? && Legal(w, op)
    ensures var a := NewAlert(op.id, op.spec, op.rules, op.sender, op.senderName, op.created);
            WindowOK(a, w.now) && a.deliveries == Some(map[])
  {
  }

  lemma SpacingStep(lib: Library, archiving: bool, w: World, op: Op, id: string, cid: string, e: Session)
    requires WorldOK(w) && Legal(w, op) && SpacingOK(w, id, cid, e)
    ensures SpacingOK(Step(lib, archiving, w, op), id, cid, NextSession(e, op, cid))
  {
    hide Crowded, AlertOK, Step, WorldOK, Find, Evolves, Draws, Spacing, SameOrigin, LastSend, Legal, SentTimes, ToldTimes, NewAlert, WindowOK;
    var w' := Step(lib, archiving, w, op);
    FindStep(lib, archiving, w, op, id);
    HistoryStep(lib, archiving, w, op, id);
    LogStep(lib, archiving, w, op, id, cid);
    FindInHistory(w, id);
    StepClock(lib, archiving, w, op);
    var ts, x, y, h := SentTimes(w.sends, id, cid), Find(w.alerts, id), Find(w'.alerts, id), Find(w.history, id);
    if Draws(lib, w, op, x, cid, SendAlert) {
      DrawsMeans(lib, archiving, w, op, x, cid, SendAlert);
      PollDropsNothing(lib, archiving, w, op, id);
      SpacingExtends(lib, w, op, x.value, y.value, ts, h.value, cid, e);
    } else {
      assert ts + [] == ts;
      SpacingMeans(w.now, ts, h, x, cid, e);
      if x.Some? && y.Some? {
        LastSendKept(lib, w, op, x.value, y.value, ts, cid, e);
      } else if y.Some? {
        NewWindowOK(op, w);
        FreshLastSend(y.value, cid, NextSession(e, op, cid));
        SendClock(lib, archiving, w, op);
      }
      SpacingStays(w.now, w'.now, ts, h, Find(w'.history, id), x, y, cid, e, NextSession(e, op, cid));
    }
  }

  lemma SpacingMeans(now: Time, ts: seq<Time>, h: Option<Alert>, x: Option<Alert>, cid: string, e: Session)
    requires Spacing(now, ts, h, x, cid, e)
    ensures (x.Some? ==> LastSend(ts, x.value, cid, e)) && (ts != [] ==> h.Some?) && Crowded(ts, e.changes)
  {
  }

  lemma SendClock(lib: Library, archiving: bool, w: World, op: Op)
    requires op.Send?
    ensures Step(lib, archiving, w, op).now == w.now
  {
  }

  lemma DrawsMeans(lib: Library, archiving: bool, w: World, op: Op, x: Option<Alert>, cid: string, v: Verdict)
    requires Draws(lib, w, op, x, cid, v)
    ensures op.Poll? && x.Some? && op.client.id == cid && Step(lib, archiving, w, op).now == w.now
  {
  }

  lemma FreshLastSend(a: Alert, cid: string, e: Session)
    requires a.deliveries == Some(map[])
    ensures LastSend([], a, cid, e)
  {
  }

  lemma EvolvesKeepsRecords(lib: Library, op: Op, now: Time, a: Alert, b: Alert, cid: string)
    requires AlertOK(a) && Evolves(lib, op, now, a, b)
    ensures b.deliveries.Some? ==> a.deliveries.Some? && (HasRecord(a, cid) ==> HasRecord(b, cid))
    ensures SameOrigin(a, b)
  {
    EvolvesAdvances(lib, op, now, a, b);
    hide Evolves;
  }

  lemma {:induction false} SpacingRun(lib: Library, archiving: bool, w: World, ops: seq<Op>, id: string, cid: string, e: Session)
    requires WorldOK(w) && SpacingOK(w, id, cid, e) && LegalRun(lib, archiving, w, ops)
    ensures SpacingOK(Exec(lib, archiving, w, ops), id, cid, SessionAfter(e, ops, cid))
    decreases |ops|
  {
    hide SpacingOK, Step, WorldOK, Legal, NextSession;
    if ops != [] {
      StepKeepsOK(lib, archiving, w, ops[0]);
      SpacingStep(lib, archiving, w, ops[0], id, cid, e);
      SpacingRun(lib, archiving, Step(lib, archiving, w, ops[0]), ops[1..], id, cid, NextSession(e, ops[0], cid));
    }
  }

  lemma FitsWindow(n: nat, free: nat, minutes: int)
    requires minutes >= 1 && (n - 1 - free) * (RESEND_AFTER + 1) <= minutes * MINUTE
    ensures n <= minutes + free
  {
    assert (n - 1 - free) * (RESEND_AFTER + 1) == (n - 1 - free) * 60_000_000_001;
    assert minutes * MINUTE == minutes * 60_000_000_000;
  }

  /** In every run an alert is sent to a computer only within the delivery window, and
      at most `expiresMinutes` times in all and once more for every time the
      computer came back under another session. Under one session the sends are
      more than 60 seconds apart. */
  lemma SentAtMostExpiresMinutes(lib: Library, archiving: bool, start: Time, ops: seq<Op>, id: string, cid: string)
    requires LegalRun(lib, archiving, Start(start), ops)
    ensures var w, changes := Exec(lib, archiving, Start(start), ops), SessionChanges(ops, cid);
            var ts, h := SentTimes(w.sends, id, cid), Find(w.history, id);
            ts != [] ==>
              && h.Some?
              && (forall p :: 0 <= p < |ts| ==> h.value.createdAt <= ts[p] <= h.value.expiresAt)
              && |ts| <= h.value.spec.expiresMinutes + changes
              && (changes == 0 ==> Spaced(ts))
  {
    SpacingRun(lib, archiving, Start(start), ops, id, cid, Session(None, 0));
    var w := Exec(lib, archiving, Start(start), ops);
    var ts, h := SentTimes(w.sends, id, cid), Find(w.history, id);
    hide LegalRun, Exec, Find, SessionAfter;
    if ts != [] {
      FitsWindow(|ts|, SessionChanges(ops, cid), h.value.spec.expiresMinutes);
    }
  }
}
