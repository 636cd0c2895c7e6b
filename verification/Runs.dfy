/** Runs of the server: every order in which alerts are sent and recalled, clients
    poll and report, and the history is compacted and saved. */
module Runs {
  import opened Text
  import opened Targets
  import opened Validation
  import opened Deliveries

  datatype SendEntry = SendEntry(time: Time, alertID: string, cid: string)

  datatype ToldEntry = ToldEntry(time: Time, alertID: string, cid: string)

  /** The alerts half of the store. `saved` is what the last flush marshalled.
      `history`, `sends` and `told` only record the past: every alert ever sent,
      and everything clients were answered with. */
  datatype World = World(
    now: Time, alerts: seq<Alert>, dirty: bool, saved: seq<Alert>,
    history: seq<Alert>, sends: seq<SendEntry>, told: seq<ToldEntry>)

  datatype Op =
    | Tick(now: Time)
    | Send(id: string, spec: AlertSpec, rules: seq<Rule>, sender: string, senderName: string, created: Time)
    | Recall(id: string, who: string, admin: bool, at: Time)
    | Poll(client: ClientInfo)
    | Report(cid: string, events: seq<Event>, at: Time)
    | Flush

  function Start(now: Time): World {
    World(now, [], false, [], [], [], [])
  }

  predicate MayRecall(a: Alert, who: string, admin: bool) {
    admin || a.sender == who
  }

  /** What handlers may be called with: the clock does not run backwards, ids are
      fresh, and a spec has been validated before it is sent. */
  ghost predicate Legal(w: World, op: Op) {
    match op
    case Tick(t) => w.now <= t
    case Send(id, spec, _, _, _, created) =>
      spec.expiresMinutes >= 1 && created <= w.now
      && forall i :: 0 <= i < |w.history| ==> w.history[i].id != id
    case _ => true
  }

  function RecallIn(alerts: seq<Alert>, id: string, who: string, admin: bool, at: Time): (r: seq<Alert>)
    ensures |r| == |alerts|
  {
    var i := IndexOf(alerts, id);
    if i >= 0 && MayRecall(alerts[i], who, admin) then alerts[i := RecallAlert(alerts[i], who, at)] else alerts
  }

  function SendEntries(ids: seq<string>, cid: string, now: Time): (r: seq<SendEntry>)
    ensures |r| == |ids| && forall i :: 0 <= i < |ids| ==> r[i] == SendEntry(now, ids[i], cid)
  {
    seq(|ids|, i requires 0 <= i < |ids| => SendEntry(now, ids[i], cid))
  }

  function ToldEntries(ids: seq<string>, cid: string, now: Time): (r: seq<ToldEntry>)
    ensures |r| == |ids| && forall i :: 0 <= i < |ids| ==> r[i] == ToldEntry(now, ids[i], cid)
  {
    seq(|ids|, i requires 0 <= i < |ids| => ToldEntry(now, ids[i], cid))
  }

  function AfterFlush(w: World, archiving: bool): World {
    if !w.dirty then w
    else
      var alerts := if archiving then Compact(w.alerts, w.now) else Newest(w.alerts);
      w.(alerts := alerts, saved := alerts, dirty := false)
  }

  /** One operation. `archiving` is true for the server as it is; the false
      variant keeps every delivery record and serves as a reference. */
  function Step(lib: Library, archiving: bool, w: World, op: Op): World {
    match op
    case Tick(t) => w.(now := t)
    case Send(id, spec, rules, sender, senderName, created) =>
      var a := NewAlert(id, spec, rules, sender, senderName, created);
      w.(alerts := w.alerts + [a], history := w.history + [a], dirty := true)
    case Recall(id, who, admin, at) =>
      var alerts := RecallIn(w.alerts, id, who, admin, at);
      w.(alerts := alerts, dirty := w.dirty || alerts != w.alerts)
    case Poll(c) =>
      var sent, told := Chosen(lib, w.alerts, c, w.now, SendAlert), Chosen(lib, w.alerts, c, w.now, TellRecall);
      w.(alerts := AfterPollAll(lib, w.alerts, c, w.now),
         dirty := w.dirty || sent != [] || told != [],
         sends := w.sends + SendEntries(sent, c.id, w.now),
         told := w.told + ToldEntries(told, c.id, w.now))
    case Report(cid, events, at) =>
      w.(alerts := ApplyBatch(w.alerts, cid, Truncated(events), at),
         dirty := w.dirty || FlagsBatch(w.alerts, cid, Truncated(events), at))
    case Flush => AfterFlush(w, archiving)
  }

  function Exec(lib: Library, archiving: bool, w: World, ops: seq<Op>): World
    decreases |ops|
  {
    if ops == [] then w else Exec(lib, archiving, Step(lib, archiving, w, ops[0]), ops[1..])
  }

  ghost predicate LegalRun(lib: Library, archiving: bool, w: World, ops: seq<Op>)
    decreases |ops|
  {
    ops == [] || (Legal(w, ops[0]) && LegalRun(lib, archiving, Step(lib, archiving, w, ops[0]), ops[1..]))
  }

  // ---- one operation seen from one alert ----

  ghost predicate Evolves(lib: Library, op: Op, now: Time, a: Alert, b: Alert) {
    match op
    case Tick(_) => b == a
    case Send(_, _, _, _, _, _) => b == a
    case Recall(id, who, admin, at) =>
      b == if a.id == id && MayRecall(a, who, admin) then RecallAlert(a, who, at) else a
    case Poll(c) => b == AfterPoll(lib, a, c, now)
    case Report(cid, events, at) => b == ApplyBatchToAlert(a, cid, Truncated(events), at)
    case Flush => b == a || b == Archive(a, now)
  }

  /** How many of the oldest alerts an operation drops. */
  function Dropped(w: World, op: Op): nat {
    if op.Flush? && w.dirty && |w.alerts| > MAX_ALERTS_KEPT then |w.alerts| - MAX_ALERTS_KEPT else 0
  }

  /** The alerts after an operation come from the alerts before it, in order. */
  ghost predicate Follows(lib: Library, w: World, op: Op, w': World) {
    var k := Dropped(w, op);
    && |w'.history| == |w.history| + (if op.Send? then 1 else 0)
    && (forall i :: 0 <= i < |w.history| ==> w'.history[i] == w.history[i])
    && |w'.alerts| == |w.alerts| - k + (if op.Send? then 1 else 0)
    && (forall i :: 0 <= i < |w.alerts| - k ==> Evolves(lib, op, w.now, w.alerts[i + k], w'.alerts[i]))
    && (op.Send? ==> w'.alerts[|w.alerts|] == w'.history[|w.history|]
                     && w'.alerts[|w.alerts|] == NewAlert(op.id, op.spec, op.rules, op.sender, op.senderName, op.created))
    && (!w'.dirty ==> op.Flush? || (!w.dirty && !op.Send?))
  }

  /** Operations that drop nothing: enough to look at each alert in its place. */
  lemma FollowsInPlace(lib: Library, w: World, op: Op, w': World)
    requires !op.Flush? && !op.Send? && w'.history == w.history && |w'.alerts| == |w.alerts| && (w.dirty ==> w'.dirty)
    requires forall i :: 0 <= i < |w.alerts| ==> Evolves(lib, op, w.now, w.alerts[i], w'.alerts[i])
    ensures Follows(lib, w, op, w')
  {
    hide Evolves;
  }

  lemma RecallFollows(lib: Library, archiving: bool, w: World, op: Op)
    requires DistinctIDs(w.alerts) && op.Recall?
    ensures Follows(lib, w, op, Step(lib, archiving, w, op))
  {
    hide RecallAlert, Follows, DistinctIDs;
    var w' := Step(lib, archiving, w, op);
    var i := IndexOf(w.alerts, op.id);
    forall j | 0 <= j < |w.alerts| ensures Evolves(lib, op, w.now, w.alerts[j], w'.alerts[j]) {
      if w.alerts[j].id == op.id { IndexOfDistinct(w.alerts, j); }
    }
    FollowsInPlace(lib, w, op, w');
  }

  lemma FlushShape(lib: Library, archiving: bool, w: World)
    ensures var w' := Step(lib, archiving, w, Flush);
            && Dropped(w, Flush) <= |w.alerts| && |w'.alerts| == |w.alerts| - Dropped(w, Flush)
            && w'.history == w.history
  {
    hide Archive;
  }

  lemma FlushAt(lib: Library, archiving: bool, w: World, i: nat)
    requires i < |w.alerts| - Dropped(w, Flush)
    ensures var w', a := Step(lib, archiving, w, Flush), w.alerts[i + Dropped(w, Flush)];
            && i < |w'.alerts|
            && (w'.alerts[i] == a || (archiving && w'.alerts[i] == Archive(a, w.now)))
  {
    hide Archive;
  }

  lemma FlushFollows(lib: Library, archiving: bool, w: World)
    ensures Follows(lib, w, Flush, Step(lib, archiving, w, Flush))
  {
    hide Archive, Step, Dropped;
    FlushShape(lib, archiving, w);
    forall i | 0 <= i < |w.alerts| - Dropped(w, Flush)
      ensures Evolves(lib, Flush, w.now, w.alerts[i + Dropped(w, Flush)], Step(lib, archiving, w, Flush).alerts[i])
    {
      FlushAt(lib, archiving, w, i);
    }
    hide Evolves;
  }

  lemma ReportFollows(lib: Library, archiving: bool, w: World, op: Op)
    requires DistinctIDs(w.alerts) && op.Report?
    ensures Follows(lib, w, op, Step(lib, archiving, w, op))
  {
    hide ApplyBatchToAlert, ApplyBatch, FlagsBatch, Follows, DistinctIDs;
    ApplyBatchPointwise(w.alerts, op.cid, Truncated(op.events), op.at);
    FollowsInPlace(lib, w, op, Step(lib, archiving, w, op));
  }

  lemma PollFollows(lib: Library, archiving: bool, w: World, op: Op)
    requires op.Poll? || op.Tick?
    ensures Follows(lib, w, op, Step(lib, archiving, w, op))
  {
    hide AfterPoll, Chosen, Follows;
    FollowsInPlace(lib, w, op, Step(lib, archiving, w, op));
  }

  lemma SendFollows(lib: Library, archiving: bool, w: World, op: Op)
    requires op.Send?
    ensures Follows(lib, w, op, Step(lib, archiving, w, op))
  {
    hide NewAlert;
  }

  lemma StepAlerts(lib: Library, archiving: bool, w: World, op: Op)
    requires DistinctIDs(w.alerts)
    ensures Follows(lib, w, op, Step(lib, archiving, w, op))
  {
    hide Follows, Step;
    match op {
      case Report(_, _, _) => ReportFollows(lib, archiving, w, op);
      case Recall(_, _, _, _) => RecallFollows(lib, archiving, w, op);
      case Flush => FlushFollows(lib, archiving, w);
      case Send(_, _, _, _, _, _) => SendFollows(lib, archiving, w, op);
      case _ => PollFollows(lib, archiving, w, op);
    }
  }

  /** Where each alert after an operation comes from. */
  lemma ComesFrom(lib: Library, w: World, op: Op, w': World, j: nat)
    requires Follows(lib, w, op, w') && j < |w'.alerts|
    ensures var k := Dropped(w, op);
            && k <= |w.alerts| && |w'.alerts| == |w.alerts| - k + (if op.Send? then 1 else 0)
            && (j < |w.alerts| - k ==> Evolves(lib, op, w.now, w.alerts[j + k], w'.alerts[j]))
            && (j >= |w.alerts| - k ==>
                 op.Send? && w'.alerts[j] == NewAlert(op.id, op.spec, op.rules, op.sender, op.senderName, op.created))
  {
    hide Evolves, NewAlert;
  }

  lemma EvolvesAdvances(lib: Library, op: Op, now: Time, a: Alert, b: Alert)
    requires AlertOK(a) && Evolves(lib, op, now, a, b)
    ensures AlertOK(b) && Advances(a, b)
  {
    match op {
      case Poll(c) => AfterPollKeeps(lib, a, c, now);
      case Report(cid, events, at) => ApplyBatchToAlertKeeps(a, cid, Truncated(events), at);
      case Flush => ArchiveKeeps(a, now);
      case _ =>
        assert b.deliveries == a.deliveries;
        assert forall cid :: HasRecord(b, cid) ==> HasRecord(a, cid) && Record(a, cid) == Record(b, cid);
    }
  }

  // ---- what every reachable store keeps ----

  /** The alerts kept are the newest of all alerts sent, in order; nothing newer
      than the last 300 is ever dropped; every record and every total is in
      order; and a store not marked dirty is as it was last saved. */
  ghost predicate WorldOK(w: World) {
    && DistinctIDs(w.history)
    && |w.alerts| <= |w.history|
    && (|w.history| <= MAX_ALERTS_KEPT ==> |w.alerts| == |w.history|)
    && (|w.history| >= MAX_ALERTS_KEPT ==> |w.alerts| >= MAX_ALERTS_KEPT)
    && (!w.dirty ==> |w.alerts| <= MAX_ALERTS_KEPT)
    && (forall i :: 0 <= i < |w.alerts| ==>
          SameOrigin(w.history[|w.history| - |w.alerts| + i], w.alerts[i]))
    && (forall i :: 0 <= i < |w.alerts| ==> AlertOK(w.alerts[i]))
    && (!w.dirty ==> w.alerts == w.saved)
  }

  lemma DistinctAlerts(w: World)
    requires WorldOK(w)
    ensures DistinctIDs(w.alerts)
  {
    hide AlertOK;
    var k := |w.history| - |w.alerts|;
    forall i, j | 0 <= i < j < |w.alerts| ensures w.alerts[i].id != w.alerts[j].id {
      assert w.history[k + i].id != w.history[k + j].id;
    }
  }

  lemma {:induction false} NothingChosen(lib: Library, alerts: seq<Alert>, c: ClientInfo, now: Time)
    requires Chosen(lib, alerts, c, now, SendAlert) == [] && Chosen(lib, alerts, c, now, TellRecall) == []
    ensures forall i :: 0 <= i < |alerts| ==> Decide(lib, alerts[i], c, now) == Silent
    ensures AfterPollAll(lib, alerts, c, now) == alerts
  {
    hide Decide;
    if alerts != [] {
      NothingChosen(lib, alerts[..|alerts| - 1], c, now);
    }
  }

  lemma {:induction false} NothingFlagged(alerts: seq<Alert>, cid: string, events: seq<Event>, t: Time)
    requires DistinctIDs(alerts) && forall i :: 0 <= i < |alerts| ==> AlertOK(alerts[i])
    requires !FlagsBatch(alerts, cid, events, t)
    ensures ApplyBatch(alerts, cid, events, t) == alerts
    decreases |events|
  {
    if events != [] {
      var n := |events| - 1;
      NothingFlagged(alerts, cid, events[..n], t);
      var i := IndexOf(alerts, events[n].alertID);
      if i >= 0 && HasRecord(alerts[i], cid) {
        var d := Record(alerts[i], cid);
        assert AlertOK(alerts[i]);
        UnflaggedIsUnchanged(d, events[n].kind, t);
        assert alerts[i].deliveries.value[cid := d] == alerts[i].deliveries.value;
      }
    }
  }

  lemma StepDirty(lib: Library, archiving: bool, w: World, op: Op)
    requires WorldOK(w) && Legal(w, op)
    ensures var w' := Step(lib, archiving, w, op); !w'.dirty ==> w'.alerts == w'.saved
  {
    DistinctAlerts(w);
    match op {
      case Poll(c) =>
        if !Step(lib, archiving, w, op).dirty { NothingChosen(lib, w.alerts, c, w.now); }
      case Report(cid, events, at) =>
        if !Step(lib, archiving, w, op).dirty { NothingFlagged(w.alerts, cid, Truncated(events), at); }
      case _ =>
    }
  }

  lemma StepKeepsAlerts(lib: Library, archiving: bool, w: World, op: Op, i: nat)
    requires WorldOK(w) && Legal(w, op) && i < |Step(lib, archiving, w, op).alerts|
    ensures var w' := Step(lib, archiving, w, op);
            && |w'.alerts| <= |w'.history|
            && AlertOK(w'.alerts[i])
            && SameOrigin(w'.history[|w'.history| - |w'.alerts| + i], w'.alerts[i])
  {
    hide Step, Evolves, AlertOK, NewAlert;
    var w' := Step(lib, archiving, w, op);
    DistinctAlerts(w);
    StepAlerts(lib, archiving, w, op);
    var k := Dropped(w, op);
    if i < |w.alerts| - k {
      EvolvesAdvances(lib, op, w.now, w.alerts[i + k], w'.alerts[i]);
    } else {
      NewAlertOK(op.id, op.spec, op.rules, op.sender, op.senderName, op.created);
    }
  }

  lemma StepKeepsOK(lib: Library, archiving: bool, w: World, op: Op)
    requires WorldOK(w) && Legal(w, op)
    ensures WorldOK(Step(lib, archiving, w, op))
  {
    hide Step, Evolves, AlertOK, SameOrigin;
    var w' := Step(lib, archiving, w, op);
    DistinctAlerts(w);
    StepAlerts(lib, archiving, w, op);
    StepDirty(lib, archiving, w, op);
    StepLength(lib, archiving, w, op);
    forall i | 0 <= i < |w'.alerts|
      ensures AlertOK(w'.alerts[i]) && SameOrigin(w'.history[|w'.history| - |w'.alerts| + i], w'.alerts[i])
    {
      StepKeepsAlerts(lib, archiving, w, op, i);
    }
    if op.Send? { NewAlertID(op); }
  }

  lemma NewAlertID(op: Op)
    requires op.Send?
    ensures NewAlert(op.id, op.spec, op.rules, op.sender, op.senderName, op.created).id == op.id
  {
  }

  lemma StepLength(lib: Library, archiving: bool, w: World, op: Op)
    requires WorldOK(w)
    ensures var w' := Step(lib, archiving, w, op); !w'.dirty ==> |w'.alerts| <= MAX_ALERTS_KEPT
  {
    hide AlertOK, SameOrigin, Chosen, ApplyBatch, FlagsBatch;
  }

  /** Every reachable store is in order. */
  lemma {:induction false} ReachableOK(lib: Library, archiving: bool, w: World, ops: seq<Op>)
    requires WorldOK(w) && LegalRun(lib, archiving, w, ops)
    ensures WorldOK(Exec(lib, archiving, w, ops))
    decreases |ops|
  {
    if ops != [] {
      StepKeepsOK(lib, archiving, w, ops[0]);
      ReachableOK(lib, archiving, Step(lib, archiving, w, ops[0]), ops[1..]);
    }
  }

  lemma FlushSaves(lib: Library, archiving: bool, w: World)
    ensures var w' := Step(lib, archiving, w, Flush); !w'.dirty && w'.history == w.history
  {
  }

  /** After any effective flush the history is exactly the newest 300 alerts ever
      sent, oldest first. */
  lemma FlushKeepsNewest(lib: Library, archiving: bool, w: World)
    requires WorldOK(w)
    ensures var w' := Step(lib, archiving, w, Flush);
            var kept := if |w.history| <= MAX_ALERTS_KEPT then |w.history| else MAX_ALERTS_KEPT;
            && |w'.alerts| == kept
            && (forall i :: 0 <= i < kept ==> SameOrigin(w.history[|w.history| - kept + i], w'.alerts[i]))
            && !w'.dirty && w'.alerts == w'.saved
  {
    hide AlertOK, SameOrigin, Step;
    StepKeepsOK(lib, archiving, w, Flush);
    StepLength(lib, archiving, w, Flush);
    FlushSaves(lib, archiving, w);
  }

  /** Every alert that is still kept later is a later state of the alert kept
      now: stamps stay set, recalls and archived totals are final, and no total
      ever decreases. */
  lemma {:induction false} AlertsAdvance(lib: Library, archiving: bool, w: World, ops: seq<Op>, i: nat, j: nat)
    requires WorldOK(w) && LegalRun(lib, archiving, w, ops)
    requires var w' := Exec(lib, archiving, w, ops);
             i < |w.alerts| && j < |w'.alerts| && w.alerts[i].id == w'.alerts[j].id
    ensures Advances(w.alerts[i], Exec(lib, archiving, w, ops).alerts[j])
    decreases |ops|
  {
    hide WorldOK, Advances, Step, Legal;
    if ops == [] {
      DistinctAlerts(w);
      AdvancesRefl(w.alerts[i]);
    } else {
      var mid := Step(lib, archiving, w, ops[0]);
      StepKeepsOK(lib, archiving, w, ops[0]);
      var k := Dropped(w, ops[0]);
      if i < k {
        DropsForGood(lib, archiving, w, ops, i, j);
      } else {
        AdvancesOnce(lib, archiving, w, ops[0], i);
        AlertsAdvance(lib, archiving, mid, ops[1..], i - k, j);
        AdvancesTrans(w.alerts[i], mid.alerts[i - k], Exec(lib, archiving, w, ops).alerts[j]);
      }
    }
  }

  lemma AdvancesOnce(lib: Library, archiving: bool, w: World, op: Op, i: nat)
    requires WorldOK(w) && Dropped(w, op) <= i < |w.alerts|
    ensures var w' := Step(lib, archiving, w, op); var j := i - Dropped(w, op);
            j < |w'.alerts| && w'.alerts[j].id == w.alerts[i].id && Advances(w.alerts[i], w'.alerts[j])
  {
    hide Step, Evolves;
    DistinctAlerts(w);
    StepAlerts(lib, archiving, w, op);
    EvolvesAdvances(lib, op, w.now, w.alerts[i], Step(lib, archiving, w, op).alerts[i - Dropped(w, op)]);
    hide AlertOK, WorldOK;
  }

  lemma DropsForGood(lib: Library, archiving: bool, w: World, ops: seq<Op>, i: nat, j: nat)
    requires WorldOK(w) && LegalRun(lib, archiving, w, ops) && ops != []
    requires i < Dropped(w, ops[0]) && i < |w.alerts| && j < |Exec(lib, archiving, w, ops).alerts|
    ensures Exec(lib, archiving, w, ops).alerts[j].id != w.alerts[i].id
  {
    hide AlertOK, Step, Legal;
    DistinctAlerts(w);
    StepKeepsOK(lib, archiving, w, ops[0]);
    StepAlerts(lib, archiving, w, ops[0]);
    var h := |w.history| - |w.alerts| + i;
    assert SameOrigin(w.history[h], w.alerts[i]);
    DroppedStaysDropped(lib, archiving, Step(lib, archiving, w, ops[0]), ops[1..], h, j);
  }

  /** A dropped alert never comes back. */
  lemma {:induction false} DroppedStaysDropped(lib: Library, archiving: bool, w: World, ops: seq<Op>, h: nat, j: nat)
    requires WorldOK(w) && LegalRun(lib, archiving, w, ops)
    requires h < |w.history| - |w.alerts| && j < |Exec(lib, archiving, w, ops).alerts|
    ensures Exec(lib, archiving, w, ops).alerts[j].id != w.history[h].id
    decreases |ops|
  {
    hide AlertOK, Step, Legal;
    if ops == [] {
      assert SameOrigin(w.history[|w.history| - |w.alerts| + j], w.alerts[j]);
    } else {
      DistinctAlerts(w);
      StepKeepsOK(lib, archiving, w, ops[0]);
      StepAlerts(lib, archiving, w, ops[0]);
      DroppedStaysDropped(lib, archiving, Step(lib, archiving, w, ops[0]), ops[1..], h, j);
    }
  }

  lemma AdvancesRefl(a: Alert)
    ensures Advances(a, a)
  {
  }

  lemma AdvancesTrans(a: Alert, b: Alert, c: Alert)
    requires Advances(a, b) && Advances(b, c)
    ensures Advances(a, c)
  {
  }
}
