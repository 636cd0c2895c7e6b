/** What archiving can lose, and exactly when: one flush that archives is compared
    with the same flush that keeps every record, over every continuation. */
module Archiving {
  import opened Text
  import opened Targets
  import opened Deliveries
  import opened Runs
  import opened Promises
  import opened Compaction

  /** After a flush that archives nothing. */
  function Kept(lib: Library, w: World): World {
    Step(lib, false, w, Flush)
  }

  /** After the flush as it is. */
  function Trimmed(lib: Library, w: World): World {
    Step(lib, true, w, Flush)
  }

  /** The flush takes the records of alert `i` of those it keeps. */
  predicate Taken(lib: Library, w: World, i: int) {
    var kept := Kept(lib, w).alerts;
    w.dirty && 0 <= i < |kept| - MAX_ALERTS_DETAILED && !Live(kept[i], w.now)
  }

  lemma FlushPair(lib: Library, w: World)
    requires WorldOK(w)
    ensures var u, v := Kept(lib, w), Trimmed(lib, w);
            && WorldOK(u) && WorldOK(v) && Tracks(u, v) && u.told == v.told == w.told && u.now == w.now
            && |u.alerts| == |v.alerts|
            && forall i :: 0 <= i < |u.alerts| ==>
                 v.alerts[i] == if Taken(lib, w, i) then Archive(u.alerts[i], w.now) else u.alerts[i]
  {
    StepKeepsOK(lib, false, w, Flush);
    StepKeepsOK(lib, true, w, Flush);
    hide AlertOK, TotalsOf;
    var u, v := Kept(lib, w), Trimmed(lib, w);
    forall i | 0 <= i < |u.alerts| ensures Alike(u.alerts[i], v.alerts[i], w.now) {
      assert AlertOK(u.alerts[i]);
      TakenAlike(u.alerts[i], w.now);
    }
  }

  lemma TakenAlike(a: Alert, now: Time)
    requires AlertOK(a)
    ensures Alike(a, Archive(a, now), now)
  {
  }

  lemma SameDropped(u: World, v: World, op: Op)
    requires Tracks(u, v)
    ensures Dropped(u, op) == Dropped(v, op) && |u.alerts| == |v.alerts|
  {
  }

  // ---- recalls ----

  /** No recall of `a` will ever be told to `cid`: the window there is closed, it was
      told, or the time for telling it is over. */
  ghost predicate Spent(a: Alert, cid: string, now: Time) {
    HasRecord(a, cid) ==>
      || Record(a, cid).closedAt.Some?
      || Record(a, cid).recallSent
      || (a.recalledAt.Some? && now - a.recalledAt.value >= RECALL_WINDOW)
  }

  ghost predicate AllSpent(u: seq<Alert>, v: seq<Alert>, now: Time) {
    |u| == |v| && forall i, cid :: 0 <= i < |u| && u[i] != v[i] ==> Spent(u[i], cid, now)
  }

  ghost predicate ToldAlike(u: World, v: World) {
    forall id, cid :: ToldTimes(u.told, id, cid) == ToldTimes(v.told, id, cid)
  }

  lemma SpentStays(lib: Library, op: Op, now: Time, later: Time, a: Alert, b: Alert, cid: string)
    requires AlertOK(a) && !Live(a, now) && Spent(a, cid, now) && now <= later
    requires Evolves(lib, op, now, a, b) && (op.Flush? ==> b == a)
    ensures Spent(b, cid, later)
  {
    hide Matching;
    if op.Report? && HasRecord(a, op.cid) {
      assert RecordOK(Record(a, op.cid));
      ApplyKindsKeeps(Record(a, op.cid), a.id, Truncated(op.events), op.at);
    }
  }

  /** Where an alert comes from when nothing is archived. */
  lemma StepAt(lib: Library, w: World, op: Op, j: nat)
    requires WorldOK(w) && j < |Step(lib, false, w, op).alerts|
    ensures var w', k := Step(lib, false, w, op), Dropped(w, op);
            && |w'.alerts| == |w.alerts| - k + (if op.Send? then 1 else 0)
            && (j < |w.alerts| - k ==>
                 && Evolves(lib, op, w.now, w.alerts[j + k], w'.alerts[j])
                 && (op.Flush? ==> w'.alerts[j] == w.alerts[j + k]))
            && (j >= |w.alerts| - k ==>
                 w'.alerts[j] == NewAlert(op.id, op.spec, op.rules, op.sender, op.senderName, op.created))
  {
    hide Evolves, Step, NewAlert;
    DistinctAlerts(w);
    hide WorldOK;
    StepAlerts(lib, false, w, op);
    ComesFrom(lib, w, op, Step(lib, false, w, op), j);
    hide Follows;
    if op.Flush? {
      FlushAt(lib, false, w, j);
    }
    hide Dropped;
  }

  /** Each alert of `u` and of `v` after one operation on both. */
  lemma StepPair(lib: Library, u: World, v: World, op: Op, j: nat)
    requires WorldOK(u) && WorldOK(v) && Legal(u, op) && Tracks(u, v) && j < |Step(lib, false, u, op).alerts|
    ensures var u', v', k := Step(lib, false, u, op), Step(lib, false, v, op), Dropped(u, op);
            && u.now <= u'.now && |v'.alerts| == |u'.alerts| && |v.alerts| == |u.alerts|
            && (j < |u.alerts| - k ==>
                 && Evolves(lib, op, u.now, u.alerts[j + k], u'.alerts[j])
                 && Evolves(lib, op, u.now, v.alerts[j + k], v'.alerts[j])
                 && (op.Flush? ==> u'.alerts[j] == u.alerts[j + k] && v'.alerts[j] == v.alerts[j + k]))
            && (j >= |u.alerts| - k ==> u'.alerts[j] == v'.alerts[j])
  {
    hide Evolves, Step, Legal, NewAlert;
    StepTracks(lib, false, u, v, op);
    SameDropped(u, v, op);
    SameDropped(Step(lib, false, u, op), Step(lib, false, v, op), op);
    StepAt(lib, u, op, j);
    StepAt(lib, v, op, j);
    StepClock(lib, false, u, op);
    assert u.now == v.now;
    hide WorldOK, Tracks, Dropped;
  }

  lemma SameEvolution(lib: Library, op: Op, now: Time, a: Alert, b: Alert, c: Alert)
    requires Evolves(lib, op, now, a, b) && Evolves(lib, op, now, a, c) && (op.Flush? ==> b == c)
    ensures b == c
  {
  }

  lemma StepSpent(lib: Library, u: World, v: World, op: Op)
    requires WorldOK(u) && WorldOK(v) && Legal(u, op) && Tracks(u, v) && AllSpent(u.alerts, v.alerts, u.now)
    ensures var u', v' := Step(lib, false, u, op), Step(lib, false, v, op); AllSpent(u'.alerts, v'.alerts, u'.now)
  {
    hide Step, Legal, Spent, Evolves, Live;
    StepTracks(lib, false, u, v, op);
    var u', v', k := Step(lib, false, u, op), Step(lib, false, v, op), Dropped(u, op);
    hide Dropped;
    forall j, cid | 0 <= j < |u'.alerts| && u'.alerts[j] != v'.alerts[j] ensures Spent(u'.alerts[j], cid, u'.now) {
      StepPair(lib, u, v, op, j);
      var a, b := u.alerts[j + k], v.alerts[j + k];
      assert Alike(a, b, u.now) && AlertOK(a);
      hide WorldOK, Tracks, TotalsOf, AlertOK;
      if a == b {
        SameEvolution(lib, op, u.now, a, u'.alerts[j], v'.alerts[j]);
        assert false;
      }
      SpentStays(lib, op, u.now, u'.now, a, u'.alerts[j], cid);
    }
  }

  lemma SpentNotTold(lib: Library, a: Alert, b: Alert, c: ClientInfo, now: Time)
    requires Alike(a, b, now) && (a != b ==> Spent(a, c.id, now))
    ensures Decide(lib, a, c, now) == TellRecall <==> Decide(lib, b, c, now) == TellRecall
  {
    hide Decide, TotalsOf;
    TellsIffOwes(lib, a, c, now);
    TellsIffOwes(lib, b, c, now);
  }

  lemma StepToldAlike(lib: Library, u: World, v: World, op: Op)
    requires WorldOK(u) && WorldOK(v) && Tracks(u, v) && AllSpent(u.alerts, v.alerts, u.now) && ToldAlike(u, v)
    ensures ToldAlike(Step(lib, false, u, op), Step(lib, false, v, op))
  {
    hide Decide, WorldOK, Step, Alike, Spent;
    forall id, cid
      ensures ToldTimes(Step(lib, false, u, op).told, id, cid) == ToldTimes(Step(lib, false, v, op).told, id, cid)
    {
      LogStep(lib, false, u, op, id, cid);
      LogStep(lib, false, v, op, id, cid);
      AlikeIndex(u.alerts, v.alerts, u.now, id);
      var i := IndexOf(u.alerts, id);
      if i >= 0 && op.Poll? {
        SpentNotTold(lib, u.alerts[i], v.alerts[i], op.client, u.now);
      }
    }
  }

  lemma {:induction false} SpentRun(lib: Library, u: World, v: World, ops: seq<Op>)
    requires WorldOK(u) && WorldOK(v) && Tracks(u, v) && AllSpent(u.alerts, v.alerts, u.now) && ToldAlike(u, v)
    requires LegalRun(lib, false, u, ops)
    ensures ToldAlike(Exec(lib, false, u, ops), Exec(lib, false, v, ops))
    decreases |ops|
  {
    hide WorldOK, Tracks, AllSpent, ToldAlike, Legal, Step;
    if ops != [] {
      StepTracks(lib, false, u, v, ops[0]);
      StepSpent(lib, u, v, ops[0]);
      StepToldAlike(lib, u, v, ops[0]);
      StepKeepsOK(lib, false, u, ops[0]);
      StepKeepsOK(lib, false, v, ops[0]);
      SpentRun(lib, Step(lib, false, u, ops[0]), Step(lib, false, v, ops[0]), ops[1..]);
    }
  }

  /** The run that shows the loss: someone recalls the alert, if nobody has yet, and
      the computer that still shows it polls. */
  function RecallThenPoll(id: string, cid: string, now: Time): seq<Op> {
    [Recall(id, "", true, now), Poll(ClientInfo(cid, "", "", "", "", [], "", "", now, 0))]
  }

  lemma RunOfTwo(lib: Library, w: World, a: Op, b: Op)
    ensures Exec(lib, false, w, [a, b]) == Step(lib, false, Step(lib, false, w, a), b)
    ensures LegalRun(lib, false, w, [a, b]) <==> Legal(w, a) && Legal(Step(lib, false, w, a), b)
  {
    hide Step, Legal;
    var w' := Step(lib, false, w, a);
    assert [a, b][1..] == [b] && [b][1..] == [];
    assert Exec(lib, false, w', [b]) == Exec(lib, false, Step(lib, false, w', b), []);
    assert LegalRun(lib, false, w', [b]) <==> Legal(w', b) && LegalRun(lib, false, Step(lib, false, w', b), []);
  }

  lemma ToldAfter(lib: Library, w: World, i: nat, cid: string)
    requires WorldOK(w) && i < |w.alerts|
    ensures var a := w.alerts[i]; var ops := RecallThenPoll(a.id, cid, w.now);
            && LegalRun(lib, false, w, ops)
            && ToldTimes(Exec(lib, false, w, ops).told, a.id, cid)
               == ToldTimes(w.told, a.id, cid)
                  + if OwesRecall(RecallAlert(a, "", w.now), cid, w.now) then [w.now] else []
  {
    hide AlertOK, OwesRecall, Decide;
    var a := w.alerts[i];
    var ops := RecallThenPoll(a.id, cid, w.now);
    var w' := Step(lib, false, w, ops[0]);
    RunOfTwo(lib, w, ops[0], ops[1]);
    DistinctAlerts(w);
    IndexOfDistinct(w.alerts, i);
    StepKeepsOK(lib, false, w, ops[0]);
    DistinctAlerts(w');
    FindAt(w'.alerts, i);
    LogStep(lib, false, w', ops[1], a.id, cid);
    TellsIffOwes(lib, RecallAlert(a, "", w.now), ops[1].client, w.now);
  }

  /** A computer that could still be told loses its recall when the records go. */
  lemma LosesRecall(lib: Library, w: World, i: nat, cid: string)
    requires WorldOK(w) && Taken(lib, w, i) && !Spent(Kept(lib, w).alerts[i], cid, w.now)
    ensures var u, v := Kept(lib, w), Trimmed(lib, w);
            var id := u.alerts[i].id;
            var ops := RecallThenPoll(id, cid, w.now);
            && LegalRun(lib, false, u, ops)
            && ToldTimes(Exec(lib, false, u, ops).told, id, cid) == ToldTimes(w.told, id, cid) + [w.now]
            && ToldTimes(Exec(lib, false, v, ops).told, id, cid) == ToldTimes(w.told, id, cid)
  {
    hide WorldOK, TotalsOf, Exec, LegalRun, Step;
    FlushPair(lib, w);
    ToldAfter(lib, Kept(lib, w), i, cid);
    ToldAfter(lib, Trimmed(lib, w), i, cid);
    AlertAt(Kept(lib, w), i);
  }

  lemma AlertAt(w: World, i: nat)
    requires WorldOK(w) && i < |w.alerts|
    ensures AlertOK(w.alerts[i])
  {
  }

  /** Archiving never keeps a computer from being told of a recall, in any
      continuation, exactly when every record it takes is closed, or told already,
      or of an alert recalled at least twelve hours ago. An alert need not have been
      recalled by then for its recall to be lost. */
  lemma RecallsSurviveArchivingIff(lib: Library, w: World)
    requires WorldOK(w)
    ensures var u, v := Kept(lib, w), Trimmed(lib, w);
            (forall ops :: LegalRun(lib, false, u, ops) ==>
               ToldAlike(Exec(lib, false, u, ops), Exec(lib, false, v, ops)))
            <==> (forall i, cid :: Taken(lib, w, i) ==> Spent(u.alerts[i], cid, w.now))
  {
    hide WorldOK, Spent, TotalsOf, LegalRun, Exec, Tracks, Step, Live;
    var u, v := Kept(lib, w), Trimmed(lib, w);
    FlushPair(lib, w);
    if forall i, cid :: Taken(lib, w, i) ==> Spent(u.alerts[i], cid, w.now) {
      assert AllSpent(u.alerts, v.alerts, u.now);
      forall ops | LegalRun(lib, false, u, ops)
        ensures ToldAlike(Exec(lib, false, u, ops), Exec(lib, false, v, ops))
      {
        SpentRun(lib, u, v, ops);
      }
    } else {
      var i, cid :| Taken(lib, w, i) && !Spent(u.alerts[i], cid, w.now);
      LosesRecall(lib, w, i, cid);
      var ops := RecallThenPoll(u.alerts[i].id, cid, w.now);
      assert !ToldAlike(Exec(lib, false, u, ops), Exec(lib, false, v, ops));
    }
  }

  // ---- totals ----

  /** A receipt that sets a display or acknowledgement stamp the record lacks. */
  predicate Stamps(d: Delivery, id: string, events: seq<Event>) {
    || (d.displayedAt.None? && (Event(id, Displayed) in events || Event(id, Acknowledged) in events))
    || (d.ackedAt.None? && Event(id, Acknowledged) in events)
  }

  /** The operation brings a receipt that the records of `a` had not yet. */
  predicate Late(a: Alert, op: Op) {
    op.Report? && HasRecord(a, op.cid) && Stamps(Record(a, op.cid), a.id, Truncated(op.events))
  }

  /** The same records with the same stamps. */
  ghost predicate SameStamps(a: Alert, b: Alert) {
    && a.id == b.id
    && (forall cid :: HasRecord(a, cid) <==> HasRecord(b, cid))
    && (forall cid :: HasRecord(a, cid) ==>
          && (Record(a, cid).displayedAt.Some? <==> Record(b, cid).displayedAt.Some?)
          && (Record(a, cid).ackedAt.Some? <==> Record(b, cid).ackedAt.Some?))
  }

  lemma SameLate(a: Alert, b: Alert, op: Op)
    requires SameStamps(a, b)
    ensures Late(a, op) <==> Late(b, op)
  {
    hide Truncated;
  }

  /** Without a live alert to send, only late receipts move the totals. */
  lemma TotalsStep(lib: Library, op: Op, now: Time, a: Alert, b: Alert)
    requires a.archived.None? && a.deliveries.Some? && !Live(a, now)
    requires Evolves(lib, op, now, a, b) && (op.Flush? ==> b == a)
    ensures b.archived.None? && b.deliveries.Some?
    ensures Under(TotalsOf(a), TotalsOf(b))
    ensures TotalsOf(a) == TotalsOf(b) <==> !Late(a, op)
    ensures !Late(a, op) ==> SameStamps(a, b)
  {
    hide Matching, TotalsOf, Truncated, MayRecall;
    match op {
      case Poll(c) => PollTotals(lib, a, c, now);
      case Recall(_, _, _, _) => SameTotals(a, b);
      case Report(cid, events, at) =>
        if HasRecord(a, cid) {
          var d := ApplyKinds(Record(a, cid), a.id, Truncated(events), at);
          KindsMeaning(Record(a, cid), a.id, Truncated(events), at);
          hide ApplyKinds;
          TotalsMove(a, cid, d);
        }
      case _ =>
    }
  }

  lemma LiveNoMore(lib: Library, op: Op, now: Time, later: Time, a: Alert, b: Alert)
    requires AlertOK(a) && Evolves(lib, op, now, a, b) && !Live(a, now) && now <= later
    ensures !Live(b, later)
  {
    hide AlertOK;
    EvolvesAdvances(lib, op, now, a, b);
    hide Evolves, TotalsOf;
  }

  // ---- one alert along a run ----

  lemma {:induction false} GoneStaysGone(lib: Library, w: World, ops: seq<Op>, id: string)
    requires WorldOK(w) && LegalRun(lib, false, w, ops) && Find(w.history, id).Some? && Find(w.alerts, id).None?
    ensures Find(Exec(lib, false, w, ops).alerts, id).None?
    decreases |ops|
  {
    hide WorldOK, Step, Legal, Find;
    if ops != [] {
      StepKeepsOK(lib, false, w, ops[0]);
      FindStep(lib, false, w, ops[0], id);
      HistoryStep(lib, false, w, ops[0], id);
      GoneStaysGone(lib, Step(lib, false, w, ops[0]), ops[1..], id);
    }
  }

  /** An alert still there at the end was there after the first operation. */
  lemma StillThere(lib: Library, w: World, ops: seq<Op>, id: string)
    requires WorldOK(w) && ops != [] && LegalRun(lib, false, w, ops)
    requires Find(w.alerts, id).Some? && Find(Exec(lib, false, w, ops).alerts, id).Some?
    ensures Find(Step(lib, false, w, ops[0]).alerts, id).Some?
  {
    hide WorldOK, Step, Legal, Find;
    var w' := Step(lib, false, w, ops[0]);
    FindInHistory(w, id);
    HistoryStep(lib, false, w, ops[0], id);
    StepKeepsOK(lib, false, w, ops[0]);
    if Find(w'.alerts, id).None? {
      GoneStaysGone(lib, w', ops[1..], id);
    }
  }

  /** `FindStep` when nothing is archived. */
  lemma FindNext(lib: Library, w: World, op: Op, id: string)
    requires WorldOK(w) && Legal(w, op)
    requires Find(w.alerts, id).Some? && Find(Step(lib, false, w, op).alerts, id).Some?
    ensures var x, y := Find(w.alerts, id).value, Find(Step(lib, false, w, op).alerts, id).value;
            Evolves(lib, op, w.now, x, y) && (op.Flush? ==> x == y)
  {
    hide Evolves, Step, Legal, AlertOK;
    FindStep(lib, false, w, op, id);
    if op.Flush? {
      var i := IndexOf(Kept(lib, w).alerts, id);
      FlushShape(lib, false, w);
      FlushAt(lib, false, w, i);
      DistinctAlerts(w);
      FindAt(w.alerts, i + Dropped(w, op));
    }
  }

  /** The totals of an alert that is no longer live stand still exactly while no
      late receipt comes. */
  lemma {:induction false} TotalsRun(lib: Library, w: World, ops: seq<Op>, id: string)
    requires WorldOK(w) && LegalRun(lib, false, w, ops)
    requires Find(w.alerts, id).Some? && Find(Exec(lib, false, w, ops).alerts, id).Some?
    requires var x := Find(w.alerts, id).value; x.archived.None? && x.deliveries.Some? && !Live(x, w.now)
    ensures var x, y := Find(w.alerts, id).value, Find(Exec(lib, false, w, ops).alerts, id).value;
            && Under(TotalsOf(x), TotalsOf(y))
            && (TotalsOf(x) == TotalsOf(y) <==> forall op :: op in ops ==> !Late(x, op))
    decreases |ops|
  {
    hide WorldOK, Step, Legal, Find, TotalsOf, Late, Evolves, SameStamps;
    if ops != [] {
      var w' := Step(lib, false, w, ops[0]);
      StillThere(lib, w, ops, id);
      FindNext(lib, w, ops[0], id);
      FoundOK(w, id);
      var x, m := Find(w.alerts, id).value, Find(w'.alerts, id).value;
      TotalsStep(lib, ops[0], w.now, x, m);
      StepClock(lib, false, w, ops[0]);
      LiveNoMore(lib, ops[0], w.now, w'.now, x, m);
      StepKeepsOK(lib, false, w, ops[0]);
      TotalsRun(lib, w', ops[1..], id);
      LateAlong(x, m, ops);
    }
  }

  lemma LateAlong(x: Alert, m: Alert, ops: seq<Op>)
    requires ops != [] && (!Late(x, ops[0]) ==> SameStamps(x, m))
    ensures (forall op :: op in ops ==> !Late(x, op))
       <==> !Late(x, ops[0]) && (forall op :: op in ops[1..] ==> !Late(m, op))
  {
    hide Late, SameStamps;
    assert forall op :: op in ops <==> op == ops[0] || op in ops[1..];
    if !Late(x, ops[0]) {
      forall op ensures Late(x, op) <==> Late(m, op) { SameLate(x, m, op); }
    }
  }

  /** Alerts that are the same stay the same. */
  lemma {:induction false} SameRun(lib: Library, u: World, v: World, ops: seq<Op>, id: string)
    requires WorldOK(u) && WorldOK(v) && Tracks(u, v) && LegalRun(lib, false, u, ops) && LegalRun(lib, false, v, ops)
    requires Find(u.alerts, id).Some? && Find(u.alerts, id) == Find(v.alerts, id)
    requires Find(Exec(lib, false, u, ops).alerts, id).Some? && Find(Exec(lib, false, v, ops).alerts, id).Some?
    ensures Find(Exec(lib, false, u, ops).alerts, id) == Find(Exec(lib, false, v, ops).alerts, id)
    decreases |ops|
  {
    hide WorldOK, Step, Legal, Find, Evolves, Alike;
    if ops != [] {
      var u', v' := Step(lib, false, u, ops[0]), Step(lib, false, v, ops[0]);
      StillThere(lib, u, ops, id);
      StillThere(lib, v, ops, id);
      FindNext(lib, u, ops[0], id);
      FindNext(lib, v, ops[0], id);
      SameEvolution(lib, ops[0], u.now, Find(u.alerts, id).value, Find(u'.alerts, id).value, Find(v'.alerts, id).value);
      StepTracks(lib, false, u, v, ops[0]);
      StepKeepsOK(lib, false, u, ops[0]);
      StepKeepsOK(lib, false, v, ops[0]);
      SameRun(lib, u', v', ops[1..], id);
    }
  }

  /** Archived totals are final. */
  lemma {:induction false} ArchivedRun(lib: Library, w: World, ops: seq<Op>, id: string)
    requires WorldOK(w) && LegalRun(lib, false, w, ops)
    requires Find(w.alerts, id).Some? && Find(w.alerts, id).value.archived.Some?
    requires Find(Exec(lib, false, w, ops).alerts, id).Some?
    ensures TotalsOf(Find(Exec(lib, false, w, ops).alerts, id).value) == TotalsOf(Find(w.alerts, id).value)
    decreases |ops|
  {
    hide WorldOK, Step, Legal, Find, Evolves, AlertOK;
    if ops != [] {
      var w' := Step(lib, false, w, ops[0]);
      StillThere(lib, w, ops, id);
      FindNext(lib, w, ops[0], id);
      FoundOK(w, id);
      EvolvesAdvances(lib, ops[0], w.now, Find(w.alerts, id).value, Find(w'.alerts, id).value);
      StepKeepsOK(lib, false, w, ops[0]);
      ArchivedRun(lib, w', ops[1..], id);
    }
  }

  /** The alert called `id` in both stores right after the flush. */
  lemma FlushedAlert(lib: Library, w: World, id: string)
    requires WorldOK(w) && Find(Kept(lib, w).alerts, id).Some?
    ensures var x, y := Find(Kept(lib, w).alerts, id), Find(Trimmed(lib, w).alerts, id);
            && AlertOK(x.value) && y.Some?
            && (y != x ==> y.value == Archive(x.value, w.now) && y.value.archived.Some? && !Live(x.value, w.now)
                           && x.value.archived.None? && x.value.deliveries.Some?)
  {
    hide Step, WorldOK, AlertOK, TotalsOf, Taken;
    FlushPair(lib, w);
    FoundOK(Kept(lib, w), id);
    AlikeIndex(Kept(lib, w).alerts, Trimmed(lib, w).alerts, w.now, id);
    hide Tracks;
    assert AlertOK(Find(Kept(lib, w).alerts, id).value);
    ArchivedShape(Find(Kept(lib, w).alerts, id).value, w.now);
  }

  lemma ArchivedShape(a: Alert, now: Time)
    requires AlertOK(a)
    ensures Archive(a, now) != a ==>
              Archive(a, now).archived.Some? && !Live(a, now) && a.archived.None? && a.deliveries.Some?
  {
  }

  /** Over any continuation the archived totals of an alert never exceed those of its
      kept records, and they agree exactly when this flush did not take the
      records or no late receipt came for them. */
  lemma TotalsAgreeIff(lib: Library, w: World, ops: seq<Op>, id: string)
    requires WorldOK(w) && LegalRun(lib, false, Kept(lib, w), ops) && Find(Kept(lib, w).alerts, id).Some?
    ensures var u, v := Kept(lib, w), Trimmed(lib, w);
            var x, y := Find(u.alerts, id), Find(v.alerts, id);
            var a, b := Find(Exec(lib, false, u, ops).alerts, id), Find(Exec(lib, false, v, ops).alerts, id);
            && (a.Some? <==> b.Some?)
            && (a.Some? ==>
                 && Under(TotalsOf(b.value), TotalsOf(a.value))
                 && (TotalsOf(b.value) == TotalsOf(a.value) <==> y == x || forall op :: op in ops ==> !Late(x.value, op)))
  {
    hide Step, WorldOK, AlertOK, TotalsOf, LegalRun, Exec, Kept, Trimmed, Late, Archive, Live;
    var u, v := Kept(lib, w), Trimmed(lib, w);
    FlushPair(lib, w);
    FlushedAlert(lib, w, id);
    ArchivingUnseen(lib, false, u, v, ops);
    FoundAlike(Exec(lib, false, u, ops), Exec(lib, false, v, ops), id);
    var x, y := Find(u.alerts, id), Find(v.alerts, id);
    hide Find;
    if Find(Exec(lib, false, u, ops).alerts, id).Some? {
      if x == y {
        SameRun(lib, u, v, ops, id);
      } else {
        ArchiveKeeps(x.value, w.now);
        TotalsRun(lib, u, ops, id);
        ArchivedRun(lib, v, ops, id);
      }
    }
  }

  lemma FoundAlike(u: World, v: World, id: string)
    requires Tracks(u, v)
    ensures var a, b := Find(u.alerts, id), Find(v.alerts, id);
            (a.Some? <==> b.Some?) && (a.Some? ==> Under(TotalsOf(b.value), TotalsOf(a.value)))
  {
    hide TotalsOf, SameOrigin;
    AlikeIndex(u.alerts, v.alerts, u.now, id);
  }

  /** The totals of every alert the flush kept, at the end of a run. */
  ghost predicate TotalsAlike(u: World, v: World, kept: seq<Alert>) {
    forall id :: Find(kept, id).Some? && Find(u.alerts, id).Some? ==>
      Find(v.alerts, id).Some? && TotalsOf(Find(v.alerts, id).value) == TotalsOf(Find(u.alerts, id).value)
  }

  ghost predicate FullyStamped(a: Alert, cid: string) {
    HasRecord(a, cid) ==> Record(a, cid).displayedAt.Some? && Record(a, cid).ackedAt.Some?
  }

  lemma RunOfOne(lib: Library, w: World, op: Op)
    ensures Exec(lib, false, w, [op]) == Step(lib, false, w, op)
    ensures LegalRun(lib, false, w, [op]) <==> Legal(w, op)
  {
    hide Step, Legal;
    assert [op][1..] == [];
    assert Exec(lib, false, w, [op]) == Exec(lib, false, Step(lib, false, w, op), []);
  }

  lemma RecordsGo(a: Alert, cid: string, now: Time)
    requires AlertOK(a) && HasRecord(a, cid) && !Live(a, now)
    ensures Archive(a, now) != a
  {
  }

  /** A receipt that comes after the records are gone is not counted. */
  lemma LosesReceipt(lib: Library, w: World, i: nat, cid: string)
    requires WorldOK(w) && Taken(lib, w, i) && !FullyStamped(Kept(lib, w).alerts[i], cid)
    ensures var u, v := Kept(lib, w), Trimmed(lib, w);
            var ops := [Report(cid, [Event(u.alerts[i].id, Acknowledged)], w.now)];
            && LegalRun(lib, false, u, ops)
            && !TotalsAlike(Exec(lib, false, u, ops), Exec(lib, false, v, ops), u.alerts)
  {
    hide Step, WorldOK, AlertOK, TotalsOf, Exec, LegalRun;
    var u, v := Kept(lib, w), Trimmed(lib, w);
    var x := u.alerts[i];
    var op := Report(cid, [Event(x.id, Acknowledged)], w.now);
    FlushPair(lib, w);
    hide Kept, Trimmed;
    DistinctAlerts(u);
    FindAt(u.alerts, i);
    RunOfOne(lib, u, op);
    RunOfOne(lib, v, op);
    ReportFinds(lib, false, u, op, i);
    TotalsAgreeIff(lib, w, [op], x.id);
    assert Late(x, op);
    assert Find(v.alerts, x.id) != Find(u.alerts, x.id) by {
      AlikeIndex(u.alerts, v.alerts, u.now, x.id);
      IndexOfDistinct(u.alerts, i);
      AlertAt(u, i);
      RecordsGo(x, cid, w.now);
    }
  }

  /** Archiving changes no total, in any continuation, exactly when every record it
      takes is displayed and acknowledged. */
  lemma TotalsSurviveArchivingIff(lib: Library, w: World)
    requires WorldOK(w)
    ensures var u, v := Kept(lib, w), Trimmed(lib, w);
            (forall ops :: LegalRun(lib, false, u, ops) ==>
               TotalsAlike(Exec(lib, false, u, ops), Exec(lib, false, v, ops), u.alerts))
            <==> (forall i, cid :: Taken(lib, w, i) ==> FullyStamped(u.alerts[i], cid))
  {
    hide WorldOK, FullyStamped, TotalsOf, LegalRun, Exec, Kept, Trimmed, Live, TotalsAlike;
    var u, v := Kept(lib, w), Trimmed(lib, w);
    if forall i, cid :: Taken(lib, w, i) ==> FullyStamped(u.alerts[i], cid) {
      forall ops | LegalRun(lib, false, u, ops)
        ensures TotalsAlike(Exec(lib, false, u, ops), Exec(lib, false, v, ops), u.alerts)
      {
        StampedAlike(lib, w, ops);
      }
    } else {
      var i, cid :| Taken(lib, w, i) && !FullyStamped(u.alerts[i], cid);
      LosesReceipt(lib, w, i, cid);
    }
  }

  lemma StampedAlike(lib: Library, w: World, ops: seq<Op>)
    requires WorldOK(w) && LegalRun(lib, false, Kept(lib, w), ops)
    requires forall i, cid :: Taken(lib, w, i) ==> FullyStamped(Kept(lib, w).alerts[i], cid)
    ensures var u, v := Kept(lib, w), Trimmed(lib, w);
            TotalsAlike(Exec(lib, false, u, ops), Exec(lib, false, v, ops), u.alerts)
  {
    hide WorldOK, TotalsOf, LegalRun, Exec, Kept, Trimmed, Taken, Late, Tracks;
    var u, v := Kept(lib, w), Trimmed(lib, w);
    FlushPair(lib, w);
    forall id | Find(u.alerts, id).Some? && Find(Exec(lib, false, u, ops).alerts, id).Some?
      ensures Find(Exec(lib, false, v, ops).alerts, id).Some?
      ensures TotalsOf(Find(Exec(lib, false, v, ops).alerts, id).value) == TotalsOf(Find(Exec(lib, false, u, ops).alerts, id).value)
    {
      TotalsAgreeIff(lib, w, ops, id);
      var i := IndexOf(u.alerts, id);
      if Taken(lib, w, i) {
        forall op ensures !Late(u.alerts[i], op) { StampedNotLate(u.alerts[i], op); }
      } else {
        assert v.alerts[i] == u.alerts[i];
        UntakenSame(lib, w, id);
      }
    }
  }

  lemma StampedNotLate(a: Alert, op: Op)
    requires forall cid :: FullyStamped(a, cid)
    ensures !Late(a, op)
  {
    if op.Report? {
      assert FullyStamped(a, op.cid);
    }
  }

  lemma UntakenSame(lib: Library, w: World, id: string)
    requires WorldOK(w) && Find(Kept(lib, w).alerts, id).Some?
    requires !Taken(lib, w, IndexOf(Kept(lib, w).alerts, id))
    ensures Find(Trimmed(lib, w).alerts, id) == Find(Kept(lib, w).alerts, id)
  {
    hide WorldOK, TotalsOf, Kept, Trimmed, Taken, Alike;
    FlushPair(lib, w);
    AlikeIndex(Kept(lib, w).alerts, Trimmed(lib, w).alerts, w.now, id);
  }
}
