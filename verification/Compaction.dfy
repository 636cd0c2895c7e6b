/** Archiving old delivery records changes nothing that clients are sent, and only
    ever loses counts and recalls. `Archiving` says exactly when it does. */
module Compaction {
  import opened Text
  import opened Targets
  import opened Deliveries
  import opened Runs
  import opened Promises

  /** As many sent, and no more displayed or acknowledged. */
  predicate Under(s: Totals, t: Totals) {
    s.sent == t.sent && s.displayed <= t.displayed && s.acked <= t.acked
  }

  /** `b` is `a`, or what archiving left of it once it was no longer live. */
  ghost predicate Alike(a: Alert, b: Alert, now: Time) {
    || b == a
    || (&& SameOrigin(a, b) && b.recalledAt == a.recalledAt && b.recalledBy == a.recalledBy
        && !Live(a, now) && b.deliveries.None? && b.archived.Some?
        && Under(TotalsOf(b), TotalsOf(a)))
  }

  ghost predicate AllAlike(u: seq<Alert>, v: seq<Alert>, now: Time) {
    |u| == |v| && forall i :: 0 <= i < |u| ==> Alike(u[i], v[i], now)
  }

  /** Every recall `v` told, `u` told to the same computer at the same time. */
  ghost predicate ToldWithin(u: World, v: World) {
    forall id, cid, t :: t in ToldTimes(v.told, id, cid) ==> t in ToldTimes(u.told, id, cid)
  }

  /** The store that never archives (`u`) and the store as it is (`v`). */
  ghost predicate Tracks(u: World, v: World) {
    && u.now == v.now && u.history == v.history && u.sends == v.sends
    && AllAlike(u.alerts, v.alerts, u.now)
    && (v.dirty ==> u.dirty)
    && (|u.alerts| > MAX_ALERTS_KEPT ==> v.dirty)
    && ToldWithin(u, v)
  }

  lemma {:induction false} AlikeIndex(u: seq<Alert>, v: seq<Alert>, now: Time, id: string)
    requires AllAlike(u, v, now)
    ensures IndexOf(u, id) == IndexOf(v, id)
    decreases |u|
  {
    hide Alike;
    if u != [] {
      var n := |u| - 1;
      AlikeID(u[n], v[n], now);
      assert forall i :: 0 <= i < n ==> u[..n][i] == u[i] && v[..n][i] == v[i];
      AlikeIndex(u[..n], v[..n], now, id);
    }
  }

  lemma DisplayedMoves(ds: map<string, Delivery>, cid: string, d: Delivery)
    requires cid in ds && (ds[cid].displayedAt.Some? ==> d.displayedAt.Some?)
    ensures |DisplayedTo(ds[cid := d])|
         == |DisplayedTo(ds)| + if ds[cid].displayedAt.None? && d.displayedAt.Some? then 1 else 0
  {
    if ds[cid].displayedAt.None? && d.displayedAt.Some? {
      assert DisplayedTo(ds[cid := d]) == DisplayedTo(ds) + {cid};
    } else {
      assert DisplayedTo(ds[cid := d]) == DisplayedTo(ds);
    }
  }

  lemma AckedMoves(ds: map<string, Delivery>, cid: string, d: Delivery)
    requires cid in ds && (ds[cid].ackedAt.Some? ==> d.ackedAt.Some?)
    ensures |AckedBy(ds[cid := d])| == |AckedBy(ds)| + if ds[cid].ackedAt.None? && d.ackedAt.Some? then 1 else 0
  {
    if ds[cid].ackedAt.None? && d.ackedAt.Some? {
      assert AckedBy(ds[cid := d]) == AckedBy(ds) + {cid};
    } else {
      assert AckedBy(ds[cid := d]) == AckedBy(ds);
    }
  }

  /** Changing one record moves the totals exactly by the stamps it gains. */
  lemma TotalsMove(a: Alert, cid: string, d: Delivery)
    requires HasRecord(a, cid) && a.archived.None?
    requires Record(a, cid).displayedAt.Some? ==> d.displayedAt.Some?
    requires Record(a, cid).ackedAt.Some? ==> d.ackedAt.Some?
    ensures var s, t := TotalsOf(a), TotalsOf(WithRecord(a, cid, d));
            && t.sent == s.sent
            && t.displayed == s.displayed + (if Record(a, cid).displayedAt.None? && d.displayedAt.Some? then 1 else 0)
            && t.acked == s.acked + (if Record(a, cid).ackedAt.None? && d.ackedAt.Some? then 1 else 0)
  {
    var ds := a.deliveries.value;
    assert |ds[cid := d].Keys| == |ds.Keys| by {
      assert ds[cid := d].Keys == ds.Keys;
    }
    DisplayedMoves(ds, cid, d);
    AckedMoves(ds, cid, d);
    hide DisplayedTo, AckedBy;
  }

  lemma EventTotals(a: Alert, cid: string, kind: EventKind, t: Time)
    ensures Under(TotalsOf(a), TotalsOf(ApplyToAlert(a, cid, kind, t)))
  {
    if HasRecord(a, cid) && a.archived.None? {
      TotalsMove(a, cid, ApplyEvent(Record(a, cid), kind, t));
    }
  }

  lemma PollTotals(lib: Library, a: Alert, c: ClientInfo, now: Time)
    requires !Live(a, now)
    ensures TotalsOf(AfterPoll(lib, a, c, now)) == TotalsOf(a)
  {
    hide Matching;
    if Decide(lib, a, c, now) == TellRecall && a.archived.None? {
      TotalsMove(a, c.id, Record(a, c.id).(recallSent := true));
    }
  }

  lemma AlikePoll(lib: Library, a: Alert, b: Alert, c: ClientInfo, now: Time)
    requires Alike(a, b, now)
    ensures Decide(lib, a, c, now) == SendAlert <==> Decide(lib, b, c, now) == SendAlert
    ensures Decide(lib, b, c, now) == TellRecall ==> Decide(lib, a, c, now) == TellRecall
    ensures Alike(AfterPoll(lib, a, c, now), AfterPoll(lib, b, c, now), now)
  {
    hide Matching, TotalsOf;
    if b != a {
      PollTotals(lib, a, c, now);
    }
  }

  lemma {:induction false} AlikeChosen(lib: Library, u: seq<Alert>, v: seq<Alert>, c: ClientInfo, now: Time)
    requires AllAlike(u, v, now)
    ensures Chosen(lib, u, c, now, SendAlert) == Chosen(lib, v, c, now, SendAlert)
    ensures Chosen(lib, v, c, now, TellRecall) != [] ==> Chosen(lib, u, c, now, TellRecall) != []
    decreases |u|
  {
    hide Decide, Alike;
    if u != [] {
      var n := |u| - 1;
      AlikePoll(lib, u[n], v[n], c, now);
      assert u[n].id == v[n].id by { AlikeID(u[n], v[n], now); }
      assert forall i :: 0 <= i < n ==> u[..n][i] == u[i] && v[..n][i] == v[i];
      AlikeChosen(lib, u[..n], v[..n], c, now);
    }
  }

  lemma AlikeID(a: Alert, b: Alert, now: Time)
    requires Alike(a, b, now)
    ensures a.id == b.id
  {
  }

  lemma AlikeOne(u: seq<Alert>, v: seq<Alert>, now: Time, cid: string, ev: Event, t: Time)
    requires AllAlike(u, v, now)
    ensures AllAlike(ApplyOne(u, cid, ev, t), ApplyOne(v, cid, ev, t), now)
    ensures FlagsOne(v, cid, ev) ==> FlagsOne(u, cid, ev)
  {
    hide TotalsOf, ApplyEvent;
    AlikeIndex(u, v, now, ev.alertID);
    var i := IndexOf(u, ev.alertID);
    if i >= 0 {
      assert Alike(u[i], v[i], now);
      EventTotals(u[i], cid, ev.kind, t);
    }
  }

  lemma {:induction false} AlikeBatch(u: seq<Alert>, v: seq<Alert>, now: Time, cid: string, events: seq<Event>, t: Time)
    requires AllAlike(u, v, now)
    ensures AllAlike(ApplyBatch(u, cid, events, t), ApplyBatch(v, cid, events, t), now)
    ensures FlagsBatch(v, cid, events, t) ==> FlagsBatch(u, cid, events, t)
    decreases |events|
  {
    hide AllAlike, ApplyOne, FlagsOne;
    if events != [] {
      var n := |events| - 1;
      AlikeBatch(u, v, now, cid, events[..n], t);
      AlikeOne(ApplyBatch(u, cid, events[..n], t), ApplyBatch(v, cid, events[..n], t), now, cid, events[n], t);
    }
  }

  lemma AlikeRecall(u: seq<Alert>, v: seq<Alert>, now: Time, id: string, who: string, admin: bool, at: Time)
    requires AllAlike(u, v, now)
    ensures AllAlike(RecallIn(u, id, who, admin, at), RecallIn(v, id, who, admin, at), now)
    ensures RecallIn(v, id, who, admin, at) != v ==> RecallIn(u, id, who, admin, at) != u
  {
    hide TotalsOf;
    AlikeIndex(u, v, now, id);
    hide IndexOf;
    var i := IndexOf(u, id);
    if i >= 0 {
      assert Alike(u[i], v[i], now);
      SameTotals(u[i], RecallAlert(u[i], who, at));
      SameTotals(v[i], RecallAlert(v[i], who, at));
      var w := RecallIn(u, id, who, admin, at);
      assert MayRecall(u[i], who, admin) && u[i].recalledAt.None? ==> w[i] != u[i];
      if !MayRecall(v[i], who, admin) || v[i].recalledAt.Some? {
        assert RecallIn(v, id, who, admin, at) == v;
      }
    }
  }

  lemma SameTotals(a: Alert, b: Alert)
    requires a.deliveries == b.deliveries && a.archived == b.archived
    ensures TotalsOf(a) == TotalsOf(b)
  {
  }

  lemma AlikeArchive(a: Alert, b: Alert, now: Time)
    requires Alike(a, b, now) && (b.archived.None? ==> b.deliveries.Some?)
    ensures Alike(a, Archive(b, now), now)
  {
  }

  lemma AlikeCompact(u: seq<Alert>, v: seq<Alert>, now: Time)
    requires AllAlike(u, v, now)
    requires forall i :: 0 <= i < |v| ==> v[i].archived.None? ==> v[i].deliveries.Some?
    ensures AllAlike(Newest(u), Compact(v, now), now)
    ensures AllAlike(Newest(u), Newest(v), now)
  {
    hide Alike, Archive;
    var k := |u| - |Newest(u)|;
    forall i | 0 <= i < |Newest(u)|
      ensures Alike(Newest(u)[i], Compact(v, now)[i], now) && Alike(Newest(u)[i], Newest(v)[i], now)
    {
      AlikeArchive(u[i + k], v[i + k], now);
    }
  }

  lemma StepTracks(lib: Library, archiving: bool, u: World, v: World, op: Op)
    requires WorldOK(u) && WorldOK(v) && Legal(u, op) && Tracks(u, v)
    ensures Legal(v, op)
    ensures Tracks(Step(lib, false, u, op), Step(lib, archiving, v, op))
  {
    hide AllAlike, ToldWithin, AlertOK, Decide, WorldOK, Chosen, AfterPollAll, RecallIn, ApplyBatch, FlagsBatch, Compact, Newest;
    var u', v' := Step(lib, false, u, op), Step(lib, archiving, v, op);
    AlertsTrack(lib, archiving, u, v, op);
    ToldTracks(lib, archiving, u, v, op);
    match op {
      case Poll(c) => AlikeChosen(lib, u.alerts, v.alerts, c, u.now);
      case Report(cid, events, at) => AlikeBatch(u.alerts, v.alerts, u.now, cid, Truncated(events), at);
      case Recall(id, who, admin, at) => AlikeRecall(u.alerts, v.alerts, u.now, id, who, admin, at);
      case Flush => FlushBounded(u, v);
      case _ =>
    }
  }

  lemma FlushBounded(u: World, v: World)
    requires Tracks(u, v)
    ensures |AfterFlush(u, false).alerts| <= MAX_ALERTS_KEPT
  {
  }

  lemma AlikeTick(u: seq<Alert>, v: seq<Alert>, now: Time, t: Time)
    requires AllAlike(u, v, now) && now <= t
    ensures AllAlike(u, v, t)
  {
    forall i | 0 <= i < |u| ensures Alike(u[i], v[i], t) {
      assert Alike(u[i], v[i], now);
    }
  }

  lemma AlikePollAll(lib: Library, u: seq<Alert>, v: seq<Alert>, c: ClientInfo, now: Time)
    requires AllAlike(u, v, now)
    ensures AllAlike(AfterPollAll(lib, u, c, now), AfterPollAll(lib, v, c, now), now)
  {
    hide Alike, AfterPoll;
    forall i | 0 <= i < |u| ensures Alike(AfterPoll(lib, u[i], c, now), AfterPoll(lib, v[i], c, now), now) {
      AlikePoll(lib, u[i], v[i], c, now);
    }
  }

  lemma AlikeFlush(archiving: bool, u: World, v: World)
    requires WorldOK(v) && Tracks(u, v)
    ensures AllAlike(AfterFlush(u, false).alerts, AfterFlush(v, archiving).alerts, u.now)
    ensures AfterFlush(u, false).now == u.now
  {
    hide Alike, AlertOK, TotalsOf, ToldWithin;
    ArchivedOrDetailed(v);
    if v.dirty {
      AlikeCompact(u.alerts, v.alerts, u.now);
    }
  }

  lemma AlertsTrack(lib: Library, archiving: bool, u: World, v: World, op: Op)
    requires WorldOK(u) && WorldOK(v) && Legal(u, op) && Tracks(u, v)
    ensures var u', v' := Step(lib, false, u, op), Step(lib, archiving, v, op);
            AllAlike(u'.alerts, v'.alerts, u'.now)
  {
    hide Decide, ApplyBatch, FlagsBatch, WorldOK, AfterPollAll, AfterFlush, RecallIn, Alike, Chosen, ToldWithin;
    match op {
      case Tick(t) => AlikeTick(u.alerts, v.alerts, u.now, t);
      case Poll(c) => AlikePollAll(lib, u.alerts, v.alerts, c, u.now);
      case Report(cid, events, at) => AlikeBatch(u.alerts, v.alerts, u.now, cid, Truncated(events), at);
      case Recall(id, who, admin, at) => AlikeRecall(u.alerts, v.alerts, u.now, id, who, admin, at);
      case Flush => AlikeFlush(archiving, u, v);
      case Send(id, spec, rules, sender, senderName, created) =>
        AlikeSame(NewAlert(id, spec, rules, sender, senderName, created), u.now);
    }
  }

  lemma AlikeSame(a: Alert, now: Time)
    ensures Alike(a, a, now)
  {
  }

  lemma ArchivedOrDetailed(v: World)
    requires WorldOK(v)
    ensures forall i :: 0 <= i < |v.alerts| ==> v.alerts[i].archived.None? ==> v.alerts[i].deliveries.Some?
  {
    forall i | 0 <= i < |v.alerts| ensures v.alerts[i].archived.None? ==> v.alerts[i].deliveries.Some? {
      assert AlertOK(v.alerts[i]);
    }
  }

  lemma ToldTracks(lib: Library, archiving: bool, u: World, v: World, op: Op)
    requires WorldOK(u) && WorldOK(v) && Tracks(u, v)
    ensures ToldWithin(Step(lib, false, u, op), Step(lib, archiving, v, op))
  {
    hide Decide, WorldOK, Step, Alike;
    var u', v' := Step(lib, false, u, op), Step(lib, archiving, v, op);
    forall id, cid, t | t in ToldTimes(v'.told, id, cid) ensures t in ToldTimes(u'.told, id, cid) {
      LogStep(lib, false, u, op, id, cid);
      LogStep(lib, archiving, v, op, id, cid);
      AlikeIndex(u.alerts, v.alerts, u.now, id);
      var i := IndexOf(u.alerts, id);
      if i >= 0 && op.Poll? {
        AlikePoll(lib, u.alerts[i], v.alerts[i], op.client, u.now);
      }
    }
  }

  /** Over every run the store that archives and the store that does not send the
      same alerts to the same computers at the same times; the first tells no
      recall the second does not tell, counts as many sent, and never counts
      more displayed or acknowledged. */
  lemma {:induction false} ArchivingUnseen(lib: Library, archiving: bool, u: World, v: World, ops: seq<Op>)
    requires WorldOK(u) && WorldOK(v) && Tracks(u, v) && LegalRun(lib, false, u, ops)
    ensures LegalRun(lib, archiving, v, ops)
    ensures Tracks(Exec(lib, false, u, ops), Exec(lib, archiving, v, ops))
    decreases |ops|
  {
    hide WorldOK, Tracks, Legal, Step;
    if ops != [] {
      StepTracks(lib, archiving, u, v, ops[0]);
      StepKeepsOK(lib, false, u, ops[0]);
      StepKeepsOK(lib, archiving, v, ops[0]);
      ArchivingUnseen(lib, archiving, Step(lib, false, u, ops[0]), Step(lib, archiving, v, ops[0]), ops[1..]);
    }
  }

  lemma TellsIffOwes(lib: Library, a: Alert, c: ClientInfo, t: Time)
    ensures Decide(lib, a, c, t) == TellRecall <==> OwesRecall(a, c.id, t)
  {
    hide Matching;
  }
}
