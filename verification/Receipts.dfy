/** Receipts over an unreliable network: batches are sent at least once, their
    effect on the server is as if every event had been applied exactly once. */
module Receipts {
  import opened Text
  import opened Targets
  import opened Deliveries
  import opened Runs
  import opened Promises
  import P = Poller
  import opened Validation

  // ---- replaying a history of events ----

  /** The part of a record that receipts write. */
  function Receipt(d: Delivery): Delivery {
    d.(hostname := "", user := "", sid := "", sentAt := 0, recallSent := false)
  }

  const BLANK: Delivery := Delivery("", "", "", 0, None, None, None, None, false)

  /** Every event about `id`, applied once and in order, each at its own time. */
  function Replay(d: Delivery, id: string, events: seq<Event>, times: seq<Time>): Delivery
    requires |events| == |times|
  {
    if events == [] then d
    else
      var n := |events| - 1;
      var before := Replay(d, id, events[..n], times[..n]);
      if events[n].alertID == id then ApplyEvent(before, events[n].kind, times[n]) else before
  }

  /** Applying `kind` again would change nothing, whenever it is applied. */
  ghost predicate Absorbed(d: Delivery, kind: EventKind) {
    forall t :: ApplyEvent(d, kind, t) == d
  }

  lemma AbsorbedIff(d: Delivery, kind: EventKind)
    ensures Absorbed(d, kind) <==>
      match kind
      case Displayed => d.displayedAt.Some?
      case Acknowledged => d.displayedAt.Some? && d.ackedAt.Some?
      case Unknown(_) => true
      case _ => d.closedAt.Some?
  {
    var t := if d.closedAt.Some? then d.closedAt.value + 1 else 0;
    assert ApplyEvent(d, kind, t) == d || ApplyEvent(d, kind, t) != d;
  }

  lemma AbsorbedStays(d: Delivery, kind: EventKind, next: EventKind, t: Time)
    requires Absorbed(d, kind)
    ensures Absorbed(ApplyEvent(d, next, t), kind)
  {
    hide Absorbed;
    AbsorbedIff(d, kind);
    AbsorbedIff(ApplyEvent(d, next, t), kind);
  }

  lemma AbsorbedOnceApplied(d: Delivery, kind: EventKind, t: Time)
    ensures Absorbed(ApplyEvent(d, kind, t), kind)
  {
    hide Absorbed;
    AbsorbedIff(ApplyEvent(d, kind, t), kind);
  }

  /** Everything that was replayed is absorbed from then on. */
  lemma {:induction false} ReplayAbsorbs(d: Delivery, id: string, events: seq<Event>, times: seq<Time>, i: nat)
    requires |events| == |times| && i < |events| && events[i].alertID == id
    ensures Absorbed(Replay(d, id, events, times), events[i].kind)
    decreases |events|
  {
    hide Absorbed, ApplyEvent;
    var n := |events| - 1;
    var before := Replay(d, id, events[..n], times[..n]);
    if i == n {
      AbsorbedOnceApplied(before, events[n].kind, times[n]);
    } else {
      ReplayAbsorbs(d, id, events[..n], times[..n], i);
      AbsorbedStays(before, events[i].kind, events[n].kind, times[n]);
    }
  }

  lemma {:induction false} ApplyAbsorbed(d: Delivery, id: string, events: seq<Event>, t: Time)
    requires forall i :: 0 <= i < |events| && events[i].alertID == id ==> Absorbed(d, events[i].kind)
    ensures ApplyKinds(d, id, events, t) == d
  {
    if events != [] {
      ApplyAbsorbed(d, id, events[..|events| - 1], t);
    }
  }

  lemma {:induction false} ApplyKindsConcat(d: Delivery, id: string, xs: seq<Event>, ys: seq<Event>, t: Time)
    ensures ApplyKinds(d, id, xs + ys, t) == ApplyKinds(ApplyKinds(d, id, xs, t), id, ys, t)
    decreases |ys|
  {
    if ys == [] {
      assert xs + ys == xs;
    } else {
      var n := |ys| - 1;
      assert (xs + ys)[..|xs + ys| - 1] == xs + ys[..n];
      ApplyKindsConcat(d, id, xs, ys[..n], t);
    }
  }

  lemma {:induction false} ReplayExtends(d: Delivery, id: string, xs: seq<Event>, times: seq<Time>, ys: seq<Event>, t: Time)
    requires |xs| == |times|
    ensures Replay(d, id, xs + ys, times + Repeat(t, |ys|)) == ApplyKinds(Replay(d, id, xs, times), id, ys, t)
    decreases |ys|
  {
    if ys == [] {
      assert xs + ys == xs && times + Repeat(t, 0) == times;
    } else {
      var n := |ys| - 1;
      assert (xs + ys)[..|xs + ys| - 1] == xs + ys[..n];
      assert (times + Repeat(t, |ys|))[..|xs + ys| - 1] == times + Repeat(t, n);
      ReplayExtends(d, id, xs, times, ys[..n], t);
    }
  }

  function Extended(times: seq<Time>, upTo: nat, t: Time): (r: seq<Time>)
    ensures |r| == if upTo > |times| then upTo else |times|
  {
    if upTo > |times| then times + Repeat(t, upTo - |times|) else times
  }

  lemma RepeatIsAbsorbed(d: Delivery, id: string, events: seq<Event>, times: seq<Time>, a: nat, m: nat, t: Time)
    requires a <= m <= |events| == |times|
    ensures ApplyKinds(Replay(d, id, events, times), id, events[a..m], t) == Replay(d, id, events, times)
  {
    hide Absorbed, Replay, ApplyKinds;
    var r := Replay(d, id, events, times);
    forall i | 0 <= i < |events[a..m]| && events[a..m][i].alertID == id
      ensures Absorbed(r, events[a..m][i].kind)
    {
      ReplayAbsorbs(d, id, events, times, a + i);
    }
    ApplyAbsorbed(r, id, events[a..m], t);
  }

  /** The heart of the matter: a batch that starts no later than what was applied
      already, however late or often it arrives, leaves the record as if the
      history had been replayed once up to the further of the two ends. */
  lemma LateBatchIsHarmless(d: Delivery, id: string, history: seq<Event>, times: seq<Time>, a: nat, b: nat, t: Time)
    requires a <= |times| <= |history| && a <= b <= |history|
    ensures var times' := Extended(times, b, t);
            ApplyKinds(Replay(d, id, history[..|times|], times), id, history[a..b], t)
            == Replay(d, id, history[..|times'|], times')
  {
    hide Replay, ApplyKinds;
    var n := |times|;
    var r := Replay(d, id, history[..n], times);
    if b <= n {
      assert forall k :: a <= k < b ==> history[..n][k] == history[k];
      assert history[a..b] == history[..n][a..b];
      RepeatIsAbsorbed(d, id, history[..n], times, a, b, t);
    } else {
      assert history[a..b] == history[..n][a..n] + history[n..b];
      RepeatIsAbsorbed(d, id, history[..n], times, a, n, t);
      ApplyKindsConcat(r, id, history[..n][a..n], history[n..b], t);
      assert history[..b] == history[..n] + history[n..b];
      ReplayExtends(d, id, history[..n], times, history[n..b], t);
    }
  }

  lemma {:induction false} ReceiptCommutes(d: Delivery, id: string, events: seq<Event>, t: Time)
    ensures Receipt(ApplyKinds(d, id, events, t)) == ApplyKinds(Receipt(d), id, events, t)
  {
    if events != [] {
      ReceiptCommutes(d, id, events[..|events| - 1], t);
    }
  }

  /** The first event about `id` of one of the given kinds, or -1. */
  function First(id: string, kinds: set<EventKind>, events: seq<Event>): (i: int)
    ensures -1 <= i < |events|
    ensures i >= 0 ==> events[i].alertID == id && events[i].kind in kinds
    ensures forall j :: 0 <= j < (if i >= 0 then i else |events|) ==> !(events[j].alertID == id && events[j].kind in kinds)
  {
    if events == [] then -1
    else
      var n := |events| - 1;
      var i := First(id, kinds, events[..n]);
      if i >= 0 then i else if events[n].alertID == id && events[n].kind in kinds then n else -1
  }

  function At<T>(s: seq<T>, i: int): Option<T>
    requires i < |s|
  {
    if i >= 0 then Some(s[i]) else None
  }

  function Or<T>(a: Option<T>, b: Option<T>): Option<T> {
    if a.Some? then a else b
  }

  const SHOWING: set<EventKind> := {Displayed, Acknowledged}
  const CLOSING: set<EventKind> := {Dismissed, TimedOut, Recalled}

  /** `r` is `d` after receipts of which the first to show, to acknowledge and to close
      without acknowledging came at these times, the last for reason `why`. */
  predicate Stamped(r: Delivery, d: Delivery, shown: Option<Time>, acked: Option<Time>, shut: Option<Time>, why: Option<EventKind>) {
    && r.displayedAt == Or(d.displayedAt, shown)
    && r.ackedAt == Or(d.ackedAt, acked)
    && r.closedAt == (if d.ackedAt.Some? then d.closedAt else Or(acked, Or(d.closedAt, shut)))
    && r.closeReason == (if r.ackedAt.Some? then Some(Acknowledged) else Or(d.closeReason, why))
  }

  /** What a record says after a history of receipts: each stamp was there before or
      is the time of the first receipt that sets it, and the reason is the
      acknowledgement if there is one, else what first closed the alert. */
  predicate Says(r: Delivery, d: Delivery, id: string, events: seq<Event>, times: seq<Time>)
    requires |events| == |times|
  {
    var shut := First(id, CLOSING, events);
    Stamped(r, d, At(times, First(id, SHOWING, events)), At(times, First(id, {Acknowledged}, events)),
            At(times, shut), if shut >= 0 then Some(events[shut].kind) else None)
  }

  lemma {:induction false} ReplayMeaning(d: Delivery, id: string, events: seq<Event>, times: seq<Time>)
    requires |events| == |times| && RecordOK(d)
    ensures RecordOK(Replay(d, id, events, times))
    ensures Says(Replay(d, id, events, times), d, id, events, times)
  {
    if events != [] {
      var n := |events| - 1;
      ReplayMeaning(d, id, events[..n], times[..n]);
      SaysNext(Replay(d, id, events[..n], times[..n]), d, id, events, times);
    }
  }

  lemma SaysNext(r: Delivery, d: Delivery, id: string, events: seq<Event>, times: seq<Time>)
    requires |events| == |times| && events != [] && RecordOK(d) && RecordOK(r)
    requires var n := |events| - 1; Says(r, d, id, events[..n], times[..n])
    ensures var n := |events| - 1;
            var e := if events[n].alertID == id then ApplyEvent(r, events[n].kind, times[n]) else r;
            RecordOK(e) && Says(e, d, id, events, times)
  {
    hide Stamped;
    var n := |events| - 1;
    FirstNext(id, SHOWING, events, times);
    FirstNext(id, {Acknowledged}, events, times);
    FirstNext(id, CLOSING, events, times);
    hide First;
    if events[n].alertID == id {
      var shut := First(id, CLOSING, events[..n]);
      StampedNext(r, d, events[n].kind, times[n],
                  At(times[..n], First(id, SHOWING, events[..n])), At(times[..n], First(id, {Acknowledged}, events[..n])),
                  At(times[..n], shut), if shut >= 0 then Some(events[shut].kind) else None);
    }
  }

  lemma StampedNext(r: Delivery, d: Delivery, kind: EventKind, t: Time,
                    shown: Option<Time>, acked: Option<Time>, shut: Option<Time>, why: Option<EventKind>)
    requires RecordOK(d) && RecordOK(r) && Stamped(r, d, shown, acked, shut, why) && (shut.Some? <==> why.Some?)
    ensures RecordOK(ApplyEvent(r, kind, t))
    ensures Stamped(ApplyEvent(r, kind, t), d,
                    if kind in SHOWING then Or(shown, Some(t)) else shown, if kind == Acknowledged then Or(acked, Some(t)) else acked,
                    if kind in CLOSING then Or(shut, Some(t)) else shut, if kind in CLOSING then Or(why, Some(kind)) else why)
  {
  }

  lemma FirstNext(id: string, kinds: set<EventKind>, events: seq<Event>, times: seq<Time>)
    requires |events| == |times| && events != []
    ensures var n := |events| - 1; var i, j := First(id, kinds, events[..n]), First(id, kinds, events);
            var hit := events[n].alertID == id && events[n].kind in kinds;
            && j == (if i >= 0 then i else if hit then n else -1)
            && At(times, j) == if hit then Or(At(times[..n], i), Some(times[n])) else At(times[..n], i)
  {
  }

  // ---- client, network and server together ----

  /** A request carries the events `[first, last)` of the client's history. */
  datatype Span = Span(first: nat, last: nat)

  /** `history` is every event the client process ever queued and `done` how many
      of them a completed reply has covered. `requests` are the batches ever put
      on the network, `arrived` those the server has handled at least once.
      `times` records when the server was first handed each event it was handed. */
  datatype System = System(
    world: World, poller: P.State, history: seq<Event>, done: nat,
    requests: seq<Span>, arrived: set<nat>, times: seq<Time>)

  datatype Action =
    | Queue(event: Event)
    | Snapshot
    | Register
    | Arrive(request: nat, at: Time)
    | Reply
    | Finish
    | Fail
    | Requeue
    | Server(op: Op)

  /** Request `r` was put on the network. */
  predicate OnTheWay(s: System, r: nat) {
    r < |s.requests| && s.requests[r].first <= s.requests[r].last <= |s.history|
  }

  function Batch(s: System, r: nat): seq<Event>
    requires OnTheWay(s, r)
  {
    s.history[s.requests[r].first..s.requests[r].last]
  }

  /** Requests may arrive late, twice or never, and the reply may be lost; a reply
      comes only after the request has been handled. A client reports only on
      alerts that were sent to it. */
  ghost predicate Enabled(s: System, cid: string, act: Action) {
    match act
    case Queue(e) => SentTimes(s.world.sends, e.alertID, cid) != []
    case Snapshot => s.poller.phase == P.Idle
    case Register => s.poller.phase == P.Prepared
    case Arrive(r, _) => OnTheWay(s, r)
    case Reply => s.poller.phase == P.Open && |s.requests| > 0 && |s.requests| - 1 in s.arrived
    case Finish => s.poller.phase == P.Replied
    case Fail => s.poller.phase == P.Prepared || s.poller.phase == P.Open || s.poller.phase == P.Replied
    case Requeue => s.poller.phase == P.Failed
    case Server(op) => Legal(s.world, op) && !(op.Report? && op.cid == cid)
  }

  function Next(lib: Library, s: System, cid: string, act: Action): System {
    match act
    case Queue(e) => s.(poller := P.Queue(s.poller, e), history := s.history + [e])
    case Snapshot => s.(poller := P.Take(s.poller))
    case Register =>
      var p := P.Track(s.poller);
      s.(poller := p,
         requests := if p.phase == P.Open then s.requests + [Span(s.done, s.done + |p.sending|)] else s.requests)
    case Arrive(r, t) =>
      if !OnTheWay(s, r) then s
      else s.(world := Step(lib, true, s.world, Report(cid, Batch(s, r), t)),
              arrived := s.arrived + {r}, times := Extended(s.times, s.requests[r].last, t))
    case Reply => s.(poller := s.poller.(phase := P.Replied))
    case Finish => s.(poller := P.Finish(s.poller), done := s.done + |s.poller.sending|)
    case Fail => s.(poller := s.poller.(phase := P.Failed))
    case Requeue => s.(poller := P.Requeue(s.poller))
    case Server(op) => s.(world := Step(lib, true, s.world, op))
  }

  function ExecAll(lib: Library, s: System, cid: string, acts: seq<Action>): System
    decreases |acts|
  {
    if acts == [] then s else ExecAll(lib, Next(lib, s, cid, acts[0]), cid, acts[1..])
  }

  /** No batch is longer than `most`. */
  predicate Short(s: System, act: Action, most: nat) {
    act.Snapshot? ==> |s.poller.pending| <= most
  }

  ghost predicate EnabledRun(lib: Library, s: System, cid: string, acts: seq<Action>, most: nat)
    decreases |acts|
  {
    acts == []
    || (&& Enabled(s, cid, acts[0]) && Short(s, acts[0], most)
        && EnabledRun(lib, Next(lib, s, cid, acts[0]), cid, acts[1..], most))
  }

  /** What the client process found on the server when it started. */
  function Before(base: World, id: string, cid: string): Delivery {
    var x := Find(base.alerts, id);
    if x.Some? && HasRecord(x.value, cid) then Receipt(Record(x.value, cid)) else BLANK
  }

  /** Nothing is lost and nothing is out of order on the client: what is done,
      what is being sent and what is pending make up the history. An open request
      is aborted exactly when there is news, and an abort of our own, which is
      followed by no pause, is always for news. */
  ghost predicate ClientOK(s: System) {
    var p := s.poller; var sent := s.done + |p.sending|;
    && (p.phase == P.Idle ==> p.sending == [])
    && sent + |p.pending| == |s.history|
    && p.sending == s.history[s.done..sent]
    && p.pending == s.history[sent..]
    && |p.sending| <= MAX_EVENTS
    && (p.phase == P.Open ==> (p.abortedByUs <==> p.pending != []))
    && (p.abortedByUs && p.phase != P.Idle ==> p.pending != [])
    && (p.phase == P.Open || p.phase == P.Replied ==>
          |s.requests| > 0 && s.requests[|s.requests| - 1] == Span(s.done, sent))
    && (p.phase == P.Replied ==> |s.requests| - 1 in s.arrived)
  }

  ghost predicate NetworkOK(s: System) {
    && s.done <= |s.times| <= |s.history|
    && (forall r :: 0 <= r < |s.requests| ==>
          s.requests[r].first <= s.done && s.requests[r].first <= s.requests[r].last <= |s.history|
          && s.requests[r].last - s.requests[r].first <= MAX_EVENTS)
    && (forall r :: r in s.arrived ==> r < |s.requests| && s.requests[r].last <= |s.times|)
  }

  /** The record of alert `id` equals the replay, once and in order, of a prefix
      of the history that covers everything done. */
  ghost predicate ServerOK(s: System, base: World, id: string, cid: string)
    requires |s.times| <= |s.history|
  {
    var x := Find(s.world.alerts, id);
    && ToldOK(s.world, id, cid)
    && (x.Some? && HasRecord(x.value, cid) ==>
          Receipt(Record(x.value, cid)) == Replay(Before(base, id, cid), id, s.history[..|s.times|], s.times))
    && (forall i :: 0 <= i < |s.history| && s.history[i].alertID == id ==> SentTimes(s.world.sends, id, cid) != [])
    && (SentTimes(s.world.sends, id, cid) == [] ==> Before(base, id, cid) == BLANK)
  }

  ghost predicate SystemOK(s: System, base: World, id: string, cid: string) {
    WorldOK(s.world) && ClientOK(s) && NetworkOK(s) && ServerOK(s, base, id, cid)
  }

  lemma QueueKeeps(s: System, e: Event)
    requires ClientOK(s) && NetworkOK(s)
    ensures var s' := s.(poller := P.Queue(s.poller, e), history := s.history + [e]); ClientOK(s') && NetworkOK(s')
  {
    var sent, h := s.done + |s.poller.sending|, s.history + [e];
    assert h[s.done..sent] == s.history[s.done..sent];
    assert h[sent..] == s.history[sent..] + [e];
  }

  lemma RegisterKeeps(lib: Library, s: System, cid: string)
    requires ClientOK(s) && NetworkOK(s) && s.poller.phase == P.Prepared
    ensures var s' := Next(lib, s, cid, Register); ClientOK(s') && NetworkOK(s')
  {
    hide Step;
  }

  lemma ArriveKeepsClient(lib: Library, s: System, cid: string, r: nat, at: Time)
    requires ClientOK(s) && NetworkOK(s) && Enabled(s, cid, Arrive(r, at))
    ensures var s' := Next(lib, s, cid, Arrive(r, at)); ClientOK(s') && NetworkOK(s')
  {
    hide Step;
  }

  lemma FinishKeeps(s: System)
    requires ClientOK(s) && NetworkOK(s) && s.poller.phase == P.Replied
    ensures var s' := s.(poller := P.Finish(s.poller), done := s.done + |s.poller.sending|); ClientOK(s') && NetworkOK(s')
  {
  }

  lemma RequeueKeeps(s: System)
    requires ClientOK(s) && NetworkOK(s)
    ensures var s' := s.(poller := P.Requeue(s.poller)); ClientOK(s') && NetworkOK(s')
  {
    assert s.history[s.done..] == s.poller.sending + s.poller.pending;
  }

  lemma LocalKeeps(lib: Library, s: System, cid: string, act: Action)
    requires ClientOK(s) && NetworkOK(s) && Enabled(s, cid, act) && Short(s, act, MAX_EVENTS)
    requires act.Snapshot? || act.Reply? || act.Fail? || act.Server?
    ensures var s' := Next(lib, s, cid, act); ClientOK(s') && NetworkOK(s')
  {
    hide Step, Legal, SentTimes;
  }

  lemma ClientStep(lib: Library, s: System, cid: string, act: Action)
    requires ClientOK(s) && NetworkOK(s) && Enabled(s, cid, act) && Short(s, act, MAX_EVENTS)
    ensures ClientOK(Next(lib, s, cid, act)) && NetworkOK(Next(lib, s, cid, act))
  {
    hide Step, Legal, SentTimes, ClientOK, NetworkOK;
    match act {
      case Queue(e) => QueueKeeps(s, e);
      case Register => RegisterKeeps(lib, s, cid);
      case Arrive(r, at) => ArriveKeepsClient(lib, s, cid, r, at);
      case Finish => FinishKeeps(s);
      case Requeue => RequeueKeeps(s);
      case _ => LocalKeeps(lib, s, cid, act);
    }
  }

  lemma {:induction false} ReplayForeign(d: Delivery, id: string, events: seq<Event>, times: seq<Time>)
    requires |events| == |times| && forall i :: 0 <= i < |events| ==> events[i].alertID != id
    ensures Replay(d, id, events, times) == d
  {
    if events != [] {
      ReplayForeign(d, id, events[..|events| - 1], times[..|times| - 1]);
    }
  }

  /** No operation but a report from `cid` touches what `cid` has reported. */
  lemma ReceiptUntouched(lib: Library, op: Op, now: Time, a: Alert, b: Alert, cid: string)
    requires Evolves(lib, op, now, a, b) && HasRecord(b, cid) && !(op.Report? && op.cid == cid)
    ensures Receipt(Record(b, cid)) == if HasRecord(a, cid) then Receipt(Record(a, cid)) else BLANK
  {
    hide Matching, ApplyKinds;
  }

  lemma ServerStep(lib: Library, s: System, base: World, id: string, cid: string, op: Op)
    requires SystemOK(s, base, id, cid) && Enabled(s, cid, Server(op))
    ensures ServerOK(Next(lib, s, cid, Server(op)), base, id, cid)
  {
    hide Step, WorldOK, Legal, Find, Evolves, Draws, SentTimes, ToldTimes, ClientOK, NetworkOK, Replay, Receipt, Before;
    assert |s.times| <= |s.history| by { TimesFit(s); }
    var w, w' := s.world, Step(lib, true, s.world, op);
    assert Legal(w, op) && !(op.Report? && op.cid == cid);
    ToldStep(lib, true, w, op, id, cid);
    hide ToldOK;
    FindStep(lib, true, w, op, id);
    LogStep(lib, true, w, op, id, cid);
    var x, y := Find(w.alerts, id), Find(w'.alerts, id);
    if y.Some? && HasRecord(y.value, cid) && x.Some? {
      ReceiptUntouched(lib, op, w.now, x.value, y.value, cid);
      if !HasRecord(x.value, cid) {
        EvolvesNeedsRecords(lib, op, w.now, x.value, y.value);
        ReplayForeign(BLANK, id, s.history[..|s.times|], s.times);
      }
    }
  }

  lemma TimesFit(s: System)
    requires NetworkOK(s)
    ensures |s.times| <= |s.history|
  {
  }

  lemma EvolvesNeedsRecords(lib: Library, op: Op, now: Time, a: Alert, b: Alert)
    requires Evolves(lib, op, now, a, b) && b.deliveries.Some?
    ensures a.deliveries.Some?
  {
    hide Matching, ApplyKinds;
  }

  lemma ArriveStep(lib: Library, s: System, base: World, id: string, cid: string, r: nat, t: Time)
    requires SystemOK(s, base, id, cid) && Enabled(s, cid, Arrive(r, t))
    ensures ServerOK(Next(lib, s, cid, Arrive(r, t)), base, id, cid)
  {
    hide ClientOK, Step, WorldOK, SentTimes, ToldTimes, ApplyKinds, Replay, ToldOK;
    var op := Report(cid, Batch(s, r), t);
    var w, w' := s.world, Step(lib, true, s.world, op);
    ToldStep(lib, true, w, op, id, cid);
    FindStep(lib, true, w, op, id);
    LogStep(lib, true, w, op, id, cid);
    var x, y := Find(w.alerts, id), Find(w'.alerts, id);
    assert Truncated(op.events) == op.events;
    if y.Some? && HasRecord(y.value, cid) {
      assert y.value == ApplyBatchToAlert(x.value, cid, op.events, t);
      ReceiptCommutes(Record(x.value, cid), id, op.events, t);
      LateBatchIsHarmless(Before(base, id, cid), id, s.history, s.times, s.requests[r].first, s.requests[r].last, t);
    }
    hide Find, Evolves, Receipt;
  }

  lemma SystemStep(lib: Library, s: System, base: World, id: string, cid: string, act: Action)
    requires SystemOK(s, base, id, cid) && Enabled(s, cid, act) && Short(s, act, MAX_EVENTS)
    ensures SystemOK(Next(lib, s, cid, act), base, id, cid)
  {
    hide ClientOK, NetworkOK, ServerOK, WorldOK, Step, Enabled;
    ClientStep(lib, s, cid, act);
    TimesFit(Next(lib, s, cid, act));
    match act {
      case Server(op) =>
        assert Legal(s.world, op) by { ServerLegal(s, cid, op); }
        StepKeepsOK(lib, true, s.world, op);
        ServerStep(lib, s, base, id, cid, op);
      case Arrive(r, t) =>
        WorldStays(lib, s, cid, r, t);
        ArriveStep(lib, s, base, id, cid, r, t);
      case _ =>
        assert Next(lib, s, cid, act).world == s.world;
        LocalServer(lib, s, base, id, cid, act);
    }
  }

  lemma ServerLegal(s: System, cid: string, op: Op)
    requires Enabled(s, cid, Server(op))
    ensures Legal(s.world, op)
  {
    hide Legal;
  }

  lemma WorldStays(lib: Library, s: System, cid: string, r: nat, t: Time)
    requires WorldOK(s.world) && Enabled(s, cid, Arrive(r, t))
    ensures WorldOK(Next(lib, s, cid, Arrive(r, t)).world)
  {
    hide WorldOK, Step;
    StepKeepsOK(lib, true, s.world, Report(cid, Batch(s, r), t));
  }

  /** What the client does on its own leaves the records, and the prefix they show. */
  lemma LocalServer(lib: Library, s: System, base: World, id: string, cid: string, act: Action)
    requires SystemOK(s, base, id, cid) && Enabled(s, cid, act) && !act.Server? && !act.Arrive?
    requires |Next(lib, s, cid, act).times| <= |Next(lib, s, cid, act).history|
    ensures ServerOK(Next(lib, s, cid, act), base, id, cid)
  {
    hide WorldOK, ToldOK, Find, ClientOK, NetworkOK, Before, Receipt, Replay, Step;
    assert |s.times| <= |s.history| by { TimesFit(s); }
    assert Next(lib, s, cid, act).history[..|s.times|] == s.history[..|s.times|];
  }

  /** Exactly-once effect of at-least-once delivery. In every run of the client,
      the network and the server the events on the client are exactly what is
      done, being sent or pending; and the record of every alert equals the
      events applied once and in order, up to a point that covers every batch
      that was answered. */
  lemma {:induction false} ExactlyOnce(lib: Library, s: System, base: World, id: string, cid: string, acts: seq<Action>)
    requires SystemOK(s, base, id, cid) && EnabledRun(lib, s, cid, acts, MAX_EVENTS)
    ensures SystemOK(ExecAll(lib, s, cid, acts), base, id, cid)
    decreases |acts|
  {
    hide SystemOK;
    if acts != [] {
      SystemStep(lib, s, base, id, cid, acts[0]);
      ExactlyOnce(lib, Next(lib, s, cid, acts[0]), base, id, cid, acts[1..]);
    }
  }

  /** So the server shows an alert as displayed, acknowledged and closed, and when and
      for what reason, exactly as the applied part of the history says. */
  lemma RecordSaysWhatWasReported(s: System, base: World, id: string, cid: string)
    requires SystemOK(s, base, id, cid) && WorldOK(base)
    requires Find(s.world.alerts, id).Some? && HasRecord(Find(s.world.alerts, id).value, cid)
    ensures s.done <= |s.times|
    ensures Says(Record(Find(s.world.alerts, id).value, cid), Before(base, id, cid), id, s.history[..|s.times|], s.times)
  {
    FindInHistory(base, id);
    ReplayMeaning(Before(base, id, cid), id, s.history[..|s.times|], s.times);
    hide WorldOK, Find, ToldOK, ClientOK, Replay, First;
    assert Receipt(Record(Find(s.world.alerts, id).value, cid)) == Replay(Before(base, id, cid), id, s.history[..|s.times|], s.times);
  }

  function NewProcess(w: World): System {
    System(w, P.State(P.Idle, [], [], false), [], 0, [], {}, [])
  }

  /** Any reachable store is a good place for a client process to start. */
  lemma StartsOK(w: World, id: string, cid: string)
    requires WorldOK(w) && ToldOK(w, id, cid)
    ensures SystemOK(NewProcess(w), w, id, cid)
  {
    hide WorldOK;
  }

  // ---- the limit of 200 ----

  /** A report is applied whole exactly when it holds no more than 200 events: for
      any longer length some report loses its end, though the client counts it
      as delivered. */
  lemma WholeBatchAppliedIff(n: nat)
    ensures (forall alerts, cid, events: seq<Event>, t | |events| == n ::
               ApplyBatch(alerts, cid, Truncated(events), t) == ApplyBatch(alerts, cid, events, t))
       <==> n <= MAX_EVENTS
  {
    if n > MAX_EVENTS {
      var a := NewAlert("a", AlertSpec("", "", "", "", false, 0, false, "", 1, Target(true, [], [])), [], "", "", 0);
      var alerts := [WithRecord(a, "c", BLANK)];
      var others := seq(n - 1, i => Event("b", Displayed));
      var events := others + [Event("a", Displayed)];
      assert events[..n - 1] == others && Truncated(events) == others[..MAX_EVENTS];
      ForeignBatch(alerts, "c", others, 0);
      ForeignBatch(alerts, "c", others[..MAX_EVENTS], 0);
      assert Record(ApplyBatch(alerts, "c", events, 0)[0], "c").displayedAt == Some(0);
      assert Record(alerts[0], "c").displayedAt == None;
    }
  }

  lemma {:induction false} ForeignBatch(alerts: seq<Alert>, cid: string, events: seq<Event>, t: Time)
    requires forall i, j :: 0 <= i < |alerts| && 0 <= j < |events| ==> alerts[i].id != events[j].alertID
    ensures ApplyBatch(alerts, cid, events, t) == alerts
    decreases |events|
  {
    if events != [] {
      ForeignBatch(alerts, cid, events[..|events| - 1], t);
    }
  }
}
