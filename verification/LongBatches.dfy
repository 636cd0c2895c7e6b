/** The limit of 200 events a request: up to it exactly-once delivery holds in every
    run, beyond it a receipt is lost that the client counts as delivered. */
module LongBatches {
  import opened Text
  import opened Targets
  import opened Validation
  import opened Deliveries
  import opened Runs
  import opened Promises
  import opened Receipts
  import P = Poller

  ghost predicate DeliveredUpTo(s: System, base: World, id: string, cid: string, times: seq<Time>) {
    var x := Find(s.world.alerts, id);
    && s.done <= |times| <= |s.history|
    && (x.Some? && HasRecord(x.value, cid) ==>
          Receipt(Record(x.value, cid)) == Replay(Before(base, id, cid), id, s.history[..|times|], times))
  }

  /** The record equals a prefix of the client's history, applied once and in order,
      that covers every answered batch. */
  ghost predicate Delivered(s: System, base: World, id: string, cid: string) {
    exists times :: DeliveredUpTo(s, base, id, cid, times)
  }

  lemma OKDelivered(s: System, base: World, id: string, cid: string)
    requires SystemOK(s, base, id, cid)
    ensures Delivered(s, base, id, cid)
  {
    hide Find, Replay, Receipt, WorldOK, ToldOK;
    assert DeliveredUpTo(s, base, id, cid, s.times);
  }

  // ---- a run that loses a receipt ----

  /** An alert displayed two hundred times over before it is acknowledged. */
  function Overlong(id: string): (es: seq<Event>)
    ensures |es| == MAX_EVENTS + 1 && es[MAX_EVENTS] == Event(id, Acknowledged)
    ensures es[..MAX_EVENTS] == Repeat(Event(id, Displayed), MAX_EVENTS)
    ensures forall i :: 0 <= i < |es| ==> es[i].alertID == id
  {
    Repeat(Event(id, Displayed), MAX_EVENTS) + [Event(id, Acknowledged)]
  }

  function Queues(es: seq<Event>): (acts: seq<Action>)
    ensures |acts| == |es| && forall i :: 0 <= i < |es| ==> acts[i] == Queue(es[i])
  {
    seq(|es|, i requires 0 <= i < |es| => Queue(es[i]))
  }

  lemma RunCons(lib: Library, s: System, cid: string, act: Action, rest: seq<Action>, most: nat)
    ensures ExecAll(lib, s, cid, [act] + rest) == ExecAll(lib, Next(lib, s, cid, act), cid, rest)
    ensures EnabledRun(lib, s, cid, [act] + rest, most)
       <==> Enabled(s, cid, act) && Short(s, act, most) && EnabledRun(lib, Next(lib, s, cid, act), cid, rest, most)
  {
    hide Next, Enabled, Short;
    assert ([act] + rest)[1..] == rest;
  }

  /** Events pile up while the poller is idle. */
  lemma {:induction false} QueueRun(lib: Library, s: System, cid: string, es: seq<Event>, rest: seq<Action>, most: nat)
    requires s.poller.phase == P.Idle
    requires forall i :: 0 <= i < |es| ==> SentTimes(s.world.sends, es[i].alertID, cid) != []
    ensures var t := s.(poller := s.poller.(pending := s.poller.pending + es), history := s.history + es);
            && ExecAll(lib, s, cid, Queues(es) + rest) == ExecAll(lib, t, cid, rest)
            && (EnabledRun(lib, s, cid, Queues(es) + rest, most) <==> EnabledRun(lib, t, cid, rest, most))
    decreases |es|
  {
    hide SentTimes, ExecAll, EnabledRun, Step;
    if es == [] {
      assert s.poller.pending + es == s.poller.pending && s.history + es == s.history && Queues(es) + rest == rest;
    } else {
      var s' := Next(lib, s, cid, Queue(es[0]));
      assert Queues(es) + rest == [Queue(es[0])] + (Queues(es[1..]) + rest);
      RunCons(lib, s, cid, Queue(es[0]), Queues(es[1..]) + rest, most);
      QueueRun(lib, s', cid, es[1..], rest, most);
      assert s'.poller.pending + es[1..] == s.poller.pending + es;
      assert s'.history + es[1..] == s.history + es;
    }
  }

  /** The poller takes everything it has, sends it, and gets its reply. */
  function RoundTrip(n: nat, at: Time): seq<Action> {
    [Snapshot, Register, Arrive(n, at), Reply, Finish]
  }

  /** Where that leads. */
  function AfterRoundTrip(lib: Library, s: System, cid: string, at: Time): System {
    var es := s.poller.pending;
    var to := s.done + |es|;
    System(Step(lib, true, s.world, Report(cid, es, at)), P.State(P.Idle, [], [], false), s.history, to,
           s.requests + [Span(s.done, to)], s.arrived + {|s.requests|}, Extended(s.times, to, at))
  }

  lemma RoundTripRun(lib: Library, s: System, cid: string, at: Time, most: nat)
    requires s.poller.phase == P.Idle && |s.poller.pending| <= most
    requires s.done <= |s.history| && s.poller.pending == s.history[s.done..]
    ensures EnabledRun(lib, s, cid, RoundTrip(|s.requests|, at), most)
    ensures ExecAll(lib, s, cid, RoundTrip(|s.requests|, at)) == AfterRoundTrip(lib, s, cid, at)
  {
    var n := |s.requests|;
    RoundTripStates(lib, s, cid, at, most);
    hide Next, Enabled, Short, AfterRoundTrip;
    var s1 := Next(lib, s, cid, Snapshot);
    var s2 := Next(lib, s1, cid, Register);
    var s3 := Next(lib, s2, cid, Arrive(n, at));
    var s4 := Next(lib, s3, cid, Reply);
    assert RoundTrip(n, at) == [Snapshot] + ([Register] + ([Arrive(n, at)] + ([Reply] + ([Finish] + []))));
    RunCons(lib, s4, cid, Finish, [], most);
    RunCons(lib, s3, cid, Reply, [Finish] + [], most);
    RunCons(lib, s2, cid, Arrive(n, at), [Reply] + ([Finish] + []), most);
    RunCons(lib, s1, cid, Register, [Arrive(n, at)] + ([Reply] + ([Finish] + [])), most);
    RunCons(lib, s, cid, Snapshot, [Register] + ([Arrive(n, at)] + ([Reply] + ([Finish] + []))), most);
  }

  lemma RoundTripStates(lib: Library, s: System, cid: string, at: Time, most: nat)
    requires s.poller.phase == P.Idle && |s.poller.pending| <= most
    requires s.done <= |s.history| && s.poller.pending == s.history[s.done..]
    ensures var s1 := Next(lib, s, cid, Snapshot);
            var s2 := Next(lib, s1, cid, Register);
            var arrive := Arrive(|s.requests|, at);
            var s3 := Next(lib, s2, cid, arrive);
            var s4 := Next(lib, s3, cid, Reply);
            && Enabled(s, cid, Snapshot) && Enabled(s1, cid, Register) && Enabled(s2, cid, arrive)
            && Enabled(s3, cid, Reply) && Enabled(s4, cid, Finish)
            && Short(s, Snapshot, most) && Short(s1, Register, most) && Short(s2, arrive, most)
            && Short(s3, Reply, most) && Short(s4, Finish, most)
            && Next(lib, s4, cid, Finish) == AfterRoundTrip(lib, s, cid, at)
  {
    hide Step;
    var s2 := Next(lib, Next(lib, s, cid, Snapshot), cid, Register);
    assert s.history[s.done..|s.history|] == s.history[s.done..];
    assert Batch(s2, |s.requests|) == s.poller.pending;
  }

  /** An idle client with an unacknowledged alert queues 201 events, the last of them
      the acknowledgement, and sends them in one batch. The reply comes, nothing is
      left to send, and the server never hears that the alert was acknowledged. */
  lemma LosesAcknowledgement(lib: Library, w: World, id: string, cid: string, at: Time, most: nat)
    requires WorldOK(w) && SentTimes(w.sends, id, cid) != [] && most > MAX_EVENTS
    requires var x := Find(w.alerts, id); x.Some? && HasRecord(x.value, cid) && Record(x.value, cid).ackedAt.None?
    ensures var acts := Queues(Overlong(id)) + RoundTrip(0, at);
            var s := ExecAll(lib, NewProcess(w), cid, acts);
            var x := Find(s.world.alerts, id);
            && EnabledRun(lib, NewProcess(w), cid, acts, most)
            && s.done == |s.history| == MAX_EVENTS + 1 && s.history[MAX_EVENTS] == Event(id, Acknowledged)
            && s.poller == P.State(P.Idle, [], [], false)
            && x.Some? && HasRecord(x.value, cid) && Record(x.value, cid).ackedAt.None?
  {
    hide WorldOK, SentTimes, Step, ExecAll, EnabledRun, Find, AfterRoundTrip, RoundTrip;
    var es := Overlong(id);
    QueueRun(lib, NewProcess(w), cid, es, RoundTrip(0, at), most);
    var s := System(w, P.State(P.Idle, es, [], false), es, 0, [], {}, []);
    assert [] + es == es && es[0..] == es;
    RoundTripRun(lib, s, cid, at, most);
    AckUnread(lib, w, id, cid, es, at);
    AfterIs(lib, s, cid, at);
  }

  lemma AfterIs(lib: Library, s: System, cid: string, at: Time)
    ensures var t := AfterRoundTrip(lib, s, cid, at);
            && t.world == Step(lib, true, s.world, Report(cid, s.poller.pending, at)) && t.history == s.history
            && t.done == s.done + |s.poller.pending| && t.poller == P.State(P.Idle, [], [], false)
  {
  }

  lemma AckUnread(lib: Library, w: World, id: string, cid: string, es: seq<Event>, at: Time)
    requires WorldOK(w) && es == Overlong(id)
    requires var x := Find(w.alerts, id); x.Some? && HasRecord(x.value, cid) && Record(x.value, cid).ackedAt.None?
    ensures var y := Find(Step(lib, true, w, Report(cid, es, at)).alerts, id);
            y.Some? && HasRecord(y.value, cid) && Record(y.value, cid).ackedAt.None?
  {
    hide WorldOK, Step, ApplyKinds, Repeat;
    var op := Report(cid, es, at);
    var x := Find(w.alerts, id).value;
    ReportFinds(lib, true, w, op, IndexOf(w.alerts, id));
    FindStep(lib, true, w, op, id);
    assert Truncated(es) == Repeat(Event(id, Displayed), MAX_EVENTS);
    KindsMeaning(Record(x, cid), id, Truncated(es), at);
  }

  // ---- the limit is exact ----

  /** A store with one alert, sent to one computer. */
  function OneAlert(): World {
    var spec := AlertSpec("", "", "", "", false, 0, false, "", 1, Target(true, [], []));
    var a := NewAlert("x", spec, [], "", "", 0);
    World(0, [WithRecord(a, "c", BLANK)], true, [], [a], [SendEntry(0, "x", "c")], [])
  }

  lemma OneAlertOK()
    ensures var w := OneAlert();
            && WorldOK(w) && ToldOK(w, "x", "c") && SentTimes(w.sends, "x", "c") != []
            && Find(w.alerts, "x") == Some(w.alerts[0]) && HasRecord(w.alerts[0], "c") && Record(w.alerts[0], "c") == BLANK
  {
    var w := OneAlert();
    var a := w.history[0];
    NewAlertOK(a.id, a.spec, [], "", "", 0);
    RecordStep(a, "c", BLANK);
    hide TotalsOf, AlertOK;
    FindAt(w.alerts, 0);
    FindAt(w.history, 0);
    assert SentTimes(w.sends, "x", "c") == SentTimes(w.sends[..0], "x", "c") + [0];
  }

  /** Receipts are delivered in every run with batches of at most `most` events if and
      only if `most` is at most 200. */
  lemma ExactlyOnceIff(lib: Library, most: nat)
    ensures (forall w, id, cid, acts ::
               WorldOK(w) && ToldOK(w, id, cid) && EnabledRun(lib, NewProcess(w), cid, acts, most) ==>
                 Delivered(ExecAll(lib, NewProcess(w), cid, acts), w, id, cid))
       <==> most <= MAX_EVENTS
  {
    hide WorldOK, ToldOK, EnabledRun, ExecAll, Delivered, NewProcess, Find, SystemOK;
    if most <= MAX_EVENTS {
      forall w, id, cid, acts
        | WorldOK(w) && ToldOK(w, id, cid) && EnabledRun(lib, NewProcess(w), cid, acts, most)
        ensures Delivered(ExecAll(lib, NewProcess(w), cid, acts), w, id, cid)
      {
        ShorterRun(lib, NewProcess(w), cid, acts, most);
        StartsOK(w, id, cid);
        ExactlyOnce(lib, NewProcess(w), w, id, cid, acts);
        OKDelivered(ExecAll(lib, NewProcess(w), cid, acts), w, id, cid);
      }
    } else {
      var w := OneAlert();
      OneAlertOK();
      LosesAcknowledgement(lib, w, "x", "c", 0, most);
      var s := ExecAll(lib, NewProcess(w), "c", Queues(Overlong("x")) + RoundTrip(0, 0));
      NotDelivered(s, w, "x", "c");
    }
  }

  lemma {:induction false} ShorterRun(lib: Library, s: System, cid: string, acts: seq<Action>, most: nat)
    requires EnabledRun(lib, s, cid, acts, most) && most <= MAX_EVENTS
    ensures EnabledRun(lib, s, cid, acts, MAX_EVENTS)
    decreases |acts|
  {
    hide Next, Enabled;
    if acts != [] {
      ShorterRun(lib, Next(lib, s, cid, acts[0]), cid, acts[1..], most);
    }
  }

  lemma NotDelivered(s: System, base: World, id: string, cid: string)
    requires 0 < s.done == |s.history| && s.history[s.done - 1] == Event(id, Acknowledged)
    requires var x := Find(s.world.alerts, id); x.Some? && HasRecord(x.value, cid) && Record(x.value, cid).ackedAt.None?
    ensures !Delivered(s, base, id, cid)
  {
    hide Find, Absorbed;
    forall times | DeliveredUpTo(s, base, id, cid, times) ensures false {
      var r := Replay(Before(base, id, cid), id, s.history[..|times|], times);
      ReplayAbsorbs(Before(base, id, cid), id, s.history[..|times|], times, s.done - 1);
      AbsorbedIff(r, Acknowledged);
      assert false;
    }
  }
}
