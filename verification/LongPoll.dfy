/** Held polls and the hub that wakes them (server/api_client.go). A poll takes the
    wake channel before it looks, so that news that lands in between still wakes it. */
module LongPoll {
  import opened Text
  import opened Targets
  import opened Deliveries
  import opened Runs

  /** Channels are numbered in the order the hub makes them; every number below
      the hub's current one has been closed. */
  type Channel = nat

  /** Where a poll stands: just started, holding a channel, having looked and found
      nothing, waiting, or done. */
  datatype Stage = Started | Grabbed | Looked | Parked | Done

  /** What a poll is answered with: the alerts to show and the ones to take down. */
  datatype Reply = Reply(alerts: seq<string>, recalled: seq<string>)

  /** `saw` is the client as the poll read it when it last looked, and `reply` is
      written when it is answered; a client that went away gets none. */
  datatype PollState = PollState(
    cid: string, wait: bool, stage: Stage, channel: Channel, saw: ClientInfo, reply: Option<Reply>)

  /** `publishers` are the sends and recalls that have changed the store and not
      yet run `hub.wake`, each with the alert it published. */
  datatype Server = Server(
    world: World, clients: map<string, ClientInfo>, current: Channel,
    polls: map<nat, PollState>, publishers: map<nat, string>,
    closing: bool, shutdownWoke: bool)

  datatype Move =
    | Arrive(poll: nat, client: ClientInfo, wait: bool)
    | Grab(poll: nat)
    | Look(poll: nat)
    | Decline(poll: nat)
    | Park(poll: nat)
    | Resume(poll: nat)
    | TimeOut(poll: nat)
    | GoAway(poll: nat)
    | PublishSend(publisher: nat, op: Op)
    | PublishRecall(publisher: nat, op: Op)
    | Wake(publisher: nat)
    | Quiet(op: Op)
    | Close
    | ShutdownWake

  predicate AtStage(s: Server, p: nat, stage: Stage) {
    p in s.polls && s.polls[p].stage == stage
  }

  ghost predicate Enabled(s: Server, m: Move) {
    match m
    case Arrive(p, c, _) => p !in s.polls
    case Grab(p) => AtStage(s, p, Started)
    case Look(p) => AtStage(s, p, Grabbed)
    case Decline(p) => AtStage(s, p, Looked) && (!s.polls[p].wait || s.closing)
    case Park(p) => AtStage(s, p, Looked) && s.polls[p].wait && !s.closing
    case Resume(p) => AtStage(s, p, Parked) && s.polls[p].channel < s.current
    case TimeOut(p) => AtStage(s, p, Parked)
    case GoAway(p) => AtStage(s, p, Parked)
    case PublishSend(b, op) => b !in s.publishers && op.Send? && Legal(s.world, op)
    case PublishRecall(b, op) => b !in s.publishers && op.Recall? && Legal(s.world, op)
    case Wake(b) => b in s.publishers
    case Quiet(op) => (op.Tick? || op.Report? || op.Flush?) && Legal(s.world, op)
    case Close => true
    case ShutdownWake => s.closing
  }

  /** The client record poll `p` points at; all polls of one client share it. */
  function Attributes(s: Server, p: nat): ClientInfo
    requires p in s.polls
  {
    if s.polls[p].cid in s.clients then s.clients[s.polls[p].cid] else s.polls[p].saw
  }

  function WithStage(s: Server, p: nat, stage: Stage): Server
    requires p in s.polls
  {
    s.(polls := s.polls[p := s.polls[p].(stage := stage)])
  }

  function Answered(s: Server, p: nat, reply: Option<Reply>): Server
    requires p in s.polls
  {
    s.(polls := s.polls[p := s.polls[p].(stage := Done, reply := reply)])
  }

  function Next(lib: Library, s: Server, m: Move): Server
    requires Enabled(s, m)
  {
    match m
    case Arrive(p, c, wait) =>
      s.(clients := s.clients[c.id := c], polls := s.polls[p := PollState(c.id, wait, Started, 0, c, None)])
    case Grab(p) => s.(polls := s.polls[p := s.polls[p].(stage := Grabbed, channel := s.current)])
    case Look(p) =>
      var c := Attributes(s, p);
      var alerts := Chosen(lib, s.world.alerts, c, s.world.now, SendAlert);
      var recalled := Chosen(lib, s.world.alerts, c, s.world.now, TellRecall);
      var t := s.(world := Step(lib, true, s.world, Poll(c)), polls := s.polls[p := s.polls[p].(stage := Looked, saw := c)]);
      if alerts != [] || recalled != [] then Answered(t, p, Some(Reply(alerts, recalled))) else t
    case Decline(p) => Answered(s, p, Some(Reply([], [])))
    case Park(p) => WithStage(s, p, Parked)
    case Resume(p) => WithStage(s, p, Started)
    case TimeOut(p) => Answered(s, p, Some(Reply([], [])))
    case GoAway(p) => Answered(s, p, None)
    case PublishSend(b, op) =>
      s.(world := Step(lib, true, s.world, op), publishers := s.publishers[b := op.id])
    case PublishRecall(b, op) =>
      s.(world := Step(lib, true, s.world, op), publishers := s.publishers[b := op.id])
    case Wake(b) => s.(current := s.current + 1, publishers := s.publishers - {b})
    case Quiet(op) => s.(world := Step(lib, true, s.world, op))
    case Close => s.(closing := true)
    case ShutdownWake => s.(current := s.current + 1, shutdownWoke := true)
  }

  /** `c` should be told about `a` and was not: a live alert meant for it that was
      never sent to it, or a recall it still owes. Resends, which only the
      passing of time makes due, are not news. */
  ghost predicate News(lib: Library, a: Alert, c: ClientInfo, now: Time) {
    || (a.deliveries.Some? && Live(a, now) && Matching(lib, a, c) && !HasRecord(a, c.id))
    || OwesRecall(a, c.id, now)
  }

  lemma NewsIsTold(lib: Library, a: Alert, c: ClientInfo, now: Time)
    requires News(lib, a, c, now)
    ensures Decide(lib, a, c, now) != Silent
  {
    hide Matching;
  }

  /** A poll that has looked and found nothing, on a channel that is still open. */
  ghost predicate Waits(s: Server, p: nat) {
    && p in s.polls
    && (s.polls[p].stage == Looked || s.polls[p].stage == Parked)
    && s.polls[p].channel == s.current
  }

  ghost predicate Published(s: Server, id: string) {
    exists b :: b in s.publishers && s.publishers[b] == id
  }

  /** Any news for a waiting poll is about to be announced. */
  ghost predicate NoLostWakeUp(lib: Library, s: Server) {
    forall p, i ::
      (Waits(s, p) && 0 <= i < |s.world.alerts| && News(lib, s.world.alerts[i], s.polls[p].saw, s.world.now))
      ==> Published(s, s.world.alerts[i].id)
  }

  /** Records are kept under their own ids; no poll holds a channel not made yet. */
  ghost predicate PollsOK(s: Server) {
    && (forall id :: id in s.clients ==> s.clients[id].id == id)
    && (forall p :: p in s.polls ==> s.polls[p].channel <= s.current && s.polls[p].saw.id == s.polls[p].cid)
  }

  /** Once shutdown has woken everyone no poll is left parked on an open channel. */
  ghost predicate ShutdownOK(s: Server) {
    s.shutdownWoke ==> s.closing && forall p :: AtStage(s, p, Parked) ==> s.polls[p].channel < s.current
  }

  ghost predicate ServerOK(lib: Library, s: Server) {
    && WorldOK(s.world)
    && PollsOK(s)
    && NoLostWakeUp(lib, s)
    && ShutdownOK(s)
  }

  /** What an operation makes of an alert is news only if it was news before or the
      operation published it. */
  lemma NoNewNews(lib: Library, op: Op, now: Time, later: Time, a: Alert, b: Alert, c: ClientInfo)
    requires AlertOK(a) && Evolves(lib, op, now, a, b) && now <= later && News(lib, b, c, later)
    ensures News(lib, a, c, now) || (op.Recall? && op.id == a.id)
    ensures b.id == a.id
  {
    EvolvesAdvances(lib, op, now, a, b);
    hide Evolves;
    if a.recalledAt.None? && b.recalledAt.Some? {
      OnlyRecallRecalls(lib, op, now, a, b);
    } else if a.recalledAt.Some? {
      RecalledGainsNoRecord(lib, op, now, a, b, c.id);
    }
  }

  lemma OnlyRecallRecalls(lib: Library, op: Op, now: Time, a: Alert, b: Alert)
    requires Evolves(lib, op, now, a, b) && a.recalledAt.None? && b.recalledAt.Some?
    ensures op.Recall? && op.id == a.id
  {
    hide Matching;
  }

  lemma RecalledGainsNoRecord(lib: Library, op: Op, now: Time, a: Alert, b: Alert, cid: string)
    requires Evolves(lib, op, now, a, b) && a.recalledAt.Some? && HasRecord(b, cid)
    ensures HasRecord(a, cid)
  {
    hide Matching;
  }

  /** An operation on the store, seen by a client `c` that already waits. */
  lemma StoreStep(lib: Library, w: World, op: Op, c: ClientInfo, j: nat)
    requires WorldOK(w) && Legal(w, op)
    requires j < |Step(lib, true, w, op).alerts|
    requires var w' := Step(lib, true, w, op); News(lib, w'.alerts[j], c, w'.now)
    ensures var id := Step(lib, true, w, op).alerts[j].id;
            || (exists i :: 0 <= i < |w.alerts| && w.alerts[i].id == id && News(lib, w.alerts[i], c, w.now))
            || (op.Send? && op.id == id)
            || (op.Recall? && op.id == id)
  {
    hide Step, Evolves, AlertOK, News, Legal, Follows, NewAlert;
    var w' := Step(lib, true, w, op);
    DistinctAlerts(w);
    StepAlerts(lib, true, w, op);
    ComesFrom(lib, w, op, w', j);
    ClockForward(lib, w, op);
    hide DistinctIDs, Dropped;
    var k := Dropped(w, op);
    if j < |w.alerts| - k {
      var a := w.alerts[j + k];
      assert AlertOK(a);
      hide WorldOK;
      NoNewNews(lib, op, w.now, w'.now, a, w'.alerts[j], c);
    } else {
      NewAlertID(op);
    }
  }

  lemma ClockForward(lib: Library, w: World, op: Op)
    requires Legal(w, op)
    ensures w.now <= Step(lib, true, w, op).now
  {
  }

  /** After a look that found nothing there is no news for the client that looked. */
  lemma LookedFoundNothing(lib: Library, w: World, c: ClientInfo)
    requires Chosen(lib, w.alerts, c, w.now, SendAlert) == [] && Chosen(lib, w.alerts, c, w.now, TellRecall) == []
    ensures forall i :: 0 <= i < |w.alerts| ==> !News(lib, w.alerts[i], c, w.now)
    ensures Step(lib, true, w, Poll(c)).alerts == w.alerts
  {
    hide Decide, News;
    NothingChosen(lib, w.alerts, c, w.now);
    forall i | 0 <= i < |w.alerts| ensures !News(lib, w.alerts[i], c, w.now) {
      if News(lib, w.alerts[i], c, w.now) {
        NewsIsTold(lib, w.alerts[i], c, w.now);
      }
    }
  }

  /** Steps that change the store keep the promise to every poll that waits. */
  lemma StoreMoveKeeps(lib: Library, s: Server, s': Server, op: Op, p: nat, j: nat)
    requires ServerOK(lib, s) && Legal(s.world, op) && s'.world == Step(lib, true, s.world, op)
    requires forall id :: Published(s, id) ==> Published(s', id)
    requires op.Send? || op.Recall? ==> Published(s', op.id)
    requires Waits(s, p) && j < |s'.world.alerts| && News(lib, s'.world.alerts[j], s.polls[p].saw, s'.world.now)
    ensures Published(s', s'.world.alerts[j].id)
  {
    hide News, Published, Step, WorldOK;
    StoreStep(lib, s.world, op, s.polls[p].saw, j);
  }

  /** So does a move that changes the store and lets no poll start to wait. */
  lemma StorePromiseKept(lib: Library, s: Server, s': Server, op: Op)
    requires ServerOK(lib, s) && Legal(s.world, op) && s'.world == Step(lib, true, s.world, op)
    requires forall id :: Published(s, id) ==> Published(s', id)
    requires op.Send? || op.Recall? ==> Published(s', op.id)
    requires s'.polls == s.polls && s'.current == s.current
    ensures NoLostWakeUp(lib, s')
  {
    hide News, Published, Step, WorldOK, ServerOK;
    forall p, j | Waits(s', p) && 0 <= j < |s'.world.alerts| && News(lib, s'.world.alerts[j], s'.polls[p].saw, s'.world.now)
      ensures Published(s', s'.world.alerts[j].id)
    {
      StoreMoveKeeps(lib, s, s', op, p, j);
    }
  }

  lemma PublishedGrows(s: Server, b: nat, id: string)
    requires b !in s.publishers
    ensures var s' := s.(publishers := s.publishers[b := id]);
            Published(s', id) && forall x :: Published(s, x) ==> Published(s', x)
  {
    var s' := s.(publishers := s.publishers[b := id]);
    assert s'.publishers[b] == id;
    forall x | Published(s, x) ensures Published(s', x) {
      var c :| c in s.publishers && s.publishers[c] == x;
      assert s'.publishers[c] == x;
    }
  }

  lemma PublishKeeps(lib: Library, s: Server, m: Move)
    requires ServerOK(lib, s) && Enabled(s, m) && (m.PublishSend? || m.PublishRecall?)
    ensures NoLostWakeUp(lib, Next(lib, s, m))
  {
    hide News, Step, WorldOK, Legal, Published;
    var s' := Next(lib, s, m);
    PublishedGrows(s, m.publisher, m.op.id);
    PublishedSame(s.(publishers := s'.publishers), s');
    StorePromiseKept(lib, s, s', m.op);
  }

  /** The moves that leave the store alone. */
  lemma RestKeeps(lib: Library, s: Server, m: Move)
    requires ServerOK(lib, s) && Enabled(s, m)
    requires !m.PublishSend? && !m.PublishRecall? && !m.Quiet? && !m.Look?
    ensures NoLostWakeUp(lib, Next(lib, s, m))
  {
    hide News, Step, WorldOK, Legal, Published, ShutdownOK;
    PublishedSame(s, Next(lib, s, m));
  }

  lemma QuietKeeps(lib: Library, s: Server, op: Op)
    requires ServerOK(lib, s) && Enabled(s, Quiet(op))
    ensures NoLostWakeUp(lib, Next(lib, s, Quiet(op)))
  {
    hide News, Step, WorldOK, Legal, Published;
    PublishedSame(s, Next(lib, s, Quiet(op)));
    StorePromiseKept(lib, s, Next(lib, s, Quiet(op)), op);
  }

  lemma MoveKeepsWakeUps(lib: Library, s: Server, m: Move)
    requires ServerOK(lib, s) && Enabled(s, m)
    ensures NoLostWakeUp(lib, Next(lib, s, m))
  {
    hide ServerOK, Enabled, Next, NoLostWakeUp;
    match m {
      case PublishSend(_, _) => PublishKeeps(lib, s, m);
      case PublishRecall(_, _) => PublishKeeps(lib, s, m);
      case Quiet(op) => QuietKeeps(lib, s, op);
      case Look(p) => LookKeeps(lib, s, p);
      case _ => RestKeeps(lib, s, m);
    }
  }

  lemma PublishedSame(s: Server, s': Server)
    ensures s'.publishers == s.publishers ==> forall id :: Published(s', id) <==> Published(s, id)
  {
  }

  lemma LookIs(lib: Library, s: Server, p: nat)
    requires Enabled(s, Look(p))
    ensures var s', c := Next(lib, s, Look(p)), Attributes(s, p);
            && s'.world == Step(lib, true, s.world, Poll(c))
            && s'.publishers == s.publishers && s'.current == s.current
            && p in s'.polls && s'.polls == s.polls[p := s'.polls[p]]
            && s'.polls[p].saw == c && s'.polls[p].channel == s.polls[p].channel && s'.polls[p].stage != Parked
            && (s'.polls[p].stage == Looked ==>
                  && Chosen(lib, s.world.alerts, c, s.world.now, SendAlert) == []
                  && Chosen(lib, s.world.alerts, c, s.world.now, TellRecall) == [])
  {
    hide Step, Chosen;
  }

  lemma LookKeeps(lib: Library, s: Server, p: nat)
    requires ServerOK(lib, s) && Enabled(s, Look(p))
    ensures NoLostWakeUp(lib, Next(lib, s, Look(p)))
  {
    var s', c := Next(lib, s, Look(p)), Attributes(s, p);
    LookIs(lib, s, p);
    hide News, Step, WorldOK, Next, Chosen, Attributes;
    PublishedSame(s, s');
    hide Published;
    if s'.polls[p].stage == Looked {
      LookedFoundNothing(lib, s.world, c);
    }
    forall q, j | Waits(s', q) && 0 <= j < |s'.world.alerts| && News(lib, s'.world.alerts[j], s'.polls[q].saw, s'.world.now)
      ensures Published(s', s'.world.alerts[j].id)
    {
      if q != p {
        StoreMoveKeeps(lib, s, s', Poll(c), q, j);
      }
    }
  }

  lemma MoveKeepsOK(lib: Library, s: Server, m: Move)
    requires ServerOK(lib, s) && Enabled(s, m)
    ensures ServerOK(lib, Next(lib, s, m))
  {
    MoveKeepsWakeUps(lib, s, m);
    MoveKeepsWorld(lib, s, m);
    MoveKeepsPolls(lib, s, m);
    MoveKeepsShutdown(lib, s, m);
    hide NoLostWakeUp, WorldOK, PollsOK, ShutdownOK, Next, Enabled;
  }

  lemma MoveKeepsPolls(lib: Library, s: Server, m: Move)
    requires PollsOK(s) && Enabled(s, m)
    ensures PollsOK(Next(lib, s, m))
  {
    hide Step, Legal, Chosen;
    if m.Look? {
      LookKeepsPolls(lib, s, m.poll);
    }
  }

  lemma LookKeepsPolls(lib: Library, s: Server, p: nat)
    requires PollsOK(s) && Enabled(s, Look(p))
    ensures PollsOK(Next(lib, s, Look(p)))
  {
    hide Step, Chosen;
    LookIs(lib, s, p);
    assert Next(lib, s, Look(p)).clients == s.clients;
    hide Next;
  }

  lemma MoveKeepsShutdown(lib: Library, s: Server, m: Move)
    requires PollsOK(s) && ShutdownOK(s) && Enabled(s, m)
    ensures ShutdownOK(Next(lib, s, m))
  {
    hide Step, Legal, Chosen;
    if m.Look? {
      LookIs(lib, s, m.poll);
      assert Next(lib, s, m).shutdownWoke == s.shutdownWoke && Next(lib, s, m).closing == s.closing;
      hide Next;
    }
  }

  lemma MoveKeepsWorld(lib: Library, s: Server, m: Move)
    requires ServerOK(lib, s) && Enabled(s, m)
    ensures WorldOK(Next(lib, s, m).world)
  {
    hide NoLostWakeUp, Step, WorldOK;
    match m {
      case PublishSend(_, op) => StepKeepsOK(lib, true, s.world, op);
      case PublishRecall(_, op) => StepKeepsOK(lib, true, s.world, op);
      case Quiet(op) => StepKeepsOK(lib, true, s.world, op);
      case Look(p) => StepKeepsOK(lib, true, s.world, Poll(Attributes(s, p)));
      case _ =>
    }
  }

  // ---- whole runs ----

  ghost predicate EnabledRun(lib: Library, s: Server, moves: seq<Move>)
    decreases |moves|
  {
    moves == [] || (Enabled(s, moves[0]) && EnabledRun(lib, Next(lib, s, moves[0]), moves[1..]))
  }

  ghost function ExecAll(lib: Library, s: Server, moves: seq<Move>): Server
    requires EnabledRun(lib, s, moves)
    decreases |moves|
  {
    if moves == [] then s else ExecAll(lib, Next(lib, s, moves[0]), moves[1..])
  }

  /** A server that holds no polls yet may start from any reachable store. */
  lemma StartsOK(lib: Library, w: World, clients: map<string, ClientInfo>)
    requires WorldOK(w) && forall id :: id in clients ==> clients[id].id == id
    ensures ServerOK(lib, Server(w, clients, 0, map[], map[], false, false))
  {
    hide WorldOK;
  }

  /** No lost wake-ups, and no poll left behind at shutdown, in every run. */
  lemma {:induction false} NoPollSleepsOverNews(lib: Library, s: Server, moves: seq<Move>)
    requires ServerOK(lib, s) && EnabledRun(lib, s, moves)
    ensures ServerOK(lib, ExecAll(lib, s, moves))
    decreases |moves|
  {
    hide ServerOK, Enabled;
    if moves != [] {
      MoveKeepsOK(lib, s, moves[0]);
      NoPollSleepsOverNews(lib, Next(lib, s, moves[0]), moves[1..]);
    }
  }

  /** In particular: once no send or recall is between its change and its wake,
      a poll parked on an open channel, whose client has not checked in with
      other attributes since, has nothing to be told. */
  lemma ParkedMeansNoNews(lib: Library, s: Server, p: nat, i: nat)
    requires ServerOK(lib, s) && s.publishers == map[]
    requires AtStage(s, p, Parked) && s.polls[p].channel == s.current
    requires Attributes(s, p) == s.polls[p].saw
    requires i < |s.world.alerts|
    ensures !News(lib, s.world.alerts[i], Attributes(s, p), s.world.now)
    ensures !s.shutdownWoke
  {
    assert Waits(s, p);
    assert !Published(s, s.world.alerts[i].id);
  }

  /** The order matters: a poll that took the channel only after it had looked
      would sleep over an alert sent and announced in between. */
  lemma ChannelMustComeFirst(lib: Library, s: Server, p: nat, b: nat, op: Op)
    requires ServerOK(lib, s) && AtStage(s, p, Looked) && s.publishers == map[]
    requires op.Send? && op.spec.target.all && op.created == s.world.now && Legal(s.world, op)
    ensures var woken := Next(lib, Next(lib, s, PublishSend(b, op)), Wake(b));
            var late := woken.(polls := woken.polls[p := woken.polls[p].(channel := woken.current)]);
            !NoLostWakeUp(lib, late)
  {
    var woken := Next(lib, Next(lib, s, PublishSend(b, op)), Wake(b));
    var late := woken.(polls := woken.polls[p := woken.polls[p].(channel := woken.current)]);
    var i := |s.world.alerts|;
    assert late.world.alerts[i] == NewAlert(op.id, op.spec, op.rules, op.sender, op.senderName, op.created);
    hide WorldOK, RuleMatches;
    assert Waits(late, p) && News(lib, late.world.alerts[i], late.polls[p].saw, late.world.now);
    assert late.publishers == map[];
    assert !Published(late, late.world.alerts[i].id);
  }
}
