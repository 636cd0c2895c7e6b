/** What held polls are answered with, and when (server/api_client.go): all the news,
    nothing else, and no later than the next wake. */
module Answers {
  import opened Text
  import opened Targets
  import opened Deliveries
  import opened Runs
  import opened Promises
  import opened LongPoll

  // ---- looks and answers ----

  /** A look that marks an alert as sent, or a recall as told, answers the poll with it
      in that same move; a look that marks nothing leaves the poll to wait; and news
      is always told. */
  lemma LookAnswers(lib: Library, s: Server, p: nat)
    requires ServerOK(lib, s) && Enabled(s, Look(p))
    ensures p in Next(lib, s, Look(p)).polls
    ensures var s', c := Next(lib, s, Look(p)), Attributes(s, p);
            var q := s'.polls[p];
            && q.cid == c.id == s.polls[p].cid
            && (q.stage == Looked ==>
                  s'.world.sends == s.world.sends && s'.world.told == s.world.told && s'.world.alerts == s.world.alerts)
            && (q.stage != Looked ==>
                  && q.stage == Done && q.reply.Some? && q.reply.value != Reply([], [])
                  && s'.world.sends == s.world.sends + SendEntries(q.reply.value.alerts, q.cid, s.world.now)
                  && s'.world.told == s.world.told + ToldEntries(q.reply.value.recalled, q.cid, s.world.now))
            && (forall a :: a in s.world.alerts && News(lib, a, c, s.world.now) ==>
                  q.stage == Done && (a.id in q.reply.value.alerts || a.id in q.reply.value.recalled))
  {
    hide NoLostWakeUp, News, Chosen, WorldOK;
    var s', c := Next(lib, s, Look(p)), Attributes(s, p);
    var w := s.world;
    if Chosen(lib, w.alerts, c, w.now, SendAlert) == [] && Chosen(lib, w.alerts, c, w.now, TellRecall) == [] {
      LookedFoundNothing(lib, w, c);
      assert w.sends + SendEntries([], c.id, w.now) == w.sends && w.told + ToldEntries([], c.id, w.now) == w.told;
    }
    forall a | a in w.alerts && News(lib, a, c, w.now)
      ensures a.id in Chosen(lib, w.alerts, c, w.now, SendAlert) || a.id in Chosen(lib, w.alerts, c, w.now, TellRecall)
    {
      NewsIsChosen(lib, w, a, c);
    }
  }

  lemma NewsIsChosen(lib: Library, w: World, a: Alert, c: ClientInfo)
    requires WorldOK(w) && a in w.alerts && News(lib, a, c, w.now)
    ensures a.id in Chosen(lib, w.alerts, c, w.now, SendAlert) || a.id in Chosen(lib, w.alerts, c, w.now, TellRecall)
  {
    hide WorldOK, News, Decide, Find, Chosen;
    NewsIsTold(lib, a, c, w.now);
    DistinctAlerts(w);
    var i :| 0 <= i < |w.alerts| && w.alerts[i] == a;
    FindAt(w.alerts, i);
    ChosenMember(lib, w.alerts, c, w.now, SendAlert, a.id);
    ChosenMember(lib, w.alerts, c, w.now, TellRecall, a.id);
  }

  /** Every other move sends nothing and tells nothing. */
  lemma OnlyLooksSend(lib: Library, s: Server, m: Move)
    requires Enabled(s, m) && !m.Look?
    ensures var w := Next(lib, s, m).world; w.sends == s.world.sends && w.told == s.world.told
  {
    hide RecallIn, ApplyBatch, FlagsBatch, Compact, Legal;
  }

  /** A poll that is done stays as it is. */
  lemma DoneStays(lib: Library, s: Server, m: Move, p: nat)
    requires Enabled(s, m) && AtStage(s, p, Done)
    ensures var s' := Next(lib, s, m); p in s'.polls && s'.polls[p] == s.polls[p]
  {
    hide Step, Legal, Chosen;
  }

  /** A wake frees every parked poll to look again. */
  lemma WakeFreesAll(lib: Library, s: Server, m: Move, p: nat)
    requires ServerOK(lib, s) && Enabled(s, m) && (m.Wake? || m.ShutdownWake?) && AtStage(s, p, Parked)
    ensures Enabled(Next(lib, s, m), Resume(p))
  {
    hide NoLostWakeUp, Step, WorldOK;
  }

  /** A poll that found nothing waits if it asked to and the server stays up, and is
      answered otherwise. */
  lemma LookedGoesOn(s: Server, p: nat)
    requires AtStage(s, p, Looked)
    ensures Enabled(s, Park(p)) <==> s.polls[p].wait && !s.closing
    ensures Enabled(s, Decline(p)) <==> !Enabled(s, Park(p))
  {
  }

  /** A poll that may not wait any longer is answered, with nothing; one whose client
      went away is not. */
  lemma EndsWithNothing(lib: Library, s: Server, m: Move, p: nat)
    requires Enabled(s, m) && (m == Decline(p) || m == TimeOut(p) || m == GoAway(p))
    ensures var s' := Next(lib, s, m);
            && s'.world == s.world && AtStage(s', p, Done)
            && s'.polls[p].reply == if m.GoAway? then None else Some(Reply([], []))
  {
  }

  /** A parked poll for which there is news, once woken, takes the channel, looks, and
      is answered with it. */
  lemma WokenPollGetsNews(lib: Library, s: Server, b: nat, p: nat, a: Alert)
    requires ServerOK(lib, s) && b in s.publishers && AtStage(s, p, Parked)
    requires a in s.world.alerts && News(lib, a, Attributes(s, p), s.world.now)
    ensures var moves := [Wake(b), Resume(p), Grab(p), Look(p)];
            && EnabledRun(lib, s, moves)
            && var t := ExecAll(lib, s, moves);
               && AtStage(t, p, Done) && t.polls[p].reply.Some?
               && (a.id in t.polls[p].reply.value.alerts || a.id in t.polls[p].reply.value.recalled)
  {
    hide ServerOK, Enabled, Next, EnabledRun, ExecAll, News, Attributes;
    WokenPollLooks(lib, s, b, p);
    var s1 := Next(lib, s, Wake(b));
    var s2 := Next(lib, s1, Resume(p));
    var s3 := Next(lib, s2, Grab(p));
    LookAnswers(lib, s3, p);
    RunNone(lib, Next(lib, s3, Look(p)));
    RunCons(lib, s3, Look(p), []);
    RunCons(lib, s2, Grab(p), [Look(p)] + []);
    RunCons(lib, s1, Resume(p), [Grab(p)] + ([Look(p)] + []));
    RunCons(lib, s, Wake(b), [Resume(p)] + ([Grab(p)] + ([Look(p)] + [])));
    assert [Wake(b), Resume(p), Grab(p), Look(p)] == [Wake(b)] + ([Resume(p)] + ([Grab(p)] + ([Look(p)] + [])));
  }

  lemma WokenPollLooks(lib: Library, s: Server, b: nat, p: nat)
    requires ServerOK(lib, s) && b in s.publishers && AtStage(s, p, Parked)
    ensures Enabled(s, Wake(b))
    ensures var s1 := Next(lib, s, Wake(b));
            && Enabled(s1, Resume(p))
            && var s2 := Next(lib, s1, Resume(p));
               && Enabled(s2, Grab(p))
               && var s3 := Next(lib, s2, Grab(p));
                  && Enabled(s3, Look(p)) && ServerOK(lib, s3) && s3.world == s.world
                  && Attributes(s3, p) == Attributes(s, p)
  {
    hide NoLostWakeUp, WorldOK, Step;
    var s1 := Next(lib, s, Wake(b));
    var s2 := Next(lib, s1, Resume(p));
    MoveKeepsOK(lib, s, Wake(b));
    MoveKeepsOK(lib, s1, Resume(p));
    MoveKeepsOK(lib, s2, Grab(p));
  }

  lemma RunCons(lib: Library, s: Server, m: Move, rest: seq<Move>)
    requires Enabled(s, m) && EnabledRun(lib, Next(lib, s, m), rest)
    ensures EnabledRun(lib, s, [m] + rest)
    ensures ExecAll(lib, s, [m] + rest) == ExecAll(lib, Next(lib, s, m), rest)
  {
    hide Enabled, Next;
    assert ([m] + rest)[1..] == rest;
  }

  lemma RunNone(lib: Library, s: Server)
    ensures EnabledRun(lib, s, []) && ExecAll(lib, s, []) == s
  {
  }

  /** A poll that holds the open channel and has not started over. */
  ghost predicate HoldsOpen(s: Server, p: nat) {
    p in s.polls && s.polls[p].stage != Started && s.polls[p].channel == s.current
  }

  lemma HoldsOpenStays(lib: Library, s: Server, m: Move, p: nat)
    requires HoldsOpen(s, p) && Enabled(s, m) && !m.Wake? && !m.ShutdownWake?
    ensures HoldsOpen(Next(lib, s, m), p)
  {
    hide Step, Legal, Chosen;
  }

  lemma {:induction false} HoldsOpenRun(lib: Library, s: Server, moves: seq<Move>, p: nat)
    requires HoldsOpen(s, p) && EnabledRun(lib, s, moves)
    requires forall m :: m in moves ==> !m.Wake? && !m.ShutdownWake?
    ensures HoldsOpen(ExecAll(lib, s, moves), p)
    decreases |moves|
  {
    hide Enabled, Next, HoldsOpen;
    if moves != [] {
      HoldsOpenStays(lib, s, moves[0], p);
      HoldsOpenRun(lib, Next(lib, s, moves[0]), moves[1..], p);
    }
  }

  lemma GrabHoldsOpen(lib: Library, s: Server, p: nat)
    requires Enabled(s, Grab(p))
    ensures HoldsOpen(Next(lib, s, Grab(p)), p)
  {
  }

  /** Nothing but a wake ends a wait early: from the moment a poll takes its channel
      (`GrabHoldsOpen`) it cannot resume, whatever else happens, until someone wakes
      the hub. */
  lemma WokenOnlyByWake(lib: Library, s: Server, p: nat, moves: seq<Move>)
    requires HoldsOpen(s, p) && EnabledRun(lib, s, moves)
    requires forall m :: m in moves ==> !m.Wake? && !m.ShutdownWake?
    ensures !Enabled(ExecAll(lib, s, moves), Resume(p))
  {
    HoldsOpenRun(lib, s, moves, p);
    hide EnabledRun, ExecAll;
  }

  /** A new poll of a computer replaces what every poll of that computer goes by. */
  lemma ArriveShares(lib: Library, s: Server, p: nat, c: ClientInfo, wait: bool, q: nat)
    requires Enabled(s, Arrive(p, c, wait)) && q in s.polls
    ensures var s' := Next(lib, s, Arrive(p, c, wait));
            q in s'.polls && Attributes(s', q) == if s.polls[q].cid == c.id then c else Attributes(s, q)
  {
  }

  /** Computer `cid` was answered with the alert, or with its recall. */
  ghost predicate Handed(s: Server, id: string, cid: string) {
    exists p :: AtStage(s, p, Done) && s.polls[p].cid == cid && s.polls[p].reply.Some? && id in s.polls[p].reply.value.alerts
  }

  ghost predicate Informed(s: Server, id: string, cid: string) {
    exists p :: AtStage(s, p, Done) && s.polls[p].cid == cid && s.polls[p].reply.Some? && id in s.polls[p].reply.value.recalled
  }

  /** Everything logged since the first `n` sends and `m` recalls was handed over. */
  ghost predicate AllHanded(s: Server, n: nat, m: nat) {
    && n <= |s.world.sends| && m <= |s.world.told|
    && (forall k :: n <= k < |s.world.sends| ==> Handed(s, s.world.sends[k].alertID, s.world.sends[k].cid))
    && (forall k :: m <= k < |s.world.told| ==> Informed(s, s.world.told[k].alertID, s.world.told[k].cid))
  }

  lemma HandedStays(lib: Library, s: Server, m: Move, id: string, cid: string)
    requires Enabled(s, m)
    ensures Handed(s, id, cid) ==> Handed(Next(lib, s, m), id, cid)
    ensures Informed(s, id, cid) ==> Informed(Next(lib, s, m), id, cid)
  {
    hide Next, Enabled;
    var s' := Next(lib, s, m);
    if Handed(s, id, cid) {
      var p :| AtStage(s, p, Done) && s.polls[p].cid == cid && s.polls[p].reply.Some? && id in s.polls[p].reply.value.alerts;
      DoneStays(lib, s, m, p);
      assert AtStage(s', p, Done);
    }
    if Informed(s, id, cid) {
      var p :| AtStage(s, p, Done) && s.polls[p].cid == cid && s.polls[p].reply.Some? && id in s.polls[p].reply.value.recalled;
      DoneStays(lib, s, m, p);
      assert AtStage(s', p, Done);
    }
  }

  lemma HandedNow(s: Server, p: nat, id: string)
    requires AtStage(s, p, Done) && s.polls[p].reply.Some?
    ensures id in s.polls[p].reply.value.alerts ==> Handed(s, id, s.polls[p].cid)
    ensures id in s.polls[p].reply.value.recalled ==> Informed(s, id, s.polls[p].cid)
  {
  }

  lemma LookHands(lib: Library, s: Server, p: nat, n: nat, m: nat)
    requires ServerOK(lib, s) && Enabled(s, Look(p)) && AllHanded(s, n, m)
    ensures AllHanded(Next(lib, s, Look(p)), n, m)
  {
    hide ServerOK, Enabled, Next, Handed, Informed, News, AtStage;
    var s' := Next(lib, s, Look(p));
    LookAnswers(lib, s, p);
    forall k | n <= k < |s'.world.sends| ensures Handed(s', s'.world.sends[k].alertID, s'.world.sends[k].cid) {
      if k < |s.world.sends| {
        HandedStays(lib, s, Look(p), s.world.sends[k].alertID, s.world.sends[k].cid);
      } else {
        AtDone(s', p);
        HandedNow(s', p, s'.world.sends[k].alertID);
      }
    }
    forall k | m <= k < |s'.world.told| ensures Informed(s', s'.world.told[k].alertID, s'.world.told[k].cid) {
      if k < |s.world.told| {
        HandedStays(lib, s, Look(p), s.world.told[k].alertID, s.world.told[k].cid);
      } else {
        AtDone(s', p);
        HandedNow(s', p, s'.world.told[k].alertID);
      }
    }
  }

  lemma AtDone(s: Server, p: nat)
    requires p in s.polls && s.polls[p].stage == Done
    ensures AtStage(s, p, Done)
  {
  }

  lemma MoveHands(lib: Library, s: Server, move: Move, n: nat, m: nat)
    requires ServerOK(lib, s) && Enabled(s, move) && AllHanded(s, n, m)
    ensures AllHanded(Next(lib, s, move), n, m)
  {
    hide ServerOK, Next, Handed, Informed;
    if move.Look? {
      LookHands(lib, s, move.poll, n, m);
    } else {
      OnlyLooksSend(lib, s, move);
      forall k | n <= k < |s.world.sends|
        ensures Handed(Next(lib, s, move), s.world.sends[k].alertID, s.world.sends[k].cid)
      {
        HandedStays(lib, s, move, s.world.sends[k].alertID, s.world.sends[k].cid);
      }
      forall k | m <= k < |s.world.told|
        ensures Informed(Next(lib, s, move), s.world.told[k].alertID, s.world.told[k].cid)
      {
        HandedStays(lib, s, move, s.world.told[k].alertID, s.world.told[k].cid);
      }
    }
  }

  // ---- whole runs ----

  /** In every run, whatever the server marks as sent to a computer or told to it was
      put into the answer to a poll of that computer. */
  lemma {:induction false} EveryMarkIsAnswered(lib: Library, s: Server, moves: seq<Move>, n: nat, m: nat)
    requires ServerOK(lib, s) && EnabledRun(lib, s, moves) && AllHanded(s, n, m)
    ensures AllHanded(ExecAll(lib, s, moves), n, m)
    decreases |moves|
  {
    hide ServerOK, Enabled, AllHanded;
    if moves != [] {
      MoveKeepsOK(lib, s, moves[0]);
      MoveHands(lib, s, moves[0], n, m);
      EveryMarkIsAnswered(lib, Next(lib, s, moves[0]), moves[1..], n, m);
    }
  }

  /** No poll is answered with an alert, or a recall, that was not marked for its
      computer. */
  ghost predicate AnswersTrue(s: Server) {
    forall p, id :: p in s.polls && s.polls[p].reply.Some? ==>
      && (id in s.polls[p].reply.value.alerts ==>
            exists e :: e in s.world.sends && e.alertID == id && e.cid == s.polls[p].cid)
      && (id in s.polls[p].reply.value.recalled ==>
            exists e :: e in s.world.told && e.alertID == id && e.cid == s.polls[p].cid)
  }

  lemma {:induction false} AnswersStayTrue(lib: Library, s: Server, moves: seq<Move>)
    requires ServerOK(lib, s) && EnabledRun(lib, s, moves) && AnswersTrue(s)
    ensures AnswersTrue(ExecAll(lib, s, moves))
    decreases |moves|
  {
    hide ServerOK, Enabled, AnswersTrue;
    if moves != [] {
      MoveKeepsOK(lib, s, moves[0]);
      MoveAnswersTrue(lib, s, moves[0]);
      AnswersStayTrue(lib, Next(lib, s, moves[0]), moves[1..]);
    }
  }

  lemma MoveAnswersTrue(lib: Library, s: Server, m: Move)
    requires ServerOK(lib, s) && Enabled(s, m) && AnswersTrue(s)
    ensures AnswersTrue(Next(lib, s, m))
  {
    hide Step, Legal, Chosen, ServerOK;
    var s' := Next(lib, s, m);
    if m.Look? {
      var p := m.poll;
      LookAnswers(lib, s, p);
      LookIs(lib, s, p);
      hide News, Attributes, Next;
      forall q, id | q in s'.polls && s'.polls[q].reply.Some?
        ensures id in s'.polls[q].reply.value.alerts ==>
                  exists e :: e in s'.world.sends && e.alertID == id && e.cid == s'.polls[q].cid
        ensures id in s'.polls[q].reply.value.recalled ==>
                  exists e :: e in s'.world.told && e.alertID == id && e.cid == s'.polls[q].cid
      {
        if q == p && s'.polls[p].stage == Done {
          EntriesHold(s'.polls[p].reply.value.alerts, s'.polls[p].reply.value.recalled, s'.polls[p].cid, s.world.now, id);
        }
      }
    } else {
      OnlyLooksSend(lib, s, m);
    }
  }

  lemma EntriesHold(alerts: seq<string>, recalled: seq<string>, cid: string, now: Time, id: string)
    ensures id in alerts ==> SendEntry(now, id, cid) in SendEntries(alerts, cid, now)
    ensures id in recalled ==> ToldEntry(now, id, cid) in ToldEntries(recalled, cid, now)
  {
    if id in alerts {
      var k :| 0 <= k < |alerts| && alerts[k] == id;
      assert SendEntries(alerts, cid, now)[k] == SendEntry(now, id, cid);
    }
    if id in recalled {
      var k :| 0 <= k < |recalled| && recalled[k] == id;
      assert ToldEntries(recalled, cid, now)[k] == ToldEntry(now, id, cid);
    }
  }

  lemma NothingMarkedYet(s: Server)
    ensures AllHanded(s, |s.world.sends|, |s.world.told|)
  {
  }
}
