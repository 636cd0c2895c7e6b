/** What the reports of a client say about what the person and the server did
    (client/src/AlertForm.cs): why each window closed, and that no alert is forgotten. */
module Closings {
  import opened Deliveries
  import opened Screen

  // ---- who has room ----

  function OfKind(order: seq<AlertData>, full: bool): set<AlertData> {
    set b | b in order && b.fullScreen == full
  }

  /** A full-screen alert has room when none is open, any other when fewer than four
      cards are. */
  lemma HasRoomIff(order: seq<AlertData>, a: AlertData)
    requires Distinct(order)
    ensures HasRoom(order, a) <==>
              if a.fullScreen then forall b :: b in order ==> !b.fullScreen else |OfKind(order, false)| < 4
  {
    CountMeans(order, true);
    CountMeans(order, false);
    if OfKind(order, true) != {} {
      var b :| b in OfKind(order, true);
    }
    if b :| b in order && b.fullScreen {
      assert b in OfKind(order, true);
    }
  }

  lemma OfKindAppend(order: seq<AlertData>, a: AlertData, full: bool)
    requires a !in order
    ensures |OfKind(order + [a], full)| == |OfKind(order, full)| + if a.fullScreen == full then 1 else 0
  {
    var was, now := OfKind(order, full), OfKind(order + [a], full);
    if a.fullScreen == full {
      assert now == was + {a};
    } else {
      assert now == was;
    }
  }

  lemma {:induction false} CountMeans(order: seq<AlertData>, full: bool)
    requires Distinct(order)
    ensures Count(order, full) == |OfKind(order, full)|
  {
    hide OfKind;
    if order == [] {
      assert OfKind(order, full) == {} by { NoneOfKind(full); }
    } else {
      var n := |order| - 1;
      assert order == order[..n] + [order[n]];
      CountMeans(order[..n], full);
      OfKindAppend(order[..n], order[n], full);
    }
  }

  lemma NoneOfKind(full: bool)
    ensures OfKind([], full) == {}
  {
  }

  // ---- filling up only shows ----

  /** The reports only grow, by `displayed`. */
  ghost predicate OnlyShows(was: seq<Event>, now: seq<Event>) {
    was <= now && forall k :: |was| <= k < |now| ==> now[k].kind == Displayed
  }

  lemma {:induction false} FillOnlyShows(canBuild: AlertData -> bool, s: Screen, i: nat)
    requires i <= |s.waiting|
    ensures OnlyShows(s.reports, Fill(canBuild, s, i).reports)
    decreases |s.waiting| - i
  {
    hide HasRoom;
    if i < |s.waiting| {
      if HasRoom(s.order, s.waiting[i]) {
        FillOnlyShows(canBuild, OpenWindow(canBuild, DropAt(s, i), s.waiting[i]), i);
      } else {
        FillOnlyShows(canBuild, s, i + 1);
      }
    }
  }

  /** A window that was open before stays as it is while others fill up. */
  lemma {:induction false} FillSpares(canBuild: AlertData -> bool, s: Screen, i: nat, a: AlertData)
    requires Sound(s) && NoRoomBefore(s, i) && i <= |s.waiting| && a in s.shown
    ensures var t := Fill(canBuild, s, i);
            Kinds(t.reports, a.id) == Kinds(s.reports, a.id) && (a in t.order <==> a in s.order)
    decreases |s.waiting| - i
  {
    hide Sound, NoRoomBefore, HasRoom, Kinds, Fill;
    if i == |s.waiting| {
      FillEnds(canBuild, s);
    } else if HasRoom(s.order, s.waiting[i]) {
      FillOpens(canBuild, s, i);
      var t := OpenWindow(canBuild, DropAt(s, i), s.waiting[i]);
      KindsAppend(s.reports, Event(s.waiting[i].id, Displayed), a.id);
      FillSpares(canBuild, t, i, a);
    } else {
      FillSkips(canBuild, s, i);
      FillSpares(canBuild, s, i + 1, a);
    }
  }

  lemma KindsAppend(reports: seq<Event>, e: Event, id: string)
    ensures Kinds(reports + [e], id) == Kinds(reports, id) + if e.alertID == id then [e.kind] else []
  {
    assert (reports + [e])[..|reports|] == reports;
  }

  // ---- one input ----

  /** Closing an open alert takes it off the screen and reports it once, for that reason. */
  lemma FinishSays(canBuild: AlertData -> bool, s: Screen, a: AlertData, reason: EventKind)
    requires ScreenOK(s) && a in s.order && MayClose(a.requireAck, reason)
    ensures var t := Finish(canBuild, s, a.id, reason);
            a !in t.order && Kinds(t.reports, a.id) == Kinds(s.reports, a.id) + [reason]
  {
    hide Kinds, Fill, Fits, Ordered, Reported, Without, MayClose;
    var t := s.(order := Without(s.order, a.id), reports := s.reports + [Event(a.id, reason)]);
    CloseKeeps(s, a, reason);
    KindsAppend(s.reports, Event(a.id, reason), a.id);
    WithoutMember(s.order, a.id);
    NothingBefore(t);
    assert Holds(s.order, a.id);
    FillSpares(canBuild, t, 0, a);
  }

  /** The button acknowledges an alert that asks for it and dismisses any other. */
  lemma ButtonSays(canBuild: AlertData -> bool, s: Screen, a: AlertData)
    requires ScreenOK(s) && a in s.order
    ensures var t := React(canBuild, s, Button(a));
            && a !in t.order
            && Kinds(t.reports, a.id) == Kinds(s.reports, a.id) + [if a.requireAck then Acknowledged else Dismissed]
  {
    hide ScreenOK, Finish, Kinds;
    FinishSays(canBuild, s, a, if a.requireAck then Acknowledged else Dismissed);
  }

  /** Closing the window otherwise dismisses, but not an alert that asks to be
      acknowledged. */
  lemma ClosingSays(canBuild: AlertData -> bool, s: Screen, a: AlertData)
    requires ScreenOK(s) && a in s.order
    ensures var t := React(canBuild, s, Closing(a));
            if a.requireAck then t == s
            else a !in t.order && Kinds(t.reports, a.id) == Kinds(s.reports, a.id) + [Dismissed]
  {
    hide ScreenOK, Finish, Kinds;
    if !a.requireAck {
      FinishSays(canBuild, s, a, Dismissed);
    }
  }

  /** An alert set to close itself, which needs no acknowledgement, times out. */
  lemma LifeOverSays(canBuild: AlertData -> bool, s: Screen, a: AlertData)
    requires ScreenOK(s) && a in s.order
    ensures var t := React(canBuild, s, LifeOver(a));
            if a.requireAck || a.displaySeconds <= 0 then t == s
            else a !in t.order && Kinds(t.reports, a.id) == Kinds(s.reports, a.id) + [TimedOut]
  {
    hide ScreenOK, Finish, Kinds;
    if !a.requireAck && a.displaySeconds > 0 {
      FinishSays(canBuild, s, a, TimedOut);
    }
  }

  /** A recall takes the alert down, or off the waiting list without a word. */
  lemma TakenDownSays(canBuild: AlertData -> bool, s: Screen, a: AlertData)
    requires ScreenOK(s) && a in s.arrivals
    ensures var t := React(canBuild, s, TakenDown(a.id));
            && (a in s.order ==> a !in t.order && Kinds(t.reports, a.id) == Kinds(s.reports, a.id) + [Recalled])
            && (a !in s.order ==> t == s.(waiting := t.waiting) && a !in t.waiting)
  {
    hide Finish, Kinds, Without, Fits, Ordered, Reported, HasRoom;
    var t := s.(waiting := Without(s.waiting, a.id));
    DropWaiting(s, a.id);
    WithoutMember(s.waiting, a.id);
    hide NoRoomBefore;
    if a in s.order {
      FinishSays(canBuild, t, a, Recalled);
    } else {
      NotHeld(s, a);
      NothingToFinish(canBuild, t, a.id, Recalled);
    }
  }

  /** An alert asked for again is not opened again; if it is open, the server is told
      once more that it was displayed. */
  lemma ShownAgainSays(canBuild: AlertData -> bool, s: Screen, a: AlertData)
    requires ScreenOK(s) && a in s.arrivals
    ensures React(canBuild, s, Shown(a))
         == if a in s.order then s.(reports := s.reports + [Event(a.id, Displayed)]) else s
  {
    hide Fits, Ordered, Reported, NoRoomBefore, HasRoom;
    if a in s.order {
      assert Holds(s.order, a.id);
    } else {
      NotHeld(s, a);
    }
  }

  lemma NotHeld(s: Screen, a: AlertData)
    requires Placed(s) && a in s.arrivals && a !in s.order
    ensures !Holds(s.order, a.id)
  {
    if Holds(s.order, a.id) {
      var i :| 0 <= i < |s.order| && s.order[i].id == a.id;
      assert s.order[i] in s.order;
      DistinctData(s.arrivals, s.order[i], a);
    }
  }

  lemma NothingToFinish(canBuild: AlertData -> bool, s: Screen, id: string, reason: EventKind)
    requires !Holds(s.order, id)
    ensures Finish(canBuild, s, id, reason) == s
  {
  }

  // ---- whole runs ----

  /** The input that makes an open alert `a` close for `reason`. */
  predicate Means(x: Input, a: AlertData, reason: EventKind) {
    match reason
    case Acknowledged => a.requireAck && x == Button(a)
    case Dismissed => !a.requireAck && (x == Button(a) || x == Closing(a))
    case TimedOut => !a.requireAck && a.displaySeconds > 0 && x == LifeOver(a)
    case Recalled => x == TakenDown(a.id)
    case _ => false
  }

  lemma FinishReports(canBuild: AlertData -> bool, s: Screen, id: string, reason: EventKind, e: Event)
    requires e.kind != Displayed
    ensures e in Finish(canBuild, s, id, reason).reports <==> e in s.reports || (Holds(s.order, id) && e == Event(id, reason))
  {
    hide Without, Fill;
    if Holds(s.order, id) {
      var t := s.(order := Without(s.order, id), reports := s.reports + [Event(id, reason)]);
      FillOnlyShows(canBuild, t, 0);
      InGrown(t.reports, Fill(canBuild, t, 0).reports, e);
    }
  }

  lemma InGrown(was: seq<Event>, now: seq<Event>, e: Event)
    requires OnlyShows(was, now) && e.kind != Displayed
    ensures e in now <==> e in was
  {
    if e in now {
      var k :| 0 <= k < |now| && now[k] == e;
      assert k < |was| && was[k] == e;
    }
  }

  /** A closing report appears exactly when its alert was open and the input meant it. */
  lemma ClosingStep(canBuild: AlertData -> bool, s: Screen, x: Input, a: AlertData, reason: EventKind)
    requires ScreenOK(s) && Possible(s, x) && a in s.arrivals && reason != Displayed
    ensures Event(a.id, reason) in React(canBuild, s, x).reports
       <==> Event(a.id, reason) in s.reports || (a in s.order && Means(x, a, reason))
  {
    hide Finish, Without, Fits, Ordered, Reported, HasRoom, NoRoomBefore;
    if a !in s.order {
      NotHeld(s, a);
    } else {
      assert Holds(s.order, a.id);
    }
    var e := Event(a.id, reason);
    match x {
      case Shown(b) =>
      case TakenDown(id) => FinishReports(canBuild, s.(waiting := Without(s.waiting, id)), id, Recalled, e);
      case Button(b) =>
        FinishReports(canBuild, s, b.id, if b.requireAck then Acknowledged else Dismissed, e);
        if b.id == a.id { DistinctData(s.arrivals, a, b); }
      case Closing(b) =>
        FinishReports(canBuild, s, b.id, Dismissed, e);
        if b.id == a.id { DistinctData(s.arrivals, a, b); }
      case LifeOver(b) =>
        FinishReports(canBuild, s, b.id, TimedOut, e);
        if b.id == a.id { DistinctData(s.arrivals, a, b); }
    }
    hide Holds, Distinct;
  }

  lemma {:induction false} RunAppend(canBuild: AlertData -> bool, s: Screen, xs: seq<Input>, x: Input)
    ensures ReactAll(canBuild, s, xs + [x]) == React(canBuild, ReactAll(canBuild, s, xs), x)
    ensures PossibleRun(canBuild, s, xs + [x])
       <==> PossibleRun(canBuild, s, xs) && Possible(ReactAll(canBuild, s, xs), x)
    decreases |xs|
  {
    hide React, Possible;
    if xs == [] {
      assert [] + [x] == [x] && [x][1..] == [];
      assert ReactAll(canBuild, s, [x]) == ReactAll(canBuild, React(canBuild, s, x), []);
    } else {
      assert (xs + [x])[1..] == xs[1..] + [x];
      RunAppend(canBuild, React(canBuild, s, xs[0]), xs[1..], x);
    }
  }

  /** The screen after the first `k` inputs. */
  function ScreenAt(canBuild: AlertData -> bool, xs: seq<Input>, k: nat): Screen
    requires k <= |xs|
  {
    ReactAll(canBuild, EMPTY, xs[..k])
  }

  ghost predicate ClosedAt(canBuild: AlertData -> bool, xs: seq<Input>, k: nat, a: AlertData, reason: EventKind) {
    k < |xs| && a in ScreenAt(canBuild, xs, k).order && Means(xs[k], a, reason)
  }

  lemma PrefixRun(canBuild: AlertData -> bool, xs: seq<Input>, k: nat, n: nat)
    requires k <= n <= |xs|
    ensures ScreenAt(canBuild, xs[..n], k) == ScreenAt(canBuild, xs, k)
  {
    assert xs[..n][..k] == xs[..k];
  }

  /** What arrived was shown to the client, and what was not seen before is new to
      the reports too. */
  lemma ArrivesNow(canBuild: AlertData -> bool, s: Screen, x: Input, a: AlertData)
    requires ScreenOK(s) && Possible(s, x) && a in React(canBuild, s, x).arrivals && a !in s.arrivals
    ensures x == Shown(a) && a !in s.order
    ensures forall kind :: kind != Displayed ==> Event(a.id, kind) !in React(canBuild, s, x).reports
  {
    hide Without, Fits, Ordered, HasRoom, NoRoomBefore;
    match x {
      case Shown(b) =>
      case TakenDown(id) => FinishArrivals(canBuild, s.(waiting := Without(s.waiting, id)), id, Recalled);
      case Button(b) => FinishArrivals(canBuild, s, b.id, if b.requireAck then Acknowledged else Dismissed);
      case Closing(b) => FinishArrivals(canBuild, s, b.id, Dismissed);
      case LifeOver(b) => FinishArrivals(canBuild, s, b.id, TimedOut);
    }
  }

  lemma FinishArrivals(canBuild: AlertData -> bool, s: Screen, id: string, reason: EventKind)
    ensures Finish(canBuild, s, id, reason).arrivals == s.arrivals
  {
    hide Fill, Without;
    if Holds(s.order, id) {
      FillArrivals(canBuild, s.(order := Without(s.order, id), reports := s.reports + [Event(id, reason)]), 0);
    }
  }

  lemma {:induction false} FillArrivals(canBuild: AlertData -> bool, s: Screen, i: nat)
    requires i <= |s.waiting|
    ensures Fill(canBuild, s, i).arrivals == s.arrivals
    ensures forall a :: a in s.shown ==> a in Fill(canBuild, s, i).shown
    ensures forall a :: a in s.waiting ==> a in Fill(canBuild, s, i).waiting || a in Fill(canBuild, s, i).shown || !canBuild(a)
    decreases |s.waiting| - i
  {
    hide HasRoom;
    if i < |s.waiting| {
      if HasRoom(s.order, s.waiting[i]) {
        var t := OpenWindow(canBuild, DropAt(s, i), s.waiting[i]);
        assert forall a :: a in s.waiting ==> a in t.waiting || a == s.waiting[i];
        FillArrivals(canBuild, t, i);
      } else {
        FillArrivals(canBuild, s, i + 1);
      }
    }
  }

  /** In every run a closing report for an alert was made if and only if, at some
      moment when the alert was open, the input meant just that: its button, for an
      alert that asks to be acknowledged, means `acknowledged`, and so on. */
  lemma {:induction false} ReportedIff(canBuild: AlertData -> bool, xs: seq<Input>, a: AlertData, reason: EventKind)
    requires PossibleRun(canBuild, EMPTY, xs) && a in ReactAll(canBuild, EMPTY, xs).arrivals && reason != Displayed
    ensures Event(a.id, reason) in ReactAll(canBuild, EMPTY, xs).reports
       <==> exists k: nat :: ClosedAt(canBuild, xs, k, a, reason)
    decreases |xs|
  {
    hide ScreenOK, React, Possible, Means, ReactAll, PossibleRun;
    if xs == [] {
      assert ReactAll(canBuild, EMPTY, xs) == EMPTY by { EmptyRun(canBuild); }
    } else {
      var n := |xs| - 1;
      assert xs == xs[..n] + [xs[n]];
      RunAppend(canBuild, EMPTY, xs[..n], xs[n]);
      var s := ReactAll(canBuild, EMPTY, xs[..n]);
      EmptyOK();
      EveryRun(canBuild, EMPTY, xs[..n]);
      forall k: nat | k <= n ensures ScreenAt(canBuild, xs[..n], k) == ScreenAt(canBuild, xs, k) {
        PrefixRun(canBuild, xs, k, n);
      }
      assert ScreenAt(canBuild, xs, n) == s;
      if a in s.arrivals {
        ReportedIff(canBuild, xs[..n], a, reason);
        ClosingStep(canBuild, s, xs[n], a, reason);
        ClosedNext(canBuild, xs, xs[..n], a, reason);
      } else {
        ArrivesNow(canBuild, s, xs[n], a);
        NotYetOpen(canBuild, xs, n, a);
      }
    }
  }

  lemma EmptyRun(canBuild: AlertData -> bool)
    ensures ReactAll(canBuild, EMPTY, []) == EMPTY
  {
  }

  lemma ClosedNext(canBuild: AlertData -> bool, xs: seq<Input>, ys: seq<Input>, a: AlertData, reason: EventKind)
    requires xs != [] && ys == xs[..|xs| - 1]
    requires forall k: nat :: k < |xs| ==> ScreenAt(canBuild, ys, k) == ScreenAt(canBuild, xs, k)
    ensures (exists k: nat :: ClosedAt(canBuild, xs, k, a, reason))
       <==> (exists k: nat :: ClosedAt(canBuild, ys, k, a, reason)) || ClosedAt(canBuild, xs, |ys|, a, reason)
  {
    hide ScreenAt, Means;
    if k: nat :| ClosedAt(canBuild, xs, k, a, reason) {
      assert k < |ys| ==> ClosedAt(canBuild, ys, k, a, reason);
    }
    if k: nat :| ClosedAt(canBuild, ys, k, a, reason) {
      assert ClosedAt(canBuild, xs, k, a, reason);
    }
  }

  /** An alert that has not arrived by input `n` was on no screen before. */
  lemma {:induction false} NotYetOpen(canBuild: AlertData -> bool, xs: seq<Input>, n: nat, a: AlertData)
    requires n <= |xs| && PossibleRun(canBuild, EMPTY, xs[..n]) && a !in ScreenAt(canBuild, xs, n).arrivals
    ensures forall k: nat :: k <= n ==> a !in ScreenAt(canBuild, xs, k).order
    decreases n
  {
    hide React, Possible, ReactAll, PossibleRun;
    EmptyOK();
    EveryRun(canBuild, EMPTY, xs[..n]);
    hide Fits, Ordered, Reported, NoRoomBefore;
    if n > 0 {
      assert xs[..n] == xs[..n - 1] + [xs[n - 1]];
      RunAppend(canBuild, EMPTY, xs[..n - 1], xs[n - 1]);
      EveryRun(canBuild, EMPTY, xs[..n - 1]);
      ArrivalsStay(canBuild, ScreenAt(canBuild, xs, n - 1), xs[n - 1]);
      NotYetOpen(canBuild, xs, n - 1, a);
    }
  }

  lemma ArrivalsStay(canBuild: AlertData -> bool, s: Screen, x: Input)
    ensures forall a :: a in s.arrivals ==> a in React(canBuild, s, x).arrivals
  {
    hide Finish, Without, HasRoom, Holds;
    match x {
      case Shown(b) =>
      case TakenDown(id) => FinishArrivals(canBuild, s.(waiting := Without(s.waiting, id)), id, Recalled);
      case Button(b) => FinishArrivals(canBuild, s, b.id, if b.requireAck then Acknowledged else Dismissed);
      case Closing(b) => FinishArrivals(canBuild, s, b.id, Dismissed);
      case LifeOver(b) => FinishArrivals(canBuild, s, b.id, TimedOut);
    }
  }

  // ---- no alert is forgotten ----

  /** `a` was opened, or waits, or could not be built, or was recalled. */
  ghost predicate AccountedFor(canBuild: AlertData -> bool, s: Screen, xs: seq<Input>, a: AlertData) {
    a in s.shown || a in s.waiting || !canBuild(a) || TakenDown(a.id) in xs
  }

  lemma FinishForgetsNone(canBuild: AlertData -> bool, s: Screen, id: string, reason: EventKind)
    ensures var t := Finish(canBuild, s, id, reason);
            && (forall a :: a in s.shown ==> a in t.shown)
            && (forall a :: a in s.waiting ==> a in t.waiting || a in t.shown || !canBuild(a))
  {
    hide Fill, Without;
    if Holds(s.order, id) {
      FillArrivals(canBuild, s.(order := Without(s.order, id), reports := s.reports + [Event(id, reason)]), 0);
    }
  }

  lemma ForgetsNone(canBuild: AlertData -> bool, s: Screen, x: Input, a: AlertData)
    requires AccountedFor(canBuild, s, [], a)
    ensures AccountedFor(canBuild, React(canBuild, s, x), [x], a)
  {
    hide Finish, Without, HasRoom, Holds;
    match x {
      case Shown(b) =>
      case TakenDown(id) =>
        WithoutMember(s.waiting, id);
        FinishForgetsNone(canBuild, s.(waiting := Without(s.waiting, id)), id, Recalled);
      case Button(b) => FinishForgetsNone(canBuild, s, b.id, if b.requireAck then Acknowledged else Dismissed);
      case Closing(b) => FinishForgetsNone(canBuild, s, b.id, Dismissed);
      case LifeOver(b) => FinishForgetsNone(canBuild, s, b.id, TimedOut);
    }
  }

  /** In every run nothing arrives that the client was not told to show, everything it
      was told to show arrives, and what arrived was opened, still waits, could not
      be built, or was recalled. */
  lemma {:induction false} NothingForgotten(canBuild: AlertData -> bool, xs: seq<Input>)
    requires PossibleRun(canBuild, EMPTY, xs)
    ensures var s := ReactAll(canBuild, EMPTY, xs);
            && (forall a :: a in s.arrivals ==> Shown(a) in xs && AccountedFor(canBuild, s, xs, a))
            && (forall a :: Shown(a) in xs ==> Holds(s.arrivals, a.id))
    decreases |xs|
  {
    hide ScreenOK, React, Possible, ReactAll, PossibleRun, AccountedFor;
    if xs == [] {
      EmptyRun(canBuild);
    } else {
      var n := |xs| - 1;
      assert xs == xs[..n] + [xs[n]];
      RunAppend(canBuild, EMPTY, xs[..n], xs[n]);
      var s, t := ReactAll(canBuild, EMPTY, xs[..n]), ReactAll(canBuild, EMPTY, xs);
      EmptyOK();
      EveryRun(canBuild, EMPTY, xs[..n]);
      NothingForgotten(canBuild, xs[..n]);
      forall a | a in t.arrivals ensures Shown(a) in xs && AccountedFor(canBuild, t, xs, a) {
        if a in s.arrivals {
          StillAccounted(canBuild, s, xs[..n], xs[n], a);
        } else {
          ArrivesNow(canBuild, s, xs[n], a);
          NewIsAccounted(canBuild, s, xs, a);
        }
      }
      forall a | Shown(a) in xs ensures Holds(t.arrivals, a.id) {
        ArrivalsStay(canBuild, s, xs[n]);
        if xs[n] == Shown(a) {
          ShownArrives(canBuild, s, a);
        } else {
          HoldsMore(s.arrivals, t.arrivals, a.id);
        }
      }
    }
  }

  lemma StillAccounted(canBuild: AlertData -> bool, s: Screen, xs: seq<Input>, x: Input, a: AlertData)
    requires AccountedFor(canBuild, s, xs, a)
    ensures AccountedFor(canBuild, React(canBuild, s, x), xs + [x], a)
  {
    if TakenDown(a.id) !in xs {
      ForgetsNone(canBuild, s, x, a);
    }
    hide React;
  }

  lemma NewIsAccounted(canBuild: AlertData -> bool, s: Screen, xs: seq<Input>, a: AlertData)
    requires ScreenOK(s) && a !in s.arrivals && a in React(canBuild, s, Shown(a)).arrivals
    ensures AccountedFor(canBuild, React(canBuild, s, Shown(a)), xs, a)
  {
    hide HasRoom, Fits, Ordered, Reported, NoRoomBefore;
  }

  lemma ShownArrives(canBuild: AlertData -> bool, s: Screen, a: AlertData)
    requires ScreenOK(s)
    ensures Holds(React(canBuild, s, Shown(a)).arrivals, a.id)
  {
    hide HasRoom, Fits, Ordered, Reported, NoRoomBefore;
    if a.id !in s.seen {
      assert (s.arrivals + [a])[|s.arrivals|].id == a.id;
    }
  }

  lemma HoldsMore(s: seq<AlertData>, t: seq<AlertData>, id: string)
    requires Holds(s, id) && forall a :: a in s ==> a in t
    ensures Holds(t, id)
  {
    var i :| 0 <= i < |s| && s[i].id == id;
    assert s[i] in t;
  }

  // ---- only what can be built ----

  lemma {:induction false} FillBuilds(canBuild: AlertData -> bool, s: Screen, i: nat)
    requires i <= |s.waiting| && forall a :: a in s.shown ==> canBuild(a)
    ensures forall a :: a in Fill(canBuild, s, i).shown ==> canBuild(a)
    decreases |s.waiting| - i
  {
    hide HasRoom;
    if i < |s.waiting| {
      if HasRoom(s.order, s.waiting[i]) {
        FillBuilds(canBuild, OpenWindow(canBuild, DropAt(s, i), s.waiting[i]), i);
      } else {
        FillBuilds(canBuild, s, i + 1);
      }
    }
  }

  lemma FinishBuilds(canBuild: AlertData -> bool, s: Screen, id: string, reason: EventKind)
    requires forall a :: a in s.shown ==> canBuild(a)
    ensures forall a :: a in Finish(canBuild, s, id, reason).shown ==> canBuild(a)
  {
    hide Fill, Without;
    if Holds(s.order, id) {
      FillBuilds(canBuild, s.(order := Without(s.order, id), reports := s.reports + [Event(id, reason)]), 0);
    }
  }

  lemma ReactBuilds(canBuild: AlertData -> bool, s: Screen, x: Input)
    requires forall a :: a in s.shown ==> canBuild(a)
    ensures forall a :: a in React(canBuild, s, x).shown ==> canBuild(a)
  {
    hide Finish, Without, HasRoom, Holds;
    match x {
      case Shown(b) =>
      case TakenDown(id) => FinishBuilds(canBuild, s.(waiting := Without(s.waiting, id)), id, Recalled);
      case Button(b) => FinishBuilds(canBuild, s, b.id, if b.requireAck then Acknowledged else Dismissed);
      case Closing(b) => FinishBuilds(canBuild, s, b.id, Dismissed);
      case LifeOver(b) => FinishBuilds(canBuild, s, b.id, TimedOut);
    }
  }

  /** An alert whose window cannot be built is never shown, and so never reported. */
  lemma {:induction false} OnlyBuiltAreShown(canBuild: AlertData -> bool, s: Screen, xs: seq<Input>)
    requires forall a :: a in s.shown ==> canBuild(a)
    ensures forall a :: a in ReactAll(canBuild, s, xs).shown ==> canBuild(a)
    decreases |xs|
  {
    hide React;
    if xs != [] {
      ReactBuilds(canBuild, s, xs[0]);
      OnlyBuiltAreShown(canBuild, React(canBuild, s, xs[0]), xs[1..]);
    }
  }
}
