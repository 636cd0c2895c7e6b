/** What is on the client's screen (client/src/AlertForm.cs): at most four cards and
    one full-screen alert at a time, the rest waiting their turn. */
module Screen {
  import opened Deliveries

  const MAX_CARDS: nat := 4

  datatype AlertData = AlertData(id: string, fullScreen: bool, requireAck: bool, displaySeconds: int)

  /** `order` are the open windows, `reports` every event handed to the poller.
      `shown` and `arrivals` only record the past: the windows ever opened and the
      alerts that ever arrived, in order. */
  datatype Screen = Screen(
    order: seq<AlertData>, waiting: seq<AlertData>, seen: set<string>, reports: seq<Event>,
    shown: seq<AlertData>, arrivals: seq<AlertData>)

  const EMPTY: Screen := Screen([], [], {}, [], [], [])

  function Count(s: seq<AlertData>, fullScreen: bool): nat {
    if s == [] then 0
    else Count(s[..|s| - 1], fullScreen) + if s[|s| - 1].fullScreen == fullScreen then 1 else 0
  }

  predicate HasRoom(order: seq<AlertData>, a: AlertData) {
    if a.fullScreen then Count(order, true) == 0 else Count(order, false) < MAX_CARDS
  }

  predicate Holds(s: seq<AlertData>, id: string) {
    exists i :: 0 <= i < |s| && s[i].id == id
  }

  function Without(s: seq<AlertData>, id: string): seq<AlertData> {
    if s == [] then []
    else Without(s[..|s| - 1], id) + if s[|s| - 1].id == id then [] else [s[|s| - 1]]
  }

  /** A window that cannot be built is logged and forgotten. */
  function OpenWindow(canBuild: AlertData -> bool, s: Screen, a: AlertData): Screen {
    if canBuild(a) then
      s.(order := s.order + [a], shown := s.shown + [a], reports := s.reports + [Event(a.id, Displayed)])
    else s
  }

  function Show(canBuild: AlertData -> bool, s: Screen, a: AlertData): Screen {
    if a.id in s.seen then
      if Holds(s.order, a.id) then s.(reports := s.reports + [Event(a.id, Displayed)]) else s
    else
      var s1 := s.(seen := s.seen + {a.id}, arrivals := s.arrivals + [a]);
      if HasRoom(s1.order, a) then OpenWindow(canBuild, s1, a) else s1.(waiting := s1.waiting + [a])
  }

  function DropAt(s: Screen, i: nat): Screen
    requires i < |s.waiting|
  {
    s.(waiting := s.waiting[..i] + s.waiting[i + 1..])
  }

  /** The scan of the waiting list after a window has closed. */
  function Fill(canBuild: AlertData -> bool, s: Screen, i: nat): Screen
    requires i <= |s.waiting|
    decreases |s.waiting| - i
  {
    if i == |s.waiting| then s
    else if !HasRoom(s.order, s.waiting[i]) then Fill(canBuild, s, i + 1)
    else Fill(canBuild, OpenWindow(canBuild, DropAt(s, i), s.waiting[i]), i)
  }

  /** A window closes for a reason; a second close of the same window does nothing. */
  function Finish(canBuild: AlertData -> bool, s: Screen, id: string, reason: EventKind): Screen {
    if Holds(s.order, id) then
      Fill(canBuild, s.(order := Without(s.order, id), reports := s.reports + [Event(id, reason)]), 0)
    else s
  }

  function Recall(canBuild: AlertData -> bool, s: Screen, id: string): Screen {
    Finish(canBuild, s.(waiting := Without(s.waiting, id)), id, Recalled)
  }

  /** What can happen: the server's instructions, the close button, Alt+F4 and its
      like, and the life timer. */
  datatype Input = Shown(a: AlertData) | TakenDown(id: string) | Button(a: AlertData) | Closing(a: AlertData) | LifeOver(a: AlertData)

  /** Window events come from windows that were opened. */
  ghost predicate Possible(s: Screen, x: Input) {
    match x
    case Button(a) => a in s.shown
    case Closing(a) => a in s.shown
    case LifeOver(a) => a in s.shown
    case _ => true
  }

  function React(canBuild: AlertData -> bool, s: Screen, x: Input): Screen {
    match x
    case Shown(a) => Show(canBuild, s, a)
    case TakenDown(id) => Recall(canBuild, s, id)
    case Button(a) => Finish(canBuild, s, a.id, if a.requireAck then Acknowledged else Dismissed)
    case Closing(a) => if a.requireAck then s else Finish(canBuild, s, a.id, Dismissed)
    case LifeOver(a) =>
      if a.displaySeconds > 0 && !a.requireAck then Finish(canBuild, s, a.id, TimedOut) else s
  }

  // ---- lists ----

  ghost predicate Distinct(s: seq<AlertData>) {
    forall i, j :: 0 <= i < j < |s| ==> s[i].id != s[j].id
  }

  /** The arrival number of alert `id`. */
  function Arrival(arrivals: seq<AlertData>, id: string): (n: int)
    ensures -1 <= n < |arrivals|
    ensures n >= 0 ==> arrivals[n].id == id
  {
    if arrivals == [] then -1
    else if arrivals[|arrivals| - 1].id == id then |arrivals| - 1
    else Arrival(arrivals[..|arrivals| - 1], id)
  }

  /** Alerts of one kind stand in the order in which they arrived. */
  ghost predicate InTurn(arrivals: seq<AlertData>, s: seq<AlertData>) {
    forall i, j :: 0 <= i < j < |s| && s[i].fullScreen == s[j].fullScreen ==>
      Arrival(arrivals, s[i].id) < Arrival(arrivals, s[j].id)
  }

  ghost predicate Precedes(arrivals: seq<AlertData>, s: seq<AlertData>, t: seq<AlertData>) {
    forall i, j :: 0 <= i < |s| && 0 <= j < |t| && s[i].fullScreen == t[j].fullScreen ==>
      Arrival(arrivals, s[i].id) < Arrival(arrivals, t[j].id)
  }

  lemma {:induction false} WithoutMember(s: seq<AlertData>, id: string)
    ensures forall x :: x in Without(s, id) <==> x in s && x.id != id
    ensures |Without(s, id)| <= |s|
  {
    if s != [] {
      WithoutMember(s[..|s| - 1], id);
      assert forall x :: x in s <==> x in s[..|s| - 1] || x == s[|s| - 1];
    }
  }

  lemma {:induction false} WithoutDistinct(s: seq<AlertData>, id: string)
    requires Distinct(s)
    ensures Distinct(Without(s, id))
  {
    if s != [] {
      var u := Without(s[..|s| - 1], id);
      WithoutDistinct(s[..|s| - 1], id);
      WithoutMember(s[..|s| - 1], id);
      forall i | 0 <= i < |u| ensures u[i].id != s[|s| - 1].id {
        assert u[i] in s[..|s| - 1];
      }
    }
  }

  lemma {:induction false} WithoutInTurn(arrivals: seq<AlertData>, s: seq<AlertData>, id: string)
    requires InTurn(arrivals, s)
    ensures InTurn(arrivals, Without(s, id))
  {
    hide Arrival;
    if s != [] {
      var n := |s| - 1;
      var u := Without(s[..n], id);
      assert InTurn(arrivals, s[..n]);
      WithoutInTurn(arrivals, s[..n], id);
      WithoutMember(s[..n], id);
      forall i | 0 <= i < |u| && u[i].fullScreen == s[n].fullScreen
        ensures Arrival(arrivals, u[i].id) < Arrival(arrivals, s[n].id)
      {
        assert u[i] in s[..n];
      }
    }
  }

  lemma {:induction false} WithoutCount(s: seq<AlertData>, id: string, full: bool)
    ensures Count(Without(s, id), full) <= Count(s, full)
  {
    if s != [] {
      var u, x := Without(s[..|s| - 1], id), s[|s| - 1];
      WithoutCount(s[..|s| - 1], id, full);
      CountAppend(u, x, full);
      assert u + [] == u;
    }
  }

  lemma CountAppend(s: seq<AlertData>, a: AlertData, full: bool)
    ensures Count(s + [a], full) == Count(s, full) + if a.fullScreen == full then 1 else 0
  {
    assert (s + [a])[..|s|] == s;
  }

  lemma ArrivalAppend(arrivals: seq<AlertData>, a: AlertData, id: string)
    ensures Arrival(arrivals + [a], id) == if a.id == id then |arrivals| else Arrival(arrivals, id)
  {
    assert (arrivals + [a])[..|arrivals|] == arrivals;
  }

  // ---- the life of one alert, as reported ----

  datatype Life = Unseen | Showing | Over | Broken

  /** Which event may close a window. */
  predicate MayClose(requireAck: bool, kind: EventKind) {
    if requireAck then kind == Acknowledged || kind == Recalled
    else kind == Dismissed || kind == TimedOut || kind == Recalled
  }

  function NextLife(life: Life, requireAck: bool, kind: EventKind): Life {
    match life
    case Unseen => if kind == Displayed then Showing else Broken
    case Showing =>
      if kind == Displayed then Showing else if MayClose(requireAck, kind) then Over else Broken
    case _ => Broken
  }

  /** One or more `displayed`, then at most one closing event, then nothing. */
  function LifeOf(reports: seq<Event>, id: string, requireAck: bool): Life {
    if reports == [] then Unseen
    else
      var n := |reports| - 1;
      var before := LifeOf(reports[..n], id, requireAck);
      if reports[n].alertID == id then NextLife(before, requireAck, reports[n].kind) else before
  }

  /** The kinds of event reported for `id`. */
  function Kinds(reports: seq<Event>, id: string): seq<EventKind> {
    if reports == [] then []
    else
      var n := |reports| - 1;
      Kinds(reports[..n], id) + if reports[n].alertID == id then [reports[n].kind] else []
  }

  ghost predicate AllDisplayed(ks: seq<EventKind>) {
    forall i :: 0 <= i < |ks| ==> ks[i] == Displayed
  }

  /** The same, said of the whole list of events. */
  ghost predicate Tells(ks: seq<EventKind>, requireAck: bool, life: Life) {
    && (life == Unseen <==> ks == [])
    && (life == Showing <==> ks != [] && AllDisplayed(ks))
    && (life == Over <==> |ks| >= 2 && AllDisplayed(ks[..|ks| - 1]) && MayClose(requireAck, ks[|ks| - 1]))
  }

  lemma AllDisplayedAppend(ks: seq<EventKind>, k: EventKind)
    ensures AllDisplayed(ks + [k]) <==> AllDisplayed(ks) && k == Displayed
    ensures (ks + [k])[..|ks + [k]| - 1] == ks
  {
    assert forall i :: 0 <= i < |ks| ==> (ks + [k])[i] == ks[i];
    assert (ks + [k])[|ks|] == k;
  }

  lemma TellsAppend(ks: seq<EventKind>, requireAck: bool, life: Life, k: EventKind)
    requires Tells(ks, requireAck, life)
    ensures Tells(ks + [k], requireAck, NextLife(life, requireAck, k))
  {
    AllDisplayedAppend(ks, k);
    if ks != [] && AllDisplayed(ks) {
      assert ks[|ks| - 1] == Displayed;
    }
  }

  lemma {:induction false} LifeMeaning(reports: seq<Event>, id: string, requireAck: bool)
    ensures Tells(Kinds(reports, id), requireAck, LifeOf(reports, id, requireAck))
  {
    hide Tells, NextLife;
    if reports == [] {
      TellsNothing(requireAck);
    } else {
      var n := |reports| - 1;
      LifeMeaning(reports[..n], id, requireAck);
      var before := Kinds(reports[..n], id);
      assert before + [] == before;
      TellsAppend(before, requireAck, LifeOf(reports[..n], id, requireAck), reports[n].kind);
    }
  }

  lemma TellsNothing(requireAck: bool)
    ensures Tells([], requireAck, Unseen)
  {
  }

  lemma LifeAppend(reports: seq<Event>, e: Event, id: string, requireAck: bool)
    ensures e.alertID != id ==> LifeOf(reports + [e], id, requireAck) == LifeOf(reports, id, requireAck)
    ensures e.alertID == id && e.kind == Displayed && LifeOf(reports, id, requireAck).Unseen? ==>
              LifeOf(reports + [e], id, requireAck) == Showing
    ensures e.alertID == id && e.kind == Displayed && LifeOf(reports, id, requireAck).Showing? ==>
              LifeOf(reports + [e], id, requireAck) == Showing
    ensures e.alertID == id && MayClose(requireAck, e.kind) && LifeOf(reports, id, requireAck).Showing? ==>
              LifeOf(reports + [e], id, requireAck) == Over
  {
    assert (reports + [e])[..|reports|] == reports;
  }

  // ---- what every reachable screen keeps ----

  ghost predicate Fits(s: Screen) {
    Count(s.order, false) <= MAX_CARDS && Count(s.order, true) <= 1
  }

  /** Who is where: alerts open or waiting were seen, never both, and each id was
      opened at most once. */
  ghost predicate Placed(s: Screen) {
    && Distinct(s.order) && Distinct(s.waiting) && Distinct(s.shown) && Distinct(s.arrivals)
    && (forall a :: a in s.order ==> a in s.shown)
    && (forall a :: a in s.shown ==> a in s.arrivals)
    && (forall a :: a in s.waiting ==> a in s.arrivals && a !in s.shown)
    && (forall a :: a in s.arrivals ==> a.id in s.seen)
    && (forall id :: id in s.seen ==> Holds(s.arrivals, id))
  }

  /** Alerts of one kind open in the order in which they arrived. */
  ghost predicate Ordered(s: Screen) {
    && InTurn(s.arrivals, s.shown)
    && InTurn(s.arrivals, s.waiting)
    && Precedes(s.arrivals, s.shown, s.waiting)
  }

  ghost predicate NoRoomBefore(s: Screen, i: nat) {
    forall j :: 0 <= j < i && j < |s.waiting| ==> !HasRoom(s.order, s.waiting[j])
  }

  ghost predicate LifeOK(s: Screen, a: AlertData) {
    LifeOf(s.reports, a.id, a.requireAck)
    == if a in s.order then Showing else if a in s.shown then Over else Unseen
  }

  ghost predicate Reported(s: Screen) {
    && (forall a :: a in s.arrivals ==> LifeOK(s, a))
    && (forall i :: 0 <= i < |s.reports| ==> s.reports[i].alertID in s.seen)
  }

  ghost predicate Sound(s: Screen) {
    Fits(s) && Placed(s) && Ordered(s) && Reported(s)
  }

  ghost predicate ScreenOK(s: Screen) {
    Sound(s) && NoRoomBefore(s, |s.waiting|)
  }

  /** `a` may be opened next: it arrived, was never opened, waits no longer, and of
      its kind everything opened came before it and everything waiting after. */
  ghost predicate NextUp(s: Screen, a: AlertData) {
    && a in s.arrivals && a !in s.shown && a !in s.waiting
    && HasRoom(s.order, a)
    && Precedes(s.arrivals, s.shown, [a])
    && Precedes(s.arrivals, [a], s.waiting)
  }

  lemma DistinctData(s: seq<AlertData>, a: AlertData, b: AlertData)
    requires Distinct(s) && a in s && b in s && a.id == b.id
    ensures a == b
  {
  }

  lemma DistinctAppend(arrivals: seq<AlertData>, s: seq<AlertData>, a: AlertData)
    requires Distinct(arrivals) && Distinct(s) && a in arrivals && a !in s
    requires forall x :: x in s ==> x in arrivals
    ensures Distinct(s + [a])
  {
    forall i | 0 <= i < |s| ensures s[i].id != a.id {
      if s[i].id == a.id { DistinctData(arrivals, s[i], a); }
    }
  }

  lemma OpenKeepsPlaces(canBuild: AlertData -> bool, s: Screen, a: AlertData)
    requires Fits(s) && Placed(s) && Ordered(s) && NextUp(s, a)
    ensures var t := OpenWindow(canBuild, s, a); Fits(t) && Placed(t) && Ordered(t)
  {
    if canBuild(a) {
      CountAppend(s.order, a, false);
      CountAppend(s.order, a, true);
      DistinctAppend(s.arrivals, s.order, a);
      DistinctAppend(s.arrivals, s.shown, a);
    }
  }

  lemma OpenKeepsReports(canBuild: AlertData -> bool, s: Screen, a: AlertData)
    requires Placed(s) && Reported(s) && a in s.arrivals && a !in s.shown
    ensures Reported(OpenWindow(canBuild, s, a))
  {
    var t := OpenWindow(canBuild, s, a);
    if canBuild(a) {
      forall b | b in t.arrivals ensures LifeOK(t, b) {
        assert LifeOK(s, b);
        LifeAppend(s.reports, Event(a.id, Displayed), b.id, b.requireAck);
        if a.id == b.id { DistinctData(s.arrivals, a, b); }
      }
    }
  }

  lemma OpenKeeps(canBuild: AlertData -> bool, s: Screen, a: AlertData)
    requires Sound(s) && NextUp(s, a)
    ensures var t := OpenWindow(canBuild, s, a); Sound(t) && t.waiting == s.waiting && t.arrivals == s.arrivals
  {
    OpenKeepsPlaces(canBuild, s, a);
    OpenKeepsReports(canBuild, s, a);
    hide Fits, Placed, Ordered, Reported, NextUp;
  }

  /** Opening a window never makes room. */
  lemma OpenKeepsNoRoom(canBuild: AlertData -> bool, s: Screen, a: AlertData, i: nat)
    requires NoRoomBefore(s, i)
    ensures NoRoomBefore(OpenWindow(canBuild, s, a), i)
  {
    CountAppend(s.order, a, false);
    CountAppend(s.order, a, true);
  }

  lemma DropPlaced(s: Screen, i: nat)
    requires Placed(s) && i < |s.waiting|
    ensures Placed(DropAt(s, i))
    ensures s.waiting[i] in s.arrivals && s.waiting[i] !in s.shown && s.waiting[i] !in DropAt(s, i).waiting
    ensures forall a :: a in DropAt(s, i).waiting ==> a in s.waiting
  {
    hide Holds;
    var t := DropAt(s, i);
    assert s.waiting[i] in s.waiting;
    assert forall j :: 0 <= j < |t.waiting| ==> t.waiting[j] == s.waiting[if j < i then j else j + 1];
    forall j | 0 <= j < |t.waiting| ensures t.waiting[j].id != s.waiting[i].id {
      if j < i { } else { assert s.waiting[i].id != s.waiting[j + 1].id; }
    }
  }

  lemma DropInTurn(s: Screen, i: nat)
    requires Ordered(s) && i < |s.waiting|
    requires forall j :: 0 <= j < i ==> s.waiting[j].fullScreen != s.waiting[i].fullScreen
    ensures var t := DropAt(s, i);
            Ordered(t) && Precedes(t.arrivals, t.shown, [s.waiting[i]]) && Precedes(t.arrivals, [s.waiting[i]], t.waiting)
  {
    hide Arrival;
    var t := DropAt(s, i);
    assert forall j :: 0 <= j < |t.waiting| ==> t.waiting[j] == s.waiting[if j < i then j else j + 1];
  }

  /** The first waiting alert that has room is next of its kind. */
  lemma FirstWithRoom(s: Screen, i: nat)
    requires Sound(s) && i < |s.waiting| && NoRoomBefore(s, i) && HasRoom(s.order, s.waiting[i])
    ensures Sound(DropAt(s, i)) && NoRoomBefore(DropAt(s, i), i) && NextUp(DropAt(s, i), s.waiting[i])
  {
    hide LifeOK, Count, Placed, Ordered, Precedes;
    var t := DropAt(s, i);
    forall j | 0 <= j < i ensures s.waiting[j].fullScreen != s.waiting[i].fullScreen {
      assert !HasRoom(s.order, s.waiting[j]);
    }
    DropPlaced(s, i);
    DropInTurn(s, i);
    LifeIgnoresWaiting(s, t);
  }

  lemma LifeIgnoresWaiting(s: Screen, t: Screen)
    requires t == s.(waiting := t.waiting)
    ensures forall a :: LifeOK(t, a) <==> LifeOK(s, a)
  {
  }

  lemma NoRoomExtends(s: Screen, i: nat)
    requires NoRoomBefore(s, i) && i < |s.waiting| && !HasRoom(s.order, s.waiting[i])
    ensures NoRoomBefore(s, i + 1)
  {
  }

  lemma ClosePlaced(s: Screen, t: Screen, id: string)
    requires Placed(s) && Fits(s) && Ordered(s)
    requires t == s.(order := Without(s.order, id), reports := t.reports)
    ensures Placed(t) && Fits(t) && Ordered(t)
  {
    assert Ordered(t);
    CloseFits(s, t, id);
    hide Ordered, Fits, Count;
    WithoutMember(s.order, id);
    WithoutDistinct(s.order, id);
    hide Without, Holds, Distinct;
  }

  lemma CloseFits(s: Screen, t: Screen, id: string)
    requires Fits(s) && t.order == Without(s.order, id)
    ensures Fits(t)
  {
    hide Without, Count;
    WithoutCount(s.order, id, false);
    WithoutCount(s.order, id, true);
  }

  lemma NothingBefore(s: Screen)
    ensures NoRoomBefore(s, 0)
  {
  }

  lemma FillEnds(canBuild: AlertData -> bool, s: Screen)
    ensures Fill(canBuild, s, |s.waiting|) == s
  {
  }

  /** One turn of the scan: an alert that has no room stays. */
  lemma FillSkips(canBuild: AlertData -> bool, s: Screen, i: nat)
    requires NoRoomBefore(s, i) && i < |s.waiting| && !HasRoom(s.order, s.waiting[i])
    ensures NoRoomBefore(s, i + 1) && Fill(canBuild, s, i) == Fill(canBuild, s, i + 1)
  {
    NoRoomExtends(s, i);
    hide NoRoomBefore, HasRoom;
  }

  /** One turn of the scan: an alert that has room is opened, and was never open. */
  lemma FillOpens(canBuild: AlertData -> bool, s: Screen, i: nat)
    requires Sound(s) && NoRoomBefore(s, i) && i < |s.waiting| && HasRoom(s.order, s.waiting[i])
    ensures var t := OpenWindow(canBuild, DropAt(s, i), s.waiting[i]);
            && Sound(t) && NoRoomBefore(t, i) && t.waiting == DropAt(s, i).waiting && i <= |t.waiting|
            && Fill(canBuild, s, i) == Fill(canBuild, t, i)
    ensures forall b :: b in s.shown ==> b.id != s.waiting[i].id
  {
    FirstWithRoom(s, i);
    OpenKeeps(canBuild, DropAt(s, i), s.waiting[i]);
    OpenKeepsNoRoom(canBuild, DropAt(s, i), s.waiting[i], i);
    WaitingIsNew(s, i);
    hide Sound, NoRoomBefore, HasRoom, OpenWindow, NextUp;
  }

  lemma WaitingIsNew(s: Screen, i: nat)
    requires Sound(s) && i < |s.waiting|
    ensures forall b :: b in s.shown ==> b.id != s.waiting[i].id
  {
    assert s.waiting[i] in s.waiting;
    forall b | b in s.shown ensures b.id != s.waiting[i].id {
      if b.id == s.waiting[i].id { DistinctData(s.arrivals, b, s.waiting[i]); }
    }
  }

  lemma {:induction false} FillKeeps(canBuild: AlertData -> bool, s: Screen, i: nat)
    requires Sound(s) && i <= |s.waiting| && NoRoomBefore(s, i)
    ensures ScreenOK(Fill(canBuild, s, i))
    decreases |s.waiting| - i
  {
    hide Sound, NoRoomBefore, HasRoom, OpenWindow;
    if i == |s.waiting| {
    } else if HasRoom(s.order, s.waiting[i]) {
      FillOpens(canBuild, s, i);
      FillKeeps(canBuild, OpenWindow(canBuild, DropAt(s, i), s.waiting[i]), i);
    } else {
      FillSkips(canBuild, s, i);
      FillKeeps(canBuild, s, i + 1);
    }
  }

  /** The screen right after a window has closed, before the waiting list is scanned. */
  lemma CloseKeeps(s: Screen, a: AlertData, reason: EventKind)
    requires ScreenOK(s) && a in s.shown && Holds(s.order, a.id) && MayClose(a.requireAck, reason)
    ensures Sound(s.(order := Without(s.order, a.id), reports := s.reports + [Event(a.id, reason)]))
  {
    hide Placed, Fits, Ordered, Reported, Without, MayClose;
    var t := s.(order := Without(s.order, a.id), reports := s.reports + [Event(a.id, reason)]);
    ClosePlaced(s, t, a.id);
    CloseReported(s, t, a, reason);
  }

  lemma FinishKeeps(canBuild: AlertData -> bool, s: Screen, a: AlertData, reason: EventKind)
    requires ScreenOK(s) && a in s.shown && MayClose(a.requireAck, reason)
    ensures ScreenOK(Finish(canBuild, s, a.id, reason))
  {
    hide Placed, Fits, Ordered, Reported, Without, MayClose;
    if Holds(s.order, a.id) {
      var t := s.(order := Without(s.order, a.id), reports := s.reports + [Event(a.id, reason)]);
      CloseKeeps(s, a, reason);
      FillKeeps(canBuild, t, 0);
    }
  }

  lemma CloseReported(s: Screen, t: Screen, a: AlertData, reason: EventKind)
    requires Sound(s) && a in s.shown && Holds(s.order, a.id) && MayClose(a.requireAck, reason)
    requires t == s.(order := Without(s.order, a.id), reports := s.reports + [Event(a.id, reason)])
    ensures Reported(t)
  {
    var i :| 0 <= i < |s.order| && s.order[i].id == a.id;
    DistinctData(s.shown, s.order[i], a);
    WithoutMember(s.order, a.id);
    forall b | b in t.arrivals ensures LifeOK(t, b) {
      assert LifeOK(s, b);
      LifeAppend(s.reports, Event(a.id, reason), b.id, b.requireAck);
      if a.id == b.id { DistinctData(s.arrivals, a, b); }
    }
  }

  lemma ShowKeeps(canBuild: AlertData -> bool, s: Screen, a: AlertData)
    requires ScreenOK(s)
    ensures ScreenOK(Show(canBuild, s, a))
  {
    if a.id in s.seen {
      AgainKeeps(s, a);
    } else {
      var t := s.(seen := s.seen + {a.id}, arrivals := s.arrivals + [a]);
      ArriveKeeps(s, a);
      hide Sound;
      if HasRoom(t.order, a) {
        OpenKeeps(canBuild, t, a);
        OpenKeepsNoRoom(canBuild, t, a, |t.waiting|);
      } else {
        WaitKeeps(t, a);
      }
    }
  }

  lemma AgainKeeps(s: Screen, a: AlertData)
    requires ScreenOK(s) && a.id in s.seen
    ensures Holds(s.order, a.id) ==> ScreenOK(s.(reports := s.reports + [Event(a.id, Displayed)]))
  {
    var t := s.(reports := s.reports + [Event(a.id, Displayed)]);
    if Holds(s.order, a.id) {
      var i :| 0 <= i < |s.order| && s.order[i].id == a.id;
      forall b | b in t.arrivals ensures LifeOK(t, b) {
        assert LifeOK(s, b);
        LifeAppend(s.reports, Event(a.id, Displayed), b.id, b.requireAck);
        if a.id == b.id { DistinctData(s.arrivals, s.order[i], b); }
      }
    }
  }

  /** A newcomer is last of its kind. */
  lemma ArriveKeeps(s: Screen, a: AlertData)
    requires ScreenOK(s) && a.id !in s.seen
    ensures var t := s.(seen := s.seen + {a.id}, arrivals := s.arrivals + [a]);
            && Sound(t) && NoRoomBefore(t, |t.waiting|)
            && a in t.arrivals && a !in t.shown && a !in t.waiting
            && Precedes(t.arrivals, t.shown, [a]) && Precedes(t.arrivals, t.waiting, [a])
            && (HasRoom(t.order, a) ==> NextUp(t, a))
  {
    ArrivePlaced(s, a);
    ArriveReported(s, a);
    ArriveOrdered(s, a);
    hide Arrival, LifeOK, Placed, Reported, Count, InTurn;
    var t := s.(seen := s.seen + {a.id}, arrivals := s.arrivals + [a]);
    forall j | 0 <= j < |t.waiting| && HasRoom(t.order, a) ensures t.waiting[j].fullScreen != a.fullScreen {
      assert !HasRoom(s.order, s.waiting[j]);
    }
  }

  lemma ArriveOrdered(s: Screen, a: AlertData)
    requires Placed(s) && Ordered(s) && a.id !in s.seen
    ensures var t := s.(seen := s.seen + {a.id}, arrivals := s.arrivals + [a]);
            Ordered(t) && Precedes(t.arrivals, t.shown, [a]) && Precedes(t.arrivals, t.waiting, [a])
  {
    var t := s.(seen := s.seen + {a.id}, arrivals := s.arrivals + [a]);
    ArrivePlaced(s, a);
    ArrivalAppend(s.arrivals, a, a.id);
    forall b | b in s.shown || b in s.waiting ensures Arrival(t.arrivals, b.id) == Arrival(s.arrivals, b.id) {
      ArrivalAppend(s.arrivals, a, b.id);
    }
    hide Arrival, Placed;
  }

  lemma ArrivePlaced(s: Screen, a: AlertData)
    requires Placed(s) && a.id !in s.seen
    ensures Placed(s.(seen := s.seen + {a.id}, arrivals := s.arrivals + [a]))
    ensures forall b :: b in s.shown || b in s.waiting ==> b.id != a.id
    ensures a in s.arrivals + [a] && a !in s.shown && a !in s.waiting
  {
    var t := s.(seen := s.seen + {a.id}, arrivals := s.arrivals + [a]);
    assert forall b :: b in s.arrivals ==> b.id != a.id;
    forall id | id in t.seen ensures Holds(t.arrivals, id) {
      if id == a.id {
        assert t.arrivals[|s.arrivals|].id == id;
      } else {
        var i :| 0 <= i < |s.arrivals| && s.arrivals[i].id == id;
        assert t.arrivals[i].id == id;
      }
    }
  }

  lemma {:induction false} NeverReported(reports: seq<Event>, id: string, requireAck: bool)
    requires forall i :: 0 <= i < |reports| ==> reports[i].alertID != id
    ensures LifeOf(reports, id, requireAck) == Unseen
  {
    if reports != [] {
      NeverReported(reports[..|reports| - 1], id, requireAck);
    }
  }

  lemma ArriveReported(s: Screen, a: AlertData)
    requires Placed(s) && Reported(s) && a.id !in s.seen
    ensures Reported(s.(seen := s.seen + {a.id}, arrivals := s.arrivals + [a]))
  {
    var t := s.(seen := s.seen + {a.id}, arrivals := s.arrivals + [a]);
    NeverReported(s.reports, a.id, a.requireAck);
    forall b | b in t.arrivals ensures LifeOK(t, b) {
      if b in s.arrivals {
        assert LifeOK(s, b);
      } else {
        assert a !in s.shown && a !in s.order;
      }
    }
  }

  lemma WaitKeeps(s: Screen, a: AlertData)
    requires Sound(s) && NoRoomBefore(s, |s.waiting|) && !HasRoom(s.order, a)
    requires a in s.arrivals && a !in s.shown && a !in s.waiting
    requires Precedes(s.arrivals, s.shown, [a]) && Precedes(s.arrivals, s.waiting, [a])
    ensures ScreenOK(s.(waiting := s.waiting + [a]))
  {
    var t := s.(waiting := s.waiting + [a]);
    DistinctAppend(s.arrivals, s.waiting, a);
    LifeIgnoresWaiting(s, t);
    hide LifeOK, Arrival, Count, Holds;
    assert [a][0] == a;
  }

  lemma DropWaiting(s: Screen, id: string)
    requires ScreenOK(s)
    ensures ScreenOK(s.(waiting := Without(s.waiting, id)))
  {
    var t := s.(waiting := Without(s.waiting, id));
    hide Without, HasRoom;
    WithoutMember(s.waiting, id);
    WithoutDistinct(s.waiting, id);
    hide Distinct;
    WithoutInTurn(s.arrivals, s.waiting, id);
    LifeIgnoresWaiting(s, t);
    hide LifeOK, Count, Holds;
    DropOrdered(s, t);
    hide InTurn, Precedes, Ordered;
    forall j | 0 <= j < |t.waiting| ensures !HasRoom(t.order, t.waiting[j]) {
      assert t.waiting[j] in s.waiting;
    }
  }

  lemma DropOrdered(s: Screen, t: Screen)
    requires Ordered(s) && t == s.(waiting := t.waiting) && InTurn(s.arrivals, t.waiting)
    requires forall a :: a in t.waiting ==> a in s.waiting
    ensures Ordered(t)
  {
    hide Arrival;
    forall i, j | 0 <= i < |t.shown| && 0 <= j < |t.waiting| && t.shown[i].fullScreen == t.waiting[j].fullScreen
      ensures Arrival(t.arrivals, t.shown[i].id) < Arrival(t.arrivals, t.waiting[j].id)
    {
      assert t.waiting[j] in s.waiting;
    }
  }

  lemma ReactKeeps(canBuild: AlertData -> bool, s: Screen, x: Input)
    requires ScreenOK(s) && Possible(s, x)
    ensures ScreenOK(React(canBuild, s, x))
  {
    hide Sound, NoRoomBefore, Fill;
    match x {
      case Shown(a) => ShowKeeps(canBuild, s, a);
      case TakenDown(id) =>
        DropWaiting(s, id);
        var t := s.(waiting := Without(s.waiting, id));
        if Holds(s.order, id) {
          OpenWasShown(t, id);
          var a :| a in t.shown && a.id == id;
          FinishKeeps(canBuild, t, a, Recalled);
        }
      case Button(a) => FinishKeeps(canBuild, s, a, if a.requireAck then Acknowledged else Dismissed);
      case Closing(a) => if !a.requireAck { FinishKeeps(canBuild, s, a, Dismissed); }
      case LifeOver(a) => if !a.requireAck { FinishKeeps(canBuild, s, a, TimedOut); }
    }
  }

  lemma OpenWasShown(s: Screen, id: string)
    requires Sound(s) && Holds(s.order, id)
    ensures exists a :: a in s.shown && a.id == id
  {
    var i :| 0 <= i < |s.order| && s.order[i].id == id;
    assert s.order[i] in s.shown;
  }

  // ---- whole runs ----

  function ReactAll(canBuild: AlertData -> bool, s: Screen, xs: seq<Input>): Screen
    decreases |xs|
  {
    if xs == [] then s else ReactAll(canBuild, React(canBuild, s, xs[0]), xs[1..])
  }

  ghost predicate PossibleRun(canBuild: AlertData -> bool, s: Screen, xs: seq<Input>)
    decreases |xs|
  {
    xs == [] || (Possible(s, xs[0]) && PossibleRun(canBuild, React(canBuild, s, xs[0]), xs[1..]))
  }

  /** In every run, whatever windows can or cannot be built: at most four cards and
      one full-screen alert are open, each id opens at most once, nothing waits
      that has room, alerts of one kind open in order of arrival, and every alert's
      reports are in order. */
  lemma {:induction false} EveryRun(canBuild: AlertData -> bool, s: Screen, xs: seq<Input>)
    requires ScreenOK(s) && PossibleRun(canBuild, s, xs)
    ensures ScreenOK(ReactAll(canBuild, s, xs))
    decreases |xs|
  {
    hide ScreenOK, Possible;
    if xs != [] {
      ReactKeeps(canBuild, s, xs[0]);
      EveryRun(canBuild, React(canBuild, s, xs[0]), xs[1..]);
    }
  }

  /** What the server hears of an alert in any run: `displayed` one or more times,
      then at most one closing event of a permitted kind, then nothing more. */
  lemma ReportsInOrder(canBuild: AlertData -> bool, xs: seq<Input>, a: AlertData)
    requires PossibleRun(canBuild, EMPTY, xs)
    ensures var s := ReactAll(canBuild, EMPTY, xs); var ks := Kinds(s.reports, a.id);
            a in s.arrivals ==>
              || (a !in s.shown && ks == [])
              || (a in s.order && ks != [] && AllDisplayed(ks))
              || (a in s.shown && a !in s.order && |ks| >= 2 && AllDisplayed(ks[..|ks| - 1])
                  && MayClose(a.requireAck, ks[|ks| - 1]))
  {
    hide ScreenOK, PossibleRun, ReactAll, Kinds, AllDisplayed, MayClose;
    EmptyOK();
    EveryRun(canBuild, EMPTY, xs);
    var s := ReactAll(canBuild, EMPTY, xs);
    if a in s.arrivals {
      LifeTold(s, a);
    }
  }

  lemma LifeTold(s: Screen, a: AlertData)
    requires ScreenOK(s) && a in s.arrivals
    ensures var ks := Kinds(s.reports, a.id);
            || (a !in s.shown && ks == [])
            || (a in s.order && ks != [] && AllDisplayed(ks))
            || (a in s.shown && a !in s.order && |ks| >= 2 && AllDisplayed(ks[..|ks| - 1])
                && MayClose(a.requireAck, ks[|ks| - 1]))
  {
    hide Kinds, AllDisplayed, MayClose, LifeOf, Fits, Ordered, NoRoomBefore;
    LifeMeaning(s.reports, a.id, a.requireAck);
    assert LifeOK(s, a);
  }

  lemma EmptyOK()
    ensures ScreenOK(EMPTY)
  {
  }
}
