/** The window manager as objects, each method proved against its counterpart in
    `Screen`. */
module Windows {
  import opened Deliveries
  import S = Screen

  class AlertWindow {
    const data: S.AlertData
    var finishing: bool

    constructor (data: S.AlertData)
      ensures this.data == data && !finishing
    {
      this.data := data;
      finishing := false;
    }
  }

  function Datas(ws: seq<AlertWindow>): (r: seq<S.AlertData>)
    ensures |r| == |ws| && forall i :: 0 <= i < |ws| ==> r[i] == ws[i].data
  {
    seq(|ws|, i requires 0 <= i < |ws| => ws[i].data)
  }

  lemma WithoutLast(s: seq<S.AlertData>, id: string)
    requires s != []
    ensures var n := |s| - 1; S.Without(s, id) == S.Without(s[..n], id) + if s[n].id == id then [] else [s[n]]
  {
  }

  lemma {:induction false} WithoutAt(s: seq<S.AlertData>, i: nat)
    requires S.Distinct(s) && i < |s|
    ensures S.Without(s, s[i].id) == s[..i] + s[i + 1..]
    decreases |s|
  {
    hide S.Without;
    var n := |s| - 1;
    WithoutLast(s, s[i].id);
    if i < n {
      WithoutAt(s[..n], i);
      hide S.Distinct;
      assert s[..n][..i] == s[..i] && s[..n][i + 1..] + [s[n]] == s[i + 1..];
    } else {
      WithoutAbsent(s[..n], s[n].id);
      hide S.Distinct;
      assert s[i + 1..] == [] && s[..n] + [] == s[..n];
    }
  }

  lemma {:induction false} WithoutAbsent(s: seq<S.AlertData>, id: string)
    requires forall i :: 0 <= i < |s| ==> s[i].id != id
    ensures S.Without(s, id) == s
  {
    if s != [] {
      WithoutAbsent(s[..|s| - 1], id);
    }
  }

  /** `open` and `order` hold the same windows, all of them built by this manager,
      and no id was ever opened twice. */
  ghost predicate Tidy(open: map<string, AlertWindow>, order: seq<AlertWindow>, windows: set<AlertWindow>, shown: seq<S.AlertData>) {
    && (forall i, j :: 0 <= i < j < |order| ==> order[i].data.id != order[j].data.id)
    && (forall w :: w in order ==> w in windows && w.data.id in open && open[w.data.id] == w)
    && (forall id :: id in open ==> open[id] in order && open[id].data.id == id)
    && (forall w :: w in windows ==> w.data in shown)
    && (forall v, w :: v in windows && w in windows && v.data.id == w.data.id ==> v == w)
  }

  lemma TidyOpen(open: map<string, AlertWindow>, order: seq<AlertWindow>, windows: set<AlertWindow>, shown: seq<S.AlertData>, w: AlertWindow)
    requires Tidy(open, order, windows, shown) && forall a :: a in shown ==> a.id != w.data.id
    ensures Tidy(open[w.data.id := w], order + [w], windows + {w}, shown + [w.data])
  {
    assert forall v :: v in windows ==> v.data.id != w.data.id;
    assert forall i :: 0 <= i < |order| ==> order[i] in order;
  }

  function RemoveAt<T>(s: seq<T>, i: nat): (r: seq<T>)
    requires i < |s|
    ensures |r| == |s| - 1
    ensures forall j :: 0 <= j < |r| ==> r[j] == s[if j < i then j else j + 1]
  {
    s[..i] + s[i + 1..]
  }

  lemma RemoveAtMembers(order: seq<AlertWindow>, i: nat)
    requires i < |order| && forall j, k :: 0 <= j < k < |order| ==> order[j].data.id != order[k].data.id
    ensures forall w :: w in RemoveAt(order, i) <==> w in order && w != order[i]
  {
    var rest := RemoveAt(order, i);
    forall w | w in order && w != order[i] ensures w in rest {
      var j :| 0 <= j < |order| && order[j] == w;
      assert rest[if j < i then j else j - 1] == w;
    }
    forall w | w in rest ensures w in order && w != order[i] {
      var j :| 0 <= j < |rest| && rest[j] == w;
      var k := if j < i then j else j + 1;
      assert order[k] == w && order[k].data.id != order[i].data.id;
    }
  }

  lemma TidyClose(open: map<string, AlertWindow>, order: seq<AlertWindow>, windows: set<AlertWindow>, shown: seq<S.AlertData>, i: nat)
    requires Tidy(open, order, windows, shown) && i < |order|
    ensures Tidy(open - {order[i].data.id}, RemoveAt(order, i), windows, shown)
    ensures forall w :: w in RemoveAt(order, i) <==> w in order && w != order[i]
    ensures order[i] in windows && S.Distinct(Datas(order))
  {
    RemoveAtMembers(order, i);
    hide RemoveAt;
  }

  lemma BuiltIsShown(open: map<string, AlertWindow>, order: seq<AlertWindow>, windows: set<AlertWindow>, shown: seq<S.AlertData>, w: AlertWindow)
    requires Tidy(open, order, windows, shown) && w in windows
    ensures w.data in shown
  {
  }

  /** An id is held open exactly by the one window ever built for it. */
  lemma HeldIffOrdered(open: map<string, AlertWindow>, order: seq<AlertWindow>, windows: set<AlertWindow>, shown: seq<S.AlertData>, w: AlertWindow)
    requires Tidy(open, order, windows, shown) && w in windows
    ensures w in order <==> S.Holds(Datas(order), w.data.id)
  {
    if w in order {
      var i :| 0 <= i < |order| && order[i] == w;
      assert Datas(order)[i].id == w.data.id;
    }
    if S.Holds(Datas(order), w.data.id) {
      var i :| 0 <= i < |order| && Datas(order)[i].id == w.data.id;
      assert order[i] in order;
    }
  }

  lemma OpenIffHeld(open: map<string, AlertWindow>, order: seq<AlertWindow>, windows: set<AlertWindow>, shown: seq<S.AlertData>, id: string)
    requires Tidy(open, order, windows, shown)
    ensures id in open <==> S.Holds(Datas(order), id)
    ensures id in open ==> open[id] in windows && open[id].data.id == id
  {
    if id in open {
      var i :| 0 <= i < |order| && order[i] == open[id];
      assert Datas(order)[i].id == id;
    }
    if S.Holds(Datas(order), id) {
      var i :| 0 <= i < |order| && Datas(order)[i].id == id;
      assert order[i] in order;
    }
  }

  class AlertManager {
    const canBuild: S.AlertData -> bool
    var open: map<string, AlertWindow>
    var order: seq<AlertWindow>
    var waiting: seq<S.AlertData>
    var seen: set<string>
    var reports: seq<Event>
    ghost var shown: seq<S.AlertData>
    ghost var arrivals: seq<S.AlertData>
    /** Every window ever built, closed ones included. */
    ghost var windows: set<AlertWindow>

    ghost function View(): S.Screen
      reads this
    {
      S.Screen(Datas(order), waiting, seen, reports, shown, arrivals)
    }

    /** The open windows are those that were built and are not closed. */
    ghost predicate ClosedOut()
      reads this, windows
    {
      forall w :: w in windows ==> (w in order <==> !w.finishing)
    }

    ghost predicate Valid()
      reads this, windows
    {
      Tidy(open, order, windows, shown) && ClosedOut() && S.ScreenOK(View())
    }

    constructor (canBuild: S.AlertData -> bool)
      ensures Valid() && View() == S.EMPTY && windows == {}
      ensures this.canBuild == canBuild
    {
      this.canBuild := canBuild;
      open, order, waiting, seen, reports := map[], [], [], {}, [];
      shown, arrivals, windows := [], [], {};
    }

    method HasRoom(a: S.AlertData) returns (room: bool)
      ensures room == S.HasRoom(Datas(order), a)
    {
      var cards, full := 0, false;
      for i := 0 to |order|
        invariant cards == S.Count(Datas(order)[..i], false)
        invariant full <==> S.Count(Datas(order)[..i], true) > 0
      {
        assert Datas(order)[..i + 1][..i] == Datas(order)[..i];
        if order[i].data.fullScreen {
          full := true;
        } else {
          cards := cards + 1;
        }
      }
      assert Datas(order)[..|order|] == Datas(order);
      room := if a.fullScreen then !full else cards < S.MAX_CARDS;
    }

    method OpenWindow(a: S.AlertData)
      requires Tidy(open, order, windows, shown) && ClosedOut()
      requires forall b :: b in shown ==> b.id != a.id
      modifies this
      ensures Tidy(open, order, windows, shown) && ClosedOut() && View() == S.OpenWindow(canBuild, old(View()), a)
      ensures old(windows) <= windows && fresh(windows - old(windows))
    {
      if !canBuild(a) {
        return;
      }
      var w := new AlertWindow(a);
      TidyOpen(open, order, windows, shown, w);
      hide Tidy;
      open := open[a.id := w];
      order := order + [w];
      windows := windows + {w};
      shown := shown + [a];
      reports := reports + [Event(a.id, Displayed)];
      assert Datas(order) == old(Datas(order)) + [a];
    }

    method Show(a: S.AlertData)
      requires Valid()
      modifies this
      ensures Valid() && View() == S.Show(canBuild, old(View()), a)
      ensures old(windows) <= windows && fresh(windows - old(windows))
    {
      hide Tidy, S.ScreenOK, S.Holds, S.HasRoom, S.OpenWindow;
      S.ShowKeeps(canBuild, View(), a);
      OpenIffHeld(open, order, windows, shown, a.id);
      if a.id !in seen { UnseenIsNew(View(), a.id); }
      if a.id in seen {
        if a.id in open {
          reports := reports + [Event(a.id, Displayed)];
        }
        return;
      }
      seen := seen + {a.id};
      arrivals := arrivals + [a];
      var room := HasRoom(a);
      if !room {
        waiting := waiting + [a];
        return;
      }
      OpenWindow(a);
    }

    /** `AlertWindow.Finish`: safe to call more than once. */
    method Finish(w: AlertWindow, reason: EventKind)
      requires Valid() && w in windows && S.MayClose(w.data.requireAck, reason)
      modifies this, w`finishing
      ensures Valid() && View() == S.Finish(canBuild, old(View()), w.data.id, reason)
      ensures old(windows) <= windows && fresh(windows - old(windows))
      ensures w.finishing
    {
      hide Tidy, S.ScreenOK, S.Holds, S.Fill, S.MayClose, S.Without;
      BuiltIsShown(open, order, windows, shown, w);
      S.FinishKeeps(canBuild, View(), w.data, reason);
      HeldIffOrdered(open, order, windows, shown, w);
      if w.finishing {
        return;
      }
      S.CloseKeeps(View(), w.data, reason);
      w.finishing := true;
      OnFinished(w, reason);
    }

    /** The handler `OnFinished`. */
    method OnFinished(w: AlertWindow, reason: EventKind)
      requires Tidy(open, order, windows, shown) && w in order && w in windows && w.finishing
      requires forall v :: v in windows && v != w ==> (v in order <==> !v.finishing)
      requires S.Sound(View().(order := S.Without(View().order, w.data.id), reports := reports + [Event(w.data.id, reason)]))
      modifies this
      ensures Tidy(open, order, windows, shown) && ClosedOut()
      ensures View() == S.Fill(canBuild, old(View().(order := S.Without(View().order, w.data.id),
                                                     reports := reports + [Event(w.data.id, reason)])), 0)
      ensures old(windows) <= windows && fresh(windows - old(windows))
    {
      hide S.Sound, S.Without, S.Fill, Tidy, S.Distinct;
      var i := IndexOfWindow(w);
      TidyClose(open, order, windows, shown, i);
      WithoutAt(Datas(order), i);
      ghost var before := Datas(order);
      open := open - {w.data.id};
      order := RemoveAt(order, i);
      reports := reports + [Event(w.data.id, reason)];
      assert Datas(order) == before[..i] + before[i + 1..];
      FillWaiting();
    }

    /** Where `order.Remove(w)` finds the window. */
    method IndexOfWindow(w: AlertWindow) returns (i: nat)
      requires w in order
      ensures i < |order| && order[i] == w
    {
      i := 0;
      while order[i] != w
        invariant i < |order| && w in order[i..]
        decreases |order| - i
      {
        assert order[i..] == [order[i]] + order[i + 1..];
        i := i + 1;
      }
    }

    /** The loop of `OnFinished`, which removes from the list while it indexes it. */
    method FillWaiting()
      requires Tidy(open, order, windows, shown) && ClosedOut() && S.Sound(View())
      modifies this
      ensures Tidy(open, order, windows, shown) && ClosedOut() && View() == S.Fill(canBuild, old(View()), 0)
      ensures old(windows) <= windows && fresh(windows - old(windows))
    {
      hide Tidy, S.Sound, S.NoRoomBefore, S.HasRoom, S.OpenWindow, S.Fill;
      var i := 0;
      ghost var start := View();
      S.NothingBefore(start);
      while i < |waiting|
        invariant 0 <= i <= |waiting|
        invariant Tidy(open, order, windows, shown) && ClosedOut()
        invariant S.Sound(View()) && S.NoRoomBefore(View(), i)
        invariant S.Fill(canBuild, View(), i) == S.Fill(canBuild, start, 0)
        invariant old(windows) <= windows && fresh(windows - old(windows))
        decreases |waiting| - i
      {
        var room := HasRoom(waiting[i]);
        if room {
          var next := waiting[i];
          S.FillOpens(canBuild, View(), i);
          waiting := RemoveAt(waiting, i);
          OpenWindow(next);
        } else {
          S.FillSkips(canBuild, View(), i);
          i := i + 1;
        }
      }
      S.FillEnds(canBuild, View());
    }

    /** `CloseByButton`. */
    method CloseByButton(w: AlertWindow)
      requires Valid() && w in windows
      modifies this, w`finishing
      ensures Valid() && View() == S.React(canBuild, old(View()), S.Button(w.data))
      ensures old(windows) <= windows && fresh(windows - old(windows))
    {
      hide S.ScreenOK, S.Finish, Tidy;
      Finish(w, if w.data.requireAck then Acknowledged else Dismissed);
    }

    /** `OnFormClosing` by the user, with the deferred dismissal it may queue. */
    method FormClosing(w: AlertWindow)
      requires Valid() && w in windows
      modifies this, w`finishing
      ensures Valid() && View() == S.React(canBuild, old(View()), S.Closing(w.data))
      ensures old(windows) <= windows && fresh(windows - old(windows))
    {
      hide S.ScreenOK, S.Finish, Tidy;
      if !w.data.requireAck {
        Finish(w, Dismissed);
      }
    }

    /** The last tick of the life timer, which runs only for alerts that close
        themselves. */
    method TickLife(w: AlertWindow)
      requires Valid() && w in windows
      modifies this, w`finishing
      ensures Valid() && View() == S.React(canBuild, old(View()), S.LifeOver(w.data))
      ensures old(windows) <= windows && fresh(windows - old(windows))
    {
      hide S.ScreenOK, S.Finish, Tidy;
      if w.data.displaySeconds > 0 && !w.data.requireAck {
        Finish(w, TimedOut);
      }
    }

    method Recall(id: string)
      requires Valid()
      modifies this, windows
      ensures Valid() && View() == S.Recall(canBuild, old(View()), id)
      ensures old(windows) <= windows && fresh(windows - old(windows))
    {
      hide Tidy, S.ScreenOK, S.Without, S.Holds, S.Fill, S.MayClose;
      S.DropWaiting(View(), id);
      OpenIffHeld(open, order, windows, shown, id);
      RemoveWaiting(id);
      if id in open {
        RecallMayClose(open[id].data.requireAck);
        Finish(open[id], Recalled);
      }
    }

    /** `waiting.RemoveAll` for one id. */
    method RemoveWaiting(id: string)
      modifies this`waiting
      ensures waiting == S.Without(old(waiting), id)
    {
      var kept := [];
      for i := 0 to |waiting|
        invariant waiting == old(waiting) && kept == S.Without(waiting[..i], id)
      {
        assert waiting[..i + 1][..i] == waiting[..i];
        if waiting[i].id != id {
          kept := kept + [waiting[i]];
        }
      }
      assert waiting[..|waiting|] == waiting;
      waiting := kept;
    }
  }

  lemma RecallMayClose(requireAck: bool)
    ensures S.MayClose(requireAck, Recalled)
  {
  }

  lemma UnseenIsNew(s: S.Screen, id: string)
    requires S.ScreenOK(s) && id !in s.seen
    ensures forall b :: b in s.shown ==> b.id != id
  {
  }
}
