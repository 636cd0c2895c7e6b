/** Who recalled an alert, and when, told from the operations of a whole run
    (server/api_admin.go). */
module Recalls {
  import opened Text
  import opened Targets
  import opened Deliveries
  import opened Runs
  import opened Promises

  /** A recall of `id` by the sender `sender` of that alert, or by an administrator. */
  predicate Permitted(op: Op, id: string, sender: string) {
    op.Recall? && op.id == id && (op.admin || op.who == sender)
  }

  // ---- one operation ----

  /** An alert becomes recalled only by a recall that names it, from its sender or an
      administrator, and says so; every such recall leaves it recalled. */
  lemma RecalledOnlyBy(lib: Library, archiving: bool, w: World, op: Op, id: string)
    requires WorldOK(w) && Legal(w, op)
    ensures var x, y := Find(w.alerts, id), Find(Step(lib, archiving, w, op).alerts, id);
            x.Some? && y.Some? ==>
              && (x.value.recalledAt.Some? ==>
                    y.value.recalledAt == x.value.recalledAt && y.value.recalledBy == x.value.recalledBy)
              && (x.value.recalledAt.None? && Permitted(op, id, x.value.sender) ==>
                    y.value.recalledAt == Some(op.at) && y.value.recalledBy == op.who)
              && (x.value.recalledAt.None? && !Permitted(op, id, x.value.sender) ==>
                    y.value.recalledAt.None? && y.value.recalledBy == x.value.recalledBy)
  {
    hide Step, WorldOK, Legal, Find, Decide, TotalsOf, Live, Truncated, ApplyKinds;
    FindStep(lib, archiving, w, op, id);
  }

  /** A recall that is not permitted, or names no alert, changes nothing at all. */
  lemma RefusedRecall(lib: Library, archiving: bool, w: World, op: Op)
    requires op.Recall?
    requires var x := Find(w.alerts, op.id); x.None? || !Permitted(op, op.id, x.value.sender)
    ensures Step(lib, archiving, w, op) == w
  {
  }

  /** A permitted one changes that alert alone: who recalled it and when. */
  lemma PermittedRecall(lib: Library, archiving: bool, w: World, op: Op)
    requires op.Recall?
    requires var x := Find(w.alerts, op.id); x.Some? && Permitted(op, op.id, x.value.sender)
    ensures var w', x := Step(lib, archiving, w, op), Find(w.alerts, op.id);
            var y := Find(w'.alerts, op.id);
            && w' == w.(alerts := w'.alerts, dirty := w'.dirty) && |w'.alerts| == |w.alerts|
            && y.Some? && y.value.recalledAt.Some?
            && y.value == x.value.(recalledAt := y.value.recalledAt, recalledBy := y.value.recalledBy)
            && forall i :: 0 <= i < |w.alerts| && w.alerts[i].id != op.id ==> w'.alerts[i] == w.alerts[i]
  {
    hide IndexOf;
    SameIndex(w.alerts, Step(lib, archiving, w, op).alerts, op.id);
  }

  lemma {:induction false} SameIndex(u: seq<Alert>, v: seq<Alert>, id: string)
    requires |u| == |v| && forall j :: 0 <= j < |u| ==> u[j].id == v[j].id
    ensures IndexOf(u, id) == IndexOf(v, id)
    decreases |u|
  {
    if u != [] {
      SameIndex(u[..|u| - 1], v[..|v| - 1], id);
    }
  }

  // ---- whole runs ----

  /** `op` sent the alert that `a` is now. */
  predicate SentBy(op: Op, a: Alert) {
    && op.Send? && op.id == a.id && op.spec == a.spec && op.rules == a.rules
    && op.sender == a.sender && op.senderName == a.senderName && op.created == a.createdAt
    && a.expiresAt == op.created + op.spec.expiresMinutes * MINUTE
  }

  /** Operation `r` is the first permitted recall of `id` after operation `s`. */
  ghost predicate FirstRecall(ops: seq<Op>, s: nat, r: nat, id: string, sender: string) {
    && s < r < |ops| && Permitted(ops[r], id, sender)
    && forall q :: s < q < r ==> !Permitted(ops[q], id, sender)
  }

  /** `a` was sent by operation `s`, and is recalled exactly if its sender or an
      administrator recalled it since: then as the first of them did. */
  ghost predicate Accounts(ops: seq<Op>, s: nat, a: Alert) {
    && s < |ops| && SentBy(ops[s], a)
    && (a.recalledAt.None? ==> forall q :: s < q < |ops| ==> !Permitted(ops[q], a.id, ops[s].sender))
    && (a.recalledAt.Some? ==>
          exists r: nat :: FirstRecall(ops, s, r, a.id, ops[s].sender)
                      && a.recalledAt == Some(ops[r].at) && a.recalledBy == ops[r].who)
  }

  lemma {:induction false} RunAppend(lib: Library, archiving: bool, w: World, ops: seq<Op>, op: Op)
    ensures Exec(lib, archiving, w, ops + [op]) == Step(lib, archiving, Exec(lib, archiving, w, ops), op)
    ensures LegalRun(lib, archiving, w, ops + [op])
       <==> LegalRun(lib, archiving, w, ops) && Legal(Exec(lib, archiving, w, ops), op)
    decreases |ops|
  {
    hide Step, Legal;
    if ops == [] {
      assert [] + [op] == [op] && [op][1..] == [];
      assert Exec(lib, archiving, w, [op]) == Exec(lib, archiving, Step(lib, archiving, w, op), []);
    } else {
      assert (ops + [op])[1..] == ops[1..] + [op];
      RunAppend(lib, archiving, Step(lib, archiving, w, ops[0]), ops[1..], op);
    }
  }

  /** In every run each alert kept at the end was sent by one operation, with what that
      operation said, and is recalled if and only if its sender or an administrator
      recalled it afterwards: at the time and in the name of the first who did. */
  lemma {:induction false} RecalledIff(lib: Library, archiving: bool, start: Time, ops: seq<Op>, id: string) returns (s: nat)
    requires LegalRun(lib, archiving, Start(start), ops)
    requires Find(Exec(lib, archiving, Start(start), ops).alerts, id).Some?
    ensures Accounts(ops, s, Find(Exec(lib, archiving, Start(start), ops).alerts, id).value)
    decreases |ops|
  {
    hide Step, WorldOK, Legal, Find, Accounts, NewAlert, Evolves;
    StartIsOK(start);
    EmptyFindsNothing(id);
    if ops != [] {
      var n := |ops| - 1;
      assert ops == ops[..n] + [ops[n]];
      RunAppend(lib, archiving, Start(start), ops[..n], ops[n]);
      var w := Exec(lib, archiving, Start(start), ops[..n]);
      ReachableOK(lib, archiving, Start(start), ops[..n]);
      FindStep(lib, archiving, w, ops[n], id);
      var x, y := Find(w.alerts, id), Find(Step(lib, archiving, w, ops[n]).alerts, id);
      if x.Some? {
        s := RecalledIff(lib, archiving, start, ops[..n], id);
        RecalledOnlyBy(lib, archiving, w, ops[n], id);
        FoundOK(w, id);
        EvolvesAdvances(lib, ops[n], w.now, x.value, y.value);
        AccountsNext(ops, s, x.value, y.value);
      } else {
        s := n;
        AccountsNew(ops, y.value);
      }
    }
  }

  lemma StartIsOK(start: Time)
    ensures WorldOK(Start(start)) && Start(start).alerts == []
  {
  }

  lemma EmptyFindsNothing(id: string)
    ensures Find([], id).None?
  {
  }

  lemma AccountsNext(ops: seq<Op>, s: nat, x: Alert, y: Alert)
    requires ops != [] && Accounts(ops[..|ops| - 1], s, x) && SameOrigin(x, y)
    requires var op := ops[|ops| - 1];
             && (x.recalledAt.Some? ==> y.recalledAt == x.recalledAt && y.recalledBy == x.recalledBy)
             && (x.recalledAt.None? && Permitted(op, x.id, x.sender) ==> y.recalledAt == Some(op.at) && y.recalledBy == op.who)
             && (x.recalledAt.None? && !Permitted(op, x.id, x.sender) ==> y.recalledAt.None?)
    ensures Accounts(ops, s, y)
  {
    var n := |ops| - 1;
    if x.recalledAt.Some? {
      var r: nat :| FirstRecall(ops[..n], s, r, x.id, ops[s].sender)
        && x.recalledAt == Some(ops[r].at) && x.recalledBy == ops[r].who;
      assert FirstRecall(ops, s, r, x.id, ops[s].sender);
    } else if Permitted(ops[n], x.id, x.sender) {
      assert FirstRecall(ops, s, n, x.id, ops[s].sender);
    }
  }

  lemma AccountsNew(ops: seq<Op>, y: Alert)
    requires ops != []
    requires var op := ops[|ops| - 1];
             op.Send? && y == NewAlert(op.id, op.spec, op.rules, op.sender, op.senderName, op.created)
    ensures Accounts(ops, |ops| - 1, y)
  {
  }
}
