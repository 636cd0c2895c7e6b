/** Sign-in throttling (server/auth.go): five failures lock a key for five minutes. */
module Throttle {
  import opened Text

  const WINDOW: Time := 10 * MINUTE
  const LOCK: Time := 5 * MINUTE
  const STALE: Time := 30 * MINUTE
  const SWEEP_OVER: nat := 5000
  const MAX_FAILS: nat := 5

  datatype Attempts = Attempts(fails: nat, first: Time, lockedUntil: Time)

  type Table = map<string, Attempts>

  /** An entry that was never locked holds Go's zero time, long past. */
  const NEVER: Time := -1_000_000_000_000_000_000

  /** How long the caller must wait. */
  function Blocked(m: Table, key: string, now: Time): Time {
    if key in m && m[key].lockedUntil - now > 0 then m[key].lockedUntil - now else 0
  }

  /** One more failure on what is recorded for a key. */
  function Count(a: Option<Attempts>, now: Time): Attempts {
    var a1 := if a.None? || now - a.value.first > WINDOW then Attempts(0, now, NEVER) else a.value;
    if a1.fails + 1 >= MAX_FAILS then Attempts(0, now, now + LOCK) else a1.(fails := a1.fails + 1)
  }

  function Get(m: Table, key: string): Option<Attempts> {
    if key in m then Some(m[key]) else None
  }

  function Swept(m: Table, now: Time): Table {
    map k | k in m && now - m[k].first <= STALE :: m[k]
  }

  /** `fail`; without `sweeping` the reference that never forgets. */
  function Fail(m: Table, key: string, now: Time, sweeping: bool): Table {
    var m1 := if sweeping && |m| > SWEEP_OVER then Swept(m, now) else m;
    m1[key := Count(Get(m1, key), now)]
  }

  function Reset(m: Table, key: string): Table {
    m - {key}
  }

  class LoginThrottle {
    var m: Table

    constructor ()
      ensures m == map[]
    {
      m := map[];
    }

    method GetBlocked(key: string, now: Time) returns (wait: Time)
      ensures wait == Blocked(m, key, now)
    {
      wait := 0;
      if key in m {
        var d := m[key].lockedUntil - now;
        if d > 0 {
          wait := d;
        }
      }
    }

    method Sweep(now: Time)
      modifies this
      ensures m == Swept(old(m), now)
    {
      var left := m.Keys;
      ghost var was := m;
      while left != {}
        invariant left <= m.Keys <= was.Keys
        invariant forall k :: k in m ==> m[k] == was[k]
        invariant forall k :: k in was && k !in left ==> (k in m <==> now - was[k].first <= STALE)
        decreases |left|
      {
        var k :| k in left;
        if now - m[k].first > STALE {
          m := m - {k};
        }
        left := left - {k};
      }
      assert m.Keys == Swept(was, now).Keys;
    }

    method Failed(key: string, now: Time)
      modifies this
      ensures m == Fail(old(m), key, now, true)
    {
      if |m| > SWEEP_OVER {
        Sweep(now);
      }
      var a: Attempts;
      if key !in m || now - m[key].first > WINDOW {
        a := Attempts(0, now, NEVER);
      } else {
        a := m[key];
      }
      a := a.(fails := a.fails + 1);
      if a.fails >= MAX_FAILS {
        a := Attempts(0, now, now + LOCK);
      }
      m := m[key := a];
    }

    method Succeeded(key: string)
      modifies this
      ensures m == Reset(old(m), key)
    {
      m := m - {key};
    }
  }

  // ---- runs ----

  /** A failed attempt, a successful one, or a failure recorded without a check
      (two attempts racing). The clock is part of the call. */
  datatype Call = Attempt(key: string, now: Time) | Success(key: string, now: Time) | Race(key: string, now: Time)

  /** An attempt is checked first and counts as a failure only if let through. */
  function Apply(m: Table, c: Call, sweeping: bool): Table {
    match c
    case Attempt(key, now) => if Blocked(m, key, now) > 0 then m else Fail(m, key, now, sweeping)
    case Success(key, _) => Reset(m, key)
    case Race(key, now) => Fail(m, key, now, sweeping)
  }

  function ApplyAll(m: Table, calls: seq<Call>, sweeping: bool): Table {
    if calls == [] then m
    else Apply(ApplyAll(m, calls[..|calls| - 1], sweeping), calls[|calls| - 1], sweeping)
  }

  ghost predicate Timely(calls: seq<Call>, start: Time) {
    && (forall i :: 0 <= i < |calls| ==> start <= calls[i].now)
    && (forall i, j :: 0 <= i < j < |calls| ==> calls[i].now <= calls[j].now)
  }

  /** An entry reachable by time `now`. */
  ghost predicate EntryOK(a: Attempts, now: Time) {
    a.fails < MAX_FAILS && a.first <= now && a.lockedUntil <= a.first + LOCK
  }

  ghost predicate TableOK(m: Table, now: Time) {
    forall k :: k in m ==> EntryOK(m[k], now)
  }

  lemma ApplyOK(m: Table, c: Call, sweeping: bool, before: Time)
    requires TableOK(m, before) && NEVER + HOUR <= before <= c.now
    ensures TableOK(Apply(m, c, sweeping), c.now)
  {
  }

  // ---- the sweep cannot be observed ----

  /** What the sweep forgets is too old to matter. */
  ghost predicate Equivalent(u: Table, v: Table, now: Time) {
    && (forall k :: k in v ==> k in u && u[k] == v[k])
    && (forall k :: k in u && k !in v ==> now - u[k].first > STALE)
  }

  lemma EquivalentLater(u: Table, v: Table, before: Time, now: Time)
    requires Equivalent(u, v, before) && before <= now
    ensures Equivalent(u, v, now) && Equivalent(u, Swept(v, now), now)
  {
  }

  lemma FailEquivalent(u: Table, v: Table, key: string, now: Time)
    requires Equivalent(u, v, now)
    ensures Equivalent(u[key := Count(Get(u, key), now)], v[key := Count(Get(v, key), now)], now)
  {
  }

  lemma AnswersEquivalent(u: Table, v: Table, key: string, now: Time)
    requires TableOK(u, now) && Equivalent(u, v, now)
    ensures Blocked(u, key, now) == Blocked(v, key, now)
  {
    if key in u && key !in v {
      assert EntryOK(u[key], now);
    }
  }

  lemma TableOKLater(m: Table, before: Time, now: Time)
    requires TableOK(m, before) && before <= now
    ensures TableOK(m, now)
  {
  }

  lemma ApplyEquivalent(u: Table, v: Table, c: Call, before: Time)
    requires TableOK(u, before) && Equivalent(u, v, before) && before <= c.now
    ensures Equivalent(Apply(u, c, false), Apply(v, c, true), c.now)
  {
    TableOKLater(u, before, c.now);
    EquivalentLater(u, v, before, c.now);
    AnswersEquivalent(u, v, c.key, c.now);
    FailEquivalent(u, v, c.key, c.now);
    FailEquivalent(u, Swept(v, c.now), c.key, c.now);
    hide Swept, Count, Get, Blocked, TableOK;
    if c.Success? {
    } else {
      hide Equivalent;
    }
  }

  lemma {:induction false} RunEquivalent(calls: seq<Call>, start: Time) returns (last: Time)
    requires Timely(calls, start) && NEVER + HOUR <= start
    ensures start <= last && (calls == [] ==> last == start) && (calls != [] ==> last == calls[|calls| - 1].now)
    ensures var u, v := ApplyAll(map[], calls, false), ApplyAll(map[], calls, true);
            TableOK(u, last) && Equivalent(u, v, last)
    decreases |calls|
  {
    last := start;
    if calls != [] {
      var n := |calls| - 1;
      var before := RunEquivalent(calls[..n], start);
      last := calls[n].now;
      ApplyOK(ApplyAll(map[], calls[..n], false), calls[n], false, before);
      ApplyEquivalent(ApplyAll(map[], calls[..n], false), ApplyAll(map[], calls[..n], true), calls[n], before);
    }
  }

  /** Whatever calls were made, a throttle that sweeps and one that does not give
      the same answer to every later question. */
  lemma SweepUnobservable(calls: seq<Call>, start: Time, key: string, now: Time)
    requires Timely(calls, start) && NEVER + HOUR <= start <= now
    requires calls != [] ==> calls[|calls| - 1].now <= now
    ensures Blocked(ApplyAll(map[], calls, false), key, now) == Blocked(ApplyAll(map[], calls, true), key, now)
  {
    var last := RunEquivalent(calls, start);
    var u, v := ApplyAll(map[], calls, false), ApplyAll(map[], calls, true);
    TableOKLater(u, last, now);
    EquivalentLater(u, v, last, now);
    AnswersEquivalent(u, v, key, now);
  }

  // ---- an active lock-out runs its full five minutes ----

  /** `key` is locked until `t`, at least. */
  ghost predicate LockedUntil(m: Table, key: string, t: Time) {
    key in m && m[key].lockedUntil >= t
  }

  lemma LockStays(m: Table, c: Call, key: string, t: Time, before: Time)
    requires TableOK(m, before) && before <= c.now < t && LockedUntil(m, key, t)
    requires !(c.Success? && c.key == key)
    ensures LockedUntil(Apply(m, c, true), key, t)
  {
  }

  /** Once locked at `lockedAt`, a key is refused at every moment of the next five
      minutes, whatever other calls are made, unless it signs in. */
  lemma {:induction false} LockRunsItsCourse(m: Table, key: string, lockedAt: Time, calls: seq<Call>) returns (last: Time)
    requires TableOK(m, lockedAt) && LockedUntil(m, key, lockedAt + LOCK) && NEVER + HOUR <= lockedAt
    requires Timely(calls, lockedAt)
    requires forall i :: 0 <= i < |calls| ==> calls[i].now < lockedAt + LOCK && !(calls[i].Success? && calls[i].key == key)
    ensures lockedAt <= last && (calls != [] ==> last == calls[|calls| - 1].now) && (calls == [] ==> last == lockedAt)
    ensures TableOK(ApplyAll(m, calls, true), last) && LockedUntil(ApplyAll(m, calls, true), key, lockedAt + LOCK)
    ensures forall now :: lockedAt <= now < lockedAt + LOCK ==> Blocked(ApplyAll(m, calls, true), key, now) > 0
    decreases |calls|
  {
    last := lockedAt;
    if calls != [] {
      var n := |calls| - 1;
      var before := LockRunsItsCourse(m, key, lockedAt, calls[..n]);
      last := calls[n].now;
      ApplyOK(ApplyAll(m, calls[..n], true), calls[n], true, before);
      LockStays(ApplyAll(m, calls[..n], true), calls[n], key, lockedAt + LOCK, before);
    }
  }

  /** The fifth counted failure sets such a lock. */
  lemma FifthFailureLocks(m: Table, key: string, now: Time)
    requires TableOK(m, now) && NEVER + HOUR <= now && key in m && m[key].fails == 4 && now - m[key].first <= WINDOW
    ensures TableOK(Fail(m, key, now, true), now) && LockedUntil(Fail(m, key, now, true), key, now + LOCK)
  {
  }

  // ---- a success, and other keys ----

  /** A successful sign-in clears the key: it is not blocked, and the next failure
      counts as the first. */
  lemma SuccessClears(m: Table, key: string, at: Time, now: Time)
    requires NEVER + HOUR <= now
    ensures var m' := Apply(m, Success(key, at), true);
            && Blocked(m', key, now) == 0
            && key in Fail(m', key, now, true) && Fail(m', key, now, true)[key] == Attempts(1, now, NEVER)
            && Blocked(Fail(m', key, now, true), key, now) == 0
  {
  }

  /** What happens to one key is never felt by another. */
  lemma KeysApart(m: Table, c: Call, other: string, before: Time, now: Time)
    requires TableOK(m, before) && NEVER + HOUR <= before <= c.now <= now && other != c.key
    ensures Blocked(Apply(m, c, true), other, now) == Blocked(m, other, now)
  {
    if other in m {
      assert EntryOK(m[other], before);
    }
  }

  // ---- how many failures get past ----

  /** The failures of `key` let through during `[from, from + 5 minutes)`. */
  function Passed(m: Table, calls: seq<Call>, key: string, from: Time): nat {
    if calls == [] then 0
    else
      var n := |calls| - 1;
      var c := calls[n];
      Passed(m, calls[..n], key, from)
      + if c.Attempt? && c.key == key && from <= c.now < from + LOCK
           && Blocked(ApplyAll(m, calls[..n], true), key, c.now) == 0 then 1 else 0
  }

  /** Where a count of failures within one span can stand: forgotten as stale, still
      in the window that was open at its start, in a window opened since, or locked to the end. */
  ghost predicate Counted(m: Table, key: string, from: Time, passed: nat) {
    || (key !in m && passed <= 4)
    || (key in m && passed <= m[key].fails)
    || (key in m && m[key].first >= from && passed <= 4 + m[key].fails)
    || (key in m && m[key].lockedUntil >= from + LOCK && passed <= 9)
  }

  lemma CountedStep(m: Table, c: Call, key: string, from: Time, passed: nat, before: Time)
    requires TableOK(m, before) && NEVER + HOUR <= before <= c.now && Counted(m, key, from, passed)
    requires from <= c.now < from + LOCK && (c.key == key ==> c.Attempt?)
    ensures var more := if c.key == key && Blocked(m, key, c.now) == 0 then 1 else 0;
            Counted(Apply(m, c, true), key, from, passed + more)
  {
    if key in m {
      assert EntryOK(m[key], before);
    }
  }

  lemma {:induction false} CountedRun(m: Table, start: Time, calls: seq<Call>, key: string, from: Time) returns (last: Time)
    requires TableOK(m, start) && NEVER + HOUR <= start && Timely(calls, start)
    requires forall i :: 0 <= i < |calls| && calls[i].key == key && from <= calls[i].now < from + LOCK ==> calls[i].Attempt?
    ensures start <= last && (calls != [] ==> last == calls[|calls| - 1].now) && (calls == [] ==> last == start)
    ensures TableOK(ApplyAll(m, calls, true), last)
    ensures last < from ==> Passed(m, calls, key, from) == 0
    ensures last < from + LOCK ==> Counted(ApplyAll(m, calls, true), key, from, Passed(m, calls, key, from))
    ensures Passed(m, calls, key, from) <= 9
    decreases |calls|
  {
    last := start;
    if calls != [] {
      var n := |calls| - 1;
      var c := calls[n];
      var before := CountedRun(m, start, calls[..n], key, from);
      last := c.now;
      var mid := ApplyAll(m, calls[..n], true);
      ApplyOK(mid, c, true, before);
      if from <= c.now < from + LOCK {
        CountedStep(mid, c, key, from, Passed(m, calls[..n], key, from), before);
        CountedBound(ApplyAll(m, calls, true), key, from, Passed(m, calls, key, from), last);
      }
    }
  }

  lemma CountedBound(m: Table, key: string, from: Time, passed: nat, now: Time)
    requires TableOK(m, now) && Counted(m, key, from, passed)
    ensures passed <= 9
  {
    if key in m {
      assert EntryOK(m[key], now);
    }
  }

  /** With no sign-in of the key within the span, and each of its attempts there
      checked and counted in one step, at most nine failures of the key get past
      the throttle in any five minutes, whatever happens before, after and to
      other keys. */
  lemma AtMostNine(calls: seq<Call>, start: Time, key: string, from: Time)
    requires Timely(calls, start) && NEVER + HOUR <= start
    requires forall i :: 0 <= i < |calls| && calls[i].key == key && from <= calls[i].now < from + LOCK ==> calls[i].Attempt?
    ensures Passed(map[], calls, key, from) <= 9
  {
    var last := CountedRun(map[], start, calls, key, from);
  }

  // ---- and nine is reached ----

  /** Five failures lock the key at 4 s; four more pass from just before the old
      window expires, and five from just after. */
  function NineTimes(i: nat): Time {
    if i < 5 then i * SECOND
    else if i < 9 then 4 * SECOND + WINDOW - (9 - i) * SECOND
    else 4 * SECOND + WINDOW + (i - 8) * SECOND
  }

  function NineCalls(key: string, n: nat): (calls: seq<Call>)
    ensures |calls| == n
    ensures forall i :: 0 <= i < n ==> calls[i] == Attempt(key, NineTimes(i))
  {
    seq(n, i requires 0 <= i < n => Attempt(key, NineTimes(i)))
  }

  /** What is recorded for the key after `n` of these calls. */
  function NineEntry(n: nat): Attempts
    requires 1 <= n <= 14
  {
    if n < 5 then Attempts(n, 0, NEVER)
    else if n < 10 then Attempts(n - 5, 4 * SECOND, 4 * SECOND + LOCK)
    else if n < 14 then Attempts(n - 9, NineTimes(9), NEVER)
    else Attempts(0, NineTimes(13), NineTimes(13) + LOCK)
  }

  function NineTable(key: string, n: nat): Table
    requires n <= 14
  {
    if n == 0 then map[] else map[key := NineEntry(n)]
  }

  lemma NineStep(key: string, n: nat)
    requires n < 14
    ensures Blocked(NineTable(key, n), key, NineTimes(n)) == 0
    ensures Count(Get(NineTable(key, n), key), NineTimes(n)) == NineEntry(n + 1)
  {
  }

  lemma NineApply(key: string, n: nat)
    requires n < 14
    ensures Apply(NineTable(key, n), Attempt(key, NineTimes(n)), true) == NineTable(key, n + 1)
  {
    NineStep(key, n);
    var m := NineTable(key, n);
    assert |m| <= 1;
    hide Count, NineTimes, NineEntry, Blocked, Get;
    assert m[key := NineEntry(n + 1)] == map[key := NineEntry(n + 1)];
  }

  lemma {:induction false} NineRun(key: string, n: nat)
    requires n <= 14
    ensures ApplyAll(map[], NineCalls(key, n), true) == NineTable(key, n)
    ensures Passed(map[], NineCalls(key, n), key, NineTimes(5)) == if n < 5 then 0 else n - 5
  {
    hide Apply, NineTable, Blocked;
    if n == 0 {
      assert NineTable(key, 0) == map[] by { NineNone(key); }
    } else {
      assert NineCalls(key, n)[..n - 1] == NineCalls(key, n - 1);
      NineRun(key, n - 1);
      NineStep(key, n - 1);
      NineApply(key, n - 1);
    }
  }

  lemma NineNone(key: string)
    ensures NineTable(key, 0) == map[]
  {
  }

  /** Nine failures within five minutes are possible. */
  lemma NineAttained(key: string)
    ensures var calls := NineCalls(key, 14);
            Timely(calls, 0) && Passed(map[], calls, key, NineTimes(5)) == 9
  {
    NineRun(key, 14);
  }
}
