/** Signed-in sessions (server/auth.go): a map that forgets expired entries as it goes. */
module Sessions {
  import opened Text

  const LIFETIME: Time := 12 * HOUR

  datatype Session = Session(user: string, expires: Time)

  type Table = map<string, Session>

  function Purged(m: Table, now: Time): Table {
    map id | id in m && now <= m[id].expires :: m[id]
  }

  function Created(m: Table, id: string, user: string, now: Time): Table {
    Purged(m, now)[id := Session(user, now + LIFETIME)]
  }

  /** Whose session `id` is. */
  function Answer(m: Table, id: string, now: Time): Option<string> {
    if id in m && now <= m[id].expires then Some(m[id].user) else None
  }

  function AfterLookup(m: Table, id: string, now: Time): Table {
    if Answer(m, id, now).None? then m - {id} else m
  }

  function WithoutUser(m: Table, user: string): Table {
    map id | id in m && m[id].user != user :: m[id]
  }

  class SessionStore {
    var m: Table

    constructor ()
      ensures m == map[]
    {
      m := map[];
    }

    /** `id` is the fresh random secret. */
    method Create(id: string, user: string, now: Time)
      modifies this
      ensures m == Created(old(m), id, user, now)
    {
      var left := m.Keys;
      ghost var was := m;
      while left != {}
        invariant left <= m.Keys <= was.Keys
        invariant forall k :: k in m ==> m[k] == was[k]
        invariant forall k :: k in was && k !in left ==> (k in m <==> now <= was[k].expires)
        decreases |left|
      {
        var k :| k in left;
        if now > m[k].expires {
          m := m - {k};
        }
        left := left - {k};
      }
      assert m == Purged(was, now);
      m := m[id := Session(user, now + LIFETIME)];
    }

    method Lookup(id: string, now: Time) returns (user: Option<string>)
      modifies this
      ensures user == Answer(old(m), id, now) && m == AfterLookup(old(m), id, now)
    {
      if id !in m || now > m[id].expires {
        m := m - {id};
        return None;
      }
      return Some(m[id].user);
    }

    method Drop(id: string)
      modifies this
      ensures m == old(m) - {id}
    {
      m := m - {id};
    }

    method DropUser(user: string)
      modifies this
      ensures m == WithoutUser(old(m), user)
    {
      var left := m.Keys;
      ghost var was := m;
      while left != {}
        invariant left <= m.Keys <= was.Keys
        invariant forall k :: k in m ==> m[k] == was[k]
        invariant forall k :: k in was && k !in left ==> (k in m <==> was[k].user != user)
        decreases |left|
      {
        var k :| k in left;
        if m[k].user == user {
          m := m - {k};
        }
        left := left - {k};
      }
      assert m == WithoutUser(was, user);
    }
  }

  // ---- runs, and what they mean ----

  datatype Call =
    | SignIn(id: string, user: string, now: Time)
    | Request(id: string, now: Time)
    | SignOut(id: string, now: Time)
    | RemoveUser(user: string, now: Time)

  function Apply(m: Table, c: Call): Table {
    match c
    case SignIn(id, user, now) => Created(m, id, user, now)
    case Request(id, now) => AfterLookup(m, id, now)
    case SignOut(id, _) => m - {id}
    case RemoveUser(user, _) => WithoutUser(m, user)
  }

  function ApplyAll(calls: seq<Call>): Table {
    if calls == [] then map[] else Apply(ApplyAll(calls[..|calls| - 1]), calls[|calls| - 1])
  }

  ghost predicate Timely(calls: seq<Call>) {
    forall i, j :: 0 <= i < j < |calls| ==> calls[i].now <= calls[j].now
  }

  ghost predicate Starts(c: Call, id: string, user: string, now: Time) {
    c.SignIn? && c.id == id && c.user == user && now <= c.now + LIFETIME
  }

  ghost predicate Ends(c: Call, id: string, user: string) {
    (c.SignOut? && c.id == id) || (c.RemoveUser? && c.user == user) || (c.SignIn? && c.id == id)
  }

  ghost predicate StartedAt(calls: seq<Call>, i: nat, id: string, user: string, now: Time) {
    i < |calls| && Starts(calls[i], id, user, now) && forall j :: i < j < |calls| ==> !Ends(calls[j], id, user)
  }

  /** Signed in within the last twelve hours, and neither signed out nor removed
      since. Requests and expired sessions play no part. */
  ghost predicate SignedIn(calls: seq<Call>, id: string, user: string, now: Time) {
    exists i: nat :: StartedAt(calls, i, id, user, now)
  }

  lemma SignedInStep(calls: seq<Call>, c: Call, id: string, user: string, now: Time)
    ensures SignedIn(calls + [c], id, user, now)
       <==> Starts(c, id, user, now) || (SignedIn(calls, id, user, now) && !Ends(c, id, user))
  {
    var all := calls + [c];
    if Starts(c, id, user, now) {
      assert StartedAt(all, |calls|, id, user, now);
    } else if SignedIn(calls, id, user, now) && !Ends(c, id, user) {
      var i: nat :| StartedAt(calls, i, id, user, now);
      assert StartedAt(all, i, id, user, now);
    } else if SignedIn(all, id, user, now) {
      var i: nat :| StartedAt(all, i, id, user, now);
      assert all[|calls|] == c && i != |calls|;
      forall j | i < j < |calls| ensures !Ends(calls[j], id, user) {
        assert all[j] == calls[j];
      }
      assert StartedAt(calls, i, id, user, now);
    }
  }

  /** One call changes an answer at a later time only by starting or ending that
      session: what it forgets besides had expired. */
  lemma AnswerStep(m: Table, c: Call, id: string, user: string, now: Time)
    requires c.now <= now
    ensures Answer(Apply(m, c), id, now) == Some(user)
       <==> Starts(c, id, user, now) || (Answer(m, id, now) == Some(user) && !Ends(c, id, user))
  {
  }

  /** After every sequence of calls a session answers for a user if and only if the
      history says that the user is signed in with it. */
  lemma {:induction false} AnsweredIffSignedIn(calls: seq<Call>, id: string, user: string, now: Time)
    requires Timely(calls) && (calls != [] ==> calls[|calls| - 1].now <= now)
    ensures Answer(ApplyAll(calls), id, now) == Some(user) <==> SignedIn(calls, id, user, now)
  {
    if calls != [] {
      var n := |calls| - 1;
      AnsweredIffSignedIn(calls[..n], id, user, now);
      AnswerStep(ApplyAll(calls[..n]), calls[n], id, user, now);
      SignedInStep(calls[..n], calls[n], id, user, now);
      assert calls[..n] + [calls[n]] == calls;
    }
  }

  /** Once removed, a user is answered for by no session until signing in again. */
  lemma RemovedIsOut(calls: seq<Call>, i: nat, id: string, user: string, now: Time)
    requires Timely(calls) && i < |calls| && calls[i].RemoveUser? && calls[i].user == user
    requires calls[|calls| - 1].now <= now
    requires forall j :: i < j < |calls| && calls[j].SignIn? ==> calls[j].user != user
    ensures Answer(ApplyAll(calls), id, now) != Some(user)
  {
    AnsweredIffSignedIn(calls, id, user, now);
    if SignedIn(calls, id, user, now) {
      var s: nat :| StartedAt(calls, s, id, user, now);
      assert Ends(calls[i], id, user);
    }
  }
}
