/** Accepting an alert, and previewing whom it would reach (server/api_admin.go). */
module Sending {
  import opened Text
  import opened Targets
  import opened Validation
  import opened Accounts

  datatype Problems = BadSpec(problem: Problem) | OnlyOwnGroups | GroupNotAllowed | GroupGone

  datatype Verdict = Accepted(spec: AlertSpec, rules: seq<Rule>) | Rejected(why: Problems)

  /** `checkAllowed`. */
  function CheckAllowed(u: User, t: Target): Option<Problems> {
    if !Restricted(u) then None
    else if t.all || t.rules != [] then Some(OnlyOwnGroups)
    else if forall i :: 0 <= i < |t.groupIDs| ==> t.groupIDs[i] in u.allowed then None
    else Some(GroupNotAllowed)
  }

  /** `handleSendAlert`, up to the alert it stores. */
  function Accept(lib: Library, groups: seq<Group>, u: User, raw: AlertSpec): Verdict {
    var v := Validate(lib, raw);
    if v.Invalid? then Rejected(BadSpec(v.problem))
    else
      var t := v.spec.target;
      var refusal := CheckAllowed(u, t);
      if refusal.Some? then Rejected(refusal.value)
      else if exists i :: 0 <= i < |t.groupIDs| && Targets.GroupByID(groups, t.groupIDs[i]).None? then Rejected(GroupGone)
      else Accepted(v.spec, Flatten(groups, t))
  }

  /** No group has that id. */
  ghost predicate Gone(groups: seq<Group>, id: string) {
    forall g :: g in groups ==> g.id != id
  }

  /** Exactly when an alert is refused, and for what. */
  lemma RefusedIff(lib: Library, groups: seq<Group>, u: User, raw: AlertSpec)
    ensures var v, a := Validate(lib, raw), Accept(lib, groups, u, raw);
            if v.Invalid? then a == Rejected(BadSpec(v.problem))
            else
              var t := v.spec.target;
              var limited := u.role != Admin && u.allowed != [];
              var foreign := exists id :: id in t.groupIDs && id !in u.allowed;
              var gone := exists id :: id in t.groupIDs && Gone(groups, id);
              && (a == Rejected(OnlyOwnGroups) <==> limited && (t.all || t.rules != []))
              && (a == Rejected(GroupNotAllowed) <==> limited && !t.all && t.rules == [] && foreign)
              && (a == Rejected(GroupGone) <==> (!limited || (!t.all && t.rules == [] && !foreign)) && gone)
              && (a == Accepted(v.spec, Flatten(groups, t)) <==>
                    (!limited || (!t.all && t.rules == [] && !foreign)) && !gone)
  {
    hide Validate, Flatten, Targets.GroupByID;
    var v := Validate(lib, raw);
    if v.Valid? {
      GoneIff(groups, v.spec.target.groupIDs);
    }
  }

  lemma GoneIff(groups: seq<Group>, ids: seq<string>)
    ensures (exists i :: 0 <= i < |ids| && Targets.GroupByID(groups, ids[i]).None?)
       <==> (exists id :: id in ids && Gone(groups, id))
  {
    hide Targets.GroupByID;
    if id :| id in ids && Gone(groups, id) {
      var i :| 0 <= i < |ids| && ids[i] == id;
      assert Targets.GroupByID(groups, ids[i]).None?;
    }
    if i :| 0 <= i < |ids| && Targets.GroupByID(groups, ids[i]).None? {
      assert ids[i] in ids && Gone(groups, ids[i]);
    }
  }

  method IsAllowed(u: User, t: Target) returns (refusal: Option<Problems>)
    ensures refusal == CheckAllowed(u, t)
  {
    if u.role == Admin || |u.allowed| == 0 {
      return None;
    }
    if t.all || |t.rules| > 0 {
      return Some(OnlyOwnGroups);
    }
    for i := 0 to |t.groupIDs|
      invariant forall j :: 0 <= j < i ==> t.groupIDs[j] in u.allowed
    {
      var ok := false;
      for k := 0 to |u.allowed|
        invariant ok <==> t.groupIDs[i] in u.allowed[..k]
      {
        if t.groupIDs[i] == u.allowed[k] {
          ok := true;
        }
      }
      assert u.allowed[..|u.allowed|] == u.allowed;
      if !ok {
        return Some(GroupNotAllowed);
      }
    }
    return None;
  }

  method HandleSend(lib: Library, groups: seq<Group>, u: User, raw: AlertSpec) returns (v: Verdict)
    ensures v == Accept(lib, groups, u, raw)
  {
    hide Validate, CheckAllowed, Flatten;
    var checked := ValidateSpec(lib, raw);
    if checked.Invalid? {
      return Rejected(BadSpec(checked.problem));
    }
    var t := checked.spec.target;
    var refusal := IsAllowed(u, t);
    if refusal.Some? {
      return Rejected(refusal.value);
    }
    for i := 0 to |t.groupIDs|
      invariant forall j :: 0 <= j < i ==> Targets.GroupByID(groups, t.groupIDs[j]).Some?
    {
      if Targets.GroupByID(groups, t.groupIDs[i]).None? {
        return Rejected(GroupGone);
      }
    }
    var rules := FlattenTarget(groups, t);
    return Accepted(checked.spec, rules);
  }

  // ---- reach ----

  datatype Reach = Reach(online: nat, known: nat)

  function Matched(lib: Library, clients: map<string, ClientInfo>, t: Target, rules: seq<Rule>): set<string> {
    set id | id in clients && AlertMatches(lib, t, rules, clients[id])
  }

  function OnlineOf(clients: map<string, ClientInfo>, ids: set<string>, now: Time): set<string> {
    set id | id in ids && id in clients && clients[id].Online(now)
  }

  /** `handleReach`: the preview shown before an alert is sent. */
  function Preview(lib: Library, groups: seq<Group>, clients: map<string, ClientInfo>, raw: Target, now: Time): Reach {
    var t := raw.(rules := TidyRules(lib.unicode, raw.rules));
    var matched := Matched(lib, clients, t, Flatten(groups, t));
    Reach(|OnlineOf(clients, matched, now)|, |matched|)
  }

  method CountReach(lib: Library, clients: map<string, ClientInfo>, t: Target, rules: seq<Rule>, now: Time) returns (r: Reach)
    ensures var matched := Matched(lib, clients, t, rules);
            r == Reach(|OnlineOf(clients, matched, now)|, |matched|)
  {
    hide AlertMatches, ClientInfo.Online, Matched, OnlineOf;
    ghost var matched := Matched(lib, clients, t, rules);
    ghost var online := OnlineOf(clients, matched, now);
    MatchedMembers(lib, clients, t, rules, now);
    var keys := clients.Keys;
    hide CountsUpTo;
    CountsNone(matched, online, keys);
    var left := keys;
    var n, k := 0, 0;
    while left != {}
      invariant left <= keys
      invariant CountsUpTo(matched, online, keys - left, n, k)
      decreases left
    {
      var id :| id in left;
      var hit := Hit(lib, clients[id], t, rules);
      var on := clients[id].Online(now);
      CountsNext(matched, online, keys, left, id, n, k);
      k := k + if hit then 1 else 0;
      n := n + if hit && on then 1 else 0;
      left := left - {id};
    }
    CountsAll(matched, online, keys, n, k);
    r := Reach(n, k);
  }

  ghost predicate CountsUpTo(matched: set<string>, online: set<string>, done: set<string>, n: nat, k: nat) {
    n == |online * done| && k == |matched * done|
  }

  lemma CountsNone(matched: set<string>, online: set<string>, keys: set<string>)
    ensures CountsUpTo(matched, online, keys - keys, 0, 0)
  {
    assert online * (keys - keys) == {} && matched * (keys - keys) == {};
  }

  lemma CountsNext(matched: set<string>, online: set<string>, keys: set<string>, left: set<string>, id: string, n: nat, k: nat)
    requires left <= keys && id in left && CountsUpTo(matched, online, keys - left, n, k)
    ensures CountsUpTo(matched, online, keys - (left - {id}), n + if id in online then 1 else 0, k + if id in matched then 1 else 0)
  {
    assert keys - (left - {id}) == (keys - left) + {id};
    CountOne(matched, keys - left, id);
    CountOne(online, keys - left, id);
  }

  lemma CountsAll(matched: set<string>, online: set<string>, keys: set<string>, n: nat, k: nat)
    requires CountsUpTo(matched, online, keys - {}, n, k) && online <= keys && matched <= keys
    ensures n == |online| && k == |matched|
  {
    assert online * (keys - {}) == online && matched * (keys - {}) == matched;
  }

  /** `alertMatches`. */
  method Hit(lib: Library, c: ClientInfo, t: Target, rules: seq<Rule>) returns (hit: bool)
    ensures hit == AlertMatches(lib, t, rules, c)
  {
    hide RulesMatch;
    if t.all {
      return true;
    }
    hit := MatchRules(lib, rules, c);
  }

  lemma MatchedMembers(lib: Library, clients: map<string, ClientInfo>, t: Target, rules: seq<Rule>, now: Time)
    ensures var matched := Matched(lib, clients, t, rules);
            && matched <= clients.Keys && OnlineOf(clients, matched, now) <= matched
            && forall id :: id in clients ==>
                 && (id in matched <==> AlertMatches(lib, t, rules, clients[id]))
                 && (id in OnlineOf(clients, matched, now) <==> id in matched && clients[id].Online(now))
  {
    hide AlertMatches, ClientInfo.Online;
  }

  /** Whom a target is meant for: everyone, or whom a chosen group or a rule matches. */
  ghost predicate Reached(lib: Library, groups: seq<Group>, t: Target, c: ClientInfo) {
    || t.all
    || (exists id :: id in t.groupIDs && ChosenGroupMatches(lib, groups, id, c))
    || (exists r :: r in t.rules && RuleMatches(lib, r, c))
  }

  /** The preview counts the computers the cleaned target is meant for, and those of
      them that hold a poll open or were seen within 45 seconds. */
  lemma PreviewMeaning(lib: Library, groups: seq<Group>, clients: map<string, ClientInfo>, raw: Target, now: Time)
    ensures var t := raw.(rules := TidyRules(lib.unicode, raw.rules));
            var known := set id | id in clients && Reached(lib, groups, t, clients[id]);
            var online := set id | id in known && (clients[id].polling > 0 || now - clients[id].lastSeen < 45 * SECOND);
            Preview(lib, groups, clients, raw, now) == Reach(|online|, |known|)
  {
    hide Reached, AlertMatches, Flatten, TidyRules;
    var t := raw.(rules := TidyRules(lib.unicode, raw.rules));
    forall c ensures AlertMatches(lib, t, Flatten(groups, t), c) <==> Reached(lib, groups, t, c) {
      ReachedIff(lib, groups, t, c);
    }
    var known := set id | id in clients && Reached(lib, groups, t, clients[id]);
    assert Matched(lib, clients, t, Flatten(groups, t)) == known;
    assert OnlineOf(clients, known, now)
        == set id | id in known && (clients[id].polling > 0 || now - clients[id].lastSeen < 45 * SECOND);
  }

  lemma ReachedIff(lib: Library, groups: seq<Group>, t: Target, c: ClientInfo)
    ensures AlertMatches(lib, t, Flatten(groups, t), c) <==> Reached(lib, groups, t, c)
  {
    hide RuleMatches, ChosenGroupMatches, Flatten, AlertMatches;
    FlattenMeaning(lib, groups, t, c);
  }

  /** On one state of the store the reach reported when an alert is sent is the
      reach that was previewed. */
  lemma PreviewIsReach(lib: Library, groups: seq<Group>, clients: map<string, ClientInfo>, u: User, raw: AlertSpec, now: Time)
    ensures var v := Accept(lib, groups, u, raw);
            v.Accepted? ==>
              var matched := Matched(lib, clients, v.spec.target, v.rules);
              Reach(|OnlineOf(clients, matched, now)|, |matched|) == Preview(lib, groups, clients, raw.target, now)
  {
    hide Accept, RulesMatch, TidyRules, Flatten;
    var v := Accept(lib, groups, u, raw);
    if v.Accepted? {
      var t := raw.target.(rules := TidyRules(lib.unicode, raw.target.rules));
      AcceptedTarget(lib, groups, u, raw);
      assert Matched(lib, clients, v.spec.target, v.rules) == Matched(lib, clients, t, Flatten(groups, t));
    }
  }

  lemma AcceptedTarget(lib: Library, groups: seq<Group>, u: User, raw: AlertSpec)
    ensures var v := Accept(lib, groups, u, raw);
            v.Accepted? ==>
              && v.rules == Flatten(groups, v.spec.target)
              && CheckAllowed(u, v.spec.target).None?
              && v.spec.target == if raw.target.all then Target(true, [], [])
                                  else raw.target.(rules := TidyRules(lib.unicode, raw.target.rules))
  {
    hide TidyRules, CleanText, IsLevel, IsDisplay, Flatten, CheckAllowed;
  }

  /** An alert accepted from a restricted sender is meant only for computers that one
      of that sender's own groups matches. */
  lemma RestrictedSenderReachesOwnGroups(lib: Library, groups: seq<Group>, u: User, raw: AlertSpec, c: ClientInfo)
    requires Restricted(u)
    ensures var v := Accept(lib, groups, u, raw);
            v.Accepted? && AlertMatches(lib, v.spec.target, v.rules, c) ==>
              exists id :: id in u.allowed && ChosenGroupMatches(lib, groups, id, c)
  {
    hide Accept, RulesMatch, RuleMatches, Flatten, AlertMatches, ChosenGroupMatches;
    var v := Accept(lib, groups, u, raw);
    AcceptedTarget(lib, groups, u, raw);
    if v.Accepted? {
      FlattenMeaning(lib, groups, v.spec.target, c);
    }
  }
}
