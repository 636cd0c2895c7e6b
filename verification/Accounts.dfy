/** Accounts and saved groups (server/api_admin.go, server/store.go). */
module Accounts {
  import opened Text
  import opened Targets

  datatype Role = Admin | Sender | Other(name: string)

  datatype User = User(
    id: string, username: string, displayName: string, role: Role, disabled: bool,
    allowed: seq<string>, passHash: string, mustChange: bool)
  {
    predicate WorkingAdmin() {
      role == Admin && !disabled
    }
  }

  datatype UserRequest = UserRequest(
    username: string, displayName: string, role: Role, disabled: bool, allowed: seq<string>)

  datatype State = State(users: seq<User>, groups: seq<Group>)

  /** Library calls: the canonical form under which `strings.EqualFold` compares,
      and the sort by name. */
  datatype Names = Names(fold: string -> string, sort: seq<Group> -> seq<Group>)
  {
    ghost predicate Valid() {
      forall s :: multiset(sort(s)) == multiset(s)
    }
  }

  datatype Refusal =
    | BadRole | BadUsername | UsernameTaken | NoSuchAccount | LastAdministrator | OwnAccount
    | NoGroupName | NoRules | GroupNameTaken | NoSuchGroup

  datatype Answer = Done(state: State) | Refused(why: Refusal)

  function AdminCount(users: seq<User>): nat {
    if users == [] then 0
    else AdminCount(users[..|users| - 1]) + if users[|users| - 1].WorkingAdmin() then 1 else 0
  }

  /** The position of the account called `id`, or -1. */
  function UserIndex(users: seq<User>, id: string): (i: int)
    ensures -1 <= i < |users|
    ensures i >= 0 ==> users[i].id == id
    ensures i < 0 ==> forall j :: 0 <= j < |users| ==> users[j].id != id
  {
    if users == [] then -1
    else if users[0].id == id then 0
    else
      var i := UserIndex(users[1..], id);
      if i < 0 then -1 else i + 1
  }

  predicate NameInUse(names: Names, users: seq<User>, name: string) {
    exists i :: 0 <= i < |users| && names.fold(users[i].username) == names.fold(name)
  }

  predicate BadUsernameChars(s: string) {
    s == "" || ' ' in s || ':' in s || '/' in s || '\\' in s
  }

  function KeepExisting(groups: seq<Group>, ids: seq<string>): seq<string> {
    if ids == [] then []
    else
      var n := |ids| - 1;
      KeepExisting(groups, ids[..n]) + if GroupIndex(groups, ids[n]) >= 0 then [ids[n]] else []
  }

  function Without(list: seq<string>, x: string): seq<string> {
    if list == [] then []
    else Without(list[..|list| - 1], x) + if list[|list| - 1] != x then [list[|list| - 1]] else []
  }

  // ---- the handlers ----

  /** The locked section of `handleSaveUser` up to the release for hashing. */
  function SaveUser(names: Names, s: State, uid: string, req: UserRequest, newID: string): Answer {
    if req.role != Admin && req.role != Sender then Refused(BadRole)
    else if uid == "" && BadUsernameChars(req.username) then Refused(BadUsername)
    else if uid == "" && NameInUse(names, s.users, req.username) then Refused(UsernameTaken)
    else
      var users := if uid == "" then s.users + [User(newID, req.username, "", Other(""), false, [], "", false)] else s.users;
      var i := if uid == "" then |s.users| else UserIndex(s.users, uid);
      if i < 0 then Refused(NoSuchAccount)
      else
        var u := users[i];
        if u.WorkingAdmin() && (req.role != Admin || req.disabled) && AdminCount(users) <= 1 then Refused(LastAdministrator)
        else
          Done(s.(users := users[i := u.(displayName := req.displayName, role := req.role, disabled := req.disabled,
                                         allowed := KeepExisting(s.groups, req.allowed))]))
  }

  /** The second locked section, and `handleChangeOwnPassword`: by then the account
      may be gone. */
  function SetPassword(s: State, uid: string, hash: string, mustChange: bool): State {
    var i := UserIndex(s.users, uid);
    if i < 0 then s else s.(users := s.users[i := s.users[i].(passHash := hash, mustChange := mustChange)])
  }

  function DropUser(users: seq<User>, uid: string): seq<User> {
    if users == [] then []
    else DropUser(users[..|users| - 1], uid) + if users[|users| - 1].id != uid then [users[|users| - 1]] else []
  }

  function DeleteUser(s: State, uid: string, caller: string): Answer {
    if uid == caller then Refused(OwnAccount)
    else
      var i := UserIndex(s.users, uid);
      if i >= 0 && s.users[i].WorkingAdmin() && AdminCount(s.users) <= 1 then Refused(LastAdministrator)
      else Done(s.(users := DropUser(s.users, uid)))
  }

  predicate GroupNameInUse(names: Names, groups: seq<Group>, gid: string, name: string) {
    exists i :: 0 <= i < |groups| && groups[i].id != gid && names.fold(groups[i].name) == names.fold(name)
  }

  /** `handleSaveGroup`, for a name and rules that were cleaned. */
  function SaveGroup(names: Names, s: State, gid: string, name: string, rules: seq<Rule>, newID: string): Answer {
    if name == "" then Refused(NoGroupName)
    else if rules == [] then Refused(NoRules)
    else if GroupNameInUse(names, s.groups, gid, name) then Refused(GroupNameTaken)
    else if gid == "" then Done(s.(groups := names.sort(s.groups + [Group(newID, name, rules)])))
    else
      var i := GroupIndex(s.groups, gid);
      if i < 0 then Refused(NoSuchGroup)
      else Done(s.(groups := names.sort(s.groups[i := Group(gid, name, rules)])))
  }

  function DropGroup(groups: seq<Group>, gid: string): seq<Group> {
    if groups == [] then []
    else DropGroup(groups[..|groups| - 1], gid) + if groups[|groups| - 1].id != gid then [groups[|groups| - 1]] else []
  }

  function ForgetGroup(users: seq<User>, gid: string): (r: seq<User>)
    ensures |r| == |users|
    ensures forall i :: 0 <= i < |users| ==> r[i] == users[i].(allowed := Without(users[i].allowed, gid))
  {
    seq(|users|, i requires 0 <= i < |users| => users[i].(allowed := Without(users[i].allowed, gid)))
  }

  function DeleteGroup(s: State, gid: string): State {
    State(ForgetGroup(s.users, gid), DropGroup(s.groups, gid))
  }

  // ---- what every state keeps ----

  ghost predicate UsersDistinct(names: Names, users: seq<User>) {
    forall i, j :: 0 <= i < j < |users| ==>
      users[i].id != users[j].id && names.fold(users[i].username) != names.fold(users[j].username)
  }

  ghost predicate GroupsDistinct(names: Names, groups: seq<Group>) {
    forall i, j :: 0 <= i < j < |groups| ==>
      groups[i].id != groups[j].id && names.fold(groups[i].name) != names.fold(groups[j].name)
  }

  ghost predicate Exists(groups: seq<Group>, id: string) {
    exists i :: 0 <= i < |groups| && groups[i].id == id
  }

  ghost predicate AllowedExist(users: seq<User>, groups: seq<Group>) {
    forall u, id :: u in users && id in u.allowed ==> Exists(groups, id)
  }

  /** A working administrator, unique ids and names, and no allowed group that does
      not exist. */
  ghost predicate StateOK(names: Names, s: State) {
    && AdminCount(s.users) >= 1
    && UsersDistinct(names, s.users)
    && GroupsDistinct(names, s.groups)
    && AllowedExist(s.users, s.groups)
  }

  lemma {:induction false} AdminCountUpdate(users: seq<User>, i: nat, u: User)
    requires i < |users|
    ensures AdminCount(users[i := u])
         == AdminCount(users) - (if users[i].WorkingAdmin() then 1 else 0) + (if u.WorkingAdmin() then 1 else 0)
    decreases |users|
  {
    var n := |users| - 1;
    if i == n {
      assert users[i := u][..n] == users[..n];
    } else {
      assert users[i := u][..n] == users[..n][i := u];
      AdminCountUpdate(users[..n], i, u);
    }
  }

  lemma AdminCountAppend(users: seq<User>, u: User)
    ensures AdminCount(users + [u]) == AdminCount(users) + if u.WorkingAdmin() then 1 else 0
  {
    assert (users + [u])[..|users|] == users;
  }

  lemma {:induction false} DropUserMembers(users: seq<User>, uid: string)
    ensures forall u :: u in DropUser(users, uid) <==> u in users && u.id != uid
  {
    if users != [] {
      DropUserMembers(users[..|users| - 1], uid);
      assert forall u :: u in users <==> u in users[..|users| - 1] || u == users[|users| - 1];
    }
  }

  lemma {:induction false} DropUserDistinct(names: Names, users: seq<User>, uid: string)
    requires UsersDistinct(names, users)
    ensures UsersDistinct(names, DropUser(users, uid))
  {
    if users != [] {
      var n := |users| - 1;
      var u, kept := users[n], DropUser(users[..n], uid);
      DropUserDistinct(names, users[..n], uid);
      DropUserMembers(users[..n], uid);
      hide DropUser;
      forall i | 0 <= i < |kept| ensures kept[i].id != u.id && names.fold(kept[i].username) != names.fold(u.username) {
        assert kept[i] in users[..n];
      }
    }
  }

  /** The account that goes is the one that was found: ids are unique. */
  lemma {:induction false} DropUserCount(names: Names, users: seq<User>, uid: string)
    requires UsersDistinct(names, users)
    ensures AdminCount(DropUser(users, uid))
         == AdminCount(users) - if UserIndex(users, uid) >= 0 && users[UserIndex(users, uid)].WorkingAdmin() then 1 else 0
    decreases |users|
  {
    if users != [] {
      var n := |users| - 1;
      var rest, u := users[..n], users[n];
      var kept := DropUser(rest, uid);
      assert DropUser(users, uid) == if u.id != uid then kept + [u] else kept;
      DropUserCount(names, rest, uid);
      IndexOfPrefix(users, uid);
      AdminCountAppend(kept, u);
      assert AdminCount(users) == AdminCount(rest) + if u.WorkingAdmin() then 1 else 0;
      hide DropUser, UserIndex, AdminCount;
    }
  }

  lemma {:induction false} IndexOfPrefix(users: seq<User>, uid: string)
    requires users != []
    ensures var n := |users| - 1; var i := UserIndex(users[..n], uid);
            UserIndex(users, uid) == if i >= 0 then i else if users[n].id == uid then n else -1
    decreases |users|
  {
    var n := |users| - 1;
    if n > 0 {
      assert users[1..][..n - 1] == users[..n][1..];
      IndexOfPrefix(users[1..], uid);
    }
  }

  lemma {:induction false} KeepExistingExist(groups: seq<Group>, ids: seq<string>)
    ensures forall id :: id in KeepExisting(groups, ids) <==> id in ids && Exists(groups, id)
  {
    if ids != [] {
      var n := |ids| - 1;
      KeepExistingExist(groups, ids[..n]);
      assert forall id :: id in ids <==> id in ids[..n] || id == ids[n];
    }
  }

  lemma {:induction false} WithoutMembers(list: seq<string>, x: string)
    ensures forall y :: y in Without(list, x) <==> y in list && y != x
  {
    if list != [] {
      WithoutMembers(list[..|list| - 1], x);
      assert forall y :: y in list <==> y in list[..|list| - 1] || y == list[|list| - 1];
    }
  }

  /** Filtering keeps the order: part by part. */
  lemma {:induction false} KeepExistingConcat(groups: seq<Group>, a: seq<string>, b: seq<string>)
    ensures KeepExisting(groups, a + b) == KeepExisting(groups, a) + KeepExisting(groups, b)
    decreases |b|
  {
    if b == [] {
      assert a + b == a;
    } else {
      assert (a + b)[..|a + b| - 1] == a + b[..|b| - 1];
      KeepExistingConcat(groups, a, b[..|b| - 1]);
    }
  }

  lemma {:induction false} WithoutConcat(a: seq<string>, b: seq<string>, x: string)
    ensures Without(a + b, x) == Without(a, x) + Without(b, x)
    decreases |b|
  {
    if b == [] {
      assert a + b == a;
    } else {
      assert (a + b)[..|a + b| - 1] == a + b[..|b| - 1];
      WithoutConcat(a, b[..|b| - 1], x);
    }
  }

  lemma {:induction false} DropUserConcat(a: seq<User>, b: seq<User>, uid: string)
    ensures DropUser(a + b, uid) == DropUser(a, uid) + DropUser(b, uid)
    decreases |b|
  {
    if b == [] {
      assert a + b == a;
    } else {
      assert (a + b)[..|a + b| - 1] == a + b[..|b| - 1];
      DropUserConcat(a, b[..|b| - 1], uid);
    }
  }

  lemma UpdateUserKeeps(names: Names, s: State, i: nat, u: User)
    requires StateOK(names, s) && i < |s.users|
    requires u.id == s.users[i].id && u.username == s.users[i].username
    requires forall id :: id in u.allowed ==> Exists(s.groups, id)
    requires s.users[i].WorkingAdmin() && !u.WorkingAdmin() ==> AdminCount(s.users) > 1
    ensures StateOK(names, s.(users := s.users[i := u]))
  {
    var t := s.users[i := u];
    AdminCountUpdate(s.users, i, u);
    forall v, id | v in t && id in v.allowed ensures Exists(s.groups, id) {
      assert v == u || v in s.users;
    }
  }

  lemma AddUserKeeps(names: Names, s: State, u: User)
    requires StateOK(names, s) && !u.WorkingAdmin() && u.allowed == []
    requires !NameInUse(names, s.users, u.username) && forall i :: 0 <= i < |s.users| ==> s.users[i].id != u.id
    ensures StateOK(names, s.(users := s.users + [u]))
  {
    AdminCountAppend(s.users, u);
    assert forall v :: v in s.users + [u] ==> v in s.users || v == u;
  }

  lemma SaveUserKeeps(names: Names, s: State, uid: string, req: UserRequest, newID: string)
    requires StateOK(names, s) && forall i :: 0 <= i < |s.users| ==> s.users[i].id != newID
    ensures var a := SaveUser(names, s, uid, req, newID); a.Done? ==> StateOK(names, a.state)
  {
    hide StateOK, KeepExisting, UserIndex, NameInUse, AdminCount, Exists, BadUsernameChars;
    var a := SaveUser(names, s, uid, req, newID);
    if a.Done? {
      var blank := User(newID, req.username, "", Other(""), false, [], "", false);
      var s1 := if uid == "" then s.(users := s.users + [blank]) else s;
      var i := if uid == "" then |s.users| else UserIndex(s.users, uid);
      if uid == "" {
        AddUserKeeps(names, s, blank);
      }
      KeepExistingExist(s.groups, req.allowed);
      UpdateUserKeeps(names, s1, i, a.state.users[i]);
    }
  }

  lemma DeleteUserKeeps(names: Names, s: State, uid: string, caller: string)
    requires StateOK(names, s)
    ensures var a := DeleteUser(s, uid, caller); a.Done? ==> StateOK(names, a.state)
  {
    DropUserDistinct(names, s.users, uid);
    DropUserCount(names, s.users, uid);
    DropUserMembers(s.users, uid);
  }

  lemma SetPasswordKeeps(names: Names, s: State, uid: string, hash: string, mustChange: bool)
    requires StateOK(names, s)
    ensures StateOK(names, SetPassword(s, uid, hash, mustChange))
  {
    var i := UserIndex(s.users, uid);
    if i >= 0 {
      assert s.users[i] in s.users;
      UpdateUserKeeps(names, s, i, s.users[i].(passHash := hash, mustChange := mustChange));
    }
  }

  // ---- groups ----

  lemma CountTwice(t: seq<Group>, i: nat, j: nat)
    requires i < j < |t| && t[i] == t[j]
    ensures multiset(t)[t[i]] >= 2
  {
    assert t == t[..j] + t[j..];
    assert t[i] == t[..j][i] && t[j] == t[j..][0];
  }

  lemma CountOnce(names: Names, s: seq<Group>, g: Group)
    requires GroupsDistinct(names, s)
    ensures multiset(s)[g] <= 1
  {
    if g in s {
      var i :| 0 <= i < |s| && s[i] == g;
      assert s == s[..i] + [g] + s[i + 1..];
      assert g !in s[..i] && g !in s[i + 1..];
    }
  }

  /** Sorting keeps groups distinct and loses none. */
  lemma SortKeeps(names: Names, s: seq<Group>)
    requires names.Valid() && GroupsDistinct(names, s)
    ensures GroupsDistinct(names, names.sort(s))
    ensures forall g :: g in names.sort(s) <==> g in s
  {
    var t := names.sort(s);
    SameMembers(s, t);
    forall i, j | 0 <= i < j < |t| ensures t[i].id != t[j].id && names.fold(t[i].name) != names.fold(t[j].name) {
      CountOnce(names, s, t[i]);
      if t[i] == t[j] {
        CountTwice(t, i, j);
      } else {
        assert t[i] in s && t[j] in s;
      }
    }
  }

  lemma ExistsIffMember(groups: seq<Group>, id: string)
    ensures Exists(groups, id) <==> exists g :: g in groups && g.id == id
  {
    if g :| g in groups && g.id == id {
      var i :| 0 <= i < |groups| && groups[i] == g;
      assert groups[i].id == id;
    }
  }

  lemma ReplaceGroupsKeeps(names: Names, s: State, groups: seq<Group>)
    requires names.Valid() && StateOK(names, s) && GroupsDistinct(names, groups)
    requires forall id :: Exists(s.groups, id) ==> Exists(groups, id)
    ensures StateOK(names, s.(groups := names.sort(groups)))
  {
    SortKeeps(names, groups);
    forall u, id | u in s.users && id in u.allowed ensures Exists(names.sort(groups), id) {
      assert Exists(s.groups, id);
      ExistsIffMember(groups, id);
      ExistsIffMember(names.sort(groups), id);
    }
  }

  lemma SaveGroupKeeps(names: Names, s: State, gid: string, name: string, rules: seq<Rule>, newID: string)
    requires names.Valid() && StateOK(names, s)
    requires newID != "" && forall i :: 0 <= i < |s.groups| ==> s.groups[i].id != newID && s.groups[i].id != ""
    ensures var a := SaveGroup(names, s, gid, name, rules, newID); a.Done? ==> StateOK(names, a.state)
  {
    var a := SaveGroup(names, s, gid, name, rules, newID);
    if a.Done? {
      var i := GroupIndex(s.groups, gid);
      var groups := if gid == "" then s.groups + [Group(newID, name, rules)] else s.groups[i := Group(gid, name, rules)];
      assert forall j :: 0 <= j < |s.groups| && s.groups[j].id != gid ==> names.fold(s.groups[j].name) != names.fold(name);
      forall id | Exists(s.groups, id) ensures Exists(groups, id) {
        var j :| 0 <= j < |s.groups| && s.groups[j].id == id;
        assert groups[j].id == id;
      }
      ReplaceGroupsKeeps(names, s, groups);
    }
  }

  lemma {:induction false} DropGroupMembers(groups: seq<Group>, gid: string)
    ensures forall g :: g in DropGroup(groups, gid) <==> g in groups && g.id != gid
  {
    if groups != [] {
      DropGroupMembers(groups[..|groups| - 1], gid);
      assert forall g :: g in groups <==> g in groups[..|groups| - 1] || g == groups[|groups| - 1];
    }
  }

  lemma {:induction false} DropGroupDistinct(names: Names, groups: seq<Group>, gid: string)
    requires GroupsDistinct(names, groups)
    ensures GroupsDistinct(names, DropGroup(groups, gid))
  {
    if groups != [] {
      var rest, g := groups[..|groups| - 1], groups[|groups| - 1];
      var kept := DropGroup(rest, gid);
      DropGroupDistinct(names, rest, gid);
      DropGroupMembers(rest, gid);
      forall i | 0 <= i < |kept| ensures kept[i].id != g.id && names.fold(kept[i].name) != names.fold(g.name) {
        assert kept[i] in rest;
      }
    }
  }

  lemma {:induction false} SameAdmins(users: seq<User>, others: seq<User>)
    requires |users| == |others|
    requires forall i :: 0 <= i < |users| ==> users[i].WorkingAdmin() == others[i].WorkingAdmin()
    ensures AdminCount(users) == AdminCount(others)
  {
    if users != [] {
      SameAdmins(users[..|users| - 1], others[..|others| - 1]);
    }
  }

  lemma DeleteGroupKeeps(names: Names, s: State, gid: string)
    requires StateOK(names, s)
    ensures StateOK(names, DeleteGroup(s, gid))
  {
    var t := DeleteGroup(s, gid);
    DropGroupDistinct(names, s.groups, gid);
    DropGroupMembers(s.groups, gid);
    SameAdmins(s.users, t.users);
    forall u, id | u in t.users && id in u.allowed ensures Exists(t.groups, id) {
      var i :| 0 <= i < |t.users| && t.users[i] == u;
      WithoutMembers(s.users[i].allowed, gid);
      assert s.users[i] in s.users && Exists(s.groups, id);
      ExistsIffMember(s.groups, id);
      ExistsIffMember(t.groups, id);
    }
  }

  // ---- what the handlers change, and when they refuse ----

  /** A saved account gets what was asked for, less the groups that do not exist;
      its name and password stay, and so does every other account. */
  lemma SavedAccount(names: Names, s: State, uid: string, req: UserRequest, newID: string)
    ensures var a := SaveUser(names, s, uid, req, newID);
            a.Done? ==>
              var t, i := a.state, if uid == "" then |s.users| else UserIndex(s.users, uid);
              && t.groups == s.groups && 0 <= i < |t.users| && |t.users| == |s.users| + (if uid == "" then 1 else 0)
              && (forall j :: 0 <= j < |s.users| && j != i ==> t.users[j] == s.users[j])
              && (forall id :: id in t.users[i].allowed <==> id in req.allowed && Exists(s.groups, id))
              && t.users[i].displayName == req.displayName
              && t.users[i].role == req.role && t.users[i].disabled == req.disabled
              && (if uid == "" then t.users[i].id == newID && t.users[i].username == req.username
                  else t.users[i].id == uid && t.users[i].username == s.users[i].username
                       && t.users[i].passHash == s.users[i].passHash)
  {
    KeepExistingExist(s.groups, req.allowed);
    hide KeepExisting, NameInUse, AdminCount, Exists, BadUsernameChars;
  }

  /** A change is refused for the sake of the last administrator exactly when
      no working administrator would be left after it. */
  lemma SaveRefusedForLastAdminIff(names: Names, s: State, uid: string, req: UserRequest, newID: string)
    requires AdminCount(s.users) >= 1 && (req.role == Admin || req.role == Sender)
    ensures var i := UserIndex(s.users, uid);
            SaveUser(names, s, uid, req, newID) == Refused(LastAdministrator) <==>
              && uid != "" && i >= 0
              && AdminCount(s.users[i := s.users[i].(role := req.role, disabled := req.disabled)]) == 0
  {
    hide KeepExisting, NameInUse, BadUsernameChars;
    var i := UserIndex(s.users, uid);
    if i >= 0 {
      AdminCountUpdate(s.users, i, s.users[i].(role := req.role, disabled := req.disabled));
    }
    hide AdminCount;
  }

  lemma DeleteRefusedForLastAdminIff(names: Names, s: State, uid: string, caller: string)
    requires AdminCount(s.users) >= 1 && UsersDistinct(names, s.users)
    ensures DeleteUser(s, uid, caller) == Refused(LastAdministrator) <==>
              uid != caller && AdminCount(DropUser(s.users, uid)) == 0
  {
    DropUserCount(names, s.users, uid);
    hide AdminCount, DropUser;
  }

  /** Otherwise an account is saved unless the role is unknown, a new name is unfit or
      taken, or the account is gone. */
  lemma SaveRefusedIff(names: Names, s: State, uid: string, req: UserRequest, newID: string)
    requires AdminCount(s.users) >= 1
    ensures var a := SaveUser(names, s, uid, req, newID);
            var fit := req.role == Admin || req.role == Sender;
            var unfit := req.username == "" || exists c :: c in req.username && c in " :/\\";
            var taken := exists u :: u in s.users && names.fold(u.username) == names.fold(req.username);
            && (a == Refused(BadRole) <==> !fit)
            && (a == Refused(BadUsername) <==> fit && uid == "" && unfit)
            && (a == Refused(UsernameTaken) <==> fit && uid == "" && !unfit && taken)
            && (a == Refused(NoSuchAccount) <==> fit && uid != "" && forall u :: u in s.users ==> u.id != uid)
            && (uid == "" && fit && !unfit && !taken ==> a.Done?)
  {
    hide KeepExisting, AdminCount;
    assert forall c :: c in " :/\\" <==> c == ' ' || c == ':' || c == '/' || c == '\\';
    assert NameInUse(names, s.users, req.username)
      <==> exists u :: u in s.users && names.fold(u.username) == names.fold(req.username) by { InUseIff(names, s.users, req.username); }
    hide NameInUse;
  }

  lemma InUseIff(names: Names, users: seq<User>, name: string)
    ensures NameInUse(names, users, name) <==> exists u :: u in users && names.fold(u.username) == names.fold(name)
  {
    if u :| u in users && names.fold(u.username) == names.fold(name) {
      var i :| 0 <= i < |users| && users[i] == u;
      assert names.fold(users[i].username) == names.fold(name);
    }
  }

  /** Deleting an account removes it and nothing else; nobody deletes the account they
      are signed in with. */
  lemma DeletedUser(s: State, uid: string, caller: string)
    ensures var a := DeleteUser(s, uid, caller);
            && (a == Refused(OwnAccount) <==> uid == caller)
            && (a.Done? ==> a.state.groups == s.groups
                            && forall u :: u in a.state.users <==> u in s.users && u.id != uid)
            && (a.Refused? ==> a.why == OwnAccount || a.why == LastAdministrator)
  {
    DropUserMembers(s.users, uid);
  }

  /** A new password goes to the account with that id, with the mark whether it must be
      changed, and to no other; if the account is gone nothing happens. */
  lemma StoredPassword(names: Names, s: State, uid: string, hash: string, mustChange: bool)
    requires UsersDistinct(names, s.users)
    ensures var t := SetPassword(s, uid, hash, mustChange);
            && t.groups == s.groups && |t.users| == |s.users|
            && forall i :: 0 <= i < |s.users| ==>
                 t.users[i] == if s.users[i].id == uid then s.users[i].(passHash := hash, mustChange := mustChange)
                               else s.users[i]
  {
  }

  /** A saved group has the new name and rules, under its own id or a new one, and
      no other group changes. */
  lemma SavedGroup(names: Names, s: State, gid: string, name: string, rules: seq<Rule>, newID: string)
    requires names.Valid() && GroupsDistinct(names, s.groups)
    requires gid == "" ==> forall i :: 0 <= i < |s.groups| ==> s.groups[i].id != newID
    ensures var a := SaveGroup(names, s, gid, name, rules, newID);
            var saved := Group(if gid == "" then newID else gid, name, rules);
            a.Done? ==>
              && a.state.users == s.users
              && forall g :: g in a.state.groups <==> (g in s.groups && g.id != saved.id) || g == saved
  {
    hide GroupNameInUse, GroupIndex, GroupsDistinct;
    var a := SaveGroup(names, s, gid, name, rules, newID);
    if a.Done? {
      var saved := Group(if gid == "" then newID else gid, name, rules);
      var groups := if gid == "" then s.groups + [saved] else s.groups[GroupIndex(s.groups, gid) := saved];
      SameMembers(groups, names.sort(groups));
      if gid != "" {
        ReplacedMembers(names, s.groups, GroupIndex(s.groups, gid), saved);
      }
    }
  }

  lemma SameMembers(s: seq<Group>, t: seq<Group>)
    requires multiset(t) == multiset(s)
    ensures forall g :: g in t <==> g in s
  {
    forall g ensures g in t <==> g in s {
      assert g in t <==> g in multiset(t);
      assert g in s <==> g in multiset(s);
    }
  }

  lemma ReplacedMembers(names: Names, groups: seq<Group>, i: nat, g: Group)
    requires GroupsDistinct(names, groups) && i < |groups| && groups[i].id == g.id
    ensures forall h :: h in groups[i := g] <==> (h in groups && h.id != g.id) || h == g
  {
    var after := groups[i := g];
    assert after[i] == g;
    forall h ensures h in after <==> (h in groups && h.id != g.id) || h == g {
      if h in groups && h.id != g.id {
        var j :| 0 <= j < |groups| && groups[j] == h;
        assert after[j] == h;
      }
    }
  }

  /** When a group is not saved. */
  lemma GroupRefusedIff(names: Names, s: State, gid: string, name: string, rules: seq<Rule>, newID: string)
    ensures var a := SaveGroup(names, s, gid, name, rules, newID);
            var taken := exists g :: g in s.groups && g.id != gid && names.fold(g.name) == names.fold(name);
            && (a == Refused(NoGroupName) <==> name == "")
            && (a == Refused(NoRules) <==> name != "" && rules == [])
            && (a == Refused(GroupNameTaken) <==> name != "" && rules != [] && taken)
            && (a == Refused(NoSuchGroup) <==>
                  name != "" && rules != [] && !taken && gid != "" && forall g :: g in s.groups ==> g.id != gid)
            && (a.Refused? ==> a.why in {NoGroupName, NoRules, GroupNameTaken, NoSuchGroup})
  {
    GroupInUseIff(names, s.groups, gid, name);
    hide GroupNameInUse;
  }

  lemma GroupInUseIff(names: Names, groups: seq<Group>, gid: string, name: string)
    ensures GroupNameInUse(names, groups, gid, name)
       <==> exists g :: g in groups && g.id != gid && names.fold(g.name) == names.fold(name)
  {
    if g :| g in groups && g.id != gid && names.fold(g.name) == names.fold(name) {
      var i :| 0 <= i < |groups| && groups[i] == g;
      assert groups[i].id != gid;
    }
  }

  /** A deleted group is gone from the list and from every account, and nothing
      else is. */
  lemma DeletedGroup(s: State, gid: string)
    ensures var t := DeleteGroup(s, gid);
            && (forall g :: g in t.groups <==> g in s.groups && g.id != gid)
            && |t.users| == |s.users|
            && forall i :: 0 <= i < |s.users| ==>
                 && t.users[i] == s.users[i].(allowed := t.users[i].allowed)
                 && forall id :: id in t.users[i].allowed <==> id in s.users[i].allowed && id != gid
  {
    var t := DeleteGroup(s, gid);
    DropGroupMembers(s.groups, gid);
    forall i | 0 <= i < |s.users|
      ensures forall id :: id in t.users[i].allowed <==> id in s.users[i].allowed && id != gid
    {
      WithoutMembers(s.users[i].allowed, gid);
    }
  }

  /** An administrator may send to anyone, and so may a sender whose list is empty. */
  predicate Restricted(u: User) {
    u.role != Admin && u.allowed != []
  }

  /** Deleting a group keeps a sender restricted exactly when the sender is allowed
      some other group too; otherwise the emptied list lifts the restriction. */
  lemma RestrictionSurvivesDeletionIff(s: State, gid: string, i: nat)
    requires i < |s.users| && Restricted(s.users[i])
    ensures Restricted(DeleteGroup(s, gid).users[i]) <==> exists id :: id in s.users[i].allowed && id != gid
  {
    var left := Without(s.users[i].allowed, gid);
    WithoutMembers(s.users[i].allowed, gid);
    assert left != [] ==> left[0] in left;
  }

  // ---- runs ----

  datatype Call =
    | SavingUser(uid: string, req: UserRequest, newID: string)
    | PasswordHashed(uid: string, hash: string, mustChange: bool)
    | DeletingUser(uid: string, caller: string)
    | SavingGroup(gid: string, name: string, rules: seq<Rule>, newID: string)
    | DeletingGroup(gid: string)

  /** Generated ids are new and not empty. */
  ghost predicate FreshIDs(s: State, c: Call) {
    match c
    case SavingUser(_, _, id) => forall i :: 0 <= i < |s.users| ==> s.users[i].id != id
    case SavingGroup(_, _, _, id) => id != "" && forall i :: 0 <= i < |s.groups| ==> s.groups[i].id != id
    case _ => true
  }

  function Settle(s: State, a: Answer): State {
    if a.Done? then a.state else s
  }

  /** One locked section of a handler; a refusal changes nothing. */
  function Handle(names: Names, s: State, c: Call): State {
    match c
    case SavingUser(uid, req, id) => Settle(s, SaveUser(names, s, uid, req, id))
    case PasswordHashed(uid, hash, mustChange) => SetPassword(s, uid, hash, mustChange)
    case DeletingUser(uid, caller) => Settle(s, DeleteUser(s, uid, caller))
    case SavingGroup(gid, name, rules, id) => Settle(s, SaveGroup(names, s, gid, name, rules, id))
    case DeletingGroup(gid) => DeleteGroup(s, gid)
  }

  function HandleAll(names: Names, s: State, calls: seq<Call>): State
    decreases |calls|
  {
    if calls == [] then s else HandleAll(names, Handle(names, s, calls[0]), calls[1..])
  }

  ghost predicate FreshRun(names: Names, s: State, calls: seq<Call>)
    decreases |calls|
  {
    calls == [] || (FreshIDs(s, calls[0]) && FreshRun(names, Handle(names, s, calls[0]), calls[1..]))
  }

  ghost predicate NoEmptyID(s: State) {
    forall i :: 0 <= i < |s.groups| ==> s.groups[i].id != ""
  }

  lemma HandleKeeps(names: Names, s: State, c: Call)
    requires names.Valid() && StateOK(names, s) && NoEmptyID(s) && FreshIDs(s, c)
    ensures StateOK(names, Handle(names, s, c))
  {
    match c {
      case SavingUser(uid, req, id) => SaveUserKeeps(names, s, uid, req, id);
      case PasswordHashed(uid, hash, mustChange) => SetPasswordKeeps(names, s, uid, hash, mustChange);
      case DeletingUser(uid, caller) => DeleteUserKeeps(names, s, uid, caller);
      case SavingGroup(gid, name, rules, id) => SaveGroupKeeps(names, s, gid, name, rules, id);
      case DeletingGroup(gid) => DeleteGroupKeeps(names, s, gid);
    }
  }

  lemma SortNoEmptyID(names: Names, groups: seq<Group>)
    requires names.Valid() && forall i :: 0 <= i < |groups| ==> groups[i].id != ""
    ensures forall i :: 0 <= i < |names.sort(groups)| ==> names.sort(groups)[i].id != ""
  {
    var t := names.sort(groups);
    assert multiset(t) == multiset(groups);
    forall i | 0 <= i < |t| ensures t[i].id != "" {
      assert t[i] in multiset(t);
      assert t[i] in groups;
    }
  }

  lemma SaveGroupNoEmptyID(names: Names, s: State, gid: string, name: string, rules: seq<Rule>, newID: string)
    requires names.Valid() && NoEmptyID(s) && newID != ""
    ensures var a := SaveGroup(names, s, gid, name, rules, newID); a.Done? ==> NoEmptyID(a.state)
  {
    var i := GroupIndex(s.groups, gid);
    if gid == "" {
      SortNoEmptyID(names, s.groups + [Group(newID, name, rules)]);
    } else if i >= 0 {
      SortNoEmptyID(names, s.groups[i := Group(gid, name, rules)]);
    }
  }

  lemma DropGroupNoEmptyID(s: State, gid: string)
    requires NoEmptyID(s)
    ensures NoEmptyID(DeleteGroup(s, gid))
  {
    DropGroupMembers(s.groups, gid);
    var t := DropGroup(s.groups, gid);
    forall i | 0 <= i < |t| ensures t[i].id != "" {
      assert t[i] in s.groups;
    }
  }

  lemma HandleNoEmptyID(names: Names, s: State, c: Call)
    requires names.Valid() && NoEmptyID(s) && FreshIDs(s, c)
    ensures NoEmptyID(Handle(names, s, c))
  {
    match c {
      case SavingGroup(gid, name, rules, id) => SaveGroupNoEmptyID(names, s, gid, name, rules, id);
      case DeletingGroup(gid) => DropGroupNoEmptyID(s, gid);
      case _ =>
    }
  }

  /** From a store with a working administrator, every sequence of account and
      group calls, interleaved in any way with the second half of password resets,
      keeps one, and keeps ids and names unique and allowed groups existing. */
  lemma {:induction false} AccountsStayOK(names: Names, s: State, calls: seq<Call>)
    requires names.Valid() && StateOK(names, s) && NoEmptyID(s) && FreshRun(names, s, calls)
    ensures StateOK(names, HandleAll(names, s, calls))
    decreases |calls|
  {
    hide StateOK, NoEmptyID, FreshIDs, Handle;
    if calls != [] {
      HandleKeeps(names, s, calls[0]);
      HandleNoEmptyID(names, s, calls[0]);
      AccountsStayOK(names, Handle(names, s, calls[0]), calls[1..]);
    }
  }

  // ---- the store ----

  class AccountStore {
    const names: Names
    var users: seq<User>
    var groups: seq<Group>

    ghost function View(): State
      reads this
    {
      State(users, groups)
    }

    constructor (names: Names)
      ensures View() == State([], []) && this.names == names
    {
      this.names, users, groups := names, [], [];
    }

    method CountAdmins(among: seq<User>) returns (n: nat)
      ensures n == AdminCount(among)
    {
      n := 0;
      for i := 0 to |among|
        invariant n == AdminCount(among[..i])
      {
        assert among[..i + 1][..i] == among[..i];
        if among[i].WorkingAdmin() {
          n := n + 1;
        }
      }
      assert among[..|among|] == among;
    }

    method UserByID(id: string) returns (i: int)
      ensures i == UserIndex(users, id)
    {
      i := 0;
      assert users[0..] == users;
      while i < |users|
        invariant 0 <= i <= |users|
        invariant UserIndex(users, id) == if UserIndex(users[i..], id) < 0 then -1 else i + UserIndex(users[i..], id)
      {
        if users[i].id == id {
          return;
        }
        assert users[i..][1..] == users[i + 1..];
        i := i + 1;
      }
      return -1;
    }

    method GroupByID(id: string) returns (i: int)
      ensures i == GroupIndex(groups, id)
    {
      i := 0;
      assert groups[0..] == groups;
      while i < |groups|
        invariant 0 <= i <= |groups|
        invariant GroupIndex(groups, id) == if GroupIndex(groups[i..], id) < 0 then -1 else i + GroupIndex(groups[i..], id)
      {
        if groups[i].id == id {
          return;
        }
        assert groups[i..][1..] == groups[i + 1..];
        i := i + 1;
      }
      return -1;
    }

    method UsernameTaken(name: string) returns (taken: bool)
      ensures taken == NameInUse(names, users, name)
    {
      for i := 0 to |users|
        invariant forall j :: 0 <= j < i ==> names.fold(users[j].username) != names.fold(name)
      {
        if names.fold(users[i].username) == names.fold(name) {
          return true;
        }
      }
      return false;
    }

    method ExistingOnly(ids: seq<string>) returns (kept: seq<string>)
      ensures kept == KeepExisting(groups, ids)
    {
      kept := [];
      for i := 0 to |ids|
        invariant kept == KeepExisting(groups, ids[..i])
      {
        assert ids[..i + 1][..i] == ids[..i];
        var g := GroupByID(ids[i]);
        if g >= 0 {
          kept := kept + [ids[i]];
        }
      }
      assert ids[..|ids|] == ids;
    }

    /** `handleSaveUser` up to the release for hashing. A refused change to an
        account leaves the store as it was. */
    method Save(uid: string, req: UserRequest, newID: string) returns (refusal: Option<Refusal>)
      modifies this
      ensures var a := SaveUser(names, old(View()), uid, req, newID);
              match a
              case Done(t) => refusal == None && View() == t
              case Refused(why) => refusal == Some(why) && View() == old(View())
    {
      hide AdminCount, KeepExisting, UserIndex, NameInUse, BadUsernameChars;
      if req.role != Admin && req.role != Sender {
        return Some(BadRole);
      }
      if uid == "" && BadUsernameChars(req.username) {
        return Some(BadUsername);
      }
      ghost var before := View();
      var i: int;
      if uid == "" {
        var taken := UsernameTaken(req.username);
        if taken {
          return Some(Refusal.UsernameTaken);
        }
        i := |users|;
        var u := User(newID, req.username, "", Other(""), false, [], "", false);
        users := users + [u];
      } else {
        i := UserByID(uid);
        if i < 0 {
          return Some(NoSuchAccount);
        }
      }
      var losing := users[i].WorkingAdmin() && (req.role != Admin || req.disabled);
      var admins := CountAdmins(users);
      if losing && admins <= 1 {
        return Some(LastAdministrator);
      }
      var allowed := ExistingOnly(req.allowed);
      users := users[i := users[i].(displayName := req.displayName, role := req.role, disabled := req.disabled, allowed := allowed)];
      return None;
    }

    /** The locked section that follows the hashing. */
    method StorePassword(uid: string, hash: string, mustChange: bool)
      modifies this
      ensures View() == SetPassword(old(View()), uid, hash, mustChange)
    {
      var i := UserByID(uid);
      if i >= 0 {
        users := users[i := users[i].(passHash := hash, mustChange := mustChange)];
      }
    }

    method Delete(uid: string, caller: string) returns (refusal: Option<Refusal>)
      modifies this
      ensures var a := DeleteUser(old(View()), uid, caller);
              match a
              case Done(t) => refusal == None && View() == t
              case Refused(why) => refusal == Some(why) && View() == old(View())
    {
      if uid == caller {
        return Some(OwnAccount);
      }
      var i := UserByID(uid);
      var admins := CountAdmins(users);
      if i >= 0 && users[i].WorkingAdmin() && admins <= 1 {
        return Some(LastAdministrator);
      }
      var kept := [];
      for j := 0 to |users|
        invariant users == old(users) && groups == old(groups) && kept == DropUser(users[..j], uid)
      {
        assert users[..j + 1][..j] == users[..j];
        if users[j].id != uid {
          kept := kept + [users[j]];
        }
      }
      assert users[..|users|] == users;
      users := kept;
      return None;
    }

    /** `handleSaveGroup`. */
    method SaveGroupNamed(gid: string, name: string, rules: seq<Rule>, newID: string) returns (refusal: Option<Refusal>)
      modifies this
      ensures var a := SaveGroup(names, old(View()), gid, name, rules, newID);
              match a
              case Done(t) => refusal == None && View() == t
              case Refused(why) => refusal == Some(why) && View() == old(View())
    {
      if name == "" {
        return Some(NoGroupName);
      }
      if |rules| == 0 {
        return Some(NoRules);
      }
      for i := 0 to |groups|
        invariant unchanged(this)
        invariant forall j :: 0 <= j < i ==> groups[j].id == gid || names.fold(groups[j].name) != names.fold(name)
      {
        if groups[i].id != gid && names.fold(groups[i].name) == names.fold(name) {
          return Some(GroupNameTaken);
        }
      }
      if gid == "" {
        groups := names.sort(groups + [Group(newID, name, rules)]);
        return None;
      }
      var i := GroupByID(gid);
      if i < 0 {
        return Some(NoSuchGroup);
      }
      groups := names.sort(groups[i := Group(gid, name, rules)]);
      return None;
    }

    /** `handleDeleteGroup`: the group goes, and every account forgets it. */
    method RemoveGroup(gid: string)
      modifies this
      ensures View() == DeleteGroup(old(View()), gid)
    {
      var kept := [];
      for j := 0 to |groups|
        invariant unchanged(this) && kept == DropGroup(groups[..j], gid)
      {
        assert groups[..j + 1][..j] == groups[..j];
        if groups[j].id != gid {
          kept := kept + [groups[j]];
        }
      }
      assert groups[..|groups|] == groups;
      groups := kept;
      for j := 0 to |users|
        invariant groups == kept && |users| == |old(users)|
        invariant forall k :: 0 <= k < j ==> users[k] == old(users)[k].(allowed := Without(old(users)[k].allowed, gid))
        invariant forall k :: j <= k < |users| ==> users[k] == old(users)[k]
      {
        var allowed := WithoutID(users[j].allowed, gid);
        users := users[j := users[j].(allowed := allowed)];
      }
      assert users == ForgetGroup(old(users), gid);
    }

    /** `without`. */
    method WithoutID(list: seq<string>, x: string) returns (r: seq<string>)
      ensures r == Without(list, x)
    {
      r := [];
      for i := 0 to |list|
        invariant r == Without(list[..i], x)
      {
        assert list[..i + 1][..i] == list[..i];
        if list[i] != x {
          r := r + [list[i]];
        }
      }
      assert list[..|list|] == list;
    }
  }
}
