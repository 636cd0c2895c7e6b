/** Who an alert is for: rules, saved groups, targets (server/match.go). */
module Targets {
  import opened Text
  import Glob

  datatype Rule = Rule(field: string, pattern: string)

  datatype Group = Group(id: string, name: string, rules: seq<Rule>)

  datatype Target = Target(all: bool, groupIDs: seq<string>, rules: seq<Rule>)

  /** A computer that has checked in (version, OS and first contact are omitted). */
  datatype ClientInfo = ClientInfo(
    id: string, hostname: string, user: string, domain: string, ou: string,
    groups: seq<string>, ip: string, sid: string, lastSeen: Time, polling: nat)
  {
    predicate Online(now: Time) {
      polling > 0 || now - lastSeen < 45 * SECOND
    }
  }

  /** The library calls the matcher makes: character tables, address ranges
      and the web-address check. */
  datatype Library = Library(
    unicode: Unicode,
    isRange: string -> bool,
    rangeHolds: (string, string) -> bool,
    linkOK: string -> bool)

  predicate Wildcard(lib: Library, p: string, s: string) {
    Glob.Accepts(lib.unicode.Lower(p), lib.unicode.Lower(s))
  }

  /** Case aside, a pattern means what it says unless it and the subject both hold
      a star. */
  lemma WildcardMeaning(lib: Library, p: string, s: string)
    requires lib.unicode.Valid() && ('*' !in p || '*' !in s)
    ensures Wildcard(lib, p, s) <==> Glob.Matches(lib.unicode.Lower(p), lib.unicode.Lower(s))
  {
    var q, t := lib.unicode.Lower(p), lib.unicode.Lower(s);
    if Wildcard(lib, p, s) {
      Glob.Sound(q, t);
    } else if Glob.Matches(q, t) {
      if '*' !in s {
        assert '*' !in t;
        Glob.CompleteWithoutStar(q, t);
      } else {
        assert '*' !in q;
        Glob.CompleteLiteral(q, t);
      }
    }
  }

  predicate HasWildcard(p: string) {
    '*' in p || '?' in p
  }

  predicate Contains(s: string, sub: string) {
    sub <= s || (s != "" && Contains(s[1..], sub))
  }

  /** The part after the last backslash, or all of `g`. */
  function ShortName(g: string): (r: string)
    ensures '\\' !in r
    ensures r == g || (|r| < |g| && g == g[..|g| - |r| - 1] + ['\\'] + r)
  {
    if g == "" then ""
    else
      var n := |g| - 1;
      if g[n] == '\\' then ""
      else
        var r := ShortName(g[..n]);
        assert g == g[..n] + [g[n]];
        r + [g[n]]
  }

  predicate GroupNameMatches(lib: Library, p: string, g: string) {
    Wildcard(lib, p, g) || Wildcard(lib, p, ShortName(g))
  }

  predicate RuleMatches(lib: Library, r: Rule, c: ClientInfo) {
    var p := lib.unicode.Trim(r.pattern);
    p != "" &&
    match r.field
    case "hostname" => Wildcard(lib, p, c.hostname)
    case "user" => Wildcard(lib, p, c.user) || Wildcard(lib, p, c.domain + "\\" + c.user)
    case "ou" =>
      if HasWildcard(p) then Wildcard(lib, p, c.ou)
      else Contains(lib.unicode.Lower(c.ou), lib.unicode.Lower(p))
    case "group" => exists i :: 0 <= i < |c.groups| && GroupNameMatches(lib, p, c.groups[i])
    case "ip" => if lib.isRange(p) then lib.rangeHolds(p, c.ip) else Wildcard(lib, p, c.ip)
    case _ => false
  }

  /** A pattern and a text, case aside, as documented. */
  predicate Fits(lib: Library, p: string, s: string) {
    Glob.Matches(lib.unicode.Lower(p), lib.unicode.Lower(s))
  }

  predicate OccursIn(q: string, s: string) {
    exists k: nat :: k <= |s| && q <= s[k..]
  }

  lemma {:induction false} ContainsIff(s: string, q: string)
    ensures Contains(s, q) <==> OccursIn(q, s)
    decreases |s|
  {
    assert s[0..] == s;
    if !(q <= s) && s != "" {
      ContainsIff(s[1..], q);
      assert forall k: nat :: k < |s| ==> s[1..][k..] == s[k + 1..];
      if OccursIn(q, s) {
        var k: nat :| k <= |s| && q <= s[k..];
        assert k > 0 && s[1..][k - 1..] == s[k..];
      }
    }
  }

  /** No attribute of the computer holds a star. */
  predicate StarFree(c: ClientInfo) {
    && '*' !in c.hostname && '*' !in c.user && '*' !in c.domain && '*' !in c.ou && '*' !in c.ip
    && forall i :: 0 <= i < |c.groups| ==> '*' !in c.groups[i]
  }

  /** What each kind of rule means, unless its pattern and the computer both hold a
      star. */
  lemma RuleMeaning(lib: Library, r: Rule, c: ClientInfo)
    requires lib.unicode.Valid()
    requires '*' !in lib.unicode.Trim(r.pattern) || StarFree(c)
    ensures var p := lib.unicode.Trim(r.pattern);
            if p == "" then !RuleMatches(lib, r, c)
            else if r.field == "hostname" then RuleMatches(lib, r, c) <==> Fits(lib, p, c.hostname)
            else if r.field == "user" then
              RuleMatches(lib, r, c) <==> Fits(lib, p, c.user) || Fits(lib, p, c.domain + "\\" + c.user)
            else if r.field == "ou" && '*' !in p && '?' !in p then
              RuleMatches(lib, r, c) <==> OccursIn(lib.unicode.Lower(p), lib.unicode.Lower(c.ou))
            else if r.field == "ou" then RuleMatches(lib, r, c) <==> Fits(lib, p, c.ou)
            else if r.field == "group" then
              RuleMatches(lib, r, c) <==> exists g :: g in c.groups && (Fits(lib, p, g) || Fits(lib, p, ShortName(g)))
            else if r.field == "ip" then
              RuleMatches(lib, r, c) <==> if lib.isRange(p) then lib.rangeHolds(p, c.ip) else Fits(lib, p, c.ip)
            else !RuleMatches(lib, r, c)
  {
    hide Wildcard, Fits, ShortName, Unicode.Trim, Unicode.Lower, Contains, OccursIn, Unicode.Valid;
    var p := lib.unicode.Trim(r.pattern);
    forall s | '*' !in p || '*' !in s ensures Wildcard(lib, p, s) <==> Fits(lib, p, s) {
      WildcardFits(lib, p, s);
    }
    if r.field == "user" {
      assert StarFree(c) ==> '*' !in c.domain + "\\" + c.user;
    } else if r.field == "ou" {
      ContainsIff(lib.unicode.Lower(c.ou), lib.unicode.Lower(p));
    } else if r.field == "group" {
      forall i | 0 <= i < |c.groups|
        ensures GroupNameMatches(lib, p, c.groups[i]) <==> Fits(lib, p, c.groups[i]) || Fits(lib, p, ShortName(c.groups[i]))
      {
        ShortStarFree(c.groups[i]);
      }
      hide GroupNameMatches;
    }
  }

  lemma WildcardFits(lib: Library, p: string, s: string)
    requires lib.unicode.Valid() && ('*' !in p || '*' !in s)
    ensures Wildcard(lib, p, s) <==> Fits(lib, p, s)
  {
    WildcardMeaning(lib, p, s);
  }

  lemma ShortStarFree(g: string)
    ensures '*' !in g ==> '*' !in ShortName(g)
  {
    var r := ShortName(g);
    if r != g {
      assert forall i :: 0 <= i < |r| ==> r[i] == g[|g| - |r| + i];
    }
  }

  predicate RulesMatch(lib: Library, rules: seq<Rule>, c: ClientInfo) {
    exists i :: 0 <= i < |rules| && RuleMatches(lib, rules[i], c)
  }

  method WildcardMatch(lib: Library, p: string, s: string) returns (matched: bool)
    ensures matched == Wildcard(lib, p, s)
  {
    matched := Glob.WildcardMatch(lib.unicode.Lower(p), lib.unicode.Lower(s));
  }

  method MatchGroups(lib: Library, p: string, groups: seq<string>) returns (matched: bool)
    ensures matched <==> exists i :: 0 <= i < |groups| && GroupNameMatches(lib, p, groups[i])
  {
    hide Wildcard, ShortName;
    for i := 0 to |groups|
      invariant forall j :: 0 <= j < i ==> !GroupNameMatches(lib, p, groups[j])
    {
      var whole := WildcardMatch(lib, p, groups[i]);
      var short := WildcardMatch(lib, p, ShortName(groups[i]));
      if whole || short {
        assert GroupNameMatches(lib, p, groups[i]);
        return true;
      }
    }
    return false;
  }

  method MatchRule(lib: Library, r: Rule, c: ClientInfo) returns (matched: bool)
    ensures matched == RuleMatches(lib, r, c)
  {
    hide Wildcard, HasWildcard, Contains, GroupNameMatches, Unicode.Trim, Unicode.Lower;
    var p := lib.unicode.Trim(r.pattern);
    if p == "" {
      return false;
    }
    match r.field {
      case "hostname" =>
        matched := WildcardMatch(lib, p, c.hostname);
      case "user" =>
        matched := WildcardMatch(lib, p, c.user);
        if !matched {
          matched := WildcardMatch(lib, p, c.domain + "\\" + c.user);
        }
      case "ou" =>
        if HasWildcard(p) {
          matched := WildcardMatch(lib, p, c.ou);
        } else {
          matched := Contains(lib.unicode.Lower(c.ou), lib.unicode.Lower(p));
        }
      case "group" =>
        matched := MatchGroups(lib, p, c.groups);
      case "ip" =>
        if lib.isRange(p) {
          matched := lib.rangeHolds(p, c.ip);
        } else {
          matched := WildcardMatch(lib, p, c.ip);
        }
      case _ =>
        matched := false;
    }
  }

  method MatchRules(lib: Library, rules: seq<Rule>, c: ClientInfo) returns (matched: bool)
    ensures matched == RulesMatch(lib, rules, c)
  {
    hide RuleMatches;
    for i := 0 to |rules|
      invariant forall j :: 0 <= j < i ==> !RuleMatches(lib, rules[j], c)
    {
      var hit := MatchRule(lib, rules[i], c);
      if hit {
        return true;
      }
    }
    return false;
  }

  // ---- saved groups and flattening ----

  /** The position of the first group called `id`, or -1. */
  function GroupIndex(groups: seq<Group>, id: string): (i: int)
    ensures -1 <= i < |groups|
    ensures i >= 0 ==> groups[i].id == id
    ensures i < 0 ==> forall j :: 0 <= j < |groups| ==> groups[j].id != id
  {
    if groups == [] then -1
    else if groups[0].id == id then 0
    else
      var i := GroupIndex(groups[1..], id);
      if i < 0 then -1 else i + 1
  }

  function GroupByID(groups: seq<Group>, id: string): (r: Option<Group>)
    ensures r.Some? ==> r.value in groups && r.value.id == id
    ensures r.None? <==> forall g :: g in groups ==> g.id != id
  {
    var i := GroupIndex(groups, id);
    if i < 0 then None else Some(groups[i])
  }

  function GroupRules(groups: seq<Group>, ids: seq<string>): seq<Rule> {
    if ids == [] then []
    else
      var n := |ids| - 1;
      GroupRules(groups, ids[..n])
      + match GroupByID(groups, ids[n]) case Some(g) => g.rules case None => []
  }

  function Flatten(groups: seq<Group>, t: Target): seq<Rule> {
    if t.all then [] else GroupRules(groups, t.groupIDs) + t.rules
  }

  method FlattenTarget(groups: seq<Group>, t: Target) returns (rules: seq<Rule>)
    ensures rules == Flatten(groups, t)
  {
    rules := [];
    if t.all {
      return;
    }
    for i := 0 to |t.groupIDs|
      invariant rules == GroupRules(groups, t.groupIDs[..i])
    {
      assert t.groupIDs[..i + 1][..i] == t.groupIDs[..i];
      var g := GroupByID(groups, t.groupIDs[i]);
      if g.Some? {
        rules := rules + g.value.rules;
      }
    }
    assert t.groupIDs[..|t.groupIDs|] == t.groupIDs;
    ghost var fromGroups := rules;
    for i := 0 to |t.rules|
      invariant rules == fromGroups + t.rules[..i]
    {
      rules := rules + [t.rules[i]];
    }
    assert t.rules[..|t.rules|] == t.rules;
  }

  /** Rules keep the order of the groups chosen. */
  lemma {:induction false} GroupRulesConcat(groups: seq<Group>, a: seq<string>, b: seq<string>)
    ensures GroupRules(groups, a + b) == GroupRules(groups, a) + GroupRules(groups, b)
    decreases |b|
  {
    hide GroupByID;
    if b == [] {
      assert a + b == a;
    } else {
      assert (a + b)[..|a + b| - 1] == a + b[..|b| - 1];
      GroupRulesConcat(groups, a, b[..|b| - 1]);
    }
  }

  /** An alert with target `t` and flattened `rules` is meant for `c`. */
  predicate AlertMatches(lib: Library, t: Target, rules: seq<Rule>, c: ClientInfo) {
    t.all || RulesMatch(lib, rules, c)
  }

  /** A chosen group still exists and one of its rules matches `c`. */
  ghost predicate ChosenGroupMatches(lib: Library, groups: seq<Group>, id: string, c: ClientInfo) {
    var g := GroupByID(groups, id);
    g.Some? && RulesMatch(lib, g.value.rules, c)
  }

  lemma RulesMatchConcat(lib: Library, a: seq<Rule>, b: seq<Rule>, c: ClientInfo)
    ensures RulesMatch(lib, a + b, c) <==> RulesMatch(lib, a, c) || RulesMatch(lib, b, c)
  {
    hide RuleMatches;
    if RulesMatch(lib, a, c) {
      var i :| 0 <= i < |a| && RuleMatches(lib, a[i], c);
      assert (a + b)[i] == a[i];
    }
    if RulesMatch(lib, b, c) {
      var i :| 0 <= i < |b| && RuleMatches(lib, b[i], c);
      assert (a + b)[|a| + i] == b[i];
    }
  }

  lemma {:induction false} GroupRulesMeaning(lib: Library, groups: seq<Group>, ids: seq<string>, c: ClientInfo)
    ensures RulesMatch(lib, GroupRules(groups, ids), c)
       <==> exists id :: id in ids && ChosenGroupMatches(lib, groups, id, c)
  {
    hide RuleMatches;
    if ids != [] {
      var n := |ids| - 1;
      GroupRulesMeaning(lib, groups, ids[..n], c);
      assert ids == ids[..n] + [ids[n]];
      var own := match GroupByID(groups, ids[n]) case Some(g) => g.rules case None => [];
      RulesMatchConcat(lib, GroupRules(groups, ids[..n]), own, c);
      assert ChosenGroupMatches(lib, groups, ids[n], c) <==> RulesMatch(lib, own, c);
      assert ids[n] in ids;
      if RulesMatch(lib, GroupRules(groups, ids), c) && !ChosenGroupMatches(lib, groups, ids[n], c) {
        var id :| id in ids[..n] && ChosenGroupMatches(lib, groups, id, c);
        assert id in ids;
      }
    }
  }

  /** Flattening keeps the meaning of a target: everyone, or the rules of some
      chosen group that still exists, or some explicit rule. */
  lemma FlattenMeaning(lib: Library, groups: seq<Group>, t: Target, c: ClientInfo)
    ensures AlertMatches(lib, t, Flatten(groups, t), c)
       <==> || t.all
            || (exists id :: id in t.groupIDs && ChosenGroupMatches(lib, groups, id, c))
            || (exists r :: r in t.rules && RuleMatches(lib, r, c))
  {
    hide RuleMatches;
    GroupRulesMeaning(lib, groups, t.groupIDs, c);
    RulesMatchConcat(lib, GroupRules(groups, t.groupIDs), t.rules, c);
    assert RulesMatch(lib, t.rules, c) <==> exists r :: r in t.rules && RuleMatches(lib, r, c);
  }
}
