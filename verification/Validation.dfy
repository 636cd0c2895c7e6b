/** Tidying and checking what a person typed (server/match.go, server/api_admin.go). */
module Validation {
  import opened Text
  import opened Targets

  // ---- text ----

  function ReplaceCRLF(s: string): string {
    if s == "" then ""
    else if |s| >= 2 && s[0] == '\r' && s[1] == '\n' then "\n" + ReplaceCRLF(s[2..])
    else [s[0]] + ReplaceCRLF(s[1..])
  }

  predicate Keeps(u: Unicode, keepNewlines: bool, c: char) {
    (c == '\n' && keepNewlines) || !u.control(c)
  }

  function Strip(u: Unicode, keepNewlines: bool, s: string): string {
    if s == "" then ""
    else
      var n := |s| - 1;
      Strip(u, keepNewlines, s[..n]) + if Keeps(u, keepNewlines, s[n]) then [s[n]] else ""
  }

  function Cap(s: string, max: nat): string {
    if |s| > max then s[..max] else s
  }

  function CleanText(u: Unicode, s: string, max: nat, keepNewlines: bool): string {
    u.Trim(Cap(Strip(u, keepNewlines, ReplaceCRLF(s)), max))
  }

  // ---- what cleaning does ----

  const CRLF: string := ['\r', '\n']

  /** Line ends of two characters become one, wherever they stand. */
  lemma {:induction false} ReplaceMeaning(a: string, b: string)
    ensures ReplaceCRLF(a + CRLF + b) == ReplaceCRLF(a) + "\n" + ReplaceCRLF(b)
    decreases |a|
  {
    hide ReplaceCRLF;
    var s := a + CRLF + b;
    ReplaceAt(s);
    if a == "" {
      assert s[2..] == b;
      assert ReplaceCRLF("") == "" by { ReplaceNone(""); }
    } else if |a| >= 2 && a[0] == '\r' && a[1] == '\n' {
      assert s[2..] == a[2..] + CRLF + b;
      ReplaceAt(a);
      ReplaceMeaning(a[2..], b);
    } else {
      assert s[1..] == a[1..] + CRLF + b && s[0] == a[0];
      assert s[1] == if |a| >= 2 then a[1] else '\r';
      ReplaceAt(a);
      ReplaceMeaning(a[1..], b);
    }
  }

  /** One step of the replacement. */
  lemma ReplaceAt(s: string)
    requires s != ""
    ensures ReplaceCRLF(s) == if |s| >= 2 && s[0] == '\r' && s[1] == '\n' then "\n" + ReplaceCRLF(s[2..])
                              else [s[0]] + ReplaceCRLF(s[1..])
  {
  }

  /** Text without such line ends is left alone. */
  lemma {:induction false} ReplaceNone(s: string)
    requires forall i :: 0 <= i < |s| - 1 ==> !(s[i] == '\r' && s[i + 1] == '\n')
    ensures ReplaceCRLF(s) == s
  {
    if s != "" {
      ReplaceNone(s[1..]);
    }
  }

  /** What is left are the characters kept, each of them, in order, and nothing else. */
  lemma {:induction false} StripMeaning(u: Unicode, keepNewlines: bool, a: string, b: string)
    ensures Strip(u, keepNewlines, a + b) == Strip(u, keepNewlines, a) + Strip(u, keepNewlines, b)
    decreases |b|
  {
    hide Keeps;
    if b == "" {
      assert a + b == a;
    } else {
      var n := |b| - 1;
      assert (a + b)[..|a + b| - 1] == a + b[..n];
      StripMeaning(u, keepNewlines, a, b[..n]);
    }
  }

  lemma StripOne(u: Unicode, keepNewlines: bool, c: char)
    ensures Strip(u, keepNewlines, [c]) == if (c == '\n' && keepNewlines) || !u.control(c) then [c] else ""
  {
    assert [c][..0] == "";
  }

  /** The cleaned text is what is left of the first `max` kept characters once white
      space is taken off both ends. */
  lemma CleanMeaning(u: Unicode, s: string, max: nat, keepNewlines: bool) returns (before: string, after: string)
    ensures var kept := Strip(u, keepNewlines, ReplaceCRLF(s));
            && before + CleanText(u, s, max, keepNewlines) + after == kept[..if |kept| > max then max else |kept|]
            && u.AllSpace(before) && u.AllSpace(after)
  {
    var kept := Strip(u, keepNewlines, ReplaceCRLF(s));
    before, after := u.TrimMeaning(Cap(kept, max));
  }

  lemma {:induction false} StripPrefix(u: Unicode, keepNewlines: bool, s: string, i: nat)
    requires i <= |s|
    ensures Strip(u, keepNewlines, s[..i]) <= Strip(u, keepNewlines, s)
    decreases |s|
  {
    if i == |s| {
      assert s[..i] == s;
    } else {
      assert s[..|s| - 1][..i] == s[..i];
      StripPrefix(u, keepNewlines, s[..|s| - 1], i);
    }
  }

  method CleanTextOpt(u: Unicode, text: string, max: nat, keepNewlines: bool) returns (r: string)
    ensures r == CleanText(u, text, max, keepNewlines)
  {
    var s := ReplaceCRLF(text);
    var b, n, i := "", 0, 0;
    while i < |s|
      invariant 0 <= i <= |s| && n == |b| <= max
      invariant b == Strip(u, keepNewlines, s[..i])
    {
      assert s[..i + 1][..i] == s[..i];
      if Keeps(u, keepNewlines, s[i]) {
        if n >= max {
          StripPrefix(u, keepNewlines, s, i + 1);
          break;
        }
        b, n := b + [s[i]], n + 1;
      }
      i := i + 1;
    }
    assert i == |s| ==> s[..i] == s;
    assert b == Cap(Strip(u, keepNewlines, s), max);
    r := u.Trim(b);
  }

  /** Text that cleaning leaves alone. */
  predicate Clean(u: Unicode, s: string, max: nat, keepNewlines: bool) {
    && |s| <= max
    && u.Trimmed(s)
    && forall i :: 0 <= i < |s| ==> Keeps(u, keepNewlines, s[i])
  }

  lemma {:induction false} StripKeeps(u: Unicode, keepNewlines: bool, s: string)
    ensures forall c :: c in Strip(u, keepNewlines, s) ==> Keeps(u, keepNewlines, c)
  {
    if s != "" {
      StripKeeps(u, keepNewlines, s[..|s| - 1]);
    }
  }

  lemma {:induction false} StripOfKept(u: Unicode, keepNewlines: bool, s: string)
    requires forall i :: 0 <= i < |s| ==> Keeps(u, keepNewlines, s[i])
    ensures Strip(u, keepNewlines, s) == s
  {
    if s != "" {
      StripOfKept(u, keepNewlines, s[..|s| - 1]);
      assert s == s[..|s| - 1] + [s[|s| - 1]];
    }
  }

  lemma {:induction false} ReplaceNothing(s: string)
    requires '\r' !in s
    ensures ReplaceCRLF(s) == s
  {
    if s != "" {
      assert s[0] in s;
      ReplaceNothing(s[1..]);
    }
  }

  lemma CleanTextIsClean(u: Unicode, s: string, max: nat, keepNewlines: bool)
    ensures Clean(u, CleanText(u, s, max, keepNewlines), max, keepNewlines)
  {
    var kept := Strip(u, keepNewlines, ReplaceCRLF(s));
    StripKeeps(u, keepNewlines, ReplaceCRLF(s));
    var c := Cap(kept, max);
    assert forall i :: 0 <= i < |c| ==> c[i] == kept[i];
    u.TrimIsTrimmed(c);
    var r := u.Trim(c);
    forall i | 0 <= i < |r| ensures Keeps(u, keepNewlines, r[i]) {
      assert r[i] in c;
    }
  }

  lemma CleanTextOfClean(u: Unicode, s: string, max: nat, keepNewlines: bool)
    requires u.Valid() && Clean(u, s, max, keepNewlines)
    ensures CleanText(u, s, max, keepNewlines) == s
  {
    ReplaceNothing(s);
    StripOfKept(u, keepNewlines, s);
    u.TrimOfTrimmed(s);
  }

  /** Exactly the clean texts are left unchanged, and cleaning twice is
      cleaning once. */
  lemma CleanTextFixedIff(u: Unicode, s: string, max: nat, keepNewlines: bool)
    requires u.Valid()
    ensures CleanText(u, s, max, keepNewlines) == s <==> Clean(u, s, max, keepNewlines)
    ensures var once := CleanText(u, s, max, keepNewlines);
            CleanText(u, once, max, keepNewlines) == once
  {
    var once := CleanText(u, s, max, keepNewlines);
    CleanTextIsClean(u, s, max, keepNewlines);
    CleanTextOfClean(u, once, max, keepNewlines);
    if Clean(u, s, max, keepNewlines) {
      CleanTextOfClean(u, s, max, keepNewlines);
    }
  }

  // ---- rules ----

  predicate IsField(s: string) {
    s == "hostname" || s == "user" || s == "ou" || s == "group" || s == "ip"
  }

  function TidyRule(u: Unicode, r: Rule): Rule {
    Rule(u.Lower(u.Trim(r.field)), CleanText(u, r.pattern, 256, false))
  }

  predicate Usable(r: Rule) {
    IsField(r.field) && r.pattern != ""
  }

  function TidyRules(u: Unicode, rules: seq<Rule>): (out: seq<Rule>)
    ensures |out| <= |rules|
  {
    if rules == [] then []
    else
      var n := |rules| - 1;
      var r := TidyRule(u, rules[n]);
      TidyRules(u, rules[..n]) + if Usable(r) then [r] else []
  }

  method CleanRules(u: Unicode, rules: seq<Rule>) returns (out: seq<Rule>)
    ensures out == TidyRules(u, rules)
  {
    hide CleanText, Unicode.Trim, Unicode.Lower, TidyRules, Usable;
    assert TidyRules(u, rules[..0]) == [] by { TidyNothing(u); }
    out := [];
    for i := 0 to |rules|
      invariant out == TidyRules(u, rules[..i])
    {
      TidyRulesNext(u, rules[..i + 1]);
      assert rules[..i + 1][..i] == rules[..i];
      var pattern := CleanTextOpt(u, rules[i].pattern, 256, false);
      var r := Rule(u.Lower(u.Trim(rules[i].field)), pattern);
      if Usable(r) {
        out := out + [r];
      }
    }
    assert rules[..|rules|] == rules;
  }

  /** A rule is kept, tidied, exactly when its field is known and its cleaned pattern is
      not empty. */
  lemma {:induction false} TidyRulesMeaning(u: Unicode, rules: seq<Rule>, r: Rule)
    ensures r in TidyRules(u, rules) <==>
              && r.field in {"hostname", "user", "ou", "group", "ip"} && r.pattern != ""
              && exists raw :: raw in rules && r.field == u.Lower(u.Trim(raw.field))
                               && r.pattern == CleanText(u, raw.pattern, 256, false)
  {
    hide CleanText, Unicode.Trim, Unicode.Lower;
    if rules != [] {
      var n := |rules| - 1;
      TidyRulesMeaning(u, rules[..n], r);
      assert forall raw :: raw in rules <==> raw in rules[..n] || raw == rules[n];
      hide TidyRules, IsField;
      TidyRulesNext(u, rules);
      assert Usable(r) <==> r.field in {"hostname", "user", "ou", "group", "ip"} && r.pattern != "" by { FieldIff(r); }
    }
  }

  lemma TidyNothing(u: Unicode)
    ensures TidyRules(u, []) == []
  {
  }

  lemma TidyRulesNext(u: Unicode, rules: seq<Rule>)
    requires rules != []
    ensures var n := |rules| - 1;
            TidyRules(u, rules) == TidyRules(u, rules[..n]) + if Usable(TidyRule(u, rules[n])) then [TidyRule(u, rules[n])] else []
  {
    hide CleanText, Unicode.Trim, Unicode.Lower;
  }

  lemma FieldIff(r: Rule)
    ensures IsField(r.field) <==> r.field in {"hostname", "user", "ou", "group", "ip"}
  {
  }

  /** Rules keep their order. */
  lemma {:induction false} TidyRulesConcat(u: Unicode, a: seq<Rule>, b: seq<Rule>)
    ensures TidyRules(u, a + b) == TidyRules(u, a) + TidyRules(u, b)
    decreases |b|
  {
    hide CleanText, Unicode.Trim, Unicode.Lower;
    if b == [] {
      assert a + b == a;
    } else {
      assert (a + b)[..|a + b| - 1] == a + b[..|b| - 1];
      TidyRulesConcat(u, a, b[..|b| - 1]);
    }
  }

  predicate TidyAndUsable(u: Unicode, r: Rule) {
    Usable(r) && Clean(u, r.pattern, 256, false)
  }

  lemma {:induction false} TidyRulesAreTidy(u: Unicode, rules: seq<Rule>)
    ensures forall r :: r in TidyRules(u, rules) ==> TidyAndUsable(u, r)
  {
    if rules != [] {
      TidyRulesAreTidy(u, rules[..|rules| - 1]);
      CleanTextIsClean(u, rules[|rules| - 1].pattern, 256, false);
    }
  }

  lemma TidyRuleOfTidy(u: Unicode, r: Rule)
    requires u.Valid() && TidyAndUsable(u, r)
    ensures TidyRule(u, r) == r
  {
    var f := r.field;
    assert forall i :: 0 <= i < |f| ==> 'a' <= f[i] <= 'z';
    u.TrimOfTrimmed(f);
    assert u.Lower(f) == f;
    CleanTextOfClean(u, r.pattern, 256, false);
  }

  lemma {:induction false} TidyRulesOfTidy(u: Unicode, rules: seq<Rule>)
    requires u.Valid() && forall r :: r in rules ==> TidyAndUsable(u, r)
    ensures TidyRules(u, rules) == rules
  {
    if rules != [] {
      var n := |rules| - 1;
      assert rules == rules[..n] + [rules[n]];
      TidyRuleOfTidy(u, rules[n]);
      TidyRulesOfTidy(u, rules[..n]);
    }
  }

  // ---- alerts ----

  datatype AlertSpec = AlertSpec(
    title: string, message: string, level: string, display: string,
    requireAck: bool, displaySeconds: int, sound: bool, link: string,
    expiresMinutes: int, target: Target)

  /** What the person is asked to fix. */
  datatype Problem = NoTitle | BadLevel | BadDisplay | BadAutoClose | BadExpiry | BadLink | NoTarget

  datatype Validated = Valid(spec: AlertSpec) | Invalid(problem: Problem)

  predicate IsLevel(s: string) {
    s == "info" || s == "warning" || s == "critical"
  }

  predicate IsDisplay(s: string) {
    s == "corner" || s == "center" || s == "fullscreen"
  }

  function Level(s: string): string {
    if s == "" then "info" else s
  }

  function Display(s: string): string {
    if s == "" then "corner" else s
  }

  /** The normal form `ValidateSpec` promises to those who store and send alerts. */
  predicate Normal(lib: Library, s: AlertSpec) {
    && s.title != "" && Clean(lib.unicode, s.title, 120, false)
    && Clean(lib.unicode, s.message, 2000, true)
    && IsLevel(s.level) && IsDisplay(s.display)
    && 0 <= s.displaySeconds <= 86400
    && (s.requireAck ==> s.displaySeconds == 0)
    && 1 <= s.expiresMinutes <= 10080
    && lib.unicode.Trimmed(s.link) && (s.link != "" ==> lib.linkOK(s.link))
    && (forall r :: r in s.target.rules ==> TidyAndUsable(lib.unicode, r))
    && (s.target.all <==> s.target.groupIDs == [] && s.target.rules == [])
  }

  method ValidateSpec(lib: Library, raw: AlertSpec) returns (r: Validated)
    ensures r == Validate(lib, raw)
  {
    hide IsLevel, IsDisplay, CleanText, TidyRules, Unicode.Trim, Level, Display;
    var title := CleanTextOpt(lib.unicode, raw.title, 120, false);
    var message := CleanTextOpt(lib.unicode, raw.message, 2000, true);
    var link := lib.unicode.Trim(raw.link);
    if title == "" {
      return Invalid(NoTitle);
    }
    var level := Level(raw.level);
    if !IsLevel(level) {
      return Invalid(BadLevel);
    }
    var display := Display(raw.display);
    if !IsDisplay(display) {
      return Invalid(BadDisplay);
    }
    var displaySeconds, expiresMinutes := raw.displaySeconds, raw.expiresMinutes;
    if displaySeconds < 0 || displaySeconds > 86400 {
      return Invalid(BadAutoClose);
    }
    if raw.requireAck {
      displaySeconds := 0;
    }
    if expiresMinutes == 0 {
      expiresMinutes := 10;
    }
    if expiresMinutes < 1 || expiresMinutes > 7 * 24 * 60 {
      return Invalid(BadExpiry);
    }
    if link != "" && !lib.linkOK(link) {
      return Invalid(BadLink);
    }
    var groupIDs := raw.target.groupIDs;
    var rules := CleanRules(lib.unicode, raw.target.rules);
    if !raw.target.all && |groupIDs| == 0 && |rules| == 0 {
      return Invalid(NoTarget);
    }
    if raw.target.all {
      groupIDs, rules := [], [];
    }
    return Valid(AlertSpec(title, message, level, display, raw.requireAck, displaySeconds,
                           raw.sound, link, expiresMinutes, Target(raw.target.all, groupIDs, rules)));
  }

  function Defaulted(lib: Library, s: AlertSpec): AlertSpec {
    s.(title := CleanText(lib.unicode, s.title, 120, false),
       message := CleanText(lib.unicode, s.message, 2000, true),
       link := lib.unicode.Trim(s.link),
       level := Level(s.level),
       display := Display(s.display),
       displaySeconds := if s.requireAck then 0 else s.displaySeconds,
       expiresMinutes := if s.expiresMinutes == 0 then 10 else s.expiresMinutes,
       target := if s.target.all then Target(true, [], [])
                 else s.target.(rules := TidyRules(lib.unicode, s.target.rules)))
  }

  function Validate(lib: Library, raw: AlertSpec): Validated {
    var s := Defaulted(lib, raw);
    if s.title == "" then Invalid(NoTitle)
    else if !IsLevel(s.level) then Invalid(BadLevel)
    else if !IsDisplay(s.display) then Invalid(BadDisplay)
    else if !(0 <= raw.displaySeconds <= 86400) then Invalid(BadAutoClose)
    else if !(1 <= s.expiresMinutes <= 10080) then Invalid(BadExpiry)
    else if s.link != "" && !lib.linkOK(s.link) then Invalid(BadLink)
    else if !s.target.all && s.target.groupIDs == [] && s.target.rules == [] then
      Invalid(NoTarget)
    else Valid(s)
  }

  /** What is stored is what was asked for: the texts cleaned, empty choices filled in,
      an alert that must be acknowledged not closing itself, and "all" alone. */
  lemma AcceptedMeans(lib: Library, raw: AlertSpec)
    ensures var v := Validate(lib, raw);
            v.Valid? ==>
              var s := v.spec;
              && s.title == CleanText(lib.unicode, raw.title, 120, false)
              && s.message == CleanText(lib.unicode, raw.message, 2000, true)
              && s.link == lib.unicode.Trim(raw.link)
              && (raw.level in {"info", "warning", "critical"} ==> s.level == raw.level) && (raw.level == "" ==> s.level == "info")
              && (raw.display in {"corner", "center", "fullscreen"} ==> s.display == raw.display)
              && (raw.display == "" ==> s.display == "corner")
              && s.requireAck == raw.requireAck && s.sound == raw.sound
              && s.displaySeconds == (if raw.requireAck then 0 else raw.displaySeconds)
              && (raw.expiresMinutes != 0 ==> s.expiresMinutes == raw.expiresMinutes)
              && (raw.expiresMinutes == 0 ==> s.expiresMinutes == 10)
              && s.target.all == raw.target.all
              && (!raw.target.all ==> s.target.groupIDs == raw.target.groupIDs
                                      && s.target.rules == TidyRules(lib.unicode, raw.target.rules))
  {
    hide CleanText, TidyRules, Unicode.Trim, IsLevel, IsDisplay;
  }

  /** Exactly when an alert is accepted. */
  lemma AcceptedIff(lib: Library, raw: AlertSpec)
    ensures Validate(lib, raw).Valid? <==>
              && CleanText(lib.unicode, raw.title, 120, false) != ""
              && raw.level in {"", "info", "warning", "critical"}
              && raw.display in {"", "corner", "center", "fullscreen"}
              && 0 <= raw.displaySeconds <= 86400
              && 0 <= raw.expiresMinutes <= 7 * 24 * 60
              && (lib.unicode.Trim(raw.link) != "" ==> lib.linkOK(lib.unicode.Trim(raw.link)))
              && (raw.target.all || raw.target.groupIDs != [] || TidyRules(lib.unicode, raw.target.rules) != [])
  {
    hide CleanText, TidyRules, Unicode.Trim;
  }

  /** Which problem is reported: the first there is, in this order. */
  lemma ProblemIs(lib: Library, raw: AlertSpec)
    ensures var v := Validate(lib, raw);
            var titled := CleanText(lib.unicode, raw.title, 120, false) != "";
            var levelled := raw.level in {"", "info", "warning", "critical"};
            var displayed := raw.display in {"", "corner", "center", "fullscreen"};
            var closes := 0 <= raw.displaySeconds <= 86400;
            var lasts := 0 <= raw.expiresMinutes <= 7 * 24 * 60;
            var link := lib.unicode.Trim(raw.link);
            v.Invalid? ==>
              v.problem == if !titled then NoTitle
                           else if !levelled then BadLevel
                           else if !displayed then BadDisplay
                           else if !closes then BadAutoClose
                           else if !lasts then BadExpiry
                           else if link != "" && !lib.linkOK(link) then BadLink
                           else NoTarget
  {
    hide CleanText, TidyRules, Unicode.Trim;
  }

  /** What is accepted is in normal form. */
  lemma ValidatedIsNormal(lib: Library, raw: AlertSpec)
    ensures var v := Validate(lib, raw); v.Valid? ==> Normal(lib, v.spec)
  {
    hide IsLevel, IsDisplay, CleanText, TidyRules, Clean, Unicode.Trimmed, Unicode.Trim;
    CleanTextIsClean(lib.unicode, raw.title, 120, false);
    CleanTextIsClean(lib.unicode, raw.message, 2000, true);
    lib.unicode.TrimIsTrimmed(raw.link);
    TidyRulesAreTidy(lib.unicode, raw.target.rules);
  }

  lemma NamesKept(level: string, display: string)
    requires IsLevel(level) && IsDisplay(display)
    ensures Level(level) == level && Display(display) == display
  {
  }

  lemma DefaultedOfNormal(lib: Library, s: AlertSpec)
    requires lib.unicode.Valid() && Normal(lib, s)
    ensures Defaulted(lib, s) == s
  {
    hide IsLevel, IsDisplay, Level, Display, CleanText, TidyRules, Clean, TidyAndUsable, Unicode.Trimmed, Unicode.Trim, Unicode.Valid;
    NamesKept(s.level, s.display);
    CleanTextOfClean(lib.unicode, s.title, 120, false);
    CleanTextOfClean(lib.unicode, s.message, 2000, true);
    lib.unicode.TrimOfTrimmed(s.link);
    TidyRulesOfTidy(lib.unicode, s.target.rules);
  }

  lemma NormalIsAccepted(lib: Library, s: AlertSpec)
    requires lib.unicode.Valid() && Normal(lib, s)
    ensures Validate(lib, s) == Valid(s)
  {
    hide IsLevel, IsDisplay, Defaulted, Clean, TidyAndUsable, Unicode.Trimmed, Unicode.Valid;
    DefaultedOfNormal(lib, s);
  }

  /** Accepted and left unchanged exactly when already in normal form; so a spec
      that was accepted once is accepted again, unchanged. */
  lemma AcceptedUnchangedIff(lib: Library, s: AlertSpec)
    requires lib.unicode.Valid()
    ensures Validate(lib, s) == Valid(s) <==> Normal(lib, s)
    ensures var v := Validate(lib, s); v.Valid? ==> Validate(lib, v.spec) == v
  {
    var v := Validate(lib, s);
    ValidatedIsNormal(lib, s);
    if v.Valid? { NormalIsAccepted(lib, v.spec); }
    if Normal(lib, s) { NormalIsAccepted(lib, s); }
  }
}
