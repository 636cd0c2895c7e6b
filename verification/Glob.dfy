/** The glob matcher of server/match.go: a two-pointer loop that remembers only
    the last star it passed. */
module Glob {
  import opened Text

  /** The documented meaning: `*` stands for any run, `?` for any one character. */
  predicate Matches(p: string, t: string)
    decreases |p|, |t|
  {
    if p == "" then t == ""
    else if p[0] == '*' then Matches(p[1..], t) || (t != "" && Matches(p, t[1..]))
    else t != "" && (p[0] == '?' || p[0] == t[0]) && Matches(p[1..], t[1..])
  }

  predicate AllStars(p: string) {
    forall i :: 0 <= i < |p| ==> p[i] == '*'
  }

  /** The meaning the code gives a pattern. It differs from `Matches` in one
      place: where the subject itself holds a star, a pattern star is taken as
      that literal character and never as a run. */
  predicate Accepts(p: string, t: string)
    decreases |p|, |t|, 0
  {
    if t == "" then AllStars(p)
    else if p != "" && (p[0] == '?' || p[0] == t[0]) then Accepts(p[1..], t[1..])
    else p != "" && p[0] == '*' && AcceptsSuffix(p[1..], t)
  }

  /** Some suffix of `t` is accepted by `q`. */
  predicate AcceptsSuffix(q: string, t: string)
    decreases |q|, |t|, 1
  {
    Accepts(q, t) || (t != "" && AcceptsSuffix(q, t[1..]))
  }

  /** `x` was consumed by `w` one character for one character. */
  predicate Aligned(x: string, w: string) {
    |x| == |w| && forall i :: 0 <= i < |x| ==> x[i] == '?' || x[i] == w[i]
  }

  lemma {:induction false} SuffixExists(q: string, t: string) returns (k: nat)
    requires AcceptsSuffix(q, t)
    ensures k <= |t| && Accepts(q, t[k..])
    decreases |t|
  {
    if Accepts(q, t) {
      k := 0;
      assert t[0..] == t;
    } else {
      var j := SuffixExists(q, t[1..]);
      k := j + 1;
      assert t[1..][j..] == t[k..];
    }
  }

  lemma {:induction false} SuffixIntro(q: string, t: string, k: nat)
    requires k <= |t| && Accepts(q, t[k..])
    ensures AcceptsSuffix(q, t)
    decreases k
  {
    if k == 0 {
      assert t[0..] == t;
    } else {
      assert t[1..][k - 1..] == t[k..];
      SuffixIntro(q, t[1..], k - 1);
    }
  }

  lemma AlignedTail(x: string, t: string, m: nat)
    requires x != "" && m + |x| <= |t| && Aligned(x, t[m..m + |x|])
    ensures Aligned(x[1..], t[m + 1..m + |x|])
    ensures x[0] == '?' || x[0] == t[m]
  {
    assert t[m + 1..m + |x|] == t[m..m + |x|][1..];
    assert t[m..m + |x|][0] == t[m];
  }

  /** Once the subject is used up, only stars are left of the pattern. */
  lemma StarsAtTheEnd(x: string, y: string, t: string, n: nat)
    requires n <= |t| && AllStars(x + y)
    ensures AcceptsSuffix(y, t[n..])
  {
    assert forall i :: 0 <= i < |y| ==> y[i] == (x + y)[|x| + i];
    assert t[n..][|t| - n..] == "";
    SuffixIntro(y, t[n..], |t| - n);
  }

  /** One step of the matcher from `t[k..]`: it goes on at some `l`, which is the
      next place if the head of the pattern fits. */
  lemma AcceptsStep(x: string, y: string, t: string, k: nat) returns (l: nat)
    requires x != "" && k < |t| && Accepts(x + y, t[k..])
    ensures k <= l <= |t| && Accepts(x[1..] + y, t[l..])
    ensures x[0] == '?' || x[0] == t[k] ==> l == k + 1
  {
    assert (x + y)[1..] == x[1..] + y;
    if x[0] == '?' || x[0] == t[k] {
      l := k + 1;
      assert t[k..][1..] == t[l..];
    } else {
      var j := SuffixExists(x[1..] + y, t[k..]);
      l := k + j;
      assert t[k..][j..] == t[l..];
    }
  }

  /** Why the last star is enough. If the text between two stars was consumed
      one for one from position `m`, then anything an earlier choice `k >= m` of
      the first star could still accept is accepted from the second star too. */
  lemma {:induction false} LastStarSuffices(x: string, y: string, t: string, m: nat, k: nat)
    requires m + |x| <= |t| && m <= k <= |t|
    requires Aligned(x, t[m..m + |x|])
    requires Accepts(x + y, t[k..])
    ensures AcceptsSuffix(y, t[m + |x|..])
    decreases |x|
  {
    hide Aligned, AllStars, AcceptsSuffix;
    var n := m + |x|;
    if x == "" {
      assert x + y == y && t[n..][k - m..] == t[k..];
      SuffixIntro(y, t[n..], k - m);
    } else if k == |t| {
      assert t[k..] == "";
      StarsAtTheEnd(x, y, t, n);
    } else {
      hide Accepts;
      AlignedTail(x, t, m);
      var l := AcceptsStep(x, y, t, k);
      LastStarSuffices(x[1..], y, t, m + 1, l);
    }
  }

  /** The state of the loop still decides the question asked at the start. */
  ghost predicate Decides(p: string, t: string, pi: nat, ti: nat, star: int, mark: nat)
    requires pi <= |p| && ti <= |t|
  {
    if star < 0 then
      Accepts(p, t) == Accepts(p[pi..], t[ti..])
    else
      && star < pi && mark <= ti && ti - mark == pi - star - 1
      && Aligned(p[star + 1..pi], t[mark..ti])
      && Accepts(p, t) == (Accepts(p[pi..], t[ti..])
                           || (mark < |t| && AcceptsSuffix(p[star + 1..], t[mark + 1..])))
  }

  /** An untried choice of the last star is covered by the current position. */
  lemma OlderChoiceCovered(p: string, t: string, pi: nat, ti: nat, star: nat, mark: nat)
    requires star < pi <= |p| && mark <= ti <= |t| && mark < |t| && ti - mark == pi - star - 1
    requires Aligned(p[star + 1..pi], t[mark..ti])
    requires AcceptsSuffix(p[star + 1..], t[mark + 1..])
    ensures AcceptsSuffix(p[pi..], t[ti..])
  {
    var x, y := p[star + 1..pi], p[pi..];
    assert p[star + 1..] == x + y;
    var j := SuffixExists(x + y, t[mark + 1..]);
    assert t[mark + 1..][j..] == t[mark + 1 + j..];
    LastStarSuffices(x, y, t, mark, mark + 1 + j);
  }

  lemma DecidesLiteral(p: string, t: string, pi: nat, ti: nat, star: int, mark: nat)
    requires pi < |p| && ti < |t| && Decides(p, t, pi, ti, star, mark)
    requires p[pi] == '?' || p[pi] == t[ti]
    ensures Decides(p, t, pi + 1, ti + 1, star, mark)
  {
    assert p[pi..][1..] == p[pi + 1..] && t[ti..][1..] == t[ti + 1..];
    if star >= 0 {
      assert p[star + 1..pi + 1] == p[star + 1..pi] + [p[pi]];
      assert t[mark..ti + 1] == t[mark..ti] + [t[ti]];
    }
  }

  lemma DecidesStar(p: string, t: string, pi: nat, ti: nat, star: int, mark: nat)
    requires pi < |p| && ti < |t| && Decides(p, t, pi, ti, star, mark)
    requires p[pi] == '*' && p[pi] != t[ti]
    ensures Decides(p, t, pi + 1, ti, pi, ti)
  {
    var q := p[pi + 1..];
    assert p[pi..][1..] == q && t[ti..][1..] == t[ti + 1..];
    assert Accepts(p[pi..], t[ti..]) == AcceptsSuffix(q, t[ti..]);
    if star >= 0 && mark < |t| && AcceptsSuffix(p[star + 1..], t[mark + 1..]) {
      OlderChoiceCovered(p, t, pi, ti, star, mark);
      var j := SuffixExists(p[pi..], t[ti..]);
      assert t[ti..][j..] == t[ti + j..];
      StarExtends(p[pi..], t[ti..], j);
    }
  }

  /** A pattern that starts with a star and accepts a suffix of `t` accepts `t`. */
  lemma StarExtends(p: string, t: string, j: nat)
    requires t != "" && p != "" && p[0] == '*' && t[0] != '*' && j <= |t|
    requires Accepts(p, t[j..])
    ensures Accepts(p, t)
  {
    var u := t[j..];
    var i := 0;
    if u == "" {
    } else if u[0] == '*' {
      i := 1;
    } else {
      i := SuffixExists(p[1..], u);
    }
    assert u[i..] == t[j + i..];
    SuffixIntro(p[1..], t, j + i);
  }

  lemma DecidesBacktrack(p: string, t: string, pi: nat, ti: nat, star: int, mark: nat)
    requires pi <= |p| && ti < |t| && star >= 0 && Decides(p, t, pi, ti, star, mark)
    requires !(pi < |p| && (p[pi] == '?' || p[pi] == t[ti] || p[pi] == '*'))
    ensures Decides(p, t, star + 1, mark + 1, star, mark + 1)
  {
    assert !Accepts(p[pi..], t[ti..]);
    assert p[star + 1..star + 1] == "" == t[mark + 1..mark + 1];
    if mark + 1 < |t| {
      assert t[mark + 1..][1..] == t[mark + 2..];
    }
  }

  lemma DecidesEnd(p: string, t: string, pi: nat, star: int, mark: nat)
    requires pi <= |p| && Decides(p, t, pi, |t|, star, mark)
    ensures Accepts(p, t) == AllStars(p[pi..])
  {
    if star >= 0 && mark < |t| && AcceptsSuffix(p[star + 1..], t[mark + 1..]) {
      OlderChoiceCovered(p, t, pi, |t|, star, mark);
    }
  }

  lemma DecidesStart(p: string, t: string)
    ensures Decides(p, t, 0, 0, -1, 0)
  {
    assert p[0..] == p && t[0..] == t;
  }

  /** With no star to fall back on and no way on, nothing matches. */
  lemma DecidesFailure(p: string, t: string, pi: nat, ti: nat, star: int, mark: nat)
    requires pi <= |p| && ti < |t| && star < 0 && Decides(p, t, pi, ti, star, mark)
    requires !(pi < |p| && (p[pi] == '?' || p[pi] == t[ti] || p[pi] == '*'))
    ensures !Accepts(p, t)
  {
    hide AcceptsSuffix;
    assert pi < |p| ==> p[pi..][0] == p[pi];
    assert t[ti..][0] == t[ti];
  }

  lemma StarsUpTo(p: string, rest: nat, pi: nat)
    requires rest <= pi <= |p| && (forall i :: rest <= i < pi ==> p[i] == '*') && (pi < |p| ==> p[pi] != '*')
    ensures AllStars(p[rest..]) <==> pi == |p|
  {
    assert pi < |p| ==> p[rest..][pi - rest] != '*';
  }

  /** The loop of `wildcardMatch`, after both sides were lower-cased. */
  method WildcardMatch(p: string, t: string) returns (matched: bool)
    ensures matched == Accepts(p, t)
  {
    hide Accepts, AcceptsSuffix, AllStars, Aligned, Decides;
    DecidesStart(p, t);
    var pi, ti := 0, 0;
    var star, mark := -1, 0;
    while ti < |t|
      invariant 0 <= pi <= |p| && 0 <= mark <= ti <= |t| && -1 <= star < |p|
      invariant Decides(p, t, pi, ti, star, mark)
      decreases |t| - mark, |p| - pi
    {
      if pi < |p| && (p[pi] == '?' || p[pi] == t[ti]) {
        DecidesLiteral(p, t, pi, ti, star, mark);
        pi, ti := pi + 1, ti + 1;
      } else if pi < |p| && p[pi] == '*' {
        DecidesStar(p, t, pi, ti, star, mark);
        star, mark := pi, ti;
        pi := pi + 1;
      } else if star >= 0 {
        DecidesBacktrack(p, t, pi, ti, star, mark);
        pi := star + 1;
        mark := mark + 1;
        ti := mark;
      } else {
        DecidesFailure(p, t, pi, ti, star, mark);
        return false;
      }
    }
    DecidesEnd(p, t, pi, star, mark);
    ghost var rest := pi;
    while pi < |p| && p[pi] == '*'
      invariant rest <= pi <= |p|
      invariant forall i :: rest <= i < pi ==> p[i] == '*'
    {
      pi := pi + 1;
    }
    StarsUpTo(p, rest, pi);
    return pi == |p|;
  }

  // ---- agreement with the documented meaning ----

  lemma {:induction false} StarsMatchAnything(p: string)
    requires AllStars(p)
    ensures Matches(p, "")
  {
    if p != "" {
      StarsMatchAnything(p[1..]);
    }
  }

  lemma {:induction false} MatchesSuffix(p: string, t: string, k: nat)
    requires p != "" && p[0] == '*' && k <= |t| && Matches(p[1..], t[k..])
    ensures Matches(p, t)
    decreases k
  {
    if k == 0 {
      assert t[0..] == t;
    } else {
      assert t[1..][k - 1..] == t[k..];
      MatchesSuffix(p, t[1..], k - 1);
    }
  }

  /** A true answer is right on every input. */
  lemma {:induction false} Sound(p: string, t: string)
    requires Accepts(p, t)
    ensures Matches(p, t)
    decreases |p|
  {
    if t == "" {
      StarsMatchAnything(p);
    } else if p[0] == '?' || p[0] == t[0] {
      Sound(p[1..], t[1..]);
      if p[0] == '*' {
        MatchesSuffix(p, t, 1);
      }
    } else {
      var k := SuffixExists(p[1..], t);
      Sound(p[1..], t[k..]);
      MatchesSuffix(p, t, k);
    }
  }

  lemma {:induction false} EmptySubject(p: string)
    requires Matches(p, "")
    ensures AllStars(p)
  {
    if p != "" {
      EmptySubject(p[1..]);
    }
  }

  /** A match is found whenever the subject holds no star. */
  lemma {:induction false} CompleteWithoutStar(p: string, t: string)
    requires '*' !in t && Matches(p, t)
    ensures Accepts(p, t)
    decreases |p|, |t|
  {
    if t == "" {
      EmptySubject(p);
    } else if p[0] == '*' {
      if Matches(p[1..], t) {
        CompleteWithoutStar(p[1..], t);
      } else {
        CompleteWithoutStar(p, t[1..]);
        StarExtends(p, t, 1);
      }
    } else {
      CompleteWithoutStar(p[1..], t[1..]);
    }
  }

  lemma {:induction false} CompleteLiteral(p: string, t: string)
    requires '*' !in p && Matches(p, t)
    ensures Accepts(p, t)
  {
    if p != "" {
      CompleteLiteral(p[1..], t[1..]);
    }
  }

  /** The trap: the subject's own star uses up the pattern's. */
  lemma StarAgainstStar()
    ensures Matches("*", "*x") && !Accepts("*", "*x")
  {
    assert "*x"[1..] == "x" && "x"[1..] == "" && "*"[1..] == "";
    assert Matches("", "") && Matches("*", "") && Matches("*", "x");
    assert !Accepts("", "x");
  }

  lemma {:induction false} MatchesAligned(p: string, t: string)
    requires Aligned(p, t)
    ensures Matches(p, t)
  {
    if p != "" {
      MatchesAligned(p[1..], t[1..]);
      if p[0] == '*' {
        MatchesSuffix(p, t, 1);
      }
    }
  }

  /** Matching one for one is forced: the code has no choice along `x`. */
  lemma {:induction false} AcceptsAligned(x: string, y: string, w: string, v: string)
    requires Aligned(x, w)
    ensures Accepts(x + y, w + v) == Accepts(y, v)
    decreases |x|
  {
    if x == "" {
      assert x + y == y && w + v == v;
    } else {
      assert (x + y)[1..] == x[1..] + y && (w + v)[1..] == w[1..] + v;
      AcceptsAligned(x[1..], y, w[1..], v);
    }
  }

  lemma {:induction false} MatchesAppend(x: string, y: string, w: string, v: string)
    requires Aligned(x, w) && Matches(y, v)
    ensures Matches(x + y, w + v)
    decreases |x|
  {
    if x == "" {
      assert x + y == y && w + v == v;
    } else {
      assert (x + y)[1..] == x[1..] + y && (w + v)[1..] == w[1..] + v;
      MatchesAppend(x[1..], y, w[1..], v);
      if x[0] == '*' {
        MatchesSuffix(x + y, w + v, 1);
      }
    }
  }

  /** A literal-length pattern without stars rejects a subject of another length. */
  lemma {:induction false} LengthMismatch(p: string, t: string)
    requires '*' !in p && |p| != |t|
    ensures !Accepts(p, t)
    decreases |p|
  {
    if t != "" && p != "" {
      LengthMismatch(p[1..], t[1..]);
    } else if t == "" {
      assert p[0] in p;
    }
  }

  ghost predicate Agrees(p: string, t: string) {
    Accepts(p, t) == Matches(p, t)
  }

  /** Exactly which subjects the matcher reads correctly under every pattern:
      those that hold no star. */
  lemma SubjectReadCorrectlyIff(t: string)
    ensures (forall p :: Agrees(p, t)) <==> '*' !in t
  {
    if '*' !in t {
      forall p ensures Agrees(p, t) {
        if Accepts(p, t) { Sound(p, t); }
        if Matches(p, t) { CompleteWithoutStar(p, t); }
      }
    } else {
      var i :| 0 <= i < |t| && t[i] == '*';
      var x, w := Repeat('?', i), t[..i];
      var q, v := Repeat('?', |t| - i), t[i..];
      var y := "*" + q;
      assert t == w + v;
      assert y[1..] == q && v[1..] == t[i + 1..];
      MatchesAligned(q, v);
      MatchesAppend(x, y, w, v);
      AcceptsAligned(x, y, w, v);
      LengthMismatch(q, v[1..]);
      assert !Agrees(x + y, t);
    }
  }

  /** Exactly which patterns the matcher applies correctly to every subject:
      those that hold no star. */
  lemma PatternReadCorrectlyIff(p: string)
    ensures (forall t :: Agrees(p, t)) <==> '*' !in p
  {
    if '*' !in p {
      forall t ensures Agrees(p, t) {
        if Accepts(p, t) { Sound(p, t); }
        if Matches(p, t) { CompleteLiteral(p, t); }
      }
    } else {
      var i := LastStar(p);
      var x, q := p[..i], p[i + 1..];
      var y := "*" + q;
      assert p == x + y;
      var v := "*x" + q;
      assert y[1..] == q && v[1..] == "x" + q && v[2..] == q;
      MatchesAligned(q, q);
      MatchesSuffix(y, v, 2);
      MatchesAppend(x, y, x, v);
      AcceptsAligned(x, y, x, v);
      LengthMismatch(q, v[1..]);
      assert !Agrees(p, x + v);
    }
  }

  lemma {:induction false} LastStar(p: string) returns (i: nat)
    requires '*' in p
    ensures i < |p| && p[i] == '*' && '*' !in p[i + 1..]
    decreases |p|
  {
    var n := |p| - 1;
    if p[n] == '*' {
      i := n;
    } else {
      assert p == p[..n] + [p[n]];
      i := LastStar(p[..n]);
      assert p[i + 1..] == p[..n][i + 1..] + [p[n]];
    }
  }
}
