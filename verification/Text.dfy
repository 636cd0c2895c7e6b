/** Small vocabulary shared by every module: optional values, the clock, and
    the parts of the Unicode tables the server relies on. */
module Text {

  datatype Option<+T> = None | Some(value: T)

  /** An instant or a duration, in nanoseconds, as Go's `time` package counts them. */
  type Time = int

  const SECOND: Time := 1_000_000_000
  const MINUTE: Time := 60 * SECOND
  const HOUR: Time := 60 * MINUTE

  function Repeat<T>(x: T, n: nat): (r: seq<T>)
    ensures |r| == n && forall i :: 0 <= i < n ==> r[i] == x
  {
    seq(n, i => x)
  }

  lemma CountOne<T>(s: set<T>, done: set<T>, k: T)
    requires k !in done
    ensures |s * (done + {k})| == |s * done| + if k in s then 1 else 0
  {
    assert s * (done + {k}) == if k in s then s * done + {k} else s * done;
  }

  /** The character tables of the Go library, left abstract. */
  datatype Unicode = Unicode(lower: char -> char, space: char -> bool, control: char -> bool)
  {
    /** The facts about the tables that the results below rely on. */
    ghost predicate Valid() {
      && (forall c :: 'a' <= c <= 'z' ==> lower(c) == c && !space(c) && !control(c))
      && (forall c :: lower(c) == '*' <==> c == '*')
      && control('\r')
    }

    function Lower(s: string): (r: string)
      ensures |r| == |s|
      ensures forall i :: 0 <= i < |s| ==> r[i] == lower(s[i])
    {
      seq(|s|, i requires 0 <= i < |s| => lower(s[i]))
    }

    function TrimLeft(s: string): (r: string)
      ensures r == "" || !space(r[0])
    {
      if s != "" && space(s[0]) then TrimLeft(s[1..]) else s
    }

    function TrimRight(s: string): (r: string)
      ensures r == "" || (!space(r[|r| - 1]) && s != "" && r[0] == s[0])
    {
      if s != "" && space(s[|s| - 1]) then TrimRight(s[..|s| - 1]) else s
    }

    function Trim(s: string): string {
      TrimRight(TrimLeft(s))
    }

    /** No white space at either end, so trimming changes nothing. */
    predicate Trimmed(s: string) {
      s == "" || (!space(s[0]) && !space(s[|s| - 1]))
    }

    predicate AllSpace(s: string) {
      forall i :: 0 <= i < |s| ==> space(s[i])
    }

    lemma LeftStep(s: string)
      ensures TrimLeft(s) == if s != "" && space(s[0]) then TrimLeft(s[1..]) else s
    {
    }

    lemma RightStep(s: string)
      ensures TrimRight(s) == if s != "" && space(s[|s| - 1]) then TrimRight(s[..|s| - 1]) else s
    {
    }

    lemma {:induction false} LeftPart(s: string) returns (before: string)
      ensures s == before + TrimLeft(s) && AllSpace(before)
    {
      hide TrimLeft;
      before := "";
      LeftStep(s);
      if s != "" && space(s[0]) {
        var rest := LeftPart(s[1..]);
        before := [s[0]] + rest;
        assert s == [s[0]] + s[1..];
      }
    }

    lemma {:induction false} RightPart(s: string) returns (after: string)
      ensures s == TrimRight(s) + after && AllSpace(after)
    {
      hide TrimRight;
      after := "";
      RightStep(s);
      if s != "" && space(s[|s| - 1]) {
        var rest := RightPart(s[..|s| - 1]);
        after := rest + [s[|s| - 1]];
        assert s == s[..|s| - 1] + [s[|s| - 1]];
      }
    }

    /** Trimming takes white space off both ends, all of it, and nothing else. */
    lemma TrimMeaning(s: string) returns (before: string, after: string)
      ensures s == before + Trim(s) + after
      ensures Trimmed(Trim(s)) && AllSpace(before) && AllSpace(after)
    {
      hide TrimLeft, TrimRight, AllSpace;
      before := LeftPart(s);
      after := RightPart(TrimLeft(s));
      assert before + (Trim(s) + after) == before + Trim(s) + after;
      TrimEnds(s);
    }

    lemma TrimEnds(s: string)
      ensures Trimmed(Trim(s))
    {
      hide TrimLeft, TrimRight;
    }

    lemma TrimIsTrimmed(s: string)
      ensures Trimmed(Trim(s))
      ensures |Trim(s)| <= |s|
      ensures forall c :: c in Trim(s) ==> c in s
    {
      hide Trim, Trimmed, AllSpace;
      var before, after := TrimMeaning(s);
      PartIn(before, Trim(s), after);
    }

    lemma PartIn(a: string, b: string, c: string)
      ensures |b| <= |a + b + c| && forall x :: x in b ==> x in a + b + c
    {
    }

    lemma TrimOfTrimmed(s: string)
      requires Trimmed(s)
      ensures Trim(s) == s
    {
    }
  }
}
