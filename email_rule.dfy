/** `validateEmail` of both sign-up screens: the pattern
    `^[^\s@]+@[^\s@]+\.[^\s@]+$`, run as the automaton it denotes and
    proved equal to the pattern read as a split of the string. */
module EmailRule {
  import opened Text

  /** A character of the class `[^\s@]`. */
  predicate Plain(c: char) {
    !IsSpace(c) && c != '@'
  }

  /** Every character of the string is of the class `[^\s@]`. */
  predicate AllPlain(s: string) {
    forall i :: 0 <= i < |s| ==> Plain(s[i])
  }

  /** The pattern split at its `@` (index `a`) and its `.` (index `dot`):
      a non-empty plain local part, `@`, a non-empty plain part, `.`, and
      a non-empty plain part. */
  predicate PiecesAt(s: string, a: int, dot: int) {
    0 < a && a + 1 < dot && dot + 1 < |s| && s[a] == '@' && s[dot] == '.'
    && AllPlain(s[..a]) && AllPlain(s[a + 1..dot]) && AllPlain(s[dot + 1..])
  }

  /** The pattern read directly: some split of the string into its pieces. */
  ghost predicate MatchesPattern(s: string) {
    exists at, dot :: PiecesAt(s, at, dot)
  }

  /** The states of the matcher: before and inside the local part, right
      after `@`, inside the domain before a usable `.`, right after one,
      and past the end of a match. */
  datatype EmailState = Local0 | Local1 | Domain0 | Domain1 | Dot | Matched | Failed

  function Step(st: EmailState, c: char): EmailState {
    match st
    case Local0 => if Plain(c) then Local1 else Failed
    case Local1 => if Plain(c) then Local1 else if c == '@' then Domain0 else Failed
    case Domain0 => if Plain(c) then Domain1 else Failed
    case Domain1 => if c == '.' then Dot else if Plain(c) then Domain1 else Failed
    case Dot => if Plain(c) then Matched else Failed
    case Matched => if Plain(c) then Matched else Failed
    case Failed => Failed
  }

  function Run(st: EmailState, s: string): EmailState
    decreases |s|
  {
    if |s| == 0 then st else Run(Step(st, s[0]), s[1..])
  }

  /** `validateEmail(email)`. */
  function ValidEmail(s: string): bool {
    Run(Local0, s) == Matched
  }

  /** The part after `@` is plain and has a `.` with a character on each
      side of it. */
  predicate DomainShape(d: string) {
    AllPlain(d) && exists k :: 1 <= k < |d| - 1 && d[k] == '.'
  }

  lemma AllPlainCons(s: string)
    requires |s| > 0
    ensures AllPlain(s) <==> Plain(s[0]) && AllPlain(s[1..])
  {
    if Plain(s[0]) && AllPlain(s[1..]) {
      forall i | 0 < i < |s| ensures Plain(s[i]) {
        assert s[i] == s[1..][i - 1];
      }
    }
  }

  lemma {:induction false} RunFailed(t: string)
    ensures Run(Failed, t) == Failed
  {
    if |t| > 0 {
      RunFailed(t[1..]);
    }
  }

  lemma {:induction false} RunMatched(t: string)
    ensures Run(Matched, t) == Matched <==> AllPlain(t)
  {
    if |t| > 0 {
      AllPlainCons(t);
      RunMatched(t[1..]);
      RunFailed(t[1..]);
    }
  }

  lemma RunDot(t: string)
    ensures Run(Dot, t) == Matched <==> |t| > 0 && AllPlain(t)
  {
    if |t| > 0 {
      AllPlainCons(t);
      RunMatched(t[1..]);
      RunFailed(t[1..]);
    }
  }

  /** Inside the domain, a match needs a `.` before the last character. */
  lemma {:induction false} RunDomain1(t: string)
    ensures Run(Domain1, t) == Matched <==> AllPlain(t) && exists k :: 0 <= k < |t| - 1 && t[k] == '.'
  {
    if |t| > 0 {
      var rest := t[1..];
      AllPlainCons(t);
      RunDomain1(rest);
      RunDot(rest);
      RunFailed(rest);
      if t[0] == '.' {
        if |rest| > 0 && AllPlain(rest) {
          assert 0 <= 0 < |t| - 1 && t[0] == '.';
        }
      } else {
        if exists k :: 0 <= k < |t| - 1 && t[k] == '.' {
          var k :| 0 <= k < |t| - 1 && t[k] == '.';
          assert k > 0 && rest[k - 1] == '.';
        }
        if exists k :: 0 <= k < |rest| - 1 && rest[k] == '.' {
          var k :| 0 <= k < |rest| - 1 && rest[k] == '.';
          assert t[k + 1] == '.';
        }
      }
    }
  }

  lemma RunDomain0(t: string)
    ensures Run(Domain0, t) == Matched <==> DomainShape(t)
  {
    if |t| > 0 {
      var rest := t[1..];
      AllPlainCons(t);
      RunDomain1(rest);
      RunFailed(rest);
      if exists k :: 1 <= k < |t| - 1 && t[k] == '.' {
        var k :| 1 <= k < |t| - 1 && t[k] == '.';
        assert rest[k - 1] == '.';
      }
      if exists k :: 0 <= k < |rest| - 1 && rest[k] == '.' {
        var k :| 0 <= k < |rest| - 1 && rest[k] == '.';
        assert t[k + 1] == '.';
      }
    }
  }

  /** A plain local part, `@`, and a domain of the right shape. */
  predicate LocalShape(t: string) {
    exists at :: 0 <= at < |t| && t[at] == '@' && AllPlain(t[..at]) && DomainShape(t[at + 1..])
  }

  lemma LocalShapeAt(t: string)
    requires |t| > 0 && t[0] == '@'
    ensures LocalShape(t) <==> DomainShape(t[1..])
  {
    assert t[..0] == [];
    assert forall at :: 0 < at <= |t| ==> t[..at][0] == '@';
  }

  lemma LocalShapeOther(t: string)
    requires |t| > 0 && !Plain(t[0]) && t[0] != '@'
    ensures !LocalShape(t)
  {
    assert forall at :: 0 < at <= |t| ==> t[..at][0] == t[0];
  }

  lemma LocalShapePlain(t: string)
    requires |t| > 0 && Plain(t[0])
    ensures LocalShape(t) <==> LocalShape(t[1..])
  {
    var rest := t[1..];
    if LocalShape(t) {
      var at :| 0 <= at < |t| && t[at] == '@' && AllPlain(t[..at]) && DomainShape(t[at + 1..]);
      assert at > 0;
      AllPlainCons(t[..at]);
      assert t[..at][1..] == rest[..at - 1];
      assert rest[at - 1] == '@' && t[at + 1..] == rest[at - 1 + 1..];
    }
    if LocalShape(rest) {
      var at :| 0 <= at < |rest| && rest[at] == '@' && AllPlain(rest[..at]) && DomainShape(rest[at + 1..]);
      AllPlainCons(t[..at + 1]);
      assert t[..at + 1][1..] == rest[..at];
      assert t[at + 1] == '@' && t[at + 1 + 1..] == rest[at + 1..];
    }
  }

  /** Inside the local part, a match needs an `@` after plain characters
      and a domain of the right shape after it. */
  lemma {:induction false} RunLocal1(t: string)
    ensures Run(Local1, t) == Matched <==> LocalShape(t)
  {
    if |t| > 0 {
      var rest := t[1..];
      RunFailed(rest);
      if t[0] == '@' {
        RunDomain0(rest);
        LocalShapeAt(t);
      } else if Plain(t[0]) {
        RunLocal1(rest);
        LocalShapePlain(t);
      } else {
        LocalShapeOther(t);
      }
    }
  }

  lemma AllPlainSub(s: string, lo: nat, hi: nat)
    requires AllPlain(s) && lo <= hi <= |s|
    ensures AllPlain(s[lo..hi])
  {
    forall i | 0 <= i < hi - lo ensures Plain(s[lo..hi][i]) {
      assert s[lo..hi][i] == s[lo + i];
    }
  }

  lemma AllPlainJoin(x: string, c: char, y: string)
    requires AllPlain(x) && Plain(c) && AllPlain(y)
    ensures AllPlain(x + [c] + y)
  {
    var z := x + [c] + y;
    forall i | 0 <= i < |z| ensures Plain(z[i]) {
      if i < |x| {
        assert z[i] == x[i];
      } else if i > |x| {
        assert z[i] == y[i - |x| - 1];
      }
    }
  }

  lemma PiecesMatch(s: string, a: int, dot: int)
    requires PiecesAt(s, a, dot)
    ensures MatchesPattern(s)
  {
  }

  lemma PiecesOfLocal(s: string, at: nat, k: nat)
    requires |s| > 0 && Plain(s[0])
    requires at < |s| - 1 && s[1..][at] == '@' && AllPlain(s[1..][..at])
    requires var d := s[1..][at + 1..]; AllPlain(d) && 1 <= k < |d| - 1 && d[k] == '.'
    ensures PiecesAt(s, at + 1, at + 2 + k)
  {
    var rest := s[1..];
    var d := rest[at + 1..];
    var a, dot := at + 1, at + 2 + k;
    assert AllPlain(s[..a]) by {
      assert s[..a] == [s[0]] + rest[..at];
      AllPlainCons(s[..a]);
    }
    assert AllPlain(s[a + 1..dot]) by {
      assert s[a + 1..dot] == d[..k];
      AllPlainSub(d, 0, k);
    }
    assert AllPlain(s[dot + 1..]) by {
      assert s[dot + 1..] == d[k + 1..|d|];
      AllPlainSub(d, k + 1, |d|);
    }
  }

  lemma PatternOfMatch(s: string)
    requires ValidEmail(s)
    ensures MatchesPattern(s)
  {
    var rest := s[1..];
    RunFailed(rest);
    assert Plain(s[0]) && Run(Local1, rest) == Matched;
    RunLocal1(rest);
    var at :| 0 <= at < |rest| && rest[at] == '@' && AllPlain(rest[..at]) && DomainShape(rest[at + 1..]);
    var d := rest[at + 1..];
    var k :| 1 <= k < |d| - 1 && d[k] == '.';
    PiecesOfLocal(s, at, k);
    PiecesMatch(s, at + 1, at + 2 + k);
  }

  lemma LocalOfPieces(s: string, a: int, dot: int)
    requires PiecesAt(s, a, dot)
    ensures LocalShape(s[1..])
  {
    var rest := s[1..];
    var at := a - 1;
    assert rest[at] == '@';
    assert AllPlain(rest[..at]) by {
      AllPlainSub(s[..a], 1, a);
      assert s[..a][1..a] == rest[..at];
    }
    var d := rest[at + 1..];
    assert AllPlain(d) by {
      assert d == s[a + 1..] by {
        assert rest[at + 1..] == s[1..][a..];
      }
      assert s[a + 1..] == s[a + 1..dot] + ['.'] + s[dot + 1..] by {
        assert s[a + 1..] == s[a + 1..dot] + s[dot..];
        assert s[dot..] == [s[dot]] + s[dot + 1..];
      }
      AllPlainJoin(s[a + 1..dot], '.', s[dot + 1..]);
    }
    assert d[dot - a - 1] == '.';
    assert DomainShape(d);
  }

  lemma MatchOfPattern(s: string)
    requires MatchesPattern(s)
    ensures ValidEmail(s)
  {
    var a, dot :| PiecesAt(s, a, dot);
    assert Plain(s[0]) by {
      assert s[..a][0] == s[0];
    }
    LocalOfPieces(s, a, dot);
    RunLocal1(s[1..]);
  }

  /** The matcher accepts exactly the strings of the pattern. */
  lemma ValidEmailMatchesPattern(s: string)
    ensures ValidEmail(s) <==> MatchesPattern(s)
  {
    if ValidEmail(s) {
      PatternOfMatch(s);
    }
    if MatchesPattern(s) {
      MatchOfPattern(s);
    }
  }

  /** A valid address has no white space and exactly one `@`. */
  lemma ValidEmailOneAt(s: string)
    requires ValidEmail(s)
    ensures forall i :: 0 <= i < |s| ==> !IsSpace(s[i])
    ensures exists at :: 0 < at < |s| - 1 && s[at] == '@' && forall j :: 0 <= j < |s| && s[j] == '@' ==> j == at
  {
    ValidEmailMatchesPattern(s);
    var a, dot :| PiecesAt(s, a, dot);
    forall j | 0 <= j < |s| ensures !IsSpace(s[j]) && (j != a ==> s[j] != '@') {
      if j < a {
        assert s[j] == s[..a][j];
      } else if a < j < dot {
        assert s[j] == s[a + 1..dot][j - a - 1];
      } else if j > dot {
        assert s[j] == s[dot + 1..][j - dot - 1];
      }
    }
  }

  /** Concrete cases of the pattern. */
  lemma EmailAccepted()
    ensures ValidEmail("a@b.c")
  {
    assert Run(Local0, "a@b.c") == Run(Local1, "@b.c") == Run(Domain0, "b.c")
      == Run(Domain1, ".c") == Run(Dot, "c") == Matched;
  }

  lemma EmailWithoutDot()
    ensures !ValidEmail("a@b")
  {
    assert Run(Local0, "a@b") == Run(Local1, "@b") == Run(Domain0, "b") == Domain1;
  }

  lemma EmailWithoutLocalPart()
    ensures !ValidEmail("@b.c")
  {
    RunFailed("b.c");
  }

  lemma EmailWithTwoAts()
    ensures !ValidEmail("a@@b.c")
  {
    assert Run(Local0, "a@@b.c") == Run(Local1, "@@b.c") == Run(Domain0, "@b.c") == Run(Failed, "b.c");
    RunFailed("b.c");
  }
}
