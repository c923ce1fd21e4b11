/**
 * The email test of both forms: the unanchored regular expression
 * `\S+@\S+\.\S+`, i.e. "some substring is non-blank text, an `@`, non-blank
 * text, a `.` and non-blank text". `@` and `.` are themselves non-blank.
 *
 * `Matches` states what the regular expression accepts; `LooksLikeEmail` is an
 * executable one-pass scanner, and `LooksLikeEmailCorrect` proves the two agree.
 */
module EmailPattern {
  import opened JsText

  predicate NotSpace(c: char) { !IsJsSpace(c) }

  /**
   * A match whose `@` is at `a` and whose `.` is at `d`: one non-blank character
   * before `a` suffices for the first `\S+`, one after `d` for the last, and the
   * middle `\S+` is everything strictly between `a` and `d`.
   */
  ghost predicate MatchAt(t: string, a: int, d: int) {
    && 0 < a && a + 1 < d && d + 1 < |t|
    && t[a] == '@' && t[d] == '.'
    && NotSpace(t[a - 1]) && NotSpace(t[d + 1])
    && forall k :: a < k < d ==> NotSpace(t[k])
  }

  /** `/\S+@\S+\.\S+/.test(t)`. */
  ghost predicate Matches(t: string) {
    exists a, d :: MatchAt(t, a, d)
  }

  /** How far the scanner has got into a candidate match within the current run of non-blank text. */
  datatype Progress =
    | Blank    // at the start, or just after white space
    | Local    // inside non-blank text, no usable `@` yet
    | At       // just read an `@` that has non-blank text before it
    | Domain   // non-blank text after such an `@`
    | Dot      // a `.` after such domain text
    | Found    // a whole match has been read

  function Step(p: Progress, c: char): Progress {
    if p == Found then Found
    else if IsJsSpace(c) then Blank
    else match p
      case Blank => Local
      case Local => if c == '@' then At else Local
      case At => Domain
      case Domain => if c == '.' then Dot else Domain
      case Dot => Found
  }

  function Scan(s: string, p: Progress): bool {
    if s == [] then p == Found else Scan(s[1..], Step(p, s[0]))
  }

  /** The scanner run from the start of the string. */
  predicate LooksLikeEmail(s: string) {
    Scan(s, Blank)
  }

  /** A shortest text that leaves the scanner in state `p`. */
  function Witness(p: Progress): string {
    match p
    case Blank => ""
    case Local => "x"
    case At => "x@"
    case Domain => "x@x"
    case Dot => "x@x."
    case Found => "x@x.x"
  }

  lemma ShortHasNoMatch(t: string)
    requires |t| < 5
    ensures !Matches(t)
  {
  }

  lemma FoundMatches(s: string)
    ensures Matches(Witness(Found) + s)
  {
    assert MatchAt(Witness(Found) + s, 1, 3);
  }

  /** White space splits the text: a match lies wholly after it when nothing before it can match. */
  lemma SpaceStep(p: Progress, c: char, s: string)
    requires p != Found && IsJsSpace(c)
    ensures Matches(Witness(p) + [c] + s) <==> Matches(s)
  {
    var w := Witness(p);
    var t := w + [c] + s;
    var n := |w| + 1;
    if Matches(s) {
      var a, d :| MatchAt(s, a, d);
      forall k | a + n < k < d + n ensures NotSpace(t[k]) {
        assert t[k] == s[k - n];
      }
      assert MatchAt(t, a + n, d + n);
    }
    if Matches(t) {
      var a, d :| MatchAt(t, a, d);
      assert t[n - 1] == c;
      assert !(a - 1 <= n - 1 <= d + 1);
      forall k | a - n < k < d - n ensures NotSpace(s[k]) {
        assert s[k] == t[k + n];
      }
      assert MatchAt(s, a - n, d - n);
    }
  }

  /** A first character only ever counts as non-blank text, so any non-blank one will do. */
  lemma FirstCharStep(c: char, s: string)
    requires NotSpace(c)
    ensures Matches([c] + s) <==> Matches(Witness(Local) + s)
  {
    var t := [c] + s;
    var u := "x" + s;
    if Matches(t) {
      var a, d :| MatchAt(t, a, d);
      forall k | a < k < d ensures NotSpace(u[k]) {
        assert u[k] == t[k];
      }
      assert MatchAt(u, a, d);
    }
    if Matches(u) {
      var a, d :| MatchAt(u, a, d);
      forall k | a < k < d ensures NotSpace(t[k]) {
        assert u[k] == t[k];
      }
      assert MatchAt(t, a, d);
    }
  }

  /** In state `Local`, a non-blank character other than `@` keeps the scanner where it is. */
  lemma LocalStep(c: char, s: string)
    requires NotSpace(c) && c != '@'
    ensures Matches("x" + [c] + s) <==> Matches("x" + s)
  {
    var t := "x" + [c] + s;
    var u := "x" + s;
    if Matches(u) {
      var a, d :| MatchAt(u, a, d);
      forall k | a + 1 < k < d + 1 ensures NotSpace(t[k]) {
        assert t[k] == u[k - 1];
      }
      assert MatchAt(t, a + 1, d + 1);
    }
    if Matches(t) {
      var a, d :| MatchAt(t, a, d);
      assert a != 1;
      forall k | a - 1 < k < d - 1 ensures NotSpace(u[k]) {
        assert t[k + 1] == u[k];
      }
      assert MatchAt(u, a - 1, d - 1);
    }
  }

  /** Right after a usable `@`, any non-blank character opens the domain part. */
  lemma AtStep(c: char, s: string)
    requires NotSpace(c)
    ensures Matches("x@" + [c] + s) <==> Matches("x@x" + s)
  {
    var t := "x@" + [c] + s;
    var u := "x@x" + s;
    if Matches(u) {
      var a, d :| MatchAt(u, a, d);
      assert a != 2;
      forall k | a < k < d ensures NotSpace(t[k]) {
        assert k != 2 ==> t[k] == u[k];
      }
      assert MatchAt(t, a, d);
    }
    if Matches(t) {
      var a, d :| MatchAt(t, a, d);
      if a == 2 {
        forall k | 1 < k < d ensures NotSpace(t[k]) {
          assert k == 2 || a < k;
        }
        assert MatchAt(t, 1, d);
        a := 1;
      }
      forall k | a < k < d ensures NotSpace(u[k]) {
        assert k != 2 ==> t[k] == u[k];
      }
      assert MatchAt(u, a, d);
    }
  }

  /** In state `Domain`, a non-blank character other than `.` keeps the scanner where it is. */
  lemma DomainStep(c: char, s: string)
    requires NotSpace(c) && c != '.'
    ensures Matches("x@x" + [c] + s) <==> Matches("x@x" + s)
  {
    var t := "x@x" + [c] + s;
    var u := "x@x" + s;
    if Matches(u) {
      var a, d :| MatchAt(u, a, d);
      assert a != 2;
      if a == 1 {
        forall k | 1 < k < d + 1 ensures NotSpace(t[k]) {
          assert k > 3 ==> t[k] == u[k - 1];
        }
        assert MatchAt(t, 1, d + 1);
      } else {
        forall k | a + 1 < k < d + 1 ensures NotSpace(t[k]) {
          assert t[k] == u[k - 1];
        }
        assert MatchAt(t, a + 1, d + 1);
      }
    }
    if Matches(t) {
      var a, d :| MatchAt(t, a, d);
      assert a != 2;
      if a == 3 {
        forall k | 1 < k < d ensures NotSpace(t[k]) {
          assert k <= 3 || a < k;
        }
        assert MatchAt(t, 1, d);
        a := 1;
      }
      if a == 1 {
        assert d != 3;
        forall k | 1 < k < d - 1 ensures NotSpace(u[k]) {
          assert k >= 3 ==> u[k] == t[k + 1];
        }
        assert MatchAt(u, 1, d - 1);
      } else {
        forall k | a - 1 < k < d - 1 ensures NotSpace(u[k]) {
          assert u[k] == t[k + 1];
        }
        assert MatchAt(u, a - 1, d - 1);
      }
    }
  }

  /** One scanner step preserves the meaning of the state: the witness text followed by the rest. */
  lemma StepMeaning(p: Progress, c: char, s: string)
    ensures Matches(Witness(Step(p, c)) + s) <==> Matches(Witness(p) + [c] + s)
  {
    if p == Found {
      FoundMatches(s);
      assert Witness(p) + [c] + s == Witness(Found) + ([c] + s);
      FoundMatches([c] + s);
    } else if IsJsSpace(c) {
      assert Witness(Step(p, c)) + s == s;
      SpaceStep(p, c, s);
    } else {
      match p
      case Blank =>
        assert Witness(p) + [c] + s == [c] + s;
        FirstCharStep(c, s);
      case Local =>
        if c == '@' {
          assert Witness(p) + [c] + s == Witness(At) + s;
        } else {
          LocalStep(c, s);
        }
      case At =>
        AtStep(c, s);
      case Domain =>
        if c == '.' {
          assert Witness(p) + [c] + s == Witness(Dot) + s;
        } else {
          DomainStep(c, s);
        }
      case Dot =>
        FoundMatches(s);
        assert MatchAt(Witness(p) + [c] + s, 1, 3);
    }
  }

  /** From state `p`, the scanner accepts `s` exactly when the regular expression matches the witness of `p` followed by `s`. */
  lemma {:induction false} ScanMeaning(s: string, p: Progress)
    ensures Scan(s, p) <==> Matches(Witness(p) + s)
    decreases |s|
  {
    if s == [] {
      assert Witness(p) + s == Witness(p);
      if p == Found {
        FoundMatches(s);
      } else {
        ShortHasNoMatch(Witness(p));
      }
    } else {
      ScanMeaning(s[1..], Step(p, s[0]));
      StepMeaning(p, s[0], s[1..]);
      assert Witness(p) + [s[0]] + s[1..] == Witness(p) + s;
    }
  }

  /** The scanner decides exactly the regular expression `\S+@\S+\.\S+` (unanchored). */
  lemma LooksLikeEmailCorrect(s: string)
    ensures LooksLikeEmail(s) <==> Matches(s)
  {
    ScanMeaning(s, Blank);
    assert Witness(Blank) + s == s;
  }

  /** Because the test is a search, surrounding text never turns a match into a non-match. */
  lemma MatchesExtend(p: string, s: string, q: string)
    requires Matches(s)
    ensures Matches(p + s + q)
  {
    var a, d :| MatchAt(s, a, d);
    var t := p + s + q;
    forall k | a + |p| < k < d + |p| ensures NotSpace(t[k]) {
      assert t[k] == s[k - |p|];
    }
    assert MatchAt(t, a + |p|, d + |p|);
  }

  /** Every match contains an `@` with a `.` somewhere after it. */
  lemma MatchNeedsAtThenDot(t: string)
    requires Matches(t)
    ensures exists a, d :: 0 < a < d < |t| - 1 && t[a] == '@' && t[d] == '.'
  {
    var a, d :| MatchAt(t, a, d);
  }

  /** Blank text around the address does not matter: "a b@c.d" passes because "b@c.d" matches. */
  lemma EmbeddedSpaceAccepted()
    ensures LooksLikeEmail("a b@c.d")
  {
    LooksLikeEmailCorrect("a b@c.d");
    assert MatchAt("a b@c.d", 3, 5);
  }
}
