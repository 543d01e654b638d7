/** The client-side email check of the signup page, `/^[^\s@]+@[^\s@]+\.[^\s@]+$/.test(email)`
    (src/pages/signup.tsx:60-61), given twice: as the language the pattern denotes, and as the
    left-to-right scan that decides it. `ScanDecidesPattern` proves that the two agree. */
module EmailPattern {

  /** ECMAScript `\s`: the WhiteSpace and LineTerminator code points. */
  predicate IsSpace(c: char)
  {
    || c == ' ' || c == '\t' || c == '\n' || c == '\r'
    || c == '\U{000B}' || c == '\U{000C}' || c == '\U{00A0}' || c == '\U{1680}'
    || ('\U{2000}' <= c <= '\U{200A}')
    || c == '\U{2028}' || c == '\U{2029}' || c == '\U{202F}' || c == '\U{205F}'
    || c == '\U{3000}' || c == '\U{FEFF}'
  }

  /** The class `[^\s@]`. */
  predicate Plain(c: char)
  {
    c != '@' && !IsSpace(c)
  }

  predicate AllPlain(t: string)
  {
    forall k :: 0 <= k < |t| ==> Plain(t[k])
  }

  /** The language of the pattern: `s` is `a @ x . y` with `a`, `x` and `y` non-empty runs of
      `[^\s@]`, the `@` at index `i` and the `.` at index `j`. */
  ghost predicate MatchesEmailPattern(s: string)
  {
    exists i: nat, j: nat :: SplitsAsEmail(s, i, j)
  }

  ghost predicate SplitsAsEmail(s: string, i: nat, j: nat)
  {
    && 0 < i && i + 1 < j && j + 1 < |s|
    && s[i] == '@' && s[j] == '.'
    && AllPlain(s[..i]) && AllPlain(s[i + 1..j]) && AllPlain(s[j + 1..])
  }

  /** How far the scan has got: nothing read; inside the local part; just after `@`; inside the
      domain with no usable `.` yet; right after the first usable `.`; a full match; no match possible. */
  datatype Phase = Start | Local | AfterAt | Host | HostDot | Matched | Failed

  function Step(p: Phase, c: char): Phase
  {
    if !Plain(c) then
      (if c == '@' && p == Local then AfterAt else Failed)
    else
      match p
      case Start => Local
      case Local => Local
      case AfterAt => Host
      case Host => if c == '.' then HostDot else Host
      case HostDot => Matched
      case Matched => Matched
      case Failed => Failed
  }

  function Scan(p: Phase, s: string): Phase
    decreases |s|
  {
    if s == [] then p else Scan(Step(p, s[0]), s[1..])
  }

  /** `emailRegex.test(email)`: the scan's verdict, which is membership in the pattern's language. */
  predicate EmailTest(s: string)
    ensures EmailTest(s) <==> MatchesEmailPattern(s)
  {
    ScanDecidesPattern(s);
    Scan(Start, s) == Matched
  }

  lemma {:induction false} ScanAppend(p: Phase, u: string, v: string)
    ensures Scan(p, u + v) == Scan(Scan(p, u), v)
    decreases |u|
  {
    if u != [] {
      assert (u + v)[0] == u[0];
      assert (u + v)[1..] == u[1..] + v;
      ScanAppend(Step(p, u[0]), u[1..], v);
    } else {
      assert u + v == v;
    }
  }

  lemma {:induction false} FailedIsFinal(t: string)
    ensures Scan(Failed, t) == Failed
    decreases |t|
  {
    if t != [] {
      FailedIsFinal(t[1..]);
    }
  }

  /** Inside the local part, and after a full match, a run of `[^\s@]` changes nothing. */
  lemma {:induction false} PlainRunKeeps(p: Phase, t: string)
    requires p == Local || p == Matched
    requires AllPlain(t)
    ensures Scan(p, t) == p
    decreases |t|
  {
    if t != [] {
      assert Plain(t[0]);
      PlainRunKeeps(p, t[1..]);
    }
  }

  /** Inside the domain, a run of `[^\s@]` never leaves the domain phases. */
  lemma {:induction false} PlainRunInDomain(p: Phase, t: string)
    requires p == Host || p == HostDot || p == Matched
    requires AllPlain(t)
    ensures Scan(p, t) == Host || Scan(p, t) == HostDot || Scan(p, t) == Matched
    decreases |t|
  {
    if t != [] {
      assert Plain(t[0]);
      PlainRunInDomain(Step(p, t[0]), t[1..]);
    }
  }

  lemma {:induction false} AcceptedAfterMatched(t: string)
    requires Scan(Matched, t) == Matched
    ensures AllPlain(t)
    decreases |t|
  {
    if t != [] {
      if !Plain(t[0]) {
        FailedIsFinal(t[1..]);
      } else {
        AcceptedAfterMatched(t[1..]);
        assert forall k :: 0 < k < |t| ==> t[k] == t[1..][k - 1];
      }
    }
  }

  lemma {:induction false} AcceptedAfterHostDot(t: string)
    requires Scan(HostDot, t) == Matched
    ensures t != [] && AllPlain(t)
  {
    if !Plain(t[0]) {
      FailedIsFinal(t[1..]);
    } else {
      AcceptedAfterMatched(t[1..]);
      assert forall k :: 0 < k < |t| ==> t[k] == t[1..][k - 1];
    }
  }

  lemma {:induction false} AcceptedAfterHost(t: string) returns (j: nat)
    requires Scan(Host, t) == Matched
    ensures AllPlain(t) && j + 1 < |t| && t[j] == '.'
    decreases |t|
  {
    if !Plain(t[0]) {
      FailedIsFinal(t[1..]);
    } else if t[0] == '.' {
      AcceptedAfterHostDot(t[1..]);
      j := 0;
    } else {
      var j' := AcceptedAfterHost(t[1..]);
      j := j' + 1;
    }
    assert forall k :: 0 < k < |t| ==> t[k] == t[1..][k - 1];
  }

  lemma {:induction false} AcceptedAfterAt(t: string) returns (j: nat)
    requires Scan(AfterAt, t) == Matched
    ensures AllPlain(t) && 0 < j && j + 1 < |t| && t[j] == '.'
  {
    if !Plain(t[0]) {
      FailedIsFinal(t[1..]);
    } else {
      var j' := AcceptedAfterHost(t[1..]);
      j := j' + 1;
      assert forall k :: 0 < k < |t| ==> t[k] == t[1..][k - 1];
    }
  }

  lemma {:induction false} AcceptedAfterLocal(t: string) returns (i: nat, j: nat)
    requires Scan(Local, t) == Matched
    ensures i + 1 < j && j + 1 < |t| && t[i] == '@' && t[j] == '.'
    ensures AllPlain(t[..i]) && AllPlain(t[i + 1..])
    decreases |t|
  {
    if t[0] == '@' {
      var j' := AcceptedAfterAt(t[1..]);
      i, j := 0, j' + 1;
      assert t[i + 1..] == t[1..];
    } else if !Plain(t[0]) {
      FailedIsFinal(t[1..]);
    } else {
      var i', j' := AcceptedAfterLocal(t[1..]);
      i, j := i' + 1, j' + 1;
      assert t[1..][..i'] == t[1..i];
      assert t[1..][i' + 1..] == t[i + 1..];
      assert forall k :: 0 < k < i ==> t[k] == t[1..i][k - 1];
    }
  }

  /** Every string the scan accepts is in the pattern's language. */
  lemma AcceptedMatchesPattern(s: string) returns (i: nat, j: nat)
    requires Scan(Start, s) == Matched
    ensures SplitsAsEmail(s, i, j)
  {
    if !Plain(s[0]) {
      FailedIsFinal(s[1..]);
    }
    var i', j' := AcceptedAfterLocal(s[1..]);
    i, j := i' + 1, j' + 1;
    assert s[1..][..i'] == s[1..i];
    assert forall k :: 0 < k < i ==> s[k] == s[1..i][k - 1];
    var rest := s[i + 1..];
    assert s[1..][i' + 1..] == rest;
    assert s[i + 1..j] == rest[..j - i - 1];
    assert s[j + 1..] == rest[j - i..];
  }

  /** Every string in the pattern's language is accepted by the scan. */
  lemma PatternIsAccepted(s: string, i: nat, j: nat)
    requires SplitsAsEmail(s, i, j)
    ensures Scan(Start, s) == Matched
  {
    var a, x, y := s[..i], s[i + 1..j], s[j + 1..];
    assert s == a + ([s[i]] + (x + ([s[j]] + y)));
    ScanAppend(Start, a, [s[i]] + (x + ([s[j]] + y)));
    assert Plain(a[0]);
    PlainRunKeeps(Local, a[1..]);
    assert Scan(Start, a) == Local;
    var afterAt := x + ([s[j]] + y);
    assert Scan(Local, [s[i]] + afterAt) == Scan(AfterAt, afterAt);
    ScanAppend(AfterAt, x, [s[j]] + y);
    assert Plain(x[0]);
    PlainRunInDomain(Host, x[1..]);
    var q := Scan(AfterAt, x);
    assert q == Scan(Host, x[1..]);
    assert Scan(q, [s[j]] + y) == Scan(Step(q, '.'), y);
    assert Step(q, '.') == HostDot || Step(q, '.') == Matched;
    assert Plain(y[0]);
    PlainRunKeeps(Matched, y[1..]);
  }

  /** The scan decides exactly the language of the pattern. */
  lemma ScanDecidesPattern(s: string)
    ensures Scan(Start, s) == Matched <==> MatchesEmailPattern(s)
  {
    if Scan(Start, s) == Matched {
      var i, j := AcceptedMatchesPattern(s);
    }
    if MatchesEmailPattern(s) {
      var i: nat, j: nat :| SplitsAsEmail(s, i, j);
      PatternIsAccepted(s, i, j);
    }
  }

  /** A plain address passes the check. */
  lemma AcceptsPlainAddress()
    ensures EmailTest("ada@x.com")
  {
    var s := "ada@x.com";
    assert AllPlain(s[..3]) && AllPlain(s[4..5]) && AllPlain(s[6..]);
    PatternIsAccepted(s, 3, 5);
  }

  /** What an accepted address looks like: one `@`, not first, and every other character in
      `[^\s@]`; after the `@` there is a `.` that is neither the first nor the last character. */
  lemma AcceptedShape(s: string) returns (i: nat)
    requires EmailTest(s)
    ensures 0 < i < |s| && s[i] == '@'
    ensures forall k :: 0 <= k < |s| && k != i ==> Plain(s[k])
    ensures exists j :: i + 1 < j < |s| - 1 && s[j] == '.'
  {
    var j;
    i, j := AcceptedMatchesPattern(s);
    forall k | 0 <= k < |s| && k != i
      ensures Plain(s[k])
    {
      if k < i {
        assert s[k] == s[..i][k];
      } else if k < j {
        assert s[k] == s[i + 1..j][k - i - 1];
      } else if k > j {
        assert s[k] == s[j + 1..][k - j - 1];
      }
    }
  }

  /** A space or a second `@` anywhere fails the check. */
  lemma RejectsSpaceOrSecondAt(s: string, k1: nat, k2: nat)
    requires k1 < k2 < |s|
    requires (s[k1] == '@' || IsSpace(s[k1])) && (s[k2] == '@' || IsSpace(s[k2]))
    ensures !EmailTest(s)
  {
    if EmailTest(s) {
      var i := AcceptedShape(s);
    }
  }

  /** An address with `@` but with no `.` after it fails the check. */
  lemma RejectsDotlessDomain(s: string, i: nat)
    requires i < |s| && s[i] == '@'
    requires forall k :: i < k < |s| ==> s[k] != '.'
    ensures !EmailTest(s)
  {
    if EmailTest(s) {
      var i' := AcceptedShape(s);
    }
  }
}
