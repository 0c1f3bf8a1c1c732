/**
 * The e-mail shape both validators test with the regular expression
 * `^[^\s@]+@[^\s@]+\.[^\s@]+$`: a declarative reading of the pattern and the
 * scanner the validators call, proved to accept the same strings.
 */
module EmailPattern {
  import opened JsRuntime

  /** A character of the class `[^\s@]`. */
  predicate EmailChar(c: char) {
    c != '@' && !IsSpace(c)
  }

  /** A string made only of `[^\s@]` characters (so `[^\s@]+` when non-empty). */
  predicate EmailRun(t: string) {
    forall k | 0 <= k < |t| :: EmailChar(t[k])
  }

  /**
   * The regular expression read literally: `s` is a non-empty run, an `@` at `i`,
   * a non-empty run, a `.` at `j`, and a non-empty run that reaches the end.
   */
  ghost predicate MatchesRegex(s: string) {
    exists i, j | 0 < i && i + 1 < j && j + 1 < |s| ::
      s[i] == '@' && s[j] == '.' && EmailRun(s[..i]) && EmailRun(s[i + 1..j]) && EmailRun(s[j + 1..])
  }

  /** Position of the first occurrence of `c` in `s`. */
  function IndexOf(s: string, c: char): (r: Option<nat>)
    ensures r.None? <==> c !in s
    ensures r.Some? ==> r.value < |s| && s[r.value] == c && c !in s[..r.value]
  {
    if s == [] then None
    else if s[0] == c then Some(0)
    else
      match IndexOf(s[1..], c)
      case None => None
      case Some(k) =>
        assert s[..k + 1] == [s[0]] + s[1..][..k];
        Some(k + 1)
  }

  /** The part after the `@`: a run with a `.` neither first nor last. */
  predicate HostAndSuffix(d: string) {
    EmailRun(d) && exists j | 0 < j < |d| - 1 :: d[j] == '.'
  }

  /**
   * `/^[^\s@]+@[^\s@]+\.[^\s@]+$/.test(s)`, decided by locating the only `@`. An
   * accepted address has an `@` that is not its first character and at least five
   * characters; `IsEmailMatchesRegex` says it is exactly the pattern.
   */
  predicate IsEmail(s: string): (ok: bool)
    ensures ok ==> '@' in s && s[0] != '@' && 5 <= |s|
  {
    match IndexOf(s, '@')
    case None => false
    case Some(i) => 0 < i && EmailRun(s[..i]) && HostAndSuffix(s[i + 1..])
  }

  /** The scanner accepts exactly the strings the regular expression matches. */
  lemma IsEmailMatchesRegex(s: string)
    ensures IsEmail(s) <==> MatchesRegex(s)
  {
    if IsEmail(s) { ScannerToRegex(s); }
    if MatchesRegex(s) {
      var i, j :| 0 < i && i + 1 < j && j + 1 < |s| && s[i] == '@' && s[j] == '.'
        && EmailRun(s[..i]) && EmailRun(s[i + 1..j]) && EmailRun(s[j + 1..]);
      RegexToScanner(s, i, j);
    }
  }

  lemma ScannerToRegex(s: string)
    requires IsEmail(s)
    ensures MatchesRegex(s)
  {
    var i := IndexOf(s, '@').value;
    var d := s[i + 1..];
    var j' :| 0 < j' < |d| - 1 && d[j'] == '.';
    var j := i + 1 + j';
    assert s[i + 1..j] == d[..j'];
    assert s[j + 1..] == d[j' + 1..];
    assert EmailRun(s[i + 1..j]) && EmailRun(s[j + 1..]);
    assert s[i] == '@' && s[j] == '.';
  }

  lemma RegexToScanner(s: string, i: nat, j: nat)
    requires 0 < i && i + 1 < j && j + 1 < |s| && s[i] == '@' && s[j] == '.'
    requires EmailRun(s[..i]) && EmailRun(s[i + 1..j]) && EmailRun(s[j + 1..])
    ensures IsEmail(s)
  {
    FirstAt(s, i);
    var d := s[i + 1..];
    assert d == s[i + 1..j] + ['.'] + s[j + 1..];
    EmailRunJoin(s[i + 1..j], s[j + 1..]);
    assert d[j - i - 1] == '.';
  }

  /** Two runs joined by a dot form a run. */
  lemma EmailRunJoin(a: string, b: string)
    requires EmailRun(a) && EmailRun(b)
    ensures EmailRun(a + ['.'] + b)
  {
    var d := a + ['.'] + b;
    forall k | 0 <= k < |d| ensures EmailChar(d[k]) {
      if k < |a| { assert d[k] == a[k]; }
      else if k > |a| { assert d[k] == b[k - |a| - 1]; }
      else { assert d[k] == '.'; }
    }
  }

  /** A matching address has no white space, so it is never blank and `trim` leaves it as it is. */
  lemma EmailHasNoSpace(s: string)
    requires IsEmail(s)
    ensures NoSpace(s) && !IsBlank(s) && Trim(s) == s && |s| >= 5
  {
    var i := IndexOf(s, '@').value;
    var a, d := s[..i], s[i + 1..];
    assert 0 < i && EmailRun(a) && HostAndSuffix(d);
    assert |d| >= 3;
    RunHasNoSpace(a);
    RunHasNoSpace(d);
    assert NoSpace(s) by {
      forall k | 0 <= k < |s| ensures !IsSpace(s[k]) {
        if k < i { assert s[k] == a[k]; }
        else if k > i { assert s[k] == d[k - i - 1]; }
        else { assert s[k] == '@'; }
      }
    }
    assert !IsSpace(s[0]);
    TrimNoSpace(s);
  }

  lemma RunHasNoSpace(t: string)
    requires EmailRun(t)
    ensures NoSpace(t)
  {
    forall k | 0 <= k < |t| ensures !IsSpace(t[k]) { assert EmailChar(t[k]); }
  }

  /** Lower-casing a run keeps it a run: an upper-case letter becomes a letter. */
  lemma LowerKeepsRun(t: string)
    requires EmailRun(t)
    ensures EmailRun(Lower(t))
  {
    var l := Lower(t);
    forall k | 0 <= k < |l| ensures EmailChar(l[k]) {
      assert EmailChar(t[k]);
      var c := t[k];
      if 'A' <= c <= 'Z' {
        var n := c as int + 32;
        assert 97 <= n <= 122;
        assert l[k] as int == n;
      }
    }
  }

  /** Lower-casing ASCII letters keeps an address matching the pattern. */
  lemma LowerKeepsEmail(s: string)
    requires IsEmail(s)
    ensures IsEmail(Lower(s))
  {
    var i := IndexOf(s, '@').value;
    var l := Lower(s);
    assert l[..i] == Lower(s[..i]);
    assert l[i + 1..] == Lower(s[i + 1..]);
    LowerKeepsRun(s[..i]);
    LowerKeepsHost(s[i + 1..]);
    FirstAt(l, i);
  }

  lemma LowerKeepsHost(d: string)
    requires HostAndSuffix(d)
    ensures HostAndSuffix(Lower(d))
  {
    LowerKeepsRun(d);
    var j :| 0 < j < |d| - 1 && d[j] == '.';
    assert Lower(d)[j] == '.';
  }

  /** An `@` preceded by a run is the first one. */
  lemma FirstAt(s: string, i: nat)
    requires i < |s| && s[i] == '@' && EmailRun(s[..i])
    ensures IndexOf(s, '@') == Some(i)
  {
    assert '@' !in s[..i] by {
      forall k | 0 <= k < i ensures s[..i][k] != '@' { assert EmailChar(s[..i][k]); }
    }
  }
}
