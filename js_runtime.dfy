/**
 * The small part of the JavaScript runtime that the contact-form core leans on:
 * parsed JSON values with JavaScript truthiness, `String.prototype.trim`,
 * `split(',')[0]` and `toLowerCase`.
 */
module JsRuntime {

  datatype Option<+T> = None | Some(value: T)

  /** A value as `request.json()` produces it, plus `undefined` for a missing property. */
  datatype Value =
    | Undefined
    | Null
    | Bool(b: bool)
    | Num(n: real)
    | Str(s: string)
    | Arr(items: seq<Value>)
    | Obj(props: map<string, Value>)

  /** JavaScript truthiness: `!v` is true exactly when this is false (JSON has no NaN). */
  predicate Truthy(v: Value) {
    match v
    case Undefined => false
    case Null => false
    case Bool(b) => b
    case Num(n) => n != 0.0
    case Str(s) => s != ""
    case Arr(_) => true
    case Obj(_) => true
  }

  /** `v[key]` for a value that is not null or undefined: only objects carry the keys read here. */
  function Prop(v: Value, key: string): Value {
    if v.Obj? && key in v.props then v.props[key] else Undefined
  }

  /**
   * The characters that both `trim` and the regular-expression class `\s` treat as
   * white space: ECMAScript's WhiteSpace and LineTerminator productions (TAB, LF, VT,
   * FF, CR, SPACE, NBSP, the Unicode space separators, LS, PS and the BOM).
   */
  predicate IsSpace(c: char) {
    var n := c as int;
    n == 0x09 || n == 0x0A || n == 0x0B || n == 0x0C || n == 0x0D || n == 0x20
    || n == 0xA0 || n == 0x1680 || (0x2000 <= n <= 0x200A) || n == 0x2028 || n == 0x2029
    || n == 0x202F || n == 0x205F || n == 0x3000 || n == 0xFEFF
  }

  predicate AllSpace(s: string) {
    forall k | 0 <= k < |s| :: IsSpace(s[k])
  }

  predicate NoSpace(s: string) {
    forall k | 0 <= k < |s| :: !IsSpace(s[k])
  }

  /** No white space at either end: what `trim` guarantees of its result. */
  predicate Trimmed(s: string) {
    s == [] || (!IsSpace(s[0]) && !IsSpace(s[|s| - 1]))
  }

  /** True when `!s.trim()` holds in the source: the string is empty or all white space. */
  predicate IsBlank(s: string) {
    AllSpace(s)
  }

  /** The number of white-space characters `s` starts with. */
  function Leading(s: string): (n: nat)
    ensures n <= |s|
  {
    if s != [] && IsSpace(s[0]) then 1 + Leading(s[1..]) else 0
  }

  /** The number of white-space characters `s` ends with. */
  function Trailing(s: string): (n: nat)
    ensures n <= |s|
  {
    if s != [] && IsSpace(s[|s| - 1]) then 1 + Trailing(s[..|s| - 1]) else 0
  }

  /**
   * `s.trim()`: the leading white space cut off, then the trailing white space. The
   * result is never longer and has no white space at either end; `TrimIsInfix`
   * says which infix it is.
   */
  function Trim(s: string): (r: string)
    ensures |r| <= |s|
    ensures Trimmed(r)
  {
    var t := s[Leading(s)..];
    LeadingIsSpaceRun(s);
    TrailingIsSpaceRun(t);
    var r := t[..|t| - Trailing(t)];
    assert r != [] ==> r[0] == t[0] && r[|r| - 1] == t[|t| - Trailing(t) - 1];
    r
  }

  /** `Leading` counts exactly the white-space run at the front. */
  lemma {:induction false} LeadingIsSpaceRun(s: string)
    ensures AllSpace(s[..Leading(s)])
    ensures Leading(s) < |s| ==> !IsSpace(s[Leading(s)])
  {
    if s != [] && IsSpace(s[0]) {
      LeadingIsSpaceRun(s[1..]);
      var n := Leading(s[1..]);
      assert s[..n + 1] == [s[0]] + s[1..][..n];
    }
  }

  /** `Trailing` counts exactly the white-space run at the back. */
  lemma {:induction false} TrailingIsSpaceRun(s: string)
    ensures AllSpace(s[|s| - Trailing(s)..])
    ensures Trailing(s) < |s| ==> !IsSpace(s[|s| - Trailing(s) - 1])
  {
    if s != [] && IsSpace(s[|s| - 1]) {
      var u := s[..|s| - 1];
      TrailingIsSpaceRun(u);
      var n := Trailing(u);
      assert s[|s| - (n + 1)..] == u[|u| - n..] + [s[|s| - 1]];
    }
  }

  /**
   * What `trim` leaves is an infix of `s` with no white space at either end, and
   * everything it cut off on either side is white space.
   */
  lemma TrimIsInfix(s: string)
    ensures Trimmed(Trim(s))
    ensures exists i, j | 0 <= i <= j <= |s| :: Trim(s) == s[i..j] && AllSpace(s[..i]) && AllSpace(s[j..])
  {
    var i := Leading(s);
    var t := s[i..];
    var j := i + |t| - Trailing(t);
    LeadingIsSpaceRun(s);
    TrailingIsSpaceRun(t);
    var r := Trim(s);
    assert r == s[i..j];
    assert s[j..] == t[|t| - Trailing(t)..];
    if r != [] {
      assert r[0] == s[i];
      assert r[|r| - 1] == t[|t| - Trailing(t) - 1];
    }
  }

  /** A string is blank exactly when trimming leaves nothing. */
  lemma {:induction false} TrimEmptyIffBlank(s: string)
    ensures Trim(s) == [] <==> IsBlank(s)
  {
    TrimIsInfix(s);
    var r := Trim(s);
    var i, j :| 0 <= i <= j <= |s| && r == s[i..j] && AllSpace(s[..i]) && AllSpace(s[j..]);
    if r == [] {
      assert i == j;
      forall k | 0 <= k < |s| ensures IsSpace(s[k]) {
        if k < i { assert s[k] == s[..i][k]; } else { assert s[k] == s[j..][k - j]; }
      }
    } else {
      assert s[i] == r[0];
      assert !IsSpace(s[i]);
    }
  }

  /** Trimming a string that holds no white space leaves it as it is. */
  lemma {:induction false} TrimNoSpace(s: string)
    requires NoSpace(s)
    ensures Trim(s) == s
  {
    TrimIsInfix(s);
    var r := Trim(s);
    var i, j :| 0 <= i <= j <= |s| && r == s[i..j] && AllSpace(s[..i]) && AllSpace(s[j..]);
    assert i == 0 && j == |s|;
  }

  /** `s.split(',')[0]`: everything before the first comma, or all of `s` when it has none. */
  function FirstField(s: string): (r: string)
    ensures r <= s
    ensures ',' !in r
    ensures r == s || s[|r|] == ','
  {
    if s == [] || s[0] == ',' then [] else [s[0]] + FirstField(s[1..])
  }

  function LowerChar(c: char): char {
    if 'A' <= c <= 'Z' then (c as int + 32) as char else c
  }

  /**
   * `s.toLowerCase()` on the ASCII letters: no upper-case letter is left, and a
   * character changes only when it was an upper-case letter, into its lower-case
   * partner 32 code points on.
   */
  function Lower(s: string): (r: string)
    ensures |r| == |s|
    ensures forall k | 0 <= k < |r| :: !('A' <= r[k] <= 'Z')
    ensures forall k | 0 <= k < |s| :: r[k] != s[k] ==> 'A' <= s[k] <= 'Z' && r[k] as int == s[k] as int + 32
  {
    seq(|s|, k requires 0 <= k < |s| => LowerChar(s[k]))
  }
}
