/**
 * The sign-up route's e-mail check, the regular expression `^[^\s@]+@[^\s@]+\.[^\s@]+$`.
 * `Pattern` is the language the expression denotes; `Matches` is a direct scan of the
 * string; `MatchesIffPattern` shows they accept the same strings.
 */
module Email {
  import opened Text

  /** `\s` in a JavaScript regular expression: the white-space and line-terminator characters of ECMA-262. */
  predicate Space(c: char) {
    var x := c as int;
    x == 0x09 || x == 0x0A || x == 0x0B || x == 0x0C || x == 0x0D || x == 0x20 || x == 0xA0 || x == 0x1680
    || (0x2000 <= x <= 0x200A) || x == 0x2028 || x == 0x2029 || x == 0x202F || x == 0x205F || x == 0x3000 || x == 0xFEFF
  }

  /** `[^\s@]`. */
  predicate Plain(c: char) {
    !Space(c) && c != '@'
  }

  /** `[^\s@]+`. */
  predicate Part(x: string) {
    |x| > 0 && forall i :: 0 <= i < |x| ==> Plain(x[i])
  }

  /** The strings the expression accepts: three non-empty parts, joined by `@` and by a dot. */
  ghost predicate Pattern(s: string) {
    exists a, b, c :: Part(a) && Part(b) && Part(c) && s == a + "@" + b + "." + c
  }

  predicate NoSpace(s: string) {
    forall i :: 0 <= i < |s| ==> !Space(s[i])
  }

  /** A dot that is neither the first nor the last character. */
  predicate InnerDot(d: string) {
    exists j :: 1 <= j < |d| - 1 && d[j] == '.'
  }

  /**
   * The check as a scan: no white space, a non-empty name before the first `@`, no second
   * `@`, and a dot strictly inside what follows the `@`.
   */
  predicate Matches(s: string) {
    var local := Before(s, '@');
    |local| > 0 && |local| < |s| && NoSpace(s)
    && '@' !in s[|local| + 1..] && InnerDot(s[|local| + 1..])
  }

  lemma {:induction false} BeforeFirst(a: string, c: char, rest: string)
    requires c !in a
    ensures Before(a + [c] + rest, c) == a
  {
    if |a| > 0 {
      assert (a + [c] + rest)[1..] == a[1..] + [c] + rest;
      BeforeFirst(a[1..], c, rest);
      assert [a[0]] + a[1..] == a;
    }
  }

  /** The scan accepts exactly the strings of the pattern. */
  lemma MatchesIffPattern(s: string)
    ensures Matches(s) <==> Pattern(s)
  {
    if Pattern(s) {
      var a, b, c :| Part(a) && Part(b) && Part(c) && s == a + "@" + b + "." + c;
      PatternMatches(s, a, b, c);
    }
    if Matches(s) {
      MatchesPattern(s);
    }
  }

  lemma PatternMatches(s: string, a: string, b: string, c: string)
    requires Part(a) && Part(b) && Part(c) && s == a + "@" + b + "." + c
    ensures Matches(s)
  {
    assert '@' !in a by {
      forall i | 0 <= i < |a| ensures a[i] != '@' { assert Plain(a[i]); }
    }
    assert s == a + ['@'] + (b + "." + c);
    BeforeFirst(a, '@', b + "." + c);
    var d := s[|a| + 1..];
    assert d == b + "." + c;
    assert d[|b|] == '.';
    forall i | 0 <= i < |d| ensures d[i] != '@' {
      if i < |b| { assert d[i] == b[i]; }
      else if i > |b| { assert d[i] == c[i - |b| - 1]; }
    }
    forall i | 0 <= i < |s| ensures !Space(s[i]) {
      if i < |a| { assert s[i] == a[i]; }
      else if i > |a| { assert s[i] == d[i - |a| - 1]; if i - |a| - 1 < |b| { assert d[i - |a| - 1] == b[i - |a| - 1]; } else if i - |a| - 1 > |b| { assert d[i - |a| - 1] == c[i - |a| - 1 - |b| - 1]; } }
    }
  }

  lemma MatchesPattern(s: string)
    requires Matches(s)
    ensures Pattern(s)
  {
    var a := Before(s, '@');
    var d := s[|a| + 1..];
    var j :| 1 <= j < |d| - 1 && d[j] == '.';
    var b := d[..j];
    var c := d[j + 1..];
    assert s == a + "@" + b + "." + c by {
      assert s == s[..|a|] + [s[|a|]] + d;
      assert d == b + "." + c;
    }
    forall i | 0 <= i < |a| ensures Plain(a[i]) {
      assert a[i] == s[i];
    }
    forall i | 0 <= i < |b| ensures Plain(b[i]) {
      assert b[i] == d[i] == s[|a| + 1 + i];
    }
    forall i | 0 <= i < |c| ensures Plain(c[i]) {
      assert c[i] == d[j + 1 + i] == s[|a| + 1 + j + 1 + i];
    }
    assert Part(a) && Part(b) && Part(c);
  }

  /** A string with white space or without an `@` never passes. */
  lemma Rejects(s: string)
    ensures (exists i :: 0 <= i < |s| && Space(s[i])) ==> !Matches(s)
    ensures '@' !in s ==> !Matches(s)
  {
  }
}
