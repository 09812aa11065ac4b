/**
 * The three regular expressions the forms test strings against, each as an
 * executable predicate. The e-mail pattern also has a reference reading that
 * follows the regular expression piece by piece, and the two are proved equal.
 *
 *   e-mail:  ^[^\s@]+@[^\s@]+\.[^\s@]+$
 *   URL:     ^https?:\/\/\S+$
 *   contact: ^\d{10}$
 */
module Patterns {
  import opened Js

  /** No character of `s` is matched by `\s`. */
  predicate NoSpace(s: string) { forall k :: 0 <= k < |s| ==> !IsSpace(s[k]) }

  /** `s` is a run of the class `[^\s@]` (possibly empty). */
  predicate Plain(s: string) { forall k :: 0 <= k < |s| ==> !IsSpace(s[k]) && s[k] != '@' }

  /**
   * Reference reading of the e-mail pattern: the string splits as
   * L "@" D "." T with L, D and T non-empty runs of `[^\s@]`; `i` is the
   * index of the `@`, `j` the index of the literal dot.
   */
  ghost predicate EmailRegex(s: string) {
    exists i, j :: 0 < i && i + 1 < j && j + 1 < |s| && s[i] == '@' && s[j] == '.' &&
      Plain(s[..i]) && Plain(s[i + 1..j]) && Plain(s[j + 1..])
  }

  /** The domain part has a dot that is neither its first nor its last character. */
  predicate HasInnerDot(d: string) { exists p | 0 < p < |d| - 1 :: d[p] == '.' }

  /**
   * The e-mail test: no whitespace, exactly one `@`, a non-empty local part
   * before it, and a domain after it with an inner dot.
   */
  predicate IsEmail(s: string) {
    NoSpace(s) &&
    exists i | 0 < i < |s| :: s[i] == '@' && OnlyAt(s, i) && HasInnerDot(s[i + 1..])
  }

  /** Index `i` holds the only `@` of `s`. */
  predicate OnlyAt(s: string, i: int) { forall k | 0 <= k < |s| && k != i :: s[k] != '@' }

  /** Every index in [a, b) holds a character of `[^\s@]`. */
  predicate PlainRange(s: string, a: int, b: int)
    requires 0 <= a <= b <= |s|
  {
    forall k | a <= k < b :: !IsSpace(s[k]) && s[k] != '@'
  }

  lemma PlainSlice(s: string, a: int, b: int)
    requires 0 <= a <= b <= |s|
    ensures Plain(s[a..b]) <==> PlainRange(s, a, b)
  {
    if Plain(s[a..b]) {
      forall k | a <= k < b ensures !IsSpace(s[k]) && s[k] != '@' {
        assert s[k] == s[a..b][k - a];
      }
    }
  }

  /** The scanning test and the regular expression accept the same strings. */
  lemma EmailMatchesRegex(s: string)
    ensures IsEmail(s) <==> EmailRegex(s)
  {
    if IsEmail(s) { EmailImpliesRegex(s); }
    if EmailRegex(s) { RegexImpliesEmail(s); }
  }

  lemma EmailImpliesRegex(s: string)
    requires IsEmail(s)
    ensures EmailRegex(s)
  {
    var i :| 0 < i < |s| && s[i] == '@' && OnlyAt(s, i) && HasInnerDot(s[i + 1..]);
    var p :| 0 < p < |s| - i - 2 && s[i + 1..][p] == '.';
    assert s[i + 1 + p] == s[i + 1..][p];
    RegexAt(s, i, i + 1 + p);
  }

  /** A string without whitespace whose only `@` is at i, with a dot at j past it, matches the pattern. */
  lemma RegexAt(s: string, i: int, j: int)
    requires 0 < i && i + 1 < j && j + 1 < |s| && s[i] == '@' && s[j] == '.'
    requires NoSpace(s) && OnlyAt(s, i)
    ensures EmailRegex(s)
  {
    assert PlainRange(s, 0, i) && PlainRange(s, i + 1, j) && PlainRange(s, j + 1, |s|);
    PlainSlice(s, 0, i);
    PlainSlice(s, i + 1, j);
    PlainSlice(s, j + 1, |s|);
    assert s[..i] == s[0..i] && s[j + 1..] == s[j + 1..|s|];
  }

  lemma RegexImpliesEmail(s: string)
    requires EmailRegex(s)
    ensures IsEmail(s)
  {
    var i, j :| 0 < i && i + 1 < j && j + 1 < |s| && s[i] == '@' && s[j] == '.' &&
      Plain(s[..i]) && Plain(s[i + 1..j]) && Plain(s[j + 1..]);
    assert s[..i] == s[0..i] && s[j + 1..] == s[j + 1..|s|];
    PlainSlice(s, 0, i);
    PlainSlice(s, i + 1, j);
    PlainSlice(s, j + 1, |s|);
    EmailAt(s, i, j);
  }

  /** The e-mail test accepts L "@" D "." T given by index ranges. */
  lemma EmailAt(s: string, i: int, j: int)
    requires 0 < i && i + 1 < j && j + 1 < |s| && s[i] == '@' && s[j] == '.'
    requires PlainRange(s, 0, i) && PlainRange(s, i + 1, j) && PlainRange(s, j + 1, |s|)
    ensures IsEmail(s)
  {
    assert NoSpace(s) && OnlyAt(s, i) by {
      forall k | 0 <= k < |s|
        ensures !IsSpace(s[k]) && (k != i ==> s[k] != '@')
      {
        if k < i {
        } else if i < k < j {
        } else if j < k {
        }
      }
    }
    var d := s[i + 1..];
    assert d[j - i - 1] == '.';
    assert HasInnerDot(d);
  }

  /** Printable ASCII other than the space is never whitespace. */
  lemma VisibleNoSpace(s: string)
    requires forall k :: 0 <= k < |s| ==> '!' <= s[k] <= '~'
    ensures NoSpace(s)
  {
  }

  /** Printable ASCII other than the space and `@` is a run of `[^\s@]`. */
  lemma VisiblePlain(s: string)
    requires forall k :: 0 <= k < |s| ==> '!' <= s[k] <= '~' && s[k] != '@'
    ensures Plain(s)
  {
  }

  /** `^https?:\/\/\S+$`: an http or https scheme and at least one non-space character after it. */
  predicate IsHttpUrl(s: string) {
    (|s| > 7 && s[..7] == "http://" && NoSpace(s[7..])) ||
    (|s| > 8 && s[..8] == "https://" && NoSpace(s[8..]))
  }

  /** `^\d{10}$`: exactly ten ASCII digits. */
  predicate IsTenDigits(s: string) { |s| == 10 && AllDigits(s) }

  /** An accepted URL contains no whitespace anywhere and names one of the two schemes. */
  lemma HttpUrlShape(s: string)
    requires IsHttpUrl(s)
    ensures NoSpace(s)
    ensures s[..4] == "http" && (s[4] == ':' || s[4..6] == "s:")
  {
    var n := if s[..7] == "http://" then 7 else 8;
    forall k | 0 <= k < |s| ensures !IsSpace(s[k]) {
      if k < n { assert s[k] == s[..n][k]; } else { assert s[k] == s[n..][k - n]; }
    }
  }

  lemma EmailExamples()
    ensures IsEmail("a@b.co")
    ensures !IsEmail("a@b") && !IsEmail("a.com") && !IsEmail("")
    ensures !IsEmail("a b@c.de") && !IsEmail("a@b@c.de") && !IsEmail("@b.co") && !IsEmail("a@.co") && !IsEmail("a@b.")
  {
    assert "a@b.co"[1] == '@';
    assert "a@b.co"[2..][1] == '.';
    assert IsSpace("a b@c.de"[1]);
    assert "a@b@c.de"[1] == '@' && "a@b@c.de"[3] == '@';
  }

  lemma UrlExamples()
    ensures IsHttpUrl("https://x.com") && IsHttpUrl("http://x")
    ensures !IsHttpUrl("x.com") && !IsHttpUrl("") && !IsHttpUrl("https://") && !IsHttpUrl("ftp://x.com")
    ensures !IsHttpUrl("https://a b")
  {
    assert "https://x.com"[..8] == "https://";
    assert "http://x"[..7] == "http://";
    assert "https://"[4] == 's';
    assert "ftp://x.com"[0] == 'f';
    assert "https://a b"[8..][1] == ' ';
  }

  /** The sample address of the demonstration data is accepted. */
  lemma SampleEmail()
    ensures IsEmail("john@example.com")
  {
    var s := "john@example.com";
    assert s[..4] == "john" && s[5..12] == "example" && s[13..] == "com";
    VisiblePlain("john");
    VisiblePlain("example");
    VisiblePlain("com");
    assert s[4] == '@' && s[12] == '.';
    RegexImpliesEmail(s);
  }

  /** The sample profile links of the demonstration data are accepted. */
  lemma SampleLinks()
    ensures IsHttpUrl("https://linkedin.com/in/example") && IsHttpUrl("https://github.com/example")
  {
    SampleLinkedIn();
    SampleGitHub();
  }

  lemma SampleLinkedIn()
    ensures IsHttpUrl("https://linkedin.com/in/example")
  {
    var a := "https://linkedin.com/in/example";
    assert a[..8] == "https://";
    forall k | 8 <= k < |a| ensures '!' <= a[k] <= '~' {
      assert k in {8, 9, 10, 11, 12, 13, 14, 15, 16, 17, 18, 19, 20, 21, 22, 23, 24, 25, 26, 27, 28, 29, 30};
    }
    VisibleNoSpace(a[8..]);
  }

  lemma SampleGitHub()
    ensures IsHttpUrl("https://github.com/example")
  {
    var b := "https://github.com/example";
    assert b[..8] == "https://";
    forall k | 8 <= k < |b| ensures '!' <= b[k] <= '~' {
      assert k in {8, 9, 10, 11, 12, 13, 14, 15, 16, 17, 18, 19, 20, 21, 22, 23, 24, 25};
    }
    VisibleNoSpace(b[8..]);
  }

  lemma ContactExamples()
    ensures IsTenDigits("9876543210")
    ensures !IsTenDigits("987654321") && !IsTenDigits("98765432101") && !IsTenDigits("98765-4321") && !IsTenDigits("")
  {
    assert "98765-4321"[5] == '-';
  }
}
