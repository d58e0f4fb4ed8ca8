/**
 * The validation rule constants (src/lib/constants.js, VALIDATION_RULES) and the
 * regular expressions of the account validators, each as a predicate with the
 * regex's own semantics: anchors, lookaheads (`.` stops at a line terminator) and
 * the ASCII meaning of `\d`.
 */
module Rules {
  import opened Wrappers
  import opened Seqs
  import opened Text

  const PASSWORD_MIN_LENGTH := 8
  const PASSWORD_MAX_LENGTH := 128
  const USERNAME_MIN_LENGTH := 3
  const USERNAME_MAX_LENGTH := 20
  const USERNAME_RESERVED: seq<string> := ["admin", "root", "system", "test"]
  const EMAIL_MAX_LENGTH := 254
  const PHONE_LENGTH := 10
  const PHONE_PREFIXES: seq<string> := ["03", "05", "07", "08", "09"]
  const NAME_MIN_LENGTH := 2
  const NAME_MAX_LENGTH := 50

  // ---------------------------------------------------------------------------
  // Email: /^[^\s@]+@[^\s@]+\.[^\s@]+$/
  // ---------------------------------------------------------------------------

  /** `[^\s@]+` */
  predicate EmailSegment(t: string) {
    |t| > 0 && forall k :: 0 <= k < |t| ==> !IsSpace(t[k]) && t[k] != '@'
  }

  /** The regex read literally: the string splits as segment `@` segment `.` segment. */
  ghost predicate EmailRegex(s: string) {
    exists i, j :: EmailSplit(s, i, j)
  }

  /** `s[..i]`, `s[i+1..j]` and `s[j+1..]` are the three segments, `s[i]` is `@`, `s[j]` is `.`. */
  ghost predicate EmailSplit(s: string, i: int, j: int) {
    && 0 < i < j < |s| - 1
    && s[i] == '@' && s[j] == '.'
    && EmailSegment(s[..i]) && EmailSegment(s[i + 1..j]) && EmailSegment(s[j + 1..])
  }

  /**
   * The same language, scanned: no `\s` anywhere, exactly one `@`, not first, and a
   * `.` in the domain that is neither its first nor the string's last character.
   */
  predicate IsEmail(s: string) {
    match FirstIndex(s, (c: char) => c == '@')
    case None => false
    case Some(i) =>
      && 0 < i
      && i + 2 <= |s| - 1
      && (forall k :: 0 <= k < |s| ==> !IsSpace(s[k]))
      && (forall k :: i < k < |s| ==> s[k] != '@')
      && '.' in s[i + 2..|s| - 1]
  }

  /** The scan accepts exactly the strings the email regex matches. */
  lemma EmailScanMatchesRegex(s: string)
    ensures IsEmail(s) <==> EmailRegex(s)
  {
    if IsEmail(s) {
      var i := FirstIndex(s, (c: char) => c == '@').value;
      var dots := s[i + 2..|s| - 1];
      var m :| 0 <= m < |dots| && dots[m] == '.';
      var j := i + 2 + m;
      assert s[j] == '.';
      assert EmailSegment(s[..i]);
      assert EmailSegment(s[i + 1..j]);
      assert EmailSegment(s[j + 1..]);
      assert EmailSplit(s, i, j);
    }
    if EmailRegex(s) {
      var i, j :| EmailSplit(s, i, j);
      forall k | 0 <= k < |s|
        ensures !IsSpace(s[k]) && (k != i ==> s[k] != '@')
      {
        if k < i {
          assert s[k] == s[..i][k];
        } else if i < k < j {
          assert s[k] == s[i + 1..j][k - i - 1];
        } else if j < k {
          assert s[k] == s[j + 1..][k - j - 1];
        }
      }
      var f := FirstIndex(s, (c: char) => c == '@');
      assert f == Some(i);
      assert s[i + 2..|s| - 1][j - i - 2] == '.';
    }
  }

  // ---------------------------------------------------------------------------
  // Passwords
  // ---------------------------------------------------------------------------

  /**
   * `/^(?=.*[a-z])(?=.*[A-Z])(?=.*\d)(?=.*[@$!%*?&])[A-Za-z\d@$!%*?&]{8,}$/`, the auth
   * service's full-match password rule. Every accepted character is ASCII, so the
   * repetition count is the string length.
   */
  ghost predicate StrongPasswordRegex(s: string) {
    && Lookahead(s, IsLower) && Lookahead(s, IsUpper)
    && Lookahead(s, IsDigit) && Lookahead(s, IsPasswordSymbol)
    && |s| >= 8 && All(s, IsPasswordChar)
  }

  /** The same rule as containment tests. */
  predicate IsStrongPassword(s: string) {
    && |s| >= 8 && All(s, IsPasswordChar)
    && Any(s, IsLower) && Any(s, IsUpper) && Any(s, IsDigit) && Any(s, IsPasswordSymbol)
  }

  lemma StrongPasswordMatchesRegex(s: string)
    ensures IsStrongPassword(s) <==> StrongPasswordRegex(s)
  {
    if All(s, IsPasswordChar) {
      assert forall i :: 0 <= i < |s| ==> !IsLineTerminator(s[i]) by {
        forall i | 0 <= i < |s| ensures !IsLineTerminator(s[i]) { assert IsPasswordChar(s[i]); }
      }
      LookaheadWithoutBreaks(s, IsLower);
      LookaheadWithoutBreaks(s, IsUpper);
      LookaheadWithoutBreaks(s, IsDigit);
      LookaheadWithoutBreaks(s, IsPasswordSymbol);
    }
  }

  /**
   * `VALIDATION_RULES.PASSWORD.PATTERN`: the same lookaheads, but only the FIRST
   * character must be a password character (no `{8,}`, no `$`).
   */
  predicate PasswordPatternTest(s: string) {
    && Lookahead(s, IsLower) && Lookahead(s, IsUpper)
    && Lookahead(s, IsDigit) && Lookahead(s, IsPasswordSymbol)
    && |s| >= 1 && IsPasswordChar(s[0])
  }

  /** Every strong password passes the unanchored pattern. */
  lemma StrongPasswordPassesPattern(s: string)
    requires IsStrongPassword(s)
    ensures PasswordPatternTest(s)
  {
    StrongPasswordMatchesRegex(s);
  }

  /** The unanchored pattern accepts characters the full rule refuses: a space here. */
  lemma PatternAcceptsSpace()
    ensures PasswordPatternTest("Aa1@ xyz") && !IsStrongPassword("Aa1@ xyz")
  {
    var s := "Aa1@ xyz";
    assert NoLineBreakBefore(s, 0) && NoLineBreakBefore(s, 1);
    assert NoLineBreakBefore(s, 2) && NoLineBreakBefore(s, 3);
    assert !IsPasswordChar(s[4]);
  }

  // ---------------------------------------------------------------------------
  // Usernames, names, phones, card expiry
  // ---------------------------------------------------------------------------

  /** `/^[a-zA-Z0-9_]{3,20}$/`, the auth service's username rule. */
  predicate UsernameRegex(s: string) {
    3 <= |s| <= 20 && All(s, IsWordChar)
  }

  /** `VALIDATION_RULES.USERNAME.PATTERN`, `/^[a-zA-Z0-9_]+$/`. */
  predicate UsernameCharsRegex(s: string) {
    |s| >= 1 && All(s, IsWordChar)
  }

  /** `/^[a-zA-ZÀ-ÿ\s]+$/` */
  predicate NameRegex(s: string) {
    |s| >= 1 && All(s, IsNameChar)
  }

  /** `VALIDATION_RULES.PHONE.PATTERN`, `/^[0-9]{10}$/`. */
  predicate PhoneRegex(s: string) {
    |s| == 10 && All(s, IsDigit)
  }

  /** `/^\d{2}\/\d{2}$/`, the card expiry shape MM/YY. */
  predicate ExpiryRegex(s: string) {
    |s| == 5 && IsDigit(s[0]) && IsDigit(s[1]) && s[2] == '/' && IsDigit(s[3]) && IsDigit(s[4])
  }

  /** `PREFIXES.includes(phone.substring(0, 2))`; `substring` clamps to the length. */
  predicate HasPhonePrefix(digits: string) {
    (if |digits| < 2 then digits else digits[..2]) in PHONE_PREFIXES
  }
}
