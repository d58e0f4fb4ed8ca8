/**
 * The string primitives of the JavaScript runtime that the account store and its
 * validators rely on: the regex character classes they use (`\s`, `\d`, `[a-z]`, ...),
 * `trim`, `toLowerCase`, `replace(/\D/g, '')`, `.length` (UTF-16 code units),
 * `parseInt` and `Number.prototype.toString`.
 *
 * Strings are sequences of Unicode scalar values.
 */
module Text {
  import opened Wrappers

  // ---------------------------------------------------------------------------
  // Character classes
  // ---------------------------------------------------------------------------

  /** `\s` in a JavaScript regex, and exactly the characters `String.prototype.trim` strips. */
  predicate IsSpace(c: char) {
    || c == '\t' || c == '\n' || c == '\U{B}' || c == '\U{C}' || c == '\r' || c == ' '
    || c == '\U{A0}' || c == '\U{1680}' || ('\U{2000}' <= c <= '\U{200A}')
    || c == '\U{2028}' || c == '\U{2029}' || c == '\U{202F}' || c == '\U{205F}'
    || c == '\U{3000}' || c == '\U{FEFF}'
  }

  /** The characters a regex `.` refuses to match. */
  predicate IsLineTerminator(c: char) {
    c == '\n' || c == '\r' || c == '\U{2028}' || c == '\U{2029}'
  }

  /** `\d`: the ASCII digits only. */
  predicate IsDigit(c: char) { '0' <= c <= '9' }

  /** `[a-z]` */
  predicate IsLower(c: char) { 'a' <= c <= 'z' }

  /** `[A-Z]` */
  predicate IsUpper(c: char) { 'A' <= c <= 'Z' }

  /** `[a-zA-Z]` */
  predicate IsAsciiLetter(c: char) { IsLower(c) || IsUpper(c) }

  /** `[a-zA-Z0-9]` */
  predicate IsAlnum(c: char) { IsAsciiLetter(c) || IsDigit(c) }

  /** `[a-zA-Z0-9_]`, the username character class. */
  predicate IsWordChar(c: char) { IsAlnum(c) || c == '_' }

  /** `[@$!%*?&]`, the password symbol class. */
  predicate IsPasswordSymbol(c: char) {
    c == '@' || c == '$' || c == '!' || c == '%' || c == '*' || c == '?' || c == '&'
  }

  /** `[A-Za-z\d@$!%*?&]`, the characters a password may consist of. */
  predicate IsPasswordChar(c: char) { IsAlnum(c) || IsPasswordSymbol(c) }

  /** `[a-zA-ZÀ-ÿ\s]`, the personal-name character class (`À-ÿ` is U+00C0..U+00FF). */
  predicate IsNameChar(c: char) {
    IsAsciiLetter(c) || ('\U{C0}' <= c <= '\U{FF}') || IsSpace(c)
  }

  /** True iff every character of `s` satisfies the given class. */
  predicate All(s: string, p: char -> bool) {
    forall i :: 0 <= i < |s| ==> p(s[i])
  }

  /** True iff some character of `s` satisfies the given class (an unanchored `/[..]/.test`). */
  predicate Any(s: string, p: char -> bool) {
    exists i :: 0 <= i < |s| && p(s[i])
  }

  /** `(?=.*[..])` at the start of `s`: a character of the class occurs before the first line terminator. */
  predicate Lookahead(s: string, p: char -> bool) {
    exists i :: 0 <= i < |s| && p(s[i]) && NoLineBreakBefore(s, i)
  }

  /** No line terminator occurs among the first `i` characters of `s`. */
  predicate NoLineBreakBefore(s: string, i: int)
    requires 0 <= i <= |s|
  {
    forall k :: 0 <= k < i ==> !IsLineTerminator(s[k])
  }

  /** A lookahead over a line-terminator-free string is a plain containment test. */
  lemma LookaheadWithoutBreaks(s: string, p: char -> bool)
    requires forall i :: 0 <= i < |s| ==> !IsLineTerminator(s[i])
    ensures Lookahead(s, p) <==> Any(s, p)
  {
    if Any(s, p) {
      var i :| 0 <= i < |s| && p(s[i]);
      assert NoLineBreakBefore(s, i);
    }
  }

  predicate StartsWith(s: string, prefix: string) {
    |prefix| <= |s| && s[..|prefix|] == prefix
  }

  // ---------------------------------------------------------------------------
  // String.prototype.length
  // ---------------------------------------------------------------------------

  /** `.length` of a JavaScript string: characters beyond the BMP count as two UTF-16 code units. */
  function JsLength(s: string): (n: nat)
    ensures |s| <= n <= 2 * |s|
    ensures (forall i :: 0 <= i < |s| ==> s[i] as int <= 0xFFFF) ==> n == |s|
  {
    if s == [] then 0
    else (if s[0] as int > 0xFFFF then 2 else 1) + JsLength(s[1..])
  }

  // ---------------------------------------------------------------------------
  // replace(/\D/g, '')
  // ---------------------------------------------------------------------------

  /** `s.replace(/\D/g, '')`: the ASCII digits of `s`, in order. */
  function Digits(s: string): (r: string)
    ensures |r| <= |s|
    ensures All(r, IsDigit)
    ensures All(s, IsDigit) ==> r == s
    ensures (forall i :: 0 <= i < |s| ==> !IsDigit(s[i])) ==> r == []
  {
    if s == [] then []
    else (if IsDigit(s[0]) then [s[0]] else []) + Digits(s[1..])
  }

  /** The digit projection distributes over concatenation. */
  lemma {:induction false} DigitsAppend(a: string, b: string)
    ensures Digits(a + b) == Digits(a) + Digits(b)
  {
    if a == [] {
      assert a + b == b;
    } else {
      var h := if IsDigit(a[0]) then [a[0]] else [];
      assert (a + b)[0] == a[0];
      assert (a + b)[1..] == a[1..] + b;
      assert Digits(a + b) == h + Digits(a[1..] + b);
      DigitsAppend(a[1..], b);
      assert Digits(a + b) == h + (Digits(a[1..]) + Digits(b));
      assert h + (Digits(a[1..]) + Digits(b)) == (h + Digits(a[1..])) + Digits(b);
    }
  }

  // ---------------------------------------------------------------------------
  // trim
  // ---------------------------------------------------------------------------

  /** `trimStart`: `s` without its leading `\s` characters. */
  function TrimStart(s: string): (r: string)
    ensures |r| <= |s| && r == s[|s| - |r|..]
    ensures forall i :: 0 <= i < |s| - |r| ==> IsSpace(s[i])
    ensures |r| > 0 ==> !IsSpace(r[0])
    ensures r == [] <==> All(s, IsSpace)
  {
    if |s| > 0 && IsSpace(s[0]) then TrimStart(s[1..]) else s
  }

  /** `trimEnd`: `s` without its trailing `\s` characters. */
  function TrimEnd(s: string): (r: string)
    ensures |r| <= |s| && r == s[..|r|]
    ensures forall i :: |r| <= i < |s| ==> IsSpace(s[i])
    ensures |r| > 0 ==> !IsSpace(r[|r| - 1])
    ensures r == [] <==> All(s, IsSpace)
  {
    if |s| > 0 && IsSpace(s[|s| - 1]) then TrimEnd(s[..|s| - 1]) else s
  }

  /** `trim`: `s` without leading and trailing `\s` characters. */
  function Trim(s: string): (r: string)
    ensures |r| <= |s|
    ensures |r| > 0 ==> !IsSpace(r[0]) && !IsSpace(r[|r| - 1])
    ensures All(s, IsSpace) <==> r == []
  {
    var t := TrimStart(s);
    assert |t| > 0 ==> !All(t, IsSpace);
    TrimEnd(t)
  }

  lemma TrimStartFixed(s: string)
    requires |s| == 0 || !IsSpace(s[0])
    ensures TrimStart(s) == s
  {
  }

  lemma TrimEndFixed(s: string)
    requires |s| == 0 || !IsSpace(s[|s| - 1])
    ensures TrimEnd(s) == s
  {
  }

  /** Trimming a trimmed string changes nothing. */
  lemma TrimIdempotent(s: string)
    ensures Trim(Trim(s)) == Trim(s)
  {
    var r := Trim(s);
    TrimStartFixed(r);
    TrimEndFixed(r);
  }

  // ---------------------------------------------------------------------------
  // toLowerCase / toUpperCase
  // ---------------------------------------------------------------------------

  /** Lower-case mapping of one character: ASCII and Latin-1 capitals (U+00C0..U+00DE except U+00D7). */
  function LowerChar(c: char): char {
    if IsUpper(c) || ('\U{C0}' <= c <= '\U{DE}' && c != '\U{D7}') then (c as int + 32) as char else c
  }

  /** `toLowerCase` on the characters it maps one-to-one (see LowerChar). */
  function ToLower(s: string): (r: string)
    ensures |r| == |s|
    ensures forall i :: 0 <= i < |s| ==> r[i] == LowerChar(s[i])
  {
    seq(|s|, i requires 0 <= i < |s| => LowerChar(s[i]))
  }

  /** `toUpperCase` on ASCII letters. */
  function ToUpperAscii(s: string): (r: string)
    ensures |r| == |s|
    ensures forall i :: 0 <= i < |s| ==> r[i] == (if IsLower(s[i]) then (s[i] as int - 32) as char else s[i])
  {
    seq(|s|, i requires 0 <= i < |s| => if IsLower(s[i]) then (s[i] as int - 32) as char else s[i])
  }

  lemma LowerCharProperties(c: char)
    ensures LowerChar(LowerChar(c)) == LowerChar(c)
    ensures IsSpace(LowerChar(c)) <==> IsSpace(c)
    ensures IsWordChar(LowerChar(c)) <==> IsWordChar(c)
    ensures IsDigit(LowerChar(c)) <==> IsDigit(c)
  {
  }

  /** `s.trim().toLowerCase()`, the username normal form used by the store and the auth service. */
  function Normalize(s: string): (r: string)
    ensures |r| <= |s|
  {
    ToLower(Trim(s))
  }

  /** Lower-casing preserves trimmed-ness: trimming a lower-cased trimmed string changes nothing. */
  lemma {:induction false} TrimOfLowerOfTrimmed(t: string)
    requires |t| == 0 || (!IsSpace(t[0]) && !IsSpace(t[|t| - 1]))
    ensures Trim(ToLower(t)) == ToLower(t)
  {
    var l := ToLower(t);
    if |t| > 0 {
      LowerCharProperties(t[0]);
      LowerCharProperties(t[|t| - 1]);
    }
    TrimStartFixed(l);
    TrimEndFixed(l);
  }

  /** Lower-casing a lower-cased string changes nothing. */
  lemma {:induction false} ToLowerIdempotent(t: string)
    ensures ToLower(ToLower(t)) == ToLower(t)
  {
    var l := ToLower(t);
    forall i | 0 <= i < |l|
      ensures ToLower(l)[i] == l[i]
    {
      LowerCharProperties(t[i]);
    }
  }

  /** Normalising a normalised username changes nothing, so `getUserByUsername(normalize(x))` == `getUserByUsername(x)`. */
  lemma {:induction false} NormalizeIdempotent(s: string)
    ensures Normalize(Normalize(s)) == Normalize(s)
  {
    var t := Trim(s);
    TrimOfLowerOfTrimmed(t);
    ToLowerIdempotent(t);
  }

  // ---------------------------------------------------------------------------
  // Number.prototype.toString and parseInt
  // ---------------------------------------------------------------------------

  /** The value of a digit in the given radix (10 or 16), or -1 when `c` is not one. */
  function DigitValue(c: char, radix: nat): (v: int)
    requires radix == 10 || radix == 16
    ensures -1 <= v < radix
    ensures radix == 10 ==> (v >= 0 <==> IsDigit(c))
  {
    if IsDigit(c) then c as int - '0' as int
    else if radix == 16 && 'a' <= c <= 'f' then c as int - 'a' as int + 10
    else if radix == 16 && 'A' <= c <= 'F' then c as int - 'A' as int + 10
    else -1
  }

  /** The longest prefix of `s` made of digits of the radix. */
  function DigitRun(s: string, radix: nat): (r: string)
    requires radix == 10 || radix == 16
    ensures |r| <= |s| && r == s[..|r|]
    ensures forall i :: 0 <= i < |r| ==> DigitValue(r[i], radix) >= 0
    ensures |r| < |s| ==> DigitValue(s[|r|], radix) < 0
  {
    if |s| > 0 && DigitValue(s[0], radix) >= 0 then [s[0]] + DigitRun(s[1..], radix) else []
  }

  /** The number a run of digits denotes, most significant first. */
  function RunValue(s: string, radix: nat): nat
    requires radix == 10 || radix == 16
    requires forall i :: 0 <= i < |s| ==> DigitValue(s[i], radix) >= 0
  {
    if s == [] then 0 else radix * RunValue(s[..|s| - 1], radix) + DigitValue(s[|s| - 1], radix)
  }

  /** The decimal digit for 0..9. */
  function DigitChar(d: nat): (c: char)
    requires d < 10
    ensures IsDigit(c) && DigitValue(c, 10) == d
  {
    ('0' as int + d) as char
  }

  /** Decimal rendering of a natural number, without leading zeros. */
  function NatToString(n: nat): (r: string)
    ensures |r| > 0 && All(r, IsDigit)
    ensures RunValue(r, 10) == n
    ensures |r| > 1 ==> r[0] != '0'
  {
    if n < 10 then [DigitChar(n)]
    else
      var r := NatToString(n / 10) + [DigitChar(n % 10)];
      assert r[..|r| - 1] == NatToString(n / 10);
      r
  }

  /** `n.toString()` for an integer id. */
  function IntToString(n: int): (r: string)
    ensures |r| > 0
    ensures n >= 0 ==> All(r, IsDigit)
  {
    if n < 0 then "-" + NatToString(-n) else NatToString(n)
  }

  /** `parseInt(s)` with no radix: `None` stands for `NaN`. */
  function ParseInt(s: string): (r: Option<int>)
    ensures r.None? <==> DigitRun(ParseBody(s), ParseRadix(s)) == []
  {
    var t := TrimStart(s);
    var body := ParseBody(s);
    var radix := ParseRadix(s);
    var run := DigitRun(body, radix);
    if run == [] then None
    else
      var v: int := RunValue(run, radix);
      if |t| > 0 && t[0] == '-' then Some(-v) else Some(v)
  }

  /** What remains after `parseInt` skips leading space, then a sign. */
  function Unsigned(s: string): string {
    var t := TrimStart(s);
    if |t| > 0 && (t[0] == '-' || t[0] == '+') then t[1..] else t
  }

  /** True when the unsigned part starts with `0x` / `0X`: `parseInt` then reads hexadecimal. */
  predicate IsHex(s: string) {
    var u := Unsigned(s);
    |u| >= 2 && u[0] == '0' && (u[1] == 'x' || u[1] == 'X')
  }

  function ParseRadix(s: string): (r: nat)
    ensures r == 10 || r == 16
  {
    if IsHex(s) then 16 else 10
  }

  /** The part of `s` whose leading digits `parseInt` converts. */
  function ParseBody(s: string): string {
    var u := Unsigned(s);
    if IsHex(s) then u[2..] else u
  }

  /** The digit run of a string of digits is the whole string. */
  lemma DigitRunOfDigits(s: string)
    requires All(s, IsDigit)
    ensures DigitRun(s, 10) == s
  {
    if s != [] {
      DigitRunOfDigits(s[1..]);
    }
  }

  /** Round trip of the session pointer: `parseInt(id.toString()) === id`. */
  lemma {:induction false} ParseIntOfIntToString(n: int)
    ensures ParseInt(IntToString(n)) == Some(n)
  {
    var m: nat := if n < 0 then -n else n;
    var digits := NatToString(m);
    assert forall i :: 0 <= i < |digits| ==> IsDigit(digits[i]);
    ParseDigitRun(digits, n < 0);
  }

  /** `parseInt` reads an optionally negated run of decimal digits as its value. */
  lemma {:induction false} ParseDigitRun(digits: string, negative: bool)
    requires |digits| > 0 && forall i :: 0 <= i < |digits| ==> IsDigit(digits[i])
    ensures ParseInt(if negative then "-" + digits else digits)
      == Some(if negative then -(RunValue(digits, 10) as int) else RunValue(digits, 10) as int)
  {
    var s := if negative then "-" + digits else digits;
    TrimStartFixed(s);
    assert Unsigned(s) == digits;
    assert ParseRadix(s) == 10 && ParseBody(s) == digits;
    DigitRunOfDigits(digits);
  }

}
