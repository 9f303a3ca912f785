/**
 * Input validation (flask-app/app/utils/validators.py). Each validator answers
 * `(True, None)` or `(False, message)`, checking its conditions in a fixed order and
 * reporting the first one that fails.
 *
 * The patterns are matched with Python's `re.match` and end in `$`, which matches at the end
 * of the text and also just before a final newline; the model keeps that behaviour.
 */
module Validators {
  import opened Base

  const MaxCodeLength: int := 10000

  const CodeRequired: string := "코드를 입력해주세요"
  const CodeTooLong: string := "코드가 너무 깁니다 (최대 10,000자)"
  const EmailRequired: string := "이메일을 입력해주세요"
  const EmailMalformed: string := "올바른 이메일 형식이 아닙니다"
  const UsernameRequired: string := "사용자명을 입력해주세요"
  const UsernameLength: string := "사용자명은 3-20자 사이여야 합니다"
  const UsernameCharset: string := "사용자명은 영문, 숫자, 언더스코어만 사용 가능합니다"
  const PasswordRequired: string := "비밀번호를 입력해주세요"
  const PasswordTooShort: string := "비밀번호는 최소 6자 이상이어야 합니다"

  /** `(True, None)` or `(False, message)`. */
  datatype Validation = Valid | Invalid(message: string)

  /** Characters removed by Python's `str.strip()` (those for which `str.isspace()` holds). */
  predicate PySpace(c: char) {
    c == ' ' || ('\t' <= c <= '\r') || ('\U{1c}' <= c <= '\U{1f}') || c == '\U{85}'
    || c == '\U{a0}' || c == '\U{1680}' || ('\U{2000}' <= c <= '\U{200a}')
    || c == '\U{2028}' || c == '\U{2029}' || c == '\U{202f}' || c == '\U{205f}' || c == '\U{3000}'
  }

  /** `not s.strip()`: empty or made only of whitespace. */
  predicate Blank(s: string) {
    forall i :: 0 <= i < |s| ==> PySpace(s[i])
  }

  /** `validate_code`: `code` is `None` when the request carried no code. */
  function ValidateCode(code: Option<string>): (r: Validation)
    ensures r == Valid <==> code.Some? && !Blank(code.value) && |code.value| <= MaxCodeLength
    ensures code.None? || Blank(code.value) ==> r == Invalid(CodeRequired)
    ensures (code.Some? && !Blank(code.value) && |code.value| > MaxCodeLength) ==> r == Invalid(CodeTooLong)
    ensures r.Invalid? ==> r.message != ""
  {
    if code.None? || Blank(code.value) then Invalid(CodeRequired)
    else if |code.value| > MaxCodeLength then Invalid(CodeTooLong)
    else Valid
  }

  /** Exactly 10,000 characters is the longest code accepted. */
  lemma CodeLengthBoundary()
    ensures ValidateCode(Some(seq(MaxCodeLength, _ => 'a'))) == Valid
    ensures ValidateCode(Some(seq(MaxCodeLength + 1, _ => 'a'))) == Invalid(CodeTooLong)
  {
    var s := seq(MaxCodeLength, _ => 'a');
    assert !PySpace(s[0]);
    var t := seq(MaxCodeLength + 1, _ => 'a');
    assert !PySpace(t[0]);
  }

  predicate AsciiLetter(c: char) {
    'a' <= c <= 'z' || 'A' <= c <= 'Z'
  }

  predicate AsciiDigit(c: char) {
    '0' <= c <= '9'
  }

  /** `[a-zA-Z0-9_]` */
  predicate UsernameChar(c: char) {
    AsciiLetter(c) || AsciiDigit(c) || c == '_'
  }

  /** `[a-zA-Z0-9._%+-]` */
  predicate LocalChar(c: char) {
    AsciiLetter(c) || AsciiDigit(c) || c == '.' || c == '_' || c == '%' || c == '+' || c == '-'
  }

  /** `[a-zA-Z0-9.-]` */
  predicate DomainChar(c: char) {
    AsciiLetter(c) || AsciiDigit(c) || c == '.' || c == '-'
  }

  /** `re.match(r'^P$', s)` where `P` matches `t` exactly when `body(t)`, and `P` never matches a newline. */
  predicate MatchesToEnd(s: string, body: string -> bool) {
    body(s) || (0 < |s| && s[|s| - 1] == '\n' && body(s[..|s| - 1]))
  }

  /** `[a-zA-Z0-9_]+` spans `t`. */
  predicate UsernameBody(t: string) {
    0 < |t| && forall i :: 0 <= i < |t| ==> UsernameChar(t[i])
  }

  /** `validate_username`: present, 3 to 20 characters, then the character set, in that order. */
  function ValidateUsername(username: string): (r: Validation)
    ensures r == Valid <==> 3 <= |username| <= 20 && MatchesToEnd(username, UsernameBody)
    ensures username == "" ==> r == Invalid(UsernameRequired)
    ensures username != "" && (|username| < 3 || 20 < |username|) ==> r == Invalid(UsernameLength)
    ensures (3 <= |username| <= 20 && !MatchesToEnd(username, UsernameBody)) ==> r == Invalid(UsernameCharset)
    ensures r.Invalid? ==> r.message != ""
  {
    if username == "" then Invalid(UsernameRequired)
    else if |username| < 3 || |username| > 20 then Invalid(UsernameLength)
    else if !MatchesToEnd(username, UsernameBody) then Invalid(UsernameCharset)
    else Valid
  }

  /** An accepted username is made of `[a-zA-Z0-9_]`, apart from at most one final newline. */
  lemma ValidUsernameCharacters(username: string)
    requires ValidateUsername(username) == Valid
    ensures forall i :: 0 <= i < |username| - 1 ==> UsernameChar(username[i])
    ensures UsernameChar(username[|username| - 1]) || username[|username| - 1] == '\n'
  {
    if !UsernameBody(username) {
      var t := username[..|username| - 1];
      assert forall i :: 0 <= i < |username| - 1 ==> username[i] == t[i];
    }
  }

  /** The `$` anchor lets one trailing newline through: "abc\n" is a valid username. */
  lemma UsernameAcceptsFinalNewline()
    ensures ValidateUsername("abc\n") == Valid
  {
    assert "abc\n"[..3] == "abc";
    assert UsernameBody("abc");
  }

  /** `validate_password`: present, then at least six characters. */
  function ValidatePassword(password: string): (r: Validation)
    ensures r == Valid <==> 6 <= |password|
    ensures password == "" ==> r == Invalid(PasswordRequired)
    ensures 0 < |password| < 6 ==> r == Invalid(PasswordTooShort)
    ensures r.Invalid? ==> r.message != ""
  {
    if password == "" then Invalid(PasswordRequired)
    else if |password| < 6 then Invalid(PasswordTooShort)
    else Valid
  }

  /**
   * `[a-zA-Z0-9._%+-]+@[a-zA-Z0-9.-]+\.[a-zA-Z]{2,}` spans `t`: a local part, '@' at `at`,
   * a domain, '.' at `dot` and at least two letters.
   */
  ghost predicate EmailShapeAt(t: string, at: int, dot: int) {
    && 0 < at && at + 1 < dot && dot + 2 < |t|
    && t[at] == '@' && t[dot] == '.'
    && (forall k :: 0 <= k < at ==> LocalChar(t[k]))
    && (forall k :: at < k < dot ==> DomainChar(t[k]))
    && (forall k :: dot < k < |t| ==> AsciiLetter(t[k]))
  }

  ghost predicate EmailShape(t: string) {
    exists at, dot :: EmailShapeAt(t, at, dot)
  }

  /** Index of the first `c` in `t`. */
  function FirstIndex(t: string, c: char): (r: Option<nat>)
    ensures r.Some? ==> r.value < |t| && t[r.value] == c && forall k :: 0 <= k < r.value ==> t[k] != c
    ensures r.None? ==> forall k :: 0 <= k < |t| ==> t[k] != c
  {
    if t == [] then None
    else if t[0] == c then Some(0)
    else match FirstIndex(t[1..], c)
      case None => None
      case Some(k) => Some(k + 1)
  }

  /** Index of the last `c` in `t`. */
  function LastIndex(t: string, c: char): (r: Option<nat>)
    ensures r.Some? ==> r.value < |t| && t[r.value] == c && forall k :: r.value < k < |t| ==> t[k] != c
    ensures r.None? ==> forall k :: 0 <= k < |t| ==> t[k] != c
  {
    if t == [] then None
    else if t[|t| - 1] == c then Some(|t| - 1)
    else LastIndex(t[..|t| - 1], c)
  }

  /**
   * The regex decided without backtracking: the '@' must be the first one (the local part
   * has none) and the '.' before the letters must be the last one (the letters have none).
   */
  function EmailBody(t: string): (b: bool)
    ensures b <==> EmailShape(t)
  {
    var at := FirstIndex(t, '@');
    var dot := LastIndex(t, '.');
    var b := at.Some? && dot.Some? && 0 < at.value && at.value + 1 < dot.value && dot.value + 2 < |t|
      && (forall k :: 0 <= k < at.value ==> LocalChar(t[k]))
      && (forall k :: at.value < k < dot.value ==> DomainChar(t[k]))
      && (forall k :: dot.value < k < |t| ==> AsciiLetter(t[k]));
    assert b ==> EmailShapeAt(t, at.value, dot.value);
    assert EmailShape(t) ==> b by {
      if EmailShape(t) {
        var i, j :| EmailShapeAt(t, i, j);
        assert at == Some(i) by {
          assert forall k :: 0 <= k < i ==> t[k] != '@' by {
            forall k | 0 <= k < i ensures t[k] != '@' { assert LocalChar(t[k]); }
          }
        }
        assert dot == Some(j) by {
          assert forall k :: j < k < |t| ==> t[k] != '.' by {
            forall k | j < k < |t| ensures t[k] != '.' { assert AsciiLetter(t[k]); }
          }
        }
      }
    }
    b
  }

  /** `validate_email`: present, then the pattern (which, like the others, tolerates a final newline). */
  function ValidateEmail(email: string): (r: Validation)
    ensures r == Valid <==> email != "" && MatchesToEnd(email, EmailBody)
    ensures r == Valid ==> EmailShape(email) || (email[|email| - 1] == '\n' && EmailShape(email[..|email| - 1]))
    ensures email == "" ==> r == Invalid(EmailRequired)
    ensures (email != "" && !MatchesToEnd(email, EmailBody)) ==> r == Invalid(EmailMalformed)
    ensures r.Invalid? ==> r.message != ""
  {
    if email == "" then Invalid(EmailRequired)
    else if !MatchesToEnd(email, EmailBody) then Invalid(EmailMalformed)
    else Valid
  }

  /** A one-letter top-level domain is refused; two letters are enough. */
  lemma EmailTopLevelDomainLength()
    ensures ValidateEmail("a@b.c") == Invalid(EmailMalformed)
    ensures ValidateEmail("a@b.co") == Valid
  {
    assert EmailShapeAt("a@b.co", 1, 3);
    assert !EmailBody("a@b.c");
    assert "a@b.c"[4] != '\n';
  }
}
