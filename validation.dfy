/** The client's field validators (Web/src/utils/validation.ts). */
module Validation {
  import opened Text
  import WebConfig

  /** The outcome record `{ valid, error? }` that most validators return. */
  datatype Validity = Valid | Invalid(error: string)

  /** A character that `[^\s@]` accepts. */
  predicate EmailChar(c: char) {
    !IsWhitespace(c) && c != '@'
  }

  predicate AllEmailChars(s: string) {
    forall i :: 0 <= i < |s| ==> EmailChar(s[i])
  }

  /**
   * `validateEmail`: the regular expression `^[^\s@]+@[^\s@]+\.[^\s@]+$`.
   * With backtracking it accepts s exactly when s can be cut at an '@' and a
   * later '.' into three non-empty runs of `[^\s@]`.
   */
  predicate ValidateEmail(s: string) {
    exists at, dot | 0 < at && at + 1 < dot && dot + 1 < |s| ::
      s[at] == '@' && s[dot] == '.'
      && AllEmailChars(s[..at]) && AllEmailChars(s[at + 1..dot]) && AllEmailChars(s[dot + 1..])
  }

  /** Number of occurrences of c in s. */
  function CountOf(s: string, c: char): nat {
    if s == [] then 0 else (if s[0] == c then 1 else 0) + CountOf(s[1..], c)
  }

  /** Index of the first occurrence of c in s, or |s| when there is none. */
  function IndexOf(s: string, c: char): (k: nat)
    ensures k <= |s|
    ensures k < |s| ==> s[k] == c
    ensures forall i :: 0 <= i < k ==> s[i] != c
  {
    if s == [] then 0 else if s[0] == c then 0 else 1 + IndexOf(s[1..], c)
  }

  /**
   * The same acceptance condition stated field by field: no whitespace, exactly
   * one '@', a non-empty part before it, and after it a '.' that has at least
   * one character on each side.
   */
  predicate EmailShape(s: string) {
    var at := IndexOf(s, '@');
    && (forall i :: 0 <= i < |s| ==> !IsWhitespace(s[i]))
    && CountOf(s, '@') == 1
    && 0 < at < |s|
    && exists dot :: at + 1 < dot < |s| - 1 && s[dot] == '.'
  }

  lemma {:induction false} CountOfAppend(a: string, b: string, c: char)
    ensures CountOf(a + b, c) == CountOf(a, c) + CountOf(b, c)
  {
    if a == [] {
      assert a + b == b;
    } else {
      assert (a + b)[1..] == a[1..] + b;
      CountOfAppend(a[1..], b, c);
    }
  }

  lemma {:induction false} CountOfAbsent(s: string, c: char)
    requires forall i :: 0 <= i < |s| ==> s[i] != c
    ensures CountOf(s, c) == 0
  {
    if s != [] {
      CountOfAbsent(s[1..], c);
    }
  }

  lemma {:induction false} CountOfZero(s: string, c: char)
    requires CountOf(s, c) == 0
    ensures forall i :: 0 <= i < |s| ==> s[i] != c
  {
    if s != [] {
      CountOfZero(s[1..], c);
      forall i | 1 <= i < |s| ensures s[i] != c {
        assert s[i] == s[1..][i - 1];
      }
    }
  }

  /** s has its only '@' at position at. */
  lemma {:induction false} SingleAt(s: string, at: nat)
    requires at < |s| && s[at] == '@'
    requires forall i :: 0 <= i < |s| && i != at ==> s[i] != '@'
    ensures CountOf(s, '@') == 1 && IndexOf(s, '@') == at
  {
    assert s == s[..at] + ([s[at]] + s[at + 1..]);
    CountOfAppend(s[..at], [s[at]] + s[at + 1..], '@');
    CountOfAppend([s[at]], s[at + 1..], '@');
    CountOfAbsent(s[..at], '@');
    CountOfAbsent(s[at + 1..], '@');
  }

  /** A string with one '@' has none after its first. */
  lemma {:induction false} NoSecondAt(s: string)
    requires CountOf(s, '@') == 1
    ensures IndexOf(s, '@') < |s|
    ensures forall i :: IndexOf(s, '@') < i < |s| ==> s[i] != '@'
  {
    var at := IndexOf(s, '@');
    if at == |s| {
      CountOfAbsent(s, '@');
    } else {
      assert s == s[..at] + ([s[at]] + s[at + 1..]);
      CountOfAppend(s[..at], [s[at]] + s[at + 1..], '@');
      CountOfAppend([s[at]], s[at + 1..], '@');
      CountOfAbsent(s[..at], '@');
      CountOfZero(s[at + 1..], '@');
      forall i | at < i < |s| ensures s[i] != '@' {
        assert s[i] == s[at + 1..][i - at - 1];
      }
    }
  }

  lemma RegexImpliesShape(s: string, at: nat, dot: nat)
    requires 0 < at && at + 1 < dot && dot + 1 < |s|
    requires s[at] == '@' && s[dot] == '.'
    requires AllEmailChars(s[..at]) && AllEmailChars(s[at + 1..dot]) && AllEmailChars(s[dot + 1..])
    ensures EmailShape(s)
  {
    forall i | 0 <= i < |s| && i != at ensures EmailChar(s[i]) {
      if i < at { assert s[i] == s[..at][i]; }
      else if i < dot { assert s[i] == s[at + 1..dot][i - at - 1]; }
      else if i > dot { assert s[i] == s[dot + 1..][i - dot - 1]; }
    }
    SingleAt(s, at);
  }

  lemma ShapeImpliesRegex(s: string)
    requires EmailShape(s)
    ensures ValidateEmail(s)
  {
    var at := IndexOf(s, '@');
    var dot :| at + 1 < dot < |s| - 1 && s[dot] == '.';
    NoSecondAt(s);
    assert AllEmailChars(s[..at]);
    assert AllEmailChars(s[at + 1..dot]);
    assert AllEmailChars(s[dot + 1..]);
  }

  /** The regular expression and the field-by-field reading accept the same strings. */
  lemma ValidateEmailIff(s: string)
    ensures ValidateEmail(s) <==> EmailShape(s)
  {
    if ValidateEmail(s) {
      var at, dot :| 0 < at && at + 1 < dot && dot + 1 < |s|
        && s[at] == '@' && s[dot] == '.'
        && AllEmailChars(s[..at]) && AllEmailChars(s[at + 1..dot]) && AllEmailChars(s[dot + 1..]);
      RegexImpliesShape(s, at, dot);
    }
    if EmailShape(s) {
      ShapeImpliesRegex(s);
    }
  }

  /** `validateStringLength`: `str.length`, in UTF-16 code units, within maxLength. */
  predicate ValidateStringLength(str: string, maxLength: int) {
    JsLength(str) <= maxLength
  }

  /** `validateNonEmptyString`: false exactly when the trimmed string is empty. */
  predicate ValidateNonEmptyString(str: string) {
    Trim(str) != ""
  }

  /** A string passes the blank check exactly when it has a non-whitespace character. */
  lemma NonEmptyStringIff(str: string)
    ensures ValidateNonEmptyString(str) <==> HasVisibleChar(str)
  {
    TrimEmptyIff(str);
  }

  /** The sub-sequence of `emails` that `validateEmail` rejects, in order. */
  function InvalidEmails(emails: seq<string>): (r: seq<string>)
    ensures |r| <= |emails|
    ensures forall e :: e in r <==> e in emails && !ValidateEmail(e)
  {
    if emails == [] then []
    else (if ValidateEmail(emails[0]) then [] else [emails[0]]) + InvalidEmails(emails[1..])
  }

  /** `validateEmailArray`: the count check first, then every address. */
  function ValidateEmailArray(emails: seq<string>, maxCount: int): (r: Validity)
    ensures r.Valid? <==> |emails| <= maxCount && forall e :: e in emails ==> ValidateEmail(e)
    ensures |emails| > maxCount ==> r == Invalid("Maximum " + IntToString(maxCount) + " emails allowed")
  {
    if |emails| > maxCount then Invalid("Maximum " + IntToString(maxCount) + " emails allowed")
    else if |InvalidEmails(emails)| > 0 then
      assert InvalidEmails(emails)[0] in InvalidEmails(emails);
      Invalid("Invalid email format detected")
    else Valid
  }

  /** `validateName`. */
  function ValidateName(name: string): (r: Validity)
    ensures r.Valid? <==> JsLength(name) <= WebConfig.NAME_LENGTH_LIMIT
  {
    if !ValidateStringLength(name, WebConfig.NAME_LENGTH_LIMIT) then
      Invalid("Name must be 20 characters or less")
    else Valid
  }

  /** `validateDescription`. */
  function ValidateDescription(description: string): (r: Validity)
    ensures r.Valid? <==> JsLength(description) <= WebConfig.DESCRIPTION_LENGTH_LIMIT
  {
    if !ValidateStringLength(description, WebConfig.DESCRIPTION_LENGTH_LIMIT) then
      Invalid("Description must be 300 characters or less")
    else Valid
  }

  /** `validateMessage` (crush messages): blank check first, then the untrimmed length. */
  function ValidateMessage(message: string): (r: Validity)
    ensures r.Valid? <==> HasVisibleChar(message) && JsLength(message) <= WebConfig.MESSAGE_LENGTH_LIMIT
    ensures !HasVisibleChar(message) ==> r == Invalid("Message cannot be empty")
  {
    NonEmptyStringIff(message);
    if !ValidateNonEmptyString(message) then Invalid("Message cannot be empty")
    else if !ValidateStringLength(message, WebConfig.MESSAGE_LENGTH_LIMIT) then
      Invalid("Message must be 25000 characters or less")
    else Valid
  }

  /** `validateLetterContent`: blank check first, then the untrimmed length. */
  function ValidateLetterContent(content: string): (r: Validity)
    ensures r.Valid? <==> HasVisibleChar(content) && JsLength(content) <= WebConfig.LETTER_LENGTH_LIMIT
    ensures !HasVisibleChar(content) ==> r == Invalid("Content cannot be empty")
  {
    NonEmptyStringIff(content);
    if !ValidateNonEmptyString(content) then Invalid("Content cannot be empty")
    else if !ValidateStringLength(content, WebConfig.LETTER_LENGTH_LIMIT) then
      Invalid("Content must be 25000 characters or less")
    else Valid
  }

  /** `canSubmitCrush`, given the local day of the month of the current instant. */
  predicate CanSubmitCrush(dayOfMonth: int) {
    dayOfMonth <= 14
  }

  predicate IsHexDigit(c: char) {
    ('0' <= c <= '9') || ('a' <= c <= 'f') || ('A' <= c <= 'F')
  }

  /** `validateObjectId`: the regular expression `^[0-9a-fA-F]{24}$`. */
  predicate ValidateObjectId(id: string) {
    |id| == 24 && forall i :: 0 <= i < |id| ==> IsHexDigit(id[i])
  }

  /** `validateInvitedEmails`: at most MAX_TOTAL_MEMBERS - 1, since the creator is always a member. */
  function ValidateInvitedEmails(emails: seq<string>): (r: Validity)
    ensures r.Valid? <==> |emails| < WebConfig.MAX_TOTAL_MEMBERS && forall e :: e in emails ==> ValidateEmail(e)
  {
    ValidateEmailArray(emails, WebConfig.MAX_TOTAL_MEMBERS - 1)
  }

  /** `validateTotalGroupSize`. */
  function ValidateTotalGroupSize(memberCount: int, invitedCount: int): (r: Validity)
    ensures r.Valid? <==> memberCount + invitedCount <= WebConfig.MAX_TOTAL_MEMBERS
  {
    var total := memberCount + invitedCount;
    if total > WebConfig.MAX_TOTAL_MEMBERS then
      Invalid("Total members and invited cannot exceed 250")
    else Valid
  }
}
