/**
 * The registration, login and password-reset forms of
 * backend/sportai_app/main/forms.py.
 *
 * Each regular expression of an inline `validate_*` method is read literally
 * as a predicate on the whole string (`...Pattern`); where the pattern is not
 * already a plain character-class and length test, a second, independent
 * statement of the rule is proved equivalent to it. Every field is a chain of
 * validators run the way WTForms runs them: the field's own validators in
 * order, then the inline one; `DataRequired` stops the chain and discards
 * earlier errors, any other failing validator records an error and the chain
 * goes on. A field is valid when its chain records no error.
 */
module Forms {
  import opened Wrappers

  // ---------------------------------------------------------------------------
  // Character classes (ASCII)

  predicate IsLower(c: char) { 'a' <= c <= 'z' }
  predicate IsUpper(c: char) { 'A' <= c <= 'Z' }
  predicate IsDigit(c: char) { '0' <= c <= '9' }
  /** `\s`: space, tab, line feed, carriage return, vertical tab and form feed. */
  predicate IsSpace(c: char) {
    c == ' ' || c == '\t' || c == '\n' || c == '\r' || c == 11 as char || c == 12 as char
  }
  /** `.`: any character but a line feed. */
  predicate NotNewline(c: char) { c != '\n' }

  /** `[A-Za-z\s,'.]` */
  predicate NameChar(c: char) { IsUpper(c) || IsLower(c) || IsSpace(c) || c == ',' || c == '\'' || c == '.' }
  /** `[a-z\d\.-]` */
  predicate LocalChar(c: char) { IsLower(c) || IsDigit(c) || c == '.' || c == '-' }
  /** `[a-z\d-]` */
  predicate LabelChar(c: char) { IsLower(c) || IsDigit(c) || c == '-' }
  /** `[a-z0-9_]` */
  predicate UsernameChar(c: char) { IsLower(c) || IsDigit(c) || c == '_' }
  /** `[!@#$%^&*()\-_=+{};:,<.>]` */
  const SpecialChars: string := "!@#$%^&*()-_=+{};:,<.>"
  predicate IsSpecial(c: char) { c in SpecialChars }

  /** `[cls]{min,max}` matching all of `s`. */
  predicate Repeat(s: string, cls: char -> bool, min: nat, max: nat) {
    min <= |s| <= max && forall i :: 0 <= i < |s| ==> cls(s[i])
  }

  /** `[cls]+` matching all of `s`. */
  predicate Plus(s: string, cls: char -> bool) {
    |s| >= 1 && forall i :: 0 <= i < |s| ==> cls(s[i])
  }

  /** Some character of `s` is in `cls`. */
  predicate Contains(s: string, cls: char -> bool) {
    exists i :: 0 <= i < |s| && cls(s[i])
  }

  // ---------------------------------------------------------------------------
  // The patterns

  /** `^[A-Za-z\s,'.]{3,60}$` */
  predicate NamePattern(s: string) {
    Repeat(s, NameChar, 3, 60)
  }

  /** `^[a-z][a-z0-9_]{4,31}$` */
  predicate UsernamePattern(s: string) {
    |s| >= 1 && IsLower(s[0]) && Repeat(s[1..], UsernameChar, 4, 31)
  }

  /** `^[0-9]{10}$` */
  predicate PhonePattern(s: string) {
    Repeat(s, IsDigit, 10, 10)
  }

  /** A lookahead `(?=.*[cls])` at the start of `s`: a `cls` character preceded only by non-newlines. */
  predicate LookaheadFinds(s: string, cls: char -> bool) {
    exists k :: 0 <= k < |s| && cls(s[k]) && forall j :: 0 <= j < k ==> s[j] != '\n'
  }

  /** `^(?=.*[A-Z])(?=.*[a-z])(?=.*\d)(?=.*[!@#$%^&*()\-_=+{};:,<.>]).{8,60}$` */
  predicate PasswordPattern(s: string) {
    && LookaheadFinds(s, IsUpper)
    && LookaheadFinds(s, IsLower)
    && LookaheadFinds(s, IsDigit)
    && LookaheadFinds(s, IsSpecial)
    && Repeat(s, NotNewline, 8, 60)
  }

  /** `[a-z]{2,8}` */
  predicate Tld(t: string) {
    Repeat(t, IsLower, 2, 8)
  }

  /** `([a-z]{2,8})(\.[a-z]{2,8})?` matching all of `t`. */
  predicate TldPart(t: string) {
    || Tld(t)
    || exists k :: 0 <= k < |t| && t[k] == '.' && Tld(t[..k]) && Tld(t[k + 1..])
  }

  /**
   * `^([a-z\d\.-]+)@([a-z\d-]+)\.([a-z]{2,8})(\.[a-z]{2,8})?$`: some position
   * `i` of the `@` and `j` of the dot after the label split `s` into the parts.
   */
  predicate EmailPattern(s: string) {
    exists i, j :: 0 <= i < j < |s| && s[i] == '@' && s[j] == '.'
      && Plus(s[..i], LocalChar) && Plus(s[i + 1..j], LabelChar) && TldPart(s[j + 1..])
  }

  // ---------------------------------------------------------------------------
  // The rules in plain terms, and their agreement with the patterns

  /** 5 to 32 characters, a lowercase letter first, then lowercase letters, digits and underscores. */
  predicate UsernameRule(s: string) {
    5 <= |s| <= 32 && IsLower(s[0]) && forall i :: 1 <= i < |s| ==> UsernameChar(s[i])
  }

  /** 8 to 60 characters, no line feed, and at least one uppercase, lowercase, digit and special character. */
  predicate PasswordRule(s: string) {
    && 8 <= |s| <= 60
    && (forall i :: 0 <= i < |s| ==> s[i] != '\n')
    && Contains(s, IsUpper) && Contains(s, IsLower) && Contains(s, IsDigit) && Contains(s, IsSpecial)
  }

  /** The username pattern's length coincides with the field's `Length(min=5, max=32)`. */
  lemma UsernamePatternIsRule(s: string)
    ensures UsernamePattern(s) <==> UsernameRule(s)
    ensures UsernamePattern(s) ==> 5 <= |s| <= 32
  {
    if UsernameRule(s) {
      forall i | 0 <= i < |s[1..]| ensures UsernameChar(s[1..][i]) {
        assert s[1..][i] == s[i + 1];
      }
    }
    if UsernamePattern(s) {
      forall i | 1 <= i < |s| ensures UsernameChar(s[i]) {
        assert s[i] == s[1..][i - 1];
      }
    }
  }

  /** A lookahead over a line-feed-free string finds exactly what the string contains. */
  lemma LookaheadWithoutNewline(s: string, cls: char -> bool)
    requires forall i :: 0 <= i < |s| ==> s[i] != '\n'
    ensures LookaheadFinds(s, cls) <==> Contains(s, cls)
  {
    if Contains(s, cls) {
      var k :| 0 <= k < |s| && cls(s[k]);
      assert forall j :: 0 <= j < k ==> s[j] != '\n';
    }
  }

  /** The password pattern says: 8 to 60 characters, no line feed, one of each required kind. */
  lemma {:induction false} PasswordPatternIsRule(s: string)
    ensures PasswordPattern(s) <==> PasswordRule(s)
  {
    if forall i :: 0 <= i < |s| ==> s[i] != '\n' {
      LookaheadWithoutNewline(s, IsUpper);
      LookaheadWithoutNewline(s, IsLower);
      LookaheadWithoutNewline(s, IsDigit);
      LookaheadWithoutNewline(s, IsSpecial);
    }
  }

  /** The position of the first `c` in `s`, or `|s|` when there is none. */
  function IndexOf(s: string, c: char): (k: nat)
    ensures k <= |s|
    ensures forall j :: 0 <= j < k ==> s[j] != c
    ensures k < |s| ==> s[k] == c
  {
    if s == [] then 0 else if s[0] == c then 0 else 1 + IndexOf(s[1..], c)
  }

  /** A `c` right after a run of characters that cannot be `c` is the first `c`. */
  lemma FirstAfterRun(s: string, c: char, k: nat, cls: char -> bool)
    requires k < |s| && s[k] == c && !cls(c)
    requires forall t :: 0 <= t < k ==> cls(s[t])
    ensures IndexOf(s, c) == k
  {
  }

  /** Matches `([a-z]{2,8})(\.[a-z]{2,8})?` by splitting at the first dot. */
  function TldPartAccepted(t: string): (ok: bool)
    ensures ok <==> TldPart(t)
  {
    var k := IndexOf(t, '.');
    if k == |t| then Tld(t)
    else
      assert TldPart(t) ==> !Tld(t);
      assert TldPart(t) ==> exists m :: 0 <= m < |t| && t[m] == '.' && Tld(t[..m]) && Tld(t[m + 1..]);
      TldSplitUnique(t, k);
      Tld(t[..k]) && Tld(t[k + 1..])
  }

  lemma TldSplitUnique(t: string, k: nat)
    requires k == IndexOf(t, '.') && k < |t|
    ensures forall m :: 0 <= m < |t| && t[m] == '.' && Tld(t[..m]) ==> m == k
  {
    forall m | 0 <= m < |t| && t[m] == '.' && Tld(t[..m]) ensures m == k {
      forall q | 0 <= q < m ensures IsLower(t[q]) {
        assert t[q] == t[..m][q];
      }
      FirstAfterRun(t, '.', m, IsLower);
    }
  }

  /**
   * Matches the email pattern without search: the `@` can only be the first
   * one (the local part has none) and the dot after the label only the first
   * dot after it (the label has none).
   */
  predicate EmailAccepted(s: string) {
    var i := IndexOf(s, '@');
    i < |s| &&
    var rest := s[i + 1..];
    var j := IndexOf(rest, '.');
    j < |rest| && Plus(s[..i], LocalChar) && Plus(rest[..j], LabelChar) && TldPartAccepted(rest[j + 1..])
  }

  lemma EmailAcceptedIff(s: string)
    ensures EmailAccepted(s) <==> EmailPattern(s)
  {
    if EmailAccepted(s) {
      var i := IndexOf(s, '@');
      var j := IndexOf(s[i + 1..], '.');
      EmailSound(s, i, j);
    }
    if EmailPattern(s) {
      var i', j' :| 0 <= i' < j' < |s| && s[i'] == '@' && s[j'] == '.'
        && Plus(s[..i'], LocalChar) && Plus(s[i' + 1..j'], LabelChar) && TldPart(s[j' + 1..]);
      EmailComplete(s, i', j');
    }
  }

  lemma EmailSound(s: string, i: nat, j: nat)
    requires i < |s| && s[i] == '@'
    requires j < |s[i + 1..]| && s[i + 1..][j] == '.'
    requires Plus(s[..i], LocalChar) && Plus(s[i + 1..][..j], LabelChar) && TldPart(s[i + 1..][j + 1..])
    ensures EmailPattern(s)
  {
    var j' := i + 1 + j;
    assert s[i + 1..][..j] == s[i + 1..j'];
    assert s[i + 1..][j + 1..] == s[j' + 1..];
    assert s[j'] == '.';
  }

  lemma EmailComplete(s: string, i: nat, j: nat)
    requires i < j < |s| && s[i] == '@' && s[j] == '.'
    requires Plus(s[..i], LocalChar) && Plus(s[i + 1..j], LabelChar) && TldPart(s[j + 1..])
    ensures EmailAccepted(s)
  {
    forall t | 0 <= t < i ensures LocalChar(s[t]) {
      assert s[t] == s[..i][t];
    }
    FirstAfterRun(s, '@', i, LocalChar);
    var rest := s[i + 1..];
    var k := j - i - 1;
    forall t | 0 <= t < k ensures LabelChar(rest[t]) {
      assert rest[t] == s[i + 1..j][t];
    }
    assert rest[k] == '.';
    FirstAfterRun(rest, '.', k, LabelChar);
    assert rest[..k] == s[i + 1..j];
    assert rest[k + 1..] == s[j + 1..];
  }

  /** The optional-second-TLD group holds only lowercase letters and dots. */
  lemma TldPartLowerOrDot(t: string)
    requires TldPart(t)
    ensures forall q :: 0 <= q < |t| ==> IsLower(t[q]) || t[q] == '.'
  {
    if !Tld(t) {
      var m :| 0 <= m < |t| && t[m] == '.' && Tld(t[..m]) && Tld(t[m + 1..]);
      forall q | 0 <= q < |t| ensures IsLower(t[q]) || t[q] == '.' {
        if q < m {
          assert t[..m][q] == t[q];
        } else if q > m {
          assert t[m + 1..][q - m - 1] == t[q];
        }
      }
    }
  }

  /** Every character of an address that matches the pattern is lowercase, a digit, `.`, `-` or `@`. */
  lemma EmailPatternChars(s: string)
    requires EmailPattern(s)
    ensures forall k :: 0 <= k < |s| ==> LocalChar(s[k]) || s[k] == '@'
  {
    var i, j :| 0 <= i < j < |s| && s[i] == '@' && s[j] == '.'
      && Plus(s[..i], LocalChar) && Plus(s[i + 1..j], LabelChar) && TldPart(s[j + 1..]);
    SplitChars(s, i, j);
  }

  lemma SplitChars(s: string, i: nat, j: nat)
    requires i < j < |s| && s[i] == '@' && s[j] == '.'
    requires Plus(s[..i], LocalChar) && Plus(s[i + 1..j], LabelChar) && TldPart(s[j + 1..])
    ensures forall k :: 0 <= k < |s| ==> LocalChar(s[k]) || s[k] == '@'
  {
    var localPart, domain, tail := s[..i], s[i + 1..j], s[j + 1..];
    TldPartLowerOrDot(tail);
    forall k | 0 <= k < |s| ensures LocalChar(s[k]) || s[k] == '@' {
      if k < i {
        assert localPart[k] == s[k];
      } else if i < k < j {
        assert domain[k - i - 1] == s[k];
      } else if j < k {
        assert tail[k - j - 1] == s[k];
      }
    }
  }

  /** Any uppercase letter rejects an address. */
  lemma EmailRejectsUpper(s: string, k: nat)
    requires k < |s| && IsUpper(s[k])
    ensures !EmailPattern(s)
  {
    if EmailPattern(s) {
      EmailPatternChars(s);
    }
  }

  // ---------------------------------------------------------------------------
  // Inline validators

  /** What a failing validator reports. */
  datatype Error =
    | Required
    | WrongLength(min: nat, max: nat)
    | NotAnyOf
    | InvalidName
    | InvalidEmail
    | EmailTaken
    | InvalidUsername
    | UsernameTaken
    | WeakPassword
    | InvalidPhone
    | PhoneTaken
    | InvalidGender

  /** The values already registered, as the database lookups see them. */
  datatype Users = Users(emails: set<string>, usernames: set<string>, phones: set<string>)

  const Genders: seq<string> := ["male", "female", "other"]

  /** `validate_email`: the format first, then the lookup. */
  function ValidateEmail(data: string, db: Users): (r: Option<Error>)
    ensures r == None <==> EmailPattern(data) && data !in db.emails
    ensures r == Some(InvalidEmail) <==> !EmailPattern(data)
    ensures r == Some(EmailTaken) <==> EmailPattern(data) && data in db.emails
  {
    EmailAcceptedIff(data);
    if !EmailAccepted(data) then Some(InvalidEmail)
    else if data in db.emails then Some(EmailTaken)
    else None
  }

  /** `validate_username`: the format first, then the lookup. */
  function ValidateUsername(data: string, db: Users): (r: Option<Error>)
    ensures r == None <==> UsernameRule(data) && data !in db.usernames
    ensures r == Some(InvalidUsername) <==> !UsernameRule(data)
    ensures r == Some(UsernameTaken) <==> UsernameRule(data) && data in db.usernames
  {
    UsernamePatternIsRule(data);
    if !UsernamePattern(data) then Some(InvalidUsername)
    else if data in db.usernames then Some(UsernameTaken)
    else None
  }

  /** `validate_password`, shared by both forms that have one. */
  function ValidatePassword(data: string): (r: Option<Error>)
    ensures r == None <==> PasswordRule(data)
    ensures r == None || r == Some(WeakPassword)
  {
    PasswordPatternIsRule(data);
    if PasswordPattern(data) then None else Some(WeakPassword)
  }

  /** `validate_phone`: the format first, then the lookup. */
  function ValidatePhone(data: string, db: Users): (r: Option<Error>)
    ensures r == None <==> PhonePattern(data) && data !in db.phones
    ensures r == Some(InvalidPhone) <==> !PhonePattern(data)
    ensures r == Some(PhoneTaken) <==> PhonePattern(data) && data in db.phones
  {
    if !PhonePattern(data) then Some(InvalidPhone)
    else if data in db.phones then Some(PhoneTaken)
    else None
  }

  function ValidateName(data: string): Option<Error> {
    if NamePattern(data) then None else Some(InvalidName)
  }

  function ValidateGender(data: string): Option<Error> {
    if data in Genders then None else Some(InvalidGender)
  }

  // ---------------------------------------------------------------------------
  // Validator chains

  datatype InlineCheck = NameCheck | EmailCheck | UsernameCheck | PasswordCheck | PhoneCheck | GenderCheck

  datatype Validator =
    | DataRequired
    | Length(min: nat, max: nat)
    | AnyOf(values: seq<string>)
    | Inline(check: InlineCheck)

  /** `DataRequired`: the data is not empty and not only whitespace. */
  predicate HasData(s: string) {
    exists i :: 0 <= i < |s| && !IsSpace(s[i])
  }

  function RunInline(check: InlineCheck, data: string, db: Users): Option<Error> {
    match check
    case NameCheck => ValidateName(data)
    case EmailCheck => ValidateEmail(data, db)
    case UsernameCheck => ValidateUsername(data, db)
    case PasswordCheck => ValidatePassword(data)
    case PhoneCheck => ValidatePhone(data, db)
    case GenderCheck => ValidateGender(data)
  }

  function Apply(v: Validator, data: string, db: Users): Option<Error> {
    match v
    case DataRequired => if HasData(data) then None else Some(Required)
    case Length(min, max) => if min <= |data| <= max then None else Some(WrongLength(min, max))
    case AnyOf(values) => if data in values then None else Some(NotAnyOf)
    case Inline(check) => RunInline(check, data, db)
  }

  /**
   * Runs `chain` after the errors `acc` already recorded. A failing
   * `DataRequired` replaces all errors by its own and stops the chain.
   */
  function RunChain(chain: seq<Validator>, data: string, db: Users, acc: seq<Error>): (errors: seq<Error>)
    ensures errors == [] <==> acc == [] && forall k :: 0 <= k < |chain| ==> Apply(chain[k], data, db) == None
    ensures |errors| <= |acc| + |chain|
    decreases |chain|
  {
    if chain == [] then acc
    else
      match Apply(chain[0], data, db)
      case None => RunChain(chain[1..], data, db, acc)
      case Some(e) => if chain[0].DataRequired? then [e] else RunChain(chain[1..], data, db, acc + [e])
  }

  /** The errors a field records for `data`. */
  function FieldErrors(chain: seq<Validator>, data: string, db: Users): seq<Error> {
    RunChain(chain, data, db, [])
  }

  const NameValidators: seq<Validator> := [DataRequired, Length(3, 60), Inline(NameCheck)]
  const EmailValidators: seq<Validator> := [DataRequired, Inline(EmailCheck)]
  const UsernameValidators: seq<Validator> := [DataRequired, Length(5, 32), Inline(UsernameCheck)]
  const PasswordValidators: seq<Validator> := [DataRequired, Length(8, 60), Inline(PasswordCheck)]
  const PhoneValidators: seq<Validator> := [DataRequired, Length(10, 10), Inline(PhoneCheck)]
  const GenderValidators: seq<Validator> := [DataRequired, AnyOf(Genders), Inline(GenderCheck)]
  const LoginIdentifierValidators: seq<Validator> := [DataRequired, Length(5, 60)]
  const LoginPasswordValidators: seq<Validator> := [DataRequired, Length(8, 60)]
  const ResetRequestIdentifierValidators: seq<Validator> := [DataRequired, Length(5, 60)]
  const ResetPasswordValidators: seq<Validator> := [DataRequired, Length(8, 60), Inline(PasswordCheck)]

  // ---------------------------------------------------------------------------
  // What each field accepts

  /** Name: not blank, and 3 to 60 letters, whitespace, commas, apostrophes or periods. */
  lemma NameFieldAccepts(s: string, db: Users)
    ensures FieldErrors(NameValidators, s, db) == [] <==> HasData(s) && NamePattern(s)
  {
    assert FieldErrors(NameValidators, s, db) == [] <==>
      (forall k :: 0 <= k < 3 ==> Apply(NameValidators[k], s, db) == None);
  }

  /** Three spaces match the name pattern and the length, yet the field rejects them as missing. */
  lemma BlankNameRejected(db: Users)
    ensures NamePattern("   ") && 3 <= |"   "| <= 60
    ensures FieldErrors(NameValidators, "   ", db) == [Required]
  {
    assert !HasData("   ");
  }

  /** Email: the pattern holds and the address is not registered. */
  lemma EmailFieldAccepts(s: string, db: Users)
    ensures FieldErrors(EmailValidators, s, db) == [] <==> EmailPattern(s) && s !in db.emails
    ensures HasData(s) && !EmailPattern(s) ==> FieldErrors(EmailValidators, s, db) == [InvalidEmail]
    ensures EmailPattern(s) && s in db.emails ==> FieldErrors(EmailValidators, s, db) == [EmailTaken]
  {
    if EmailPattern(s) {
      var i, j :| 0 <= i < j < |s| && s[i] == '@' && s[j] == '.'
        && Plus(s[..i], LocalChar) && Plus(s[i + 1..j], LabelChar) && TldPart(s[j + 1..]);
      assert !IsSpace(s[i]);
    }
    assert FieldErrors(EmailValidators, s, db) == [] <==>
      (forall k :: 0 <= k < 2 ==> Apply(EmailValidators[k], s, db) == None);
  }

  /** Username: 5 to 32 characters of the allowed kinds, not already taken. */
  lemma UsernameFieldAccepts(s: string, db: Users)
    ensures FieldErrors(UsernameValidators, s, db) == [] <==> UsernameRule(s) && s !in db.usernames
    ensures UsernameRule(s) && s in db.usernames ==> FieldErrors(UsernameValidators, s, db) == [UsernameTaken]
  {
    if UsernameRule(s) {
      assert !IsSpace(s[0]);
    }
    assert FieldErrors(UsernameValidators, s, db) == [] <==>
      (forall k :: 0 <= k < 3 ==> Apply(UsernameValidators[k], s, db) == None);
  }

  /** Password: the password rule alone decides; blankness and length are implied by it. */
  lemma PasswordFieldAccepts(s: string, db: Users)
    ensures FieldErrors(PasswordValidators, s, db) == [] <==> PasswordRule(s)
  {
    if PasswordRule(s) {
      var k :| 0 <= k < |s| && IsUpper(s[k]);
      assert !IsSpace(s[k]);
    }
    assert FieldErrors(PasswordValidators, s, db) == [] <==>
      (forall k :: 0 <= k < 3 ==> Apply(PasswordValidators[k], s, db) == None);
  }

  /** The reset form checks a new password exactly as registration does. */
  lemma ResetPasswordSameAsRegistration(s: string, db: Users)
    ensures FieldErrors(ResetPasswordValidators, s, db) == FieldErrors(PasswordValidators, s, db)
    ensures FieldErrors(ResetPasswordValidators, s, db) == [] <==> PasswordRule(s)
  {
    PasswordFieldAccepts(s, db);
  }

  /** Phone: exactly ten digits, not already registered. */
  lemma PhoneFieldAccepts(s: string, db: Users)
    ensures FieldErrors(PhoneValidators, s, db) == [] <==> PhonePattern(s) && s !in db.phones
    ensures PhonePattern(s) && s in db.phones ==> FieldErrors(PhoneValidators, s, db) == [PhoneTaken]
  {
    if PhonePattern(s) {
      assert !IsSpace(s[0]);
    }
    assert FieldErrors(PhoneValidators, s, db) == [] <==>
      (forall k :: 0 <= k < 3 ==> Apply(PhoneValidators[k], s, db) == None);
  }

  /** A short number records both the length error and the format error. */
  lemma ShortPhoneErrors(db: Users)
    ensures FieldErrors(PhoneValidators, "12345", db) == [WrongLength(10, 10), InvalidPhone]
  {
    assert !IsSpace("12345"[0]);
    assert !PhonePattern("12345");
  }

  /** Gender: exactly one of "male", "female" and "other". */
  lemma GenderFieldAccepts(s: string, db: Users)
    ensures FieldErrors(GenderValidators, s, db) == [] <==> s == "male" || s == "female" || s == "other"
  {
    if s in Genders {
      assert !IsSpace(s[0]);
      assert HasData(s);
    }
    assert Apply(GenderValidators[0], s, db) == None <==> HasData(s);
    assert Apply(GenderValidators[1], s, db) == None <==> s in Genders;
    assert Apply(GenderValidators[2], s, db) == None <==> s in Genders;
    assert FieldErrors(GenderValidators, s, db) == [] <==>
      (forall k :: 0 <= k < 3 ==> Apply(GenderValidators[k], s, db) == None);
    assert Genders == ["male", "female", "other"];
  }

  /** The comparison is case-sensitive, and both the field's and the inline check report it. */
  lemma CapitalisedGenderErrors(db: Users)
    ensures FieldErrors(GenderValidators, "Other", db) == [NotAnyOf, InvalidGender]
  {
    var other := "Other";
    assert !IsSpace(other[0]);
    assert other !in Genders;
    assert FieldErrors(GenderValidators, other, db) == RunChain(GenderValidators[1..], other, db, []);
    assert GenderValidators[1..] == [AnyOf(Genders), Inline(GenderCheck)];
    assert Apply(AnyOf(Genders), other, db) == Some(NotAnyOf);
    assert RunChain(GenderValidators[1..], other, db, []) == RunChain([Inline(GenderCheck)], other, db, [NotAnyOf]);
    assert Apply(Inline(GenderCheck), other, db) == Some(InvalidGender);
  }

  /** Login and reset-request identifiers: not blank, 5 to 60 characters. */
  lemma IdentifierFieldsAccept(s: string, db: Users)
    ensures FieldErrors(LoginIdentifierValidators, s, db) == [] <==> HasData(s) && 5 <= |s| <= 60
    ensures FieldErrors(ResetRequestIdentifierValidators, s, db) == [] <==> HasData(s) && 5 <= |s| <= 60
  {
    assert FieldErrors(LoginIdentifierValidators, s, db) == [] <==>
      (forall k :: 0 <= k < 2 ==> Apply(LoginIdentifierValidators[k], s, db) == None);
  }

  /** Login password: not blank, 8 to 60 characters, with no strength rule. */
  lemma LoginPasswordFieldAccepts(s: string, db: Users)
    ensures FieldErrors(LoginPasswordValidators, s, db) == [] <==> HasData(s) && 8 <= |s| <= 60
  {
    assert FieldErrors(LoginPasswordValidators, s, db) == [] <==>
      (forall k :: 0 <= k < 2 ==> Apply(LoginPasswordValidators[k], s, db) == None);
  }

  // ---------------------------------------------------------------------------
  // The registration form as a whole

  datatype Registration = Registration(name: string, email: string, username: string, password: string, phone: string, gender: string)

  /** The form validates when none of its fields records an error. */
  predicate RegistrationValidates(f: Registration, db: Users) {
    && FieldErrors(NameValidators, f.name, db) == []
    && FieldErrors(EmailValidators, f.email, db) == []
    && FieldErrors(UsernameValidators, f.username, db) == []
    && FieldErrors(PasswordValidators, f.password, db) == []
    && FieldErrors(PhoneValidators, f.phone, db) == []
    && FieldErrors(GenderValidators, f.gender, db) == []
  }

  /** Registration succeeds exactly when every field's rule holds and no email, username or phone is taken. */
  lemma RegistrationAccepts(f: Registration, db: Users)
    ensures RegistrationValidates(f, db) <==>
      && HasData(f.name) && NamePattern(f.name)
      && EmailPattern(f.email) && f.email !in db.emails
      && UsernameRule(f.username) && f.username !in db.usernames
      && PasswordRule(f.password)
      && PhonePattern(f.phone) && f.phone !in db.phones
      && f.gender in Genders
  {
    NameFieldAccepts(f.name, db);
    EmailFieldAccepts(f.email, db);
    UsernameFieldAccepts(f.username, db);
    PasswordFieldAccepts(f.password, db);
    PhoneFieldAccepts(f.phone, db);
    GenderFieldAccepts(f.gender, db);
  }
}
