/** The backend's field validators. Each runs its checks in a fixed order and
    reports the first one that fails, or a success message when all pass. */
module Validation {
  import opened Text
  import opened Records
  import opened Wrappers

  /** `{ isValid, message }`, what every validator returns. */
  datatype Verdict = Verdict(isValid: bool, message: string)

  predicate InRange(s: string, lo: int, hi: int) {
    lo <= |s| <= hi
  }

  // ---------------------------------------------------------------- quiz

  /** validateQuiz: title, then description, then topic; each by length and then
      by not being white space only. */
  function ValidateQuiz(title: string, description: string, topic: string): (r: Verdict)
    ensures r.isValid <==>
      && 5 <= |title| <= 50 && !AllWhitespace(title)
      && 15 <= |description| <= 200 && !AllWhitespace(description)
      && 5 <= |topic| <= 50 && !AllWhitespace(topic)
    ensures r.isValid ==> r.message == "Quiz is valid"
    ensures !(5 <= |title| <= 50) ==> r.message == "Title should be 5-50 characters"
    ensures 5 <= |title| <= 50 && AllWhitespace(title) ==>
      r.message == "Title should not only contain white spaces"
    ensures 5 <= |title| <= 50 && !AllWhitespace(title) && !(15 <= |description| <= 200) ==>
      r.message == "Description should be 15-200 characters"
    ensures 5 <= |title| <= 50 && !AllWhitespace(title) && 15 <= |description| <= 200 && AllWhitespace(description) ==>
      r.message == "Description should not only contain white spaces"
    ensures (5 <= |title| <= 50 && !AllWhitespace(title) && 15 <= |description| <= 200 && !AllWhitespace(description)
             && !(5 <= |topic| <= 50)) ==> r.message == "Topic should be 5-50 characters"
    ensures (5 <= |title| <= 50 && !AllWhitespace(title) && 15 <= |description| <= 200 && !AllWhitespace(description)
             && 5 <= |topic| <= 50 && AllWhitespace(topic)) ==> r.message == "Topic should not only contain white spaces"
  {
    if !InRange(title, 5, 50) then Verdict(false, "Title should be 5-50 characters")
    else if AllWhitespace(title) then Verdict(false, "Title should not only contain white spaces")
    else if !InRange(description, 15, 200) then Verdict(false, "Description should be 15-200 characters")
    else if AllWhitespace(description) then Verdict(false, "Description should not only contain white spaces")
    else if !InRange(topic, 5, 50) then Verdict(false, "Topic should be 5-50 characters")
    else if AllWhitespace(topic) then Verdict(false, "Topic should not only contain white spaces")
    else Verdict(true, "Quiz is valid")
  }

  // ---------------------------------------------------------------- items

  /** The text every item message starts with: "Item <ordinal>: ". */
  function ItemPrefix(ordinal: int): string {
    "Item " + IntToString(ordinal) + ": "
  }

  predicate StartsWith(s: string, prefix: string) {
    |prefix| <= |s| && s[..|prefix|] == prefix
  }

  /** What questionValidationWrapper demands of every item, whatever its type.
      The explanation may be empty: the all-white-space test needs a character. */
  predicate SharedFieldsOk(item: Item) {
    && 15 <= |item.question| <= 300 && !AllWhitespace(item.question)
    && |item.explanation| <= 300 && !AllWhitespace(item.explanation)
    && 10 <= item.timer <= 120
    && 50 <= item.points <= 1000
  }

  /** Prefixes `message` with the item's ordinal. */
  function ForItem(v: Verdict, ordinal: int): (r: Verdict)
    ensures r.isValid == v.isValid
    ensures r.message == ItemPrefix(ordinal) + v.message
    ensures StartsWith(r.message, ItemPrefix(ordinal))
  {
    PrefixOfConcat(ItemPrefix(ordinal), v.message);
    Verdict(v.isValid, ItemPrefix(ordinal) + v.message)
  }

  lemma PrefixOfConcat(p: string, m: string)
    ensures StartsWith(p + m, p)
  {
    assert (p + m)[..|p|] == p;
  }

  predicate QuestionOk(item: Item) {
    15 <= |item.question| <= 300 && !AllWhitespace(item.question)
  }

  predicate ExplanationOk(item: Item) {
    |item.explanation| <= 300 && !AllWhitespace(item.explanation)
  }

  /** questionValidationWrapper: the shared fields of item number `ordinal`, in
      the order question, explanation, timer, points. */
  function ValidateShared(item: Item, ordinal: int): (r: Verdict)
    ensures r.isValid <==> SharedFieldsOk(item)
    ensures r.isValid ==> r.message == ItemPrefix(ordinal) + "Valid"
    ensures StartsWith(r.message, ItemPrefix(ordinal))
    ensures !(15 <= |item.question| <= 300) ==>
      r.message == ItemPrefix(ordinal) + "Question should be 15-300 characters"
    ensures 15 <= |item.question| <= 300 && AllWhitespace(item.question) ==>
      r.message == ItemPrefix(ordinal) + "Question should not only contain white spaces"
    ensures QuestionOk(item) && |item.explanation| > 300 ==>
      r.message == ItemPrefix(ordinal) + "Explanation should be 0-300 characters"
    ensures QuestionOk(item) && |item.explanation| <= 300 && AllWhitespace(item.explanation) ==>
      r.message == ItemPrefix(ordinal) + "Explanation should not only contain white spaces"
    ensures QuestionOk(item) && ExplanationOk(item) && item.timer == 0 ==>
      r.message == ItemPrefix(ordinal) + "Timer should be a number"
    ensures QuestionOk(item) && ExplanationOk(item) && item.timer != 0 && !(10 <= item.timer <= 120) ==>
      r.message == ItemPrefix(ordinal) + "Timer should range 10-120"
    ensures QuestionOk(item) && ExplanationOk(item) && 10 <= item.timer <= 120 && item.points == 0 ==>
      r.message == ItemPrefix(ordinal) + "Points should be a number"
    ensures (QuestionOk(item) && ExplanationOk(item) && 10 <= item.timer <= 120 && item.points != 0
             && !(50 <= item.points <= 1000)) ==>
      r.message == ItemPrefix(ordinal) + "Points should range 50-1000"
  {
    var v :=
      if !InRange(item.question, 15, 300) then Verdict(false, "Question should be 15-300 characters")
      else if AllWhitespace(item.question) then Verdict(false, "Question should not only contain white spaces")
      else if |item.explanation| > 300 then Verdict(false, "Explanation should be 0-300 characters")
      else if AllWhitespace(item.explanation) then Verdict(false, "Explanation should not only contain white spaces")
      // `!Number(timer)` holds only for 0 once the timer is an integer
      else if item.timer == 0 then Verdict(false, "Timer should be a number")
      else if !(10 <= item.timer <= 120) then Verdict(false, "Timer should range 10-120")
      else if item.points == 0 then Verdict(false, "Points should be a number")
      else if !(50 <= item.points <= 1000) then Verdict(false, "Points should range 50-1000")
      else Verdict(true, "Valid");
    ForItem(v, ordinal)
  }

  /** The four choices of a multiple-choice key, in letter order. */
  function ChoicesOf(key: Key): seq<string>
    requires key.Choices?
  {
    [key.letterA, key.letterB, key.letterC, key.letterD]
  }

  /** A choice, or an identification answer: 1-200 characters, not only white space. */
  predicate AnswerTextOk(s: string) {
    1 <= |s| <= 200 && !AllWhitespace(s)
  }

  /** What the type-specific validators add to the shared checks. The answer
      letter is compared case-sensitively; a true-or-false key adds nothing. */
  predicate KeyOk(key: Key) {
    match key
    case Choices(_, _, _, _, letter) =>
      (forall c :: c in ChoicesOf(key) ==> AnswerTextOk(c)) && letter in ["a", "b", "c", "d"]
    case Typed(answer) => AnswerTextOk(answer)
    case Flag(_) => true
  }

  /** validateMultipleChoice: the shared checks, then the four choices' lengths,
      then their white space, then the answer letter. */
  function ValidateMultipleChoice(item: Item, ordinal: int): (r: Verdict)
    requires item.key.Choices?
    ensures r.isValid <==> SharedFieldsOk(item) && KeyOk(item.key)
    ensures !SharedFieldsOk(item) ==> r == ValidateShared(item, ordinal)
    ensures StartsWith(r.message, ItemPrefix(ordinal))
    ensures r.isValid ==> r.message == ItemPrefix(ordinal) + "Item is valid"
    ensures (SharedFieldsOk(item) && exists c :: c in ChoicesOf(item.key) && !InRange(c, 1, 200)) ==>
      r.message == ItemPrefix(ordinal) + "Choices should be 1-200 characters"
    ensures (SharedFieldsOk(item) && (forall c :: c in ChoicesOf(item.key) ==> InRange(c, 1, 200))
             && exists c :: c in ChoicesOf(item.key) && AllWhitespace(c)) ==>
      r.message == ItemPrefix(ordinal) + "Choices should not only contain white spaces"
    ensures (SharedFieldsOk(item) && (forall c :: c in ChoicesOf(item.key) ==> AnswerTextOk(c))
             && item.key.letter !in ["a", "b", "c", "d"]) ==>
      r.message == ItemPrefix(ordinal) + "Invalid answer"
  {
    var shared := ValidateShared(item, ordinal);
    var choices := ChoicesOf(item.key);
    if !shared.isValid then shared
    else if exists c :: c in choices && !InRange(c, 1, 200) then
      ForItem(Verdict(false, "Choices should be 1-200 characters"), ordinal)
    else if exists c :: c in choices && AllWhitespace(c) then
      ForItem(Verdict(false, "Choices should not only contain white spaces"), ordinal)
    else if item.key.letter !in ["a", "b", "c", "d"] then
      ForItem(Verdict(false, "Invalid answer"), ordinal)
    else ForItem(Verdict(true, "Item is valid"), ordinal)
  }

  /** validateIdentification: the shared checks, then the answer's length and white space. */
  function ValidateIdentification(item: Item, ordinal: int): (r: Verdict)
    requires item.key.Typed?
    ensures r.isValid <==> SharedFieldsOk(item) && KeyOk(item.key)
    ensures !SharedFieldsOk(item) ==> r == ValidateShared(item, ordinal)
    ensures StartsWith(r.message, ItemPrefix(ordinal))
    ensures r.isValid ==> r.message == ItemPrefix(ordinal) + "Item is valid"
    ensures SharedFieldsOk(item) && !InRange(item.key.answer, 1, 200) ==>
      r.message == ItemPrefix(ordinal) + "Answer should be 1-200 characters"
    ensures SharedFieldsOk(item) && InRange(item.key.answer, 1, 200) && AllWhitespace(item.key.answer) ==>
      r.message == ItemPrefix(ordinal) + "Answer should not only contain white spaces"
  {
    var shared := ValidateShared(item, ordinal);
    if !shared.isValid then shared
    else if !InRange(item.key.answer, 1, 200) then
      ForItem(Verdict(false, "Answer should be 1-200 characters"), ordinal)
    else if AllWhitespace(item.key.answer) then
      ForItem(Verdict(false, "Answer should not only contain white spaces"), ordinal)
    else ForItem(Verdict(true, "Item is valid"), ordinal)
  }

  /** validateTrueOrFalse: the shared checks only. */
  function ValidateTrueOrFalse(item: Item, ordinal: int): (r: Verdict)
    ensures r.isValid <==> SharedFieldsOk(item)
    ensures !r.isValid ==> r == ValidateShared(item, ordinal)
    ensures r.isValid ==> r.message == ItemPrefix(ordinal) + "Item is valid"
    ensures StartsWith(r.message, ItemPrefix(ordinal))
  {
    var shared := ValidateShared(item, ordinal);
    if !shared.isValid then shared
    else ForItem(Verdict(true, "Item is valid"), ordinal)
  }

  /** The validator the add and update handlers pick for the declared type. */
  function ValidateItem(t: QuizType, item: Item, ordinal: int): (r: Verdict)
    requires Fits(item, t)
    ensures r.isValid <==> SharedFieldsOk(item) && KeyOk(item.key)
    ensures StartsWith(r.message, ItemPrefix(ordinal))
  {
    match t
    case MultipleChoice => ValidateMultipleChoice(item, ordinal)
    case Identification => ValidateIdentification(item, ordinal)
    case TrueOrFalse => ValidateTrueOrFalse(item, ordinal)
  }

  /** getValidations: the quiz's verdict first, then item i's with ordinal i + 1. */
  function GetValidations(items: seq<Item>, meta: QuizMeta, t: QuizType): (r: seq<Verdict>)
    requires AllFit(items, t)
    ensures |r| == |items| + 1
    ensures r[0] == ValidateQuiz(meta.name, meta.description, meta.topic)
  {
    [ValidateQuiz(meta.name, meta.description, meta.topic)]
      + seq(|items|, i requires 0 <= i < |items| => ValidateItem(t, items[i], i + 1))
  }

  /** Verdict i + 1 judges item i: it passes iff the item's shared fields and
      key pass, and its message names the item's ordinal. */
  lemma GetValidationsJudgesItems(items: seq<Item>, meta: QuizMeta, t: QuizType)
    requires AllFit(items, t)
    ensures var r := GetValidations(items, meta, t);
      forall i :: 0 <= i < |items| ==>
        && (r[i + 1].isValid <==> SharedFieldsOk(items[i]) && KeyOk(items[i].key))
        && StartsWith(r[i + 1].message, ItemPrefix(i + 1))
  {
    var r := GetValidations(items, meta, t);
    forall i | 0 <= i < |items|
      ensures && (r[i + 1].isValid <==> SharedFieldsOk(items[i]) && KeyOk(items[i].key))
              && StartsWith(r[i + 1].message, ItemPrefix(i + 1))
    {
      assert r[i + 1] == ValidateItem(t, items[i], i + 1);
    }
  }

  /** `validations.filter(v => !v.isValid).map(v => v.message)`. */
  function Failures(vs: seq<Verdict>): (r: seq<string>)
    ensures |r| <= |vs|
    ensures r == [] <==> forall i :: 0 <= i < |vs| ==> vs[i].isValid
    ensures forall i :: 0 <= i < |vs| && !vs[i].isValid ==> vs[i].message in r
    ensures forall m :: m in r ==> exists i :: 0 <= i < |vs| && !vs[i].isValid && vs[i].message == m
  {
    if |vs| == 0 then []
    else
      var rest := Failures(vs[1..]);
      assert forall i :: 1 <= i < |vs| ==> vs[i] == vs[1..][i - 1];
      (if vs[0].isValid then [] else [vs[0].message]) + rest
  }

  /** The failing messages keep the order of the verdicts. */
  lemma {:induction false} FailuresAppend(a: seq<Verdict>, b: seq<Verdict>)
    ensures Failures(a + b) == Failures(a) + Failures(b)
  {
    if |a| > 0 {
      assert (a + b)[1..] == a[1..] + b;
      FailuresAppend(a[1..], b);
    } else {
      assert a + b == b;
    }
  }

  // ---------------------------------------------------------------- accounts

  predicate LoginFilled(email: string, password: string) {
    email != "" && password != ""
  }

  predicate LoginLengthsOk(email: string, password: string) {
    InRange(email, 15, 40) && InRange(password, 8, 20)
  }

  /** validateLogin: filled fields, their lengths, the user's existence, then the
      password against the stored digest. */
  function ValidateLogin(user: Option<User>, email: string, password: string, crypto: Crypto): (r: Verdict)
    ensures r.isValid <==>
      LoginFilled(email, password) && LoginLengthsOk(email, password)
      && user.Some? && crypto.compare(password, user.value.passwordHash)
    ensures r.isValid ==> r.message == "User Logged In"
    ensures !LoginFilled(email, password) ==> r.message == "Fill up all empty fields"
    ensures LoginFilled(email, password) && !LoginLengthsOk(email, password) ==>
      r.message == "Fill up fields with specified length"
    ensures LoginFilled(email, password) && LoginLengthsOk(email, password) && user.None? ==>
      r.message == "User not found"
    ensures (LoginFilled(email, password) && LoginLengthsOk(email, password) && user.Some?
             && !crypto.compare(password, user.value.passwordHash)) ==>
      r.message == "Wrong password"
  {
    if !LoginFilled(email, password) then Verdict(false, "Fill up all empty fields")
    else if !LoginLengthsOk(email, password) then Verdict(false, "Fill up fields with specified length")
    else if user.None? then Verdict(false, "User not found")
    else if !crypto.compare(password, user.value.passwordHash) then Verdict(false, "Wrong password")
    else Verdict(true, "User Logged In")
  }

  /** validateEmail, used before a recovery code is sent. */
  function ValidateEmail(email: string, rx: Patterns): (r: Verdict)
    ensures r.isValid <==> InRange(email, 15, 40) && rx.email(email)
    ensures r.isValid ==> r.message == "Valid Email"
    ensures !InRange(email, 15, 40) ==> r.message == "Email should be 15-40 characters"
    ensures InRange(email, 15, 40) && !rx.email(email) ==> r.message == "Invalid Email"
  {
    if !InRange(email, 15, 40) then Verdict(false, "Email should be 15-40 characters")
    else if !rx.email(email) then Verdict(false, "Invalid Email")
    else Verdict(true, "Valid Email")
  }

  predicate NameTaken(users: seq<User>, name: string) {
    exists i :: 0 <= i < |users| && users[i].name == name
  }

  predicate EmailTaken(users: seq<User>, email: string) {
    exists i :: 0 <= i < |users| && users[i].email == email
  }

  predicate SignupFilled(name: string, email: string, password: string, confirm: string) {
    name != "" && email != "" && password != "" && confirm != ""
  }

  predicate SignupLengthsOk(name: string, email: string, password: string) {
    InRange(name, 5, 20) && InRange(email, 15, 40) && InRange(password, 8, 20)
  }

  predicate SignupFormOk(name: string, email: string, password: string, confirm: string, termsAccepted: bool, rx: Patterns) {
    && termsAccepted && SignupFilled(name, email, password, confirm)
    && SignupLengthsOk(name, email, password) && password == confirm
    && rx.name(name) && rx.email(email) && rx.password(password)
  }

  /** validateSignup over the current user table: terms, filled fields,
      lengths, matching passwords, the three patterns, then the name's and the
      email's uniqueness. */
  function ValidateSignup(name: string, email: string, password: string, confirm: string,
                          termsAccepted: bool, rx: Patterns, users: seq<User>): (r: Verdict)
    ensures r.isValid <==>
      SignupFormOk(name, email, password, confirm, termsAccepted, rx)
      && !NameTaken(users, name) && !EmailTaken(users, email)
    ensures r.isValid ==> r.message == "User Signed Up"
    ensures !termsAccepted ==> r.message == "You did not accept terms and conditions"
    ensures termsAccepted && !SignupFilled(name, email, password, confirm) ==>
      r.message == "Fill up all empty fields"
    ensures (termsAccepted && SignupFilled(name, email, password, confirm)
             && !SignupLengthsOk(name, email, password)) ==>
      r.message == "Fill up fields with specified length"
    ensures (termsAccepted && SignupFilled(name, email, password, confirm)
             && SignupLengthsOk(name, email, password) && password != confirm) ==>
      r.message == "Passwords do not match"
    ensures (termsAccepted && SignupFilled(name, email, password, confirm)
             && SignupLengthsOk(name, email, password) && password == confirm && !rx.name(name)) ==>
      r.message == "Invalid Username"
    ensures (termsAccepted && SignupFilled(name, email, password, confirm)
             && SignupLengthsOk(name, email, password) && password == confirm && rx.name(name)
             && !rx.email(email)) ==>
      r.message == "Invalid Email"
    ensures (termsAccepted && SignupFilled(name, email, password, confirm)
             && SignupLengthsOk(name, email, password) && password == confirm && rx.name(name)
             && rx.email(email) && !rx.password(password)) ==>
      r.message == "Invalid Password"
    ensures SignupFormOk(name, email, password, confirm, termsAccepted, rx) && NameTaken(users, name) ==>
      r.message == "Username already exist"
    ensures (SignupFormOk(name, email, password, confirm, termsAccepted, rx) && !NameTaken(users, name)
             && EmailTaken(users, email)) ==>
      r.message == "Email already exist"
  {
    if !termsAccepted then Verdict(false, "You did not accept terms and conditions")
    else if !SignupFilled(name, email, password, confirm) then Verdict(false, "Fill up all empty fields")
    else if !SignupLengthsOk(name, email, password) then Verdict(false, "Fill up fields with specified length")
    else if password != confirm then Verdict(false, "Passwords do not match")
    else if !rx.name(name) then Verdict(false, "Invalid Username")
    else if !rx.email(email) then Verdict(false, "Invalid Email")
    else if !rx.password(password) then Verdict(false, "Invalid Password")
    else if NameTaken(users, name) then Verdict(false, "Username already exist")
    else if EmailTaken(users, email) then Verdict(false, "Email already exist")
    else Verdict(true, "User Signed Up")
  }

  /** validatePassword, for a signed-in user changing their password:
      filled fields, the current password against the stored digest, the
      new password's pattern, then the confirmation. */
  function ValidatePassword(current: string, newPassword: string, confirm: string,
                            storedHash: string, rx: Patterns, crypto: Crypto): (r: Verdict)
    ensures r.isValid <==>
      current != "" && newPassword != "" && confirm != ""
      && crypto.compare(current, storedHash) && rx.password(newPassword) && newPassword == confirm
    ensures r.isValid ==> r.message == "Password changed"
    ensures (current == "" || newPassword == "" || confirm == "") ==> r.message == "Fill up empty fields"
    ensures (current != "" && newPassword != "" && confirm != ""
             && !crypto.compare(current, storedHash)) ==>
      r.message == "Current password do not match"
    ensures (current != "" && newPassword != "" && confirm != ""
             && crypto.compare(current, storedHash) && !rx.password(newPassword)) ==>
      r.message == "Invalid new password"
    ensures (current != "" && newPassword != "" && confirm != ""
             && crypto.compare(current, storedHash) && rx.password(newPassword) && newPassword != confirm) ==>
      r.message == "New password do not match"
  {
    if current == "" || newPassword == "" || confirm == "" then Verdict(false, "Fill up empty fields")
    else if !crypto.compare(current, storedHash) then Verdict(false, "Current password do not match")
    else if !rx.password(newPassword) then Verdict(false, "Invalid new password")
    else if newPassword != confirm then Verdict(false, "New password do not match")
    else Verdict(true, "Password changed")
  }

  /** validateUsername: 5-20 characters, then the name pattern. */
  function ValidateUsername(name: string, rx: Patterns): (r: Verdict)
    ensures r.isValid <==> InRange(name, 5, 20) && rx.name(name)
    ensures r.isValid ==> r.message == "Username changed"
    ensures !InRange(name, 5, 20) ==> r.message == "Username should be 5-20 characters"
    ensures InRange(name, 5, 20) && !rx.name(name) ==> r.message == "Invalid username"
  {
    if !InRange(name, 5, 20) then Verdict(false, "Username should be 5-20 characters")
    else if !rx.name(name) then Verdict(false, "Invalid username")
    else Verdict(true, "Username changed")
  }

  /** validateRole: 5-50 characters. */
  function ValidateRole(role: string): (r: Verdict)
    ensures r.isValid <==> 5 <= |role| <= 50
    ensures r.message == (if r.isValid then "Role changed" else "Role should be 5-50 characters")
  {
    if !InRange(role, 5, 50) then Verdict(false, "Role should be 5-50 characters")
    else Verdict(true, "Role changed")
  }

  /** validateForgotPassword as written: the entered code against the stored
      one, then the new password's pattern, then the confirmation. An unissued
      (empty) stored code matches an empty entered code. */
  function ValidateForgotPassword(userCode: string, code: string, password: string, confirm: string,
                                  rx: Patterns): (r: Verdict)
    ensures r.isValid <==> code == userCode && rx.password(password) && password == confirm
    ensures r.isValid ==> r.message == "Password changed successfully"
    ensures code != userCode ==> r == Verdict(false, "Invalid Code")
    ensures code == userCode && !rx.password(password) ==> r.message == "Invalid Password"
    ensures code == userCode && rx.password(password) && password != confirm ==>
      r.message == "Passwords do not match"
  {
    if code != userCode then Verdict(false, "Invalid Code")
    else if !rx.password(password) then Verdict(false, "Invalid Password")
    else if password != confirm then Verdict(false, "Passwords do not match")
    else Verdict(true, "Password changed successfully")
  }

  /** The recovery check as written lets anyone whose account has no pending
      code (every account before its first request, and again after each
      completed reset) set a new password by sending an empty code. */
  lemma EmptyCodeAlwaysMatches(password: string, rx: Patterns)
    requires rx.password(password)
    ensures ValidateForgotPassword("", "", password, password, rx).isValid
  {
  }

  /** The recovery check as evidently intended: only a code that was issued,
      and is still pending, can be redeemed. */
  function ValidateIssuedCode(userCode: string, code: string, password: string, confirm: string,
                              rx: Patterns): (r: Verdict)
    ensures r.isValid <==> userCode != "" && code == userCode && rx.password(password) && password == confirm
    ensures r.isValid ==> r.message == "Password changed successfully"
    ensures (userCode == "" || code != userCode) ==> r == Verdict(false, "Invalid Code")
    ensures userCode != "" ==> r == ValidateForgotPassword(userCode, code, password, confirm, rx)
  {
    if userCode == "" then Verdict(false, "Invalid Code")
    else ValidateForgotPassword(userCode, code, password, confirm, rx)
  }
}
