# QuizzyQuest in Dafny

QuizzyQuest lets users write timed quizzes and answer them. There are three
quiz types: Multiple Choice, Identification and True or False. This project
models the rules the application is built on:

- The Express backend:
  - the field validators, each returning the first check that fails;
  - the quiz store (quizzes, three per-type item tables, answer rows) and its
    add, update, delete and answer handlers;
  - the access gates the client asks before opening a page;
  - the user account transitions: log-in, sign-up, the password-recovery
    code, and profile updates.
- The React client:
  - the answering page: grading, the countdown, navigation and the
    submission;
  - the spreadsheet import dialog: cell validation and normalisation;
  - the item-list editor shared by the create and edit pages, and the mapping
    between its form fields and the wire format.

Modules, one per file:

| file | module | what it holds |
|---|---|---|
| wrappers.dfy | Wrappers | `Option` |
| text.dfy | Text | JavaScript's `split`/`join`, `Number(...)`, number-to-string, ASCII case mapping, `/^\s+$/` |
| records.dfy | Records | quiz types, items, quiz rows, answer rows, users, replies, and the per-type item rendering |
| validation.dfy | Validation | every validator in `utils.js` |
| dates.dfy | Dates | `toTwoDigits` and `formatDate`, with "now" passed in |
| quiz_store.dfy | QuizStore | the class `Store` and the quiz routes |
| access.dfy | Access | the three access gates |
| accounts.dfy | Accounts | the class `UserTable` and the auth and user routes |
| answer_session.dfy | AnswerSession | per-item answering state and the class `Session` (the answering page) |
| spreadsheet_import.dfy | SpreadsheetImport | the cell rules and the class `ImportDialog` |
| quiz_form.dfy | QuizForm | form items, wire mapping and the class `Editor` (the create and edit pages) |

Design choices:

- Opaque capabilities are values passed in, not code:
  - the environment's name, email and password regular expressions are the
    predicates of `Patterns`;
  - bcrypt's hash and compare, and jwt's sign, are the functions of `Crypto`.
- Everything the server stores in a transaction is written together at the end
  of a method, after every check has passed. So "no write on rejection" is
  stated as `unchanged(this)` on each error path.
- Item ids are unique only inside their own type's table. Each table carries
  its own `nextId`.
- The store's invariant, `QuizStore.Consistent`, ties each quiz row to its
  `questions_id`. That string is the ids joined by "|", and every listed id is
  a row of the quiz's own type's table. `Store.Valid` is that invariant on the
  fields, and every method keeps it.

## Model

| member | source | states |
|---|---|---|
| Text.Occurrences | quizzy-quest-backend/routes/quiz-routes.js:195 | the separator count is zero exactly when the separator does not occur |
| Text.AllWhitespace | quizzy-quest-backend/utils.js:224 | `/^\s+$/.test`: a non-empty string of white space only |
| Text.Join | quizzy-quest-backend/routes/quiz-routes.js:267-270 | `join` with a one-character separator: the elements with the separator between neighbours, "" for an empty list |
| Text.Split | quizzy-quest-backend/utils.js:564-567 | `split` yields one more piece than there are separators, and no piece contains the separator |
| Text.SplitNoSeparator | quizzy-quest-backend/utils.js:565 | a string without the separator splits into itself alone |
| Text.SplitAfterPiece | quizzy-quest-backend/utils.js:565 | splitting `a + sep + b` yields `a` followed by the pieces of `b` |
| Text.SplitJoin | quizzy-quest-backend/routes/quiz-routes.js:267-270 | `split` undoes `join` for a non-empty list whose elements contain no separator |
| Text.JoinSplit | quizzy-quest-backend/utils.js:564-567 | `join` undoes `split` for every string |
| Text.EmptyListReadsBackAsOnePiece | quizzy-quest-backend/utils.js:565 | an empty list is stored as "" and reads back as [""] |
| Text.SeparatorInsideElementSplitsIt | quizzy-quest-backend/routes/quiz-routes.js:268 | an answer that contains "\|" reads back as two answers |
| Text.LastPiece | quizzy-quest/src/components/ImportSpreadsheetMenu.js:254-256 | the last piece of a split is the text after the last separator, or the whole string when there is none |
| Text.DigitsValueOfDecimal | quizzy-quest-backend/routes/quiz-routes.js:103 | the decimal rendering of a natural number reads back as that number |
| Text.IntToString | quizzy-quest-backend/routes/quiz-routes.js:103 | an id is rendered as a non-empty string of digits and an optional minus sign |
| Text.NumberOfIntToString | quizzy-quest-backend/utils.js:615 | `Number` of the rendering of an integer is that integer |
| Text.IntToStringInjective | quizzy-quest-backend/utils.js:615 | distinct ids have distinct renderings |
| Text.IntsToStrings | quizzy-quest-backend/routes/quiz-routes.js:103 | rendering a list renders every element, in order |
| Text.StringsToNumbers | quizzy-quest-backend/utils.js:564 | `map(Number)` applies `Number` to every piece, in order |
| Text.NumberOf | quizzy-quest-backend/utils.js:262-268 | `Number` on a string: "" reads as 0, an optional "-" and decimal digits as that integer, anything else as NaN |
| Text.Lower | quizzy-quest/src/pages/AnswerQuiz.js:227 | `toLowerCase` keeps the length and lower-cases every ASCII capital, leaving other characters alone |
| Text.Upper | quizzy-quest/src/components/ImportSpreadsheetMenu.js:126 | `toUpperCase` keeps the length and upper-cases every ASCII small letter, leaving other characters alone |
| Records.ParseType | quizzy-quest-backend/routes/quiz-routes.js:152-162 | a type name is known exactly when it is one of the three type names |
| Records.TypeName | quizzy-quest-backend/routes/quiz-routes.js:152-162 | every type's name parses back to that type |
| Records.Serve | quizzy-quest-backend/utils.js:508-553 | a served item carries its id, question, explanation, timer and points; a TF answer is rendered "TRUE" or "FALSE" matching the boolean; MC carries its letter and its four choices in the order a, b, c, d; identification carries its answer and no choices |
| Validation.ValidateQuiz | quizzy-quest-backend/utils.js:220-241 | valid iff title is 5-50 characters, description 15-200 and topic 5-50, none all white space; each failure gives its own message, checked in the order title, description, topic |
| Validation.ForItem | quizzy-quest-backend/utils.js:251 | an item's message is prefixed "Item i: " and validity is kept |
| Validation.PrefixOfConcat | quizzy-quest-backend/utils.js:251 | a prefixed message starts with its prefix |
| Validation.ValidateShared | quizzy-quest-backend/utils.js:249-276 | valid iff question 15-300 and not all white space, explanation at most 300 and not all white space, timer non-zero and 10-120, points non-zero and 50-1000; each failure, in that order, has its own message |
| Validation.ValidateMultipleChoice | quizzy-quest-backend/utils.js:284-301 | a shared failure is returned unchanged; otherwise valid iff all four choices are 1-200 characters and not all white space and the answer is one of "a" to "d", case-sensitively |
| Validation.ValidateIdentification | quizzy-quest-backend/utils.js:309-322 | a shared failure is returned unchanged; otherwise valid iff the answer is 1-200 characters and not all white space |
| Validation.ValidateTrueOrFalse | quizzy-quest-backend/utils.js:330-337 | the shared check and nothing more |
| Validation.ValidateItem | quizzy-quest-backend/routes/quiz-routes.js:121-149 | the validator of the item's type: valid iff the shared fields and the answer key pass |
| Validation.GetValidations | quizzy-quest-backend/utils.js:422-426 | n+1 verdicts, the quiz's first |
| Validation.GetValidationsJudgesItems | quizzy-quest-backend/utils.js:422-426 | verdict i+1 passes iff item i's shared fields and answer key pass, and its message starts with "Item i+1: " |
| Validation.Failures | quizzy-quest-backend/routes/quiz-routes.js:116-119 | the failing messages: empty iff every verdict passes, and each message comes from a failing verdict |
| Validation.FailuresAppend | quizzy-quest-backend/routes/quiz-routes.js:118 | filtering failures distributes over concatenation, so they keep validation order |
| Validation.ValidateLogin | quizzy-quest-backend/utils.js:139-154 | valid iff both fields are filled, their lengths fit, the user exists and the password matches its hash; each failure has its own message |
| Validation.ValidateEmail | quizzy-quest-backend/utils.js:161-170 | valid iff 15-40 characters and the email pattern matches; length is checked first |
| Validation.ValidateSignup | quizzy-quest-backend/utils.js:181-211 | unaccepted terms are rejected before anything else; then empty fields, lengths, password confirmation, the name, email and password patterns, a taken name and a taken email, in order |
| Validation.ValidatePassword | quizzy-quest-backend/utils.js:347-362 | valid iff all filled, the current password matches the hash, the new one matches the pattern and equals its confirmation; failures in that order |
| Validation.ValidateUsername | quizzy-quest-backend/utils.js:369-378 | valid iff 5-20 characters and the name pattern matches |
| Validation.ValidateRole | quizzy-quest-backend/utils.js:385-391 | valid iff 5-50 characters, with the matching message |
| Validation.ValidateForgotPassword | quizzy-quest-backend/utils.js:401-413 | a code different from the stored one fails "Invalid Code" before any password check; valid iff the code matches, the password matches the pattern and equals its confirmation |
| Validation.EmptyCodeAlwaysMatches | quizzy-quest-backend/utils.js:401-413 | as written, an empty submitted code passes against a user who never requested one |
| Validation.ValidateIssuedCode | quizzy-quest-backend/utils.js:401-413 | the corrected check: valid iff a code was issued and the rest of the check passes; otherwise the same verdict |
| Dates.ToTwoDigits | quizzy-quest-backend/utils.js:31-33 | always two characters |
| Dates.DecimalLastDigit | quizzy-quest-backend/utils.js:32 | the last digit of a decimal rendering is the number modulo 10 |
| Dates.ToTwoDigitsIsLastTwoDigits | quizzy-quest-backend/utils.js:31-33 | for n at least 0, the result is exactly the tens digit and the units digit of n |
| Dates.Hour12 | quizzy-quest-backend/utils.js:102 | the displayed hour lies in 1..12 and agrees with the hour modulo 12 |
| Dates.Meridiem | quizzy-quest-backend/utils.js:63 | "PM" iff the hour is at least 12, else "AM" |
| Dates.AbsoluteDate | quizzy-quest-backend/utils.js:95-105 | starts with the month's name and ends with the meridiem (every word is read back by AbsoluteDateReadsBack) |
| Dates.AbsoluteDateReadsBack | quizzy-quest-backend/utils.js:95-105 | split at spaces, the absolute form is five words: the month's name, the day with a trailing comma, the year, the twelve-hour clock hour and the two minute digits around a colon, and the meridiem; each number reads back as its value |
| Dates.Ago | quizzy-quest-backend/utils.js:82-92 | a relative date ends in " ago" (every word is read back by AgoReadsBack) |
| Dates.AgoReadsBack | quizzy-quest-backend/utils.js:82-92 | split at spaces, a relative date is three words: the count, which reads back as its value, the unit, singular exactly when the count is 1, and "ago" |
| Dates.FormatDate | quizzy-quest-backend/utils.js:61-106 | "now" iff the same minute; minutes ago within the same hour; hours ago within the same day; otherwise the absolute date |
| QuizStore.FreshIds | quizzy-quest-backend/routes/quiz-routes.js:125 | bulk insertion numbers the new rows consecutively from the table's next id |
| QuizStore.JoinIds | quizzy-quest-backend/routes/quiz-routes.js:103 | `questions_id`: the item ids rendered and joined with "|" |
| QuizStore.Insert | quizzy-quest-backend/routes/quiz-routes.js:125 | the old rows are kept and each new item is stored under its new id |
| QuizStore.Added | quizzy-quest-backend/routes/quiz-routes.js:125 | the new rows are exactly the consecutive ids mapped to the items |
| QuizStore.RenderedIdsHaveNoSeparator | quizzy-quest-backend/routes/quiz-routes.js:103 | a rendered id never contains "\|" |
| QuizStore.SplitJoinIds | quizzy-quest-backend/utils.js:615 | `questions_id` splits back into the rendered ids |
| QuizStore.ListedIff | quizzy-quest-backend/utils.js:468-501 | an id's rendering is a piece of `questions_id` iff the id was listed |
| QuizStore.IdsReadBack | quizzy-quest-backend/utils.js:615 | `questions_id` read back through `Number` gives the ids, and an empty list reads back as [0] |
| QuizStore.NumberedIff | quizzy-quest-backend/utils.js:432-462 | a positive id is among the numbers read back iff it was listed |
| QuizStore.RemoveListed | quizzy-quest-backend/utils.js:468-501 | deletion removes exactly the rows listed in `questions_id`, leaving the rest |
| QuizStore.ImagePath | quizzy-quest-backend/routes/quiz-routes.js:87-93 | an upload is stored under the name multer gave it (a date-based ".png" name, a parameter here); otherwise a generated ".png" name |
| QuizStore.MapAnswer | quizzy-quest-backend/utils.js:560-570 | each column decodes into one more entry than it has separators |
| QuizStore.AnswerRowOf | quizzy-quest-backend/routes/quiz-routes.js:263-271 | an answer row: the four lists each joined with "|", under the given id, user, quiz and type |
| QuizStore.Numbers | quizzy-quest-backend/utils.js:564 | the points and remaining times as numbers, in order |
| QuizStore.NumbersReadBack | quizzy-quest-backend/utils.js:564-566 | a non-empty list of integers survives join and split-then-`Number` |
| QuizStore.MapAnswerReadsBackAttempt | quizzy-quest-backend/utils.js:560-570 | a stored answer row reads back as the submitted attempt when every list is non-empty and no text contains "\|" |
| QuizStore.SeparatorInAnswerIsNotPreserved | quizzy-quest-backend/routes/quiz-routes.js:268 | an answer containing "\|" does not read back as submitted |
| QuizStore.AddKeepsConsistent | quizzy-quest-backend/routes/quiz-routes.js:97-106 | inserting the items and a quiz row listing their ids keeps the store consistent |
| QuizStore.RemoveKeepsConsistent | quizzy-quest-backend/routes/quiz-routes.js:426-430 | removing a quiz and its listed rows keeps the store consistent |
| QuizStore.ReplaceKeepsConsistent | quizzy-quest-backend/routes/quiz-routes.js:365-396 | clearing the old rows, inserting the new ones and rewriting the quiz row keeps the store consistent |
| QuizStore.Store.constructor | quizzy-quest-backend/database.js:1-281 | an empty store is consistent |
| QuizStore.Store.AddQuiz | quizzy-quest-backend/routes/quiz-routes.js:80-172 | an unknown type gives 400 ["Invalid quiz type"]; failing validations give exactly the failing messages in order; neither writes anything; on success the items go into the type's table, and one quiz owned by the requester lists their ids joined by "\|" |
| QuizStore.Store.UpdateQuiz | quizzy-quest-backend/routes/quiz-routes.js:306-407 | checks type, validations, existence, ownership in that order, writing nothing on a failure; on success the previous type's listed rows are removed, the new items inserted, and the row rewritten with the same id and owner |
| QuizStore.Store.Create | quizzy-quest-backend/routes/quiz-routes.js:84-106 | the add commit: the items enter the type's table under fresh ids, the quiz row listing them gets the next id, and the store stays consistent |
| QuizStore.Store.Rewrite | quizzy-quest-backend/routes/quiz-routes.js:365-396 | the update commit: the listed rows leave the previous type's table and none of them remains, the new items enter under fresh ids, the row keeps its id and owner, and the store stays consistent |
| QuizStore.Store.DeleteQuiz | quizzy-quest-backend/routes/quiz-routes.js:409-443 | a non-owner gets 400 and nothing changes; the owner's quiz row and listed item rows go; answer rows stay |
| QuizStore.Store.AnswerQuiz | quizzy-quest-backend/routes/quiz-routes.js:233-277 | the creator is refused first, then a user who already answered; otherwise exactly one row is appended for the requester |
| QuizStore.Store.HasAnswered | quizzy-quest-backend/utils.js:658-660 | isQuizAnswered: some answer row pairs the quiz and the user |
| QuizStore.Store.AnswerAnonymously | quizzy-quest-backend/routes/quiz-unauth-routes.js:14-31 | appends exactly one row with user 0 under the next answer id, without any check; the answer id counter advances by one and nothing else changes |
| QuizStore.Store.SummaryOf | quizzy-quest-backend/routes/quiz-routes.js:190-200 | a listing's `items` is the number of "\|"-separated pieces of `questions_id` |
| QuizStore.Store.ListPublicOthers | quizzy-quest-backend/routes/quiz-routes.js:174-205 | exactly the public quizzes of that type not owned by the requester, each flagged answered iff the requester has an answer row |
| QuizStore.Store.ListOwn | quizzy-quest-backend/routes/quiz-routes.js:207-231 | exactly the requester's quizzes of that type |
| QuizStore.Store.ItemCount | quizzy-quest-backend/routes/quiz-routes.js:195 | the count is the number of items, or 1 for a quiz with none |
| QuizStore.Store.GetQuiz | quizzy-quest-backend/utils.js:609-629 | found iff the quiz exists; the questions are exactly its listed rows of its own type's table, rendered |
| QuizStore.Store.ListedRowsAreItems | quizzy-quest-backend/utils.js:615 | a row of the quiz's type's table is read back iff it is one of the quiz's items |
| Access.AnswerAccess | quizzy-quest-backend/routes/access-routes.js:6-45 | allowed iff the quiz exists, the user has no answer row, it is public and not theirs; failures reported in that order |
| Access.AboutAccess | quizzy-quest-backend/routes/access-routes.js:48-71 | allowed iff the quiz exists and the user created it; not-found first |
| Access.UnauthAnswerAccess | quizzy-quest-backend/routes/quiz-unauth-routes.js:34-57 | allowed iff the quiz exists and is public; not-found before private |
| Access.UnauthIgnoresAnswers | quizzy-quest-backend/routes/quiz-unauth-routes.js:37-42 | the anonymous gate depends only on the quizzes, so anonymous answers never close it |
| Access.AnsweredClosesGate | quizzy-quest-backend/routes/access-routes.js:29-31 | a user with an answer row is refused |
| Accounts.UpdateWhereEmail | quizzy-quest-backend/routes/auth-routes.js:109-112 | an update by email edits exactly the rows with that email |
| Accounts.FindByEmailFrom | quizzy-quest-backend/routes/auth-routes.js:20 | found iff a user has that email, and the result is such a user |
| Accounts.UserTable.constructor | quizzy-quest-backend/database.js:1-281 | an empty table is valid |
| Accounts.UserTable.FindByEmail | quizzy-quest-backend/routes/auth-routes.js:20 | found iff a user has that email, and the result is such a user |
| Accounts.UserTable.FindById | quizzy-quest-backend/utils.js:585 | found iff a user has that id, and the result is that user |
| Accounts.UserTable.GetUser | quizzy-quest-backend/utils.js:577-592 | id 0 gives the fixed placeholder without a lookup; otherwise the user's id, name and image, or nothing |
| Accounts.UserTable.LogIn | quizzy-quest-backend/routes/auth-routes.js:17-44 | a token is issued only when the login validation passes, and then the user exists and the password matches; otherwise 400 with the message |
| Accounts.UserTable.SignUp | quizzy-quest-backend/routes/auth-routes.js:46-95 | on a passing validation exactly one user is appended, with the hashed password and a generated image; otherwise 400 and no change |
| Accounts.UserTable.ForgotPassword | quizzy-quest-backend/routes/auth-routes.js:97-121 | an invalid email gives 400 and no change; otherwise the code is written to the users with that email, and the reply is the same whether or not one exists |
| Accounts.UserTable.ResetPassword | quizzy-quest-backend/routes/auth-routes.js:123-155 | as written: a missing user gives 500; validateForgotPassword against the stored code decides, so an empty code resets the password of a user who never requested one; on success the code is reset to "" and the hash replaced; otherwise nothing changes |
| Accounts.UserTable.ResetPasswordIssued | quizzy-quest-backend/routes/auth-routes.js:123-155 | the same route with the corrected check: a user with no pending code always gets 400 "Invalid Code" and nothing changes |
| Accounts.UserTable.Redeem | quizzy-quest-backend/routes/auth-routes.js:140-147 | a successful reset gives every row with that email the new hash and an empty code, keeping the table invariant |
| Accounts.UserTable.ChangePassword | quizzy-quest-backend/routes/user-routes.js:57-82 | the caller's hash is replaced only when the password validation passes; otherwise 400 and no change |
| Accounts.UserTable.ChangeName | quizzy-quest-backend/routes/user-routes.js:84-100 | only the caller's name changes, only on a valid name, and the new name is echoed |
| Accounts.UserTable.ChangeRole | quizzy-quest-backend/routes/user-routes.js:102-118 | only the caller's role changes, only when it is 5-50 characters |
| Accounts.UserTable.ChangeImage | quizzy-quest-backend/routes/user-routes.js:35-55 | without a file, 400 "Invalid image" and no change; otherwise the caller's image path is set |
| AnswerSession.Begin | quizzy-quest/src/pages/AnswerQuiz.js:64-66 | an item starts unanswered, with answer "", 0 points and 0 seconds spent |
| AnswerSession.Choose | quizzy-quest/src/pages/AnswerQuiz.js:183-195 | an answered item is left as it is; otherwise the choice is recorded, and points are the item's iff the choice is its answer |
| AnswerSession.Type | quizzy-quest/src/pages/AnswerQuiz.js:208-219 | typing changes only the answer of an unanswered item |
| AnswerSession.Submit | quizzy-quest/src/pages/AnswerQuiz.js:220-232 | submitting scores the item iff the answers agree ignoring case |
| AnswerSession.Tick | quizzy-quest/src/pages/AnswerQuiz.js:152-170 | a second is counted while time remains; once it is out the item is closed with no answer and no points |
| AnswerSession.TotalBounded | quizzy-quest/src/pages/AnswerQuiz.js:116 | the total lies between 0 and the maximum, and reaches the maximum only when every item scored |
| AnswerSession.TotalIsSumOfSentPoints | quizzy-quest/src/pages/AnswerQuiz.js:106-116 | the total shown is the sum of the `points` list sent to the server |
| AnswerSession.Submission | quizzy-quest/src/pages/AnswerQuiz.js:104-111 | four lists as long as the quiz; each remaining time is the timer minus the time spent, within 0..timer |
| AnswerSession.Session.constructor | quizzy-quest/src/pages/AnswerQuiz.js:64-66 | every served item starts fresh, on the intro, at item 0 |
| AnswerSession.Session.StartAnswering | quizzy-quest/src/pages/AnswerQuiz.js:278 | leaves the intro; the items, the position, the toast, the sent and shown totals, the button and the storage stay |
| AnswerSession.Session.Select | quizzy-quest/src/pages/AnswerQuiz.js:183-195 | only the current item changes, by `Choose`; the toast, the sent and shown totals, the button and the storage stay |
| AnswerSession.Session.TypeAnswer | quizzy-quest/src/pages/AnswerQuiz.js:208-219 | only the current item changes, by `Type`; the toast, the sent and shown totals, the button and the storage stay |
| AnswerSession.Session.SubmitTyped | quizzy-quest/src/pages/AnswerQuiz.js:220-232 | only the current item changes, by `Submit`; the toast, the sent and shown totals, the button and the storage stay |
| AnswerSession.Session.TickSecond | quizzy-quest/src/pages/AnswerQuiz.js:152-170 | on the intro nothing changes; otherwise only the current item ticks; the toast, the sent and shown totals, the button and the storage stay |
| AnswerSession.Session.Previous | quizzy-quest/src/pages/AnswerQuiz.js:298-302 | moves back one item unless at the first, and nothing else changes |
| AnswerSession.Session.Next | quizzy-quest/src/pages/AnswerQuiz.js:309-313 | moves forward one item unless at the last, and nothing else changes |
| AnswerSession.Session.ShouldAutoFinish | quizzy-quest/src/pages/AnswerQuiz.js:145-150 | the effect finishes by itself exactly when the list is non-empty and every item is answered |
| AnswerSession.Session.BeginFinish | quizzy-quest/src/pages/AnswerQuiz.js:90-111 | an anonymous user whose storage lists the quiz is refused with a toast; otherwise the submission is sent with the button disabled, and the total of the sent points is remembered; a refusal keeps the remembered total; the items and the shown total stay |
| AnswerSession.Session.Receive | quizzy-quest/src/pages/AnswerQuiz.js:113-138 | a 2xx reply completes with the total of the submission that was sent, whatever was answered meanwhile, and, if anonymous, stores the quiz id; a 4xx shows the message and a 5xx the error; the remembered total and the items never change here |
| AnswerSession.TrueOrFalseScoresIffMatches | quizzy-quest/src/pages/AnswerQuiz.js:244-257 | a TF pick scores iff it equals the stored boolean |
| AnswerSession.IdentificationIgnoresCase | quizzy-quest/src/pages/AnswerQuiz.js:227 | an answer equal up to ASCII case scores full points |
| AnswerSession.AnsweredItemsAreFinal | quizzy-quest/src/pages/AnswerQuiz.js:184-194 | once every item is answered, no handler changes any item |
| SpreadsheetImport.ExtensionIsAfterLastDot | quizzy-quest/src/components/ImportSpreadsheetMenu.js:254-256 | the extension is the text after the last dot, or the whole name when there is no dot |
| SpreadsheetImport.Extension | quizzy-quest/src/components/ImportSpreadsheetMenu.js:254-256 | the last piece of the name split at "." |
| SpreadsheetImport.Includes | quizzy-quest/src/components/ImportSpreadsheetMenu.js:256 | `includes` on the list of allowed formats |
| SpreadsheetImport.Accepts | quizzy-quest/src/components/ImportSpreadsheetMenu.js:22-25 | a name is accepted when its extension is one of the seventeen allowed formats |
| SpreadsheetImport.IncludesIsMembership | quizzy-quest/src/components/ImportSpreadsheetMenu.js:256 | `includes` is list membership |
| SpreadsheetImport.DotlessNameIsItsOwnExtension | quizzy-quest/src/components/ImportSpreadsheetMenu.js:254-256 | a name without a dot is its own extension, so a file named "csv" is accepted |
| SpreadsheetImport.ExtensionAfterDot | quizzy-quest/src/components/ImportSpreadsheetMenu.js:22-25 | the extension of "stem.ext" is "ext", and ".xlsx" files are accepted |
| SpreadsheetImport.MapData | quizzy-quest/src/components/ImportSpreadsheetMenu.js:124-129 | MC answers are lower-cased, TF answers upper-cased, timer and points read with `Number`, other text kept |
| SpreadsheetImport.Default | quizzy-quest/src/components/ImportSpreadsheetMenu.js:27-41 | getDefaultValue: "a", "TRUE", 30, 200 and "" for the text fields |
| SpreadsheetImport.Truthy | quizzy-quest/src/components/ImportSpreadsheetMenu.js:51-57 | the truthiness of `Number(...)`: finite and non-zero |
| SpreadsheetImport.CellOk | quizzy-quest/src/components/ImportSpreadsheetMenu.js:43-73 | the column validators: question 15-300, explanation at most 300, choices and typed answers 1-200, none only white space; timer 10-120 and points 50-1000 in steps of 5; an MC letter a-d and a TF truth in any case |
| SpreadsheetImport.Bound | quizzy-quest/src/components/ImportSpreadsheetMenu.js:131-148 | the fields a header row binds, without "none" |
| SpreadsheetImport.CellValue | quizzy-quest/src/components/ImportSpreadsheetMenu.js:134-137 | a valid cell is normalised; an invalid one becomes the field's default |
| SpreadsheetImport.MapRow | quizzy-quest/src/components/ImportSpreadsheetMenu.js:131-148 | a row's keys are exactly the chosen headers, without the "none" column |
| SpreadsheetImport.MapRowReadsColumns | quizzy-quest/src/components/ImportSpreadsheetMenu.js:131-148 | with distinct headers, each chosen field holds its own column's value |
| SpreadsheetImport.MapResult | quizzy-quest/src/components/ImportSpreadsheetMenu.js:131-148 | one item per row, each with exactly the chosen fields |
| SpreadsheetImport.Options | quizzy-quest/src/components/ImportSpreadsheetMenu.js:75-102 | the header options start with "none" |
| SpreadsheetImport.ChoosingOfferedKeepsDistinct | quizzy-quest/src/components/ImportSpreadsheetMenu.js:206-210 | choosing an offered option keeps the headers distinct |
| SpreadsheetImport.Truncate | quizzy-quest/src/components/ImportSpreadsheetMenu.js:109-111 | text of at most 50 characters is kept; longer text is cut to 50 followed by "..." |
| SpreadsheetImport.NonEmptySheetsFilters | quizzy-quest/src/components/ImportSpreadsheetMenu.js:265-275 | exactly the sheets with at least one row are kept |
| SpreadsheetImport.AllNone | quizzy-quest/src/components/ImportSpreadsheetMenu.js:165-170 | a reset header row is "none" in every column |
| SpreadsheetImport.NamesOf | quizzy-quest/src/components/ImportSpreadsheetMenu.js:265-275 | the kept sheets' names, in order |
| SpreadsheetImport.SheetsOf | quizzy-quest/src/components/ImportSpreadsheetMenu.js:265-275 | the kept sheets' rows, in order |
| SpreadsheetImport.FreshHeaders | quizzy-quest/src/components/ImportSpreadsheetMenu.js:265-275 | each kept sheet starts with "none" in every column of its first row |
| SpreadsheetImport.LoadedSheetsOk | quizzy-quest/src/components/ImportSpreadsheetMenu.js:265-275 | a loaded workbook satisfies the dialog's invariant |
| SpreadsheetImport.KeptSheetsOk | quizzy-quest/src/components/ImportSpreadsheetMenu.js:265-275 | so does the non-empty part of any workbook |
| SpreadsheetImport.ResetSheetsOk | quizzy-quest/src/components/ImportSpreadsheetMenu.js:165-170 | resetting every header keeps the invariant under the new type |
| SpreadsheetImport.ChooseSheetsOk | quizzy-quest/src/components/ImportSpreadsheetMenu.js:195-204 | choosing an offered header keeps the invariant |
| SpreadsheetImport.ImportDialog.constructor | quizzy-quest/src/components/ImportSpreadsheetMenu.js:14-20 | the dialog starts closed, empty, for multiple choice |
| SpreadsheetImport.ImportDialog.ChooseFile | quizzy-quest/src/components/ImportSpreadsheetMenu.js:252-280 | a rejected extension only raises "Unallowed file format"; otherwise the non-empty sheets are loaded with fresh headers, the first selected, and the dialog opens, drawable exactly when some sheet was non-empty; the toast stays, and a rejection changes nothing else |
| SpreadsheetImport.ImportDialog.Open | quizzy-quest/src/components/ImportSpreadsheetMenu.js:265-275 | an accepted workbook keeps exactly its non-empty sheets, each column bound to "none", the first sheet selected and the dialog open, and the dialog invariant holds; it can be drawn exactly when some sheet was non-empty, and the toast stays |
| SpreadsheetImport.ImportDialog.ChangeType | quizzy-quest/src/components/ImportSpreadsheetMenu.js:165-170 | the type changes and every header resets to "none"; sheets, names, selection, file name and toast stay |
| SpreadsheetImport.ImportDialog.SelectSheet | quizzy-quest/src/components/ImportSpreadsheetMenu.js:178 | only the selection changes, and the dialog can be drawn |
| SpreadsheetImport.ImportDialog.ChooseHeader | quizzy-quest/src/components/ImportSpreadsheetMenu.js:195-204 | only that column's header of the selected sheet changes; sheets, names, selection, type, file name and toast stay |
| SpreadsheetImport.ImportDialog.Import | quizzy-quest/src/components/ImportSpreadsheetMenu.js:236-243 | returns the mapped rows of the selected sheet and the dialog's type, which stays, and closes the dialog; nothing else changes |
| SpreadsheetImport.QuestionRuleMatchesServer | quizzy-quest/src/components/ImportSpreadsheetMenu.js:43-45 | the import's question rule is the server's |
| SpreadsheetImport.PointsStricterThanServer | quizzy-quest/src/components/ImportSpreadsheetMenu.js:55-57 | imported points lie in 50..1000, and unlike the server the import rejects "51" |
| SpreadsheetImport.ImportedLetterIsServerLetter | quizzy-quest/src/components/ImportSpreadsheetMenu.js:63-65 | an accepted MC answer imports as one of "a" to "d" |
| SpreadsheetImport.ImportedTruthIsUpperCase | quizzy-quest/src/components/ImportSpreadsheetMenu.js:71-73 | an accepted TF answer imports as "TRUE" or "FALSE" |
| QuizForm.CreateItemMatchesImportDefaults | quizzy-quest/src/pages/AddQuiz.js:21-35 | a new form item holds every field, with the import dialog's default |
| QuizForm.CreateItem | quizzy-quest/src/pages/AddQuiz.js:21-35 | createItem: every field at its default |
| QuizForm.AnswerField | quizzy-quest/src/components/GetQuizInput.js:42-72 | each type edits its own answer field |
| QuizForm.OtherAnswerFieldsIgnored | quizzy-quest/src/pages/AddQuiz.js:64-96 | the other types' answer fields do not reach the wire |
| QuizForm.TrueOrFalseSentAsBoolean | quizzy-quest/src/pages/AddQuiz.js:87-94 | a TF answer is sent as the boolean `answer == "TRUE"` |
| QuizForm.ToWire | quizzy-quest/src/pages/AddQuiz.js:64-96 | the per-type wire shape of one item: choices only for multiple choice, the TF answer as a boolean, otherwise the type's answer field |
| QuizForm.Load | quizzy-quest/src/pages/EditQuiz.js:101-110 | a loaded item holds the served fields; the served answer goes in the type's answer field, and the other answer fields hold their defaults |
| QuizForm.EditRoundTrip | quizzy-quest/src/pages/EditQuiz.js:48-79 | an item served, loaded into the edit form and sent back arrives as it was stored |
| QuizForm.VisibilityRoundTrip | quizzy-quest/src/pages/EditQuiz.js:96 | "public"/"private" round-trips the visibility flag |
| QuizForm.Without | quizzy-quest/src/components/GetQuizInput.js:16-21 | removing an item drops exactly that index, keeping the others in order |
| QuizForm.Capped | quizzy-quest/src/pages/AddQuiz.js:150-157 | a list is cut to its first 50 items |
| QuizForm.Completed | quizzy-quest/src/pages/AddQuiz.js:150-157 | imported items are laid over a new form item |
| QuizForm.ImportedItemFields | quizzy-quest/src/pages/AddQuiz.js:150-157 | an imported item holds the imported value in each chosen field and the default elsewhere |
| QuizForm.AppendKeepsExisting | quizzy-quest/src/pages/AddQuiz.js:155-157 | appending keeps the existing items in front |
| QuizForm.Editor.constructor | quizzy-quest/src/pages/AddQuiz.js:37-49 | the create page starts with 5 new items, multiple choice, public |
| QuizForm.Editor.Loaded | quizzy-quest/src/pages/EditQuiz.js:90-110 | the edit page holds the quiz's fields and each served item loaded |
| QuizForm.Editor.AddItem | quizzy-quest/src/pages/AddQuiz.js:187-192 | adds a new item only below 50 items; the quiz info, errors, button and click-time snapshot stay |
| QuizForm.Editor.RemoveItem | quizzy-quest/src/components/GetQuizInput.js:16-21 | removes the item only above 5 items; the quiz info, errors, button and click-time snapshot stay |
| QuizForm.Editor.ChangeQuestion | quizzy-quest/src/pages/AddQuiz.js:134-138 | changes one field of one item; the quiz info, errors, button and click-time snapshot stay |
| QuizForm.Editor.ChangeVisibility | quizzy-quest/src/pages/AddQuiz.js:119-131 | sets the visibility text; every other field stays |
| QuizForm.Editor.ChangeInfo | quizzy-quest/src/pages/AddQuiz.js:124-131 | the title, description or topic input sets that one field; the type, visibility, items and the rest stay |
| QuizForm.Editor.ChangeType | quizzy-quest/src/components/EditQuizMenu.js:49-56 | the type select sets the type only; every item keeps all its answer fields |
| QuizForm.Editor.ReplaceFields | quizzy-quest/src/pages/AddQuiz.js:150-153 | the items become the imported ones, capped at 50, and the type the imported type; title, description, topic, visibility, errors, button and snapshot stay |
| QuizForm.Editor.AppendFields | quizzy-quest/src/pages/AddQuiz.js:154-157 | the imported items follow the existing ones, capped at 50, keeping the existing items; the type becomes the imported type and the other info, errors, button and snapshot stay |
| QuizForm.Editor.Wire | quizzy-quest/src/pages/AddQuiz.js:64-96 | every item is sent in the wire format of the quiz's type |
| QuizForm.Editor.BeginSubmit | quizzy-quest/src/pages/AddQuiz.js:53-66 | the button is disabled, the quiz info at the click is recorded, and the items go out in the wire format of the current type with the public flag |
| QuizForm.Editor.Receive | quizzy-quest/src/pages/AddQuiz.js:105-112 | a 4xx shows the messages and a 5xx the error, re-enabling the button and putting the quiz info back as it was at the click; the items stay |

## Left out

- Persistence, transactions and rollback are not modelled. Each handler's writes are one assignment made after all its checks.
- Image files are not modelled: `createImage`, `deleteFile`, multer's upload and their failures. The upload is an optional file name, and the generated name is a parameter.
- The clock is a parameter: `createDateForFile` and the "now" of `formatDate`.
- Email is not modelled (`sendEmail`). The random recovery code is a parameter of `ForgotPassword`.
- bcrypt and jwt are opaque functions, and the environment's regular expressions are opaque predicates.
- The `user`, `createdAt` and `updatedAt` fields that listings and `getQuiz` attach are left out: they are database-generated and have no rule.
- The read-only routes `get-created-quiz`, `get-quiz-to-edit`, `get-user-answered-quiz` and `get-user` are not modelled separately. They return `getQuiz`, `getUser` and `mapAnswer`, which are modelled.
- Item fields are modelled with one type each, not with their JavaScript types. The timer and points are the integer that `Number` reads from them, and 0 stands for both 0 and NaN, which `!Number(...)` rejects alike. The client's sliders send both as strings, and the source compares them after the same coercion. A fractional timer or points value cannot be represented.
- QuizStore.Store.AddQuiz, QuizStore.Store.UpdateQuiz: an item whose answer does not have the declared type's shape takes the 500 path with no writes. In the source such an item can pass validation and be stored with a 201. One case is a true-or-false item with a non-boolean answer, because validateTrueOrFalse never reads the answer. Another is an identification item with a boolean answer, whose undefined `.length` passes both bounds.
- QuizStore.Store.AddQuiz: the type name is looked up among the three known names only. The source looks `actions[data.type]` up on an object literal, so the names of Object.prototype members resolve too. "toString" and "constructor" are called without throwing and no reply is sent. "__proto__", "valueOf", "hasOwnProperty" and similar end in 500. The model answers 400 ["Invalid quiz type"] for all of them.
- Text.NumberOf reads the empty string as 0 and an optional "-" followed by decimal digits as an integer; every other string is NaN. JavaScript's `Number` also reads a leading "+", decimals, exponents, hexadecimal, binary and octal prefixes ("0x10"), "Infinity" and surrounding white space, so a value such as "+45" is NaN here and 45 in the source.
- String lengths count Unicode scalar values (Dafny's `char`). JavaScript's `.length` and `substr` count UTF-16 code units, which differ for characters outside the Basic Multilingual Plane. A title of 30 emoji passes the 5-50 bound here, while the source counts 60 units and refuses it. This affects every length bound (the quiz, item and account checks, and the import's question 15-300, explanation 300 and choice and answer 1-200 bounds) and the import's 50-unit truncation of a cell preview.
- Text.Lower: the name stands for `toLowerCase`, but the contract covers ASCII letters only.
- Text.Upper: the name stands for `toUpperCase`, but the contract covers ASCII letters only.
- Network failures on the client (the `catch` branches), toast timeouts, modals and navigation are left out.
- The race between two submissions of the same quiz is left out. Each handler runs atomically here.
- The percentage shown after an answered quiz is left out, as it is display only.
- The extra `answer` and `question_id` keys that form items carry are left out. No rule reads them.
- SpreadsheetImport.ImportDialog.ChooseFile, SpreadsheetImport.ImportDialog.Open: a workbook whose sheets are all empty opens a dialog that cannot be drawn (`Renders()` is false), where the source's render throws on `headers[workSheet.selected]`. What the page shows after that exception is not modelled.
- QuizForm.Editor.Receive: the `catch` branch and the navigation after a 2xx are not modelled; a 2xx leaves the editor as it was.
- QuizForm.Editor.RemoveItem requires an index inside the list. The page only offers existing items.

## Findings

| source | as written | input that shows it | evidently intended | confidence | as-written member | corrected member |
|---|---|---|---|---|---|---|
| quizzy-quest-backend/utils.js:401-413 | the reset code is checked only by equality with the stored code, which is "" until a code is requested | a user who never asked for a code submits code "" with a valid new password | a reset needs a code that was actually issued | not executed | Validation.EmptyCodeAlwaysMatches, Accounts.UserTable.ResetPassword | Validation.ValidateIssuedCode, Accounts.UserTable.ResetPasswordIssued |
