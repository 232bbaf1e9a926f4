/** The rows of the relational store and the shapes that travel between the
    browser client and the backend. */
module Records {
  import opened Wrappers

  /** The three kinds of quiz; every quiz holds items of exactly one kind. */
  datatype QuizType = MultipleChoice | Identification | TrueOrFalse

  /** The name of a quiz type on the wire and in the `type` column. */
  function ParseType(s: string): (r: Option<QuizType>)
    ensures r.Some? <==> s == "Multiple Choice" || s == "Identification" || s == "True or False"
  {
    if s == "Multiple Choice" then Some(MultipleChoice)
    else if s == "Identification" then Some(Identification)
    else if s == "True or False" then Some(TrueOrFalse)
    else None
  }

  function TypeName(t: QuizType): (s: string)
    ensures ParseType(s) == Some(t)
  {
    match t
    case MultipleChoice => "Multiple Choice"
    case Identification => "Identification"
    case TrueOrFalse => "True or False"
  }

  /** The answer part of an item; its shape depends on the quiz type. */
  datatype Key =
    | Choices(letterA: string, letterB: string, letterC: string, letterD: string, letter: string)
    | Typed(answer: string)
    | Flag(truth: bool)

  /** One question item as submitted and as stored in its type's table. */
  datatype Item = Item(question: string, explanation: string, timer: int, points: int, key: Key)

  /** Whether an item has the answer shape of quiz type `t`. */
  predicate Fits(item: Item, t: QuizType) {
    match t
    case MultipleChoice => item.key.Choices?
    case Identification => item.key.Typed?
    case TrueOrFalse => item.key.Flag?
  }

  predicate AllFit(items: seq<Item>, t: QuizType) {
    forall i :: 0 <= i < |items| ==> Fits(items[i], t)
  }

  /** A row of the quiz table. `questionsId` is the item ids joined with '|'. */
  datatype QuizRecord = QuizRecord(
    userId: int, name: string, description: string, topic: string, kind: QuizType,
    questionsId: string, visibility: bool, imagePath: string)

  /** The quiz fields of an add or update request. */
  datatype QuizMeta = QuizMeta(name: string, description: string, topic: string, visibility: bool)

  /** A finished attempt as the client submits it: four parallel lists. */
  datatype Attempt = Attempt(points: seq<int>, answers: seq<string>, remainingTimes: seq<int>, questions: seq<string>)

  /** A row of the answer table; the four lists are stored joined with '|'. */
  datatype AnswerRow = AnswerRow(
    id: int, userId: int, quizId: int, kind: string,
    points: string, answers: string, remainingTimes: string, questions: string)

  /** A row of the user table. */
  datatype User = User(
    id: int, name: string, email: string, passwordHash: string, role: string,
    imagePath: string, forgotPasswordCode: string)

  /** The password-hashing and token-signing capabilities, left uninterpreted:
      `hash` is bcrypt's hash with the configured salt, `compare(plain, digest)`
      is bcrypt's compare and `sign(userId)` is the signed session token. */
  datatype Crypto = Crypto(hash: string -> string, compare: (string, string) -> bool, sign: int -> string)

  /** Whole-string matches of the configured name, email and password patterns. */
  datatype Patterns = Patterns(name: string -> bool, email: string -> bool, password: string -> bool)

  /** An item as the backend serves it: the row's id and fields, the four
      choices for a multiple-choice item (none otherwise) and the answer as a string. */
  datatype ServedItem = ServedItem(
    questionId: int, question: string, choices: seq<string>, answer: string,
    explanation: string, timer: int, points: int)

  /** mapMultipleChoice, mapIdentification and mapTrueOrFalse: a stored row as
      served to the client, with a true-or-false answer rendered as "TRUE" or "FALSE". */
  function Serve(id: int, item: Item): (r: ServedItem)
    ensures r.questionId == id && r.question == item.question && r.explanation == item.explanation
    ensures r.timer == item.timer && r.points == item.points
    ensures item.key.Flag? ==> (r.answer == "TRUE" || r.answer == "FALSE") && (r.answer == "TRUE" <==> item.key.truth)
    ensures item.key.Choices? ==>
      r.answer == item.key.letter && r.choices == [item.key.letterA, item.key.letterB, item.key.letterC, item.key.letterD]
    ensures item.key.Typed? ==> r.answer == item.key.answer && r.choices == []
  {
    match item.key
    case Choices(a, b, c, d, letter) =>
      ServedItem(id, item.question, [a, b, c, d], letter, item.explanation, item.timer, item.points)
    case Typed(answer) =>
      ServedItem(id, item.question, [], answer, item.explanation, item.timer, item.points)
    case Flag(truth) =>
      ServedItem(id, item.question, [], if truth then "TRUE" else "FALSE", item.explanation, item.timer, item.points)
  }

  /** The JSON body of a reply. */
  datatype Body =
    | Message(text: string)                                             // `{ message }`
    | Messages(texts: seq<string>)                                      // a list of messages
    | ServerError                                                       // `{ error }` after a thrown error
    | Session(token: string, id: int, name: string, imagePath: string)  // a signed-in user
    | NameEcho(message: string, name: string)                           // change-name
    | ImageSaved(message: string, imagePath: string)                    // change-image

  /** An HTTP status and its body. */
  datatype Reply = Reply(status: int, body: Body)
}
