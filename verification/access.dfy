/** The gates the client asks before it opens the answer page or the
    about/edit page of a quiz. Each is a read-only decision over the store that
    reports the first check that fails. */
module Access {
  import opened QuizStore

  /** The reply's status with its `{ is_allowed, message }` body. */
  datatype Decision = Decision(status: int, isAllowed: bool, message: string)

  const Allowed := Decision(200, true, "Route is allowed.")

  /** access-answer-quiz: refused when the quiz does not exist, then when this
      user already answered it, then when it is private, then when this user
      created it. */
  function AnswerAccess(store: Store, quizId: int, userId: int): (r: Decision)
    reads store
    ensures r.isAllowed <==>
      && quizId in store.quizzes && !store.HasAnswered(quizId, userId)
      && store.quizzes[quizId].visibility && store.quizzes[quizId].userId != userId
    ensures r.isAllowed ==> r == Allowed
    ensures quizId !in store.quizzes ==> r == Decision(400, false, "Quiz not found.")
    ensures quizId in store.quizzes && store.HasAnswered(quizId, userId) ==>
      r == Decision(400, false, "Quiz is already answered.")
    ensures (quizId in store.quizzes && !store.HasAnswered(quizId, userId)
             && !store.quizzes[quizId].visibility) ==>
      r == Decision(400, false, "Quiz is private.")
    ensures (quizId in store.quizzes && !store.HasAnswered(quizId, userId)
             && store.quizzes[quizId].visibility && store.quizzes[quizId].userId == userId) ==>
      r == Decision(400, false, "You can not answer a quiz you have created.")
  {
    if quizId !in store.quizzes then Decision(400, false, "Quiz not found.")
    else if store.HasAnswered(quizId, userId) then Decision(400, false, "Quiz is already answered.")
    else if !store.quizzes[quizId].visibility then Decision(400, false, "Quiz is private.")
    else if store.quizzes[quizId].userId == userId then Decision(400, false, "You can not answer a quiz you have created.")
    else Allowed
  }

  /** access-about-quiz: only the creator of an existing quiz is let in. */
  function AboutAccess(store: Store, quizId: int, userId: int): (r: Decision)
    reads store
    ensures r.isAllowed <==> quizId in store.quizzes && store.quizzes[quizId].userId == userId
    ensures r.isAllowed ==> r == Allowed
    ensures quizId !in store.quizzes ==> r == Decision(400, false, "Quiz not found.")
    ensures quizId in store.quizzes && store.quizzes[quizId].userId != userId ==>
      r == Decision(400, false, "You can not view the quiz you did not create.")
  {
    if quizId !in store.quizzes then Decision(400, false, "Quiz not found.")
    else if store.quizzes[quizId].userId != userId then
      Decision(400, false, "You can not view the quiz you did not create.")
    else Allowed
  }

  /** access-unauth-answer-quiz: an existing public quiz is open to anyone. */
  function UnauthAnswerAccess(store: Store, quizId: int): (r: Decision)
    reads store
    ensures r.isAllowed <==> quizId in store.quizzes && store.quizzes[quizId].visibility
    ensures r.isAllowed ==> r == Allowed
    ensures quizId !in store.quizzes ==> r == Decision(400, false, "Quiz not found.")
    ensures quizId in store.quizzes && !store.quizzes[quizId].visibility ==>
      r == Decision(400, false, "Quiz is private.")
  {
    if quizId !in store.quizzes then Decision(400, false, "Quiz not found.")
    else if !store.quizzes[quizId].visibility then Decision(400, false, "Quiz is private.")
    else Allowed
  }

  /** The anonymous gate looks at the quiz table only: two stores with the same
      quizzes decide alike, whatever answers they hold, so answering
      anonymously never closes it. */
  lemma UnauthIgnoresAnswers(before: Store, after: Store, quizId: int)
    requires before.quizzes == after.quizzes
    ensures UnauthAnswerAccess(before, quizId) == UnauthAnswerAccess(after, quizId)
  {
  }

  /** Once a signed-in user has an answer row for a quiz, its answer gate is
      closed to them. */
  lemma AnsweredClosesGate(store: Store, quizId: int, userId: int)
    requires store.HasAnswered(quizId, userId)
    ensures !AnswerAccess(store, quizId, userId).isAllowed
  {
  }
}
