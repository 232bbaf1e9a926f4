/** The answer page of the client: the per-item progress, the grading of a
    choice or a typed answer, the one-second countdown, navigation between
    items, and the finish step that builds the submission. Each handler is a
    method on the page state; the second timer and the network are driven
    from outside through Tick and Receive. */
module AnswerSession {
  import opened Text
  import opened Records

  /** One served item and what the user has done with it. */
  datatype Progress = Progress(served: ServedItem, userAnswer: string, pointsGot: int, timeSpent: int, isAnswered: bool)

  /** The state each served item starts in. */
  function Begin(s: ServedItem): (p: Progress)
    ensures p.served == s && !p.isAnswered && p.userAnswer == "" && p.pointsGot == 0 && p.timeSpent == 0
    ensures Sound(p)
  {
    Progress(s, "", 0, 0, false)
  }

  /** What every item keeps: time spent never passes the timer (unless the
      timer itself is negative and nothing was spent), the points are all or
      nothing, and an unanswered item has scored nothing. */
  predicate Sound(p: Progress) {
    && 0 <= p.timeSpent
    && (p.timeSpent <= p.served.timer || p.timeSpent == 0)
    && (p.pointsGot == 0 || p.pointsGot == p.served.points)
    && (!p.isAnswered ==> p.pointsGot == 0)
  }

  /** Picking a multiple-choice letter or "TRUE"/"FALSE": an unanswered item
      becomes answered with that choice and scores its points exactly when the
      choice equals the served answer; an answered item never changes. */
  function Choose(p: Progress, choice: string): (r: Progress)
    ensures p.isAnswered ==> r == p
    ensures !p.isAnswered ==>
      && r.isAnswered && r.userAnswer == choice
      && r.served == p.served && r.timeSpent == p.timeSpent
      && (choice == p.served.answer ==> r.pointsGot == p.served.points)
      && (choice != p.served.answer ==> r.pointsGot == 0)
    ensures Sound(p) ==> Sound(r)
  {
    if p.isAnswered then p
    else p.(userAnswer := choice, isAnswered := true,
            pointsGot := if choice == p.served.answer then p.served.points else 0)
  }

  /** Typing into an identification item: only the text changes, and only
      while the item is unanswered. */
  function Type(p: Progress, text: string): (r: Progress)
    ensures p.isAnswered ==> r == p
    ensures !p.isAnswered ==> r == p.(userAnswer := text)
    ensures Sound(p) ==> Sound(r)
  {
    if p.isAnswered then p else p.(userAnswer := text)
  }

  /** Submitting an identification item: it becomes answered and scores
      exactly when the typed text equals the served answer ignoring case. */
  function Submit(p: Progress): (r: Progress)
    ensures p.isAnswered ==> r == p
    ensures !p.isAnswered ==>
      && r.isAnswered && r.userAnswer == p.userAnswer
      && r.served == p.served && r.timeSpent == p.timeSpent
      && (Lower(p.userAnswer) == Lower(p.served.answer) ==> r.pointsGot == p.served.points)
      && (Lower(p.userAnswer) != Lower(p.served.answer) ==> r.pointsGot == 0)
    ensures Sound(p) ==> Sound(r)
  {
    if p.isAnswered then p
    else p.(isAnswered := true,
            pointsGot := if Lower(p.userAnswer) == Lower(p.served.answer) then p.served.points else 0)
  }

  /** One second on the current item: one more second spent while time
      remains, otherwise the item is closed with an empty answer and no
      points. An answered item is left alone. */
  function Tick(p: Progress): (r: Progress)
    ensures p.isAnswered ==> r == p
    ensures !p.isAnswered && p.timeSpent < p.served.timer ==> r == p.(timeSpent := p.timeSpent + 1)
    ensures !p.isAnswered && p.timeSpent >= p.served.timer ==>
      r.isAnswered && r.userAnswer == "" && r.timeSpent == p.timeSpent && r.served == p.served
    ensures Sound(p) && !p.isAnswered && p.timeSpent >= p.served.timer ==> r.pointsGot == 0
    ensures Sound(p) ==> Sound(r)
  {
    if p.isAnswered then p
    else if p.timeSpent < p.served.timer then p.(timeSpent := p.timeSpent + 1)
    else p.(isAnswered := true, userAnswer := "")
  }

  /** The auto-finish condition: a non-empty list whose items are all answered. */
  predicate AllAnswered(qs: seq<Progress>) {
    |qs| > 0 && forall i :: 0 <= i < |qs| ==> qs[i].isAnswered
  }

  /** The total shown when the quiz is completed. */
  function Total(qs: seq<Progress>): int {
    if |qs| == 0 then 0 else Total(qs[..|qs| - 1]) + qs[|qs| - 1].pointsGot
  }

  /** The most a list can score. */
  function MaxTotal(qs: seq<Progress>): int {
    if |qs| == 0 then 0 else MaxTotal(qs[..|qs| - 1]) + qs[|qs| - 1].served.points
  }

  /** With non-negative points, the total lies between 0 and the sum of the
      items' points, and reaches that sum only if every item scored. */
  lemma {:induction false} TotalBounded(qs: seq<Progress>)
    requires forall i :: 0 <= i < |qs| ==> Sound(qs[i]) && qs[i].served.points >= 0
    ensures 0 <= Total(qs) <= MaxTotal(qs)
    ensures Total(qs) == MaxTotal(qs) ==> forall i :: 0 <= i < |qs| ==> qs[i].pointsGot == qs[i].served.points
  {
    if |qs| > 0 {
      var init := qs[..|qs| - 1];
      assert forall i :: 0 <= i < |init| ==> init[i] == qs[i];
      TotalBounded(init);
      if Total(qs) == MaxTotal(qs) {
        forall i | 0 <= i < |qs|
          ensures qs[i].pointsGot == qs[i].served.points
        {
          if i < |init| {
            assert init[i] == qs[i];
          }
        }
      }
    }
  }

  /** The body sent by finishQuiz: points, answers, remaining seconds and
      question texts, item by item. */
  function Submission(qs: seq<Progress>): (r: Attempt)
    ensures |r.points| == |r.answers| == |r.remainingTimes| == |r.questions| == |qs|
    ensures forall i :: 0 <= i < |qs| ==>
      && r.points[i] == qs[i].pointsGot && r.answers[i] == qs[i].userAnswer
      && r.questions[i] == qs[i].served.question
      && r.remainingTimes[i] + qs[i].timeSpent == qs[i].served.timer
    ensures (forall i :: 0 <= i < |qs| ==> Sound(qs[i]) && qs[i].served.timer >= 0) ==>
      forall i :: 0 <= i < |qs| ==> 0 <= r.remainingTimes[i] <= qs[i].served.timer
  {
    Attempt(
      seq(|qs|, i requires 0 <= i < |qs| => qs[i].pointsGot),
      seq(|qs|, i requires 0 <= i < |qs| => qs[i].userAnswer),
      seq(|qs|, i requires 0 <= i < |qs| => qs[i].served.timer - qs[i].timeSpent),
      seq(|qs|, i requires 0 <= i < |qs| => qs[i].served.question))
  }

  /** The sum of a list of points, as `reduce((acc, next) => acc + next, 0)`. */
  function Sum(xs: seq<int>): int {
    if |xs| == 0 then 0 else Sum(xs[..|xs| - 1]) + xs[|xs| - 1]
  }

  /** The total the completion dialog shows is the sum of the points the
      submission sent. */
  lemma {:induction false} TotalIsSumOfSentPoints(qs: seq<Progress>)
    ensures Sum(Submission(qs).points) == Total(qs)
  {
    if |qs| > 0 {
      var front := qs[..|qs| - 1];
      TotalIsSumOfSentPoints(front);
      assert Submission(qs).points[..|qs| - 1] == Submission(front).points;
    }
  }

  /** What the finish step does before the request. */
  datatype Finish = Refused(message: string) | Send(attempt: Attempt)

  class Session {
    const quizId: int
    /** Whether the page was opened through the anonymous routes. */
    const anonymous: bool
    /** The items as served; handlers never change them. */
    const served: seq<ServedItem>
    var questions: seq<Progress>
    /** The index of the item on screen. */
    var item: int
    var inIntro: bool
    var buttonEnabled: bool
    /** The last toast message shown. */
    var toast: string
    /** The total shown in the completion dialog, once the server accepted the attempt. */
    var completedWith: int
    /** The total of the questions the last finishQuiz call sent; the
        completion dialog shows this one, not the questions at reply time. */
    var sentTotal: int
    var completed: bool
    /** The quiz ids the browser's storage lists as answered anonymously. */
    var stored: seq<int>

    ghost predicate Valid()
      reads this
    {
      && 0 <= item && (item < |questions| || item == 0)
      && |questions| == |served|
      && forall i :: 0 <= i < |questions| ==> questions[i].served == served[i] && Sound(questions[i])
    }

    /** A successful load: every served item in its starting state, the
        first item selected and the intro shown. */
    constructor (quizId: int, anonymous: bool, served: seq<ServedItem>, stored: seq<int>)
      ensures Valid()
      ensures this.quizId == quizId && this.anonymous == anonymous && this.served == served
      ensures |questions| == |served| && forall i :: 0 <= i < |served| ==> questions[i] == Begin(served[i])
      ensures item == 0 && inIntro && buttonEnabled && !completed && this.stored == stored
    {
      this.quizId := quizId;
      this.anonymous := anonymous;
      this.served := served;
      questions := seq(|served|, i requires 0 <= i < |served| => Begin(served[i]));
      item := 0;
      inIntro := true;
      buttonEnabled := true;
      toast := "";
      completedWith := 0;
      sentTotal := 0;
      completed := false;
      this.stored := stored;
    }

    /** The start button of the intro. */
    method StartAnswering()
      requires Valid()
      modifies this
      ensures Valid() && !inIntro
      ensures questions == old(questions) && item == old(item) && buttonEnabled == old(buttonEnabled)
      ensures stored == old(stored) && completed == old(completed)
      ensures toast == old(toast) && completedWith == old(completedWith) && sentTotal == old(sentTotal)
    {
      inIntro := false;
    }

    /** A multiple-choice letter or a true-or-false choice for the current item. */
    method Select(choice: string)
      requires Valid() && |questions| > 0
      modifies this
      ensures Valid()
      ensures questions == old(questions)[item := Choose(old(questions[item]), choice)]
      ensures item == old(item) && inIntro == old(inIntro) && buttonEnabled == old(buttonEnabled)
      ensures stored == old(stored) && completed == old(completed)
      ensures toast == old(toast) && completedWith == old(completedWith) && sentTotal == old(sentTotal)
    {
      questions := questions[item := Choose(questions[item], choice)];
    }

    /** A keystroke in the identification field of the current item. */
    method TypeAnswer(text: string)
      requires Valid() && |questions| > 0
      modifies this
      ensures Valid()
      ensures questions == old(questions)[item := Type(old(questions[item]), text)]
      ensures item == old(item) && inIntro == old(inIntro) && buttonEnabled == old(buttonEnabled)
      ensures stored == old(stored) && completed == old(completed)
      ensures toast == old(toast) && completedWith == old(completedWith) && sentTotal == old(sentTotal)
    {
      questions := questions[item := Type(questions[item], text)];
    }

    /** The submit button of the identification field. */
    method SubmitTyped()
      requires Valid() && |questions| > 0
      modifies this
      ensures Valid()
      ensures questions == old(questions)[item := Submit(old(questions[item]))]
      ensures item == old(item) && inIntro == old(inIntro) && buttonEnabled == old(buttonEnabled)
      ensures stored == old(stored) && completed == old(completed)
      ensures toast == old(toast) && completedWith == old(completedWith) && sentTotal == old(sentTotal)
    {
      questions := questions[item := Submit(questions[item])];
    }

    /** The interval callback: outside the intro, the current item ticks;
        nothing else changes. */
    method TickSecond()
      requires Valid()
      modifies this
      ensures Valid()
      ensures inIntro || |questions| == 0 ==> questions == old(questions)
      ensures !inIntro && |questions| > 0 ==> questions == old(questions)[item := Tick(old(questions[item]))]
      ensures item == old(item) && inIntro == old(inIntro) && buttonEnabled == old(buttonEnabled)
      ensures stored == old(stored) && completed == old(completed)
      ensures toast == old(toast) && completedWith == old(completedWith) && sentTotal == old(sentTotal)
    {
      if !inIntro && item < |questions| {
        questions := questions[item := Tick(questions[item])];
      }
    }

    /** The previous button: one item back, never below the first. */
    method Previous()
      requires Valid()
      modifies this
      ensures Valid()
      ensures item == if old(item) > 0 then old(item) - 1 else old(item)
      ensures questions == old(questions) && inIntro == old(inIntro) && buttonEnabled == old(buttonEnabled)
      ensures stored == old(stored) && completed == old(completed)
      ensures toast == old(toast) && completedWith == old(completedWith) && sentTotal == old(sentTotal)
    {
      if item > 0 {
        item := item - 1;
      }
    }

    /** The next button: one item on, never past the last. */
    method Next()
      requires Valid()
      modifies this
      ensures Valid()
      ensures item == if old(item) < |questions| - 1 then old(item) + 1 else old(item)
      ensures questions == old(questions) && inIntro == old(inIntro) && buttonEnabled == old(buttonEnabled)
      ensures stored == old(stored) && completed == old(completed)
      ensures toast == old(toast) && completedWith == old(completedWith) && sentTotal == old(sentTotal)
    {
      if item < |questions| - 1 {
        item := item + 1;
      }
    }

    /** The effect watching the answered count: finishing starts by itself
        exactly when every item of a non-empty list is answered. */
    predicate ShouldAutoFinish()
      reads this
    {
      AllAnswered(questions)
    }

    /** finishQuiz up to the request: the button is disabled; an anonymous
        user whose storage already lists this quiz is refused locally with a
        toast (and the button comes back); otherwise the submission is sent. */
    method BeginFinish() returns (f: Finish)
      requires Valid()
      modifies this
      ensures Valid()
      ensures anonymous && quizId in stored ==>
        && f == Refused("Quiz is already answered")
        && toast == "Quiz is already answered" && buttonEnabled && sentTotal == old(sentTotal)
      ensures !(anonymous && quizId in stored) ==>
        f == Send(Submission(questions)) && !buttonEnabled && toast == old(toast)
        && sentTotal == Total(questions) && sentTotal == Sum(f.attempt.points)
      ensures questions == old(questions) && item == old(item) && inIntro == old(inIntro)
      ensures stored == old(stored) && completed == old(completed) && completedWith == old(completedWith)
    {
      buttonEnabled := false;
      if anonymous && quizId in stored {
        toast := "Quiz is already answered";
        buttonEnabled := true;
        return Refused("Quiz is already answered");
      }
      f := Send(Submission(questions));
      sentTotal := Total(questions);
      TotalIsSumOfSentPoints(questions);
    }

    /** finishQuiz after the reply: a success shows the total and, for an
        anonymous user, records the quiz in storage; a 4xx shows the message
        and a 5xx the error, re-enabling the button; any other status leaves
        the page as it was. */
    method Receive(status: int, message: string, error: string)
      requires Valid()
      modifies this
      ensures Valid()
      ensures 200 <= status <= 299 ==>
        && completed && completedWith == old(sentTotal) && buttonEnabled && toast == old(toast)
        && stored == (if anonymous then old(stored) + [quizId] else old(stored))
      ensures 400 <= status <= 499 ==> toast == message && buttonEnabled && stored == old(stored)
      ensures 500 <= status <= 599 ==> toast == error && buttonEnabled && stored == old(stored)
      ensures !(200 <= status <= 299) ==> completed == old(completed) && completedWith == old(completedWith)
      ensures !(200 <= status <= 299 || 400 <= status <= 599) ==>
        toast == old(toast) && buttonEnabled == old(buttonEnabled) && stored == old(stored)
      ensures anonymous && 200 <= status <= 299 ==> quizId in stored
      ensures questions == old(questions) && item == old(item) && inIntro == old(inIntro)
      ensures sentTotal == old(sentTotal)
    {
      if 200 <= status <= 299 {
        completed := true;
        completedWith := sentTotal;
        if anonymous {
          stored := stored + [quizId];
        }
        buttonEnabled := true;
      } else if 400 <= status <= 499 {
        toast := message;
        buttonEnabled := true;
      } else if 500 <= status <= 599 {
        toast := error;
        buttonEnabled := true;
      }
    }
  }

  /** A true-or-false item served from a stored boolean scores exactly when
      the user picks the rendering of that boolean. */
  lemma TrueOrFalseScoresIffMatches(id: int, item: Item, pick: bool)
    requires item.key.Flag? && item.points != 0
    ensures var p := Choose(Begin(Serve(id, item)), if pick then "TRUE" else "FALSE");
      p.pointsGot == item.points <==> pick == item.key.truth
  {
  }

  /** An identification item scores whatever the case of the typed answer. */
  lemma IdentificationIgnoresCase(p: Progress, text: string)
    requires !p.isAnswered && Lower(text) == Lower(p.served.answer)
    ensures Submit(Type(p, text)).pointsGot == p.served.points
  {
  }

  /** Once the auto-finish condition holds, no handler or tick changes any item. */
  lemma AnsweredItemsAreFinal(qs: seq<Progress>, i: int, choice: string)
    requires AllAnswered(qs) && 0 <= i < |qs|
    ensures Choose(qs[i], choice) == qs[i] && Type(qs[i], choice) == qs[i]
    ensures Submit(qs[i]) == qs[i] && Tick(qs[i]) == qs[i]
  {
  }
}
