/** The timed multiple-choice session of `EnhancedTestComponent.js`: an answer buffer keyed by
    question id, a countdown that auto-submits at zero once the test is loaded, a bounded
    question cursor and the submission payload. */
module TestSession {
  import opened Common
  import opened Text

  datatype Question = Question(id: string, options: seq<string>)

  /** A fetched test; `timeLimit` is in minutes. */
  datatype Test = Test(questions: seq<Question>, timeLimit: int)

  /** One element of the submitted `answers` array. */
  datatype AnswerEntry = AnswerEntry(questionId: string, selectedAnswer: string)

  datatype Payload = Payload(answers: seq<AnswerEntry>, timeSpent: int)

  /** What the timer effect does after `timeLeft` or `test` changed. */
  datatype TimerStep = Schedule | AutoSubmit | Idle

  datatype SubmitOutcome = Cancelled | Sent(payload: Payload)

  predicate IsQuestionId(qs: seq<Question>, k: string)
  {
    exists i :: 0 <= i < |qs| && qs[i].id == k
  }

  predicate DistinctIds(qs: seq<Question>)
  {
    forall i, j :: 0 <= i < j < |qs| ==> qs[i].id != qs[j].id
  }

  /** The ids of the test's questions. */
  function IdSet(qs: seq<Question>): (r: set<string>)
    ensures forall i :: 0 <= i < |qs| ==> qs[i].id in r
    ensures forall k :: k in r ==> IsQuestionId(qs, k)
  {
    if qs == [] then {}
    else
      var rest := IdSet(qs[1..]);
      assert forall i :: 1 <= i < |qs| ==> qs[i] == qs[1..][i - 1];
      forall k | k in rest
        ensures IsQuestionId(qs, k)
      {
        var i :| 0 <= i < |qs| - 1 && qs[1..][i].id == k;
        assert qs[i + 1].id == k;
      }
      {qs[0].id} + rest
  }

  /** `timeLimit * 60 || 3600`: the limit in seconds, one hour when that product is 0. */
  function InitialTime(timeLimit: int): (r: int)
    ensures r != 0
    ensures r > 0 <==> timeLimit >= 0
    ensures timeLimit != 0 ==> r == timeLimit * 60
  {
    if timeLimit * 60 != 0 then timeLimit * 60 else 3600
  }

  /** The timer effect: a running countdown schedules the next tick, a countdown at zero
      auto-submits a loaded test, and nothing happens otherwise. */
  function TimerEffect(timeLeft: int, loaded: bool): (r: TimerStep)
    ensures r == Schedule <==> timeLeft > 0
    ensures r == AutoSubmit <==> timeLeft == 0 && loaded
  {
    if timeLeft > 0 then Schedule
    else if timeLeft == 0 && loaded then AutoSubmit
    else Idle
  }

  /** Confirmation is asked on a manual submit with fewer answers than questions. */
  function NeedsConfirmation(autoSubmit: bool, answered: nat, total: nat): (r: bool)
    ensures r ==> !autoSubmit
    ensures !autoSubmit ==> (r <==> answered < total)
  {
    !autoSubmit && answered < total
  }

  /** The `answers` array: one entry per question in question order, carrying the buffered
      option or `''`. */
  function PayloadAnswers(qs: seq<Question>, answers: map<string, string>): (r: seq<AnswerEntry>)
    ensures |r| == |qs|
    ensures forall i :: 0 <= i < |qs| ==> r[i].questionId == qs[i].id
    ensures forall i :: 0 <= i < |qs| && qs[i].id in answers ==> r[i].selectedAnswer == answers[qs[i].id]
    ensures forall i :: 0 <= i < |qs| && qs[i].id !in answers ==> r[i].selectedAnswer == ""
  {
    seq(|qs|, i requires 0 <= i < |qs| =>
      AnswerEntry(qs[i].id, if qs[i].id in answers then answers[qs[i].id] else ""))
  }

  /** Every buffered answer appears in the payload under its question id. */
  lemma PayloadCarriesEveryAnswer(qs: seq<Question>, answers: map<string, string>, k: string)
    requires answers.Keys <= IdSet(qs) && k in answers
    ensures exists i :: 0 <= i < |qs| && PayloadAnswers(qs, answers)[i] == AnswerEntry(k, answers[k])
  {
    var i :| 0 <= i < |qs| && qs[i].id == k;
    assert PayloadAnswers(qs, answers)[i] == AnswerEntry(k, answers[k]);
  }

  /** The number of questions of `qs` that have a buffered answer. */
  function CountAnswered(qs: seq<Question>, answers: map<string, string>): (r: nat)
    ensures r <= |qs|
  {
    if qs == [] then 0 else (if qs[0].id in answers then 1 else 0) + CountAnswered(qs[1..], answers)
  }

  /** Distinct ids: the first id is not among the others, which stay distinct. */
  lemma DistinctIdsCons(qs: seq<Question>)
    requires DistinctIds(qs) && qs != []
    ensures DistinctIds(qs[1..])
    ensures IdSet(qs) == {qs[0].id} + IdSet(qs[1..])
    ensures qs[0].id !in IdSet(qs[1..])
  {
    var rest := qs[1..];
    forall i, j | 0 <= i < j < |rest| ensures rest[i].id != rest[j].id {
      assert rest[i] == qs[i + 1] && rest[j] == qs[j + 1];
    }
    forall i | 0 <= i < |rest| ensures rest[i].id != qs[0].id {
      assert rest[i] == qs[i + 1];
    }
  }

  /** With distinct ids, the answered questions are exactly the buffer keys that are question ids. */
  lemma {:induction false} CountAnsweredIsCardinality(qs: seq<Question>, answers: map<string, string>)
    requires DistinctIds(qs)
    ensures CountAnswered(qs, answers) == |answers.Keys * IdSet(qs)|
  {
    if qs != [] {
      var x, rest := qs[0].id, qs[1..];
      DistinctIdsCons(qs);
      CountAnsweredIsCardinality(rest, answers);
      var S := answers.Keys * IdSet(rest);
      if x in answers {
        assert answers.Keys * IdSet(qs) == {x} + S;
        assert |{x} + S| == |S| + 1 by { assert x !in S; }
      } else {
        assert answers.Keys * IdSet(qs) == S;
      }
    }
  }

  /** `Object.keys(answers).length` counts exactly the answered questions, so a manual submit asks
      for confirmation exactly when some question has no buffered answer. */
  lemma ConfirmationIffUnanswered(qs: seq<Question>, answers: map<string, string>)
    requires DistinctIds(qs) && answers.Keys <= IdSet(qs)
    ensures |answers| == CountAnswered(qs, answers)
    ensures NeedsConfirmation(false, |answers|, |qs|) <==> exists i :: 0 <= i < |qs| && qs[i].id !in answers
  {
    CountAnsweredIsCardinality(qs, answers);
    assert answers.Keys * IdSet(qs) == answers.Keys;
    AllAnsweredIffFull(qs, answers);
  }

  lemma {:induction false} AllAnsweredIffFull(qs: seq<Question>, answers: map<string, string>)
    ensures CountAnswered(qs, answers) == |qs| <==> forall i :: 0 <= i < |qs| ==> qs[i].id in answers
  {
    if qs != [] {
      AllAnsweredIffFull(qs[1..], answers);
      assert forall i :: 1 <= i < |qs| ==> qs[i] == qs[1..][i - 1];
    }
  }

  /** `(test.timeLimit * 60) - timeLeft`, as submitted. */
  function TimeSpentAsWritten(timeLimit: int, timeLeft: int): int
  {
    timeLimit * 60 - timeLeft
  }

  /** With no time limit the countdown starts at an hour, yet the submitted time is measured
      from zero: submitting at once reports minus one hour. */
  lemma TimeSpentAsWrittenNegative()
    ensures InitialTime(0) == 3600
    ensures TimeSpentAsWritten(0, InitialTime(0)) == -3600
  {
  }

  /** The time spent measured from the countdown's actual start. */
  function TimeSpent(timeLimit: int, timeLeft: int): (r: int)
    ensures 0 <= timeLeft <= InitialTime(timeLimit) ==> 0 <= r <= InitialTime(timeLimit)
    ensures timeLimit != 0 ==> r == TimeSpentAsWritten(timeLimit, timeLeft)
  {
    InitialTime(timeLimit) - timeLeft
  }

  /** `HH:MM:SS`, each field padded to two digits. */
  function FormatClock(seconds: nat): (r: string)
  {
    var f := HoursMinutesSeconds(seconds);
    Join([Pad2(f.0), Pad2(f.1), Pad2(f.2)], ':')
  }

  /** Splitting the clock at its colons gives three digit fields: minutes and seconds have two
      digits and are below 60, hours have two digits below 100 hours, and the fields recompose
      to the count. */
  lemma ClockRoundTrip(seconds: nat)
    ensures var parts := Split(FormatClock(seconds), ':');
      && |parts| == 3
      && IsDigits(parts[0]) && IsDigits(parts[1]) && IsDigits(parts[2])
      && |parts[1]| == 2 && |parts[2]| == 2
      && (seconds < 360000 ==> |parts[0]| == 2)
      && ParseNat(parts[1]) < 60 && ParseNat(parts[2]) < 60
      && ParseNat(parts[0]) * 3600 + ParseNat(parts[1]) * 60 + ParseNat(parts[2]) == seconds
  {
    var f := HoursMinutesSeconds(seconds);
    var fields := [Pad2(f.0), Pad2(f.1), Pad2(f.2)];
    forall i | 0 <= i < 3 ensures ':' !in fields[i] {
      if ':' in fields[i] {
        var j :| 0 <= j < |fields[i]| && fields[i][j] == ':';
      }
    }
    SplitJoin(fields, ':');
  }

  /** The session state of one test attempt. */
  class Session {
    var test: Option<Test>
    var answers: map<string, string>
    var currentQuestion: int
    var timeLeft: int
    var isSubmitting: bool

    function Questions(): seq<Question>
      reads this
    {
      if test.Some? then test.value.questions else []
    }

    ghost predicate Valid()
      reads this
    {
      && 0 <= currentQuestion
      && (currentQuestion < |Questions()| || currentQuestion == 0)
      && (test.None? ==> answers == map[] && timeLeft == 0)
      && (test.Some? ==>
            && DistinctIds(test.value.questions)
            && answers.Keys <= IdSet(test.value.questions)
            && timeLeft <= InitialTime(test.value.timeLimit)
            && (InitialTime(test.value.timeLimit) > 0 ==> timeLeft >= 0))
    }

    constructor ()
      ensures Valid()
      ensures test == None && answers == map[] && currentQuestion == 0
      ensures timeLeft == 0 && !isSubmitting
    {
      test := None;
      answers := map[];
      currentQuestion := 0;
      timeLeft := 0;
      isSubmitting := false;
    }

    /** The fetched test arrives: the countdown starts at `InitialTime`, and the timer effect runs. */
    method Load(t: Test) returns (step: TimerStep)
      requires Valid() && test.None?
      requires DistinctIds(t.questions)
      modifies this
      ensures Valid()
      ensures test == Some(t) && timeLeft == InitialTime(t.timeLimit)
      ensures answers == old(answers) && currentQuestion == old(currentQuestion)
      ensures isSubmitting == old(isSubmitting)
      ensures step == TimerEffect(timeLeft, true)
      ensures step != Idle <==> t.timeLimit >= 0
    {
      test := Some(t);
      timeLeft := InitialTime(t.timeLimit);
      step := TimerEffect(timeLeft, true);
    }

    /** The one-second timeout fires: the countdown drops by one and the effect runs again,
        auto-submitting when it has reached zero. */
    method Tick() returns (step: TimerStep)
      requires Valid() && test.Some? && timeLeft > 0
      modifies this
      ensures Valid()
      ensures timeLeft == old(timeLeft) - 1 && timeLeft >= 0
      ensures test == old(test) && answers == old(answers)
      ensures currentQuestion == old(currentQuestion) && isSubmitting == old(isSubmitting)
      ensures step == AutoSubmit <==> timeLeft == 0
      ensures step == Schedule <==> timeLeft > 0
    {
      timeLeft := timeLeft - 1;
      step := TimerEffect(timeLeft, true);
    }

    /** `handleAnswerChange`: the option overwrites whatever was buffered for that question. */
    method SelectAnswer(questionId: string, option: string)
      requires Valid() && test.Some? && questionId in IdSet(test.value.questions)
      modifies this
      ensures Valid()
      ensures answers == old(answers)[questionId := option]
      ensures test == old(test) && timeLeft == old(timeLeft)
      ensures currentQuestion == old(currentQuestion) && isSubmitting == old(isSubmitting)
    {
      answers := answers[questionId := option];
    }

    /** `getAnsweredCount`. */
    function AnsweredCount(): (r: nat)
      requires Valid() && test.Some?
      reads this
      ensures r == CountAnswered(test.value.questions, answers)
      ensures r <= |test.value.questions|
    {
      ConfirmationIffUnanswered(test.value.questions, answers);
      |answers|
    }

    /** `nextQuestion`: moves forward unless on the last question. */
    method Next()
      requires Valid() && test.Some?
      modifies this
      ensures Valid()
      ensures old(currentQuestion) < |Questions()| - 1 ==> currentQuestion == old(currentQuestion) + 1
      ensures old(currentQuestion) >= |Questions()| - 1 ==> currentQuestion == old(currentQuestion)
      ensures test == old(test) && answers == old(answers)
      ensures timeLeft == old(timeLeft) && isSubmitting == old(isSubmitting)
    {
      if currentQuestion < |test.value.questions| - 1 {
        currentQuestion := currentQuestion + 1;
      }
    }

    /** `prevQuestion`: moves back unless on the first question. */
    method Prev()
      requires Valid() && test.Some?
      modifies this
      ensures Valid()
      ensures old(currentQuestion) > 0 ==> currentQuestion == old(currentQuestion) - 1
      ensures old(currentQuestion) == 0 ==> currentQuestion == 0
      ensures test == old(test) && answers == old(answers)
      ensures timeLeft == old(timeLeft) && isSubmitting == old(isSubmitting)
    {
      if currentQuestion > 0 {
        currentQuestion := currentQuestion - 1;
      }
    }

    /** `goToQuestion`, reached from the navigator that lists one button per question. */
    method GoTo(index: int)
      requires Valid() && test.Some? && 0 <= index < |test.value.questions|
      modifies this
      ensures Valid()
      ensures currentQuestion == index
      ensures test == old(test) && answers == old(answers)
      ensures timeLeft == old(timeLeft) && isSubmitting == old(isSubmitting)
    {
      currentQuestion := index;
    }

    /** `handleSubmit(autoSubmit)`; `confirmed` is the user's answer to the dialog, when one is shown.
        There is no re-entry guard: only the submit button is disabled while `isSubmitting`. */
    method Submit(autoSubmit: bool, confirmed: bool) returns (outcome: SubmitOutcome)
      requires Valid() && test.Some?
      modifies this
      ensures Valid()
      ensures test == old(test) && answers == old(answers)
      ensures currentQuestion == old(currentQuestion) && timeLeft == old(timeLeft)
      ensures outcome == Cancelled <==> NeedsConfirmation(autoSubmit, |answers|, |test.value.questions|) && !confirmed
      ensures outcome == Cancelled ==> isSubmitting == old(isSubmitting)
      ensures outcome.Sent? ==> isSubmitting
      ensures outcome.Sent? ==> (outcome.payload ==
        Payload(PayloadAnswers(test.value.questions, answers), TimeSpentAsWritten(test.value.timeLimit, timeLeft)))
      ensures outcome.Sent? && test.value.timeLimit != 0 ==>
        outcome.payload.timeSpent == TimeSpent(test.value.timeLimit, timeLeft)
    {
      if NeedsConfirmation(autoSubmit, |answers|, |test.value.questions|) && !confirmed {
        return Cancelled;
      }
      isSubmitting := true;
      var t := test.value;
      outcome := Sent(Payload(PayloadAnswers(t.questions, answers), TimeSpentAsWritten(t.timeLimit, timeLeft)));
    }

    /** The request failed: the submit button is enabled again, nothing else changes. */
    method SubmitFailed()
      modifies this
      ensures !isSubmitting
      ensures test == old(test) && answers == old(answers)
      ensures currentQuestion == old(currentQuestion) && timeLeft == old(timeLeft)
    {
      isSubmitting := false;
    }
  }

  /** With a positive limit, the time spent as sent lies within the limit while the countdown runs,
      and agrees with the time measured from the countdown's start. */
  lemma SubmittedTimeInRange(t: Test, timeLeft: int)
    requires t.timeLimit > 0 && 0 <= timeLeft <= InitialTime(t.timeLimit)
    ensures 0 <= TimeSpentAsWritten(t.timeLimit, timeLeft) <= t.timeLimit * 60
    ensures TimeSpentAsWritten(t.timeLimit, timeLeft) == TimeSpent(t.timeLimit, timeLeft)
  {
  }
}
