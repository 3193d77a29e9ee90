/**
 * The previous-year-question trainer: a practice mode with a streak counter,
 * a timed exam that ends when its clock reaches zero or on submission, the
 * results and wrong-question list computed at the end, a trainer mode over
 * the wrong questions, and a countdown to a chosen exam date.
 */
module Exam {
  import opened Wrappers
  import opened Collections
  import opened Text
  import opened Numbers

  datatype Difficulty = Easy | Medium | Hard

  datatype Question = Question(
    id: string,
    question: string,
    options: seq<string>,
    correctAnswer: int,
    explanation: string,
    difficulty: Difficulty,
    subject: string,
    topic: string,
    year: int)

  datatype ExamResult = ExamResult(
    questionId: string,
    selectedAnswer: Option<int>,
    isCorrect: bool,
    timeTaken: int)

  datatype Mode = Menu | Practice | ExamMode | Trainer

  datatype Countdown = Countdown(days: int, hours: int, minutes: int, seconds: int)

  /** `selectedAnswers`: the chosen option index per question id. */
  type Answers = map<string, int>

  /** The per-question time every result records. */
  const TimeTakenPerQuestion: int := 30

  const MsPerSecond: int := 1000
  const MsPerMinute: int := 60000
  const MsPerHour: int := 3600000
  const MsPerDay: int := 86400000

  /** The recorded answer exists and is the right option. */
  predicate AnsweredCorrectly(q: Question, answers: Answers) {
    q.id in answers && answers[q.id] == q.correctAnswer
  }

  function ResultFor(q: Question, answers: Answers): ExamResult
  {
    ExamResult(q.id, if q.id in answers then Some(answers[q.id]) else None,
               AnsweredCorrectly(q, answers), TimeTakenPerQuestion)
  }

  /** `calculateResults`'s result list: one result per question, in question order. */
  function CalculateResults(questions: seq<Question>, answers: Answers): (results: seq<ExamResult>)
    ensures |results| == |questions|
    ensures forall i :: 0 <= i < |questions| ==>
      && results[i].questionId == questions[i].id
      && (results[i].isCorrect <==> questions[i].id in answers && answers[questions[i].id] == questions[i].correctAnswer)
      && (results[i].selectedAnswer == None <==> questions[i].id !in answers)
      && (questions[i].id in answers ==> results[i].selectedAnswer == Some(answers[questions[i].id]))
      && results[i].timeTaken == TimeTakenPerQuestion
  {
    Map(questions, (q: Question) => ResultFor(q, answers))
  }

  /** `calculateResults`'s wrong-question list. */
  function WrongQuestions(questions: seq<Question>, answers: Answers): seq<Question>
  {
    Filter(questions, (q: Question) => !AnsweredCorrectly(q, answers))
  }

  /** The wrong questions are exactly those unanswered or answered differently, in question order. */
  lemma WrongQuestionsSpec(questions: seq<Question>, answers: Answers)
    ensures forall q | q in WrongQuestions(questions, answers) ::
      q in questions && (q.id !in answers || answers[q.id] != q.correctAnswer)
    ensures forall q | q in questions && (q.id !in answers || answers[q.id] != q.correctAnswer) ::
      q in WrongQuestions(questions, answers)
    ensures IsSubsequence(WrongQuestions(questions, answers), questions)
  {
    FilterIsSubsequence(questions, (q: Question) => !AnsweredCorrectly(q, answers));
  }

  /** `results.filter(r => r.isCorrect).length`. */
  function CorrectCount(results: seq<ExamResult>): nat
  {
    |Filter(results, (r: ExamResult) => r.isCorrect)|
  }

  /** The correct results and the wrong questions split the question list between them. */
  lemma {:induction false} CorrectAndWrongPartition(questions: seq<Question>, answers: Answers)
    ensures CorrectCount(CalculateResults(questions, answers)) + |WrongQuestions(questions, answers)| == |questions|
  {
    if questions != [] {
      CorrectAndWrongPartition(questions[1..], answers);
      var results := CalculateResults(questions, answers);
      assert results[1..] == CalculateResults(questions[1..], answers);
      assert results[0].isCorrect == AnsweredCorrectly(questions[0], answers);
    }
  }

  /** `questions.find(q => q.id === id)`. */
  function QuestionById(questions: seq<Question>, id: string): (r: Option<Question>)
    ensures r == None <==> forall i :: 0 <= i < |questions| ==> questions[i].id != id
    ensures r.Some? ==> r.value.id == id
    ensures r.Some? ==> exists i :: (0 <= i < |questions| && questions[i] == r.value &&
      forall j :: 0 <= j < i ==> questions[j].id != id)
  {
    var k := FindIndex(questions, (q: Question) => q.id == id);
    if k < 0 then None else Some(questions[k])
  }

  /** `nextQuestion`'s index: one more, unless already on the last question. */
  function NextQuestionIndex(i: int, count: nat): (r: int)
    ensures 0 <= i < count ==> 0 <= r < count
    ensures r == i || r == i + 1
    ensures r == i + 1 <==> i < count - 1
  {
    if i < count - 1 then i + 1 else i
  }

  /** `previousQuestion`'s index: one less, unless already on the first question. */
  function PrevQuestionIndex(i: int, count: nat): (r: int)
    ensures 0 <= i < count ==> 0 <= r < count
    ensures r == i || r == i - 1
    ensures r == i - 1 <==> i > 0
  {
    if i > 0 then i - 1 else i
  }

  /**
   * The practice-mode streak after an answer: a right answer extends the
   * streak and raises the best to at least the new streak, a wrong one resets
   * the streak and leaves the best.
   */
  function StreakAfter(streak: nat, best: nat, correct: bool): (r: (nat, nat))
    ensures correct ==> r.0 == streak + 1 && r.1 >= best && r.1 >= streak + 1 && (r.1 == best || r.1 == streak + 1)
    ensures !correct ==> r.0 == 0 && r.1 == best
    ensures streak <= best ==> r.0 <= r.1
  {
    if correct then (streak + 1, if best >= streak + 1 then best else streak + 1) else (0, best)
  }

  /** `formatTime(seconds)`: floored minutes and JavaScript's remainder, each padded to two characters. */
  function FormatTime(seconds: int): string
  {
    PadTwo(IntToString(seconds / 60)) + ":" + PadTwo(IntToString(JsRem(seconds, 60)))
  }

  /**
   * For a non-negative time the display reads back: two digit groups of at
   * least two characters around one colon, the second below 60, and
   * minutes times 60 plus seconds is the input.
   */
  lemma FormatTimeRoundTrip(seconds: nat)
    ensures var parts := Split(FormatTime(seconds), ':');
      && |parts| == 2 && IsDigits(parts[0]) && IsDigits(parts[1])
      && |parts[0]| >= 2 && |parts[1]| >= 2
      && ParseDigits(parts[1]) < 60
      && ParseDigits(parts[0]) * 60 + ParseDigits(parts[1]) == seconds
  {
    var m, s := seconds / 60, seconds % 60;
    JsRemNonNegative(seconds, 60);
    var a, b := PadTwo(NatToString(m)), PadTwo(NatToString(s));
    ParsePadTwo(m);
    ParsePadTwo(s);
    DigitsExclude(a, ':');
    DigitsExclude(b, ':');
    assert FormatTime(seconds) == a + [':'] + b;
    SplitAround(a, b, ':');
  }

  /** The countdown for `distance` milliseconds left; all zero once the date has passed. */
  function CountdownFor(distance: int): (c: Countdown)
    ensures distance <= 0 ==> c == Countdown(0, 0, 0, 0)
    ensures distance > 0 ==> c.days >= 0 && 0 <= c.hours < 24 && 0 <= c.minutes < 60 && 0 <= c.seconds < 60
  {
    if distance > 0 then
      Countdown(distance / MsPerDay, (distance % MsPerDay) / MsPerHour,
                (distance % MsPerHour) / MsPerMinute, (distance % MsPerMinute) / MsPerSecond)
    else Countdown(0, 0, 0, 0)
  }

  /** The countdown fields add back up to the distance, less its sub-second part. */
  lemma CountdownDecomposition(distance: int)
    requires distance > 0
    ensures var c := CountdownFor(distance);
      c.days * MsPerDay + c.hours * MsPerHour + c.minutes * MsPerMinute + c.seconds * MsPerSecond
        == distance - distance % MsPerSecond
  {
    var d := distance;
    var days, r1 := d / MsPerDay, d % MsPerDay;
    var hours, r2 := r1 / MsPerHour, r1 % MsPerHour;
    var minutes, r3 := r2 / MsPerMinute, r2 % MsPerMinute;
    var seconds, r4 := r3 / MsPerSecond, r3 % MsPerSecond;
    assert d % MsPerHour == r2;
    assert d % MsPerMinute == r3;
    assert d % MsPerSecond == r4;
  }

  /** The exam page's state. */
  class ExamSession {
    const questions: seq<Question>
    var mode: Mode
    var currentQuestionIndex: int
    var selectedAnswers: Answers
    var examResults: seq<ExamResult>
    var isExamMode: bool
    /** Minutes, as typed into the number field. */
    var examTimeLimit: int
    var timeRemaining: int
    var isTimerRunning: bool
    var showResults: bool
    var wrongQuestions: seq<Question>
    var countdown: Countdown
    /** The chosen exam date, in milliseconds. */
    var examDeadline: Option<int>
    var streak: nat
    var bestStreak: nat

    /**
     * The streak never passes the best streak, the wrong questions come from
     * the question list in order, the clock runs exactly during an exam, and
     * it never rests at zero while running.
     */
    predicate Valid()
      reads this
    {
      && streak <= bestStreak
      && IsSubsequence(wrongQuestions, questions)
      && isTimerRunning == isExamMode
      && (isTimerRunning ==> timeRemaining != 0)
    }

    constructor (questions: seq<Question>)
      ensures Valid()
      ensures this.questions == questions && mode == Menu && currentQuestionIndex == 0
      ensures selectedAnswers == map[] && examResults == [] && !isExamMode && examTimeLimit == 60
      ensures timeRemaining == 0 && !isTimerRunning && !showResults && wrongQuestions == []
      ensures countdown == Countdown(0, 0, 0, 0) && examDeadline == None && streak == 0 && bestStreak == 0
    {
      this.questions := questions;
      mode := Menu;
      currentQuestionIndex := 0;
      selectedAnswers := map[];
      examResults := [];
      isExamMode := false;
      examTimeLimit := 60;
      timeRemaining := 0;
      isTimerRunning := false;
      showResults := false;
      wrongQuestions := [];
      countdown := Countdown(0, 0, 0, 0);
      examDeadline := None;
      streak := 0;
      bestStreak := 0;
    }

    /** `currentQuestions`: the wrong questions in trainer mode, all questions otherwise. */
    function CurrentQuestions(): seq<Question>
      reads this
    {
      if mode == Trainer then wrongQuestions else questions
    }

    /** The time-limit field. */
    method SetTimeLimit(minutes: int)
      modifies this`examTimeLimit
      ensures examTimeLimit == minutes
    {
      examTimeLimit := minutes;
    }

    /** `endExam`: stops the exam and its clock, computes the results and shows them. */
    method EndExam()
      requires streak <= bestStreak
      modifies this`isExamMode, this`isTimerRunning, this`examResults, this`wrongQuestions, this`showResults
      ensures Valid()
      ensures !isExamMode && !isTimerRunning && showResults
      ensures examResults == CalculateResults(questions, selectedAnswers)
      ensures wrongQuestions == WrongQuestions(questions, selectedAnswers)
    {
      isExamMode := false;
      isTimerRunning := false;
      var answers := selectedAnswers;
      examResults := CalculateResults(questions, answers);
      wrongQuestions := WrongQuestions(questions, answers);
      WrongQuestionsSpec(questions, answers);
      showResults := true;
    }

    /**
     * `startExam`, followed by the timer effect: a fresh exam with the clock at
     * the time limit in seconds; a limit of zero ends it at once.
     */
    method StartExam()
      requires Valid()
      modifies this
      ensures Valid()
      ensures mode == ExamMode && currentQuestionIndex == 0 && selectedAnswers == map[]
      ensures timeRemaining == old(examTimeLimit) * 60
      ensures old(examTimeLimit) * 60 != 0 ==> isExamMode && isTimerRunning && !showResults && examResults == []
      ensures old(examTimeLimit) * 60 == 0 ==>
        && !isExamMode && !isTimerRunning && showResults
        && examResults == CalculateResults(questions, map[])
        && wrongQuestions == WrongQuestions(questions, map[])
      ensures old(examTimeLimit) * 60 != 0 ==> wrongQuestions == old(wrongQuestions)
      ensures examTimeLimit == old(examTimeLimit) && streak == old(streak) && bestStreak == old(bestStreak)
      ensures countdown == old(countdown) && examDeadline == old(examDeadline)
    {
      isExamMode := true;
      mode := ExamMode;
      currentQuestionIndex := 0;
      selectedAnswers := map[];
      examResults := [];
      timeRemaining := examTimeLimit * 60;
      isTimerRunning := true;
      showResults := false;
      if timeRemaining == 0 {
        EndExam();
      }
    }

    /** One second of the exam clock; reaching zero ends the exam. */
    method Tick()
      requires Valid()
      requires isTimerRunning && timeRemaining > 0
      modifies this`timeRemaining, this`isExamMode, this`isTimerRunning, this`examResults, this`wrongQuestions, this`showResults
      ensures Valid()
      ensures timeRemaining == old(timeRemaining) - 1 && timeRemaining >= 0
      ensures timeRemaining > 0 ==>
        && isTimerRunning && isExamMode && examResults == old(examResults)
        && wrongQuestions == old(wrongQuestions) && showResults == old(showResults)
      ensures timeRemaining == 0 ==>
        && !isTimerRunning && !isExamMode && showResults
        && examResults == CalculateResults(questions, selectedAnswers)
        && wrongQuestions == WrongQuestions(questions, selectedAnswers)
    {
      timeRemaining := timeRemaining - 1;
      if timeRemaining == 0 {
        EndExam();
      }
    }

    /** `nextQuestion`. */
    method NextQuestion()
      modifies this`currentQuestionIndex
      ensures currentQuestionIndex == NextQuestionIndex(old(currentQuestionIndex), |CurrentQuestions()|)
    {
      if currentQuestionIndex < |CurrentQuestions()| - 1 {
        currentQuestionIndex := currentQuestionIndex + 1;
      }
    }

    /** `previousQuestion`. */
    method PreviousQuestion()
      modifies this`currentQuestionIndex
      ensures currentQuestionIndex == PrevQuestionIndex(old(currentQuestionIndex), |CurrentQuestions()|)
    {
      if currentQuestionIndex > 0 {
        currentQuestionIndex := currentQuestionIndex - 1;
      }
    }

    /**
     * `handleAnswerSelect`: records the answer for that question only; in
     * practice mode, for a known question, also updates the streak.
     */
    method SelectAnswer(questionId: string, answer: int)
      requires Valid()
      modifies this`selectedAnswers, this`streak, this`bestStreak
      ensures Valid()
      ensures selectedAnswers == old(selectedAnswers)[questionId := answer]
      ensures mode == Practice && QuestionById(questions, questionId).Some? ==>
        (streak, bestStreak) == StreakAfter(old(streak), old(bestStreak),
                                            answer == QuestionById(questions, questionId).value.correctAnswer)
      ensures mode != Practice || QuestionById(questions, questionId).None? ==>
        streak == old(streak) && bestStreak == old(bestStreak)
    {
      selectedAnswers := selectedAnswers[questionId := answer];
      if mode == Practice {
        var question := QuestionById(questions, questionId);
        if question.Some? {
          var next := StreakAfter(streak, bestStreak, answer == question.value.correctAnswer);
          streak, bestStreak := next.0, next.1;
        }
      }
    }

    /** `startTrainer`: with wrong questions, drill them from the first; without, nothing changes. */
    method StartTrainer()
      modifies this`mode, this`currentQuestionIndex, this`selectedAnswers, this`showResults
      ensures wrongQuestions == [] ==>
        mode == old(mode) && currentQuestionIndex == old(currentQuestionIndex)
        && selectedAnswers == old(selectedAnswers) && showResults == old(showResults)
      ensures wrongQuestions != [] ==>
        mode == Trainer && currentQuestionIndex == 0 && selectedAnswers == map[] && !showResults
        && 0 <= currentQuestionIndex < |CurrentQuestions()|
    {
      if |wrongQuestions| == 0 {
        return;
      }
      mode := Trainer;
      currentQuestionIndex := 0;
      selectedAnswers := map[];
      showResults := false;
    }

    /** The Practice button on the menu. */
    method StartPractice()
      modifies this`mode
      ensures mode == Practice
    {
      mode := Practice;
    }

    /** Back to Menu in the question view; a running exam keeps its clock. */
    method BackToMenu()
      modifies this`mode
      ensures mode == Menu
    {
      mode := Menu;
    }

    /** Back to Menu in the results view. */
    method CloseResults()
      modifies this`mode, this`showResults
      ensures mode == Menu && !showResults
    {
      showResults := false;
      mode := Menu;
    }

    /** The exam-date field and its Clear button. */
    method SetDeadline(deadline: Option<int>)
      modifies this`examDeadline
      ensures examDeadline == deadline
    {
      examDeadline := deadline;
    }

    /** One second of the countdown, at time `now` in milliseconds. */
    method CountdownTick(now: int)
      requires examDeadline.Some?
      modifies this`countdown
      ensures countdown == CountdownFor(examDeadline.value - now)
    {
      countdown := CountdownFor(examDeadline.value - now);
    }
  }
}
