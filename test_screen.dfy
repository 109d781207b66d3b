/**
 * The candidate's timed test screen (src/pages/candidate/TestScreen.tsx): the session state
 * the page keeps with `useState` and changes through its handlers and the one-second interval,
 * and the two pure pieces it renders with, the submission formatter and the `m:ss` clock.
 */
module TestScreen {
  import opened Wrappers
  import opened Records
  import opened Counting
  import Text

  /** The countdown's initial value: 60 minutes in seconds. */
  const TestSeconds: int := 3600

  /** One entry of the submit request's `responses`. */
  datatype Response = Response(questionId: string, answer: string)

  ghost function QuestionIds(questions: seq<Question>): set<string> {
    set i | 0 <= i < |questions| :: questions[i].questionId
  }

  ghost predicate DistinctIds(questions: seq<Question>) {
    forall i, j :: 0 <= i < j < |questions| ==> questions[i].questionId != questions[j].questionId
  }

  /** `answers[id] || ''`: the recorded answer, or the empty string for an unanswered question. */
  function AnswerFor(answers: map<string, string>, id: string): (a: string)
    ensures id in answers ==> a == answers[id]
    ensures id !in answers ==> a == ""
  {
    if id in answers && answers[id] != "" then answers[id] else ""
  }

  /** The `questions.map(...)` of `handleSubmit`: one response per question, in question order. */
  function FormatSubmission(questions: seq<Question>, answers: map<string, string>): (r: seq<Response>)
    ensures |r| == |questions|
    ensures forall i :: 0 <= i < |questions| ==>
      r[i].questionId == questions[i].questionId && r[i].answer == AnswerFor(answers, questions[i].questionId)
  {
    if questions == [] then []
    else
      var head := Response(questions[0].questionId, AnswerFor(answers, questions[0].questionId));
      [head] + FormatSubmission(questions[1..], answers)
  }

  /** `handleSubmit`: nothing when no test is loaded, else the formatted responses to submit. */
  function HandleSubmit(test: Option<Assessment>, answers: map<string, string>): (r: Option<seq<Response>>)
    ensures r.None? <==> test.None?
    ensures r.Some? ==> |r.value| == |test.value.questions|
    ensures r.Some? ==> forall i :: 0 <= i < |r.value| ==>
      r.value[i] == Response(test.value.questions[i].questionId, AnswerFor(answers, test.value.questions[i].questionId))
  {
    match test
    case None => None
    case Some(t) => Some(FormatSubmission(t.questions, answers))
  }

  function IdIn(keys: set<string>): Question -> bool {
    (q: Question) => q.questionId in keys
  }

  function ResponseIdIn(keys: set<string>): Response -> bool {
    (r: Response) => r.questionId in keys
  }

  function ResponseIdNotIn(keys: set<string>): Response -> bool {
    (r: Response) => r.questionId !in keys
  }

  lemma CountCongruent<T>(s: seq<T>, p: T -> bool, q: T -> bool)
    requires forall i :: 0 <= i < |s| ==> p(s[i]) == q(s[i])
    ensures CountWhere(s, p) == CountWhere(s, q)
  {
    if s != [] {
      CountCongruent(s[1..], p, q);
    }
  }

  /** With distinct question ids, exactly |keys| questions carry an id from `keys`. */
  lemma {:induction false} CountQuestionsWithId(questions: seq<Question>, keys: set<string>)
    requires DistinctIds(questions) && keys <= QuestionIds(questions)
    ensures CountWhere(questions, IdIn(keys)) == |keys|
  {
    if questions == [] {
      assert keys == {};
    } else {
      var id := questions[0].questionId;
      var rest := questions[1..];
      var keys' := keys - {id};
      RestIds(questions, keys);
      CountQuestionsWithId(rest, keys');
      forall i | 0 <= i < |rest| ensures IdIn(keys)(rest[i]) == IdIn(keys')(rest[i]) {
        assert rest[i] == questions[i + 1];
      }
      CountCongruent(rest, IdIn(keys), IdIn(keys'));
      assert CountWhere(questions, IdIn(keys)) == (if id in keys then 1 else 0) + CountWhere(rest, IdIn(keys));
      RemoveOne(keys, id);
    }
  }

  lemma RemoveOne(keys: set<string>, id: string)
    ensures |keys| == (if id in keys then 1 else 0) + |keys - {id}|
  {
    if id in keys {
      assert keys == (keys - {id}) + {id};
    } else {
      assert keys - {id} == keys;
    }
  }

  /** Past the first question the ids stay distinct and cover every key but the first id. */
  lemma RestIds(questions: seq<Question>, keys: set<string>)
    requires questions != [] && DistinctIds(questions) && keys <= QuestionIds(questions)
    ensures DistinctIds(questions[1..])
    ensures keys - {questions[0].questionId} <= QuestionIds(questions[1..])
  {
    var rest := questions[1..];
    forall k | k in keys - {questions[0].questionId} ensures k in QuestionIds(rest) {
      var i :| 0 <= i < |questions| && questions[i].questionId == k;
      assert rest[i - 1] == questions[i];
    }
  }

  lemma {:induction false} ResponseCountMatchesQuestions(questions: seq<Question>, answers: map<string, string>, keys: set<string>)
    ensures CountWhere(FormatSubmission(questions, answers), ResponseIdIn(keys)) == CountWhere(questions, IdIn(keys))
  {
    if questions != [] {
      var r := FormatSubmission(questions, answers);
      assert r[1..] == FormatSubmission(questions[1..], answers);
      ResponseCountMatchesQuestions(questions[1..], answers, keys);
    }
  }

  /**
   * Submitting N questions of which K were answered yields exactly K responses carrying a
   * recorded answer and N - K carrying none (their answer is the empty string).
   */
  lemma SubmissionCounts(questions: seq<Question>, answers: map<string, string>)
    requires DistinctIds(questions) && answers.Keys <= QuestionIds(questions)
    ensures CountWhere(FormatSubmission(questions, answers), ResponseIdIn(answers.Keys)) == |answers.Keys|
    ensures CountWhere(FormatSubmission(questions, answers), ResponseIdNotIn(answers.Keys)) == |questions| - |answers.Keys|
    ensures forall r :: r in FormatSubmission(questions, answers) && r.questionId !in answers ==> r.answer == ""
  {
    var r := FormatSubmission(questions, answers);
    CountQuestionsWithId(questions, answers.Keys);
    ResponseCountMatchesQuestions(questions, answers, answers.Keys);
    CountComplement(r, ResponseIdIn(answers.Keys), ResponseIdNotIn(answers.Keys));
  }

  /** `formatTime`: minutes, a colon, and the seconds padded to two digits. */
  function FormatTime(seconds: nat): (r: string)
    ensures |r| >= 4 && r[|r| - 3] == ':'
    ensures Text.AllDigits(r[..|r| - 3]) && Text.AllDigits(r[|r| - 2..])
    ensures Text.DecimalValue(r[|r| - 2..]) < 60
    ensures Text.DecimalValue(r[..|r| - 3]) * 60 + Text.DecimalValue(r[|r| - 2..]) == seconds
    ensures |r| > 4 ==> r[0] != '0'
  {
    var minutes := Text.NatToDecimal(seconds / 60);
    var secs := Text.PadTwo(seconds % 60);
    Text.DecimalRoundTrip(seconds / 60);
    var r := minutes + ":" + secs;
    assert r[..|r| - 3] == minutes && r[|r| - 2..] == secs;
    r
  }

  /** The clock shows "60:00" when the test starts. */
  lemma FormatTimeAtStart()
    ensures FormatTime(TestSeconds) == "60:00"
  {
    assert Text.NatToDecimal(6) == "6";
    assert Text.NatToDecimal(60) == "60";
  }

  lemma SubsetSize<T>(a: set<T>, b: set<T>)
    requires a <= b
    ensures |a| <= |b|
    decreases |a|
  {
    if a != {} {
      var x :| x in a;
      SubsetSize(a - {x}, b - {x});
    }
  }

  /** The state of one test screen. */
  class TestSession {
    /** The loaded test (`response?.test`), absent until the fetch returns. */
    var test: Option<Assessment>
    var testStarted: bool
    var currentQuestion: int
    /** The `answers` record, keyed by question id. */
    var answers: map<string, string>
    var timeLeft: int
    /**
     * The answers seen by the `handleSubmit` that the running interval captured: those of the
     * render in which the timer effect last ran (its dependencies are `test` and `testStarted`).
     */
    var timerAnswers: map<string, string>
    /** `submitMutation.isPending`. */
    var submitPending: bool
    /** Every list of responses handed to `submitMutation.mutate`, oldest first. */
    var submissions: seq<seq<Response>>

    ghost predicate Valid()
      reads this
    {
      && 0 <= timeLeft <= TestSeconds
      && 0 <= currentQuestion
      && (test.None? ==> !testStarted && answers == map[] && currentQuestion == 0)
      && (test.Some? ==> currentQuestion == 0 || currentQuestion < |test.value.questions|)
      && (test.Some? ==> answers.Keys <= QuestionIds(test.value.questions))
    }

    /** The interval exists only while a test is loaded and started. */
    predicate TimerRunning()
      reads this
    {
      test.Some? && testStarted
    }

    constructor ()
      ensures Valid()
      ensures test == None && !testStarted && currentQuestion == 0
      ensures answers == map[] && timeLeft == TestSeconds
      ensures !submitPending && submissions == [] && !TimerRunning()
    {
      test := None;
      testStarted := false;
      currentQuestion := 0;
      answers := map[];
      timeLeft := TestSeconds;
      timerAnswers := map[];
      submitPending := false;
      submissions := [];
    }

    /** The test query returns its test. */
    method Load(t: Assessment)
      requires Valid() && test.None?
      modifies this
      ensures Valid() && test == Some(t)
      ensures testStarted == old(testStarted) && currentQuestion == old(currentQuestion)
      ensures answers == old(answers) && timeLeft == old(timeLeft) && timerAnswers == old(timerAnswers)
      ensures submitPending == old(submitPending) && submissions == old(submissions)
    {
      test := Some(t);
    }

    /** "Start Test": `setTestStarted(true)`; the timer effect then runs and captures the current answers. */
    method Start()
      requires Valid() && test.Some? && |test.value.questions| > 0 && !testStarted
      modifies this
      ensures Valid() && TimerRunning()
      ensures timerAnswers == answers
      ensures test == old(test) && currentQuestion == old(currentQuestion)
      ensures answers == old(answers) && timeLeft == old(timeLeft)
      ensures submitPending == old(submitPending) && submissions == old(submissions)
    {
      testStarted := true;
      timerAnswers := answers;
    }

    /**
     * One second of the interval. Above 1 it counts down by one; at 1 or below it sets the
     * clock to 0 and calls the captured `handleSubmit`, on this and on every later tick.
     */
    method Tick()
      requires Valid() && TimerRunning()
      modifies this
      ensures Valid() && TimerRunning()
      ensures old(timeLeft) > 1 ==>
        timeLeft == old(timeLeft) - 1 && submissions == old(submissions) && submitPending == old(submitPending)
      ensures old(timeLeft) <= 1 ==>
        timeLeft == 0 && submitPending && submissions == old(submissions) + [FormatSubmission(test.value.questions, timerAnswers)]
      ensures test == old(test) && currentQuestion == old(currentQuestion)
      ensures answers == old(answers) && timerAnswers == old(timerAnswers)
    {
      if timeLeft <= 1 {
        var payload := HandleSubmit(test, timerAnswers);
        submissions := submissions + [payload.value];
        submitPending := true;
        timeLeft := 0;
      } else {
        timeLeft := timeLeft - 1;
      }
    }

    /**
     * The tick the design describes: it submits the answers recorded now, and only when the
     * clock reaches 0, so a clock already at 0 submits nothing more.
     */
    method TickAsIntended()
      requires Valid() && TimerRunning()
      modifies this
      ensures Valid() && TimerRunning()
      ensures old(timeLeft) > 1 ==> timeLeft == old(timeLeft) - 1 && submissions == old(submissions)
      ensures old(timeLeft) == 1 ==>
        timeLeft == 0 && submitPending && submissions == old(submissions) + [FormatSubmission(test.value.questions, answers)]
      ensures old(timeLeft) == 0 ==>
        timeLeft == 0 && submissions == old(submissions) && submitPending == old(submitPending)
      ensures timeLeft <= old(timeLeft)
      ensures test == old(test) && currentQuestion == old(currentQuestion)
      ensures answers == old(answers) && timerAnswers == old(timerAnswers)
    {
      if timeLeft == 1 {
        var payload := HandleSubmit(test, answers);
        submissions := submissions + [payload.value];
        submitPending := true;
        timeLeft := 0;
      } else if timeLeft > 1 {
        timeLeft := timeLeft - 1;
      }
    }

    /** The radio group's `onValueChange`: record `value` for the question on screen. */
    method Answer(value: string)
      requires Valid() && TimerRunning() && currentQuestion < |test.value.questions|
      modifies this
      ensures Valid() && TimerRunning()
      ensures test == old(test) && currentQuestion == old(currentQuestion) && timeLeft == old(timeLeft)
      ensures answers == old(answers)[test.value.questions[currentQuestion].questionId := value]
      ensures forall k :: k != test.value.questions[currentQuestion].questionId ==>
        (k in answers <==> k in old(answers)) && (k in answers ==> answers[k] == old(answers)[k])
      ensures timerAnswers == old(timerAnswers)
      ensures submitPending == old(submitPending) && submissions == old(submissions)
    {
      var id := test.value.questions[currentQuestion].questionId;
      assert id in QuestionIds(test.value.questions);
      answers := answers[id := value];
    }

    /** "Previous": `Math.max(0, prev - 1)`. */
    method Previous()
      requires Valid() && TimerRunning()
      modifies this
      ensures Valid() && TimerRunning()
      ensures currentQuestion == if old(currentQuestion) == 0 then 0 else old(currentQuestion) - 1
      ensures test == old(test) && answers == old(answers) && timeLeft == old(timeLeft)
      ensures timerAnswers == old(timerAnswers)
      ensures submitPending == old(submitPending) && submissions == old(submissions)
    {
      currentQuestion := if currentQuestion - 1 > 0 then currentQuestion - 1 else 0;
    }

    /** "Next", shown only before the last question: `Math.min(n - 1, prev + 1)`. */
    method Next()
      requires Valid() && TimerRunning()
      modifies this
      ensures Valid() && TimerRunning()
      ensures old(currentQuestion) < |test.value.questions| - 1 ==> currentQuestion == old(currentQuestion) + 1
      ensures old(currentQuestion) >= |test.value.questions| - 1 ==> currentQuestion == old(currentQuestion)
      ensures test == old(test) && answers == old(answers) && timeLeft == old(timeLeft)
      ensures timerAnswers == old(timerAnswers)
      ensures submitPending == old(submitPending) && submissions == old(submissions)
    {
      var n := |test.value.questions|;
      if currentQuestion < n - 1 {
        currentQuestion := if n - 1 < currentQuestion + 1 then n - 1 else currentQuestion + 1;
      }
    }

    /** A button of the question navigator: jump to question `index`. */
    method GoTo(index: int)
      requires Valid() && TimerRunning() && 0 <= index < |test.value.questions|
      modifies this
      ensures Valid() && TimerRunning() && currentQuestion == index
      ensures test == old(test) && answers == old(answers) && timeLeft == old(timeLeft)
      ensures timerAnswers == old(timerAnswers)
      ensures submitPending == old(submitPending) && submissions == old(submissions)
    {
      currentQuestion := index;
    }

    /**
     * "Submit Assessment": shown on the last question only, and disabled while a submission
     * is pending. It uses the current render's `handleSubmit`, so the latest answers.
     */
    method SubmitManually()
      requires Valid() && TimerRunning()
      modifies this
      ensures Valid() && TimerRunning()
      ensures old(submitPending) || old(currentQuestion) < |test.value.questions| - 1 ==>
        submissions == old(submissions) && submitPending == old(submitPending)
      ensures !old(submitPending) && old(currentQuestion) >= |test.value.questions| - 1 ==>
        submissions == old(submissions) + [FormatSubmission(test.value.questions, answers)] && submitPending
      ensures test == old(test) && currentQuestion == old(currentQuestion) && answers == old(answers)
      ensures timeLeft == old(timeLeft) && timerAnswers == old(timerAnswers)
    {
      if !submitPending && currentQuestion >= |test.value.questions| - 1 {
        var payload := HandleSubmit(test, answers);
        submissions := submissions + [payload.value];
        submitPending := true;
      }
    }

    /** The submit request settles, successfully or not; the recorded answers stay as they are. */
    method SubmitSettled()
      requires Valid()
      modifies this
      ensures Valid() && !submitPending
      ensures test == old(test) && testStarted == old(testStarted) && currentQuestion == old(currentQuestion)
      ensures answers == old(answers) && timeLeft == old(timeLeft) && timerAnswers == old(timerAnswers)
      ensures submissions == old(submissions)
    {
      submitPending := false;
    }

    /** `Object.keys(answers).length`: never more than the number of distinct question ids. */
    function AnsweredCount(): (n: nat)
      reads this
      requires Valid() && test.Some?
      ensures n == |answers|
      ensures n <= |QuestionIds(test.value.questions)|
    {
      SubsetSize(answers.Keys, QuestionIds(test.value.questions));
      |answers|
    }
  }

  /**
   * A one-question test, answered right after Start, then left to run out: the automatic
   * submission carries the empty answer, and the next tick submits again.
   */
  method AutoSubmitWitness() returns (recorded: map<string, string>, submitted: seq<seq<Response>>)
    ensures recorded == map["q1" := "A"]
    ensures submitted == [[Response("q1", "")], [Response("q1", "")]]
  {
    var q := Question("q1", "Pick one", ["A", "B"], "A", 1.0);
    var t := Assessment("t1", "c1", "j1", [q], TestPending, 1.0, "MCQ", None);
    var s := new TestSession();
    s.Load(t);
    s.Start();
    s.Answer("A");
    while s.timeLeft > 1
      invariant s.Valid() && s.TimerRunning() && s.test == Some(t)
      invariant s.answers == map["q1" := "A"] && s.timerAnswers == map[]
      invariant s.submissions == []
      decreases s.timeLeft
    {
      s.Tick();
    }
    s.Tick();
    assert FormatSubmission([q], map[]) == [Response("q1", "")];
    s.Tick();
    recorded := s.answers;
    submitted := s.submissions;
  }
}
