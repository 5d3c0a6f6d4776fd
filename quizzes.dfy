/** Quizzes (quizzes.service.js): one quiz per lesson, replaced wholesale by
    `createQuiz`; `attemptQuiz` scores a student's answers, applies the 60%
    pass rule and records the attempt; `getMyAttempts` lists a student's
    attempts at a quiz, newest first. */
module Quizzes {

  import opened Common
  import Store

  /** A question as the instructor submits it. */
  datatype QuestionInput = QuestionInput(text: string, options: seq<string>, answer: string)

  datatype Question = Question(id: Id, text: string, options: seq<string>, answer: string)

  /** A quiz with its questions included. */
  datatype Quiz = Quiz(id: Id, lessonId: Id, questions: seq<Question>)

  /** The answers object of an attempt: question id to the chosen option. */
  type Answers = map<Id, string>

  /** One element of `results`. */
  datatype QuestionResult = QuestionResult(
    questionId: Id, questionText: string, studentAnswer: Option<string>,
    correctAnswer: string, isCorrect: bool)

  /** A stored quiz attempt. */
  datatype Attempt = Attempt(
    id: Id, userId: Id, quizId: Id, score: nat, total: nat,
    answers: Answers, results: seq<QuestionResult>, createdAt: int)

  /** What `attemptQuiz` answers (without the floating-point percentage). */
  datatype Outcome = Outcome(attemptId: Id, score: nat, total: nat, passed: bool, results: seq<QuestionResult>)

  const LessonNotFound := HttpError(404, "Lesson not found")
  const QuizNotFound := HttpError(404, "Quiz not found")

  /** `answers[q.id]`: absent when the student skipped the question. */
  function Lookup(answers: Answers, id: Id): Option<string>
  {
    if id in answers then Some(answers[id]) else None
  }

  /** The student's answer is strictly equal to the correct one. */
  predicate Correct(q: Question, answers: Answers)
  {
    Lookup(answers, q.id) == Some(q.answer)
  }

  function CorrectFor(answers: Answers): Question -> bool
  {
    (q: Question) => Correct(q, answers)
  }

  /** The result entry built for one question. */
  function Mark(q: Question, answers: Answers): (r: QuestionResult)
    ensures r.questionId == q.id && r.correctAnswer == q.answer
    ensures r.isCorrect <==> q.id in answers && answers[q.id] == q.answer
  {
    QuestionResult(q.id, q.text, Lookup(answers, q.id), q.answer, Correct(q, answers))
  }

  /** The number of correctly answered questions. */
  function CountCorrect(qs: seq<Question>, answers: Answers): (n: nat)
    ensures n <= |qs|
  {
    if qs == [] then 0
    else CountCorrect(qs[..|qs| - 1], answers) + (if Correct(qs[|qs| - 1], answers) then 1 else 0)
  }

  /** The count is the size of the set of correctly answered questions. */
  lemma {:induction false} CountCorrectIsFilter(qs: seq<Question>, answers: Answers)
    ensures CountCorrect(qs, answers) == |Store.Filter(qs, CorrectFor(answers))|
  {
    if qs != [] {
      var init := qs[..|qs| - 1];
      CountCorrectIsFilter(init, answers);
      assert qs == init + [qs[|qs| - 1]];
      Store.FilterAppend(init, qs[|qs| - 1], CorrectFor(answers));
    }
  }

  /** Full marks exactly when every question is answered correctly. */
  lemma {:induction false} FullMarks(qs: seq<Question>, answers: Answers)
    ensures CountCorrect(qs, answers) == |qs| <==> forall i :: 0 <= i < |qs| ==> Correct(qs[i], answers)
  {
    if qs != [] {
      var init := qs[..|qs| - 1];
      FullMarks(init, answers);
      if CountCorrect(qs, answers) == |qs| {
        forall i | 0 <= i < |qs| ensures Correct(qs[i], answers) {
          if i < |qs| - 1 {
            assert qs[i] == init[i];
          }
        }
      }
    }
  }

  /** The score loop of `attemptQuiz`: one result per question, in order,
      counting the correct ones. */
  method Score(questions: seq<Question>, answers: Answers) returns (score: nat, results: seq<QuestionResult>)
    ensures score == CountCorrect(questions, answers) && score <= |questions|
    ensures |results| == |questions|
    ensures forall i :: 0 <= i < |questions| ==> results[i] == Mark(questions[i], answers)
  {
    score := 0;
    results := [];
    var i := 0;
    while i < |questions|
      invariant 0 <= i <= |questions|
      invariant score == CountCorrect(questions[..i], answers)
      invariant |results| == i
      invariant forall k :: 0 <= k < i ==> results[k] == Mark(questions[k], answers)
    {
      var q := questions[i];
      var studentAnswer := Lookup(answers, q.id);
      var isCorrect := studentAnswer == Some(q.answer);
      assert questions[..i + 1][..i] == questions[..i];
      if isCorrect {
        score := score + 1;
      }
      results := results + [QuestionResult(q.id, q.text, studentAnswer, q.answer, isCorrect)];
      i := i + 1;
    }
    assert questions[..i] == questions;
  }

  /** `Math.ceil(total * 0.6)`: the least score that passes. */
  function PassMark(total: nat): (m: nat)
    ensures 5 * m >= 3 * total
    ensures m == 0 || 5 * (m - 1) < 3 * total
  {
    (3 * total + 4) / 5
  }

  predicate Passed(score: nat, total: nat)
  {
    score >= PassMark(total)
  }

  /** The pass rule in integers: at least three fifths of the questions. */
  lemma PassRule(score: nat, total: nat)
    ensures Passed(score, total) <==> 5 * score >= 3 * total
  {
  }

  /** Full marks always pass, and passing is kept by a higher score. */
  lemma PassMonotone(score: nat, better: nat, total: nat)
    requires score <= better
    ensures Passed(total, total)
    ensures Passed(score, total) ==> Passed(better, total)
  {
  }

  function ForLesson(lessonId: Id): Quiz -> bool
  {
    (q: Quiz) => q.lessonId == lessonId
  }

  function OtherLesson(lessonId: Id): Quiz -> bool
  {
    (q: Quiz) => q.lessonId != lessonId
  }

  /** Dropping a lesson's quizzes and appending a new one for that lesson
      leaves that quiz as the lesson's only one and the other lessons' quizzes
      as they were. */
  lemma ReplaceLesson(quizzes: seq<Quiz>, quiz: Quiz)
    ensures var kept := Store.Filter(quizzes, OtherLesson(quiz.lessonId));
      && Store.Filter(kept + [quiz], ForLesson(quiz.lessonId)) == [quiz]
      && Store.Filter(kept + [quiz], OtherLesson(quiz.lessonId)) == kept
  {
    var kept := Store.Filter(quizzes, OtherLesson(quiz.lessonId));
    Store.FilterAppend(kept, quiz, ForLesson(quiz.lessonId));
    forall k | 0 <= k < |kept| ensures !ForLesson(quiz.lessonId)(kept[k]) {
      assert kept[k] in kept;
    }
    Store.FilterNone(kept, ForLesson(quiz.lessonId));
    Store.FilterAppend(kept, quiz, OtherLesson(quiz.lessonId));
    Store.FilterIdempotent(quizzes, OtherLesson(quiz.lessonId));
  }

  function QuizWithId(id: Id): Quiz -> bool
  {
    (q: Quiz) => q.id == id
  }

  /** `questions.map(...)`: the created questions, numbered from `firstId`. */
  function MakeQuestions(inputs: seq<QuestionInput>, firstId: Id): (qs: seq<Question>)
    ensures |qs| == |inputs|
    ensures forall i :: 0 <= i < |inputs| ==>
      qs[i] == Question(firstId + i, inputs[i].text, inputs[i].options, inputs[i].answer)
  {
    if inputs == [] then []
    else [Question(firstId, inputs[0].text, inputs[0].options, inputs[0].answer)]
         + MakeQuestions(inputs[1..], firstId + 1)
  }

  function AttemptBy(userId: Id, quizId: Id): Attempt -> bool
  {
    (a: Attempt) => a.userId == userId && a.quizId == quizId
  }

  /** `orderBy: { createdAt: 'desc' }` as an ascending key. */
  function NewestKey(a: Attempt): (int, int)
  {
    (-a.createdAt, 0)
  }

  class QuizStore {
    var lessons: set<Id>
    var quizzes: seq<Quiz>
    var attempts: seq<Attempt>
    var nextId: nat

    /** Every stored id is below the counter. */
    ghost predicate Valid()
      reads this
    {
      && (forall q :: q in quizzes ==> q.id < nextId && forall x :: x in q.questions ==> x.id < nextId)
      && (forall a :: a in attempts ==> a.id < nextId)
    }

    constructor (lessons: set<Id>)
      ensures Valid() && this.lessons == lessons && quizzes == [] && attempts == []
    {
      this.lessons := lessons;
      quizzes := [];
      attempts := [];
      nextId := 0;
    }

    /** `createQuiz`: 404 for an unknown lesson (nothing deleted); otherwise
        the lesson's quizzes are replaced by one quiz holding the given
        questions in order. */
    method CreateQuiz(lessonId: Id, questions: seq<QuestionInput>) returns (r: Result<Quiz>)
      requires Valid()
      modifies this
      ensures Valid() && lessons == old(lessons) && attempts == old(attempts)
      ensures r.Err? <==> lessonId !in lessons
      ensures r.Err? ==> r.error == LessonNotFound && quizzes == old(quizzes)
      ensures r.Ok? ==> Store.Filter(quizzes, ForLesson(lessonId)) == [r.value]
      ensures r.Ok? ==> r.value.lessonId == lessonId && |r.value.questions| == |questions|
      ensures r.Ok? ==> forall i :: 0 <= i < |questions| ==>
        var q := r.value.questions[i];
        q.text == questions[i].text && q.options == questions[i].options && q.answer == questions[i].answer
      ensures r.Ok? ==> forall q :: q in quizzes && q.lessonId != lessonId <==> q in old(quizzes) && q.lessonId != lessonId
      ensures r.Ok? ==> quizzes == Store.Filter(old(quizzes), OtherLesson(lessonId)) + [r.value]
      ensures r.Ok? ==> Store.Filter(quizzes, OtherLesson(lessonId)) == Store.Filter(old(quizzes), OtherLesson(lessonId))
    {
      if lessonId !in lessons {
        return Err(LessonNotFound);
      }
      var kept := Store.Filter(quizzes, OtherLesson(lessonId));
      var quiz := Quiz(nextId, lessonId, MakeQuestions(questions, nextId + 1));
      nextId := nextId + 1 + |questions|;
      ReplaceLesson(quizzes, quiz);
      quizzes := kept + [quiz];
      r := Ok(quiz);
    }

    /** `getQuiz`: the quiz with that id, or 404. */
    method GetQuiz(quizId: Id) returns (r: Result<Quiz>)
      ensures r.Ok? ==> r.value in quizzes && r.value.id == quizId
      ensures r.Err? <==> forall q :: q in quizzes ==> q.id != quizId
      ensures r.Err? ==> r.error == QuizNotFound
    {
      var found := Store.FindFirst(quizzes, QuizWithId(quizId));
      if found.None? {
        forall q | q in quizzes ensures q.id != quizId {
          var k :| 0 <= k < |quizzes| && quizzes[k] == q;
          assert !QuizWithId(quizId)(quizzes[k]);
        }
        return Err(QuizNotFound);
      }
      assert QuizWithId(quizId)(quizzes[found.value]);
      r := Ok(quizzes[found.value]);
    }

    /** `attemptQuiz`: 404 for an unknown quiz (nothing stored); otherwise the
        answers are scored and exactly one attempt is recorded. */
    method AttemptQuiz(quizId: Id, userId: Id, answers: Answers, now: int) returns (r: Result<Outcome>)
      requires Valid()
      modifies this
      ensures Valid() && lessons == old(lessons) && quizzes == old(quizzes)
      ensures r.Err? <==> forall q :: q in quizzes ==> q.id != quizId
      ensures r.Err? ==> r.error == QuizNotFound && attempts == old(attempts)
      ensures r.Ok? ==> exists q :: (q in quizzes && q.id == quizId
        && r.value.total == |q.questions|
        && r.value.score == CountCorrect(q.questions, answers)
        && r.value.passed == Passed(r.value.score, r.value.total)
        && |r.value.results| == |q.questions|
        && (forall i :: 0 <= i < |q.questions| ==> r.value.results[i] == Mark(q.questions[i], answers))
        && attempts == old(attempts) + [Attempt(old(nextId), userId, quizId, r.value.score, r.value.total,
                                                 answers, r.value.results, now)])
      ensures r.Ok? ==> r.value.attemptId == old(nextId) && r.value.score <= r.value.total
    {
      var found := GetQuiz(quizId);
      if found.Err? {
        return Err(found.error);
      }
      var quiz := found.value;
      var score, results := Score(quiz.questions, answers);
      var total := |quiz.questions|;
      var attempt := Attempt(nextId, userId, quizId, score, total, answers, results, now);
      attempts := attempts + [attempt];
      nextId := nextId + 1;
      r := Ok(Outcome(attempt.id, score, total, score >= PassMark(total), results));
    }

    /** `getMyAttempts`: exactly the user's attempts at the quiz, newest first. */
    method GetMyAttempts(userId: Id, quizId: Id) returns (result: seq<Attempt>)
      ensures forall a :: a in result <==> a in attempts && a.userId == userId && a.quizId == quizId
      ensures multiset(result) == multiset(Store.Filter(attempts, AttemptBy(userId, quizId)))
      ensures forall i, j :: 0 <= i < j < |result| ==> result[i].createdAt >= result[j].createdAt
    {
      result := Store.SortBy(Store.Filter(attempts, AttemptBy(userId, quizId)), NewestKey);
      forall i, j | 0 <= i < j < |result| ensures result[i].createdAt >= result[j].createdAt {
        assert Store.KeyLe(NewestKey(result[i]), NewestKey(result[j]));
      }
    }
  }
}
