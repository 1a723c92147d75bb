/** Scoring a submitted quiz and crediting the points to the user. */
module ScoreController {
  import opened JsRuntime
  import opened UserModel
  import opened QuizModel

  /** The value `answers[q.id]` may hold: an array of choice ids, a string,
      or anything else (missing included). */
  datatype Answer = Many(ids: seq<string>) | One(text: string) | Other

  /** The `answers` field of the body: missing or falsy, present but not an
      object, or an object keyed by question id. */
  datatype AnswersField = Absent | NotObject | Entries(byQuestion: map<string, Answer>)

  datatype ScoreBody = ScoreBody(quizId: Option<string>, answers: AnswersField)

  datatype ScoreReply = ScoreFailed(code: int) | Awarded(gained: nat, total: int)

  /** `answers[q.id]`. */
  function AnswerFor(answers: map<string, Answer>, questionId: string): (a: Answer)
    ensures questionId !in answers ==> a == Other
    ensures questionId in answers ==> a == answers[questionId]
  {
    if questionId in answers then answers[questionId] else Other
  }

  /** `(q.correction || []).slice().sort().join("|")`. */
  function Expected(q: Question): (e: string)
    ensures q.correction == [] ==> e == ""
    ensures |q.correction| == 1 ==> e == q.correction[0]
  {
    Join(Sort(q.correction), "|")
  }

  /** What one question earns: 1 when an array answer, sorted and joined with
      "|", or a string answer equals the expected string; 0 for anything else. */
  function QuestionPoints(q: Question, a: Answer): (p: nat)
    ensures p <= 1
    ensures p == 1 <==>
      (a.Many? && Join(Sort(a.ids), "|") == Expected(q)) || (a.One? && a.text == Expected(q))
    ensures a.Other? ==> p == 0
  {
    match a
    case Many(ids) => if Join(Sort(ids), "|") == Expected(q) then 1 else 0
    case One(text) => if text == Expected(q) then 1 else 0
    case Other => 0
  }

  /** The score of a whole submission: the points of every question, summed. */
  function CountCorrect(questions: seq<Question>, answers: map<string, Answer>): (n: nat)
    ensures n <= |questions|
  {
    if questions == [] then 0
    else
      var last := questions[|questions| - 1];
      CountCorrect(questions[..|questions| - 1], answers) + QuestionPoints(last, AnswerFor(answers, last.id))
  }

  /** The `for` loop of `awardScore` that counts the questions answered right. */
  method Score(questions: seq<Question>, answers: map<string, Answer>) returns (score: nat)
    ensures score == CountCorrect(questions, answers)
  {
    score := 0;
    for i := 0 to |questions|
      invariant score == CountCorrect(questions[..i], answers)
    {
      var q := questions[i];
      var a := AnswerFor(answers, q.id);
      var expected := Join(Sort(q.correction), "|");
      match a {
        case Many(ids) =>
          var got := Join(Sort(ids), "|");
          if got == expected {
            score := score + 1;
          }
        case One(text) =>
          if text == expected {
            score := score + 1;
          }
        case Other =>
      }
      assert questions[..i + 1][..i] == questions[..i];
    }
    assert questions[..|questions|] == questions;
  }

  /** An array answer holding exactly the correct ids, in any order, scores. */
  lemma PermutedCorrectionScores(q: Question, ids: seq<string>)
    requires multiset(ids) == multiset(q.correction)
    ensures QuestionPoints(q, Many(ids)) == 1
  {
    SortIgnoresOrder(ids, q.correction);
  }

  /** Two submissions that agree except that some array answers list the same
      ids in another order. */
  predicate SameUpToOrder(a: map<string, Answer>, b: map<string, Answer>) {
    a.Keys == b.Keys &&
    forall k :: k in a ==>
      a[k] == b[k] || (a[k].Many? && b[k].Many? && multiset(a[k].ids) == multiset(b[k].ids))
  }

  /** Reordering the ids inside array answers never changes the score. */
  lemma {:induction false} ScoreIgnoresAnswerOrder(questions: seq<Question>, a: map<string, Answer>, b: map<string, Answer>)
    requires SameUpToOrder(a, b)
    ensures CountCorrect(questions, a) == CountCorrect(questions, b)
  {
    if questions != [] {
      var last := questions[|questions| - 1];
      ScoreIgnoresAnswerOrder(questions[..|questions| - 1], a, b);
      if last.id in a && a[last.id] != b[last.id] {
        SortIgnoresOrder(a[last.id].ids, b[last.id].ids);
      }
    }
  }

  /** `awardScore`: 401 with no user before anything else; 400 for a missing
      quiz id or answers that are not an object; 404 for an unknown quiz, with
      nothing credited; otherwise the score is added to the user's points
      through `addPoints`, and 404 when the user is no longer stored. */
  method AwardScore(store: UserStore, quizzes: seq<Quiz>, me: Option<User>, body: ScoreBody)
    returns (reply: ScoreReply)
    modifies store
    ensures me.None? ==> reply == ScoreFailed(401) && store.users == old(store.users)
    ensures me.Some? && (!Truthy(body.quizId) || !body.answers.Entries?) ==>
      reply == ScoreFailed(400) && store.users == old(store.users)
    ensures me.Some? && Truthy(body.quizId) && body.answers.Entries? &&
            QuizIndex(quizzes, body.quizId.value) == -1 ==>
      reply == ScoreFailed(404) && store.users == old(store.users)
    ensures me.Some? && Truthy(body.quizId) && body.answers.Entries? &&
            0 <= QuizIndex(quizzes, body.quizId.value) ==>
      var quiz := quizzes[QuizIndex(quizzes, body.quizId.value)];
      var gained := CountCorrect(quiz.questions, body.answers.byQuestion);
      var k := IndexOfId(old(store.users), me.value.id);
      (k == -1 ==> reply == ScoreFailed(404) && store.users == old(store.users)) &&
      (0 <= k ==>
         reply == Awarded(gained, old(store.users)[k].points + gained) &&
         store.users == old(store.users)[k := old(store.users)[k].(points := old(store.users)[k].points + gained)])
  {
    if me.None? {
      return ScoreFailed(401);
    }
    if !Truthy(body.quizId) || !body.answers.Entries? {
      return ScoreFailed(400);
    }
    var idx := QuizIndex(quizzes, body.quizId.value);
    if idx < 0 {
      return ScoreFailed(404);
    }
    var quiz := quizzes[idx];
    var score := Score(quiz.questions, body.answers.byQuestion);
    var updated := store.AddPoints(me.value.id, score);
    if updated.None? {
      return ScoreFailed(404);
    }
    reply := Awarded(score, updated.value.points);
  }
}
