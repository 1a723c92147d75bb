/** The quiz handlers: listing, creation, the answer-free view of one quiz,
    and deletion. */
module QuizController {
  import opened JsRuntime
  import opened UserModel
  import opened QuizModel

  // ---------------------------------------------------------------------------
  // listQuizzes

  /** One entry of the listing. */
  datatype QuizTitle = QuizTitle(id: string, titre: string, auteurId: Option<string>)

  /** `{ id, titre, auteurId: q.auteurId ?? q.auteurid ?? null }`. */
  function Title(q: Quiz): (t: QuizTitle)
    ensures t.id == q.id && t.titre == q.titre
    ensures q.auteurId.Some? ==> t.auteurId == q.auteurId
    ensures q.auteurId.None? ==> t.auteurId == q.auteurid
  {
    QuizTitle(q.id, q.titre, if q.auteurId.Some? then q.auteurId else q.auteurid)
  }

  /** `listQuizzes`: one entry per quiz, in order; the author comes from
      `auteurId`, else from the older `auteurid`, else null. */
  function ListQuizzes(quizzes: seq<Quiz>): (r: seq<QuizTitle>)
    ensures |r| == |quizzes|
    ensures forall i :: 0 <= i < |quizzes| ==>
      r[i].id == quizzes[i].id && r[i].titre == quizzes[i].titre
    ensures forall i :: 0 <= i < |quizzes| ==>
      (quizzes[i].auteurId.Some? ==> r[i].auteurId == quizzes[i].auteurId) &&
      (quizzes[i].auteurId.None? ==> r[i].auteurId == quizzes[i].auteurid)
  {
    seq(|quizzes|, i requires 0 <= i < |quizzes| => Title(quizzes[i]))
  }

  // ---------------------------------------------------------------------------
  // createQuiz

  /** The fields `createQuiz` reads from the body; `questions` is None when it
      is not an array. */
  datatype CreateBody = CreateBody(id: Option<string>, titre: Option<string>,
                                   questions: Option<seq<Question>>)

  datatype CreateReply = CreateFailed(code: int) | Created(quiz: Quiz)

  /** `id` and `titre` present and non-empty, `questions` an array. */
  predicate WellFormed(body: CreateBody)
    ensures WellFormed(body) ==> body.id.Some? && body.id.value != "" && body.titre.Some? && body.titre.value != ""
    ensures body.questions.None? ==> !WellFormed(body)
  {
    Truthy(body.id) && Truthy(body.titre) && body.questions.Some?
  }

  /** The quiz `createQuiz` stores: stamped with the creation time and with its
      author under `auteurId` only. */
  function NewQuiz(body: CreateBody, me: User, now: string): (q: Quiz)
    requires WellFormed(body)
    ensures q.id == body.id.value && q.titre == body.titre.value && q.questions == body.questions.value
    ensures q.faita == now && q.categorie.None? && q.image.None?
    ensures q.auteurId == Some(me.id)
    ensures q.ownerId.None? && q.createdBy.None? && q.userId.None? && q.auteurid.None?
  {
    Quiz(body.id.value, body.titre.value, body.questions.value, now,
         None, None, Some(me.id), None, None, None, None)
  }

  /** `createQuiz`: 400 for a malformed body (before anything else), 401 with
      no user, 409 for an id already taken; otherwise the new quiz goes at the
      end of the list and nothing else changes. `now` is the ISO timestamp. */
  method CreateQuiz(store: QuizStore, body: CreateBody, me: Option<User>, now: string)
    returns (reply: CreateReply)
    modifies store
    ensures !WellFormed(body) ==> reply == CreateFailed(400) && store.quizzes == old(store.quizzes)
    ensures WellFormed(body) && me.None? ==>
      reply == CreateFailed(401) && store.quizzes == old(store.quizzes)
    ensures WellFormed(body) && me.Some? && QuizIndex(old(store.quizzes), body.id.value) != -1 ==>
      reply == CreateFailed(409) && store.quizzes == old(store.quizzes)
    ensures WellFormed(body) && me.Some? && QuizIndex(old(store.quizzes), body.id.value) == -1 ==>
      reply == Created(NewQuiz(body, me.value, now)) &&
      store.quizzes == old(store.quizzes) + [NewQuiz(body, me.value, now)]
  {
    if !WellFormed(body) {
      return CreateFailed(400);
    }
    if me.None? {
      return CreateFailed(401);
    }
    var quizzes := store.quizzes;
    if QuizIndex(quizzes, body.id.value) != -1 {
      return CreateFailed(409);
    }
    var newQuiz := NewQuiz(body, me.value, now);
    quizzes := quizzes + [newQuiz];
    store.quizzes := quizzes;
    reply := Created(newQuiz);
  }

  /** Listing after a successful creation: the old listing followed by one
      entry that names the creator as author. */
  lemma ListAfterCreate(quizzes: seq<Quiz>, body: CreateBody, me: User, now: string)
    requires WellFormed(body)
    ensures ListQuizzes(quizzes + [NewQuiz(body, me, now)]) ==
            ListQuizzes(quizzes) + [QuizTitle(body.id.value, body.titre.value, Some(me.id))]
  {
  }

  // ---------------------------------------------------------------------------
  // getQuizById

  /** A question as shown to someone about to answer: no `correction` field. */
  datatype PublicQuestion = PublicQuestion(id: string, enonce: string, types: TypeQuestion,
                                           choisir: seq<Choix>)

  datatype PublicQuiz = PublicQuiz(id: string, titre: string, questions: seq<PublicQuestion>)

  datatype QuizView = QuizNotFound | QuizFound(quiz: PublicQuiz)

  /** A public question with a correction put back. */
  function WithCorrection(p: PublicQuestion, correction: seq<string>): Question {
    Question(p.id, p.enonce, p.types, p.choisir, correction)
  }

  /** A question stripped of its correction: putting the correction back gives
      the question again, so nothing but the correction is dropped. */
  function Uncorrected(q: Question): (p: PublicQuestion)
    ensures WithCorrection(p, q.correction) == q
  {
    PublicQuestion(q.id, q.enonce, q.types, q.choisir)
  }

  /** `quizSansCorrection`: id, title and every question in order, without corrections. */
  function PublicView(quiz: Quiz): (v: PublicQuiz)
    ensures v.id == quiz.id && v.titre == quiz.titre
    ensures |v.questions| == |quiz.questions|
    ensures forall i :: 0 <= i < |quiz.questions| ==>
      WithCorrection(v.questions[i], quiz.questions[i].correction) == quiz.questions[i]
  {
    PublicQuiz(quiz.id, quiz.titre,
      seq(|quiz.questions|, i requires 0 <= i < |quiz.questions| => Uncorrected(quiz.questions[i])))
  }

  /** `getQuizById`: 404 for an unknown id, otherwise the first quiz with the
      id, without its corrections. */
  function GetQuizById(quizzes: seq<Quiz>, id: string): (r: QuizView)
    ensures r == QuizNotFound <==> forall j :: 0 <= j < |quizzes| ==> quizzes[j].id != id
    ensures r.QuizFound? ==>
      0 <= QuizIndex(quizzes, id) && r.quiz == PublicView(quizzes[QuizIndex(quizzes, id)])
  {
    var k := QuizIndex(quizzes, id);
    if k < 0 then QuizNotFound else QuizFound(PublicView(quizzes[k]))
  }

  /** Two questions that differ at most in their corrections. */
  predicate SameButCorrection(a: Question, b: Question) {
    a.(correction := b.correction) == b
  }

  /** Two quiz lists that differ at most in the corrections of their questions. */
  predicate SameButCorrections(a: seq<Quiz>, b: seq<Quiz>) {
    |a| == |b| &&
    forall i :: 0 <= i < |a| ==>
      a[i].id == b[i].id && a[i].titre == b[i].titre &&
      |a[i].questions| == |b[i].questions| &&
      forall j :: 0 <= j < |a[i].questions| ==> SameButCorrection(a[i].questions[j], b[i].questions[j])
  }

  /** What `getQuizById` answers does not depend on any correction: changing
      the corrections in the store leaves every answer the same. */
  lemma ViewHidesCorrections(a: seq<Quiz>, b: seq<Quiz>, id: string)
    requires SameButCorrections(a, b)
    ensures GetQuizById(a, id) == GetQuizById(b, id)
  {
  }

  // ---------------------------------------------------------------------------
  // deleteQuiz

  /** `deleteQuiz`: searches the list front to back; 404 and no change when no
      quiz has the id, otherwise the first such quiz is spliced out and the
      others keep their order. No ownership is checked. */
  method DeleteQuiz(store: QuizStore, id: string) returns (code: int)
    modifies store
    ensures QuizIndex(old(store.quizzes), id) == -1 ==>
      code == 404 && store.quizzes == old(store.quizzes)
    ensures 0 <= QuizIndex(old(store.quizzes), id) ==>
      var k := QuizIndex(old(store.quizzes), id);
      code == 200 && store.quizzes == old(store.quizzes)[..k] + old(store.quizzes)[k + 1..]
    ensures code == 200 ==> |store.quizzes| == |old(store.quizzes)| - 1
  {
    var quizzes := store.quizzes;
    var index := -1;
    var i := 0;
    while i < |quizzes|
      invariant 0 <= i <= |quizzes|
      invariant forall j :: 0 <= j < i ==> quizzes[j].id != id
    {
      if quizzes[i].id == id {
        index := i;
        break;
      }
      i := i + 1;
    }
    if index == -1 {
      return 404;
    }
    quizzes := quizzes[..index] + quizzes[index + 1..];
    store.quizzes := quizzes;
    code := 200;
  }

  /** Deleting the id a creation just added gives back the list as it was. */
  lemma DeleteUndoesCreate(quizzes: seq<Quiz>, q: Quiz)
    requires QuizIndex(quizzes, q.id) == -1
    ensures QuizIndex(quizzes + [q], q.id) == |quizzes|
    ensures var k := |quizzes|; (quizzes + [q])[..k] + (quizzes + [q])[k + 1..] == quizzes
  {
    var s := quizzes + [q];
    assert s[|quizzes|] == q;
    forall j | 0 <= j < |quizzes| ensures s[j].id != q.id {
      assert s[j] == quizzes[j];
    }
    assert s[..|quizzes|] == quizzes;
  }
}
