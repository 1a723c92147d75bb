/** The quiz records of `quizz.json` and the list that holds them. */
module QuizModel {
  import opened JsRuntime

  datatype TypeQuestion = Simple | Multiple

  /** One proposed answer of a question. */
  datatype Choix = Choix(id: string, texte: string)

  /** A question with its proposals and the ids of the right ones. */
  datatype Question = Question(id: string, enonce: string, types: TypeQuestion,
                               choisir: seq<Choix>, correction: seq<string>)

  /** A quiz. Its author may sit under several field names; `auteurid` is the
      lower-case spelling older records carry, read only by the listing. */
  datatype Quiz = Quiz(id: string, titre: string, questions: seq<Question>, faita: string,
                       categorie: Option<string>, image: Option<string>,
                       auteurId: Option<string>, ownerId: Option<string>,
                       createdBy: Option<string>, userId: Option<string>,
                       auteurid: Option<string>)

  /** `quizzes.find(q => q.id === id)`, by index. */
  function QuizIndex(quizzes: seq<Quiz>, id: string): (k: int)
    ensures -1 <= k < |quizzes|
    ensures k == -1 <==> forall j :: 0 <= j < |quizzes| ==> quizzes[j].id != id
    ensures 0 <= k ==> quizzes[k].id == id && forall j :: 0 <= j < k ==> quizzes[j].id != id
  {
    FindIndex(quizzes, (q: Quiz) => q.id == id)
  }

  /** The contents of `quizz.json`, as the list each handler reads and writes back. */
  class QuizStore {
    var quizzes: seq<Quiz>

    constructor (file: seq<Quiz>)
      ensures quizzes == file
    {
      quizzes := file;
    }
  }
}
