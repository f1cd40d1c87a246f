/** The fixed questionnaire (`questions` in AssessmentForm.tsx) and its lookups. */
module Questionnaire {
  import opened Wrappers
  import opened Careers

  /** One answer choice: its value and its weight for every career. */
  datatype AnswerOption = AnswerOption(value: string, weight: ScoreSheet)

  datatype Question = Question(id: string, options: seq<AnswerOption>)

  function Interests(): Question
  {
    Question("interests", [
      AnswerOption("research", ScoreSheet(3, 1, 1, 0)),
      AnswerOption("data", ScoreSheet(1, 3, 1, 1)),
      AnswerOption("language", ScoreSheet(1, 1, 3, 2)),
      AnswerOption("applications", ScoreSheet(0, 2, 2, 3))
    ])
  }

  function Programming(): Question
  {
    Question("programming", [
      AnswerOption("beginner", ScoreSheet(0, 1, 0, 3)),
      AnswerOption("intermediate", ScoreSheet(1, 2, 2, 2)),
      AnswerOption("advanced", ScoreSheet(2, 3, 3, 1)),
      AnswerOption("expert", ScoreSheet(3, 2, 3, 0))
    ])
  }

  function Thinking(): Question
  {
    Question("thinking", [
      AnswerOption("theoretical", ScoreSheet(3, 2, 1, 0)),
      AnswerOption("analytical", ScoreSheet(1, 3, 2, 1)),
      AnswerOption("systematic", ScoreSheet(2, 1, 3, 1)),
      AnswerOption("creative", ScoreSheet(0, 1, 1, 3))
    ])
  }

  function Curiosity(): Question
  {
    Question("curiosity", [
      AnswerOption("understand", ScoreSheet(3, 1, 1, 0)),
      AnswerOption("predict", ScoreSheet(1, 3, 1, 1)),
      AnswerOption("communicate", ScoreSheet(1, 1, 3, 2)),
      AnswerOption("solve", ScoreSheet(0, 2, 2, 3))
    ])
  }

  /** The questions in the order the wizard shows them. */
  function Questions(): seq<Question>
  {
    [Interests(), Programming(), Thinking(), Curiosity()]
  }

  /** No two questions share an id. */
  predicate DistinctIds(qs: seq<Question>)
  {
    forall i, j :: 0 <= i < j < |qs| ==> qs[i].id != qs[j].id
  }

  /** No two options of one question share a value. */
  predicate DistinctValues(os: seq<AnswerOption>)
  {
    forall i, j :: 0 <= i < j < |os| ==> os[i].value != os[j].value
  }

  /** Every weight of every option lies in [0, 3]. */
  predicate WeightsBounded(qs: seq<Question>)
  {
    forall i, j :: 0 <= i < |qs| && 0 <= j < |qs[i].options| ==> WeightBounded(qs[i].options[j].weight)
  }

  /** No option value is the empty string, so a chosen option is always truthy. */
  predicate ValuesNonEmpty(qs: seq<Question>)
  {
    forall i, j :: 0 <= i < |qs| && 0 <= j < |qs[i].options| ==> qs[i].options[j].value != ""
  }

  predicate WeightBounded(w: ScoreSheet)
  {
    forall c :: w.Get(c) <= 3
  }

  /** `questions.find(q => q.id === id)`: the first question with that id, if any. */
  function FindQuestion(qs: seq<Question>, id: string): (r: Option<Question>)
    ensures r.Some? ==> r.value in qs && r.value.id == id
    ensures r.None? ==> forall q :: q in qs ==> q.id != id
  {
    if qs == [] then None
    else if qs[0].id == id then Some(qs[0])
    else FindQuestion(qs[1..], id)
  }

  /** With unique ids, looking up the id of the `j`-th question finds that question. */
  lemma {:induction false} FindQuestionAt(qs: seq<Question>, j: nat)
    requires DistinctIds(qs) && j < |qs|
    ensures FindQuestion(qs, qs[j].id) == Some(qs[j])
  {
    if j > 0 {
      assert qs[0].id != qs[j].id;
      assert DistinctIds(qs[1..]) by {
        forall a, b | 0 <= a < b < |qs[1..]| ensures qs[1..][a].id != qs[1..][b].id {
          assert qs[1..][a] == qs[a + 1] && qs[1..][b] == qs[b + 1];
        }
      }
      FindQuestionAt(qs[1..], j - 1);
      assert qs[1..][j - 1] == qs[j];
    }
  }

  /** `options.find(o => o.value === value)`: the first option with that value, if any. */
  function FindOption(os: seq<AnswerOption>, value: string): (r: Option<AnswerOption>)
    ensures r.Some? ==> r.value in os && r.value.value == value
    ensures r.None? ==> forall o :: o in os ==> o.value != value
  {
    if os == [] then None
    else if os[0].value == value then Some(os[0])
    else FindOption(os[1..], value)
  }

  /**
   * `question?.options.find(...)`: the option an answer names, or None when
   * the question id or the value is unknown.
   */
  function Resolve(qs: seq<Question>, id: string, value: string): (r: Option<AnswerOption>)
    ensures r.Some? ==> exists q :: q in qs && q.id == id && r.value in q.options && r.value.value == value
    ensures DistinctIds(qs) && r.None? ==>
      forall q, o :: q in qs && q.id == id && o in q.options ==> o.value != value
  {
    match FindQuestion(qs, id)
    case None => None
    case Some(q) => FindOption(q.options, value)
  }

  /** The table has four questions, with four options each. */
  lemma QuestionsShape()
    ensures |Questions()| == 4
    ensures forall i :: 0 <= i < |Questions()| ==> |Questions()[i].options| == 4
  {
  }

  /** Question ids are unique. */
  lemma QuestionsDistinctIds()
    ensures DistinctIds(Questions())
  {
  }

  /** Within each question, option values are unique. */
  lemma QuestionsDistinctValues()
    ensures forall i :: 0 <= i < |Questions()| ==> DistinctValues(Questions()[i].options)
  {
    OptionsDistinct();
  }

  /** The same, question by question. */
  lemma OptionsDistinct()
    ensures DistinctValues(Interests().options)
    ensures DistinctValues(Programming().options)
    ensures DistinctValues(Thinking().options)
    ensures DistinctValues(Curiosity().options)
  {
  }

  /** Every weight in the table lies in [0, 3]. */
  lemma QuestionsWeightsBounded()
    ensures WeightsBounded(Questions())
  {
  }

  /** Every option value in the table is non-empty. */
  lemma QuestionsValuesNonEmpty()
    ensures ValuesNonEmpty(Questions())
  {
  }

  /** The table as a chain of single-question sequences, for unfolding sums over it. */
  lemma QuestionsAsCons()
    ensures Questions() == [Interests()] + ([Programming()] + ([Thinking()] + [Curiosity()]))
  {
  }
}
