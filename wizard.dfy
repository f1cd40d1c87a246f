/**
 * The question-by-question wizard of AssessmentForm.tsx: the index of the
 * question on screen and the answers record, changed by `handleAnswer`,
 * `nextQuestion` and `prevQuestion`.
 */
module AssessmentWizard {
  import opened Wrappers
  import opened Careers
  import opened Questionnaire
  import opened Scoring

  class Wizard {
    /** Index of the question on screen (`currentQuestion`). */
    var currentQuestion: nat
    /** The answers given so far (`answers`). */
    var answers: Answers

    /** The index always names a question of the table. */
    ghost predicate Valid()
      reads this
    {
      currentQuestion < |Questions()|
    }

    /**
     * Every question before the one on screen has an entry. The disabled Next
     * button keeps this true: the user only moves past a question they answered.
     */
    ghost predicate AnsweredBefore()
      reads this
    {
      forall j :: 0 <= j < currentQuestion && j < |Questions()| ==> Questions()[j].id in answers
    }

    /** A fresh form: first question, no answers. */
    constructor ()
      ensures Valid() && AnsweredBefore()
      ensures currentQuestion == 0 && answers == map[]
    {
      currentQuestion := 0;
      answers := map[];
    }

    /** Id of the question on screen (`questions[currentQuestion].id`); no other question of the table has it. */
    function CurrentId(): (id: string)
      reads this
      requires Valid()
      ensures forall j :: 0 <= j < |Questions()| && Questions()[j].id == id ==> j == currentQuestion
    {
      QuestionsDistinctIds();
      Questions()[currentQuestion].id
    }

    /** Looking the current id up in the table finds the question on screen. */
    lemma CurrentIdFindsQuestion()
      requires Valid()
      ensures FindQuestion(Questions(), CurrentId()) == Some(Questions()[currentQuestion])
    {
      QuestionsDistinctIds();
      FindQuestionAt(Questions(), currentQuestion);
    }

    /**
     * `canProceed`: the entry for the question on screen exists and is truthy,
     * i.e. not "". Without an entry Next stays disabled.
     */
    function CanProceed(): (ok: bool)
      reads this
      requires Valid()
      ensures ok ==> Questions()[currentQuestion].id in answers
    {
      CurrentId() in answers && answers[CurrentId()] != ""
    }

    /** Choosing any option of the question on screen enables Next. */
    lemma ChoosingEnablesNext()
      requires Valid()
      ensures Answered(Questions()[currentQuestion], answers) ==> CanProceed()
    {
      QuestionsValuesNonEmpty();
    }

    /** `handleAnswer`: record `value` for the question on screen, leaving every other entry as it was. */
    method HandleAnswer(value: string)
      requires Valid()
      modifies this
      ensures Valid() && currentQuestion == old(currentQuestion)
      ensures answers == old(answers)[old(CurrentId()) := value]
      ensures CurrentId() in answers && answers[CurrentId()] == value
      ensures forall k :: k != CurrentId() ==>
        (k in answers <==> k in old(answers)) && (k in answers ==> answers[k] == old(answers)[k])
      ensures old(AnsweredBefore()) ==> AnsweredBefore()
    {
      answers := answers[CurrentId() := value];
    }

    /**
     * `nextQuestion`: move on while a later question exists; on the last
     * question compute the result instead, which the form hands to `onComplete`.
     */
    method NextQuestion() returns (completed: Option<AssessmentResult>)
      requires Valid()
      modifies this
      ensures Valid() && answers == old(answers)
      ensures old(currentQuestion) < |Questions()| - 1 ==>
        currentQuestion == old(currentQuestion) + 1 && completed == None
      ensures old(currentQuestion) == |Questions()| - 1 ==>
        currentQuestion == old(currentQuestion) && completed.Some?
      ensures completed.Some? ==>
        && completed.value.scores == Score(answers)
        && completed.value.career == TopCareer(completed.value.scores)
        && completed.value.info == CareerInfo(completed.value.career)
    {
      if currentQuestion < |Questions()| - 1 {
        currentQuestion := currentQuestion + 1;
        completed := None;
      } else {
        var result := CalculateResult(answers);
        completed := Some(result);
      }
    }

    /** `prevQuestion`: step back unless already on the first question. */
    method PrevQuestion()
      requires Valid()
      modifies this
      ensures Valid() && answers == old(answers)
      ensures currentQuestion == if old(currentQuestion) > 0 then old(currentQuestion) - 1 else 0
      ensures old(AnsweredBefore()) ==> AnsweredBefore()
    {
      if currentQuestion > 0 {
        currentQuestion := currentQuestion - 1;
      }
    }

    /**
     * The Next / "Get My Results" button: disabled while `canProceed` is
     * false, otherwise `nextQuestion`. Through this button the user completes
     * the form only with every question answered.
     */
    method PressNext() returns (completed: Option<AssessmentResult>)
      requires Valid()
      modifies this
      ensures Valid() && answers == old(answers)
      ensures !old(CanProceed()) ==> currentQuestion == old(currentQuestion) && completed == None
      ensures old(CanProceed()) && old(currentQuestion) < |Questions()| - 1 ==>
        currentQuestion == old(currentQuestion) + 1 && completed == None
      ensures old(CanProceed()) && old(currentQuestion) == |Questions()| - 1 ==>
        currentQuestion == old(currentQuestion) && completed.Some?
      ensures completed.Some? ==>
        && completed.value.scores == Score(answers)
        && completed.value.career == TopCareer(completed.value.scores)
        && completed.value.info == CareerInfo(completed.value.career)
      ensures old(AnsweredBefore()) ==> AnsweredBefore()
      ensures old(AnsweredBefore()) && completed.Some? ==>
        forall q :: q in Questions() ==> q.id in answers
    {
      if CanProceed() {
        completed := NextQuestion();
        if completed.Some? && old(AnsweredBefore()) {
          forall q | q in Questions() ensures q.id in answers {
            var j :| 0 <= j < |Questions()| && Questions()[j] == q;
            assert j < currentQuestion || j == currentQuestion;
          }
        }
      } else {
        completed := None;
      }
    }
  }
}
