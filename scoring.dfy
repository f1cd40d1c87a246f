/**
 * `calculateResult` of AssessmentForm.tsx: accumulate the weights of the
 * answered options, pick the top career, attach its profile.
 */
module Scoring {
  import opened Wrappers
  import opened Careers
  import opened Questionnaire

  /** The answers record: question id to chosen option value. */
  type Answers = map<string, string>

  datatype AssessmentResult = AssessmentResult(career: CareerId, info: CareerProfile, scores: ScoreSheet)

  // ---------------------------------------------------------------------------
  // The weighted sum, stated over the question table

  /** The weights one question contributes: those of the option its answer names, if both resolve. */
  function Contribution(q: Question, answers: Answers): ScoreSheet
  {
    if q.id !in answers then Zero()
    else match FindOption(q.options, answers[q.id])
      case None => Zero()
      case Some(o) => o.weight
  }

  /** Sum of the contributions of the questions `qs`. */
  function SumOver(qs: seq<Question>, answers: Answers): ScoreSheet
  {
    if qs == [] then Zero() else Add(Contribution(qs[0], answers), SumOver(qs[1..], answers))
  }

  /** The scores an answer set earns: for each question of the table, the weights of its answered option. */
  function Score(answers: Answers): ScoreSheet
  {
    SumOver(Questions(), answers)
  }

  /** The weights a single answer entry adds, or Zero() when it does not resolve. */
  function EntryWeight(qs: seq<Question>, id: string, value: string): ScoreSheet
  {
    match Resolve(qs, id, value)
    case None => Zero()
    case Some(o) => o.weight
  }

  /** Number of questions in `qs` whose answer resolves to one of their options. */
  function Resolved(qs: seq<Question>, answers: Answers): (n: nat)
    ensures n <= |qs|
  {
    if qs == [] then 0
    else (if Answered(qs[0], answers) then 1 else 0) + Resolved(qs[1..], answers)
  }

  /** The answer for `q` names one of its options. */
  predicate Answered(q: Question, answers: Answers)
  {
    q.id in answers && FindOption(q.options, answers[q.id]).Some?
  }

  // ---------------------------------------------------------------------------
  // Lemmas about the weighted sum

  /** The empty answer set scores 0 for every career. */
  lemma {:induction false} SumOverEmpty(qs: seq<Question>)
    ensures SumOver(qs, map[]) == Zero()
  {
    if qs != [] {
      SumOverEmpty(qs[1..]);
      assert Contribution(qs[0], map[]) == Zero();
      AddZeroLeft(Zero());
    }
  }

  /** An entry whose key is no question id of `qs` changes nothing. */
  lemma {:induction false} SumOverUnknownId(qs: seq<Question>, answers: Answers, id: string, value: string)
    requires forall q :: q in qs ==> q.id != id
    ensures SumOver(qs, answers[id := value]) == SumOver(qs, answers)
  {
    if qs != [] {
      assert qs[0] in qs;
      SumOverUnknownId(qs[1..], answers, id, value);
    }
  }

  /** An entry for another question leaves the contribution of `q` as it was. */
  lemma ContributionOtherId(q: Question, answers: Answers, id: string, value: string)
    requires q.id != id
    ensures Contribution(q, answers[id := value]) == Contribution(q, answers)
  {
  }

  /** The tail of a table with unique ids has unique ids, none equal to the head's. */
  lemma DistinctTail(qs: seq<Question>)
    requires qs != [] && DistinctIds(qs)
    ensures DistinctIds(qs[1..])
    ensures forall q :: q in qs[1..] ==> q.id != qs[0].id
  {
    forall q | q in qs[1..] ensures q.id != qs[0].id {
      var k :| 0 <= k < |qs[1..]| && qs[1..][k] == q;
      assert qs[k + 1] == q;
    }
  }

  /** Adding an entry for a new key adds exactly the weights that entry resolves to. */
  lemma {:induction false} SumOverInsert(qs: seq<Question>, answers: Answers, id: string, value: string)
    requires DistinctIds(qs)
    requires id !in answers
    ensures SumOver(qs, answers[id := value]) == Add(SumOver(qs, answers), EntryWeight(qs, id, value))
  {
    if qs != [] {
      var rest := qs[1..];
      var updated := answers[id := value];
      var w := EntryWeight(qs, id, value);
      DistinctTail(qs);
      if qs[0].id == id {
        SumOverUnknownId(rest, answers, id, value);
        assert Contribution(qs[0], updated) == w;
        assert Contribution(qs[0], answers) == Zero();
      } else {
        SumOverInsert(rest, answers, id, value);
        ContributionOtherId(qs[0], answers, id, value);
        assert w == EntryWeight(rest, id, value);
      }
    }
    SheetExt(SumOver(qs, answers[id := value]), Add(SumOver(qs, answers), EntryWeight(qs, id, value)));
  }

  /** Every career's score is at most 3 per resolved answer. */
  lemma {:induction false} SumOverBound(qs: seq<Question>, answers: Answers)
    requires WeightsBounded(qs)
    ensures forall c :: SumOver(qs, answers).Get(c) <= 3 * Resolved(qs, answers)
  {
    if qs != [] {
      assert WeightsBounded(qs[1..]) by {
        forall i, j | 0 <= i < |qs[1..]| && 0 <= j < |qs[1..][i].options|
          ensures WeightBounded(qs[1..][i].options[j].weight)
        {
          assert qs[1..][i] == qs[i + 1];
        }
      }
      SumOverBound(qs[1..], answers);
      var q := qs[0];
      if Answered(q, answers) {
        var o := FindOption(q.options, answers[q.id]).value;
        var j :| 0 <= j < |q.options| && q.options[j] == o;
        assert WeightBounded(qs[0].options[j].weight);
      }
    }
  }

  /** Scores start at 0: the empty answer set scores 0 everywhere. */
  lemma ScoreEmpty()
    ensures Score(map[]) == Zero()
  {
    SumOverEmpty(Questions());
  }

  /** Adding an answer for a question not yet answered adds exactly that answer's weights. */
  lemma ScoreInsert(answers: Answers, id: string, value: string)
    requires id !in answers
    ensures Score(answers[id := value]) == Add(Score(answers), EntryWeight(Questions(), id, value))
  {
    QuestionsDistinctIds();
    SumOverInsert(Questions(), answers, id, value);
  }

  /** An answer for an unknown question id changes no score, whatever else is in the set. */
  lemma ScoreIgnoresUnknownId(answers: Answers, id: string, value: string)
    requires FindQuestion(Questions(), id).None?
    ensures Score(answers[id := value]) == Score(answers)
  {
    SumOverUnknownId(Questions(), answers, id, value);
  }

  /** A new answer whose value is not among its question's options changes no score. */
  lemma ScoreIgnoresUnknownValue(answers: Answers, id: string, value: string)
    requires id !in answers
    requires Resolve(Questions(), id, value).None?
    ensures Score(answers[id := value]) == Score(answers)
  {
    ScoreInsert(answers, id, value);
    SheetExt(Add(Score(answers), Zero()), Score(answers));
  }

  /** Answering a question not yet answered never lowers any score. */
  lemma ScoreMonotone(answers: Answers, id: string, value: string)
    requires id !in answers
    ensures LessEq(Score(answers), Score(answers[id := value]))
  {
    ScoreInsert(answers, id, value);
  }

  /** Every score is at most 3 times the number of resolved answers, hence at most 12. */
  lemma ScoreBound(answers: Answers)
    ensures Resolved(Questions(), answers) <= 4
    ensures forall c :: Score(answers).Get(c) <= 3 * Resolved(Questions(), answers) <= 12
  {
    QuestionsShape();
    QuestionsWeightsBounded();
    SumOverBound(Questions(), answers);
  }

  // ---------------------------------------------------------------------------
  // The accumulation loops of calculateResult

  /** The inner `forEach` over an option's weight entries: `scores[career] += weight`. */
  method AddWeights(scores: ScoreSheet, weight: ScoreSheet) returns (r: ScoreSheet)
    ensures forall c :: r.Get(c) == scores.Get(c) + weight.Get(c)
  {
    r := scores;
    for i := 0 to |CareerOrder|
      invariant forall j :: 0 <= j < |CareerOrder| ==>
        r.Get(CareerOrder[j]) == scores.Get(CareerOrder[j]) + (if j < i then weight.Get(CareerOrder[j]) else 0)
    {
      var career := CareerOrder[i];
      r := r.Set(career, r.Get(career) + weight.Get(career));
    }
    forall c ensures r.Get(c) == scores.Get(c) + weight.Get(c) {
      assert CareerOrder[Rank(c)] == c;
    }
  }

  /**
   * One answer entry: look the question up by id and the option up by value;
   * if both resolve, add the option's weights, otherwise add nothing.
   */
  method AddEntry(scores: ScoreSheet, questionId: string, answer: string) returns (r: ScoreSheet)
    ensures r == Add(scores, EntryWeight(Questions(), questionId, answer))
  {
    var question := FindQuestion(Questions(), questionId);
    var option := if question.Some? then FindOption(question.value.options, answer) else None;
    if option.Some? {
      r := AddWeights(scores, option.value.weight);
    } else {
      r := scores;
    }
    SheetExt(r, Add(scores, EntryWeight(Questions(), questionId, answer)));
  }

  /** `visited` holds exactly the entries of `answers` outside `pending`. */
  ghost predicate VisitedRest(answers: Answers, visited: Answers, pending: set<string>)
  {
    pending <= answers.Keys &&
    visited.Keys == answers.Keys - pending &&
    forall k :: k in visited ==> visited[k] == answers[k]
  }

  /** Visiting one more pending key keeps `VisitedRest`; with nothing pending, all entries are visited. */
  lemma VisitStep(answers: Answers, visited: Answers, pending: set<string>, k: string)
    requires VisitedRest(answers, visited, pending) && k in pending
    ensures k !in visited
    ensures VisitedRest(answers, visited[k := answers[k]], pending - {k})
  {
  }

  lemma VisitDone(answers: Answers, visited: Answers)
    requires VisitedRest(answers, visited, {})
    ensures visited == answers
  {
  }

  /**
   * The outer `forEach` over the answer entries. The source visits them in
   * insertion order; any order gives the same sums, so the loop takes them
   * in an arbitrary one.
   */
  method CalculateScores(answers: Answers) returns (scores: ScoreSheet)
    ensures scores == Score(answers)
  {
    scores := Zero();
    ghost var visited: Answers := map[];
    ScoreEmpty();
    var pending := answers.Keys;
    while pending != {}
      invariant VisitedRest(answers, visited, pending)
      invariant scores == Score(visited)
      decreases pending
    {
      var questionId :| questionId in pending;
      var answer := answers[questionId];
      VisitStep(answers, visited, pending, questionId);
      ScoreInsert(visited, questionId, answer);
      scores := AddEntry(scores, questionId, answer);
      visited := visited[questionId := answer];
      pending := pending - {questionId};
    }
    VisitDone(answers, visited);
  }

  // ---------------------------------------------------------------------------
  // The argmax `reduce` and the packaged result

  /** Careers listed with strictly increasing rank. */
  predicate RankIncreasing(cs: seq<CareerId>)
  {
    forall i, j :: 0 <= i < j < |cs| ==> Rank(cs[i]) < Rank(cs[j])
  }

  /**
   * `entries.reduce((a, b) => scores[a] > scores[b] ? a : b)` from accumulator
   * `acc` over `rest`: a later career replaces the accumulator unless the
   * accumulator scores strictly more, so the fold ends on the last maximum.
   */
  function Pick(s: ScoreSheet, acc: CareerId, rest: seq<CareerId>): (r: CareerId)
    requires RankIncreasing([acc] + rest)
    ensures r == acc || r in rest
    ensures s.Get(acc) <= s.Get(r)
    ensures forall c :: c in rest ==> s.Get(c) <= s.Get(r)
    ensures forall c :: (c == acc || c in rest) && Rank(r) < Rank(c) ==> s.Get(c) < s.Get(r)
    decreases |rest|
  {
    if rest == [] then acc
    else
      assert RankIncreasing([rest[0]] + rest[1..]) by {
        assert [rest[0]] + rest[1..] == rest;
        forall i, j | 0 <= i < j < |rest| ensures Rank(rest[i]) < Rank(rest[j]) {
          assert ([acc] + rest)[i + 1] == rest[i] && ([acc] + rest)[j + 1] == rest[j];
        }
      }
      assert Rank(acc) < Rank(rest[0]) by {
        assert ([acc] + rest)[0] == acc && ([acc] + rest)[1] == rest[0];
      }
      assert RankIncreasing([acc] + rest[1..]) by {
        forall i, j | 0 <= i < j < |rest[1..]| + 1 ensures Rank(([acc] + rest[1..])[i]) < Rank(([acc] + rest[1..])[j]) {
          if i == 0 {
            assert ([acc] + rest)[j + 1] == ([acc] + rest[1..])[j];
          } else {
            assert ([acc] + rest)[i + 1] == ([acc] + rest[1..])[i];
            assert ([acc] + rest)[j + 1] == ([acc] + rest[1..])[j];
          }
        }
      }
      var next := if s.Get(acc) > s.Get(rest[0]) then acc else rest[0];
      assert next == acc ==> RankIncreasing([next] + rest[1..]);
      Pick(s, next, rest[1..])
  }

  /**
   * `topCareer`: the reduce over the score entries in key order. The winner
   * scores at least as much as every career, and strictly more than every
   * career after it: it is the last career with the maximum score.
   */
  function TopCareer(s: ScoreSheet): (r: CareerId)
    ensures forall c :: s.Get(c) <= s.Get(r)
    ensures forall c :: Rank(r) < Rank(c) ==> s.Get(c) < s.Get(r)
  {
    assert RankIncreasing([CareerOrder[0]] + CareerOrder[1..]) by {
      assert [CareerOrder[0]] + CareerOrder[1..] == CareerOrder;
    }
    var r := Pick(s, CareerOrder[0], CareerOrder[1..]);
    assert forall c :: c == CareerOrder[0] || c in CareerOrder[1..] by {
      forall c ensures c == CareerOrder[0] || c in CareerOrder[1..] {
        if Rank(c) > 0 { assert CareerOrder[1..][Rank(c) - 1] == c; }
      }
    }
    r
  }

  /** The result handed to `onComplete`. */
  method CalculateResult(answers: Answers) returns (result: AssessmentResult)
    ensures result.scores == Score(answers)
    ensures result.career == TopCareer(result.scores)
    ensures result.info == CareerInfo(result.career)
  {
    var scores := CalculateScores(answers);
    var topCareer := TopCareer(scores);
    result := AssessmentResult(topCareer, CareerInfo(topCareer), scores);
  }

  /** When every career ties, the tie-break makes the last career win. */
  lemma TiePicksPromptEngineer(s: ScoreSheet)
    requires forall c :: s.Get(c) == s.Get(Researcher)
    ensures TopCareer(s) == PromptEngineer
  {
    var r := TopCareer(s);
    assert !(s.Get(PromptEngineer) < s.Get(r));
  }

  /** With no answers every score is 0, so the last career wins. */
  lemma EmptyAnswersPickPromptEngineer()
    ensures Score(map[]) == Zero()
    ensures TopCareer(Score(map[])) == PromptEngineer
  {
    ScoreEmpty();
    TiePicksPromptEngineer(Zero());
  }

  // ---------------------------------------------------------------------------
  // Worked examples, computed from the table

  lemma SumOverCons(q: Question, rest: seq<Question>, answers: Answers)
    ensures SumOver([q] + rest, answers) == Add(Contribution(q, answers), SumOver(rest, answers))
  {
    assert ([q] + rest)[1..] == rest;
  }

  lemma SumOverSingle(q: Question, answers: Answers)
    ensures SumOver([q], answers) == Contribution(q, answers)
  {
    assert [q][1..] == [];
    assert SumOver([q], answers) == Add(Contribution(q, answers), Zero());
    SheetExt(SumOver([q], answers), Contribution(q, answers));
  }

  /** The score of an answer set, written out as the four questions' contributions. */
  lemma ScoreUnfold(answers: Answers)
    ensures Score(answers) ==
      Add(Contribution(Interests(), answers),
        Add(Contribution(Programming(), answers),
          Add(Contribution(Thinking(), answers), Contribution(Curiosity(), answers))))
  {
    QuestionsAsCons();
    SumOverCons(Interests(), [Programming()] + ([Thinking()] + [Curiosity()]), answers);
    SumOverCons(Programming(), [Thinking()] + [Curiosity()], answers);
    SumOverCons(Thinking(), [Curiosity()], answers);
    SumOverSingle(Curiosity(), answers);
  }

  /** `find` returns the first option whose value matches. */
  lemma {:induction false} FindOptionAt(os: seq<AnswerOption>, value: string, j: nat)
    requires j < |os| && os[j].value == value
    requires forall i :: 0 <= i < j ==> os[i].value != value
    ensures FindOption(os, value) == Some(os[j])
  {
    if j > 0 {
      assert os[0].value != value;
      FindOptionAt(os[1..], value, j - 1);
    }
  }

  /** A question answered with its `j`-th option contributes that option's weights. */
  lemma ContributionOf(q: Question, answers: Answers, j: nat)
    requires DistinctValues(q.options)
    requires q.id in answers && j < |q.options| && q.options[j].value == answers[q.id]
    ensures Contribution(q, answers) == q.options[j].weight
  {
    FindOptionAt(q.options, answers[q.id], j);
  }

  /** An unanswered question contributes nothing. */
  lemma ContributionUnanswered(q: Question, answers: Answers)
    requires q.id !in answers
    ensures Contribution(q, answers) == Zero()
  {
  }

  /** The score, field by field, from the four questions' contributions. */
  lemma ScoreOfContributions(answers: Answers, a: ScoreSheet, b: ScoreSheet, c: ScoreSheet, d: ScoreSheet)
    requires Contribution(Interests(), answers) == a
    requires Contribution(Programming(), answers) == b
    requires Contribution(Thinking(), answers) == c
    requires Contribution(Curiosity(), answers) == d
    ensures Score(answers) == ScoreSheet(
      a.researcher + (b.researcher + (c.researcher + d.researcher)),
      a.dataScientist + (b.dataScientist + (c.dataScientist + d.dataScientist)),
      a.nlpEngineer + (b.nlpEngineer + (c.nlpEngineer + d.nlpEngineer)),
      a.promptEngineer + (b.promptEngineer + (c.promptEngineer + d.promptEngineer)))
  {
    ScoreUnfold(answers);
    AddFour(a, b, c, d);
  }

  /** The four contributions of the theory-minded answers. */
  lemma TheoryContributions(answers: Answers)
    requires "interests" in answers && answers["interests"] == "research"
    requires "programming" in answers && answers["programming"] == "expert"
    requires "thinking" in answers && answers["thinking"] == "theoretical"
    requires "curiosity" in answers && answers["curiosity"] == "understand"
    ensures Contribution(Interests(), answers) == ScoreSheet(3, 1, 1, 0)
    ensures Contribution(Programming(), answers) == ScoreSheet(3, 2, 3, 0)
    ensures Contribution(Thinking(), answers) == ScoreSheet(3, 2, 1, 0)
    ensures Contribution(Curiosity(), answers) == ScoreSheet(3, 1, 1, 0)
  {
    OptionsDistinct();
    ContributionOf(Interests(), answers, 0);
    ContributionOf(Programming(), answers, 3);
    ContributionOf(Thinking(), answers, 0);
    ContributionOf(Curiosity(), answers, 0);
  }

  /** Theory-minded answers score 12, 6, 6, 0, whatever other keys the record holds. */
  lemma ScenarioTheoryScores(answers: Answers)
    requires "interests" in answers && answers["interests"] == "research"
    requires "programming" in answers && answers["programming"] == "expert"
    requires "thinking" in answers && answers["thinking"] == "theoretical"
    requires "curiosity" in answers && answers["curiosity"] == "understand"
    ensures Score(answers) == ScoreSheet(12, 6, 6, 0)
  {
    TheoryContributions(answers);
    ScoreOfContributions(answers, ScoreSheet(3, 1, 1, 0), ScoreSheet(3, 2, 3, 0),
                         ScoreSheet(3, 2, 1, 0), ScoreSheet(3, 1, 1, 0));
  }

  /** The four contributions of the application-minded answers. */
  lemma ApplicationsContributions(answers: Answers)
    requires "interests" in answers && answers["interests"] == "applications"
    requires "programming" in answers && answers["programming"] == "beginner"
    requires "thinking" in answers && answers["thinking"] == "creative"
    requires "curiosity" in answers && answers["curiosity"] == "solve"
    ensures Contribution(Interests(), answers) == ScoreSheet(0, 2, 2, 3)
    ensures Contribution(Programming(), answers) == ScoreSheet(0, 1, 0, 3)
    ensures Contribution(Thinking(), answers) == ScoreSheet(0, 1, 1, 3)
    ensures Contribution(Curiosity(), answers) == ScoreSheet(0, 2, 2, 3)
  {
    OptionsDistinct();
    ContributionOf(Interests(), answers, 3);
    ContributionOf(Programming(), answers, 0);
    ContributionOf(Thinking(), answers, 3);
    ContributionOf(Curiosity(), answers, 3);
  }

  /** Application-minded answers score 0, 6, 5, 12, whatever other keys the record holds. */
  lemma ScenarioApplicationsScores(answers: Answers)
    requires "interests" in answers && answers["interests"] == "applications"
    requires "programming" in answers && answers["programming"] == "beginner"
    requires "thinking" in answers && answers["thinking"] == "creative"
    requires "curiosity" in answers && answers["curiosity"] == "solve"
    ensures Score(answers) == ScoreSheet(0, 6, 5, 12)
  {
    ApplicationsContributions(answers);
    ScoreOfContributions(answers, ScoreSheet(0, 2, 2, 3), ScoreSheet(0, 1, 0, 3),
                         ScoreSheet(0, 1, 1, 3), ScoreSheet(0, 2, 2, 3));
  }

  /** The four contributions when only `interests: data` is answered. */
  lemma DataOnlyContributions(answers: Answers)
    requires "interests" in answers && answers["interests"] == "data"
    requires "programming" !in answers && "thinking" !in answers && "curiosity" !in answers
    ensures Contribution(Interests(), answers) == ScoreSheet(1, 3, 1, 1)
    ensures Contribution(Programming(), answers) == Zero()
    ensures Contribution(Thinking(), answers) == Zero()
    ensures Contribution(Curiosity(), answers) == Zero()
  {
    OptionsDistinct();
    ContributionOf(Interests(), answers, 1);
    ContributionUnanswered(Programming(), answers);
    ContributionUnanswered(Thinking(), answers);
    ContributionUnanswered(Curiosity(), answers);
  }

  /** With `interests: data` and the other three questions unanswered, the scores are 1, 3, 1, 1. */
  lemma ScenarioDataOnlyScores(answers: Answers)
    requires "interests" in answers && answers["interests"] == "data"
    requires "programming" !in answers && "thinking" !in answers && "curiosity" !in answers
    ensures Score(answers) == ScoreSheet(1, 3, 1, 1)
  {
    DataOnlyContributions(answers);
    ScoreOfContributions(answers, ScoreSheet(1, 3, 1, 1), Zero(), Zero(), Zero());
  }

  /** The winners of the three worked examples. */
  lemma ScenarioWinners()
    ensures TopCareer(ScoreSheet(12, 6, 6, 0)) == Researcher
    ensures TopCareer(ScoreSheet(0, 6, 5, 12)) == PromptEngineer
    ensures TopCareer(ScoreSheet(1, 3, 1, 1)) == DataScientist
  {
    assert ScoreSheet(12, 6, 6, 0).Get(Researcher) == 12;
    assert ScoreSheet(0, 6, 5, 12).Get(PromptEngineer) == 12;
    assert ScoreSheet(1, 3, 1, 1).Get(DataScientist) == 3;
  }
}
