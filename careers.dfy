/**
 * The four career archetypes, the per-career score record, and the fixed
 * career profile table (`careerInfo` in AssessmentForm.tsx).
 */
module Careers {

  datatype CareerId = Researcher | DataScientist | NlpEngineer | PromptEngineer

  /** The key order of the score record; `Object.entries` visits the keys in this order. */
  const CareerOrder: seq<CareerId> := [Researcher, DataScientist, NlpEngineer, PromptEngineer]

  /** Position of a career in CareerOrder. */
  function Rank(c: CareerId): (n: nat)
    ensures n < |CareerOrder| && CareerOrder[n] == c
  {
    match c
    case Researcher => 0
    case DataScientist => 1
    case NlpEngineer => 2
    case PromptEngineer => 3
  }

  /**
   * One non-negative integer per career. Used both for an option's weights
   * and for the accumulated scores.
   */
  datatype ScoreSheet = ScoreSheet(researcher: nat, dataScientist: nat, nlpEngineer: nat, promptEngineer: nat)
  {
    function Get(c: CareerId): nat
    {
      match c
      case Researcher => researcher
      case DataScientist => dataScientist
      case NlpEngineer => nlpEngineer
      case PromptEngineer => promptEngineer
    }

    /** The record with the entry for `c` replaced (`scores[career] = v`). */
    function Set(c: CareerId, v: nat): (r: ScoreSheet)
      ensures r.Get(c) == v
      ensures forall d :: d != c ==> r.Get(d) == Get(d)
    {
      match c
      case Researcher => this.(researcher := v)
      case DataScientist => this.(dataScientist := v)
      case NlpEngineer => this.(nlpEngineer := v)
      case PromptEngineer => this.(promptEngineer := v)
    }
  }

  /** The initial score record: every career at 0. */
  function Zero(): (z: ScoreSheet)
    ensures forall c :: z.Get(c) == 0
  {
    ScoreSheet(0, 0, 0, 0)
  }

  /** Career-wise sum of two records. */
  function Add(a: ScoreSheet, b: ScoreSheet): (r: ScoreSheet)
    ensures forall c :: r.Get(c) == a.Get(c) + b.Get(c)
  {
    ScoreSheet(a.researcher + b.researcher, a.dataScientist + b.dataScientist,
               a.nlpEngineer + b.nlpEngineer, a.promptEngineer + b.promptEngineer)
  }

  /** Adding nothing changes nothing. */
  lemma AddZeroLeft(a: ScoreSheet)
    ensures Add(Zero(), a) == a
  {
  }

  /** A nested sum of four records, field by field. */
  lemma AddFour(a: ScoreSheet, b: ScoreSheet, c: ScoreSheet, d: ScoreSheet)
    ensures Add(a, Add(b, Add(c, d))) == ScoreSheet(
      a.researcher + (b.researcher + (c.researcher + d.researcher)),
      a.dataScientist + (b.dataScientist + (c.dataScientist + d.dataScientist)),
      a.nlpEngineer + (b.nlpEngineer + (c.nlpEngineer + d.nlpEngineer)),
      a.promptEngineer + (b.promptEngineer + (c.promptEngineer + d.promptEngineer)))
  {
  }

  /** Career-wise order on records. */
  predicate LessEq(a: ScoreSheet, b: ScoreSheet)
  {
    forall c :: a.Get(c) <= b.Get(c)
  }

  /** Two records that agree on every career are equal. */
  lemma SheetExt(a: ScoreSheet, b: ScoreSheet)
    requires forall c :: a.Get(c) == b.Get(c)
    ensures a == b
  {
    assert a.Get(Researcher) == b.Get(Researcher);
    assert a.Get(DataScientist) == b.Get(DataScientist);
    assert a.Get(NlpEngineer) == b.Get(NlpEngineer);
    assert a.Get(PromptEngineer) == b.Get(PromptEngineer);
  }

  datatype CareerProfile = CareerProfile(title: string, description: string, skills: seq<string>, nextSteps: seq<string>)

  // The descriptive text of the profiles, kept in constants so that proofs
  // about titles do not unfold it.

  const ResearcherDescription: string :=
    "You're driven by fundamental questions about intelligence and learning. You enjoy diving deep into mathematical models and contributing to the theoretical foundations of AI."
  const ResearcherSkills: seq<string> :=
    ["Advanced Mathematics", "Research Methodology", "Deep Learning", "Academic Writing"]
  const ResearcherNextSteps: seq<string> :=
    ["Pursue a PhD in AI/ML", "Read research papers daily", "Contribute to open source research", "Attend academic conferences"]

  const DataScientistDescription: string :=
    "You excel at finding meaningful patterns in complex datasets. You love turning messy data into actionable insights that drive business decisions."
  const DataScientistSkills: seq<string> :=
    ["Statistics", "Python/R", "Data Visualization", "Machine Learning"]
  const DataScientistNextSteps: seq<string> :=
    ["Master pandas and scikit-learn", "Build a portfolio of data projects", "Learn business domain knowledge", "Practice on Kaggle competitions"]

  const NlpEngineerDescription: string :=
    "You're fascinated by language and communication. You want to build systems that can understand, process, and generate human language naturally."
  const NlpEngineerSkills: seq<string> :=
    ["Natural Language Processing", "Deep Learning", "Linguistics", "Software Engineering"]
  const NlpEngineerNextSteps: seq<string> :=
    ["Study transformer architectures", "Build chatbots or text analyzers", "Learn about language models", "Contribute to NLP libraries"]

  const PromptEngineerDescription: string :=
    "You're creative and experimental, great at finding innovative ways to get AI to solve problems. You excel at understanding how to communicate effectively with AI systems."
  const PromptEngineerSkills: seq<string> :=
    ["Prompt Design", "AI Model Understanding", "Creative Problem Solving", "User Experience"]
  const PromptEngineerNextSteps: seq<string> :=
    ["Experiment with different AI models", "Build prompt libraries", "Learn about AI limitations", "Create AI-powered applications"]

  /** The profile shown for each career (`careerInfo`). */
  function CareerInfo(c: CareerId): (p: CareerProfile)
    ensures |p.skills| == 4 && |p.nextSteps| == 4
  {
    match c
    case Researcher => CareerProfile("AI Researcher", ResearcherDescription, ResearcherSkills, ResearcherNextSteps)
    case DataScientist => CareerProfile("Data Scientist", DataScientistDescription, DataScientistSkills, DataScientistNextSteps)
    case NlpEngineer => CareerProfile("NLP Engineer", NlpEngineerDescription, NlpEngineerSkills, NlpEngineerNextSteps)
    case PromptEngineer => CareerProfile("Prompt Engineer", PromptEngineerDescription, PromptEngineerSkills, PromptEngineerNextSteps)
  }

  /** Distinct careers get distinct titles, so a title identifies its career. */
  lemma TitlesDistinct(c: CareerId, d: CareerId)
    requires c != d
    ensures CareerInfo(c).title != CareerInfo(d).title
  {
  }
}
