/** The competency and career catalogs and the weighted compatibility score
    (src/services/career-data.ts). */
module CareerData {
  import opened Wrappers
  import opened Records
  import opened Sequences

  datatype Category = Technical | Behavioral

  /** A catalog skill axis; its description text is not modelled. */
  datatype Competency = Competency(name: string, category: Category)

  /** A career: competency name -> weight, and a suggested learning path. */
  datatype Career = Career(name: string, requiredCompetencies: Record<real>, learningPath: seq<string>)

  /** A user's named self-assessment: competency name -> level (the UI gives 1..5). */
  datatype Profile = Profile(name: string, competencies: Record<int>)

  datatype RiskLevel = Low | Medium | High

  /** One row of a career's task breakdown; the likelihood prose is not modelled. */
  datatype TaskRisk = TaskRisk(task: string, riskLevel: RiskLevel)

  /** Automation-risk table of one career; adaptation-strategy prose is not modelled. */
  datatype AutomationRisk = AutomationRisk(
    level: RiskLevel,
    percentage: int,
    taskBreakdown: seq<TaskRisk>,
    complementarySkills: seq<string>)

  /** `createCareer`: bundles the three parts; the score is `CompatibilityScore`. */
  function CreateCareer(name: string, requiredCompetencies: Record<real>, learningPath: seq<string>): (c: Career)
    ensures c.name == name && c.requiredCompetencies == requiredCompetencies && c.learningPath == learningPath
  {
    Career(name, requiredCompetencies, learningPath)
  }

  // ---------------------------------------------------------------------------
  // Compatibility score

  /** `weights.reduce((a, b) => a + b, 0)` over `Object.values`. */
  function SumWeights(req: Record<real>): real {
    if req == [] then 0.0 else req[0].1 + SumWeights(req[1..])
  }

  /** `competencies[comp] || 0`: the rating, or 0 when the profile has none. */
  function LevelOf(ratings: Record<int>, comp: string): (l: int)
    ensures comp !in Keys(ratings) ==> l == 0
    ensures comp in Keys(ratings) ==> (comp, l) in ratings
  {
    Get(ratings, comp).GetOr(0)
  }

  /** The accumulated `total`: the sum of `(level / 5) * weight`. */
  function WeightedTotal(req: Record<real>, ratings: Record<int>): real {
    if req == [] then 0.0
    else (LevelOf(ratings, req[0].0) as real / 5.0) * req[0].1 + WeightedTotal(req[1..], ratings)
  }

  predicate NonNegativeWeights(req: Record<real>) {
    forall i :: 0 <= i < |req| ==> req[i].1 >= 0.0
  }

  /** Every rating the profile holds lies in [0, 5]. */
  predicate RatingsInRange(ratings: Record<int>) {
    forall i :: 0 <= i < |ratings| ==> 0 <= ratings[i].1 <= 5
  }

  /** `calculateCompatibilityScore`: the weighted mean of the normalised
      levels, as a percentage; 0 for a career whose weights sum to 0. With
      non-negative weights and ratings in [0, 5] it is a percentage. */
  function CompatibilityScore(career: Career, ratings: Record<int>): (score: real)
    ensures SumWeights(career.requiredCompetencies) == 0.0 ==> score == 0.0
    ensures NonNegativeWeights(career.requiredCompetencies) && RatingsInRange(ratings)
            ==> 0.0 <= score <= 100.0
  {
    var req := career.requiredCompetencies;
    var sum := SumWeights(req);
    if sum == 0.0 then 0.0
    else
      var total := WeightedTotal(req, ratings);
      assert NonNegativeWeights(req) && RatingsInRange(ratings) ==> 0.0 <= total / sum <= 1.0 by {
        if NonNegativeWeights(req) && RatingsInRange(ratings) {
          TotalBounded(req, ratings);
          DivisionBounded(total, sum);
        }
      }
      (total / sum) * 100.0
  }

  lemma DivisionBounded(total: real, sum: real)
    requires 0.0 <= total <= sum && sum != 0.0
    ensures 0.0 <= total / sum <= 1.0
  {
    assert sum > 0.0;
    assert total / sum * sum == total;
  }

  lemma ScaledWeightBounded(a: real, w: real)
    requires 0.0 <= a <= 1.0 && w >= 0.0
    ensures 0.0 <= a * w <= w
  {
    assert a * w <= 1.0 * w;
  }

  lemma DivideMonotone(a: real, b: real, d: real)
    requires a <= b && d > 0.0
    ensures a / d <= b / d
  {
    assert a / d == a * (1.0 / d) && b / d == b * (1.0 / d);
    assert 1.0 / d > 0.0;
  }

  lemma DivideSelf(d: real)
    requires d != 0.0
    ensures d / d * 100.0 == 100.0
  {
    assert d * (1.0 / d) == 1.0;
  }

  lemma {:induction false} SumWeightsNonNegative(req: Record<real>)
    requires NonNegativeWeights(req)
    ensures SumWeights(req) >= 0.0
  {
    if req != [] {
      SumWeightsNonNegative(req[1..]);
    }
  }

  lemma LevelInRange(ratings: Record<int>, comp: string)
    requires RatingsInRange(ratings)
    ensures 0 <= LevelOf(ratings, comp) <= 5
  {
    if comp in Keys(ratings) {
      var i :| 0 <= i < |ratings| && ratings[i] == (comp, LevelOf(ratings, comp));
    }
  }

  /** With levels in [0, 5] every term is at most its weight, so the total
      lies between 0 and the weight sum. */
  lemma {:induction false} TotalBounded(req: Record<real>, ratings: Record<int>)
    requires NonNegativeWeights(req) && RatingsInRange(ratings)
    ensures 0.0 <= WeightedTotal(req, ratings) <= SumWeights(req)
  {
    if req != [] {
      var l := LevelOf(ratings, req[0].0);
      LevelInRange(ratings, req[0].0);
      var a := l as real / 5.0;
      assert 0.0 <= a <= 1.0;
      var w := req[0].1;
      assert w >= 0.0;
      var tail := req[1..];
      assert forall i :: 0 <= i < |tail| ==> tail[i] == req[i + 1];
      assert NonNegativeWeights(tail);
      ScaledWeightBounded(a, w);
      TotalBounded(tail, ratings);
      assert WeightedTotal(req, ratings) == a * w + WeightedTotal(tail, ratings);
      assert SumWeights(req) == w + SumWeights(tail);
    }
  }

  /** Two profiles that agree on every required competency get the same total. */
  lemma {:induction false} TotalCongruent(req: Record<real>, r1: Record<int>, r2: Record<int>)
    requires forall i :: 0 <= i < |req| ==> LevelOf(r1, req[i].0) == LevelOf(r2, req[i].0)
    ensures WeightedTotal(req, r1) == WeightedTotal(req, r2)
  {
    if req != [] {
      assert LevelOf(r1, req[0].0) == LevelOf(r2, req[0].0);
      TotalCongruent(req[1..], r1, r2);
    }
  }

  lemma ScaledLevelMonotone(l1: real, l2: real, w: real)
    requires l1 <= l2 && w >= 0.0
    ensures (l1 / 5.0) * w <= (l2 / 5.0) * w
  {
    assert l2 / 5.0 - l1 / 5.0 >= 0.0;
    assert (l2 / 5.0) * w - (l1 / 5.0) * w == (l2 / 5.0 - l1 / 5.0) * w;
  }

  /** Raising levels never lowers the total when weights are non-negative. */
  lemma {:induction false} TotalMonotone(req: Record<real>, r1: Record<int>, r2: Record<int>)
    requires NonNegativeWeights(req)
    requires forall i :: 0 <= i < |req| ==> LevelOf(r1, req[i].0) <= LevelOf(r2, req[i].0)
    ensures WeightedTotal(req, r1) <= WeightedTotal(req, r2)
  {
    if req != [] {
      var tail := req[1..];
      assert forall i :: 0 <= i < |tail| ==> tail[i] == req[i + 1];
      ScaledLevelMonotone(LevelOf(r1, req[0].0) as real, LevelOf(r2, req[0].0) as real, req[0].1);
      TotalMonotone(tail, r1, r2);
    }
  }

  /** The score only looks at required competencies: profiles that agree on
      those score the same, whatever else they rate. */
  lemma ScoreIgnoresOtherRatings(career: Career, r1: Record<int>, r2: Record<int>)
    requires forall c :: c in Keys(career.requiredCompetencies) ==> LevelOf(r1, c) == LevelOf(r2, c)
    ensures CompatibilityScore(career, r1) == CompatibilityScore(career, r2)
  {
    var req := career.requiredCompetencies;
    forall i | 0 <= i < |req| ensures LevelOf(r1, req[i].0) == LevelOf(r2, req[i].0) {
      assert Keys(req)[i] == req[i].0;
    }
    TotalCongruent(req, r1, r2);
  }

  /** A missing rating counts exactly as a rating of 0. */
  lemma MissingRatingCountsAsZero(career: Career, ratings: Record<int>, comp: string)
    requires comp !in Keys(ratings)
    ensures CompatibilityScore(career, ratings) == CompatibilityScore(career, ratings + [(comp, 0)])
  {
    forall c ensures LevelOf(ratings, c) == LevelOf(ratings + [(comp, 0)], c) {
      GetAppend(ratings, comp, 0, c);
    }
    ScoreIgnoresOtherRatings(career, ratings, ratings + [(comp, 0)]);
  }

  /** Raising any rating never lowers the score (non-negative weights). */
  lemma ScoreMonotone(career: Career, r1: Record<int>, r2: Record<int>)
    requires NonNegativeWeights(career.requiredCompetencies)
    requires forall c :: LevelOf(r1, c) <= LevelOf(r2, c)
    ensures CompatibilityScore(career, r1) <= CompatibilityScore(career, r2)
  {
    var req := career.requiredCompetencies;
    var sum := SumWeights(req);
    TotalMonotone(req, r1, r2);
    SumWeightsNonNegative(req);
    if sum != 0.0 {
      var t1 := WeightedTotal(req, r1);
      var t2 := WeightedTotal(req, r2);
      DivideMonotone(t1, t2, sum);
    }
  }

  lemma {:induction false} TotalAllFive(req: Record<real>, ratings: Record<int>)
    requires forall i :: 0 <= i < |req| ==> LevelOf(ratings, req[i].0) == 5
    ensures WeightedTotal(req, ratings) == SumWeights(req)
  {
    if req != [] {
      TotalAllFive(req[1..], ratings);
    }
  }

  /** Every required competency at level 5 is a perfect match. */
  lemma ScoreAllFive(career: Career, ratings: Record<int>)
    requires SumWeights(career.requiredCompetencies) != 0.0
    requires forall c :: c in Keys(career.requiredCompetencies) ==> LevelOf(ratings, c) == 5
    ensures CompatibilityScore(career, ratings) == 100.0
  {
    var req := career.requiredCompetencies;
    forall i | 0 <= i < |req| ensures LevelOf(ratings, req[i].0) == 5 {
      assert Keys(req)[i] == req[i].0;
    }
    TotalAllFive(req, ratings);
    DivideSelf(SumWeights(req));
  }

  lemma {:induction false} TotalEmptyProfile(req: Record<real>)
    ensures WeightedTotal(req, []) == 0.0
  {
    if req != [] {
      TotalEmptyProfile(req[1..]);
    }
  }

  /** A profile that rates nothing matches no career at all. */
  lemma ScoreEmptyProfile(career: Career)
    ensures CompatibilityScore(career, []) == 0.0
  {
    TotalEmptyProfile(career.requiredCompetencies);
  }

  // ---------------------------------------------------------------------------
  // Static catalogs

  const DefaultCompetencies: seq<Competency> := [
    Competency("Programming Logic", Technical),
    Competency("Creativity", Behavioral),
    Competency("Collaboration", Behavioral),
    Competency("Adaptability", Behavioral),
    Competency("Analytical Thinking", Technical),
    Competency("Artificial Intelligence", Technical),
    Competency("Communication", Behavioral),
    Competency("Problem Solving", Behavioral),
    Competency("Curiosity", Behavioral),
    Competency("Leadership", Behavioral)
  ]

  /** The catalog's competency names, in declaration order. */
  function CompetencyNames(): (names: seq<string>)
    ensures |names| == |DefaultCompetencies|
    ensures forall i :: 0 <= i < |names| ==> names[i] == DefaultCompetencies[i].name
  {
    seq(|DefaultCompetencies|, i requires 0 <= i < |DefaultCompetencies| => DefaultCompetencies[i].name)
  }

  const CompetencyLearningPaths: Record<seq<string>> := [
    ("Programming Logic", ["Introductory logic course on Codecademy",
                           "Solve challenges on platforms like HackerRank or LeetCode"]),
    ("Creativity", ["Practice brainstorming and design thinking",
                    "Participate in innovation workshops"]),
    ("Collaboration", ["Work on team projects",
                       "Study agile methodologies"]),
    ("Adaptability", ["Take courses on change management",
                      "Exercise flexibility in multidisciplinary projects"]),
    ("Analytical Thinking", ["Learn basic statistics and data analysis",
                             "Practice interpreting dashboards and graphs"]),
    ("Artificial Intelligence", ["Take an introduction to Machine Learning course",
                                 "Explore AI libraries like TensorFlow or PyTorch"]),
    ("Communication", ["Participate in debates and presentations",
                       "Study storytelling techniques"]),
    ("Problem Solving", ["Practice logic and puzzles",
                         "Apply methodologies like Design Thinking"]),
    ("Curiosity", ["Read articles from different areas regularly",
                   "Explore new hobbies and tools"]),
    ("Leadership", ["Take team management courses",
                    "Read biographies of inspiring leaders"])
  ]

  // Weight tables of the default careers, in declaration order.
  const DataScientistWeights: Record<real> :=
    [("Programming Logic", 0.25), ("Analytical Thinking", 0.30), ("Curiosity", 0.10),
     ("Collaboration", 0.10), ("Problem Solving", 0.25)]
  const SoftwareEngineerWeights: Record<real> :=
    [("Programming Logic", 0.30), ("Problem Solving", 0.25), ("Collaboration", 0.15),
     ("Adaptability", 0.15), ("Communication", 0.15)]
  const UxDesignerWeights: Record<real> :=
    [("Creativity", 0.30), ("Communication", 0.20), ("Curiosity", 0.10),
     ("Collaboration", 0.20), ("Adaptability", 0.20)]
  const CybersecuritySpecialistWeights: Record<real> :=
    [("Programming Logic", 0.20), ("Analytical Thinking", 0.30), ("Problem Solving", 0.30),
     ("Adaptability", 0.20)]
  const MachineLearningEngineerWeights: Record<real> :=
    [("Programming Logic", 0.20), ("Artificial Intelligence", 0.40), ("Analytical Thinking", 0.25),
     ("Curiosity", 0.15)]
  const TechEntrepreneurWeights: Record<real> :=
    [("Creativity", 0.30), ("Leadership", 0.30), ("Adaptability", 0.20),
     ("Communication", 0.20)]

  const DataScientistPath: seq<string> :=
    ["Python programming course",
     "Specialization in data science and statistics",
     "Practical data analysis projects"]
  const SoftwareEngineerPath: seq<string> :=
    ["Advanced object-oriented programming course",
     "Practice versioning with Git and GitHub",
     "Contribute to open source projects"]
  const UxDesignerPath: seq<string> :=
    ["User interface and experience design courses",
     "Usability and user behavior studies",
     "Build a portfolio with design projects"]
  const CybersecuritySpecialistPath: seq<string> :=
    ["Information security training",
     "Certifications like CEH or CompTIA Security+",
     "Practice in capture the flag (CTF) environments"]
  const MachineLearningEngineerPath: seq<string> :=
    ["Intensive Machine Learning course",
     "AI projects applied to real problems",
     "Study advanced learning algorithms"]
  const TechEntrepreneurPath: seq<string> :=
    ["Entrepreneurship and innovation courses",
     "Participation in hackathons and incubators",
     "Reading about business models and startups"]

  const DefaultCareers: seq<Career> := [
    CreateCareer("Data Scientist", DataScientistWeights, DataScientistPath),
    CreateCareer("Software Engineer", SoftwareEngineerWeights, SoftwareEngineerPath),
    CreateCareer("UX Designer", UxDesignerWeights, UxDesignerPath),
    CreateCareer("Cybersecurity Specialist", CybersecuritySpecialistWeights, CybersecuritySpecialistPath),
    CreateCareer("Machine Learning Engineer", MachineLearningEngineerWeights, MachineLearningEngineerPath),
    CreateCareer("Tech Entrepreneur", TechEntrepreneurWeights, TechEntrepreneurPath)
  ]

  const AutomationRiskData: Record<AutomationRisk> := [
    ("Data Scientist", AutomationRisk(Medium, 45,
      [TaskRisk("Data cleaning and preprocessing", High),
       TaskRisk("Statistical analysis and modeling", Medium),
       TaskRisk("Business strategy and communication", Low),
       TaskRisk("Complex problem-solving and research", Low)],
      ["Communication", "Leadership", "Creativity", "Problem Solving"])),
    ("Software Engineer", AutomationRisk(Medium, 40,
      [TaskRisk("Code generation for routine tasks", High),
       TaskRisk("Bug fixing and debugging", Medium),
       TaskRisk("System architecture and design", Low),
       TaskRisk("Code review and team collaboration", Low)],
      ["Problem Solving", "Collaboration", "Communication", "Adaptability"])),
    ("UX Designer", AutomationRisk(Low, 25,
      [TaskRisk("Basic wireframing and prototyping", Medium),
       TaskRisk("User research and empathy", Low),
       TaskRisk("Creative design and aesthetics", Low),
       TaskRisk("Stakeholder communication and strategy", Low)],
      ["Creativity", "Communication", "Collaboration", "Curiosity"])),
    ("Cybersecurity Specialist", AutomationRisk(Low, 30,
      [TaskRisk("Automated threat detection", Medium),
       TaskRisk("Vulnerability scanning", High),
       TaskRisk("Incident response and forensics", Low),
       TaskRisk("Security strategy and policy", Low)],
      ["Analytical Thinking", "Problem Solving", "Communication", "Adaptability"])),
    ("Machine Learning Engineer", AutomationRisk(Medium, 35,
      [TaskRisk("Model training and hyperparameter tuning", Medium),
       TaskRisk("Data pipeline development", High),
       TaskRisk("Model interpretation and ethics", Low),
       TaskRisk("Research and innovation", Low)],
      ["Analytical Thinking", "Curiosity", "Problem Solving", "Communication"])),
    ("Tech Entrepreneur", AutomationRisk(Low, 20,
      [TaskRisk("Market research and analysis", Medium),
       TaskRisk("Business strategy and vision", Low),
       TaskRisk("Team building and leadership", Low),
       TaskRisk("Innovation and creativity", Low)],
      ["Leadership", "Creativity", "Communication", "Adaptability"]))
  ]

  /** `automationRiskData[careerName]`: the table, or None for an unknown career. */
  function AutomationRiskFor(careerName: string): (r: Option<AutomationRisk>)
    ensures r.Some? <==> careerName in Keys(AutomationRiskData)
    ensures r.Some? ==> (careerName, r.value) in AutomationRiskData
  {
    Get(AutomationRiskData, careerName)
  }

  // ---------------------------------------------------------------------------
  // Catalog well-formedness

  lemma CompetencyNamesListed()
    ensures CompetencyNames() == ["Programming Logic", "Creativity", "Collaboration", "Adaptability",
                                  "Analytical Thinking", "Artificial Intelligence", "Communication",
                                  "Problem Solving", "Curiosity", "Leadership"]
  {
  }

  /** Ten distinct competencies, and the learning-path table lists exactly
      those names, in the same order, each with a non-empty path list. */
  lemma CompetencyCatalogWellFormed()
    ensures |CompetencyNames()| == 10 && NoDuplicates(CompetencyNames())
    ensures Keys(CompetencyLearningPaths) == CompetencyNames()
    ensures forall i :: 0 <= i < |CompetencyLearningPaths| ==> CompetencyLearningPaths[i].1 != []
  {
    CompetencyNamesListed();
  }

  /** Looking a catalog competency up in the path table finds a non-empty list. */
  lemma EveryCompetencyHasPath(c: string)
    requires c in CompetencyNames()
    ensures Get(CompetencyLearningPaths, c).Some? && Get(CompetencyLearningPaths, c).value != []
  {
    CompetencyCatalogWellFormed();
    var i :| 0 <= i < |CompetencyNames()| && CompetencyNames()[i] == c;
    assert Keys(CompetencyLearningPaths)[i] == c;
    GetUnique(CompetencyLearningPaths, i);
  }

  /** A catalog weight table: each competency is a catalog competency named
      once, with a weight in (0, 1], and the weights add up to 1. */
  ghost predicate WellFormedWeights(req: Record<real>) {
    && UniqueKeys(req)
    && (forall i :: 0 <= i < |req| ==> req[i].0 in CompetencyNames() && 0.0 < req[i].1 <= 1.0)
    && SumWeights(req) == 1.0
  }

  function CareerNames(careers: seq<Career>): (names: seq<string>)
    ensures |names| == |careers|
    ensures forall i :: 0 <= i < |careers| ==> names[i] == careers[i].name
  {
    seq(|careers|, i requires 0 <= i < |careers| => careers[i].name)
  }

  lemma CareerNamesListed()
    ensures CareerNames(DefaultCareers) == ["Data Scientist", "Software Engineer", "UX Designer",
      "Cybersecurity Specialist", "Machine Learning Engineer", "Tech Entrepreneur"]
  {
  }

  lemma DataScientistWeightsWellFormed()
    ensures WellFormedWeights(DataScientistWeights)
  {
    CompetencyNamesListed();
  }

  lemma SoftwareEngineerWeightsWellFormed()
    ensures WellFormedWeights(SoftwareEngineerWeights)
  {
    CompetencyNamesListed();
  }

  lemma UxDesignerWeightsWellFormed()
    ensures WellFormedWeights(UxDesignerWeights)
  {
    CompetencyNamesListed();
  }

  lemma CybersecuritySpecialistWeightsWellFormed()
    ensures WellFormedWeights(CybersecuritySpecialistWeights)
  {
    CompetencyNamesListed();
  }

  lemma MachineLearningEngineerWeightsWellFormed()
    ensures WellFormedWeights(MachineLearningEngineerWeights)
  {
    CompetencyNamesListed();
  }

  lemma TechEntrepreneurWeightsWellFormed()
    ensures WellFormedWeights(TechEntrepreneurWeights)
  {
    CompetencyNamesListed();
  }

  /** Six distinct careers, each with a well-formed weight table. */
  lemma DefaultCareersWellFormed()
    ensures |DefaultCareers| == 6 && NoDuplicates(CareerNames(DefaultCareers))
    ensures forall i :: 0 <= i < |DefaultCareers| ==> WellFormedWeights(DefaultCareers[i].requiredCompetencies)
  {
    CareerNamesListed();
    forall i | 0 <= i < |DefaultCareers|
      ensures WellFormedWeights(DefaultCareers[i].requiredCompetencies)
    {
      if i == 0 {
        DataScientistWeightsWellFormed();
      } else if i == 1 {
        SoftwareEngineerWeightsWellFormed();
      } else if i == 2 {
        UxDesignerWeightsWellFormed();
      } else if i == 3 {
        CybersecuritySpecialistWeightsWellFormed();
      } else if i == 4 {
        MachineLearningEngineerWeightsWellFormed();
      } else {
        TechEntrepreneurWeightsWellFormed();
      }
    }
  }

  /** Every default career, and nothing else, has a risk table; each table's
      percentage lies in [0, 100] and its complementary skills are catalog
      competencies. */
  lemma AutomationRiskWellFormed()
    ensures Keys(AutomationRiskData) == CareerNames(DefaultCareers)
    ensures forall i :: 0 <= i < |AutomationRiskData| ==>
              var risk := AutomationRiskData[i].1;
              && 0 <= risk.percentage <= 100
              && forall s :: s in risk.complementarySkills ==> s in CompetencyNames()
  {
    CompetencyNamesListed();
    CareerNamesListed();
  }

  /** So the risk lookup succeeds for every default career. */
  lemma EveryCareerHasRisk(c: Career)
    requires c in DefaultCareers
    ensures AutomationRiskFor(c.name).Some?
  {
    AutomationRiskWellFormed();
    var i :| 0 <= i < |DefaultCareers| && DefaultCareers[i] == c;
    assert Keys(AutomationRiskData)[i] == c.name;
  }
}
