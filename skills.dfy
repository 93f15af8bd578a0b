/** The skills page: clicking a skill lists the projects, then the
    experience entries, then the teaching entries whose skill lists contain
    it, each shown with a type label; a dialog holds the list. */
module Skills {
  import opened Common

  datatype Project = Project(title: string, details: seq<string>, skills: seq<string>)

  datatype ExperienceEntry = ExperienceEntry(company: string, position: string, period: string, details: seq<string>, skills: seq<string>)

  datatype TeachingEntry = TeachingEntry(course: string, institution: string, period: string, details: seq<string>, skills: seq<string>)

  datatype UsageType = ProjectUsage | ExperienceUsage | TeachingUsage

  /** One line of the dialog: where the skill was used. */
  datatype SkillUsage = SkillUsage(kind: UsageType, title: string, details: seq<string>)

  /** The `type` string of a usage. */
  function TypeName(t: UsageType): string {
    match t
    case ProjectUsage => "project"
    case ExperienceUsage => "experience"
    case TeachingUsage => "teaching"
  }

  // ---------------------------------------------------------------------
  // The entries

  /** The skill lists of the site's entries, list by list and entry by
      entry; skills are matched exactly, so spelling and case matter. */
  datatype SkillIndex = SkillIndex(projects: seq<seq<string>>, experience: seq<seq<string>>, teaching: seq<seq<string>>)

  const SiteSkills: SkillIndex := SkillIndex(
    [["Python", "PyTorch", "ResNet", "CLIP", "CNN", "Deep Learning", "Neural Networks"],
     ["R", "Python", "Web Scraping", "Parallel Computing"],
     ["Python", "Eigenvalue Theory", "Dimension Reduction"],
     ["Tensorflow", "CNN", "RNN", "NLP", "Deep Learning", "Neural Networks"]],
    [["Python", "Pandas", "Numpy", "Seaborn", "PostGIS", "PostgreSQL", "FlamMap", "WindNinja"]],
    [["Data Analysis", "Python", "Jupyter", "EDA", "Data Cleaning", "Teaching"],
     ["Business Analytics", "A/B Testing", "KPIs", "Classification", "Clustering", "Teaching", "Curriculum Development"],
     ["Deep Learning", "Python", "R", "TensorFlow", "Keras", "SGD", "PCA", "CNN", "RNN", "Teaching"],
     ["MATLAB", "Engineering", "Teaching", "Technical Support"]])

  const ProjectsData: seq<Project> := [
    Project("Ultrasound Image Classification Project",
      ["Designed a deep learning pipeline using PyTorch to classify and segment breast ultrasound images",
       "Fine-tuned ResNet and CLIP models with linear probing and compared their performance against custom CNNs",
       "Demonstrated model comparisons and pipeline details for educational purposes"],
      SiteSkills.projects[0]),
    Project("Membership Identification in Large Scaled Sparse Networks",
      ["Implemented SIMPLE in R and Python",
       "Applied it to web-scraped S&P1000 company data to identify clusters within networks",
       "Improved calculation efficiency by utilizing parallel computation"],
      SiteSkills.projects[1]),
    Project("High Dimensional Classification via Spiked Eigenvalue Theory",
      ["Implemented a novel classification method based on spiked eigenvalue theory and dimension reduction theory in Python",
       "Applied it to identifying viruses and bacteria given codon information separated from their genetic sequence data"],
      SiteSkills.projects[2]),
    Project("Pairwise Relationship Identification via Mixed Neural Networks",
      ["Constructed a novel combination of CNN and RNN in Tensorflow",
       "Incorporated NLP methods and applied them to identify virus and host relationships",
       "Achieved 87% accuracy on test set"],
      SiteSkills.projects[3])
  ]

  const ExperienceData: seq<ExperienceEntry> := [
    ExperienceEntry("Delphire Inc., Los Angeles, California", "Data Scientist Intern - Modeling", "May 2023 - Aug 2023",
      ["Utilized Pandas, Numpy and Seaborn to model and visualize potential association with aspects of wildfires and number of properties affected, from real historical fire incident report data from 1990 to 2020",
       "Created spatial indexes for Microsoft Building Footprints data set via PostGIS, joined the building data and Zillow housing price data to estimate monetary damage for a certain wildfire",
       "Operated specialized softwares such as FlamMap and WindNinja to calculate perimeter of an imaginary fire, combined with the above database and estimated reduction that can be achieved by deploying our Sentinel unit"],
      SiteSkills.experience[0])
  ]

  const TeachingData: seq<TeachingEntry> := [
    TeachingEntry("Introduction to EDA", "USC Jumpstart Summer Program", "May 2023, July 2024",
      ["Curated an original tutorial on data collection, data cleaning and explanatory data analysis for aspiring undergraduate students looking to apply for PhD programs",
       "Jupyter Notebook available at: https://github.com/yiqiushen/USC-Jumpstart-Summer-2023-EDA-tutorial"],
      SiteSkills.teaching[0]),
    TeachingEntry("Introduction to Business Analytics", "USC Marshall School of Business", "Fall 2022 (TA) and Spring 2023 (Instructor)",
      ["Worked with a total of 10 sessions and over 450 students and used large, real corporate datasets to teach concepts of A/B testing, KPIs and dashboards, classification and clustering and their application to business decision making",
       "Collaborated with an instructor team of 7 people to create a compact and sufficient lesson plan; implemented a novel flip-classroom setting that allows flexibility for senior students"],
      SiteSkills.teaching[1]),
    TeachingEntry("Deep Learning and Business Application", "USC Marshall School of Business", "Spring 2020",
      ["Instructed Python and R tutorials on implementing SGD, PCA, MLP classifier manually and creating CNN and RNN via Tensorflow and Keras",
       "Showcased various deep learning applications on subjects above"],
      SiteSkills.teaching[2]),
    TeachingEntry("Introduction to MATLAB", "USC Viterbi School of Engineering", "Spring and Fall 2017",
      ["Provided in-and-after-class support on MATLAB learning experience and engineering projects"],
      SiteSkills.teaching[3])
  ]

  // ---------------------------------------------------------------------
  // From an entry to a usage

  function ProjectSkills(p: Project): seq<string> { p.skills }
  function ExperienceSkills(e: ExperienceEntry): seq<string> { e.skills }
  function TeachingSkills(t: TeachingEntry): seq<string> { t.skills }

  function FromProject(p: Project): SkillUsage {
    SkillUsage(ProjectUsage, p.title, p.details)
  }

  function FromExperience(e: ExperienceEntry): SkillUsage {
    SkillUsage(ExperienceUsage, e.position + " at " + e.company, e.details)
  }

  function FromTeaching(t: TeachingEntry): SkillUsage {
    SkillUsage(TeachingUsage, t.course + " at " + t.institution, t.details)
  }

  // ---------------------------------------------------------------------
  // Filtering one list

  /** The usages of the entries whose skills contain `skill` (exact,
      case-sensitive membership), in list order. */
  function Select<T>(xs: seq<T>, skillsOf: T -> seq<string>, toUsage: T -> SkillUsage, skill: string): seq<SkillUsage> {
    if xs == [] then []
    else
      Select(xs[..|xs| - 1], skillsOf, toUsage, skill) +
        (if skill in skillsOf(xs[|xs| - 1]) then [toUsage(xs[|xs| - 1])] else [])
  }

  /** The positions of the entries whose skills contain `skill`, in order. */
  function Matches<T>(xs: seq<T>, skillsOf: T -> seq<string>, skill: string): seq<nat> {
    if xs == [] then []
    else Matches(xs[..|xs| - 1], skillsOf, skill) + (if skill in skillsOf(xs[|xs| - 1]) then [|xs| - 1] else [])
  }

  /** The matching positions are increasing, in range, and are exactly the
      entries whose skills contain the skill. */
  lemma {:induction false} MatchesExact<T>(xs: seq<T>, skillsOf: T -> seq<string>, skill: string)
    ensures forall k :: 0 <= k < |Matches(xs, skillsOf, skill)| ==> Matches(xs, skillsOf, skill)[k] < |xs|
    ensures forall j, k :: 0 <= j < k < |Matches(xs, skillsOf, skill)| ==> Matches(xs, skillsOf, skill)[j] < Matches(xs, skillsOf, skill)[k]
    ensures forall i :: 0 <= i < |xs| ==> (i in Matches(xs, skillsOf, skill) <==> skill in skillsOf(xs[i]))
  {
    if xs != [] {
      var p := xs[..|xs| - 1];
      MatchesExact(p, skillsOf, skill);
      assert forall i :: 0 <= i < |p| ==> p[i] == xs[i];
    }
  }

  /** The selected usages are the usages of the matching entries, one each,
      in order. */
  lemma {:induction false} SelectIsMatches<T>(xs: seq<T>, skillsOf: T -> seq<string>, toUsage: T -> SkillUsage, skill: string)
    ensures |Select(xs, skillsOf, toUsage, skill)| == |Matches(xs, skillsOf, skill)|
    ensures forall k :: 0 <= k < |Select(xs, skillsOf, toUsage, skill)| ==>
      Matches(xs, skillsOf, skill)[k] < |xs| && Select(xs, skillsOf, toUsage, skill)[k] == toUsage(xs[Matches(xs, skillsOf, skill)[k]])
  {
    if xs != [] {
      var p := xs[..|xs| - 1];
      SelectIsMatches(p, skillsOf, toUsage, skill);
      MatchesExact(p, skillsOf, skill);
      assert forall i :: 0 <= i < |p| ==> p[i] == xs[i];
    }
  }

  /** Every entry of the list that uses the skill gives a usage,
      and every usage comes from such an entry. */
  lemma SelectMembers<T>(xs: seq<T>, skillsOf: T -> seq<string>, toUsage: T -> SkillUsage, skill: string)
    ensures forall u :: u in Select(xs, skillsOf, toUsage, skill) ==>
      exists i :: 0 <= i < |xs| && skill in skillsOf(xs[i]) && u == toUsage(xs[i])
    ensures forall i :: 0 <= i < |xs| && skill in skillsOf(xs[i]) ==> toUsage(xs[i]) in Select(xs, skillsOf, toUsage, skill)
  {
    var s := Select(xs, skillsOf, toUsage, skill);
    var m := Matches(xs, skillsOf, skill);
    SelectIsMatches(xs, skillsOf, toUsage, skill);
    MatchesExact(xs, skillsOf, skill);
    forall u | u in s
      ensures exists i :: 0 <= i < |xs| && skill in skillsOf(xs[i]) && u == toUsage(xs[i])
    {
      var k :| 0 <= k < |s| && s[k] == u;
      assert m[k] in m;
    }
    forall i | 0 <= i < |xs| && skill in skillsOf(xs[i])
      ensures toUsage(xs[i]) in s
    {
      var k :| 0 <= k < |m| && m[k] == i;
      assert s[k] == toUsage(xs[i]);
    }
  }

  // ---------------------------------------------------------------------
  // All usages of a skill

  /** The three lists the page reads. */
  datatype Portfolio = Portfolio(projects: seq<Project>, experience: seq<ExperienceEntry>, teaching: seq<TeachingEntry>)

  function ProjectUsages(d: Portfolio, skill: string): seq<SkillUsage> {
    Select(d.projects, ProjectSkills, FromProject, skill)
  }

  function ExperienceUsages(d: Portfolio, skill: string): seq<SkillUsage> {
    Select(d.experience, ExperienceSkills, FromExperience, skill)
  }

  function TeachingUsages(d: Portfolio, skill: string): seq<SkillUsage> {
    Select(d.teaching, TeachingSkills, FromTeaching, skill)
  }

  /** The dialog's list for a skill: projects, then experience, then teaching. */
  function UsagesFor(d: Portfolio, skill: string): seq<SkillUsage> {
    ProjectUsages(d, skill) + ExperienceUsages(d, skill) + TeachingUsages(d, skill)
  }

  /** The list is grouped by type in the order project, experience,
      teaching; each group has one usage per matching entry, in list order. */
  lemma UsagesGrouped(d: Portfolio, skill: string)
    ensures var us := UsagesFor(d, skill);
      var mp := Matches(d.projects, ProjectSkills, skill);
      var me := Matches(d.experience, ExperienceSkills, skill);
      var mt := Matches(d.teaching, TeachingSkills, skill);
      && |us| == |mp| + |me| + |mt|
      && (forall k :: 0 <= k < |mp| ==> mp[k] < |d.projects| && us[k] == FromProject(d.projects[mp[k]]))
      && (forall k :: 0 <= k < |me| ==> me[k] < |d.experience| && us[|mp| + k] == FromExperience(d.experience[me[k]]))
      && (forall k :: 0 <= k < |mt| ==> mt[k] < |d.teaching| && us[|mp| + |me| + k] == FromTeaching(d.teaching[mt[k]]))
  {
    var ps, es, ts := ProjectUsages(d, skill), ExperienceUsages(d, skill), TeachingUsages(d, skill);
    SelectIsMatches(d.projects, ProjectSkills, FromProject, skill);
    SelectIsMatches(d.experience, ExperienceSkills, FromExperience, skill);
    SelectIsMatches(d.teaching, TeachingSkills, FromTeaching, skill);
    var us := UsagesFor(d, skill);
    assert forall k :: 0 <= k < |ps| ==> us[k] == ps[k];
    assert forall k :: 0 <= k < |es| ==> us[|ps| + k] == es[k];
    assert forall k :: 0 <= k < |ts| ==> us[|ps| + |es| + k] == ts[k];
  }

  /** Each usage comes from an entry that lists the skill, with the type of
      its list, its title (the project title, "<position> at <company>" or
      "<course> at <institution>") and the entry's details; and every entry
      that lists the skill gives such a usage. */
  lemma UsageTitles(d: Portfolio, skill: string)
    ensures forall u :: u in UsagesFor(d, skill) ==>
      || (exists p :: p in d.projects && skill in p.skills && u == SkillUsage(ProjectUsage, p.title, p.details))
      || (exists e :: e in d.experience && skill in e.skills && u == SkillUsage(ExperienceUsage, e.position + " at " + e.company, e.details))
      || (exists t :: t in d.teaching && skill in t.skills && u == SkillUsage(TeachingUsage, t.course + " at " + t.institution, t.details))
    ensures forall p :: p in d.projects && skill in p.skills ==> SkillUsage(ProjectUsage, p.title, p.details) in UsagesFor(d, skill)
    ensures forall e :: e in d.experience && skill in e.skills ==>
      SkillUsage(ExperienceUsage, e.position + " at " + e.company, e.details) in UsagesFor(d, skill)
    ensures forall t :: t in d.teaching && skill in t.skills ==>
      SkillUsage(TeachingUsage, t.course + " at " + t.institution, t.details) in UsagesFor(d, skill)
  {
    var ps, es, ts := ProjectUsages(d, skill), ExperienceUsages(d, skill), TeachingUsages(d, skill);
    SelectMembers(d.projects, ProjectSkills, FromProject, skill);
    SelectMembers(d.experience, ExperienceSkills, FromExperience, skill);
    SelectMembers(d.teaching, TeachingSkills, FromTeaching, skill);
    forall u | u in UsagesFor(d, skill)
      ensures || (exists p :: p in d.projects && skill in p.skills && u == SkillUsage(ProjectUsage, p.title, p.details))
              || (exists e :: e in d.experience && skill in e.skills && u == SkillUsage(ExperienceUsage, e.position + " at " + e.company, e.details))
              || (exists t :: t in d.teaching && skill in t.skills && u == SkillUsage(TeachingUsage, t.course + " at " + t.institution, t.details))
    {
      if u in ps {
        var i :| 0 <= i < |d.projects| && skill in ProjectSkills(d.projects[i]) && u == FromProject(d.projects[i]);
        assert d.projects[i] in d.projects;
      } else if u in es {
        var i :| 0 <= i < |d.experience| && skill in ExperienceSkills(d.experience[i]) && u == FromExperience(d.experience[i]);
        assert d.experience[i] in d.experience;
      } else {
        var i :| 0 <= i < |d.teaching| && skill in TeachingSkills(d.teaching[i]) && u == FromTeaching(d.teaching[i]);
        assert d.teaching[i] in d.teaching;
      }
    }
    forall p | p in d.projects && skill in p.skills
      ensures SkillUsage(ProjectUsage, p.title, p.details) in UsagesFor(d, skill)
    {
      var i :| 0 <= i < |d.projects| && d.projects[i] == p;
      assert FromProject(d.projects[i]) in ps;
    }
    forall e | e in d.experience && skill in e.skills
      ensures SkillUsage(ExperienceUsage, e.position + " at " + e.company, e.details) in UsagesFor(d, skill)
    {
      var i :| 0 <= i < |d.experience| && d.experience[i] == e;
      assert FromExperience(d.experience[i]) in es;
    }
    forall t | t in d.teaching && skill in t.skills
      ensures SkillUsage(TeachingUsage, t.course + " at " + t.institution, t.details) in UsagesFor(d, skill)
    {
      var i :| 0 <= i < |d.teaching| && d.teaching[i] == t;
      assert FromTeaching(d.teaching[i]) in ts;
    }
  }

  /** One more entry: it adds its usage when it lists the skill. */
  lemma SelectStep<T>(xs: seq<T>, skillsOf: T -> seq<string>, toUsage: T -> SkillUsage, skill: string, i: nat)
    requires i < |xs|
    ensures Select(xs[..i + 1], skillsOf, toUsage, skill) ==
      Select(xs[..i], skillsOf, toUsage, skill) + (if skill in skillsOf(xs[i]) then [toUsage(xs[i])] else [])
  {
    assert xs[..i + 1][..i] == xs[..i];
  }

  /** The entries of `d` have the skill lists of `ix`, in order. */
  predicate Indexed(d: Portfolio, ix: SkillIndex) {
    && ProjectsIndexed(d.projects, ix.projects)
    && ExperienceIndexed(d.experience, ix.experience)
    && TeachingIndexed(d.teaching, ix.teaching)
  }

  predicate ProjectsIndexed(ps: seq<Project>, ix: seq<seq<string>>) {
    |ps| == |ix| && forall i :: 0 <= i < |ps| ==> ps[i].skills == ix[i]
  }

  predicate ExperienceIndexed(es: seq<ExperienceEntry>, ix: seq<seq<string>>) {
    |es| == |ix| && forall i :: 0 <= i < |es| ==> es[i].skills == ix[i]
  }

  predicate TeachingIndexed(ts: seq<TeachingEntry>, ix: seq<seq<string>>) {
    |ts| == |ix| && forall i :: 0 <= i < |ts| ==> ts[i].skills == ix[i]
  }

  /** The site's project list carries the site's project skill lists; the
      site's entries are Portfolio(ProjectsData, ExperienceData, TeachingData),
      which this lemma and the next two show to be Indexed by SiteSkills. */
  lemma SiteProjectsIndexed()
    ensures ProjectsIndexed(ProjectsData, SiteSkills.projects)
  {
  }

  /** The site's experience list carries the site's experience skill lists. */
  lemma SiteExperienceIndexed()
    ensures ExperienceIndexed(ExperienceData, SiteSkills.experience)
  {
  }

  /** The site's teaching list carries the site's teaching skill lists. */
  lemma SiteTeachingIndexed()
    ensures TeachingIndexed(TeachingData, SiteSkills.teaching)
  {
  }

  /** How the site's project skill lists spell TensorFlow. */
  lemma ProjectSpellings()
    ensures var ix := SiteSkills.projects;
      && "Tensorflow" !in ix[0] && "Tensorflow" !in ix[1] && "Tensorflow" !in ix[2] && "Tensorflow" in ix[3]
      && "TensorFlow" !in ix[0] && "TensorFlow" !in ix[1] && "TensorFlow" !in ix[2] && "TensorFlow" !in ix[3]
  {
  }

  /** How the site's experience skill lists spell TensorFlow. */
  lemma ExperienceSpellings()
    ensures "Tensorflow" !in SiteSkills.experience[0] && "TensorFlow" !in SiteSkills.experience[0]
  {
  }

  /** How the site's teaching skill lists spell TensorFlow. */
  lemma TeachingSpellings()
    ensures var ix := SiteSkills.teaching;
      && "Tensorflow" !in ix[0] && "Tensorflow" !in ix[1] && "Tensorflow" !in ix[2] && "Tensorflow" !in ix[3]
      && "TensorFlow" !in ix[0] && "TensorFlow" !in ix[1] && "TensorFlow" in ix[2] && "TensorFlow" !in ix[3]
  {
  }

  /** `skillsData`: the chip lists of the page, category by category; a
      chip click passes its own label to `handleSkillClick`. */
  const SkillCategories: seq<(string, seq<string>)> := [
    ("Programming Languages", ["R", "Python", "MATLAB", "SQL", "Java"]),
    ("Frameworks, Libraries & Tools", ["PyTorch", "TensorFlow", "Keras", "BeautifulSoup", "Jupyter", "Plotly.js", "PostGIS", "FlamMap"]),
    ("Deep Learning Architectures", ["CNN", "RNN", "ResNet", "CLIP"]),
    ("Data Analysis & Visualization Tools", ["Microsoft Excel", "Tableau", "SAS JMP", "Mathematica", "PostgreSQL", "LATEX"]),
    ("Computing Skills", ["Web Scraping", "Parallel Computing"]),
    ("Languages", ["English (Proficient)", "Japanese (Limited)", "Chinese (Native)"]),
    ("Teaching & Communication", ["Teaching", "Explaining technical concepts to non-technical audiences", "Curriculum Development"]),
    ("Business & Analytical Skills", ["A/B Testing", "KPIs", "Dashboards", "Experimental Design"])
  ]

  /** The page has a "TensorFlow" chip and no "Tensorflow" chip. */
  lemma ChipSpellings()
    ensures "TensorFlow" in SkillCategories[1].1
    ensures forall c :: 0 <= c < |SkillCategories| ==> "Tensorflow" !in SkillCategories[c].1
  {
  }

  /** Clicking the "TensorFlow" chip lists the deep learning course and
      not the project whose skill list spells it "Tensorflow". */
  lemma TensorFlowChip(d: Portfolio)
    requires Indexed(d, SiteSkills)
    ensures "TensorFlow" in SkillCategories[1].1
    ensures UsagesFor(d, SkillCategories[1].1[1]) == [FromTeaching(d.teaching[2])]
    ensures FromProject(d.projects[3]) !in UsagesFor(d, SkillCategories[1].1[1])
  {
    ChipSpellings();
    TensorflowSpellings(d);
  }

  /** "Tensorflow" is listed by the last project only, "TensorFlow" by none. */
  lemma ProjectsTensorflow(d: Portfolio)
    requires Indexed(d, SiteSkills)
    ensures ProjectUsages(d, "Tensorflow") == [FromProject(d.projects[3])]
    ensures ProjectUsages(d, "TensorFlow") == []
  {
    var ps := d.projects;
    ProjectSpellings();
    assert ps[..0] == [] && ps[..4] == ps;
    assert ProjectUsages(d, "Tensorflow") == [FromProject(d.projects[3])] by {
      SelectStep(ps, ProjectSkills, FromProject, "Tensorflow", 0);
      SelectStep(ps, ProjectSkills, FromProject, "Tensorflow", 1);
      SelectStep(ps, ProjectSkills, FromProject, "Tensorflow", 2);
      SelectStep(ps, ProjectSkills, FromProject, "Tensorflow", 3);
    }
    assert ProjectUsages(d, "TensorFlow") == [] by {
      SelectStep(ps, ProjectSkills, FromProject, "TensorFlow", 0);
      SelectStep(ps, ProjectSkills, FromProject, "TensorFlow", 1);
      SelectStep(ps, ProjectSkills, FromProject, "TensorFlow", 2);
      SelectStep(ps, ProjectSkills, FromProject, "TensorFlow", 3);
    }
  }

  /** Neither spelling is listed by the experience entry. */
  lemma ExperienceTensorflow(d: Portfolio)
    requires Indexed(d, SiteSkills)
    ensures ExperienceUsages(d, "Tensorflow") == [] && ExperienceUsages(d, "TensorFlow") == []
  {
    var es := d.experience;
    ExperienceSpellings();
    assert es[..0] == [] && es[..1] == es;
    SelectStep(es, ExperienceSkills, FromExperience, "Tensorflow", 0);
    SelectStep(es, ExperienceSkills, FromExperience, "TensorFlow", 0);
  }

  /** "TensorFlow" is listed by the deep learning course only, "Tensorflow" by none. */
  lemma TeachingTensorflow(d: Portfolio)
    requires Indexed(d, SiteSkills)
    ensures TeachingUsages(d, "Tensorflow") == []
    ensures TeachingUsages(d, "TensorFlow") == [FromTeaching(d.teaching[2])]
  {
    var ts := d.teaching;
    TeachingSpellings();
    assert ts[..0] == [] && ts[..4] == ts;
    assert TeachingUsages(d, "Tensorflow") == [] by {
      SelectStep(ts, TeachingSkills, FromTeaching, "Tensorflow", 0);
      SelectStep(ts, TeachingSkills, FromTeaching, "Tensorflow", 1);
      SelectStep(ts, TeachingSkills, FromTeaching, "Tensorflow", 2);
      SelectStep(ts, TeachingSkills, FromTeaching, "Tensorflow", 3);
    }
    assert TeachingUsages(d, "TensorFlow") == [FromTeaching(d.teaching[2])] by {
      SelectStep(ts, TeachingSkills, FromTeaching, "TensorFlow", 0);
      SelectStep(ts, TeachingSkills, FromTeaching, "TensorFlow", 1);
      SelectStep(ts, TeachingSkills, FromTeaching, "TensorFlow", 2);
      SelectStep(ts, TeachingSkills, FromTeaching, "TensorFlow", 3);
    }
  }

  /** Matching is case-sensitive: on entries with the site's skill lists,
      "Tensorflow" finds only the project that spells it so, and
      "TensorFlow" only the course that does. */
  lemma TensorflowSpellings(d: Portfolio)
    requires Indexed(d, SiteSkills)
    ensures UsagesFor(d, "Tensorflow") == [FromProject(d.projects[3])]
    ensures UsagesFor(d, "TensorFlow") == [FromTeaching(d.teaching[2])]
  {
    ProjectsTensorflow(d);
    ExperienceTensorflow(d);
    TeachingTensorflow(d);
  }

  // ---------------------------------------------------------------------
  // Building the list

  /** The three `forEach` loops of `handleSkillClick`, each pushing the
      usage of every entry whose skills include the clicked skill. */
  method CollectUsages(d: Portfolio, skill: string) returns (usages: seq<SkillUsage>)
    ensures usages == UsagesFor(d, skill)
  {
    usages := [];
    var i := 0;
    while i < |d.projects|
      invariant 0 <= i <= |d.projects|
      invariant usages == Select(d.projects[..i], ProjectSkills, FromProject, skill)
    {
      assert d.projects[..i + 1][..i] == d.projects[..i];
      var project := d.projects[i];
      if skill in project.skills {
        usages := usages + [FromProject(project)];
      }
      i := i + 1;
    }
    assert d.projects[..i] == d.projects;
    var fromProjects := usages;
    i := 0;
    while i < |d.experience|
      invariant 0 <= i <= |d.experience|
      invariant usages == fromProjects + Select(d.experience[..i], ExperienceSkills, FromExperience, skill)
    {
      assert d.experience[..i + 1][..i] == d.experience[..i];
      var exp := d.experience[i];
      if skill in exp.skills {
        usages := usages + [FromExperience(exp)];
      }
      i := i + 1;
    }
    assert d.experience[..i] == d.experience;
    var beforeTeaching := usages;
    i := 0;
    while i < |d.teaching|
      invariant 0 <= i <= |d.teaching|
      invariant usages == beforeTeaching + Select(d.teaching[..i], TeachingSkills, FromTeaching, skill)
    {
      assert d.teaching[..i + 1][..i] == d.teaching[..i];
      var teaching := d.teaching[i];
      if skill in teaching.skills {
        usages := usages + [FromTeaching(teaching)];
      }
      i := i + 1;
    }
    assert d.teaching[..i] == d.teaching;
  }

  // ---------------------------------------------------------------------
  // Labels

  /** `getUsageIcon`: the label in front of a usage title. */
  function GetUsageIcon(t: string): (icon: string) {
    if t == "project" then "\U{1F680} Project: "
    else if t == "experience" then "\U{1F4BC} Experience: "
    else if t == "teaching" then "\U{1F4DA} Teaching: "
    else ""
  }

  /** Each of the three type names has its own non-empty label, ending in
      ": "; every other string has the empty label. */
  lemma UsageIconTotal(t: string)
    ensures GetUsageIcon(t) != "" <==> exists k: UsageType :: t == TypeName(k)
    ensures GetUsageIcon(t) != "" ==> |GetUsageIcon(t)| >= 2 && GetUsageIcon(t)[|GetUsageIcon(t)| - 2..] == ": "
    ensures forall j, k: UsageType :: j != k ==> GetUsageIcon(TypeName(j)) != GetUsageIcon(TypeName(k))
  {
    if GetUsageIcon(t) != "" {
      if t == "project" {
        assert t == TypeName(ProjectUsage);
      } else if t == "experience" {
        assert t == TypeName(ExperienceUsage);
      } else {
        assert t == TypeName(TeachingUsage);
      }
    }
  }

  // ---------------------------------------------------------------------
  // The page state

  /** The dialog state: whether it is open, the skill it is about, and its list. */
  class SkillsPage {
    /** The imported entries the page reads. */
    var data: Portfolio
    var open: bool
    var selectedSkill: string
    var skillUsages: seq<SkillUsage>

    /** The page over the entries it imports. */
    constructor(entries: Portfolio)
      ensures data == entries && !open && selectedSkill == "" && skillUsages == []
    {
      data := entries;
      open := false;
      selectedSkill := "";
      skillUsages := [];
    }

    /** `handleSkillClick`: the dialog opens on the skill with its usages. */
    method HandleSkillClick(skill: string)
      modifies this`skillUsages, this`selectedSkill, this`open
      ensures skillUsages == UsagesFor(data, skill) && selectedSkill == skill && open
    {
      var usages := CollectUsages(data, skill);
      skillUsages := usages;
      selectedSkill := skill;
      open := true;
    }

    /** `handleClose`: the dialog closes; the skill and the list stay. */
    method HandleClose()
      modifies this`open
      ensures !open && selectedSkill == old(selectedSkill) && skillUsages == old(skillUsages)
    {
      open := false;
    }

    /** The location effect: a non-empty `selectedSkill` in the navigation
        state is clicked; an absent or empty one changes nothing. */
    method OnLocationState(selected: Option<string>)
      modifies this`skillUsages, this`selectedSkill, this`open
      ensures selected.Some? && selected.value != "" ==>
        skillUsages == UsagesFor(data, selected.value) && selectedSkill == selected.value && open
      ensures selected.None? || selected.value == "" ==> unchanged(this)
    {
      if selected.Some? && selected.value != "" {
        HandleSkillClick(selected.value);
      }
    }
  }
}
