/**
  The search patterns the platform table documents next to each base URL, and
  how the URLs the builder prints relate to them: four of the five paths are
  their pattern with the placeholders filled in, the Monster path is not.
 */
module PlatformPatterns {
  import Text
  import opened Numbers
  import opened Patterns
  import opened Platforms

  /** The documented pattern of a row, read as its pieces. */
  function Template(row: Platform): Template {
    match row
    case Naukri => Literal("/", Hole("job_title", Literal("-jobs-in-", Hole("location", Literal("?experience=", Hole("experience", End))))))
    case Indeed => Literal("/jobs?q=", Hole("job_title", Literal("&l=", Hole("location", Literal("&explvl=", Hole("experience_level", End))))))
    case Monster => Literal("/search/", Hole("job_title", Literal("-jobs-in-", Hole("location", Literal("?exp=", Hole("experience", End))))))
    case LinkedIn => Literal("/search/?keywords=", Hole("job_title", Literal("&location=", Hole("location", Literal("&f_E=", Hole("experience_code", End))))))
    case PayScale => Literal("/research/IN/Job=", Hole("job_title", Literal("/Salary", End)))
  }

  /** The documented pattern string, such as `/jobs?q={job_title}&l={location}&explvl={experience_level}`. */
  function SearchPattern(row: Platform): string {
    Render(Template(row))
  }

  /** The values the patterns name: the cleaned title and location, and the experience in its platform forms. */
  function Placeholders(title: string, place: string, experience: int): string -> string {
    name =>
      if name == "job_title" then title
      else if name == "location" then place
      else if name == "experience" then Show(experience)
      else if name == "experience_level" then IndeedBucket(experience).Param()
      else if name == "experience_code" then LinkedInCode(experience)
      else "{" + name + "}"
  }

  lemma NaukriPlain()
    ensures Plain(Template(Naukri))
  {
    assert BraceFree("/");
    assert BraceFree("job_title");
    assert BraceFree("-jobs-in-");
    assert BraceFree("location");
    assert BraceFree("?experience=");
    assert BraceFree("experience");
  }

  lemma NaukriPattern(vals: string -> string)
    ensures Eval(Template(Naukri), vals)
      == "/" + vals("job_title") + "-jobs-in-" + vals("location") + "?experience=" + vals("experience")
  {
  }

  lemma IndeedPlain()
    ensures Plain(Template(Indeed))
  {
    assert BraceFree("/jobs?q=");
    assert BraceFree("job_title");
    assert BraceFree("&l=");
    assert BraceFree("location");
    assert BraceFree("&explvl=");
    assert BraceFree("experience_level");
  }

  lemma IndeedPattern(vals: string -> string)
    ensures Eval(Template(Indeed), vals)
      == "/jobs?q=" + vals("job_title") + "&l=" + vals("location") + "&explvl=" + vals("experience_level")
  {
  }

  lemma MonsterPlain()
    ensures Plain(Template(Monster))
  {
    assert BraceFree("/search/");
    assert BraceFree("job_title");
    assert BraceFree("-jobs-in-");
    assert BraceFree("location");
    assert BraceFree("?exp=");
    assert BraceFree("experience");
  }

  lemma MonsterPattern(vals: string -> string)
    ensures Eval(Template(Monster), vals)
      == "/search/" + vals("job_title") + "-jobs-in-" + vals("location") + "?exp=" + vals("experience")
  {
  }

  lemma LinkedInPlain()
    ensures Plain(Template(LinkedIn))
  {
    assert BraceFree("/search/?keywords=");
    assert BraceFree("job_title");
    assert BraceFree("&location=");
    assert BraceFree("location");
    assert BraceFree("&f_E=");
    assert BraceFree("experience_code");
  }

  lemma LinkedInPattern(vals: string -> string)
    ensures Eval(Template(LinkedIn), vals)
      == "/search/?keywords=" + vals("job_title") + "&location=" + vals("location") + "&f_E=" + vals("experience_code")
  {
  }

  lemma PayScalePlain()
    ensures Plain(Template(PayScale))
  {
    assert BraceFree("/research/IN/Job=");
    assert BraceFree("job_title");
    assert BraceFree("/Salary");
  }

  lemma PayScalePattern(vals: string -> string)
    ensures Eval(Template(PayScale), vals) == "/research/IN/Job=" + vals("job_title") + "/Salary"
  {
  }

  /** The Naukri, Indeed, LinkedIn and PayScale paths are their documented patterns with the placeholders filled in. */
  lemma SearchPathFollowsPattern(row: Platform, title: string, place: string, experience: int)
    requires row != Monster
    ensures SearchPath(row, title, place, experience) == Fill(SearchPattern(row), Placeholders(title, place, experience))
  {
    var v := Placeholders(title, place, experience);
    FollowsPattern(row, v);
    assert v("job_title") == title && v("location") == place;
    match row
    case Naukri =>
      NaukriPattern(v);
      assert v("experience") == Show(experience);
    case Indeed =>
      IndeedPattern(v);
      assert v("experience_level") == IndeedBucket(experience).Param();
    case LinkedIn =>
      LinkedInPattern(v);
      assert v("experience_code") == LinkedInCode(experience);
    case PayScale =>
      PayScalePattern(v);
  }

  /** Filling a row's pattern string gives its pieces' values. */
  lemma FollowsPattern(row: Platform, vals: string -> string)
    ensures Fill(SearchPattern(row), vals) == Eval(Template(row), vals)
  {
    TemplatePlain(row);
    FillRender(Template(row), vals);
  }

  /** No piece of a documented pattern holds a brace of its own. */
  lemma TemplatePlain(row: Platform)
    ensures Plain(Template(row))
  {
    match row
    case Naukri => NaukriPlain();
    case Indeed => IndeedPlain();
    case Monster => MonsterPlain();
    case LinkedIn => LinkedInPlain();
    case PayScale => PayScalePlain();
  }

  /**
    The Monster path departs from its pattern: where the pattern names the
    experience once, the path prints the range from it to two years more.
   */
  lemma MonsterDepartsFromPattern(title: string, place: string, experience: int)
    ensures SearchPath(Monster, title, place, experience)
      == Fill(SearchPattern(Monster), Placeholders(title, place, experience)) + "-" + Show(experience + 2)
  {
    var v := Placeholders(title, place, experience);
    MonsterPattern(v);
    FollowsPattern(Monster, v);
    assert v("job_title") == title && v("location") == place && v("experience") == Show(experience);
    var p := "/search/" + title + "-jobs-in-" + place + "?exp=";
    assert SearchPath(Monster, title, place, experience) == p + (Show(experience) + "-" + Show(experience + 2));
    Text.AppendAssoc(p, Show(experience) + "-", Show(experience + 2));
    Text.AppendAssoc(p, Show(experience), "-");
  }
}
