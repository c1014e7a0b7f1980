/**
  The platform table and the per-platform search-URL builder
  (`JOB_PLATFORMS` and `generate_search_url` in app.py).
 */
module Platforms {
  import opened Wrappers
  import opened Text
  import opened Numbers

  /** The rows of the platform table, each with its key and base URL. */
  datatype Platform = Naukri | Indeed | Monster | LinkedIn | PayScale {
    function Name(): string {
      match this
      case Naukri => "Naukri"
      case Indeed => "Indeed"
      case Monster => "Monster"
      case LinkedIn => "LinkedIn"
      case PayScale => "PayScale"
    }

    function Url(): string {
      match this
      case Naukri => "https://www.naukri.com"
      case Indeed => "https://www.indeed.com"
      case Monster => "https://www.monsterindia.com"
      case LinkedIn => "https://www.linkedin.com/jobs"
      case PayScale => "https://www.payscale.com"
    }
  }

  /** The keys of the table. */
  predicate Known(name: string) {
    name in {"Naukri", "Indeed", "Monster", "LinkedIn", "PayScale"}
  }

  /** `JOB_PLATFORMS.get(name)`: the table row of a platform, found by exact, case-sensitive name. */
  function Lookup(name: string): (r: Option<Platform>)
    ensures r.Some? <==> Known(name)
    ensures r.Some? ==> r.value.Name() == name
  {
    if name == "Naukri" then Some(Naukri)
    else if name == "Indeed" then Some(Indeed)
    else if name == "Monster" then Some(Monster)
    else if name == "LinkedIn" then Some(LinkedIn)
    else if name == "PayScale" then Some(PayScale)
    else None
  }

  /** Looking up a row's own name finds that row. */
  lemma LookupName(p: Platform)
    ensures Lookup(p.Name()) == Some(p)
  {
  }

  /** The cleaned form of a title or location: stripped, ASCII-lowercased, spaces turned into hyphens. */
  function Slug(s: string): (r: string)
    ensures forall k :: 0 <= k < |r| ==> r[k] != ' '
    ensures forall k :: 0 <= k < |r| ==> !('A' <= r[k] <= 'Z')
  {
    ReplaceSpaces(Lower(Strip(s)))
  }

  /** A cleaned string keeps the length of the stripped input and neither starts nor ends with whitespace. */
  lemma SlugTrimmed(s: string)
    ensures |Slug(s)| == |Strip(s)|
    ensures Trimmed(Slug(s))
  {
    var t := Strip(s);
    assert |Slug(s)| > 0 ==> !IsSpace(t[0]) && !IsSpace(t[|t| - 1]);
  }

  /** A string that is trimmed, has no spaces and no ASCII capitals is its own cleaned form. */
  lemma SlugOfClean(t: string)
    requires Trimmed(t)
    requires forall k :: 0 <= k < |t| ==> t[k] != ' ' && !('A' <= t[k] <= 'Z')
    ensures Slug(t) == t
  {
    assert Strip(t) == t;
    LowerIdentity(t);
    ReplaceSpacesIdentity(t);
  }

  /** Cleaning an already clean string changes nothing. */
  lemma SlugIdempotent(s: string)
    ensures Slug(Slug(s)) == Slug(s)
  {
    SlugTrimmed(s);
    SlugOfClean(Slug(s));
  }

  /** The three Indeed experience levels, in increasing order of seniority. */
  datatype IndeedLevel = EntryLevel | MidLevel | SeniorLevel {
    /** The value of the `explvl` URL parameter. */
    function Param(): string {
      match this
      case EntryLevel => "entry_level"
      case MidLevel => "mid_level"
      case SeniorLevel => "senior_level"
    }

    function Ordinal(): nat {
      match this
      case EntryLevel => 0
      case MidLevel => 1
      case SeniorLevel => 2
    }
  }

  /** Indeed's experience bucket: below 1 year, 1 to under 3 years, 3 years and more. */
  function IndeedBucket(experience: int): (b: IndeedLevel)
    ensures b == EntryLevel <==> experience < 1
    ensures b == MidLevel <==> 1 <= experience < 3
    ensures b == SeniorLevel <==> 3 <= experience
  {
    if experience < 1 then EntryLevel
    else if experience < 3 then MidLevel
    else SeniorLevel
  }

  /** More experience never gives a lower Indeed level. */
  lemma IndeedBucketMonotone(e1: int, e2: int)
    requires e1 <= e2
    ensures IndeedBucket(e1).Ordinal() <= IndeedBucket(e2).Ordinal()
  {
  }

  /** The level parameter identifies the level. */
  lemma IndeedParamInjective(a: IndeedLevel, b: IndeedLevel)
    requires a.Param() == b.Param()
    ensures a == b
  {
  }

  /** LinkedIn's `f_E` experience code: "1" below 2 years, "2" below 5, "3" below 10, else "4". */
  function LinkedInCode(experience: int): (code: string)
    ensures |code| == 1 && '1' <= code[0] <= '4'
    ensures code == "1" <==> experience < 2
    ensures code == "2" <==> 2 <= experience < 5
    ensures code == "3" <==> 5 <= experience < 10
    ensures code == "4" <==> 10 <= experience
  {
    if experience < 2 then "1"
    else if experience < 5 then "2"
    else if experience < 10 then "3"
    else "4"
  }

  /** More experience never gives a lower LinkedIn code. */
  lemma LinkedInCodeMonotone(e1: int, e2: int)
    requires e1 <= e2
    ensures LinkedInCode(e1)[0] <= LinkedInCode(e2)[0]
  {
  }

  /** Monster's experience range `e-(e+2)`. */
  function MonsterRange(experience: int): (r: string)
    ensures experience >= 0 ==> Split(r, '-') == [Show(experience), Show(experience + 2)]
  {
    var lo, hi := Show(experience), Show(experience + 2);
    assert experience >= 0 ==> Split(lo + "-" + hi, '-') == [lo, hi] by {
      if experience >= 0 {
        assert '-' !in lo && '-' !in hi by {
          assert AllDigits(lo) && AllDigits(hi);
        }
        SplitPair(lo, hi, '-');
      }
    }
    lo + "-" + hi
  }

  /** For a non-negative experience the range reads back as its two bounds, two years apart. */
  lemma MonsterRangeBounds(experience: int)
    requires 0 <= experience
    ensures Split(MonsterRange(experience), '-') == [Show(experience), Show(experience + 2)]
    ensures ParseInt(Split(MonsterRange(experience), '-')[0]) == Some(experience)
    ensures ParseInt(Split(MonsterRange(experience), '-')[1]) == Some(experience + 2)
  {
    ParseShow(experience);
    ParseShow(experience + 2);
  }

  /**
    `generate_search_url`: `None` for a platform not in the table, otherwise the
    platform's base URL followed by its search path with the cleaned title and
    location and the platform's own experience encoding.
   */
  function SearchUrl(platform: string, jobTitle: string, location: string, experience: int): (r: Option<string>)
    ensures r.Some? <==> Known(platform)
  {
    match Lookup(platform)
    case None => None
    case Some(row) => Some(UrlFor(row, Slug(jobTitle), Slug(location), experience))
  }

  /** The URL for a table row: its base URL, then the search path. */
  function UrlFor(row: Platform, title: string, place: string, experience: int): (r: string)
    ensures row.Url() <= r
  {
    var path := SearchPath(row, title, place, experience);
    assert (row.Url() + path)[..|row.Url()|] == row.Url();
    row.Url() + path
  }

  /** The search path of each platform, given the already cleaned title and location. */
  function SearchPath(row: Platform, title: string, place: string, experience: int): (r: string)
    ensures |r| > 0 && r[0] == '/'
  {
    match row
    case Naukri => "/" + title + "-jobs-in-" + place + "?experience=" + Show(experience)
    case Indeed => "/jobs?q=" + title + "&l=" + place + "&explvl=" + IndeedBucket(experience).Param()
    case Monster => "/search/" + title + "-jobs-in-" + place + "?exp=" + MonsterRange(experience)
    case LinkedIn => "/search/?keywords=" + title + "&location=" + place + "&f_E=" + LinkedInCode(experience)
    case PayScale => "/research/IN/Job=" + title + "/Salary"
  }

  /** Title and location enter the URL only through their cleaned forms. */
  lemma SearchUrlSeesOnlySlugs(platform: string, t1: string, t2: string, l1: string, l2: string, experience: int)
    requires Slug(t1) == Slug(t2) && Slug(l1) == Slug(l2)
    ensures SearchUrl(platform, t1, l1, experience) == SearchUrl(platform, t2, l2, experience)
  {
  }

  /** The PayScale URL depends on the job title alone. */
  lemma PayScaleUrlIgnoresLocationAndExperience(jobTitle: string, l1: string, l2: string, e1: int, e2: int)
    ensures SearchUrl("PayScale", jobTitle, l1, e1) == SearchUrl("PayScale", jobTitle, l2, e2)
  {
  }

  lemma AppendCancel(p: string, a: string, b: string)
    requires p + a == p + b
    ensures a == b
  {
    assert a == (p + a)[|p|..];
    assert b == (p + b)[|p|..];
  }

  /** Two Indeed URLs for the same search agree exactly when the experience levels agree. */
  lemma IndeedUrlReflectsBucket(jobTitle: string, location: string, e1: int, e2: int)
    ensures SearchUrl("Indeed", jobTitle, location, e1) == SearchUrl("Indeed", jobTitle, location, e2)
        <==> IndeedBucket(e1) == IndeedBucket(e2)
  {
    var p := "/jobs?q=" + Slug(jobTitle) + "&l=" + Slug(location) + "&explvl=";
    if SearchUrl("Indeed", jobTitle, location, e1) == SearchUrl("Indeed", jobTitle, location, e2) {
      AppendCancel(Indeed.Url(), SearchPath(Indeed, Slug(jobTitle), Slug(location), e1), SearchPath(Indeed, Slug(jobTitle), Slug(location), e2));
      AppendCancel(p, IndeedBucket(e1).Param(), IndeedBucket(e2).Param());
      IndeedParamInjective(IndeedBucket(e1), IndeedBucket(e2));
    }
  }

  /** Two LinkedIn URLs for the same search agree exactly when the experience codes agree. */
  lemma LinkedInUrlReflectsCode(jobTitle: string, location: string, e1: int, e2: int)
    ensures SearchUrl("LinkedIn", jobTitle, location, e1) == SearchUrl("LinkedIn", jobTitle, location, e2)
        <==> LinkedInCode(e1) == LinkedInCode(e2)
  {
    var p := "/search/?keywords=" + Slug(jobTitle) + "&location=" + Slug(location) + "&f_E=";
    if SearchUrl("LinkedIn", jobTitle, location, e1) == SearchUrl("LinkedIn", jobTitle, location, e2) {
      AppendCancel(LinkedIn.Url(), SearchPath(LinkedIn, Slug(jobTitle), Slug(location), e1), SearchPath(LinkedIn, Slug(jobTitle), Slug(location), e2));
      AppendCancel(p, LinkedInCode(e1), LinkedInCode(e2));
    }
  }

  /** Naukri URLs for the same search differ for every different experience value. */
  lemma NaukriUrlReflectsExperience(jobTitle: string, location: string, e1: int, e2: int)
    ensures SearchUrl("Naukri", jobTitle, location, e1) == SearchUrl("Naukri", jobTitle, location, e2)
        <==> e1 == e2
  {
    var p := "/" + Slug(jobTitle) + "-jobs-in-" + Slug(location) + "?experience=";
    if SearchUrl("Naukri", jobTitle, location, e1) == SearchUrl("Naukri", jobTitle, location, e2) {
      AppendCancel(Naukri.Url(), SearchPath(Naukri, Slug(jobTitle), Slug(location), e1), SearchPath(Naukri, Slug(jobTitle), Slug(location), e2));
      AppendCancel(p, Show(e1), Show(e2));
      ShowInjective(e1, e2);
    }
  }

  /** In a printed integer followed by a dash, the first dash after position 0 is that one. */
  lemma DashAfterPrint(e: int, rest: string)
    ensures (Show(e) + "-" + rest)[|Show(e)|] == '-'
    ensures forall k :: 0 < k < |Show(e)| ==> (Show(e) + "-" + rest)[k] != '-'
  {
  }

  /** Monster ranges of different experience values differ. */
  lemma MonsterRangeInjective(e1: int, e2: int)
    requires MonsterRange(e1) == MonsterRange(e2)
    ensures e1 == e2
  {
    var a := Show(e1);
    var b := Show(e2);
    var m := MonsterRange(e1);
    assert m == b + "-" + Show(e2 + 2);
    if |a| < |b| {
      DashAfterPrint(e1, Show(e1 + 2));
      assert false;
    } else if |b| < |a| {
      DashAfterPrint(e2, Show(e2 + 2));
      assert false;
    }
    assert a == m[..|a|];
    assert b == m[..|b|];
    ShowInjective(e1, e2);
  }

  /** Monster URLs for the same search differ for every different experience value. */
  lemma MonsterUrlReflectsExperience(jobTitle: string, location: string, e1: int, e2: int)
    ensures SearchUrl("Monster", jobTitle, location, e1) == SearchUrl("Monster", jobTitle, location, e2)
        <==> e1 == e2
  {
    var p := "/search/" + Slug(jobTitle) + "-jobs-in-" + Slug(location) + "?exp=";
    if SearchUrl("Monster", jobTitle, location, e1) == SearchUrl("Monster", jobTitle, location, e2) {
      AppendCancel(Monster.Url(), SearchPath(Monster, Slug(jobTitle), Slug(location), e1), SearchPath(Monster, Slug(jobTitle), Slug(location), e2));
      AppendCancel(p, MonsterRange(e1), MonsterRange(e2));
      MonsterRangeInjective(e1, e2);
    }
  }
}
