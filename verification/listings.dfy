/**
  The synthetic listing record that the job search fabricates for one
  (platform, location) pair, and its match score (the record built and
  scored inside the loop of `search_jobs` in app.py). Scores are exact reals.
 */
module Listings {
  import opened Wrappers
  import opened Text
  import opened Numbers

  datatype Listing = Listing(
    title: string,
    company: string,
    location: string,
    experience: string,
    skills: seq<string>,
    salary: string,
    url: string,
    platform: string,
    postedDate: string,
    matchScore: real)

  /** Python's `s[:n]`: the first n elements, or all of them when there are fewer. */
  function Take<T>(s: seq<T>, n: nat): (r: seq<T>)
    ensures |r| == if |s| < n then |s| else n
    ensures r <= s
  {
    if |s| <= n then s else s[..n]
  }

  /** The skill every listing of a platform advertises in addition to the user's. */
  function SpecializedTag(platform: string): string {
    platform + "-Specialized"
  }

  /** A listing's skills: at most three of the user's leading skills, then the platform's tag. */
  function ListingSkills(skills: seq<string>, platform: string): (r: seq<string>)
    ensures 1 <= |r| <= 4
    ensures |r| == (if |skills| < 3 then |skills| else 3) + 1
    ensures r[..|r| - 1] <= skills
    ensures r[|r| - 1] == SpecializedTag(platform)
  {
    var r := Take(skills, 3) + [SpecializedTag(platform)];
    assert r[..|r| - 1] == Take(skills, 3);
    r
  }

  /** The experience label `"<e>+ years"`. */
  function ExperienceLabel(experience: int): (r: string)
    ensures Split(r, '+') == [Show(experience), " years"]
  {
    var digits := Show(experience);
    assert '+' !in digits by {
      assert forall k :: 0 <= k < |digits| ==> IsDigit(digits[k]) || digits[k] == '-';
    }
    assert digits + "+ years" == digits + ['+'] + " years";
    SplitPair(digits, " years", '+');
    digits + "+ years"
  }

  /** `int(label.split("+")[0])`; `None` where Python raises `ValueError`. */
  function LabelYears(text: string): (r: Option<int>)
    ensures '+' !in text ==> r == ParseInt(text)
  {
    var head := Split(text, '+')[0];
    assert '+' !in text ==> head == text by {
      if '+' !in text {
        SplitWithoutSeparator(text, '+');
      }
    }
    ParseInt(head)
  }

  /** The experience label reads back as the experience it was printed from. */
  lemma LabelRoundTrip(experience: int)
    ensures LabelYears(ExperienceLabel(experience)) == Some(experience)
  {
    ParseShow(experience);
  }

  /** `set(s)`. */
  function Distinct<T>(s: seq<T>): set<T> {
    set x | x in s
  }

  lemma {:induction false} DistinctBound<T>(s: seq<T>)
    ensures |Distinct(s)| <= |s|
  {
    if |s| > 0 {
      DistinctBound(s[1..]);
      assert Distinct(s) == Distinct(s[1..]) + {s[0]};
    }
  }

  /**
    `len(set(user) & set(listed)) / len(listed) * 100`: the percentage of the
    listing's skill entries that the user's skills cover, counting each distinct
    skill once. A listing always has at least one skill, so the division is defined.
   */
  function SkillOverlap(user: seq<string>, listed: seq<string>): (r: real)
    requires |listed| > 0
    ensures 0.0 <= r <= 100.0
    ensures r > 0.0 <==> exists s :: s in listed && s in user
  {
    var common := Distinct(user) * Distinct(listed);
    DistinctBound(listed);
    assert |common| <= |Distinct(listed)| by {
      SubsetCardinality(common, Distinct(listed));
    }
    assert |common| > 0 <==> exists s :: s in listed && s in user by {
      if exists s :: s in listed && s in user {
        var s :| s in listed && s in user;
        assert s in common;
      }
    }
    (|common| as real) / (|listed| as real) * 100.0
  }

  lemma SubsetCardinality<T>(a: set<T>, b: set<T>)
    requires a <= b
    ensures |a| <= |b|
  {
    assert b == a + (b - a);
  }

  function Abs(n: int): nat {
    if n < 0 then -n else n
  }

  /** `100 - abs(requested - listed) * 10`: full marks only on an exact match, 10 points off per year. */
  function ExpProximity(requested: int, listed: int): (r: int)
    ensures r <= 100
    ensures r == 100 <==> requested == listed
    ensures r < 0 <==> Abs(requested - listed) > 10
  {
    100 - Abs(requested - listed) * 10
  }

  /** `min(100, overlap * 0.7 + proximity * 0.3)`. */
  function MatchScore(overlap: real, proximity: int): (r: real)
    ensures r <= 100.0
    ensures 0.0 <= overlap && 0 <= proximity ==> 0.0 <= r
    ensures overlap <= 100.0 && proximity <= 100 ==> r == overlap * 0.7 + proximity as real * 0.3
  {
    var blend := overlap * 0.7 + proximity as real * 0.3;
    if blend < 100.0 then blend else 100.0
  }

  /** The company name of the `index`-th record (counting from 0). */
  function CompanyName(index: nat): (r: string)
    ensures |r| > 15 && r[..15] == "Sample Company "
    ensures ParseInt(r[15..]) == Some(index + 1)
  {
    var r := "Sample Company " + Show(index + 1);
    assert r[15..] == Show(index + 1);
    ParseShow(index + 1);
    r
  }

  /** Records at different positions name different companies. */
  lemma CompanyNameInjective(i: nat, j: nat)
    requires CompanyName(i) == CompanyName(j)
    ensures i == j
  {
  }

  /**
    One iteration of the inner loop of the search, given the URL already built:
    the fabricated record with its score, or `None` where the body would raise
    (only the experience-label parse can fail), in which case the loop skips it.
    `index` is the number of records produced so far.
   */
  function Synthesize(jobTitle: string, location: string, experience: int, skills: seq<string>,
                      platform: string, url: string, today: string, index: nat): (r: Option<Listing>)
    ensures r.Some?
    ensures r.value.platform == platform && r.value.location == location && r.value.url == url
    ensures 30.0 <= r.value.matchScore <= 100.0
    ensures && r.value.title == jobTitle + " (" + platform + ")"
            && r.value.company == CompanyName(index)
            && r.value.experience == ExperienceLabel(experience)
            && r.value.skills == ListingSkills(skills, platform)
            && r.value.postedDate == today
  {
    var shown := ExperienceLabel(experience);
    var listed := ListingSkills(skills, platform);
    LabelRoundTrip(experience);
    match LabelYears(shown)
    case None => None
    case Some(years) =>
      Some(Listing(
        title := jobTitle + " (" + platform + ")",
        company := CompanyName(index),
        location := location,
        experience := shown,
        skills := listed,
        salary := "\U{20B9}" + Show(10 + index * 2) + "-" + Show(15 + index * 3) + " LPA",
        url := url,
        platform := platform,
        postedDate := today,
        matchScore := MatchScore(SkillOverlap(skills, listed), ExpProximity(experience, years))))
  }

  /**
    The experience term of every fabricated record is exactly 100, so its score is
    the skill overlap blended with full experience marks, and never below 30.
   */
  lemma SynthesizedScore(jobTitle: string, location: string, experience: int, skills: seq<string>,
                         platform: string, url: string, today: string, index: nat)
    ensures Synthesize(jobTitle, location, experience, skills, platform, url, today, index).value.matchScore
         == SkillOverlap(skills, ListingSkills(skills, platform)) * 0.7 + 30.0
    ensures 30.0 <= Synthesize(jobTitle, location, experience, skills, platform, url, today, index).value.matchScore
  {
    LabelRoundTrip(experience);
  }

  /**
    The skills a record shares with the user: the user's leading (at most three)
    skills, plus the platform tag when the user lists it too.
   */
  lemma ListingCommonSkills(skills: seq<string>, platform: string)
    ensures Distinct(skills) * Distinct(ListingSkills(skills, platform))
         == Distinct(Take(skills, 3)) + (if SpecializedTag(platform) in skills then {SpecializedTag(platform)} else {})
  {
    var listed := ListingSkills(skills, platform);
    assert listed == Take(skills, 3) + [SpecializedTag(platform)];
    assert forall x :: x in Take(skills, 3) ==> x in skills;
  }

  /**
    Skills Python and SQL on Naukri with 3 years requested
    share two of three listed skills, so the score is 0.7 * 200/3 + 30 = 230/3,
    whatever the title, location, URL and date.
   */
  lemma NaukriExample(jobTitle: string, location: string, url: string, today: string)
    ensures Synthesize(jobTitle, location, 3, ["Python", "SQL"], "Naukri", url, today, 0).value.matchScore
         == 230.0 / 3.0
  {
    NaukriExampleOverlap();
    SynthesizedScore(jobTitle, location, 3, ["Python", "SQL"], "Naukri", url, today, 0);
  }

  /** Python and SQL against the Naukri listing: two shared skills of three listed. */
  lemma NaukriExampleOverlap()
    ensures SkillOverlap(["Python", "SQL"], ListingSkills(["Python", "SQL"], "Naukri")) == 200.0 / 3.0
  {
    var skills := ["Python", "SQL"];
    var listed := ListingSkills(skills, "Naukri");
    assert Take(skills, 3) == skills;
    assert SpecializedTag("Naukri") == "Naukri-Specialized";
    assert listed == ["Python", "SQL", "Naukri-Specialized"];
    ListingCommonSkills(skills, "Naukri");
    assert "Naukri-Specialized" !in skills;
    assert Distinct(skills) == {"Python", "SQL"};
    assert |Distinct(skills) * Distinct(listed)| == 2;
  }
}
