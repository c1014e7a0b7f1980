/**
  `search_jobs`: walk platforms x locations in order, fabricate one scored
  record per pair that gets a URL, then rank the records.
  The clock is read once per record (`datetime.now()`, app.py:412): the parameter
  `clock` gives the date it shows when the record numbered `i` is built.

  The two loops are modelled once, over an arbitrary loop body (`Inner`, `Outer`),
  and their contract is stated against an independent description of the pairs
  they visit (`Visits`); `Generate` then plugs in the search's own loop body.
 */
module Search {
  import opened Wrappers
  import opened Platforms
  import opened Listings
  import opened Ranking

  /** The requested platforms that the table knows, in request order. */
  function KnownOnly(platforms: seq<string>): (r: seq<string>)
    ensures |r| <= |platforms|
    ensures forall k :: 0 <= k < |r| ==> Known(r[k])
  {
    if |platforms| == 0 then []
    else (if Known(platforms[0]) then [platforms[0]] else []) + KnownOnly(platforms[1..])
  }

  /** A platform survives the filter exactly when it was requested and the table knows it. */
  lemma {:induction false} KnownOnlyMembers(platforms: seq<string>, p: string)
    ensures p in KnownOnly(platforms) <==> p in platforms && Known(p)
  {
    if |platforms| > 0 {
      KnownOnlyMembers(platforms[1..], p);
      assert platforms == [platforms[0]] + platforms[1..];
    }
  }

  /** Filtering twice changes nothing. */
  lemma {:induction false} KnownOnlyIdempotent(platforms: seq<string>)
    ensures KnownOnly(KnownOnly(platforms)) == KnownOnly(platforms)
  {
    if |platforms| > 0 {
      KnownOnlyIdempotent(platforms[1..]);
      var rest := KnownOnly(platforms[1..]);
      if Known(platforms[0]) {
        var known := [platforms[0]] + rest;
        assert KnownOnly(platforms) == known;
        assert known[0] == platforms[0] && known[1..] == rest;
        assert KnownOnly(known) == [platforms[0]] + KnownOnly(rest);
      } else {
        assert KnownOnly(platforms) == rest;
      }
    }
  }

  /** One platform's pairs: the platform with each location in turn. */
  function Row(platform: string, locations: seq<string>): (r: seq<(string, string)>)
    ensures |r| == |locations|
    ensures forall j :: 0 <= j < |r| ==> r[j].0 == platform && r[j].1 == locations[j]
  {
    if |locations| == 0 then [] else [(platform, locations[0])] + Row(platform, locations[1..])
  }

  /**
    The (platform, location) pairs for which the loops get a URL, in loop order:
    the platform-major walk over the request, skipping platforms the table does not know.
   */
  function Visits(platforms: seq<string>, locations: seq<string>): (r: seq<(string, string)>)
    ensures |r| == |KnownOnly(platforms)| * |locations|
  {
    if |platforms| == 0 then []
    else
      var rest := Visits(platforms[1..], locations);
      assert (|KnownOnly(platforms[1..])| + 1) * |locations| == |locations| + |KnownOnly(platforms[1..])| * |locations|;
      (if Known(platforms[0]) then Row(platforms[0], locations) else []) + rest
  }

  /** A pair is visited exactly when its platform is requested and known and its location is requested. */
  lemma {:induction false} VisitsMembers(platforms: seq<string>, locations: seq<string>, p: string, loc: string)
    ensures (p, loc) in Visits(platforms, locations) <==> p in platforms && Known(p) && loc in locations
  {
    if |platforms| > 0 {
      VisitsMembers(platforms[1..], locations, p, loc);
      assert platforms == [platforms[0]] + platforms[1..];
      var row := if Known(platforms[0]) then Row(platforms[0], locations) else [];
      assert Visits(platforms, locations) == row + Visits(platforms[1..], locations);
      if p == platforms[0] && Known(p) && loc in locations {
        var j :| 0 <= j < |locations| && locations[j] == loc;
        assert row[j] == (p, loc);
      }
    }
  }

  /** Unknown platforms add no pairs. */
  lemma {:induction false} VisitsKnownOnly(platforms: seq<string>, locations: seq<string>)
    ensures Visits(KnownOnly(platforms), locations) == Visits(platforms, locations)
  {
    if |platforms| > 0 {
      VisitsKnownOnly(platforms[1..], locations);
      var rest := KnownOnly(platforms[1..]);
      var tail := Visits(platforms[1..], locations);
      if Known(platforms[0]) {
        var known := [platforms[0]] + rest;
        assert KnownOnly(platforms) == known;
        assert known[0] == platforms[0] && known[1..] == rest;
        assert Visits(known, locations) == Row(platforms[0], locations) + Visits(rest, locations);
        assert Visits(platforms, locations) == Row(platforms[0], locations) + tail;
      } else {
        assert KnownOnly(platforms) == rest;
        assert Visits(platforms, locations) == [] + tail;
        assert [] + tail == tail;
      }
    }
  }

  /**
    The body of the inner loop for one location: the URL, then the record as the
    `start`-th one; `None` when the loop body ends with `continue` or an error.
   */
  function Step(platform: string, jobTitle: string, location: string, experience: int,
                skills: seq<string>, clock: nat -> string, start: nat): (r: Option<Listing>)
    ensures r.Some? <==> Known(platform)
    ensures r.Some? ==> && r.value.platform == platform
                        && r.value.location == location
                        && SearchUrl(platform, jobTitle, location, experience) == Some(r.value.url)
                        && r.value.title == jobTitle + " (" + platform + ")"
                        && r.value.company == CompanyName(start)
                        && r.value.experience == ExperienceLabel(experience)
                        && r.value.skills == ListingSkills(skills, platform)
                        && r.value.postedDate == clock(start)
                        && 30.0 <= r.value.matchScore <= 100.0
  {
    match SearchUrl(platform, jobTitle, location, experience)
    case None => None
    case Some(url) => Synthesize(jobTitle, location, experience, skills, platform, url, clock(start), start)
  }

  /**
    A loop body: the record for a platform and a location, given the number of
    records produced so far, or `None` to skip the pair.
   */
  type Body = (string, string, nat) -> Option<Listing>

  /** `body` skips a pair exactly when the table does not know its platform, as the search's body does. */
  ghost predicate SkipsUnknown(body: Body) {
    forall p, loc, i :: body(p, loc, i).Some? <==> Known(p)
  }

  /** The search's loop body for the given request. */
  function SearchBody(jobTitle: string, experience: int, skills: seq<string>, clock: nat -> string): (body: Body)
    ensures SkipsUnknown(body)
    ensures forall p, loc, i :: body(p, loc, i) == Step(p, jobTitle, loc, experience, skills, clock, i)
  {
    (p: string, loc: string, i: nat) => Step(p, jobTitle, loc, experience, skills, clock, i)
  }

  /** The inner loop for one platform: `body` at each location in turn, numbering records from `start`. */
  function Inner(body: Body, platform: string, locations: seq<string>, start: nat): (r: seq<Listing>)
    ensures SkipsUnknown(body) && !Known(platform) ==> r == []
    ensures SkipsUnknown(body) && Known(platform) ==>
      && |r| == |locations|
      && forall k :: 0 <= k < |r| ==> body(platform, locations[k], start + k) == Some(r[k])
    decreases |locations|
  {
    if |locations| == 0 then []
    else
      match body(platform, locations[0], start)
      case None => Inner(body, platform, locations[1..], start)
      case Some(l) => [l] + Inner(body, platform, locations[1..], start + 1)
  }

  /**
    Both loops: the records for each platform in turn, numbered consecutively
    from `start`. When the body skips exactly the unknown platforms, the `k`-th
    record is what the body makes for the `k`-th visited pair as record number `start + k`.
   */
  function Outer(body: Body, platforms: seq<string>, locations: seq<string>, start: nat): (r: seq<Listing>)
    ensures SkipsUnknown(body) ==>
      && |r| == |Visits(platforms, locations)|
      && forall k :: 0 <= k < |r| ==>
           body(Visits(platforms, locations)[k].0, Visits(platforms, locations)[k].1, start + k) == Some(r[k])
    decreases |platforms|
  {
    if |platforms| == 0 then []
    else
      var first := Inner(body, platforms[0], locations, start);
      var rest := Outer(body, platforms[1..], locations, start + |first|);
      var row := if Known(platforms[0]) then Row(platforms[0], locations) else [];
      assert Visits(platforms, locations) == row + Visits(platforms[1..], locations);
      assert SkipsUnknown(body) ==> |first| == |row|;
      first + rest
  }

  /** Removing the platforms the body skips leaves the loops' output unchanged, numbering included. */
  lemma OuterSkipsUnknown(body: Body, platforms: seq<string>, locations: seq<string>, start: nat)
    requires SkipsUnknown(body)
    ensures Outer(body, KnownOnly(platforms), locations, start) == Outer(body, platforms, locations, start)
  {
    VisitsKnownOnly(platforms, locations);
    var a := Outer(body, KnownOnly(platforms), locations, start);
    var b := Outer(body, platforms, locations, start);
    assert forall k :: 0 <= k < |a| ==> Some(a[k]) == Some(b[k]);
  }

  /**
    The records the search's loops produce, before ranking: one per visited
    pair, in loop order, carrying that pair's platform and location.
   */
  function Generate(platforms: seq<string>, jobTitle: string, locations: seq<string>, experience: int,
                    skills: seq<string>, clock: nat -> string): (r: seq<Listing>)
    ensures |r| == |KnownOnly(platforms)| * |locations|
    ensures forall k :: 0 <= k < |r| ==>
      && r[k].platform == Visits(platforms, locations)[k].0
      && r[k].location == Visits(platforms, locations)[k].1
      && r[k].skills == ListingSkills(skills, r[k].platform)
      && 30.0 <= r[k].matchScore <= 100.0
  {
    Outer(SearchBody(jobTitle, experience, skills, clock), platforms, locations, 0)
  }

  /** The `k`-th generated record is exactly the loop body's record for the `k`-th visited pair, numbered `k`. */
  lemma GenerateSteps(platforms: seq<string>, jobTitle: string, locations: seq<string>, experience: int,
                      skills: seq<string>, clock: nat -> string, k: nat)
    requires k < |Generate(platforms, jobTitle, locations, experience, skills, clock)|
    ensures Step(Visits(platforms, locations)[k].0, jobTitle, Visits(platforms, locations)[k].1,
                 experience, skills, clock, k)
         == Some(Generate(platforms, jobTitle, locations, experience, skills, clock)[k])
  {
  }

  /** Each generated record is for a requested, known platform and a requested location. */
  lemma GeneratedFields(platforms: seq<string>, jobTitle: string, locations: seq<string>, experience: int,
                        skills: seq<string>, clock: nat -> string, k: nat)
    requires k < |Generate(platforms, jobTitle, locations, experience, skills, clock)|
    ensures var l := Generate(platforms, jobTitle, locations, experience, skills, clock)[k];
      && Known(l.platform) && l.platform in platforms && l.location in locations
      && l.skills == ListingSkills(skills, l.platform) && 30.0 <= l.matchScore <= 100.0
  {
    var v := Visits(platforms, locations);
    assert v[k] in v;
    VisitsMembers(platforms, locations, v[k].0, v[k].1);
  }

  /**
    `search_jobs`: the fabricated records ranked by descending score, platform
    name ascending among equal scores; one record per known platform and location.
   */
  function SearchJobs(jobTitle: string, locations: seq<string>, experience: int, skills: seq<string>,
                      platforms: seq<string>, clock: nat -> string): (r: seq<Listing>)
    ensures |r| == |KnownOnly(platforms)| * |locations|
    ensures multiset(r) == multiset(Generate(platforms, jobTitle, locations, experience, skills, clock))
    ensures Ranked(r)
  {
    var all := Generate(platforms, jobTitle, locations, experience, skills, clock);
    var r := Rank(all);
    RankRanked(all);
    assert |r| == |all| by {
      assert |multiset(r)| == |multiset(all)|;
    }
    r
  }

  /** The result's scores never increase from one record to the next. */
  lemma SearchScoresDescend(jobTitle: string, locations: seq<string>, experience: int, skills: seq<string>,
                            platforms: seq<string>, clock: nat -> string)
    ensures var r := SearchJobs(jobTitle, locations, experience, skills, platforms, clock);
      forall i, j :: 0 <= i < j < |r| ==> r[i].matchScore >= r[j].matchScore
  {
    var all := Generate(platforms, jobTitle, locations, experience, skills, clock);
    RankRanked(all);
    RankedScores(Rank(all));
  }

  /** An element of a permutation of `s` sits at some position of `s`. */
  lemma PositionIn<T>(s: seq<T>, r: seq<T>, x: T) returns (k: nat)
    requires multiset(r) == multiset(s) && x in r
    ensures k < |s| && s[k] == x
  {
    assert x in multiset(r);
    k :| 0 <= k < |s| && s[k] == x;
  }

  /**
    Every record in the result is for a requested, known platform and a requested
    location, lists the user's leading skills and the platform tag, and scores between 30 and 100.
   */
  lemma SearchRecords(jobTitle: string, locations: seq<string>, experience: int, skills: seq<string>,
                      platforms: seq<string>, clock: nat -> string, l: Listing)
    requires l in SearchJobs(jobTitle, locations, experience, skills, platforms, clock)
    ensures && Known(l.platform)
            && l.platform in platforms
            && l.location in locations
            && l.skills == ListingSkills(skills, l.platform)
            && 30.0 <= l.matchScore <= 100.0
  {
    var all := Generate(platforms, jobTitle, locations, experience, skills, clock);
    var k := PositionIn(all, SearchJobs(jobTitle, locations, experience, skills, platforms, clock), l);
    GeneratedFields(platforms, jobTitle, locations, experience, skills, clock, k);
  }

  /** Searching with the unknown platforms removed from the request gives the same result. */
  lemma SearchIgnoresUnknownPlatforms(jobTitle: string, locations: seq<string>, experience: int,
                                      skills: seq<string>, platforms: seq<string>, clock: nat -> string)
    ensures SearchJobs(jobTitle, locations, experience, skills, KnownOnly(platforms), clock)
         == SearchJobs(jobTitle, locations, experience, skills, platforms, clock)
  {
    OuterSkipsUnknown(SearchBody(jobTitle, experience, skills, clock), platforms, locations, 0);
  }

  /**
    The result holds a record for a platform and a location exactly when the
    platform is requested and known and the location is requested.
   */
  lemma SearchCovers(jobTitle: string, locations: seq<string>, experience: int, skills: seq<string>,
                     platforms: seq<string>, clock: nat -> string, platform: string, location: string)
    ensures (exists l :: l in SearchJobs(jobTitle, locations, experience, skills, platforms, clock)
                         && l.platform == platform && l.location == location)
        <==> platform in platforms && Known(platform) && location in locations
  {
    if platform in platforms && Known(platform) && location in locations {
      var all := Generate(platforms, jobTitle, locations, experience, skills, clock);
      var v := Visits(platforms, locations);
      VisitsMembers(platforms, locations, platform, location);
      var k :| 0 <= k < |v| && v[k] == (platform, location);
      var l := all[k];
      assert l.platform == platform && l.location == location;
      assert l in multiset(SearchJobs(jobTitle, locations, experience, skills, platforms, clock));
    } else {
      forall l | l in SearchJobs(jobTitle, locations, experience, skills, platforms, clock)
        ensures !(l.platform == platform && l.location == location)
      {
        SearchRecords(jobTitle, locations, experience, skills, platforms, clock, l);
      }
    }
  }

  /** Records with equal score and platform appear in the order the loops produced them. */
  lemma SearchStable(jobTitle: string, locations: seq<string>, experience: int, skills: seq<string>,
                     platforms: seq<string>, clock: nat -> string, score: real, platform: string)
    ensures WithKey(SearchJobs(jobTitle, locations, experience, skills, platforms, clock), score, platform)
         == WithKey(Generate(platforms, jobTitle, locations, experience, skills, clock), score, platform)
  {
    RankStable(Generate(platforms, jobTitle, locations, experience, skills, clock), score, platform);
  }
}
