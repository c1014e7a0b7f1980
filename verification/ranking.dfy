/**
  The final ordering of the search: `sorted(results, key=lambda x: (-x["match_score"], x["platform"]))`.
  Python's sort is stable, so it is modelled as an insertion sort that places
  each later record after every earlier record with the same key.
 */
module Ranking {
  import opened Text
  import opened Listings

  /** `a` has a strictly smaller sort key than `b`: a higher score, or an equal score and an earlier platform name. */
  predicate Before(a: Listing, b: Listing)
    ensures a.matchScore > b.matchScore ==> Before(a, b)
    ensures Before(a, b) ==> a.matchScore >= b.matchScore
  {
    a.matchScore > b.matchScore || (a.matchScore == b.matchScore && StrLess(a.platform, b.platform))
  }

  /** `l` has the sort key (-score, platform). */
  predicate HasKey(l: Listing, score: real, platform: string) {
    l.matchScore == score && l.platform == platform
  }

  /** Non-increasing score, and platform names ascending among equal scores. */
  predicate Ranked(s: seq<Listing>) {
    forall i, j :: 0 <= i < j < |s| ==> !Before(s[j], s[i])
  }

  lemma BeforeIrreflexive(a: Listing)
    ensures !Before(a, a)
  {
    StrLessIrreflexive(a.platform);
  }

  lemma BeforeTransitive(a: Listing, b: Listing, c: Listing)
    requires Before(a, b) && Before(b, c)
    ensures Before(a, c)
  {
    if a.matchScore == b.matchScore == c.matchScore {
      StrLessTransitive(a.platform, b.platform, c.platform);
    }
  }

  /** Records with different keys are ordered one way or the other. */
  lemma BeforeTotal(a: Listing, b: Listing)
    requires !HasKey(a, b.matchScore, b.platform)
    ensures Before(a, b) || Before(b, a)
  {
    if a.matchScore == b.matchScore {
      StrLessTotal(a.platform, b.platform);
    }
  }

  /** Inserts `x` before the first record it sorts strictly before, so after all records with its key. */
  function Insert(x: Listing, s: seq<Listing>): (r: seq<Listing>)
    ensures multiset(r) == multiset(s) + multiset{x}
  {
    if |s| == 0 then [x]
    else if Before(x, s[0]) then [x] + s
    else
      assert s == [s[0]] + s[1..];
      [s[0]] + Insert(x, s[1..])
  }

  /** The stable sort: each record in input order is inserted into the ranking of those before it. */
  function Rank(s: seq<Listing>): (r: seq<Listing>)
    ensures multiset(r) == multiset(s)
  {
    if |s| == 0 then []
    else
      assert s == s[..|s| - 1] + [s[|s| - 1]];
      Insert(s[|s| - 1], Rank(s[..|s| - 1]))
  }

  lemma {:induction false} InsertRanked(x: Listing, s: seq<Listing>)
    requires Ranked(s)
    ensures Ranked(Insert(x, s))
  {
    if |s| == 0 {
    } else if Before(x, s[0]) {
      var r := Insert(x, s);
      forall i, j | 0 <= i < j < |r|
        ensures !Before(r[j], r[i])
      {
        if i == 0 {
          if Before(r[j], x) {
            if j == 1 {
              BeforeTransitive(x, s[0], x);
              BeforeIrreflexive(x);
            } else {
              BeforeTransitive(s[j - 1], x, s[0]);
            }
          }
        }
      }
    } else {
      var rest := Insert(x, s[1..]);
      InsertRanked(x, s[1..]);
      var r := [s[0]] + rest;
      forall i, j | 0 <= i < j < |r|
        ensures !Before(r[j], r[i])
      {
        if i == 0 {
          assert r[j] in multiset(rest);
          assert r[j] == x || r[j] in s[1..];
        }
      }
    }
  }

  /** The ranking is ordered by descending score, platform name ascending on ties. */
  lemma {:induction false} RankRanked(s: seq<Listing>)
    ensures Ranked(Rank(s))
  {
    if |s| > 0 {
      RankRanked(s[..|s| - 1]);
      InsertRanked(s[|s| - 1], Rank(s[..|s| - 1]));
    }
  }

  /** In a ranking, scores never increase from one record to a later one. */
  lemma RankedScores(s: seq<Listing>)
    requires Ranked(s)
    ensures forall i, j :: 0 <= i < j < |s| ==> s[i].matchScore >= s[j].matchScore
  {
    forall i, j | 0 <= i < j < |s|
      ensures s[i].matchScore >= s[j].matchScore
    {
      assert !Before(s[j], s[i]);
    }
  }

  /** The records of `s` with a given key, in order. */
  function WithKey(s: seq<Listing>, score: real, platform: string): (r: seq<Listing>)
    ensures forall k :: 0 <= k < |r| ==> HasKey(r[k], score, platform)
  {
    if |s| == 0 then []
    else (if HasKey(s[0], score, platform) then [s[0]] else []) + WithKey(s[1..], score, platform)
  }

  lemma {:induction false} WithKeyAppend(a: seq<Listing>, b: seq<Listing>, score: real, platform: string)
    ensures WithKey(a + b, score, platform) == WithKey(a, score, platform) + WithKey(b, score, platform)
  {
    if |a| == 0 {
      assert a + b == b;
    } else {
      assert (a + b)[1..] == a[1..] + b;
      WithKeyAppend(a[1..], b, score, platform);
      WithKeyCons(a[0], a[1..] + b, score, platform);
      WithKeyCons(a[0], a[1..], score, platform);
      assert a + b == [a[0]] + (a[1..] + b);
      assert a == [a[0]] + a[1..];
    }
  }

  lemma WithKeyCons(x: Listing, s: seq<Listing>, score: real, platform: string)
    ensures WithKey([x] + s, score, platform)
         == (if HasKey(x, score, platform) then [x] else []) + WithKey(s, score, platform)
  {
    assert ([x] + s)[1..] == s;
  }

  lemma {:induction false} WithKeyNone(s: seq<Listing>, score: real, platform: string)
    requires forall k :: 0 <= k < |s| ==> !HasKey(s[k], score, platform)
    ensures WithKey(s, score, platform) == []
  {
    if |s| > 0 {
      WithKeyNone(s[1..], score, platform);
    }
  }

  /** A record that sorts strictly before the head of a ranking shares its key with none of its records. */
  lemma KeyAbsentAfter(x: Listing, s: seq<Listing>)
    requires Ranked(s) && |s| > 0 && Before(x, s[0])
    ensures forall k :: 0 <= k < |s| ==> !HasKey(s[k], x.matchScore, x.platform)
  {
    forall k | 0 <= k < |s|
      ensures !HasKey(s[k], x.matchScore, x.platform)
    {
      if HasKey(s[k], x.matchScore, x.platform) {
        assert Before(s[k], s[0]);
        if k == 0 {
          BeforeIrreflexive(s[0]);
        }
      }
    }
  }

  /** Inserting `x` in front: the ranking held no record with its key, so it is the last with its key. */
  lemma InsertFrontWithKey(x: Listing, s: seq<Listing>, score: real, platform: string)
    requires Ranked(s) && |s| > 0 && Before(x, s[0])
    ensures WithKey([x] + s, score, platform)
         == WithKey(s, score, platform) + (if HasKey(x, score, platform) then [x] else [])
  {
    WithKeyCons(x, s, score, platform);
    if HasKey(x, score, platform) {
      KeyAbsentAfter(x, s);
      WithKeyNone(s, score, platform);
    }
  }

  /** Inserting `x` past the head: the head keeps its place in front of the filtered rest. */
  lemma InsertPastHeadWithKey(x: Listing, s: seq<Listing>, score: real, platform: string)
    requires |s| > 0
    requires WithKey(Insert(x, s[1..]), score, platform)
          == WithKey(s[1..], score, platform) + (if HasKey(x, score, platform) then [x] else [])
    ensures WithKey([s[0]] + Insert(x, s[1..]), score, platform)
         == WithKey(s, score, platform) + (if HasKey(x, score, platform) then [x] else [])
  {
    var head := if HasKey(s[0], score, platform) then [s[0]] else [];
    var last := if HasKey(x, score, platform) then [x] else [];
    WithKeyCons(s[0], Insert(x, s[1..]), score, platform);
    assert WithKey(s, score, platform) == head + WithKey(s[1..], score, platform);
    AppendAssoc(head, WithKey(s[1..], score, platform), last);
  }

  lemma {:induction false} InsertWithKey(x: Listing, s: seq<Listing>, score: real, platform: string)
    requires Ranked(s)
    ensures WithKey(Insert(x, s), score, platform)
         == WithKey(s, score, platform) + (if HasKey(x, score, platform) then [x] else [])
  {
    if |s| == 0 {
      WithKeyCons(x, [], score, platform);
    } else if Before(x, s[0]) {
      assert Insert(x, s) == [x] + s;
      InsertFrontWithKey(x, s, score, platform);
    } else {
      assert Ranked(s[1..]);
      InsertWithKey(x, s[1..], score, platform);
      assert Insert(x, s) == [s[0]] + Insert(x, s[1..]);
      InsertPastHeadWithKey(x, s, score, platform);
    }
  }

  lemma WithKeySnoc(s: seq<Listing>, x: Listing, score: real, platform: string)
    ensures WithKey(s + [x], score, platform)
         == WithKey(s, score, platform) + (if HasKey(x, score, platform) then [x] else [])
  {
    WithKeyAppend(s, [x], score, platform);
    WithKeyCons(x, [], score, platform);
    assert [x] + [] == [x];
  }

  /** Stability: for every key, the records with that key keep their input order. */
  lemma {:induction false} RankStable(s: seq<Listing>, score: real, platform: string)
    ensures WithKey(Rank(s), score, platform) == WithKey(s, score, platform)
  {
    if |s| > 0 {
      var front := s[..|s| - 1];
      var last := s[|s| - 1];
      assert s == front + [last];
      assert Rank(s) == Insert(last, Rank(front));
      RankStable(front, score, platform);
      RankRanked(front);
      InsertWithKey(last, Rank(front), score, platform);
      WithKeySnoc(front, last, score, platform);
    }
  }
}
