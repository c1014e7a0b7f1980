# Job-listing core of the career assistant, in Dafny

This project models the deterministic core of a Streamlit career assistant (`app.py`):

- the platform table `JOB_PLATFORMS`;
- `generate_search_url`, which builds a platform-specific job-search URL from a cleaned
  title and location and an experience value encoded the way each platform expects;
- the pure part of `search_jobs`: for every requested platform and location, a
  fabricated listing with a heuristic match score, then a stable sort by
  descending score with platform name as the tie-break;
- the post-processing of the keyword extractor's reply: split at commas, strip,
  drop empty pieces.

Modules follow the program's structure:

- `Wrappers`: the `Option` type.
- `Text`: Python's `str.strip`, ASCII `lower`, `replace(' ', '-')`, `split`/`join` on one character, and string `<`.
- `Numbers`: `str(int)` and `int(str)`.
- `Platforms`: the table and the URL builder.
- `Patterns`: filling `{name}` placeholders in a pattern string.
- `PlatformPatterns`: the `search_pattern` the table documents for each platform, and how the built paths relate to it.
- `Listings`: the listing record and its score.
- `Ranking`: the stable sort.
- `Search`: the two loops and `search_jobs`.
- `Keywords`: the reply splitter.

The two nested loops are modelled once, over an arbitrary loop body (`Search.Inner`,
`Search.Outer`). Their contract is stated against an independent description of the
pairs they visit (`Search.Visits`). The ranking is an insertion sort that places each
later record after every earlier one with the same key. That is how stability is
stated: filtering by any one key gives the same subsequence before and after the sort.

`match_score` is capped only from above, with `min(100, …)` (app.py:418); there is
no lower clamp, and `Listings.MatchScore` has none either. In `search_jobs` the listed
experience is always the requested one, so every score there is at least 30
(`Listings.SynthesizedScore`).

The table's `search_pattern` strings (app.py:72-88) are not read by
`generate_search_url`, which writes each path out itself. Four of the five paths are
their pattern with the placeholders filled in (`PlatformPatterns.SearchPathFollowsPattern`).
The Monster path is not: where the pattern prints the experience once, the code
prints the range `e-(e+2)` (`PlatformPatterns.MonsterDepartsFromPattern`).

## Model

| member | source | states |
|---|---|---|
| Platforms.Lookup | app.py:69-90 | the table row is found exactly for the five platform keys, by exact case-sensitive name, and the row found carries that name |
| Platforms.LookupName | app.py:69-90 | every table row is found again by its own key |
| Platforms.Slug | app.py:360-361 | the cleaned title or location has no spaces and no ASCII capitals |
| Platforms.SlugTrimmed | app.py:360-361 | cleaning keeps the length of the stripped input, and the result has no surrounding whitespace |
| Platforms.SlugOfClean | app.py:360-361 | a trimmed string without spaces or capitals is its own cleaned form |
| Platforms.SlugIdempotent | app.py:360-361 | cleaning twice is cleaning once |
| Platforms.IndeedBucket | app.py:367-372 | entry level exactly below 1 year, mid level exactly from 1 to under 3, senior exactly from 3 |
| Platforms.IndeedBucketMonotone | app.py:367-372 | more experience never gives a lower Indeed level |
| Platforms.IndeedParamInjective | app.py:368-372 | the three `explvl` values are distinct |
| Platforms.LinkedInCode | app.py:377-384 | the code is one digit 1-4, and each code holds exactly on its experience band (<2, 2-4, 5-9, ≥10) |
| Platforms.LinkedInCodeMonotone | app.py:377-384 | more experience never gives a lower LinkedIn code |
| Platforms.MonsterRange | app.py:375 | for experience ≥ 0 the range splits at its one dash into the printed experience and the experience plus two |
| Platforms.MonsterRangeBounds | app.py:375 | for experience ≥ 0 the `exp` range splits at its dash into two integers that read back as e and e+2 |
| Platforms.MonsterRangeInjective | app.py:375 | different experience values give different Monster ranges |
| Platforms.SearchUrl | app.py:353-388 | a URL exists exactly when the platform is a table key; otherwise `None` |
| Platforms.UrlFor | app.py:363-387 | every URL begins with its row's base URL, the path following it |
| Patterns.FillPlain | app.py:72-88 | text without braces is copied through a placeholder fill unchanged |
| Patterns.FillHole | app.py:72-88 | a closed `{name}` is replaced by the value of `name` |
| Patterns.FillRender | app.py:72-88 | filling a pattern spelled from literal pieces and placeholders gives the pieces with each placeholder's value |
| PlatformPatterns.SearchPathFollowsPattern | app.py:363-387 | the Naukri, Indeed, LinkedIn and PayScale paths are their table `search_pattern` with title, location and experience form filled in |
| PlatformPatterns.MonsterDepartsFromPattern | app.py:374-375 | the Monster path is its filled pattern followed by `-` and the experience plus two |
| Platforms.SearchPath | app.py:364-387 | every search path begins with `/` after the base URL; its content is pinned down by `PlatformPatterns.SearchPathFollowsPattern` for Naukri, Indeed, LinkedIn and PayScale and by `PlatformPatterns.MonsterDepartsFromPattern` for Monster |
| Platforms.SearchUrlSeesOnlySlugs | app.py:359-361 | title and location affect the URL only through their cleaned forms |
| Platforms.PayScaleUrlIgnoresLocationAndExperience | app.py:386-387 | the PayScale URL depends on the job title alone |
| Platforms.NaukriUrlReflectsExperience | app.py:364-365 | two Naukri URLs for the same search are equal exactly when the experience values are equal |
| Platforms.IndeedUrlReflectsBucket | app.py:366-373 | two Indeed URLs for the same search are equal exactly when the experience levels are equal |
| Platforms.MonsterUrlReflectsExperience | app.py:374-375 | two Monster URLs for the same search are equal exactly when the experience values are equal |
| Platforms.LinkedInUrlReflectsCode | app.py:376-385 | two LinkedIn URLs for the same search are equal exactly when the experience codes are equal |
| Text.Strip | app.py:360 | the stripped string is no longer than the input, has no surrounding whitespace, and a string already without it is unchanged |
| Text.StripEmpty | app.py:243 | a piece strips to the empty string exactly when it is all whitespace |
| Text.StripIsWindow | app.py:360 | the stripped string is a contiguous window of the input with only whitespace cut from both sides |
| Text.StripIdempotent | app.py:360 | stripping twice is stripping once |
| Text.Lower | app.py:360 | lowering keeps the length, maps each character independently and leaves no ASCII capital |
| Text.ReplaceSpaces | app.py:360 | the replacement keeps the length, turns every space into a hyphen and changes nothing else |
| Text.Split | app.py:243 | like Python's `split`, a split always has at least one piece, the empty string giving `[""]` |
| Text.SplitPiecesFree | app.py:243 | no piece of a split holds the separator |
| Text.JoinSplit | app.py:243 | joining the pieces of a split with the separator gives the string back |
| Text.SplitWithoutSeparator | app.py:243 | a string without the separator splits into itself alone |
| Text.SplitAtSeparator | app.py:243 | splitting at one separator occurrence splits both sides independently and concatenates the results |
| Text.SplitPair | app.py:417 | two separator-free strings joined by the separator split back into exactly the two |
| Text.SplitJoin | app.py:243 | splitting a join of separator-free pieces gives the pieces back |
| Text.StrLessIrreflexive | app.py:425 | no string sorts before itself |
| Text.StrLessTransitive | app.py:425 | string order is transitive |
| Text.StrLessTotal | app.py:425 | of two different strings one sorts before the other |
| Text.StrLessAsymmetric | app.py:425 | two strings never sort before each other |
| Numbers.Show | app.py:365 | `str(n)` is non-empty, all digits after an optional leading minus, and all digits exactly when n ≥ 0 |
| Numbers.SkipSpace | app.py:417 | the whitespace `int()` skips (`isspace()` without U+001C–U+001F) is gone from both ends, and a text without it at either end is unchanged |
| Numbers.ParseInt | app.py:417 | `int()` of an empty or all-whitespace string fails |
| Numbers.ParseIntSkipsSpace | app.py:417 | removing the whitespace `int()` skips before calling it changes nothing |
| Numbers.IntKeepsSeparators | app.py:417 | `strip()` and `int()` differ on U+001C: `int("\x1c5")` fails while `int("\x1c5".strip())` is 5 |
| Numbers.ParseShowNat | app.py:407 | the decimal digits printed for a natural number read back as that number |
| Numbers.ShowStripped | app.py:407 | a printed integer has no surrounding whitespace, so `int()` skips nothing in it |
| Numbers.ParseSignedShow | app.py:417 | the sign and digits `str` prints are read back as the same integer |
| Numbers.ParseShow | app.py:407-417 | `int(str(n)) == n` for every integer n, negative ones included |
| Numbers.ShowInjective | app.py:365 | different integers print differently |
| Listings.ListingSkills | app.py:408 | a listing's skills are the user's first (at most three) skills in order, then the platform's `-Specialized` tag |
| Listings.ExperienceLabel | app.py:407 | the label `"<e>+ years"` splits at its one `+` into the printed experience and `" years"` |
| Listings.LabelYears | app.py:417 | on a text without `+` the parse reads the whole text |
| Listings.LabelRoundTrip | app.py:407-417 | the label `"<e>+ years"` split at `+` reads back as e, so the parse never fails |
| Listings.CompanyName | app.py:405 | the company is `"Sample Company "` followed by a number that reads back as the record index plus one |
| Listings.CompanyNameInjective | app.py:405 | records at different positions name different companies |
| Listings.SkillOverlap | app.py:416 | the overlap percentage is in [0, 100], and positive exactly when the user has one of the listed skills |
| Listings.ListingCommonSkills | app.py:408-416 | the skills shared with the user are the user's leading skills, plus the tag when the user lists it |
| Listings.ExpProximity | app.py:417 | proximity is at most 100, exactly 100 on an exact match, and negative exactly for gaps over 10 years |
| Listings.MatchScore | app.py:418 | the score is capped at 100, is the 0.7/0.3 blend when that stays within 100, and is non-negative for non-negative terms |
| Listings.Synthesize | app.py:403-418 | the record always exists, carries the given platform, location, URL, title, company number, label, skills and date, and scores in [30, 100] |
| Listings.SynthesizedScore | app.py:416-418 | the experience term is always 100, so the score is 0.7 × skill overlap + 30 |
| Listings.NaukriExample | app.py:403-418 | skills Python and SQL on Naukri with 3 years score exactly 230/3, whatever the title, location, URL and date |
| Listings.NaukriExampleOverlap | app.py:408-416 | Python and SQL share two of the three skills listed on Naukri, an overlap of 200/3 |
| Ranking.Insert | app.py:425 | inserting adds exactly the one record (as a multiset) |
| Ranking.Rank | app.py:425 | the sort is a permutation of its input |
| Ranking.Before | app.py:425 | a higher score always sorts first, and a record that sorts first never has the lower score |
| Ranking.BeforeIrreflexive | app.py:425 | no record sorts strictly before itself |
| Ranking.BeforeTransitive | app.py:425 | the sort key order is transitive |
| Ranking.BeforeTotal | app.py:425 | records with different keys are ordered one way or the other |
| Ranking.InsertRanked | app.py:425 | inserting into a ranked sequence keeps it ranked |
| Ranking.RankRanked | app.py:425 | the sorted result is ranked: no record sorts strictly before an earlier one |
| Ranking.RankedScores | app.py:425 | in a ranked sequence the scores never increase |
| Ranking.WithKeyAppend | app.py:425 | filtering by key distributes over concatenation |
| Ranking.InsertWithKey | app.py:425 | inserting a record places it after every record with its key |
| Ranking.RankStable | app.py:425 | for every key, the records with that key keep their input order through the sort |
| Search.KnownOnly | app.py:397-399 | the filtered request is no longer than the request and holds only table keys |
| Search.KnownOnlyMembers | app.py:397-399 | a platform survives the filter exactly when it was requested and is a table key |
| Search.KnownOnlyIdempotent | app.py:397-399 | filtering twice is filtering once |
| Search.Row | app.py:396 | one platform's pairs are that platform with each location in order |
| Search.Visits | app.py:395-399 | the visited pairs number (known platforms) × (locations) |
| Search.VisitsMembers | app.py:395-399 | a pair is visited exactly when its platform is requested and known and its location is requested |
| Search.VisitsKnownOnly | app.py:397-399 | unknown platforms add no visited pairs |
| Search.Step | app.py:397-420 | the loop body yields a record exactly for table keys, with the given platform and location, the URL `generate_search_url` builds, the title, the company numbered by the record count, the experience label, the skills and the date, and a score in [30, 100]; the salary and the exact score are not stated here |
| Search.SearchBody | app.py:397-420 | the search's loop body skips exactly the unknown platforms |
| Search.Inner | app.py:396-420 | for a known platform the inner loop yields one record per location, numbered consecutively; for an unknown one it yields none |
| Search.Outer | app.py:395-420 | both loops yield, as record `start + k`, the body's record for the k-th visited pair |
| Search.OuterSkipsUnknown | app.py:397-399 | dropping unknown platforms from the request changes neither the records nor their numbering |
| Search.Generate | app.py:395-420 | before ranking, record k carries the k-th visited pair's platform and location, the listing skills and a score in [30, 100] |
| Search.GenerateSteps | app.py:395-420 | record k is the loop body's record for the k-th visited pair, numbered k |
| Search.GeneratedFields | app.py:395-420 | each generated record is for a requested known platform and a requested location, lists the user's leading skills and the tag, and scores in [30, 100] |
| Search.SearchJobs | app.py:390-425 | the result has (known platforms) × (locations) records, is a permutation of the generated records, and is ranked |
| Search.SearchScoresDescend | app.py:425 | scores in the result never increase |
| Search.SearchRecords | app.py:395-425 | every result record is for a requested known platform and a requested location, lists the user's leading skills and the tag, and scores in [30, 100] |
| Search.SearchIgnoresUnknownPlatforms | app.py:397-399 | searching with unknown platforms removed gives the identical result |
| Search.SearchCovers | app.py:395-425 | the result holds a record for (platform, location) exactly when the platform is requested and known and the location is requested |
| Search.SearchStable | app.py:425 | records with equal score and platform keep the order the loops produced them in |
| Keywords.Clean | app.py:243 | every kept item is non-empty, and no more items come out than pieces go in |
| Keywords.KeywordList | app.py:243 | the keyword list has non-empty items, at most one per comma-separated piece |
| Keywords.CleanMembers | app.py:243 | an item is kept exactly when it is non-empty and the stripped form of some piece |
| Keywords.CleanAppend | app.py:243 | cleaning distributes over concatenation, so items keep their pieces' order |
| Keywords.CleanIdentity | app.py:243 | pieces already non-empty and unchanged by stripping come through unchanged |
| Keywords.StripKeepsAbsent | app.py:243 | stripping adds no character, in particular no comma |
| Keywords.KeywordsMembers | app.py:243 | a string is an item exactly when it is non-empty and the stripped form of a comma-separated piece |
| Keywords.KeywordsWellFormed | app.py:243 | every item is non-empty, has no surrounding whitespace and holds no comma |
| Keywords.KeywordsAppend | app.py:243 | the items of `a + "," + b` are the items of a followed by the items of b |
| Keywords.KeywordsSingle | app.py:243 | a reply without a comma gives its stripped self, or nothing when it is all whitespace or empty |
| Keywords.KeywordsJoin | app.py:243 | joining well-formed items with commas and extracting the keywords gives the items back |

## Left out

- The Streamlit UI, widgets and session state (app.py:16-52, app.py:471-748) are framework glue.
- The Gemini prompts and `generate_content` calls (app.py:104-351, app.py:430-469) are remote calls with unspecified output. Only the keyword splitting of the reply is modelled.
- PDF extraction (app.py:92-102) and the Firecrawl client (app.py:59) are third-party I/O.
- `datetime.now()` for the posting date (app.py:412) is a clock, read once per record inside the inner loop, so records built on either side of midnight can carry different dates. It becomes the parameter `clock`, which gives the date read when record number i is built; no particular sequence of readings is assumed.
- The `st.error` exception paths of `search_jobs` (app.py:422-428) are UI side effects. In the model the only step that could raise is the `int()` parse, and it is proved never to fail (`Listings.LabelRoundTrip`).
- Floating-point scores are modelled as exact reals. Rounding in `/`, `*` and `+` on Python floats is not modelled.
- `str.lower()` is modelled on ASCII letters only. Other cased characters are left unchanged.
- `int()` is modelled as: surrounding whitespace, an optional sign, then ASCII digits. The whitespace is what `str.isspace()` accepts except U+001C–U+001F, which `int()` rejects although `strip()` removes them. Underscores between digits and non-ASCII decimal digits are not accepted.
- Experience is an integer, as the slider that feeds it produces (app.py:513-515). A float experience is not modelled. With one, `int("3.0")` would raise and every record would be skipped.
- The final `return None` of `generate_search_url` (app.py:388) is unreachable: every table key has its own branch. The model therefore has no such case.
- The salary label (app.py:409) is built but no property is stated about it.
- `Search.GenerateSteps` follows from `Search.Outer`'s contract without further proof. It is kept as the statement that links the records to the loop body.
- Platforms.MonsterRangeBounds: stated for experience ≥ 0 only. For negative values the first number's own minus sign is a second dash in the range, so the range does not split into two pieces.
- Listings.MatchScore: non-negativity is stated only for non-negative terms. The code clamps only from above, so a proximity below zero (a gap over 10 years) can give a negative score. In `search_jobs` the gap is always zero.
