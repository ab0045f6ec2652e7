# Metawahl core, modelled in Dafny

Metawahl shows, for each thesis of a German Wahl-o-Mat, how much of the vote
went to parties that supported it. This project models the logic behind that
and proves properties about it:

- **Thesis card** (`ThesisComponent`, `thesis_component.dfy`). It merges an
  election's results with a thesis's party positions. Electoral alliances
  such as CDU/CSU reach their answer through `linked_position`. It then
  splits the merged parties into pro, neutral and contra lists, each ordered
  by votes, then by party name. It sums the pro and contra vote shares and
  classifies the voters' opinion as −1, 0 or +1. Around this sit the
  header of the opened explanation, the colour choice, category
  add/remove, and the report flag.
- **Election page** (`ElectionComponent`, `election.dfy`). It computes the
  share of the vote won by the parties answering pro (or contra), summing
  alliance members. It sorts theses by that share, names the result sources
  and picks the subheader.
- **API server models** (`Models`, `models.py` → `models.dfy`). It builds the
  dictionaries for tags, positions and theses, where some keys are present
  only conditionally. It also builds the results dictionary of an
  election, counts objection votes, and selects "related tags" around an
  11th-largest-count cutoff. That cutoff differs between categories and tags.
- **Topic page** (`TagView`, `tag_view.dfy`). It filters the theses by tag,
  with an optional inversion. It sorts them by election, slices them into
  pages and parses the page number. It builds the filter options and
  handles route changes.
- **Single-thesis page** (`ThesisView`, `thesis_view.dfy`). It builds the
  `WOM-ooo-tt` thesis ID, looks up the cached election and decides the
  order of the page's two requests.
- **Older thesis card** (`LegacyThesis`, `legacy_thesis.dfy`). It splits the
  positions by answer, decides which parties can be clicked, parses the
  election number out of the thesis ID, appends tags and lists the
  category options.

Shared pieces:

- `Common` (`common.dfy`) holds the JavaScript and Python built-ins the
  code relies on: `parseInt`, `toString` and `padStart` on integers,
  one-character `split` and `join`, `indexOf`, string `<`, and `slice`.
- `Seqs` (`seqs.dfy`) holds filter, sum and a stable sort by key.
- `Types` (`types.dfy`) holds the shapes of the election results and of the
  positions the client receives.

Representation choices:

- Vote shares (`pct`) are integers in hundredths of a percent. So 50.0
  becomes 5000, 66 becomes 6600 and 0.5 becomes 50. Vote counts are
  integers.
- A JavaScript object used as a dictionary becomes a map together with the
  order of its keys (`Types.Results`).
- NaN becomes `None`.
- JavaScript's `Array.prototype.sort` is modelled by a stable insertion
  sort. Where the comparator is a strict total order, `SortedUnique`
  shows that any correct sort gives the same list.
- React components become classes. Their state fields become class fields,
  and each handler or fetch callback becomes a method. A fetch becomes the
  pair of methods its success and failure callbacks run, plus, on the
  single-thesis page, a log of the requests sent.

Three behaviours of the code are worth noting; the model follows the code:

- A thesis position is not used up when an alliance member matches it. The
  same position also answers for the alliance's leading party
  (`ThesisComponent.AllianceSharesPosition`).
- The comparator's "unknown vote count sorts last" branch
  (client/src/Thesis.jsx:289-290) is dead. Every merged record's party is a
  key of the results, and the server stores votes as a non-null integer.
  The model has no such case.
- `componentWillReceiveProps` (client/src/Thesis.jsx:124-133) calls
  `mergePartyData`, which reads `this.props` (client/src/Thesis.jsx:285).
  React replaces `this.props` only after that hook returns, so the lists are
  merged from the results the component held before. The `setState`
  callback `updateVoterOpinion` runs after the update and sums shares from
  the new results (`ThesisComponent.Thesis.ComponentWillReceiveProps`).

## Model

| member | source | states |
|---|---|---|
| ThesisComponent.FirstMatch | client/src/Thesis.jsx:303-308 | the chosen position is the first in list order whose party is the key's linked name or the key itself; `None` only when no position matches |
| ThesisComponent.MergedParties | client/src/Thesis.jsx:301-312 | one record per results key, in key order, with distinct parties; each record's party is the key (not the matched position's party); it carries the key's results entry and takes its stance from the first matching position, else `Missing` |
| ThesisComponent.AllianceSharesPosition | client/src/Thesis.jsx:303-308 | one position named after the leading party answers both for the leading party and for the alliance member linked to it |
| ThesisComponent.MissingExactlyWhenUnanswered | client/src/Thesis.jsx:303-308 | a party is `Missing` if and only if no position names the key or its linked name |
| ThesisComponent.PrecedesTransitive | client/src/Thesis.jsx:286-299 | the list order (votes descending, then party name ascending) is transitive |
| ThesisComponent.PrecedesAsymmetric | client/src/Thesis.jsx:286-299 | the list order never puts two records before each other |
| ThesisComponent.PrecedesTotal | client/src/Thesis.jsx:292-298 | any two records with different party names are ordered one way or the other |
| ThesisComponent.PrecedesNegativeTransitive | client/src/Thesis.jsx:286-299 | "not before" is transitive too, which is what a sort needs of its comparator |
| ThesisComponent.SortPositions | client/src/Thesis.jsx:314-324 | the sorted list is a permutation of the input with no adjacent pair out of order |
| ThesisComponent.StrictWhenDistinct | client/src/Thesis.jsx:286-299 | with distinct party names a list without adjacent inversions is strictly ordered throughout |
| ThesisComponent.SortedUnique | client/src/Thesis.jsx:286-299 | two strictly ordered permutations of the same records are equal, so every correct sort yields the same list |
| ThesisComponent.OfStance | client/src/Thesis.jsx:314-324 | the stance filter keeps only records of that stance, every one of them, and nothing else |
| ThesisComponent.PartitionCovers | client/src/Thesis.jsx:314-324 | every merged record falls in exactly one of the pro, neutral, contra or missing groups |
| ThesisComponent.SortedStance | client/src/Thesis.jsx:314-324 | each stance list is a permutation of that stance's records and strictly ordered by votes, then name |
| ThesisComponent.VoterOpinion | client/src/Thesis.jsx:341-347 | the opinion is −1, 0 or +1 |
| ThesisComponent.OpinionBoundaries | client/src/Thesis.jsx:341-347 | exactly 50 % pro is no pro majority, 50.01 % is (whatever the contra share); with no pro majority, 49.99 % contra gives 0 and exactly 50 % contra gives −1 |
| ThesisComponent.OpinionConsistent | client/src/Thesis.jsx:341-347 | when the shares add up to at most 100 %, +1 implies under 50 % contra, −1 implies at least 50 % contra and at most 50 % pro, 0 implies neither reaches its threshold |
| ThesisComponent.Analyze | client/src/Thesis.jsx:283-350 | the card's derived state: merged parties; the three lists as strictly ordered permutations of each stance's records; pro and contra shares as sums over those records; the opinion from the two sums |
| ThesisComponent.NoPositionsNoMajority | client/src/Thesis.jsx:301-347 | a thesis without positions has every party missing, empty lists, zero shares and opinion 0 |
| ThesisComponent.OpinionColour | client/src/Thesis.jsx:366-374 | the colour is one of the five palette entries |
| ThesisComponent.ColourReflectsOpinion | client/src/Thesis.jsx:366-374 | the middle colour if and only if the opinion is 0; the two lower ones if and only if it is −1; the extreme ones if and only if the winning share exceeds 66 % |
| ThesisComponent.OpenText | client/src/Thesis.jsx:210-230 | a missing party gets the "not represented" text, else an empty or absent text gets the "no reason given" text, else the party's own text; party, stance and result are kept; the header is the display name, " — ", the share text and the stance label |
| ThesisComponent.PctToString | client/src/Thesis.jsx:226-227 | a share starts with its whole percent, is exactly that when it has no decimals, and otherwise continues with a decimal point |
| ThesisComponent.ShareText | client/src/Thesis.jsx:226-227 | the share text is "<0,1%" if and only if the share is zero, and always ends in a percent sign |
| ThesisComponent.ShareTextParses | client/src/Thesis.jsx:226-227 | `parseInt` of a nonzero share's text gives back its whole percent |
| ThesisComponent.HeaderShowsStance | client/src/Thesis.jsx:228-230 | the header ends in " — Pro", " — Neutral" or " — Contra" if and only if the party took that stance; a missing party's header ends in the percent sign |
| ThesisComponent.AddCategory | client/src/Thesis.jsx:135-144 | an already present category leaves the list unchanged; otherwise it is appended at the end |
| ThesisComponent.RemoveCategory | client/src/Thesis.jsx:146-150 | every occurrence of the category is gone, every other category keeps its count |
| ThesisComponent.RemoveKeepsOthers | client/src/Thesis.jsx:148 | removal keeps the count of every other category |
| ThesisComponent.RemoveKeepsOrder | client/src/Thesis.jsx:148 | removal from a concatenation is the concatenation of the removals, and a single category stays exactly when it is not the removed one, so the others keep their order |
| ThesisComponent.RemoveUndoesAdd | client/src/Thesis.jsx:135-150 | adding a new category and removing it restores the list |
| ThesisComponent.Thesis.constructor | client/src/Thesis.jsx:99-115 | initial state: nothing open, not loading, not reported, empty lists, opinion 0, both shares 0.5 % |
| ThesisComponent.Thesis.MergePartyData | client/src/Thesis.jsx:283-328 | the state holds the merged parties and the three sorted stance lists |
| ThesisComponent.Thesis.UpdateVoterOpinion | client/src/Thesis.jsx:330-350 | the shares are the sums over the stored pro and contra lists and the opinion follows from them |
| ThesisComponent.Thesis.ComponentWillMount | client/src/Thesis.jsx:120-122 | after mounting the state equals the analysis of the results and positions |
| ThesisComponent.Thesis.ComponentWillReceiveProps | client/src/Thesis.jsx:124-133 | new tags and categories replace the state's; when the results object was replaced, the lists are merged again from the held props and the opinion is recomputed with the new shares; otherwise they are unchanged |
| ThesisComponent.Thesis.HandleCategory | client/src/Thesis.jsx:135-144 | the categories become the de-duplicated append; loading is set only when something was added |
| ThesisComponent.Thesis.HandleCategoryRemove | client/src/Thesis.jsx:146-150 | the categories lose every occurrence and loading is set |
| ThesisComponent.Thesis.HandleReport | client/src/Thesis.jsx:152-162 | with a stored visitor id the report is pending (`false`); without one nothing changes |
| ThesisComponent.Thesis.ReportAnswered | client/src/Thesis.jsx:166-170 | an error answer resets the flag, a good one marks the thesis reported |
| ThesisComponent.Thesis.ReportFailed | client/src/Thesis.jsx:171-175 | a failed request resets the flag |
| ThesisComponent.Thesis.ToggleOpen | client/src/Thesis.jsx:210-233 | the opened text is the formatted position; when the party gave its own text the clicked object itself is the one that received the header |
| ThesisComponent.Thesis.VoterOpinionColour | client/src/Thesis.jsx:366-374 | the header colour is a palette entry chosen from the stored opinion and shares |
| ElectionComponent.LinkedKeys | client/src/components/election/index.jsx:111-113 | exactly the result keys whose linked position is the given party |
| ElectionComponent.GetRatio | client/src/components/election/index.jsx:100-129 | no ratio if and only if there is no election |
| ElectionComponent.CountVotesConcat | client/src/components/election/index.jsx:109-127 | the share of a list of positions is the sum of the shares of its parts |
| ElectionComponent.RatioAdditive | client/src/components/election/index.jsx:125-127 | the ratio of a thesis is additive over its positions |
| ElectionComponent.RatioOfOnePosition | client/src/components/election/index.jsx:109-127 | one position counts only when it has the counted stance (pro, or contra when reversed), and then with its party's share |
| ElectionComponent.CountVotesNonNegative | client/src/components/election/index.jsx:109-127 | shares summed over positions are never negative |
| ElectionComponent.RatioIgnoresOtherStances | client/src/components/election/index.jsx:126 | adding a position of another stance leaves the ratio unchanged |
| ElectionComponent.CountVotesByStance | client/src/components/election/index.jsx:125-127 | the total share splits into the shares of the four stances |
| ElectionComponent.AllianceRatio | client/src/components/election/index.jsx:107-119 | a pro answer from "CDU/CSU" counts the CDU's and the CSU's share together |
| ElectionComponent.AllianceShare | client/src/components/election/index.jsx:107-119 | with CDU and CSU both linked to "CDU/CSU" and no entry of its own, the share of "CDU/CSU" is the sum of theirs |
| ElectionComponent.TwoLinkedShare | client/src/components/election/index.jsx:107-119 | a party without its own entry and with exactly two results keys linked to it counts the sum of their two shares |
| ElectionComponent.UnknownPartyCountsNothing | client/src/components/election/index.jsx:110-119 | a party that is neither a key nor anyone's linked position adds 0 |
| ElectionComponent.SortByRatio | client/src/components/election/index.jsx:132-133 | the theses are a permutation of the input, in descending ratio |
| ElectionComponent.SortedFirstIsLargest | client/src/components/election/index.jsx:132-133 | the first thesis shown has a ratio at least that of every thesis |
| ElectionComponent.ResultsLabel | client/src/components/election/index.jsx:68-89 | a given name gets "Wahlergebnisse: " or, for a forecast, "Wahlprognose: "; otherwise the first of tagesschau, Wikipedia, dawum found in the URL names it, else the URL itself |
| ElectionComponent.TagesschauFirst | client/src/components/election/index.jsx:72-73 | a tagesschau URL is named after tagesschau whatever else it contains |
| ElectionComponent.CollectSources | client/src/components/election/index.jsx:52-97 | no sources without an election; otherwise exactly the Wahl-o-Mat credit and the results credit, in that order |
| ElectionComponent.CountText | client/src/components/election/index.jsx:14 | the count shows "..." if and only if there are no theses |
| ElectionComponent.ElectionSubheader | client/src/components/election/index.jsx:13-31 | the embedded variant if and only if `iframe`; the forecast flag is kept; only the full-page forecast variant names its source |
| Models.ListColumn | api-server/models.py:333-337 | a list is produced if and only if the stored string is present and non-empty; its parts contain no `;` and join back to the stored string |
| Models.TagToDict | api-server/models.py:318-351 | title and slug always; aliases and labels present if and only if stored non-empty, split on `;`; thesis count, thesis ids and related tags exactly as passed |
| Models.TagDictRoundTrip | api-server/models.py:320-340 | reading a tag back from its dictionary gives the tag, with empty lists read as absent |
| Models.AliasesFromList | api-server/models.py:333-334 | aliases stored `;`-joined come back as the same list |
| Models.PositionToDict | api-server/models.py:260-269 | value and party always; `text` present if and only if the position has one |
| Models.PositionDictRoundTrip | api-server/models.py:260-269 | the position can be read back from its dictionary |
| Models.ThesisToDict | api-server/models.py:408-421 | id, title, election and category slugs kept; one dictionary per position and tag, in order; `text` present if and only if the thesis has one |
| Models.ThesisDictRoundTrip | api-server/models.py:408-421 | the thesis's own fields can be read back from its dictionary |
| Models.ResultDict | api-server/models.py:214-222 | the loop builds the result dictionary a right-to-left reading of the rows defines |
| Models.ResultMapKeys | api-server/models.py:214-222 | one key per distinct party name among the rows |
| Models.ResultMapLastWins | api-server/models.py:216-220 | a party's entry is the votes and share of its last row |
| Models.NextCount | api-server/models.py:154-159 | an unset count becomes 1 whatever the vote; otherwise it moves up by one for a truthy vote and down by one for a falsy one |
| Models.FinalCountTally | api-server/models.py:154-159 | after a run of votes on a set count it has moved by the ups minus the downs |
| Models.FirstVoteOnUnsetCount | api-server/models.py:155-156 | on an unset count the first vote only sets it to 1 |
| Models.Objection.Vote | api-server/models.py:154-160 | the count follows the rule above and the returned vote carries the given uuid, value and objection |
| Models.Tally | api-server/models.py:45-48 | the counting state stays consistent: each counted tag is listed once, with a positive count |
| Models.BumpValid | api-server/models.py:357-361 | one iteration keeps each counted title listed once, with its last tag and a positive count |
| Models.BumpCounts | api-server/models.py:359-361 | one iteration adds one to the counter of the tag's own title and leaves every other counter as it was |
| Models.TallyCounts | api-server/models.py:357-361 | a tag is counted if and only if it occurs, and its count is its number of occurrences |
| Models.TallyExcludes | api-server/models.py:359 | a tag never counts itself |
| Models.OccurrencesInDistinct | api-server/models.py:45-48 | within one thesis's distinct tags a tag occurs once or not at all |
| Models.CountIsThesesCarrying | api-server/models.py:45-48 | a tag's count is the number of theses that carry it |
| Models.CountThesisTags | api-server/models.py:46-48 | the inner loop extends the tally by one thesis's tags |
| Models.CountTags | api-server/models.py:357-361 | the nested loops compute the tally of all theses' tags |
| Models.Cutoff | api-server/models.py:51 | there is a cutoff if and only if some tag was counted |
| Models.CutoffAbove | api-server/models.py:51-55 | at most ten counts lie strictly above the cutoff |
| Models.CutoffAtLeast | api-server/models.py:367-373 | at least eleven counts, or all of them when fewer, reach the cutoff |
| Models.CutoffIsAValue | api-server/models.py:51 | the cutoff is one of the counts |
| Models.SelectEntries | api-server/models.py:53-59 | the selection loop keeps, in counting order, the tags passing the cutoff test |
| Models.CategoryRelatedTags | api-server/models.py:41-61 | the category method computes the category selection, including its error on no tags |
| Models.TagRelatedTags | api-server/models.py:353-379 | the tag method computes the tag selection, empty when there is nothing to select |
| Models.TallyEmpty | api-server/models.py:45-51 | nothing is counted if and only if the theses carry no tags |
| Models.SelectWithCutoff | api-server/models.py:51-59 | with the cutoff, the strict test keeps at most ten tags, the inclusive one at least eleven (or all); exactly the tags passing the test are kept, each with its count |
| Models.CategoryRelatedFails | api-server/models.py:51 | a category's selection fails if and only if its theses carry no tags |
| Models.CategoryRelatedBounds | api-server/models.py:50-61 | otherwise it holds at most ten tags, exactly those counted strictly above the cutoff |
| Models.TagRelatedBounds | api-server/models.py:359-378 | a tag's selection never holds the tag itself, and holds every other tag counted at least the cutoff, at least eleven of them when there are that many |
| Models.StrictSelectsFewer | api-server/models.py:55 | the category test keeps a subset of what the tag test keeps |
| TagView.VisibleTheses | client/src/views/tag/index.jsx:122-134 | nothing while loading; otherwise a permutation of the filtered theses in descending election order |
| TagView.VisibleExactly | client/src/views/tag/index.jsx:122-133 | a thesis is shown if and only if it passes the tag filter |
| TagView.NoFilterKeepsAll | client/src/views/tag/index.jsx:124-132 | without a (non-empty) filter every thesis is shown |
| TagView.InvertComplements | client/src/views/tag/index.jsx:125-129 | the filter and its inversion together show every thesis exactly once |
| TagView.InvertSplit | client/src/views/tag/index.jsx:125-129 | the theses with and without the filter tag add up to all theses |
| TagView.SameElectionKeepsOrder | client/src/views/tag/index.jsx:134 | theses of one election keep their relative order |
| TagView.TotalPagesIsCeiling | client/src/views/tag/index.jsx:265 | the page count is the ceiling of theses over page size |
| TagView.PageContents | client/src/views/tag/index.jsx:136-143 | a page shows at most a page's worth of theses, the consecutive ones from its start position, and a full page or the rest when it starts inside the list |
| TagView.PageAtMostPerPage | client/src/views/tag/index.jsx:136-143 | for every page number, zero and negative included, a page holds at most a page's worth of theses |
| TagView.ExactlyOnePage | client/src/views/tag/index.jsx:136-143 | every thesis is on exactly one page, and that page is within the page count |
| TagView.NegativePageCountsFromEnd | client/src/views/tag/index.jsx:136-143 | a negative page number makes the slice count from the end of the list |
| TagView.ParsePage | client/src/views/tag/index.jsx:64 | the page is the parsed number when it is a non-zero number and 1 otherwise; it is never 0 |
| TagView.PageRoundTrip | client/src/views/tag/index.jsx:64 | a page number written out in the URL parses back to itself |
| TagView.FirstWithSlug | client/src/views/tag/index.jsx:84 | the first cached tag with the slug, and `None` only when no tag has it |
| TagView.GetCachedTag | client/src/views/tag/index.jsx:82-85 | an empty or absent slug falls back to the route's; the result is a cached tag with that slug, absent if and only if there is none |
| TagView.FilterOptions | client/src/views/tag/index.jsx:153-161 | one option per kept related tag, in order, with key equal to value and the label `title (count)` |
| TagView.FilterOptionsExact | client/src/views/tag/index.jsx:156 | a related tag is offered if and only if its count is below the number of loaded theses |
| TagView.FilterOptionsOrder | client/src/views/tag/index.jsx:155 | the options come in descending count |
| TagView.TagViewPage.constructor | client/src/views/tag/index.jsx:41-53 | loading, the parsed page, the route's slug and cached tag, no theses, no filter |
| TagView.TagViewPage.ReceiveProps | client/src/views/tag/index.jsx:62-80 | a new slug resets theses and elections, starts loading and takes the new page and cached tag; otherwise only the page changes; the filter is untouched |
| TagView.TagViewPage.TagLoaded | client/src/views/tag/index.jsx:97-104 | the loaded tag, theses and elections are stored and loading ends |
| TagView.TagViewPage.TagLoadFailed | client/src/views/tag/index.jsx:106-116 | theses and elections are emptied and loading ends |
| TagView.TagViewPage.SelectFilter | client/src/views/tag/index.jsx:208 | the chosen tag becomes the filter |
| TagView.TagViewPage.InvertFilter | client/src/views/tag/index.jsx:212 | the inversion flag flips; with a filter in force a loaded thesis is listed afterwards if and only if it was hidden before; without one the list is unchanged |
| TagView.TagViewPage.ResetFilter | client/src/views/tag/index.jsx:217-218 | the filter is cleared and not inverted, and every loaded thesis is listed again |
| TagView.TagViewPage.Shown | client/src/views/tag/index.jsx:136-143 | nothing while loading, otherwise the current page's slice of the visible theses, never more than the page size |
| TagView.TagViewPage.Options | client/src/views/tag/index.jsx:153-161 | one option per kept related tag, in order, each with fewer than all loaded theses, and every related tag with fewer is offered |
| ThesisView.ThesisIdLength | client/src/views/thesis/index.jsx:78-80 | for elections below 1000 and theses below 100 the ID has exactly 10 characters, the width of the thesis ID column (api-server/models.py line 384) |
| ThesisView.ThesisIdRoundTrip | client/src/views/thesis/index.jsx:78-80 | the ID splits on `-` into `WOM` and two segments that parse back to the election and thesis numbers, however large they are |
| ThesisView.OccasionEndpoint | client/src/views/thesis/index.jsx:58 | the election path is `/occasions/` followed by the decimal election number |
| ThesisView.ThesisPathCarriesId | client/src/views/thesis/index.jsx:78-80 | the thesis path is `/thesis/` followed by an ID whose second and third segments parse back to the requested numbers |
| ThesisView.RequestPathsDiffer | client/src/views/thesis/index.jsx:58-80 | the election request and the thesis request never go to the same path |
| ThesisView.FirstWithId | client/src/views/thesis/index.jsx:53-54 | the first cached election with the number; a NaN number matches none |
| ThesisView.GetCachedOccasion | client/src/views/thesis/index.jsx:50-55 | `null` if and only if the territory has no cache entry; a found election has the requested number and is cached |
| ThesisView.CachedOccasionIsFirst | client/src/views/thesis/index.jsx:50-55 | `undefined` if and only if no cached election has the number; otherwise the first one that has it |
| ThesisView.ThesisPage.constructor | client/src/views/thesis/index.jsx:27-40 | the route numbers are parsed as base-10 integers, the page is loading, and the election comes from the cache |
| ThesisView.ThesisPage.Mount | client/src/views/thesis/index.jsx:42-48 | without a cached election it requests the election with the thesis request as follow-up; with one, only the thesis |
| ThesisView.ThesisPage.OccasionLoaded | client/src/views/thesis/index.jsx:62-66 | the election is stored and the thesis requested next |
| ThesisView.ThesisPage.OccasionFailed | client/src/views/thesis/index.jsx:68-73 | the election falls back to the cache lookup; nothing else happens |
| ThesisView.ThesisPage.ThesisLoaded | client/src/views/thesis/index.jsx:84-89 | loading ends and the thesis is stored |
| ThesisView.ThesisPage.ThesisFailed | client/src/views/thesis/index.jsx:92-97 | loading ends |
| ThesisView.Open | client/src/views/thesis/index.jsx:27-48 | opening the page parses the route numbers, takes the election from the cache and sends the election request first on a miss, the thesis request alone on a hit |
| ThesisView.LoadAfterCacheMiss | client/src/views/thesis/index.jsx:42-89 | on a cache miss the election is requested before the thesis, and loading ends when the thesis arrives |
| ThesisView.LoadAfterCacheHit | client/src/views/thesis/index.jsx:42-48 | on a cache hit only the thesis is requested |
| ThesisView.StuckAfterOccasionFailure | client/src/views/thesis/index.jsx:42-75 | on a cache miss followed by a failed election request the thesis is never requested and the page stays loading |
| LegacyThesis.Partition | src/Thesis.jsx:78-80 | the pro, neutral and contra lists hold only positions with value 1, 0 and −1 |
| LegacyThesis.PartitionExact | src/Thesis.jsx:78-80 | each list holds exactly the positions with its value |
| LegacyThesis.PartitionKeepsOrder | src/Thesis.jsx:78-80 | the lists keep the input order (partitioning distributes over concatenation) |
| LegacyThesis.PartitionCovers | src/Thesis.jsx:78-80 | when every value is 1, 0 or −1 the three lists together are a rearrangement of the input |
| LegacyThesis.PositionsBlock | src/Thesis.jsx:41-55 | nothing for an empty list; otherwise one entry per position in order, clickable if and only if it has a non-empty text |
| LegacyThesis.PositionText | src/Thesis.jsx:82-83 | absent if and only if nothing is open or the card is marked not loaded; otherwise the opened party and its text |
| LegacyThesis.WomId | src/Thesis.jsx:85 | an ID without a second segment gives NaN |
| LegacyThesis.WomIdOfThesisId | src/Thesis.jsx:85 | the election number put into a `WOM-ooo-tt` ID comes back out |
| LegacyThesis.WomIdWithoutDash | src/Thesis.jsx:85 | an ID without a dash gives NaN |
| LegacyThesis.CategoryOptions | src/Thesis.jsx:39 | one option per name, in order, with key, value and text all the name |
| LegacyThesis.CategoryOptionCount | src/Thesis.jsx:8-39 | there are 28 category options |
| LegacyThesis.ThesisCard.constructor | src/Thesis.jsx:58-65 | nothing open and no tags |
| LegacyThesis.ThesisCard.HandleTag | src/Thesis.jsx:67-71 | exactly one entry (link, label, description) is appended at the end of the tags |
| LegacyThesis.ThesisCard.ToggleOpen | src/Thesis.jsx:73-75 | the given position becomes the open one |
| LegacyThesis.ThesisCard.Click | src/Thesis.jsx:41-45 | a click opens a position with text and does nothing on one without |
| LegacyThesis.TagAll | src/Thesis.jsx:67-71 | successive selections leave the tags in selection order, shown if and only if there is at least one |

## Left out

- Network requests (`fetch`, JSON decoding, the POSTs for categories, tags and reports) are not modelled. Only the state changes of their callbacks are, with the response passed in as a parameter.
- The error handler (`handleError`) and its error state are left out. So are console logging and the test-environment branch of the topic page's failure callback. The model takes the failure branch as always run.
- JSX rendering, semantic-ui components, routing, SEO titles and the map are UI and are not modelled. The subheader is modelled by which variant it picks and what it inserts, not by its wording.
- Floating point is not modelled. Shares are exact integers in hundredths of a percent, and `Math.round` and display rounding are left out. `ThesisComponent.PctToString` renders hundredths as decimals.
- `Common.StrLess` compares characters by code point. JavaScript compares UTF-16 code units, which can differ outside the Basic Multilingual Plane.
- `Common.ParseInt` does not skip leading white space as `parseInt` does.
- `ElectionComponent.GetRatio`: only a `null` election gives no ratio. An `undefined` election makes the original throw, and that is not modelled.
- `TagView.TagViewPage.Shown`: the page size `THESES_PER_PAGE` comes from a configuration file that is not part of this model, so it is a parameter.
- `Object.keys` lists integer-like keys first in JavaScript and `dict` keeps insertion order in Python. The model takes key order as given.
- `ElectionComponent.SortByRatio`: the source comparator never returns 0, so equal ratios come out in an engine-dependent order. The model orders them stably, and its contract claims only the descending order and the permutation.
- `ThesisComponent.Thesis.ToggleOpen`: the source writes the header into the very object passed in. The model returns that object (`clicked`) instead of modelling the aliasing.
- `LegacyThesis.ThesisCard.HandleTag`: the source pushes onto the state's array in place. The model reassigns a sequence field, so sharing that array with other references is not captured.
- `ThesisComponent.Thesis`: `handleTag`, `handleTagRemove` and the tag POSTs are left out. They only forward to the server.
- `ThesisComponent.Thesis`: `render` sorts `state.categories` and `state.tags` in place (client/src/Thesis.jsx:353, 360). Rendering is not modelled, so the fields keep insertion order and do not become sorted after a render.
- `ElectionComponent.SortByRatio`: `render` sorts the `theses` prop in place (client/src/components/election/index.jsx:133). The model returns a new sequence, so the caller's array being reordered is not captured.
- `Models`: `Category.to_dict`, `Category.uncategorized`, `Occasion.to_dict` and the other models' `to_dict` are left out as persistence plumbing.
- The stored `value` columns are taken to hold −1, 0 or 1. Python truthiness of non-boolean objection votes is reduced to a boolean.
- `ThesisView.ThesisPage`: the API root prefix of the endpoints and the response's possible `null` payload are not modelled; a request is recorded by the numbers it carries, and its path is given by `Request.Path`.
