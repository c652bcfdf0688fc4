# CommunityPulse scoring core in Dafny

CommunityPulse scores neighbourhood posts and watches a community's mood. This
project models the arithmetic and text-processing core of the system as pure
Dafny functions over immutable data, and proves what that core promises. The
core has four parts:

- **The backend** (`backend/main.py`):
  - the sentiment label it derives from a compound polarity score;
  - the keyword, capitals, exclamation and urgency misinformation risk;
  - the unclamped priority score;
  - the community health score, its status bands and recommendations, which
    also appear in the analytics endpoint;
  - the alert feed: filter, order, limit to ten, classify;
  - the top issues grouped by category.

  The SQLite tables become an in-memory `seq<Post>`. Each SQL query becomes
  the filter, count, sort or group it expresses.
- **The preprocessing pipeline** (`data_collection/data_processor.py`):
  - `clean_text`: lower-casing, removing URLs, mentions and hashtags,
    collapsing whitespace, stripping;
  - the text features and misinformation indicators;
  - row filtering and score-to-sentiment bucketing for Reddit and NextDoor
    data;
  - the binary training label.
- **The synthetic NextDoor generator** (`data_collection/nextdoor_generator.py`):
  - the four post generators;
  - `generate_dataset`, with its 40/30/25/5 split and the shuffle;
  - the header and row completion of `save_to_csv`.

  Every random outcome is a parameter, so each property holds for every
  sequence of outcomes.
- **The alert screen of the app** (`CommunityPulse/src/components/Alerts.js`):
  - the confirmed status change;
  - the priority filter;
  - the per-priority counts.

The modules follow the source:

| Module | Contents |
|---|---|
| `Chars` | Character classes, substring counting and joining words with spaces |
| `Labels` | Sentiment labels |
| `Scoring` | Per-post analysis |
| `SampleText` | The risk of one of the backend's demo posts |
| `Health` | Health and analytics |
| `Ranking` | The ORDER BY as a stable insertion sort |
| `AlertFeed` | The alert feed |
| `TopIssues` | Top issues by category |
| `TextCleaning` | `clean_text` |
| `Features` | Features and indicators |
| `Processor` | The row pipelines and the training label |
| `Generator` | The post generators |
| `Dataset` | `generate_dataset` |
| `CsvExport` | `save_to_csv` |
| `AlertsView` | The alert screen |

Scores are exact `real` numbers. Where the source compares a ratio with a
threshold, the contracts state the comparison cross-multiplied in integers,
for example `10 * caps > 3 * length` for `caps / length > 0.3`.

## Model

| member | source | states |
|---|---|---|
| Scoring.SentimentLabel | backend/main.py:151-156 | positive iff compound >= 0.05, negative iff compound <= -0.05, neutral iff strictly between: the three cases are exhaustive and exclusive |
| Scoring.SentimentLabelMonotone | backend/main.py:151-156 | a higher compound score never yields a lower label |
| Scoring.KeywordWeight | backend/main.py:183-186 | each misinformation keyword adds 0.3 once if present in the lower-cased text, however often it occurs |
| Scoring.UrgencyWeight | backend/main.py:194-197 | 0.1 exactly when more than two distinct urgency words are present |
| Scoring.ShoutingCrossMultiplied | backend/main.py:178-180 | the caps ratio exceeds 0.3 iff 10 * upper-case count > 3 * length, and empty text never counts as shouting |
| Scoring.DetectMisinformation | backend/main.py:166-199 | the risk is min(0.2 for shouting + 0.3 per keyword present + 0.1 for more than three '!' + 0.1 for more than two urgency words, 1), and always lies in [0, 1] |
| Scoring.EmptyTextNoRisk | backend/main.py:178 | the empty text has risk 0 |
| Scoring.NoKeywordRiskAtMostPointFour | backend/main.py:177-199 | with no keyword present the risk is at most 0.4 |
| Scoring.PriorityScore | backend/main.py:201-212 | for sentiment in [-1, 1] and risk in [0, 1] the unclamped priority lies in [0, 1.4] |
| Scoring.PriorityDecreasesWithSentiment | backend/main.py:204 | priority strictly decreases as sentiment rises |
| Scoring.PriorityGrowsWithRisk | backend/main.py:207 | priority never falls as risk rises |
| Scoring.PriorityGrowsWithLength | backend/main.py:210 | priority never falls as the content gets longer |
| Scoring.PriorityLengthSaturates | backend/main.py:210 | past 500 characters the length no longer matters |
| Scoring.PriorityCanExceedOne | backend/main.py:201-212 | the score is not clamped: the most negative, riskiest, longest post scores 1.4 |
| Scoring.Analyze | backend/main.py:418-428 | the submitted post keeps the compound score and gets its label, the risk `DetectMisinformation` gives its text and the priority `PriorityScore` gives for that compound, risk and length; so the risk is in [0, 1] and the priority in [0, 1.4], no lower than its sentiment term |
| Scoring.CreatePost | backend/main.py:414-467 | the stored row keeps id, content, author, category and timestamp, stores the compound as its score with the matching label, and stores the risk and priority the analysis computes from the content |
| SampleText.SampleRisk | backend/main.py:219 | the second demo post, "URGENT: There's a conspiracy about the water quality! They're hiding something from us!", scores a misinformation risk of exactly 0.3 |
| SampleText.SampleKeywordsFound | backend/main.py:171-186 | of the eleven misinformation phrases only "conspiracy" occurs in that post once lower-cased |
| SampleText.SampleUrgencyFound | backend/main.py:194-195 | of the six urgency words only "urgent" occurs in it, so the urgency rule does not fire |
| SampleText.SampleNotShouting | backend/main.py:178-179 | it has at most 21 capitals in 87 characters, so the capitals rule does not fire |
| SampleText.SampleBangs | backend/main.py:189-191 | it has exactly two '!', so the exclamation rule does not fire |
| SampleText.PhrasesMissing | backend/main.py:184-186 | a phrase holding two adjacent characters that never stand side by side in the text does not occur in it |
| SampleText.LowerJoin | backend/main.py:183 | lower-casing a text of words joined by spaces lower-cases each word |
| Health.CountLabel | backend/main.py:342-346 | the per-label count is all posts iff every post has that label, and 0 iff none has |
| Health.CountRisky | backend/main.py:352-353 | the misinformation count is 0 iff no post has risk above 0.5 |
| Health.LabelCountsPartition | backend/main.py:484-489 | positive, negative and neutral counts add up to the total |
| Health.HealthScore | backend/main.py:357-365 | the score lies in [0, 100], and with no posts it is the base 50 |
| Health.HealthScoreUnclamped | backend/main.py:357-365 | with positive + negative <= total and misinformation <= total, the score before clamping already lies in [0, 80], and it is 80 iff every post is positive and none risky |
| Health.HealthMonotoneInPositive | backend/main.py:360 | more positive posts, the rest fixed, never lowers the score |
| Health.StatusOf | backend/main.py:368-390 | the bands >= 80 Excellent, >= 60 Good, >= 40 Fair, else Poor are exhaustive and exclusive |
| Health.StatusMonotone | backend/main.py:368-390 | a higher score never gets a worse status |
| Health.Recommendations | backend/main.py:368-396 | Poor carries four recommendations, the other bands three, an empty table one |
| Health.CommunityHealth | backend/main.py:319-408 | no posts gives 50, "No data available" and one recommendation; otherwise the score is `HealthScore` of the positive, negative and risky counts and the total, in [0, 80], the status is its band and the recommendations are the band's; the three ratios are the counts over the total; Excellent holds iff every post is positive and none has risk above 0.5 |
| Health.AverageSentiment | backend/main.py:492-493 | with no posts it is 0; otherwise it times the number of posts is the sum of the scores, and for scores in [-1, 1] it lies in [-1, 1] |
| Health.AverageWithin | backend/main.py:492-493 | the average lies between any lower and upper bound of the scores, so between the least and the greatest |
| Health.AverageOfConstant | backend/main.py:492-493 | posts that share one score average to that score |
| Health.GetAnalytics | backend/main.py:472-541 | the positive, negative and neutral counts are the label counts and add up to the total, the misinformation count is the number of posts with risk above 0.5, the average is `AverageSentiment`, and the score is `HealthScore` of those counts (50 when empty) |
| Health.AnalyticsAgreesWithHealth | backend/main.py:500-513 | the analytics endpoint computes the same health score as the health endpoint |
| Ranking.Rank | backend/main.py:558 | the result is ordered by the primary then the secondary key, descending, and is a permutation of the input |
| Ranking.Top | backend/main.py:558-559 | LIMIT k keeps min(k, n) rows, stays ordered, and every row left out ranks no higher than every row kept |
| AlertFeed.FlaggedPosts | backend/main.py:557 | exactly the posts with risk above 0.3 or priority above 0.7 are kept |
| AlertFeed.Selection | backend/main.py:554-560 | at most ten flagged posts, drawn from the table, in feed order, as many as there are flagged posts up to ten, and none of the flagged posts left out outranks a selected one |
| AlertFeed.Classify | backend/main.py:566-573 | type misinformation iff risk > 0.5, then severity high iff risk > 0.7; otherwise high priority with severity high iff priority > 0.8; the description is the lead text plus the first 50 characters plus "..." |
| AlertFeed.GetAlerts | backend/main.py:546-585 | at most ten alerts, numbered 1..k, each classifying the selected row at its position |
| AlertFeed.AlertsComeFromFlaggedPosts | backend/main.py:554-576 | every alert names a post in the table whose risk exceeds 0.3 or whose priority exceeds 0.7 |
| AlertFeed.FeedCompleteWhenShort | backend/main.py:554-560 | with ten or fewer flagged posts, every one of them appears in the feed |
| AlertFeed.ModerateRiskReportedAsHighPriority | backend/main.py:556-573 | a post with risk 0.4 and priority 0.5 is flagged for its risk yet reported as a medium high-priority concern |
| TopIssues.Categories | backend/main.py:628-630 | one entry per category that occurs, without repetition |
| TopIssues.CountCategory | backend/main.py:628-630 | the count of a category is positive iff some post has it |
| TopIssues.AverageCategory | backend/main.py:628-640 | the average sentiment of a category times its count is the sum of its scores, and lies in [-1, 1] for scores in [-1, 1] |
| TopIssues.InCategory | backend/main.py:628-640 | the group of a category holds exactly the posts of that category, as many as its count |
| TopIssues.AverageCategoryIsGroupAverage | backend/main.py:628-640 | the average of a category is the plain average of the posts in its group |
| TopIssues.TopIssues | backend/main.py:627-641 | the issues are ordered by count descending and are a permutation of the per-category groups |
| TopIssues.IssueCountsCoverPosts | backend/main.py:627-641 | the counts of all issues add up to the number of posts |
| Chars.Lower | data_collection/data_processor.py:92 | lower-casing keeps the length, leaves no upper-case letter, and keeps whitespace and '!' where they were |
| Chars.CountOccurrences | data_collection/data_processor.py:143-152 | non-overlapping occurrences: count * word length <= text length, and the count is positive iff the word occurs |
| Chars.CountIsPositionCount | data_collection/data_processor.py:143-152 | for a word no proper suffix of which is also a prefix, the resuming scan counts exactly the positions at which the word starts |
| Chars.CountAll | data_collection/data_processor.py:143-152 | the counts summed over a word list are 0 iff no word of the list occurs |
| Chars.CountAllIsPositionTotal | data_collection/data_processor.py:143-152 | for such words the summed counts are the number of (position, word) pairs at which a listed word starts |
| Chars.CountPresent | backend/main.py:184-186 | the number of distinct listed words present is the size of the set of words found, and 0 iff none occurs |
| TextCleaning.UrlMatchLength | data_collection/data_processor.py:29 | a URL match starts with http:// or https://, is at least 8 characters long and ends before the first character outside the URL class |
| TextCleaning.RemoveUrls | data_collection/data_processor.py:95 | removing URLs never lengthens the text and adds no character; text without ':' is unchanged |
| TextCleaning.UrlCount | data_collection/data_processor.py:119 | each URL found takes at least 8 characters of the text |
| TextCleaning.UrlCountZero | data_collection/data_processor.py:119 | findall finds nothing iff no URL match starts at any position of the text |
| TextCleaning.NoUrlKept | data_collection/data_processor.py:95 | text in which no match starts is left unchanged and counts no URL |
| TextCleaning.UrlsLeftmost | data_collection/data_processor.py:95 | text with a match splits into a prefix where no match starts, the greedy match and the rest; sub keeps the prefix, drops the match and goes on with the rest, and findall counts one more than in the rest |
| TextCleaning.UrlsAccounted | data_collection/data_processor.py:95 | the kept text plus 8 characters per counted URL fit in the input |
| TextCleaning.TagMatchLength | data_collection/data_processor.py:30-31 | a tag match is the marker followed by a maximal run of word characters, and no match means no word character follows |
| TextCleaning.RemoveTags | data_collection/data_processor.py:98-99 | the result has no marker followed by a word character, and text without the marker is unchanged |
| TextCleaning.RemoveTagsKeepsNoTag | data_collection/data_processor.py:98-99 | removing hashtags does not bring back a mention, and vice versa |
| TextCleaning.TagCount | data_collection/data_processor.py:120-121 | each tag found takes at least 2 characters, and none is found iff no marker is followed by a word character |
| TextCleaning.CollapseSpaces | data_collection/data_processor.py:102 | the only whitespace left is ' ', never two in a row, and the first character is kept or turned into ' ' |
| TextCleaning.CollapseRun | data_collection/data_processor.py:102 | a whitespace run on its own becomes one space |
| TextCleaning.CollapseChar | data_collection/data_processor.py:102 | a character other than whitespace is kept |
| TextCleaning.CollapseSplit | data_collection/data_processor.py:102 | splitting anywhere but inside a whitespace run commutes with the substitution, which with the two laws above fixes its result on every text |
| TextCleaning.CollapseKeepsSingleSpaced | data_collection/data_processor.py:102 | text already single-spaced is left unchanged |
| TextCleaning.Strip | data_collection/data_processor.py:105 | the result is the middle of the input with no whitespace at either end, and everything cut off is whitespace |
| TextCleaning.StripIs | data_collection/data_processor.py:105 | any slice with only whitespace before and after it and none at its own ends is what strip() returns |
| TextCleaning.StripKeepsTrimmed | data_collection/data_processor.py:105 | text with no whitespace at its ends is unchanged |
| TextCleaning.CleanText | data_collection/data_processor.py:86-107 | a missing or non-string cell gives ""; otherwise the result is no longer than the input, has no upper-case letter, no whitespace at either end, no two whitespace characters in a row, only ' ' as whitespace, and no mention or hashtag |
| TextCleaning.CleanTextKeepsNormalised | data_collection/data_processor.py:86-107 | text that is already normalised and holds no URL or marker is its own cleaning |
| TextCleaning.CleanTextNotIdempotent | data_collection/data_processor.py:95-99 | cleaning twice can differ from cleaning once: "http:@x//abc" cleans to "http://abc", which cleans to "" |
| Features.Words | data_collection/data_processor.py:113 | split() yields non-empty words free of whitespace, at most as many as the non-space characters, and none iff the text is all whitespace |
| Features.WordsOfSpaces | data_collection/data_processor.py:113 | whitespace alone holds no word |
| Features.WordsOfWord | data_collection/data_processor.py:113 | a run of non-whitespace is one word |
| Features.WordsSplit | data_collection/data_processor.py:113 | splitting the text at whitespace concatenates the word lists, which with the two laws above fixes the words of every text |
| Features.WordsRejoined | data_collection/data_processor.py:102-113 | the words joined by single spaces are the text with each whitespace run collapsed and the ends stripped |
| Features.WordsCoverNonSpace | data_collection/data_processor.py:113-114 | the word lengths add up to the number of non-space characters |
| Features.CapsRatio | data_collection/data_processor.py:118 | the caps ratio lies in [0, 1], is 0 iff there is no upper-case letter, and exceeds 0.3 iff 10 * caps > 3 * length |
| Features.AverageWordLength | data_collection/data_processor.py:114 | 0 for no words, otherwise between 1 and the text length |
| Features.ExtractFeatures | data_collection/data_processor.py:109-124 | each field is the quantity the source names: the number of words of `split()`, the mean word length, the counts of '!', '?' and digits, the caps ratio, and the URL, mention and hashtag counts; so word count <= length, and 0 iff the text is all whitespace; '!' + '?' + digits <= length; each URL takes at least 8 characters and each tag at least 2; no URLs iff no URL match starts anywhere; no mentions iff no mention pattern, likewise hashtags |
| Features.FeaturesOfCleanedText | data_collection/data_processor.py:174-178 | features of cleaned text have no ASCII capitals, so caps ratio 0, and no mention or hashtag |
| Features.ExclamationOveruse | data_collection/data_processor.py:160-161 | the flag is 0 or 1, and 1 iff 20 * '!' > length |
| Features.ExcessiveCaps | data_collection/data_processor.py:155-157 | the flag is 0 or 1, and 1 iff 10 * caps > 3 * length |
| Features.DetectIndicators | data_collection/data_processor.py:126-163 | each word count is 0 iff no listed word occurs in the lower-cased text; both flags follow the cross-multiplied thresholds |
| Features.UrgencyWordsBorderless | data_collection/data_processor.py:136 | no urgency word has a proper suffix that is also its prefix, so two occurrences never overlap |
| Features.ConspiracyWordsBorderless | data_collection/data_processor.py:137 | likewise for the conspiracy phrases |
| Features.AuthorityWordsBorderless | data_collection/data_processor.py:138 | likewise for the authority words |
| Features.IndicatorCounts | data_collection/data_processor.py:140-152 | each word count is the number of (position, word) pairs at which a listed word starts in the lower-cased text, the figure the training label compares with 2 |
| Features.EmptyTextNoIndicators | data_collection/data_processor.py:126-163 | the empty text gives all zeros |
| Features.CleanedTextNeverShouts | data_collection/data_processor.py:154-157 | cleaned text has no ASCII capitals, so its indicators never flag excessive capitals |
| Processor.PostSentiment | data_collection/data_processor.py:182-188 | a post is positive iff its score > 10 and negative iff its score < -5 |
| Processor.CommentSentiment | data_collection/data_processor.py:229-235 | a comment is positive iff its score > 5 and negative iff its score < -2 |
| Processor.Filter | data_collection/data_processor.py:170-176 | the kept rows are exactly the accepted ones, and every row is kept iff every row is accepted |
| Processor.FilterDistributes | data_collection/data_processor.py:170-176 | filtering keeps order and multiplicity: a concatenation filters to the concatenation of the filtered parts |
| Processor.FilterSingle | data_collection/data_processor.py:170-176 | a single row is kept iff accepted |
| Processor.ScoreSentiment | data_collection/data_processor.py:182-188 | a NaN score fails both comparisons and is neutral; a number is labelled by the thresholds |
| Processor.RedditRow | data_collection/data_processor.py:178-212 | the row has cleaned content and its kind's category; a given score is kept and labelled by the thresholds; a missing score cell stays NaN and is neutral; without a score column the score is 0 and neutral |
| Processor.ProcessReddit | data_collection/data_processor.py:170-214 | one row per kept item, in order, each with cleaned content at least the minimum length |
| Processor.PostRows | data_collection/data_processor.py:170-214 | every post row is a reddit_post of at least 10 characters, labelled by the > 10 / < -5 thresholds |
| Processor.CommentRows | data_collection/data_processor.py:217-261 | every comment row is a reddit_comment of at least 5 characters, labelled by the > 5 / < -2 thresholds |
| Processor.ProcessRedditData | data_collection/data_processor.py:165-263 | the rows are exactly the processed posts followed by the processed comments, one per kept item, each a well-formed post row or comment row |
| Processor.NextdoorRow | data_collection/data_processor.py:284-287 | a given category, sentiment or likes value is copied; a missing cell in a present column stays NaN; only a column absent from the frame takes the default general, neutral or 0 |
| Processor.NoDefaultCategoryWithColumn | data_collection/data_processor.py:284-287 | in a frame with a category column, a row shows general only when its record says so, and NaN exactly for a missing cell |
| Processor.ProcessNextdoor | data_collection/data_processor.py:265-306 | one row per kept record, in order, each with at least 10 characters of cleaned content |
| Processor.TrainingLabel | data_collection/data_processor.py:396-402 | the label is 0 or 1, and 1 iff urgency words > 2 or any other indicator is positive |
| Processor.CreateTrainingDataset | data_collection/data_processor.py:388-409 | one training row per input row, with its columns and its label |
| Processor.TrainingLabelIgnoresCaps | data_collection/data_processor.py:396-402 | on the processed Reddit and NextDoor rows together, whose indicators come from lower-cased text free of ASCII capitals, the caps flag is always 0, so the label rests on the word counts and the exclamation flag alone |
| Generator.Choice | data_collection/nextdoor_generator.py:136 | a choice is an element of the list |
| Generator.ChoiceReachesAll | data_collection/nextdoor_generator.py:136 | every element of the list can be chosen |
| Generator.RandInt | data_collection/nextdoor_generator.py:153 | randint(lo, hi) lies in [lo, hi] |
| Generator.RandIntReachesAll | data_collection/nextdoor_generator.py:153 | every value in [lo, hi] can be drawn |
| Generator.Record | data_collection/nextdoor_generator.py:147-155 | a generated dict has the seven standard keys, in order, holding the given content, author, category, sentiment, timestamp, likes and comments, and no misinformation_risk |
| Generator.PositivePost | data_collection/nextdoor_generator.py:134-155 | labelled positive, category from its list, likes in [5, 50], comments in [0, 15], text starting with a filled positive template |
| Generator.NegativePost | data_collection/nextdoor_generator.py:157-180 | labelled negative, category from its list, likes in [0, 20], comments in [0, 25], text starting with a filled negative template |
| Generator.NeutralPost | data_collection/nextdoor_generator.py:182-203 | labelled neutral, category from its list, likes in [0, 15], comments in [0, 10], text starting with a filled neutral template |
| Generator.MisinformationPost | data_collection/nextdoor_generator.py:205-253 | labelled negative, category from its list, likes in [0, 10], comments in [0, 30], and an eighth key misinformation_risk set to high |
| Dataset.CountPermutation | data_collection/nextdoor_generator.py:302 | counts are the same for any two lists holding the same multiset |
| Dataset.Shuffle | data_collection/nextdoor_generator.py:302 | the shuffle is a permutation of its input |
| Dataset.ShuffleFromFixed | data_collection/nextdoor_generator.py:302 | when every draw picks its own position, the shuffle leaves the list as it was |
| Dataset.GeneratedAtMostRequested | data_collection/nextdoor_generator.py:274-277 | the four truncated shares add up to at most n, and exactly n when n is a multiple of 20 |
| Dataset.GenerateDataset | data_collection/nextdoor_generator.py:269-304 | the dataset has floor(0.4n) + floor(0.3n) + floor(0.25n) + floor(0.05n) posts and is a permutation of the four blocks in order |
| Dataset.DatasetLabelCounts | data_collection/nextdoor_generator.py:269-302 | floor(0.4n) positive, floor(0.3n) + floor(0.05n) negative (the misinformation posts are labelled negative) and floor(0.25n) neutral posts, of which floor(0.05n) carry the misinformation key |
| Dataset.DatasetKeys | data_collection/nextdoor_generator.py:134-253 | every post has the seven standard keys, and a post has the eighth misinformation_risk key iff it is a planted one |
| CsvExport.LessTransitive | data_collection/nextdoor_generator.py:319 | Python's string order is transitive; LessTotal and LessAsymmetric make it a strict total order |
| CsvExport.Header | data_collection/nextdoor_generator.py:315-319 | the header is sorted without repetition and holds exactly the keys some record has |
| CsvExport.SortedUnique | data_collection/nextdoor_generator.py:319 | two sorted lists with the same elements are equal |
| CsvExport.HeaderIgnoresOrder | data_collection/nextdoor_generator.py:315-319 | reordering the records does not change the header |
| CsvExport.Get | data_collection/nextdoor_generator.py:325 | the record's value under the key, or "" when absent |
| CsvExport.SaveToCsv | data_collection/nextdoor_generator.py:306-328 | nothing is written iff the data is empty; otherwise one row per record, each with one cell per header field |
| CsvExport.RowCells | data_collection/nextdoor_generator.py:324-325 | a cell holds the record's own value under its field, or "" when the record lacks it |
| AlertsView.NewStatus | CommunityPulse/src/components/Alerts.js:159 | resolve sets resolved; every other action sets investigating |
| AlertsView.ApplyAction | CommunityPulse/src/components/Alerts.js:157-161 | the list keeps its length, order, ids and priorities; alerts with another id are unchanged; the alert with the id gets the new status |
| AlertsView.ApplyActionIdempotent | CommunityPulse/src/components/Alerts.js:157-161 | confirming the same action twice is the same as once |
| AlertsView.ApplyActionCommutes | CommunityPulse/src/components/Alerts.js:157-161 | actions on two different alerts can be confirmed in either order |
| AlertsView.ActionsOffered | CommunityPulse/src/components/Alerts.js:240-257 | a card shows no buttons iff its alert is resolved, and otherwise only investigate and resolve |
| AlertsView.ResolvedStaysResolved | CommunityPulse/src/components/Alerts.js:240-257 | with distinct ids, no offered button changes a resolved alert |
| AlertsView.RunKeepsResolved | CommunityPulse/src/components/Alerts.js:147-166 | after any sequence of button presses a resolved alert is still resolved and otherwise unchanged |
| AlertsView.FilteredAlerts | CommunityPulse/src/components/Alerts.js:168-171 | filter all shows every alert; any other filter shows exactly the alerts of that priority |
| AlertsView.FilterDistributes | CommunityPulse/src/components/Alerts.js:168-171 | the filter keeps order: filtering a concatenation concatenates the filtered parts |
| AlertsView.FilteredCount | CommunityPulse/src/components/Alerts.js:270-275 | the filter under a priority shows as many alerts as that priority's count |
| AlertsView.Counts | CommunityPulse/src/components/Alerts.js:270-275 | high + medium + low <= all, with equality iff every alert has one of those three priorities |

## Left out

- The sentiment analyser (VADER) is a foreign library. Its compound score is
  an input, taken to lie in [-1, 1] as the library guarantees. That is why
  `Scoring.Analyze` and `Scoring.CreatePost` require it.
- SQLite, the HTTP routing, NLTK downloads and the exception handlers are
  left out:
  - the tables become an in-memory sequence of posts;
  - an error becomes no model at all, because none of the modelled formulas
    can fail.
- The `round(...)` calls on the results and IEEE float behaviour are not
  modelled. Scores are exact reals.
- AlertFeed.FlaggedPosts: the comparison is exact. A risk the program sums
  in floats as 0.2 + 0.1 = 0.30000000000000004 passes its `> 0.3` test and
  is alerted. Its exact value 0.3 is not flagged by the model.
- Health.CommunityHealth: the status bands apply to the exact score. A float
  score such as 59.99999999999999, where the exact value is 60, is "Fair" in
  the program and "Good" in the model.
- The counts `int(n * 0.4)` and the others are floors of exact rationals.
  That matches float evaluation for every size a caller would ask for, but
  not for astronomically large n.
- Ties in an ORDER BY are not ordered by SQL. The model keeps tied rows in
  table order, as a stable sort does.
- The daily trend query of `get_analytics` depends on the wall clock and is
  left out.
- The SQL `AVG` over a table with no rows returns NULL, and the source maps
  that to 0. The average of an empty category is never needed, because every
  category that appears has at least one post.
- Characters follow ASCII:
  - upper case, lower-casing, digits and `\w` are the ASCII ones;
  - whitespace is the full set `str.isspace` accepts;
  - Unicode letters outside ASCII are not modelled.
- Features.FeaturesOfCleanedText: caps ratio 0 holds only for text whose
  upper-case letters all have lower-case forms. Python's `lower()` leaves
  characters such as 'ℂ' or the mathematical bold capitals upper case, so
  the program can count capitals in cleaned text.
- Features.CleanedTextNeverShouts: for the same reason the program can set
  `excessive_caps` on cleaned text written in such characters.
- Processor.TrainingLabelIgnoresCaps: for the same reason the caps flag can
  contribute to the program's label. The same limit applies to the zero
  capitals flag that `Processor.RedditRow` and `Processor.NextdoorRow`
  state.
- The URL pattern's character class is modelled as it is written. Its range
  `$-_` covers every character from `$` to `_`.
- Randomness and time are left out:
  - every `random.choice`, `random.randint`, `random.random` and
    `random.shuffle` outcome is a parameter;
  - each generator loop draws from its own stream of outcomes, and the
    shuffle's picks are a further parameter;
  - `_generate_timestamp` depends on the clock, so the timestamp is part of
    a generator's outcomes.
- `generate_sample_data` in the backend is demo seeding and is not
  modelled. Only the misinformation risk of its second post is worked out,
  in `SampleText`. That post is given as its thirteen words joined by single
  spaces rather than as one string literal.
- Columns that the row pipelines copy through unchanged are not part of the
  modelled rows: original content, author, timestamp, upvote ratio, URL and
  the others.
- Loading and saving files are I/O and are not modelled:
  - `load_reddit_data`, `load_nextdoor_data`, `save_processed_data`,
    `save_to_json`, `analyze_data` and `generate_analysis_report`;
  - the CSV writer's quoting.

  `save_to_csv` is modelled by the header and rows it writes.
- The unused `categories` list of the generator's constructor is not
  modelled.
- The scripts that only orchestrate are not modelled: `main`, `collect_data`,
  the Reddit scraper and the smoke tests.
- Other endpoints that only read rows back are plain queries and are not
  modelled: `get_posts`, the list part of `get_dashboard`, and
  `analyze_content`, which returns what `Scoring.Analyze` computes.
- The app's rendering, the mock alerts, the fetch and the confirmation
  dialog are left out. Only the confirmed branch of `handleAlertAction` is
  modelled.
- AlertsView.ResolvedStaysResolved: this assumes that alert ids are
  distinct. With a repeated id, a button on one card also changes the other
  card with that id.
- Scoring.PriorityScore: the [0, 1.4] range is stated for sentiment in
  [-1, 1] and risk in [0, 1]. Outside those ranges the unclamped formula is
  unbounded, exactly as written.
