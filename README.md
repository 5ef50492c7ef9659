# SEO Control Center: the scoring, mining and reporting core in Dafny

SEO Control Center is a multi-tenant dashboard for SEO teams. Workspaces hold
projects, and projects hold keywords, pages and tasks. Most of the code is
CRUD plumbing. This model covers the parts that compute something:

- **The internal-link miner** (`lib/linking/linkOpportunities.ts`). It pairs
  blog pages with money targets. A money target is a keyword that points at a
  conversion page. The miner finds whole-word, case-insensitive occurrences of
  the target's anchors in the blog text and scores each one. It keeps the
  best match per pair. It skips pairs whose `[link-scout:blog:target:anchor]`
  signature an earlier LINK task already carries. Caps apply per blog and per
  project. Each accepted suggestion becomes one LINK task whose description
  ends with the signature.
- **The opportunity scorer** (`lib/opportunity.ts`). It turns five signals
  into a 0-100 score: traffic gap, intent, SERP position (a logistic curve),
  conversion rate and effort.
- **The content brief generator** (`lib/content/generator.ts`).
- **The chart series helpers** (`lib/charts.ts`).
- **The Search Console row reduction** (`lib/gsc/fetchData.ts`). This covers
  the keyword and page lookup maps, the per-row query record, and the best
  position per keyword and day.
- **The form schemas** (`lib/validations/forms.ts`), with the task and audit
  enumerations (`lib/tasks/constants.ts`, `lib/tech/constants.ts`).

Modules, one per concern:

- `Wrappers`: `Option`.
- `Strings`: the JavaScript string built-ins the code uses: `trim`,
  `toLowerCase`, `split`, `join`, `replace(/\s+/g, " ")` and `String(n)`.
- `Sequences`: `new Set` order, stable sort, `filter` and `map`.
- `Numbers`: `Math.round`.
- `TaskConstants`: the enumerations.
- `Opportunity`: the scorer.
- `ContentGenerator`: the brief generator.
- `Charts`: the chart helpers.
- `GscFetch`: the Search Console reduction.
- `Forms`: the form schemas.
- `LinkMatching`: tokenizing, confidence, snippets and the anchor regex.
- `LinkOpportunities`: the miner around the matcher.

Most of the code is expressions and becomes functions. The source's loops
become methods with loop invariants, written against a specification
function. These are:

- `CollectExistingSignatures`.
- `FindMatchesForTarget` and its `exec` loop.
- The selection loop `SelectSuggestions`.
- The task loop `CreateTasks`.
- `buildKeywordMap` and `buildPageMap`.
- `persistRows`.
- The per-date tally of `aggregateTraffic`.

The model leaves out these things, and each becomes a parameter instead:

- The database.
- The network.
- The clock.
- The URL parser.
- `Math.exp`: a function that must obey the laws of the exponential.

Arithmetic is over `real`.

Some behaviour of the code is easy to misread:

- **topicalFactor.** It divides the number of matching snippet tokens,
  repeats included, by the number of distinct title tokens. So the factor
  can exceed 1 before the final clamp.
- **Effort factor.** With no override and no task type, the effort is the
  entry for `TASK_TYPES[0]`, which is ONPAGE (3). A non-finite or
  non-positive `effortOverride` passes through `??`, and `normalizeEffort`
  then gives CONTENT/5 (0.8).
- **Re-running the miner.** A run cut short by `maxPerBlog` or
  `maxPerProject` leaves pairs it never reached, and a later run over the
  same data accepts those. They are new suggestions, not duplicates.
  `SecondRunAcceptsNothing` therefore assumes an uncapped first run.
  `SuggestionsSound` covers the capped case: a suggestion's signature is
  never one already present in the tasks.
- **Conversion factor.** It is 0 for a missing or non-positive rate, but a
  NaN rate passes the guard and makes the whole score NaN. The model keeps
  this behaviour in `ConversionFactorAsWritten` and
  `CalculateOpportunityScoreAsWritten`, and scores with the NaN-safe factor
  elsewhere; see Findings.

## Model

| member | source | states |
|---|---|---|
| TaskConstants.ParseTaskType | lib/tasks/constants.ts:1-2 | accepts exactly the five task type names, and the parsed value's name is the input |
| TaskConstants.ParseTaskPriority | lib/tasks/constants.ts:4-5 | accepts exactly the four priority names, and the parsed value's name is the input |
| TaskConstants.ParseTaskStatus | lib/tasks/constants.ts:7-8 | accepts exactly the five status names, and the parsed value's name is the input |
| TaskConstants.ParseAuditStatus | lib/tech/constants.ts:7-8 | accepts exactly the four audit status names, and the parsed value's name is the input |
| TaskConstants.EnumRoundTrips | lib/tasks/constants.ts:1-8 | every enumeration value is listed, and parsing its name gives it back |
| Numbers.Round | lib/gsc/fetchData.ts:163 | `Math.round` gives the integer within half of x (halves go up) |
| Numbers.RoundMonotone | lib/gsc/fetchData.ts:163-170 | rounding keeps the order of values |
| Strings.Lower | lib/content/generator.ts:30 | same length; each character is lower-cased (ASCII) |
| Strings.Trim | lib/content/generator.ts:30 | the input without its leading and trailing whitespace: a contiguous part of it with no whitespace at either end, and everything cut off before and after it is whitespace |
| Strings.TrimKeepsText | lib/linking/linkOpportunities.ts:112 | trimming keeps every non-whitespace character, in order |
| Strings.Split | lib/content/generator.ts:20 | at least one part, and no part holds the separator |
| Strings.JoinSplit | lib/content/generator.ts:20-22 | joining the split parts with the separator gives the input back |
| Strings.SplitRuns | lib/content/generator.ts:66 | at least one piece; no piece holds a class character; every piece between two runs is non-empty, and so is the first when the input starts outside the class |
| Strings.SepRuns | lib/content/generator.ts:66 | the runs `split` cuts at, in order: each non-empty and made of class characters |
| Strings.SplitRunsRoundTrip | lib/content/generator.ts:66 | there is one more piece than runs, and putting the runs back between the pieces gives the input |
| Strings.SplitRunsIsSplit | lib/content/generator.ts:66 | the pieces and runs returned cut the input into class-free pieces separated by non-empty class runs |
| Strings.SplitRunsUnique | lib/content/generator.ts:66 | any cut of the input into class-free pieces separated by non-empty class runs, with no empty inner piece, is the one `split` returns |
| Strings.CollapseWhitespace | lib/linking/linkOpportunities.ts:112 | never longer; the only whitespace left is single spaces, never two in a row; empty exactly when the input is (CollapseJoinsPieces pins the result exactly) |
| Strings.CollapseKeepsText | lib/linking/linkOpportunities.ts:112 | `replace(/\s+/g, " ")` keeps every non-whitespace character, in order |
| Strings.CollapseJoinsPieces | lib/linking/linkOpportunities.ts:112 | `replace(/\s+/g, " ")` equals `split(/\s+/).join(" ")`: each whitespace run, leading and trailing ones included, becomes exactly one space and nothing else changes |
| Strings.CollapseSamePieces | lib/linking/linkOpportunities.ts:112 | the collapsed text splits on whitespace into the same pieces as the input, and every separator run is now a single space |
| Strings.Words | lib/linking/linkOpportunities.ts:112 | the words of a text are its non-empty pieces between whitespace runs: each non-empty and free of whitespace |
| Strings.TrimUnique | lib/linking/linkOpportunities.ts:112 | whatever lies between leading and trailing whitespace and starts and ends outside whitespace is exactly what `trim()` returns |
| Strings.CleanIsWords | lib/linking/linkOpportunities.ts:112 | `replace(/\s+/g, " ").trim()` is the words of the input joined by single spaces |
| Strings.WordsOfJoin | lib/linking/linkOpportunities.ts:112 | words joined by single spaces split back into the same words |
| Strings.NatToStringRoundTrip | lib/linking/linkOpportunities.ts:193 | reading the printed digits of n back gives n |
| Sequences.Unique | lib/content/generator.ts:25-27 | `Array.from(new Set(xs))` holds exactly the values of xs, each once |
| Sequences.UniquePrefix | lib/content/generator.ts:25-27 | the result for a prefix is a prefix of the result, so first occurrences keep their order |
| Sequences.SortBy | lib/charts.ts:6 | the sort is sorted by the key and is a permutation of the input |
| Sequences.SortByStable | lib/charts.ts:6 | stability: for every key value, the elements with that key come out in their input order |
| Sequences.SortByHead | lib/linking/linkOpportunities.ts:129 | the sort's head is the first element with the least key (the sort is stable) |
| Sequences.Filter | lib/linking/linkOpportunities.ts:65 | every kept element passes and comes from the input, and every passing element of the input is kept |
| Sequences.FilterAppend | lib/linking/linkOpportunities.ts:65 | filtering a concatenation concatenates the filters, so the input order is kept |
| Sequences.FilterAll | lib/linking/linkOpportunities.ts:65 | when every element passes, the filter is the input |
| Sequences.FilterSingle | lib/linking/linkOpportunities.ts:65 | a single element is kept exactly when it passes |
| Sequences.FilterDistinct | lib/linking/linkOpportunities.ts:65 | filtering a list without repeats gives one without repeats |
| Opportunity.MaxEffortOf | lib/opportunity.ts:34 | `Math.max` of the efforts bounds every entry and is one of them |
| Opportunity.MaxEffortScaleIsTech | lib/opportunity.ts:23-34 | MAX_EFFORT_SCALE is 5, the TECH effort, and every effort lies in (0, 5] |
| Opportunity.Clamp01 | lib/opportunity.ts:48 | result in [0, 1]; values inside are kept, values below give 0, values above give 1 |
| Opportunity.ToFixed | lib/opportunity.ts:91 | `Number(x.toFixed(d))` is a whole number of 1/10^d steps, the one `Steps` rounds to (halves away from zero); non-negative for a non-negative value |
| Opportunity.ToFixedError | lib/opportunity.ts:91 | rounding to d decimals moves a value by at most half a step |
| Opportunity.ToFixedOdd | lib/opportunity.ts:91 | rounding is symmetric about zero |
| Opportunity.ToFixedMonotone | lib/opportunity.ts:91 | rounding keeps the order of non-negative values |
| Opportunity.ToFixedSeparates | lib/opportunity.ts:91 | values at least one step apart stay strictly ordered after rounding |
| Opportunity.ToFixedRange | lib/opportunity.ts:119 | a value in [0, top] stays in [0, top] when top is a whole number of steps |
| Opportunity.TrafficGapFactor | lib/opportunity.ts:50-55 | result in [0, 1]; non-finite gives 0; a negative gap gives 0; a gap in [0, 100] gives gap/100; a gap above 100 gives 1 |
| Opportunity.IntentFactor | lib/opportunity.ts:57-65 | result in [0, 1]; a finite score is clamped to [0, 1]; without one, a given priority's weight (LOW 0.25, MEDIUM 0.5, HIGH 0.75, CRITICAL 1); with neither, the MEDIUM weight 0.5 |
| Opportunity.ConversionFactorAsWritten | lib/opportunity.ts:67-72 | NaN gives NaN; every other input gives a finite value in [0, 1] |
| Opportunity.ConversionFactor | lib/opportunity.ts:67-72 | result in [0, 1]; missing, NaN or non-positive gives 0; agrees with the code as written on every input except NaN |
| Opportunity.ConversionNaNFinding | lib/opportunity.ts:67-72 | as written, NaN gives NaN where a missing rate gives 0; corrected, both give 0 |
| Opportunity.EffortInput | lib/opportunity.ts:109 | an override is used as given; without one, the type's table effort; with neither, the ONPAGE entry, `TASK_TYPES[0]` |
| Opportunity.EffortFactor | lib/opportunity.ts:74-79 | result in [0, 1]; non-finite or non-positive gives CONTENT/5; an effort in (0, 5] gives effort/5; above 5 gives 1 |
| Opportunity.SanitizedPosition | lib/opportunity.ts:86-89 | at least 0.1; missing or non-finite gives 12; a finite position of at least 0.1 is kept |
| Opportunity.LogisticCurve | lib/opportunity.ts:90 | the curve lies strictly between 0 and 1 |
| Opportunity.LogisticPositionWeight | lib/opportunity.ts:81-92 | the rounded, clamped weight lies in [0, 1] |
| Opportunity.LogisticCurveNonIncreasing | lib/opportunity.ts:90 | for a non-negative steepness, a larger position never has a larger curve value |
| Opportunity.LogisticWeightNonIncreasing | lib/opportunity.ts:81-92 | a worse sanitized position never gets a larger rounded weight |
| Opportunity.CombineFactors | lib/opportunity.ts:111-119 | the weighted, clamped, scaled and rounded score lies in [0, 100] |
| Opportunity.CombineFactorsMonotone | lib/opportunity.ts:111-119 | raising the gap, intent, position or conversion factor, or lowering effort, never lowers the score |
| Opportunity.CombineFactorsSeparate | lib/opportunity.ts:118-119 | clamped weighted sums at least 0.01 apart give strictly ordered scores |
| Opportunity.TrafficGapFactorMonotone | lib/opportunity.ts:50-55 | a larger finite gap never gives a smaller factor |
| Opportunity.ConversionFactorMonotone | lib/opportunity.ts:67-72 | a larger finite rate never gives a smaller factor |
| Opportunity.EffortFactorMonotone | lib/opportunity.ts:74-79 | a larger positive effort never gives a smaller factor |
| Opportunity.CalculateOpportunityScore | lib/opportunity.ts:94-120 | the score with the NaN-safe conversion factor: total and in [0, 100] for every input |
| Opportunity.CalculateOpportunityScoreAsWritten | lib/opportunity.ts:94-120 | the score as the code computes it: NaN exactly when the conversion rate is NaN, and otherwise equal to CalculateOpportunityScore |
| Opportunity.DefaultsOnly | lib/opportunity.ts:94-120 | with only the two scores given, intent 0.5, conversion 0, effort 0.6, position 12 and gap max(0, potential - current) apply; the score lies in [0, 100] |
| Opportunity.LogisticCurveOrdering | tests/opportunity.test.ts:4-11 | the weights at positions 2, 8 and 20 are strictly decreasing, for any function obeying the laws of exp |
| Opportunity.StrongOutscoresWeak | tests/opportunity.test.ts:13-35 | the strong task of the test scores strictly above the weak one |
| Opportunity.EffortOverridePenalty | tests/opportunity.test.ts:37-54 | effort override 1 scores strictly above override 8, all else equal |
| ContentGenerator.CapitalizeWord | lib/content/generator.ts:21 | upper-cases the first character and keeps the rest |
| ContentGenerator.CapitalizeWords | lib/content/generator.ts:20-21 | maps the word capitalizer over every segment |
| ContentGenerator.CapitalizeSplit | lib/content/generator.ts:18-23 | split, map and join is the character-level rule: upper-case at the start and after each space |
| ContentGenerator.CapitalizeAt | lib/content/generator.ts:18-23 | `capitalize` keeps the length and upper-cases exactly the first character and each character after a space |
| ContentGenerator.CapitalizeSegments | lib/content/generator.ts:18-23 | `capitalize` keeps the number of space-separated segments |
| ContentGenerator.OutlineSections | lib/content/generator.ts:36-57 | four sections of three h3 entries each |
| ContentGenerator.KeywordTokens | lib/content/generator.ts:66 | one token per piece of the keyword split at whitespace runs, in order, each the capitalized piece |
| ContentGenerator.Competitors | lib/content/generator.ts:78-84 | three outlines; the i-th has the i-th name, the "name on topic" headline, and the i-th angle and call to action |
| ContentGenerator.CompetitorTable | lib/content/generator.ts:78-84 | the outlines are A/KPI-first/Book demo, B/Workflow-focused/Download template, C/Automation-centric/Start free trial |
| ContentGenerator.BuildBrief | lib/content/generator.ts:29-94 | title and h1 are the capitalized normalized keyword plus ": Complete Brief"; four sections of three; three competitors; first section titled for the audience |
| ContentGenerator.BriefQuestions | lib/content/generator.ts:59-64 | the questions are exactly the question templates for the keyword and audience, each once |
| ContentGenerator.BriefEntities | lib/content/generator.ts:66-74 | the entities are exactly the candidates (keyword tokens, topic, Search Console, GA4, Core Web Vitals, intent), each once, and include the topic, the three product names and the intent |
| ContentGenerator.BriefLinks | lib/content/generator.ts:76 | the links are the given ones, or none |
| ContentGenerator.BriefDefaults | lib/content/generator.ts:33-34 | with no options the default intent and audience apply and there are no links |
| Charts.DayOfMonotone | lib/charts.ts:6-8 | a later time never has an earlier day |
| Charts.SnapshotSeries | lib/charts.ts:5-12 | the snapshots sorted by time, each mapped to its point; so one point per snapshot, dates non-decreasing, and a permutation of the mapped snapshots; with Sequences.SortByStable, snapshots with the same time keep their input order |
| Charts.TallyOfSums | lib/charts.ts:17-22 | the tally holds, for every day seen, that day's summed traffic, and lists each day once |
| Charts.TrafficByDate | lib/charts.ts:15-22 | the nested loops build a map whose keys are the recorded days and whose values are the per-day traffic sums |
| Charts.SortedEntries | lib/charts.ts:24-26 | every map entry is listed once, by strictly increasing date, with its own traffic |
| Charts.SumOverDaysTotal | lib/charts.ts:20 | the per-day sums over the recorded days add up to the total traffic |
| Charts.AggregateTraffic | lib/charts.ts:14-27 | strictly increasing dates; each entry is a recorded day with that day's total; every recorded day appears; entries sum to the total traffic; no snapshots give no entries |
| Charts.AggregateOfNothing | lib/charts.ts:14-27 | keywords without snapshots give no snapshots and no days |
| Forms.SlugRunAccepts | lib/validations/forms.ts:7 | the matcher accepts exactly the strings of slug shape, in both directions |
| Forms.SlugRegexShape | lib/validations/forms.ts:7 | the slug regex holds exactly for runs of `[a-z0-9]` joined by single dashes |
| Forms.SlugExamples | lib/validations/forms.ts:7-15 | "acme-seo-2" and "ab" are valid slugs; "a", "-ab", "ab-", "a--b", "Acme" and "a_b" are not |
| Forms.ParseKeyed | lib/validations/forms.ts:18-20 | accepted exactly when the id is a cuid and the fields parse, keeping the id and the parsed fields |
| Forms.UpdateSharesFields | lib/validations/forms.ts:34-36 | an update schema accepts the same fields as its create schema, with the same result |
| Forms.ParseWorkspace | lib/validations/forms.ts:9-16 | accepted exactly when the name has at least 2 characters and the slug has 2 to 50 characters of slug shape |
| Forms.ParseProject | lib/validations/forms.ts:25-32 | accepted exactly when the name and domain have at least 2 characters, the site URL is a URL and the GA4 id has at least 3 characters |
| Forms.ProjectExamples | lib/validations/forms.ts:25-32 | a complete project is accepted; a one-letter name, a two-character GA4 id or a non-URL site is refused |
| Forms.ParseKeyword | lib/validations/forms.ts:41-48 | accepted exactly when the three strings have at least 2 characters, the volume is a whole number of at least 0 and the difficulty a whole number in 0..100 |
| Forms.KeywordNumberExamples | lib/validations/forms.ts:46-47 | fractional, negative and above-100 numbers are refused and the bounds accepted |
| Forms.ParsePage | lib/validations/forms.ts:57-64 | accepted exactly when the URL is a URL and the type and status have at least 2 characters |
| Forms.PageExamples | lib/validations/forms.ts:57-64 | a page with a URL, a type and a status is accepted; a non-URL or a one-letter status is refused |
| Forms.ParseKeywordMapping | lib/validations/forms.ts:73-77 | accepted exactly when both ids are cuids and the role is PRIMARY or SECONDARY, which it returns |
| Forms.ParseTask | lib/validations/forms.ts:81-92 | accepted exactly when the title has at least 2 characters, the three enum names are listed, both scores lie in [0, 100] and the brief id is absent, null or a cuid; the parsed enums have the given names |
| Forms.TaskExamples | lib/validations/forms.ts:85-89 | a fractional score is accepted, 100.5 and lower-case "open" are refused, a null brief id is accepted |
| Forms.ParseTaskMove | lib/validations/forms.ts:96-100 | accepted exactly when the id is a cuid, the status is listed and the order a whole number of at least 0 |
| Forms.ParseAudit | lib/validations/forms.ts:106-116 | accepted exactly when the title, type, impact and recommendation have at least 2 characters, the status is listed and a present score lies in [0, 100] |
| Forms.AuditScoreExamples | lib/validations/forms.ts:111 | a missing score is accepted, 101 refused and 0 accepted |
| GscFetch.StripTrailingSlash | lib/gsc/fetchData.ts:11-13 | removes exactly one final "/" when there is one, otherwise keeps the string |
| GscFetch.NormalizeUrl | lib/gsc/fetchData.ts:6-15 | null exactly for a missing or empty URL; otherwise the parsed href, or the trimmed input when parsing fails, without one trailing "/" |
| GscFetch.StripOneSlashOnly | lib/gsc/fetchData.ts:13 | "a//" keeps one slash and "/" becomes empty |
| GscFetch.LastWinsMapKeys | lib/gsc/fetchData.ts:212-218 | the map's keys are exactly the present keys |
| GscFetch.LastWinsMapValues | lib/gsc/fetchData.ts:212-218 | a key maps to the id at its last occurrence |
| GscFetch.PhraseKeys | lib/gsc/fetchData.ts:215 | the keys set are the lower-cased phrases |
| GscFetch.BuildKeywordMap | lib/gsc/fetchData.ts:212-218 | the loop builds the map that sets each lower-cased phrase to its keyword's id in turn |
| GscFetch.KeywordMapLastWins | lib/gsc/fetchData.ts:212-218 | the keys are exactly the lower-cased phrases, and each maps to the id of its last keyword |
| GscFetch.PageKeys | lib/gsc/fetchData.ts:222-227 | each page contributes its normalized URL when that is truthy, otherwise nothing |
| GscFetch.BuildPageMap | lib/gsc/fetchData.ts:220-229 | the loop builds the map that sets each truthy normalized URL to its page's id in turn |
| GscFetch.PageMapLastWins | lib/gsc/fetchData.ts:220-229 | the keys are exactly the non-empty normalized URLs, and each maps to the id of its last page |
| GscFetch.RowQuery | lib/gsc/fetchData.ts:105-106 | a missing query gives "(not set)"; otherwise the query, lower-cased |
| GscFetch.Ctr | lib/gsc/fetchData.ts:123 | a given ctr is kept; otherwise clicks/impressions, or 0 without impressions |
| GscFetch.CtrFallbackRange | lib/gsc/fetchData.ts:123 | a computed ctr lies in [0, 1] when clicks do not exceed impressions |
| GscFetch.RowKey | lib/gsc/fetchData.ts:138-140 | a row has a key exactly when its query maps to a non-empty keyword id; the key is that id and the row's day |
| GscFetch.OfferOf | lib/gsc/fetchData.ts:138-150 | a row offers an entry exactly when it has a key; the entry carries the row's position, keyword and day |
| GscFetch.BestOfSummarizes | lib/gsc/fetchData.ts:141-150 | after the row loop, every offered key has the first offer with the least position, and the key order lists each key once |
| GscFetch.ConsiderStep | lib/gsc/fetchData.ts:141-150 | one row's update keeps that summary |
| GscFetch.OfferRow | lib/gsc/fetchData.ts:138-151 | the loop body stores an entry for a new key or a strictly smaller position, in insertion order |
| GscFetch.WriteSerp | lib/gsc/fetchData.ts:154-175 | one SERP write per key, in insertion order, with the rounded position |
| GscFetch.PersistRows | lib/gsc/fetchData.ts:93-178 | returns the row count; one query write per row; one SERP write per retained key, in insertion order |
| GscFetch.SerpWritesPerKey | lib/gsc/fetchData.ts:104-175 | written keys are distinct; every row with a keyword id has its key written; a write's rounded position is at most that of any row with its key |
| GscFetch.BestPositionsWinner | lib/gsc/fetchData.ts:141-150 | the retained entry of a key is built from the first row with the least position |
| GscFetch.NoKeywordsNoWrites | lib/gsc/fetchData.ts:138-139 | an empty keyword map gives no SERP writes |
| LinkMatching.Clamp | lib/linking/linkOpportunities.ts:32 | result in [0, 1]; values inside are kept |
| LinkMatching.ClampMonotone | lib/linking/linkOpportunities.ts:32 | clamping keeps order |
| LinkMatching.Tokenize | lib/linking/linkOpportunities.ts:90-95 | every token is longer than 2 and made of `[a-z0-9]` |
| LinkMatching.TokenizeSplitsText | lib/linking/linkOpportunities.ts:90-95 | the tokens are the pieces longer than 2 of a cut of the lowercased text into maximal `[a-z0-9]` runs and the runs between them |
| LinkMatching.TokenizeIsLongRuns | lib/linking/linkOpportunities.ts:90-95 | for every such cut, the tokens are exactly its pieces longer than 2, in text order |
| LinkMatching.TopicTokens | lib/linking/linkOpportunities.ts:100 | the title's tokens without repeats: a token is in the set exactly when it is a token of the title |
| LinkMatching.TopicalHits | lib/linking/linkOpportunities.ts:101 | the number of snippet tokens, repeats included, that are in the title set (the length of that filter), at most the number of snippet tokens |
| LinkMatching.TopicalFactor | lib/linking/linkOpportunities.ts:102 | non-negative; 0.3 when the title has no token |
| LinkMatching.ComputeConfidence | lib/linking/linkOpportunities.ts:97-106 | the confidence always lies in [0.35, 1] |
| LinkMatching.ConfidenceAnchorMonotone | lib/linking/linkOpportunities.ts:97-106 | with snippet and title fixed, a longer anchor never lowers the confidence |
| LinkMatching.Slice | lib/linking/linkOpportunities.ts:112 | `slice` with bounds cut back to the length: the characters from start to the cut end, or empty when start is not before it |
| LinkMatching.ExtractSnippet | lib/linking/linkOpportunities.ts:108-113 | at most 160 characters beyond the match, never longer than the content, trimmed, whitespace only as single spaces (ExtractSnippetWords pins the result exactly) |
| LinkMatching.SnippetWindow | lib/linking/linkOpportunities.ts:108-112 | the window from max(0, index - 80) to min(length, index + length + 80) |
| LinkMatching.CleanKeepsText | lib/linking/linkOpportunities.ts:112 | collapsing then trimming keeps every non-whitespace character, in order, and is empty exactly when none is there |
| LinkMatching.ExtractSnippetWords | lib/linking/linkOpportunities.ts:108-113 | the snippet is exactly the window's words joined by single spaces, so splitting it on whitespace gives the window's words back |
| LinkMatching.ExtractSnippetKeepsText | lib/linking/linkOpportunities.ts:108-113 | the snippet holds the window's non-whitespace characters, in order, and is empty exactly when the window is all whitespace |
| LinkMatching.OccurrencesSound | lib/linking/linkOpportunities.ts:120-122 | every reported position is a whole-word, case-insensitive match; positions increase and do not overlap |
| LinkMatching.OccurrencesComplete | lib/linking/linkOpportunities.ts:120-122 | every match is reported or overlaps a reported one |
| LinkMatching.ExecLoop | lib/linking/linkOpportunities.ts:121-126 | the `exec` loop pushes the match of every reported position, in order |
| LinkMatching.FindMatchesForTarget | lib/linking/linkOpportunities.ts:115-130 | the method returns all matches of all non-empty anchors, stably sorted by descending confidence |
| LinkMatching.AllMatchesSound | lib/linking/linkOpportunities.ts:118-127 | each collected match is for a non-empty listed anchor at a reported position |
| LinkMatching.AllMatchesComplete | lib/linking/linkOpportunities.ts:118-127 | the match at each reported position of each non-empty anchor is collected |
| LinkMatching.MatchesForSound | lib/linking/linkOpportunities.ts:115-130 | each result is a whole-word occurrence of a target anchor, with that occurrence's snippet, its confidence in [0.35, 1], and the target |
| LinkMatching.MatchesForComplete | lib/linking/linkOpportunities.ts:115-130 | every reported occurrence of a non-empty anchor yields a result |
| LinkMatching.MatchesForOrdered | lib/linking/linkOpportunities.ts:129 | results are ordered by confidence, highest first |
| LinkMatching.BestMatchIsFirstHighest | lib/linking/linkOpportunities.ts:129 | `matches[0]` is the earliest collected match with the highest confidence |
| LinkMatching.SortedHeadIsFirstHighest | lib/linking/linkOpportunities.ts:129 | the head of the confidence sort is the first element of highest confidence |
| LinkMatching.NoMatchesIff | lib/linking/linkOpportunities.ts:115-130 | no results exactly when no non-empty anchor occurs as a whole word |
| LinkMatching.WholeWordExamples | lib/linking/linkOpportunities.ts:120 | "seo" does not match inside "SEOPlatform" but matches "SEO platform" |
| LinkOpportunities.AnchorsOf | lib/linking/linkOpportunities.ts:45-47 | the anchors have no repeats |
| LinkOpportunities.AnchorsOfSpec | lib/linking/linkOpportunities.ts:45-47 | the anchors are exactly the non-empty trimmed phrase and secondary terms; the trimmed phrase comes first |
| LinkOpportunities.MoneyTargetOf | lib/linking/linkOpportunities.ts:44-56 | a target keeps the keyword and page ids and the non-empty URL; the title is the page's title when it has one and the URL otherwise; the anchors are the keyword's anchors, without repeats |
| LinkOpportunities.MoneyTargets | lib/linking/linkOpportunities.ts:42-56 | at most one target per keyword; a target is in the list exactly when it is built from a keyword with a target page that has a URL |
| LinkOpportunities.MoneyTargetsAppend | lib/linking/linkOpportunities.ts:42-56 | the targets of a concatenation are the concatenated targets, so the keyword order is kept |
| LinkOpportunities.MoneyTargetsSingle | lib/linking/linkOpportunities.ts:42-56 | one keyword gives exactly its target when it is a money keyword, and nothing otherwise; with MoneyTargetsAppend this fixes the whole list |
| LinkOpportunities.BlogPages | lib/linking/linkOpportunities.ts:65 | exactly the pages of a blog type with non-empty text, in order; distinct pages give distinct blogs |
| LinkOpportunities.BlogPagesAppend | lib/linking/linkOpportunities.ts:65 | selecting from a concatenation concatenates the selections, so page order is kept |
| LinkOpportunities.BlogPagesSingle | lib/linking/linkOpportunities.ts:65 | one page is kept exactly when it is a blog page |
| LinkOpportunities.BlogPageExamples | lib/linking/linkOpportunities.ts:4-65 | "Guide" and "NEWS" pages with text are blog pages; no type, another type, or no text is not |
| LinkOpportunities.BuildSignature | lib/linking/linkOpportunities.ts:68-70 | the signature starts with the prefix, ends with "]", and has the length of its parts |
| LinkOpportunities.CloseFrom | lib/linking/linkOpportunities.ts:80 | the first "]" at or after an index, or the end |
| LinkOpportunities.SignatureEnd | lib/linking/linkOpportunities.ts:80 | a match of the signature regex at an index ends at a "]" that closes a signature |
| LinkOpportunities.SignatureEndComplete | lib/linking/linkOpportunities.ts:80 | every signature starting at an index is the match found there |
| LinkOpportunities.ScanFrom | lib/linking/linkOpportunities.ts:80-83 | everything a global match finds from an index is a signature |
| LinkOpportunities.ScanSignatures | lib/linking/linkOpportunities.ts:80-83 | everything `description.match(regex)` finds is a signature |
| LinkOpportunities.ScanSkip | lib/linking/linkOpportunities.ts:80-83 | positions without a match are passed over |
| LinkOpportunities.NoPrefixNoSignatures | lib/linking/linkOpportunities.ts:75-83 | a text without the prefix holds no signature |
| LinkOpportunities.ScanFindsLast | lib/linking/linkOpportunities.ts:80-83 | a text without the prefix followed by one signature yields exactly that signature |
| LinkOpportunities.SignatureRoundTrip | lib/linking/linkOpportunities.ts:68-84 | a signature built from ids and an anchor without "]" is read back whole, and alone |
| LinkOpportunities.BracketInAnchorTruncates | lib/linking/linkOpportunities.ts:68-84 | an anchor holding "]" is read back truncated: "[link-scout:b:t:a]c]" yields "[link-scout:b:t:a]" |
| LinkOpportunities.TaskSignatures | lib/linking/linkOpportunities.ts:81-84 | a task contributes only signatures |
| LinkOpportunities.CollectExistingSignatures | lib/linking/linkOpportunities.ts:72-88 | the loops collect exactly the signatures of the selected tasks |
| LinkOpportunities.ExistingSignaturesSpec | lib/linking/linkOpportunities.ts:72-88 | a string is collected exactly when some LINK task's description yields it; the query's `contains` filter drops nothing |
| LinkOpportunities.ExistingSignaturesAppend | lib/linking/linkOpportunities.ts:79-85 | the signatures of two task lists are the union of each list's signatures |
| LinkOpportunities.BestMatch | lib/linking/linkOpportunities.ts:168-170 | no best match exactly when there are no matches; otherwise a match for this target, with a listed anchor and confidence in [0.35, 1], and none has a higher confidence |
| LinkOpportunities.SelectSuggestions | lib/linking/linkOpportunities.ts:160-179 | the nested loops with their `continue`s and `break`s return the selection the fold describes |
| LinkOpportunities.LedgerAccept | lib/linking/linkOpportunities.ts:172-174 | accepting a new signature keeps the ledger: known signatures are the existing ones plus those accepted, and none repeats |
| LinkOpportunities.TargetsExtend | lib/linking/linkOpportunities.ts:165-177 | one blog's pass only appends suggestions for that blog: at most maxPerBlog minus those already added, never past maxPerProject, and the known signatures only grow |
| LinkOpportunities.TargetsSound | lib/linking/linkOpportunities.ts:165-177 | one blog's pass keeps the ledger, and each suggestion links a blog to another page through its best match with the pair's signature |
| LinkOpportunities.TargetsRerun | lib/linking/linkOpportunities.ts:171-172 | when every pair's signature is known, a blog's pass accepts nothing |
| LinkOpportunities.TargetsCover | lib/linking/linkOpportunities.ts:165-177 | an uncapped pass makes every pair's signature known, adding at most one suggestion per target |
| LinkOpportunities.BlogsExtend | lib/linking/linkOpportunities.ts:161-179 | the outer loop only appends suggestions for listed blogs, never past maxPerProject, and the known signatures only grow |
| LinkOpportunities.BlogsPerBlogCap | lib/linking/linkOpportunities.ts:162-176 | over distinct blogs, no blog gets more than maxPerBlog suggestions |
| LinkOpportunities.BlogsSound | lib/linking/linkOpportunities.ts:160-179 | the outer loop keeps the ledger and the soundness of each suggestion |
| LinkOpportunities.BlogsRerun | lib/linking/linkOpportunities.ts:160-179 | when every pair's signature is known, the run accepts nothing |
| LinkOpportunities.BlogsCover | lib/linking/linkOpportunities.ts:160-179 | an uncapped run makes every pair's signature known |
| LinkOpportunities.RerunAcceptsNothing | lib/linking/linkOpportunities.ts:160-179 | with the first uncapped run's signatures known, a second run accepts nothing, whatever its caps |
| LinkOpportunities.PickPriority | lib/linking/linkOpportunities.ts:132-136 | HIGH exactly from 0.75, MEDIUM exactly in [0.55, 0.75), LOW exactly below 0.55; never CRITICAL |
| LinkOpportunities.PickPriorityMonotone | lib/linking/linkOpportunities.ts:132-136 | a higher confidence never gets a lower priority; HIGH from 0.75 and MEDIUM from 0.55 |
| LinkOpportunities.FixedZero | lib/linking/linkOpportunities.ts:193 | `toFixed(0)` of a non-negative value prints the digits of its rounding; of a negative value starts with "-" |
| LinkOpportunities.Description | lib/linking/linkOpportunities.ts:189-202 | the description is the readable head followed by the signature as its last part, which is what a later run reads back |
| LinkOpportunities.TaskFor | lib/linking/linkOpportunities.ts:185-209 | an OPEN LINK task titled `Link <blog title, or URL> to <target title>`, with priority PickPriority(confidence), current score 0 and the description; the potential score is round(confidence x 100), between 35 and 100, and matches the printed percentage |
| LinkOpportunities.CreateTasks | lib/linking/linkOpportunities.ts:185-217 | one task and one result per suggestion, in order |
| LinkOpportunities.CreatedRows | lib/linking/linkOpportunities.ts:198-209 | the created tasks as task rows, one per suggestion |
| LinkOpportunities.TaskYieldsSignature | lib/linking/linkOpportunities.ts:189-202 | the task of a recoverable suggestion yields its signature to a later collection |
| LinkOpportunities.LastLineYields | lib/linking/linkOpportunities.ts:80-84 | a LINK description whose head has no prefix and that ends in a signature yields that signature |
| LinkOpportunities.CreatedRowsYield | lib/linking/linkOpportunities.ts:185-209 | every created row yields its suggestion's signature |
| LinkOpportunities.RowSignatureExists | lib/linking/linkOpportunities.ts:81-84 | a signature one row yields is collected from the rows |
| LinkOpportunities.RowsSignatures | lib/linking/linkOpportunities.ts:81-84 | when each row yields its suggestion's signature, all of them are collected |
| LinkOpportunities.RerunAfterTasks | lib/linking/linkOpportunities.ts:143-220 | after an uncapped run's tasks are added, re-selecting accepts nothing |
| LinkOpportunities.BestMatchKeepsTarget | lib/linking/linkOpportunities.ts:168-170 | the best match is always for the target asked about |
| LinkOpportunities.SuggestionsSound | lib/linking/linkOpportunities.ts:143-179 | each suggestion pairs a blog page with a different money page through the pair's best match; its signature is new to the tasks and unique within the run |
| LinkOpportunities.SuggestionsBounded | lib/linking/linkOpportunities.ts:156-179 | at most maxPerProject suggestions; at most maxPerBlog per page when pages are distinct; none without targets or blog pages |
| LinkOpportunities.SecondRunAcceptsNothing | lib/linking/linkOpportunities.ts:143-220 | a second run after the first run's tasks are created accepts nothing, when the first run was uncapped and its descriptions recoverable |
| LinkOpportunities.GenerateLinkSuggestionsForProject | lib/linking/linkOpportunities.ts:143-220 | with the defaults 3 and 40, creates one task and one result per selected suggestion, in order |

## Left out

- Database reads and writes (Prisma) are not modelled. Query results are input sequences; creates and upserts are output lists. The `where` clauses are modelled as predicates: money keywords, task type and the `contains` filter.
- The Search Console and OAuth calls are not modelled, because they are network I/O: `refreshAccessToken`, `ensureAccessToken`, `fetchSearchConsoleRows`, `loadIntegration`, `loadIntegrationByProject`, and the `importSearchConsoleFor*` entry points with their connection checks and per-integration error logging.
- The clock and dates are parameters. The local-midnight day of a date string and "today" are passed in, and the `setHours` and `toISOString` key formats are not modelled. `Date.now() - 27 days` in the import is left out.
- The WHATWG URL parser (`new URL`, `hash = ""`, `href`) is a parameter that may fail.
- Chart dates are day numbers, not ISO strings. `localeCompare` on ISO dates is modelled as integer order.
- Floating point is modelled with reals. `toFixed` rounds the exact decimal value, halves away from zero; binary representation effects are not modelled. `Math.exp` is a parameter obeying the laws of exp.
- NaN and infinities are modelled only where the scorer tests them (`Number.isFinite`, `??`). The other modules take finite numbers.
- Case mapping is ASCII only. This covers `toLowerCase`, `toUpperCase` and the regex `i` flag. String lengths count characters, not UTF-16 code units.
- `escapeRegExp` is not modelled as a string function. The regex `\b<anchor>\b` is specified directly, and it matches the anchor literally, which is what escaping achieves.
- `Promise.all` and concurrent miner runs are not modelled. The race between two runs is not modelled.
- The task id the store assigns is a parameter, `taskId(i)`.
- The "Money page" title fallback is unreachable: the filter keeps only target pages with a URL. The model has no such case.
- Zod's string-to-number coercion is not modelled. Number fields arrive as numbers. Error messages are not modelled, and neither is the stripping of unknown keys.
- `.cuid()` and `.url()` are predicates passed in.
- `TECH_SNAPSHOT_LABELS` and `DEFAULT_AUDIT_TYPES` are display constants and are not used by the core.
- LinkOpportunities.SecondRunAcceptsNothing: weaker than "a second run accepts nothing". It assumes the first run hit neither cap. It also assumes each description is recoverable: no "]" in the ids or the anchor, and no "[link-scout:" in the first five lines. The code gives no more than that.
- LinkOpportunities.SuggestionsBounded: the per-blog bound assumes the page rows are distinct.
- LinkOpportunities.SignatureRoundTrip: holds only for ids and anchors without "]". BracketInAnchorTruncates shows what happens otherwise.
- Opportunity.CalculateOpportunityScore: uses the NaN-safe conversion factor, so a NaN rate gives a finite score where the code gives NaN; CalculateOpportunityScoreAsWritten is the code's behaviour.
- LinkMatching.TopicalFactor: bounded below only, because the code's factor can exceed 1 before the final clamp.
- Opportunity.LogisticCurveOrdering: proved for every function obeying the laws of exp, not for the floating-point values of `Math.exp`.
- Opportunity.LogisticWeightNonIncreasing: stated for a non-negative steepness, which the default 0.45 is.

## Findings

| source | as written | input that shows it | evidently intended | confidence | as-written member | corrected member |
|---|---|---|---|---|---|---|
| lib/opportunity.ts:67-72 | the guard returns 0 for a non-number or a rate of at most 0; NaN is a number and `NaN <= 0` is false, so `clamp(NaN / 0.2)` is NaN and the whole score becomes NaN | `conversionRate: NaN` | NaN treated like a missing rate, giving 0, as the other factors do for non-finite input | not executed; medium | Opportunity.ConversionFactorAsWritten, Opportunity.CalculateOpportunityScoreAsWritten, Opportunity.ConversionNaNFinding | Opportunity.ConversionFactor |
