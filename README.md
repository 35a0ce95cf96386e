# signals-poc taxonomy pipeline, in Dafny

signals-poc turns meeting transcripts into a topic taxonomy and topic scores.
It has three layers:

- language-model calls, which detect new topic candidates and tag transcript
  chunks with existing topic ids;
- deterministic code around those calls, which normalises ids into slugs,
  grows the taxonomy with approved candidates, chunks transcripts, joins
  mentions to chunks, suggests merges and scores mentions;
- a small Supabase store, which records topics, aliases, candidates and
  their approval status, mentions, scoring runs and audit events.

This project models the deterministic layer and the store and proves what
they promise.

- `Utils` covers `slugify` and `coalesce` from `pipeline/utils.py`.
  - `slugify` is written as the source's pipeline: strip, ASCII lower-case,
    turn each run of other characters into `-`, collapse repeated dashes,
    strip dashes at the ends, and fall back to `topic`.
  - It is proved equal to an independent reference: the maximal runs of
    `a-z0-9` joined by `-`, or `topic` when there are none.
  - From that come: a slug alphabet with no leading, trailing or doubled
    dash; letters and digits kept in order; the `topic` fallback;
    idempotence.
- `Text` holds the character classes and the string operations. `Strip`
  follows Python's `str.isspace` set.
- `Models` covers the pydantic records of `pipeline/models.py`, validated
  from a JSON value with their defaults. A `float` field follows
  pydantic's default lax mode: it also takes booleans and numeric strings.
- `Steps` covers `load_taxonomy`, `naive_chunks` (with `ChunkIds` for the
  `f"{i:08x}"[:8]` ids), `_transcript_to_text` and `update_taxonomy`.
- `Merges` covers `suggest_merges`. The embedding similarity is an oracle
  `sim(i, j)`.
- `Scoring` covers `score_mentions`, including the order in which its
  dict receives its keys.
  - A datetime is a `Moment`: aware or naive, and seconds on one time
    line. Subtracting a naive one from an aware one fails, as in Python.
  - `datetime.fromisoformat`, `**` on floats, the clock and Python's
    reading of a numeric string are parameters.
- `Records` covers `create_mention_records`. The chunk hash and the clock
  are parameters.
- `Db` covers `pipeline/db.py` as a class `Store`.
  - Each Supabase table is a sequence field.
  - Each operation is a method that changes only its tables.
  - Each method is specified by a function on the old table.
- `Cli` covers the decision fragments of `run.py`:
  - the taxonomy path choice;
  - the candidate list, alias map and alias filter of `update-taxonomy`;
  - the mention flattening, half-life normalisation and descending order
    of `score-topics`.
- `Ordering` holds a stable descending insertion sort. It stands for both
  Python's stable `sorted(key=-score)` and the database's
  `order(desc=True)`.

JSON values are the datatype `Models.Json`. Python's `str()` of a
non-string value is an oracle `render`. Python dict iteration order is
given as the order of a sequence.

## Model

| member | source | states |
|---|---|---|
| Utils.Slugify | pipeline/utils.py:6-9 | the result is a slug: non-empty, only `a-z0-9-`, no leading, trailing or doubled dash |
| Utils.SlugifyJoinsWords | pipeline/utils.py:6-9 | slugify is the maximal `a-z0-9` runs of the stripped, lower-cased input joined by single dashes, or `topic` when there are none |
| Utils.SlugifyMatchesWords | pipeline/utils.py:7-9 | the substitute-collapse-strip chain equals the dash-join of the runs, and both outcomes are slugs |
| Utils.SubstituteRuns | pipeline/utils.py:8 | `re.sub(r"[^a-z0-9]+", "-", s)`: each maximal run of other characters becomes one dash; `SubstituteRunsDashes` and `SubstituteRunsShape` state what it yields |
| Utils.SubstituteRunsDashes | pipeline/utils.py:8 | the substitution never yields a double dash, maps the empty text to itself and keeps a leading slug character first |
| Utils.SubstituteRunsShape | pipeline/utils.py:8-9 | the substituted text, stripped of dashes, is the dash-join of the input's `a-z0-9` runs |
| Utils.CollapseDashes | pipeline/utils.py:9 | `re.sub(r"-{2,}", "-", s)`; `CollapseWithoutDoubleDash` proves it changes nothing after the substitution |
| Utils.CollapseWithoutDoubleDash | pipeline/utils.py:9 | collapsing dashes leaves a text without double dashes unchanged |
| Utils.StripDashes | pipeline/utils.py:9 | `s.strip("-")`: dashes dropped from both ends; `SubstituteRunsShape` and `SlugifyMatchesWords` state its result |
| Utils.SlugifyEmpty | pipeline/utils.py:7-9 | the empty input gives `topic` |
| Utils.SlugifyOptional | pipeline/utils.py:7 | `None` gives `topic`; a given text gives its slugify |
| Utils.SlugifyKeepsLettersAndDigits | pipeline/utils.py:7-9 | the letters and digits of the output are those of the input, lower-cased and in order; input without any gives `topic` |
| Utils.SlugifyFixesSlugs | pipeline/utils.py:6-9 | slugify leaves a slug unchanged |
| Utils.SlugifyIdempotent | pipeline/utils.py:6-9 | `slugify(slugify(s)) == slugify(s)` |
| Utils.SlugIsJoinOfWords | pipeline/utils.py:8-9 | every slug is the dash-join of its own runs |
| Utils.StripKeepsSlugChars | pipeline/utils.py:7 | stripping whitespace drops no character that could reach the slug |
| Utils.LowerThenKeep | pipeline/utils.py:7-8 | keeping `a-z0-9` after lower-casing equals lower-casing the ASCII letters and digits |
| Utils.ConcatWords | pipeline/utils.py:8 | the runs, concatenated, are exactly the `a-z0-9` characters of the text |
| Utils.Coalesce | pipeline/utils.py:31-35 | None iff every value is None (including no values); otherwise the first value that is not None |
| Text.Lower | pipeline/utils.py:7 | same length; ASCII capitals lowered pointwise, every other character kept |
| Text.LowerAppend | pipeline/utils.py:7 | lower-casing distributes over concatenation |
| Text.StripTrims | pipeline/steps.py:82 | a stripped text is empty or starts and ends with non-whitespace |
| Text.Strip | pipeline/steps.py:82 | `str.strip()`: whitespace dropped from both ends; `StripTrims` proves no whitespace remains at either end |
| Text.IsSpace | pipeline/steps.py:82 | the whitespace set of `str.isspace()` and of `str.strip()` with no argument; `StripTrims` and `StripKeepsSlugChars` are stated over it |
| Text.DropLeadingSplit | pipeline/utils.py:7 | dropping leading characters removes a prefix made only of dropped characters |
| Text.DropTrailingSplit | pipeline/utils.py:9 | dropping trailing characters removes a suffix made only of dropped characters |
| Text.SplitJoin | pipeline/steps.py:129 | splitting a newline-join of parts without newlines gives the parts back |
| Text.Join | pipeline/steps.py:129 | `"\n".join(parts)`; `SplitJoin` splits it back into the parts and `JoinOfNonEmpty` says when it is empty |
| Models.ParseTaxonomyItem | pipeline/models.py:6-8 | succeeds iff `id` is a string and `score` is absent or accepted by `float` (a number, a boolean or a numeric string); the item carries that id and that float, or 0.0 when `score` is absent |
| Models.ParseCandidate | pipeline/models.py:11-15 | succeeds iff `label`, `evidence` and `why_new` are strings and `topic_id` is absent, null or a string; `topic_id` defaults to None |
| Models.ParseMention | pipeline/models.py:29-34 | succeeds iff `chunk_id`, `topic_label` and `evidence` are strings, `topic_id` is absent, null or a string, and `relevance` is absent, null or accepted by `float`; each field of the mention is the one given, and an absent or null optional field is None |
| Models.ParseNewTopicResponse | pipeline/models.py:18-19 | a missing `new_topics` gives the empty list; a list succeeds iff every element is a valid candidate, and candidate i is the validation of element i |
| Models.ParseMentionsResponse | pipeline/models.py:37-38 | a missing `mentions` gives the empty list; a list succeeds iff every element is a valid mention, and mention i is the validation of element i |
| Models.Given | pipeline/db.py:160 | truthiness of an optional text: given and not empty; `Db.ByColumn` and `Cli.TaxonomyPath` state the `if` tests built on it |
| Models.Get | pipeline/steps.py:323 | `d.get(key)` without a default: the value when the key is present, None otherwise; `Scoring.TopicRef` states the lookups built on it |
| Models.RequiredString | pipeline/models.py:7 | a required `str` field succeeds iff the key is present with a string value, and then returns that string |
| Models.OptionalString | pipeline/models.py:25 | an `Optional[str]` field is None iff absent or null, its string when a string, and an error otherwise |
| Models.Truthy | pipeline/steps.py:323-324 | Python truthiness of a JSON value: null, `false`, 0, the empty text, the empty list and the empty dict are falsy, everything else truthy |
| Models.PyFloat | pipeline/models.py:8 | a `float` field accepts exactly numbers (as themselves), booleans (1.0 and 0.0) and strings that read as numbers; null, lists and dicts fail |
| Models.NumberOr | pipeline/models.py:8 | a `float` field with a default is the default when absent, otherwise the `float` of the value, failing iff that fails |
| Models.OptionalNumber | pipeline/models.py:34 | an `Optional[float]` field is None iff absent or null; otherwise it succeeds iff `float` accepts the value, and then holds that float |
| Models.ParseAll | pipeline/steps.py:70 | a list comprehension of validations succeeds iff every element validates, element by element |
| Models.ObjectsOf | pipeline/steps.py:70 | `**t` for every element: succeeds iff every element is a mapping, and then returns each element's fields in order |
| Models.MappingElements | pipeline/steps.py:70 | `Model(**t) for t in raw`: a list needs mappings only; an empty dict or string iterates to nothing; anything else fails |
| Steps.LoadTaxonomy | pipeline/steps.py:66-70 | the (unwrapped) list gives one item per element, item k being the validation of element k, and fails iff some element is not a valid item |
| Steps.LoadTaxonomyWrapped | pipeline/steps.py:68-69 | a dict holding `taxonomy_json_updated` loads as that list |
| Steps.Unwrapped | pipeline/steps.py:68-69 | a dict holding `taxonomy_json_updated` gives that value, anything else itself; `LoadTaxonomyWrapped` states the result |
| Steps.Lookup | pipeline/steps.py:97 | `d.get(key, default)`; `RowChunkFields` states the defaults read through it |
| Steps.PyStr | pipeline/steps.py:99 | `str(v)`: a string is itself and every other value goes through `render`; `RowChunkFields` and `TranscriptToText` state its uses |
| Steps.Or | pipeline/steps.py:323 | `a or b`: the first value when it is present and truthy, else the second; `Scoring.TopicRef` and `Db.CandidateRow` state its uses |
| Steps.OptionalText | pipeline/models.py:25 | a value given to `start_time`: None iff absent or null, the text when a string, an error otherwise |
| ChunkIds.ChunkIdRoundTrip | pipeline/steps.py:96 | below 2^32 the chunk id is hex whose value is the row number |
| ChunkIds.ChunkIdInjective | pipeline/steps.py:96 | below 2^32 distinct row numbers give distinct ids |
| ChunkIds.FirstChunkId | pipeline/steps.py:85 | the single chunk of a text transcript has id `00000001` |
| ChunkIds.ChunkIdWrapsAbove32Bits | pipeline/steps.py:96 | the `[:8]` cut gives row 2^32 the same id as row 2^28 |
| ChunkIds.ChunkId | pipeline/steps.py:96 | every chunk id has exactly 8 characters |
| ChunkIds.Hex | pipeline/steps.py:96 | `format(n, "x")`: at least one lowercase hex digit |
| ChunkIds.HexValueOfHex | pipeline/steps.py:96 | reading the hex digits of n back gives n |
| ChunkIds.HexLength | pipeline/steps.py:96 | below 16^k the hex of n has at most k digits |
| ChunkIds.ZeroPad | pipeline/steps.py:96 | the `08` in `{i:08x}`: zeros on the left up to the width, never a shorter result |
| ChunkIds.ZerosValue | pipeline/steps.py:96 | leading zeros are hex digits of value 0 |
| ChunkIds.HexValueAppend | pipeline/steps.py:96 | the value of two hex texts put together is the first shifted by the second's length plus the second |
| ChunkIds.HexOfPower | pipeline/steps.py:96 | the hex of 16^k is a one followed by k zeros |
| Steps.RowChunkFields | pipeline/steps.py:94-108 | a non-dict element has speaker `unknown`, no start time and its stripped text; a dict needs a string speaker (default `unknown`) and a string or null start time, and its text is cut to 100000 characters and stripped |
| Steps.RowChunk | pipeline/steps.py:94-108 | one row of the transcript list as a chunk, its id that of its row number; `RowChunkFields` states every field |
| Steps.RowChunkTrimmed | pipeline/steps.py:99-107 | chunk text has no surrounding whitespace |
| Steps.NaiveChunks | pipeline/steps.py:73-112 | a string transcript gives nothing when blank, else one chunk `00000001`/`unknown` with the meeting's start time and the stripped text; a list gives one chunk per element in order and fails iff an element does; any other shape gives nothing; ids have 8 characters and are distinct below 2^32 rows |
| Steps.ListChunks | pipeline/steps.py:92-109 | element k becomes chunk k + 1, and the list fails iff some element cannot be a chunk |
| Steps.NumberedRows | pipeline/steps.py:93 | the `enumerate(tr, start=1)` loop: row k is converted with number k + 1, and the first failure stops the loop with its error |
| Steps.RowChunkIds | pipeline/steps.py:96-104 | the chunks of numbered rows carry the ids of their numbers |
| Steps.ChunkIdsDistinct | pipeline/steps.py:96-104 | fewer than 2^32 rows get pairwise distinct ids |
| Steps.TranscriptToText | pipeline/steps.py:117-130 | a string is returned unchanged; a list gives its non-empty parts joined by newlines, empty iff every part is empty; any other shape gives the empty text |
| Steps.NonEmpty | pipeline/steps.py:129 | keeps every copy of each non-empty part and no empty one, and is empty iff every part is empty |
| Steps.NonEmptyInOrder | pipeline/steps.py:129 | the kept parts are in the input order |
| Steps.JoinOfNonEmpty | pipeline/steps.py:129 | a join of non-empty parts is empty iff there are no parts |
| Steps.TranscriptLines | pipeline/steps.py:124-129 | when no part holds a newline, the joined text splits back into the non-empty parts |
| Steps.Transcript | pipeline/steps.py:80 | `meeting.get("transcript", "")`; `NaiveChunks` and `TranscriptToText` state the result for each shape |
| Steps.RowText | pipeline/steps.py:125-128 | the text one list element contributes: a dict's `text` (default `""`) or the element itself, through `str`; `TranscriptToText` states the join |
| Steps.CandidateSlug | pipeline/steps.py:170 | a candidate's id is the slug of its `topic_id`, or of its label when `topic_id` is None or empty |
| Steps.CandidateSlugsAt | pipeline/steps.py:170 | the k-th candidate slug is the slug of the k-th candidate, and is a slug |
| Steps.CandidateSlugs | pipeline/steps.py:169-170 | one slug per candidate; `CandidateSlugsAt` says the k-th is the slug of candidate k |
| Steps.Ids | pipeline/steps.py:195 | `[t.id for t in base]`: the item ids, one per item, in order; `Merges.SuggestMerges` is stated over them |
| Steps.Filter | run.py:96 | the kept elements are exactly those of the input that satisfy the test, and there are no more of them than elements |
| Steps.FilterCounts | run.py:96 | an element that passes the test is kept as often as it occurs; one that fails is dropped entirely |
| Steps.FilterInOrder | run.py:96 | filtering keeps the input order |
| Steps.UpdateTaxonomy | pipeline/steps.py:164-175 | `updated` is `base` followed by one `default_score` item per added id; added ids are slugs, not base ids and not repeated; every candidate slug is added or already in the base; `added` follows candidate order |
| Steps.NewIds | pipeline/steps.py:166-175 | the ids the loop adds: each slug not already in `existing`, which grows as ids are added; `NewIdsFresh`, `NewIdsComplete` and `NewIdsInOrder` state its properties |
| Steps.AddedAreSlugs | pipeline/steps.py:170-174 | every id update_taxonomy adds is a slug |
| Steps.AppendUnseen | pipeline/steps.py:166-175 | the loop with the `existing` set appends exactly the `NewIds` of the slugs |
| Steps.NewIdsFresh | pipeline/steps.py:171-174 | every added id is new to the base, comes from a slug and is added once |
| Steps.NewIdsComplete | pipeline/steps.py:171-174 | every slug ends up in the base or among the added ids |
| Steps.NewIdsInOrder | pipeline/steps.py:169-174 | added ids are a subsequence of the slugs |
| Steps.NewItems | pipeline/steps.py:172 | one item per added id, in order, with the default score |
| Steps.SsoIssuesIsSlug | tests/test_approvals_and_merges.py:12 | the test's topic id `sso-issues` already is a slug |
| Steps.OneApprovedAdded | pipeline/steps.py:164-175 | one approved candidate whose topic id is a slug foreign to the one base item is added after it with the default score |
| Steps.ApprovalFlowExample | tests/test_approvals_and_merges.py:6-33 | base `onboarding` plus approved `sso-issues` gives exactly `[onboarding 0.8, sso-issues 0.5]`, so `onboarding` stays, `sso-issues` is added and `onboarding-sso` is absent |
| Merges.FirstBest | pipeline/steps.py:222-229 | the best base index is the first strict maximum of the similarities, above the initial -1.0 (none when no similarity exceeds -1.0), and the best score bounds every similarity |
| Merges.BestTarget | pipeline/steps.py:223-229 | the inner loop's `best`/`best_tid` are the score and id of that first strict maximum |
| Merges.ExactMatches | pipeline/steps.py:217-220 | every candidate slug that is a base id yields `{candidate: slug, target: slug, score: 1.0}`, and only those |
| Merges.ExactMatchesPerOccurrence | pipeline/steps.py:217-220 | the exact phase makes one suggestion per occurrence of a slug that is a base id and none for other slugs, in candidate order |
| Merges.SimilarMatch | pipeline/steps.py:230-231 | a candidate is suggested iff its best score is at least the threshold and its best target is a non-empty id |
| Merges.SimilarMerges | pipeline/steps.py:222-231 | the similarity phase only appends after the exact suggestions |
| Merges.SimilarMergesAreMatches | pipeline/steps.py:230-231 | every appended suggestion is the similar match of some candidate |
| Merges.SimilarMergesNoRepeat | pipeline/steps.py:230 | no appended suggestion repeats a candidate already suggested |
| Merges.Unsuggested | pipeline/steps.py:230 | `all(m["candidate"] != cid for m in merges_list)`; `SimilarMerges` and `SimilarMergesNoRepeat` are stated with it |
| Merges.SimilarMergesComplete | pipeline/steps.py:230-231 | every candidate with a similar match ends up suggested |
| Merges.SuggestionsDrawFromInputs | pipeline/steps.py:215-231 | every suggestion names a candidate slug and a base id, with score 1.0 or at least the threshold |
| Merges.SuggestionsRules | pipeline/steps.py:215-232 | the exact suggestions come first, then one similar match per not yet suggested candidate |
| Merges.Suggestions | pipeline/steps.py:192-231 | the whole of suggest_merges on the base ids and candidate slugs: `[]` when either is empty, otherwise the exact phase then the similarity phase; `SuggestionsDrawFromInputs` and `SuggestionsRules` state what it holds |
| Merges.SuggestMerges | pipeline/steps.py:178-232 | empty candidates or base give `[]`; otherwise the suggestions over the base ids and candidate slugs at the given threshold, 0.85 when none is given; every candidate is a slug |
| Merges.ExactPhase | pipeline/steps.py:217-220 | the exact-id loop computes `ExactMatches` |
| Merges.SimilarPhase | pipeline/steps.py:222-231 | the similarity loop computes `SimilarMerges` |
| Scoring.EffectiveWeights | pipeline/steps.py:303-315 | a missing or falsy weight table is replaced by the defaults; a truthy one is used as given |
| Scoring.PerDayDecay | pipeline/steps.py:319 | no decay base without a half-life; otherwise 0.5 raised to one over the half-life, the half-life clamped below at 1e-6 |
| Scoring.Weight | pipeline/steps.py:328-329 | a table that is not a dict fails (no `get`); an unlisted key weighs 1.0; a listed weight is its `float`, failing iff `float` fails |
| Scoring.Relevance | pipeline/steps.py:330 | a missing or falsy relevance counts as 1.0; a non-zero number counts as itself; `true` counts as 1.0; a non-empty string counts as its float iff it reads as a number; a non-empty list or dict fails |
| Scoring.When | pipeline/steps.py:332-336 | the mention's time is its truthy `timestamp` string read as a datetime; a missing, falsy, non-string or unreadable timestamp gives `now` |
| Scoring.Age | pipeline/steps.py:337 | the age in days is never negative and is the time difference over 86400 seconds when `now` is later; it fails iff one of the two datetimes is naive and the other aware |
| Scoring.Decay | pipeline/steps.py:338 | `1.0` without a decay base, else the base to the power of the age; `ContributionAmount` states the product it enters |
| Scoring.Amount | pipeline/steps.py:340 | `rel * w_speaker * w_meeting * decay`; `ContributionAmount` states that a scored mention adds this product |
| Scoring.TopicRef | pipeline/steps.py:323 | `m.get("topic_id") or m.get("topic_label")`: the topic id when truthy, otherwise the label as given |
| Scoring.Category | pipeline/steps.py:326-327 | `str(m.get(key) or "unknown").lower()`; `CategoryIsLower` proves the result has no capital |
| Scoring.MentionContribution | pipeline/steps.py:322-340 | one iteration of the loop: fails for a non-dict, skips a mention without a truthy reference, otherwise goes on as `Scored`; `MentionContributionCases`, `ContributionTopic` and `ContributionAmount` state its cases |
| Scoring.Scored | pipeline/steps.py:326-340 | the rest of an iteration in the source's order: the first of the speaker weight, meeting weight, relevance and age to fail is the error, then a non-string reference fails at `slugify`, else the amount goes to the reference's slug |
| Scoring.MentionContributionCases | pipeline/steps.py:322-340 | a mention that is not a dict fails; one is skipped iff it has no truthy `topic_id` or `topic_label`; a truthy reference that is not a string fails |
| Scoring.ContributionTopic | pipeline/steps.py:323-340 | an amount goes to the slug of the mention's string reference |
| Scoring.ContributionAmount | pipeline/steps.py:326-340 | a mention with a text reference is scored iff both weights, its relevance and its age can be computed; it then adds relevance × speaker weight × meeting weight × decay |
| Scoring.CategoryIsLower | pipeline/steps.py:326-327 | the role and meeting type are looked up lower-cased |
| Scoring.NaiveTimestampFails | pipeline/steps.py:334-337 | with the default aware `now`, a mention whose timestamp reads as a naive datetime makes scoring fail |
| Scoring.TotalsAreSums | pipeline/steps.py:321-342 | totals succeed iff every mention can be scored; the keys are exactly the topics some mention adds to, each with the sum of its amounts |
| Scoring.TotalsKeysAreSlugs | pipeline/steps.py:340 | every key of the totals is a slug |
| Scoring.SkippedMention | pipeline/steps.py:323-325 | appending a mention without a topic reference leaves the totals unchanged |
| Scoring.Accumulate | pipeline/steps.py:340 | `totals[k] += amount` on a `defaultdict(float)`; `TotalsAreSums` states the resulting sums |
| Scoring.FoldFails | pipeline/steps.py:322-340 | the accumulation succeeds iff every step does |
| Scoring.Totals | pipeline/steps.py:321-342 | the totals dict the loop builds, or the first mention's failure; `TotalsAreSums` proves its keys and sums against the independent `TopicSum` |
| Scoring.Scores | pipeline/steps.py:321-342 | what score_mentions returns: the totals with the dict's insertion order; `ScoresOrder` proves that order lists every total's topic once, in first-contribution order |
| Scoring.FirstAddsMembers | pipeline/steps.py:321-340 | the dict's order lists exactly the topics some mention adds to |
| Scoring.FirstAddsOrder | pipeline/steps.py:321-340 | the order lists each topic once, and a topic listed before another received an amount before the other received any |
| Scoring.DictOrder | pipeline/steps.py:321-342 | a successful dict holds the folded totals, and its order lists each key once, in first-contribution order |
| Scoring.ScoresOrder | pipeline/steps.py:321-342 | what score_mentions returns holds the totals, and its order lists every total's topic once, in first-contribution order |
| Scoring.ScoreMentions | pipeline/steps.py:287-342 | no mentions give the empty dict; otherwise the totals under the effective weights, `now` (the aware clock time by default) and decay base, listed in first-contribution order, or the failure of the first mention that raises |
| Scoring.ScoreAll | pipeline/steps.py:321-342 | the loop computes the folded totals and appends a topic to the dict's order when it first receives an amount |
| Records.ChunkIndexLastWins | pipeline/steps.py:353 | `{c.chunk_id: c}` holds every chunk id, mapped to the last chunk with that id |
| Records.JoinableExactly | pipeline/steps.py:356-359 | the joined mentions are exactly those whose chunk exists, each as often as it occurs, in mention order |
| Records.RecordFor | pipeline/steps.py:360-368 | the record of one mention and its chunk; `RecordsJoinLastChunk` and `RecordsFallbacks` state its fields |
| Records.RecordsOf | pipeline/steps.py:355-368 | one record per joined mention, record k being the record of mention k with its chunk |
| Records.JoinableInOrder | pipeline/steps.py:356-359 | the joined mentions are drawn from the mentions, include every mention whose chunk exists, and keep mention order |
| Records.RecordsJoinLastChunk | pipeline/steps.py:356-364 | each record comes from a mention, hashes the text of the last chunk with its id and takes that chunk's speaker or `unknown` |
| Records.RecordsFallbacks | pipeline/steps.py:360-368 | each record has the meeting id and type, the mention's topic id or else its label, its relevance or else 1.0, and the one timestamp |
| Records.CreateMentionRecords | pipeline/steps.py:345-369 | fails iff the meeting has no `meeting_id`; otherwise the records of the joined mentions and their count |
| Records.JoinMentions | pipeline/steps.py:355-368 | the loop computes the records of the joined mentions |
| Db.Find | pipeline/db.py:30 | finds a row with the key, or reports that none has it |
| Db.Upsert | pipeline/db.py:48-53 | the row is present afterwards; rows with other keys are unchanged; nothing else is added; keys stay unique |
| Db.UpsertTopicRow | pipeline/db.py:28-35 | exactly one topic has the id, with the new label, description and creator; other topics are unchanged; an existing topic keeps its status, a new one is `active` |
| Db.Store.UpsertTopic | pipeline/db.py:28-35 | changes only the topics table, as `UpsertTopicRow` |
| Db.Store.AddAlias | pipeline/db.py:38-43 | appends one alias row and changes nothing else |
| Db.Store.AddParentChild | pipeline/db.py:46-53 | upserts the `parent_child` relation keyed by parent and child and changes nothing else |
| Db.CandidateRow | pipeline/db.py:78-85 | a candidate row needs `label` and `evidence`; its suggested id is `topic_id` or else `label`; `why_new` defaults to the empty text; it joins the session as pending |
| Db.Store.InsertCandidates | pipeline/db.py:75-86 | appends one row per candidate in order, or nothing when a candidate lacks a required key |
| Db.Decide | pipeline/db.py:92-97 | the decision keeps the number of candidate rows |
| Db.DecideRow | pipeline/db.py:92-117 | `.update({...}).eq("candidate_id", id)` on one row; `DecideFields` states which fields change and that other rows do not |
| Db.DecideFields | pipeline/db.py:89-117 | only rows with the candidate id change, and only their status, approver, `decided_at` and (when set) `merged_into_topic` |
| Db.DecideAt | pipeline/db.py:92-97 | the decision is applied row by row |
| Db.DecidedLeavesPending | pipeline/db.py:89-123 | after a decision the pending candidates are the previous pending ones minus the decided id, in order |
| Db.Store.ApproveCandidate | pipeline/db.py:89-97 | upserts the topic with the approver as creator and marks the candidate `approved` with no merge target |
| Db.Store.RejectCandidate | pipeline/db.py:100-106 | marks the candidate `rejected` and leaves topics, aliases and the merge target untouched |
| Db.Store.MergeCandidate | pipeline/db.py:109-117 | appends one alias to the target and marks the candidate `merged` into it |
| Db.Store.ActiveTopics | pipeline/db.py:56-59 | exactly the topics with status `active`, each as often as it is stored, in table order |
| Db.Store.PendingCandidates | pipeline/db.py:120-123 | exactly the candidates with status `pending`, each as often as it is stored, in table order |
| Db.MentionsMatching | pipeline/db.py:157-165 | exactly the mentions that pass the filters actually given (an empty filter is not applied), each as often as it is stored |
| Db.Store.Mentions | pipeline/db.py:157-165 | get_mentions on the store: exactly the stored mentions that pass the filters given, each as often as it is stored |
| Db.ByColumn | pipeline/db.py:160-163 | `query.eq(column, value)` when the value is given: every copy of the rows whose column holds it is kept and every other row dropped; a missing or empty value keeps all rows |
| Db.Store.InsertMentions | pipeline/db.py:150-154 | appends the rows and changes nothing else |
| Db.Store.StartScoringRun | pipeline/db.py:169-172 | appends one run and changes nothing else |
| Db.Stamped | pipeline/db.py:178-179 | every row gets the run id and keeps every other field |
| Db.UpsertScores | pipeline/db.py:180 | row-by-row upsert keyed by run and topic keeps keys unique |
| Db.UpsertScoresKeepsRows | pipeline/db.py:180 | every written row is in the table afterwards when no two written rows share run and topic |
| Db.UpsertScoresKeepsEarlier | pipeline/db.py:180 | a row whose key is not rewritten survives |
| Db.Store.WriteTopicScores | pipeline/db.py:175-180 | stamps the run id on every row of the caller's array in place, then upserts them |
| Db.LatestRun | pipeline/db.py:186 | no run iff there are no runs; otherwise a run with the latest `run_at` |
| Db.LatestScores | pipeline/db.py:183-194 | `[]` without runs; otherwise `limit` rows of the latest run, or all of them when there are fewer, ordered by total score descending, with no omitted row of that run scoring higher than a returned one |
| Db.Store.GetLatestScores | pipeline/db.py:183-194 | get_latest_scores on the store: nothing without runs; at most `limit` rows, all of the latest run, highest total first (in full: `LatestScores`) |
| Db.TakeOfSorted | pipeline/db.py:193 | `limit` on a descending list keeps the order, takes at most `limit` rows of the input, and leaves out no row scoring higher than one it keeps |
| Db.EventPayload | pipeline/db.py:200 | the payload holds exactly the keyword arguments that are not None |
| Db.EventLinks | pipeline/db.py:205 | the extra columns are exactly the given `session_id`, `topic_id`, `candidate_id` and `run_id` |
| Db.Store.LogEvent | pipeline/db.py:198-206 | appends one event with that payload and those columns and changes nothing else |
| Cli.FirstExisting | run.py:29-38 | the first existing path, or the fallback when none exists |
| Cli.TaxonomyPath | run.py:25-38 | a given path is used as is; otherwise `effective_taxonomy.json`, then `taxonomy_json_updated.json` in the run directory, then `data/base_taxonomy.json` |
| Cli.InRunDir | run.py:26-28 | `Path(out) / name`, or `name` in the current directory without `--out`; `TaxonomyPath` states the paths tried |
| Cli.Contains | run.py:61 | `in` on a text is substring occurrence |
| Cli.EndsWith | run.py:59 | `s.endswith(suffix)`; `CandidateList` states the usage failure for a path not ending in `.json` |
| Cli.ListedCandidates | run.py:61 | a dict gives its `new_topics` or itself; a list or text gives itself unless it holds `new_topics`; other values fail |
| Cli.CandidateList | run.py:59-71 | a path not ending in `.json` fails with the usage message; an approvals dict with `new_topics` replaces the list, otherwise the document's list is kept |
| Cli.ViewerApprovalsIgnored | run.py:63-67 | the approvals file the viewer writes (`{"approved": [c0]}`) leaves both candidates in the list |
| Cli.ApprovedCandidateList | run.py:63-67 | as `CandidateList`, except that approvals under `approved` replace the list |
| Cli.ViewerApprovalsHonoured | app/viewer.py:249 | with the viewer's approvals file only `c0` remains |
| Cli.CandidatesOf | run.py:72 | a list gives one validated candidate per element, failing iff one is invalid; an empty dict or text gives none; other values fail |
| Cli.SlugArg | run.py:92 | `slugify(m.get(...))` is the slug of a text, `topic` for a missing or falsy value, and an error otherwise |
| Cli.AliasPair | run.py:91-92 | the `(slugify(m.get("from")), slugify(m.get("to")))` pair of one entry, or none when the entry is not a dict or a slug raises |
| Cli.MapOfPairsLastWins | run.py:91-92 | the map exists iff every entry yields a pair; its keys are exactly the pairs' keys, each with the value of its last pair |
| Cli.BuildMap | run.py:91-92 | the assignment loop computes that map, or fails on a malformed entry |
| Cli.NoneStays | run.py:91-94 | once an entry fails, the whole map fails |
| Cli.UserAliasMap | run.py:86-94 | the alias map: `{}` without `merges.json`, when it is not a dict, when `merges` is falsy or not a list, or when an entry raises; otherwise the last-wins map of the entries' pairs; `UserAliasMapKeys` proves where its keys come from |
| Cli.UserAliasMapKeys | run.py:86-94 | every alias comes from a `from` of an entry of `merges.json` |
| Cli.UserAliases | run.py:86-94 | the loop and its exception handler compute the alias map: empty when `merges.json` is missing, malformed or has a bad entry, else the last-wins map of its entries |
| Cli.DropAliased | run.py:95-96 | exactly the candidates whose slug is not an alias are kept, each as often as it occurs, in order; an empty alias map keeps the list as it is |
| Cli.AddedNotAliased | run.py:95-97 | no id added from the kept candidates is an alias |
| Cli.UpdateTaxonomyCommand | run.py:55-97 | succeeds iff the candidate list and its candidates are valid; a non-`.json` path fails with the usage message; the result is `update_taxonomy` over the candidates that are not aliases, so no added id is an alias |
| Cli.HalfLifeDays | run.py:154-159 | positive half-lives are kept; missing or non-positive ones become 7.0; the result is positive |
| Cli.MentionsOfFile | run.py:136-142 | a list is taken whole; a dict's `mention_records` list is preferred to its `mentions` list; any other shape gives nothing |
| Cli.FlattenedExactly | run.py:131-144 | the flattened mentions are exactly those of the readable files |
| Cli.Flattened | run.py:131-144 | the mentions of the first n files, in file order, an unreadable file contributing nothing; `FlattenedExactly` states which they are |
| Cli.FlattenMentions | run.py:131-144 | the extend loop computes the flattened mentions in file order |
| Cli.OrderedScores | run.py:163 | the entries are a permutation, in descending score order, with ties in original order |
| Cli.EntriesOfDict | run.py:163 | `scores.items()` gives one entry per topic of the dict, carrying its total |
| Cli.Entries | run.py:163 | `scores.items()`: one entry per topic in the dict's order, with its total; `EntriesOfDict` proves that |
| Cli.MeetingTypeWeightsArg | run.py:146-152 | a missing or empty argument gives `{}`; otherwise its `json.loads`, or `{}` when it does not parse |
| Cli.GivenWeights | run.py:159 | `mtw or None`: the weights when truthy, else None; `EffectiveWeights` states the fallback to the defaults |
| Cli.ScoreTopics | run.py:117-164 | fails iff scoring fails; the file lists every scored topic once with its total, highest first (ties in the dict's order), under the normalised half-life and the parsed meeting-type weights (defaults when falsy); it records that half-life and those weights |
| Ordering.SortDescending | run.py:163 | a permutation of the input in descending key order |
| Ordering.SortDescendingStable | run.py:163 | entries with equal keys keep their relative order |
| Ordering.InsertionSortedPermutes | run.py:163 | the insertion sort is a permutation |
| Ordering.InsertionSortedDescends | run.py:163 | the insertion sort is descending |
| Ordering.Take | pipeline/db.py:193 | `limit(n)` keeps the first n rows |

## Left out

- The language-model and embedding calls are not modelled. These are `detect_new_topics` and `chunk_and_tag` in pipeline/steps.py:133-159, and pipeline/llm.py. The similarity of candidate i to base item j is an oracle `sim(i, j)`.
- `cosine` and its square roots are not modelled (floating-point only).
- `suggest_merges_debug` (pipeline/steps.py:235-279) is not modelled. It only reports per-candidate maxima for a debug artifact.
- Floating point is modelled as `real`. Rounding, NaN and infinities are not modelled.
- `**` on floats (the decay `0.5 ** (1 / max(1e-6, h))` and its power of the age), `datetime.fromisoformat` and the clock (`datetime.now(timezone.utc)`) are parameters. A datetime is reduced to its awareness and a point on one time line; time zones, leap seconds and `fromisoformat`'s formats are not modelled.
- Reading a number from a string is the parameter `floatOf`. It serves both pydantic's lax `float` and Python's `float()`, which differ on some inputs (underscores, surrounding whitespace).
- The weight-monotonicity test (tests/test_scoring_weights.py) depends on float products and is not restated.
- `chunk_hash` (SHA-256) and `utc_now_iso` are parameters.
- Python's `str()` of a non-string value is the oracle `render`.
- JSON integers and floats are one `JNum` of type `real`, so `render` cannot tell `1` (`"1"`) from `1.0` (`"1.0"`). That matters for a numeric `text` (pipeline/steps.py:99, 126) and a numeric role or meeting type (pipeline/steps.py:326-327).
- `str.lower` is modelled on ASCII only. Every non-ASCII character counts as a separator in `slugify`.
- File and JSON I/O are not modelled: `load_json`, `json_dump`, `write_artifacts`, `open`, `glob` and `os.path.exists`. Their results are parameters: a document, an `Option` for a file that may be missing, and a `pathExists` test, which like `Path.exists` and `os.path.exists` also holds for a directory.
- The `Path` normalisation of the run directory is not modelled. Paths are joined with `/`.
- The glob discovery of mention files (run.py:121-129) is not modelled. The list of files read is a parameter.
- `json.loads` of the `--meeting-type-weights` argument is the parameter `loads` (None when it raises).
- The `merge_suggestions` and `merge_debug` artifacts of `cmd_update_taxonomy` (run.py:73-83, 98-113) are not modelled. They do not affect the taxonomy.
- Cli.UpdateTaxonomyCommand uses `ApprovedCandidateList`, the corrected candidate list (see Findings). `CandidateList` keeps the behaviour as written.
- The Supabase client, the `supa()` singleton and the environment keys are not modelled.
  - Each table is a sequence in `Db.Store`.
  - Each batch insert or upsert is one step.
  - Candidate ids and run ids assigned by the database are parameters.
  - The wall-clock `run_at` of a run is a parameter.
- Db.UpsertScores: the database rejects a batch in which two rows share run and topic (ON CONFLICT DO UPDATE cannot change one row twice in a command). The model lets the last such row win.
- Db.Store.constructor: the model starts from empty tables. The real store starts from whatever rows the database already holds; no line of the source creates it.
- Column defaults of the schema are not in the modelled files. The model assumes topic status `active` and candidate status `pending`.
- Primary keys are not in the modelled files. Upserts use the following keys:

  | table | key |
  |---|---|
  | topics | id |
  | topic relations | parent and child |
  | topic scores | run and topic |

  Unique and foreign-key constraints of the database are not modelled.
- The database's `decided_at = now()` is recorded as the literal the code sends.
- `get_topic_aliases`, `get_topic_relations`, `insert_session`, `insert_speaker`, `insert_utterances` and `insert_chunks` are not modelled. They are plain reads or inserts outside the approval workflow.
- Python exceptions are modelled as `Failure` values. The model records that an error occurs, not which exception type.
- The viewer UI (app/viewer.py) is not part of this model. Only the shape of the approvals file it writes is used.
- Steps.NaiveChunks: distinct chunk ids are promised only below 2^32 rows. Above that, `[:8]` makes ids repeat (ChunkIds.ChunkIdWrapsAbove32Bits).

## Findings

| source | as written | input that shows it | evidently intended | confidence | as-written member | corrected member |
|---|---|---|---|---|---|---|
| run.py:63-67 | the approvals file is read through `appr.get("new_topics", lst)`, but the viewer writes it as `{"approved": [...]}` (app/viewer.py:249), so the approvals are ignored | `new_topics.json` holding `{"new_topics": [c0, c1]}` and `approved_new_topics.json` holding `{"approved": [c0]}` give the list `[c0, c1]` | only the approved `[c0]` is used, as tests/test_approvals_and_merges.py:15-27 does | medium, not executed | Cli.CandidateList, Cli.ViewerApprovalsIgnored | Cli.ApprovedCandidateList, Cli.ViewerApprovalsHonoured |
