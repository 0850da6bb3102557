# Edubuddy core, modelled in Dafny

Edubuddy is a Streamlit study assistant. Students upload documents. The app cuts them into
topic segments and chunks, answers questions over the chunks, summarises the material and
generates cloze quizzes. It tracks scores per topic, recommends what to study next and decides
whether a course certificate is granted. Accounts are created through a validated sign-up form.

This project models the deterministic and nondeterministic bookkeeping at the heart of the app,
one Dafny module per source file:

- `TopicExtractor` (src/ingest/topic_extractor.py): the table-of-contents scan, the two line
  splitters, the `_is_header` predicate and the merge pass of `extract_segments`.
- `Ingestor` (src/ingest/ingestor.py): `Ingestor.ingest` with its file-name fallbacks and the
  per-chunk topic stamping.
- `QuizGenerator` (src/utils/quiz_generator.py): `generate_mcq` and `generate_short_answer`.
- `Analytics` (src/utils/analytics.py): weak areas, chapter performance, learning metrics and
  the trend classification.
- `StudyPath` (src/utils/rl_agent.py): `StudyPathAgent.recommend_next_topic`.
- `Generator` (src/rag/generator.py): context assembly, truncation, prompt and degraded mode.
- `Summarizer` (src/utils/summarizer.py): 1024-character slicing and joining of summaries.
- `AuthUi` (src/ui/auth_ui.py): `suggest_username` and the sign-up validation block.
- `App` (app.py): the topic list, topic scope, quiz submission, certificate eligibility, reset,
  the admin tab and the progress metrics.

`Wrappers` (an `Option` type), `Text` (Python string operations: `strip`, `lower`, `split`,
`join`, `replace`, `in`, `<`) and `Seqs` (filter, minimum, first match) are shared helpers.

Loops of the source are `method`s with `while` loops. Each is proved equal to a specification
function written as a prefix fold, and the properties the source promises are lemmas about that
function. Session state in app.py is the class `App.Session`, whose methods update its fields.
Foreign code is a parameter:

- the TOC-entry regular expression is `entry: string -> Option<string>`;
- the sentence splitter of the quiz generator is `sentences: string -> seq<string>`;
- `parse_file` and `process_file_content` are `parse` and `chunker`;
- the file-size lookup is `size`, and `None` stands for the swallowed exception;
- the language models are `Option` values holding a function;
- `UserManager.get_user` is the predicate `taken`;
- `random.sample`, `random.shuffle` and `random.choice` are `:|` choices in methods, and an
  oracle index `pick` in the pure recommender.

## Model

| member | source | states |
|---|---|---|
| TopicExtractor.IsTocMarker | src/ingest/topic_extractor.py:73 | a marker line is "Table of Contents", "Contents" or "Index" in any case |
| TopicExtractor.DigitLineIsNoMarker | src/ingest/topic_extractor.py:73 | a line starting with a digit never opens a TOC block |
| TopicExtractor.TocStep | src/ingest/topic_extractor.py:70-105 | one line of the scan adds at most one header and removes none; only more than 30 headers break the scan off, after which nothing changes; outside a TOC block only a marker line changes the state |
| TopicExtractor.ExtractTocHeaders | src/ingest/topic_extractor.py:62-107 | the scan loop computes exactly the TOC headers of the text |
| TopicExtractor.TocIteration | src/ingest/topic_extractor.py:70-105 | one pass of the scan loop is one step of the TOC scan: a marker opens the block, a long line closes it, an entry line adds its header, more than 30 headers stop the scan |
| TopicExtractor.TocStaysStopped | src/ingest/topic_extractor.py:104-105 | once more than 30 headers are collected the scan breaks off and later lines change nothing |
| TopicExtractor.TocHeadersFromEntries | src/ingest/topic_extractor.py:68-105 | at most 31 headers; each one is the entry of a non-marker line of at most 300 characters that follows some marker line |
| TopicExtractor.TocHeadersBounded | src/ingest/topic_extractor.py:104-105 | a text never yields more than 31 TOC headers |
| TopicExtractor.NoMarkerNoToc | src/ingest/topic_extractor.py:73-77 | without a marker line no header is collected |
| TopicExtractor.LongLineClosesTocBlock | src/ingest/topic_extractor.py:81-83 | wherever it comes, a line over 300 characters inside an open TOC block closes the block, keeps the headers and does not break the scan off |
| TopicExtractor.MarkerReopensTocBlock | src/ingest/topic_extractor.py:73-75 | wherever it comes, a marker line (re)opens the TOC block as long as the scan has not broken off, keeping the headers |
| TopicExtractor.ClosedTocBlockIgnoresLines | src/ingest/topic_extractor.py:73-77 | outside a TOC block, every line up to the next marker line leaves the scan's state unchanged |
| TopicExtractor.LongLineEndsTocBlock | src/ingest/topic_extractor.py:81-83 | an illustration of the three lemmas above: in "Contents / 1. Cells / long line / 2. Atoms / Index / 3. Energy" the headers are "1. Cells" and "3. Energy" |
| TopicExtractor.TrailingDigitsRun | src/ingest/topic_extractor.py:130 | the digit run the page-number test measures is exactly the run of digits ending the line |
| TopicExtractor.TrailingSpacesRun | src/ingest/topic_extractor.py:130 | the whitespace run before the page number is exactly the run of whitespace ending that part |
| TopicExtractor.DotLeaderOf | src/ingest/topic_extractor.py:130 | any text ending in "...", optional whitespace and a non-empty run of digits passes the page-number test |
| TopicExtractor.DotLeaderLineIsContent | src/ingest/topic_extractor.py:130-132 | any line made of a title, "...", optional whitespace and a page number (such as "Cells...12" or "2. Atoms ... 104") never starts a segment under TOC headers |
| TopicExtractor.SplitIntoSegments | src/ingest/topic_extractor.py:109-195 | both splitter loops compute exactly the raw segments of the text under their header rule |
| TopicExtractor.SplitStep | src/ingest/topic_extractor.py:122-153 | one line of the splitter loop: emitted blocks are never changed, the content grows by exactly the non-header line, a header line becomes the topic and leaves nothing pending, any other line leaves a pending block |
| TopicExtractor.SplitScanInvariant | src/ingest/topic_extractor.py:143-151 | what the splitter loop keeps true: every emitted block has lines, none a header, and a topic that is "Introduction" or a header line |
| TopicExtractor.SplitStepKeeps | src/ingest/topic_extractor.py:143-151 | one line of the splitter loop keeps that invariant |
| TopicExtractor.SplitScanTopics | src/ingest/topic_extractor.py:113-161 | what the loop keeps about topics: a block is pending exactly when the last line is content, the current topic is the last line when that is a header ("Introduction" before any line), and closing the state gives blocks whose topics are exactly `OpenedTopics` |
| TopicExtractor.BlocksFaithful | src/ingest/topic_extractor.py:113-185 | the segments' lines are exactly the stripped non-header lines in order, each segment non-empty and header-free; the topics, in order, are "Introduction" when the first line is content, then each header line that is directly followed by a content line |
| TopicExtractor.HeaderAfterHeader | src/ingest/topic_extractor.py:143-185 | wherever it comes, a header followed directly by another header and a content line adds only the second header's segment to what came before, in both splitters |
| TopicExtractor.NoCapitalPNoPage | src/ingest/topic_extractor.py:210 | a line without 'P' has no "Page" label |
| TopicExtractor.NoLeadingDigitNoAddress | src/ingest/topic_extractor.py:208 | a line not starting with a digit is not address-like |
| TopicExtractor.ChapterKeyword | src/ingest/topic_extractor.py:8 | "Chapter", a space and a digit match the chapter pattern |
| TopicExtractor.IsHeader | src/ingest/topic_extractor.py:197-216 | a header is at most 80 characters, does not end in a comma, semicolon or colon, holds no bar, is not address-like, is not a line under 15 characters holding "Page", and matches a header pattern |
| TopicExtractor.ChapterLineIsHeader | src/ingest/topic_extractor.py:197-216 | every "Chapter N..." line is a header unless it is over 80 characters, ends in a comma, semicolon or colon, holds a bar, or is under 15 characters and holds "Page" (so "Chapter 1: Photosynthesis" is one) |
| TopicExtractor.IntroductionInAnyCase | src/ingest/topic_extractor.py:11 | the named headers match ignoring case, as the match at line 214 does |
| TopicExtractor.NumberedTitleOf | src/ingest/topic_extractor.py:9 | "N. Title" lines match the numbered-title pattern |
| TopicExtractor.PageLabelIsNoHeader | src/ingest/topic_extractor.py:210-211 | any line under 15 characters containing "Page" anywhere is never a header |
| TopicExtractor.MergeStep | src/ingest/topic_extractor.py:48-57 | one merge step: a short current segment is folded, so the loop holds as many segments as before, and a long one is kept, so it holds one more; kept segments before the last are untouched, and a newly kept one reaches the threshold |
| TopicExtractor.MergeShape | src/ingest/topic_extractor.py:43-59 | before the final append the kept list is shorter than the raw list, and every kept segment has content of at least the threshold |
| TopicExtractor.MergeWithoutThreshold | src/ingest/topic_extractor.py:41-48 | with threshold 0 (TOC headers found) the raw segments come back unchanged |
| TopicExtractor.MergeStepRetains | src/ingest/topic_extractor.py:48-57 | one merge step loses no content and no topic of what it held |
| TopicExtractor.MergeRetainsAll | src/ingest/topic_extractor.py:48-53 | every raw segment's content occurs in some output content, and its topic is an output topic or occurs in some output content |
| TopicExtractor.RenderFoldInto | src/ingest/topic_extractor.py:50 | folding into the previous segment renders the same document text |
| TopicExtractor.RenderFoldForward | src/ingest/topic_extractor.py:53 | folding forward keeps every character of the two segments |
| TopicExtractor.MergeKeepsCharacters | src/ingest/topic_extractor.py:43-60 | the merge neither adds nor drops a character of the rendered document |
| TopicExtractor.MergeCellsAndAtoms | src/ingest/topic_extractor.py:53 | the two-chapter Cells/Atoms document merges into one segment "Chapter 2: Atoms" |
| TopicExtractor.Segments | src/ingest/topic_extractor.py:20-60 | empty when the split yields at most one segment; the raw segments when TOC headers exist; otherwise between 1 and the raw count, all but the last at least 300 long |
| TopicExtractor.MergeShortSegments | src/ingest/topic_extractor.py:43-60 | the merge loop computes exactly the merge of the raw segments |
| TopicExtractor.ExtractSegments | src/ingest/topic_extractor.py:20-60 | `extract_segments` computes exactly `Segments` |
| Ingestor.LastIndex | src/ingest/ingestor.py:22 | the last occurrence of a character, or none when absent |
| Ingestor.Basename | src/ingest/ingestor.py:29 | a suffix of the path without '/' (also used at line 41) |
| Ingestor.Extension | src/ingest/ingestor.py:22 | the extension is a suffix of the base name (so root plus extension is the path); a non-empty one starts with its only dot and some non-dot precedes it; it is empty exactly when no dot follows the leading dots |
| Ingestor.FileSegments | src/ingest/ingestor.py:21-42 | media with no usable segment fall back to the media topic, other files with no segment to the base name, always with the whole text; otherwise the segments are kept |
| Ingestor.GenericMediaIsUncategorized | src/ingest/ingestor.py:31-42 | a media file without usable segments whose lower-cased name holds any of the six generic words is filed under "Uncategorized Media"; any other such file under its base name |
| Ingestor.Stamp | src/ingest/ingestor.py:53-56 | the chunk gets metadata if absent, its "topic" set, every other entry kept |
| Ingestor.StampChunks | src/ingest/ingestor.py:53-56 | the loop stamps every chunk, in order |
| Ingestor.ChunkSegments | src/ingest/ingestor.py:45-58 | the loop collects every segment's stamped chunks in segment order |
| Ingestor.IngestText | src/ingest/ingestor.py:21-58 | one file's chunks are those of its fallback-resolved segments |
| Ingestor.IngestFile | src/ingest/ingestor.py:15-65 | one file contributes the chunks of its fallback-resolved segments, and a log entry exactly when it has text and its size can be read |
| Ingestor.Ingest | src/ingest/ingestor.py:12-67 | the chunks are the files' contributions in file order and do not depend on the size lookup; the log holds one entry per readable file |
| Ingestor.IngestAppend | src/ingest/ingestor.py:13-58 | ingesting two file lists gives the first's chunks followed by the second's |
| Ingestor.ContributionsAppend | src/ingest/ingestor.py:14-58 | the contributions of two path lists are those of the first followed by those of the second, for any per-file contribution |
| Ingestor.EmptyFileIgnored | src/ingest/ingestor.py:16-18 | a file with empty text contributes no chunks |
| Ingestor.ChunksCarryTheirTopic | src/ingest/ingestor.py:45-56 | every chunk is one the chunker produced for some segment, stamped with that segment's topic |
| QuizGenerator.Eligible | src/utils/quiz_generator.py:18-20 | the documents longer than 50, or all when none is |
| QuizGenerator.Pool | src/utils/quiz_generator.py:47-48 | distractor candidates are alphabetic words longer than 5, never the answer |
| QuizGenerator.PoolIsComplete | src/utils/quiz_generator.py:47-48 | every such word of the texts is in the pool |
| QuizGenerator.PlaceholdersAreNoCandidates | src/utils/quiz_generator.py:49 | "Option A/B/C" never equal an answer |
| QuizGenerator.BlankedAnswerIsGone | src/utils/quiz_generator.py:44 | after blanking, the answer no longer occurs in the question |
| QuizGenerator.ChooseDistractors | src/utils/quiz_generator.py:47-49 | three distractors, none the answer, sampled from the pool or the placeholders |
| QuizGenerator.ArrangeOptions | src/utils/quiz_generator.py:51-52 | four options, a shuffle of the distractors and the answer, which appears exactly once |
| QuizGenerator.MakeQuestion | src/utils/quiz_generator.py:39-59 | a well-formed question cut from the chosen sentence |
| QuizGenerator.ChooseSentence | src/utils/quiz_generator.py:29-35 | a suitable sentence of the document, or none exactly when no sentence is 31 to 299 characters long |
| QuizGenerator.ChooseAnswer | src/utils/quiz_generator.py:36-43 | a candidate word of the sentence, or none exactly when no word is alphabetic and longer than 5 |
| QuizGenerator.QuestionFromDoc | src/utils/quiz_generator.py:26-59 | a sound question from the document, always one when the document is usable |
| QuizGenerator.SampleDocs | src/utils/quiz_generator.py:22 | min(num, valid) documents drawn without replacement |
| QuizGenerator.GenerateMcq | src/utils/quiz_generator.py:14-61 | empty input gives no quiz; at most min(num, eligible) questions, exactly that many when every eligible document is usable; every question sound |
| QuizGenerator.ExplainPrompt | src/utils/quiz_generator.py:79 | the question frames the first 30 characters of the sentence |
| QuizGenerator.SelectLong | src/utils/quiz_generator.py:71-74 | every long sentence when fewer than num, else exactly num |
| QuizGenerator.AskAll | src/utils/quiz_generator.py:76-82 | one question per selected sentence, in order, each the fixed prompt with the sentence as its answer |
| QuizGenerator.GenerateShortAnswer | src/utils/quiz_generator.py:63-82 | one question per selected sentence over 60 characters, its answer the whole sentence |
| Analytics.TalliesCount | src/utils/analytics.py:55-64 | the counter dictionary holds each key that occurs once, with its attempt and hit counts |
| Analytics.HitsPositive | src/utils/analytics.py:62-64 | a key has a hit iff one of its attempts is a hit |
| Analytics.RatioBounds | src/utils/analytics.py:70 | a rate lies in [0, 1], and above 0 when there is a hit (likewise the rate at line 101) |
| Analytics.RatesFacts | src/utils/analytics.py:68-72 | every rate is a counted key's ratio and every qualifying key is rated (the same loop recurs at lines 99-101) |
| Analytics.SortDesc | src/utils/analytics.py:75 | sorting permutes the rates |
| Analytics.SortSorted | src/utils/analytics.py:75 | the result is ordered by rate, descending |
| Analytics.SortDistinct | src/utils/analytics.py:75 | sorting keeps the keys distinct |
| Analytics.CountInto | src/utils/analytics.py:59-64 | one step of the counting loops (this one and lines 90-95) |
| Analytics.RatesOf | src/utils/analytics.py:68-72 | the rates loop computes the rates in insertion order (this one and lines 99-101) |
| Analytics.WeakAreas | src/utils/analytics.py:44-75 | the weak areas are ordered by rate, highest first |
| Analytics.AnalyzeWeakAreas | src/utils/analytics.py:44-75 | `analyze_weak_areas` computes exactly `WeakAreas` |
| Analytics.WeakAreasMembers | src/utils/analytics.py:56-72 | a source is listed iff one of its answers is wrong (a missing flag counts as wrong, a missing source is "Unknown"), each once |
| Analytics.RatedIffHit | src/utils/analytics.py:56-72 | with only positive rates kept, a key is rated iff one of its attempts is a hit |
| Analytics.WeakAreaRates | src/utils/analytics.py:68-75 | each rate is the source's wrong share, in (0, 1], highest first |
| Analytics.WeakAreasExample | tests/test_analytics_logic.py:5-25 | Doc B at 1.0, then Doc A at 2/3, and Doc C absent |
| Analytics.ChapterPerformance | src/utils/analytics.py:77-103 | a result exists exactly when no attempt lacks its correctness flag (otherwise the `KeyError`); it then lists exactly the topics that occur (default "General"), each once |
| Analytics.AnalyzeChapterPerformance | src/utils/analytics.py:77-103 | `analyze_chapter_performance` computes exactly `ChapterPerformance`, including the missing-flag error |
| Analytics.ChapterAccuracy | src/utils/analytics.py:88-101 | every topic seen (default "General") has exactly one accuracy, its share of correct answers |
| Analytics.SpeedOf | src/utils/analytics.py:111-118 | Fast above 0.2, Steady above 0.05, Plateaued above -0.05, else Struggling, each an iff |
| Analytics.Truncate | src/utils/analytics.py:128 | `int()` truncates toward zero |
| Analytics.MasteryOf | src/utils/analytics.py:121-129 | Indefinite iff slope ≤ 0.01; Mastered iff the average reached the maximum; otherwise the whole number of slope steps left |
| Analytics.LearningMetrics | src/utils/analytics.py:105-134 | speed and time to mastery of the slope and average |
| Analytics.FastLearnerExample | tests/test_analytics_logic.py:27-32 | slope 0.3 at average 3.0 is Fast with 6 more attempts |
| Analytics.StrugglingLearnerExample | tests/test_analytics_logic.py:34-38 | slope -0.1 is Struggling with Indefinite mastery |
| Analytics.Forecast | src/utils/analytics.py:15-36 | fewer than 2 scores give no trend and slope 0; otherwise Improving, Declining or Stable by the slope, each an iff |
| StudyPath.Lowest | src/utils/rl_agent.py:34 | `min` by score picks the first item with the least score |
| StudyPath.Choice | src/utils/rl_agent.py:56 | `random.choice` returns an element of the list (here and at line 66) |
| StudyPath.ChoiceReachesAll | src/utils/rl_agent.py:56 | every element is a possible choice (here and at line 66) |
| StudyPath.Recommend | src/utils/rl_agent.py:16-72 | a cold-start message comes exactly when there are no scores, and the final "Continue studying." fallback is never reached |
| StudyPath.ColdStart | src/utils/rl_agent.py:21-28 | without scores: the first known topic, or "General" |
| StudyPath.ReviewsLowest | src/utils/rl_agent.py:30-38 | some score below 0.6: a topic with the minimum score, with its truncated percentage |
| StudyPath.LowestWeakIsLowest | src/utils/rl_agent.py:31-34 | the least of the weak scores is the least score of all |
| StudyPath.ExploresFirstUntested | src/utils/rl_agent.py:43-52 | no weak topic: the first untested topic of `all_topics` |
| StudyPath.ExploitsMastered | src/utils/rl_agent.py:54-60 | all tested and some mastered: a topic scoring at least 0.8 |
| StudyPath.KeepsPracticing | src/utils/rl_agent.py:62-70 | everything between 0.6 and 0.8: one of the tested topics |
| StudyPath.KnownTopicOnceTested | src/utils/rl_agent.py:30-72 | with scores, the final "General" fallback is unreachable; the topic is tested or known |
| StudyPath.ChoiceOnlyWithoutWeakOrUntested | src/utils/rl_agent.py:21-52 | the first three rules do not depend on the random choice |
| StudyPath.AnyMasteredCanBeChosen | src/utils/rl_agent.py:54-60 | every mastered topic can be recommended |
| StudyPath.MasteredIsTested | src/utils/rl_agent.py:41 | a mastered topic is a tested one scoring at least 0.8 |
| Generator.Context | src/rag/generator.py:29 | the joined context contains every chunk's text; no chunk gives "" and one chunk gives its text |
| Generator.Truncate | src/rag/generator.py:33-34 | context over 1000 characters becomes its first 1000 plus "...(truncated)"; shorter context is unchanged; at most 1014 |
| Generator.TruncateIdempotent | src/rag/generator.py:33-34 | truncating twice is truncating once |
| Generator.Prompt | src/rag/generator.py:37 | the fixed template with the context and the query at their places |
| Generator.PromptInjective | src/rag/generator.py:37 | the prompt determines its context and query |
| Generator.LoadedModelSeesBoundedPrompt | src/rag/generator.py:29-50 | a loaded model answers the prompt of the query and the truncated context |
| Generator.NotLoadedShowsWholeContext | src/rag/generator.py:58 | without a model: the marker followed by the untruncated context |
| Generator.MockStreamMatchesBlocking | src/rag/generator.py:51-58 | the mock stream yields two fragments that spell the blocking answer |
| Summarizer.Chunks | src/utils/summarizer.py:25-26 | the slices concatenate to the text, each 1 to 1024 long, all but the last exactly 1024, none for empty text |
| Summarizer.ChunkAt | src/utils/summarizer.py:26 | slice k is `text[1024k:1024k+1024]` |
| Summarizer.ChunkCount | src/utils/summarizer.py:26 | there are ceil(len/1024) slices |
| Summarizer.SummariesSkipFailures | src/utils/summarizer.py:28-38 | the summaries are those of the slices whose call succeeded, in order |
| Summarizer.SummariesOfReliableModel | src/utils/summarizer.py:28-35 | a model that never fails summarises every slice |
| Summarizer.Summarize | src/utils/summarizer.py:18-41 | the loop computes the joined summaries; no model gives "Summarization model not loaded." |
| AuthUi.Squash | src/ui/auth_ui.py:57-58 | no spaces and no upper case remain |
| AuthUi.SuggestionShape | src/ui/auth_ui.py:56-61 | "fn.ln" when both parts are non-empty, else "" |
| AuthUi.Acceptable | src/ui/auth_ui.py:98-132 | the form passes every rule |
| AuthUi.ValidateSignup | src/ui/auth_ui.py:92-137 | the user name is the input lower-cased and stripped; the errors are exactly the failing rules in check order; an account is created iff there is none |
| AuthUi.RequiredChecks | src/ui/auth_ui.py:98-101 | each empty required field adds its own error |
| AuthUi.UsernameChecks | src/ui/auth_ui.py:104-114 | a non-empty name adds the length, case and charset errors it fails |
| AuthUi.PasswordChecks | src/ui/auth_ui.py:117-127 | a non-empty password adds one error per failed rule |
| AuthUi.UniquenessCheck | src/ui/auth_ui.py:130-132 | a taken non-empty name adds "already taken" |
| AuthUi.Check | src/ui/auth_ui.py:98-132 | one check appends its error exactly when its rule fails |
| AuthUi.Advance | src/ui/auth_ui.py:98-132 | appending a failing check's error keeps the list the failures so far, in order |
| AuthUi.NoErrorsIffAcceptable | src/ui/auth_ui.py:134-137 | the error list is empty iff the form is acceptable |
| AuthUi.NeverReportsUppercase | src/ui/auth_ui.py:92-110 | for ASCII names, the lower-case error can never fire, since the name was lower-cased first |
| AuthUi.ErrorListDetermined | src/ui/auth_ui.py:95-132 | the failing rules determine the error list |
| App.InsertTopic | app.py:251 | adding a topic keeps the list sorted and duplicate-free |
| App.SortedTopics | app.py:251 | the sorted, duplicate-free chunk topics (likewise line 404) |
| App.TopicList | app.py:251-253 | the sorted distinct chunk topics, or ["General"] when none (likewise lines 404-406) |
| App.SortedListUnique | app.py:251 | a sorted duplicate-free list is determined by its elements |
| App.Scope | app.py:280-283 | "All Topics" selects every chunk; otherwise exactly the chunks with that topic (likewise lines 413-416) |
| App.ScoreUpTo | app.py:479-488 | the score is at most the number of questions |
| App.Records | app.py:490-496 | one record per question, with its source, the topic and the correctness |
| App.Percentage | app.py:499 | in [0, 100]; 100 iff all right, 0 iff none |
| App.ScoreIsRightRecords | app.py:479-496 | the score counts exactly the records marked correct |
| App.Grade | app.py:479-496 | the grading loop computes the score and one record per question, in question order |
| App.Session.constructor | app.py:22-37 | the first run: logged out, nothing uploaded, no quiz |
| App.Session.Reset | app.py:156-169 | empty files, no store, empty histories and messages, scope "All Topics"; the login is kept |
| App.Session.Tabs | app.py:49-51 | four fixed tabs, and "Admin" iff the user is "admin" |
| App.Session.SubmitQuiz | app.py:478-509 | for the non-empty quiz whose form line 428 shows: the score; one percentage and one record per question appended; the results stored; nothing else changed |
| App.TopicRight | app.py:631 | a topic's correct records never exceed its records |
| App.Eligibility | app.py:618-645 | the certificate is granted exactly when no shortfall is listed |
| App.CheckCertificate | app.py:618-645 | the eligibility loop computes exactly `Eligibility` |
| App.ShortfallsEmptyIff | app.py:634-641 | no entry is added iff every topic passes |
| App.ShortfallsNameFailures | app.py:634-638 | each entry names a failing topic |
| App.CertificateIff | app.py:618-645 | granted iff there is detailed history with topics and every available topic was attempted with at least 70%; no history gives only "No quizzes taken." |
| App.MasteredAtFifteenPercent | app.py:547 | as written, a 10% then 20% history reports "Mastered" |
| App.MasteredOnlyAtFullMarks | app.py:547 | on the percentage scale, "Mastered" only when every quiz scored 100% |

## Left out

- The TOC-entry regular expression (src/ingest/topic_extractor.py:91-99) is the parameter `entry`, because its lazy quantifiers and cleanup substitution do not reduce to a readable predicate.
- The sentence-splitting regular expression (src/utils/quiz_generator.py:29,68) is the parameter `sentences`.
- `parse_file`, `process_file_content`, `log_ingestion` and `os.path.getsize` are parameters: they are file I/O and code that is not part of this model.
- A log entry stands for the `log_ingestion` call; an exception raised inside that call is swallowed like one from `os.path.getsize` (src/ingest/ingestor.py:61-65), so the model does not say whether the database write happened.
- QuizGenerator.GenerateMcq, QuizGenerator.GenerateShortAnswer, QuizGenerator.SampleDocs and QuizGenerator.SelectLong: the question count is a `nat`. A negative `num_questions` makes `random.sample` raise `ValueError` in the source (src/utils/quiz_generator.py:22 when some document is valid, and line 74), and that error path is not modelled. app.py:423 always asks for 5.
- The probability distributions of `random.sample`, `random.shuffle` and `random.choice` are not modelled, only which outcomes are possible.
- The in-place mutation of chunk metadata dictionaries and of `merged_segments[-1]` is modelled on values; no aliasing between dictionaries is captured.
- Least squares, `predicted_score` and `round(..., 2)` in src/utils/analytics.py: the slope is an input and rates are exact ratios, because these are floating-point numerics.
- Analytics.WeakAreas: Python sorts the rates after rounding them to two places (src/utils/analytics.py:72-75), so rates such as 2/3 and 0.67 tie and keep their insertion order there, while the model orders them by their exact values.
- Percentages and means are exact reals; the `:.1f` formatting of messages is not modelled.
- The reason texts of the recommender, including emoji, are the `StudyPath.Reason` datatype with the review percentage.
- StudyPath.Recommend: the dictionary is the sequence of its items in insertion order, and `pick` stands for `random.choice`.
- The streaming path of `generate_answer` (thread and `TextIteratorStreamer`) is concurrency: only the mock stream without a model is modelled.
- The model calls of the generator and the summarizer are abstract functions; an exception in the summarizer is `None`.
- `sentences_count` of `summarize` is never used by the source, so it has no counterpart.
- Character classes are ASCII: `lower`, `isupper`, `isalpha` and `\d` do not cover other Unicode letters or digits.
- AuthUi.NeverReportsUppercase: holds for ASCII names only; Python's `lower()` leaves some upper-case letters such as 'ϒ' unchanged, and for those the error can fire.
- Sign-up form widgets, the profile picture, `create_user` and the error display are UI and database I/O.
- Streamlit rendering, widgets, charts, tabs and the chat are UI.
- The certificate check visits the available topics in sorted order; Python iterates a set in an unspecified order, which only changes the order of the failure messages.
- The detailed records of a quiz omit the question text and the timestamp, which no modelled rule reads.
- App.TopicRight: a record without `is_correct` counts as wrong, whereas pandas' `mean` would skip it. app.py only writes records that have the flag.
- Analytics.SortDesc: the stability of Python's sort between equal rates is not proved, only ordering and permutation.
- UserManager, the SQLite store, SHA-256 hashing, the PDF reporter and speech are I/O and foreign calls.

Behaviour of the code worth noting, which the model follows:

- A document with a short "Chapter 1: Cells" part followed by "Chapter 2: Atoms" yields one
  segment, not two: the first segment is shorter than 300 characters and is folded into the
  second (`TopicExtractor.MergeCellsAndAtoms`).
- The TOC scan collects up to 31 headers, not 30, because it breaks only once it holds more
  than 30.
- A TOC block ended by a long line can be re-entered at a later marker line.
- Cloze answers and distractors are words longer than 5 characters, not 4.
- There is no model-driven question parsing, only the cloze construction.

## Findings

| source | as written | input that shows it | evidently intended | confidence | as-written member | corrected member |
|---|---|---|---|---|---|---|
| app.py:547 | `calculate_learning_metrics(slope, np.mean(data))` uses the default `max_score` of 5, but `data` holds percentages from 0 to 100 | quiz history [10.0, 20.0] with slope 10: the average is 15 and "Mastered!" is reported | mastery measured against 100, the scale of the history | high, not executed | App.MasteredAtFifteenPercent | App.MasteredOnlyAtFullMarks |

`App.ProgressMetricsAsWritten` computes the metrics as app.py:547 does.
`App.ProgressMetrics` passes 100 as the maximum score.
