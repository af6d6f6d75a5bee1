# News-analytics document pipelines and dashboard logic, in Dafny

This project models the decision logic of the mbc_2team news-analytics system and proves
properties of it. The system crawls news articles and two economic dictionaries, cleans the
article text into a search index, predicts an issue keyword for each article, ranks keywords
by month and serves the results on web pages: a keyword dashboard with trend charts, a
sentiment donut and keyword comparison, word-dictionary pages with bookmarks, administrator
consoles for terms and batch runs, and sign-up, log-in and account pages.

Three groups of code are modelled.

- The document-synchronisation pipelines. Each one reads records from a source, classifies
  each record as skipped, failed or derived, buffers the derived records, writes them in
  batches and counts the outcomes. They are the clean-text builder (`CleanText`,
  `CleanTextBuild`, with a small backtracking `Regex` engine for the patterns it uses), the
  dictionary crawlers (`WordDic`, `KdiCrawler`, `GptCrawler`), the news crawler
  (`NaverCrawler`, `BatchDb`), the keyword predictor (`PredictKeyword`), the keyword-count
  writer (`KeywordCount`) and the AI-Hub preprocessing script (`AihubPreprocess`). The
  browser, the search index and the files become input sequences: pages, detail
  observations, per-item write statuses and stored values.
- The ranking and calendar arithmetic. This covers month, year and previous-window
  calculation, change rate, rank change and badge (`KeywordRanking`), the monthly
  new/up/down/same rule (`TrendRanking`), the sub-keyword token filters (`SubKeywords`) and
  the date × keyword pivot (`Dashboard`). Dates are (year, month, day) triples in `Calendar`.
- The small-state logic of the front-end scripts. This covers:
  - date ranges and presets (`RangeDates`), trend buckets (`TrendBuckets`) and chart
    labels (`ChartLabels`);
  - FNV-1a hashing (`Fnv`), ranking rows (`RankingView`), the donut (`SentimentDonut`),
    keyword comparison (`CompareKeywords`) and the article lists (`ArticleList`,
    `SampleList`);
  - the Hangul initial-consonant index (`WordIndex`, after section 3.12 of The Unicode
    Standard), the word data (`WordJson`) and the dictionary pages (`WordPage`);
  - the word and term administrator pages (`ManagerWord`, `AdminTerms`) and the batch-run
    consoles (`AdminRuns`, `AdminRerun`);
  - sign-up (`Signup`), the log-in lockout (`Login`) and account editing (`InfoEdit`);
  - the two home-page sliders (`HomeCarousel`, `HomeSlides`).

  A DOM write becomes a field of a class, and the page's handlers become methods on that
  class.

Code that changes state in loops is modelled as methods with loop invariants. Each method
is proved against a specification function. Pure helpers are modelled as functions, and
the properties the code promises are proved as lemmas. The shared modules are `Text`
(Python and JavaScript string operations), `Sorting`, `Arith` and `Calendar`.

## Model

| member | source | states |
|---|---|---|
| CleanText.ReplaceBreaks | apps/analyzer/build_clean_text.py:59 | each `\r`, `\n` and `\t` becomes a space and every other character is kept in place, so the length is unchanged |
| CleanText.SubEachChars | apps/analyzer/build_clean_text.py:40-42 | applying the footer patterns one after another only deletes characters or writes spaces, so any character class that contains the space is kept |
| CleanText.CollapseClean | apps/analyzer/build_clean_text.py:55-60 | collapsing whitespace runs and stripping a text of kept characters leaves only clean characters and no leading, trailing or doubled spaces |
| CleanText.KeepCleanCharsClean | apps/analyzer/build_clean_text.py:55-60 | after tag removal, replacement of characters outside `0-9A-Za-z가-힣\s`, break replacement and collapsing, every character is an ASCII letter or digit, a Hangul syllable or a space |
| CleanText.RemoveFooterNoiseClean | apps/analyzer/build_clean_text.py:26-43 | the footer-noise pass keeps a clean text clean |
| CleanText.TokensClean | apps/analyzer/build_clean_text.py:66-68 | the tokens kept from a space split are non-empty words of clean characters, none of them a stopword |
| CleanText.DropStopwordsWellFormed | apps/analyzer/build_clean_text.py:67-69 | joining the kept tokens of a clean text gives a well-formed text: clean characters, single inner spaces, no stopword token |
| CleanText.NormalizeTextWellFormed | apps/analyzer/build_clean_text.py:46-69 | every result of `normalize_text` is well formed: only ASCII letters and digits, Hangul syllables 가–힣 and single inner spaces, and no space-separated token is in `KOREAN_STOPWORDS` |
| CleanText.NormalizeTextBlank | apps/analyzer/build_clean_text.py:46-52 | a title and a body that are both empty or whitespace-only normalise to "" |
| CleanText.NormalizeTextStripped | apps/analyzer/build_clean_text.py:47-49 | normalising the stripped title and body gives the same text as normalising the raw ones |
| Regex.Run | apps/analyzer/build_clean_text.py:22 | the length of the longest run of one character class at a position: every character in it is in the class and the next one is not |
| Regex.MatchAt | apps/analyzer/build_clean_text.py:21-37 | a match found at a position ends inside the text, and strictly after the start for a pattern that begins with a mandatory class |
| Regex.Sub | apps/analyzer/build_clean_text.py:40-43 | `re.sub(p, " ", s)` for a pattern that cannot match the empty string never lengthens the text |
| Regex.SubChars | apps/analyzer/build_clean_text.py:42 | a substitution keeps every character class that contains the space |
| Regex.SubNoMatch | apps/analyzer/build_clean_text.py:42 | where the pattern matches nowhere the substitution returns the text unchanged |
| Regex.SubSingle | apps/analyzer/build_clean_text.py:58 | a one-class pattern such as `[^0-9A-Za-z가-힣\s]` replaces exactly the characters of the class, one space each, and keeps the rest in place |
| CleanTextBuild.CountOutcome | apps/analyzer/build_clean_text.py:158-181 | the number of results with a given outcome never exceeds the number of results |
| CleanTextBuild.ActionsFor | apps/analyzer/build_clean_text.py:140-151 | one `create` action per item, in order, into `clean_text`, with the item's id as document id and its date and clean text as source |
| CleanTextBuild.BulkCreateCleanText | apps/analyzer/build_clean_text.py:128-187 | an empty input sends nothing and returns all-zero counts; otherwise it sends one create action per item and tallies each result by status alone: 201 created, 409 conflict, anything else (a missing operation too) other_error, with failures sampled while fewer than `max_fail_collect` are held |
| CleanTextBuild.TallyTotal | apps/analyzer/build_clean_text.py:169-174 | created + conflict + other_error equals the number of results |
| CleanTextBuild.FailedSampleBound | apps/analyzer/build_clean_text.py:175-180 | the failure sample holds exactly min(other_error, max_fail_collect) entries, so it never exceeds `max_fail_collect` |
| CleanTextBuild.TallyIgnoresOk | apps/analyzer/build_clean_text.py:164-168 | the `ok` flag plays no part: results with the same operation entries tally alike |
| CleanTextBuild.CountOutcomeAppend | apps/analyzer/build_clean_text.py:296-311 | the tallies of consecutive batches add up to the tally of their concatenation |
| CleanTextBuild.TriageCases | apps/analyzer/build_clean_text.py:244-292 | the checks run in fixed order: a missing or empty published_at, then a title and body that both strip to "", then an empty normaliser result; each case holds exactly under its condition, and a derived record carries the source id, the source published_at and the normalised stripped texts |
| CleanTextBuild.TriageNormalized | apps/analyzer/build_clean_text.py:248-292 | with `normalize_text` as normaliser, a derived record's clean text is the normalised raw title and body, non-empty and well formed |
| CleanTextBuild.Verdicts | apps/analyzer/build_clean_text.py:241-292 | one verdict per article read, in reading order |
| CleanTextBuild.Somes | apps/analyzer/build_clean_text.py:288-292 | the records kept are at most as many as the articles |
| CleanTextBuild.DerivedOfSomes | apps/analyzer/build_clean_text.py:288-292 | the records buffered are exactly the records the verdicts carry, in order |
| CleanTextBuild.NoBodyBlank | apps/analyzer/build_clean_text.py:246-252 | an article is noted as having no body exactly when its body is missing, empty or whitespace-only |
| CleanTextBuild.TriageTotal | apps/analyzer/build_clean_text.py:241-293 | every article read increments exactly one of the skip counters or total_buffered |
| CleanTextBuild.DerivedOfPrefix | apps/analyzer/build_clean_text.py:288-293 | reading more articles never shrinks the buffered records |
| CleanTextBuild.CountersStep | apps/analyzer/build_clean_text.py:242-293 | reading one more article moves the counters and the derived records by that article alone |
| CleanTextBuild.ReadDoc | apps/analyzer/build_clean_text.py:242-293 | reading one article increments total_read, notes an empty body, and counts the first failing check or derives the record |
| CleanTextBuild.Flush | apps/analyzer/build_clean_text.py:296-311 | a flush sends the whole buffer as one batch and adds its tally to the running created, conflict and other_error totals |
| CleanTextBuild.Absorb | apps/analyzer/build_clean_text.py:288-311 | a derived record is appended to the buffer, and the buffer is flushed as soon as it holds `batch_size` records; a skipped article changes nothing |
| CleanTextBuild.BuildCleanTextRange | apps/analyzer/build_clean_text.py:190-341 | the batches written are exactly the derived records in reading order, all of `batch_size` but a shorter last one; every article read lands in exactly one counter or in total_buffered; the bulk totals are the status tallies of all results and add up to total_buffered; missing = max(0, news count − clean count) from the two independent counts |
| CleanTextBuild.ByIdsRecords | apps/analyzer/build_clean_text.py:400-423 | one outcome per fetched article, in response order |
| CleanTextBuild.ByIdsAgreesWithRange | apps/analyzer/build_clean_text.py:404-423 | with `normalize_text`, the by-ids checks derive the same record from an article as the range builder's checks |
| CleanTextBuild.ByIdsRecordsAgree | apps/analyzer/build_clean_text.py:368-441 | over a whole search response, the by-ids builder buffers exactly the records the range builder would |
| CleanTextBuild.BuildCleanTextByIds | apps/analyzer/build_clean_text.py:368-441 | an empty id list returns without a search; otherwise the batches are the derived records in response order, cut at `batch_size`, and the totals are the status tallies of all results |
| CleanTextBuild.SomesAppend | apps/analyzer/build_clean_text.py:419-423 | buffering one more outcome appends its record, if any |
| WordDic.Norm | crawling_word/kdi_worddic_allinone.py:173-178 | `_norm` never lengthens its input |
| WordDic.NormLowerKeeps | crawling_word/kdi_worddic_allinone.py:174-177 | a character `_norm` keeps is its own lower case |
| WordDic.NormFixes | crawling_word/kdi_worddic_allinone.py:173-178 | a text made only of `[0-9a-z가-힣]` normalises to itself |
| WordDic.NormProperties | crawling_word/kdi_worddic_allinone.py:173-178 | the output of `_norm` holds only digits, lower-case ASCII letters and Hangul syllables, and `_norm` is idempotent |
| WordDic.NormHasNoBar | crawling_word/kdi_worddic_allinone.py:177 | a normalised text never contains the bar character that separates the two halves of the detail signature |
| WordDic.SplitAtFirstBar | crawling_word/kdi_worddic_allinone.py:219-224 | two signatures whose heads hold no bar character split at their first bar into equal heads and equal tails |
| WordDic.Prefix | crawling_word/kdi_worddic_allinone.py:192-194 | `s[:n]` is the first n characters, or all of s when it is shorter |
| WordDic.KeywordMatchProperties | crawling_word/kdi_worddic_allinone.py:181-194 | `is_keyword_match` is symmetric; it is false when either normalised side is empty; true when either contains the other (equal non-empty sides included); otherwise it compares six-character prefixes when both sides have six characters, else three-character prefixes |
| WordDic.BeforeQuote | crawling_word/kdi_worddic_allinone.py:144 | the text before the first apostrophe holds no apostrophe, and is followed by one unless it is the whole text |
| WordDic.OnclickTermIdBetweenQuotes | crawling_word/kdi_worddic_allinone.py:140-146 | an id is found exactly when the attribute mentions `getdetail` and has an apostrophe, and the id is the text between the first two apostrophes (or to the end) |
| WordDic.IdsOf | crawling_word/kdi_worddic_allinone.py:150 | the term ids of the references, in order |
| WordDic.FirstPerIdIds | crawling_word/kdi_worddic_allinone.py:150-153 | the kept ids are the listed ids de-duplicated in order of first appearance |
| WordDic.FirstPerIdFirst | crawling_word/kdi_worddic_allinone.py:150-151 | the reference kept for an id is the first one listed with it |
| WordDic.CollectedRefsProperties | crawling_word/kdi_worddic_allinone.py:119-153 | the collected references have distinct term ids, every listed id is among them, and each is the first reference listed with its id (the same code is gpt_2crawling.py lines 73-108) |
| WordDic.SectionRefsStep | crawling_word/kdi_worddic_allinone.py:139-151 | one more anchor of a section appends its reference, if it yields one |
| WordDic.TabRefsStep | crawling_word/kdi_worddic_allinone.py:131-135 | one more section of a tab appends that section's references |
| WordDic.ListedRefsStep | crawling_word/kdi_worddic_allinone.py:126-129 | one more tab appends that tab's references |
| WordDic.FirstPerIdStep | crawling_word/kdi_worddic_allinone.py:150-151 | a repeated id is dropped and a new one appended at the end |
| WordDic.ScanAnchors | crawling_word/kdi_worddic_allinone.py:135-151 | scanning one section's anchors keeps the first reference per id over everything listed so far, and the seen-id set matches the kept ids |
| WordDic.ScanTab | crawling_word/kdi_worddic_allinone.py:131-151 | scanning each section of a tab in turn keeps the first reference per id |
| WordDic.CollectTermRefs | crawling_word/kdi_worddic_allinone.py:119-153 | `collect_term_refs` returns the first reference per term id over all tabs and sections in `TAB_SECTIONS` order |
| WordDic.Put | crawling_word/kdi_worddic_allinone.py:384 | `d[k] = v` keeps keys distinct, stores v under k and leaves the other entries alone |
| WordDic.Values | crawling_word/kdi_worddic_allinone.py:246-248 | `list(d.values())` has one value per key, in insertion order |
| WordDic.PutValues | crawling_word/kdi_worddic_allinone.py:384 | storing under a new key appends the value; under an existing key it replaces that value in place |
| WordDic.LoadItems | crawling_word/kdi_worddic_allinone.py:236-241 | the rows loaded so far are keyed by their own term ids, with distinct keys |
| WordDic.LoadedCheckpoint | crawling_word/kdi_worddic_allinone.py:231-243 | `load_checkpoint` always returns a dictionary keyed by term id |
| WordDic.LoadCheckpoint | crawling_word/kdi_worddic_allinone.py:231-243 | the loop returns {} for a missing file, an unparsable file or an element without `get`, and otherwise the rows by term id |
| WordDic.StoredIds | crawling_word/kdi_worddic_allinone.py:238 | the `term_id` of each stored element |
| WordDic.LoadItemsKeys | crawling_word/kdi_worddic_allinone.py:237-240 | the loaded keys are exactly the non-empty stored ids: rows without `term_id` are skipped |
| WordDic.LoadItemsObjects | crawling_word/kdi_worddic_allinone.py:237-241 | a list of objects always loads |
| WordDic.LoadItemsLastWins | crawling_word/kdi_worddic_allinone.py:237-240 | the row kept for an id is the last row carrying it |
| WordDic.LoadedCheckpointEmpty | crawling_word/kdi_worddic_allinone.py:232-243 | a missing or unparsable file, or a list with a non-object element, loads as {} |
| WordDic.LoadItemsFailsAt | crawling_word/kdi_worddic_allinone.py:237-243 | one non-object element makes the loop raise, whatever comes before or after |
| WordDic.PyTake | crawling_word/kdi_worddic_allinone.py:326 | `xs[:n]` with Python's slicing, a negative n counting from the end |
| WordDic.ConsideredRefs | crawling_word/kdi_worddic_allinone.py:322-326 | without a limit every reference is considered; with a non-negative limit, the first min(limit, len(refs)) of them |
| WordDic.LogAppend | crawling_word/kdi_worddic_allinone.py:384-416 | one more reference adds its row to the saved rows, its failure to the ledger or one to the skipped count |
| WordDic.SavesAppend | crawling_word/kdi_worddic_allinone.py:420-422 | after a reference that was not skipped, the checkpoint is written when done_count is a positive multiple of checkpoint_every |
| WordDic.LogFitsAppend | crawling_word/kdi_worddic_allinone.py:326-418 | the log keeps describing the considered references one by one |
| WordDic.SavedRowsPrefix | crawling_word/kdi_worddic_allinone.py:384-389 | the rows saved by a prefix of the crawl are a prefix of the rows saved by all of it |
| WordDic.CheckpointSavesProperties | crawling_word/kdi_worddic_allinone.py:420-422 | each checkpoint write inside the loop comes, for a non-zero checkpoint_every, at a positive multiple of checkpoint_every successes and writes the loaded rows followed by the rows saved so far, a prefix of the final rows; the counts of successive writes never decrease |
| WordDic.LogFitsPrefix | crawling_word/kdi_worddic_allinone.py:326-418 | the log of the first n references describes them |
| WordDic.LogCounts | crawling_word/kdi_worddic_allinone.py:326-418 | every considered reference is skipped, saved or failed exactly once: the three counts add up to the number considered |
| WordDic.LogCovers | crawling_word/kdi_worddic_allinone.py:326-418 | every considered id ends up in the loaded checkpoint, among the saved rows or in the failure ledger |
| WordDic.SavedIdsFresh | crawling_word/kdi_worddic_allinone.py:326-385 | no id is saved twice, and none that the checkpoint already held (resume skips done keys) |
| WordDic.FinalRowsDistinct | crawling_word/kdi_worddic_allinone.py:311-429 | the returned rows, the checkpoint's followed by the newly saved ones, have distinct term ids |
| WordDic.AccountSkipped | crawling_word/kdi_worddic_allinone.py:327-330 | a reference already in `already` changes nothing |
| WordDic.AccountSaved | crawling_word/kdi_worddic_allinone.py:384-389 | a saved row goes last in rows_by_id, its id joins `already` and done_count grows by one |
| WordDic.AccountFailed | crawling_word/kdi_worddic_allinone.py:407-416 | a final failure appends exactly one ledger entry |
| KdiCrawler.SigSeparatesTitles | crawling_word/kdi_worddic_allinone.py:219-224 | the signature (normalised title, two bars, first 120 characters of the normalised body) is never empty, and equal signatures mean equal normalised titles |
| KdiCrawler.StaleNeverReady | crawling_word/kdi_worddic_allinone.py:211-220 | the detail just saved never passes the ready check against its own signature, for any label; a detail with another normalised title is ready exactly when its title is non-empty, its body long enough and its title matches the label |
| KdiCrawler.FirstReady | crawling_word/kdi_worddic_allinone.py:211-222 | the wait returns the first polled detail that meets all four ready conditions, and times out exactly when none does |
| KdiCrawler.StrictAttempt | crawling_word/kdi_worddic_allinone.py:339-373 | one attempt: a timeout changes nothing; a repeated title counted up to the threshold is a refresh that clears prev_sig and the counter; a title read after the wait that does not match the label is an integrity failure that keeps prev_sig; otherwise the texts read after the wait are saved and prev_sig becomes their signature |
| KdiCrawler.StuckRule | crawling_word/kdi_worddic_allinone.py:350-366 | after a successful wait the attempt refreshes exactly when the consecutive-repeat count reaches stuck_repeat_threshold, and otherwise the counter is that count |
| KdiCrawler.StablePaneVerified | crawling_word/kdi_worddic_allinone.py:211-225 | when the pane does not change after the wait, the re-check never fails and a saved detail met all four ready conditions against the previous signature |
| KdiCrawler.ProcessRefStrict | crawling_word/kdi_worddic_allinone.py:334-418 | a processed reference makes at most `retries` attempts and ends as one row keyed by its term id (keyword = dt, content = dd, title matching the label, prev_sig = its signature) or one failure entry with its id, tab, section and label; on failure prev_sig is unchanged unless a refresh cleared it |
| KdiCrawler.CrawlStep | crawling_word/kdi_worddic_allinone.py:327-418 | a reference already saved is skipped without touching the driver; otherwise its row or failure is accounted for in rows_by_id, already, done_count and failures |
| KdiCrawler.CrawlAllStrict | crawling_word/kdi_worddic_allinone.py:294-429 | only the first min(limit, len(refs)) references are considered, one log entry each; the returned rows are the loaded checkpoint rows followed by the newly saved ones, exactly the values of the final checkpoint write; the failures are the ledger; checkpoints are written at positive multiples of checkpoint_every and once at the end; with checkpoint_every 0 the run raises ZeroDivisionError right after its first saved row, which is then the last entry, and no final write happens; every saved row matches its label and comes from at most `retries` attempts |
| GptCrawler.SigSeparatesBarFreeTitles | gpt_2crawling.py:131-136 | for titles without a bar character, equal signatures (title, two bars, first 80 body characters) mean equal titles and equal first 80 characters of the bodies |
| GptCrawler.SigCollidesOnBarTitles | gpt_2crawling.py:131 | a title containing a bar character lets a different detail carry the same signature |
| GptCrawler.StaleNeverReady | gpt_2crawling.py:127-132 | the detail whose signature is prev_sig is never ready again |
| GptCrawler.FirstReady | gpt_2crawling.py:127-134 | the wait returns the first polled detail with a non-empty title and a new signature (no label check), and times out exactly when none has one |
| GptCrawler.TryOnce | gpt_2crawling.py:223-226 | one attempt fails exactly when the wait times out; otherwise prev_sig becomes the signature read at the end of the wait and the row holds the texts read after it |
| GptCrawler.StablePaneSaved | gpt_2crawling.py:123-136 | when the pane does not change after the wait, the saved detail was ready against the previous signature, the new signature is its own and differs from the previous one, and the same detail is stale for the next reference |
| GptCrawler.ProcessRef | gpt_2crawling.py:218-261 | a processed reference makes at most `retries` attempts; it is saved at the first attempt whose wait succeeds, with prev_sig replaced by that wait's signature, or fails with one ledger entry after every wait timed out, leaving prev_sig unchanged |
| GptCrawler.LastSigAppend | gpt_2crawling.py:224-226 | prev_sig changes only on a save |
| GptCrawler.LogOkAppend | gpt_2crawling.py:210-261 | the per-reference promise extends to one more reference |
| GptCrawler.CrawlStep | gpt_2crawling.py:211-261 | a reference already saved is skipped; otherwise its row or failure is accounted for, and prev_sig moves only on a save |
| GptCrawler.CrawlOne | gpt_2crawling.py:210-266 | one pass of the loop keeps the bookkeeping and writes the checkpoint when done_count is a positive multiple of checkpoint_every |
| GptCrawler.CrawlAll | gpt_2crawling.py:179-274 | only the first min(limit, len(refs)) references are considered, one log entry each; the returned rows are the loaded rows followed by the new ones, the values of the final checkpoint write; failures are the ledger; with checkpoint_every 0 the run raises ZeroDivisionError right after its first saved row and writes nothing more; each reference is judged against the signature left by the last save before it |
| NaverCrawler.NormalizePublishedAtProperties | apps/crawler/main.py:57-63 | `normalize_published_at` gives None exactly for a missing or blank value; a value containing `T` comes back stripped; otherwise exactly the spaces of the stripped value become `T`; applying it twice is applying it once (the copy in test_crawling/main5.py:76-94 behaves the same) |
| NaverCrawler.CleanDocForEsProperties | apps/crawler/main.py:66-67 | `clean_doc_for_es` keeps a field exactly when its value is neither None nor the empty string, keeps its value unchanged, and cleaning the result again changes nothing (same in test_crawling/main5.py:97-107) |
| NaverCrawler.ArticleUrlsProperties | apps/crawler/main.py:102-114 | every URL kept matches one of the three article URL shapes, and every non-empty `href` whose joined URL matches one is kept |
| NaverCrawler.CollectArticleLinks | apps/crawler/main.py:89-116 | `collect_article_links` raises `TimeoutException` (None) exactly when the page shows no list anchor for the 15-second wait; otherwise it returns the matching article URLs of the page, each once, in first-seen order (same in test_crawling/main5.py:153-203) |
| NaverCrawler.AddNewLinks | apps/crawler/main.py:132-137 | the inner loop appends exactly the links not seen before, keeps `seen` equal to the set of links so far, and `added` is zero exactly when every link of the page was already seen |
| NaverCrawler.VisitedFromProperties | apps/crawler/main.py:123-140 | counting pages from a given one: never more than `max_pages`, every page before the last opened one continues the loop, and stopping early means the last opened page stopped it |
| NaverCrawler.PagesVisitedProperties | apps/crawler/main.py:123-140 | at most `max_pages` list pages are opened; every page before the last opened one had links and added a new one; fewer than `max_pages` opened means the last page had no links or added none (same in test_crawling/main5.py:219-254) |
| NaverCrawler.CollectedLinksProperties | apps/crawler/main.py:119-145 | the collected links are pairwise distinct, are exactly the article links of the opened pages, and keep the order in which each was first seen |
| NaverCrawler.CollectAllLinksForDate | apps/crawler/main.py:119-145 | `collect_all_links_for_date` opens the number of pages the two stop rules and the page bound allow; it raises exactly when the last page it opened had no list anchor, and otherwise returns the de-duplicated links of those pages |
| NaverCrawler.CollectionTimesOutProperties | apps/crawler/main.py:119-145 | a timeout of the link collection comes from the last page opened: every earlier page had list anchors, and at least one page was opened within `max_pages` |
| NaverCrawler.OpenPage | apps/crawler/main.py:123-143 | one turn of the page loop opens the next page and keeps the loop invariant: a page without anchors ends the loop timed out, an empty or stale page ends it, any other adds its new links |
| NaverCrawler.TargetPrefixIsIsoDate | apps/crawler/main.py:273 | for a request date written `YYYYMMDD` the published-at prefix is that date's `YYYY-MM-DD` text |
| NaverCrawler.TallyTotal | apps/crawler/main.py:275-298 | when every `es_exists` call answers, every link is counted exactly once as skipped, failed, dropped or kept; every kept document has no empty field and is published on the requested date or has no publication time (same in test_crawling/main5.py:465-498) |
| NaverCrawler.ExistingNeverParsed | apps/crawler/main.py:276-283 | a link whose article id is already indexed, or whose lookup raised, is never parsed: the parser's answers on such links make no difference |
| NaverCrawler.LoopAgreesStep | apps/crawler/main.py:286-298 | one link's outcome keeps the loop's variables in step with the tally: a kept document is buffered and counted, a bulk write at 200 that raises counts one more failure and keeps the buffer, so every kept document is written once or still buffered |
| NaverCrawler.ArticleLoopTally | apps/crawler/main.py:275-298 | the article loop raises exactly when some `es_exists` call raises; otherwise `crawled_ok` and `skipped` are the tally's, `failed` is at least the tally's, every kept document is written exactly once in order or still buffered, every write holds at least 200 documents, and when no bulk write raises `failed` is the tally's and the writes hold exactly 200 each (same in test_crawling/main5.py:465-498) |
| NaverCrawler.RaisedSticks | apps/crawler/main.py:278-279 | once `es_exists` has raised, the rest of the links change nothing: the exception leaves the loop |
| NaverCrawler.CrawlLinks | apps/crawler/main.py:261-298 | the article loop leaves exactly the counters, buffer and bulk writes of the reference loop, stopping at the first `es_exists` that raises (same in test_crawling/main5.py:444-498) |
| NaverCrawler.CrawlOutcomeProperties | apps/crawler/main.py:266-301 | a crawl raises, having written nothing, when the link collection times out, and raises when some lookup raises; with every lookup answering and no bulk write raising it finishes; a finished crawl reports every collected link, has the tally's kept and skipped counts and at least its failures, and has written every kept document exactly once in order; with no bulk write raising its counts are the tally's and its writes are the kept documents in batches of 200 with one shorter final batch |
| NaverCrawler.CrawledOnDate | apps/crawler/main.py:283-285 | every document a finished crawl wrote has no empty field and is published on the requested date or has no publication time |
| NaverCrawler.CrawlNaverNews | test_crawling/main5.py:421-515 | a failed ping, and only a failed ping, returns the unavailable answer before any crawl; otherwise the answer is the crawl's outcome: raised by a list page without anchors, an `es_exists` call or the final bulk write, else `total_links`, the counters and the bulk writes of the article loop |
| NaverCrawler.RunStateCode | apps/crawler/main.py:306-311 | the run's state code is 200 exactly when it finished with no failure, 300 exactly when it finished with some, and 400 exactly when it raised (the 400 path is apps/crawler/main.py:333-334) |
| NaverCrawler.CrawlOneDate | apps/crawler/main.py:240-349 | `crawl_one_date` answers unavailable exactly when the ping fails, writing no run; otherwise it is the crawl's outcome for the requested day: a finished crawl writes the state code of its failure count, one that raised writes 400 before re-raising; the end time is one day after the start, and every written document is published on the requested day or has no publication time |
| Text.DedupProperties | apps/crawler/main.py:116 | order-preserving de-duplication (`list(dict.fromkeys(...))`) keeps no element twice, keeps exactly the elements of its input, and keeps them in the order of their first occurrences |
| PredictKeyword.MaskKept | apps/analyzer/predict_issue_keyword.py:28-35 | after the `_keep_re` substitution every character is an ASCII letter or digit, a Hangul syllable or whitespace |
| PredictKeyword.NormalizeForPredictClean | apps/analyzer/predict_issue_keyword.py:31-37 | `normalize_for_predict` returns only ASCII letters and digits, Hangul syllables and single spaces between words, with no space at either end |
| PredictKeyword.NormalizeForPredictProperties | apps/analyzer/predict_issue_keyword.py:31-37 | a missing or blank text normalises to the empty string, and normalising a normalised text changes nothing |
| PredictKeyword.BulkUpdateNewsKeywords | apps/analyzer/predict_issue_keyword.py:107-127 | `updated` is the number of rows whose per-item flag is true, `updated + failed` is the number of rows, and at most five failures are printed |
| PredictKeyword.UpdatesFor | apps/analyzer/predict_issue_keyword.py:92-105 | one update action per row, in order, targeting the row's document id and carrying the label predicted for its text |
| PredictKeyword.FlushPredict | apps/analyzer/predict_issue_keyword.py:206-218 | `_flush_predict` updates exactly the documents whose update succeeds, whatever labels are predicted, and counts every other one as failed |
| PredictKeyword.UpdatesCounted | apps/analyzer/predict_issue_keyword.py:214-218 | the number of updated rows depends only on which document ids update successfully, not on the predicted labels |
| PredictKeyword.ReadIsEmptyPlusSent | apps/analyzer/predict_issue_keyword.py:162-171 | every document read is either counted as empty or appended to the prediction buffer |
| PredictKeyword.PushCandidate | apps/analyzer/predict_issue_keyword.py:170-180 | appending one text keeps the buffer below `batch_size` by flushing it when it reaches `batch_size`, and the flushed plus buffered texts grow by exactly that text |
| PredictKeyword.ScanOne | apps/analyzer/predict_issue_keyword.py:162-180 | one step of the range loop keeps the read count, the empty count and the flushed and buffered texts in step with the documents read so far |
| PredictKeyword.PredictLoop | apps/analyzer/predict_issue_keyword.py:154-187 | every scanned document is read; the empty ones are counted; the rest are flushed in batches of `batch_size` plus one shorter remainder, and `updated + failed` is the number flushed (the loop in 289-313 is the same) |
| PredictKeyword.FlushRest | apps/analyzer/predict_issue_keyword.py:182-187 | the remainder is flushed only when non-empty, after which the flushed batches are the chunks of all texts sent |
| PredictKeyword.BatchesProperties | apps/analyzer/predict_issue_keyword.py:173-187 | each flushed batch is non-empty and at most `batch_size` long, and the batches together are the non-empty texts in order |
| PredictKeyword.PredictIssueKeywordRange | apps/analyzer/predict_issue_keyword.py:146-194 | `total_read` is the number of scanned documents, `total_read = total_empty + updated + failed`, and `missing_clean = max(0, total_news - total_clean)` |
| PredictKeyword.MissingPlusFound | apps/analyzer/predict_issue_keyword.py:238-246 | every returned `mget` entry is counted as missing or kept as found, and each kept entry was found and is one of the returned entries |
| PredictKeyword.AbsorbResponse | apps/analyzer/predict_issue_keyword.py:238-246 | the loop over one `mget` response adds its not-found entries to `missing` and appends its found entries to `found` in response order |
| PredictKeyword.FetchCleanTextByIds | apps/analyzer/predict_issue_keyword.py:226-248 | `fetch_clean_text_by_ids` returns the count of not-found entries and the found entries, in response order, over one `mget` per chunk of ids |
| PredictKeyword.PredictIssueKeywordIds | apps/analyzer/predict_issue_keyword.py:251-313 | `input_ids` is the number of ids given; the missing entries plus those read are all the `mget` entries; the read ones are the empty ones plus the updated plus the failed |
| PredictKeyword.MgetCoversIds | apps/analyzer/predict_issue_keyword.py:221-223 | with a positive size the `_chunked` pieces concatenate back to the id list, and each is non-empty and at most `mget_size` long |
| PredictKeyword.MissingKeywordsWindowOneDay | apps/analyzer/predict_issue_keyword.py:330-331 | `find_missing_keywords` searches from the date's midnight to the next day's midnight, both at +09:00, the same window as the analyzer's daily run |
| Text.ChunksProperties | apps/analyzer/predict_issue_keyword.py:221-223 | the chunks of a list concatenate back to it; each chunk is non-empty and no longer than the size, and every chunk but the last is exactly the size |
| KeywordCount.AggregateKeywords | test_html/apps/analyzer/ranking.py:52-53 | one (keyword, count) pair per terms bucket, in bucket order; no pairs when the response has no `by_keyword` buckets |
| KeywordCount.DocIdInjective | test_html/apps/analyzer/ranking.py:12-18 | for the fixed-width `YYYY-MM-DD` date, the text the document id is hashed from determines both the date and the keyword, so different (date, keyword) pairs never share it |
| KeywordCount.WriteIssueKeywordCount | test_html/apps/analyzer/ranking.py:56-105 | exactly one `index` action per pair, in order, with id from (date, keyword) and source (date, keyword, count); `ok` counts the items whose status is 200 or 201, `ok + fail` is the number of items and `total` the number of actions |
| KeywordCount.WrittenIds | test_html/apps/analyzer/ranking.py:68-80 | the documents the actions write are keyed by exactly the actions' ids |
| KeywordCount.ApplyAllOk | test_html/apps/analyzer/ranking.py:72 | when every item succeeds, the index afterwards is the old index with the written documents put over it, the last action per id winning |
| KeywordCount.RerunOverwrites | test_html/apps/analyzer/ranking.py:72 | running the same successful bulk again leaves the index as the first run left it: a rerun overwrites, it does not duplicate |
| KeywordCount.StrictDate | test_html/apps/analyzer/ranking.py:119 | the strict date is the first ten characters of `start_dt`, or all of it when it is shorter |
| KeywordCount.RunIssueKeywordCount | test_html/apps/analyzer/ranking.py:108-127 | the run writes the aggregated pairs under the strict date: every action's source date is that date, and its id comes from that date and its keyword |
| KeywordRanking.MonthStartEnd | apps/service/keyword_ranking_module/keyword_ranking.py:19-23 | `_month_start_end` gives day 1 of the month of `d` and a last day in the same month whose next day starts another month |
| KeywordRanking.PrevMonthAnchor | apps/service/keyword_ranking_module/keyword_ranking.py:26-31 | `_prev_month_anchor` gives day 1 of the month exactly one month before, January going to December of the year before |
| KeywordRanking.YearStartEnd | apps/service/keyword_ranking_module/keyword_ranking.py:34-36 | `_year_start_end` gives 1 January and 31 December of the year of `d` |
| KeywordRanking.PrevSameLengthRange | apps/service/keyword_ranking_module/keyword_ranking.py:39-47 | `_prev_same_length_range` ends the day before `start` and covers the same inclusive number of days |
| KeywordRanking.MonthWindowsAdjacent | apps/service/keyword_ranking_module/keyword_ranking.py:166-170 | in month mode the comparison month ends the day before the base month starts |
| KeywordRanking.YearWindowsAdjacent | apps/service/keyword_ranking_module/keyword_ranking.py:175-178 | in year mode the comparison year ends the day before the base year starts |
| KeywordRanking.RoundHalfEven | apps/service/keyword_ranking_module/keyword_ranking.py:63 | Python's `round` of a quotient is within one half of the exact quotient, and at an exact half it is the even neighbour |
| KeywordRanking.ChangeRateProperties | apps/service/keyword_ranking_module/keyword_ranking.py:54-63 | `calc_change_rate` is None exactly when the previous count is 0, is 0 when the counts are equal, and with a positive previous count has the sign of the change |
| KeywordRanking.CalcRankChange | apps/service/keyword_ranking_module/keyword_ranking.py:66-76 | `calc_rank_change` is None exactly when there is no previous rank, and otherwise previous rank minus current rank |
| KeywordRanking.GetBadge | apps/service/keyword_ranking_module/keyword_ranking.py:79-92 | `_get_badge` is NEW exactly when either input is None; otherwise UP, DOWN or SAME exactly by the sign of the rank change |
| KeywordRanking.PlanWindows | apps/service/keyword_ranking_module/keyword_ranking.py:121-184 | a start after the end is an error; day mode with start and end different is an error; an unknown mode is an error; a comparison window that would start before 0001-01-01 (the day before 0001-01-01, a week window reaching past it, the month before January of year 1, the year before year 1) raises, and only then; otherwise range mode alone has no comparison window, and every comparison window ends the day before the base window starts |
| KeywordRanking.PrevRank | apps/service/keyword_ranking_module/keyword_ranking.py:189 | the previous rank of a keyword is its 1-based position in the comparison list, the last one when it appears twice, and None exactly when it does not appear |
| KeywordRanking.RankItems | apps/service/keyword_ranking_module/keyword_ranking.py:195-220 | one item per base entry in base order, ranked 1 to n; in range mode rate, move and badge are None; otherwise they come from the keyword's previous rank and count |
| KeywordRanking.RankedItemBadge | apps/service/keyword_ranking_module/keyword_ranking.py:205-211 | outside range mode a ranked keyword is NEW exactly when it is missing from the comparison list or its previous count is 0, and UP exactly when it has a non-zero previous count and climbed |
| KeywordRanking.HitsToItems | apps/service/keyword_ranking_module/keyword_ranking.py:236-249 | one item per hit, in order, with the hit's keyword and its count, a missing or null count read as 0 |
| TrendRanking.PrepareNews | test_model/1_2_build_trend_ranking.py:35-40 | `load_and_prepare_news` keeps, in order, exactly the articles whose stripped `title + " " + body` (missing ones read as "") is longer than 10 characters |
| TrendRanking.EmptyArticleDropped | test_model/1_2_build_trend_ranking.py:35-40 | an article with neither title nor body is always dropped |
| TrendRanking.RankMonthProperties | test_model/1_2_build_trend_ranking.py:67-71 | within a month the ranks run 1 to n in row order, a better rank never has a smaller count, and the ranked rows are a permutation of the month's (keyword, count) pairs |
| TrendRanking.ConsecutiveGapIsNextMonth | test_model/1_2_build_trend_ranking.py:79-99 | for real months the gap test on `year * 100 + month` (1, 87, 88 or 89) holds exactly when the second month is the calendar month after the first |
| TrendRanking.MoveFromCases | test_model/1_2_build_trend_ranking.py:94-113 | a row is new exactly when its keyword has no previous row or the previous row is not from the month before; otherwise up, down or same exactly by the rank comparison, up and down carrying a positive number of places |
| TrendRanking.History | test_model/1_2_build_trend_ranking.py:85 | one keyword's group holds only rows of that keyword, in table order |
| TrendRanking.HistoryByMonth | test_model/1_2_build_trend_ranking.py:76-86 | in a table sorted by (year, month, rank) with one row per (month, keyword), each keyword's rows are already in increasing month order, so sorting the group by `ym` keeps it |
| TrendRanking.AsWrittenLength | test_model/1_2_build_trend_ranking.py:81-118 | the move lists of all keyword groups together are exactly as long as the table, so the column assignment does not fail |
| TrendRanking.KeywordMoves | test_model/1_2_build_trend_ranking.py:86-116 | one keyword group's loop gives the first row new and compares each later row with the row before it |
| TrendRanking.BuildMonthlyMovesAsWritten | test_model/1_2_build_trend_ranking.py:81-119 | `build_monthly_ranking` as written: the moves are computed group after group and stored by position on the rows in (year, month, rank) order |
| TrendRanking.AsWrittenMisassigns | test_model/1_2_build_trend_ranking.py:85-119 | a three-row table on which the positional assignment gives a row another row's move: January's "a" is stored as up by one although it is new |
| TrendRanking.LastWithHistory | test_model/1_2_build_trend_ranking.py:87-116 | the last earlier row of a keyword is the last entry of the keyword's group so far, and there is none exactly when the group is empty |
| TrendRanking.TracksLastStep | test_model/1_2_build_trend_ranking.py:94-116 | recording each row as its keyword's latest keeps the map equal to "the latest row of each keyword seen", and the move read from the map is the intended one |
| TrendRanking.NextTrend | test_model/1_2_build_trend_ranking.py:90-116 | one row's step gives that row the move from its own keyword's previous row and records it as the keyword's latest |
| TrendRanking.BuildMonthlyMoves | test_model/1_2_build_trend_ranking.py:81-119 | corrected `build_monthly_ranking`: every row of the ranking table carries the move computed from its own keyword's previous row |
| TrendRanking.IntendedFollowsHistory | test_model/1_2_build_trend_ranking.py:85-116 | the corrected move of each row is exactly the move the per-keyword loop computes for that row in its keyword's group |
| TrendRanking.HistoryAt | test_model/1_2_build_trend_ranking.py:85-116 | a row sits in its keyword's group directly after that keyword's previous row, and first exactly when there is none |
| SubKeywords.WindowIsOneDay | apps/analyzer/1_2_build_trend_ranking.py:20-23 | `END_AT` is midnight at +09:00 of the calendar day after `DATE`, and `START_AT` is midnight of `DATE` itself, so the window covers one day |
| SubKeywords.ValidTokenIff | apps/analyzer/1_2_build_trend_ranking.py:78-93 | `is_valid_token` is true exactly for tokens of two or more characters that are no stopword and not all digits |
| SubKeywords.KeepTermIsValidToken | apps/analyzer/1_2_build_trend_ranking.py:65-71 | the term test inside `extract_sub_keywords` accepts exactly the words `is_valid_token` accepts |
| Text.Take | apps/analyzer/1_2_build_trend_ranking.py:73-74 | the first `n` elements, or all of them when there are fewer: a prefix of the input of length `min(n, len)`, none for a negative count; the same slice selects `json_paths[:MAX_FILES]` at test_model/2_1_preprocess_aihub_trust.py:60-62 |
| SubKeywords.TakeTerms | apps/analyzer/1_2_build_trend_ranking.py:64-76 | the loop keeps the accepted terms in order and stops once `top_n` are kept; because the test follows the append, it keeps at least one term even for a `top_n` below 1 |
| SubKeywords.KeptPrefix | apps/analyzer/1_2_build_trend_ranking.py:64-74 | the terms kept from a prefix of the sorted list are a prefix of the terms kept from the whole list, which makes the early exit sound |
| SubKeywords.KeptProperties | apps/analyzer/1_2_build_trend_ranking.py:64-72 | every kept term passes the filter and comes from the input, and filtering keeps a descending score order |
| SubKeywords.ExtractSubKeywords | apps/analyzer/1_2_build_trend_ranking.py:44-76 | no texts give []; otherwise the result is the first `top_n` accepted terms of the scored terms sorted by descending score |
| SubKeywords.SubKeywordsProperties | apps/analyzer/1_2_build_trend_ranking.py:44-76 | for a positive `top_n` at most `top_n` terms; every term is a valid token and one of the scored terms; scores never increase along the result |
| SubKeywords.FetchTextsByIssue | apps/analyzer/1_2_build_trend_ranking.py:138-182 | `fetch_texts_by_issue` reads only the first page of hits, since the loop always breaks, and returns the non-empty stripped `title body` texts in hit order |
| SubKeywords.NullTitleReadsNone | apps/analyzer/1_2_build_trend_ranking.py:174 | a hit whose title is JSON null renders as the text "None" and is kept rather than skipped |
| Sorting.SortDesc | apps/analyzer/1_2_build_trend_ranking.py:58-62 | sorting by score with `reverse=True` gives the same elements, as a permutation, in non-increasing score order |
| Sorting.SortDescStable | apps/analyzer/1_2_build_trend_ranking.py:58-62 | Python's sort is stable: for every score, the items carrying that score appear in the result in the same order as in the input |
| Dashboard.IssueWordcloud | apps/service/image_module/dashboard.py:18-58 | success with status 200 exactly when the lookup succeeds with non-empty sub-keywords, which are then returned with the doc id; otherwise 404 with no sub-keywords, and a doc id only when the lookup did not raise |
| Dashboard.PivotCells | apps/service/image_module/dashboard.py:107-110 | `data_by_date` has a row for exactly the hit dates, a cell for exactly the (date, keyword) pairs some hit has, and each cell holds the count of the last such hit |
| Dashboard.LastCountHit | apps/service/image_module/dashboard.py:107-110 | a (date, keyword) cell has a count exactly when some hit is for that date and keyword |
| Dashboard.PivotKeywords | apps/service/image_module/dashboard.py:107-117 | every hit's keyword appears in its date's row, and every keyword of a row comes from a hit |
| Dashboard.BuildPivot | apps/service/image_module/dashboard.py:107-110 | the loop over the hits builds exactly the pivot of the hits in order, later hits overwriting earlier ones |
| Dashboard.KeywordTrend | apps/service/image_module/dashboard.py:63-132 | a raised search answers 500; no hits answers no data; otherwise dates and keywords are the sorted distinct hit dates and keywords, and each keyword's series has one entry per date holding the pivot cell, 0 when absent |
| Dashboard.TrendProperties | apps/service/image_module/dashboard.py:112-124 | the dates and keywords are strictly increasing and are exactly those of the hits, and a series entry is the count of the last hit for its (date, keyword), or 0 when there is none |
| Dashboard.LaterHitWins | apps/service/image_module/dashboard.py:110 | of two hits for the same date and keyword, the later count is the one shown |
| Sorting.SortedDistinctProperties | apps/service/image_module/dashboard.py:112-117 | `sorted` of a set of strings gives each element once, in strictly increasing code-point order, and exactly the elements of the input |
| BatchDb.WorkAtRequired | apps/crawler/db.py:28-31 | `_work_at_to_sql_date` raises exactly for a missing value or one made only of whitespace |
| BatchDb.WorkAtCompact | apps/crawler/db.py:33-34 | an eight-digit `YYYYMMDD` becomes `YYYY-MM-DD`: removing the two dashes gives the digits back, and the compact text of a date becomes that date's ISO text |
| BatchDb.WorkAtOther | apps/crawler/db.py:35 | any other non-blank value is returned stripped and otherwise unchanged |
| BatchDb.WorkAtIdempotent | apps/crawler/db.py:28-35 | converting an already converted value gives the same value |
| BatchDb.NaiveKeepsWallClock | apps/crawler/db.py:37-40 | `_naive_datetime` keeps None as None, drops the zone of an aware value without shifting its date or time of day, and returns a naive value unchanged |
| BatchDb.BatchRuns.constructor | apps/crawler/db.py:46-53 | an empty `batch_runs` table whose next auto-increment id is 1 |
| BatchDb.BatchRuns.CreateBatchRun | apps/crawler/db.py:42-69 | `create_batch_run` raises before any write when `work_at` is blank; otherwise it inserts exactly one row under a new id, with the converted `work_at`, the naive start, no end time, state 300 and no message, and returns that id |
| BatchDb.BatchRuns.FinishBatchRun | apps/crawler/db.py:76-100 | `finish_batch_run` sets the end time (made naive), the state, the message and the update time of the row with that id, changes no other row, and changes nothing for an unknown id |
| BatchDb.CreateThenFinish | apps/crawler/db.py:42-100 | a run created and then finished is one row carrying its job name, its naive start, its naive end and the final state code |
| AihubPreprocess.Digits | test_model/2_1_preprocess_aihub_trust.py:30 | `str()` of a natural number is a non-empty string of decimal digits |
| AihubPreprocess.SafeGetCases | test_model/2_1_preprocess_aihub_trust.py:26-30 | `safe_get` is "" for a missing key or a null value, the string itself for a string value, and `str(v)` for any other value |
| AihubPreprocess.SpaceBreaks | test_model/2_1_preprocess_aihub_trust.py:34 | the two replacements turn exactly the `\n` and `\r` characters into spaces and change nothing else |
| AihubPreprocess.CleanTextProperties | test_model/2_1_preprocess_aihub_trust.py:33-34 | `clean_text` gives single spaces between words and no whitespace at either end, keeps the input's words, and is idempotent |
| AihubPreprocess.CleanTextCollapsed | test_model/2_1_preprocess_aihub_trust.py:33-34 | the output of `clean_text` has single inner spaces and no whitespace at either end |
| AihubPreprocess.NoBreaksUnchanged | test_model/2_1_preprocess_aihub_trust.py:34 | a collapsed text contains no line break, so the replacements leave it unchanged |
| AihubPreprocess.SentenceTexts | test_model/2_1_preprocess_aihub_trust.py:41-45 | the collected sentences are at most as many as the sentences; a sentence that is not an object raises |
| AihubPreprocess.ExtractContent | test_model/2_1_preprocess_aihub_trust.py:37-49 | `extract_content` joins with single spaces the cleaned truthy `sentenceContent` values when `sentenceInfo` is a non-empty list, and otherwise returns the cleaned `newsContent` |
| AihubPreprocess.CollectSentences | test_model/2_1_preprocess_aihub_trust.py:41-45 | the sentence loop appends the cleaned content of each sentence whose content is truthy, in order, and raises at the first sentence that is not an object |
| AihubPreprocess.SentenceTextsError | test_model/2_1_preprocess_aihub_trust.py:42-43 | once a sentence raises, the later sentences do not change the outcome |
| AihubPreprocess.SentenceTextsProperties | test_model/2_1_preprocess_aihub_trust.py:41-46 | every collected piece is a cleaned text, and when no sentence has truthy content nothing is collected |
| AihubPreprocess.Label | test_model/2_1_preprocess_aihub_trust.py:87-89 | a record passes the `useType` test only with the value 0 or 1 (booleans compare equal to these), and its label is that value |
| AihubPreprocess.FileRows | test_model/2_1_preprocess_aihub_trust.py:68-95 | the file loop produces at most one row per file read |
| AihubPreprocess.Preprocess | test_model/2_1_preprocess_aihub_trust.py:52-108 | no files found writes nothing; otherwise the selected files are read in order, the first one that raises ends the run, and the CSV is written exactly when at least one row was produced |
| AihubPreprocess.FileRowsError | test_model/2_1_preprocess_aihub_trust.py:68-70 | once a file raises, the later files do not change the outcome |
| AihubPreprocess.SelectedPathsProperties | test_model/2_1_preprocess_aihub_trust.py:54-64 | at most `MAX_FILES` files are read, in increasing path order, each one found by the glob; any found path left out sorts after every selected one, and none is left out when there are no more than `MAX_FILES` |
| AihubPreprocess.RowOfProperties | test_model/2_1_preprocess_aihub_trust.py:72-95 | a row comes only from a record with `sourceDataInfo`, a category matching the filter when one is set, and a `useType` of 0 or 1; its label is that value, its title the cleaned title, its content the extracted content |
| RangeDates.ParseGrain | apps/service/static/main.js:1578-1589 | the string compares on a grain text: "day", "week", "month" and "year" pick their grain and every other text falls through to the free range (the plain end day in `calcStartByGrain`) |
| RangeDates.ParseGrainName | apps/service/static/main.js:1578-1589 | reading back the name of any grain gives that grain |
| RangeDates.ActiveMode | apps/service/static/main_c.js:91-94 | `getActiveMode` reads the free range exactly when no tab is active or the tab's `data-grain` is not one of the four grains, and otherwise that tab's grain (same in apps/service/static/main.js:97-100) |
| RangeDates.ActiveGrain | apps/service/static/main.js:1558-1560 | `getActiveGrain` reads "day" when no tab is active (same for `getActiveGrainForChart` at apps/service/static/main_c.js:95-98) |
| RangeDates.ActiveReadingsAgree | apps/service/static/main_c.js:91-98 | `getActiveMode` and `getActiveGrainForChart` disagree exactly when no tab is active or its `data-grain` is empty, and then the mode is the free range while the grain is "day" |
| RangeDates.ParseIso | apps/service/static/main.js:37-41 | a parsed `YYYY-MM-DD` value is a supported date whose ISO text is exactly the input; anything else (empty input included) is null |
| RangeDates.ParseIsoOfIso | apps/service/static/main.js:36-41 | parseISO of toISO of any supported date gives the date back |
| RangeDates.IsoLess | apps/service/static/main.js:1563-1566 | comparing two ISO date strings as JavaScript compares strings orders them exactly as the calendar does, which is what the `inputISO > yesterdayISO` test relies on |
| RangeDates.ClampEndToYesterday | apps/service/static/main.js:1563-1566 | the end text is either yesterday or the typed text, never anything else |
| RangeDates.EndOfInput | apps/service/static/main.js:1563-1566 | a typed end after yesterday becomes yesterday, an end on or before yesterday is kept, and an empty end becomes yesterday |
| RangeDates.EndOf | apps/service/static/main.js:1596-1603 | the end date an emit uses is a supported date no later than yesterday |
| RangeDates.CalcStartByGrain | apps/service/static/main.js:1578-1589 | day and free range start at the end, week starts six days before (seven days in all), month one calendar month before with the day clamped to the month's length, year the clamped date a year before |
| RangeDates.CalcStartNotAfterEnd | apps/service/static/main.js:1578-1589 | the preset start of every grain lies on or before the end |
| RangeDates.CalcPrevSameLength | apps/service/static/main.js:1570-1576 | the previous period ends the day before the start and spans the same number of days as the current one; it is absent only when it would fall before the first supported date |
| RangeDates.PrevRangeBefore | apps/service/static/main.js:1570-1576 | the previous period is an ordered range lying wholly before the current start |
| RangeDates.StartText | apps/service/static/main.js:1605-1617 | after an emit the start input shows the start date whenever a preset applied or the typed start parsed |
| RangeDates.PublishedRangeProperties | apps/service/static/main.js:1592-1634 | the published range is ordered and ends no later than yesterday; a preset start is the tab's start; a typed start is kept unless it lies after the end, when it becomes the end; an unparseable start becomes the end |
| RangeDates.PublishedPrevBefore | apps/service/static/main.js:1624-1632 | the published previous period, when present, is ordered and ends before the published start |
| RangeDates.RangeControl.constructor | apps/service/static/main.js:1508-1510 | before the first emit nothing is published and the range is not locked |
| RangeDates.RangeControl.ShowEnd | apps/service/static/main.js:1596-1621 | an emit sets the end input's max to yesterday, its value to the clamped end, its min to the start, and the start input's max to the end, and changes nothing else |
| RangeDates.RangeControl.ShowStart | apps/service/static/main.js:1605-1634 | the start input shows the given text and the record is published, nothing else changes |
| RangeDates.RangeControl.Publish | apps/service/static/main.js:1592-1634 | one emit publishes the range computed from the inputs as they were, and leaves the inputs and their bounds as the range says |
| RangeDates.RangeControl.EmitRangeChange | apps/service/static/main.js:1592-1634 | emitRangeChange publishes the range of the previous inputs, clamps the end input to yesterday, bounds each input by the other, and with a preset writes the preset start into the start input; the same function is main_b.js 915-968 |
| RangeDates.RangeControl.EmitRangeChangeByMode | apps/service/static/main_c.js:124-164 | the main_c.js variant applies a preset only while a tab is active and records the active mode with the range |
| RangeDates.RangeControl.ChartGrain | apps/service/static/main_c.js:95-98 | the chart grain is the active tab, or day when none is active; it is never the free range |
| RangeDates.RangeControl.DateTyped | apps/service/static/main_b.js:851-858 | typing into either date input locks the range and then emits without a preset (the listeners of main_b.js 970-974) |
| RangeDates.RangeControl.TabClicked | apps/service/static/main_b.js:978-988 | a tab click emits with the preset exactly when the user has not locked the range, and the lock itself is left as it was |
| Calendar.DaysInMonth | apps/service/static/main.js:53-55 | a month has 28 to 31 days, 29 exactly for February of a leap year and 28 exactly for February of a common year |
| Calendar.NextDay | apps/service/static/main.js:47-51 | the following calendar day is one ordinal later and after the date |
| Calendar.AddDays | apps/service/static/main.js:47-51 | adding k days moves the ordinal by exactly k |
| Calendar.OrdinalMonotone | apps/service/static/main.js:47-51 | day ordinals order dates as the calendar does |
| Calendar.OrdinalInjective | apps/service/static/main.js:47-51 | two valid dates with the same ordinal are the same date |
| Calendar.JsWeekday | apps/service/static/main.js:1709-1728 | getDay() is a weekday number from 0 (Sunday) to 6 |
| Calendar.AddMonthsClamp | apps/service/static/main.js:82-94 | the result lies exactly delta months away and keeps the day, or takes the last day of the target month when the day does not exist there |
| Calendar.AddYearsClamp | apps/service/static/main.js:57-65 | the result keeps month and day delta years away, except that 29 February becomes the 28th in a common year |
| Calendar.MarchEndBackOneMonth | apps/service/static/main.js:82-94 | going back one month from 31 March gives the last day of February |
| Calendar.YearsAreTwelveMonths | apps/service/static/main.js:57-94 | moving by whole years with addYearsClamp and by twelve times as many months with addMonthsClamp agree |
| Calendar.Pad | apps/service/static/main.js:35 | pad2 gives exactly the width in decimal digits |
| Calendar.PadValue | apps/service/static/main.js:35 | reading a padded number back gives the number |
| Calendar.IsoDate | apps/service/static/main.js:36 | toISO gives ten characters with dashes at positions 4 and 7 |
| Calendar.IsoDateRoundTrip | apps/service/static/main.js:36-41 | formatting a date as YYYY-MM-DD and parsing it back gives the date |
| TrendBuckets.WeekdayOf | apps/service/static/main.js:1717 | getDay() of a day is its day number modulo seven |
| TrendBuckets.Monday | apps/service/static/main.js:1715-1722 | the week bucket's Monday lies zero to six days before the day and is itself a Monday |
| TrendBuckets.MondayBack | apps/service/static/main.js:1717-1720 | the Monday is exactly (getDay() + 6) % 7 days back, as the source computes it |
| TrendBuckets.MondayIsMonday | apps/service/static/main.js:1715-1722 | getDay() of the week bucket's day is 1 |
| TrendBuckets.DayKeyInjective | apps/service/static/main.js:1706-1713 | two days with the same ISO key are the same day |
| TrendBuckets.MonthTextInjective | apps/service/static/main.js:1724 | two YYYY-MM keys are equal exactly when year and month are |
| TrendBuckets.BucketKeyMeaning | apps/service/static/main.js:1709-1728 | two days share a bucket key exactly when they are the same day (day grain and unknown grain), fall in the same Monday-started week, the same month or the same year |
| TrendBuckets.Days | apps/service/static/main.js:1736-1738 | the days from s to e inclusive, one after another, none when s is after e |
| TrendBuckets.MakeFullDateObjs | apps/service/static/main.js:1731-1740 | the loop builds exactly the days between the two parsed bounds, the bounds swapped when reversed and nothing when a bound does not parse |
| TrendBuckets.DayRange | apps/service/static/main.js:1736-1738 | stepping one day at a time from s while not past e yields every day from s to e in order |
| TrendBuckets.Keys | apps/service/static/main.js:1753-1754 | one bucket key per day, in the days' order |
| TrendBuckets.LabelsProperties | apps/service/static/main.js:1748-1759 | the chart labels are distinct, and a text is a label exactly when some day of the range falls in that bucket |
| TrendBuckets.DayLabels | apps/service/static/main.js:1748-1759 | for the day grain the labels are the range's own days, one each |
| TrendBuckets.DayKeysDistinct | apps/service/static/main.js:1753-1759 | consecutive days never share a day key |
| TrendBuckets.CollectLabels | apps/service/static/main.js:1750-1759 | the label loop keeps each bucket key the first time a day produces it |
| TrendBuckets.FirstSeen | apps/service/static/main.js:1750-1759 | keeping a key only when labelIndex has not seen it yields the keys without repeats in first-seen order |
| TrendBuckets.ServerKeys | apps/service/static/main.js:1766-1768 | each server date maps to its bucket key, or to nothing when the date does not parse |
| TrendBuckets.IndexOf | apps/service/static/main.js:1769 | labelIndex finds a key exactly when it is a label, and then at that label's position |
| TrendBuckets.Bucketed | apps/service/static/main.js:1764-1773 | one total per label, each the sum of the values of the server dates in that bucket |
| TrendBuckets.SumInto | apps/service/static/main.js:1764-1773 | the per-series loop adds each server value (0 past the series' end) into its bucket's slot and ends with exactly the per-label sums |
| TrendBuckets.BucketSeries | apps/service/static/main.js:1763-1774 | one keyword's series bucketed over the labels |
| TrendBuckets.AggregateTrendToGrain | apps/service/static/main.js:1743-1777 | the labels are the range's distinct buckets and every keyword of the input, and only those, gets its series summed into them |
| TrendBuckets.LabelTotalStep | apps/service/static/main.js:1766-1771 | one more server date adds its value once to the total over distinct labels, and only if its bucket is a label |
| TrendBuckets.BucketsConserve | apps/service/static/main.js:1766-1771 | over distinct labels the buckets together hold exactly the values of the dates whose bucket is a label, nothing counted twice |
| TrendBuckets.AggregatedTotal | apps/service/static/main.js:1743-1777 | every aggregated series adds up to the values of exactly those server dates that fall in a label, so regrouping neither loses nor invents counts |
| SentimentDonut.DonutByCounts | apps/service/static/main.js:1422-1440 | the donut is empty exactly when the total count is not positive; otherwise the negative share is never below zero |
| SentimentDonut.FloorShareOf | apps/service/static/main.js:1438-1439 | Math.floor of a count's share of 100 is its exact share rounded down |
| SentimentDonut.DonutSumsTo100 | apps/service/static/main.js:1437-1440 | for counts not all zero the three shares add up to exactly 100: positive and neutral are their exact shares rounded down, and negative is at least its exact share and less than two points above it |
| SentimentDonut.ShareBounds | apps/service/static/main.js:1437-1440 | two shares rounded down leave for the third between its exact share and two points more |
| SentimentDonut.SampleSent | apps/service/static/main_b.js:810-814 | every sample split adds up to 100 |
| SentimentDonut.RoundPctOf100 | apps/service/static/main_b.js:837-839 | a count out of 100 rounds to itself as a percentage |
| SentimentDonut.RenderDonutShowsSample | apps/service/static/main_b.js:835-845 | every keyword's donut shows its sample split exactly, and a keyword without a sample shows the split of the default keyword |
| CompareKeywords.Remove | apps/service/static/main.js:1941 | deleting from the set keeps every other keyword, drops that one and keeps the set free of repeats |
| CompareKeywords.ToggleFlips | apps/service/static/main.js:1938-1946 | a toggle flips the membership of the toggled keyword unless it is the base keyword, leaves every other keyword as it was, keeps the set free of repeats and keeps the base keyword out of it |
| CompareKeywords.ToggleTwice | apps/service/static/main.js:1938-1946 | toggling the same keyword twice leaves the same keywords in the set |
| CompareKeywords.InitialKeyword | apps/service/static/main.js:1987-1993 | the starting keyword is the trimmed hidden value when it is not empty, the default keyword when neither the hidden value nor the shown text is set, and never has surrounding white space |
| CompareKeywords.ButtonKeywords | apps/service/static/main.js:1958-1968 | the buttons are the first ten ranked keywords, or all of them when there are fewer |
| CompareKeywords.KeywordCompare.constructor | apps/service/static/main.js:1987-1993 | at start-up the base is the initial keyword and nothing is compared |
| CompareKeywords.KeywordCompare.SetBaseKeyword | apps/service/static/main.js:1926-1936 | a new base keyword clears the comparison; the same function is main_b.js 1182 |
| CompareKeywords.KeywordCompare.Toggle | apps/service/static/main.js:1938-1946 | the comparison set becomes the toggled set and the base keyword stays; the same function is main_b.js 1193 |
| CompareKeywords.KeywordCompare.RebuildButtons | apps/service/static/main.js:1958-1977 | the buttons are the first ten ranked keywords; a base keyword missing from them is replaced by the first button and the comparison cleared, otherwise the state is kept; afterwards the base has a button whenever there is any |
| CompareKeywords.KeywordCompare.Pressed | apps/service/static/main.js:1911-1924 | a button is pressed exactly when its keyword is the base or in the comparison |
| CompareKeywords.KeywordCompare.ChartKeywords | apps/service/static/main.js:1674-1675 | the chart draws the base keyword first and then the compared keywords in insertion order |
| CompareKeywords.KeywordCompare.ChartKeywordsDistinct | apps/service/static/main.js:1674-1675 | no keyword is drawn twice |
| Fnv.CharUnits | apps/service/static/main_c.js:687-688 | a character is one UTF-16 code unit below U+10000 and two otherwise |
| Fnv.SurrogatePair | apps/service/static/main_c.js:687-688 | an astral character becomes a high and a low surrogate that encode it |
| Fnv.Utf16RoundTrip | apps/service/static/main_c.js:687-688 | the code units that charCodeAt walks read back as the string, so the hash sees the whole string |
| Fnv.HashOfAppend | apps/service/static/main_c.js:686-690 | hashing a concatenation continues from the hash of the first part |
| Fnv.Hash32 | apps/service/static/main_c.js:685-692 | hash32 is an unsigned 32-bit number equal to the FNV-1a fold over the string's UTF-16 code units, each step an xor then a multiplication modulo 2 to the 32 |
| Fnv.HashOfA | apps/service/static/main_c.js:685-692 | "a" hashes to 0xe40c292c, the published FNV-1a value |
| ArticleList.HaystackIsLowered | apps/service/static/main.js:816-817 | lower-casing the three fields one by one is lower-casing the text that joins them |
| ArticleList.MatchesKeyword | apps/service/static/main.js:811-819 | with the filter off, or with a missing or blank keyword, every article matches |
| ArticleList.FieldMatches | apps/service/static/main.js:811-819 | an article whose press, title or summary contains the trimmed keyword, both lower-cased, matches |
| ArticleList.ShownProperties | apps/service/static/main.js:1131-1133 | the filter never empties the list: it is empty only when nothing was fetched; with the filter on and some article matching, exactly the matching articles are shown, otherwise all of them |
| ArticleList.CeilDiv | apps/service/static/main.js:1137 | Math.ceil of t over a positive size is the least q with t at most q times size |
| ArticleList.TotalPages | apps/service/static/main.js:1136-1137 | there is always at least one page |
| ArticleList.TotalPagesFit | apps/service/static/main.js:1136-1137 | the page count is the number of pages of ten that the server's total, or the shown count when the total is 0, needs: the last page is neither missing nor empty, and one page when there is nothing |
| ArticleList.ClampPage | apps/service/static/main.js:1140 | the page is clamped into 1 to the page count, kept when already inside, and set to the nearer end otherwise |
| ArticleList.PageOf | apps/service/static/main.js:1128-1143 | a successful load renders the shown articles on a page within the page count |
| ArticleList.FirstPages | apps/service/static/main.js:844 | every sentiment list starts at page 1 |
| ArticleList.ArticleLists.Requested | apps/service/static/main.js:1122 | the page asked for is the stored page of that list |
| ArticleList.ArticleLists.constructor | apps/service/static/main.js:842-845 | the keyword starts as the default keyword and every list at its first page |
| ArticleList.ArticleLists.LoadOne | apps/service/static/main.js:1118-1155 | after a successful fetch the requested page is clamped into the page count and stored for that list alone; after a failed one the failure is shown and no page changes |
| ArticleList.ArticleLists.PrevPage | apps/service/static/main.js:1160-1165 | the previous-page button moves that list one page back, never below 1, and leaves the others |
| ArticleList.ArticleLists.NextPage | apps/service/static/main.js:1167-1172 | the next-page button moves that list one page on and leaves the others; the next load clamps it |
| ArticleList.ArticleLists.SetKeyword | apps/service/static/main.js:1183-1187 | a new keyword is stored and every list goes back to its first page |
| ArticleList.ArticleLists.RangeChanged | apps/service/static/main.js:1192-1195 | a range change sends every list back to its first page and keeps the keyword |
| RankingView.NumText | apps/service/static/main.js:237 | the text of a number is never empty |
| RankingView.RateRoundTrip | apps/service/static/main.js:233-238 | a formatted rate reads back as the rate, and the dash of a missing rate reads back as no rate, so fmtRate loses nothing |
| RankingView.RateClassMatchesText | apps/service/static/main.js:233-245 | the colour class and the text agree: up exactly when the text starts with a plus, down exactly when it starts with a minus before digits |
| RankingView.MoveClassOfText | apps/service/static/main_b.js:57-62 | classing the shown move text as main_b.js does gives the class that main.js and main_c.js derive from the badge itself |
| RankingView.MoveTextShowsChange | apps/service/static/main.js:247-253 | for an UP or DOWN badge the arrow is followed by exactly the size of the rank change, 0 when it is missing |
| RankingView.RebuildDropdown | apps/service/static/main_c.js:333-352 | the options are the first ten keywords; the value is reset, to the first keyword, exactly when that keyword is not empty and the current value is missing, empty or not among the keywords |
| RankingView.DropdownValueListed | apps/service/static/main_c.js:333-352 | after a rebuild whose first keyword is not empty the shown value is one of the keywords |
| RankingView.SelectionProperties | apps/service/static/main_c.js:386-391 | the keyword selected after fetching the ranking is a listed keyword unless there is none to show; a kept selection that is still listed survives, otherwise the first keyword is taken |
| ChartLabels.Weeks | apps/service/static/main.js:1226 | every seventh day from the start while not after the end, (e - s) / 7 + 1 of them |
| ChartLabels.Bounds | apps/service/static/main.js:1208-1214 | the bounds exist exactly when both texts parse, and then come ordered, the earlier first |
| ChartLabels.MakeLabels | apps/service/static/main.js:1206-1244 | makeLabels returns nothing for a missing or unreadable bound or an unknown grain, and otherwise runs the loop of the grain between the ordered bounds; the same function is main_b.js 733 and main_c.js 653-682 |
| ChartLabels.DayLoop | apps/service/static/main.js:1220 | the day loop labels every day from s to e in order |
| ChartLabels.WeekLoop | apps/service/static/main.js:1226 | the week loop labels every seventh day from s while not after e |
| ChartLabels.MonthLoop | apps/service/static/main.js:1232-1234 | the month loop labels every month from the start's to the end's, each as YYYY-MM |
| ChartLabels.MonthStep | apps/service/static/main.js:1232 | one pass of the month loop labels the current month and moves to the first of the next |
| ChartLabels.NextMonth | apps/service/static/main.js:1232 | setMonth(getMonth() + 1) on a first of month gives the first of the following month |
| ChartLabels.YearLoop | apps/service/static/main.js:1239 | the year loop labels every year from the start's to the end's |
| ChartLabels.LabelsForSwap | apps/service/static/main.js:1214 | reversed bounds give the same labels |
| ChartLabels.DailyMatchesBuckets | apps/service/static/main.js:1219-1222 | the chart's day labels are exactly the day buckets that aggregateTrendToGrain sums into (lines 1743-1777), so every day's count has its label |
| ChartLabels.WeeklyLabelsCover | apps/service/static/main.js:1224-1228 | every day of the range lies in the seven days that begin at one week label |
| ChartLabels.WeeklyLabelsDistinct | apps/service/static/main.js:1224-1228 | the week labels are distinct |
| ChartLabels.MonthOfDayListed | apps/service/static/main.js:1230-1236 | the month of every day of the range is among the month labels |
| ChartLabels.MonthLabelHasDay | apps/service/static/main.js:1230-1236 | every month label is the month of some day of the range |
| ChartLabels.MonthlyLabelsDistinct | apps/service/static/main.js:1230-1236 | the month labels are distinct |
| ChartLabels.YearOfDayListed | apps/service/static/main.js:1238-1241 | the year of every day of the range is among the year labels |
| ChartLabels.YearLabelHasDay | apps/service/static/main.js:1238-1241 | every year label is the year of some day of the range |
| ChartLabels.YearlyLabelsDistinct | apps/service/static/main.js:1238-1241 | the year labels are distinct |
| SampleList.DateNum | test_html/apps/service/static/main.js:222 | a missing or empty date reads as 0 |
| SampleList.DateNumOfIso | test_html/apps/service/static/main.js:222 | an ISO date reads as its YYYYMMDD number, which is never 0 |
| SampleList.IsInRange | test_html/apps/service/static/main.js:224-231 | a date or bound that does not read as a number lets the article through |
| SampleList.IsInRangeOfDates | test_html/apps/service/static/main.js:224-231 | for well-formed dates the test is the calendar one: the date lies between the two bounds, in whichever order they were given, both ends included |
| SampleList.DataBySent | test_html/apps/service/static/main.js:388-395 | an article is kept exactly when it has the keyword, the sentiment and a date inside the range, and the kept ones are no more than the input |
| SampleList.TrustScore | test_html/apps/service/static/main.js:332-337 | the score is 2 exactly for a normal flag, 1 exactly for a suspect flag and 0 otherwise |
| SampleList.PrecedesAsymmetric | test_html/apps/service/static/main.js:339-356 | no two articles each precede the other under the sort's comparator |
| SampleList.NotPrecedesTransitive | test_html/apps/service/static/main.js:339-356 | not preceding is transitive, so every mode's comparator is a consistent order |
| SampleList.OrderOf | test_html/apps/service/static/main.js:339-356 | the comparator of every mode (most popular first, most trusted then latest first, latest first) is a strict weak order |
| SampleList.Insert | test_html/apps/service/static/main.js:339-356 | inserting adds exactly the one element and keeps the others |
| SampleList.InsertSorted | test_html/apps/service/static/main.js:339-356 | inserting into a sorted sequence keeps it sorted |
| SampleList.SortBy | test_html/apps/service/static/main.js:339-356 | sorting is a permutation of the input |
| SampleList.SortBySorted | test_html/apps/service/static/main.js:339-356 | the result of sorting is sorted under the comparator |
| SampleList.InsertStable | test_html/apps/service/static/main.js:339-356 | for a strict weak order, the elements of the result tied with any value are the inserted element (when it ties) followed by those of the input in their order: insertion goes before every element it ties with, as the insertion sort does |
| SampleList.SortByStable | test_html/apps/service/static/main.js:339-356 | for a strict weak order, sorting keeps the relative order of every group of mutually tied elements |
| SampleList.SortItemsSorted | test_html/apps/service/static/main.js:339-356 | sortItems returns a copy holding exactly the same articles, none after one it should precede under the mode's order, and items the order ties keep their input order (Array.prototype.sort is stable) |
| WordIndex.ChoNormInKoIndex | test_html/apps/service/static/word.js:41-46 | every one of the nineteen initial consonants folds onto one of the fourteen index buttons |
| WordIndex.InitialOf | test_html/apps/service/static/word.js:138 | the initial-consonant index of a syllable is one of the nineteen initials |
| WordIndex.SyllableIndex | test_html/apps/service/static/word.js:137-141 | every syllable is filed under one of the index buttons |
| WordIndex.ComposedSyllableIndex | test_html/apps/service/static/word.js:137-141 | a syllable composed from an initial, a medial and a final is filed under the folded initial, whatever the medial and final |
| WordIndex.SyllableIndexMonotone | test_html/apps/service/static/word.js:134-143 | syllables in code-point order are filed under buttons in the order of the index bar |
| WordIndex.KoIndexOf | test_html/apps/service/static/word.js:134-143 | a term gets a Korean index exactly when its trimmed text starts with a syllable, and the index is then an index button; the same function is html/word.js 154-163 and manager_word.js 170 |
| WordIndex.KoIndexUntrimmed | apps/service/static/word.js:134-144 | the service page's variant indexes exactly the terms whose untrimmed text starts with a syllable, always under an index button |
| WordIndex.KoIndexTrimAgrees | apps/service/static/word.js:134-144 | on a term without leading white space the trimming and the untrimmed variants agree |
| WordIndex.JsUpperHangul | test_html/apps/service/static/word.js:145-150 | upper-casing keeps a syllable as it is and makes no other character a syllable |
| WordIndex.EnIndexOf | test_html/apps/service/static/word.js:145-150 | an English index is the upper case of the trimmed term's first character and lies between A and Z; a term starting with an ASCII letter gets its capital, one starting with a digit or a syllable gets none |
| WordIndex.SharpSIndex | test_html/apps/service/static/word.js:145-150 | a term starting with the sharp s is indexed under the two letters SS, which no index button has |
| WordIndex.NumIndexOf | test_html/apps/service/static/word.js:152-156 | a term gets a number index exactly when its trimmed text starts with a digit, and the index is that digit |
| WordIndex.TabToSeg | test_html/apps/service/static/word.js:112-122 | a crawled tab that is not KOR, ENG or NUM in any case leaves the segment to the term's first character |
| WordIndex.GetSegment | apps/service/static/word.js:34-40 | a term is English exactly when its trimmed text starts with an ASCII letter, a number exactly when it starts with a digit, and Korean otherwise |
| WordIndex.GetSegmentIsDetectSeg | apps/service/static/word.js:34-40 | the service page and the term admin page (admin_terms.js 87-90) put every term in the same segment |
| WordIndex.DetectedSegHasKey | test_html/apps/service/static/admin_terms.js:87-97 | a term in the segment its first character decides always gets an index key: its capital, its digit, or for a Korean term a consonant exactly when it starts with a syllable |
| WordIndex.AdminKoIndexAsWritten | test_html/apps/service/static/admin_terms.js:65-73 | as written the admin page looks the initial's index up among the fourteen buttons, so a result, when there is one, is a button |
| WordIndex.AdminKoIndexMisfiles | test_html/apps/service/static/admin_terms.js:65-73 | as written a syllable with initial ㄴ is filed under ㄷ and one with initial ㅎ under nothing |
| WordIndex.AdminKoIndex | test_html/apps/service/static/admin_terms.js:65-73 | the corrected admin index equals the other pages' index, and files every composed syllable under its folded initial |
| WordIndex.AdminComputeIndex | test_html/apps/service/static/admin_terms.js:92-97 | the admin page's index of a term in a segment equals the dictionary pages' index key |
| WordJson.SkipSpace | test_html/apps/service/static/word.js:107 | the run of white space from a position ends at the first non-space or at the end |
| WordJson.LazyTerm | test_html/apps/service/static/word.js:107 | the lazy first group ends where the rest of the pattern matches |
| WordJson.SplitKeyword | test_html/apps/service/static/word.js:105-110 | the term and the English name come out trimmed |
| WordJson.LazyTermReaches | test_html/apps/service/static/word.js:107 | the lazy group stops at the first length after which the parenthesised tail matches |
| WordJson.SplitKeywordPair | test_html/apps/service/static/word.js:105-110 | a keyword of the form X (Y) splits into the term X and the English name Y, trimmed |
| WordJson.SplitKeywordPlain | test_html/apps/service/static/word.js:105-110 | a keyword without an opening parenthesis is all term, with no English name |
| WordJson.SplitBlank | test_html/apps/service/static/word.js:193-194 | splitting on blank lines gives at least one piece |
| WordJson.TrimmedNonEmpty | test_html/apps/service/static/word.js:195-196 | every piece kept is trimmed and not empty |
| WordJson.Paragraphs | test_html/apps/service/static/manager_word.js:387-392 | every paragraph of a body is trimmed and not empty |
| WordJson.ParagraphRoundTrip | test_html/apps/service/static/manager_word.js:384-392 | editing a body as text and saving it unchanged gives the same paragraphs back |
| WordJson.YearSuffix | test_html/apps/service/static/word.js:128 | the last two digits of the year, which read back as the year modulo 100 |
| WordJson.FormatUpdatedAt | test_html/apps/service/static/word.js:124-132 | the label is empty exactly when the text is not a date |
| WordJson.FormatUpdatedAtReadsBack | test_html/apps/service/static/word.js:124-132 | the label reads back as the date: the year's last two digits, the month and the day, then the edited mark |
| WordJson.WordOfRow | test_html/apps/service/static/word.js:185-201 | a row becomes the word whose id is the prefixed trimmed term id, or a random one when it has none, whose term, English name, segment, body and index key are those the helpers give |
| WordJson.LoadRows | test_html/apps/service/static/word.js:179-204 | the loop with its seen set keeps, for each id, the word of the first row with that id, in file order |
| WordJson.LoadedWordsFirstWin | test_html/apps/service/static/word.js:179-204 | the loaded ids are distinct, every row's id appears, and each with the word of its first row |
| WordJson.LoadDictionaryWords | test_html/apps/service/static/word.js:172-205 | the dictionary page loads words exactly when the response is ok and a top-level array, and then they are the first row per id |
| WordJson.LoadManagerWords | test_html/apps/service/static/manager_word.js:198-246 | the word manager loads words exactly when the response is ok and holds a top-level array or an array under data, words or items, taken in that order, and then they are the first row per id |
| WordPage.FindWord | apps/service/static/word.js:340 | a word is found exactly when some loaded word has the id, and the word found is the first of them with that id, as `find` returns the first match |
| WordPage.LoadSaved | html/word.js:125-137 | a saved bookmark array loads back unchanged, and a missing, unparsable or non-array entry loads as no bookmarks |
| WordPage.Toggled | html/word.js:143-148 | toggling removes every copy of a bookmarked id and puts an absent id in front, leaving every other id's bookmark as it was |
| WordPage.ToggleTwice | html/word.js:143-148 | toggling the same id twice restores which ids are bookmarked, and restores the whole list when the id started out absent |
| WordPage.Filtered | html/word.js:178-186 | a word is listed exactly when it belongs to the current segment and, unless the index is "all", is filed under the chosen button |
| WordPage.Reselect | html/word.js:245-248 | the selection after drawing is empty only for an empty list, is kept when it is still listed and otherwise moves to the first listed word |
| WordPage.DictionaryPage.constructor | html/word.js:110-113 | the page opens on the Korean segment under "all" with no selection and the bookmarks read from storage |
| WordPage.DictionaryPage.ToggleBookmark | html/word.js:143-148 | an empty id changes nothing; any other id is toggled and the new list is what storage then holds |
| WordPage.DictionaryPage.RenderList | html/word.js:229-248 | the list drawn is the filtered words and the selected word, if any, is on it |
| WordPage.DictionaryPage.ChooseSegment | html/word.js:454-466 | a segment tab shows that segment under "all" and selects the first listed word |
| WordPage.DictionaryPage.ChooseIndex | html/word.js:198-204 | an index button filters by that button, the "all" button lifts the filter, and the selection stays on the list |
| WordPage.DictionaryPage.ClickStar | html/word.js:278-288 | the star of a non-empty id toggles that word's bookmark and saves the new list to storage, while an empty id changes neither; the list is redrawn, with the selection kept or moved to the first listed word |
| WordPage.DictionaryPage.ClearBookmarks | html/word.js:481-487 | clearing leaves no bookmarks, stores an empty array that loads back empty, and redraws the list |
| WordPage.DictionaryPage.OpenBookmark | html/word.js:409-427 | opening a bookmarked word switches to its segment under "all" and selects it on the list; an id no word has changes nothing |
| WordPage.UpperFirst | apps/service/static/word.js:155 | the first character of the trimmed, upper-cased term is missing only when the trimmed term is empty |
| WordPage.ServiceKoreanIndex | apps/service/static/word.js:155-157 | the service list files a Korean word under the same initial as the trimmed term's initial on the static pages |
| WordPage.ServiceFiltered | apps/service/static/word.js:150-163 | a word is on the service list exactly when it belongs to the segment and passes the index test |
| WordPage.ServiceReselect | apps/service/static/word.js:168-175 | an empty service list leaves the selection as it was; otherwise it is reselected as on the static page |
| WordPage.ServiceToggled | apps/service/static/word.js:84-89 | an accepted ADD appends an absent id and an accepted CANCEL removes every copy of it |
| WordPage.ServiceToggleSameIds | apps/service/static/word.js:84-89 | the service toggle ends with the same set of bookmarked ids as the static pages' toggle |
| WordPage.OpenedWordHiddenAsWritten | apps/service/static/word.js:348-353 | a Korean word whose term starts with a space opens under an index that its own list then filters out |
| WordPage.OpenedWordListed | apps/service/static/word.js:348-363 | with the index taken from the trimmed term, every loaded word is on the list it opens |
| WordPage.ServicePage.constructor | apps/service/static/word.js:5-8 | the page starts on the Korean segment under "all" with no selection, the loaded words each in the segment of their term, and the fetched bookmarks |
| WordPage.ServicePage.ToggleBookmark | apps/service/static/word.js:67-96 | the call succeeds only for a non-empty id that the server accepts, which applies the server-side toggle; every failure leaves the bookmarks unchanged |
| WordPage.ServicePage.RenderList | apps/service/static/word.js:146-175 | the list drawn is the service list and the selection is reselected against it |
| WordPage.ServicePage.OpenBookmarkAsWritten | apps/service/static/word.js:336-366 | as written, opening a bookmark selects the word and sets its segment and its untrimmed term's index |
| WordPage.ServicePage.OpenBookmark | apps/service/static/word.js:336-366 | with the index from the trimmed term, the opened word is selected and on the list; an unknown id changes nothing |
| ManagerWord.Lookup | test_html/apps/service/static/manager_word.js:285 | a word is found under an id exactly when some entry has that id, and the word found is one with that id |
| ManagerWord.LastWith | test_html/apps/service/static/manager_word.js:448 | the word a map built from a list keeps for an id exists exactly when some word has the id, and has that id |
| ManagerWord.MapOfLookup | test_html/apps/service/static/manager_word.js:448 | a map built from the crawled words has one entry per id, holding the last word with that id |
| ManagerWord.SetWordLookup | test_html/apps/service/static/manager_word.js:456 | setting a word keeps the ids distinct, finds the new word under its id and leaves every other id as it was |
| ManagerWord.SetAllLookup | test_html/apps/service/static/manager_word.js:463-466 | setting the added words in turn (skipping blank ids) keeps the ids distinct, and each id then holds the last added word with it, or what it held before |
| ManagerWord.RemoveId | test_html/apps/service/static/manager_word.js:460 | deleting an id removes exactly that id and keeps only words that were there |
| ManagerWord.RemoveIdLookup | test_html/apps/service/static/manager_word.js:460 | after deleting an id nothing is found under it and every other id holds what it held |
| ManagerWord.Patched | test_html/apps/service/static/manager_word.js:453-455 | a patched word keeps its id, takes every field of the patch and has the index key of its new segment and term |
| ManagerWord.PatchOfRoundTrip | test_html/apps/service/static/manager_word.js:401-408 | the patch stored for an edited crawled word rebuilds exactly that word when applied to the word with its id |
| ManagerWord.ApplyUpdates | test_html/apps/service/static/manager_word.js:450-457 | applying the patches keeps the same ids |
| ManagerWord.ApplyUpdatesLookup | test_html/apps/service/static/manager_word.js:450-457 | after the patches an id holds the patched word when it has a patch and a word, and is otherwise unchanged; patches for absent ids are skipped |
| ManagerWord.DropDeletedLookup | test_html/apps/service/static/manager_word.js:460 | after the deletions nothing is found under a deleted id and every other id holds what it held |
| ManagerWord.MergedLookup | test_html/apps/service/static/manager_word.js:447-469 | the merge has distinct ids and holds, for each id, the last added word with it, else nothing when deleted or not crawled, else the last crawled word, patched when it has a patch |
| ManagerWord.ApplyEdits | test_html/apps/service/static/manager_word.js:447-469 | the merge built step by step (patches, deletions, additions) is the merge specified per id |
| ManagerWord.SetEach | test_html/apps/service/static/manager_word.js:463-466 | the loop over the added words sets each one with a non-blank id, in order |
| ManagerWord.PatchEach | test_html/apps/service/static/manager_word.js:450-457 | the loop over the patches, in whatever order it visits them, gives the patched entries |
| ManagerWord.DeleteEach | test_html/apps/service/static/manager_word.js:460 | the loop over the deleted ids removes each of them |
| ManagerWord.Upserted | test_html/apps/service/static/manager_word.js:394-410 | an upsert of a local word touches only the added list, and an upsert of a crawled word only stores its patch |
| ManagerWord.Deleted | test_html/apps/service/static/manager_word.js:412-422 | a delete with an empty id leaves the edits unchanged |
| ManagerWord.MergedConsistent | test_html/apps/service/static/manager_word.js:447-475 | when the crawled and added words carry their own index keys, every merged entry does |
| ManagerWord.UpsertShows | test_html/apps/service/static/manager_word.js:394-410 | after an upsert the merge holds the word under its id and every other id is unchanged, and the added words stay well formed |
| ManagerWord.UpsertLocalShows | test_html/apps/service/static/manager_word.js:395-399 | after an upsert of a local word the merge holds it under its id and nothing else changes |
| ManagerWord.UpsertCrawledShows | test_html/apps/service/static/manager_word.js:400-408 | after an edit of a shown crawled word the merge holds the edited word under its id and nothing else changes |
| ManagerWord.DeleteLocalHides | test_html/apps/service/static/manager_word.js:414-415 | deleting a local word leaves nothing under its id and every other id unchanged |
| ManagerWord.DeleteHides | test_html/apps/service/static/manager_word.js:412-422 | after a delete with a non-empty id the merge holds nothing under it and every other id is unchanged |
| ManagerWord.RemergeAgrees | test_html/apps/service/static/manager_word.js:527 | merging the edits again over the words on the page agrees with merging them over the crawled words when only added words were new |
| ManagerWord.AddKeepsMerge | test_html/apps/service/static/manager_word.js:524-528 | after the add dialog the page holds the new word under its id, every other id as before, and still the merge of the edits |
| ManagerWord.EditKeepsMerge | test_html/apps/service/static/manager_word.js:581-586 | after the edit dialog the page holds the edited word under its id, every other id as before, and still the merge of the edits |
| ManagerWord.LoadEdits | test_html/apps/service/static/manager_word.js:425-440 | a stored object gives each of its fields that has the right shape and an empty field otherwise; anything else gives empty edits |
| ManagerWord.SavedEditsLoad | test_html/apps/service/static/manager_word.js:443-445 | edits saved to storage load back unchanged |
| ManagerWord.ListedWords | test_html/apps/service/static/manager_word.js:276-278 | a word is listed exactly when it is in the current segment and, under an index button, carries that index key |
| ManagerWord.NewWord | test_html/apps/service/static/manager_word.js:516-522 | the word the add dialog builds has a local id, the index key of its segment and term, and the paragraphs of the text as its body |
| ManagerWord.WordManager.constructor | test_html/apps/service/static/manager_word.js:680-699 | the page opens on the Korean segment under "all" with no selection, holding the merge of the stored edits over the crawled words |
| ManagerWord.WordManager.RenderList | test_html/apps/service/static/manager_word.js:318-352 | the list drawn is the listed words and the selection is kept when listed, moved to the first word otherwise, none for an empty list |
| ManagerWord.WordManager.ChooseSegment | test_html/apps/service/static/manager_word.js:640-648 | a segment tab shows that segment under "all" and selects the first listed word |
| ManagerWord.WordManager.ChooseIndex | test_html/apps/service/static/manager_word.js:651-656 | an index button filters by its key, a button with key "all" or without a key lifts the filter, and the selection stays on the list |
| ManagerWord.WordManager.ClickItem | test_html/apps/service/static/manager_word.js:659-671 | a click or Enter on a listed word selects it |
| ManagerWord.WordManager.AddWord | test_html/apps/service/static/manager_word.js:513-533 | an empty trimmed term saves nothing; otherwise the new word goes first in the added list, the page shows the new merge and the word is selected |
| ManagerWord.WordManager.EditSelected | test_html/apps/service/static/manager_word.js:538-590 | without a selection, for an unknown id or with an empty trimmed term nothing is saved; otherwise the selected word takes the new fields, is kept as an upsert and shown where it stood |
| ManagerWord.WordManager.DeleteWordLocal | test_html/apps/service/static/manager_word.js:412-422 | the edits lose the word: afterwards the merge holds nothing under its id and every other id is unchanged |
| ManagerWord.RecomputeAllLookup | test_html/apps/service/static/manager_word.js:473 | recomputing the index keys keeps the ids distinct and changes only each word's index key |
| ManagerWord.RebuildFromBase | test_html/apps/service/static/manager_word.js:471-475 | the rebuilt words have distinct ids and hold, id by id, the merge of the edits over the crawled words |
| AdminTerms.CloseParen | test_html/apps/service/static/admin_terms.js:57 | the closing parenthesis found is the first one after the start with no line break before it |
| AdminTerms.ParenGroup | test_html/apps/service/static/admin_terms.js:57 | the group found sits after an opening parenthesis and holds no closing parenthesis and no line break |
| AdminTerms.ParseKeyword | test_html/apps/service/static/admin_terms.js:55-60 | the keyword is the trimmed input, the term is trimmed and holds no opening parenthesis, and the English name is trimmed with no closing parenthesis or line break |
| AdminTerms.DraftRoundTrip | test_html/apps/service/static/admin_terms.js:55-60 | parsing the editor's keyword of a term and an English name gives that term and name back |
| AdminTerms.ParsedDraftStable | test_html/apps/service/static/admin_terms.js:55-60 | a parsed keyword survives the editor: its draft keyword parses to the same term and English name |
| AdminTerms.BodyLines | test_html/apps/service/static/admin_terms.js:496-499 | every line of a body is non-empty, trimmed and free of line breaks |
| AdminTerms.BodyLinesRoundTrip | test_html/apps/service/static/admin_terms.js:419 | a body joined by line breaks reads back as the same lines |
| AdminTerms.JoinedBodyTrimmed | test_html/apps/service/static/admin_terms.js:419 | the editor's text of a body is already trimmed, so the save's trim removes nothing |
| AdminTerms.FormatYmdDot | test_html/apps/service/static/admin_terms.js:48-53 | the edit label is the date followed by the edited mark |
| AdminTerms.DashToDot | test_html/apps/service/static/admin_terms.js:227 | every dash becomes a dot and every other character stays |
| AdminTerms.ScrapedLabel | test_html/apps/service/static/admin_terms.js:226-228 | a crawled row's label is empty exactly when it has no timestamp |
| AdminTerms.ScrapedLabelOfIso | test_html/apps/service/static/admin_terms.js:226-228 | a crawled timestamp of a four-digit year is labelled as an edit made that day would be |
| AdminTerms.UpsertItemOf | test_html/apps/service/static/admin_terms.js:122-126 | an upsert keeps one entry per id, adds the id, merges the patch over the entry under it and leaves every other entry |
| AdminTerms.ClearDeletedItemOf | test_html/apps/service/static/admin_terms.js:132-137 | clearing the deleted flag keeps the same ids and changes only that flag of that entry |
| AdminTerms.SavedItemOf | test_html/apps/service/static/admin_terms.js:510-518 | a save stores under the id the merged patch with no deleted flag and leaves every other entry |
| AdminTerms.LoadOverrides | test_html/apps/service/static/admin_terms.js:102-112 | stored items load as they are, and anything missing, unparsable or of the wrong shape loads as no items |
| AdminTerms.SavedWord | test_html/apps/service/static/admin_terms.js:494-503 | the saved word has the parsed term and English name, the body's lines and the label, and its segment and index key come from its term |
| AdminTerms.NewOf | test_html/apps/service/static/admin_terms.js:153-169 | a new word built from its patch keeps its id and has the segment and index key of its term |
| AdminTerms.EditOf | test_html/apps/service/static/admin_terms.js:174-193 | a patched existing word keeps its id and has the segment and index key of its term |
| AdminTerms.EditOfKeeps | test_html/apps/service/static/admin_terms.js:177-191 | a field the patch lacks leaves the word's field as it was |
| AdminTerms.FullPatch | test_html/apps/service/static/admin_terms.js:177-193 | a patch with keyword, content and label makes the same word whatever it is applied to |
| AdminTerms.SaveDraftUnchanged | test_html/apps/service/static/admin_terms.js:410-415 | saving the editor's draft of a word unchanged gives the word back with the new label |
| AdminTerms.StepLookup | test_html/apps/service/static/admin_terms.js:145-193 | one stored item changes only the entry under its own id: deleted, added as new, patched, or passed over |
| AdminTerms.AppliedLookup | test_html/apps/service/static/admin_terms.js:144-194 | applying the items in key order keeps the ids distinct and gives each id what its own item makes of it |
| AdminTerms.OverridesLookup | test_html/apps/service/static/admin_terms.js:139-197 | a load holds, id by id, nothing for a deleted item, a new word for a new item no crawled word has, the patched crawled word, or the crawled word itself |
| AdminTerms.ApplyOverridesToList | test_html/apps/service/static/admin_terms.js:139-197 | the loop over the stored items gives the overrides applied in key order over the crawled words |
| AdminTerms.BaseWord | test_html/apps/service/static/admin_terms.js:211-230 | a row's word is word_ and its term id, or word_ and its position without one; it is never local, and its label is the crawled label |
| AdminTerms.BaseOf | test_html/apps/service/static/admin_terms.js:211 | one word per row, each built from its row and position |
| AdminTerms.BaseOfOk | test_html/apps/service/static/admin_terms.js:211-230 | the crawled words are never local, are editable and carry the index keys of their terms |
| AdminTerms.LoadWords | test_html/apps/service/static/admin_terms.js:202-233 | the load succeeds exactly when the response is ok, its JSON reads and neither it nor any row is null; then it gives the overrides laid over the rows' words |
| AdminTerms.OverrideEntryShape | test_html/apps/service/static/admin_terms.js:139-197 | every entry a load shows has its id, is editable and carries the index key of its term |
| AdminTerms.AddKeeps | test_html/apps/service/static/admin_terms.js:507-529 | adding appends the new word and saves its patch; the list still agrees with a reload, holds the word under its id and is unchanged elsewhere |
| AdminTerms.EditKeeps | test_html/apps/service/static/admin_terms.js:541-558 | editing replaces the word where it stands and saves a full patch; the list still agrees with a reload and is unchanged elsewhere |
| AdminTerms.DeleteKeeps | test_html/apps/service/static/admin_terms.js:581-582 | deleting marks the id deleted and drops its word; the list still agrees with a reload and is unchanged elsewhere |
| AdminTerms.FilterSelect | test_html/apps/service/static/admin_terms.js:249-251 | the selection is kept while listed, else moves to the first listed id, and is none only when nothing (or an empty id) is there to select |
| AdminTerms.AdminTermsPage.constructor | test_html/apps/service/static/admin_terms.js:646-652 | the page opens on the Korean segment under "all" with the overrides laid over the crawled words and the first listed word selected |
| AdminTerms.AdminTermsPage.ApplyFilter | test_html/apps/service/static/admin_terms.js:236-252 | the list is the segment's words under the index button and the selection follows the filter |
| AdminTerms.AdminTermsPage.ChooseSegment | test_html/apps/service/static/admin_terms.js:594-609 | a segment button is ignored while editing and otherwise shows that segment under "all" |
| AdminTerms.AdminTermsPage.ChooseIndex | test_html/apps/service/static/admin_terms.js:612-620 | an index button is ignored while editing; "all" lifts the filter and any other key sets it |
| AdminTerms.AdminTermsPage.ClickItem | test_html/apps/service/static/admin_terms.js:623-629 | a click on a listed word is ignored while editing and otherwise selects it |
| AdminTerms.AdminTermsPage.EnterEdit | test_html/apps/service/static/admin_terms.js:404-417 | with a listed selection the editor opens on its draft keyword and its lines; without one nothing happens |
| AdminTerms.AdminTermsPage.EnterAdd | test_html/apps/service/static/admin_terms.js:419-424 | the add button opens the editor empty, bound to the placeholder id of a new word |
| AdminTerms.AdminTermsPage.ExitEdit | test_html/apps/service/static/admin_terms.js:466-476 | the editor closes, its draft is cleared and the list is filtered again |
| AdminTerms.AdminTermsPage.PressEscape | test_html/apps/service/static/admin_terms.js:637-640 | Escape closes the editor and does nothing outside it |
| AdminTerms.AdminTermsPage.SaveNew | test_html/apps/service/static/admin_terms.js:507-529 | adding saves the new patch under a fresh local id and appends the word, which is then found under its id; nothing else changes |
| AdminTerms.AdminTermsPage.SaveEdit | test_html/apps/service/static/admin_terms.js:541-558 | editing saves a full patch under the id and replaces its word; nothing else changes |
| AdminTerms.AdminTermsPage.ShowSaved | test_html/apps/service/static/admin_terms.js:532-536 | after a save the word's segment is shown under "all" with the word selected and the editor closed |
| AdminTerms.AdminTermsPage.OnSaveInline | test_html/apps/service/static/admin_terms.js:478-568 | an empty keyword or term saves nothing; otherwise the word of the keyword, content and label is added or replaces the selected one, and the page still agrees with a reload |
| AdminTerms.AdminTermsPage.DeleteSelected | test_html/apps/service/static/admin_terms.js:572-587 | the delete happens only outside the editor, with a listed selection and a confirmation; then the word is gone and the page still agrees with a reload |
| Signup.HasLower | apps/service/static/signup.js:38 | true exactly when some character is a lower-case ASCII letter |
| Signup.HasDigit | apps/service/static/signup.js:38 | true exactly when some character is an ASCII digit |
| Signup.AllPwChars | apps/service/static/signup.js:38 | true exactly when every character is a lower-case ASCII letter or a digit |
| Signup.PwRegexTest | apps/service/static/signup.js:38 | the password pattern accepts exactly the texts of 4 to 16 lower-case letters and digits holding at least one of each |
| Signup.FirstOf | apps/service/static/signup.js:41 | the position found holds the character and none comes before it; none found means the character does not occur |
| Signup.LastOf | apps/service/static/signup.js:41 | the position found holds the character and none comes after it; none found means the character does not occur |
| Signup.EmailTestSound | apps/service/static/signup.js:41 | every text the scan accepts matches the e-mail pattern |
| Signup.EmailTestComplete | apps/service/static/signup.js:41 | every text the e-mail pattern matches, with any choice of split points, is accepted by the scan |
| Signup.EmailRegexTestMatches | apps/service/static/signup.js:41 | the scan accepts exactly the texts the e-mail pattern matches |
| Signup.ValidateFields | apps/service/static/signup.js:161-221 | a form is accepted only when every check passes on the trimmed fields, and then yields those trimmed fields; a rejection names a failing check with every earlier check passing |
| Signup.ValidateTrimmed | apps/service/static/signup.js:173-214 | on trimmed fields the checks run in order: an acceptance means all pass and a rejection names the first that fails |
| Signup.PwRuleMsg | apps/service/static/signup.js:89-96 | the rule line is hidden exactly for an empty password and good exactly when the password pattern matches |
| Signup.PwMatchMsg | apps/service/static/signup.js:99-117 | the match line is hidden exactly when both fields are empty, says matching exactly for equal non-empty values, and is good exactly when the two are equal |
| Signup.AcceptedShowsGoodPasswordLines | apps/service/static/signup.js:85-117 | an accepted form always shows both password lines as good |
| Signup.DigitsOnly | apps/service/static/signup.js:149-152 | the phone field keeps every digit of the input in order and nothing else, and an all-digit input is left as it is |
| Signup.DigitsOnlyIdempotent | apps/service/static/signup.js:149-152 | filtering the phone field twice is the same as filtering it once |
| Signup.WithField | apps/service/static/signup.js:265-273 | editing a field other than the id or the phone never touches those two |
| Signup.SignupPage.constructor | apps/service/static/signup.js:136-147 | the page opens with an empty form, no id check, the birthday maximum at today and the join button disabled |
| Signup.SignupPage.UpdateJoin | apps/service/static/signup.js:223-228 | the join button is enabled exactly when the form validates and the id check succeeded; nothing else changes |
| Signup.SignupPage.InputId | apps/service/static/signup.js:154-159 | typing in the id field resets the id check, so join is disabled until it is redone |
| Signup.SignupPage.InputPhone | apps/service/static/signup.js:247-253 | typing in the phone field keeps only its digits and leaves the id check alone |
| Signup.SignupPage.InputField | apps/service/static/signup.js:265-283 | any other field updates the form and the join button; the password fields also refresh the two live lines |
| Signup.SignupPage.CheckId | apps/service/static/signup.js:299-350 | an empty id asks nothing; otherwise the check is done exactly when a reply came, and the id is available exactly when the reply says success true |
| Signup.SignupPage.Submit | apps/service/static/signup.js:354-400 | submitting opens the confirmation exactly when join is enabled, a failed validation shows its problem, and confirming sends exactly the validated data |
| Login.Normalized | html/login.js:101-112 | an id without a record reads as cleared with nothing written; a lock whose end has passed is reset to the cleared record and written back; any other record is read as stored |
| Login.IsLockedIff | html/login.js:114-117 | an id is locked exactly while its stored lock has not ended |
| Login.Bumped | html/login.js:119-138 | one more failure, capped at five, stamped now; the failure that reaches five starts a 24-hour lock and otherwise the lock end is carried over |
| Login.FindUser | html/login.js:196-197 | the user found has the typed id and no saved user before it has that id (`find` returns the first match), and none found means no saved user has it |
| Login.LoginPage.constructor | html/login.js:34-50 | the page starts with the stored failure records, the saved users and no session |
| Login.LoginPage.Submit | html/login.js:181-226 | empty input does nothing; a locked id opens the lock dialog and changes no record; a correct password clears the id's record and starts the session; a wrong one bumps the record and opens the dialog when it reaches five; well-formed records stay well formed |
| Login.FiveFailuresLock | html/login.js:119-138 | five failures in a row from a clean record lock the id for 24 hours from the fifth |
| Login.FourFailuresDoNotLock | html/login.js:119-138 | four failures leave the id unlocked |
| Login.LockLastsADay | html/login.js:101-138 | the lock started by the fifth failure holds until 24 hours later, and the first read after that clears the record |
| InfoEdit.PairOf | html/info_edit.js:63-86 | the pair is unchanged exactly when both trimmed fields are empty, the same exactly when they are equal and non-empty, and incomplete exactly when one of them is empty |
| InfoEdit.PairPassesIffEqual | html/info_edit.js:63-86 | the pair check passes exactly when the two trimmed fields are equal |
| InfoEdit.SameRuleAsSignup | html/info_edit.js:63-86 | the edit page and the sign-up page's live match line agree on which pairs are good |
| InfoEdit.InfoEditPage.constructor | html/info_edit.js:219 | the page opens with empty password fields, the save button disabled and nowhere to go |
| InfoEdit.InfoEditPage.InputPair | html/info_edit.js:88-89 | typing in either password field re-runs the pair check and enables the save button exactly when it passes |
| InfoEdit.InfoEditPage.BuildPayload | html/info_edit.js:131-160 | with both new fields empty the stored verified password fills both password fields and the change flag is cleared, failing without one; otherwise the trimmed new pair is sent and the flag is set |
| InfoEdit.InfoEditPage.Submit | html/info_edit.js:165-214 | a failing pair check sends nothing; a missing verified password sends nothing and the static version returns to my page; whatever is sent carries two equal non-empty passwords; the success dialog says whether the password changed; a refused save shows the server's message or "저장 실패", and a failed request whose message asks for the password check returns the static version to my page; after any reply the pair check runs again, so the save button ends enabled exactly when the pair passes |
| InfoEdit.InfoEditPage.CloseUpdateModal | html/info_edit.js:27-37 | after a password change the verified password is forgotten and the static page logs out; otherwise the page returns to my page |
| InfoEdit.InfoEditPage.ConfirmVerification | test_html/apps/service/static/info_edit.js:287-332 | the verification succeeds exactly for a non-empty trimmed password whose answer is not a JSON failure and arrives at the edit page or as HTML, and only then is the password stored |
| AdminRuns.NumberOf | test_html/apps/service/static/admin.js:17 | the empty text reads as 0 and every number read is non-negative |
| AdminRuns.Without | test_html/apps/service/static/admin.js:17 | removing a character leaves no copy of it and never lengthens the text |
| AdminRuns.ToDateNum | test_html/apps/service/static/admin.js:14-18 | an empty date reads as 0 |
| AdminRuns.ToDateNumOfIso | test_html/apps/service/static/admin.js:14-18 | an ISO date reads as its YYYYMMDD number, so comparing the numbers compares the dates |
| AdminRuns.CodeClass | test_html/apps/service/static/admin.js:34-39 | the badge class is 3xx, 4xx or 5xx exactly for codes in those ranges (5xx for every code from 500 up) and empty exactly below 300 |
| AdminRuns.EscapeEach | test_html/apps/service/static/admin.js:41-48 | escaping each character to its entity leaves no raw angle bracket or quote in the text |
| AdminRuns.EscapeHtmlPerChar | test_html/apps/service/static/admin.js:41-48 | because the ampersand is replaced first, the chain of replacements escapes each character exactly once |
| AdminRuns.EscapeCharChain | test_html/apps/service/static/admin.js:41-48 | on one character the chain gives that character's entity, or the character itself |
| AdminRuns.EscapedHasNoMarkup | test_html/apps/service/static/admin.js:41-48 | escaped text has no raw markup characters left |
| AdminRuns.FilterByDate | test_html/apps/service/static/admin.js:487-500 | a run is kept exactly when its start date lies in the inclusive range and its state code is not 2xx, and nothing is added |
| AdminRuns.ShownPct | test_html/apps/service/static/admin.js:429 | the shown percentage is clamped to 0 to 100 and equals the progress when it is already in that range |
| AdminRuns.NextPct | test_html/apps/service/static/admin.js:467-481 | a tick adds the increment and finishes exactly when the progress reaches 100 |
| AdminRuns.FinishesWithinThirteenTicks | test_html/apps/service/static/admin.js:467-481 | with every tick adding 8 to 20 percent, a re-run started at 0 finishes within 13 ticks |
| AdminRuns.TicksAdvance | test_html/apps/service/static/admin.js:467-481 | every unfinished tick advances the progress by at least 8 and keeps it below 100 |
| AdminRuns.SearchRange | test_html/apps/service/static/admin.js:587-605 | the range uses each input or today when it is empty, and swaps reversed dates so the start is not after the end |
| AdminRuns.RunsPage.constructor | test_html/apps/service/static/admin.js:695-703 | the page opens on today for both dates with an empty list, no selection and no re-run |
| AdminRuns.RunsPage.DoSearch | test_html/apps/service/static/admin.js:587-616 | a search fixes the range, restarts the list from the filtered runs newest id first, shows the empty note exactly when none match and otherwise starts the first page |
| AdminRuns.RunsPage.ResetList | test_html/apps/service/static/admin.js:537-547 | the list restarts empty with no selection and leaves the dates and the re-run alone |
| AdminRuns.RunsPage.BeginLoad | test_html/apps/service/static/admin.js:549-553 | a load starts unless one is already running or everything is loaded; nothing else changes |
| AdminRuns.RunsPage.FinishLoad | test_html/apps/service/static/admin.js:556-583 | the table then holds the filtered runs up to the next page of twenty, the page advances when rows were added, and the list is done exactly when that reaches the end; the empty notice shows when there are no runs; the selection, the re-run state and the date inputs are untouched |
| AdminRuns.RunsPage.SelectRow | test_html/apps/service/static/admin.js:523-528 | a row click selects that run and changes nothing else |
| AdminRuns.RunsPage.StartRerun | test_html/apps/service/static/admin.js:445-465 | a re-run is refused without a selected run or while one runs; otherwise the selected run starts at 0 percent and becomes the active run; a refusal leaves the active run as it was, and the list, the selection and the date inputs are untouched |
| AdminRuns.RunsPage.Tick | test_html/apps/service/static/admin.js:467-481 | a tick that reaches 100 stops the re-run and resets the progress; otherwise the progress advances and the re-run continues; the list, the selection and the date inputs are untouched |
| AdminRuns.RunsPage.PillPct | test_html/apps/service/static/admin.js:416-431 | the pill is hidden exactly when no re-run runs and otherwise shows the progress, which is below 100 |
| AdminRerun.JsYear | apps/service/static/admin_rerun.js:18 | a two-digit year is read as 1900 plus the year, as the Date constructor does; any other year stays |
| AdminRerun.DayNumberOfValid | apps/service/static/admin_rerun.js:18 | for a real date of year 100 or later, the day the Date constructor lands on is that date's day number |
| AdminRerun.ParseInputDate | apps/service/static/admin_rerun.js:15-19 | an empty input parses to nothing |
| AdminRerun.ParseInputDateOfIso | apps/service/static/admin_rerun.js:12-19 | an input written from a date parses back to that date's day |
| AdminRerun.ParsedDaysOrder | apps/service/static/admin_rerun.js:15-19 | two inputs written from dates parse, and they compare as the dates do |
| AdminRerun.ClampStartEnd | apps/service/static/admin_rerun.js:20-25 | the end input becomes the start's text or stays, and when both parse the end is then not before the start |
| AdminRerun.EndDayDroppedAsWritten | apps/service/static/admin_rerun.js:26-29 | as written, a time later than midnight on the end day is outside the range although it falls on a day inside it |
| AdminRerun.InRangeIsByDay | apps/service/static/admin_rerun.js:26-29 | in the corrected range a time is inside exactly when the day it falls on lies between the start and end days |
| AdminRerun.FilterListMembers | apps/service/static/admin_rerun.js:250-266 | the list holds exactly the rows published within the parsed days that miss a selected model's result, latest first; nothing without both dates or without a model |
| AdminRerun.HitsMembers | apps/service/static/admin_rerun.js:258-260 | the scan keeps exactly the rows from its start position that pass both filters |
| AdminRerun.SyncFlags | apps/service/static/admin_rerun.js:182-200 | run is enabled exactly when unlocked with a model and a listed selected row; the header box is checked exactly when every listed row is selected, and indeterminate exactly when only some are |
| AdminRerun.ListedAllSelected | apps/service/static/admin_rerun.js:336-342 | selecting the ids of a fresh list selects every listed row, and a non-empty list has a model and a selected row |
| AdminRerun.TargetsOf | apps/service/static/admin_rerun.js:430 | the targets are exactly the listed rows that are selected |
| AdminRerun.NoTargetsNoneChosen | apps/service/static/admin_rerun.js:430-436 | with no targets no listed row is selected |
| AdminRerun.FilledNotListed | apps/service/static/admin_rerun.js:429-461 | a filled row no longer misses a selected result, so no list shows it |
| AdminRerun.Filled | apps/service/static/admin_rerun.js:445-447 | filling keeps the row's id and date, fills every selected model's missing result and leaves other missing results missing |
| AdminRerun.ClampPct | apps/service/static/admin_rerun.js:406 | the shown percentage lies in 0 to 100 and equals the input when that is already in range |
| AdminRerun.RoundPct | apps/service/static/admin_rerun.js:451 | the percentage is the share done rounded half up |
| AdminRerun.RoundPctBounds | apps/service/static/admin_rerun.js:451 | the rounded share lies in 0 to 100, is 100 when all are done and never goes down as more are done |
| AdminRerun.RerunPage.Sync | apps/service/static/admin_rerun.js:182-200 | the run button and the header box are set from the list, selection, models and lock |
| AdminRerun.RerunPage.Recompute | apps/service/static/admin_rerun.js:336-340 | the list is the filter of the articles and every listed row is selected |
| AdminRerun.RerunPage.Refresh | apps/service/static/admin_rerun.js:336-342 | after a refresh the list is the filter, every listed row is selected, run is enabled exactly when unlocked with rows, and the header box is checked exactly when rows are listed |
| AdminRerun.RerunPage.constructor | apps/service/static/admin_rerun.js:140-146 | the page opens on yesterday to today with every model selected, the filtered list all selected, unlocked and with no progress |
| AdminRerun.RerunPage.ToggleModel | apps/service/static/admin_rerun.js:228-237 | a model chip is ignored while locked; otherwise the model is toggled and the list refreshed |
| AdminRerun.RerunPage.SetAllModels | apps/service/static/admin_rerun.js:213-226 | the all and clear chips are ignored while locked; otherwise every model or none is selected and the list refreshed, clear leaving it empty with run disabled |
| AdminRerun.RerunPage.Search | apps/service/static/admin_rerun.js:355-359 | search is ignored while locked; otherwise the end date is clamped and the list refreshed |
| AdminRerun.RerunPage.ToggleRow | apps/service/static/admin_rerun.js:316-329 | a row box is ignored while locked or without an id; otherwise that id is added or removed |
| AdminRerun.RerunPage.SelectAllRows | apps/service/static/admin_rerun.js:345-366 | the header box is ignored while locked; otherwise every listed row is selected or cleared and the header and run button follow |
| AdminRerun.RerunPage.SetProgress | apps/service/static/admin_rerun.js:404-417 | the progress is shown running or not, at the clamped percentage |
| AdminRerun.RerunPage.SimulateRun | apps/service/static/admin_rerun.js:429-461 | a run starts exactly when some listed row is selected; it fills exactly those rows, unlocks, hides the progress and refreshes, after which none of them is listed |
| AdminRerun.RerunPage.RunAll | apps/service/static/admin_rerun.js:437-460 | the started run fills the chosen rows, unlocks and refreshes |
| AdminRerun.RerunPage.RunLocked | apps/service/static/admin_rerun.js:437-457 | while locked exactly the chosen rows are filled; the lock and progress end released |
| AdminRerun.RerunPage.RunTargets | apps/service/static/admin_rerun.js:443-452 | the loop fills each target row once and ends with the progress at 100 |
| HomeCarousel.Setup | apps/service/static/home.js:16-26 | on a track not yet looped, a copy of the last slide goes first and a copy of the first slide last, around the real slides; a looped track is left as it is; either way it is then looped |
| HomeCarousel.RealAt | apps/service/static/home.js:33 | every track position mirrors a real slide |
| HomeCarousel.SetupMirrors | apps/service/static/home.js:14-33 | after the setup each track position holds the real slide it mirrors: the last one first, then the real slides, then the first one |
| HomeCarousel.SetupOnce | apps/service/static/home.js:17-26 | running the setup on a looped track changes nothing |
| HomeCarousel.NextReal | apps/service/static/home.js:115-123 | the next real slide wraps from the last to the first |
| HomeCarousel.PrevReal | apps/service/static/home.js:125-133 | the previous real slide is a real slide |
| HomeCarousel.NextPrevInverse | apps/service/static/home.js:115-133 | moving forward then back, or back then forward, returns to the same real slide |
| HomeCarousel.NextTimesMod | apps/service/static/home.js:115-123 | k moves forward advance the real slide by k modulo the number of slides |
| HomeCarousel.FullTurn | apps/service/static/home.js:115-123 | as many moves forward as there are slides return to the same slide |
| HomeCarousel.ParseInt | apps/service/static/home.js:139 | a text that is empty or starts with a digit never parses to a negative number |
| HomeCarousel.ParseIntDecimal | apps/service/static/home.js:139 | `parseInt(String(n), 10)` gives `n` back for every natural number, also with any non-digit text after the digits: the slide index written into the card's data attribute is read back exactly |
| HomeCarousel.ParseIntNegatedDecimal | apps/service/static/home.js:139 | a minus sign before the decimal text of `n` gives `-n` |
| HomeCarousel.DigitRun | apps/service/static/home.js:139 | the digits read are the longest run of digits at the start of the text |
| HomeCarousel.FirstTrue | apps/service/static/home.js:85 | the first active card, or -1 exactly when no card is active |
| HomeCarousel.InitialReal | apps/service/static/home.js:84-87 | the carousel starts on the first active card, capped at the last slide, or on the first slide when none is active |
| HomeCarousel.Carousel.constructor | apps/service/static/home.js:83-88 | the carousel starts at rest on the initial real slide without animation and without a drag |
| HomeCarousel.Carousel.GoTrack | apps/service/static/home.js:60-76 | the track moves to the position, marks that slide and the given card active and animates when asked; nothing else changes |
| HomeCarousel.Carousel.GoReal | apps/service/static/home.js:78-81 | the carousel rests on the real slide, one position after the leading copy |
| HomeCarousel.Carousel.Next | apps/service/static/home.js:115-123 | the real slide advances with wrap-around, passing onto the trailing copy from the last slide, animated |
| HomeCarousel.Carousel.Prev | apps/service/static/home.js:125-133 | the real slide goes back with wrap-around, passing onto the leading copy from the first slide, animated |
| HomeCarousel.Carousel.TransitionEnd | apps/service/static/home.js:91-113 | the end of a transform transition stops the animation and, on a copy, jumps without animation to the real slide it mirrors; other transitions change nothing |
| HomeCarousel.Carousel.ChooseCard | apps/service/static/home.js:136-141 | a card without a number changes nothing; a numbered card moves to that slide, capped at the last one |
| HomeCarousel.Carousel.DragStart | apps/service/static/home.js:184-195 | a press records the start point, stops the animation and starts no drag yet |
| HomeCarousel.Carousel.DragMove | apps/service/static/home.js:197-213 | a move starts a drag only once it is mostly horizontal and at least 6 pixels long; while dragging the track follows the pointer |
| HomeCarousel.Carousel.DragEnd | apps/service/static/home.js:215-233 | a release after a drag longer than the threshold moves to the next or previous slide by its direction, otherwise the track snaps back |
| HomeCarousel.Carousel.ClickAfterDrag | apps/service/static/home.js:254-259 | the click that ends a drag is swallowed and only that one |
| HomeSlides.ClampIndex | html/home.js:9-10 | NaN stays NaN; a number inside the slides is kept, one above becomes the last slide and one below the first |
| HomeSlides.SlideNumber | html/home.js:31 | a card without a slide number reads as NaN and an empty one as 0 |
| HomeSlides.InitialIndex | html/home.js:27 | the slider starts on the first active card, or on the first slide when none is active |
| HomeSlides.Slider.constructor | html/home.js:26-28 | the slider starts on the clamped initial slide with exactly that slide and that card active |
| HomeSlides.Slider.SetActive | html/home.js:8-24 | the track moves to the clamped slide and exactly that slide and that card are marked active and pressed; a NaN index leaves none active |
| HomeSlides.Slider.ChooseCard | html/home.js:30-42 | a click, Enter or Space on a card makes exactly its clamped slide number, that card and that card's `aria-pressed` active and moves the track to that slide, and when the number is NaN makes none active and leaves the track at an invalid shift |
| HomeSlides.OneActive | html/home.js:16-23 | at most one slide is active, and exactly one for a number |

## Left out

- Input and output are parameters or input sequences: Selenium drivers and page scripts, Elasticsearch (search, scan, mget, bulk, count, refresh), SQL, HTTP requests and `fetch`, files, `localStorage` and `sessionStorage`, sleeps, timers, retry back-off and the scheduler job. What a call returns is an argument, and what it writes is a result.
- Logging and `print` are not modelled; the failure ledgers and counters they report are.
- Trained models (issue classifier, sentiment, trust, TF-IDF scoring, embeddings) are parameters; their outputs are taken as given.
- CleanTextBuild.BuildCleanTextRange: the normaliser never raises in the model, so the `failed_normalize_exception` counter is always 0.
- The cursor scan of the search index is an input sequence of pages; paging tokens and their expiry are not modelled.
- SHA-1 and SHA-256 (article ids, document ids, password hashes) are not modelled. The news crawler receives an `existing` predicate on links instead of computing the article id.
- Floating point is modelled with exact rational arithmetic. This covers Python's `round` in `calc_change_rate` (round half to even), the donut's `Math.floor` and `Math.round` shares, and fractional numbers in JSON, which are not parsed. IEEE rounding can differ from the exact result; for example `29/100*100` floors to 28 in doubles.
- HomeCarousel.Carousel.DragEnd: the drag threshold `w * 0.18` is compared exactly as `100 * |dx| > 18 * w`; pixel widths are integers.
- HomeCarousel.Carousel.ChooseCard: requires that a parsed card number is not negative. The page writes card numbers from 0 up; a negative `data-slide` would make the source rest on the leading copy with real index -1, and that is not modelled.
- RangeDates.PublishedRange, RangeDates.RangeControl and the other date members of RangeDates, TrendBuckets and ChartLabels: they require dates in the years 1001 to 9999. An ISO date text needs four year digits, and years before 1 do not exist in the JavaScript date model used here.
- `localeCompare` collation is not modelled. Where the code compares dates as text, the comparison is code-point order. The word lists sorted with `localeCompare` (html/word.js:225, apps/service/static/word.js:166, test_html/apps/service/static/manager_word.js:280-281, test_html/apps/service/static/admin_terms.js:244-246) keep their page or map order in the model.
- The order among keywords with equal counts after `sort_values` in test_model/1_2_build_trend_ranking.py:69 is not specified by pandas' default sort. The model fixes one order; TrendRanking.RankMonthProperties states only what every order of ties satisfies.
- Python's `str.isdigit` is modelled on ASCII digits only. The `IGNORECASE` footer patterns fold ASCII letters, and also the four non-ASCII characters that Python's case-insensitive matching pairs with ASCII letters: U+0130 and U+0131 with `i`, U+017F with `s`, and U+212A with `k`. No other case folding is modelled, which is enough for the ASCII footer patterns.
- GptCrawler.SigSeparatesBarFreeTitles: a detail signature identifies the title only for titles without a `|` character. GptCrawler.SigCollidesOnBarTitles shows two different details with equal signatures.
- The call at apps/crawler/main.py:250-256 passes a datetime where apps/crawler/db.py:29 expects text, and `.strip()` then fails. BatchDb models the helpers on text input; the failing call is not modelled.
- Broken call sites in the test pages are not modelled:
  - test_html/apps/service/static/word.js:451-452 calls `renderIndexBar` and `renderList`, which that file does not define;
  - test_html/apps/service/static/manager_word.js:676 binds an undefined `openDeleteModal`, so the delete dialog is absent and ManagerWord.WordManager.DeleteWordLocal models `deleteWordLocal` directly;
  - the `openModal` declared at test_html/apps/service/static/manager_word.js:355-365, whose `variant` at line 359 is undefined, never runs: the later declaration of the same name at line 595 in the same scope replaces it;
  - test_html/apps/service/static/info_edit.js:209 and 385 call the undefined `openUpdateModal` and the commented-out `attemptLoad`.
- ManagerWord.WordManager.constructor: a failed `word.json` load (test_html/apps/service/static/manager_word.js:684-691) is not modelled; the constructor receives the loaded words.
- Random and clock values (`randomId`, `Date.now`, `Math.random`) are parameters. The mock data of the administrator consoles (test_html/apps/service/static/admin.js:214-280 and the seeded generator at apps/service/static/admin_rerun.js:30-139) is not modelled.
- Administrator console rendering is not modelled: the authentication panel and column chips of test_html/apps/service/static/admin.js:57-200, the loader delay, toasts and confirmation texts.
- The remembered log-in id and focus styling (html/login.js:147-160) are not modelled.
- Loading and filling the account form (html/info_edit.js:94-129 and 219-231) are not modelled.
- Signup.SignupPage.Submit: the answer of the `/register` request, a redirect or an error text, is not modelled.
- Concurrency is not modelled: in-flight and sequence guards against stale responses, and promise caching.
- Page glue is not modelled: sidebars, headers, tooltips, modals, card rendering, chart drawing (`Math.sin` series, donut label geometry) and the trust-score thresholds.
- CRUD routes, sessions, repositories and database setup are not part of this model.
- Calendar.AddMonthsClamp: keeps the target year as it is. JavaScript's `new Date(y, m, d)` (apps/service/static/main.js:82-94) reads years 0 to 99 as 1900 + y. Every caller in the model passes a year of at least 1000, where the two agree.
- Calendar.AddYearsClamp: keeps the target year as it is, where `new Date(y, m, d)` (apps/service/static/main.js:57-65) reads years 0 to 99 as 1900 + y. Every caller in the model passes a year of at least 1000.
- ArticleList.Haystack: lower-cases ASCII letters only. `String.prototype.toLowerCase` (apps/service/static/main.js:816-818, apps/service/static/main_b.js:369-370) lower-cases all of Unicode, so the keyword "É" finds the title "é" in the page but not in the model.
- ArticleList.MatchesKeyword: compares the ASCII-lower-cased keyword with the ASCII-lower-cased fields, for the same reason; matches that need non-ASCII lower-casing are not found.
- ArticleList.FieldMatches: states the match on ASCII-lower-cased text only, as Haystack and MatchesKeyword do.
- AdminTerms.AdminTermsPage: files each Korean word under the corrected index of WordIndex.AdminComputeIndex, not under the `KO_INDEX[choIndex]` of test_html/apps/service/static/admin_terms.js:65-73, which files 나 under ㄷ and 하 under no button; the Findings table shows the difference (WordIndex.AdminKoIndexMisfiles).
- WordIndex.AdminComputeIndex: is the corrected index; the as-written lookup is WordIndex.AdminKoIndexMisfiles in the Findings table.
- AdminRerun.FilterList: selects by the corrected whole-day range (AdminRerun.InRangeIsByDay), not by the `t <= e.getTime()` test of apps/service/static/admin_rerun.js:26-29, which drops rows published after midnight of the end day; the Findings table shows the difference (AdminRerun.EndDayDroppedAsWritten).
- AdminRerun.FilterListMembers: states the members of the list under the corrected whole-day range, for the reason given for FilterList.
- AdminRerun.RerunPage: lists rows by FilterList, so its lists follow the corrected whole-day range.
- NaverCrawler.CrawlOneDate: the steps between the ping and the `try` (apps/crawler/main.py:252-259) are taken to succeed. The `create_batch_run` call that fails on its datetime argument (noted above), a browser-start exception and a `run_id` of None are not modelled. A `finish_batch_run` that raises inside the error handler (apps/crawler/main.py:336-346) is only logged there; the model records the state-400 write it attempts.
- AdminRuns.NumberOf: reads only the empty text and runs of ASCII digits. `Number` also accepts surrounding white space, signs, decimals, exponents and hexadecimal forms; the date-input values and timestamp slices it is given contain none of those.
- CleanTextBuild.BuildCleanTextRange: a title or body that is neither text nor None makes `.strip()` raise AttributeError (apps/analyzer/build_clean_text.py:248-249); the model takes both as text.
- CleanTextBuild.FailedItem: keeps the id and the status of a failed bulk item but not its `error` value (apps/analyzer/build_clean_text.py:176-180), which is only reported.

## Findings

| source | as written | input that shows it | evidently intended | confidence | as-written member | corrected member |
|---|---|---|---|---|---|---|
| test_model/1_2_build_trend_ranking.py:81-119 | the move lists are built keyword group by keyword group and then assigned by position to the rows sorted by (year, month, rank) | January: b rank 1, a rank 2; February: a rank 1. The January row of a receives February's "up 1" | each row carries its own keyword's move against that keyword's previous month | high; not executed | TrendRanking.AsWrittenMisassigns | TrendRanking.BuildMonthlyMoves |
| test_html/apps/service/static/admin_terms.js:65-73 | `getKoIndex` uses the initial-consonant number, 0 to 18, to index the 14-entry index-button list | 나 is filed under ㄷ, and 하 under no button | the initial is looked up and folded as the other pages do, so 나 is under ㄴ and 하 under ㅎ | high; not executed | WordIndex.AdminKoIndexMisfiles | WordIndex.AdminKoIndex |
| apps/service/static/word.js:348-353 | opening a bookmark computes the Korean index from the untrimmed term, while the list filter trims | for the term " 가나", with a leading space, the index becomes null, and the list under that index does not show the word | the index is taken from the trimmed term, as the list does | medium; not executed | WordPage.OpenedWordHiddenAsWritten | WordPage.OpenedWordListed |
| apps/service/static/admin_rerun.js:26-29 | `inRange` accepts times up to the end date's midnight, inclusive | any time after 00:00 on the end day | every moment of the end day is in the range | high; not executed | AdminRerun.EndDayDroppedAsWritten | AdminRerun.InRangeIsByDay |
