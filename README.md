# Résumé and job-post parsing, local accounts and the demo job board, in Dafny

This project models the core of a small job-seeking web application:

- the **résumé parser** (`parseResumeText`, `src/services/resume.ts`). It turns
  pasted résumé text into a `ResumeDoc`: contact details, a name, an intended
  title and a city, plus sections found by exact header aliases. Each section
  is made into bullets or entries, with per-section caps. `resumeToMarkdown`
  renders the document back to Markdown;
- the **job-post parser** (`parseJobText`, `src/services/jobPost.ts`). It turns
  a pasted job advert into a `JobPostDoc`: title, company, city, salary,
  sections found by keyword headers, capped bullet lists and tags from a fixed
  vocabulary. `jobToMarkdown` renders it back;
- the **local account service** (`src/services/auth.ts`). It covers
  identifier normalisation and validation, and e-mail codes with an expiry.
  It also covers registration, which checks an e-mail code for candidates and
  refuses duplicate accounts per role. Login compares password hashes, and
  the service creates and clears sessions;
- the **demo job store** (`src/stores/jobs.ts`). It generates 32 jobs per
  category from templates, numbers them 1, 2, 3, … and shuffles them. It
  looks jobs up by id and filters them with a case-insensitive query.

Module layout:

| file | module | models |
|---|---|---|
| `wrappers.dfy` | `Wrappers` | `Option`, `Result` |
| `text.dfy` | `Text` | the JavaScript string and array built-ins the core uses (`trim`, `toLowerCase`, `split`, `includes`, `filter`, `find`, `new Set`, `slice`) |
| `matching.dfy` | `Matching` | `String.prototype.match` with and without the `g` flag, and `RegExp.test`, over a matcher `at(s, i)` that returns where the match starting at `i` ends |
| `normalize.dfy` | `LineNormalizer` | `normalizeLine`, `splitBullets` and the `\r\n` rewrite, shared by both parsers |
| `resume_patterns.dfy` | `ResumePatterns` | `EMAIL_RE`, `PHONE_RE`, `URL_RE` and the entry time-range expression as hand-written matchers |
| `resume_sections.dfy` | `ResumeSections` | `SECTION_ALIASES` and `isSectionHeader` |
| `bucketing.dfy` | `Bucketing` | the header-driven bucket loop, generic over the bucket type and shared by both parsers |
| `resume_basics.dfy` | `ResumeBasics` | `extractBasics` |
| `resume_entries.dfy` | `ResumeEntries` | `parseEntryBlocks` |
| `resume_parse.dfy` | `ResumeParser` | the `ResumeDoc` type and `parseResumeText` |
| `markdown.dfy` | `Markdown` | the line-list helpers both renderers share and the final `join('\n').trim() + '\n'` |
| `resume_render.dfy` | `ResumeRender` | `resumeToMarkdown` |
| `job_patterns.dfy` | `JobPatterns` | `SALARY_RE` and `CITY_RE` |
| `job_parse.dfy` | `JobParser` | the `JobPostDoc` type, `isHeader` and `parseJobText` |
| `job_render.dfy` | `JobRender` | `jobToMarkdown` |
| `auth_identity.dfy` | `AuthIdentity` | `normalizeEmail`, `normalizePhone`, `isValidEmail`, `isValidCnPhone`, `findUserByIdentifier` |
| `auth.dfy` | `Auth` | the account store (`AuthStore`: users, e-mail codes, session) and its operations |
| `job_store.dfy` | `JobStore` | `pick`, `generateJobs`, `getJobById`, `filterJobs` |

Each parser or renderer loop is a `method` proved equal to a specification
function (`ParseResumeText`, `SplitBullets`, `BucketLines`, `RenderResume`,
`CollectTags`, `GenerateJobs`, …). The properties are then proved as lemmas
about those functions. The account service keeps its storage in the fields
of `Auth.AuthStore`, and each operation's `ensures` states the new contents
of those fields.

## Model

| member | source | states |
|---|---|---|
| Text.Split | src/services/resume.ts:166 | `split('\n')` returns at least one piece, no piece holds the separator, and joining the pieces with it gives back the text |
| Text.Utf16Length | src/services/resume.ts:94 | `length` counts between one and two code units per character: exactly one per character iff none lies beyond U+FFFF, exactly two iff all do |
| Text.Dedup | src/services/resume.ts:90 | `Array.from(new Set(xs))`: no repeats, every element comes from the input, and every input element is kept |
| Text.DedupIsFirstOccurrences | src/services/resume.ts:188-195 | the de-duplicated list keeps each element at its first occurrence, in input order (the order a `Set` iterates) |
| Matching.FirstMatch | src/services/jobPost.ts:68 | a match without the `g` flag is absent exactly when no position matches; otherwise it is the text matched at the leftmost matching position, with no match starting before it |
| Matching.FirstMatchFrom | src/services/resume.ts:88-89 | the match reported is the leftmost position that matches |
| Matching.MatchStartsFrom | src/services/resume.ts:85-87 | the `g` flag's matches start at matching positions, in increasing order, without overlapping |
| Matching.MatchStartsComplete | src/services/resume.ts:85-87 | the `g` flag misses no match: every position that matches lies inside one of the reported matches |
| Matching.AllMatches | src/services/resume.ts:85-87 | one text per reported start, each the slice matched there |
| Matching.AllMatchesFirst | src/services/resume.ts:85-89 | `emails[0]` of the `g`-flag list is the same as the first match; the list is empty exactly when nothing matches |
| Matching.TestIff | src/services/resume.ts:94 | `test` is true exactly when some position matches |
| LineNormalizer.CollapseSpaces | src/services/resume.ts:62 | after `\s+` → space, every white-space character is a plain space, no two are adjacent, and the text is empty and starts with a space exactly when the input does |
| LineNormalizer.NormalizeLine | src/services/resume.ts:58-64 | a normalised line has no bullet glyph, no no-break space, no white space other than single spaces, and no space at either end |
| LineNormalizer.NormalizeKeepsText | src/services/resume.ts:58-64 | normalising keeps every non-space character, in order, after the glyph rewrite |
| LineNormalizer.NormalizeEmptyIff | src/services/resume.ts:58-64 | a line normalises to the empty string exactly when it is all white space |
| LineNormalizer.NormalIsFixed | src/services/resume.ts:58-64 | a line already in normal form is left as it is |
| LineNormalizer.NormalizeIdempotent | src/services/resume.ts:58-64 | normalising twice is normalising once |
| LineNormalizer.MarkerTest | src/services/resume.ts:77 | on a normalised line, `^[-*]\s+` matches exactly when the line starts with `- ` or `* ` |
| LineNormalizer.StripMarkerNormal | src/services/resume.ts:77 | removing the marker from a non-empty normalised line removes exactly its first two characters and leaves a non-empty normalised line; an unmarked line is unchanged |
| LineNormalizer.BulletOfNone | src/services/resume.ts:75-76 | a line gives no bullet exactly when it is blank |
| LineNormalizer.BulletOfWellFormed | src/services/resume.ts:75-78 | a bullet is non-empty and normalised |
| LineNormalizer.Bullets | src/services/resume.ts:72-81 | there are never more bullets than lines |
| LineNormalizer.BulletsWellFormed | src/services/resume.ts:72-81 | every bullet is non-empty and normalised |
| LineNormalizer.SplitBullets | src/services/resume.ts:72-81 | the `splitBullets` loop computes the bullet list |
| LineNormalizer.BulletsAppend | src/services/resume.ts:74-79 | bullets are produced line by line and in order: the bullets of two line lists joined are the two bullet lists joined |
| LineNormalizer.BulletsEmptyIff | src/services/resume.ts:72-81 | there are no bullets exactly when every line is blank |
| LineNormalizer.BulletsPointwise | src/services/resume.ts:72-81 | without blank lines there is one bullet per line: the line normalised with its marker removed |
| LineNormalizer.NormalizedLinesShape | src/services/resume.ts:93 | `map(normalizeLine).filter(Boolean)` gives non-empty normalised lines, and none exactly when every line is blank |
| LineNormalizer.CrlfKeepsPlainText | src/services/resume.ts:153 | text without `\r` is unchanged by the `\r\n` rewrite |
| LineNormalizer.CrlfPairBecomesLf | src/services/resume.ts:153 | every `\r\n` pair becomes one `\n`, and the text around it is rewritten independently |
| ResumePatterns.LastTldDot | src/services/resume.ts:30 | finds the last dot in a range that two or more ASCII letters follow, which is where the e-mail pattern's backtracking settles |
| ResumePatterns.EmailShapeAt | src/services/resume.ts:30 | in any e-mail match at a position, the `@` ends the greedy local-part run and the dot lies inside the domain run |
| ResumePatterns.EmailAtSound | src/services/resume.ts:30 | every e-mail match is a local part, an `@`, a domain, a dot and two or more letters |
| ResumePatterns.EmailAtComplete | src/services/resume.ts:30 | wherever such a shape starts, a match is found there; it uses the last possible dot, and it ends no earlier than the shape when the dot is the same |
| ResumePatterns.PhoneAt | src/services/resume.ts:31 | a phone match is `1`, a digit 3–9 and nine more digits, eleven characters long |
| ResumePatterns.OpeningSpan | src/services/resume.ts:32 | the URL opening is part of the non-space run, so a URL match runs to the end of that run from either point |
| ResumePatterns.UrlAt | src/services/resume.ts:32 | a URL matches exactly where `https://`, `http://` or `www.` starts (ASCII case ignored) with a non-space after it, and the match runs to the next white space |
| ResumePatterns.TimeAt | src/services/resume.ts:129 | the time expression matches exactly where four digits start, and the match covers at least those four |
| ResumePatterns.FirstTimeLeftmost | src/services/resume.ts:129-130 | a time is found exactly when some four-digit run exists, and it is the match at the first one |
| ResumePatterns.TimeOfYearRange | src/services/resume.ts:129 | `2020-2022` gives the time `2020-20`, because the year-month branch is tried first |
| ResumePatterns.TimeOfYearToNow | src/services/resume.ts:129 | `2020至今` gives `2020`: `至今` counts only after a range separator |
| ResumePatterns.TimeOfMonthToNow | src/services/resume.ts:129 | `2019.07 - 至今` is matched whole |
| ResumeSections.AliasTableShape | src/services/resume.ts:34-56 | the alias table never sends a line to `extra`, and its keys are two to four characters long |
| ResumeSections.IsSectionHeader | src/services/resume.ts:66-70 | a line is never a header of the `extra` section |
| ResumeSections.HeaderIsExactLookup | src/services/resume.ts:66-70 | a line is a header exactly when the line, without colons, dashes and white space, is a key of the alias table or the name of a property every JavaScript object inherits; an alias gives its own section, an inherited name the bucket no field reads, and never `extra` |
| ResumeSections.HeaderConstructor | src/services/resume.ts:66-70 | the line `constructor` is a header: `SECTION_ALIASES['constructor']` is the inherited `Object` constructor, which is truthy, so the lines after it leave the current section |
| ResumeSections.HeaderIgnoresPunct | src/services/resume.ts:67 | inserting a colon, dash or white-space character anywhere does not change what a line is a header of |
| ResumeSections.HeaderWithColon | src/services/resume.ts:66-70 | `工作经历：` is the experience header |
| ResumeSections.HeaderNotSubstring | src/services/resume.ts:66-70 | `主要工作经历` is no header: an alias inside a longer line does not count |
| Bucketing.BucketLines | src/services/resume.ts:166-181 | the bucket loop computes the buckets of the line list |
| Bucketing.BucketsHoldNoHeaders | src/services/resume.ts:170-181 | no bucket holds a header line, and every line in a bucket is a line of the input |
| Bucketing.NoHeadersGoToStart | src/services/resume.ts:178-180 | without headers every line goes, in order, to the start bucket and every other bucket is empty |
| Bucketing.LinesFollowHeader | src/services/resume.ts:166-181 | the lines after a header, up to the next one, are appended in order to that header's bucket, and the other buckets are unchanged |
| ResumeBasics.FirstEmail | src/services/resume.ts:85-88 | an e-mail is found exactly when the text contains the e-mail shape, and it is the match at the leftmost position where such a shape starts |
| ResumeBasics.FirstPhone | src/services/resume.ts:86-89 | a phone number is found exactly when some position matches; it is eleven digits starting with `1` and a digit 3–9, the text at the leftmost matching position |
| ResumeBasics.UrlMatchNoSpace | src/services/resume.ts:87 | every URL match is non-empty and has no white space |
| ResumeBasics.CanonicalNoSpace | src/services/resume.ts:90 | prefixing `https://` to a `www.` link keeps it non-empty and free of white space |
| ResumeBasics.UrlMatches | src/services/resume.ts:87-90 | every canonical link text is non-empty and free of white space |
| ResumeBasics.Links | src/services/resume.ts:90 | the links are the canonical URL matches without repeats, each kept at its first occurrence, and none is lost |
| ResumeBasics.LabelOf | src/services/resume.ts:99-103 | the label a line starts with is one of the alternatives, and there is none exactly when the line starts with no alternative |
| ResumeBasics.NameOf | src/services/resume.ts:94-97 | a name is found exactly when some line is a `姓名：` line or a short line (at most 12 UTF-16 code units) without contact details; the first `姓名：` line wins wherever it is, and without one the name is the first short plain line, trimmed |
| ResumeBasics.AstralLineNotShort | src/services/resume.ts:94 | a line of seven emoji is fourteen code units long, so it is not taken as a bare name |
| ResumeBasics.LabelledValue | src/services/resume.ts:99-103 | the title and the city come from the first line carrying one of their labels, with the label removed, and are absent exactly when no line has one |
| ResumeBasics.NameLabelWins | src/services/resume.ts:94-96 | when any line is a `姓名：` line, the name is taken from the first such line, even when a short line comes before it |
| ResumeBasics.NameFromShortLine | src/services/resume.ts:94-96 | without a `姓名：` line, a name is found exactly when some normalised line is at most 12 UTF-16 code units long and has no e-mail or phone, and it is the first such line, trimmed |
| ResumeBasics.ContactDetails | src/services/resume.ts:83-90 | the document's e-mail is present exactly when the text holds the e-mail shape, its phone exactly when some position matches the phone pattern, and its links have no repeats |
| ResumeEntries.ScanBlocksNonEmpty | src/services/resume.ts:113-120 | the loop never closes an empty group |
| ResumeEntries.ScanConcat | src/services/resume.ts:113-120 | the closed groups and the open buffer together hold every kept line, in order |
| ResumeEntries.GroupsShape | src/services/resume.ts:113-121 | the groups are non-empty and, joined, are the kept lines in order |
| ResumeEntries.GroupsEmptyIffBy | src/services/resume.ts:113-121 | there are no groups exactly when no line is kept |
| ResumeEntries.BlankSeparatesBy | src/services/resume.ts:115-117 | a dropped line splits the groups: the groups of the two sides, joined |
| ResumeEntries.NoBlankOneGroupBy | src/services/resume.ts:113-121 | a non-empty block of kept lines is one group |
| ResumeEntries.GroupsEmptyIff | src/services/resume.ts:113-121 | a bucket has no groups exactly when all its lines are blank |
| ResumeEntries.GroupsCoverLines | src/services/resume.ts:113-121 | the groups are non-empty and, joined, are the bucket's normalised non-blank lines |
| ResumeEntries.BlankLineSeparates | src/services/resume.ts:115-116 | a blank line ends a group: the groups of the two sides, joined |
| ResumeEntries.CollectGroups | src/services/resume.ts:111-121 | the grouping loop computes the groups |
| ResumeEntries.EntriesFromGroups | src/services/resume.ts:123-142 | the entry loop makes one entry per group, in order |
| ResumeEntries.ParseEntryBlocks | src/services/resume.ts:108-150 | `parseEntryBlocks` computes the entries of the bucket |
| ResumeEntries.BlankBucketFallback | src/services/resume.ts:145-149 | a bucket of blank lines gives no entry when it is empty and one entry with no title, no time and no bullets otherwise |
| ResumeEntries.EntriesPerGroup | src/services/resume.ts:123-147 | a bucket with a non-blank line gives exactly one entry per group, each built from its group |
| ResumeEntries.TimeOccurrenceIsMatch | src/services/resume.ts:134 | `head.replace(time, '')` removes the matched occurrence: the first occurrence of the time text is where the match was found |
| ResumeParser.SplitSkills | src/services/resume.ts:191 | the split gives at least one piece and no piece holds a separator |
| ResumeParser.SplitSkillsKeepsText | src/services/resume.ts:191 | the pieces, joined, are the text without its separators |
| ResumeParser.TrimmedPieceNoSep | src/services/resume.ts:192 | trimming a piece brings in no separator |
| ResumeParser.TokensShape | src/services/resume.ts:190-193 | every skill token is 2 to 24 UTF-16 code units long and holds no separator |
| ResumeParser.AstralTokenTooLong | src/services/resume.ts:193 | a token of thirteen emoji is 26 code units long and fails the 2–24 filter |
| ResumeParser.TakeDedup | src/services/resume.ts:188-195 | `Array.from(new Set(xs)).slice(0, n)` has at most `n` distinct elements from the input, and keeps all of them when there are at most `n` distinct ones |
| ResumeParser.SkillsShape | src/services/resume.ts:187-195 | at most 30 skills, no repeats, each 2 to 24 UTF-16 code units long without separators and taken from the tokens; when there are at most 30 distinct tokens, every token is kept |
| ResumeParser.SummaryFallbackShape | src/services/resume.ts:206-209 | the synthesised summary has at most 3 lines, each one of the first 4 normalised lines, with no e-mail or phone and normalised |
| ResumeParser.SummaryFallbackPrefix | src/services/resume.ts:206-209 | the synthesised summary is the first min(3, n) of the n top lines without contact details, in order; when at most 3 qualify, every one of them is in it |
| ResumeParser.ParseResumeText | src/services/resume.ts:152-214 | `parseResumeText` computes the document of its text, with the name and skill lengths measured in UTF-16 code units as `length` does |
| ResumeParser.UnreadBucketIgnored | src/services/resume.ts:184-212 | what the basics bucket and the inherited-name bucket hold never changes the document: no field reads them, and the contact details and the summary fallback come from the whole text |
| ResumeParser.ResumeCaps | src/services/resume.ts:184-212 | at most 8 summary lines, each non-empty and normalised; at most 30 distinct skills; at most 20 certificates and 20 awards; at most 30 extra lines |
| ResumeParser.NoSkillsIff | src/services/resume.ts:187-195 | there are no skills exactly when no piece of the joined skills bullets is 2 to 24 UTF-16 code units long once trimmed |
| ResumeParser.OnlyExtraBucket | src/services/resume.ts:184-212 | when only the `extra` bucket has lines, every section is empty except `extra` and the synthesised summary |
| ResumeParser.NoHeaderSections | src/services/resume.ts:166-181 | a text without headers puts every line, in order, into `extra` and nothing into any other bucket |
| ResumeParser.NoHeadersAllExtra | src/services/resume.ts:166-212 | a text without headers becomes a document whose only section content is `extra` and the synthesised summary |
| Markdown.Present | src/services/resume.ts:221-224 | an optional field adds a meta entry exactly when it is present and non-empty |
| Markdown.PushDashed | src/services/resume.ts:231 | the push loop appends `- item` for every item, in order |
| Markdown.FinishLoneLine | src/services/resume.ts:273 | a heading line with nothing after it finishes as that line and one newline |
| Markdown.FinishShape | src/services/resume.ts:273 | the finished text starts with the first line's first character and ends with exactly one newline after a non-space; a first line that does not end in a space is kept whole |
| Markdown.TitledShape | src/services/resume.ts:273 | a document whose first line is `# title` finishes as `# title…` ending in one newline |
| ResumeRender.PushHead | src/services/resume.ts:217-227 | the head loop gives the title line, the meta line when there is meta, and an empty line |
| Markdown.PushBlock | src/services/resume.ts:229-233 | a list section adds its heading, one `- ` line per item and an empty line, or nothing when the list is empty |
| ResumeRender.PushEntry | src/services/resume.ts:242-244 | one entry adds its `###` heading, its bullets and an empty line |
| ResumeRender.PushEntries | src/services/resume.ts:241-245 | the entry loop appends every entry's lines, in order |
| ResumeRender.PushEntriesBlock | src/services/resume.ts:239-246 | an entry section adds its heading and its entries, or nothing when there are none |
| ResumeRender.RenderResume | src/services/resume.ts:216-274 | `resumeToMarkdown` computes the Markdown of the document |
| ResumeRender.ResumeMarkdownShape | src/services/resume.ts:216-274 | the Markdown starts with `#`, ends with exactly one newline after a non-space, and starts with `# name` when the name does not end in a space |
| ResumeRender.AbsentNamePlaceholder | src/services/resume.ts:219 | without a name the Markdown starts with `# 候选人` |
| ResumeRender.ExtraNotRendered | src/services/resume.ts:229-272 | the `extra` lines never reach the Markdown |
| ResumeRender.MetaLineIff | src/services/resume.ts:220-226 | the meta line is present exactly when the title, city, e-mail or phone is non-empty or there is a link, and it is those joined by ` · ` |
| ResumeRender.EmptyResume | src/services/resume.ts:216-274 | an empty résumé renders as `# 候选人` and a newline |
| JobPatterns.DigitRun | src/services/jobPost.ts:15 | `\d{1,n}` is greedy: the run ends at the cap, at the end of the text or at a non-digit |
| JobPatterns.DigitsFirst | src/services/jobPost.ts:15 | every salary match starts with a digit |
| JobPatterns.RangeAtStart | src/services/jobPost.ts:15 | `30-50K·16薪` matches its first six characters |
| JobPatterns.SalaryIsRangeOnly | src/services/jobPost.ts:68-69 | the salary of `30-50K·16薪` is `30-50K`: the months count is not part of it |
| JobPatterns.FirstSalary | src/services/jobPost.ts:68-69 | a salary is found exactly when some position matches; it is the text matched at the leftmost matching position with its white space removed, non-empty and free of white space |
| JobPatterns.CityAt | src/services/jobPost.ts:16 | a city matches exactly where one of the twelve names starts, and the match is that name |
| JobPatterns.FirstCity | src/services/jobPost.ts:71-72 | the location is absent exactly when no city name occurs, and otherwise it is the leftmost city name in the text |
| JobParser.HeaderOrder | src/services/jobPost.ts:28-36 | `isHeader`: a line is a responsibilities, requirements, benefits or intro header by the first keyword group it contains, in that order, and is never an `extra` header |
| JobParser.RequirementCatchAll | src/services/jobPost.ts:32 | any line containing `要求` and no responsibilities keyword is a requirements header |
| JobParser.StripRecruitPrefix | src/services/jobPost.ts:78 | a title starting with `招聘`, `急聘`, `岗位` or `职位` is that word, an optional `:` or `：`, a run of white space and the result, with the colon taken whenever there is one and the whole white-space run removed; any other title is unchanged |
| JobParser.CutAt | src/services/jobPost.ts:79 | the cut pattern matches exactly where a section word starts and runs to the end of the line |
| JobParser.CutSectionWords | src/services/jobPost.ts:79 | the title is cut at the first section word, and no section word starts before the cut |
| JobParser.CompanyOf | src/services/jobPost.ts:84-85 | the company comes from the first `公司：` or `公司名称：` line, with the label removed, and is absent exactly when there is none |
| JobParser.TitleAbsentIff | src/services/jobPost.ts:75-81 | there is no title exactly when the trimmed text is empty |
| JobParser.VocabularyDistinct | src/services/jobPost.ts:115 | the tag vocabulary has no repeats |
| JobParser.TagHits | src/services/jobPost.ts:115-116 | every tag is a vocabulary word the seed contains, ignoring ASCII case |
| JobParser.TagHitsComplete | src/services/jobPost.ts:115-117 | a word is a tag exactly when it is in the vocabulary and the seed contains it |
| JobParser.TagHitsOrdered | src/services/jobPost.ts:114-118 | the tags have no repeats and keep the vocabulary's order |
| JobParser.TagStep | src/services/jobPost.ts:115-116 | each vocabulary word is added at most once, after the earlier hits |
| JobParser.TagsShape | src/services/jobPost.ts:113-118 | at most 10 distinct tags, each a vocabulary word the seed contains; when there are at most 10 hits, every hit is a tag |
| JobParser.CollectTags | src/services/jobPost.ts:113-118 | the tag loop computes the tags of the seed |
| JobParser.ParseJobText | src/services/jobPost.ts:49-126 | `parseJobText` computes the document of its text |
| JobParser.AssembleJob | src/services/jobPost.ts:106-123 | the second half of `parseJobText` computes the document of the extracted fields and the buckets |
| JobParser.JobCaps | src/services/jobPost.ts:106-123 | at most 12 intro lines (10 when a responsibilities or requirements section was found), 20 per section, 30 extra, 10 tags, no employment type; the tags depend only on the final title, requirements and responsibilities |
| JobParser.OnlyExtraBucket | src/services/jobPost.ts:106-123 | with only `extra` filled, the intro is the first 12 bullets of the whole text and the other sections are empty |
| JobParser.NoHeaderBuckets | src/services/jobPost.ts:88-104 | a text without headers puts every line, in order, into `extra` |
| JobParser.NoHeadersFallback | src/services/jobPost.ts:88-123 | a text without headers gives the first 12 bullets as intro, the first 30 as extra, and no responsibilities, requirements or benefits |
| JobRender.PushJobHead | src/services/jobPost.ts:129-138 | the head loop gives the title line, the meta line and the tags line when they apply, and an empty line |
| JobRender.RenderJob | src/services/jobPost.ts:128-161 | `jobToMarkdown` computes the Markdown of the document |
| JobRender.JobMarkdownShape | src/services/jobPost.ts:128-161 | the Markdown starts with `#`, ends with exactly one newline after a non-space, and starts with `# title` when the title does not end in a space |
| JobRender.AbsentTitlePlaceholder | src/services/jobPost.ts:130 | without a title the Markdown starts with `# 岗位名称` |
| JobRender.JobExtraNotRendered | src/services/jobPost.ts:140-159 | the `extra` lines never reach the Markdown |
| JobRender.JobHeadShape | src/services/jobPost.ts:131-138 | the meta line is present exactly when company, location, salary or employment type is non-empty and is them joined by ` · `; the tags line is present exactly when there are tags and is `标签：` and the tags joined by `、` |
| JobRender.EmptyJob | src/services/jobPost.ts:128-161 | an empty job post renders as `# 岗位名称` and a newline |
| AuthIdentity.NormalizeEmail | src/services/auth.ts:44-46 | a normalised address has no white space at either end and no upper-case ASCII letter |
| AuthIdentity.NormalizePhone | src/services/auth.ts:48-50 | a normalised number has no white space |
| AuthIdentity.NormalizePhoneTrimmed | src/services/auth.ts:49 | the final `trim()` never changes the number |
| AuthIdentity.NormalizeEmailIdempotent | src/services/auth.ts:44-46 | normalising an address twice is normalising it once |
| AuthIdentity.NormalizePhoneIdempotent | src/services/auth.ts:48-50 | normalising a number twice is normalising it once |
| AuthIdentity.PhoneSpacesIgnored | src/services/auth.ts:48-50 | white space anywhere in a number does not change it once normalised |
| AuthIdentity.EmailPatternSound | src/services/auth.ts:52-55 | an address the pattern accepts has one `@` after a non-empty part, and a dot in the domain with text on both sides |
| AuthIdentity.EmailPatternComplete | src/services/auth.ts:52-55 | every address of that shape is accepted |
| AuthIdentity.EmailShapeChars | src/services/auth.ts:54 | an address of that shape has no white space and only one `@` |
| AuthIdentity.EmailPatternIff | src/services/auth.ts:52-55 | the pattern accepts exactly the addresses of that shape, which hold no white space and only one `@` |
| AuthIdentity.ValidCnPhoneDigits | src/services/auth.ts:57-60 | a valid number is eleven digits once normalised |
| AuthIdentity.CnPhoneIgnoresSpaces | src/services/auth.ts:57-60 | white space anywhere in a number does not change whether it is valid |
| AuthIdentity.NormalizedIdentifier | src/services/auth.ts:93-94 | an identifier is looked up exactly when it is given and non-empty |
| AuthIdentity.FindUserByIdentifier | src/services/auth.ts:91-101 | `findUserByIdentifier` returns a user of the table with the requested role that shares the normalised e-mail or the normalised phone |
| AuthIdentity.FindUser | src/services/auth.ts:95-100 | the user found is the first, in table order, that matches the role and the identifier; there is none exactly when no user matches |
| AuthIdentity.MatchesAgree | src/services/auth.ts:95-100 | whether a user matches depends only on whether each identifier is given and on its value |
| AuthIdentity.FindUserAgree | src/services/auth.ts:91-101 | the same holds for the lookup over the whole table |
| AuthIdentity.FindUserAppend | src/services/auth.ts:95-100 | a user added after a failed lookup is found by that lookup |
| AuthIdentity.EmailShadowsPhone | src/services/auth.ts:97-98 | when both sides have an e-mail, only the e-mail decides the match and the phone is ignored |
| Auth.ValidEmailAfterNormalize | src/services/auth.ts:120 | validating an address that is already normalised gives the same answer as validating the raw address |
| Auth.ValidCnPhoneAfterNormalize | src/services/auth.ts:171 | validating a number that is already normalised gives the same answer as validating the raw number |
| Auth.EmailIdentifierTwice | src/services/auth.ts:161 | normalising an e-mail before the lookup normalises it again changes nothing |
| Auth.PhoneIdentifierTwice | src/services/auth.ts:162 | normalising a phone before the lookup normalises it again changes nothing |
| Auth.LookupAfterNormalize | src/services/auth.ts:174 | the duplicate check of `registerUser` finds the same user as a lookup with the raw identifiers |
| Auth.Decimal | src/services/auth.ts:123 | `toString()` of a natural number is a non-empty string of digits |
| Auth.DecimalRoundTrip | src/services/auth.ts:123 | reading the decimal string back gives the number |
| Auth.DecimalLength | src/services/auth.ts:123 | a number between 10^k and 10^(k+1) has k+1 digits |
| Auth.CodeOf | src/services/auth.ts:123 | the e-mail code is six digits whose value is 100000 plus the draw |
| Auth.CheckEmailCode | src/services/auth.ts:136-143 | the four outcomes partition the inputs, each stated as an if-and-only-if: a code is accepted exactly when a record exists for the normalised address, its deadline has not passed and its code is the trimmed input; `请先获取验证码` exactly when no record exists and the address is not an inherited property name; `已过期` exactly when a record exists and its deadline has passed; `验证码不正确` exactly when an unexpired record holds another code, or no record exists and the address is an inherited property name |
| Auth.InheritedCodeKey | src/services/auth.ts:136-141 | checking a code for the address `constructor` with no record finds the inherited `Object` constructor, which has neither an `expiresAt` nor a `code`, and so is refused as a wrong code |
| Auth.DefaultTtlWindow | src/services/auth.ts:118-143 | a code sent with the default lifetime of five minutes is accepted 300000 ms later and refused as expired 1 ms after that |
| Auth.SendThenVerify | src/services/auth.ts:118-143 | after a code is sent, checking the same address is refused as expired after the deadline and as wrong for another code, and succeeds otherwise; other addresses are unaffected |
| Auth.OptionalName | src/services/auth.ts:184-186 | an optional name is kept trimmed when it is non-blank, and dropped when it is absent or blank |
| Auth.RegistrationStops | src/services/auth.ts:164-172 | a request that fails a format or code check is refused with that check's message |
| Auth.RegistrationProceeds | src/services/auth.ts:174-187 | a request that passes the checks is refused when an account with its role and identifier exists, and otherwise makes the account from the normalised identifiers, the password hash, the time and the trimmed names |
| Auth.RegisteredUserMatches | src/services/auth.ts:174-187 | a new account matches its own identifier, no earlier account matched it, and it stores the hash of the password |
| Auth.RegistrationAccepted | src/services/auth.ts:164-187 | an accepted request had a non-empty identifier and no existing account, and the account is built from it |
| Auth.RegistrationRefusesExisting | src/services/auth.ts:174-175 | a request for an identifier that already has an account with that role is refused |
| Auth.RegisterThenLogin | src/services/auth.ts:145-204 | after a registration, registering again with the same request is refused, and logging in with the same identifier and password returns the new account |
| Auth.LoginOutcome | src/services/auth.ts:194-204 | `login` succeeds exactly when the lookup finds a user whose hash is the password's, and returns that user; it reports an unknown account exactly when the lookup finds none, and a wrong password exactly when it finds a user whose hash differs |
| Auth.AuthStore.constructor | src/services/auth.ts:71-85 | a fresh store has no users, no codes and no session |
| Auth.AuthStore.SendEmailCode | src/services/auth.ts:118-134 | an invalid address is refused and nothing changes; otherwise the record for the normalised address is replaced, with a code of six digits and a deadline `ttl` after now, and the users and the session are unchanged |
| Auth.AuthStore.VerifyEmailCode | src/services/auth.ts:136-143 | `verifyEmailCode` on the stored codes has the outcome `CheckEmailCode` describes: a missing code, then an expired one, then a wrong one is refused (an address naming an inherited property counts as a wrong code), and otherwise it succeeds |
| Auth.AuthStore.CheckRegistration | src/services/auth.ts:164-172 | the format and code checks of `registerUser`, in order |
| Auth.AuthStore.AddAccount | src/services/auth.ts:174-190 | a duplicate is refused with the user table unchanged; otherwise exactly the new account is appended; codes and session are unchanged |
| Auth.AuthStore.RegisterUser | src/services/auth.ts:145-192 | `registerUser` gives the registration outcome; an accepted account is appended to the users and a refusal leaves them unchanged |
| Auth.AuthStore.Login | src/services/auth.ts:194-204 | `login` refuses an unknown account, then a wrong password; the user returned is in the table and has the password's hash |
| Auth.AuthStore.CreateSession | src/services/auth.ts:103-112 | the session stored and returned is the token, the user's id and role, and now; users and codes are unchanged |
| Auth.AuthStore.ClearSession | src/services/auth.ts:114-116 | the session is cleared; users and codes are unchanged |
| JobStore.Pick | src/stores/jobs.ts:8-14 | `pick` fails with `Array is empty` exactly on an empty array, and otherwise returns one of its elements |
| JobStore.MakeJobShape | src/stores/jobs.ts:224-246 | a job takes its text from one of the category's templates, with the category added as last tag; every third job is senior (`资深` prefix unless the title has `专家`, Shanghai, 5-10 years) and the others draw location and experience from the tables; company, salary, months and education come from the tables |
| JobStore.NewJob | src/stores/jobs.ts:225-246 | the loop body builds that job |
| JobStore.FlattenAt | src/stores/jobs.ts:219-248 | the categories' jobs are laid out 32 per category, in category order |
| JobStore.CreatedAt | src/stores/jobs.ts:219-248 | before the shuffle, job `32·c + i` is the i-th job of the c-th category, with id `32·c + i + 1` |
| JobStore.CreatedIds | src/stores/jobs.ts:217-233 | before the shuffle, the job at position k has id k + 1 |
| JobStore.CreatedRoles | src/stores/jobs.ts:224-246 | each generated job has the template, id, tags, title, location, experience and salary shape of its position |
| JobStore.GenerateJobs | src/stores/jobs.ts:215-251 | `generateJobs` returns the created jobs reordered by the shuffle |
| JobStore.PermuteMultiset | src/stores/jobs.ts:250 | reordering by a bijection keeps every element with its multiplicity |
| JobStore.GeneratedIsPermutation | src/stores/jobs.ts:250 | the shuffled list is a permutation of the created jobs |
| JobStore.GeneratedIdsOnce | src/stores/jobs.ts:215-251 | the ids of the generated jobs are exactly 1 to the job count, each once |
| JobStore.GetJobById | src/stores/jobs.ts:258-260 | the job found has the id asked for and is the first in the list with it; there is none exactly when no job has it |
| JobStore.FilterJobs | src/stores/jobs.ts:261-269 | an empty query returns the list; otherwise every job kept matches the lower-cased query |
| JobStore.FilterJobsMembers | src/stores/jobs.ts:263-268 | a job is kept exactly when it is in the list and its title, company or some tag contains the query, ignoring ASCII case |
| JobStore.FilterJobsAppend | src/stores/jobs.ts:264-268 | filtering keeps the list order and works job by job |
| JobStore.FilterJobsIdempotent | src/stores/jobs.ts:261-269 | filtering twice with the same query is filtering once |
| JobStore.FilterJobsCaseInsensitive | src/stores/jobs.ts:263 | lower-casing the query first changes nothing |

## Left out

- Regular expressions are modelled by hand-written matchers, one per expression the core uses, each returning where the engine's match ends. There is no general regular-expression engine.
- ResumeBasics.NameOf, ResumeBasics.NameFromShortLine, ResumeParser.SummaryFallbackShape, ResumeParser.SummaryFallbackPrefix: `EMAIL_RE` and `PHONE_RE` carry the `g` flag, so `.test` in `extractBasics` and in the summary fallback (src/services/resume.ts:94, 208) moves the expression's `lastIndex` from one call to the next. The model tests each line afresh, from position 0.
- `toLowerCase` changes ASCII letters only, and `\s` is the set of white-space characters JavaScript defines. A `char` is one Unicode scalar value; where the core measures `length` (the name test and the skill filter), `Text.Utf16Length` counts a character beyond U+FFFF as the two code units JavaScript counts. Other positions and slices are counted in characters, which agrees with JavaScript for text without such characters.
- `hashPassword` (SHA-256 over UTF-8, hex-encoded) is a function parameter `hash` applied to the trimmed password. The hash itself is not modelled.
- `Date.now()` is a parameter `now`, with one value per call. The clock read inside `verifyEmailCode` during `registerUser` is the same `now` as the one `registerUser` stores.
- `Math.random()` is a parameter throughout:
  - the e-mail code draw is a number below 900000;
  - `randomId` gives the account id and the session token, which are parameters;
  - `randomInt`'s picks for each job are a `Draws` record;
  - the shuffle `sort(() => Math.random() - 0.5)` is a bijection `perm` (with its inverse `inv`) supplied by the caller.
- JobStore.GeneratedIsPermutation: with a random comparator, a real `sort` is not guaranteed to give every permutation, or any particular one. The model covers only that the result is some permutation.
- `localStorage` and src/services/storage.ts are the fields of `Auth.AuthStore` (users, codes, session). The load and save functions are not modelled separately, and neither are JSON parse failures in storage.
- `getUserById` (src/services/auth.ts:87-89) is not part of this model. It is a lookup by id with no logic beyond `find`.
- The template, company, salary, months, location, experience and education tables of src/stores/jobs.ts are parameters (`Tables`). Only their shape is assumed: each template table is non-empty and the draws are in range.
- Asynchronous execution (`async`/`await`) and thrown exceptions are modelled as `Result` values carrying the error message.
- Entry `location` and `summary` fields of the résumé types are never set by the parser and are not modelled. `employmentType` is never set by the job parser, and the model keeps it absent.
- src/stores/auth.ts, the router, the views, src/main.ts, src/services/clipboard.ts and src/types are not part of this model.
- The job parser's `normalizeLine` and `splitBullets` (src/services/jobPost.ts:20-47) are textually the same as the résumé parser's, and the model uses one definition for both. The two bucket loops (src/services/resume.ts:166-181 and src/services/jobPost.ts:88-104) are not the same text: the résumé loop trims each line, asks `isSectionHeader`, reads `buckets[current] ?? []` and falls back to `'extra'` when no section is open, while the job loop normalises each line, asks `isHeader` and writes into buckets created beforehand. `Bucketing` takes the header classifier and the starting bucket as parameters, and each parser supplies its own, the résumé parser passes `ResumeSections.HeaderOf` (`IsSectionHeader` of the trimmed line) and `Extra` (its `null` falls back to `'extra'`), the job parser passes `JobParser.Classify` (`IsHeader` of the normalised line) and `Extra`. The buckets are a map read through `Get`, which gives `[]` for a missing key; this models both `buckets[key] ?? []` and the job loop's pre-created empty buckets, which no result of the model can tell apart.
- JobPatterns.SalaryAt: the salary expression is matched item by item without backtracking. Each of its items is a bounded greedy digit run, white space, or one character from a set, and the next item can never start with a character the previous run consumed, so backtracking never finds another match.
- Header lookups and the e-mail code table are plain JavaScript objects, so a key missing from them can still find a property every object inherits from `Object.prototype`. The model covers the twelve standard inherited names (`constructor`, `toString`, `valueOf`, `hasOwnProperty`, `isPrototypeOf`, `propertyIsEnumerable`, `toLocaleString`, `__proto__` and the four `__define…`/`__lookup…` accessors). A header line naming one of them opens a bucket no field reads; an e-mail code check for such an address with no record is refused as a wrong code. Properties a browser adds to `Object.prototype` beyond these are not modelled.
- Where a natural reading of the code differs from what it does, the model follows the code:
  - a résumé header must be an exact alias after stripping, not a substring;
  - `2020-2022` gives the entry time `2020-20`;
  - the salary is the range alone, without the months count.
