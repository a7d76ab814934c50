/**
 * `parseJobText` (src/services/jobPost.ts:28-36, 49-126): salary and city
 * from the whole text, title and company from the first fitting lines,
 * the other lines filed into five buckets under the most recent header,
 * the caps, the tag heuristic and the fallback for a post without headers.
 */
module JobParser {
  import opened Wrappers
  import opened Text
  import opened Matching
  import opened LineNormalizer
  import opened Bucketing
  import opened JobPatterns
  import ResumeSections

  /** `BucketKey`. */
  datatype Bucket = Intro | Responsibilities | Requirements | Benefits | Extra

  /** `JobPostDoc`. */
  datatype JobPost = JobPost(
    title: Option<string>,
    company: Option<string>,
    location: Option<string>,
    salary: Option<string>,
    employmentType: Option<string>,
    intro: seq<string>,
    responsibilities: seq<string>,
    requirements: seq<string>,
    benefits: seq<string>,
    extra: seq<string>,
    tags: seq<string>)

  // ---------------------------------------------------------------- headers

  const ResponsibilityWords: seq<string> := ["岗位职责", "工作职责", "你将负责", "工作内容"]
  const RequirementWords: seq<string> := ["任职要求", "职位要求", "你需要", "要求"]
  const BenefitWords: seq<string> := ["福利", "我们提供", "你将获得", "薪酬福利"]
  const IntroWords: seq<string> := ["职位描述", "岗位介绍", "关于我们", "团队介绍"]

  /** The text contains one of the words (`/(a|b|c|d)/.test(raw)`). */
  predicate HasAny(raw: string, words: seq<string>) {
    exists k :: 0 <= k < |words| && Contains(raw, words[k])
  }

  /** The line with `:`, `：`, `-` and white space deleted, then trimmed. */
  function Stripped(line: string): string {
    Trim(Filter(line, ResumeSections.KeepInHeader))
  }

  /** `isHeader`: the first keyword group, in a fixed order, with a word in the stripped line. */
  function IsHeader(line: string): Option<Bucket> {
    var raw := Stripped(line);
    if raw == [] then None
    else if HasAny(raw, ResponsibilityWords) then Some(Responsibilities)
    else if HasAny(raw, RequirementWords) then Some(Requirements)
    else if HasAny(raw, BenefitWords) then Some(Benefits)
    else if HasAny(raw, IntroWords) then Some(Intro)
    else None
  }

  /** No keyword fits in an empty line. */
  lemma NothingInEmpty(words: seq<string>)
    requires forall k :: 0 <= k < |words| ==> words[k] != []
    ensures !HasAny([], words)
  {
  }

  /**
   * The first group with a hit wins: responsibilities, then requirements,
   * then benefits, then intro; a line without any keyword is no header,
   * and no line is ever an `extra` header.
   */
  lemma HeaderOrder(line: string)
    ensures IsHeader(line) == Some(Responsibilities) <==> HasAny(Stripped(line), ResponsibilityWords)
    ensures IsHeader(line) == Some(Requirements) <==>
      !HasAny(Stripped(line), ResponsibilityWords) && HasAny(Stripped(line), RequirementWords)
    ensures IsHeader(line) == Some(Benefits) <==>
      !HasAny(Stripped(line), ResponsibilityWords) && !HasAny(Stripped(line), RequirementWords)
      && HasAny(Stripped(line), BenefitWords)
    ensures IsHeader(line) == Some(Intro) <==>
      !HasAny(Stripped(line), ResponsibilityWords) && !HasAny(Stripped(line), RequirementWords)
      && !HasAny(Stripped(line), BenefitWords) && HasAny(Stripped(line), IntroWords)
    ensures IsHeader(line) != Some(Extra)
  {
    NothingInEmpty(ResponsibilityWords);
    NothingInEmpty(RequirementWords);
    NothingInEmpty(BenefitWords);
    NothingInEmpty(IntroWords);
  }

  /** Any line whose stripped form contains `要求` is a requirements header, unless a responsibilities word comes first. */
  lemma RequirementCatchAll(line: string)
    requires Contains(Stripped(line), "要求")
    requires !HasAny(Stripped(line), ResponsibilityWords)
    ensures IsHeader(line) == Some(Requirements)
  {
    assert RequirementWords[3] == "要求";
    HeaderOrder(line);
  }

  /** How the bucket loop classifies a line: by its normalised text. */
  function Classify(l: string): Option<Bucket> {
    IsHeader(NormalizeLine(l))
  }

  // ------------------------------------------------------------------ title

  const RecruitWords: seq<string> := ["招聘", "急聘", "岗位", "职位"]

  /**
   * One leading recruiting word (招聘, 急聘, 岗位 or 职位), the colon after it
   * if there is one, and all the white space after that are removed: the
   * line is the word, the colon or nothing, a run of white space, and the
   * result, which does not start with white space; a colon right after the
   * word is always taken.
   */
  function StripRecruitPrefix(l: string): (r: string)
    ensures |r| <= |l| && r == l[|l| - |r|..]
    ensures |l| >= 2 && l[..2] in RecruitWords ==> |r| <= |l| - 2
    ensures !(|l| >= 2 && l[..2] in RecruitWords) ==> r == l
    ensures |l| >= 2 && l[..2] in RecruitWords ==>
      exists c: string, w: string :: (c == "" || c == ":" || c == "：") && AllSpace(w) && l == l[..2] + c + w + r
        && (c == "" ==> |l| == 2 || (l[2] != ':' && l[2] != '：'))
    ensures |l| >= 2 && l[..2] in RecruitWords ==> r == [] || !IsSpace(r[0])
  {
    if |l| >= 2 && l[..2] in RecruitWords then
      var k := if |l| > 2 && (l[2] == ':' || l[2] == '：') then 3 else 2;
      var e := SpanEnd(l, k, IsSpace);
      PrefixPieces(l, k, e);
      l[e..]
    else l
  }

  /** The pieces `StripRecruitPrefix` cuts a line into: the word, the colon (if any), the white space, the rest. */
  lemma PrefixPieces(l: string, k: nat, e: nat)
    requires |l| >= 2 && k == (if |l| > 2 && (l[2] == ':' || l[2] == '：') then 3 else 2)
    requires k <= e <= |l| && forall i :: k <= i < e ==> IsSpace(l[i])
    ensures l == l[..2] + l[2..k] + l[k..e] + l[e..]
    ensures l[2..k] == "" || l[2..k] == ":" || l[2..k] == "："
    ensures l[2..k] == "" ==> |l| == 2 || (l[2] != ':' && l[2] != '：')
    ensures AllSpace(l[k..e])
  {
    if k == 3 {
      assert l[2..k] == [l[2]];
    }
    assert l == l[..2] + l[2..k] + l[k..e] + l[e..];
  }

  const CutWords: seq<string> := ["岗位职责", "任职要求", "职位描述"]

  predicate CutWordAt(s: string, i: nat) {
    exists k :: 0 <= k < |CutWords| && OccursAt(s, CutWords[k], i)
  }

  /** `(岗位职责|任职要求|职位描述).*$` at `i`: a cut word, then the rest of the line. */
  function CutAt(s: string, i: nat): (r: Option<nat>)
    ensures r.Some? <==> CutWordAt(s, i)
    ensures r.Some? ==> i < |s| == r.value
  {
    if CutWordAt(s, i) then
      var k :| 0 <= k < |CutWords| && OccursAt(s, CutWords[k], i);
      assert |CutWords[k]| > 0;
      Some(|s|)
    else None
  }

  lemma CutMatchesNonEmpty(s: string)
    ensures NonEmptyMatches(s, CutAt)
  {
  }

  /** Everything from the leftmost of 岗位职责, 任职要求 and 职位描述 on is cut off; no such word starts before the cut. */
  function CutSectionWords(l: string): (r: string)
    ensures |r| <= |l| && r == l[..|r|]
    ensures forall j: nat :: j < |r| ==> !CutWordAt(l, j)
    ensures |r| < |l| ==> CutWordAt(l, |r|)
  {
    CutMatchesNonEmpty(l);
    match FirstMatchFrom(l, 0, CutAt)
    case None =>
      forall j: nat | j < |l| ensures !CutWordAt(l, j) {
        assert CutAt(l, j).None?;
      }
      l
    case Some(p) =>
      forall j: nat | j < p ensures !CutWordAt(l, j) {
        assert CutAt(l, j).None?;
      }
      assert CutAt(l, p).Some?;
      l[..p]
  }

  /** The title made from the first meaningful line. */
  function CleanTitle(l: string): string {
    Trim(CutSectionWords(StripRecruitPrefix(l)))
  }

  /** `title`: from the first non-empty normalised line, or absent when there is none. */
  function TitleOf(lines: seq<string>): Option<string> {
    var ns := NormalizedLines(lines);
    if ns == [] then None else Some(CleanTitle(ns[0]))
  }

  // ---------------------------------------------------------------- company

  /** `/^公司[:：]/.test(l) || /^公司名称[:：]/.test(l)`. */
  predicate HasCompanyLabel(l: string) {
    StartsWith(l, "公司:") || StartsWith(l, "公司：") || StartsWith(l, "公司名称:") || StartsWith(l, "公司名称：")
  }

  /** The value after the label, trimmed. */
  function CompanyValue(l: string): string
    requires HasCompanyLabel(l)
  {
    var k := if StartsWith(l, "公司:") || StartsWith(l, "公司：") then 3 else 5;
    Trim(l[k..])
  }

  /** `company`: from the first normalised line carrying the label. */
  function CompanyOf(lines: seq<string>): (r: Option<string>)
    ensures r.None? <==> forall k :: 0 <= k < |NormalizedLines(lines)| ==> !HasCompanyLabel(NormalizedLines(lines)[k])
    ensures r.Some? ==> exists k :: (0 <= k < |NormalizedLines(lines)| && HasCompanyLabel(NormalizedLines(lines)[k])
      && (forall j :: 0 <= j < k ==> !HasCompanyLabel(NormalizedLines(lines)[j]))
      && r.value == CompanyValue(NormalizedLines(lines)[k]))
  {
    var ns := NormalizedLines(lines);
    match FirstIndex(ns, HasCompanyLabel)
    case None => None
    case Some(k) => Some(CompanyValue(ns[k]))
  }

  // ------------------------------------------------------------------- tags

  /** The tag vocabulary, in the order the loop visits it. */
  const Vocabulary: seq<string> := [
    "自动驾驶", "感知", "规划", "控制", "SLAM", "LiDAR", "BEV",
    "Transformer", "C++", "Python", "CUDA", "TensorRT", "ROS", "多传感器融合"]

  /** `tagSeed.toLowerCase().includes(t.toLowerCase())`. */
  predicate TagHit(seed: string, t: string) {
    Contains(Lower(seed), Lower(t))
  }

  /** The words of `vocab` that hit, in the order of `vocab`. */
  function TagHits(seed: string, vocab: seq<string>): (r: seq<string>)
    ensures |r| <= |vocab|
    ensures forall i :: 0 <= i < |r| ==> r[i] in vocab && TagHit(seed, r[i])
  {
    if vocab == [] then []
    else
      var init := TagHits(seed, vocab[..|vocab| - 1]);
      var t := vocab[|vocab| - 1];
      if TagHit(seed, t) then init + [t] else init
  }

  /** `${doc.title ?? ''} ${doc.requirements.join(' ')} ${doc.responsibilities.join(' ')}`. */
  function TagSeed(title: Option<string>, requirements: seq<string>, responsibilities: seq<string>): string {
    (if title.Some? then title.value else "") + " " + Join(requirements, " ") + " " + Join(responsibilities, " ")
  }

  /** `tags`: the vocabulary words that hit, at most ten. */
  function TagsOf(seed: string): seq<string> {
    Take(TagHits(seed, Vocabulary), 10)
  }

  lemma VocabularyDistinct()
    ensures NoDuplicates(Vocabulary)
  {
  }

  /** A word of the vocabulary hits exactly when it is among the hits. */
  lemma {:induction false} TagHitsComplete(seed: string, vocab: seq<string>, t: string)
    ensures t in TagHits(seed, vocab) <==> t in vocab && TagHit(seed, t)
  {
    if vocab != [] {
      var init := vocab[..|vocab| - 1];
      TagHitsComplete(seed, init, t);
      assert vocab == init + [vocab[|vocab| - 1]];
    }
  }

  /** The hits keep the order of the vocabulary, and a vocabulary without repeats gives hits without repeats. */
  lemma {:induction false} TagHitsOrdered(seed: string, vocab: seq<string>)
    requires NoDuplicates(vocab)
    ensures NoDuplicates(TagHits(seed, vocab))
    ensures forall i, j :: 0 <= i < j < |TagHits(seed, vocab)| ==>
      exists a, b :: 0 <= a < b < |vocab| && vocab[a] == TagHits(seed, vocab)[i] && vocab[b] == TagHits(seed, vocab)[j]
  {
    if vocab != [] {
      var init := vocab[..|vocab| - 1];
      var t := vocab[|vocab| - 1];
      TagHitsOrdered(seed, init);
      var h := TagHits(seed, init);
      if TagHit(seed, t) {
        var r := h + [t];
        TagHitsComplete(seed, init, t);
        assert t !in init;
        forall i, j | 0 <= i < j < |r|
          ensures exists a, b :: 0 <= a < b < |vocab| && vocab[a] == r[i] && vocab[b] == r[j]
        {
          if j == |h| {
            assert r[i] in init;
            var a :| 0 <= a < |init| && init[a] == r[i];
            assert vocab[a] == r[i] && vocab[|vocab| - 1] == r[j];
          } else {
            var a, b :| 0 <= a < b < |init| && init[a] == h[i] && init[b] == h[j];
            assert vocab[a] == r[i] && vocab[b] == r[j];
          }
        }
      } else {
        forall i, j | 0 <= i < j < |h|
          ensures exists a, b :: 0 <= a < b < |vocab| && vocab[a] == h[i] && vocab[b] == h[j]
        {
          var a, b :| 0 <= a < b < |init| && init[a] == h[i] && init[b] == h[j];
          assert vocab[a] == h[i] && vocab[b] == h[j];
        }
      }
    }
  }

  /**
   * At most ten tags, no two equal, each a vocabulary word found in the
   * seed; with at most ten hits, every word found is a tag.
   */
  lemma TagsShape(seed: string)
    ensures |TagsOf(seed)| <= 10
    ensures NoDuplicates(TagsOf(seed))
    ensures forall i :: 0 <= i < |TagsOf(seed)| ==> TagsOf(seed)[i] in Vocabulary && TagHit(seed, TagsOf(seed)[i])
    ensures |TagHits(seed, Vocabulary)| <= 10 ==>
      forall t :: t in Vocabulary && TagHit(seed, t) ==> t in TagsOf(seed)
  {
    VocabularyDistinct();
    TagHitsOrdered(seed, Vocabulary);
    var h := TagHits(seed, Vocabulary);
    var r := TagsOf(seed);
    assert forall i :: 0 <= i < |r| ==> r[i] == h[i];
    forall t | t in Vocabulary && TagHit(seed, t) ensures t in h {
      TagHitsComplete(seed, Vocabulary, t);
    }
  }

  /** One more vocabulary word: a hit is new to the tags found so far and is appended, a miss changes nothing. */
  lemma TagStep(seed: string, k: nat)
    requires k < |Vocabulary|
    ensures TagHit(seed, Vocabulary[k]) ==> Vocabulary[k] !in TagHits(seed, Vocabulary[..k])
    ensures TagHits(seed, Vocabulary[..k + 1])
         == if TagHit(seed, Vocabulary[k]) then TagHits(seed, Vocabulary[..k]) + [Vocabulary[k]] else TagHits(seed, Vocabulary[..k])
  {
    assert Vocabulary[..k + 1][..k] == Vocabulary[..k];
    VocabularyDistinct();
    TagHitsComplete(seed, Vocabulary[..k], Vocabulary[k]);
  }

  /** The tag loop (src/services/jobPost.ts:113-118); adding to the set is skipped for a word already in it. */
  method CollectTags(seed: string) returns (tags: seq<string>)
    ensures tags == TagsOf(seed)
  {
    var lowered := Lower(seed);
    tags := [];
    for k := 0 to |Vocabulary|
      invariant tags == TagHits(seed, Vocabulary[..k])
    {
      var t := Vocabulary[k];
      TagStep(seed, k);
      if Contains(lowered, Lower(t)) && t !in tags {
        tags := tags + [t];
      }
    }
    assert Vocabulary[..|Vocabulary|] == Vocabulary;
    tags := Take(tags, 10);
  }

  // --------------------------------------------------------------- assembly

  /** `raw.split('\n').map((l) => l.trimEnd())`. */
  function JobLines(raw: string): seq<string> {
    Map(Split(raw, '\n'), TrimEnd)
  }

  /** The document built from the extracted fields, the lines and the buckets. */
  function JobDocOf(title: Option<string>, company: Option<string>, location: Option<string>, salary: Option<string>,
                    lines: seq<string>, b: map<Bucket, seq<string>>): JobPost {
    var responsibilities := Take(Bullets(Get(b, Responsibilities)), 20);
    var requirements := Take(Bullets(Get(b, Requirements)), 20);
    var intro := Take(Bullets(Get(b, Intro)), 10);
    JobPost(
      title, company, location, salary, None,
      if responsibilities == [] && requirements == [] then Take(Bullets(lines), 12) else intro,
      responsibilities,
      requirements,
      Take(Bullets(Get(b, Benefits)), 20),
      Take(Bullets(Get(b, Extra)), 30),
      TagsOf(TagSeed(title, requirements, responsibilities)))
  }

  /** `parseJobText` as a function. */
  function JobOf(text: string): JobPost {
    var raw := RawText(text);
    var lines := JobLines(raw);
    JobDocOf(TitleOf(lines), CompanyOf(lines), FirstCity(raw), FirstSalary(raw), lines, BucketsOf(lines, Classify, Extra))
  }

  /** `parseJobText`. */
  method ParseJobText(text: string) returns (doc: JobPost)
    ensures doc == JobOf(text)
  {
    var raw := Trim(CrlfToLf(text));
    var lines := JobLines(raw);
    var salary := FirstSalary(raw);
    var location := FirstCity(raw);
    var title := TitleOf(lines);
    var company := CompanyOf(lines);
    var buckets := BucketLines(lines, Classify, Extra);
    doc := AssembleJob(title, company, location, salary, lines, buckets);
  }

  /** The second half of `parseJobText`: bullets per bucket, the caps, the tags and the intro fallback. */
  method AssembleJob(title: Option<string>, company: Option<string>, location: Option<string>, salary: Option<string>,
                     lines: seq<string>, buckets: map<Bucket, seq<string>>) returns (doc: JobPost)
    ensures doc == JobDocOf(title, company, location, salary, lines, buckets)
  {
    var intro := SplitBullets(Get(buckets, Intro));
    var responsibilities := SplitBullets(Get(buckets, Responsibilities));
    var requirements := SplitBullets(Get(buckets, Requirements));
    var benefits := SplitBullets(Get(buckets, Benefits));
    var extra := SplitBullets(Get(buckets, Extra));
    intro := Take(intro, 10);
    responsibilities := Take(responsibilities, 20);
    requirements := Take(requirements, 20);
    var tags := CollectTags(TagSeed(title, requirements, responsibilities));
    if |responsibilities| == 0 && |requirements| == 0 {
      var all := SplitBullets(lines);
      intro := Take(all, 12);
    }
    doc := JobPost(title, company, location, salary, None, intro, responsibilities, requirements,
                   Take(benefits, 20), Take(extra, 30), tags);
  }

  /** The caps on every list, and the tags depend only on the final title, requirements and responsibilities. */
  lemma JobCaps(title: Option<string>, company: Option<string>, location: Option<string>, salary: Option<string>,
                lines: seq<string>, b: map<Bucket, seq<string>>)
    ensures |JobDocOf(title, company, location, salary, lines, b).intro| <= 12
    ensures |JobDocOf(title, company, location, salary, lines, b).responsibilities| <= 20
    ensures |JobDocOf(title, company, location, salary, lines, b).requirements| <= 20
    ensures |JobDocOf(title, company, location, salary, lines, b).benefits| <= 20
    ensures |JobDocOf(title, company, location, salary, lines, b).extra| <= 30
    ensures |JobDocOf(title, company, location, salary, lines, b).tags| <= 10
    ensures JobDocOf(title, company, location, salary, lines, b).employmentType.None?
    ensures var doc := JobDocOf(title, company, location, salary, lines, b);
      doc.responsibilities != [] || doc.requirements != [] ==> |doc.intro| <= 10
    ensures var doc := JobDocOf(title, company, location, salary, lines, b);
      doc.tags == TagsOf(TagSeed(doc.title, doc.requirements, doc.responsibilities))
  {
  }

  /** Only the `extra` bucket filled: the fallback intro, and every other list empty. */
  lemma OnlyExtraBucket(title: Option<string>, company: Option<string>, location: Option<string>, salary: Option<string>,
                        lines: seq<string>, b: map<Bucket, seq<string>>)
    requires forall k :: k != Extra ==> Get(b, k) == []
    ensures JobDocOf(title, company, location, salary, lines, b).intro == Take(Bullets(lines), 12)
    ensures JobDocOf(title, company, location, salary, lines, b).extra == Take(Bullets(Get(b, Extra)), 30)
    ensures JobDocOf(title, company, location, salary, lines, b).responsibilities == []
    ensures JobDocOf(title, company, location, salary, lines, b).requirements == []
    ensures JobDocOf(title, company, location, salary, lines, b).benefits == []
  {
    assert Get(b, Responsibilities) == [] && Get(b, Requirements) == [] && Get(b, Benefits) == [];
    assert Bullets([]) == [];
  }

  /** Without header lines, every line goes to `extra` and the other buckets stay empty. */
  lemma NoHeaderBuckets(lines: seq<string>, classify: string -> Option<Bucket>)
    requires forall i :: 0 <= i < |lines| ==> classify(lines[i]).None?
    ensures Get(BucketsOf(lines, classify, Extra), Extra) == lines
    ensures Get(BucketsOf(lines, classify, Extra), Intro) == []
    ensures Get(BucketsOf(lines, classify, Extra), Responsibilities) == []
    ensures Get(BucketsOf(lines, classify, Extra), Requirements) == []
    ensures Get(BucketsOf(lines, classify, Extra), Benefits) == []
  {
    NoHeadersGoToStart(lines, classify, Extra);
  }

  lemma NoHeadersFallback(title: Option<string>, company: Option<string>, location: Option<string>, salary: Option<string>,
                          lines: seq<string>)
    requires forall i :: 0 <= i < |lines| ==> Classify(lines[i]).None?
    ensures JobDocOf(title, company, location, salary, lines, BucketsOf(lines, Classify, Extra)).intro == Take(Bullets(lines), 12)
    ensures JobDocOf(title, company, location, salary, lines, BucketsOf(lines, Classify, Extra)).extra == Take(Bullets(lines), 30)
    ensures JobDocOf(title, company, location, salary, lines, BucketsOf(lines, Classify, Extra)).responsibilities == []
    ensures JobDocOf(title, company, location, salary, lines, BucketsOf(lines, Classify, Extra)).requirements == []
    ensures JobDocOf(title, company, location, salary, lines, BucketsOf(lines, Classify, Extra)).benefits == []
  {
    NoHeaderBuckets(lines, Classify);
    var b := BucketsOf(lines, Classify, Extra);
    forall k | k != Extra ensures Get(b, k) == [] {
      assert k.Intro? || k.Responsibilities? || k.Requirements? || k.Benefits?;
    }
    OnlyExtraBucket(title, company, location, salary, lines, b);
  }

  /** Text with a character that is not white space in some line. */
  lemma {:induction false} JoinHasNonSpace(parts: seq<string>, sep: string, i: nat)
    requires AllSpace(sep) && i < |Join(parts, sep)| && !IsSpace(Join(parts, sep)[i])
    ensures exists k :: 0 <= k < |parts| && !AllSpace(parts[k])
  {
    if |parts| == 1 {
      assert !AllSpace(parts[0]);
    } else if |parts| > 1 {
      var rest := sep + Join(parts[1..], sep);
      assert Join(parts, sep) == parts[0] + rest;
      if i < |parts[0]| {
        assert parts[0][i] == Join(parts, sep)[i];
      } else if i < |parts[0]| + |sep| {
        assert false;
      } else {
        var i' := i - |parts[0]| - |sep|;
        assert Join(parts[1..], sep)[i'] == Join(parts, sep)[i];
        JoinHasNonSpace(parts[1..], sep, i');
        var k :| 0 <= k < |parts[1..]| && !AllSpace(parts[1..][k]);
        assert parts[k + 1] == parts[1..][k];
      }
    }
  }

  /** `trimEnd` keeps a line that is not all white space not all white space. */
  lemma TrimEndNotBlank(p: string)
    requires !AllSpace(p)
    ensures !AllSpace(TrimEnd(p))
  {
    var r := TrimEnd(p);
    var i :| 0 <= i < |p| && !IsSpace(p[i]);
    if i >= |r| {
      assert false;
    }
    assert r[i] == p[i];
  }

  /** The title is absent exactly when the trimmed text is empty. */
  lemma TitleAbsentIff(text: string)
    ensures TitleOf(JobLines(RawText(text))).None? <==> RawText(text) == []
  {
    TitleAbsentIffTrimmed(RawText(text));
  }

  lemma TitleAbsentIffTrimmed(raw: string)
    requires raw == [] || !IsSpace(raw[0])
    ensures TitleOf(JobLines(raw)).None? <==> raw == []
  {
    var lines := JobLines(raw);
    assert TitleOf(lines).None? <==> NormalizedLines(lines) == [];
    NormalizedLinesEmptyIff(lines);
    if raw == [] {
      EmptyTextBlankLine();
    } else {
      TextHasLine(raw);
    }
  }

  /** Empty text is one empty line. */
  lemma EmptyTextBlankLine()
    ensures |JobLines([])| == 1 && AllSpace(JobLines([])[0])
  {
    assert Split([], '\n') == [""];
  }

  /** Text that starts with a non-space character has a line that is not blank. */
  lemma TextHasLine(raw: string)
    requires raw != [] && !IsSpace(raw[0])
    ensures exists k :: 0 <= k < |JobLines(raw)| && !AllSpace(JobLines(raw)[k])
  {
    var parts := Split(raw, '\n');
    JoinHasNonSpace(parts, "\n", 0);
    var k :| 0 <= k < |parts| && !AllSpace(parts[k]);
    TrimEndNotBlank(parts[k]);
    assert JobLines(raw)[k] == TrimEnd(parts[k]);
  }
}
