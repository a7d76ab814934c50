/**
 * `parseResumeText` (src/services/resume.ts:152-214): the text is cut into
 * lines, the lines are filed into section buckets under the most recent
 * header, and each document field is built from its bucket with a cap;
 * an empty summary is made up from the first lines of the text.
 */
module ResumeParser {
  import opened Wrappers
  import opened Text
  import opened Matching
  import opened LineNormalizer
  import opened ResumePatterns
  import opened ResumeSections
  import opened Bucketing
  import opened ResumeBasics
  import opened ResumeEntries

  /** `ResumeDoc`. */
  datatype ResumeDoc = ResumeDoc(
    basics: Basics,
    summary: seq<string>,
    skills: seq<string>,
    experience: seq<Entry>,
    projects: seq<Entry>,
    education: seq<Entry>,
    certifications: seq<string>,
    awards: seq<string>,
    extra: seq<string>)

  // ----------------------------------------------------------------- skills

  /** The class `[,，/｜|、\s]` the skill list is split on. */
  predicate IsSkillSep(c: char) {
    c == ',' || c == '，' || c == '/' || c == '｜' || c == '|' || c == '、' || IsSpace(c)
  }

  predicate NotSkillSep(c: char) { !IsSkillSep(c) }

  /**
   * `split(/[,，/｜|、\s]+/)`: the pieces between maximal runs of
   * separators; a run at either end gives an empty first or last piece.
   */
  function SplitSkills(s: string): (r: seq<string>)
    ensures |r| >= 1
    ensures forall k, c :: 0 <= k < |r| && c in r[k] ==> NotSkillSep(c)
    decreases |s|
  {
    match FirstIndex(s, IsSkillSep)
    case None => [s]
    case Some(i) =>
      var j := SpanEnd(s, i, IsSkillSep);
      [s[..i]] + SplitSkills(s[j..])
  }

  /** Splitting loses exactly the separators: the pieces put together are the text without them. */
  lemma {:induction false} SplitSkillsKeepsText(s: string)
    ensures Join(SplitSkills(s), "") == Filter(s, NotSkillSep)
    decreases |s|
  {
    match FirstIndex(s, IsSkillSep)
    case None =>
      FilterKeepsAll(s, NotSkillSep);
    case Some(i) =>
      var j := SpanEnd(s, i, IsSkillSep);
      var rest := SplitSkills(s[j..]);
      assert Filter(s, NotSkillSep) == s[..i] + Filter(s[j..], NotSkillSep) by {
        assert s == s[..i] + s[i..j] + s[j..];
        FilterSkipsRun(s[..i], s[i..j], s[j..], NotSkillSep);
      }
      assert Join(SplitSkills(s), "") == s[..i] + Join(rest, "") by {
        assert SplitSkills(s) == [s[..i]] + rest;
        assert Join(SplitSkills(s), "") == s[..i] + "" + Join(rest, "");
      }
      SplitSkillsKeepsText(s[j..]);
  }

  /** `s.length >= 2 && s.length <= 24`, in UTF-16 code units. */
  predicate SkillLength(s: string) { 2 <= Utf16Length(s) <= 24 }

  /** Thirteen emoji are 26 code units: too long for a skill, though only thirteen characters. */
  lemma AstralTokenTooLong()
    ensures !SkillLength(seq(13, _ => '\U{1F600}'))
  {
  }

  /** The skill tokens: the pieces, trimmed, of length 2 to 24. */
  function SkillTokens(bucket: seq<string>): seq<string> {
    Filter(Map(SplitSkills(Join(Bullets(bucket), " ")), Trim), SkillLength)
  }

  /** `skills`: the tokens without repeats, each where it first occurs, at most 30. */
  function SkillList(bucket: seq<string>): seq<string> {
    Take(Dedup(SkillTokens(bucket)), 30)
  }

  /** A trimmed piece holds no separator either. */
  lemma TrimmedPieceNoSep(p: string)
    requires forall c :: c in p ==> NotSkillSep(c)
    ensures forall c :: c in Trim(p) ==> NotSkillSep(c)
  {
    var t := Trim(p);
    var off := |p| - |TrimStart(p)|;
    forall c | c in t ensures NotSkillSep(c) {
      var k :| 0 <= k < |t| && t[k] == c;
      assert t[k] == p[off + k];
    }
  }

  /** Every token is 2 to 24 characters long and holds no separator. */
  lemma TokensShape(bucket: seq<string>)
    ensures forall x :: x in SkillTokens(bucket) ==> SkillLength(x) && forall c :: c in x ==> NotSkillSep(c)
  {
    var pieces := SplitSkills(Join(Bullets(bucket), " "));
    var trimmed := Map(pieces, Trim);
    forall k | 0 <= k < |trimmed| ensures forall c :: c in trimmed[k] ==> NotSkillSep(c) {
      TrimmedPieceNoSep(pieces[k]);
    }
    forall x | x in SkillTokens(bucket) ensures SkillLength(x) && forall c :: c in x ==> NotSkillSep(c) {
      FilterMembers(trimmed, SkillLength, x);
    }
  }

  /** The first `n` distinct elements: no repeats, all taken from `xs`, and all of `xs` when there are at most `n`. */
  lemma TakeDedup<T>(xs: seq<T>, n: nat)
    ensures |Take(Dedup(xs), n)| <= n
    ensures NoDuplicates(Take(Dedup(xs), n))
    ensures forall k :: 0 <= k < |Take(Dedup(xs), n)| ==> Take(Dedup(xs), n)[k] in xs
    ensures |Dedup(xs)| <= n ==> forall k :: 0 <= k < |xs| ==> xs[k] in Take(Dedup(xs), n)
  {
    var d := Dedup(xs);
    var r := Take(d, n);
    assert forall k :: 0 <= k < |r| ==> r[k] == d[k];
  }

  /**
   * At most 30 skills, no two equal, each 2 to 24 characters long, none
   * holding a separator, each one of the tokens, and every token kept
   * when there are at most 30 distinct ones.
   */
  lemma SkillsShape(bucket: seq<string>)
    ensures |SkillList(bucket)| <= 30
    ensures NoDuplicates(SkillList(bucket))
    ensures forall k :: 0 <= k < |SkillList(bucket)| ==> SkillLength(SkillList(bucket)[k])
    ensures forall k, c :: 0 <= k < |SkillList(bucket)| && c in SkillList(bucket)[k] ==> NotSkillSep(c)
    ensures forall k :: 0 <= k < |SkillList(bucket)| ==> SkillList(bucket)[k] in SkillTokens(bucket)
    ensures |Dedup(SkillTokens(bucket))| <= 30 ==>
      forall k :: 0 <= k < |SkillTokens(bucket)| ==> SkillTokens(bucket)[k] in SkillList(bucket)
  {
    TokensShape(bucket);
    SkillListOf(SkillTokens(bucket));
  }

  /** The shape of the first 30 distinct tokens, for any tokens of skill length without separators. */
  lemma SkillListOf(t: seq<string>)
    requires forall x :: x in t ==> SkillLength(x) && forall c :: c in x ==> NotSkillSep(c)
    ensures |Take(Dedup(t), 30)| <= 30
    ensures NoDuplicates(Take(Dedup(t), 30))
    ensures forall k :: 0 <= k < |Take(Dedup(t), 30)| ==> SkillLength(Take(Dedup(t), 30)[k])
    ensures forall k, c :: 0 <= k < |Take(Dedup(t), 30)| && c in Take(Dedup(t), 30)[k] ==> NotSkillSep(c)
    ensures forall k :: 0 <= k < |Take(Dedup(t), 30)| ==> Take(Dedup(t), 30)[k] in t
    ensures |Dedup(t)| <= 30 ==> forall k :: 0 <= k < |t| ==> t[k] in Take(Dedup(t), 30)
  {
    var r := Take(Dedup(t), 30);
    TakeDedup(t, 30);
    forall k | 0 <= k < |r| ensures SkillLength(r[k]) && forall c :: c in r[k] ==> NotSkillSep(c) {
      assert r[k] in t;
    }
  }

  // ---------------------------------------------------------------- summary

  /** A line holding no e-mail address and no phone number (`!EMAIL_RE.test(l) && !PHONE_RE.test(l)`). */
  predicate NoContact(l: string) {
    EmailMatchesNonEmpty(l);
    PhoneMatchesNonEmpty(l);
    !Test(l, EmailAt) && !Test(l, PhoneAt)
  }

  /** The made-up summary: of the first four non-empty normalised lines, those without contact details, at most three. */
  function SummaryFallback(raw: string): seq<string> {
    Take(Filter(Take(NormalizedLines(Split(raw, '\n')), 4), NoContact), 3)
  }

  /** The made-up summary holds at most three of the first four non-empty lines, none with contact details. */
  lemma SummaryFallbackShape(raw: string)
    ensures |SummaryFallback(raw)| <= 3
    ensures forall k :: 0 <= k < |SummaryFallback(raw)| ==>
      SummaryFallback(raw)[k] in Take(NormalizedLines(Split(raw, '\n')), 4) && NoContact(SummaryFallback(raw)[k])
    ensures forall k :: 0 <= k < |SummaryFallback(raw)| ==>
      SummaryFallback(raw)[k] != [] && IsNormal(SummaryFallback(raw)[k])
  {
    var top := Take(NormalizedLines(Split(raw, '\n')), 4);
    var kept := Filter(top, NoContact);
    NormalizedLinesShape(Split(raw, '\n'));
    forall k | 0 <= k < |SummaryFallback(raw)|
      ensures SummaryFallback(raw)[k] in top && SummaryFallback(raw)[k] != [] && IsNormal(SummaryFallback(raw)[k])
    {
      var x := kept[k];
      assert SummaryFallback(raw)[k] == x;
      FilterMembers(top, NoContact, x);
    }
  }

  /**
   * Which lines the made-up summary takes: the first three (or all, if there
   * are fewer) of the first four lines that have no contact details, in
   * their order; when at most three have none, every one of them.
   */
  lemma SummaryFallbackPrefix(raw: string)
    ensures var kept := Filter(Take(NormalizedLines(Split(raw, '\n')), 4), NoContact);
      SummaryFallback(raw) == kept[..|SummaryFallback(raw)|]
      && |SummaryFallback(raw)| == (if |kept| < 3 then |kept| else 3)
    ensures var top := Take(NormalizedLines(Split(raw, '\n')), 4);
      |Filter(top, NoContact)| <= 3 ==>
        forall k :: 0 <= k < |top| && NoContact(top[k]) ==> top[k] in SummaryFallback(raw)
  {
    TakeOfFilter(Take(NormalizedLines(Split(raw, '\n')), 4), NoContact, 3);
  }

  /** The first `n` elements that pass `p`: when at most `n` pass, every one of them. */
  lemma TakeOfFilter<T>(xs: seq<T>, p: T -> bool, n: nat)
    ensures |Filter(xs, p)| <= n ==> forall k :: 0 <= k < |xs| && p(xs[k]) ==> xs[k] in Take(Filter(xs, p), n)
  {
    if |Filter(xs, p)| <= n {
      forall k | 0 <= k < |xs| && p(xs[k]) ensures xs[k] in Take(Filter(xs, p), n) {
        FilterMembers(xs, p, xs[k]);
      }
    }
  }

  // --------------------------------------------------------------- assembly

  /** The document built from the contact details, the text and the buckets. */
  function DocOf(basics: Basics, raw: string, b: map<Section, seq<string>>): ResumeDoc {
    var summary := Take(Bullets(Get(b, Summary)), 8);
    ResumeDoc(
      basics,
      if summary == [] then SummaryFallback(raw) else summary,
      SkillList(Get(b, Skills)),
      EntriesOf(Get(b, Experience)),
      EntriesOf(Get(b, Projects)),
      EntriesOf(Get(b, Education)),
      Take(Bullets(Get(b, Certifications)), 20),
      Take(Bullets(Get(b, Awards)), 20),
      Take(Bullets(Get(b, Extra)), 30))
  }

  /** The lines of the text; each is filed by its trimmed text and stored as it is. */
  function ResumeLines(text: string): seq<string> {
    Split(RawText(text), '\n')
  }

  /** `parseResumeText` as a function. */
  function ResumeOf(text: string): ResumeDoc {
    DocOf(ExtractBasics(RawText(text)), RawText(text), BucketsOf(ResumeLines(text), HeaderOf, Extra))
  }

  /** `parseResumeText`. */
  method ParseResumeText(text: string) returns (doc: ResumeDoc)
    ensures doc == ResumeOf(text)
  {
    var raw := Trim(CrlfToLf(text));
    var lines := Split(raw, '\n');
    var buckets := BucketLines(lines, HeaderOf, Extra);
    var summary := SplitBullets(Get(buckets, Summary));
    summary := Take(summary, 8);
    var skills := SkillList(Get(buckets, Skills));
    var experience := ParseEntryBlocks(Get(buckets, Experience));
    var projects := ParseEntryBlocks(Get(buckets, Projects));
    var education := ParseEntryBlocks(Get(buckets, Education));
    var certifications := SplitBullets(Get(buckets, Certifications));
    var awards := SplitBullets(Get(buckets, Awards));
    if |summary| == 0 {
      summary := SummaryFallback(raw);
    }
    var extra := SplitBullets(Get(buckets, Extra));
    doc := ResumeDoc(ExtractBasics(raw), summary, skills, experience, projects, education,
                     Take(certifications, 20), Take(awards, 20), Take(extra, 30));
  }

  /**
   * The `basics` bucket (lines under 个人信息, 基本信息 or 联系方式) and the
   * inherited-key bucket are never read: whatever they hold, the document is
   * the same. (The contact details and the summary fallback are taken from
   * the whole text, not from a bucket.)
   */
  lemma UnreadBucketIgnored(basics: Basics, raw: string, b: map<Section, seq<string>>, s: Section, xs: seq<string>)
    requires s == Section.Basics || s == Inherited
    ensures DocOf(basics, raw, b[s := xs]) == DocOf(basics, raw, b)
  {
    var b' := b[s := xs];
    assert Get(b', Summary) == Get(b, Summary) && Get(b', Skills) == Get(b, Skills);
    assert Get(b', Experience) == Get(b, Experience) && Get(b', Projects) == Get(b, Projects);
    assert Get(b', Education) == Get(b, Education) && Get(b', Certifications) == Get(b, Certifications);
    assert Get(b', Awards) == Get(b, Awards) && Get(b', Extra) == Get(b, Extra);
  }

  /** The caps on the list fields, and every summary line is a non-empty normalised line. */
  lemma ResumeCaps(text: string)
    ensures |ResumeOf(text).summary| <= 8
    ensures forall k :: 0 <= k < |ResumeOf(text).summary| ==>
      ResumeOf(text).summary[k] != [] && IsNormal(ResumeOf(text).summary[k])
    ensures |ResumeOf(text).skills| <= 30 && NoDuplicates(ResumeOf(text).skills)
    ensures |ResumeOf(text).certifications| <= 20 && |ResumeOf(text).awards| <= 20
    ensures |ResumeOf(text).extra| <= 30
  {
    var raw := RawText(text);
    var b := BucketsOf(ResumeLines(text), HeaderOf, Extra);
    var bs := Bullets(Get(b, Summary));
    BulletsWellFormed(Get(b, Summary));
    var summary := Take(bs, 8);
    if summary == [] {
      SummaryFallbackShape(raw);
    } else {
      forall k | 0 <= k < |summary| ensures summary[k] != [] && IsNormal(summary[k]) {
        assert summary[k] == bs[k];
      }
    }
    SkillsShape(Get(b, Skills));
  }

  /** The skill list is empty exactly when no piece of the bucket's text, trimmed, is 2 to 24 characters long. */
  lemma NoSkillsIff(bucket: seq<string>)
    ensures SkillList(bucket) == [] <==>
      forall p :: p in SplitSkills(Join(Bullets(bucket), " ")) ==> !SkillLength(Trim(p))
  {
    NoTokensIff(SplitSkills(Join(Bullets(bucket), " ")));
  }

  lemma NoTokensIff(pieces: seq<string>)
    ensures Take(Dedup(Filter(Map(pieces, Trim), SkillLength)), 30) == [] <==>
      forall p :: p in pieces ==> !SkillLength(Trim(p))
  {
    TakeDedupEmpty(Filter(Map(pieces, Trim), SkillLength), 30);
    FilterMapEmptyIff(pieces, Trim, SkillLength);
  }

  /** Keeping some of the distinct elements keeps none exactly when there are none. */
  lemma TakeDedupEmpty<T>(xs: seq<T>, n: nat)
    requires n > 0
    ensures Take(Dedup(xs), n) == [] <==> xs == []
  {
    if xs != [] {
      assert xs[0] in Dedup(xs);
    }
  }

  /** Nothing of the images passes the test exactly when no element's image does. */
  lemma FilterMapEmptyIff<T, U>(xs: seq<T>, f: T -> U, p: U -> bool)
    ensures Filter(Map(xs, f), p) == [] <==> forall x :: x in xs ==> !p(f(x))
  {
    var ys := Map(xs, f);
    if Filter(ys, p) == [] {
      forall x | x in xs ensures !p(f(x)) {
        var k :| 0 <= k < |xs| && xs[k] == x;
        FilterMembers(ys, p, ys[k]);
      }
    } else {
      var y := Filter(ys, p)[0];
      FilterMembers(ys, p, y);
      var k :| 0 <= k < |ys| && ys[k] == y;
      assert xs[k] in xs && p(f(xs[k]));
    }
  }

  lemma NoSkillsFromNothing()
    ensures SkillList([]) == []
  {
    assert Bullets([]) == [];
    assert Join([], " ") == "";
    assert FirstIndex("", IsSkillSep) == None;
    assert SplitSkills("") == [""];
    assert Map([""], Trim) == [Trim("")];
    assert Filter([""], SkillLength) == Filter([], SkillLength);
  }

  /** A document made from `extra` lines alone: `extra` and the made-up summary are its only non-empty lists. */
  predicate OnlyExtra(d: ResumeDoc, extraLines: seq<string>, raw: string) {
    && d.extra == Take(Bullets(extraLines), 30)
    && d.summary == SummaryFallback(raw)
    && d.skills == []
    && d.experience == [] && d.projects == [] && d.education == []
    && d.certifications == [] && d.awards == []
  }

  /** Only the `extra` bucket filled: nothing but `extra` and the made-up summary is non-empty. */
  lemma OnlyExtraBucket(basics: Basics, raw: string, b: map<Section, seq<string>>)
    requires Get(b, Summary) == [] && Get(b, Skills) == []
    requires Get(b, Experience) == [] && Get(b, Projects) == [] && Get(b, Education) == []
    requires Get(b, Certifications) == [] && Get(b, Awards) == []
    ensures OnlyExtra(DocOf(basics, raw, b), Get(b, Extra), raw)
  {
    NoSkillsFromNothing();
    assert Bullets([]) == [];
    assert Groups([]) == [];
    assert EntriesOf([]) == [];
  }

  /**
   * Lines without a single header: every line lands in `extra`, and only
   * `extra` and the summary can be non-empty. Stated for any classifier,
   * so in particular for `HeaderOf`.
   */
  lemma NoHeadersAllExtra(basics: Basics, raw: string, lines: seq<string>, classify: string -> Option<Section>)
    requires forall i :: 0 <= i < |lines| ==> classify(lines[i]).None?
    ensures OnlyExtra(DocOf(basics, raw, BucketsOf(lines, classify, Extra)), lines, raw)
  {
    NoHeaderSections(lines, classify);
    OnlyExtraBucket(basics, raw, BucketsOf(lines, classify, Extra));
  }

  /** Without header lines, every line goes to `extra` and every other section stays empty. */
  lemma NoHeaderSections(lines: seq<string>, classify: string -> Option<Section>)
    requires forall i :: 0 <= i < |lines| ==> classify(lines[i]).None?
    ensures Get(BucketsOf(lines, classify, Extra), Extra) == lines
    ensures Get(BucketsOf(lines, classify, Extra), Summary) == [] && Get(BucketsOf(lines, classify, Extra), Skills) == []
    ensures Get(BucketsOf(lines, classify, Extra), Experience) == [] && Get(BucketsOf(lines, classify, Extra), Projects) == []
    ensures Get(BucketsOf(lines, classify, Extra), Education) == [] && Get(BucketsOf(lines, classify, Extra), Certifications) == []
    ensures Get(BucketsOf(lines, classify, Extra), Awards) == [] && Get(BucketsOf(lines, classify, Extra), Section.Basics) == []
  {
    NoHeadersGoToStart(lines, classify, Extra);
  }
}
