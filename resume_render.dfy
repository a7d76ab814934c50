/**
 * `resumeToMarkdown` (src/services/resume.ts:216-274): a `#` title line, an
 * optional meta line, then one block per non-empty section in a fixed
 * order; `extra` is never rendered.
 */
module ResumeRender {
  import opened Wrappers
  import opened Text
  import opened Markdown
  import opened ResumeBasics
  import opened ResumeEntries
  import opened ResumeParser

  /** `b.name ?? '候选人'`: only an absent name is replaced, an empty one is kept. */
  function NameText(b: Basics): string {
    match b.name
    case None => "候选人"
    case Some(n) => n
  }

  /** The `meta` list: title, city, e-mail and phone when non-empty, then every link. */
  function MetaOf(b: Basics): seq<string> {
    Present(b.title) + Present(b.city) + Present(b.email) + Present(b.phone) + b.links
  }

  /** The title line, the meta line when `meta` is non-empty, and an empty line. */
  function HeadLines(b: Basics): seq<string> {
    ["# " + NameText(b)] + (if MetaOf(b) != [] then [Join(MetaOf(b), " · ")] else []) + [""]
  }

  /** `### ${[e.title, e.time].filter(Boolean).join(' | ')}`. */
  function EntryHeading(e: Entry): string {
    "### " + Join(Present(e.title) + Present(e.time), " | ")
  }

  /** One entry: its heading, its `- ` bullets and an empty line. */
  function EntryLines(e: Entry): seq<string> {
    [EntryHeading(e)] + Dashed(e.bullets) + [""]
  }

  function EntriesLines(es: seq<Entry>): seq<string> {
    if es == [] then [] else EntriesLines(es[..|es| - 1]) + EntryLines(es[|es| - 1])
  }

  /** An entry section: the heading and every entry, or nothing for an empty list. */
  function EntriesBlock(heading: string, es: seq<Entry>): seq<string> {
    if es == [] then [] else [heading] + EntriesLines(es)
  }

  /** The skills section: the heading and the skills joined by `、` on one line. */
  function SkillsBlock(skills: seq<string>): seq<string> {
    if skills == [] then [] else ["## 技能", Join(skills, "、"), ""]
  }

  /** The lines `resumeToMarkdown` pushes. */
  function ResumeMarkdownLines(doc: ResumeDoc): seq<string> {
    HeadLines(doc.basics)
    + Block("## 个人简介", doc.summary)
    + SkillsBlock(doc.skills)
    + EntriesBlock("## 工作经历", doc.experience)
    + EntriesBlock("## 项目经历", doc.projects)
    + EntriesBlock("## 教育经历", doc.education)
    + Block("## 证书", doc.certifications)
    + Block("## 奖项", doc.awards)
  }

  /** `resumeToMarkdown` as a function. */
  function ResumeToMarkdown(doc: ResumeDoc): string {
    Finish(ResumeMarkdownLines(doc))
  }

  /** The loop over one entry list (src/services/resume.ts:239-245, and the same for projects and education). */
  method PushEntries(lines: seq<string>, es: seq<Entry>) returns (out: seq<string>)
    ensures out == lines + EntriesLines(es)
  {
    out := lines;
    for k := 0 to |es|
      invariant out == lines + EntriesLines(es[..k])
    {
      EntriesStep(lines, es, k);
      out := PushEntry(out, es[k]);
    }
    assert es[..|es|] == es;
  }

  /** The body of that loop: one entry's heading, bullets and empty line. */
  method PushEntry(lines: seq<string>, e: Entry) returns (out: seq<string>)
    ensures out == lines + EntryLines(e)
  {
    out := lines + [EntryHeading(e)];
    out := PushDashed(out, e.bullets);
    out := out + [""];
  }

  /** One more entry appends its lines after what is already pushed. */
  lemma EntriesStep(lines: seq<string>, es: seq<Entry>, k: nat)
    requires k < |es|
    ensures lines + EntriesLines(es[..k + 1]) == (lines + EntriesLines(es[..k])) + EntryLines(es[k])
  {
    assert es[..k + 1][..k] == es[..k];
    ConcatAssoc(lines, EntriesLines(es[..k]), EntryLines(es[k]));
  }

  /** An entry section pushed line by line. */
  method PushEntriesBlock(lines: seq<string>, heading: string, es: seq<Entry>) returns (out: seq<string>)
    ensures out == lines + EntriesBlock(heading, es)
  {
    out := lines;
    if |es| > 0 {
      out := out + [heading];
      out := PushEntries(out, es);
    }
  }

  /** The title and meta lines pushed one by one (src/services/resume.ts:217-227). */
  method PushHead(b: Basics) returns (lines: seq<string>)
    ensures lines == HeadLines(b)
  {
    lines := ["# " + NameText(b)];
    var meta: seq<string> := [];
    if b.title.Some? && b.title.value != "" { meta := meta + [b.title.value]; }
    assert meta == Present(b.title);
    if b.city.Some? && b.city.value != "" { meta := meta + [b.city.value]; }
    assert meta == Present(b.title) + Present(b.city);
    if b.email.Some? && b.email.value != "" { meta := meta + [b.email.value]; }
    assert meta == Present(b.title) + Present(b.city) + Present(b.email);
    if b.phone.Some? && b.phone.value != "" { meta := meta + [b.phone.value]; }
    assert meta == Present(b.title) + Present(b.city) + Present(b.email) + Present(b.phone);
    if |b.links| > 0 { meta := meta + b.links; }
    assert meta == MetaOf(b);
    ghost var metaLine: seq<string> := if MetaOf(b) != [] then [Join(MetaOf(b), " · ")] else [];
    if |meta| > 0 { lines := lines + [Join(meta, " · ")]; }
    assert lines == ["# " + NameText(b)] + metaLine;
    lines := lines + [""];
  }

  /** `resumeToMarkdown`. */
  method RenderResume(doc: ResumeDoc) returns (md: string)
    ensures md == ResumeToMarkdown(doc)
  {
    var lines := PushHead(doc.basics);
    lines := PushBlock(lines, "## 个人简介", doc.summary);
    if |doc.skills| > 0 {
      lines := lines + ["## 技能", Join(doc.skills, "、"), ""];
    }
    assert lines == HeadLines(doc.basics) + Block("## 个人简介", doc.summary) + SkillsBlock(doc.skills);
    lines := PushEntriesBlock(lines, "## 工作经历", doc.experience);
    lines := PushEntriesBlock(lines, "## 项目经历", doc.projects);
    lines := PushEntriesBlock(lines, "## 教育经历", doc.education);
    lines := PushBlock(lines, "## 证书", doc.certifications);
    lines := PushBlock(lines, "## 奖项", doc.awards);
    assert lines == ResumeMarkdownLines(doc);
    md := Join(lines, "\n");
    md := Trim(md) + "\n";
  }

  /**
   * The document starts with `#`, ends with exactly one newline after a
   * non-space character, and starts with `# ` and the name (or `候选人`)
   * whenever that ends in a non-space character.
   */
  lemma ResumeMarkdownShape(doc: ResumeDoc)
    ensures TitledMarkdown(ResumeToMarkdown(doc), NameText(doc.basics))
  {
    var lines := ResumeMarkdownLines(doc);
    assert lines != [] && lines[0] == "# " + NameText(doc.basics) by {
      ResumeLinesFirst(doc);
    }
    assert ResumeToMarkdown(doc) == Finish(lines);
    TitledShape(lines, NameText(doc.basics));
  }

  /** The first line pushed is the name line. */
  lemma ResumeLinesFirst(doc: ResumeDoc)
    ensures ResumeMarkdownLines(doc) != [] && ResumeMarkdownLines(doc)[0] == "# " + NameText(doc.basics)
  {
    assert HeadLines(doc.basics)[0] == "# " + NameText(doc.basics);
  }

  /** A résumé without a name renders under the placeholder `候选人`. */
  lemma AbsentNamePlaceholder(doc: ResumeDoc)
    requires doc.basics.name.None?
    ensures StartsWith(ResumeToMarkdown(doc), "# 候选人")
  {
    ResumeMarkdownShape(doc);
  }

  /** `extra` never reaches the Markdown. */
  lemma ExtraNotRendered(doc: ResumeDoc, extra: seq<string>)
    ensures ResumeToMarkdown(doc.(extra := extra)) == ResumeToMarkdown(doc)
  {
    assert ResumeMarkdownLines(doc.(extra := extra)) == ResumeMarkdownLines(doc);
  }

  /** The meta line is there exactly when some contact field is non-empty or there is a link. */
  lemma MetaLineIff(b: Basics)
    ensures |HeadLines(b)| == 3 <==>
      (b.title.Some? && b.title.value != "") || (b.city.Some? && b.city.value != "")
      || (b.email.Some? && b.email.value != "") || (b.phone.Some? && b.phone.value != "") || b.links != []
    ensures |HeadLines(b)| == 3 ==> HeadLines(b)[1] == Join(MetaOf(b), " · ")
  {
  }

  /** An empty résumé is its title line alone. */
  lemma EmptyResume()
    ensures ResumeToMarkdown(ResumeDoc(Basics(None, None, None, None, None, []), [], [], [], [], [], [], [], [])) == "# 候选人\n"
  {
    var doc := ResumeDoc(Basics(None, None, None, None, None, []), [], [], [], [], [], [], [], []);
    assert ResumeMarkdownLines(doc) == ["# 候选人", ""] by {
      EmptyResumeLines(doc);
    }
    assert Finish(["# 候选人", ""]) == "# 候选人\n" by {
      FinishLoneLine("# 候选人");
    }
  }

  lemma EmptyResumeLines(doc: ResumeDoc)
    requires doc == ResumeDoc(Basics(None, None, None, None, None, []), [], [], [], [], [], [], [], [])
    ensures ResumeMarkdownLines(doc) == ["# 候选人", ""]
  {
    assert MetaOf(doc.basics) == [];
    assert "# " + NameText(doc.basics) == "# 候选人";
    var head := HeadLines(doc.basics);
    assert head == ["# 候选人", ""];
    assert ResumeMarkdownLines(doc) == head + [] + [] + [] + [] + [] + [] + [];
  }
}
