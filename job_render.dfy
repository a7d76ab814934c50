/**
 * `jobToMarkdown` (src/services/jobPost.ts:128-161): a `#` title line, an
 * optional meta line, an optional tag line, then one block per non-empty
 * list in a fixed order; `extra` is never rendered.
 */
module JobRender {
  import opened Wrappers
  import opened Text
  import opened Markdown
  import opened JobParser

  /** `doc.title ?? '岗位名称'`: only an absent title is replaced, an empty one is kept. */
  function TitleText(doc: JobPost): string {
    match doc.title
    case None => "岗位名称"
    case Some(t) => t
  }

  /** The `meta` list: company, location, salary and employment type when non-empty. */
  function JobMetaOf(doc: JobPost): seq<string> {
    Present(doc.company) + Present(doc.location) + Present(doc.salary) + Present(doc.employmentType)
  }

  /** The title line, the meta line when `meta` is non-empty, the tag line when there are tags, and an empty line. */
  function JobHeadLines(doc: JobPost): seq<string> {
    ["# " + TitleText(doc)]
    + (if JobMetaOf(doc) != [] then [Join(JobMetaOf(doc), " · ")] else [])
    + (if doc.tags != [] then ["标签：" + Join(doc.tags, "、")] else [])
    + [""]
  }

  /** The lines `jobToMarkdown` pushes. */
  function JobMarkdownLines(doc: JobPost): seq<string> {
    JobHeadLines(doc)
    + Block("## 职位介绍", doc.intro)
    + Block("## 岗位职责", doc.responsibilities)
    + Block("## 任职要求", doc.requirements)
    + Block("## 薪酬福利", doc.benefits)
  }

  /** `jobToMarkdown` as a function. */
  function JobToMarkdown(doc: JobPost): string {
    Finish(JobMarkdownLines(doc))
  }

  /** The title, meta and tag lines pushed one by one (src/services/jobPost.ts:130-138). */
  method PushJobHead(doc: JobPost) returns (lines: seq<string>)
    ensures lines == JobHeadLines(doc)
  {
    lines := ["# " + TitleText(doc)];
    var meta: seq<string> := [];
    if doc.company.Some? && doc.company.value != "" { meta := meta + [doc.company.value]; }
    assert meta == Present(doc.company);
    if doc.location.Some? && doc.location.value != "" { meta := meta + [doc.location.value]; }
    assert meta == Present(doc.company) + Present(doc.location);
    if doc.salary.Some? && doc.salary.value != "" { meta := meta + [doc.salary.value]; }
    assert meta == Present(doc.company) + Present(doc.location) + Present(doc.salary);
    if doc.employmentType.Some? && doc.employmentType.value != "" { meta := meta + [doc.employmentType.value]; }
    assert meta == JobMetaOf(doc);
    ghost var metaLine: seq<string> := if JobMetaOf(doc) != [] then [Join(JobMetaOf(doc), " · ")] else [];
    ghost var tagLine: seq<string> := if doc.tags != [] then ["标签：" + Join(doc.tags, "、")] else [];
    if |meta| > 0 { lines := lines + [Join(meta, " · ")]; }
    assert lines == ["# " + TitleText(doc)] + metaLine;
    if |doc.tags| > 0 { lines := lines + ["标签：" + Join(doc.tags, "、")]; }
    assert lines == ["# " + TitleText(doc)] + metaLine + tagLine;
    lines := lines + [""];
  }

  /** `jobToMarkdown`. */
  method RenderJob(doc: JobPost) returns (md: string)
    ensures md == JobToMarkdown(doc)
  {
    var lines := PushJobHead(doc);
    lines := PushBlock(lines, "## 职位介绍", doc.intro);
    lines := PushBlock(lines, "## 岗位职责", doc.responsibilities);
    lines := PushBlock(lines, "## 任职要求", doc.requirements);
    lines := PushBlock(lines, "## 薪酬福利", doc.benefits);
    assert lines == JobMarkdownLines(doc);
    md := Join(lines, "\n");
    md := Trim(md) + "\n";
  }

  /**
   * The document starts with `#`, ends with exactly one newline after a
   * non-space character, and starts with `# ` and the title (or `岗位名称`)
   * whenever that ends in a non-space character.
   */
  lemma JobMarkdownShape(doc: JobPost)
    ensures TitledMarkdown(JobToMarkdown(doc), TitleText(doc))
  {
    var lines := JobMarkdownLines(doc);
    assert lines != [] && lines[0] == "# " + TitleText(doc) by {
      JobLinesFirst(doc);
    }
    assert JobToMarkdown(doc) == Finish(lines);
    TitledShape(lines, TitleText(doc));
  }

  /** The first line pushed is the title line. */
  lemma JobLinesFirst(doc: JobPost)
    ensures JobMarkdownLines(doc) != [] && JobMarkdownLines(doc)[0] == "# " + TitleText(doc)
  {
    assert JobHeadLines(doc)[0] == "# " + TitleText(doc);
  }

  /** A post without a title renders under the placeholder `岗位名称`. */
  lemma AbsentTitlePlaceholder(doc: JobPost)
    requires doc.title.None?
    ensures StartsWith(JobToMarkdown(doc), "# 岗位名称")
  {
    JobMarkdownShape(doc);
  }

  /** `extra` never reaches the Markdown. */
  lemma JobExtraNotRendered(doc: JobPost, extra: seq<string>)
    ensures JobToMarkdown(doc.(extra := extra)) == JobToMarkdown(doc)
  {
    assert JobMarkdownLines(doc.(extra := extra)) == JobMarkdownLines(doc);
  }

  /**
   * The head has the meta line exactly when some meta field is non-empty
   * and the tag line exactly when there are tags; the tag line comes after
   * the meta line.
   */
  lemma JobHeadShape(doc: JobPost)
    ensures |JobHeadLines(doc)| == 2 + (if JobMetaOf(doc) != [] then 1 else 0) + (if doc.tags != [] then 1 else 0)
    ensures JobMetaOf(doc) != [] <==>
      (doc.company.Some? && doc.company.value != "") || (doc.location.Some? && doc.location.value != "")
      || (doc.salary.Some? && doc.salary.value != "") || (doc.employmentType.Some? && doc.employmentType.value != "")
    ensures JobMetaOf(doc) != [] ==> JobHeadLines(doc)[1] == Join(JobMetaOf(doc), " · ")
    ensures doc.tags != [] ==> JobHeadLines(doc)[|JobHeadLines(doc)| - 2] == "标签：" + Join(doc.tags, "、")
  {
  }

  /** A post with nothing in it is its placeholder title line alone. */
  lemma EmptyJob()
    ensures JobToMarkdown(JobPost(None, None, None, None, None, [], [], [], [], [], [])) == "# 岗位名称\n"
  {
    var doc := JobPost(None, None, None, None, None, [], [], [], [], [], []);
    assert JobMarkdownLines(doc) == ["# 岗位名称", ""] by {
      EmptyJobLines(doc);
    }
    assert Finish(["# 岗位名称", ""]) == "# 岗位名称\n" by {
      FinishLoneLine("# 岗位名称");
    }
  }

  lemma EmptyJobLines(doc: JobPost)
    requires doc == JobPost(None, None, None, None, None, [], [], [], [], [], [])
    ensures JobMarkdownLines(doc) == ["# 岗位名称", ""]
  {
    assert JobMetaOf(doc) == [];
    assert "# " + TitleText(doc) == "# 岗位名称";
    var head := JobHeadLines(doc);
    assert head == ["# 岗位名称", ""];
    assert JobMarkdownLines(doc) == head + [] + [] + [] + [];
  }
}
