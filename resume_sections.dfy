/**
 * The résumé section headers: the alias table `SECTION_ALIASES` and the
 * classifier `isSectionHeader` (src/services/resume.ts:34-56, 66-70).
 */
module ResumeSections {
  import opened Wrappers
  import opened Text

  /**
   * The keys of `ResumeDoc` a line can be filed under, plus `basics`, plus
   * `Inherited`: the bucket a line opens when its text is the name of a
   * property every JavaScript object inherits (see `InheritedKeys`).
   */
  datatype Section =
    | Basics | Summary | Skills | Experience | Projects | Education
    | Certifications | Awards | Extra | Inherited

  /** `SECTION_ALIASES`: the 21 header texts and the section each one opens. */
  const SectionAliases: map<string, Section> := map[
    "个人信息" := Basics, "基本信息" := Basics, "联系方式" := Basics,
    "个人简介" := Summary, "自我介绍" := Summary, "自我评价" := Summary, "个人总结" := Summary,
    "技能" := Skills, "技能栈" := Skills, "核心技能" := Skills,
    "工作经历" := Experience, "工作经验" := Experience, "实习经历" := Experience,
    "项目经历" := Projects, "项目经验" := Projects,
    "教育经历" := Education, "教育背景" := Education,
    "证书" := Certifications, "资格证书" := Certifications,
    "奖项" := Awards, "荣誉奖项" := Awards
  ]

  /** The characters `isSectionHeader` deletes before the lookup: `[:：\-\s]`. */
  predicate IsHeaderPunct(c: char) {
    c == ':' || c == '：' || c == '-' || IsSpace(c)
  }

  predicate KeepInHeader(c: char) { !IsHeaderPunct(c) }

  /** The alias table never sends a line to `extra`, and its keys are two to four characters long. */
  lemma AliasTableShape()
    ensures forall k :: k in SectionAliases ==> SectionAliases[k] != Extra
    ensures forall k :: k in SectionAliases ==> 2 <= |k| <= 4
  {
  }

  /** `isSectionHeader`: the section whose alias the line is, once `:`, `：`, `-` and white space are deleted. */
  function IsSectionHeader(line: string): (r: Option<Section>)
    ensures r.Some? ==> r.value != Extra
  {
    var raw := Trim(Filter(line, KeepInHeader));
    if raw == [] then None else AliasLookup(raw)
  }

  /** `SECTION_ALIASES[raw] ?? null`: the alias's own section, else the inherited bucket for an inherited property name. */
  function AliasLookup(raw: string): (r: Option<Section>)
    ensures r.Some? ==> r.value != Extra
  {
    if raw in SectionAliases then AliasIsNotExtra(raw); Some(SectionAliases[raw])
    else if raw in InheritedKeys then Some(Inherited)
    else None
  }

  /**
   * A header is an exact hit, after stripping, in the alias table or among
   * the inherited property names: no substring, prefix or fuzzy match.
   */
  lemma HeaderIsExactLookup(line: string)
    ensures IsSectionHeader(line).Some? <==>
      Filter(line, KeepInHeader) in SectionAliases || Filter(line, KeepInHeader) in InheritedKeys
    ensures Filter(line, KeepInHeader) in SectionAliases ==>
      IsSectionHeader(line) == Some(SectionAliases[Filter(line, KeepInHeader)])
    ensures Filter(line, KeepInHeader) in InheritedKeys ==> IsSectionHeader(line) == Some(Inherited)
    ensures IsSectionHeader(line).Some? ==> IsSectionHeader(line).value != Extra
  {
    HeaderOnlyKeys(line);
    HeaderEveryKey(line);
    HeaderOfAlias(line);
    HeaderOfInherited(line);
  }

  lemma HeaderOnlyKeys(line: string)
    ensures IsSectionHeader(line).Some? ==>
      Filter(line, KeepInHeader) in SectionAliases || Filter(line, KeepInHeader) in InheritedKeys
  {
    StrippedIsTrimmed(line);
    AliasLookupIff(Filter(line, KeepInHeader));
  }

  lemma HeaderEveryKey(line: string)
    ensures Filter(line, KeepInHeader) in SectionAliases || Filter(line, KeepInHeader) in InheritedKeys ==>
      IsSectionHeader(line).Some?
  {
    StrippedIsTrimmed(line);
    EmptyIsNoAlias();
    AliasLookupIff(Filter(line, KeepInHeader));
  }

  lemma HeaderOfAlias(line: string)
    ensures Filter(line, KeepInHeader) in SectionAliases ==>
      IsSectionHeader(line) == Some(SectionAliases[Filter(line, KeepInHeader)])
  {
    StrippedIsTrimmed(line);
    EmptyIsNoAlias();
    AliasLookupIff(Filter(line, KeepInHeader));
  }

  lemma HeaderOfInherited(line: string)
    ensures Filter(line, KeepInHeader) in InheritedKeys ==> IsSectionHeader(line) == Some(Inherited)
  {
    StrippedIsTrimmed(line);
    EmptyIsNoAlias();
    AliasLookupIff(Filter(line, KeepInHeader));
  }

  /** Stripping leaves no white space at either end, so the `trim()` after it changes nothing. */
  lemma StrippedIsTrimmed(line: string)
    ensures Trim(Filter(line, KeepInHeader)) == Filter(line, KeepInHeader)
  {
    var stripped := Filter(line, KeepInHeader);
    assert stripped != [] ==> KeepInHeader(stripped[0]) && KeepInHeader(stripped[|stripped| - 1]);
    TrimKeeps(stripped);
  }

  lemma AliasLookupIff(raw: string)
    ensures AliasLookup(raw).Some? <==> raw in SectionAliases || raw in InheritedKeys
    ensures raw in SectionAliases ==> AliasLookup(raw) == Some(SectionAliases[raw])
    ensures raw in InheritedKeys ==> AliasLookup(raw) == Some(Inherited)
  {
    if raw in InheritedKeys {
      InheritedNotAlias(raw);
    }
  }

  lemma EmptyIsNoAlias()
    ensures [] !in SectionAliases && [] !in InheritedKeys
  {
    AliasTableShape();
    InheritedKeysLong();
  }

  /** The inherited property names are all seven characters or longer, so none is an alias. */
  lemma InheritedKeysLong()
    ensures forall k :: k in InheritedKeys ==> |k| >= 7
  {
  }

  lemma InheritedNotAlias(k: string)
    requires k in InheritedKeys
    ensures k !in SectionAliases
  {
    InheritedKeysLong();
    AliasTableShape();
  }

  lemma AliasIsNotExtra(k: string)
    requires k in SectionAliases
    ensures SectionAliases[k] != Extra
  {
    AliasTableShape();
  }

  /** Punctuation and white space anywhere in a line do not change its classification. */
  lemma HeaderIgnoresPunct(a: string, c: char, b: string)
    requires IsHeaderPunct(c)
    ensures IsSectionHeader(a + [c] + b) == IsSectionHeader(a + b)
  {
    FilterAppend(a + [c], b, KeepInHeader);
    FilterAppend(a, [c], KeepInHeader);
    FilterAppend(a, b, KeepInHeader);
    assert Filter([c], KeepInHeader) == [];
  }

  lemma AliasExperience()
    ensures "工作经历" in SectionAliases && SectionAliases["工作经历"] == Experience
  {
  }

  lemma StripColon()
    ensures Filter("工作经历：", KeepInHeader) == "工作经历"
  {
    var key := "工作经历";
    FilterKeepsAll(key, KeepInHeader);
    FilterAppend(key, "：", KeepInHeader);
    assert key + "：" == "工作经历：";
    assert Filter("：", KeepInHeader) == [];
  }

  /** A header with a trailing full-width colon is recognised. */
  lemma HeaderWithColon()
    ensures IsSectionHeader("工作经历：") == Some(Experience)
  {
    StripColon();
    TrimKeeps("工作经历");
    AliasExperience();
  }

  /** A line reading `constructor` is taken for a header, of the inherited bucket. */
  lemma HeaderConstructor()
    ensures IsSectionHeader("constructor") == Some(Inherited)
  {
    var line := "constructor";
    FilterKeepsAll(line, KeepInHeader);
    TrimKeeps(line);
    InheritedNotAlias(line);
  }

  /** A line that merely contains an alias is not a header. */
  lemma HeaderNotSubstring()
    ensures IsSectionHeader("主要工作经历") == None
  {
    var line := "主要工作经历";
    FilterKeepsAll(line, KeepInHeader);
    TrimKeeps(line);
    AliasTableShape();
    InheritedKeysLong();
  }

  /** How the bucket loop classifies a line: by its trimmed text (src/services/resume.ts:171-172). */
  function HeaderOf(line: string): Option<Section> {
    IsSectionHeader(Trim(line))
  }
}
