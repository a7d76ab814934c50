/**
 * What the two Markdown renderers (src/services/resume.ts:216-274 and
 * src/services/jobPost.ts:128-161) share: lines are pushed one by one, a
 * list becomes `- ` lines under a `## ` heading followed by an empty line,
 * and the document is `lines.join('\n').trim() + '\n'`.
 */
module Markdown {
  import opened Wrappers
  import opened Text

  /** `lines.join('\n').trim() + '\n'`. */
  function Finish(lines: seq<string>): string {
    Trim(Join(lines, "\n")) + "\n"
  }

  /** `- ${s}` for every item, in order. */
  function Dashed(items: seq<string>): (r: seq<string>)
    ensures |r| == |items|
    ensures forall k :: 0 <= k < |items| ==> r[k] == "- " + items[k]
  {
    Map(items, s => "- " + s)
  }

  /** A list section: the heading, one `- ` line per item and an empty line, or nothing for an empty list. */
  function Block(heading: string, items: seq<string>): seq<string> {
    if items == [] then [] else [heading] + Dashed(items) + [""]
  }

  /** `if (x) meta.push(x)`: an absent or empty field adds nothing. */
  function Present(x: Option<string>): (r: seq<string>)
    ensures r == [] <==> x.None? || x.value == ""
  {
    if x.Some? && x.value != "" then [x.value] else []
  }

  /** The lines the `for ... lines.push(`- ${s}`)` loop adds. */
  method PushDashed(lines: seq<string>, items: seq<string>) returns (out: seq<string>)
    ensures out == lines + Dashed(items)
  {
    out := lines;
    for k := 0 to |items|
      invariant out == lines + Dashed(items[..k])
    {
      assert Dashed(items[..k + 1]) == Dashed(items[..k]) + ["- " + items[k]];
      out := out + ["- " + items[k]];
    }
    assert items[..|items|] == items;
  }

  /** A list section pushed line by line: its heading, its `- ` lines and an empty line, or nothing for an empty list. */
  method PushBlock(lines: seq<string>, heading: string, items: seq<string>) returns (out: seq<string>)
    ensures out == lines + Block(heading, items)
  {
    out := lines;
    if |items| > 0 {
      out := out + [heading];
      out := PushDashed(out, items);
      out := out + [""];
    }
  }

  /** A joined list starts with its first element. */
  lemma {:induction false} JoinStartsWithFirst(parts: seq<string>, sep: string)
    requires parts != []
    ensures |Join(parts, sep)| >= |parts[0]| && Join(parts, sep)[..|parts[0]|] == parts[0]
  {
    if |parts| > 1 {
      assert Join(parts, sep) == parts[0] + (sep + Join(parts[1..], sep));
    }
  }

  /** A single line, free of white space at its ends, followed by an empty one finishes as that line and a newline. */
  lemma FinishLoneLine(head: string)
    requires head != [] && !IsSpace(head[0]) && !IsSpace(head[|head| - 1])
    ensures Finish([head, ""]) == head + "\n"
  {
    var j := head + "\n";
    assert Join([head, ""], "\n") == j by {
      assert Join([head, ""], "\n") == head + "\n" + Join([""], "\n");
    }
    TrimStartKeeps(j);
    assert j[..|j| - 1] == head;
    TrimEndKeeps(head);
  }

  /** `trimEnd` never cuts into a prefix that ends with a non-space character. */
  lemma TrimEndKeepsPrefix(s: string, n: nat)
    requires 0 < n <= |s| && !IsSpace(s[n - 1])
    ensures |TrimEnd(s)| >= n
  {
    var r := TrimEnd(s);
    var tail := s[|r|..];
    assert forall k :: |r| <= k < |s| ==> IsSpace(s[k]) by {
      forall k | |r| <= k < |s| ensures IsSpace(s[k]) {
        assert s[k] == tail[k - |r|];
      }
    }
  }

  /**
   * A document whose first line starts with a non-space character is that
   * line's text up to its last non-space character and beyond, ends with
   * exactly one newline, and the character before it is not white space.
   */
  lemma FinishShape(lines: seq<string>)
    requires lines != [] && lines[0] != [] && !IsSpace(lines[0][0])
    ensures |Finish(lines)| >= 2
    ensures Finish(lines)[0] == lines[0][0]
    ensures Finish(lines)[|Finish(lines)| - 1] == '\n'
    ensures !IsSpace(Finish(lines)[|Finish(lines)| - 2])
    ensures !IsSpace(lines[0][|lines[0]| - 1]) ==>
      |Finish(lines)| > |lines[0]| && Finish(lines)[..|lines[0]|] == lines[0]
  {
    var j := Join(lines, "\n");
    JoinStartsWithFirst(lines, "\n");
    assert j[0] == lines[0][0];
    TrimStartKeeps(j);
    TrimEndKeepsPrefix(j, 1);
    var t := Trim(j);
    assert t == TrimEnd(j);
    assert t[0] == j[0];
    if !IsSpace(lines[0][|lines[0]| - 1]) {
      assert j[|lines[0]| - 1] == lines[0][|lines[0]| - 1];
      TrimEndKeepsPrefix(j, |lines[0]|);
      assert t[..|lines[0]|] == j[..|lines[0]|];
    }
  }

  /**
   * A document under a `# ` title: it starts with `#`, ends with exactly one
   * newline after a non-space character, and starts with `# ` and the title
   * whenever the title ends in a non-space character.
   */
  predicate TitledMarkdown(md: string, title: string) {
    && |md| >= 2
    && md[0] == '#'
    && md[|md| - 1] == '\n'
    && !IsSpace(md[|md| - 2])
    && (title != [] && !IsSpace(title[|title| - 1]) ==> StartsWith(md, "# " + title))
  }

  /** Lines whose first is `# ` and a title finish into a titled document. */
  lemma TitledShape(lines: seq<string>, title: string)
    requires lines != [] && lines[0] == "# " + title
    ensures TitledMarkdown(Finish(lines), title)
  {
    var first := "# " + title;
    var md := Finish(lines);
    assert first[0] == '#';
    FinishShape(lines);
    assert |md| >= 2 && md[0] == '#' && md[|md| - 1] == '\n' && !IsSpace(md[|md| - 2]);
    if title != [] && !IsSpace(title[|title| - 1]) {
      assert first[|first| - 1] == title[|title| - 1];
      assert |first| < |md| && md[..|first|] == first;
      assert StartsWith(md, "# " + title);
    }
  }
}
