/**
 * `parseEntryBlocks` (src/services/resume.ts:108-150): the lines of an
 * experience, project or education section are cut into blocks at blank
 * lines; each block becomes one entry whose first line gives the title and
 * the time range and whose other lines are its bullets.
 */
module ResumeEntries {
  import opened Wrappers
  import opened Text
  import opened Matching
  import opened LineNormalizer
  import opened ResumePatterns

  /** `ResumeEntry`; `location` and `summary` are never set by the parser and are not modelled. */
  datatype Entry = Entry(title: Option<string>, time: Option<string>, bullets: seq<string>)

  /** The concatenation of a list of blocks. */
  function Concat(gs: seq<seq<string>>): seq<string> {
    if gs == [] then [] else Concat(gs[..|gs| - 1]) + gs[|gs| - 1]
  }

  /**
   * The state of the first loop after reading `lines`: the closed blocks and
   * the open one (`groups`, `buf`). `f` gives a line's content, or nothing
   * for a blank line.
   */
  function Scan(lines: seq<string>, f: string -> Option<string>): (seq<seq<string>>, seq<string>) {
    if lines == [] then ([], [])
    else
      var (groups, buf) := Scan(lines[..|lines| - 1], f);
      match f(lines[|lines| - 1])
      case None => if |buf| > 0 then (groups + [buf], []) else (groups, [])
      case Some(line) => (groups, buf + [line])
  }

  /** The blocks: the maximal runs of non-blank lines, as their contents. */
  function GroupsBy(lines: seq<string>, f: string -> Option<string>): seq<seq<string>> {
    var (groups, buf) := Scan(lines, f);
    if |buf| > 0 then groups + [buf] else groups
  }

  /** Every closed block is non-empty. */
  lemma {:induction false} ScanBlocksNonEmpty(lines: seq<string>, f: string -> Option<string>)
    ensures forall k :: 0 <= k < |Scan(lines, f).0| ==> Scan(lines, f).0[k] != []
  {
    if lines != [] {
      ScanBlocksNonEmpty(lines[..|lines| - 1], f);
    }
  }

  /** The closed blocks followed by the open one are the non-blank lines' contents, in order. */
  lemma {:induction false} ScanConcat(lines: seq<string>, f: string -> Option<string>)
    ensures Concat(Scan(lines, f).0) + Scan(lines, f).1 == FilterMap(lines, f)
  {
    if lines != [] {
      var init := lines[..|lines| - 1];
      ScanConcat(init, f);
      var (groups, buf) := Scan(init, f);
      if f(lines[|lines| - 1]).None? && |buf| > 0 {
        ConcatSnoc(groups, buf);
      }
    }
  }

  /** Closing one more block appends its lines. */
  lemma ConcatSnoc(gs: seq<seq<string>>, g: seq<string>)
    ensures Concat(gs + [g]) == Concat(gs) + g
  {
    assert (gs + [g])[..|gs|] == gs;
  }

  /** Every block is non-empty, and all the blocks together are the non-blank lines' contents, in order. */
  lemma GroupsShape(lines: seq<string>, f: string -> Option<string>)
    ensures forall k :: 0 <= k < |GroupsBy(lines, f)| ==> GroupsBy(lines, f)[k] != []
    ensures Concat(GroupsBy(lines, f)) == FilterMap(lines, f)
  {
    ScanBlocksNonEmpty(lines, f);
    ScanConcat(lines, f);
    var (groups, buf) := Scan(lines, f);
    if |buf| > 0 {
      ConcatSnoc(groups, buf);
    }
  }

  lemma {:induction false} ConcatEmpty(gs: seq<seq<string>>)
    requires forall k :: 0 <= k < |gs| ==> gs[k] != []
    ensures Concat(gs) == [] <==> gs == []
  {
    if gs != [] {
      assert gs[|gs| - 1] != [];
    }
  }

  /** There are no blocks exactly when every line is blank. */
  lemma GroupsEmptyIffBy(lines: seq<string>, f: string -> Option<string>)
    ensures GroupsBy(lines, f) == [] <==> forall i :: 0 <= i < |lines| ==> f(lines[i]).None?
  {
    GroupsShape(lines, f);
    ConcatEmpty(GroupsBy(lines, f));
    FilterMapEmptyIff(lines, f);
  }

  /** Scanning more lines from a closed state only adds blocks. */
  lemma {:induction false} ScanFromClosed(a: seq<string>, b: seq<string>, f: string -> Option<string>)
    requires Scan(a, f).1 == []
    ensures Scan(a + b, f) == (Scan(a, f).0 + Scan(b, f).0, Scan(b, f).1)
    decreases |b|
  {
    if b == [] {
      assert a + b == a;
      assert Scan(a, f).0 + [] == Scan(a, f).0;
    } else {
      var b' := b[..|b| - 1];
      var last := b[|b| - 1];
      ScanFromClosed(a, b', f);
      assert (a + b)[..|a + b| - 1] == a + b';
      assert (a + b)[|a + b| - 1] == last;
      var (g0, _) := Scan(a, f);
      var (g, buf) := Scan(b', f);
      match f(last)
      case None =>
        if |buf| > 0 {
          assert (g0 + g) + [buf] == g0 + (g + [buf]);
        }
      case Some(line) =>
    }
  }

  /** A blank line closes a block: the blocks on either side of it are found separately. */
  lemma BlankSeparatesBy(a: seq<string>, blank: string, b: seq<string>, f: string -> Option<string>)
    requires f(blank).None?
    ensures GroupsBy(a + [blank] + b, f) == GroupsBy(a, f) + GroupsBy(b, f)
  {
    var a' := a + [blank];
    assert a'[..|a'| - 1] == a;
    assert Scan(a', f).0 == GroupsBy(a, f);
    ScanFromClosed(a', b, f);
  }

  /** Lines none of which is blank form a single block. */
  lemma {:induction false} NoBlankOneGroupBy(lines: seq<string>, f: string -> Option<string>)
    requires lines != []
    requires forall i :: 0 <= i < |lines| ==> f(lines[i]).Some?
    ensures Scan(lines, f) == ([], FilterMap(lines, f))
    ensures GroupsBy(lines, f) == [FilterMap(lines, f)]
  {
    var init := lines[..|lines| - 1];
    if init != [] {
      NoBlankOneGroupBy(init, f);
    }
  }

  /** `parseEntryBlocks`' blocks: lines are normalised and the ones that normalise to empty separate blocks. */
  function Groups(lines: seq<string>): seq<seq<string>> {
    GroupsBy(lines, NonBlank)
  }

  /** There are no blocks exactly when every line is blank. */
  lemma GroupsEmptyIff(lines: seq<string>)
    ensures Groups(lines) == [] <==> forall i :: 0 <= i < |lines| ==> AllSpace(lines[i])
  {
    GroupsEmptyIffBy(lines, NonBlank);
    forall i | 0 <= i < |lines| ensures NonBlank(lines[i]).None? <==> AllSpace(lines[i]) {
      NormalizeEmptyIff(lines[i]);
    }
  }

  /** The blocks hold exactly the normalised non-blank lines, in order, and none is empty. */
  lemma GroupsCoverLines(lines: seq<string>)
    ensures forall k :: 0 <= k < |Groups(lines)| ==> Groups(lines)[k] != []
    ensures Concat(Groups(lines)) == NormalizedLines(lines)
  {
    GroupsShape(lines, NonBlank);
  }

  /** One entry per maximal run of non-blank lines: a blank line separates the blocks on its two sides. */
  lemma BlankLineSeparates(a: seq<string>, blank: string, b: seq<string>)
    requires AllSpace(blank)
    ensures Groups(a + [blank] + b) == Groups(a) + Groups(b)
  {
    NormalizeEmptyIff(blank);
    BlankSeparatesBy(a, blank, b, NonBlank);
  }

  // --------------------------------------------------------------- entries

  /** `.replace(/[|｜•·]/g, ' ')` */
  function BarToSpace(c: char): char {
    if c == '|' || c == '｜' || c == '•' || c == '·' then ' ' else c
  }

  /** The title of a block whose head holds the time text `t`. */
  function TitleWithout(head: string, t: string): string {
    var x := Trim(Map(ReplaceFirst(head, t, ""), BarToSpace));
    if x != [] then x else Trim(head)
  }

  /** One block as an entry: time from the head, title from the rest of the head, bullets from the other lines. */
  function EntryOf(g: seq<string>): Entry {
    var head := if |g| > 0 then g[0] else "";
    var rest := if |g| > 0 then g[1..] else [];
    match FirstTime(head)
    case Some(t) => Entry(Some(TitleWithout(head, t)), Some(t), Bullets(rest))
    case None => Entry(Some(Trim(head)), None, Bullets(rest))
  }

  /** `parseEntryBlocks` as a function: one entry per block; a bucket of blank lines gives one empty entry. */
  function EntriesOf(lines: seq<string>): seq<Entry> {
    var groups := Groups(lines);
    if groups == [] && |lines| > 0 then [Entry(None, None, Bullets(lines))]
    else Map(groups, EntryOf)
  }

  /** The first loop of `parseEntryBlocks`, with the last open block closed (src/services/resume.ts:111-121). */
  method CollectGroups(blockLines: seq<string>) returns (groups: seq<seq<string>>)
    ensures groups == Groups(blockLines)
  {
    groups := [];
    var buf: seq<string> := [];
    for i := 0 to |blockLines|
      invariant (groups, buf) == Scan(blockLines[..i], NonBlank)
    {
      assert blockLines[..i + 1][..i] == blockLines[..i];
      var line := NormalizeLine(blockLines[i]);
      if line == [] {
        if |buf| > 0 {
          groups := groups + [buf];
          buf := [];
        }
        continue;
      }
      buf := buf + [line];
    }
    assert blockLines[..|blockLines|] == blockLines;
    if |buf| > 0 {
      groups := groups + [buf];
    }
  }

  /** The second loop of `parseEntryBlocks`: one entry per block, in order (src/services/resume.ts:123-146). */
  method EntriesFromGroups(groups: seq<seq<string>>) returns (entries: seq<Entry>)
    ensures entries == Map(groups, EntryOf)
  {
    entries := [];
    for k := 0 to |groups|
      invariant entries == Map(groups[..k], EntryOf)
    {
      MapSnoc(groups, k, EntryOf);
      entries := entries + [EntryOf(groups[k])];
    }
    assert groups[..|groups|] == groups;
  }

  /** `parseEntryBlocks` (src/services/resume.ts:108-150). */
  method ParseEntryBlocks(blockLines: seq<string>) returns (entries: seq<Entry>)
    ensures entries == EntriesOf(blockLines)
  {
    var groups := CollectGroups(blockLines);
    entries := EntriesFromGroups(groups);
    if |entries| == 0 && |blockLines| > 0 {
      assert groups == [];
      var bullets := SplitBullets(blockLines);
      entries := [Entry(None, None, bullets)];
    }
  }

  /** An empty bucket gives no entries; a bucket of blank lines gives exactly one entry, with no title, no time and no bullets. */
  lemma BlankBucketFallback(lines: seq<string>)
    requires forall i :: 0 <= i < |lines| ==> AllSpace(lines[i])
    ensures lines == [] ==> EntriesOf(lines) == []
    ensures lines != [] ==> EntriesOf(lines) == [Entry(None, None, [])]
  {
    GroupsEmptyIff(lines);
    BulletsEmptyIff(lines);
  }

  /** With some non-blank line there is one entry per block, and each has a non-empty title. */
  lemma EntriesPerGroup(lines: seq<string>)
    requires exists i :: 0 <= i < |lines| && !AllSpace(lines[i])
    ensures |EntriesOf(lines)| == |Groups(lines)| > 0
    ensures forall k :: 0 <= k < |Groups(lines)| ==> EntriesOf(lines)[k] == EntryOf(Groups(lines)[k])
  {
    GroupsEmptyIff(lines);
  }

  /** Text that starts with four digits starts with four digits wherever it occurs. */
  lemma DigitsOccurrence(head: string, t: string, i: nat, j: nat)
    requires |t| >= 4 && OccursAt(head, t, i) && FourDigitsAt(head, i)
    ensures OccursAt(head, t, j) ==> FourDigitsAt(head, j)
  {
    if OccursAt(head, t, j) {
      forall k | j <= k < j + 4 ensures IsDigit(head[k]) {
        assert head[k] == head[j..j + |t|][k - j] == t[k - j] == head[i..i + |t|][k - j];
      }
    }
  }

  /** The first occurrence of the time text in the head is the match itself, so `replace` removes exactly the matched text. */
  lemma TimeOccurrenceIsMatch(head: string)
    requires FirstTime(head).Some?
    ensures IndexOf(head, FirstTime(head).value) == FirstMatchFrom(head, 0, TimeAt)
  {
    var i := FirstMatchFrom(head, 0, TimeAt).value;
    var t := FirstTime(head).value;
    assert t == head[i..TimeAt(head, i).value];
    assert OccursAt(head, t, i);
    forall j | 0 <= j < i ensures !OccursAt(head, t, j) {
      assert TimeAt(head, j).None?;
      DigitsOccurrence(head, t, i, j);
    }
    IndexOfFirst(head, t, i);
  }

  /** A block's head with a time range: the title is what is left of the head around it. */
  lemma TitleFromHead(g: seq<string>)
    requires g != [] && FirstTime(g[0]).Some?
    ensures EntryOf(g).time == FirstTime(g[0])
    ensures EntryOf(g).title == Some(TitleWithout(g[0], FirstTime(g[0]).value))
    ensures EntryOf(g).bullets == Bullets(g[1..])
  {
  }
}
