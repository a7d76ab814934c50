/**
 * The per-line clean-up (`normalizeLine`) and the bullet splitter
 * (`splitBullets`). The résumé parser and the job-post parser each declare
 * the two functions, with identical bodies; they are modelled once here,
 * together with the line-break clean-up both parsers start with.
 */
module LineNormalizer {
  import opened Wrappers
  import opened Text

  /** The bullet glyphs the normaliser rewrites to `-`. */
  predicate IsBulletGlyph(c: char) {
    c == '•' || c == '·' || c == '●' || c == '◦' || c == '▪' || c == '■'
  }

  function GlyphChar(c: char): char {
    if c == '\U{00A0}' then ' ' else if IsBulletGlyph(c) then '-' else c
  }

  /** The first two rewrites: a no-break space becomes a space, a bullet glyph becomes `-`. */
  function ReplaceGlyphs(s: string): (r: string)
    ensures |r| == |s| && forall i :: 0 <= i < |s| ==> r[i] == GlyphChar(s[i])
  {
    seq(|s|, i requires 0 <= i < |s| => GlyphChar(s[i]))
  }

  /** The characters of `s` that are not white space, in order. */
  function NonSpace(s: string): string {
    if s == [] then [] else (if IsSpace(s[0]) then [] else [s[0]]) + NonSpace(s[1..])
  }

  /** Positions `i` and `i + 1` are not both spaces. */
  predicate NoDoubleSpaceAt(s: string, i: nat)
    requires i + 1 < |s|
  {
    !(s[i] == ' ' && s[i + 1] == ' ')
  }

  /** Every white-space character is a plain space, and no two spaces are adjacent. */
  predicate SpacesCollapsed(s: string) {
    && (forall i :: 0 <= i < |s| ==> IsSpace(s[i]) ==> s[i] == ' ')
    && (forall i :: 0 <= i < |s| - 1 ==> NoDoubleSpaceAt(s, i))
  }

  /** No bullet glyph occurs in `s`. */
  predicate GlyphFree(s: string) {
    forall i :: 0 <= i < |s| ==> !IsBulletGlyph(s[i])
  }

  /** What a normalised line looks like. */
  predicate IsNormal(s: string) {
    && GlyphFree(s)
    && SpacesCollapsed(s)
    && (s == [] || (s[0] != ' ' && s[|s| - 1] != ' '))
  }

  /** Prepending one character keeps the collapsed shape when it cannot form a double space. */
  lemma ConsCollapsed(c: char, r: string)
    requires SpacesCollapsed(r)
    requires IsSpace(c) ==> c == ' '
    requires c == ' ' ==> r == [] || r[0] != ' '
    ensures SpacesCollapsed([c] + r)
  {
    var s := [c] + r;
    forall i | 0 <= i < |s| - 1 ensures NoDoubleSpaceAt(s, i) {
      if i > 0 {
        assert NoDoubleSpaceAt(r, i - 1);
      }
    }
  }

  /** Any slice of a glyph-free string is glyph-free. */
  lemma SliceGlyphFree(s: string, a: nat, b: nat)
    requires a <= b <= |s|
    requires GlyphFree(s)
    ensures GlyphFree(s[a..b])
  {
    var t := s[a..b];
    forall i | 0 <= i < |t| ensures !IsBulletGlyph(t[i]) {
      assert t[i] == s[a + i];
    }
  }

  /** Any slice of a collapsed string is collapsed. */
  lemma SliceCollapsed(s: string, a: nat, b: nat)
    requires a <= b <= |s|
    requires SpacesCollapsed(s)
    ensures SpacesCollapsed(s[a..b])
  {
    var t := s[a..b];
    forall i | 0 <= i < |t| - 1 ensures NoDoubleSpaceAt(t, i) {
      assert NoDoubleSpaceAt(s, a + i);
    }
  }

  /** `.replace(/\s+/g, ' ')`: every maximal run of white space becomes one space. */
  function CollapseSpaces(s: string): (r: string)
    ensures SpacesCollapsed(r)
    ensures |r| > 0 <==> |s| > 0
    ensures |r| > 0 ==> (IsSpace(r[0]) <==> IsSpace(s[0]))
    decreases |s|
  {
    if s == [] then []
    else if IsSpace(s[0]) then
      var rest := CollapseSpaces(TrimStart(s));
      ConsCollapsed(' ', rest);
      [' '] + rest
    else
      var rest := CollapseSpaces(s[1..]);
      ConsCollapsed(s[0], rest);
      [s[0]] + rest
  }

  lemma {:induction false} CollapseGlyphFree(s: string)
    requires GlyphFree(s)
    ensures GlyphFree(CollapseSpaces(s))
    decreases |s|
  {
    if s != [] {
      if IsSpace(s[0]) {
        var t := TrimStart(s);
        assert forall i :: 0 <= i < |t| ==> t[i] == s[|s| - |t| + i];
        CollapseGlyphFree(t);
      } else {
        CollapseGlyphFree(s[1..]);
      }
    }
  }

  lemma ReplaceGlyphsGlyphFree(s: string)
    ensures GlyphFree(ReplaceGlyphs(s))
  {
  }

  /** Where the trimmed text starts in `x`. */
  lemma TrimSlice(x: string) returns (a: nat)
    ensures a + |Trim(x)| <= |x| && Trim(x) == x[a..a + |Trim(x)|]
  {
    a := |x| - |TrimStart(x)|;
  }

  lemma TrimCollapsed(x: string)
    requires SpacesCollapsed(x)
    ensures SpacesCollapsed(Trim(x))
  {
    var a := TrimSlice(x);
    SliceCollapsed(x, a, a + |Trim(x)|);
  }

  lemma TrimGlyphFree(x: string)
    requires GlyphFree(x)
    ensures GlyphFree(Trim(x))
  {
    var a := TrimSlice(x);
    SliceGlyphFree(x, a, a + |Trim(x)|);
  }

  /** The shape `normalizeLine` guarantees. */
  lemma NormalizeShape(s: string)
    ensures IsNormal(Trim(CollapseSpaces(ReplaceGlyphs(s))))
  {
    var g := ReplaceGlyphs(s);
    ReplaceGlyphsGlyphFree(s);
    CollapseGlyphFree(g);
    TrimGlyphFree(CollapseSpaces(g));
    TrimCollapsed(CollapseSpaces(g));
  }

  /** `normalizeLine` (src/services/resume.ts:58-64, src/services/jobPost.ts:20-26). */
  function NormalizeLine(s: string): (r: string)
    ensures IsNormal(r)
  {
    NormalizeShape(s);
    Trim(CollapseSpaces(ReplaceGlyphs(s)))
  }

  lemma {:induction false} NonSpaceAppend(a: string, b: string)
    ensures NonSpace(a + b) == NonSpace(a) + NonSpace(b)
  {
    if a == [] {
      assert a + b == b;
    } else {
      assert (a + b)[0] == a[0];
      assert (a + b)[1..] == a[1..] + b;
      NonSpaceAppend(a[1..], b);
    }
  }

  lemma {:induction false} NonSpaceAllSpace(s: string)
    requires AllSpace(s)
    ensures NonSpace(s) == []
  {
    if s != [] {
      NonSpaceAllSpace(s[1..]);
    }
  }

  lemma NonSpaceTrimStart(s: string)
    ensures NonSpace(TrimStart(s)) == NonSpace(s)
  {
    var t := TrimStart(s);
    var k := |s| - |t|;
    assert s == s[..k] + t;
    NonSpaceAppend(s[..k], t);
    NonSpaceAllSpace(s[..k]);
  }

  lemma NonSpaceTrimEnd(t: string)
    ensures NonSpace(TrimEnd(t)) == NonSpace(t)
  {
    var r := TrimEnd(t);
    assert t == r + t[|r|..];
    NonSpaceAppend(r, t[|r|..]);
    NonSpaceAllSpace(t[|r|..]);
  }

  lemma NonSpaceTrim(s: string)
    ensures NonSpace(Trim(s)) == NonSpace(s)
  {
    NonSpaceTrimStart(s);
    NonSpaceTrimEnd(TrimStart(s));
  }

  lemma {:induction false} NonSpaceCollapse(s: string)
    ensures NonSpace(CollapseSpaces(s)) == NonSpace(s)
    decreases |s|
  {
    if s != [] {
      var c := CollapseSpaces(s);
      if IsSpace(s[0]) {
        var t := TrimStart(s);
        NonSpaceCollapse(t);
        assert c == [' '] + CollapseSpaces(t);
        assert c[1..] == CollapseSpaces(t);
        var k := |s| - |t|;
        assert s == s[..k] + t;
        NonSpaceAppend(s[..k], t);
        NonSpaceAllSpace(s[..k]);
      } else {
        NonSpaceCollapse(s[1..]);
        assert c[1..] == CollapseSpaces(s[1..]);
      }
    }
  }

  /** Normalising changes nothing but white space and bullet glyphs: the other characters survive in order. */
  lemma NormalizeKeepsText(s: string)
    ensures NonSpace(NormalizeLine(s)) == NonSpace(ReplaceGlyphs(s))
  {
    var x := CollapseSpaces(ReplaceGlyphs(s));
    NonSpaceTrim(x);
    NonSpaceCollapse(ReplaceGlyphs(s));
  }

  lemma {:induction false} NonSpaceEmptyIff(s: string)
    ensures NonSpace(s) == [] <==> AllSpace(s)
  {
    if s != [] {
      NonSpaceEmptyIff(s[1..]);
      assert forall i :: 1 <= i < |s| ==> s[i] == s[1..][i - 1];
    }
  }

  lemma GlyphsKeepSpaces(s: string)
    ensures AllSpace(ReplaceGlyphs(s)) <==> AllSpace(s)
  {
    var g := ReplaceGlyphs(s);
    assert forall i :: 0 <= i < |s| ==> (IsSpace(g[i]) <==> IsSpace(s[i]));
  }

  lemma NormalAllSpace(n: string)
    requires IsNormal(n)
    ensures AllSpace(n) <==> n == []
  {
    if n != [] {
      assert !IsSpace(n[0]);
    }
  }

  /** A line normalises to the empty string exactly when it is all white space. */
  lemma NormalizeEmptyIff(s: string)
    ensures NormalizeLine(s) == [] <==> AllSpace(s)
  {
    var n := NormalizeLine(s);
    NormalizeKeepsText(s);
    NonSpaceEmptyIff(n);
    NonSpaceEmptyIff(ReplaceGlyphs(s));
    GlyphsKeepSpaces(s);
    NormalAllSpace(n);
  }

  lemma {:induction false} CollapseKeepsCollapsed(s: string)
    requires SpacesCollapsed(s)
    ensures CollapseSpaces(s) == s
    decreases |s|
  {
    if s != [] {
      SliceCollapsed(s, 1, |s|);
      assert s[1..|s|] == s[1..];
      CollapseKeepsCollapsed(s[1..]);
      if IsSpace(s[0]) {
        if |s| > 1 {
          assert NoDoubleSpaceAt(s, 0);
        }
        TrimStartKeeps(s[1..]);
        assert TrimStart(s) == s[1..];
        assert CollapseSpaces(s) == [' '] + CollapseSpaces(s[1..]);
      } else {
        assert CollapseSpaces(s) == [s[0]] + CollapseSpaces(s[1..]);
      }
      assert s == [s[0]] + s[1..];
    }
  }

  /** A normalised line is left as it is by a second normalisation. */
  lemma NormalIsFixed(s: string)
    requires IsNormal(s)
    ensures NormalizeLine(s) == s
  {
    assert ReplaceGlyphs(s) == s;
    CollapseKeepsCollapsed(s);
    TrimKeeps(s);
  }

  /** `normalizeLine` is idempotent. */
  lemma NormalizeIdempotent(s: string)
    ensures NormalizeLine(NormalizeLine(s)) == NormalizeLine(s)
  {
    NormalIsFixed(NormalizeLine(s));
  }

  /** The marker handling of `splitBullets`: `^[-*]\s+` removed, then trimmed; other lines unchanged. */
  function StripMarker(line: string): string {
    if |line| >= 2 && (line[0] == '-' || line[0] == '*') && IsSpace(line[1])
    then Trim(TrimStart(line[1..]))
    else line
  }

  /** The marker test of `splitBullets` on a normalised line: `- ` or `* ` at its start. */
  lemma MarkerTest(line: string)
    requires IsNormal(line)
    ensures (|line| >= 2 && (line[0] == '-' || line[0] == '*') && IsSpace(line[1]))
        <==> (StartsWith(line, "- ") || StartsWith(line, "* "))
  {
    if |line| >= 2 {
      assert line[..2] == [line[0], line[1]];
      if IsSpace(line[1]) {
        assert line[1] == ' ';
      }
    }
  }

  lemma MarkedRestNormal(line: string)
    requires IsNormal(line) && |line| >= 2 && line[1] == ' '
    ensures |line| > 2 && line[2..] != [] && IsNormal(line[2..])
  {
    assert line[|line| - 1] != ' ';
    assert NoDoubleSpaceAt(line, 1);
    SliceCollapsed(line, 2, |line|);
    assert line[2..|line|] == line[2..];
  }

  lemma StripMarkedRest(line: string)
    requires IsNormal(line) && |line| >= 2 && line[1] == ' '
    ensures Trim(TrimStart(line[1..])) == line[2..]
  {
    var rest := line[2..];
    MarkedRestNormal(line);
    assert line[1..] == [line[1]] + rest;
    assert TrimStart(line[1..]) == TrimStart(rest);
    TrimStartKeeps(rest);
    TrimKeeps(rest);
  }

  /** On a normalised line a leading `- ` or `* ` is exactly two characters, and what is left is a non-empty normalised line. */
  lemma StripMarkerNormal(line: string)
    requires IsNormal(line) && line != []
    ensures StripMarker(line) != [] && IsNormal(StripMarker(line))
    ensures (StartsWith(line, "- ") || StartsWith(line, "* ")) ==> StripMarker(line) == line[2..]
    ensures !(StartsWith(line, "- ") || StartsWith(line, "* ")) ==> StripMarker(line) == line
  {
    var marked := |line| >= 2 && (line[0] == '-' || line[0] == '*') && IsSpace(line[1]);
    assert marked <==> (StartsWith(line, "- ") || StartsWith(line, "* ")) by {
      MarkerTest(line);
    }
    if marked {
      assert line[1] == ' ';
      StripMarked(line);
    } else {
      assert StripMarker(line) == line;
    }
  }

  lemma StripMarked(line: string)
    requires IsNormal(line) && |line| >= 2 && (line[0] == '-' || line[0] == '*') && line[1] == ' '
    ensures StripMarker(line) == line[2..] && line[2..] != [] && IsNormal(line[2..])
  {
    MarkedRestNormal(line);
    StripMarkedRest(line);
  }

  /** What `splitBullets` makes of one line: nothing when it normalises to empty, else the line without its marker. */
  function BulletOf(raw: string): Option<string> {
    var line := NormalizeLine(raw);
    if line == [] then None else Some(StripMarker(line))
  }

  /** A line yields no bullet exactly when it is blank. */
  lemma BulletOfNone(raw: string)
    ensures BulletOf(raw).None? <==> AllSpace(raw)
  {
    NormalizeEmptyIff(raw);
  }

  /** A bullet is a non-empty normalised line. */
  predicate WellFormedBullet(b: string) {
    b != [] && IsNormal(b)
  }

  lemma BulletOfWellFormed(raw: string)
    ensures BulletOf(raw).Some? ==> WellFormedBullet(BulletOf(raw).value)
  {
    var line := NormalizeLine(raw);
    if line != [] {
      StripMarkerNormal(line);
    }
  }

  /** `splitBullets` as a function: one bullet per line that does not normalise to empty, in order. */
  function Bullets(lines: seq<string>): (r: seq<string>)
    ensures |r| <= |lines|
  {
    FilterMap(lines, BulletOf)
  }

  /** Every bullet is a non-empty normalised line. */
  lemma BulletsWellFormed(lines: seq<string>)
    ensures forall i :: 0 <= i < |Bullets(lines)| ==> WellFormedBullet(Bullets(lines)[i])
  {
    forall raw ensures BulletOf(raw).Some? ==> WellFormedBullet(BulletOf(raw).value) {
      BulletOfWellFormed(raw);
    }
    FilterMapAll(lines, BulletOf, WellFormedBullet);
  }

  /** `splitBullets` (src/services/resume.ts:72-81, src/services/jobPost.ts:38-47). */
  method SplitBullets(lines: seq<string>) returns (out: seq<string>)
    ensures out == Bullets(lines)
  {
    out := [];
    for i := 0 to |lines|
      invariant out == Bullets(lines[..i])
    {
      assert lines[..i + 1][..i] == lines[..i];
      var line := NormalizeLine(lines[i]);
      if line == [] {
        continue;
      }
      if |line| >= 2 && (line[0] == '-' || line[0] == '*') && IsSpace(line[1]) {
        out := out + [Trim(TrimStart(line[1..]))];
      } else {
        out := out + [line];
      }
    }
    assert lines[..|lines|] == lines;
  }

  /** Splitting is done line by line: the bullets of two blocks are the bullets of each, in order. */
  lemma BulletsAppend(a: seq<string>, b: seq<string>)
    ensures Bullets(a + b) == Bullets(a) + Bullets(b)
  {
    FilterMapAppend(a, b, BulletOf);
  }

  /** A block has no bullets exactly when all its lines are blank. */
  lemma BulletsEmptyIff(lines: seq<string>)
    ensures Bullets(lines) == [] <==> forall i :: 0 <= i < |lines| ==> AllSpace(lines[i])
  {
    FilterMapEmptyIff(lines, BulletOf);
    forall i | 0 <= i < |lines| ensures BulletOf(lines[i]).None? <==> AllSpace(lines[i]) {
      BulletOfNone(lines[i]);
    }
  }

  /** When no line is blank, bullet `i` is line `i` normalised with its marker stripped. */
  lemma BulletsPointwise(lines: seq<string>)
    requires forall i :: 0 <= i < |lines| ==> !AllSpace(lines[i])
    ensures |Bullets(lines)| == |lines|
    ensures forall i :: 0 <= i < |lines| ==> Bullets(lines)[i] == StripMarker(NormalizeLine(lines[i]))
  {
    forall i | 0 <= i < |lines| ensures BulletOf(lines[i]).Some? {
      BulletOfNone(lines[i]);
    }
    FilterMapAllKept(lines, BulletOf);
  }

  /** `normalizeLine` followed by `filter(Boolean)` for one line: absent when the line normalises to empty. */
  function NonBlank(raw: string): Option<string> {
    var line := NormalizeLine(raw);
    if line == [] then None else Some(line)
  }

  /** `lines.map(normalizeLine).filter(Boolean)`. */
  function NormalizedLines(lines: seq<string>): seq<string> {
    FilterMap(lines, NonBlank)
  }

  /** Every line of `NormalizedLines` is non-empty and normalised, and a block of blank lines gives none. */
  lemma NormalizedLinesShape(lines: seq<string>)
    ensures forall i :: 0 <= i < |NormalizedLines(lines)| ==>
      NormalizedLines(lines)[i] != [] && IsNormal(NormalizedLines(lines)[i])
    ensures NormalizedLines(lines) == [] <==> forall i :: 0 <= i < |lines| ==> AllSpace(lines[i])
  {
    NormalizedLinesWellFormed(lines);
    NormalizedLinesEmptyIff(lines);
  }

  lemma NormalizedLinesWellFormed(lines: seq<string>)
    ensures forall i :: 0 <= i < |NormalizedLines(lines)| ==> WellFormedBullet(NormalizedLines(lines)[i])
  {
    forall raw ensures NonBlank(raw).Some? ==> WellFormedBullet(NonBlank(raw).value) {
      var line := NormalizeLine(raw);
      assert IsNormal(line);
    }
    FilterMapAll(lines, NonBlank, WellFormedBullet);
  }

  lemma NormalizedLinesEmptyIff(lines: seq<string>)
    ensures NormalizedLines(lines) == [] <==> forall i :: 0 <= i < |lines| ==> AllSpace(lines[i])
  {
    FilterMapEmptyIff(lines, NonBlank);
    forall i | 0 <= i < |lines| ensures NonBlank(lines[i]).None? <==> AllSpace(lines[i]) {
      NormalizeEmptyIff(lines[i]);
    }
  }

  // ------------------------------------------------------------ line breaks

  /** `replace(/\r\n/g, '\n')`: every CR LF pair, read left to right, becomes one LF. */
  function CrlfToLf(s: string): (r: string)
    ensures |r| <= |s|
    decreases |s|
  {
    if |s| >= 2 && s[0] == '\r' && s[1] == '\n' then "\n" + CrlfToLf(s[2..])
    else if s == [] then []
    else [s[0]] + CrlfToLf(s[1..])
  }

  /** Text without a carriage return is left as it is. */
  lemma {:induction false} CrlfKeepsPlainText(s: string)
    requires '\r' !in s
    ensures CrlfToLf(s) == s
    decreases |s|
  {
    if s != [] {
      assert s[0] != '\r';
      assert '\r' !in s[1..];
      CrlfKeepsPlainText(s[1..]);
    }
  }

  /** Each CR LF pair becomes a single LF, wherever it is and whatever is around it. */
  lemma {:induction false} CrlfPairBecomesLf(a: string, b: string)
    ensures CrlfToLf(a + "\r\n" + b) == CrlfToLf(a) + "\n" + CrlfToLf(b)
    decreases |a|
  {
    var s := a + "\r\n" + b;
    var rb := CrlfToLf(b);
    if a == [] {
      assert s[0] == '\r' && s[1] == '\n' && s[2..] == b;
    } else if |a| >= 2 && a[0] == '\r' && a[1] == '\n' {
      var t := a[2..];
      assert s[0] == '\r' && s[1] == '\n';
      assert s[2..] == t + "\r\n" + b;
      CrlfPairBecomesLf(t, b);
      var rt := CrlfToLf(t);
      assert CrlfToLf(s) == "\n" + (rt + "\n" + rb);
      assert CrlfToLf(a) == "\n" + rt;
      Regroup("\n", rt, "\n", rb);
    } else {
      var t := a[1..];
      assert !(s[0] == '\r' && s[1] == '\n') by {
        if |a| == 1 { assert s[1] == '\r'; } else { assert s[1] == a[1]; }
      }
      assert s[1..] == t + "\r\n" + b;
      CrlfPairBecomesLf(t, b);
      var rt := CrlfToLf(t);
      assert CrlfToLf(s) == [a[0]] + (rt + "\n" + rb);
      assert CrlfToLf(a) == [a[0]] + rt;
      Regroup([a[0]], rt, "\n", rb);
    }
  }

  /** `text.replace(/\r\n/g, '\n').trim()`, the first step of both parsers. */
  function RawText(text: string): string {
    Trim(CrlfToLf(text))
  }

}
