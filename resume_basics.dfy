/**
 * `extractBasics` (src/services/resume.ts:83-106): contact details and the
 * name, title and city lines, read from the whole résumé text.
 */
module ResumeBasics {
  import opened Wrappers
  import opened Text
  import opened Matching
  import opened LineNormalizer
  import opened ResumePatterns

  /** `ResumeBasics`: the optional fields stay absent when nothing is found; `links` is always set. */
  datatype Basics = Basics(
    name: Option<string>,
    title: Option<string>,
    city: Option<string>,
    email: Option<string>,
    phone: Option<string>,
    links: seq<string>)

  lemma EmailMatchesNonEmpty(s: string)
    ensures NonEmptyMatches(s, EmailAt)
  {
  }

  /**
   * `emails[0]`: the leftmost e-mail address in the text. It starts where
   * the first e-mail shape of the text starts and ends where the expression
   * ends a match there (`EmailAtComplete` says which end that is).
   */
  function FirstEmail(raw: string): (r: Option<string>)
    ensures r.Some? <==> exists i, j, d, m :: EmailShape(raw, i, j, d, m)
    ensures r.Some? ==> exists i: nat :: LeftmostEmailAt(raw, i) && r.value == raw[i..EmailAt(raw, i).value]
  {
    EmailMatchesNonEmpty(raw);
    match FirstMatchFrom(raw, 0, EmailAt)
    case None =>
      NoEarlierEmail(raw, |raw|);
      None
    case Some(i) =>
      EmailAtSound(raw, i);
      NoEarlierEmail(raw, i);
      Some(raw[i..EmailAt(raw, i).value])
  }

  /** The expression matches at `i`, its match there is an e-mail shape, and no e-mail shape starts before `i`. */
  ghost predicate LeftmostEmailAt(raw: string, i: nat) {
    && EmailAt(raw, i).Some?
    && (exists j, d :: EmailShape(raw, i, j, d, EmailAt(raw, i).value))
    && forall i': nat, j: nat, d: nat, m: nat :: i' < i ==> !EmailShape(raw, i', j, d, m)
  }

  /** No e-mail shape starts before a position where the expression matched nowhere earlier. */
  lemma NoEarlierEmail(raw: string, i: nat)
    requires forall j :: 0 <= j < i ==> EmailAt(raw, j).None?
    requires i == |raw| ==> forall j :: EmailAt(raw, j).None?
    ensures forall i': nat, j: nat, d: nat, m: nat :: i' < i ==> !EmailShape(raw, i', j, d, m)
    ensures i == |raw| ==> forall i': nat, j: nat, d: nat, m: nat :: !EmailShape(raw, i', j, d, m)
  {
    forall i': nat, j: nat, d: nat, m: nat | EmailShape(raw, i', j, d, m) && (i' < i || i == |raw|) ensures false {
      EmailAtComplete(raw, i', j, d, m);
    }
  }

  /** `phones[0]`: the leftmost mobile number, eleven digits starting `1` and `3`-`9`. */
  function FirstPhone(raw: string): (r: Option<string>)
    ensures r.None? <==> forall i :: PhoneAt(raw, i).None?
    ensures r.Some? ==> |r.value| == 11 && r.value[0] == '1' && '3' <= r.value[1] <= '9'
    ensures r.Some? ==> forall k :: 0 <= k < 11 ==> IsDigit(r.value[k])
    ensures r.Some? ==> exists i: nat :: i + 11 <= |raw| && PhoneAt(raw, i).Some? && r.value == raw[i..i + 11]
                                      && forall j: nat :: j < i ==> PhoneAt(raw, j).None?
  {
    match FirstMatchFrom(raw, 0, PhoneAt)
    case None => None
    case Some(i) =>
      var p := raw[i..i + 11];
      assert forall k :: 0 <= k < 11 ==> p[k] == raw[i + k];
      Some(p)
  }

  /** A `www.` link gets an `https://` scheme (the test is case-sensitive). */
  function Canonical(u: string): string {
    if StartsWith(u, "www.") then "https://" + u else u
  }

  lemma UrlMatchesNonEmpty(s: string)
    ensures NonEmptyMatches(s, UrlAt)
  {
  }

  predicate NoSpaceIn(s: string) {
    forall k :: 0 <= k < |s| ==> !IsSpace(s[k])
  }

  /** A URL match is a non-empty run of non-space characters. */
  lemma UrlMatchNoSpace(raw: string, i: nat)
    requires UrlAt(raw, i).Some?
    ensures |raw[i..UrlAt(raw, i).value]| > 0 && NoSpaceIn(raw[i..UrlAt(raw, i).value])
  {
    var e := UrlAt(raw, i).value;
    assert forall k :: i <= k < e ==> NotSpace(raw[k]);
    assert forall k :: 0 <= k < e - i ==> raw[i..e][k] == raw[i + k];
  }

  lemma CanonicalNoSpace(u: string)
    requires |u| > 0 && NoSpaceIn(u)
    ensures |Canonical(u)| > 0 && NoSpaceIn(Canonical(u))
  {
    if StartsWith(u, "www.") {
      var c := "https://" + u;
      assert forall k :: 8 <= k < |c| ==> c[k] == u[k - 8];
    }
  }

  /** Every URL match, canonicalised, in text order. */
  function UrlMatches(raw: string): (r: seq<string>)
    ensures forall k :: 0 <= k < |r| ==> |r[k]| > 0 && NoSpaceIn(r[k])
  {
    UrlMatchesNonEmpty(raw);
    var ms := AllMatches(raw, UrlAt);
    forall k | 0 <= k < |ms| ensures |Canonical(ms[k])| > 0 && NoSpaceIn(Canonical(ms[k])) {
      var i := MatchStartsFrom(raw, 0, UrlAt)[k];
      UrlMatchNoSpace(raw, i);
      CanonicalNoSpace(ms[k]);
    }
    Map(ms, Canonical)
  }

  /** `links`: the canonicalised URL matches without repeats, each where it first occurs. */
  function Links(raw: string): (r: seq<string>)
    ensures NoDuplicates(r)
    ensures forall k :: 0 <= k < |r| ==> r[k] in UrlMatches(raw)
    ensures forall k :: 0 <= k < |UrlMatches(raw)| ==> UrlMatches(raw)[k] in r
    ensures r == FirstOccurrences(UrlMatches(raw), {})
    ensures forall k :: 0 <= k < |r| ==> |r[k]| > 0 && NoSpaceIn(r[k])
  {
    DedupIsFirstOccurrences(UrlMatches(raw));
    Dedup(UrlMatches(raw))
  }

  // ------------------------------------------------------- labelled lines

  /** `l` starts with `key` followed by `:` or `：`. */
  predicate HasLabel(l: string, key: string) {
    |l| > |key| && l[..|key|] == key && (l[|key|] == ':' || l[|key|] == '：')
  }

  /** The first key of the alternation that the line starts with. */
  function LabelOf(l: string, labels: seq<string>): (r: Option<string>)
    ensures r.Some? ==> r.value in labels && HasLabel(l, r.value)
    ensures r.None? <==> forall k :: 0 <= k < |labels| ==> !HasLabel(l, labels[k])
  {
    match Find(labels, key => HasLabel(l, key))
    case None => None
    case Some(key) => Some(key)
  }

  /** Removes a leading label with its colon and the white space after it, then trims. */
  function StripLabel(l: string, labels: seq<string>): string {
    match LabelOf(l, labels)
    case None => Trim(l)
    case Some(key) => Trim(TrimStart(l[|key| + 1..]))
  }

  const NameLabels: seq<string> := ["姓名"]
  const TitleLabels: seq<string> := ["求职意向", "目标岗位", "期望职位"]
  const CityLabels: seq<string> := ["现居地", "所在地", "城市"]

  predicate IsNameLine(l: string) { LabelOf(l, NameLabels).Some? }
  predicate IsTitleLine(l: string) { LabelOf(l, TitleLabels).Some? }
  predicate IsCityLine(l: string) { LabelOf(l, CityLabels).Some? }

  lemma PhoneMatchesNonEmpty(s: string)
    ensures NonEmptyMatches(s, PhoneAt)
  {
  }

  /** No line carries the `姓名` label. */
  predicate NoNameLine(lines: seq<string>) {
    forall k :: 0 <= k < |lines| ==> !IsNameLine(lines[k])
  }

  /** A short line (at most 12 UTF-16 code units) without an e-mail address or a phone number: a bare name. */
  predicate IsShortPlainLine(l: string) {
    EmailMatchesNonEmpty(l);
    PhoneMatchesNonEmpty(l);
    Utf16Length(l) <= 12 && !Test(l, EmailAt) && !Test(l, PhoneAt)
  }

  /** Seven emoji are fourteen code units, so a line of them is no bare name, though it has only seven characters. */
  lemma AstralLineNotShort()
    ensures !IsShortPlainLine(seq(7, _ => '\U{1F600}'))
  {
  }

  /** `name`: from the first `姓名` line, else from the first short plain line. */
  function NameOf(lines: seq<string>): (r: Option<string>)
    ensures r.None? <==> forall k :: 0 <= k < |lines| ==> !IsNameLine(lines[k]) && !IsShortPlainLine(lines[k])
    ensures (exists k :: 0 <= k < |lines| && IsNameLine(lines[k])) ==>
      r == Some(StripLabel(lines[FirstIndex(lines, IsNameLine).value], NameLabels))
    ensures NoNameLine(lines) ==> r.Some? ==> r == Some(Trim(lines[FirstIndex(lines, IsShortPlainLine).value]))
  {
    var line := match Find(lines, IsNameLine)
      case Some(l) => Some(l)
      case None => Find(lines, IsShortPlainLine);
    match line
    case None => None
    case Some(l) => Some(StripLabel(l, NameLabels))
  }

  /** `title` or `city`: the first line carrying one of the labels, with the key removed. */
  function LabelledValue(lines: seq<string>, labels: seq<string>): (r: Option<string>)
    ensures r.None? <==> forall k :: 0 <= k < |lines| ==> LabelOf(lines[k], labels).None?
    ensures r.Some? ==> exists k :: (0 <= k < |lines| && LabelOf(lines[k], labels).Some?
      && (forall j :: 0 <= j < k ==> LabelOf(lines[j], labels).None?)
      && r.value == StripLabel(lines[k], labels))
  {
    match FirstIndex(lines, l => LabelOf(l, labels).Some?)
    case None => None
    case Some(k) => Some(StripLabel(lines[k], labels))
  }

  /** `extractBasics`. */
  function ExtractBasics(raw: string): Basics {
    var lines := NormalizedLines(Split(raw, '\n'));
    Basics(
      NameOf(lines),
      LabelledValue(lines, TitleLabels),
      LabelledValue(lines, CityLabels),
      FirstEmail(raw),
      FirstPhone(raw),
      Links(raw))
  }

  /**
   * The contact details `extractBasics` reads from the whole text: an e-mail
   * address exactly when the text contains an e-mail shape, a phone number
   * exactly when it contains a mobile number, and the links without repeats.
   */
  lemma ContactDetails(raw: string)
    ensures ExtractBasics(raw).email.Some? <==> exists i, j, d, m :: EmailShape(raw, i, j, d, m)
    ensures ExtractBasics(raw).phone.Some? <==> exists i: nat :: PhoneAt(raw, i).Some?
    ensures NoDuplicates(ExtractBasics(raw).links)
  {
    BasicsUnfold(raw);
  }

  /** A `姓名` line anywhere wins over an earlier short line. */
  lemma NameLabelWins(raw: string, k: nat)
    requires k < |NormalizedLines(Split(raw, '\n'))|
    requires IsNameLine(NormalizedLines(Split(raw, '\n'))[k])
    ensures ExtractBasics(raw).name.Some?
    ensures exists j :: (0 <= j <= k && IsNameLine(NormalizedLines(Split(raw, '\n'))[j])
      && ExtractBasics(raw).name.value == StripLabel(NormalizedLines(Split(raw, '\n'))[j], NameLabels))
  {
    var lines := NormalizedLines(Split(raw, '\n'));
    var j := FirstIndex(lines, IsNameLine).value;
    assert ExtractBasics(raw).name == Some(StripLabel(lines[j], NameLabels));
  }

  /**
   * Without a `姓名` line the name is the first short line that holds no
   * e-mail address and no phone number, trimmed; there is a name exactly
   * when there is such a line.
   */
  lemma NameFromShortLine(raw: string)
    requires NoNameLine(NormalizedLines(Split(raw, '\n')))
    ensures ExtractBasics(raw).name.Some? <==>
      exists k :: 0 <= k < |NormalizedLines(Split(raw, '\n'))| && IsShortPlainLine(NormalizedLines(Split(raw, '\n'))[k])
    ensures ExtractBasics(raw).name.Some? ==> exists k :: (0 <= k < |NormalizedLines(Split(raw, '\n'))|
      && IsShortPlainLine(NormalizedLines(Split(raw, '\n'))[k])
      && (forall j :: 0 <= j < k ==> !IsShortPlainLine(NormalizedLines(Split(raw, '\n'))[j]))
      && ExtractBasics(raw).name.value == Trim(NormalizedLines(Split(raw, '\n'))[k]))
  {
    BasicsUnfold(raw);
    ShortLineName(NormalizedLines(Split(raw, '\n')));
  }

  /** `ExtractBasics` field by field, so that proofs about one field need not unfold the others. */
  lemma BasicsUnfold(raw: string)
    ensures ExtractBasics(raw).name == NameOf(NormalizedLines(Split(raw, '\n')))
    ensures ExtractBasics(raw).title == LabelledValue(NormalizedLines(Split(raw, '\n')), TitleLabels)
    ensures ExtractBasics(raw).city == LabelledValue(NormalizedLines(Split(raw, '\n')), CityLabels)
    ensures ExtractBasics(raw).email == FirstEmail(raw)
    ensures ExtractBasics(raw).phone == FirstPhone(raw)
    ensures ExtractBasics(raw).links == Links(raw)
  {
  }

  lemma ShortLineName(lines: seq<string>)
    requires NoNameLine(lines)
    ensures NameOf(lines).Some? <==> exists k :: 0 <= k < |lines| && IsShortPlainLine(lines[k])
    ensures NameOf(lines).Some? ==> exists k :: (0 <= k < |lines| && IsShortPlainLine(lines[k])
      && (forall j :: 0 <= j < k ==> !IsShortPlainLine(lines[j])) && NameOf(lines).value == Trim(lines[k]))
  {
    if NameOf(lines).Some? {
      var k := FirstIndex(lines, IsShortPlainLine).value;
      assert NameOf(lines).value == Trim(lines[k]);
    }
  }
}
