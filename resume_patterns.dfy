/**
 * The regular expressions of the résumé parser as hand-written matchers:
 * `EMAIL_RE`, `PHONE_RE`, `URL_RE` (src/services/resume.ts:30-32) and the
 * time-range expression of the entry parser (src/services/resume.ts:129).
 * Each matcher returns where the match the JavaScript engine reports ends.
 */
module ResumePatterns {
  import opened Wrappers
  import opened Text
  import opened Matching

  // ---------------------------------------------------------------- e-mail

  /** `[a-zA-Z0-9._%+-]` */
  predicate IsLocalChar(c: char) {
    IsAsciiAlnum(c) || c == '.' || c == '_' || c == '%' || c == '+' || c == '-'
  }

  /** `[a-zA-Z0-9.-]` */
  predicate IsDomainChar(c: char) {
    IsAsciiAlnum(c) || c == '.' || c == '-'
  }

  /** A `.` at `d` followed by at least two ASCII letters. */
  predicate TldAt(s: string, d: nat) {
    d < |s| && s[d] == '.' && SpanEnd(s, d + 1, IsAsciiLetter) >= d + 3
  }

  /** The last position `d` in `[lo, k)` with `TldAt(s, d)`. */
  function LastTldDot(s: string, lo: nat, k: nat): (r: Option<nat>)
    requires k <= |s|
    ensures r.Some? ==> lo <= r.value < k && TldAt(s, r.value)
    ensures r.Some? ==> forall d :: r.value < d < k ==> !TldAt(s, d)
    ensures r.None? ==> forall d :: lo <= d < k ==> !TldAt(s, d)
    decreases k
  {
    if k <= lo then None
    else if TldAt(s, k - 1) then Some(k - 1)
    else LastTldDot(s, lo, k - 1)
  }

  /**
   * `EMAIL_RE` at `i`: the local part is the whole run of local characters,
   * the domain part backtracks to the last `.` that is followed by two or
   * more letters, and the letters after it are taken greedily.
   */
  function EmailAt(s: string, i: nat): (r: Option<nat>)
    ensures r.Some? ==> i < r.value <= |s|
  {
    if i >= |s| || !IsLocalChar(s[i]) then None
    else
      var j := SpanEnd(s, i, IsLocalChar);
      if j >= |s| || s[j] != '@' then None
      else
        var f := SpanEnd(s, j + 1, IsDomainChar);
        match LastTldDot(s, j + 2, f)
        case None => None
        case Some(d) => Some(SpanEnd(s, d + 1, IsAsciiLetter))
  }

  /**
   * `s[i..m]` is an e-mail address with its `@` at `j` and its last `.` at `d`:
   * local part `s[i..j]`, domain `s[j+1..d]`, top-level label `s[d+1..m]`.
   */
  predicate EmailShape(s: string, i: nat, j: nat, d: nat, m: nat) {
    && i < j && j + 1 < d && d + 2 < m && m <= |s|
    && (forall k :: i <= k < j ==> IsLocalChar(s[k]))
    && s[j] == '@'
    && (forall k :: j < k < d ==> IsDomainChar(s[k]))
    && s[d] == '.'
    && (forall k :: d < k < m ==> IsAsciiLetter(s[k]))
  }

  /** The `@` of any e-mail shape at `i` is the end of the local run. */
  lemma EmailShapeAt(s: string, i: nat, j: nat, d: nat, m: nat)
    requires EmailShape(s, i, j, d, m)
    ensures j == SpanEnd(s, i, IsLocalChar)
    ensures d < SpanEnd(s, j + 1, IsDomainChar)
    ensures TldAt(s, d)
    ensures m <= SpanEnd(s, d + 1, IsAsciiLetter)
  {
    assert !IsLocalChar(s[j]);
  }

  /** Every match `EmailAt` reports is an e-mail shape. */
  lemma EmailAtSound(s: string, i: nat)
    requires EmailAt(s, i).Some?
    ensures exists j, d :: EmailShape(s, i, j, d, EmailAt(s, i).value)
  {
    var j := SpanEnd(s, i, IsLocalChar);
    var f := SpanEnd(s, j + 1, IsDomainChar);
    var d := LastTldDot(s, j + 2, f).value;
    assert EmailShape(s, i, j, d, EmailAt(s, i).value);
  }

  /**
   * `EmailAt` finds a match wherever an e-mail shape starts, and reports the
   * one the engine prefers: the last possible `.`, then the longest label.
   */
  lemma EmailAtComplete(s: string, i: nat, j: nat, d: nat, m: nat)
    requires EmailShape(s, i, j, d, m)
    ensures EmailAt(s, i).Some?
    ensures exists d' :: (d <= d' && EmailShape(s, i, j, d', EmailAt(s, i).value)
      && (d' == d ==> m <= EmailAt(s, i).value))
  {
    EmailShapeAt(s, i, j, d, m);
    var f := SpanEnd(s, j + 1, IsDomainChar);
    var d' := LastTldDot(s, j + 2, f).value;
    assert EmailShape(s, i, j, d', EmailAt(s, i).value);
  }

  // ------------------------------------------------------------------ phone

  /** `PHONE_RE` at `i`: `1`, a digit `3`-`9`, then nine digits. */
  function PhoneAt(s: string, i: nat): (r: Option<nat>)
    ensures r.Some? ==> i < r.value <= |s|
    ensures r.Some? <==> (i + 11 <= |s| && s[i] == '1' && '3' <= s[i + 1] <= '9'
      && forall k :: i + 2 <= k < i + 11 ==> IsDigit(s[k]))
  {
    if i + 11 <= |s| && s[i] == '1' && '3' <= s[i + 1] <= '9'
      && forall k :: i + 2 <= k < i + 11 ==> IsDigit(s[k])
    then Some(i + 11)
    else None
  }

  // -------------------------------------------------------------------- URL

  /** `s` has `p` at `i`, ignoring ASCII case (the `i` flag). */
  predicate LowerStartsAt(s: string, i: nat, p: string) {
    i + |p| <= |s| && Lower(s[i..i + |p|]) == p
  }

  /** One of the three URL openings, ASCII case ignored, ends at `k` and a non-space follows it. */
  predicate UrlOpening(s: string, i: nat, k: nat) {
    k < |s| && !IsSpace(s[k])
    && ((k == i + 8 && LowerStartsAt(s, i, "https://"))
      || (k == i + 7 && LowerStartsAt(s, i, "http://"))
      || (k == i + 4 && LowerStartsAt(s, i, "www.")))
  }

  lemma OpeningNotSpace(s: string, i: nat, p: string)
    requires LowerStartsAt(s, i, p)
    requires forall k :: 0 <= k < |p| ==> !IsSpace(p[k])
    ensures forall k :: i <= k < i + |p| ==> !IsSpace(s[k])
  {
    forall k | i <= k < i + |p| ensures !IsSpace(s[k]) {
      assert Lower(s[i..i + |p|])[k - i] == p[k - i];
      assert s[i..i + |p|][k - i] == s[k];
    }
  }

  lemma SpanSkip(s: string, i: nat, k: nat)
    requires i <= k <= |s|
    requires forall x :: i <= x < k ==> !IsSpace(s[x])
    ensures SpanEnd(s, i, NotSpace) == SpanEnd(s, k, NotSpace)
    decreases k - i
  {
    if i < k {
      SpanSkip(s, i + 1, k);
    }
  }

  /** An opening is part of the run of non-space characters that follows it. */
  lemma OpeningSpan(s: string, i: nat, k: nat)
    requires UrlOpening(s, i, k)
    ensures SpanEnd(s, i, NotSpace) == SpanEnd(s, k, NotSpace)
  {
    if k == i + 8 && LowerStartsAt(s, i, "https://") {
      OpeningNotSpace(s, i, "https://");
    } else if k == i + 7 && LowerStartsAt(s, i, "http://") {
      OpeningNotSpace(s, i, "http://");
    } else {
      OpeningNotSpace(s, i, "www.");
    }
    SpanSkip(s, i, k);
  }

  /** `URL_RE` at `i`: an opening, then the rest of the run of non-space characters. */
  function UrlAt(s: string, i: nat): (r: Option<nat>)
    ensures r.Some? ==> i < r.value <= |s|
    ensures r.Some? ==> r.value == SpanEnd(s, i, NotSpace)
    ensures r.Some? <==> exists k :: UrlOpening(s, i, k)
  {
    var k :=
      if LowerStartsAt(s, i, "https://") && i + 8 < |s| && !IsSpace(s[i + 8]) then i + 8
      else if LowerStartsAt(s, i, "http://") && i + 7 < |s| && !IsSpace(s[i + 7]) then i + 7
      else if LowerStartsAt(s, i, "www.") && i + 4 < |s| && !IsSpace(s[i + 4]) then i + 4
      else 0;
    if k == 0 then
      assert forall k' :: !UrlOpening(s, i, k');
      None
    else
      assert UrlOpening(s, i, k);
      OpeningSpan(s, i, k);
      Some(SpanEnd(s, k, NotSpace))
  }

  // ------------------------------------------------------------ time range

  /** Four ASCII digits at `i`. */
  predicate FourDigitsAt(s: string, i: nat) {
    i + 4 <= |s| && forall k :: i <= k < i + 4 ==> IsDigit(s[k])
  }

  predicate IsDateSeparator(c: char) { c == '.' || c == '/' || c == '-' }

  predicate IsRangeSeparator(c: char) { c == '-' || c == '~' || c == '—' || c == '至' }

  /** `\d{4}[./-]\d{1,2}|\d{4}` at `i`, given the four digits: the year-month form when it applies. */
  function DateEnd(s: string, i: nat): (r: nat)
    requires FourDigitsAt(s, i)
    ensures i + 4 <= r <= i + 7 && r <= |s|
  {
    if i + 5 < |s| && IsDateSeparator(s[i + 4]) && IsDigit(s[i + 5]) then
      (if i + 6 < |s| && IsDigit(s[i + 6]) then i + 7 else i + 6)
    else i + 4
  }

  /** The end of the range's second date, `至今` included, when one starts at `c`. */
  function RangeEndAt(s: string, c: nat): (r: Option<nat>)
    requires c <= |s|
    ensures r.Some? ==> c < r.value <= |s|
  {
    if FourDigitsAt(s, c) then Some(DateEnd(s, c))
    else if c + 2 <= |s| && s[c] == '至' && s[c + 1] == '今' then Some(c + 2)
    else None
  }

  /**
   * The time-range expression at `i`. The first date is followed by any white
   * space; when a range separator, optional white space and a second date
   * follow, the match takes them, and otherwise it ends after the white space.
   */
  function TimeAt(s: string, i: nat): (r: Option<nat>)
    ensures r.Some? <==> FourDigitsAt(s, i)
    ensures r.Some? ==> i + 4 <= r.value <= |s|
  {
    if !FourDigitsAt(s, i) then None
    else
      var b := SpanEnd(s, DateEnd(s, i), IsSpace);
      if b < |s| && IsRangeSeparator(s[b]) then
        match RangeEndAt(s, SpanEnd(s, b + 1, IsSpace))
        case Some(e) => Some(e)
        case None => Some(b)
      else Some(b)
  }

  /** The leftmost time match: the first four-digit run. */
  function FirstTime(head: string): (r: Option<string>)
    ensures r.Some? ==> |r.value| >= 4
  {
    match FirstMatchFrom(head, 0, TimeAt)
    case None => None
    case Some(i) => Some(head[i..TimeAt(head, i).value])
  }

  /** The time text found starts where no earlier position holds four digits. */
  lemma FirstTimeLeftmost(head: string)
    ensures FirstTime(head).Some? <==> exists i: nat :: FourDigitsAt(head, i)
    ensures FirstTime(head).Some? ==> exists i: nat :: (FourDigitsAt(head, i)
      && (forall j: nat :: j < i ==> !FourDigitsAt(head, j))
      && FirstTime(head).value == head[i..TimeAt(head, i).value])
  {
    if FirstTime(head).None? {
      forall i ensures !FourDigitsAt(head, i) {
        assert TimeAt(head, i).None?;
      }
    } else {
      var i := FirstMatchFrom(head, 0, TimeAt).value;
      assert forall j :: j < i ==> TimeAt(head, j).None?;
    }
  }

  /** Year-month is tried first: `2020-2022` yields `2020-20`. */
  lemma TimeOfYearRange()
    ensures FirstTime("2020-2022") == Some("2020-20")
  {
    var s := "2020-2022";
    assert FourDigitsAt(s, 0);
    assert DateEnd(s, 0) == 7;
    assert SpanEnd(s, 7, IsSpace) == 7;
    assert TimeAt(s, 0) == Some(7);
    assert s[0..7] == "2020-20";
  }

  /** `至` directly before `今` is taken as a separator that is followed by no date: `2020至今` yields `2020`. */
  lemma TimeOfYearToNow()
    ensures FirstTime("2020至今") == Some("2020")
  {
    var s := "2020至今";
    assert FourDigitsAt(s, 0);
    assert DateEnd(s, 0) == 4;
    assert SpanEnd(s, 4, IsSpace) == 4;
    assert SpanEnd(s, 5, IsSpace) == 5;
    assert !FourDigitsAt(s, 5);
    assert TimeAt(s, 0) == Some(4);
    assert s[0..4] == "2020";
  }

  /** A full range with `至今`: `2019.07 - 至今` is taken whole. */
  lemma TimeOfMonthToNow()
    ensures FirstTime("2019.07 - 至今") == Some("2019.07 - 至今")
  {
    var s := "2019.07 - 至今";
    assert FourDigitsAt(s, 0);
    assert DateEnd(s, 0) == 7;
    assert SpanEnd(s, 8, IsSpace) == 8;
    assert SpanEnd(s, 7, IsSpace) == 8;
    assert SpanEnd(s, 10, IsSpace) == 10;
    assert SpanEnd(s, 9, IsSpace) == 10;
    assert RangeEndAt(s, 10) == Some(12);
    assert TimeAt(s, 0) == Some(12);
    assert s[0..12] == s;
  }
}
