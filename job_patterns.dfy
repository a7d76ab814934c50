/**
 * The two whole-text patterns of the job-post parser
 * (src/services/jobPost.ts:15-16, 68-72): the salary range and the city.
 *
 * Each alternative of the salary pattern is a sequence of items: a run of
 * one to `max` digits, a run of white space, or one character from a set.
 * In every alternative a repeated item is followed by an item that cannot
 * match the characters it repeats over (a digit run by white space or a
 * sign, a white-space run by a sign, a digit or a `k`), so taking each run
 * greedily is the only way an alternative can match, and the matcher below
 * does no backtracking.
 */
module JobPatterns {
  import opened Wrappers
  import opened Text
  import opened Matching

  /** One item of a salary alternative. */
  datatype Item = Digits(max: nat) | Spaces | OneOf(chars: seq<char>)

  /** The end of the run of at most `max` digits at `i`. */
  function DigitRun(s: string, i: nat, max: nat): (r: nat)
    requires i <= |s|
    ensures i <= r <= |s| && r <= i + max
    ensures forall k :: i <= k < r ==> IsDigit(s[k])
    ensures r == i + max || r == |s| || !IsDigit(s[r])
    decreases max
  {
    if max == 0 || i == |s| || !IsDigit(s[i]) then i else DigitRun(s, i + 1, max - 1)
  }

  /** Where one item matched at `i` ends. */
  function ItemEnd(s: string, i: nat, it: Item): (r: Option<nat>)
    requires i <= |s|
    ensures r.Some? ==> i <= r.value <= |s|
    ensures r.Some? && it.Digits? ==> i < r.value
  {
    match it
    case Digits(max) => var e := DigitRun(s, i, max); if e > i then Some(e) else None
    case Spaces => Some(SpanEnd(s, i, IsSpace))
    case OneOf(cs) => if i < |s| && s[i] in cs then Some(i + 1) else None
  }

  /** Where a sequence of items matched at `i` ends. */
  function ItemsEnd(s: string, i: nat, items: seq<Item>): (r: Option<nat>)
    requires i <= |s|
    ensures r.Some? ==> i <= r.value <= |s|
    ensures r.Some? && items != [] && items[0].Digits? ==> i < r.value
    decreases |items|
  {
    if items == [] then Some(i)
    else
      match ItemEnd(s, i, items[0])
      case None => None
      case Some(j) => ItemsEnd(s, j, items[1..])
  }

  const RangeSign: seq<char> := ['-', '~', '—']
  const KChars: seq<char> := ['k', 'K']

  /** `\d{1,2}\s*[-~—]\s*\d{1,2}\s*[kK]`, as in `30-50K`. */
  const RangeThenK: seq<Item> :=
    [Digits(2), Spaces, OneOf(RangeSign), Spaces, Digits(2), Spaces, OneOf(KChars)]

  /** `\d{1,2}\s*[kK]\s*[-~—]\s*\d{1,2}\s*[kK]`, as in `30k-50k`. */
  const KRangeK: seq<Item> :=
    [Digits(2), Spaces, OneOf(KChars), Spaces, OneOf(RangeSign), Spaces, Digits(2), Spaces, OneOf(KChars)]

  /** `\d{1,3}\s*万\s*[-~—]\s*\d{1,3}\s*万`, as in `50万-80万`. */
  const WanRange: seq<Item> :=
    [Digits(3), Spaces, OneOf(['万']), Spaces, OneOf(RangeSign), Spaces, Digits(3), Spaces, OneOf(['万'])]

  /** `SALARY_RE` at `i`: the first of the three alternatives that matches. */
  function SalaryAt(s: string, i: nat): (r: Option<nat>)
    ensures r.Some? ==> i < r.value <= |s|
  {
    if i > |s| then None
    else
      match ItemsEnd(s, i, RangeThenK)
      case Some(e) => Some(e)
      case None =>
        match ItemsEnd(s, i, KRangeK)
        case Some(e) => Some(e)
        case None => ItemsEnd(s, i, WanRange)
  }

  lemma SalaryMatchesNonEmpty(s: string)
    ensures NonEmptyMatches(s, SalaryAt)
  {
  }

  /** `raw.match(SALARY_RE)?.[0]` with all white space removed. */
  function FirstSalary(raw: string): (r: Option<string>)
    ensures r.Some? <==> exists i: nat :: SalaryAt(raw, i).Some?
    ensures r.Some? ==> r.value != [] && forall k :: 0 <= k < |r.value| ==> !IsSpace(r.value[k])
    ensures r.Some? ==> exists i: nat :: SalaryAt(raw, i).Some? && (forall j: nat :: j < i ==> SalaryAt(raw, j).None?)
                                      && r.value == Filter(raw[i..SalaryAt(raw, i).value], NotSpace)
  {
    SalaryMatchesNonEmpty(raw);
    match FirstMatch(raw, SalaryAt)
    case None => None
    case Some(m) =>
      var i := FirstMatchFrom(raw, 0, SalaryAt).value;
      assert m == raw[i..SalaryAt(raw, i).value];
      assert m[0] == raw[i] && IsDigit(raw[i]) by {
        DigitsFirst(raw, i);
      }
      FilterKeepsFirst(m, NotSpace);
      Some(Filter(m, NotSpace))
  }

  /** Every salary alternative starts with a digit. */
  lemma DigitsFirst(s: string, i: nat)
    requires SalaryAt(s, i).Some?
    ensures i < |s| && IsDigit(s[i])
  {
  }

  /** Filtering keeps a first element that passes. */
  lemma FilterKeepsFirst(xs: string, p: char -> bool)
    requires xs != [] && p(xs[0])
    ensures Filter(xs, p) != []
  {
    FilterMembers(xs, p, xs[0]);
  }

  /** The first salary alternative on `30-50K·16薪`, read from its last item back to its first. */
  lemma RangeAtStart()
    ensures SalaryAt("30-50K·16薪", 0) == Some(6)
  {
    var s := "30-50K·16薪";
    var t6: seq<Item> := [OneOf(KChars)];
    var t5: seq<Item> := [Spaces] + t6;
    var t4: seq<Item> := [Digits(2)] + t5;
    var t3: seq<Item> := [Spaces] + t4;
    var t2: seq<Item> := [OneOf(RangeSign)] + t3;
    var t1: seq<Item> := [Spaces] + t2;
    assert RangeThenK == [Digits(2)] + t1;
    ExampleItemEnds();
    ItemsStep(s, 5, OneOf(KChars), [], 6, 6);
    ItemsStep(s, 5, Spaces, t6, 5, 6);
    ItemsStep(s, 3, Digits(2), t5, 5, 6);
    ItemsStep(s, 3, Spaces, t4, 3, 6);
    ItemsStep(s, 2, OneOf(RangeSign), t3, 3, 6);
    ItemsStep(s, 2, Spaces, t2, 2, 6);
    ItemsStep(s, 0, Digits(2), t1, 2, 6);
  }

  /** Each item of the first alternative on `30-50K·16薪`. */
  lemma ExampleItemEnds()
    ensures ItemEnd("30-50K·16薪", 0, Digits(2)) == Some(2)
    ensures ItemEnd("30-50K·16薪", 2, Spaces) == Some(2)
    ensures ItemEnd("30-50K·16薪", 2, OneOf(RangeSign)) == Some(3)
    ensures ItemEnd("30-50K·16薪", 3, Spaces) == Some(3)
    ensures ItemEnd("30-50K·16薪", 3, Digits(2)) == Some(5)
    ensures ItemEnd("30-50K·16薪", 5, Spaces) == Some(5)
    ensures ItemEnd("30-50K·16薪", 5, OneOf(KChars)) == Some(6)
  {
    var s := "30-50K·16薪";
    assert DigitRun(s, 0, 2) == 2;
    assert DigitRun(s, 3, 2) == 5;
  }

  /** Matching a first item and then the rest. */
  lemma ItemsStep(s: string, i: nat, it: Item, rest: seq<Item>, j: nat, e: nat)
    requires i <= j <= |s|
    requires ItemEnd(s, i, it) == Some(j) && ItemsEnd(s, j, rest) == Some(e)
    ensures ItemsEnd(s, i, [it] + rest) == Some(e)
  {
    assert ([it] + rest)[1..] == rest;
  }

  /** Only the range is taken: the thirteenth-month suffix `·16薪` is not part of the salary. */
  lemma SalaryIsRangeOnly()
    ensures FirstSalary("30-50K·16薪") == Some("30-50K")
  {
    var s := "30-50K·16薪";
    RangeAtStart();
    SalaryMatchesNonEmpty(s);
    assert FirstMatchFrom(s, 0, SalaryAt) == Some(0);
    var m := s[0..6];
    assert m == "30-50K";
    FilterKeepsAll(m, NotSpace);
  }

  // ------------------------------------------------------------------- city

  /** `CITY_RE`'s twelve city names, in the order of the alternation. */
  const Cities: seq<string> := ["上海", "北京", "深圳", "广州", "杭州", "苏州", "武汉", "成都", "南京", "西安", "重庆", "天津"]

  /** A city name starts at `i`. */
  predicate CityNameAt(s: string, i: nat) {
    i + 2 <= |s| && s[i..i + 2] in Cities
  }

  /** `CITY_RE` at `i`. */
  function CityAt(s: string, i: nat): (r: Option<nat>)
    ensures r.Some? <==> CityNameAt(s, i)
    ensures r.Some? ==> r.value == i + 2
  {
    if CityNameAt(s, i) then Some(i + 2) else None
  }

  lemma CityMatchesNonEmpty(s: string)
    ensures NonEmptyMatches(s, CityAt)
  {
  }

  /** `location`: the leftmost of the twelve city names in the text. */
  function FirstCity(raw: string): (r: Option<string>)
    ensures r.None? <==> forall i: nat :: !CityNameAt(raw, i)
    ensures r.Some? ==> r.value in Cities && exists i: nat :: (CityNameAt(raw, i) && raw[i..i + 2] == r.value
      && forall j: nat :: j < i ==> !CityNameAt(raw, j))
  {
    CityMatchesNonEmpty(raw);
    match FirstMatchFrom(raw, 0, CityAt)
    case None =>
      assert forall i: nat :: !CityNameAt(raw, i) by {
        forall i: nat ensures !CityNameAt(raw, i) {
          assert CityAt(raw, i).None?;
        }
      }
      None
    case Some(i) =>
      assert forall j: nat :: j < i ==> !CityNameAt(raw, j) by {
        forall j: nat | j < i ensures !CityNameAt(raw, j) {
          assert CityAt(raw, j).None?;
        }
      }
      Some(raw[i..i + 2])
  }
}
