/**
 * Leftmost and global matching for the hand-written regular-expression
 * matchers. A matcher `at(s, i)` says whether the expression matches `s`
 * starting at `i`, and where the match it prefers ends; JavaScript's
 * `exec`, `match` and `test` then try the start positions left to right.
 */
module Matching {
  import opened Wrappers

  /** Every match `at` reports in `s` is a non-empty slice of `s`. */
  ghost predicate NonEmptyMatches(s: string, at: (string, nat) -> Option<nat>) {
    forall i: nat :: at(s, i).Some? ==> i < at(s, i).value <= |s|
  }

  /** The leftmost start position at or after `from` where `at` matches. */
  function FirstMatchFrom(s: string, from: nat, at: (string, nat) -> Option<nat>): (r: Option<nat>)
    requires NonEmptyMatches(s, at)
    ensures r.Some? ==> from <= r.value < |s| && at(s, r.value).Some?
    ensures r.Some? ==> forall j :: from <= j < r.value ==> at(s, j).None?
    ensures r.None? ==> forall j :: from <= j ==> at(s, j).None?
    decreases |s| - from
  {
    if from >= |s| then None
    else if at(s, from).Some? then Some(from)
    else FirstMatchFrom(s, from + 1, at)
  }

  /** The text of the leftmost match (`s.match(re)[0]` without the `g` flag, or the first element with it). */
  function FirstMatch(s: string, at: (string, nat) -> Option<nat>): (r: Option<string>)
    requires NonEmptyMatches(s, at)
    ensures r.None? <==> forall j :: at(s, j).None?
    ensures r.Some? ==> exists i :: 0 <= i < |s| && at(s, i).Some? && (forall j :: 0 <= j < i ==> at(s, j).None?)
                                    && r.value == s[i..at(s, i).value]
  {
    match FirstMatchFrom(s, 0, at)
    case None => None
    case Some(i) => Some(s[i..at(s, i).value])
  }

  /** `re.test(s)` on a fresh expression: some start position matches. */
  predicate Test(s: string, at: (string, nat) -> Option<nat>)
    requires NonEmptyMatches(s, at)
  {
    FirstMatchFrom(s, 0, at).Some?
  }

  /** `test` is true exactly when some start position matches. */
  lemma TestIff(s: string, at: (string, nat) -> Option<nat>)
    requires NonEmptyMatches(s, at)
    ensures Test(s, at) <==> exists i: nat :: at(s, i).Some?
  {
    if Test(s, at) {
      var i := FirstMatchFrom(s, 0, at).value;
      assert at(s, i).Some?;
    }
  }

  /** The start positions of the matches `s.match(re)` collects with the `g` flag, scanning from `from`. */
  function MatchStartsFrom(s: string, from: nat, at: (string, nat) -> Option<nat>): (r: seq<nat>)
    requires NonEmptyMatches(s, at)
    ensures forall k :: 0 <= k < |r| ==> from <= r[k] < |s| && at(s, r[k]).Some?
    ensures forall k :: 0 <= k < |r| - 1 ==> at(s, r[k]).value <= r[k + 1]
    decreases |s| - from
  {
    match FirstMatchFrom(s, from, at)
    case None => []
    case Some(i) => [i] + MatchStartsFrom(s, at(s, i).value, at)
  }

  /** `s.match(re) ?? []` with the `g` flag: the non-overlapping matches, left to right. */
  function AllMatches(s: string, at: (string, nat) -> Option<nat>): (r: seq<string>)
    requires NonEmptyMatches(s, at)
    ensures |r| == |MatchStartsFrom(s, 0, at)|
    ensures forall k :: 0 <= k < |r| ==>
      var i := MatchStartsFrom(s, 0, at)[k]; r[k] == s[i..at(s, i).value]
  {
    var starts := MatchStartsFrom(s, 0, at);
    seq(|starts|, k requires 0 <= k < |starts| => s[starts[k]..at(s, starts[k]).value])
  }

  /** Global matching skips nothing: a start position between two reported matches lies inside the earlier one. */
  lemma {:induction false} MatchStartsComplete(s: string, from: nat, at: (string, nat) -> Option<nat>, j: nat)
    requires NonEmptyMatches(s, at)
    requires from <= j && at(s, j).Some?
    ensures exists k :: (0 <= k < |MatchStartsFrom(s, from, at)|
      && MatchStartsFrom(s, from, at)[k] <= j < at(s, MatchStartsFrom(s, from, at)[k]).value)
    decreases |s| - from
  {
    var r := MatchStartsFrom(s, from, at);
    var i := FirstMatchFrom(s, from, at).value;
    var m := at(s, i).value;
    assert r[0] == i;
    if j >= m {
      MatchStartsComplete(s, m, at, j);
      var rest := MatchStartsFrom(s, m, at);
      assert r == [i] + rest;
      var k :| 0 <= k < |rest| && rest[k] <= j < at(s, rest[k]).value;
      assert r[k + 1] == rest[k];
    }
  }

  /** The first global match is the leftmost match. */
  lemma AllMatchesFirst(s: string, at: (string, nat) -> Option<nat>)
    requires NonEmptyMatches(s, at)
    ensures AllMatches(s, at) == [] <==> FirstMatch(s, at).None?
    ensures AllMatches(s, at) != [] ==> FirstMatch(s, at) == Some(AllMatches(s, at)[0])
  {
  }
}
