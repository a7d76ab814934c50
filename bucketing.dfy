/**
 * The one-pass bucketiser shared by the résumé parser
 * (src/services/resume.ts:166-181) and the job-post parser
 * (src/services/jobPost.ts:88-104): a "current bucket" is carried through
 * the lines; a header line switches it and is dropped, any other line is
 * appended, as it is, to the current bucket.
 */
module Bucketing {
  import opened Wrappers
  import Text

  /** A non-empty list is its front followed by its last line. */
  lemma SplitLast(xs: seq<string>)
    requires xs != []
    ensures xs[..|xs| - 1] + [xs[|xs| - 1]] == xs
  {
  }

  /** A record of line lists keyed by bucket name; a missing key reads as an empty list (`buckets[k] ?? []`). */
  function Get<S>(b: map<S, seq<string>>, k: S): seq<string> {
    if k in b then b[k] else []
  }

  /** The current bucket after reading `lines`: the bucket of the most recent header, or `start`. */
  function CurrentAfter<S>(lines: seq<string>, classify: string -> Option<S>, start: S): S {
    if lines == [] then start
    else
      match classify(lines[|lines| - 1])
      case Some(h) => h
      case None => CurrentAfter(lines[..|lines| - 1], classify, start)
  }

  /** The buckets after reading `lines`. A header creates its bucket, empty, if it is missing. */
  function BucketsOf<S>(lines: seq<string>, classify: string -> Option<S>, start: S): map<S, seq<string>> {
    if lines == [] then map[]
    else
      var init := lines[..|lines| - 1];
      var last := lines[|lines| - 1];
      var b := BucketsOf(init, classify, start);
      match classify(last)
      case Some(h) => b[h := Get(b, h)]
      case None =>
        var key := CurrentAfter(init, classify, start);
        b[key := Get(b, key) + [last]]
  }

  /** The bucket loop. */
  method BucketLines<S>(lines: seq<string>, classify: string -> Option<S>, start: S)
    returns (buckets: map<S, seq<string>>)
    ensures buckets == BucketsOf(lines, classify, start)
  {
    var current := start;
    buckets := map[];
    for i := 0 to |lines|
      invariant current == CurrentAfter(lines[..i], classify, start)
      invariant buckets == BucketsOf(lines[..i], classify, start)
    {
      assert lines[..i + 1][..i] == lines[..i];
      var header := classify(lines[i]);
      if header.Some? {
        current := header.value;
        buckets := buckets[current := Get(buckets, current)];
        continue;
      }
      buckets := buckets[current := Get(buckets, current) + [lines[i]]];
    }
    assert lines[..|lines|] == lines;
  }

  /** No header line is ever stored, and every stored line is an input line kept as it was. */
  lemma {:induction false} BucketsHoldNoHeaders<S>(lines: seq<string>, classify: string -> Option<S>, start: S, k: S)
    ensures forall j :: 0 <= j < |Get(BucketsOf(lines, classify, start), k)| ==>
      classify(Get(BucketsOf(lines, classify, start), k)[j]).None?
    ensures forall j :: 0 <= j < |Get(BucketsOf(lines, classify, start), k)| ==>
      Get(BucketsOf(lines, classify, start), k)[j] in lines
  {
    if lines != [] {
      var init := lines[..|lines| - 1];
      var last := lines[|lines| - 1];
      BucketsHoldNoHeaders(init, classify, start, k);
      assert lines == init + [last];
      var b := BucketsOf(init, classify, start);
      match classify(last)
      case Some(h) =>
        assert Get(BucketsOf(lines, classify, start), k) == Get(b, k);
      case None =>
        var key := CurrentAfter(init, classify, start);
        if k == key {
          assert Get(BucketsOf(lines, classify, start), k) == Get(b, k) + [last];
        } else {
          assert Get(BucketsOf(lines, classify, start), k) == Get(b, k);
        }
    }
  }

  /** Without headers, every line goes to the starting bucket, unmodified and in order. */
  lemma {:induction false} NoHeadersGoToStart<S>(lines: seq<string>, classify: string -> Option<S>, start: S)
    requires forall i :: 0 <= i < |lines| ==> classify(lines[i]).None?
    ensures CurrentAfter(lines, classify, start) == start
    ensures Get(BucketsOf(lines, classify, start), start) == lines
    ensures forall k :: k != start ==> Get(BucketsOf(lines, classify, start), k) == []
  {
    if lines != [] {
      var init := lines[..|lines| - 1];
      var last := lines[|lines| - 1];
      NoHeadersGoToStart(init, classify, start);
      assert init + [last] == lines;
      var b := BucketsOf(init, classify, start);
      assert classify(last).None?;
      assert BucketsOf(lines, classify, start) == b[start := Get(b, start) + [last]];
      forall k | k != start ensures Get(BucketsOf(lines, classify, start), k) == [] {
        assert Get(BucketsOf(lines, classify, start), k) == Get(b, k);
      }
    }
  }

  /** One more line that is not a header: it goes to the current bucket, and nothing else changes. */
  lemma StepLine<S>(init: seq<string>, last: string, classify: string -> Option<S>, start: S, k: S)
    requires classify(last).None?
    ensures CurrentAfter(init + [last], classify, start) == CurrentAfter(init, classify, start)
    ensures Get(BucketsOf(init + [last], classify, start), k)
         == if k == CurrentAfter(init, classify, start) then Get(BucketsOf(init, classify, start), k) + [last]
            else Get(BucketsOf(init, classify, start), k)
  {
    assert (init + [last])[..|init|] == init;
  }

  /** One more header line: it becomes the current bucket, and no stored line changes. */
  lemma StepHeader<S>(init: seq<string>, h: string, classify: string -> Option<S>, start: S, k: S)
    requires classify(h).Some?
    ensures CurrentAfter(init + [h], classify, start) == classify(h).value
    ensures Get(BucketsOf(init + [h], classify, start), k) == Get(BucketsOf(init, classify, start), k)
  {
    assert (init + [h])[..|init|] == init;
  }

  /**
   * The lines after a header, up to the next one, are appended unmodified and
   * in order to that header's bucket; no other bucket changes.
   */
  lemma {:induction false} LinesFollowHeader<S>(pre: seq<string>, h: string, body: seq<string>,
                                                 classify: string -> Option<S>, start: S)
    requires classify(h).Some?
    requires forall i :: 0 <= i < |body| ==> classify(body[i]).None?
    ensures CurrentAfter(pre + [h] + body, classify, start) == classify(h).value
    ensures Get(BucketsOf(pre + [h] + body, classify, start), classify(h).value)
         == Get(BucketsOf(pre, classify, start), classify(h).value) + body
    ensures forall k :: k != classify(h).value ==>
      Get(BucketsOf(pre + [h] + body, classify, start), k) == Get(BucketsOf(pre, classify, start), k)
    decreases |body|
  {
    var key := classify(h).value;
    if body == [] {
      assert pre + [h] + body == pre + [h];
      StepHeader(pre, h, classify, start, key);
      forall k | k != key
        ensures Get(BucketsOf(pre + [h] + body, classify, start), k) == Get(BucketsOf(pre, classify, start), k)
      {
        StepHeader(pre, h, classify, start, k);
      }
    } else {
      var init := body[..|body| - 1];
      var last := body[|body| - 1];
      var mid := pre + [h] + init;
      LinesFollowHeader(pre, h, init, classify, start);
      SplitLast(body);
      Text.ConcatAssoc(pre + [h], init, [last]);
      assert classify(last).None?;
      StepLine(mid, last, classify, start, key);
      Text.ConcatAssoc(Get(BucketsOf(pre, classify, start), key), init, [last]);
      forall k | k != key
        ensures Get(BucketsOf(pre + [h] + body, classify, start), k) == Get(BucketsOf(pre, classify, start), k)
      {
        StepLine(mid, last, classify, start, k);
      }
    }
  }
}
