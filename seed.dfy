/**
 * What the three seed tools (src/service/cli/fill.js, generate.js and
 * filldb.js) share: reading the count argument, picking a title, and building
 * an article's announce and full text from the shuffled sentence list.
 */
module Seed {
  import opened Wrappers
  import opened Text
  import opened Random

  /** DEFAULT_COUNT of all three tools. */
  const DEFAULT_COUNT := 1

  /**
   * `Number.parseInt(count, 10) || DEFAULT_COUNT`: a missing argument, one
   * that is not a number, or 0 gives one article; negative numbers pass through.
   */
  function CountArg(arg: Option<string>): (count: int)
    ensures count != 0
    ensures arg.None? ==> count == DEFAULT_COUNT
    ensures arg.Some? && ParseInt(arg.value) in {None, Some(0)} ==> count == DEFAULT_COUNT
    ensures arg.Some? && ParseInt(arg.value).Some? && ParseInt(arg.value).value != 0 ==> count == ParseInt(arg.value).value
  {
    match arg
    case None => DEFAULT_COUNT
    case Some(s) =>
      match ParseInt(s)
      case None => DEFAULT_COUNT
      case Some(n) => if n == 0 then DEFAULT_COUNT else n
  }

  /** Any non-zero count written in decimal is read back as itself. */
  lemma CountArgReadsNumber(n: int)
    requires n != 0
    ensures CountArg(Some(IntToString(n))) == n
  {
    ParseIntOfIntToString(n);
  }

  /**
   * `readFile(path)`: the file's text split into lines, or no lines at all when
   * it cannot be read (`None`). The lines hold no line feed and join back into
   * the text.
   */
  function ReadLines(content: Option<string>): (lines: seq<string>)
    ensures content.None? ==> lines == []
    ensures content.Some? ==> |lines| >= 1 && Join(lines, "\n") == content.value
    ensures forall k :: 0 <= k < |lines| ==> '\n' !in lines[k]
  {
    match content
    case None => []
    case Some(text) =>
      JoinSplit(text, '\n');
      SplitAvoids(text, '\n');
      Split(text, '\n')
  }

  /** `titles[getRandomInt(0, titles.length - 1)]` with draw `r`; `None` is `undefined` (no titles). */
  function PickTitle(titles: seq<string>, r: Draw): (title: Option<string>)
    ensures title.Some? <==> titles != []
    ensures title.Some? ==> title.value in titles
  {
    var k := RandomInt(0.0, (|titles| - 1) as real, r);
    if 0 <= k < |titles| then Some(titles[k]) else None
  }

  /** The sentences of an article, and the sentence list as the two shuffles leave it. */
  datatype Texts = Texts(announce: seq<string>, fullText: seq<string>, pool: seq<string>, next: nat)

  /**
   * `announce: shuffle(sentences).slice(1, 5)` then
   * `fullText: shuffle(sentences).slice(1, getRandomInt(6, sentences.length - 1))`,
   * from call `t`. Both shuffles work on the shared list in place. The announce
   * is at most four of the sentences; with seven sentences or more the full
   * text is between five and all but two of them, with fewer it is all but one.
   */
  function PostTexts(sentences: seq<string>, rng: Rng, t: nat): (x: Texts)
    ensures multiset(x.pool) == multiset(sentences)
    ensures x.next == t + 2 * ShuffleDraws(|sentences|) + 1
    ensures SentencesOf(Join(x.announce, " "), 4, multiset(sentences))
    ensures forall p :: p in x.fullText ==> p in multiset(sentences)
    ensures |sentences| >= 7 ==> 5 <= |x.fullText| <= |sentences| - 2
    ensures 1 <= |sentences| < 7 ==> |x.fullText| == |sentences| - 1
  {
    var first := Shuffled(sentences, rng, t);
    var t1 := t + ShuffleDraws(|sentences|);
    var second := Shuffled(first, rng, t1);
    var t2 := t1 + ShuffleDraws(|first|);
    var end := RandomInt(6.0, (|second| - 1) as real, rng(t2));
    ShuffledIsPermutation(sentences, rng, t);
    ShuffledIsPermutation(first, rng, t1);
    var announce := JsSlice(first, 1, 5);
    var fullText := JsSlice(second, 1, end);
    SliceOfPool(first, 1, 5, multiset(sentences));
    SliceOfPool(second, 1, end, multiset(sentences));
    JsSliceLength(first, 1, 5);
    JsSliceLength(second, 1, end);
    JoinedSentences(announce, 4, multiset(sentences));
    Texts(announce, fullText, second, t2 + 1)
  }

  /** A slice of a reordering of the pool holds sentences of the pool. */
  lemma SliceOfPool(s: seq<string>, start: int, end: int, pool: multiset<string>)
    requires multiset(s) == pool
    ensures forall p :: p in JsSlice(s, start, end) ==> p in pool
  {
    JsSliceWithin(s, start, end);
    forall p | p in JsSlice(s, start, end) ensures p in pool {
      assert p in multiset(s);
    }
  }

  /**
   * The two arrays a generator shuffles in place and shares between
   * articles: the sentences and the comment sentences.
   */
  datatype Pools = Pools(sentences: seq<string>, comments: seq<string>)

  /** Both pools hold the same sentences as `other`, in any order. */
  predicate SamePools(pools: Pools, other: Pools)
  {
    multiset(pools.sentences) == multiset(other.sentences) && multiset(pools.comments) == multiset(other.comments)
  }

  /** One more than the largest length `Array(n)` accepts: 2^32 − 1 is the last. */
  const ARRAY_LENGTH_BOUND := 0x1_0000_0000

  /** `Array(n)` with an integer `n` builds an array exactly when `n` is an array length; otherwise it throws a RangeError. */
  predicate ArrayLength(n: int)
  {
    0 <= n < ARRAY_LENGTH_BOUND
  }

  /**
   * How a tool's run ends: refused by its guard (nothing written), thrown by
   * `Array(count)` on a count that is not an array length, or done with what
   * it produced.
   */
  datatype Launch<T> = Refused | Crashes | Done(result: T)
}
