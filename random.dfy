/**
 * The randomised helpers of src/utils.js. `Math.random()` is not modelled: every
 * function takes the sequence of values it would have returned, `rng`, and the
 * number `t` of the next call, so the draws are consumed in the order in which
 * the JavaScript evaluates them.
 */
module Random {
  import opened Text

  /** One result of `Math.random()`. */
  type Draw = r: real | 0.0 <= r < 1.0

  /** The results of successive `Math.random()` calls: call number `t` returns `rng(t)`. */
  type Rng = nat -> Draw

  /** `Math.ceil` (`Math.floor` is Dafny's `.Floor`). */
  function Ceil(x: real): int
  {
    -((-x).Floor)
  }

  /** A draw scaled by a natural width `k` lies in `[0, k)`, or is 0 for width 0. */
  lemma {:induction false} ScaledBelow(r: Draw, k: nat)
    ensures 0.0 <= r * k as real
    ensures k >= 1 ==> r * k as real < k as real
  {
    if k >= 1 {
      ScaledBelow(r, k - 1);
      assert r * k as real == r * (k - 1) as real + r;
    }
  }

  /** `Math.floor(r * k)` lies in `[0, k)` for a positive width and in `[k, 0]` otherwise. */
  lemma FloorOfProduct(r: Draw, k: int)
    ensures k >= 1 ==> 0 <= (r * k as real).Floor < k
    ensures k <= 0 ==> k <= (r * k as real).Floor <= 0
  {
    if k >= 1 {
      ScaledBelow(r, k);
    } else {
      ScaledBelow(r, -k);
      assert r * k as real == -(r * (-k) as real);
    }
  }

  /**
   * `getRandomInt(min, max)` with `Math.random()` returning `r`: an integer of
   * `[ceil(min), floor(max)]` when that range is not empty. When it is, the
   * formula still yields a number, between `floor(max) + 1` and `ceil(min)`.
   */
  function RandomInt(min: real, max: real, r: Draw): (n: int)
    ensures Ceil(min) <= max.Floor ==> Ceil(min) <= n <= max.Floor
    ensures max.Floor < Ceil(min) ==> max.Floor + 1 <= n <= Ceil(min)
  {
    var lo := Ceil(min);
    var hi := max.Floor;
    FloorOfProduct(r, hi - lo + 1);
    (r * (hi - lo + 1) as real).Floor + lo
  }

  // ---------------------------------------------------------------------------
  // shuffle

  /** `[a[i], a[j]] = [a[j], a[i]]` on a value. */
  function Swap<T>(s: seq<T>, i: nat, j: nat): (s': seq<T>)
    requires i < |s| && j < |s|
    ensures |s'| == |s|
  {
    s[i := s[j]][j := s[i]]
  }

  /** A swap exchanges two elements, leaves the others and keeps the multiset. */
  lemma SwapExchanges<T>(s: seq<T>, i: nat, j: nat)
    requires i < |s| && j < |s|
    ensures Swap(s, i, j)[i] == s[j] && Swap(s, i, j)[j] == s[i]
    ensures forall k :: 0 <= k < |s| && k != i && k != j ==> Swap(s, i, j)[k] == s[k]
    ensures multiset(Swap(s, i, j)) == multiset(s)
  {
  }

  /** `Math.floor(Math.random() * i)`: the swap partner of position `i`, always below `i`. */
  function Partner(i: nat, r: Draw): (j: nat)
    requires i >= 1
    ensures j < i
  {
    FloorOfProduct(r, i);
    (r * i as real).Floor
  }

  /**
   * The loop of `shuffle` from position `i` down to position 1; the step at
   * position `i` uses call `t`, the next one call `t + 1`, and so on.
   */
  function SattoloSteps<T>(s: seq<T>, i: int, rng: Rng, t: nat): (r: seq<T>)
    requires i < |s|
    ensures |r| == |s|
    decreases i
  {
    if i <= 0 then s else SattoloSteps(Swap(s, i, Partner(i, rng(t))), i - 1, rng, t + 1)
  }

  /** What `shuffle(s)` leaves in the array when its first draw is call `t`. */
  function Shuffled<T>(s: seq<T>, rng: Rng, t: nat): (r: seq<T>)
    ensures |r| == |s|
  {
    SattoloSteps(s, |s| - 1, rng, t)
  }

  /** How many times `shuffle` calls `Math.random()` on an array of length `n`. */
  function ShuffleDraws(n: nat): nat
  {
    if n == 0 then 0 else n - 1
  }

  lemma {:induction false} SattoloStepsPermutes<T>(s: seq<T>, i: int, rng: Rng, t: nat)
    requires i < |s|
    ensures |SattoloSteps(s, i, rng, t)| == |s|
    ensures multiset(SattoloSteps(s, i, rng, t)) == multiset(s)
    decreases i
  {
    if i > 0 {
      SattoloStepsPermutes(Swap(s, i, Partner(i, rng(t))), i - 1, rng, t + 1);
    }
  }

  /** `shuffle` returns a permutation of its input: same length, same multiset of elements. */
  lemma ShuffledIsPermutation<T>(s: seq<T>, rng: Rng, t: nat)
    ensures |Shuffled(s, rng, t)| == |s|
    ensures multiset(Shuffled(s, rng, t)) == multiset(s)
  {
    SattoloStepsPermutes(s, |s| - 1, rng, t);
  }

  /** The positions `0 .. n-1`, to follow where each original element goes. */
  function Iota(n: nat): (p: seq<nat>)
    ensures |p| == n && forall k :: 0 <= k < n ==> p[k] == k
  {
    seq(n, k => k)
  }

  /** The elements of `base` at positions `p`. */
  function Pick<T>(base: seq<T>, p: seq<nat>): (r: seq<T>)
    requires forall k :: 0 <= k < |p| ==> p[k] < |base|
    ensures |r| == |p| && forall k :: 0 <= k < |p| ==> r[k] == base[p[k]]
  {
    seq(|p|, k requires 0 <= k < |p| => base[p[k]])
  }

  /** Shuffling commutes with reading positions: the shuffle only moves positions around. */
  lemma {:induction false} SattoloStepsPick<T>(base: seq<T>, p: seq<nat>, i: int, rng: Rng, t: nat)
    requires i < |p|
    requires forall k :: 0 <= k < |p| ==> p[k] < |base|
    ensures var q := SattoloSteps<nat>(p, i, rng, t);
      && (forall k :: 0 <= k < |q| ==> q[k] < |base|)
      && SattoloSteps(Pick(base, p), i, rng, t) == Pick(base, q)
    decreases i
  {
    if i > 0 {
      var j := Partner(i, rng(t));
      var p' := Swap(p, i, j);
      assert Swap(Pick(base, p), i, j) == Pick(base, p');
      SattoloStepsPick(base, p', i - 1, rng, t + 1);
    }
  }

  /**
   * The invariant of Sattolo's loop, on positions: every position above `i` is
   * settled and holds an element from elsewhere, every position up to `i` holds
   * its own element or one that came from above `i`.
   */
  lemma {:induction false} SattoloStepsMoveAll(p: seq<nat>, i: int, rng: Rng, t: nat)
    requires 0 <= i < |p|
    requires forall q :: 0 <= q <= i ==> p[q] == q || p[q] > i
    requires forall q :: i < q < |p| ==> p[q] != q
    requires i == 0 ==> p[0] != 0
    ensures forall q :: 0 <= q < |p| ==> SattoloSteps(p, i, rng, t)[q] != q
    decreases i
  {
    if i > 0 {
      var j := Partner(i, rng(t));
      var p' := Swap(p, i, j);
      assert forall q :: 0 <= q <= i - 1 ==> p'[q] == q || p'[q] > i - 1 by {
        forall q | 0 <= q <= i - 1 ensures p'[q] == q || p'[q] > i - 1 {
          if q == j { assert p'[q] == p[i]; }
        }
      }
      SattoloStepsMoveAll(p', i - 1, rng, t + 1);
    }
  }

  /**
   * Sattolo's variant: on an array of two or more elements, `shuffle` moves
   * every element. `pi[k]` is the original position of the element that ends at
   * `k`; `pi` is a permutation of the positions without a fixed point.
   */
  lemma ShuffleMovesEveryElement<T>(s: seq<T>, rng: Rng, t: nat)
    requires |s| >= 2
    ensures var pi := Shuffled<nat>(Iota(|s|), rng, t);
      && |pi| == |s|
      && multiset(pi) == multiset(Iota(|s|))
      && (forall k :: 0 <= k < |s| ==> pi[k] < |s| && pi[k] != k && Shuffled(s, rng, t)[k] == s[pi[k]])
  {
    var n := |s|;
    var id := Iota(n);
    ShuffledIsPermutation<nat>(id, rng, t);
    SattoloStepsMoveAll(id, n - 1, rng, t);
    SattoloStepsPick(s, id, n - 1, rng, t);
    assert Pick(s, id) == s;
  }

  /**
   * `shuffle(someArray)`: Sattolo's in-place loop. It returns the array it was
   * given, now holding `Shuffled` of its old contents.
   */
  method Shuffle<T>(a: array<T>, rng: Rng, t: nat) returns (same: array<T>)
    modifies a
    ensures same == a
    ensures a[..] == Shuffled(old(a[..]), rng, t)
  {
    var i := a.Length - 1;
    var u := t;
    while i > 0
      invariant -1 <= i < a.Length
      invariant SattoloSteps(a[..], i, rng, u) == Shuffled(old(a[..]), rng, t)
    {
      var j := Partner(i, rng(u));
      ghost var before := a[..];
      a[i], a[j] := a[j], a[i];
      assert a[..] == Swap(before, i, j);
      i := i - 1;
      u := u + 1;
    }
    same := a;
  }

  // ---------------------------------------------------------------------------
  // slices

  /** How `Array.prototype.slice` reads one of its bounds on an array of length `n`. */
  function SliceIndex(n: nat, x: int): (k: nat)
    ensures k <= n
  {
    if x < 0 then (if n + x < 0 then 0 else n + x) else if x < n then x else n
  }

  /** `s.slice(start, end)`. */
  function JsSlice<T>(s: seq<T>, start: int, end: int): (r: seq<T>)
    ensures |r| <= |s|
    ensures 0 <= start <= end <= |s| ==> r == s[start..end]
  {
    var lo := SliceIndex(|s|, start);
    var hi := SliceIndex(|s|, end);
    if lo < hi then s[lo..hi] else []
  }

  /** A slice holds elements of the array it was taken from. */
  lemma JsSliceWithin<T>(s: seq<T>, start: int, end: int)
    ensures forall x :: x in JsSlice(s, start, end) ==> x in s
  {
    var lo := SliceIndex(|s|, start);
    var hi := SliceIndex(|s|, end);
    if lo < hi {
      forall x | x in JsSlice(s, start, end) ensures x in s {
        var k :| 0 <= k < hi - lo && s[lo..hi][k] == x;
        assert s[lo + k] == x;
      }
    }
  }

  /** How many elements `s.slice(start, end)` has. */
  lemma JsSliceLength<T>(s: seq<T>, start: int, end: int)
    ensures var lo := SliceIndex(|s|, start); var hi := SliceIndex(|s|, end);
      |JsSlice(s, start, end)| == if lo < hi then hi - lo else 0
  {
  }

  lemma HalfBounds(n: int)
    requires n >= 1
    ensures var h := (n - 1) as real / 2.0;
      0 <= h.Floor && h.Floor <= Ceil(h) && Ceil(h) <= n - 1
  {
  }

  /** `part` is the run of `arr` that starts at `lo`, and it stops before the last element. */
  ghost predicate RunBeforeLast<T>(part: seq<T>, arr: seq<T>, lo: int)
  {
    0 <= lo && lo + |part| < |arr| && part == arr[lo..lo + |part|]
  }

  /**
   * `arr.slice(getRandomInt(0, (arr.length - 1) / 2), getRandomInt((arr.length - 1) / 2, arr.length - 1))`
   * with calls `t` and `t + 1`: a run of neighbouring elements that never
   * reaches the last element.
   */
  function RandomRun<T>(arr: seq<T>, rng: Rng, t: nat): (run: seq<T>)
    ensures |arr| == 0 ==> run == []
    ensures |arr| > 0 ==> exists lo :: RunBeforeLast(run, arr, lo)
    ensures forall x :: x in run ==> x in arr
  {
    var n := |arr|;
    var start := RandomInt(0.0, (n - 1) as real / 2.0, rng(t));
    var end := RandomInt((n - 1) as real / 2.0, (n - 1) as real, rng(t + 1));
    var run := JsSlice(arr, start, end);
    JsSliceWithin(arr, start, end);
    if n > 0 then
      HalfBounds(n);
      assert RunBeforeLast(run, arr, start);
      run
    else
      run
  }

  /**
   * `getRandomArrayPart(arr)`, using calls `t` and `t + 1`: a run of at most
   * three neighbouring elements that never reaches the last element.
   */
  function ArrayPart<T>(arr: seq<T>, rng: Rng, t: nat): (part: seq<T>)
    ensures |part| <= 3
    ensures |arr| == 0 ==> part == []
    ensures |arr| > 0 ==> exists lo :: RunBeforeLast(part, arr, lo)
    ensures forall x :: x in part ==> x in arr
  {
    var run := RandomRun(arr, rng, t);
    var part := JsSlice(run, 0, 3);
    JsSliceWithin(run, 0, 3);
    if |arr| > 0 then
      assert part == run[..|part|];
      PrefixOfRun(run, arr, |part|);
      part
    else
      part
  }

  /** A prefix of a run before the last element is one too. */
  lemma PrefixOfRun<T>(run: seq<T>, arr: seq<T>, k: nat)
    requires exists lo :: RunBeforeLast(run, arr, lo)
    requires k <= |run|
    ensures exists lo :: RunBeforeLast(run[..k], arr, lo)
  {
    var lo :| RunBeforeLast(run, arr, lo);
    assert run[..k] == arr[lo..lo + k];
    assert RunBeforeLast(run[..k], arr, lo);
  }

  /** A run of an array holds elements of that array. */
  lemma RunWithin<T>(part: seq<T>, arr: seq<T>, lo: int)
    requires RunBeforeLast(part, arr, lo)
    ensures forall x :: x in part ==> x in arr
  {
    forall x | x in part ensures x in arr {
      var k :| 0 <= k < |part| && part[k] == x;
      assert arr[lo + k] == x;
    }
  }

  // ---------------------------------------------------------------------------
  // getRandomSubarray

  /** `s.splice(k, 1)`: the removed elements (at most one) and what remains. */
  datatype Spliced<T> = Spliced(removed: seq<T>, rest: seq<T>)

  function SpliceOne<T>(s: seq<T>, k: int): (sp: Spliced<T>)
    ensures 0 <= k < |s| ==> sp.removed == [s[k]] && sp.rest == s[..k] + s[k + 1..]
    ensures |s| <= k ==> sp == Spliced([], s)
  {
    var start := if k < 0 then (if |s| + k < 0 then 0 else |s| + k) else k;
    if start < |s| then Spliced([s[start]], s[..start] + s[start + 1..]) else Spliced([], s)
  }

  /** Splicing neither loses nor duplicates an element and removes at most one. */
  lemma SplicePermutes<T>(s: seq<T>, k: int)
    ensures |SpliceOne(s, k).removed| <= 1
    ensures |SpliceOne(s, k).removed| + |SpliceOne(s, k).rest| == |s|
    ensures multiset(SpliceOne(s, k).removed) + multiset(SpliceOne(s, k).rest) == multiset(s)
  {
    var start := if k < 0 then (if |s| + k < 0 then 0 else |s| + k) else k;
    if start < |s| {
      assert s == s[..start] + [s[start]] + s[start + 1..];
    }
  }

  /** `getRandomInt(0, tempItems.length - 1)` with call `r`: a position of a non-empty array. */
  function PickIndex(n: nat, r: Draw): (k: int)
    ensures n >= 1 ==> 0 <= k < n
    ensures n == 0 ==> k == 0
  {
    RandomInt(0.0, (n - 1) as real, r)
  }

  /** The outcome of the `while (count--)` loop: elements picked, elements left, next call number. */
  datatype Run<T> = Run(picked: seq<T>, left: seq<T>, next: nat)

  /**
   * The loop of `getRandomSubarray` run `count` more times from the state it
   * has reached: `picked` so far, `temp` left, next call `t`. It neither loses
   * nor duplicates an element (picked and left make up what they made up
   * before), removes `min(count, |temp|)` more elements, and makes exactly one
   * `Math.random()` call per round, even once the array is empty.
   */
  function Picks<T>(picked: seq<T>, temp: seq<T>, count: nat, rng: Rng, t: nat): (r: Run<T>)
    decreases count
  {
    if count == 0 then Run(picked, temp, t)
    else
      var spliced := SpliceOne(temp, PickIndex(|temp|, rng(t)));
      Picks(picked + spliced.removed, spliced.rest, count - 1, rng, t + 1)
  }

  /** One round of the loop: splice at the drawn position, then run the remaining rounds. */
  lemma PicksStep<T>(picked: seq<T>, temp: seq<T>, count: nat, rng: Rng, t: nat)
    requires count > 0
    ensures var spliced := SpliceOne(temp, PickIndex(|temp|, rng(t)));
      Picks(picked, temp, count, rng, t) == Picks(picked + spliced.removed, spliced.rest, count - 1, rng, t + 1)
  {
  }

  /**
   * The loop neither loses nor duplicates an element (picked and left make up
   * what they made up before), removes `min(count, |temp|)` more elements, and
   * makes exactly one `Math.random()` call per round, even once the array is
   * empty.
   */
  lemma {:induction false} PicksKeep<T>(picked: seq<T>, temp: seq<T>, count: nat, rng: Rng, t: nat, r: Run<T>)
    requires r == Picks(picked, temp, count, rng, t)
    ensures multiset(r.picked) + multiset(r.left) == multiset(picked) + multiset(temp)
    ensures |r.picked| == |picked| + (if count <= |temp| then count else |temp|)
    ensures r.next == t + count
    decreases count
  {
    if count > 0 {
      var k := PickIndex(|temp|, rng(t));
      var spliced := SpliceOne(temp, k);
      RoundKeeps(picked, temp, k);
      PicksStep(picked, temp, count, rng, t);
      PicksKeep(picked + spliced.removed, spliced.rest, count - 1, rng, t + 1, r);
    }
  }

  /** One round moves the element at a drawn position, if there is one, from what is left to what is picked. */
  lemma RoundKeeps<T>(picked: seq<T>, temp: seq<T>, k: int)
    requires |temp| >= 1 ==> 0 <= k < |temp|
    ensures var sp := SpliceOne(temp, k);
      && multiset(picked + sp.removed) + multiset(sp.rest) == multiset(picked) + multiset(temp)
      && |picked + sp.removed| == |picked| + (if |temp| == 0 then 0 else 1)
      && |sp.rest| == |temp| - (if |temp| == 0 then 0 else 1)
  {
    var sp := SpliceOne(temp, k);
    SplicePermutes(temp, k);
    assert multiset(picked + sp.removed) + multiset(sp.rest)
        == multiset(picked) + (multiset(sp.removed) + multiset(sp.rest));
  }

  /** How many elements `getRandomSubarray` takes from `n`: `getRandomInt(1, n - 1)` with call `r`. */
  function SubarrayCount(n: nat, r: Draw): (count: nat)
    ensures n >= 2 ==> 1 <= count <= n - 1
    ensures n <= 1 ==> count <= 1
  {
    RandomInt(1.0, (n - 1) as real, r)
  }

  /** `getRandomSubarray(items)` with its first draw at call `t`. */
  function RandomSubarray<T>(items: seq<T>, rng: Rng, t: nat): Run<T>
  {
    Picks([], items, SubarrayCount(|items|, rng(t)), rng, t + 1)
  }

  /**
   * The picks come from distinct positions of the input (together with what is
   * left they make up the input exactly), and on two or more items between one
   * and all but one of them are taken.
   */
  lemma RandomSubarrayPicksDistinct<T>(items: seq<T>, rng: Rng, t: nat)
    ensures var run := RandomSubarray(items, rng, t);
      && multiset(run.picked) + multiset(run.left) == multiset(items)
      && multiset(run.picked) <= multiset(items)
      && (|items| >= 2 ==> 1 <= |run.picked| <= |items| - 1)
      && (|items| <= 1 ==> run.picked == items)
  {
    var count := SubarrayCount(|items|, rng(t));
    PicksKeep([], items, count, rng, t + 1, RandomSubarray(items, rng, t));
    var run := RandomSubarray(items, rng, t);
    if |items| == 1 {
      assert count == 1;
      assert multiset(run.picked) + multiset(run.left) == multiset(items);
      assert |run.picked| == 1 && |run.left| == 0;
      assert run.picked == [run.picked[0]];
      assert run.picked[0] in multiset(items);
      assert items == [items[0]];
    }
  }

  /**
   * `getRandomSubarray(items)`: works on a copy (`items` is a value here, so the
   * caller's array cannot change) and splices one element out of it per round.
   */
  method GetRandomSubarray<T>(items: seq<T>, rng: Rng, t: nat) returns (result: seq<T>, next: nat)
    ensures result == RandomSubarray(items, rng, t).picked
    ensures next == RandomSubarray(items, rng, t).next
  {
    var tempItems := items;
    var count := SubarrayCount(|tempItems|, rng(t));
    next := t + 1;
    result := [];
    ghost var goal := RandomSubarray(items, rng, t);
    while count != 0
      invariant Picks(result, tempItems, count, rng, next) == goal
    {
      var spliced := SpliceOne(tempItems, PickIndex(|tempItems|, rng(next)));
      PicksStep(result, tempItems, count, rng, next);
      assert Picks(result + spliced.removed, spliced.rest, count - 1, rng, next + 1) == goal;
      count := count - 1;
      result := result + spliced.removed;
      tempItems := spliced.rest;
      next := next + 1;
    }
  }

  // ---------------------------------------------------------------------------
  // generateComments

  /** A comment produced by `generateComments`: an object with a single `text` field. */
  datatype CommentText = CommentText(text: string)

  /** What a generator leaves behind: its output, the shuffled pool, the next call number. */
  datatype Generated<T> = Generated(items: seq<T>, pool: seq<string>, next: nat)

  /** `text` is at most `k` sentences of the pool joined by spaces. */
  ghost predicate SentencesOf(text: string, k: nat, sentences: multiset<string>)
  {
    exists parts :: |parts| <= k && (forall p :: p in parts ==> p in sentences) && text == Join(parts, " ")
  }

  lemma JoinedSentences(parts: seq<string>, k: nat, sentences: multiset<string>)
    requires |parts| <= k && forall p :: p in parts ==> p in sentences
    ensures SentencesOf(Join(parts, " "), k, sentences)
  {
  }

  /** Every text is at most `k` sentences of the pool. */
  ghost predicate TextsOf(items: seq<CommentText>, k: nat, sentences: multiset<string>)
  {
    forall i :: 0 <= i < |items| ==> SentencesOf(items[i].text, k, sentences)
  }

  lemma ConsText(c: CommentText, rest: seq<CommentText>, k: nat, sentences: multiset<string>)
    requires SentencesOf(c.text, k, sentences)
    requires TextsOf(rest, k, sentences)
    ensures TextsOf([c] + rest, k, sentences)
  {
    var items := [c] + rest;
    forall i | 0 <= i < |items| ensures SentencesOf(items[i].text, k, sentences) {
      if i > 0 {
        assert items[i] == rest[i - 1];
      }
    }
  }

  /**
   * `generateComments(count, comments)` starting at call `t`: every comment
   * shuffles the shared `comments` array in place (so the pool keeps its last
   * order) and joins a part of it with spaces, so every comment is at most
   * three of the comment sentences.
   */
  function GenerateComments(count: nat, comments: seq<string>, rng: Rng, t: nat): (g: Generated<CommentText>)
    ensures |g.items| == count
    ensures multiset(g.pool) == multiset(comments)
    ensures TextsOf(g.items, 3, multiset(comments))
    decreases count
  {
    if count == 0 then Generated([], comments, t)
    else
      var shuffled := Shuffled(comments, rng, t);
      var t1 := t + ShuffleDraws(|comments|);
      var part := ArrayPart(shuffled, rng, t1);
      var rest := GenerateComments(count - 1, shuffled, rng, t1 + 2);
      ShuffledIsPermutation(comments, rng, t);
      assert forall p :: p in part ==> p in multiset(shuffled);
      JoinedSentences(part, 3, multiset(comments));
      ConsText(CommentText(Join(part, " ")), rest.items, 3, multiset(comments));
      Generated([CommentText(Join(part, " "))] + rest.items, rest.pool, rest.next)
  }
}
