/**
 * The draws and `generateComments` of src/service/cli/fill.js: every comment
 * has an author and one to three sentences of the shared, reshuffled comment
 * pool (none only when the pool is empty).
 */
module FillComments {
  import opened Text
  import opened Random
  import opened Seed
  import opened FillData

  /** `getRandomInt(1, userCount)` with draw `r`: one of the users, numbered from 1. */
  function PickUser(userCount: nat, r: Draw): (userId: int)
    ensures userCount >= 1 ==> 1 <= userId <= userCount
  {
    assert Ceil(1.0) == 1;
    RandomInt(1.0, userCount as real, r)
  }

  /** `getRandomInt(1, 3)` with draw `r`: how many sentences a comment takes. */
  function SentenceCount(r: Draw): (k: int)
    ensures 1 <= k <= 3
  {
    assert Ceil(1.0) == 1;
    RandomInt(1.0, 3.0, r)
  }

  /** `getRandomInt(2, MAX_COMMENTS)` with draw `r`: how many comments an article gets. */
  function CommentCount(r: Draw): (n: nat)
    ensures 2 <= n <= MAX_COMMENTS
  {
    assert Ceil(2.0) == 2;
    RandomInt(2.0, MAX_COMMENTS as real, r)
  }

  /**
   * One comment of `generateComments` from call `t`: the author, then a
   * shuffle of the shared comment pool in place, then the first one to three
   * sentences of it.
   */
  function NextComment(articleId: int, userCount: nat, pool: seq<string>, rng: Rng, t: nat): (c: FillComment)
    ensures c.articleId == articleId
    ensures CommentTextOf(c.text, multiset(pool))
    ensures userCount >= 1 ==> CommentOk(c, articleId, userCount, multiset(pool))
  {
    var shuffled := Shuffled(pool, rng, t + 1);
    var k := SentenceCount(rng(t + 1 + ShuffleDraws(|pool|)));
    var part := JsSlice(shuffled, 0, k);
    ShuffledIsPermutation(pool, rng, t + 1);
    SliceOfPool(shuffled, 0, k, multiset(pool));
    JsSliceLength(shuffled, 0, k);
    assert |pool| >= 1 ==> 1 <= |part|;
    assert forall p :: p in part ==> p in multiset(pool);
    assert CommentTextOf(Join(part, " "), multiset(pool));
    FillComment(PickUser(userCount, rng(t)), articleId, Join(part, " "))
  }

  /** `generateComments(count, articleId, userCount, comments)` from call `t`. */
  function Comments(count: nat, articleId: int, userCount: nat, pool: seq<string>, rng: Rng, t: nat)
    : (g: Generated<FillComment>)
    ensures |g.items| == count
    ensures multiset(g.pool) == multiset(pool)
    decreases count
  {
    if count == 0 then Generated([], pool, t)
    else
      var shuffled := Shuffled(pool, rng, t + 1);
      var rest := Comments(count - 1, articleId, userCount, shuffled, rng, t + 2 + ShuffleDraws(|pool|));
      ShuffledIsPermutation(pool, rng, t + 1);
      Generated([NextComment(articleId, userCount, pool, rng, t)] + rest.items, rest.pool, rest.next)
  }

  /**
   * With at least one user, every comment belongs to `articleId`, is written
   * by one of the `userCount` users, and is one to three comment sentences,
   * however the shuffles reorder the shared pool.
   */
  lemma {:induction false} CommentsAreOk(count: nat, articleId: int, userCount: nat, pool: seq<string>, rng: Rng, t: nat)
    ensures userCount >= 1 ==>
      CommentsOk(Comments(count, articleId, userCount, pool, rng, t).items, articleId, userCount, multiset(pool))
    decreases count
  {
    if count > 0 {
      var shuffled := Shuffled(pool, rng, t + 1);
      var rest := Comments(count - 1, articleId, userCount, shuffled, rng, t + 2 + ShuffleDraws(|pool|)).items;
      ShuffledIsPermutation(pool, rng, t + 1);
      CommentsAreOk(count - 1, articleId, userCount, shuffled, rng, t + 2 + ShuffleDraws(|pool|));
      ConsCommentOk(NextComment(articleId, userCount, pool, rng, t), rest, articleId, userCount, multiset(pool));
    }
  }

  /**
   * The comments of article `articleId`:
   * `generateComments(getRandomInt(2, MAX_COMMENTS), articleId, userCount, comments)`
   * from call `t`. There are two to MAX_COMMENTS of them and, with at least one
   * user, each is a well-formed comment of that article.
   */
  function ArticleComments(articleId: int, userCount: nat, pool: seq<string>, rng: Rng, t: nat)
    : (g: Generated<FillComment>)
    ensures 2 <= |g.items| <= MAX_COMMENTS
    ensures multiset(g.pool) == multiset(pool)
    ensures userCount >= 1 ==> CommentsOk(g.items, articleId, userCount, multiset(pool))
  {
    var n := CommentCount(rng(t));
    CommentsAreOk(n, articleId, userCount, pool, rng, t + 1);
    Comments(n, articleId, userCount, pool, rng, t + 1)
  }
}
