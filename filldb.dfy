/**
 * src/service/cli/filldb.js: `--filldb <count>` generates `count` articles,
 * each with its categories and four comments, and hands them with the category
 * list to the database initialisation. Connecting to the database, reading the
 * data files and `initDatabase` itself are left to the caller; the post dates
 * (`getRandomDate`) are not modelled, but their draw is consumed.
 */
module FillDb {
  import opened Wrappers
  import opened Text
  import opened Random
  import opened Seed

  /** MAX_COMMENTS of constants.js: every article gets this many comments. */
  const MAX_COMMENTS := 4

  /** A generated article (its `createDate` is left out). `None` is an `undefined` title. */
  datatype DbPost = DbPost(title: Option<string>, announce: string, fullText: string,
                           categories: seq<string>, comments: seq<CommentText>)

  /** One article, the pools after it, and the next call number. */
  datatype Step = Step(post: DbPost, pools: Pools, next: nat)

  /** The articles, the pools after them, and the next call number. */
  datatype Posts = Posts(posts: seq<DbPost>, pools: Pools, next: nat)

  /**
   * An article's title is one of the titles, its announce at most four of the
   * sentences, its categories come from distinct positions of the category
   * list (between one and all but one of them when there are two or more),
   * and it has exactly MAX_COMMENTS comments, each at most three comment
   * sentences.
   */
  ghost predicate WellFormed(post: DbPost, sentences: multiset<string>, comments: multiset<string>,
                             titles: seq<string>, categories: seq<string>)
  {
    && (titles != [] ==> post.title.Some? && post.title.value in titles)
    && SentencesOf(post.announce, 4, sentences)
    && multiset(post.categories) <= multiset(categories)
    && (|categories| >= 2 ==> 1 <= |post.categories| <= |categories| - 1)
    && |post.comments| == MAX_COMMENTS
    && TextsOf(post.comments, 3, comments)
  }

  ghost predicate AllWellFormed(posts: seq<DbPost>, sentences: multiset<string>, comments: multiset<string>,
                                titles: seq<string>, categories: seq<string>)
  {
    forall i :: 0 <= i < |posts| ==> WellFormed(posts[i], sentences, comments, titles, categories)
  }

  lemma ConsWellFormed(post: DbPost, rest: seq<DbPost>, sentences: multiset<string>, comments: multiset<string>,
                       titles: seq<string>, categories: seq<string>)
    requires WellFormed(post, sentences, comments, titles, categories)
    requires AllWellFormed(rest, sentences, comments, titles, categories)
    ensures AllWellFormed([post] + rest, sentences, comments, titles, categories)
  {
    var posts := [post] + rest;
    forall i | 0 <= i < |posts| ensures WellFormed(posts[i], sentences, comments, titles, categories) {
      if i > 0 {
        assert posts[i] == rest[i - 1];
      }
    }
  }

  /**
   * The object literal of `generatePosts` from call `t`: the title, the date,
   * two shuffles and a length for the texts, `getRandomSubarray(categories)`,
   * then `generateComments(MAX_COMMENTS, comments)`. The article is well
   * formed whatever order earlier shuffles left the pools in.
   */
  function NextPost(pools: Pools, titles: seq<string>, categories: seq<string>, rng: Rng, t: nat): (s: Step)
    ensures SamePools(s.pools, pools)
    ensures WellFormed(s.post, multiset(pools.sentences), multiset(pools.comments), titles, categories)
  {
    var title := PickTitle(titles, rng(t));
    var texts := PostTexts(pools.sentences, rng, t + 2);
    var picked := RandomSubarray(categories, rng, texts.next);
    var comments := GenerateComments(MAX_COMMENTS, pools.comments, rng, picked.next);
    RandomSubarrayPicksDistinct(categories, rng, texts.next);
    Step(DbPost(title, Join(texts.announce, " "), Join(texts.fullText, " "), picked.picked, comments.items),
         Pools(texts.pool, comments.pool), comments.next)
  }

  /** `generatePosts(count, data)` from call `t`: `count` well-formed articles. */
  function GeneratePosts(count: nat, pools: Pools, titles: seq<string>, categories: seq<string>, rng: Rng, t: nat)
    : (g: Posts)
    ensures |g.posts| == count
    ensures SamePools(g.pools, pools)
    ensures AllWellFormed(g.posts, multiset(pools.sentences), multiset(pools.comments), titles, categories)
    decreases count
  {
    if count == 0 then Posts([], pools, t)
    else
      var step := NextPost(pools, titles, categories, rng, t);
      var rest := GeneratePosts(count - 1, step.pools, titles, categories, rng, step.next);
      ConsWellFormed(step.post, rest.posts, multiset(pools.sentences), multiset(pools.comments), titles, categories);
      Posts([step.post] + rest.posts, rest.pools, rest.next)
  }

  // ---------------------------------------------------------------------------
  // run

  /** What `initDatabase` is given: the articles and the category list as it was read. */
  datatype Seeded = Seeded(articles: seq<DbPost>, categories: seq<string>)

  /**
   * `run([count])` once connected, from call 0: a negative count, or one of
   * 2^32 or more, makes `Array(count)` throw; there is no other bound.
   * Otherwise `count` articles (one when the argument is missing, not a number
   * or 0) go to the database with the categories exactly as read, since
   * `getRandomSubarray` works on a copy.
   */
  function Run(arg: Option<string>, sentences: seq<string>, titles: seq<string>, categories: seq<string>,
               comments: seq<string>, rng: Rng): (r: Launch<Seeded>)
    ensures !r.Refused?
    ensures r.Crashes? <==> !ArrayLength(CountArg(arg))
    ensures r.Done? ==> |r.result.articles| == CountArg(arg) >= 1 && r.result.categories == categories
    ensures r.Done? ==> AllWellFormed(r.result.articles, multiset(sentences), multiset(comments), titles, categories)
  {
    var countPosts := CountArg(arg);
    if !ArrayLength(countPosts) then Crashes
    else Done(Seeded(GeneratePosts(countPosts, Pools(sentences, comments), titles, categories, rng, 0).posts, categories))
  }
}
