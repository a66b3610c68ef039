/**
 * src/service/cli/generate.js: `--generate <count>` writes `count` random posts
 * to mocks.json. Reading the data files and writing the JSON are left to the
 * caller; the post dates (`getRandomDate`) are not modelled, but their draw is
 * consumed.
 */
module Generate {
  import opened Wrappers
  import opened Text
  import opened Random
  import opened Seed

  /** maxPostsGenerate of constants.js. */
  const MAX_POSTS_GENERATE := 1000

  /** A generated post (its `createDate` is left out). `None` is an `undefined` title. */
  datatype MockPost = MockPost(title: Option<string>, announce: string, fullText: string, category: seq<string>)

  /** The posts, the sentence list as the shuffles leave it, and the next call number. */
  datatype Posts = Posts(posts: seq<MockPost>, pool: seq<string>, next: nat)

  /** One post, the sentence list after it, and the next call number. */
  datatype Step = Step(post: MockPost, pool: seq<string>, next: nat)

  /**
   * A post's title is one of the titles, its announce at most four of the
   * sentences, and its category a run of neighbouring categories that stops
   * before the last one.
   */
  ghost predicate WellFormed(post: MockPost, sentences: multiset<string>, titles: seq<string>, categories: seq<string>)
  {
    && (titles != [] ==> post.title.Some? && post.title.value in titles)
    && SentencesOf(post.announce, 4, sentences)
    && (categories == [] ==> post.category == [])
    && (categories != [] ==> exists lo :: RunBeforeLast(post.category, categories, lo))
  }

  ghost predicate AllWellFormed(posts: seq<MockPost>, sentences: multiset<string>, titles: seq<string>,
                                categories: seq<string>)
  {
    forall i :: 0 <= i < |posts| ==> WellFormed(posts[i], sentences, titles, categories)
  }

  lemma ConsWellFormed(post: MockPost, rest: seq<MockPost>, sentences: multiset<string>, titles: seq<string>,
                       categories: seq<string>)
    requires WellFormed(post, sentences, titles, categories)
    requires AllWellFormed(rest, sentences, titles, categories)
    ensures AllWellFormed([post] + rest, sentences, titles, categories)
  {
    var posts := [post] + rest;
    forall i | 0 <= i < |posts| ensures WellFormed(posts[i], sentences, titles, categories) {
      if i > 0 {
        assert posts[i] == rest[i - 1];
      }
    }
  }

  /**
   * The object literal of `generatePosts` from call `t`: the title, the date,
   * two shuffles and a length for the texts, then the two bounds of the
   * category slice. The post is well formed whatever order earlier shuffles
   * left the sentences in.
   */
  function NextPost(sentences: seq<string>, titles: seq<string>, categories: seq<string>, rng: Rng, t: nat): (s: Step)
    ensures multiset(s.pool) == multiset(sentences)
    ensures WellFormed(s.post, multiset(sentences), titles, categories)
  {
    var title := PickTitle(titles, rng(t));
    var texts := PostTexts(sentences, rng, t + 2);
    var category := RandomRun(categories, rng, texts.next);
    Step(MockPost(title, Join(texts.announce, " "), Join(texts.fullText, " "), category), texts.pool, texts.next + 2)
  }

  /** `generatePosts(count, [sentences, titles, categories])` from call `t`: `count` well-formed posts. */
  function GeneratePosts(count: nat, sentences: seq<string>, titles: seq<string>, categories: seq<string>, rng: Rng, t: nat)
    : (g: Posts)
    ensures |g.posts| == count
    ensures multiset(g.pool) == multiset(sentences)
    ensures AllWellFormed(g.posts, multiset(sentences), titles, categories)
    decreases count
  {
    if count == 0 then Posts([], sentences, t)
    else
      var step := NextPost(sentences, titles, categories, rng, t);
      var rest := GeneratePosts(count - 1, step.pool, titles, categories, rng, step.next);
      ConsWellFormed(step.post, rest.posts, multiset(sentences), titles, categories);
      Posts([step.post] + rest.posts, rest.pool, rest.next)
  }

  /**
   * `run([count])`: more than 1000 posts are refused and nothing is written; a
   * negative count makes `Array(count)` throw; otherwise exactly `count` posts
   * are generated, the first draw being call 0.
   */
  function Run(arg: Option<string>, sentences: seq<string>, titles: seq<string>, categories: seq<string>, rng: Rng)
    : (r: Launch<seq<MockPost>>)
    ensures r.Refused? <==> CountArg(arg) > MAX_POSTS_GENERATE
    ensures r.Crashes? <==> CountArg(arg) < 0
    ensures r.Done? ==> 1 <= |r.result| <= MAX_POSTS_GENERATE && |r.result| == CountArg(arg)
    ensures r.Done? ==> AllWellFormed(r.result, multiset(sentences), titles, categories)
  {
    var countPosts := CountArg(arg);
    if countPosts > MAX_POSTS_GENERATE then Refused
    else if countPosts < 0 then Crashes
    else Done(GeneratePosts(countPosts, sentences, titles, categories, rng, 0).posts)
  }
}
