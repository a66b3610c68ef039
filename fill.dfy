/**
 * src/service/cli/fill.js, first half: `--fill <count>` generates `count`
 * articles with their comments, gathers all comments, and links every article
 * to its categories. The SQL text built from them is in module FillSql.
 */
module Fill {
  import opened Wrappers
  import opened Text
  import opened Random
  import opened Seed
  import opened FillData
  import opened FillComments

  // ---------------------------------------------------------------------------
  // generateArticles

  /** One article, the pools after it, and the next call number. */
  datatype Step = Step(article: FillArticle, pools: Pools, next: nat)

  /** The articles, the pools after them, and the next call number. */
  datatype Articles = Articles(articles: seq<FillArticle>, pools: Pools, next: nat)

  /**
   * The object literal of `generateArticles` for the article at `index`, from
   * call `t`: title, the two texts, `getRandomArrayPart(categories)`, the
   * number of comments, the comments, and the author last. With at least one
   * user the article is well formed for its position, whatever order earlier
   * shuffles left the pools in.
   */
  function NextArticle(index: nat, pools: Pools, titles: seq<string>, categories: seq<string>, userCount: nat,
                       rng: Rng, t: nat): (s: Step)
    ensures SamePools(s.pools, pools)
    ensures 2 <= |s.article.comments| <= MAX_COMMENTS
    ensures userCount >= 1 ==>
      ArticleOk(s.article, index, multiset(pools.sentences), multiset(pools.comments), titles, categories, userCount)
  {
    var title := PickTitle(titles, rng(t));
    var texts := PostTexts(pools.sentences, rng, t + 1);
    var category := ArrayPart(categories, rng, texts.next);
    var comments := ArticleComments(index + 1, userCount, pools.comments, rng, texts.next + 2);
    var userId := PickUser(userCount, rng(comments.next));
    AssembledArticleOk(title, texts.announce, Join(texts.fullText, " "), category, comments.items, userId, index,
                       multiset(pools.sentences), multiset(pools.comments), titles, categories, userCount);
    Step(FillArticle(title, Join(texts.announce, " "), Join(texts.fullText, " "), category, comments.items, userId),
         Pools(texts.pool, comments.pool), comments.next + 1)
  }

  /**
   * `generateArticles` for the `count` articles from position `index` on, from
   * call `t`; with at least one user each is well formed for its position.
   */
  function GenerateArticles(index: nat, count: nat, pools: Pools, titles: seq<string>, categories: seq<string>,
                            userCount: nat, rng: Rng, t: nat): (g: Articles)
    ensures |g.articles| == count
    ensures SamePools(g.pools, pools)
    ensures userCount >= 1 ==>
      ArticlesOk(g.articles, index, multiset(pools.sentences), multiset(pools.comments), titles, categories, userCount)
    decreases count
  {
    if count == 0 then Articles([], pools, t)
    else
      var step := NextArticle(index, pools, titles, categories, userCount, rng, t);
      var rest := GenerateArticles(index + 1, count - 1, step.pools, titles, categories, userCount, rng, step.next);
      assert userCount >= 1 ==> ArticlesOk([step.article] + rest.articles, index, multiset(pools.sentences),
                                           multiset(pools.comments), titles, categories, userCount) by {
        if userCount >= 1 {
          ConsArticleOk(step.article, rest.articles, index, multiset(pools.sentences), multiset(pools.comments),
                        titles, categories, userCount);
        }
      }
      Articles([step.article] + rest.articles, rest.pools, rest.next)
  }

  // ---------------------------------------------------------------------------
  // articles.flatMap((article) => article.comments)

  /** All comments, article after article. */
  function AllComments(articles: seq<FillArticle>): seq<FillComment>
  {
    if articles == [] then [] else articles[0].comments + AllComments(articles[1..])
  }

  /** The comments of `cs` that belong to article `articleId`, in order. */
  function CommentsOf(cs: seq<FillComment>, articleId: int): (r: seq<FillComment>)
    ensures |r| <= |cs|
  {
    if cs == [] then []
    else (if cs[0].articleId == articleId then [cs[0]] else []) + CommentsOf(cs[1..], articleId)
  }

  lemma CommentsOfCons(c: FillComment, rest: seq<FillComment>, articleId: int)
    ensures CommentsOf([c] + rest, articleId) == (if c.articleId == articleId then [c] else []) + CommentsOf(rest, articleId)
  {
    assert ([c] + rest)[0] == c && ([c] + rest)[1..] == rest;
  }

  lemma {:induction false} CommentsOfConcat(a: seq<FillComment>, b: seq<FillComment>, articleId: int)
    ensures CommentsOf(a + b, articleId) == CommentsOf(a, articleId) + CommentsOf(b, articleId)
  {
    if a == [] {
      assert a + b == b;
    } else {
      var rest := a[1..];
      var head := if a[0].articleId == articleId then [a[0]] else [];
      assert a + b == [a[0]] + (rest + b);
      CommentsOfCons(a[0], rest + b, articleId);
      CommentsOfConcat(rest, b, articleId);
      assert CommentsOf(a, articleId) == head + CommentsOf(rest, articleId);
      assert head + (CommentsOf(rest, articleId) + CommentsOf(b, articleId))
          == (head + CommentsOf(rest, articleId)) + CommentsOf(b, articleId);
    }
  }

  /** Filtering keeps every comment of the article and drops every other one. */
  lemma {:induction false} CommentsOfUniform(cs: seq<FillComment>, articleId: int, other: int)
    requires forall k :: 0 <= k < |cs| ==> cs[k].articleId == articleId
    ensures CommentsOf(cs, articleId) == cs
    ensures other != articleId ==> CommentsOf(cs, other) == []
  {
    if cs != [] {
      CommentsOfUniform(cs[1..], articleId, other);
    }
  }

  /** Every comment of the article at position `i` carries article number `base + i + 1`. */
  ghost predicate Numbered(articles: seq<FillArticle>, base: nat)
  {
    forall i, k :: 0 <= i < |articles| && 0 <= k < |articles[i].comments| ==>
      articles[i].comments[k].articleId == base + i + 1
  }

  lemma NumberedTail(articles: seq<FillArticle>, base: nat)
    requires Numbered(articles, base) && articles != []
    ensures Numbered(articles[1..], base + 1)
    ensures forall k :: 0 <= k < |articles[0].comments| ==> articles[0].comments[k].articleId == base + 1
  {
    var rest := articles[1..];
    forall j, k | 0 <= j < |rest| && 0 <= k < |rest[j].comments|
      ensures rest[j].comments[k].articleId == base + 1 + j + 1
    {
      assert rest[j] == articles[j + 1];
    }
  }

  /** The flattened comments of numbered articles all carry a number above `base`. */
  lemma {:induction false} NoneOfEarlier(articles: seq<FillArticle>, base: nat, articleId: int)
    requires Numbered(articles, base)
    requires articleId <= base
    ensures CommentsOf(AllComments(articles), articleId) == []
  {
    if articles != [] {
      NumberedTail(articles, base);
      NoneOfEarlier(articles[1..], base + 1, articleId);
      CommentsOfUniform(articles[0].comments, base + 1, articleId);
      CommentsOfConcat(articles[0].comments, AllComments(articles[1..]), articleId);
    }
  }

  /** The flattened comments split into the first article's and the rest's. */
  lemma CommentsOfFirst(articles: seq<FillArticle>, base: nat, id: int)
    requires Numbered(articles, base) && articles != []
    ensures CommentsOf(AllComments(articles), id)
      == (if id == base + 1 then articles[0].comments else []) + CommentsOf(AllComments(articles[1..]), id)
  {
    NumberedTail(articles, base);
    assert AllComments(articles) == articles[0].comments + AllComments(articles[1..]);
    CommentsOfConcat(articles[0].comments, AllComments(articles[1..]), id);
    CommentsOfUniform(articles[0].comments, base + 1, id);
  }

  /** The first article's own number picks out exactly its comments. */
  lemma CommentsOfOwn(articles: seq<FillArticle>, base: nat)
    requires Numbered(articles, base) && articles != []
    ensures CommentsOf(AllComments(articles), base + 1) == articles[0].comments
  {
    CommentsOfFirst(articles, base, base + 1);
    NumberedTail(articles, base);
    NoneOfEarlier(articles[1..], base + 1, base + 1);
    assert articles[0].comments + [] == articles[0].comments;
  }

  /** A later article's number picks nothing from the first article. */
  lemma CommentsOfLater(articles: seq<FillArticle>, base: nat, id: int)
    requires Numbered(articles, base) && articles != [] && id != base + 1
    ensures CommentsOf(AllComments(articles), id) == CommentsOf(AllComments(articles[1..]), id)
  {
    CommentsOfFirst(articles, base, id);
    assert [] + CommentsOf(AllComments(articles[1..]), id) == CommentsOf(AllComments(articles[1..]), id);
  }

  /**
   * Picking the comments of article `base + i + 1` out of the flattened list
   * gives back exactly the comments of the article at position `i`.
   */
  lemma {:induction false} CommentsRegroup(articles: seq<FillArticle>, base: nat, i: nat)
    requires Numbered(articles, base)
    requires i < |articles|
    ensures CommentsOf(AllComments(articles), base + i + 1) == articles[i].comments
    decreases i
  {
    if i == 0 {
      CommentsOfOwn(articles, base);
    } else {
      NumberedTail(articles, base);
      CommentsOfLater(articles, base, base + i + 1);
      CommentsRegroup(articles[1..], base + 1, i - 1);
      assert articles[1..][i - 1] == articles[i];
    }
  }

  /** Generated articles are numbered from 1 in the order they were made. */
  lemma NumberedFromOne(articles: seq<FillArticle>, sentences: multiset<string>, comments: multiset<string>,
                        titles: seq<string>, categories: seq<string>, userCount: nat)
    requires ArticlesOk(articles, 0, sentences, comments, titles, categories, userCount)
    ensures Numbered(articles, 0)
  {
    forall i, k | 0 <= i < |articles| && 0 <= k < |articles[i].comments|
      ensures articles[i].comments[k].articleId == 0 + i + 1
    {
      assert ArticleOk(articles[i], 0 + i, sentences, comments, titles, categories, userCount);
      assert CommentOk(articles[i].comments[k], i + 1, userCount, comments);
    }
  }

  // ---------------------------------------------------------------------------
  // articlesCategories

  /** `{articleId, categoryId}`. */
  datatype Pair = Pair(articleId: int, categoryId: int)

  /** `s.indexOf(x)`: the first position of `x`, or -1. */
  function IndexOf(s: seq<string>, x: string): (k: int)
    ensures k == -1 <==> x !in s
    ensures k != -1 ==> 0 <= k < |s| && s[k] == x && x !in s[..k]
  {
    if s == [] then -1
    else if s[0] == x then 0
    else
      var k := IndexOf(s[1..], x);
      if k == -1 then -1
      else
        assert s[..k + 1] == [s[0]] + s[1..][..k];
        k + 1
  }

  /** The pairs one article contributes: its categories, in order, as numbers from 1. */
  function RowPairs(articleId: int, category: seq<string>, categories: seq<string>): seq<Pair>
  {
    if category == [] then []
    else RowPairs(articleId, category[..|category| - 1], categories)
           + [Pair(articleId, IndexOf(categories, category[|category| - 1]) + 1)]
  }

  /** The pairs of all articles, article after article. */
  function PairsOf(articles: seq<FillArticle>, categories: seq<string>): seq<Pair>
  {
    if articles == [] then []
    else PairsOf(articles[..|articles| - 1], categories)
           + RowPairs(|articles|, articles[|articles| - 1].category, categories)
  }

  /**
   * The `forEach` over the articles and, inside, over each article's
   * categories, pushing one pair per category onto `articlesCategories`.
   */
  method ArticlesCategories(articles: seq<FillArticle>, categories: seq<string>) returns (articlesCategories: seq<Pair>)
    ensures articlesCategories == PairsOf(articles, categories)
  {
    articlesCategories := [];
    var index := 0;
    while index < |articles|
      invariant 0 <= index <= |articles|
      invariant articlesCategories == PairsOf(articles[..index], categories)
    {
      var category := articles[index].category;
      var j := 0;
      ghost var before := articlesCategories;
      while j < |category|
        invariant 0 <= j <= |category|
        invariant articlesCategories == before + RowPairs(index + 1, category[..j], categories)
      {
        RowPairsStep(index + 1, category, j, categories);
        articlesCategories := articlesCategories + [Pair(index + 1, IndexOf(categories, category[j]) + 1)];
        j := j + 1;
      }
      PairsOfStep(articles, index, categories);
      index := index + 1;
    }
    assert articles[..index] == articles;
  }

  /** One more category of an article adds its pair at the end of the row. */
  lemma RowPairsStep(articleId: int, category: seq<string>, j: nat, categories: seq<string>)
    requires j < |category|
    ensures RowPairs(articleId, category[..j + 1], categories)
      == RowPairs(articleId, category[..j], categories) + [Pair(articleId, IndexOf(categories, category[j]) + 1)]
  {
    assert category[..j + 1][..j] == category[..j];
  }

  /** One more article adds its whole row at the end. */
  lemma PairsOfStep(articles: seq<FillArticle>, index: nat, categories: seq<string>)
    requires index < |articles|
    ensures PairsOf(articles[..index + 1], categories)
      == PairsOf(articles[..index], categories)
         + RowPairs(index + 1, articles[index].category[..|articles[index].category|], categories)
  {
    assert articles[..index + 1][..index] == articles[..index];
    assert articles[index].category[..|articles[index].category|] == articles[index].category;
  }

  /** An article's row holds one pair per category, the `j`-th naming its `j`-th category. */
  lemma {:induction false} RowPairsAt(articleId: int, category: seq<string>, categories: seq<string>)
    ensures |RowPairs(articleId, category, categories)| == |category|
    ensures forall j :: 0 <= j < |category| ==>
      RowPairs(articleId, category, categories)[j] == Pair(articleId, IndexOf(categories, category[j]) + 1)
  {
    if category != [] {
      var n := |category|;
      var init := category[..n - 1];
      var front := RowPairs(articleId, init, categories);
      var last := Pair(articleId, IndexOf(categories, category[n - 1]) + 1);
      assert RowPairs(articleId, category, categories) == front + [last];
      RowPairsAt(articleId, init, categories);
      forall j | 0 <= j < n
        ensures (front + [last])[j] == Pair(articleId, IndexOf(categories, category[j]) + 1)
      {
        if j < n - 1 {
          assert category[j] == init[j];
        }
      }
    }
  }

  /** How many article–category links the articles have: the sum of their category counts. */
  function LinkCount(articles: seq<FillArticle>): (n: nat)
    ensures articles != [] ==> n >= |articles[|articles| - 1].category|
  {
    if articles == [] then 0
    else LinkCount(articles[..|articles| - 1]) + |articles[|articles| - 1].category|
  }

  /** There is one pair per link: no pair is lost and none is doubled. */
  lemma {:induction false} PairsOfLength(articles: seq<FillArticle>, categories: seq<string>)
    ensures |PairsOf(articles, categories)| == LinkCount(articles)
  {
    if articles != [] {
      PairsOfLength(articles[..|articles| - 1], categories);
      RowPairsAt(|articles|, articles[|articles| - 1].category, categories);
    }
  }

  /**
   * The pairs of article `i` come right after those of the articles before it:
   * the `j`-th names its `j`-th category.
   */
  lemma {:induction false} PairsOfAt(articles: seq<FillArticle>, categories: seq<string>, i: nat, j: nat)
    requires i < |articles| && j < |articles[i].category|
    ensures LinkCount(articles[..i]) + j < |PairsOf(articles, categories)|
    ensures PairsOf(articles, categories)[LinkCount(articles[..i]) + j]
      == Pair(i + 1, IndexOf(categories, articles[i].category[j]) + 1)
  {
    var n := |articles|;
    if i == n - 1 {
      PairsOfAtLast(articles, categories, j);
    } else {
      var init := articles[..n - 1];
      var front := PairsOf(init, categories);
      var row := RowPairs(n, articles[n - 1].category, categories);
      assert PairsOf(articles, categories) == front + row;
      assert init[..i] == articles[..i] && init[i] == articles[i];
      PairsOfAt(init, categories, i, j);
      assert (front + row)[LinkCount(init[..i]) + j] == front[LinkCount(init[..i]) + j];
    }
  }

  /** The last article's pairs follow all the others'. */
  lemma PairsOfAtLast(articles: seq<FillArticle>, categories: seq<string>, j: nat)
    requires |articles| >= 1 && j < |articles[|articles| - 1].category|
    ensures var init := articles[..|articles| - 1];
      && LinkCount(init) + j < |PairsOf(articles, categories)|
      && PairsOf(articles, categories)[LinkCount(init) + j]
         == Pair(|articles|, IndexOf(categories, articles[|articles| - 1].category[j]) + 1)
  {
    var n := |articles|;
    var init := articles[..n - 1];
    var front := PairsOf(init, categories);
    var row := RowPairs(n, articles[n - 1].category, categories);
    assert PairsOf(articles, categories) == front + row;
    PairsOfLength(init, categories);
    RowPairsAt(n, articles[n - 1].category, categories);
    assert (front + row)[|front| + j] == row[j];
  }

  /** A pair links article `articleId` to the position of one of its categories. */
  ghost predicate Links(p: Pair, articles: seq<FillArticle>, categories: seq<string>)
  {
    exists i, c :: 0 <= i < |articles| && c in articles[i].category && p == Pair(i + 1, IndexOf(categories, c) + 1)
  }

  lemma {:induction false} RowPairsMembers(articleId: int, category: seq<string>, categories: seq<string>, p: Pair)
    ensures p in RowPairs(articleId, category, categories) <==>
      exists c :: c in category && p == Pair(articleId, IndexOf(categories, c) + 1)
  {
    if category != [] {
      var init := category[..|category| - 1];
      var last := category[|category| - 1];
      RowPairsMembers(articleId, init, categories, p);
      assert category == init + [last];
      if p in RowPairs(articleId, category, categories) && p !in RowPairs(articleId, init, categories) {
        assert p == Pair(articleId, IndexOf(categories, last) + 1);
      }
      if c :| c in category && p == Pair(articleId, IndexOf(categories, c) + 1) {
        if c != last {
          assert c in init;
        }
      }
    }
  }

  /**
   * `articlesCategories` holds a pair exactly for every category of every
   * article: the article's number and the category's position in the list,
   * both counted from 1.
   */
  lemma {:induction false} PairsOfMembers(articles: seq<FillArticle>, categories: seq<string>, p: Pair)
    ensures p in PairsOf(articles, categories) <==> Links(p, articles, categories)
  {
    if articles != [] {
      var n := |articles|;
      var init := articles[..n - 1];
      PairsOfMembers(init, categories, p);
      RowPairsMembers(n, articles[n - 1].category, categories, p);
      if Links(p, init, categories) {
        var i, c :| 0 <= i < |init| && c in init[i].category && p == Pair(i + 1, IndexOf(categories, c) + 1);
        assert init[i] == articles[i];
      }
      if Links(p, articles, categories) {
        var i, c :| 0 <= i < n && c in articles[i].category && p == Pair(i + 1, IndexOf(categories, c) + 1);
        if i < n - 1 {
          assert init[i] == articles[i];
          assert Links(p, init, categories);
        }
      }
    }
  }

  /** Article numbers lie in `[1, n]` and never decrease along `pairs`. */
  ghost predicate OrderedUpTo(pairs: seq<Pair>, n: int)
  {
    forall a, b :: 0 <= a < b < |pairs| ==> 1 <= pairs[a].articleId <= pairs[b].articleId <= n
  }

  /** Appending pairs of article `n` to pairs of earlier articles keeps the order. */
  lemma OrderedAppend(init: seq<Pair>, row: seq<Pair>, n: int)
    requires n >= 1 && OrderedUpTo(init, n - 1)
    requires forall k :: 0 <= k < |init| ==> 1 <= init[k].articleId <= n - 1
    requires forall k :: 0 <= k < |row| ==> row[k].articleId == n
    ensures OrderedUpTo(init + row, n)
  {
    var pairs := init + row;
    forall a, b | 0 <= a < b < |pairs| ensures 1 <= pairs[a].articleId <= pairs[b].articleId <= n {
      if b < |init| {
        assert pairs[a] == init[a] && pairs[b] == init[b];
      } else if a < |init| {
        assert pairs[a] == init[a] && pairs[b] == row[b - |init|];
      } else {
        assert pairs[a] == row[a - |init|] && pairs[b] == row[b - |init|];
      }
    }
  }

  /** Article numbers never decrease along `articlesCategories`. */
  lemma {:induction false} PairsOfOrdered(articles: seq<FillArticle>, categories: seq<string>)
    ensures OrderedUpTo(PairsOf(articles, categories), |articles|)
  {
    if articles != [] {
      var n := |articles|;
      var init := PairsOf(articles[..n - 1], categories);
      PairsOfOrdered(articles[..n - 1], categories);
      RowPairsOf(n, articles[n - 1].category, categories);
      forall k | 0 <= k < |init| ensures 1 <= init[k].articleId <= n - 1 {
        InitPairBound(articles[..n - 1], categories, k);
      }
      OrderedAppend(init, RowPairs(n, articles[n - 1].category, categories), n);
    }
  }

  /** Every pair of the first articles names one of them. */
  lemma InitPairBound(articles: seq<FillArticle>, categories: seq<string>, a: nat)
    requires a < |PairsOf(articles, categories)|
    ensures 1 <= PairsOf(articles, categories)[a].articleId <= |articles|
  {
    var p := PairsOf(articles, categories)[a];
    PairsOfMembers(articles, categories, p);
  }

  lemma {:induction false} RowPairsOf(articleId: int, category: seq<string>, categories: seq<string>)
    ensures forall k :: 0 <= k < |RowPairs(articleId, category, categories)| ==>
      RowPairs(articleId, category, categories)[k].articleId == articleId
  {
    if category != [] {
      RowPairsOf(articleId, category[..|category| - 1], categories);
    }
  }

  /** When every category of an article is in the list, each pair names a listed category by its position. */
  lemma PairsNameListedCategories(articles: seq<FillArticle>, categories: seq<string>, p: Pair)
    requires forall i, c :: 0 <= i < |articles| && c in articles[i].category ==> c in categories
    requires p in PairsOf(articles, categories)
    ensures 1 <= p.articleId <= |articles|
    ensures 1 <= p.categoryId <= |categories|
    ensures categories[p.categoryId - 1] in articles[p.articleId - 1].category
  {
    PairsOfMembers(articles, categories, p);
    var i, c :| 0 <= i < |articles| && c in articles[i].category && p == Pair(i + 1, IndexOf(categories, c) + 1);
  }
}
