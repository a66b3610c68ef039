/**
 * The "best commented" block (src/service/api/article.js:116-118 and
 * src/express/routes/main-routes.js:26-28): keep the articles that have
 * comments, sort them by comment count, most first, and take the first four.
 * `Array.prototype.sort` is stable, so articles with equal counts keep their
 * order; the sort is modelled by the stable insertion sort `SortByComments`.
 */
module Ranking {
  import opened Blog

  /** The size of the block: the literal 4 of article.js and MAX_ELEMENTS_PER_BLOCK of main-routes.js. */
  const MAX_BEST := 4

  /** `articles.filter((item) => item.comments.length > 0)`. */
  function WithComments(xs: seq<Article>): (r: seq<Article>)
    ensures |r| <= |xs| && forall i :: 0 <= i < |r| ==> CommentCount(r[i]) > 0
  {
    if xs == [] then []
    else (if CommentCount(xs[0]) > 0 then [xs[0]] else []) + WithComments(xs[1..])
  }

  /** The articles of `xs` with exactly `k` comments, in order. */
  function WithCount(xs: seq<Article>, k: nat): seq<Article>
  {
    if xs == [] then []
    else (if CommentCount(xs[0]) == k then [xs[0]] else []) + WithCount(xs[1..], k)
  }

  ghost predicate NonIncreasing(s: seq<Article>)
  {
    forall i, j :: 0 <= i < j < |s| ==> CommentCount(s[i]) >= CommentCount(s[j])
  }

  /** Puts `x` in front of the first article with no more comments than it has. */
  function Insert(x: Article, s: seq<Article>): (r: seq<Article>)
    ensures |r| == |s| + 1
  {
    if s == [] || CommentCount(s[0]) <= CommentCount(x) then [x] + s
    else [s[0]] + Insert(x, s[1..])
  }

  /** `sort((a, b) => b.comments.length - a.comments.length)` on a copy. */
  function SortByComments(xs: seq<Article>): (r: seq<Article>)
    ensures |r| == |xs|
  {
    if xs == [] then [] else Insert(xs[0], SortByComments(xs[1..]))
  }

  /** `bestCommentedArticles`: filter, sort, `slice(0, 4)`. */
  function BestCommented(xs: seq<Article>): (r: seq<Article>)
    ensures |r| <= MAX_BEST
  {
    var ranked := SortByComments(WithComments(xs));
    if |ranked| <= MAX_BEST then ranked else ranked[..MAX_BEST]
  }

  /** The filter keeps exactly the articles with comments, with their multiplicities. */
  lemma {:induction false} WithCommentsKeeps(xs: seq<Article>)
    ensures forall a :: a in WithComments(xs) <==> a in xs && CommentCount(a) > 0
    ensures multiset(WithComments(xs)) <= multiset(xs)
  {
    if xs != [] {
      WithCommentsKeeps(xs[1..]);
      assert xs == [xs[0]] + xs[1..];
    }
  }

  lemma {:induction false} InsertPermutes(x: Article, s: seq<Article>)
    ensures multiset(Insert(x, s)) == multiset(s) + multiset{x}
    ensures |Insert(x, s)| == |s| + 1
  {
    if s != [] && CommentCount(s[0]) > CommentCount(x) {
      InsertPermutes(x, s[1..]);
      assert s == [s[0]] + s[1..];
    }
  }

  lemma {:induction false} InsertKeepsOrder(x: Article, s: seq<Article>)
    requires NonIncreasing(s)
    ensures NonIncreasing(Insert(x, s))
  {
    if s != [] && CommentCount(s[0]) > CommentCount(x) {
      InsertKeepsOrder(x, s[1..]);
      InsertPermutes(x, s[1..]);
      var r := Insert(x, s[1..]);
      forall j | 0 <= j < |r| ensures CommentCount(s[0]) >= CommentCount(r[j]) {
        assert r[j] in multiset(s[1..]) + multiset{x};
        if r[j] != x {
          assert r[j] in s[1..];
        }
      }
    }
  }

  /** The sort returns a permutation of its input, most comments first. */
  lemma {:induction false} SortByCommentsSorts(xs: seq<Article>)
    ensures multiset(SortByComments(xs)) == multiset(xs)
    ensures |SortByComments(xs)| == |xs|
    ensures NonIncreasing(SortByComments(xs))
  {
    if xs != [] {
      SortByCommentsSorts(xs[1..]);
      InsertPermutes(xs[0], SortByComments(xs[1..]));
      InsertKeepsOrder(xs[0], SortByComments(xs[1..]));
      assert xs == [xs[0]] + xs[1..];
    }
  }

  lemma {:induction false} InsertWithCount(x: Article, s: seq<Article>, k: nat)
    ensures WithCount(Insert(x, s), k) == (if CommentCount(x) == k then [x] else []) + WithCount(s, k)
  {
    if s == [] || CommentCount(s[0]) <= CommentCount(x) {
      assert Insert(x, s)[1..] == s;
    } else {
      InsertWithCount(x, s[1..], k);
      assert Insert(x, s)[1..] == Insert(x, s[1..]);
    }
  }

  /** The sort is stable: the articles with any one comment count keep their relative order. */
  lemma {:induction false} SortByCommentsIsStable(xs: seq<Article>, k: nat)
    ensures WithCount(SortByComments(xs), k) == WithCount(xs, k)
  {
    if xs != [] {
      SortByCommentsIsStable(xs[1..], k);
      InsertWithCount(xs[0], SortByComments(xs[1..]), k);
    }
  }

  /** The block is a prefix of the ranking; what follows it is the rest of the ranking. */
  lemma BestCommentedIsPrefix(xs: seq<Article>)
    ensures var ranked := SortByComments(WithComments(xs));
      && |BestCommented(xs)| <= |ranked|
      && ranked == BestCommented(xs) + ranked[|BestCommented(xs)|..]
  {
  }

  /**
   * The block holds at most four articles (as many as have comments, up to
   * four), all with comments and taken from the input, most comments first.
   */
  lemma BestCommentedRanks(xs: seq<Article>)
    ensures var best := BestCommented(xs);
      && |best| == (if |WithComments(xs)| <= MAX_BEST then |WithComments(xs)| else MAX_BEST)
      && (forall i :: 0 <= i < |best| ==> CommentCount(best[i]) > 0)
      && NonIncreasing(best)
      && multiset(best) <= multiset(xs)
  {
    var filtered := WithComments(xs);
    var ranked := SortByComments(filtered);
    var best := BestCommented(xs);
    WithCommentsKeeps(xs);
    SortByCommentsSorts(filtered);
    BestCommentedIsPrefix(xs);
    PrefixOfRanking(filtered, ranked, best);
  }

  /** A prefix of a sorted permutation of articles that all have comments is sorted, has comments and is drawn from them. */
  lemma PrefixOfRanking(filtered: seq<Article>, ranked: seq<Article>, best: seq<Article>)
    requires multiset(ranked) == multiset(filtered) && NonIncreasing(ranked)
    requires forall a :: a in filtered ==> CommentCount(a) > 0
    requires |best| <= |ranked| && ranked == best + ranked[|best|..]
    ensures forall i :: 0 <= i < |best| ==> CommentCount(best[i]) > 0
    ensures NonIncreasing(best)
    ensures multiset(best) <= multiset(filtered)
  {
    assert multiset(ranked) == multiset(best) + multiset(ranked[|best|..]);
    forall i | 0 <= i < |best| ensures CommentCount(best[i]) > 0 {
      assert best[i] == ranked[i];
      assert best[i] in multiset(filtered);
    }
  }

  /** An article with comments that is left out has no more comments than the last one shown. */
  lemma BestCommentedOmitsOnlyLower(xs: seq<Article>, a: Article)
    requires a in xs && CommentCount(a) > 0 && a !in BestCommented(xs)
    ensures |BestCommented(xs)| == MAX_BEST
    ensures CommentCount(a) <= CommentCount(BestCommented(xs)[MAX_BEST - 1])
  {
    var filtered := WithComments(xs);
    var ranked := SortByComments(filtered);
    var best := BestCommented(xs);
    WithCommentsKeeps(xs);
    SortByCommentsSorts(filtered);
    BestCommentedIsPrefix(xs);
    assert multiset(ranked) == multiset(best) + multiset(ranked[|best|..]);
    assert a in multiset(ranked);
    assert a !in multiset(best);
    assert a in multiset(ranked[|best|..]);
    var j :| |best| <= j < |ranked| && ranked[j] == a;
    assert |best| == MAX_BEST;
    assert best[MAX_BEST - 1] == ranked[MAX_BEST - 1];
  }

  /** Within the block, articles with equal comment counts appear in their input order. */
  lemma BestCommentedKeepsTies(xs: seq<Article>, k: nat)
    ensures var best := BestCommented(xs);
      exists n :: 0 <= n <= |WithCount(WithComments(xs), k)| && WithCount(best, k) == WithCount(WithComments(xs), k)[..n]
  {
    var ranked := SortByComments(WithComments(xs));
    var best := BestCommented(xs);
    SortByCommentsIsStable(WithComments(xs), k);
    BestCommentedIsPrefix(xs);
    assert best == ranked[..|best|];
    WithCountOfPrefix(ranked, |best|, k);
    var n :| 0 <= n <= |WithCount(ranked, k)| && WithCount(ranked[..|best|], k) == WithCount(ranked, k)[..n];
    assert WithCount(best, k) == WithCount(WithComments(xs), k)[..n];
  }

  lemma {:induction false} WithCountOfPrefix(s: seq<Article>, m: nat, k: nat)
    requires m <= |s|
    ensures exists n :: 0 <= n <= |WithCount(s, k)| && WithCount(s[..m], k) == WithCount(s, k)[..n]
  {
    if m == 0 {
      assert WithCount(s[..0], k) == [] == WithCount(s, k)[..0];
    } else {
      WithCountOfPrefix(s[1..], m - 1, k);
      var n :| 0 <= n <= |WithCount(s[1..], k)| && WithCount(s[1..][..m - 1], k) == WithCount(s[1..], k)[..n];
      assert s[..m][1..] == s[1..][..m - 1];
      assert s[..m][0] == s[0];
      var head: seq<Article> := if CommentCount(s[0]) == k then [s[0]] else [];
      assert WithCount(s, k) == head + WithCount(s[1..], k);
      assert WithCount(s[..m], k) == head + WithCount(s[1..], k)[..n];
      assert WithCount(s[..m], k) == WithCount(s, k)[..|head| + n];
    }
  }
}
