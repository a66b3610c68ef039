/**
 * What src/service/cli/fill.js generates (the users, the articles and their
 * comments) and the rules every generated article and comment satisfies.
 */
module FillData {
  import opened Wrappers
  import opened Text
  import opened Random

  /** MAX_COMMENTS of constants.js: the most comments an article gets. */
  const MAX_COMMENTS := 4

  /** A row of the users table. */
  datatype User = User(email: string, passwordHash: string, firstName: string, lastName: string, avatar: string)

  /** The two fixed users. */
  const USERS: seq<User> := [
    User("ivanov@example.com", "5f4dcc3b5aa765d61d8327deb882cf99", "Иван", "Иванов", "avatar1.jpg"),
    User("petrov@example.com", "5f4dcc3b5aa765d61d8327deb882cf99", "Пётр", "Петров", "avatar2.jpg")
  ]

  /** A generated comment: its author, its article (numbered from 1) and its text. */
  datatype FillComment = FillComment(userId: int, articleId: int, text: string)

  /** A generated article. `None` is an `undefined` title. */
  datatype FillArticle = FillArticle(title: Option<string>, announce: string, fullText: string,
                                     category: seq<string>, comments: seq<FillComment>, userId: int)

  /**
   * `text` is one to three sentences of the pool joined by spaces; only an
   * empty pool gives the empty join of no sentence.
   */
  ghost predicate CommentTextOf(text: string, sentences: multiset<string>)
  {
    exists parts :: && |parts| <= 3
                    && (sentences != multiset{} ==> 1 <= |parts|)
                    && (forall p :: p in parts ==> p in sentences)
                    && text == Join(parts, " ")
  }

  /** With a pool of non-empty sentences, a comment text is empty exactly when the pool is. */
  lemma CommentTextEmpty(text: string, sentences: multiset<string>)
    requires CommentTextOf(text, sentences)
    requires "" !in sentences
    ensures text == "" <==> sentences == multiset{}
  {
    var parts :| && |parts| <= 3
                 && (sentences != multiset{} ==> 1 <= |parts|)
                 && (forall p :: p in parts ==> p in sentences)
                 && text == Join(parts, " ");
    if parts != [] {
      assert parts[0] in sentences && parts[0] <= text;
    }
  }

  /** A comment of article `articleId` by one of the users, made of one to three comment sentences. */
  ghost predicate CommentOk(c: FillComment, articleId: int, userCount: nat, sentences: multiset<string>)
  {
    c.articleId == articleId && 1 <= c.userId <= userCount && CommentTextOf(c.text, sentences)
  }

  ghost predicate CommentsOk(items: seq<FillComment>, articleId: int, userCount: nat, sentences: multiset<string>)
  {
    forall i :: 0 <= i < |items| ==> CommentOk(items[i], articleId, userCount, sentences)
  }

  lemma ConsCommentOk(c: FillComment, rest: seq<FillComment>, articleId: int, userCount: nat,
                      sentences: multiset<string>)
    requires userCount >= 1 ==> CommentOk(c, articleId, userCount, sentences)
    requires userCount >= 1 ==> CommentsOk(rest, articleId, userCount, sentences)
    ensures userCount >= 1 ==> CommentsOk([c] + rest, articleId, userCount, sentences)
  {
    if userCount >= 1 {
      var items := [c] + rest;
      forall i | 0 <= i < |items| ensures CommentOk(items[i], articleId, userCount, sentences) {
        if i > 0 {
          assert items[i] == rest[i - 1];
        }
      }
    }
  }

  /**
   * The article at position `index`: a title of the list, an announce of at
   * most four sentences, at most three neighbouring categories stopping before
   * the last, two to four comments of its own, and an author among the users.
   */
  ghost predicate ArticleOk(a: FillArticle, index: nat, sentences: multiset<string>, comments: multiset<string>,
                            titles: seq<string>, categories: seq<string>, userCount: nat)
  {
    && (titles != [] ==> a.title.Some? && a.title.value in titles)
    && SentencesOf(a.announce, 4, sentences)
    && |a.category| <= 3
    && (categories == [] ==> a.category == [])
    && (categories != [] ==> exists lo :: RunBeforeLast(a.category, categories, lo))
    && 2 <= |a.comments| <= MAX_COMMENTS
    && CommentsOk(a.comments, index + 1, userCount, comments)
    && 1 <= a.userId <= userCount
  }

  /** The articles from position `index` on, each well formed for its own position. */
  ghost predicate ArticlesOk(articles: seq<FillArticle>, index: nat, sentences: multiset<string>,
                             comments: multiset<string>, titles: seq<string>, categories: seq<string>, userCount: nat)
  {
    forall i :: 0 <= i < |articles| ==> ArticleOk(articles[i], index + i, sentences, comments, titles, categories, userCount)
  }

  /** An article assembled from good parts is a good article. */
  lemma AssembledArticleOk(title: Option<string>, announce: seq<string>, fullText: string, category: seq<string>,
                           comments: seq<FillComment>, userId: int, index: nat, sentences: multiset<string>,
                           commentPool: multiset<string>, titles: seq<string>, categories: seq<string>,
                           userCount: nat)
    requires titles != [] ==> title.Some? && title.value in titles
    requires SentencesOf(Join(announce, " "), 4, sentences)
    requires |category| <= 3
    requires categories == [] ==> category == []
    requires categories != [] ==> exists lo :: RunBeforeLast(category, categories, lo)
    requires 2 <= |comments| <= MAX_COMMENTS
    requires userCount >= 1 ==> CommentsOk(comments, index + 1, userCount, commentPool)
    requires userCount >= 1 ==> 1 <= userId <= userCount
    ensures userCount >= 1 ==>
      ArticleOk(FillArticle(title, Join(announce, " "), fullText, category, comments, userId), index, sentences,
                commentPool, titles, categories, userCount)
  {
  }

  lemma ConsArticleOk(a: FillArticle, rest: seq<FillArticle>, index: nat, sentences: multiset<string>,
                      comments: multiset<string>, titles: seq<string>, categories: seq<string>, userCount: nat)
    requires ArticleOk(a, index, sentences, comments, titles, categories, userCount)
    requires ArticlesOk(rest, index + 1, sentences, comments, titles, categories, userCount)
    ensures ArticlesOk([a] + rest, index, sentences, comments, titles, categories, userCount)
  {
    var articles := [a] + rest;
    forall i | 0 <= i < |articles|
      ensures ArticleOk(articles[i], index + i, sentences, comments, titles, categories, userCount)
    {
      if i > 0 {
        assert articles[i] == rest[i - 1];
      }
    }
  }
}
