/**
 * src/service/cli/fill.js, second half: the rows `run` writes for each table,
 * from the generated articles, their comments and the article-category pairs.
 */
module FillSql {
  import opened Wrappers
  import opened Text
  import opened Seed
  import opened FillData
  import opened Fill
  import opened SqlValues

  // ---------------------------------------------------------------------------
  // Rows

  /** A number as a template literal writes it, a bare token that reads back as that number. */
  function Number(n: int): (f: Field)
    ensures f.Bare? && Token(f.text) && '\n' !in f.text
    ensures DecimalInteger(f.text) == Some(n)
  {
    DecimalIntegerOfIntToString(n);
    IntToStringChars(n);
    Bare(IntToString(n))
  }

  /** A bare field holding a number from `lo` to `hi`. */
  predicate NumberIn(f: Field, lo: int, hi: int)
  {
    f.Bare? && DecimalInteger(f.text).Some? && lo <= DecimalInteger(f.text).value <= hi
  }

  /** `'${email}', '${passwordHash}', '${firstName}', '${lastName}', '${avatar}'`. */
  function UserRow(u: User): (fields: seq<Field>)
    ensures |fields| == 5 && forall k :: 0 <= k < 5 ==> fields[k].Quoted?
  {
    [Quoted(u.email), Quoted(u.passwordHash), Quoted(u.firstName), Quoted(u.lastName), Quoted(u.avatar)]
  }

  /** `'${name}'`. */
  function CategoryRow(name: string): (fields: seq<Field>)
    ensures fields == [Quoted(name)]
  {
    [Quoted(name)]
  }

  /** A template literal renders an `undefined` title as the word itself. */
  function TitleText(title: Option<string>): (s: string)
    ensures title.Some? ==> s == title.value
    ensures title.None? ==> s == "undefined"
  {
    match title
    case Some(t) => t
    case None => "undefined"
  }

  /** `'${title}', '${announce}', '${fullText}', ${userId}`: the categories and comments go to their own tables. */
  function ArticleRow(a: FillArticle): (fields: seq<Field>)
    ensures |fields| == 4 && fields[3] == Number(a.userId)
    ensures fields[..3] == [Quoted(TitleText(a.title)), Quoted(a.announce), Quoted(a.fullText)]
  {
    [Quoted(TitleText(a.title)), Quoted(a.announce), Quoted(a.fullText), Number(a.userId)]
  }

  /** `${articleId}, ${categoryId}`. */
  function PairRow(p: Pair): (fields: seq<Field>)
    ensures fields == [Number(p.articleId), Number(p.categoryId)]
  {
    [Number(p.articleId), Number(p.categoryId)]
  }

  /** `'${text}', ${userId}, ${articleId}`. */
  function CommentRow(c: FillComment): (fields: seq<Field>)
    ensures fields == [Quoted(c.text), Number(c.userId), Number(c.articleId)]
  {
    [Quoted(c.text), Number(c.userId), Number(c.articleId)]
  }

  function UserRows(users: seq<User>): (rows: seq<seq<Field>>)
    ensures |rows| == |users| && forall k :: 0 <= k < |users| ==> rows[k] == UserRow(users[k])
  {
    seq(|users|, k requires 0 <= k < |users| => UserRow(users[k]))
  }

  function CategoryRows(categories: seq<string>): (rows: seq<seq<Field>>)
    ensures |rows| == |categories| && forall k :: 0 <= k < |categories| ==> rows[k] == CategoryRow(categories[k])
  {
    seq(|categories|, k requires 0 <= k < |categories| => CategoryRow(categories[k]))
  }

  function ArticleRows(articles: seq<FillArticle>): (rows: seq<seq<Field>>)
    ensures |rows| == |articles| && forall k :: 0 <= k < |articles| ==> rows[k] == ArticleRow(articles[k])
  {
    seq(|articles|, k requires 0 <= k < |articles| => ArticleRow(articles[k]))
  }

  function PairRows(pairs: seq<Pair>): (rows: seq<seq<Field>>)
    ensures |rows| == |pairs| && forall k :: 0 <= k < |pairs| ==> rows[k] == PairRow(pairs[k])
  {
    seq(|pairs|, k requires 0 <= k < |pairs| => PairRow(pairs[k]))
  }

  function CommentRows(comments: seq<FillComment>): (rows: seq<seq<Field>>)
    ensures |rows| == |comments| && forall k :: 0 <= k < |comments| ==> rows[k] == CommentRow(comments[k])
  {
    seq(|comments|, k requires 0 <= k < |comments| => CommentRow(comments[k]))
  }

  /** The five lists `run` writes: users, categories, articles, article-category pairs, comments. */
  datatype Sql = Sql(users: seq<seq<Field>>, categories: seq<seq<Field>>, articles: seq<seq<Field>>,
                     articlesCategories: seq<seq<Field>>, comments: seq<seq<Field>>)

  /**
   * `run([count])` up to the text of the file, from call 0: a negative count,
   * or one of 2^32 or more, makes `Array(count)` throw; otherwise one row per user, per category line,
   * per article (`count` of them), per article-category pair and per comment
   * (two to four for each article, each naming its author and its article).
   */
  function Run(arg: Option<string>, sentences: seq<string>, titles: seq<string>, categories: seq<string>,
               commentSentences: seq<string>, rng: Random.Rng): (r: Launch<Sql>)
    ensures !r.Refused?
    ensures r.Crashes? <==> !ArrayLength(CountArg(arg))
    ensures r.Done? ==> |r.result.users| == |USERS| && |r.result.categories| == |categories|
    ensures r.Done? ==> |r.result.articles| == CountArg(arg)
    ensures r.Done? ==> 2 * CountArg(arg) <= |r.result.comments| <= MAX_COMMENTS * CountArg(arg)
    ensures r.Done? ==> forall k :: 0 <= k < |r.result.comments| ==>
      CommentFieldsOk(r.result.comments[k], CountArg(arg), |USERS|)
    ensures r.Done? ==> forall k :: 0 <= k < |r.result.articlesCategories| ==>
      PairFieldsOk(r.result.articlesCategories[k], CountArg(arg), |categories|)
  {
    var count := CountArg(arg);
    if !ArrayLength(count) then Crashes
    else
      var articles := GenerateArticles(0, count, Seed.Pools(sentences, commentSentences), titles, categories,
                                       |USERS|, rng, 0).articles;
      var comments := AllComments(articles);
      var pairs := PairsOf(articles, categories);
      CommentsCounted(articles, 0, multiset(sentences), multiset(commentSentences), titles, categories, |USERS|);
      CommentRowsOk(comments, count, |USERS|);
      PairRowsOk(articles, categories);
      Done(Sql(UserRows(USERS), CategoryRows(categories), ArticleRows(articles), PairRows(pairs), CommentRows(comments)))
  }

  /** A comment row names a user and one of the `count` articles. */
  predicate CommentFieldsOk(fields: seq<Field>, count: int, userCount: int)
  {
    |fields| == 3 && fields[0].Quoted? && NumberIn(fields[1], 1, userCount) && NumberIn(fields[2], 1, count)
  }

  /**
   * A pair row names one of the `count` articles and a category position,
   * one past the list's `indexOf` (0 for a category not in the list).
   */
  predicate PairFieldsOk(fields: seq<Field>, count: int, categoryCount: int)
  {
    |fields| == 2 && NumberIn(fields[0], 1, count) && NumberIn(fields[1], 0, categoryCount)
  }

  /**
   * Well-formed articles from position `index` carry two to four comments each,
   * every one by a user and of one of them.
   */
  lemma {:induction false} CommentsCounted(articles: seq<FillArticle>, index: nat, sentences: multiset<string>,
                                           comments: multiset<string>, titles: seq<string>, categories: seq<string>,
                                           userCount: nat)
    requires ArticlesOk(articles, index, sentences, comments, titles, categories, userCount)
    ensures 2 * |articles| <= |AllComments(articles)| <= MAX_COMMENTS * |articles|
    ensures forall k :: 0 <= k < |AllComments(articles)| ==>
      1 <= AllComments(articles)[k].userId <= userCount
      && index + 1 <= AllComments(articles)[k].articleId <= index + |articles|
  {
    if articles != [] {
      var rest := articles[1..];
      forall i | 0 <= i < |rest|
        ensures ArticleOk(rest[i], index + 1 + i, sentences, comments, titles, categories, userCount)
      {
        assert rest[i] == articles[i + 1];
      }
      CommentsCounted(rest, index + 1, sentences, comments, titles, categories, userCount);
      var first := articles[0].comments;
      assert ArticleOk(articles[0], index, sentences, comments, titles, categories, userCount);
      assert CommentsOk(first, index + 1, userCount, comments);
      var all := AllComments(articles);
      assert all == first + AllComments(rest);
      forall k | 0 <= k < |all|
        ensures 1 <= all[k].userId <= userCount && index + 1 <= all[k].articleId <= index + |articles|
      {
        if k < |first| {
          assert all[k] == first[k];
          assert CommentOk(first[k], index + 1, userCount, comments);
        } else {
          assert all[k] == AllComments(rest)[k - |first|];
        }
      }
    }
  }

  lemma CommentRowsOk(comments: seq<FillComment>, count: int, userCount: int)
    requires forall k :: 0 <= k < |comments| ==>
      1 <= comments[k].userId <= userCount && 1 <= comments[k].articleId <= count
    ensures forall k :: 0 <= k < |CommentRows(comments)| ==> CommentFieldsOk(CommentRows(comments)[k], count, userCount)
  {
  }

  /** Every pair row names one of the articles and a position found by `indexOf` plus one. */
  lemma PairRowsOk(articles: seq<FillArticle>, categories: seq<string>)
    ensures forall k :: 0 <= k < |PairRows(PairsOf(articles, categories))| ==>
      PairFieldsOk(PairRows(PairsOf(articles, categories))[k], |articles|, |categories|)
  {
    var pairs := PairsOf(articles, categories);
    forall k | 0 <= k < |pairs| ensures PairFieldsOk(PairRows(pairs)[k], |articles|, |categories|) {
      PairsOfMembers(articles, categories, pairs[k]);
      var i, c :| 0 <= i < |articles| && c in articles[i].category && pairs[k] == Pair(i + 1, IndexOf(categories, c) + 1);
    }
  }

  // ---------------------------------------------------------------------------
  // Reading the lists back

  /** The article-category list always reads back: it holds numbers only. */
  lemma PairValuesReadBack(pairs: seq<Pair>)
    requires pairs != []
    ensures ReadValues(ValuesText(PairRows(pairs))) == Some(PairRows(pairs))
  {
    var rows := PairRows(pairs);
    forall k | 0 <= k < |rows| ensures rows[k] != [] && Plain(rows[k]) && TextsAvoid(rows[k], '\n') {
      assert rows[k] == [Number(pairs[k].articleId), Number(pairs[k].categoryId)];
    }
    ReadValuesOfValuesText(rows);
  }

  /** The comment list reads back when no comment text holds a single quote or a line break. */
  lemma CommentValuesReadBack(comments: seq<FillComment>)
    requires comments != []
    requires forall k :: 0 <= k < |comments| ==> '\'' !in comments[k].text && '\n' !in comments[k].text
    ensures ReadValues(ValuesText(CommentRows(comments))) == Some(CommentRows(comments))
  {
    var rows := CommentRows(comments);
    forall k | 0 <= k < |rows| ensures rows[k] != [] && Plain(rows[k]) && TextsAvoid(rows[k], '\n') {
      var c := comments[k];
      assert rows[k] == [Quoted(c.text), Number(c.userId), Number(c.articleId)];
    }
    ReadValuesOfValuesText(rows);
  }

  /** The article list reads back when no title, announce or full text holds a single quote or a line break. */
  lemma ArticleValuesReadBack(articles: seq<FillArticle>)
    requires articles != []
    requires forall k :: 0 <= k < |articles| ==>
      var a := articles[k];
      '\'' !in TitleText(a.title) && '\n' !in TitleText(a.title) && '\'' !in a.announce && '\n' !in a.announce
      && '\'' !in a.fullText && '\n' !in a.fullText
    ensures ReadValues(ValuesText(ArticleRows(articles))) == Some(ArticleRows(articles))
  {
    var rows := ArticleRows(articles);
    forall k | 0 <= k < |rows| ensures rows[k] != [] && Plain(rows[k]) && TextsAvoid(rows[k], '\n') {
      var a := articles[k];
      assert rows[k] == [Quoted(TitleText(a.title)), Quoted(a.announce), Quoted(a.fullText), Number(a.userId)];
    }
    ReadValuesOfValuesText(rows);
  }

  /** The category list reads back when no name holds a single quote or a line break. */
  lemma CategoryValuesReadBack(categories: seq<string>)
    requires categories != []
    requires forall k :: 0 <= k < |categories| ==> '\'' !in categories[k] && '\n' !in categories[k]
    ensures ReadValues(ValuesText(CategoryRows(categories))) == Some(CategoryRows(categories))
  {
    var rows := CategoryRows(categories);
    forall k | 0 <= k < |rows| ensures rows[k] != [] && Plain(rows[k]) && TextsAvoid(rows[k], '\n') {
      assert rows[k] == [Quoted(categories[k])];
    }
    ReadValuesOfValuesText(rows);
  }
}
