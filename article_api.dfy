/**
 * The handlers of src/service/api/article.js. The article and comment services
 * are abstract stores: maps from id to record. The route's validation
 * middlewares are modelled in `Validators`; here each handler starts once they
 * have called `next()`.
 */
module ArticleApi {
  import opened Wrappers
  import opened Json
  import opened Http
  import opened Blog
  import opened Ranking

  /** The rows the two services see. */
  datatype Store = Store(articles: map<Id, Article>, comments: map<Id, Comment>)

  // ---------------------------------------------------------------------------
  // GET /api/articles

  /** Which service call the list route makes. */
  datatype ListCall = FindPage(limit: Value, offset: Value, comments: Value) | FindAll(comments: Value)

  /** `if (limit || offset) findPage(...) else findAll(comments)`, on the query string. */
  function ListArticles(query: Object): (call: ListCall)
    ensures call.FindPage? <==> Truthy(Get(query, "limit")) || Truthy(Get(query, "offset"))
    ensures call.comments == Get(query, "comments")
    ensures call.FindPage? ==> call.limit == Get(query, "limit") && call.offset == Get(query, "offset")
  {
    var limit := Get(query, "limit");
    var offset := Get(query, "offset");
    if Truthy(limit) || Truthy(offset) then FindPage(limit, offset, Get(query, "comments"))
    else FindAll(Get(query, "comments"))
  }

  /** An empty `?limit=&offset=` counts as absent: the whole list is returned. */
  lemma EmptyPagingListsAll(query: Object)
    requires Get(query, "limit") in {Undefined, Str("")} && Get(query, "offset") in {Undefined, Str("")}
    ensures ListArticles(query).FindAll?
  {
  }

  // ---------------------------------------------------------------------------
  // GET /api/articles/:articleId

  function NotFoundArticle<T>(articleId: Id): Response<T>
  {
    Response(NOT_FOUND, Text("Not found article with id " + articleId))
  }

  function FindOne(store: Store, articleId: Id): Option<Article>
  {
    if articleId in store.articles then Some(store.articles[articleId]) else None
  }

  /** `GET /:articleId`: the article with status 200, or 404 with the id in the text. */
  function GetArticle(store: Store, articleId: Id): (r: Response<Article>)
    ensures r.status == OK <==> articleId in store.articles
    ensures articleId in store.articles ==> r.body == Json(store.articles[articleId])
    ensures articleId !in store.articles ==> r == NotFoundArticle(articleId)
  {
    match FindOne(store, articleId)
    case None => NotFoundArticle(articleId)
    case Some(article) => Response(OK, Json(article))
  }

  // ---------------------------------------------------------------------------
  // POST /api/articles, PUT /api/articles/:articleId

  /** `POST /`: what `create` returns, with status 201. */
  function CreateArticle<A>(created: A): (r: Response<A>)
    ensures r.status == CREATED && r.body == Json(created)
  {
    Response(CREATED, Json(created))
  }

  /** `PUT /:articleId`: `updated` is what `articleService.update` reports. */
  function UpdateArticle<T>(articleId: Id, updated: bool): (r: Response<T>)
    ensures r.status == OK <==> updated
    ensures updated ==> r.body == Text("Article successfully updated")
    ensures !updated ==> r == NotFoundArticle(articleId)
  {
    if !updated then NotFoundArticle(articleId) else Response(OK, Text("Article successfully updated"))
  }

  // ---------------------------------------------------------------------------
  // DELETE /api/articles/:articleId

  function CommentIds(cs: seq<Comment>): (ids: seq<Id>)
    ensures |ids| == |cs| && forall k :: 0 <= k < |cs| ==> ids[k] == cs[k].id
  {
    if cs == [] then [] else [cs[0].id] + CommentIds(cs[1..])
  }

  /**
   * `commentService.delete` for each id in turn: the result of each delete (was
   * there such a row), and the store afterwards.
   */
  function DeleteComments(comments: map<Id, Comment>, ids: seq<Id>): (r: (seq<bool>, map<Id, Comment>))
    ensures |r.0| == |ids|
    ensures r.1.Keys == comments.Keys - (set k | 0 <= k < |ids| :: ids[k])
    ensures r.1 == comments - (set k | 0 <= k < |ids| :: ids[k])
    ensures forall k :: 0 <= k < |ids| ==> (r.0[k] <==> ids[k] in comments && ids[k] !in ids[..k])
    decreases |ids|
  {
    if ids == [] then ([], comments)
    else
      var rest := DeleteComments(comments - {ids[0]}, ids[1..]);
      assert forall k :: 1 <= k < |ids| ==> ids[1..][..k - 1] == ids[1..k];
      assert (set k | 0 <= k < |ids| :: ids[k]) == {ids[0]} + (set k | 0 <= k < |ids[1..]| :: ids[1..][k]);
      ([ids[0] in comments] + rest.0, rest.1)
  }

  /** Each id of `ids` names a row of `comments`, and no id is listed twice. */
  ghost predicate PresentOnce(comments: map<Id, Comment>, ids: seq<Id>)
  {
    && (forall k :: 0 <= k < |ids| ==> ids[k] in comments)
    && (forall i, j :: 0 <= i < j < |ids| ==> ids[i] != ids[j])
  }

  /** `deletedComments.every((item) => item)`. */
  predicate Every(results: seq<bool>)
  {
    forall k :: 0 <= k < |results| ==> results[k]
  }

  /** Every delete succeeds exactly when the ids are distinct and all present. */
  lemma AllCommentsDeleted(comments: map<Id, Comment>, ids: seq<Id>)
    ensures Every(DeleteComments(comments, ids).0) <==> PresentOnce(comments, ids)
  {
    if Every(DeleteComments(comments, ids).0) {
      SucceededMeansDistinct(comments, ids);
    }
    if PresentOnce(comments, ids) {
      DistinctMeansSucceeded(comments, ids);
    }
  }

  lemma SucceededMeansDistinct(comments: map<Id, Comment>, ids: seq<Id>)
    requires Every(DeleteComments(comments, ids).0)
    ensures PresentOnce(comments, ids)
  {
    var results := DeleteComments(comments, ids).0;
    forall i, j | 0 <= i < j < |ids| ensures ids[i] != ids[j] {
      assert results[j];
      assert ids[i] in ids[..j];
    }
    forall k | 0 <= k < |ids| ensures ids[k] in comments {
      assert results[k];
    }
  }

  lemma DistinctMeansSucceeded(comments: map<Id, Comment>, ids: seq<Id>)
    requires PresentOnce(comments, ids)
    ensures Every(DeleteComments(comments, ids).0)
  {
    var results := DeleteComments(comments, ids).0;
    forall k | 0 <= k < |ids| ensures results[k] {
      assert ids[k] !in ids[..k];
    }
  }

  /**
   * `DELETE /:articleId`: reads the article with its comments, deletes the
   * article, then deletes each of its comments, and only then checks the
   * results. `None` is the `TypeError` of reading `comments` of a missing article.
   */
  function DeleteArticle(store: Store, articleId: Id): (r: Option<(Response<()>, Store)>)
    ensures r.None? <==> articleId !in store.articles
  {
    match FindOne(store, articleId)
    case None => None
    case Some(article) =>
      var ids := CommentIds(article.comments);
      var deletedArticle := articleId in store.articles;
      var (results, comments') := DeleteComments(store.comments, ids);
      var store' := Store(store.articles - {articleId}, comments');
      if !deletedArticle then Some((NotFoundArticle(articleId), store'))
      else if !Every(results) then
        Some((Response(NOT_FOUND, Text("Some comments not found")), store'))
      else Some((Response(OK, Text("Article and comments successfully deleted")), store'))
  }

  /**
   * The article and its comments are gone afterwards whatever the answer, and
   * every other comment is kept as it was; the answer is 200 exactly when
   * every comment of the article was still there (and listed once), and
   * "Some comments not found" otherwise.
   */
  lemma DeleteArticleCascade(store: Store, articleId: Id)
    requires articleId in store.articles
    ensures var ids := CommentIds(store.articles[articleId].comments);
      var (response, store') := DeleteArticle(store, articleId).value;
      && store'.articles == store.articles - {articleId}
      && store'.comments.Keys == store.comments.Keys - (set k | 0 <= k < |ids| :: ids[k])
      && store'.comments == store.comments - (set k | 0 <= k < |ids| :: ids[k])
      && (response.status == OK <==> PresentOnce(store.comments, ids))
      && (response.status != OK ==> response == Response(NOT_FOUND, Text("Some comments not found")))
  {
    AllCommentsDeleted(store.comments, CommentIds(store.articles[articleId].comments));
  }

  // ---------------------------------------------------------------------------
  // comments

  /**
   * `GET /:articleId/comments`, once the article is known to exist: what
   * `commentService.findAll(articleId)` lists, always a 200. `findAll` stands
   * for the comment service.
   */
  function ListComments<C>(articleId: Id, findAll: Id -> C): (r: Response<C>)
    ensures r.status == OK && r.body == Json(findAll(articleId))
  {
    Response(OK, Json(findAll(articleId)))
  }

  /** `DELETE /:articleId/comments/:commentId`: 404 exactly when there is no such comment. */
  function DeleteComment(store: Store, commentId: Id): (r: (Response<()>, Store))
    ensures r.0.status == NOT_FOUND <==> commentId !in store.comments
    ensures r.0.status == NOT_FOUND ==> r.0.body == Text("Not found comment with id " + commentId) && r.1 == store
    ensures r.0.status != NOT_FOUND ==> r.0 == Response(OK, Text("Comment successfully deleted"))
    ensures r.1.comments == store.comments - {commentId} && r.1.articles == store.articles
  {
    var deleted := commentId in store.comments;
    var store' := Store(store.articles, store.comments - {commentId});
    if !deleted then (Response(NOT_FOUND, Text("Not found comment with id " + commentId)), store')
    else (Response(OK, Text("Comment successfully deleted")), store')
  }

  /** A socket.io event: its name and arguments. */
  datatype Event = CommentCreate(comment: Comment, bestCommented: seq<Article>)

  /** The answer of `POST /:articleId/comments` and the event sent to every socket client, if any. */
  datatype Created = Created(response: Response<Comment>, emitted: Option<Event>)

  /**
   * `POST /:articleId/comments`: `created` is what `commentService.create`
   * returned and `allArticles` what `findAll(true)` returned afterwards;
   * `hasSocket` says whether the app has a socket server.
   */
  function CreateComment(created: Comment, allArticles: seq<Article>, hasSocket: bool): (r: Created)
    ensures r.response == Response(CREATED, Json(created))
    ensures r.emitted.Some? <==> hasSocket
  {
    var best := BestCommented(allArticles);
    Created(Response(CREATED, Json(created)), if hasSocket then Some(CommentCreate(created, best)) else None)
  }

  /**
   * The event carries the new comment and at most four articles, all with
   * comments, most comments first; an article left out has no more comments
   * than the last one sent.
   */
  lemma CreateCommentBroadcastsRanking(created: Comment, allArticles: seq<Article>)
    ensures var e := CreateComment(created, allArticles, true).emitted.value;
      && e.comment == created
      && |e.bestCommented| <= MAX_BEST
      && (forall i :: 0 <= i < |e.bestCommented| ==> CommentCount(e.bestCommented[i]) > 0)
      && NonIncreasing(e.bestCommented)
      && multiset(e.bestCommented) <= multiset(allArticles)
      && (forall a :: a in allArticles && CommentCount(a) > 0 && a !in e.bestCommented ==>
            |e.bestCommented| == MAX_BEST && CommentCount(a) <= CommentCount(e.bestCommented[MAX_BEST - 1]))
  {
    BestCommentedRanks(allArticles);
    forall a | a in allArticles && CommentCount(a) > 0 && a !in BestCommented(allArticles)
      ensures |BestCommented(allArticles)| == MAX_BEST
      ensures CommentCount(a) <= CommentCount(BestCommented(allArticles)[MAX_BEST - 1])
    {
      BestCommentedOmitsOnlyLower(allArticles, a);
    }
  }
}
