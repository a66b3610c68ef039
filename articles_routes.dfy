/**
 * The form handlers of src/express/routes/articles-routes.js: the payloads they
 * build from the submitted form, the in-place merge on edit, and the page they
 * answer with. The back-end API is not called: whether it refused the payload
 * (and the messages prepared from its refusal) is a parameter, and so is what
 * the page re-reads from the API afterwards.
 */
module ArticlesRoutes {
  import opened Wrappers
  import opened Json
  import opened Http
  import opened Blog
  import opened MainRoutes
  import opened Schemas

  /** `Array.isArray(v) ? v : [v]`. */
  function AsArray(v: Value): (a: Value)
    ensures a.Arr?
    ensures v.Arr? ==> a == v
    ensures !v.Arr? ==> a.items == [v]
  {
    if v.Arr? then v else Arr([v])
  }

  /** The four fields both article forms send, `announcement` renamed to `announce`. */
  function FormFields(body: Object): (fields: Object)
    ensures fields.Keys == {"title", "announce", "fullText", "categories"}
    ensures fields["title"] == Get(body, "title") && fields["fullText"] == Get(body, "fullText")
    ensures fields["announce"] == Get(body, "announcement")
    ensures fields["categories"].Arr?
    ensures IsArray(Get(body, "categories")) ==> fields["categories"] == Get(body, "categories")
  {
    map["title" := Get(body, "title"), "announce" := Get(body, "announcement"),
        "fullText" := Get(body, "fullText"), "categories" := AsArray(Get(body, "categories"))]
  }

  // ---------------------------------------------------------------------------
  // POST /articles/add

  /** `articleData`: the form fields, and `photo` only when a file was uploaded. */
  function AddPayload(body: Object, file: Option<StoredFile>): (articleData: Object)
    ensures file.None? ==> articleData == FormFields(body)
    ensures file.Some? ==> articleData.Keys == FormFields(body).Keys + {"photo"}
    ensures file.Some? ==> articleData["photo"] == Str(file.value.filename)
    ensures forall k :: k in FormFields(body) ==> articleData[k] == FormFields(body)[k]
  {
    match file
    case None => FormFields(body)
    case Some(f) => FormFields(body)["photo" := Str(f.filename)]
  }

  datatype NewPostView<C> = NewPostView(categories: C, validationMessages: seq<string>)

  /**
   * `POST /add`: on success a redirect to `/my`; when the API refused the
   * payload, `new-post` again with the messages and the categories read anew.
   */
  function AddArticle<C>(failure: Option<seq<string>>, categories: C): (page: Page<NewPostView<C>>)
    ensures failure.None? <==> page == Redirect("/my")
    ensures failure.Some? ==> page == Render("new-post", NewPostView(categories, failure.value))
  {
    match failure
    case None => Redirect("/my")
    case Some(messages) => Render("new-post", NewPostView(categories, messages))
  }

  /**
   * A form with no category ticked: the payload holds `[undefined]`, which the
   * JSON body carries as `[null]`, and the API answers with the message of the
   * category rule.
   */
  lemma NoCategoryTicked(body: Object, file: Option<StoredFile>, keys: seq<string>)
    requires Get(body, "categories") == Undefined
    ensures var sent := ObjectOnWire(AddPayload(body, file));
      && Get(sent, "categories") == Arr([Null])
      && CATEGORIES in Messages(ArticleDetails(sent, keys))
  {
    var sent := ObjectOnWire(AddPayload(body, file));
    assert AddPayload(body, file)["categories"] == Arr([Undefined]);
    assert Get(sent, "categories") == OnWire(Arr([Undefined]));
    assert OnWire(Arr([Undefined])).items == [OnWire(Undefined)];
    assert Get(sent, "categories").items[0] == Null;
    ArticleCategoriesMessage(sent, keys);
  }

  // ---------------------------------------------------------------------------
  // POST /articles/edit/:id

  /** `Object.assign(target, source)` on plain objects: the source's properties win. */
  function Merge(target: Object, source: Object): (merged: Object)
    ensures merged.Keys == target.Keys + source.Keys
    ensures forall k :: k in source ==> merged[k] == source[k]
    ensures forall k :: k in target && k !in source ==> merged[k] == target[k]
  {
    target + source
  }

  /** The article object the edit handler read from the API, which `Object.assign` changes in place. */
  class Record {
    var props: Object

    constructor(props: Object)
      ensures this.props == props
    {
      this.props := props;
    }

    /** `Object.assign(this, source)`: copies the source's properties over and returns this same object. */
    method Assign(source: Object) returns (target: Record)
      modifies this
      ensures target == this
      ensures props == Merge(old(props), source)
    {
      props := props + source;
      target := this;
    }
  }

  /** `updateArticle` as written: the upload is filed under `picture`. */
  function EditUpdateAsWritten(body: Object, file: Option<StoredFile>): (update: Object)
    ensures "photo" !in update
    ensures "picture" in update <==> file.Some?
    ensures file.Some? ==> update["picture"] == Str(file.value.filename)
  {
    match file
    case None => FormFields(body)
    case Some(f) => FormFields(body)["picture" := Str(f.filename)]
  }

  /**
   * With a new upload, the merged article keeps its old `photo` and carries the
   * new file under `picture`, a key the article schema does not know.
   */
  lemma EditUploadMisfiled(current: Object, body: Object, f: StoredFile)
    ensures var merged := Merge(current, EditUpdateAsWritten(body, Some(f)));
      && Get(merged, "photo") == Get(current, "photo")
      && merged["picture"] == Str(f.filename)
      && "picture" !in ARTICLE_KEYS
  {
  }

  /** `updateArticle` with the upload filed under `photo`, the field of the article model and schema. */
  function EditUpdate(body: Object, file: Option<StoredFile>): (update: Object)
    ensures "picture" !in update
    ensures "photo" in update <==> file.Some?
    ensures file.Some? ==> update["photo"] == Str(file.value.filename)
  {
    AddPayload(body, file)
  }

  /** The fields an edit overwrites. */
  function EditedKeys(file: Option<StoredFile>): set<string>
  {
    {"title", "announce", "fullText", "categories"} + (if file.Some? then {"photo"} else {})
  }

  /**
   * The merge overwrites exactly the form's fields (and `photo` when a file was
   * uploaded) and keeps every other property of the current article.
   */
  lemma EditMerge(current: Object, body: Object, file: Option<StoredFile>)
    ensures var merged := Merge(current, EditUpdate(body, file));
      && merged.Keys == current.Keys + EditedKeys(file)
      && (forall k :: k in current && k !in EditedKeys(file) ==> merged[k] == current[k])
      && merged["title"] == Get(body, "title") && merged["announce"] == Get(body, "announcement")
      && merged["fullText"] == Get(body, "fullText") && merged["categories"] == AsArray(Get(body, "categories"))
      && (file.Some? ==> merged["photo"] == Str(file.value.filename))
      && (file.None? ==> Get(merged, "photo") == Get(current, "photo"))
  {
  }

  /**
   * The merge keeps the fetched article's own properties, so even with the
   * upload under `photo` a record holding a defined property the article
   * schema does not list (an `id`, say) is refused by the API.
   */
  lemma EditedRecordRefused(current: Object, body: Object, file: Option<StoredFile>, keys: seq<string>, k: string)
    requires k in current && current[k] != Undefined && k !in ARTICLE_KEYS
    requires KeysOf(ObjectOnWire(Merge(current, EditUpdate(body, file))), keys)
    ensures ArticleDetails(ObjectOnWire(Merge(current, EditUpdate(body, file))), keys) != []
  {
    var merged := Merge(current, EditUpdate(body, file));
    EditMerge(current, body, file);
    assert k !in EditedKeys(file);
    assert k in ObjectOnWire(merged);
    ArticleValidIff(ObjectOnWire(merged), keys);
  }

  datatype EditView<A, C> = EditView(article: A, categories: C, validationMessages: seq<string>)

  /**
   * `POST /edit/:id` with the upload filed under `photo` (the handler as
   * written files it under `picture`, see `EditUpdateAsWritten`): merges the
   * form into `current` in place and sends it; `failure` says whether the API
   * refused it, `article` and `categories` are what the page re-reads after a
   * refusal.
   */
  method EditArticle<A, C>(current: Record, body: Object, file: Option<StoredFile>,
                           failure: Option<seq<string>>, article: A, categories: C)
    returns (sent: Object, page: Page<EditView<A, C>>)
    modifies current
    ensures current.props == Merge(old(current.props), EditUpdate(body, file)) && sent == current.props
    ensures failure.None? <==> page == Redirect("/my")
    ensures failure.Some? ==> page == Render("edit-post", EditView(article, categories, failure.value))
  {
    var update := EditUpdate(body, file);
    var articleData := current.Assign(update);
    sent := articleData.props;
    match failure {
      case None => page := Redirect("/my");
      case Some(messages) => page := Render("edit-post", EditView(article, categories, messages));
    }
  }

  // ---------------------------------------------------------------------------
  // POST /articles/:id/comments

  /** What `createComment` is sent: the form's `comment` as `text`. */
  function CommentPayload(body: Object): (data: Object)
    ensures data.Keys == {"text"} && data["text"] == Get(body, "comment")
  {
    map["text" := Get(body, "comment")]
  }

  datatype PostView<A> = PostView(article: A, comment: Value, validationMessages: seq<string>)

  /**
   * `POST /:id/comments`: the comment goes to article `id`; on success back to
   * the article's page, otherwise the `post` page with the typed comment kept.
   */
  function SubmitComment<A>(id: Id, body: Object, failure: Option<seq<string>>, article: A)
    : (r: (Id, Object, Page<PostView<A>>))
    ensures r.0 == id && r.1 == CommentPayload(body)
    ensures failure.None? <==> r.2 == Redirect("/articles/" + id)
    ensures failure.Some? ==> r.2 == Render("post", PostView(article, Get(body, "comment"), failure.value))
  {
    var page := match failure
      case None => Redirect("/articles/" + id)
      case Some(messages) => Render("post", PostView(article, Get(body, "comment"), messages));
    (id, CommentPayload(body), page)
  }
}
