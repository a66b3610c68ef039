/**
 * The pages of src/express/routes/main-routes.js that hold logic: the home page
 * (page number, paging window, page count, the two side blocks), the sign-up
 * payload, the search page and logout. The back-end API is not called: what it
 * answers is a parameter.
 */
module MainRoutes {
  import opened Wrappers
  import opened Text
  import opened Json
  import opened Http
  import opened Blog
  import opened Ranking

  const ARTICLES_PER_PAGE := 8
  const MAX_ELEMENTS_PER_BLOCK := 4

  // ---------------------------------------------------------------------------
  // home page

  /**
   * `let {page = 1} = req.query; page = +page;`: an absent `page` is 1, a
   * present one goes through unary `+`, so an empty `?page=` is 0, and `None`
   * stands for `NaN`.
   */
  function PageNumber(query: Option<string>): (page: Option<int>)
    ensures query.None? ==> page == Some(1)
    ensures query == Some("") ==> page == Some(0)
    ensures query.Some? && query.value != "" ==> page == DecimalInteger(query.value)
  {
    match query
    case None => Some(1)
    case Some(s) => NumberOf(s)
  }

  /** The `{offset, limit}` the home page asks `getArticles` for (`None` is `NaN`). */
  datatype Window = Window(offset: Option<int>, limit: int)

  /** `limit = ARTICLES_PER_PAGE; offset = (page - 1) * ARTICLES_PER_PAGE`. */
  function PageWindow(page: Option<int>): (w: Window)
    ensures w.limit == ARTICLES_PER_PAGE
    ensures page.Some? <==> w.offset.Some?
    ensures page.Some? ==> w.offset.value % ARTICLES_PER_PAGE == 0 && w.offset.value / ARTICLES_PER_PAGE == page.value - 1
  {
    match page
    case None => Window(None, ARTICLES_PER_PAGE)
    case Some(p) => Window(Some((p - 1) * ARTICLES_PER_PAGE), ARTICLES_PER_PAGE)
  }

  /** `Math.ceil(count / ARTICLES_PER_PAGE)`: the fewest pages of eight that hold `count` articles. */
  function TotalPages(count: nat): (pages: nat)
    ensures count == 0 ==> pages == 0
    ensures count > 0 ==> (pages - 1) * ARTICLES_PER_PAGE < count <= pages * ARTICLES_PER_PAGE
  {
    (count + ARTICLES_PER_PAGE - 1) / ARTICLES_PER_PAGE
  }

  /** An empty `?page=` is page 0, so the home page asks for the eight places before the first article. */
  lemma EmptyPageStartsBeforeFirst()
    ensures PageWindow(PageNumber(Some(""))) == Window(Some(-ARTICLES_PER_PAGE), ARTICLES_PER_PAGE)
  {
  }

  /** Every page from 1 to `totalPages` starts at an existing article, and the page after it does not. */
  lemma PagesInRange(count: nat, page: int)
    requires 1 <= page
    ensures page <= TotalPages(count) <==> PageWindow(Some(page)).offset.value < count
  {
  }

  /** `comments.slice(0, MAX_ELEMENTS_PER_BLOCK)`: the first (up to) four comments, in API order. */
  function LastComments(comments: seq<Comment>): (shown: seq<Comment>)
    ensures |shown| == if |comments| < MAX_ELEMENTS_PER_BLOCK then |comments| else MAX_ELEMENTS_PER_BLOCK
    ensures shown <= comments
  {
    if |comments| < MAX_ELEMENTS_PER_BLOCK then comments else comments[..MAX_ELEMENTS_PER_BLOCK]
  }

  /** What the home page hands to the `main` template. */
  datatype HomeView<C> = HomeView(
    articles: seq<Article>,
    page: Option<int>,
    totalPages: nat,
    categories: C,
    user: Value,
    bestCommentedArticles: seq<Article>,
    lastComments: seq<Comment>)

  /** The answer of `getArticles({offset, limit, comments: true})`. */
  datatype Listing = Listing(count: nat, articles: seq<Article>)

  /**
   * `GET /`: renders `main` from the three API answers; `window` is what was
   * asked of `getArticles`.
   */
  function HomePage<C>(session: Object, pageQuery: Option<string>, listing: Listing, categories: C, comments: seq<Comment>)
    : (r: (Window, Page<HomeView<C>>))
  {
    var page := PageNumber(pageQuery);
    (PageWindow(page),
     Render("main", HomeView(listing.articles, page, TotalPages(listing.count), categories,
                             Get(session, "user"), BestCommented(listing.articles), LastComments(comments))))
  }

  /**
   * The home page asks for the window of its page, shows the page's articles in
   * the order the API gave them with the page number and the number of pages
   * the article count makes, draws the best-commented block from those
   * articles only (at most four of them, all with comments, most comments
   * first), and shows the first four comments at most.
   */
  lemma HomePageShowsPage<C>(session: Object, pageQuery: Option<string>, listing: Listing, categories: C, comments: seq<Comment>)
    ensures var (window, page) := HomePage(session, pageQuery, listing, categories, comments);
      && window == PageWindow(PageNumber(pageQuery))
      && page.Render? && page.template == "main"
      && page.view.articles == listing.articles
      && page.view.page == PageNumber(pageQuery)
      && page.view.totalPages == TotalPages(listing.count)
      && page.view.categories == categories
      && page.view.user == Get(session, "user")
      && |page.view.bestCommentedArticles| <= MAX_ELEMENTS_PER_BLOCK
      && multiset(page.view.bestCommentedArticles) <= multiset(listing.articles)
      && (forall i :: 0 <= i < |page.view.bestCommentedArticles| ==> CommentCount(page.view.bestCommentedArticles[i]) > 0)
      && NonIncreasing(page.view.bestCommentedArticles)
      && page.view.lastComments == LastComments(comments)
      && page.view.lastComments <= comments
  {
    BestCommentedRanks(listing.articles);
  }

  // ---------------------------------------------------------------------------
  // sign-up

  /** An uploaded file as multer describes it after storing it. */
  datatype StoredFile = StoredFile(filename: string)

  /** The `userData` object built from the sign-up form and the optional avatar upload. */
  function RegisterPayload(body: Object, file: Option<StoredFile>): (userData: Object)
    ensures Get(userData, "passwordRepeated") == Get(body, "repeat-password")
    ensures Get(userData, "name") == Get(body, "name")
    ensures Get(userData, "email") == Get(body, "email")
    ensures Get(userData, "password") == Get(body, "password")
    ensures "avatar" in userData <==> file.Some?
    ensures file.Some? ==> userData["avatar"] == Str(file.value.filename)
    ensures userData.Keys <= {"name", "email", "password", "passwordRepeated", "avatar"}
  {
    var base := map["name" := Get(body, "name"), "email" := Get(body, "email"),
                    "password" := Get(body, "password"), "passwordRepeated" := Get(body, "repeat-password")];
    match file
    case None => base
    case Some(f) => base["avatar" := Str(f.filename)]
  }

  /** What `sign-up` is re-rendered with when the API refuses the user. */
  datatype SignUpView = SignUpView(validationMessages: seq<string>, user: Value, userData: Object)

  /** `POST /register`: `failure` holds the prepared messages when `createUser` rejected the payload. */
  function Register(session: Object, body: Object, file: Option<StoredFile>, failure: Option<seq<string>>)
    : (page: Page<SignUpView>)
    ensures failure.None? <==> page == Redirect("/login")
    ensures failure.Some? ==> page == Render("sign-up", SignUpView(failure.value, Get(session, "user"), RegisterPayload(body, file)))
  {
    match failure
    case None => Redirect("/login")
    case Some(messages) => Render("sign-up", SignUpView(messages, Get(session, "user"), RegisterPayload(body, file)))
  }

  // ---------------------------------------------------------------------------
  // search page

  datatype SearchView<R> = SearchView(results: seq<R>, search: Value, user: Value)

  /** `GET /search`: `answer` is `None` when `api.search` threw. */
  function SearchPage<R>(session: Object, query: Object, answer: Option<seq<R>>): (page: Page<SearchView<R>>)
    ensures page.Render? && page.template == "search"
    ensures answer.None? ==> page.view.results == []
    ensures answer.Some? ==> page.view.results == answer.value
    ensures page.view.search == Get(query, "search") && page.view.user == Get(session, "user")
  {
    var results := match answer case None => [] case Some(rs) => rs;
    Render("search", SearchView(results, Get(query, "search"), Get(session, "user")))
  }

  // ---------------------------------------------------------------------------
  // logout

  /** `req.session`: the server-side session object of one visitor. */
  class Session {
    var data: Object

    constructor(data: Object)
      ensures this.data == data
    {
      this.data := data;
    }

    /** The signed-in user the pages read, `undefined` when there is none. */
    function User(): Value
      reads this
    {
      Get(data, "user")
    }

    /** `GET /logout`: forgets the user, keeps everything else, and sends the visitor home. */
    method Logout() returns (page: Page<()>)
      modifies this
      ensures data == old(data) - {"user"}
      ensures User() == Undefined
      ensures page == Redirect("/")
    {
      data := data - {"user"};
      page := Redirect("/");
    }
  }
}
