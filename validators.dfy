/**
 * The validation middlewares of src/service/middlewares: each one either
 * answers 400 or calls `next()`. The schemas they use are in `Schemas`.
 */
module Validators {
  import opened Wrappers
  import opened Text
  import opened Json
  import opened Http
  import opened Schemas

  /** `error.details.map((err) => err.message).join('\n')`. */
  function DetailsText(ds: seq<Detail>): (text: string)
    ensures ds == [] ==> text == ""
    ensures ds != [] ==> ds[0].message <= text
  {
    Join(Messages(ds), "\n")
  }

  /** The response text splits back, line by line, into the messages in detail order. */
  lemma DetailsTextLines(ds: seq<Detail>)
    requires ds != []
    requires forall i :: 0 <= i < |ds| ==> '\n' !in ds[i].message
    ensures Split(DetailsText(ds), '\n') == Messages(ds)
  {
    var ms := Messages(ds);
    assert "\n" == ['\n'];
    SplitJoin(ms, '\n');
  }

  // ---------------------------------------------------------------------------
  // instance-validator.js

  /**
   * `instanceValidator(instanceType)`: validates the body against
   * `schemas[instanceType]` with `abortEarly: false`; `keys` is
   * `Object.keys(req.body)`. An unknown instance type leaves `schema`
   * undefined and the call to `validate` throws.
   */
  function InstanceValidator(names: InstanceNames, instanceType: string, body: Object, keys: seq<string>)
    : (o: Outcome<()>)
    ensures o.Throws? <==> Lookup(names, instanceType).None?
    ensures o.Next? <==> Lookup(names, instanceType).Some? && Details(Lookup(names, instanceType).value, body, keys) == []
    ensures o.Reply? ==>
      o.response == Response(BAD_REQUEST, Text(DetailsText(Details(Lookup(names, instanceType).value, body, keys))))
  {
    match Lookup(names, instanceType)
    case None => Throws
    case Some(schema) =>
      var ds := Details(schema, body, keys);
      if ds == [] then Next else Reply(Response(BAD_REQUEST, Text(DetailsText(ds))))
  }

  /**
   * For the article type every violated rule is reported, one message per
   * line: a short title and an over-long text in one request give both messages.
   */
  lemma InstanceValidatorReportsAll(names: InstanceNames, body: Object, keys: seq<string>)
    requires names.article != "routeParamsSchema"
    requires Get(body, "title").Str? && 0 < Utf16Length(Get(body, "title").s) < 10
    requires Get(body, "fullText").Str? && Utf16Length(Get(body, "fullText").s) > 1000
    ensures var o := InstanceValidator(names, names.article, body, keys);
      o.Reply? && o.response.status == BAD_REQUEST
      && TITLE_MIN in Messages(ArticleDetails(body, keys))
      && FULLTEXT_MAX in Messages(ArticleDetails(body, keys))
  {
    ArticleMessagesBoth(body, keys);
    assert Lookup(names, names.article) == Some(ArticleSchema);
  }

  /** Both messages are among those of the article details. */
  lemma ArticleMessagesBoth(body: Object, keys: seq<string>)
    requires Get(body, "title").Str? && 0 < Utf16Length(Get(body, "title").s) < 10
    requires Get(body, "fullText").Str? && Utf16Length(Get(body, "fullText").s) > 1000
    ensures ArticleDetails(body, keys) != []
    ensures TITLE_MIN in Messages(ArticleDetails(body, keys))
    ensures FULLTEXT_MAX in Messages(ArticleDetails(body, keys))
  {
    ArticleCollectsAll(body, keys);
    var ds := ArticleDetails(body, keys);
    var i, j :| 0 <= i < j < |ds| && ds[i].message == TITLE_MIN && ds[j].message == FULLTEXT_MAX;
    assert Messages(ds)[i] == TITLE_MIN && Messages(ds)[j] == FULLTEXT_MAX;
  }

  // ---------------------------------------------------------------------------
  // instanceValidator.js

  /** `instanceValidator(keysToCheck)`: every listed key must be a key of the body; values are not looked at. */
  function KeysValidator(keysToCheck: seq<string>, body: Object): (o: Outcome<()>)
    ensures o.Next? <==> forall k :: k in keysToCheck ==> k in body
    ensures !o.Next? ==> o == Reply(Response(BAD_REQUEST, Text("Bad request")))
  {
    if forall k :: k in keysToCheck ==> k in body then Next
    else Reply(Response(BAD_REQUEST, Text("Bad request")))
  }

  /** Extra keys never cause a rejection, and an empty key list lets everything through. */
  lemma KeysValidatorIgnoresExtras(keysToCheck: seq<string>, body: Object, extra: Object)
    ensures KeysValidator(keysToCheck, body).Next? ==> KeysValidator(keysToCheck, body + extra).Next?
    ensures KeysValidator([], body).Next?
  {
  }

  /** Only the presence of keys counts: two bodies with the same keys get the same answer. */
  lemma KeysValidatorIgnoresValues(keysToCheck: seq<string>, a: Object, b: Object)
    requires a.Keys == b.Keys
    ensures KeysValidator(keysToCheck, a) == KeysValidator(keysToCheck, b)
  {
  }

  // ---------------------------------------------------------------------------
  // route-params-validator.js

  /**
   * `routeParamsValidator`: `req.params` against a schema with Joi's default
   * `abortEarly: true`, so only the first problem is reported.
   */
  function FirstProblem(ds: seq<Detail>): (o: Outcome<()>)
    ensures o.Next? <==> ds == []
    ensures ds != [] ==> o == Reply(Response(BAD_REQUEST, Text(ds[0].message)))
  {
    if ds == [] then Next else Reply(Response(BAD_REQUEST, Text(DetailsText(ds[..1]))))
  }

  /** As written: against `routeParamsSchema`, which lists `offerId` and `commentId`. */
  function RouteParamsValidator(params: Object, keys: seq<string>): (o: Outcome<()>)
  {
    FirstProblem(RouteParamsDetails(params, keys))
  }

  /** As written, no request whose route has an `:articleId` parameter gets past the validator. */
  lemma RouteParamsValidatorRefusesArticleRoutes(params: Object, keys: seq<string>)
    requires KeysOf(params, keys) && "articleId" in params
    ensures RouteParamsValidator(params, keys).Reply?
    ensures RouteParamsValidator(params, keys).response.status == BAD_REQUEST
  {
    UnknownEmpty(keys, ROUTE_PARAM_KEYS);
  }

  /** With the schema naming `articleId`: the corrected validator the article routes are modelled with. */
  function ArticleRouteParamsValidator(params: Object, keys: seq<string>): (o: Outcome<()>)
    ensures o.Next? || (o.Reply? && o.response.status == BAD_REQUEST)
  {
    FirstProblem(ArticleRouteParamsDetails(params, keys))
  }

  /**
   * The corrected validator hands on exactly the requests whose `articleId` and
   * `commentId` are absent or integers from 1, and answers 400 otherwise.
   */
  lemma ArticleRouteParamsValidatorPasses(params: Object, keys: seq<string>)
    requires KeysOf(params, keys)
    ensures ArticleRouteParamsValidator(params, keys).Next? <==>
      IdPasses(Get(params, "articleId")) && IdPasses(Get(params, "commentId"))
      && params.Keys <= {"articleId", "commentId"}
    ensures !ArticleRouteParamsValidator(params, keys).Next? ==>
      ArticleRouteParamsValidator(params, keys).Reply?
      && ArticleRouteParamsValidator(params, keys).response.status == BAD_REQUEST
  {
    ArticleRouteParamsValidIff(params, keys);
  }

  // ---------------------------------------------------------------------------
  // user-validator.js

  const EMAIL_TAKEN := "Электронный адрес уже используется"

  /** The middleware's answer and the e-mail it looked up, if it got that far. */
  datatype UserCheck = UserCheck(outcome: Outcome<()>, lookedUp: Option<Value>)

  /**
   * `userValidator(service)`: `schemaDetails` is what `userSchema` (which
   * schemas.js does not export) reports for the body; `registered` holds the
   * e-mails `service.findByEmail` finds a user for.
   */
  function UserValidator(schemaDetails: seq<Detail>, registered: set<Value>, body: Object): (r: UserCheck)
    ensures schemaDetails != [] ==>
      r == UserCheck(Reply(Response(BAD_REQUEST, Text(DetailsText(schemaDetails)))), None)
    ensures schemaDetails == [] ==> r.lookedUp == Some(Get(body, "email"))
    ensures schemaDetails == [] && Get(body, "email") in registered ==>
      r.outcome == Reply(Response(BAD_REQUEST, Text(EMAIL_TAKEN)))
    ensures r.outcome.Next? <==> schemaDetails == [] && Get(body, "email") !in registered
  {
    if schemaDetails != [] then UserCheck(Reply(Response(BAD_REQUEST, Text(DetailsText(schemaDetails)))), None)
    else
      var email := Get(body, "email");
      if email in registered then UserCheck(Reply(Response(BAD_REQUEST, Text(EMAIL_TAKEN))), Some(email))
      else UserCheck(Next, Some(email))
  }
}
