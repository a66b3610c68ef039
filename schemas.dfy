/**
 * The Joi schemas of src/service/middlewares/schemas.js written out as explicit
 * checks. Each check returns Joi's error details in the order Joi produces them
 * with `abortEarly: false`: the keys of the schema in declaration order, the
 * rules of one key in declaration order, then one "is not allowed" detail per
 * key the schema does not list, in the object's own key order. With the default
 * `abortEarly: true` Joi stops at the first of these.
 */
module Schemas {
  import opened Wrappers
  import opened Text
  import opened Json

  // ---------------------------------------------------------------------------
  // messages

  const TEXT_MIN := "Комментарий содержит меньше 20 символов"
  const TEXT_MAX := "Комментарий не может содержать более 500 символов"

  const CATEGORIES := "Не выбрана ни одна категория объявления"
  const TITLE_MIN := "Заголовок содержит меньше 10 символов"
  const TITLE_MAX := "Заголовок не может содержать более 70 символов"
  const ANNOUNCE_MIN := "Краткое описание содержит меньше 100 символов"
  const ANNOUNCE_MAX := "Краткое описание не может содержать более 300 символов"
  const FULLTEXT_MIN := "Текст статьи содержит меньше 100 символов"
  const FULLTEXT_MAX := "Текст статьи не может содержать более 1000 символов"
  const PHOTO := "Изображение не выбрано или тип изображения не поддерживается"

  /** The Joi error codes the schemas can raise. */
  datatype Rule =
    | AnyRequired | ObjectUnknown
    | StringBase | StringEmpty | StringMin | StringMax
    | ArrayBase | ArraySparse | ArrayMin
    | NumberBase | NumberInteger | NumberPositive | NumberMin

  /** One entry of `error.details`: the path of the offending value, the code and the message. */
  datatype Detail = Detail(path: string, rule: Rule, message: string)

  /** The custom messages a schema registers with `.messages({...})`. */
  type CustomMessages = map<Rule, string>

  function Quoted(path: string): string
  {
    "\"" + path + "\""
  }

  /** Joi's built-in English message for a code, with `limit` the rule's argument. */
  function DefaultMessage(rule: Rule, path: string, limit: nat): string
  {
    var l := Quoted(path);
    match rule
    case AnyRequired => l + " is required"
    case ObjectUnknown => l + " is not allowed"
    case StringBase => l + " must be a string"
    case StringEmpty => l + " is not allowed to be empty"
    case StringMin => l + " length must be at least " + NatToString(limit) + " characters long"
    case StringMax => l + " length must be less than or equal to " + NatToString(limit) + " characters long"
    case ArrayBase => l + " must be an array"
    case ArraySparse => l + " must not be a sparse array item"
    case ArrayMin => l + " must contain at least " + NatToString(limit) + " items"
    case NumberBase => l + " must be a number"
    case NumberInteger => l + " must be an integer"
    case NumberPositive => l + " must be a positive number"
    case NumberMin => l + " must be greater than or equal to " + NatToString(limit)
  }

  /** The detail for `rule` on `path`: the schema's own message when it registered one. */
  function Fail(custom: CustomMessages, rule: Rule, path: string, limit: nat): Detail
  {
    Detail(path, rule, if rule in custom then custom[rule] else DefaultMessage(rule, path, limit))
  }

  function Messages(ds: seq<Detail>): (ms: seq<string>)
    ensures |ms| == |ds| && forall i :: 0 <= i < |ds| ==> ms[i] == ds[i].message
  {
    if ds == [] then [] else [ds[0].message] + Messages(ds[1..])
  }

  lemma MessagesAppend(a: seq<Detail>, b: seq<Detail>)
    ensures Messages(a + b) == Messages(a) + Messages(b)
  {
  }

  // ---------------------------------------------------------------------------
  // rules for one value

  /**
   * Joi's number conversion (`convert` is on by default): numbers pass, strings
   * holding a plain decimal integer are converted, anything else is not a number.
   */
  function AsNumber(v: Value): (n: Option<real>)
    ensures v.Num? ==> n == Some(v.n)
    ensures v.Str? ==> (n.Some? <==> DecimalInteger(v.s).Some?)
    ensures v.Str? && n.Some? ==> IsInteger(n.value)
    ensures !v.Num? && !v.Str? ==> n.None?
  {
    match v
    case Num(n) => Some(n)
    case Str(s) => (match DecimalInteger(s) case Some(i) => Some(i as real) case None => None)
    case _ => None
  }

  predicate IsInteger(n: real)
  {
    n.Floor as real == n
  }

  /** `Joi.string()` with an optional `.min`, `.max` and `.required()`; lengths count UTF-16 code units. */
  datatype StringRule = StringRule(required: bool, min: Option<nat>, max: Option<nat>, custom: CustomMessages)

  function CheckString(path: string, v: Value, r: StringRule): (ds: seq<Detail>)
  {
    match v
    case Undefined => if r.required then [Fail(r.custom, AnyRequired, path, 0)] else []
    case Str(s) =>
      if s == "" then [Fail(r.custom, StringEmpty, path, 0)]
      else
        (if r.min.Some? && Utf16Length(s) < r.min.value then [Fail(r.custom, StringMin, path, r.min.value)] else [])
        + (if r.max.Some? && Utf16Length(s) > r.max.value then [Fail(r.custom, StringMax, path, r.max.value)] else [])
    case _ => [Fail(r.custom, StringBase, path, 0)]
  }

  ghost predicate StringPasses(v: Value, r: StringRule)
  {
    (v.Undefined? && !r.required)
    || (v.Str? && v.s != "" && (r.min.None? || Utf16Length(v.s) >= r.min.value)
        && (r.max.None? || Utf16Length(v.s) <= r.max.value))
  }

  /** A string rule reports nothing exactly when the value satisfies it. */
  lemma CheckStringPasses(path: string, v: Value, r: StringRule)
    ensures CheckString(path, v, r) == [] <==> StringPasses(v, r)
  {
  }

  // ---------------------------------------------------------------------------
  // commentSchema

  const COMMENT_TEXT := StringRule(true, Some(20), Some(500), map[StringMin := TEXT_MIN, StringMax := TEXT_MAX])
  const COMMENT_KEYS: seq<string> := ["text"]

  /** One "is not allowed" detail per key of `keys` (the object's key order) missing from `known`. */
  function Unknown(keys: seq<string>, known: seq<string>): (ds: seq<Detail>)
    ensures |ds| <= |keys|
    ensures forall i :: 0 <= i < |ds| ==> ds[i].rule == ObjectUnknown && ds[i].path in keys && ds[i].path !in known
  {
    if keys == [] then []
    else (if keys[0] in known then [] else [Fail(map[], ObjectUnknown, keys[0], 0)]) + Unknown(keys[1..], known)
  }

  lemma {:induction false} UnknownEmpty(keys: seq<string>, known: seq<string>)
    ensures Unknown(keys, known) == [] <==> forall k :: k in keys ==> k in known
  {
    if keys != [] {
      UnknownEmpty(keys[1..], known);
      assert forall k :: k in keys <==> k == keys[0] || k in keys[1..];
    }
  }

  /** `Object.keys(o)`: every key once, in some order. */
  ghost predicate KeysOf(o: Object, keys: seq<string>)
  {
    (forall k :: k in keys <==> k in o) && (forall i, j :: 0 <= i < j < |keys| ==> keys[i] != keys[j])
  }

  function CommentDetails(body: Object, keys: seq<string>): seq<Detail>
  {
    CheckString("text", Get(body, "text"), COMMENT_TEXT) + Unknown(keys, COMMENT_KEYS)
  }

  /** A comment is accepted exactly when `text` is a string of 20 to 500 characters and nothing else is sent. */
  lemma CommentValidIff(body: Object, keys: seq<string>)
    requires KeysOf(body, keys)
    ensures CommentDetails(body, keys) == [] <==>
      Get(body, "text").Str? && 20 <= Utf16Length(Get(body, "text").s) <= 500 && body.Keys <= {"text"}
  {
    CheckStringPasses("text", Get(body, "text"), COMMENT_TEXT);
    UnknownEmpty(keys, COMMENT_KEYS);
  }

  /** The length bounds of `text` report their own messages. */
  lemma CommentLengthMessages(body: Object, keys: seq<string>)
    requires Get(body, "text").Str? && Get(body, "text").s != []
    ensures Utf16Length(Get(body, "text").s) < 20 ==> TEXT_MIN in Messages(CommentDetails(body, keys))
    ensures Utf16Length(Get(body, "text").s) > 500 ==> TEXT_MAX in Messages(CommentDetails(body, keys))
  {
    var head := CheckString("text", Get(body, "text"), COMMENT_TEXT);
    MessagesAppend(head, Unknown(keys, COMMENT_KEYS));
  }

  // ---------------------------------------------------------------------------
  // articleSchema

  const ARTICLE_KEYS: seq<string> := ["categories", "title", "announce", "fullText", "photo"]
  const TITLE := StringRule(true, Some(10), Some(70), map[StringMin := TITLE_MIN, StringMax := TITLE_MAX])
  const ANNOUNCE := StringRule(true, Some(100), Some(300), map[StringMin := ANNOUNCE_MIN, StringMax := ANNOUNCE_MAX])
  const FULL_TEXT := StringRule(true, Some(100), Some(1000), map[StringMin := FULLTEXT_MIN, StringMax := FULLTEXT_MAX])
  const PHOTO_RULE := StringRule(false, None, None, map[StringEmpty := PHOTO])

  /**
   * Lengths are JavaScript's: a title of six characters beyond U+FFFF is twelve
   * code units long and passes `min(10)`.
   */
  lemma WideTitlePasses()
    ensures CheckString("title", Str("\U{1F4F0}\U{1F4F0}\U{1F4F0}\U{1F4F0}\U{1F4F0}\U{1F4F0}"), TITLE) == []
  {
    var s := "\U{1F4F0}\U{1F4F0}\U{1F4F0}\U{1F4F0}\U{1F4F0}\U{1F4F0}";
    assert Utf16Length(s[5..]) == 2;
    assert Utf16Length(s[4..]) == 4;
    assert Utf16Length(s[3..]) == 6;
    assert Utf16Length(s[2..]) == 8;
    assert Utf16Length(s[1..]) == 10;
    assert Utf16Length(s) == 12;
  }

  /** `Joi.number().integer().positive()` on item `i` of `categories`, with the CATEGORIES message for a non-number. */
  function CheckCategory(i: nat, v: Value): (ds: seq<Detail>)
    ensures |ds| <= 2
    ensures forall k :: 0 <= k < |ds| ==> ds[k].path == "categories[" + NatToString(i) + "]"
  {
    var path := "categories[" + NatToString(i) + "]";
    var custom := map[NumberBase := CATEGORIES];
    if v.Undefined? then [Fail(custom, ArraySparse, path, 0)]
    else match AsNumber(v)
      case None => [Fail(custom, NumberBase, path, 0)]
      case Some(n) =>
        (if IsInteger(n) then [] else [Fail(custom, NumberInteger, path, 0)])
        + (if n > 0.0 then [] else [Fail(custom, NumberPositive, path, 0)])
  }

  ghost predicate IsCategoryId(v: Value)
  {
    AsNumber(v).Some? && IsInteger(AsNumber(v).value) && AsNumber(v).value > 0.0
  }

  lemma CheckCategoryPasses(i: nat, v: Value)
    ensures CheckCategory(i, v) == [] <==> IsCategoryId(v)
  {
  }

  /** The items of `categories` from position `from` on. */
  function CheckCategoryItems(items: seq<Value>, from: nat): (ds: seq<Detail>)
    requires from <= |items|
    ensures |ds| <= 2 * (|items| - from)
    decreases |items| - from
  {
    if from == |items| then [] else CheckCategory(from, items[from]) + CheckCategoryItems(items, from + 1)
  }

  lemma {:induction false} CheckCategoryItemsPasses(items: seq<Value>, from: nat)
    requires from <= |items|
    ensures CheckCategoryItems(items, from) == [] <==> forall i :: from <= i < |items| ==> IsCategoryId(items[i])
    decreases |items| - from
  {
    if from < |items| {
      var head := CheckCategory(from, items[from]);
      var tail := CheckCategoryItems(items, from + 1);
      assert CheckCategoryItems(items, from) == head + tail;
      CheckCategoryItemsPasses(items, from + 1);
      CheckCategoryPasses(from, items[from]);
      assert (forall i :: from <= i < |items| ==> IsCategoryId(items[i]))
        <==> IsCategoryId(items[from]) && forall i :: from + 1 <= i < |items| ==> IsCategoryId(items[i]);
    }
  }

  /** A `null` item (what an `undefined` item becomes in JSON) draws the CATEGORIES message. */
  lemma {:induction false} NullCategoryMessage(items: seq<Value>, from: nat, k: nat)
    requires from <= k < |items| && items[k] == Null
    ensures CATEGORIES in Messages(CheckCategoryItems(items, from))
    decreases k - from
  {
    var head := CheckCategory(from, items[from]);
    MessagesAppend(head, CheckCategoryItems(items, from + 1));
    if k > from {
      NullCategoryMessage(items, from + 1, k);
    } else {
      assert Messages(head) == [CATEGORIES];
    }
  }

  /** `Joi.array().items(...).min(1).required()`. */
  function CheckCategories(v: Value): seq<Detail>
  {
    match v
    case Undefined => [Fail(map[], AnyRequired, "categories", 0)]
    case Arr(items) =>
      CheckCategoryItems(items, 0) + (if |items| < 1 then [Fail(map[], ArrayMin, "categories", 1)] else [])
    case _ => [Fail(map[], ArrayBase, "categories", 0)]
  }

  ghost predicate CategoriesPass(v: Value)
  {
    v.Arr? && |v.items| >= 1 && forall i :: 0 <= i < |v.items| ==> IsCategoryId(v.items[i])
  }

  function ArticleDetails(body: Object, keys: seq<string>): seq<Detail>
  {
    CheckCategories(Get(body, "categories"))
    + CheckString("title", Get(body, "title"), TITLE)
    + CheckString("announce", Get(body, "announce"), ANNOUNCE)
    + CheckString("fullText", Get(body, "fullText"), FULL_TEXT)
    + CheckString("photo", Get(body, "photo"), PHOTO_RULE)
    + Unknown(keys, ARTICLE_KEYS)
  }

  /**
   * An article is accepted exactly when `categories` is a non-empty array of
   * positive integers, title, announce and fullText are strings within their
   * bounds, photo is absent or a non-empty string, and no other key is sent.
   */
  lemma ArticleValidIff(body: Object, keys: seq<string>)
    requires KeysOf(body, keys)
    ensures ArticleDetails(body, keys) == [] <==>
      && CategoriesPass(Get(body, "categories"))
      && StringPasses(Get(body, "title"), TITLE)
      && StringPasses(Get(body, "announce"), ANNOUNCE)
      && StringPasses(Get(body, "fullText"), FULL_TEXT)
      && StringPasses(Get(body, "photo"), PHOTO_RULE)
      && body.Keys <= {"categories", "title", "announce", "fullText", "photo"}
  {
    CheckCategoriesPasses(Get(body, "categories"));
    CheckStringPasses("title", Get(body, "title"), TITLE);
    CheckStringPasses("announce", Get(body, "announce"), ANNOUNCE);
    CheckStringPasses("fullText", Get(body, "fullText"), FULL_TEXT);
    CheckStringPasses("photo", Get(body, "photo"), PHOTO_RULE);
    ArticleKeysPass(body, keys);
    NoneOfSix(CheckCategories(Get(body, "categories")),
              CheckString("title", Get(body, "title"), TITLE),
              CheckString("announce", Get(body, "announce"), ANNOUNCE),
              CheckString("fullText", Get(body, "fullText"), FULL_TEXT),
              CheckString("photo", Get(body, "photo"), PHOTO_RULE),
              Unknown(keys, ARTICLE_KEYS));
  }

  /** `categories` reports nothing exactly when it is a non-empty array of positive integers. */
  lemma CheckCategoriesPasses(v: Value)
    ensures CheckCategories(v) == [] <==> CategoriesPass(v)
  {
    if v.Arr? {
      CheckCategoryItemsPasses(v.items, 0);
    }
  }

  /** The article schema finds no unknown key exactly when only its five keys are sent. */
  lemma ArticleKeysPass(body: Object, keys: seq<string>)
    requires KeysOf(body, keys)
    ensures Unknown(keys, ARTICLE_KEYS) == [] <==> body.Keys <= {"categories", "title", "announce", "fullText", "photo"}
  {
    UnknownEmpty(keys, ARTICLE_KEYS);
  }

  /** The details of six rules in a row are none exactly when each rule reports none. */
  lemma NoneOfSix(a: seq<Detail>, b: seq<Detail>, c: seq<Detail>, d: seq<Detail>, e: seq<Detail>, f: seq<Detail>)
    ensures a + b + c + d + e + f == [] <==> a == [] && b == [] && c == [] && d == [] && e == [] && f == []
  {
  }

  /**
   * Validation does not stop at the first problem: a short title and an
   * over-long full text are both reported, title first.
   */
  lemma ArticleCollectsAll(body: Object, keys: seq<string>)
    requires Get(body, "title").Str? && 0 < Utf16Length(Get(body, "title").s) < 10
    requires Get(body, "fullText").Str? && Utf16Length(Get(body, "fullText").s) > 1000
    ensures exists i, j :: (0 <= i < j < |ArticleDetails(body, keys)|
      && ArticleDetails(body, keys)[i].message == TITLE_MIN
      && ArticleDetails(body, keys)[j].message == FULLTEXT_MAX)
  {
    var a := CheckCategories(Get(body, "categories"));
    var t := CheckString("title", Get(body, "title"), TITLE);
    var n := CheckString("announce", Get(body, "announce"), ANNOUNCE);
    var f := CheckString("fullText", Get(body, "fullText"), FULL_TEXT);
    var ds := ArticleDetails(body, keys);
    assert t == [Fail(TITLE.custom, StringMin, "title", 10)];
    assert f == [Fail(FULL_TEXT.custom, StringMax, "fullText", 1000)];
    assert ds[|a|] == t[0];
    assert ds[|a| + |t| + |n|] == f[0];
  }

  /** A message of a leading part of the details is a message of all of them. */
  lemma MessageOfPrefix(a: seq<Detail>, b: seq<Detail>, m: string)
    requires a <= b && m in Messages(a)
    ensures m in Messages(b)
  {
    var i :| 0 <= i < |a| && Messages(a)[i] == m;
    assert Messages(b)[i] == b[i].message == a[i].message;
  }

  /** An array of categories holding a `null` (what an `undefined` item becomes in JSON) draws the CATEGORIES message. */
  lemma ArticleCategoriesMessage(body: Object, keys: seq<string>)
    requires Get(body, "categories").Arr? && Null in Get(body, "categories").items
    ensures CATEGORIES in Messages(ArticleDetails(body, keys))
  {
    var v := Get(body, "categories");
    var k :| 0 <= k < |v.items| && v.items[k] == Null;
    NullCategoryMessage(v.items, 0, k);
    ItemsLead(v);
    MessageOfPrefix(CheckCategoryItems(v.items, 0), CheckCategories(v), CATEGORIES);
    CategoriesLead(body, keys);
    MessageOfPrefix(CheckCategories(v), ArticleDetails(body, keys), CATEGORIES);
  }

  /** The item details of an array come first among its `categories` details. */
  lemma ItemsLead(v: Value)
    requires v.Arr?
    ensures CheckCategoryItems(v.items, 0) <= CheckCategories(v)
  {
  }

  /** The `categories` details come first among an article's details. */
  lemma CategoriesLead(body: Object, keys: seq<string>)
    ensures CheckCategories(Get(body, "categories")) <= ArticleDetails(body, keys)
  {
    FirstOfSix(CheckCategories(Get(body, "categories")),
               CheckString("title", Get(body, "title"), TITLE),
               CheckString("announce", Get(body, "announce"), ANNOUNCE),
               CheckString("fullText", Get(body, "fullText"), FULL_TEXT),
               CheckString("photo", Get(body, "photo"), PHOTO_RULE),
               Unknown(keys, ARTICLE_KEYS));
  }

  /** The details of the first of six rules in a row come first. */
  lemma FirstOfSix(a: seq<Detail>, b: seq<Detail>, c: seq<Detail>, d: seq<Detail>, e: seq<Detail>, f: seq<Detail>)
    ensures a <= a + b + c + d + e + f
  {
    assert (a + b + c + d + e + f)[..|a|] == a;
  }

  // ---------------------------------------------------------------------------
  // routeParamsSchema

  /** `Joi.number().integer().min(1)`, optional. */
  function CheckId(path: string, v: Value): (ds: seq<Detail>)
    ensures |ds| <= 2
    ensures forall k :: 0 <= k < |ds| ==> ds[k].path == path
  {
    if v.Undefined? then []
    else match AsNumber(v)
      case None => [Fail(map[], NumberBase, path, 0)]
      case Some(n) =>
        (if IsInteger(n) then [] else [Fail(map[], NumberInteger, path, 0)])
        + (if n >= 1.0 then [] else [Fail(map[], NumberMin, path, 1)])
  }

  ghost predicate IdPasses(v: Value)
  {
    v.Undefined? || (AsNumber(v).Some? && IsInteger(AsNumber(v).value) && AsNumber(v).value >= 1.0)
  }

  lemma CheckIdPasses(path: string, v: Value)
    ensures CheckId(path, v) == [] <==> IdPasses(v)
  {
  }

  /** The keys `routeParamsSchema` lists, as written. */
  const ROUTE_PARAM_KEYS: seq<string> := ["offerId", "commentId"]

  /** All of Joi's details for route parameters against `routeParamsSchema` as written. */
  function RouteParamsDetails(params: Object, keys: seq<string>): seq<Detail>
  {
    CheckId("offerId", Get(params, "offerId")) + CheckId("commentId", Get(params, "commentId"))
    + Unknown(keys, ROUTE_PARAM_KEYS)
  }

  /** The keys the article routes actually use, `articleId` in place of `offerId`. */
  const ARTICLE_ROUTE_PARAM_KEYS: seq<string> := ["articleId", "commentId"]

  /** The evidently intended schema: `articleId` and `commentId`, integers from 1. */
  function ArticleRouteParamsDetails(params: Object, keys: seq<string>): (ds: seq<Detail>)
    ensures forall k :: 0 <= k < |ds| ==>
      ds[k].path in ARTICLE_ROUTE_PARAM_KEYS || (ds[k].rule == ObjectUnknown && ds[k].path in keys)
  {
    CheckId("articleId", Get(params, "articleId")) + CheckId("commentId", Get(params, "commentId"))
    + Unknown(keys, ARTICLE_ROUTE_PARAM_KEYS)
  }

  /**
   * As written, the parameters of `/articles/:articleId` are refused whatever
   * their value: `articleId` is not a key of the schema.
   */
  lemma RouteParamsRefuseArticleId(id: string)
    ensures RouteParamsDetails(map["articleId" := Str(id)], ["articleId"])
         == [Fail(map[], ObjectUnknown, "articleId", 0)]
  {
    var params := map["articleId" := Str(id)];
    assert Get(params, "offerId") == Undefined;
    assert Get(params, "commentId") == Undefined;
    assert "articleId" !in ROUTE_PARAM_KEYS;
    assert Unknown(["articleId"], ROUTE_PARAM_KEYS) == [Fail(map[], ObjectUnknown, "articleId", 0)] + Unknown([], ROUTE_PARAM_KEYS);
  }

  /**
   * With `articleId` in the schema, route parameters pass exactly when each of
   * `articleId` and `commentId` is absent or an integer from 1, and nothing else is present.
   */
  lemma ArticleRouteParamsValidIff(params: Object, keys: seq<string>)
    requires KeysOf(params, keys)
    ensures ArticleRouteParamsDetails(params, keys) == [] <==>
      IdPasses(Get(params, "articleId")) && IdPasses(Get(params, "commentId"))
      && params.Keys <= {"articleId", "commentId"}
  {
    CheckIdPasses("articleId", Get(params, "articleId"));
    CheckIdPasses("commentId", Get(params, "commentId"));
    UnknownEmpty(keys, ARTICLE_ROUTE_PARAM_KEYS);
  }

  lemma DecimalIntegerOfDigit(s: string)
    requires |s| == 1 && IsDigit(s[0])
    ensures DecimalInteger(s) == Some(DigitValue(s[0]))
  {
    assert UnsignedPart(s) == s;
    assert DigitPrefix(s) == [s[0]] + DigitPrefix([]);
    assert DigitsValue(s) == DigitsValue([]) * 10 + DigitValue(s[0]);
  }

  /** With `articleId` in the schema, `/articles/7` passes. */
  lemma ArticleRouteParamsAcceptSeven()
    ensures ArticleRouteParamsDetails(map["articleId" := Str("7")], ["articleId"]) == []
  {
    DecimalIntegerOfDigit("7");
    var params := map["articleId" := Str("7")];
    assert AsNumber(Get(params, "articleId")) == Some(7.0);
    assert Get(params, "commentId") == Undefined;
    assert Unknown(["articleId"], ARTICLE_ROUTE_PARAM_KEYS) == [] + Unknown([], ARTICLE_ROUTE_PARAM_KEYS);
  }

  /** With `articleId` in the schema, `/articles/0` is refused by `min(1)` alone. */
  lemma ArticleRouteParamsRefuseZero()
    ensures ArticleRouteParamsDetails(map["articleId" := Str("0")], ["articleId"])
         == [Fail(map[], NumberMin, "articleId", 1)]
  {
    DecimalIntegerOfDigit("0");
    var params := map["articleId" := Str("0")];
    assert AsNumber(Get(params, "articleId")) == Some(0.0);
    assert Get(params, "commentId") == Undefined;
    assert Unknown(["articleId"], ARTICLE_ROUTE_PARAM_KEYS) == [] + Unknown([], ARTICLE_ROUTE_PARAM_KEYS);
  }

  // ---------------------------------------------------------------------------
  // the exported object

  /** The names `Instances.COMMENT` and `Instances.ARTICLE`, which constants.js does not define. */
  datatype InstanceNames = InstanceNames(comment: string, article: string)

  datatype Schema = CommentSchema | ArticleSchema | RouteParamsSchema

  /**
   * `schemas[instanceType]`: the object literal lists the comment schema, the
   * article schema and `routeParamsSchema` in that order, so on a name clash the
   * later entry wins. `None` is `undefined`.
   */
  function Lookup(names: InstanceNames, instanceType: string): (s: Option<Schema>)
    ensures s == Some(ArticleSchema) <==> instanceType == names.article && instanceType != "routeParamsSchema"
    ensures s == Some(CommentSchema) <==>
      instanceType == names.comment && instanceType != names.article && instanceType != "routeParamsSchema"
    ensures s.None? <==> instanceType !in {names.comment, names.article, "routeParamsSchema"}
  {
    if instanceType == "routeParamsSchema" then Some(RouteParamsSchema)
    else if instanceType == names.article then Some(ArticleSchema)
    else if instanceType == names.comment then Some(CommentSchema)
    else None
  }

  /** `schema.validate(o, {abortEarly: false}).error.details` (empty when there is no error). */
  function Details(schema: Schema, o: Object, keys: seq<string>): seq<Detail>
  {
    match schema
    case CommentSchema => CommentDetails(o, keys)
    case ArticleSchema => ArticleDetails(o, keys)
    case RouteParamsSchema => RouteParamsDetails(o, keys)
  }
}
