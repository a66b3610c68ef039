/**
 * The handlers of src/service/api/category.js. The category table is an
 * abstract store from numeric id to name; what `categoryService.findAll(true)`
 * lists (each category with its article count) is a parameter, since the count
 * is computed by the database.
 */
module CategoryApi {
  import opened Wrappers
  import opened Text
  import opened Json
  import opened Http

  /** The category table: id to name. */
  type Store = map<int, string>

  /** A row of `findAll(true)`: the id and the `count` column as the driver returns it. */
  datatype CategoryRow = CategoryRow(id: int, count: Value)

  /**
   * Unary `+` on a value, `None` standing for `NaN`. Strings are read by
   * `NumberOf`: the empty string is 0, otherwise a plain decimal integer. An
   * array is read as its `join(',')`: the empty array is `""`, hence 0; one
   * item reads as that item's string (`undefined` and `null` give `""`); two
   * or more items put a comma in the string, which no number has.
   */
  function Plus(v: Value): (n: Option<real>)
    ensures v.Str? && NumberOf(v.s).Some? ==> n == Some(NumberOf(v.s).value as real)
    ensures v.Str? && NumberOf(v.s).None? ==> n.None?
    ensures v.Undefined? ==> n.None?
    ensures v.Arr? && |v.items| == 0 ==> n == Some(0.0)
    ensures v.Arr? && |v.items| == 1 && (v.items[0].Str? || v.items[0].Num? || v.items[0].Arr?) ==> n == Plus(v.items[0])
    ensures v.Arr? && |v.items| == 1 && (v.items[0].Undefined? || v.items[0].Null?) ==> n == Some(0.0)
    ensures v.Arr? && |v.items| >= 2 ==> n.None?
  {
    match v
    case Undefined => None
    case Null => Some(0.0)
    case Bool(b) => Some(if b then 1.0 else 0.0)
    case Num(n) => Some(n)
    case Str(s) => (match NumberOf(s) case None => None case Some(k) => Some(k as real))
    case Arr(xs) =>
      if |xs| == 0 then Some(0.0)
      else if |xs| >= 2 then None
      else match xs[0]
        case Undefined => Some(0.0)
        case Null => Some(0.0)
        case Bool(_) => None
        case _ => Plus(xs[0])
  }

  /** `+["7"]` is 7 and `+[]` is 0, while `+[1, 2]` is NaN. */
  lemma PlusOfArrays()
    ensures Plus(Arr([Str("7")])) == Some(7.0)
    ensures Plus(Arr([])) == Some(0.0)
    ensures Plus(Arr([Num(1.0), Num(2.0)])).None?
  {
    assert NumberOf("7") == Some(7);
  }

  /** `if (+x)`: a number other than 0 and `NaN`. */
  predicate NonZero(n: Option<real>)
  {
    n.Some? && n.value != 0.0
  }

  /** `categories.find((category) => category.id === +categoryId)`, as an index. */
  function Find(rows: seq<CategoryRow>, target: Option<real>): (k: Option<nat>)
    ensures k.Some? ==> k.value < |rows| && target == Some(rows[k.value].id as real)
    ensures k.Some? ==> forall i :: 0 <= i < k.value ==> target != Some(rows[i].id as real)
    ensures k.None? ==> forall i :: 0 <= i < |rows| ==> target != Some(rows[i].id as real)
  {
    if rows == [] then None
    else if target == Some(rows[0].id as real) then Some(0)
    else match Find(rows[1..], target)
      case None => None
      case Some(k) => Some(k + 1)
  }

  const NOT_FOUND_CATEGORY := "Not found category with id "
  const HAS_ARTICLES := "Can not remove category with articles related!"
  const CATEGORY_DELETED := "Category successfully deleted"

  /**
   * `DELETE /:categoryId`: find the listed category whose id is `+categoryId`,
   * refuse it while articles refer to it, otherwise delete it from the table.
   */
  function DeleteCategory(store: Store, rows: seq<CategoryRow>, categoryId: string): (r: (Response<()>, Store))
    ensures var k := Find(rows, Plus(Str(categoryId)));
      && (k.None? ==> r == (Response(NOT_FOUND, Text(NOT_FOUND_CATEGORY + categoryId)), store))
      && (k.Some? && NonZero(Plus(rows[k.value].count)) ==> r == (Response(FORBIDDEN, Text(HAS_ARTICLES)), store))
      && (k.Some? && !NonZero(Plus(rows[k.value].count)) && rows[k.value].id !in store ==>
            r == (Response(NOT_FOUND, Text(NOT_FOUND_CATEGORY + categoryId)), store))
      && (k.Some? && !NonZero(Plus(rows[k.value].count)) && rows[k.value].id in store ==>
            r == (Response(OK, Text(CATEGORY_DELETED)), store - {rows[k.value].id}))
  {
    match Find(rows, Plus(Str(categoryId)))
    case None => (Response(NOT_FOUND, Text(NOT_FOUND_CATEGORY + categoryId)), store)
    case Some(k) =>
      if NonZero(Plus(rows[k].count)) then (Response(FORBIDDEN, Text(HAS_ARTICLES)), store)
      else
        var id := rows[k].id;
        var deleted := id in store;
        if !deleted then (Response(NOT_FOUND, Text(NOT_FOUND_CATEGORY + categoryId)), store)
        else (Response(OK, Text(CATEGORY_DELETED)), store - {id})
  }

  /** The table changes only on a 200, and then loses exactly the one category. */
  lemma DeleteCategoryChangesOnlyOnSuccess(store: Store, rows: seq<CategoryRow>, categoryId: string)
    ensures var (response, store') := DeleteCategory(store, rows, categoryId);
      && response.status in {OK, FORBIDDEN, NOT_FOUND}
      && (response.status != OK ==> store' == store)
      && (response.status == OK ==> exists id :: id in store && store' == store - {id} && Plus(Str(categoryId)) == Some(id as real))
  {
    var k := Find(rows, Plus(Str(categoryId)));
    if k.Some? && !NonZero(Plus(rows[k.value].count)) && rows[k.value].id in store {
      var id := rows[k.value].id;
      assert id in store && Plus(Str(categoryId)) == Some(id as real);
    }
  }

  /** The listing shows exactly the categories of the table. */
  ghost predicate Listed(store: Store, rows: seq<CategoryRow>)
  {
    && (forall i :: 0 <= i < |rows| ==> rows[i].id in store)
    && (forall id :: id in store ==> exists i :: 0 <= i < |rows| && rows[i].id == id)
  }

  /**
   * When the listing agrees with the table, the second 404 (lines 69-72) is
   * never answered: 404 means there is no category with that number, 403 that
   * it has articles, and otherwise it is deleted.
   */
  lemma DeleteListedCategory(store: Store, rows: seq<CategoryRow>, categoryId: string)
    requires Listed(store, rows)
    ensures var (response, store') := DeleteCategory(store, rows, categoryId);
      && (response.status == NOT_FOUND <==> forall id :: id in store ==> Plus(Str(categoryId)) != Some(id as real))
      && (response.status == OK <==> response.status != NOT_FOUND && store' != store)
  {
    var target := Plus(Str(categoryId));
    var k := Find(rows, target);
    if k.None? {
      forall id | id in store ensures target != Some(id as real) {
        var i :| 0 <= i < |rows| && rows[i].id == id;
      }
    } else {
      var id := rows[k.value].id;
      assert id in store && target == Some(id as real);
      assert id in store && (store - {id}) != store;
    }
  }

  // ---------------------------------------------------------------------------
  // the other handlers

  /**
   * `GET /`: the `count` query parameter goes to `findAll` as it came, and the
   * list is always a 200. `findAll` stands for the category service.
   */
  function ListCategories<C>(query: Object, findAll: Value -> C): (r: Response<C>)
    ensures r.status == OK && r.body == Json(findAll(Get(query, "count")))
  {
    Response(OK, Json(findAll(Get(query, "count"))))
  }

  /** The JSON of `GET /:categoryId`. */
  datatype CategoryPage<C, A> = CategoryPage(category: Option<C>, count: nat, articlesByCategory: seq<A>)

  /**
   * `GET /:categoryId`: `category` is what `findOne` returned (`None` for
   * `null`) and `count`/`articles` what `findPage` returned. The answer is 200
   * even when there is no such category.
   */
  function GetCategory<C, A>(category: Option<C>, count: nat, articles: seq<A>): (r: Response<CategoryPage<C, A>>)
    ensures r.status == OK
    ensures r.body.Json? && r.body.value.category == category
    ensures r.body.value.count == count && r.body.value.articlesByCategory == articles
  {
    Response(OK, Json(CategoryPage(category, count, articles)))
  }

  /** `POST /`: what `create` returned, with status 201. */
  function CreateCategory<C>(created: C): (r: Response<C>)
    ensures r.status == CREATED && r.body == Json(created)
  {
    Response(CREATED, Json(created))
  }

  /**
   * `PUT /:categoryId`: `updated` is what `categoryService.update` reports. The
   * 404 text speaks of an article, as the handler writes it.
   */
  function UpdateCategory<T>(categoryId: string, updated: bool): (r: Response<T>)
    ensures r.status == OK <==> updated
    ensures updated ==> r.body == Text("Category successfully updated")
    ensures !updated ==> r == Response(NOT_FOUND, Text("Not found article with id " + categoryId))
  {
    if !updated then Response(NOT_FOUND, Text("Not found article with id " + categoryId))
    else Response(OK, Text("Category successfully updated"))
  }
}
