/** The list-query normalisation the list routes share: optional query-string values
    `limit`, `page`, `sort` and `order` become the options and the sort object handed to
    `Model.find(...).sort(...)`. Each route fixes its own defaults; the guarded routes
    (doctors, services, specializations, bookings) are specified by ListSpec. */
module ListQuery {
  import opened JsValues
  import opened JsNumbers

  /** `req.query` as Express parses a query string without repeated keys. */
  type Query = map<string, string>

  /** The route-specific default sort key and order. */
  datatype Defaults = Defaults(sort: string, order: int)

  /** The third argument of `find` (option name to number) and the sort object. */
  datatype FindArgs = FindArgs(options: map<string, JsNum>, sortObj: map<string, int>)

  /** `req.query.key` is truthy: present and not the empty string. */
  predicate Given(query: Query, key: string) {
    key in query && query[key] != ""
  }

  /** `req.query.key && parseInt(req.query.key) > 0`, with the parsed number. */
  function PositiveParam(query: Query, key: string): Option<int> {
    if Given(query, key) && ParseInt(query[key]).Some? && ParseInt(query[key]).value > 0
    then ParseInt(query[key])
    else None
  }

  /** The page size: the parsed `limit` when positive, 10 otherwise. */
  function ListLimit(query: Query): int {
    match PositiveParam(query, "limit")
    case Some(n) => n
    case None => 10
  }

  /** The zero-based page: one less than the parsed `page` when positive, 0 otherwise. */
  function ListPage(query: Query): int {
    match PositiveParam(query, "page")
    case Some(n) => n - 1
    case None => 0
  }

  /** The sort key: any non-empty `sort`, the default otherwise. */
  function ListSort(query: Query, defaults: Defaults): string {
    if Given(query, "sort") then query["sort"] else defaults.sort
  }

  /** The order: -1 or 1 when `order` is exactly that text, the default otherwise. */
  function ListOrder(query: Query, defaults: Defaults): int {
    if "order" in query && query["order"] == "-1" then -1
    else if "order" in query && query["order"] == "1" then 1
    else defaults.order
  }

  /** `obj[key] = order` on an object made by `{}`. The key "__proto__" does not create a
      property there: it reaches the `Object.prototype` setter, which ignores a number, so
      the object stays as it was. */
  function AssignSortKey(obj: map<string, int>, key: string, order: int): map<string, int> {
    if key == "__proto__" then obj else obj[key := order]
  }

  /** What a guarded list route hands `find`: `{skip: page * limit, limit}` and the sort
      object `{}` after `sortObj[sort] = order`. */
  function ListSpec(query: Query, defaults: Defaults): FindArgs {
    FindArgs(map["skip" := Finite(ListPage(query) * ListLimit(query)), "limit" := Finite(ListLimit(query))],
             AssignSortKey(map[], ListSort(query, defaults), ListOrder(query, defaults)))
  }

  /** `parseInt` reads the two accepted order texts as the numbers they spell. */
  lemma ParseIntOfOrderTexts()
    ensures ParseInt("1") == Some(1)
    ensures ParseInt("-1") == Some(-1)
  {
    OneDigit('1');
    ParseIntOfDigits("1");
    ParseIntOfNegativeDigits("1");
    assert "-" + "1" == "-1";
  }

  /** The statements of the service, specialization and booking list routes, in their
      order: limit, page, order, sort, then the sort object. */
  method NormaliseListQuery(query: Query, defaults: Defaults) returns (args: FindArgs)
    ensures args == ListSpec(query, defaults)
  {
    var limit := 10;
    var page := 0;
    var order := defaults.order;
    var sort := defaults.sort;
    var sortObj: map<string, int> := map[];

    var parsedLimit := PositiveParam(query, "limit");
    if parsedLimit.Some? {
      limit := parsedLimit.value;
    }
    assert limit == ListLimit(query);
    var parsedPage := PositiveParam(query, "page");
    if parsedPage.Some? {
      page := parsedPage.value - 1;
    }
    assert page == ListPage(query);
    if Given(query, "order") && (query["order"] == "-1" || query["order"] == "1") {
      ParseIntOfOrderTexts();
      order := ParseInt(query["order"]).value;
    }
    assert order == ListOrder(query, defaults);
    if Given(query, "sort") {
      sort := query["sort"];
    }
    assert sort == ListSort(query, defaults);
    sortObj := AssignSortKey(sortObj, sort, order);

    args := FindArgs(map["skip" := Finite(page * limit), "limit" := Finite(limit)], sortObj);
  }

  /** The specification assembled from its four parts, in either order of the product. */
  lemma ListSpecOf(query: Query, defaults: Defaults, limit: int, page: int, sort: string, order: int)
    requires limit == ListLimit(query) && page == ListPage(query)
    requires sort == ListSort(query, defaults) && order == ListOrder(query, defaults)
    ensures ListSpec(query, defaults)
         == FindArgs(map["skip" := Finite(limit * page), "limit" := Finite(limit)], AssignSortKey(map[], sort, order))
  {
    assert page * limit == limit * page;
  }

  // ---------------------------------------------------------------------------
  // What every guarded list route promises

  /** The page size is at least 1, the offset is a whole number of pages, and the
      options name exactly `skip` and `limit`. */
  lemma ListSpecBounds(query: Query, defaults: Defaults)
    ensures var args := ListSpec(query, defaults);
      && args.options.Keys == {"skip", "limit"}
      && args.options["limit"].Finite? && args.options["limit"].n >= 1
      && args.options["skip"].Finite? && args.options["skip"].n >= 0
      && ListPage(query) >= 0
      && args.options["skip"].n == ListPage(query) * args.options["limit"].n
  {
    var page, limit := ListPage(query), ListLimit(query);
    assert page >= 0 && limit >= 1;
    NatProduct(page, limit);
  }

  /** For any sort key other than "__proto__", the sort object has exactly one key, the sort
      key, mapped to -1 or 1 or the default. */
  lemma ListSpecSortObject(query: Query, defaults: Defaults)
    requires ListSort(query, defaults) != "__proto__"
    ensures var args := ListSpec(query, defaults);
      && args.sortObj.Keys == {ListSort(query, defaults)}
      && (args.sortObj[ListSort(query, defaults)] in {-1, 1, defaults.order})
  {
  }

  /** `sort=__proto__` leaves the sort object empty, so `find` applies no order at all, while
      the paging options are those of the same query without `sort`. */
  lemma ListSpecProtoSort(query: Query, defaults: Defaults)
    requires "sort" in query && query["sort"] == "__proto__"
    ensures ListSpec(query, defaults).sortObj == map[]
    ensures ListSpec(query, defaults).options == ListSpec(query - {"sort"}, defaults).options
  {
    assert PositiveParam(query - {"sort"}, "limit") == PositiveParam(query, "limit");
    assert PositiveParam(query - {"sort"}, "page") == PositiveParam(query, "page");
  }

  /** Without any query the defaults apply: the first ten documents in default order (the
      routes' default keys are plain field names). */
  lemma ListSpecEmptyQuery(defaults: Defaults)
    requires defaults.sort != "__proto__"
    ensures ListSpec(map[], defaults)
         == FindArgs(map["skip" := Finite(0), "limit" := Finite(10)], map[defaults.sort := defaults.order])
  {
  }

  /** A page that `parseInt` reads as n >= 1 with a page size it reads as l >= 1 starts
      at (n - 1) * l, so consecutive pages tile the collection; `parseInt(String(n))` is n
      (JsNumbers.ParseIntOfDecimalText), so this covers the plain decimal texts. */
  lemma ListSpecPage(query: Query, defaults: Defaults, n: int, l: int)
    requires n >= 1 && l >= 1
    requires "page" in query && ParseInt(query["page"]) == Some(n)
    requires "limit" in query && ParseInt(query["limit"]) == Some(l)
    ensures ListSpec(query, defaults).options["skip"] == Finite((n - 1) * l)
    ensures ListSpec(query, defaults).options["limit"] == Finite(l)
  {
    assert query["page"] != "" && query["limit"] != "" by {
      assert ParseInt("") == None;
    }
  }

  /** A page that `parseInt` does not read as a positive number (absent, "0", "-3", "abc")
      leaves the first page in place. */
  lemma ListSpecIgnoresNonPositivePage(query: Query, defaults: Defaults)
    requires !Given(query, "page") || ParseInt(query["page"]).None? || ParseInt(query["page"]).value <= 0
    ensures ListSpec(query, defaults).options["skip"] == Finite(0)
  {
  }

  /** "0" as the page is one of those: it does not become page -1. */
  lemma ListSpecPageZero(query: Query, defaults: Defaults)
    requires "page" in query && query["page"] == "0"
    ensures ListSpec(query, defaults).options["skip"] == Finite(0)
  {
    ParseIntOfDecimalText(0);
    assert DecimalText(0) == "0";
  }

  /** The order changes only for the exact texts "-1" and "1": "+1", " 1" or "-01", which
      `parseInt` reads as numbers too, leave the default in place (whenever the sort key
      lands in the sort object at all). */
  lemma ListSpecOrderOnlyExact(query: Query, defaults: Defaults)
    ensures var key := ListSort(query, defaults);
      key != "__proto__" && ListSpec(query, defaults).sortObj[key] != defaults.order ==>
        "order" in query && (query["order"] == "-1" || query["order"] == "1")
    ensures var key := ListSort(query, defaults);
      key != "__proto__" && "order" in query && query["order"] == "-1" ==>
        ListSpec(query, defaults).sortObj[key] == -1
    ensures var key := ListSort(query, defaults);
      key != "__proto__" && "order" in query && query["order"] == "1" ==>
        ListSpec(query, defaults).sortObj[key] == 1
  {
  }

  /** Only `limit`, `page`, `sort` and `order` are read: any other parameter is ignored. */
  lemma ListSpecIgnoresOtherParameters(query: Query, extra: Query, defaults: Defaults)
    requires "limit" !in extra && "page" !in extra && "sort" !in extra && "order" !in extra
    ensures ListSpec(query + extra, defaults) == ListSpec(query, defaults)
  {
    assert PositiveParam(query + extra, "limit") == PositiveParam(query, "limit");
    assert PositiveParam(query + extra, "page") == PositiveParam(query, "page");
    assert ListSort(query + extra, defaults) == ListSort(query, defaults);
    assert ListOrder(query + extra, defaults) == ListOrder(query, defaults);
  }
}
