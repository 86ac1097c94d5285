/**
 * ParsePaginationQuery: the list endpoints' page, per_page, search, sort, order and filter
 * query parameters, with their defaults; every invalid parameter is reported at once.
 */
module QueryParser {
  import opened Base
  import opened Strs
  import Json
  import Http
  import Global

  datatype QueryParams = QueryParams(
    page: int, perPage: int, search: string, sort: string, order: string, filter: map<string, string>)

  const PageError := "Page must be a valid positive integer"
  const PerPageError := "Per page must be a valid positive integer"
  const OrderError := "Order must be either 'asc' or 'desc'"
  const FilterError := "Filter must be a valid JSON object"

  /** The members of an object read into map[string]string: string values, null as ""; a later key wins. */
  function StringValues(fields: seq<Json.Field>): (m: Option<map<string, string>>)
    ensures m.Some? ==> forall k :: k in m.value <==> k in Json.FieldsMap(fields)
    decreases |fields|
  {
    if fields == [] then Some(map[])
    else
      var last := fields[|fields| - 1];
      match StringValues(fields[..|fields| - 1])
      case None => None
      case Some(m) =>
        match last.value
        case Str(s) => Some(m[last.key := s])
        case Null => Some(m[last.key := ""])
        case _ => None
  }

  /** json.Unmarshal into map[string]string: an object of strings, or null (no map). */
  function DecodeFilter(s: string): Option<map<string, string>> {
    match Json.Parse(s)
    case Some(Null) => Some(map[])
    case Some(Obj(fs)) => StringValues(fs)
    case _ => None
  }

  /** strconv.Atoi, required to be at least 1. */
  function PositiveInt(s: string): (n: Option<int>)
    ensures n.Some? <==> Atoi(s).Some? && Atoi(s).value >= 1
    ensures n.Some? ==> n == Atoi(s)
  {
    match Atoi(s)
    case Some(v) => if v >= 1 then Some(v) else None
    case None => None
  }

  function PageText(r: Http.Request): string { Http.DefaultQuery(r, "page", "1") }
  function PerPageText(r: Http.Request): string { Http.DefaultQuery(r, "per_page", "10") }
  function Order(r: Http.Request): string { Http.DefaultQuery(r, "order", "asc") }
  function FilterText(r: Http.Request): string { Http.DefaultQuery(r, "filter", "{}") }

  predicate PageBad(r: Http.Request) { PositiveInt(PageText(r)).None? }
  predicate PerPageBad(r: Http.Request) { PositiveInt(PerPageText(r)).None? }
  predicate OrderBad(r: Http.Request) { Order(r) != "asc" && Order(r) != "desc" }
  predicate FilterBad(r: Http.Request) {
    DecodeFilter(FilterText(r)).None? && FilterText(r) != "{}" && FilterText(r) != ""
  }

  function AddIf(m: map<string, string>, c: bool, k: string, v: string): map<string, string> {
    if c then m[k := v] else m
  }

  /** The error map: one entry for each parameter that fails its rule, and no other. */
  function ValidationErrors(r: Http.Request): (errs: map<string, string>)
    ensures "page" in errs <==> Atoi(PageText(r)).None? || Atoi(PageText(r)).value < 1
    ensures "per_page" in errs <==> Atoi(PerPageText(r)).None? || Atoi(PerPageText(r)).value < 1
    ensures "order" in errs <==> Order(r) != "asc" && Order(r) != "desc"
    ensures "filter" in errs <==> DecodeFilter(FilterText(r)).None? && FilterText(r) != "{}" && FilterText(r) != ""
    ensures forall k :: k in errs ==> k == "page" || k == "per_page" || k == "order" || k == "filter"
    ensures "page" in errs ==> errs["page"] == PageError
    ensures "per_page" in errs ==> errs["per_page"] == PerPageError
    ensures "order" in errs ==> errs["order"] == OrderError
    ensures "filter" in errs ==> errs["filter"] == FilterError
  {
    var e1 := AddIf(map[], PageBad(r), "page", PageError);
    var e2 := AddIf(e1, PerPageBad(r), "per_page", PerPageError);
    var e3 := AddIf(e2, OrderBad(r), "order", OrderError);
    AddIf(e3, FilterBad(r), "filter", FilterError)
  }

  /** The parameters of a request without errors; the filter is empty when it cannot be decoded ("" is allowed). */
  function ParamsOf(r: Http.Request): (p: QueryParams)
    requires ValidationErrors(r) == map[]
    ensures p.page >= 1 && Atoi(PageText(r)) == Some(p.page)
    ensures p.perPage >= 1 && Atoi(PerPageText(r)) == Some(p.perPage)
    ensures p.order == "asc" || p.order == "desc"
  {
    var filter := DecodeFilter(FilterText(r));
    QueryParams(Atoi(PageText(r)).value, Atoi(PerPageText(r)).value,
                Global.SanitizeInput(Http.DefaultQuery(r, "search", "")), Global.SanitizeInput(Http.DefaultQuery(r, "sort", "")),
                Order(r), if filter.Some? then filter.value else map[])
  }

  /**
   * ParsePaginationQuery: the parameters, or None after a 422 listing every error (written
   * with c.JSON, so the chain is not aborted).
   */
  method ParsePaginationQuery(ctx: Http.Context) returns (params: Option<QueryParams>)
    modifies ctx
    ensures var errs := ValidationErrors(ctx.request);
      if errs != map[] then
        params.None? && ctx.responses == old(ctx.responses) + [Http.Errors(422, "Validation errors occurred", errs)]
      else params == Some(ParamsOf(ctx.request)) && ctx.responses == old(ctx.responses)
    ensures ctx.values == old(ctx.values) && ctx.cookies == old(ctx.cookies) && ctx.headers == old(ctx.headers)
    ensures ctx.aborted == old(ctx.aborted)
  {
    var r := ctx.request;
    var pageStr := Http.DefaultQuery(r, "page", "1");
    var perPageStr := Http.DefaultQuery(r, "per_page", "10");
    var search := Http.DefaultQuery(r, "search", "");
    var sort := Http.DefaultQuery(r, "sort", "");
    var order := Http.DefaultQuery(r, "order", "asc");
    var filterStr := Http.DefaultQuery(r, "filter", "{}");

    var errorsMap: map<string, string> := map[];
    var page := Atoi(pageStr);
    if page.None? || page.value < 1 {
      errorsMap := errorsMap["page" := PageError];
    }
    assert errorsMap == AddIf(map[], PageBad(r), "page", PageError);
    var perPage := Atoi(perPageStr);
    if perPage.None? || perPage.value < 1 {
      errorsMap := errorsMap["per_page" := PerPageError];
    }
    assert errorsMap == AddIf(AddIf(map[], PageBad(r), "page", PageError), PerPageBad(r), "per_page", PerPageError);
    if order != "asc" && order != "desc" {
      errorsMap := errorsMap["order" := OrderError];
    }
    var filter := DecodeFilter(filterStr);
    if filter.None? && filterStr != "{}" && filterStr != "" {
      errorsMap := errorsMap["filter" := FilterError];
    }
    assert errorsMap == ValidationErrors(r);

    if |errorsMap| > 0 {
      ctx.Respond(Http.Errors(422, "Validation errors occurred", errorsMap));
      return None;
    }
    assert errorsMap == map[];
    params := Some(QueryParams(page.value, perPage.value, Global.SanitizeInput(search), Global.SanitizeInput(sort),
                               order, if filter.Some? then filter.value else map[]));
  }

  /** A request without any of the parameters gets page 1 of 10, ascending, unfiltered. */
  lemma DefaultsAccepted(r: Http.Request)
    requires forall k :: k in r.query ==> k != "page" && k != "per_page" && k != "search" && k != "sort" && k != "order" && k != "filter"
    ensures ValidationErrors(r) == map[]
    ensures ParamsOf(r) == QueryParams(1, 10, "", "", "asc", map[])
  {
    assert PageText(r) == "1" && PerPageText(r) == "10" && Order(r) == "asc" && FilterText(r) == "{}";
    DefaultTexts();
  }

  /** How the default texts read. */
  lemma DefaultTexts()
    ensures Atoi("1") == Some(1) && Atoi("10") == Some(10)
    ensures DecodeFilter("{}") == Some(map[])
    ensures Global.SanitizeInput("") == ""
  {
    assert Atoi("1") == Some(1) by { AtoiRoundTrip(1); assert IntToDecimal(1) == "1"; }
    assert Atoi("10") == Some(10) by { AtoiRoundTrip(10); assert IntToDecimal(10) == "10"; }
    assert Json.Parse("{}") == Some(Json.Obj([])) by {
      Json.RoundTrip(Json.Obj([]));
      assert Json.Serialize(Json.Obj([])) == "{}";
    }
  }

  /** A page number written in decimal is the page asked for; one below 1 is an error. */
  lemma PageRoundTrip(r: Http.Request, n: int)
    requires MinInt64 <= n <= MaxInt64
    requires "page" in r.query && r.query["page"] == IntToDecimal(n)
    ensures "page" in ValidationErrors(r) <==> n < 1
    ensures ValidationErrors(r) == map[] ==> ParamsOf(r).page == n
  {
    AtoiRoundTrip(n);
  }

  /** A filter written as a JSON object of strings is the filter applied. */
  lemma FilterRoundTrip(r: Http.Request, fields: seq<Json.Field>)
    requires forall i :: 0 <= i < |fields| ==> fields[i].value.Str?
    requires "filter" in r.query && r.query["filter"] == Json.Serialize(Json.Obj(fields))
    ensures "filter" !in ValidationErrors(r)
    ensures ValidationErrors(r) == map[] ==> ParamsOf(r).filter == StringMap(fields)
  {
    FilterDecodes(fields);
    assert FilterText(r) == Json.Serialize(Json.Obj(fields));
    if ValidationErrors(r) == map[] {
      FilterOf(r);
    }
  }

  lemma FilterOf(r: Http.Request)
    requires ValidationErrors(r) == map[]
    ensures DecodeFilter(FilterText(r)).Some? ==> ParamsOf(r).filter == DecodeFilter(FilterText(r)).value
  {
  }

  lemma FilterDecodes(fields: seq<Json.Field>)
    requires forall i :: 0 <= i < |fields| ==> fields[i].value.Str?
    ensures DecodeFilter(Json.Serialize(Json.Obj(fields))) == Some(StringMap(fields))
  {
    Json.RoundTrip(Json.Obj(fields));
    StringValuesOfStrings(fields);
  }

  /** The map of an object of strings. */
  function StringMap(fields: seq<Json.Field>): map<string, string>
    requires forall i :: 0 <= i < |fields| ==> fields[i].value.Str?
    decreases |fields|
  {
    if fields == [] then map[]
    else StringMap(fields[..|fields| - 1])[fields[|fields| - 1].key := fields[|fields| - 1].value.s]
  }

  lemma {:induction false} StringValuesOfStrings(fields: seq<Json.Field>)
    requires forall i :: 0 <= i < |fields| ==> fields[i].value.Str?
    ensures StringValues(fields) == Some(StringMap(fields))
    decreases |fields|
  {
    if fields != [] {
      StringValuesOfStrings(fields[..|fields| - 1]);
    }
  }

  /** Search and sort reach the repository escaped and trimmed, with no markup left. */
  lemma SearchSanitized(r: Http.Request)
    requires ValidationErrors(r) == map[]
    ensures var p := ParamsOf(r);
      UnescapeHtml(p.search) == TrimSpace(Http.DefaultQuery(r, "search", ""))
      && forall k :: 0 <= k < |p.search| ==> !IsHtmlSpecial(p.search[k]) || p.search[k] == '&'
  {
    Global.SanitizeRoundTrip(Http.DefaultQuery(r, "search", ""));
    Global.SanitizeHasNoMarkup(Http.DefaultQuery(r, "search", ""));
  }
}
