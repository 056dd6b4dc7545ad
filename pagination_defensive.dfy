/**
 * The `paginator` inclusion tag of the `djutils_tags` library: it reads
 * `page` and `pages` with `context.get`, defaulting both to 1, and the
 * pass-through keys (`hits`, `next`, ...) defaulting to None. Only `request`
 * and `is_paginated` must be present.
 */
module PaginationDefensive {
  import opened Framework
  import opened Paging

  /** The tag's result, or the error it raises, for a context and `adjacent_pages`. */
  function PaginatorOf(ctx: map<string, Value>, adjacent: int): (r: Result<Paginated, PaginatorError>)
    ensures r.Ok? <==>
      && "request" in ctx && ctx["request"].RequestV?
      && ("page" in ctx ==> AsInt(ctx["page"]).Some?)
      && "is_paginated" in ctx
    // the failures, in the order the tag reads the context
    ensures "request" !in ctx ==> r == Err(KeyError("request"))
    ensures "request" in ctx && !ctx["request"].RequestV? ==> r == Err(AttributeError("GET"))
    ensures ("request" in ctx && ctx["request"].RequestV? && "page" in ctx && AsInt(ctx["page"]).None?)
            ==> r == Err(TypeError("page"))
    ensures ("request" in ctx && ctx["request"].RequestV? && ("page" in ctx ==> AsInt(ctx["page"]).Some?)
             && "is_paginated" !in ctx) ==> r == Err(KeyError("is_paginated"))
    ensures r.Ok? ==> Coherent(r.value, adjacent)
    ensures r.Ok? ==> r.value.paginatorUrl == LinkPrefixOf(ctx["request"].request.path, ctx["request"].request.get)
    ensures r.Ok? ==> r.value.isPaginated == ctx["is_paginated"]
    // `page` and `pages` default to 1
    ensures r.Ok? ==> r.value.page == (if "page" in ctx then ctx["page"] else IntV(1))
    ensures r.Ok? ==> r.value.pages == (if "pages" in ctx then ctx["pages"] else IntV(1))
    // the pass-through keys default to None
    ensures r.Ok? ==> r.value.hits == (if "hits" in ctx then ctx["hits"] else NoneV)
    ensures r.Ok? ==> r.value.resultsPerPage == (if "results_per_page" in ctx then ctx["results_per_page"] else NoneV)
    ensures r.Ok? ==> r.value.next == (if "next" in ctx then ctx["next"] else NoneV)
    ensures r.Ok? ==> r.value.previous == (if "previous" in ctx then ctx["previous"] else NoneV)
    ensures r.Ok? ==> r.value.hasNext == (if "has_next" in ctx then ctx["has_next"] else NoneV)
    ensures r.Ok? ==> r.value.hasPrevious == (if "has_previous" in ctx then ctx["has_previous"] else NoneV)
  {
    if "request" !in ctx then Err(KeyError("request"))
    else if !ctx["request"].RequestV? then Err(AttributeError("GET"))
    else
      var request := ctx["request"].request;
      var page := GetOr(ctx, "page", IntV(1));
      var pages := GetOr(ctx, "pages", IntV(1));
      if AsInt(page).None? then Err(TypeError("page"))
      else if "is_paginated" !in ctx then Err(KeyError("is_paginated"))
      else
        Ok(Assemble(LinkPrefixOf(request.path, request.get), ctx["is_paginated"],
                    GetOr(ctx, "hits", NoneV), GetOr(ctx, "results_per_page", NoneV), page, pages,
                    GetOr(ctx, "next", NoneV), GetOr(ctx, "previous", NoneV),
                    GetOr(ctx, "has_next", NoneV), GetOr(ctx, "has_previous", NoneV), adjacent))
  }

  /** `paginator(context, adjacent_pages)` */
  method Paginator(ctx: map<string, Value>, adjacent: int) returns (r: Result<Paginated, PaginatorError>)
    ensures r == PaginatorOf(ctx, adjacent)
  {
    if "request" !in ctx {
      return Err(KeyError("request"));
    }
    var request := ctx["request"];
    if !request.RequestV? {
      return Err(AttributeError("GET"));
    }
    var url := LinkPrefix(request.request.path, request.request.get);
    var page := GetOr(ctx, "page", IntV(1));
    var pages := GetOr(ctx, "pages", IntV(1));
    if AsInt(page).None? {
      return Err(TypeError("page"));
    }
    if "is_paginated" !in ctx {
      return Err(KeyError("is_paginated"));
    }
    r := Ok(Assemble(url, ctx["is_paginated"],
                     GetOr(ctx, "hits", NoneV), GetOr(ctx, "results_per_page", NoneV), page, pages,
                     GetOr(ctx, "next", NoneV), GetOr(ctx, "previous", NoneV),
                     GetOr(ctx, "has_next", NoneV), GetOr(ctx, "has_previous", NoneV), adjacent));
  }

  /**
   * With `page` and `pages` absent the tag draws the single page 1, and
   * neither the first nor the last page gets an extra link.
   */
  lemma DefaultsGiveOnePage(ctx: map<string, Value>, adjacent: int)
    requires "request" in ctx && ctx["request"].RequestV? && "is_paginated" in ctx
    requires "page" !in ctx && "pages" !in ctx && adjacent >= 0
    ensures PaginatorOf(ctx, adjacent).Ok?
    ensures PaginatorOf(ctx, adjacent).value.pageNumbers == [1]
    ensures !PaginatorOf(ctx, adjacent).value.showFirst && !PaginatorOf(ctx, adjacent).value.showLast
  {
    var r := PaginatorOf(ctx, adjacent).value;
    assert 1 in r.pageNumbers;
    PageNumbersExact(1, IntV(1), adjacent, [1]);
  }
}
