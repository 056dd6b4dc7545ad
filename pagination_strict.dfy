/**
 * The `paginator` inclusion tag of the `djutils` library: it indexes the
 * context directly, so every key it reads must be present and a missing one
 * raises KeyError, in the order the tag reads them.
 */
module PaginationStrict {
  import opened Framework
  import opened Paging

  /** The keys the result dictionary reads, in the order it reads them. */
  const DisplayedKeys: seq<string> :=
    ["is_paginated", "hits", "results_per_page", "page", "pages", "next", "previous", "has_next", "has_previous"]

  /** The first of `keys` that the context lacks. */
  function FirstMissing(keys: seq<string>, ctx: map<string, Value>): (m: Option<string>)
    ensures m.None? <==> forall k :: k in keys ==> k in ctx
    ensures m.Some? ==> m.value in keys && m.value !in ctx
    // every key read before the one reported is present
    ensures m.Some? ==> exists j :: 0 <= j < |keys| && keys[j] == m.value && forall i :: 0 <= i < j ==> keys[i] in ctx
  {
    if keys == [] then None
    else if keys[0] !in ctx then Some(keys[0])
    else
      var m := FirstMissing(keys[1..], ctx);
      if m.None? then m
      else
        var j :| 0 <= j < |keys[1..]| && keys[1..][j] == m.value && forall i :: 0 <= i < j ==> keys[1..][i] in ctx;
        assert keys[j + 1] == m.value && forall i :: 0 <= i < j + 1 ==> keys[i] in ctx;
        m
  }

  /**
   * Whether the comprehension reads `context['pages']`: only for a positive
   * `n` of the range, that is when the range is not empty and ends above 0.
   */
  predicate ComprehensionReadsPages(page: int, adjacent: int)
  {
    0 <= adjacent && 1 <= page + adjacent
  }

  /** The tag's result, or the error it raises, for a context and `adjacent_pages`. */
  function PaginatorOf(ctx: map<string, Value>, adjacent: int): (r: Result<Paginated, PaginatorError>)
    ensures r.Ok? <==>
      && "request" in ctx && ctx["request"].RequestV?
      && (forall k :: k in DisplayedKeys ==> k in ctx)
      && AsInt(ctx["page"]).Some?
    ensures r.Err? && r.error.KeyError? ==> r.error.key !in ctx
    ensures r.Ok? ==> Coherent(r.value, adjacent)
    ensures r.Ok? ==> r.value.paginatorUrl == LinkPrefixOf(ctx["request"].request.path, ctx["request"].request.get)
    ensures r.Ok? ==> PassedThrough(ctx, r.value)
  {
    if "request" !in ctx then Err(KeyError("request"))
    else if !ctx["request"].RequestV? then Err(AttributeError("GET"))
    else if "page" !in ctx then Err(KeyError("page"))
    else if AsInt(ctx["page"]).None? then Err(TypeError("page"))
    else if ComprehensionReadsPages(AsInt(ctx["page"]).value, adjacent) && "pages" !in ctx then Err(KeyError("pages"))
    else match FirstMissing(DisplayedKeys, ctx)
      case Some(k) => Err(KeyError(k))
      case None =>
        var request := ctx["request"].request;
        Ok(Display(ctx, LinkPrefixOf(request.path, request.get), adjacent))
  }

  /** Every value the result passes through is the context's own, unchanged. */
  predicate PassedThrough(ctx: map<string, Value>, p: Paginated)
  {
    && (forall k :: k in DisplayedKeys ==> k in ctx)
    && p.isPaginated == ctx["is_paginated"]
    && p.hits == ctx["hits"]
    && p.resultsPerPage == ctx["results_per_page"]
    && p.page == ctx["page"]
    && p.pages == ctx["pages"]
    && p.next == ctx["next"]
    && p.previous == ctx["previous"]
    && p.hasNext == ctx["has_next"]
    && p.hasPrevious == ctx["has_previous"]
  }

  /** The result dictionary, every key read with `context[...]`. */
  function Display(ctx: map<string, Value>, url: string, adjacent: int): (p: Paginated)
    requires forall k :: k in DisplayedKeys ==> k in ctx
    requires AsInt(ctx["page"]).Some?
    ensures Coherent(p, adjacent) && p.paginatorUrl == url && PassedThrough(ctx, p)
  {
    Assemble(url, ctx["is_paginated"], ctx["hits"], ctx["results_per_page"], ctx["page"], ctx["pages"],
             ctx["next"], ctx["previous"], ctx["has_next"], ctx["has_previous"], adjacent)
  }

  /** `paginator(context, adjacent_pages)` */
  method Paginator(ctx: map<string, Value>, adjacent: int) returns (r: Result<Paginated, PaginatorError>)
    ensures r == PaginatorOf(ctx, adjacent)
  {
    if "request" !in ctx {
      return Err(KeyError("request"));
    }
    var request := ctx["request"];
    if !request.RequestV? {
      return Err(AttributeError("GET"));
    }
    var url := LinkPrefix(request.request.path, request.request.get);
    if "page" !in ctx {
      return Err(KeyError("page"));
    }
    if AsInt(ctx["page"]).None? {
      return Err(TypeError("page"));
    }
    if ComprehensionReadsPages(AsInt(ctx["page"]).value, adjacent) && "pages" !in ctx {
      return Err(KeyError("pages"));
    }
    var missing := FirstMissing(DisplayedKeys, ctx);
    if missing.Some? {
      return Err(KeyError(missing.value));
    }
    r := Ok(Display(ctx, url, adjacent));
  }

  /**
   * A missing `pages` is reported before a missing `is_paginated` exactly
   * when the page window reaches a positive page.
   */
  lemma MissingPagesReportedEarly(ctx: map<string, Value>, adjacent: int)
    requires "request" in ctx && ctx["request"].RequestV?
    requires "page" in ctx && ctx["page"].IntV?
    requires "pages" !in ctx && "is_paginated" !in ctx
    ensures PaginatorOf(ctx, adjacent) ==
      if 0 <= adjacent && 1 <= ctx["page"].i + adjacent then Err(KeyError("pages")) else Err(KeyError("is_paginated"))
  {
  }
}
