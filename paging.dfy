/**
 * The logic the two `paginator` template tags share: the window of page
 * numbers around the current page, the "show first" / "show last" flags,
 * and the link prefix rebuilt from the request's query parameters with the
 * `page` parameter dropped. Both tags contain these lines verbatim; the
 * modules PaginationDefensive and PaginationStrict differ only in how they
 * read the template context.
 */
module Paging {
  import opened Framework

  /** The query parameter that page links set themselves. */
  const PageKey := "page"

  ghost predicate StrictlyAscending(s: seq<int>)
  {
    forall i, j :: 0 <= i < j < |s| ==> s[i] < s[j]
  }

  // ---------------------------------------------------------------------
  // The window of page numbers
  // ---------------------------------------------------------------------

  /** The integer a context value stands for in arithmetic (`bool` is an `int` in Python). */
  function AsInt(v: Value): Option<int>
  {
    match v
    case IntV(i) => Some(i)
    case BoolV(b) => Some(if b then 1 else 0)
    case _ => None
  }

  /**
   * Python 2's `n <= v` for an integer `n` and any context value `v`: numbers
   * compare by value, `None` orders below every number, and every other
   * kind of value orders above every number.
   */
  function IntAtMost(n: int, v: Value): bool
  {
    match v
    case NoneV => false
    case _ => AsInt(v).None? || n <= AsInt(v).value
  }

  /** Python's `n == v` for an integer `n` and any context value `v`. */
  function IntEquals(n: int, v: Value): bool
  {
    AsInt(v) == Some(n)
  }

  /**
   * The numbers `n` of `range(lo, hi + 1)` with `n > 0 and n <= pages`, in
   * the order the range yields them.
   */
  function Window(lo: int, hi: int, pages: Value): (r: seq<int>)
    ensures forall n :: n in r <==> lo <= n <= hi && 1 <= n && IntAtMost(n, pages)
    ensures StrictlyAscending(r)
    ensures |r| <= if lo <= hi then hi - lo + 1 else 0
    decreases hi - lo
  {
    if lo > hi then []
    else if 0 < lo && IntAtMost(lo, pages) then
      var rest := Window(lo + 1, hi, pages);
      assert forall j :: 0 <= j < |rest| ==> rest[j] in rest;
      [lo] + rest
    else Window(lo + 1, hi, pages)
  }

  /** What the template needs to draw the page links. */
  datatype PageLinks = PageLinks(pageNumbers: seq<int>, showFirst: bool, showLast: bool)

  /**
   * `page_numbers`, `show_first` and `show_last` for the current page, the
   * context's `pages` value and the number of links wanted on each side.
   */
  function PageWindow(page: int, pages: Value, adjacent: int): (w: PageLinks)
    ensures StrictlyAscending(w.pageNumbers)
    ensures forall n :: n in w.pageNumbers <==> page - adjacent <= n <= page + adjacent && 1 <= n && IntAtMost(n, pages)
    ensures w.showFirst <==> 1 !in w.pageNumbers
    ensures w.showLast <==> forall n :: n in w.pageNumbers ==> !IntEquals(n, pages)
    ensures 0 <= adjacent ==> |w.pageNumbers| <= 2 * adjacent + 1
    ensures adjacent < 0 ==> w.pageNumbers == [] && w.showFirst && w.showLast
    // the usual case: `pages` holds an integer count
    ensures pages.IntV? && 1 <= page <= pages.i && 0 <= adjacent ==> page in w.pageNumbers
    ensures pages.IntV? ==> (w.showFirst <==> !(page - adjacent <= 1 <= page + adjacent && 1 <= pages.i))
    ensures pages.IntV? ==> (w.showLast <==> !(page - adjacent <= pages.i <= page + adjacent && 1 <= pages.i))
    ensures pages.IntV? && pages.i <= 0 ==> w.pageNumbers == [] && w.showFirst && w.showLast
  {
    var numbers := Window(page - adjacent, page + adjacent, pages);
    assert numbers != [] ==> numbers[0] in numbers;
    assert pages.IntV? ==> ((exists n :: n in numbers && IntEquals(n, pages)) <==> pages.i in numbers);
    PageLinks(numbers, 1 !in numbers, !exists n :: n in numbers && IntEquals(n, pages))
  }

  /**
   * Two strictly ascending sequences with the same members are equal, so the
   * membership and ordering facts about `PageWindow` determine its list.
   */
  lemma {:induction false} AscendingUnique(a: seq<int>, b: seq<int>)
    requires StrictlyAscending(a) && StrictlyAscending(b)
    requires forall x :: x in a <==> x in b
    ensures a == b
  {
    if a == [] {
      assert forall k :: 0 <= k < |b| ==> b[k] in b;
    } else {
      assert a[0] in a;
      assert a[0] in b;
      assert b != [];
      assert b[0] in b;
      assert b[0] in a;
      assert a[0] == b[0];
      forall x
        ensures x in a[1..] <==> x in b[1..]
      {
        if x in a[1..] {
          var k :| 0 <= k < |a| - 1 && a[1..][k] == x;
          assert a[0] < a[k + 1];
          assert x in b;
          var m :| 0 <= m < |b| && b[m] == x;
          assert m != 0;
          assert b[1..][m - 1] == x;
        }
        if x in b[1..] {
          var k :| 0 <= k < |b| - 1 && b[1..][k] == x;
          assert b[0] < b[k + 1];
          assert x in a;
          var m :| 0 <= m < |a| && a[m] == x;
          assert m != 0;
          assert a[1..][m - 1] == x;
        }
      }
      AscendingUnique(a[1..], b[1..]);
      assert a == [a[0]] + a[1..];
      assert b == [b[0]] + b[1..];
    }
  }

  /**
   * `page_numbers` is exactly the ascending list of the pages within
   * `adjacent` of `page`: any strictly ascending list with those members is it.
   */
  lemma PageNumbersExact(page: int, pages: Value, adjacent: int, s: seq<int>)
    requires StrictlyAscending(s)
    requires forall n :: n in s <==> page - adjacent <= n <= page + adjacent && 1 <= n && IntAtMost(n, pages)
    ensures PageWindow(page, pages, adjacent).pageNumbers == s
  {
    AscendingUnique(PageWindow(page, pages, adjacent).pageNumbers, s);
  }

  // ---------------------------------------------------------------------
  // The link prefix
  // ---------------------------------------------------------------------

  /** The query pairs other than `page`, in their original order. */
  function Kept(items: seq<QueryPair>): seq<QueryPair>
  {
    if items == [] then []
    else
      var last := items[|items| - 1];
      Kept(items[..|items| - 1]) + (if last.key == PageKey then [] else [last])
  }

  /** A pair is kept exactly when it is one of the items and its key is not `page`; none are added. */
  lemma {:induction false} KeptMembers(items: seq<QueryPair>)
    ensures forall p :: p in Kept(items) <==> p in items && p.key != PageKey
    ensures |Kept(items)| <= |items|
  {
    if items != [] {
      var init, last := items[..|items| - 1], items[|items| - 1];
      KeptMembers(init);
      assert items == init + [last];
    }
  }

  /** Without a `page` pair nothing is dropped. */
  lemma {:induction false} KeptWithoutPage(items: seq<QueryPair>)
    requires forall i :: 0 <= i < |items| ==> items[i].key != PageKey
    ensures Kept(items) == items
  {
    if items != [] {
      KeptWithoutPage(items[..|items| - 1]);
      assert items[..|items| - 1] + [items[|items| - 1]] == items;
    }
  }

  /** A single pair is kept exactly when its key is not `page`. */
  lemma KeptSingle(p: QueryPair)
    ensures Kept([p]) == if p.key == PageKey then [] else [p]
  {
    assert [p][..0] == [];
  }

  /** Appending one pair appends it to the kept pairs unless its key is `page`. */
  lemma KeptSnoc(items: seq<QueryPair>, p: QueryPair)
    ensures Kept(items + [p]) == Kept(items) + Kept([p])
  {
    KeptSingle(p);
    assert (items + [p])[..|items|] == items;
  }

  /** Dropping `page` pairs commutes with concatenation: the rest keep their order and multiplicity. */
  lemma {:induction false} KeptConcat(a: seq<QueryPair>, b: seq<QueryPair>)
    ensures Kept(a + b) == Kept(a) + Kept(b)
    decreases |b|
  {
    if b == [] {
      assert a + b == a;
    } else {
      var b', p := b[..|b| - 1], b[|b| - 1];
      assert b == b' + [p];
      KeptConcat(a, b');
      KeptConcatStep(a, b', p);
    }
  }

  lemma KeptConcatStep(a: seq<QueryPair>, b: seq<QueryPair>, p: QueryPair)
    requires Kept(a + b) == Kept(a) + Kept(b)
    ensures Kept(a + (b + [p])) == Kept(a) + Kept(b + [p])
  {
    assert a + (b + [p]) == (a + b) + [p];
    KeptSnoc(a + b, p);
    KeptSnoc(b, p);
    var ka, kb, kp := Kept(a), Kept(b), Kept([p]);
    assert (ka + kb) + kp == ka + (kb + kp);
  }

  /** `u'%s=%s' % (k, v)`: the pair written out unescaped. */
  function Format(p: QueryPair): string
  {
    p.key + "=" + p.value
  }

  function Formatted(pairs: seq<QueryPair>): (r: seq<string>)
    ensures |r| == |pairs|
    ensures forall i :: 0 <= i < |pairs| ==> r[i] == Format(pairs[i])
  {
    seq(|pairs|, i requires 0 <= i < |pairs| => Format(pairs[i]))
  }

  /**
   * `paginator_url`: the request path, `?`, the kept pairs joined with `&`,
   * and a trailing `&` exactly when some pair was kept.
   */
  function LinkPrefixOf(path: string, items: seq<QueryPair>): string
  {
    var qs := Formatted(Kept(items));
    path + "?" + Join("&", qs) + (if qs != [] then "&" else "")
  }

  /** The loop that builds `qs` and the `paginator_url` it yields. */
  method LinkPrefix(path: string, items: seq<QueryPair>) returns (url: string)
    ensures url == LinkPrefixOf(path, items)
  {
    var qs: seq<string> := [];
    for i := 0 to |items|
      invariant qs == Formatted(Kept(items[..i]))
    {
      assert items[..i + 1][..i] == items[..i];
      if items[i].key == PageKey {
        continue;
      }
      qs := qs + [Format(items[i])];
    }
    assert items[..|items|] == items;
    url := path + "?" + Join("&", qs);
    if qs != [] {
      url := url + "&";
    }
  }

  // ---------------------------------------------------------------------
  // Reading a link back: the query string the browser sends for it
  // ---------------------------------------------------------------------

  /** `s.split(c)` */
  function SplitOn(c: char, s: string): (r: seq<string>)
    ensures |r| >= 1
    decreases |s|
  {
    if c !in s then [s]
    else
      var i := FirstIndex(c, s);
      [s[..i]] + SplitOn(c, s[i + 1..])
  }

  lemma {:induction false} SplitJoin(c: char, parts: seq<string>)
    requires parts != []
    requires forall part :: part in parts ==> c !in part
    ensures SplitOn(c, Join([c], parts)) == parts
  {
    if |parts| > 1 {
      var p, tail := parts[0], parts[1..];
      var rest := Join([c], tail);
      var s := p + [c] + rest;
      assert Join([c], parts) == s;
      assert p in parts;
      SplitAt(c, p, rest);
      SplitJoin(c, tail);
      assert parts == [p] + tail;
    }
  }

  lemma SplitAt(c: char, a: string, b: string)
    requires c !in a
    ensures SplitOn(c, a + [c] + b) == [a] + SplitOn(c, b)
  {
    var s := a + [c] + b;
    FirstIndexAfter(c, a, b);
    assert s[|a|] == c;
    assert s[..|a|] == a;
    assert s[|a| + 1..] == b;
  }

  lemma {:induction false} JoinSnoc(sep: string, parts: seq<string>, x: string)
    requires parts != []
    ensures Join(sep, parts + [x]) == Join(sep, parts) + sep + x
  {
    if |parts| > 1 {
      assert (parts + [x])[1..] == parts[1..] + [x];
      JoinSnoc(sep, parts[1..], x);
    }
  }

  /** One query-string piece split at its first `=`; a piece without `=` has an empty value. */
  function ParsePair(piece: string): QueryPair
  {
    if '=' in piece then
      var i := FirstIndex('=', piece);
      QueryPair(piece[..i], piece[i + 1..])
    else QueryPair(piece, "")
  }

  /** The pairs of the non-empty pieces, in order; empty pieces are skipped. */
  function ParsePieces(pieces: seq<string>): seq<QueryPair>
  {
    if pieces == [] then []
    else (if pieces[0] == "" then [] else [ParsePair(pieces[0])]) + ParsePieces(pieces[1..])
  }

  /** The query pairs a query string decodes to. */
  function ParseQuery(query: string): seq<QueryPair>
  {
    ParsePieces(SplitOn('&', query))
  }

  /** Everything after the first `?` of a URL. */
  function QueryOf(url: string): string
  {
    if '?' in url then url[FirstIndex('?', url) + 1..] else ""
  }

  /** A pair whose written form reads back as itself. */
  ghost predicate Plain(p: QueryPair)
  {
    '&' !in p.key && '=' !in p.key && '&' !in p.value
  }

  lemma {:induction false} ParseFormatted(pairs: seq<QueryPair>)
    requires forall p :: p in pairs ==> Plain(p)
    ensures ParsePieces(Formatted(pairs)) == pairs
  {
    if pairs != [] {
      var p := pairs[0];
      assert p in pairs;
      FirstIndexAfter('=', p.key, p.value);
      assert Format(p) == p.key + ['='] + p.value;
      assert Format(p)[..|p.key|] == p.key;
      assert Format(p)[|p.key| + 1..] == p.value;
      assert Formatted(pairs)[1..] == Formatted(pairs[1..]);
      ParseFormatted(pairs[1..]);
      assert pairs == [p] + pairs[1..];
    }
  }

  lemma {:induction false} ParsePiecesConcat(a: seq<string>, b: seq<string>)
    ensures ParsePieces(a + b) == ParsePieces(a) + ParsePieces(b)
  {
    if a != [] {
      assert (a + b)[1..] == a[1..] + b;
      ParsePiecesConcat(a[1..], b);
    } else {
      assert a + b == b;
    }
  }

  lemma QueryAfterPath(path: string, rest: string)
    requires '?' !in path
    ensures QueryOf(path + "?" + rest) == rest
  {
    var url := path + "?" + rest;
    FirstIndexAfter('?', path, rest);
    assert url == path + ['?'] + rest;
    assert url[|path| + 1..] == rest;
  }

  /**
   * Reading the link prefix back gives exactly the kept pairs, in order:
   * the `page` pairs are gone and the trailing `&` adds nothing.
   */
  lemma LinkPrefixReadsBack(path: string, items: seq<QueryPair>)
    requires '?' !in path
    requires forall p :: p in Kept(items) ==> Plain(p)
    ensures ParseQuery(QueryOf(LinkPrefixOf(path, items))) == Kept(items)
  {
    var kept := Kept(items);
    var qs := Formatted(kept);
    if qs == [] {
      QueryAfterPath(path, "");
      assert SplitOn('&', "") == [""];
    } else {
      var query := Join("&", qs) + "&";
      assert LinkPrefixOf(path, items) == path + "?" + query;
      QueryAfterPath(path, query);
      ReadsBackTrailing(kept);
    }
  }

  /** Pairs joined with `&` and followed by one more `&` read back as those pairs. */
  lemma ReadsBackTrailing(pairs: seq<QueryPair>)
    requires pairs != []
    requires forall p :: p in pairs ==> Plain(p)
    ensures ParseQuery(Join("&", Formatted(pairs)) + "&") == pairs
  {
    var qs := Formatted(pairs);
    JoinSnoc("&", qs, "");
    assert Join("&", qs) + "&" == Join(['&'], qs + [""]);
    FormattedHasNoAmpersand(pairs);
    assert forall part :: part in qs + [""] ==> part in qs || part == "";
    SplitJoin('&', qs + [""]);
    ParsePiecesConcat(qs, [""]);
    ParseFormatted(pairs);
  }

  /**
   * Appending `page=N` to the link prefix always yields a well-formed query:
   * it reads back as the kept pairs followed by the new page, whether or not
   * any pair was kept.
   */
  lemma PageLinkReadsBack(path: string, items: seq<QueryPair>, n: string)
    requires '?' !in path && '&' !in n
    requires forall p :: p in Kept(items) ==> Plain(p)
    ensures ParseQuery(QueryOf(LinkPrefixOf(path, items) + Format(QueryPair(PageKey, n))))
         == Kept(items) + [QueryPair(PageKey, n)]
  {
    var kept := Kept(items) + [QueryPair(PageKey, n)];
    PageLinkShape(path, items, n);
    QueryAfterPath(path, Join("&", Formatted(kept)));
    SnocPlain(Kept(items), QueryPair(PageKey, n));
    ReadsBackJoined(kept);
  }

  lemma SnocPlain(pairs: seq<QueryPair>, last: QueryPair)
    requires forall p :: p in pairs ==> Plain(p)
    requires Plain(last)
    ensures forall p :: p in pairs + [last] ==> Plain(p)
  {
  }

  /**
   * The pairs are written unescaped, so a kept value holding `&` does not
   * read back: `q=a&b` comes back as the two pairs `q=a` and `b=`.
   */
  lemma AmpersandValueSplits()
    ensures var items := [QueryPair("q", "a&b")];
      && Kept(items) == items
      && ParseQuery(QueryOf(LinkPrefixOf("/", items))) == [QueryPair("q", "a"), QueryPair("b", "")]
  {
    var items := [QueryPair("q", "a&b")];
    KeptSingle(items[0]);
    assert Format(items[0]) == "q" + "=" + "a&b" == "q=a&b";
    assert Formatted(items) == ["q=a&b"];
    assert LinkPrefixOf("/", items) == "/" + "?" + "q=a&b&";
    QueryAfterPath("/", "q=a&b&");
    SplitAmpersands();
    ParseTwoPieces();
  }

  lemma SplitAmpersands()
    ensures SplitOn('&', "q=a&b&") == ["q=a", "b", ""]
  {
    assert "q=a&b&" == "q=a" + ['&'] + "b&";
    SplitAt('&', "q=a", "b&");
    assert "b&" == "b" + ['&'] + "";
    SplitAt('&', "b", "");
    assert SplitOn('&', "") == [""];
  }

  lemma ParseTwoPieces()
    ensures ParsePieces(["q=a", "b", ""]) == [QueryPair("q", "a"), QueryPair("b", "")]
  {
    assert "q=a" == "q" + ['='] + "a";
    FirstIndexAfter('=', "q", "a");
    assert ParsePair("q=a") == QueryPair("q", "a");
    assert ParsePair("b") == QueryPair("b", "");
    assert ["q=a", "b", ""][1..] == ["b", ""];
    assert ["b", ""][1..] == [""];
  }

  /** The link to page `n` is the path followed by all its pairs joined with `&`. */
  lemma PageLinkShape(path: string, items: seq<QueryPair>, n: string)
    ensures LinkPrefixOf(path, items) + Format(QueryPair(PageKey, n))
         == path + "?" + Join("&", Formatted(Kept(items) + [QueryPair(PageKey, n)]))
  {
    var qs := Formatted(Kept(items));
    var tail := Format(QueryPair(PageKey, n));
    assert Formatted(Kept(items) + [QueryPair(PageKey, n)]) == qs + [tail];
    JoinWithTrailing(qs, tail);
  }

  /** Joining with a trailing `&` and then appending one more part is joining all the parts. */
  lemma JoinWithTrailing(qs: seq<string>, tail: string)
    ensures Join("&", qs) + (if qs != [] then "&" else "") + tail == Join("&", qs + [tail])
  {
    if qs == [] {
      assert qs + [tail] == [tail];
    } else {
      JoinSnoc("&", qs, tail);
    }
  }

  lemma FormattedHasNoAmpersand(pairs: seq<QueryPair>)
    requires forall p :: p in pairs ==> Plain(p)
    ensures forall part :: part in Formatted(pairs) ==> '&' !in part
  {
    forall part | part in Formatted(pairs)
      ensures '&' !in part
    {
      var i :| 0 <= i < |pairs| && Formatted(pairs)[i] == part;
      assert pairs[i] in pairs;
      assert part == pairs[i].key + ['='] + pairs[i].value;
    }
  }

  lemma ReadsBackJoined(pairs: seq<QueryPair>)
    requires pairs != []
    requires forall p :: p in pairs ==> Plain(p)
    ensures ParseQuery(Join("&", Formatted(pairs))) == pairs
  {
    FormattedHasNoAmpersand(pairs);
    SplitJoin('&', Formatted(pairs));
    ParseFormatted(pairs);
  }

  // ---------------------------------------------------------------------
  // The tag's result
  // ---------------------------------------------------------------------

  /** The dictionary the `paginator` inclusion tag returns. */
  datatype Paginated = Paginated(
    paginatorUrl: string,
    isPaginated: Value,
    hits: Value,
    resultsPerPage: Value,
    page: Value,
    pages: Value,
    pageNumbers: seq<int>,
    next: Value,
    previous: Value,
    hasNext: Value,
    hasPrevious: Value,
    showFirst: bool,
    showLast: bool)

  /** What the tag raises: a missing key, a missing attribute, or arithmetic on a non-number. */
  datatype PaginatorError = KeyError(key: string) | AttributeError(name: string) | TypeError(key: string)

  /**
   * The facts every result of either `paginator` tag satisfies: the page is
   * a number, the page list is the window around it clipped to
   * `[1, pages]`, and each flag says that its end page has no link in the list.
   */
  ghost predicate Coherent(r: Paginated, adjacent: int)
  {
    && AsInt(r.page).Some?
    && StrictlyAscending(r.pageNumbers)
    && (forall n :: n in r.pageNumbers <==>
          AsInt(r.page).value - adjacent <= n <= AsInt(r.page).value + adjacent && 1 <= n && IntAtMost(n, r.pages))
    && (r.showFirst <==> 1 !in r.pageNumbers)
    && (r.showLast <==> forall n :: n in r.pageNumbers ==> !IntEquals(n, r.pages))
  }

  /** The result the tag builds once every lookup has succeeded. */
  function Assemble(url: string, isPaginated: Value, hits: Value, resultsPerPage: Value,
                    page: Value, pages: Value, next: Value, previous: Value,
                    hasNext: Value, hasPrevious: Value, adjacent: int): (r: Paginated)
    requires AsInt(page).Some?
    ensures Coherent(r, adjacent)
  {
    var w := PageWindow(AsInt(page).value, pages, adjacent);
    Paginated(url, isPaginated, hits, resultsPerPage, page, pages, w.pageNumbers,
              next, previous, hasNext, hasPrevious, w.showFirst, w.showLast)
  }
}
